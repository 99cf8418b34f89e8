// Where the guarantees of the send lock end: timers that fire too early, and a lock that is leaked.
module SendFailures {
  import L = LockTimers
  import opened LockObjects
  import opened SendProtocol
  import SendTimeliness

  // ----- premature timers -----

  /** A request in its window can lose its lock only to a premature timer, and then does. */
  lemma HoldEndsExactly(hsmWallets: set<WalletId>, events: seq<Event>, sys: System, e: Event)
    requires TimelyRun(Initial(hsmWallets), events, sys) && Enabled(sys, e)
    ensures Exclusive(Next(sys, e)) <==> !Premature(sys, e)
  {
    hide TimelyRun, Next, Accounted, Busy, SendTimeliness.SendLocks;
    SendTimeliness.DatedWhenReached(hsmWallets, events, sys);
    if Premature(sys, e) {
      var r :| InWindow(sys, r) && LockFor(sys, sys.requests[r].wallet) == e.l;
      TimerFreesLock(sys, e);
      assert InWindow(Next(sys, e), r);
    } else {
      NextKeepsInv(sys, e);
    }
  }

  /** A timer frees its lock and touches nothing else. */
  lemma TimerFreesLock(sys: System, e: Event)
    requires SendTimeliness.SendLocks(sys) && Enabled(sys, e) && e.TimerFires?
    ensures !Busy(Next(sys, e), e.l)
    ensures forall l :: l != e.l ==> (Busy(Next(sys, e), l) <==> Busy(sys, l))
    ensures Next(sys, e).requests == sys.requests && Next(sys, e).hsmWallets == sys.hsmWallets
  {
    var st := LockAt(sys, e.l);
    assert SendTimeliness.SendLock(st);
    L.ExpireKeepsTimers(st, e.id);
  }

  /** Two requests between acquiring and releasing the same lock. */
  ghost predicate TwoInWindow(sys: System) {
    exists a, b :: a != b && SameWindow(sys, a, b)
  }

  predicate SameWindow(sys: System, a: RequestId, b: RequestId) {
    && InWindow(sys, a) && InWindow(sys, b)
    && LockFor(sys, sys.requests[a].wallet) == LockFor(sys, sys.requests[b].wallet)
  }

  /** A step after a timely run lets the next request join another exactly when it is that lock's premature timer. */
  lemma ExclusionFailsExactly(hsmWallets: set<WalletId>, events: seq<Event>, sys: System, e: Event,
                              b: RequestId, wallet: WalletId, kind: Kind)
    requires TimelyRun(Initial(hsmWallets), events, sys)
    requires Enabled(sys, e) && Enabled(Next(sys, e), Start(b, wallet, kind))
    ensures TwoInWindow(Next(Next(sys, e), Start(b, wallet, kind)))
            <==> Premature(sys, e) && LockFor(sys, wallet) == e.l
  {
    hide TimelyRun, Next, Accounted, Busy, SendTimeliness.SendLocks;
    var start := Start(b, wallet, kind);
    SendTimeliness.DatedWhenReached(hsmWallets, events, sys);
    if !Premature(sys, e) {
      NextKeepsInv(sys, e);
      NextKeepsInv(Next(sys, e), start);
    } else if LockFor(sys, wallet) == e.l {
      var a :| InWindow(sys, a) && LockFor(sys, sys.requests[a].wallet) == e.l;
      SuccessorEnters(sys, e, a, start);
    } else {
      OtherLockUnaffected(sys, e, start);
    }
  }

  lemma SuccessorEnters(sys: System, e: Event, a: RequestId, start: Event)
    requires Inv(sys) && SendTimeliness.SendLocks(sys) && Enabled(sys, e) && e.TimerFires?
    requires InWindow(sys, a) && LockFor(sys, sys.requests[a].wallet) == e.l
    requires Enabled(Next(sys, e), start) && start.Start? && LockFor(sys, start.wallet) == e.l
    ensures var both := Next(Next(sys, e), start);
            && a != start.r && SameWindow(both, a, start.r)
            && !both.requests[a].lockReleased && Busy(both, e.l)
            && both.hsmWallets == sys.hsmWallets && both.requests[a].wallet == sys.requests[a].wallet
  {
    hide Next, L.Held, L.Locked, Accounted, SendTimeliness.SendLocks;
    var next := Next(sys, e);
    TimerFreesLock(sys, e);
    StartAfter(next, start);
    OthersAfter(next, start, a);
    LockFacts(LockAt(next, e.l), L.DEFAULT_UNLOCK_TIMEOUT, next.now);
  }

  lemma OtherLockUnaffected(sys: System, e: Event, start: Event)
    requires Inv(sys) && SendTimeliness.SendLocks(sys) && Enabled(sys, e) && e.TimerFires?
    requires Enabled(Next(sys, e), start) && start.Start? && LockFor(sys, start.wallet) != e.l
    ensures !TwoInWindow(Next(Next(sys, e), start))
  {
    hide Next, Busy, Accounted, SendTimeliness.SendLocks;
    var next, both := Next(sys, e), Next(Next(sys, e), start);
    TimerFreesLock(sys, e);
    StartAfter(next, start);
    forall a, b | a != b
      ensures !SameWindow(both, a, b)
    {
      if a != start.r { OthersAfter(next, start, a); }
      if b != start.r { OthersAfter(next, start, b); }
    }
  }

  /** And then the first request's own release, whatever makes it, frees the lock under its successor. */
  lemma SuccessorLosesItsLock(hsmWallets: set<WalletId>, events: seq<Event>, sys: System, e: Event,
                              a: RequestId, b: RequestId, wallet: WalletId, kind: Kind, release: Event)
    requires TimelyRun(Initial(hsmWallets), events, sys) && Enabled(sys, e) && e.TimerFires?
    requires InWindow(sys, a) && LockFor(sys, sys.requests[a].wallet) == e.l
    requires Enabled(Next(sys, e), Start(b, wallet, kind)) && LockFor(sys, wallet) == e.l
    requires var both := Next(Next(sys, e), Start(b, wallet, kind));
             Enabled(both, release) && Concerns(release, a) && At(Next(both, release), a, LEFT)
    ensures var both := Next(Next(sys, e), Start(b, wallet, kind));
            && InWindow(both, b) && Busy(both, e.l)
            && InWindow(Next(both, release), b) && !Busy(Next(both, release), e.l)
  {
    hide TimelyRun, Next, L.Held, L.Unlocked, SendTimeliness.SendLocks;
    SendTimeliness.DatedWhenReached(hsmWallets, events, sys);
    SuccessorEnters(sys, e, a, Start(b, wallet, kind));
    var both := Next(Next(sys, e), Start(b, wallet, kind));
    OwnAfter(both, release, a);
    OthersAfter(both, release, b);
    LockFacts(LockAt(both, e.l), 0, 0);
  }

  /** The unlock of unlockInputs looks at no flag: in any state it frees the lock, whoever is in the window. */
  lemma UnlockInputsFreesAnyone(sys: System, a: RequestId, b: RequestId)
    requires Enabled(sys, TakingBackEnded(a)) && SameWindow(sys, a, b) && a != b
    ensures var next := Next(sys, TakingBackEnded(a));
            InWindow(next, b) && !Busy(next, LockFor(next, next.requests[b].wallet))
  {
    hide L.Held, L.Unlocked;
    LockFacts(LockAt(sys, LockFor(sys, sys.requests[a].wallet)), 0, 0);
  }

  /** The run on which the first request's timer fires before it releases. */
  function ExpiredHolder(w: WalletId, a: RequestId, b: RequestId): seq<Event> {
    [Start(a, w, OtherSend), Advance(L.DEFAULT_UNLOCK_TIMEOUT), TimerFires(OfWallet(w), 1), Start(b, w, OtherSend)]
  }

  lemma RunOne(sys: System, e: Event, rest: seq<Event>, end: System)
    requires Enabled(sys, e) && Run(Next(sys, e), rest, end)
    ensures Run(sys, [e] + rest, end)
  {
    assert ([e] + rest)[1..] == rest;
  }

  lemma NothingHeld()
    ensures !L.Held(L.NewLock(), L.SEND_TX)
  {}

  lemma OneTimer(w: WalletId, sys: System)
    requires sys.hsmWallets == {} && sys.now == L.DEFAULT_UNLOCK_TIMEOUT
    requires LockAt(sys, OfWallet(w)) == L.Locked(L.NewLock(), L.SEND_TX, L.DEFAULT_UNLOCK_TIMEOUT, 0)
    ensures Enabled(sys, TimerFires(OfWallet(w), 1)) && !Busy(Next(sys, TimerFires(OfWallet(w), 1)), OfWallet(w))
  {
    assert LockAt(sys, OfWallet(w)).pending == map[1 := L.Timer(L.SEND_TX, L.DEFAULT_UNLOCK_TIMEOUT)];
  }

  lemma ExpiredHolderRuns(w: WalletId, a: RequestId, b: RequestId) returns (both: System)
    requires a != b
    ensures Run(Initial({}), ExpiredHolder(w, a, b), both)
    ensures Enabled(both, Built(a, false, false)) && !both.requests[a].lockReleased
    ensures InWindow(both, a) && InWindow(both, b) && both.hsmWallets == {}
    ensures both.requests[a].wallet == both.requests[b].wallet == w
  {
    hide Run, L.Held, L.Locked, L.Expired;
    var s0 := Initial({});
    var events := ExpiredHolder(w, a, b);
    NothingHeld();
    var s1 := Next(s0, events[0]);
    var s2 := Next(s1, events[1]);
    OneTimer(w, s2);
    var s3 := Next(s2, events[2]);
    StartAfter(s3, events[3]);
    both := Next(s3, events[3]);
    NoEvents(both);
    RunOne(s3, events[3], [], both);
    assert [events[3]] + [] == [events[3]];
    RunOne(s2, events[2], [events[3]], both);
    RunOne(s1, events[1], [events[2]] + [events[3]], both);
    RunOne(s0, events[0], [events[1]] + ([events[2]] + [events[3]]), both);
    assert events == [events[0]] + ([events[1]] + ([events[2]] + [events[3]]));
  }

  lemma NoEvents(sys: System)
    ensures Run(sys, [], sys)
  {}

  /** A run on which that happens: two requests share the window, and one's release frees the other's lock. */
  lemma PrematureTimerLetsTwoIn(w: WalletId, a: RequestId, b: RequestId)
    requires a != b
    ensures exists both: System ::
      && Run(Initial({}), ExpiredHolder(w, a, b), both)
      && InWindow(both, a) && InWindow(both, b) && Enabled(both, Built(a, false, false))
      && var after := Next(both, Built(a, false, false));
         InWindow(after, b) && !Busy(after, OfWallet(w))
  {
    hide Run, ExpiredHolder;
    var both := ExpiredHolderRuns(w, a, b);
  }

  // ----- a send that leaks its lock -----

  /** Somebody who still has an unlock to call that reaches the lock, and is going to. */
  predicate WillRelease(sys: System, r: RequestId, l: LockId) {
    && r in sys.requests && LockFor(sys, sys.requests[r].wallet) == l
    && !sys.requests[r].phase.Leaked? && (!sys.requests[r].lockReleased || sys.requests[r].phase.TakingBack?)
  }

  /** The lock is taken and nobody is left to release it. */
  ghost predicate Stuck(sys: System, l: LockId) {
    Busy(sys, l) && forall r :: !WillRelease(sys, r, l)
  }

  lemma FundsThrewSticks(hsmWallets: set<WalletId>, events: seq<Event>, sys: System, r: RequestId)
    requires TimelyRun(Initial(hsmWallets), events, sys) && Enabled(sys, FundsThrew(r))
    ensures Stuck(Next(sys, FundsThrew(r)), LockFor(sys, sys.requests[r].wallet))
  {
    hide TimelyRun, Busy;
    Reached(hsmWallets, events, sys);
    var next, l := Next(sys, FundsThrew(r)), LockFor(sys, sys.requests[r].wallet);
    assert InWindow(sys, r);
    assert Busy(next, l) by { LockAfter(sys, FundsThrew(r), l); SameLock(sys, next, l); }
    forall q
      ensures !WillRelease(next, q, l)
    {
      if q != r && WillRelease(next, q, l) {
        assert false;
      }
    }
  }

  lemma SameLock(sys: System, next: System, l: LockId)
    requires LockAt(next, l) == LockAt(sys, l)
    ensures Busy(next, l) <==> Busy(sys, l)
  {}

  /** Whoever is going to release goes on until the lock is free. */
  lemma ActorReleases(sys: System, e: Event, l: LockId)
    requires Enabled(sys, e) && Acts(e) && !e.Start? && !e.FundsThrew? && WillRelease(sys, e.r, l)
    ensures WillRelease(Next(sys, e), e.r, l) || LockAt(Next(sys, e), l) == L.Unlocked(LockAt(sys, l), L.SEND_TX)
  {
    hide L.Held, L.Unlocked;
    if InWindow(sys, e.r) && !sys.requests[e.r].lockReleased {
      hide Next;
      OwnAfter(sys, e, e.r);
    }
  }

  /** Whoever is not going to release changes no lock. */
  lemma OthersDoNotRelease(sys: System, e: Event, l: LockId)
    requires Enabled(sys, e) && ActsFor(sys, e, l) && !WillRelease(sys, e.r, l)
    ensures Next(sys, e).locks == sys.locks && !WillRelease(Next(sys, e), e.r, l)
  {
    hide L.Held, L.Unlocked;
  }

  lemma StillReleases(sys: System, e: Event, r: RequestId, l: LockId)
    requires Enabled(sys, e) && !e.FundsThrew? && WillRelease(sys, r, l)
    ensures WillRelease(Next(sys, e), r, l) || !Busy(Next(sys, e), l)
  {
    hide Next, L.Held, L.Unlocked;
    if Concerns(e, r) {
      ActorReleases(sys, e, l);
      LockFacts(LockAt(sys, l), 0, 0);
    } else {
      OthersAfter(sys, e, r);
    }
  }

  lemma StarterReleases(sys: System, e: Event, l: LockId)
    requires Enabled(sys, e) && !Busy(sys, l) && Busy(Next(sys, e), l)
    ensures e.Start? && WillRelease(Next(sys, e), e.r, l)
  {
    hide Next, Busy;
    BusyAfter(sys, e, l);
    StartAfter(sys, e);
  }

  /** Whatever the run so far, a lock gets stuck only by a throwing prepareTxFunds of its own. */
  lemma OnlyFundsThrewSticks(sys: System, e: Event, l: LockId)
    requires Enabled(sys, e) && !Stuck(sys, l) && Stuck(Next(sys, e), l)
    ensures e.FundsThrew? && LockFor(sys, sys.requests[e.r].wallet) == l
  {
    hide Next, Busy;
    if !Busy(sys, l) {
      StarterReleases(sys, e, l);
      assert false;
    } else {
      var r :| WillRelease(sys, r, l);
      assert !WillRelease(Next(sys, e), r, l);
      if !e.FundsThrew? {
        StillReleases(sys, e, r, l);
        assert false;
      } else if e.r != r {
        OthersAfter(sys, e, r);
        assert false;
      }
    }
  }

  /** After a timely run, a lock gets stuck exactly when prepareTxFunds throws in the request that holds it. */
  lemma StuckExactly(hsmWallets: set<WalletId>, events: seq<Event>, sys: System, e: Event, l: LockId)
    requires TimelyRun(Initial(hsmWallets), events, sys) && Enabled(sys, e) && !Stuck(sys, l)
    ensures Stuck(Next(sys, e), l) <==> e.FundsThrew? && LockFor(sys, sys.requests[e.r].wallet) == l
  {
    hide TimelyRun, Stuck, Next;
    if e.FundsThrew? && LockFor(sys, sys.requests[e.r].wallet) == l {
      FundsThrewSticks(hsmWallets, events, sys, e.r);
    }
    if Stuck(Next(sys, e), l) {
      OnlyFundsThrewSticks(sys, e, l);
    }
  }

  lemma NextKeepsStuck(sys: System, e: Event, l: LockId)
    requires Stuck(sys, l) && Enabled(sys, e) && !(e.TimerFires? && e.l == l)
    ensures Stuck(Next(sys, e), l) && Next(sys, e).hsmWallets == sys.hsmWallets
    ensures e.Start? && LockFor(sys, e.wallet) == l ==> At(Next(sys, e), e.r, {Rejected})
  {
    hide Next, Busy;
    var next := Next(sys, e);
    if e.Start? {
      StartAfter(sys, e);
    } else if !Acts(e) {
      EnvironmentAfter(sys, e);
    } else {
      ActorLocks(sys, e);
    }
    LockAfter(sys, e, l);
    if ActsFor(sys, e, l) {
      OthersDoNotRelease(sys, e, l);
    }
    SameLock(sys, next, l);
    forall r
      ensures !WillRelease(next, r, l)
    {
      assert !WillRelease(sys, r, l);
      if !Concerns(e, r) {
        OthersAfter(sys, e, r);
      }
    }
  }

  /** Whatever follows, until that lock's timer fires every further request for it is turned away. */
  lemma {:induction false} StuckUntilTimer(sys: System, l: LockId, events: seq<Event>, end: System)
    requires Stuck(sys, l) && Run(sys, events, end)
    requires forall i :: 0 <= i < |events| && events[i].TimerFires? ==> events[i].l != l
    ensures Stuck(end, l)
    ensures forall i :: 0 <= i < |events| && events[i].Start? && LockFor(sys, events[i].wallet) == l ==>
              At(end, events[i].r, {Rejected})
    decreases |events|
  {
    hide Next, Stuck, Enabled;
    if events == [] {
    } else {
      var next := Next(sys, events[0]);
      NextKeepsStuck(sys, events[0], l);
      StuckUntilTimer(next, l, events[1..], end);
      if events[0].Start? && LockFor(sys, events[0].wallet) == l {
        RejectedStays(next, events[0].r, events[1..], end);
      }
      forall i | 0 < i < |events| && events[i].Start? && LockFor(sys, events[i].wallet) == l
        ensures At(end, events[i].r, {Rejected})
      {
        assert events[i] == events[1..][i - 1];
      }
    }
  }

  lemma {:induction false} RejectedStays(sys: System, r: RequestId, events: seq<Event>, end: System)
    requires At(sys, r, {Rejected}) && Run(sys, events, end)
    ensures At(end, r, {Rejected})
    decreases |events|
  {
    hide Next;
    if events == [] {
    } else {
      OthersAfter(sys, events[0], r);
      RejectedStays(Next(sys, events[0]), r, events[1..], end);
    }
  }
}
