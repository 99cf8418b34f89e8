// The timers of the send locks: a run is timely exactly as long as every request leaves its
// window sooner than the timeout after its start.
module SendTimeliness {
  import L = LockTimers
  import opened LockObjects
  import opened SendProtocol

  // ----- the locks keep the timer discipline -----

  /** A lock that has only ever been used for sends. */
  ghost predicate SendLock(st: L.LockState) {
    L.OneTimerEach(st) && forall id :: id in st.pending ==> st.pending[id].key == L.SEND_TX
  }

  ghost predicate SendLocks(sys: System) {
    forall l :: SendLock(LockAt(sys, l))
  }

  lemma SendLockSteps(st: L.LockState, timeout: nat, now: nat)
    requires SendLock(st)
    ensures SendLock(L.Unlocked(st, L.SEND_TX)) && SendLock(L.Locked(st, L.SEND_TX, timeout, now))
    ensures forall id :: id in st.pending ==> SendLock(L.Expired(st, id))
  {
    hide L.OneTimerEach;
    L.UnlockKeepsTimers(st, L.SEND_TX);
    L.LockKeepsTimers(st, L.SEND_TX, timeout, now);
    forall id | id in st.pending
      ensures SendLock(L.Expired(st, id))
    {
      L.ExpireKeepsTimers(st, id);
    }
  }

  lemma NextKeepsSendLocks(sys: System, e: Event)
    requires SendLocks(sys) && Enabled(sys, e)
    ensures SendLocks(Next(sys, e))
  {
    hide Next, SendLock, L.Locked, L.Unlocked, L.Expired;
    forall l
      ensures SendLock(LockAt(Next(sys, e), l))
    {
      LockAfter(sys, e, l);
      SendLockSteps(LockAt(sys, l), L.DEFAULT_UNLOCK_TIMEOUT, sys.now);
    }
  }

  // ----- the timer of a request's lock runs from the request's start -----

  ghost predicate RunsFromStart(sys: System, r: RequestId)
    requires r in sys.requests
  {
    var st := LockAt(sys, LockFor(sys, sys.requests[r].wallet));
    forall id :: id in st.pending ==> st.pending[id].due == sys.requests[r].startedAt + L.DEFAULT_UNLOCK_TIMEOUT
  }

  /** Every lock keeps the timer discipline, and the timer of a request's lock runs from its start. */
  ghost predicate TimersDated(sys: System) {
    SendLocks(sys) && forall r :: InWindow(sys, r) ==> RunsFromStart(sys, r)
  }

  lemma FreshTimer(st: L.LockState, now: nat)
    requires SendLock(st) && !L.Held(st, L.SEND_TX)
    ensures var locked := L.Locked(st, L.SEND_TX, L.DEFAULT_UNLOCK_TIMEOUT, now);
            forall id :: id in locked.pending ==> locked.pending[id].due == now + L.DEFAULT_UNLOCK_TIMEOUT
  {}

  /** As long as a request stays in its window, its lock stays as it is. */
  lemma LockStays(sys: System, e: Event, r: RequestId)
    requires Inv(sys) && Enabled(sys, e) && !Premature(sys, e) && InWindow(Next(sys, e), r) && InWindow(sys, r)
    ensures var l := LockFor(sys, sys.requests[r].wallet);
            LockAt(Next(sys, e), l) == LockAt(sys, l)
  {
    hide Next, L.Held, L.Locked, L.Unlocked, L.Expired;
    var l := LockFor(sys, sys.requests[r].wallet);
    LockAfter(sys, e, l);
    WindowAfter(sys, e, r);
    LockFacts(LockAt(sys, l), 0, 0);
  }

  lemma StartTimeStays(sys: System, e: Event, r: RequestId)
    requires Inv(sys) && Enabled(sys, e) && InWindow(sys, r) && InWindow(Next(sys, e), r)
    ensures Next(sys, e).requests[r].startedAt == sys.requests[r].startedAt
  {
    hide Next, Busy;
    if Concerns(e, r) {
      OwnAfter(sys, e, r);
    } else {
      OthersAfter(sys, e, r);
    }
  }

  lemma DatesStay(sys: System, e: Event, r: RequestId)
    requires Inv(sys) && TimersDated(sys) && Enabled(sys, e) && !Premature(sys, e) && InWindow(Next(sys, e), r)
    ensures RunsFromStart(Next(sys, e), r)
  {
    hide Next, SendLock, L.Held, L.Locked;
    WindowAfter(sys, e, r);
    if e.Start? && e.r == r {
      StartAfter(sys, e);
      FreshTimer(LockAt(sys, LockFor(sys, e.wallet)), sys.now);
    } else {
      LockStays(sys, e, r);
      StartTimeStays(sys, e, r);
      assert RunsFromStart(sys, r);
    }
  }

  lemma NextKeepsDates(sys: System, e: Event)
    requires Inv(sys) && TimersDated(sys) && Enabled(sys, e) && !Premature(sys, e)
    ensures TimersDated(Next(sys, e))
  {
    hide Next, Inv, Premature, SendLock, RunsFromStart;
    NextKeepsSendLocks(sys, e);
    forall r | InWindow(Next(sys, e), r)
      ensures RunsFromStart(Next(sys, e), r)
    {
      DatesStay(sys, e, r);
    }
  }

  lemma {:induction false} TimelyRunKeepsDates(sys: System, events: seq<Event>, end: System)
    requires Inv(sys) && TimersDated(sys) && TimelyRun(sys, events, end)
    ensures Inv(end) && TimersDated(end)
    decreases |events|
  {
    hide Inv, TimersDated, Next, Premature;
    if events == [] {
    } else {
      NextKeepsInv(sys, events[0]);
      NextKeepsDates(sys, events[0]);
      TimelyRunKeepsDates(Next(sys, events[0]), events[1..], end);
    }
  }

  lemma InitiallyDated(hsmWallets: set<WalletId>)
    ensures Inv(Initial(hsmWallets)) && TimersDated(Initial(hsmWallets))
  {}

  lemma DatedWhenReached(hsmWallets: set<WalletId>, events: seq<Event>, end: System)
    requires TimelyRun(Initial(hsmWallets), events, end)
    ensures Inv(end) && TimersDated(end)
  {
    hide Inv, TimersDated, TimelyRun;
    InitiallyDated(hsmWallets);
    TimelyRunKeepsDates(Initial(hsmWallets), events, end);
  }

  // ----- requests that are quick enough -----

  /** Every request in its window started less than two minutes ago, which is the timeout of the send lock. */
  ghost predicate AllQuick(sys: System) {
    forall r :: InWindow(sys, r) ==> sys.now < sys.requests[r].startedAt + 120_000
  }

  lemma QuickIsNotPremature(sys: System, e: Event)
    requires TimersDated(sys) && AllQuick(sys) && Enabled(sys, e)
    ensures !Premature(sys, e)
  {
    hide SendLocks;
  }

  /** A request that is late has a timer that may fire. */
  lemma LateTimerFires(sys: System, r: RequestId) returns (e: Event)
    requires Inv(sys) && TimersDated(sys) && InWindow(sys, r)
    requires sys.now >= sys.requests[r].startedAt + L.DEFAULT_UNLOCK_TIMEOUT
    ensures Enabled(sys, e) && Premature(sys, e)
  {
    var l := LockFor(sys, sys.requests[r].wallet);
    var st := LockAt(sys, l);
    assert SendLock(st) && Busy(sys, l) && RunsFromStart(sys, r);
    e := TimerFires(l, st.recorded[L.SEND_TX].value);
  }

  /** After a timely run a timer may fire prematurely exactly if some request is not quick. */
  lemma TimelyAsLongAsQuick(hsmWallets: set<WalletId>, events: seq<Event>, sys: System)
    requires TimelyRun(Initial(hsmWallets), events, sys)
    ensures (exists e :: Enabled(sys, e) && Premature(sys, e)) <==> !AllQuick(sys)
  {
    hide TimelyRun, Inv, TimersDated, Premature, Enabled;
    DatedWhenReached(hsmWallets, events, sys);
    if e :| Enabled(sys, e) && Premature(sys, e) {
      if AllQuick(sys) {
        QuickIsNotPremature(sys, e);
        assert false;
      }
    }
    if r :| InWindow(sys, r) && sys.now >= sys.requests[r].startedAt + 120_000 {
      var e := LateTimerFires(sys, r);
    }
  }

  ghost predicate QuickRun(sys: System, events: seq<Event>, end: System)
    decreases |events|
  {
    && AllQuick(sys)
    && if events == [] then end == sys
       else Enabled(sys, events[0]) && QuickRun(Next(sys, events[0]), events[1..], end)
  }

  lemma {:induction false} QuickStaysTimely(sys: System, events: seq<Event>, end: System)
    requires Inv(sys) && TimersDated(sys) && QuickRun(sys, events, end)
    ensures TimelyRun(sys, events, end)
    decreases |events|
  {
    hide Inv, TimersDated, Premature, AllQuick, Next;
    if events == [] {
    } else {
      QuickIsNotPremature(sys, events[0]);
      NextKeepsInv(sys, events[0]);
      NextKeepsDates(sys, events[0]);
      QuickStaysTimely(Next(sys, events[0]), events[1..], end);
    }
  }

  /** If every request leaves its window sooner than the timeout after its start, the run is timely. */
  lemma QuickRunsAreTimely(hsmWallets: set<WalletId>, events: seq<Event>, end: System)
    requires QuickRun(Initial(hsmWallets), events, end)
    ensures TimelyRun(Initial(hsmWallets), events, end)
  {
    hide Inv, TimersDated, TimelyRun, QuickRun;
    InitiallyDated(hsmWallets);
    QuickStaysTimely(Initial(hsmWallets), events, end);
  }
}
