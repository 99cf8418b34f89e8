// Which utxos the sends of a wallet pick: marks keep them apart, as long as nobody takes the marks back.
module SendInputs {
  import L = LockTimers
  import opened LockObjects
  import opened SendProtocol

  /** A send that has marked its inputs. */
  predicate Marks(sys: System, r: RequestId) {
    At(sys, r, {Mining, Sent})
  }

  /** A send that has not failed. */
  predicate Live(sys: System, r: RequestId) {
    At(sys, r, WINDOW + {Mining, Sent})
  }

  predicate SameWallet(sys: System, r: RequestId, q: RequestId)
    requires r in sys.requests && q in sys.requests
  {
    sys.requests[r].wallet == sys.requests[q].wallet
  }

  /** Two sends of one wallet that have not failed and use the same utxo. */
  predicate Share(sys: System, r: RequestId, q: RequestId) {
    && r != q && Live(sys, r) && Live(sys, q) && SameWallet(sys, r, q)
    && !(sys.requests[r].inputs !! sys.requests[q].inputs)
  }

  /** All inputs of the request are marked. */
  ghost predicate KeepsMarks(sys: System, q: RequestId)
    requires q in sys.requests
  {
    forall u :: u in sys.requests[q].inputs ==> (sys.requests[q].wallet, u) in sys.selected
  }

  /** Whoever is past marking has its inputs marked, and shares none of them. */
  ghost predicate InputsApart(sys: System) {
    && (forall q :: Marks(sys, q) ==> KeepsMarks(sys, q))
    && (forall r, q :: Marks(sys, q) ==> !Share(sys, r, q))
  }

  // ----- taking marks back -----

  /** On demand, on expiry, or by unlockInputs. */
  predicate TakesMark(sys: System, e: Event, wallet: WalletId, u: UtxoId) {
    || (e.SetMarks? && !e.mark && e.wallet == wallet && u in e.utxos)
    || (e.TookBack? && e.r in sys.requests && sys.requests[e.r].wallet == wallet && u in e.utxos)
  }

  /** The mark of an input of a send that counts on it. */
  ghost predicate TakesBackFrom(sys: System, e: Event, q: RequestId) {
    && Marks(sys, q)
    && exists u :: u in sys.requests[q].inputs && TakesMark(sys, e, sys.requests[q].wallet, u)
  }

  ghost predicate TakesBack(sys: System, e: Event) {
    exists q :: TakesBackFrom(sys, e, q)
  }

  /** A timely run in which nobody takes back the marks of sends that count on them. */
  ghost predicate CarefulRun(sys: System, events: seq<Event>, end: System)
    decreases |events|
  {
    if events == [] then end == sys
    else && Enabled(sys, events[0]) && !Premature(sys, events[0]) && !TakesBack(sys, events[0])
         && CarefulRun(Next(sys, events[0]), events[1..], end)
  }

  // ----- what a step does to marks and inputs -----

  lemma SelectedAfter(sys: System, e: Event, wallet: WalletId, u: UtxoId)
    requires Enabled(sys, e) && (wallet, u) in sys.selected && (wallet, u) !in Next(sys, e).selected
    ensures TakesMark(sys, e, wallet, u)
            || (e.Mined? && !e.ok && sys.requests[e.r].wallet == wallet && u in sys.requests[e.r].inputs)
  {
    hide L.Locked, L.Unlocked, L.Expired, L.Held;
  }

  lemma InputsAfter(sys: System, e: Event, r: RequestId)
    requires Enabled(sys, e) && Concerns(e, r) && !e.Start?
    ensures r in sys.requests && r in Next(sys, e).requests
    ensures Next(sys, e).requests[r].wallet == sys.requests[r].wallet
    ensures Next(sys, e).requests[r].inputs == sys.requests[r].inputs + if e.Pick? then e.utxos else {}
    ensures Live(Next(sys, e), r) ==> Live(sys, r) && !(e.Mined? && !e.ok)
    ensures Marks(Next(sys, e), r) ==> Marks(sys, r) || (InWindow(sys, r) && KeepsMarks(Next(sys, e), r))
  {
    hide L.Locked, L.Unlocked, L.Expired, L.Held;
  }

  lemma StartedInputs(sys: System, e: Event, q: RequestId)
    requires Enabled(sys, e) && Marks(Next(sys, e), q)
    ensures q in sys.requests && !(e.Start? && e.r == q)
  {
    hide Next;
    if !Concerns(e, q) {
      OthersAfter(sys, e, q);
    } else if e.Start? {
      StartAfter(sys, e);
    }
  }

  // ----- one step keeps inputs apart -----

  /** A send keeps its marks, unless somebody takes them back. */
  lemma MarksStay(sys: System, e: Event, q: RequestId)
    requires InputsApart(sys) && Enabled(sys, e) && Marks(Next(sys, e), q) && !TakesBackFrom(sys, e, q)
    ensures q in sys.requests && KeepsMarks(Next(sys, e), q)
  {
    hide Next;
    StartedInputs(sys, e, q);
    if Concerns(e, q) {
      InputsAfter(sys, e, q);
    } else {
      OthersAfter(sys, e, q);
    }
    if Marks(sys, q) {
      assert KeepsMarks(sys, q);
      forall u | u in Next(sys, e).requests[q].inputs && (sys.requests[q].wallet, u) !in Next(sys, e).selected
        ensures false
      {
        OnlyOwnMarksGo(sys, e, q, u);
      }
    }
  }

  lemma OnlyOwnMarksGo(sys: System, e: Event, q: RequestId, u: UtxoId)
    requires InputsApart(sys) && Enabled(sys, e) && Marks(sys, q) && u in sys.requests[q].inputs
    requires (sys.requests[q].wallet, u) !in Next(sys, e).selected
    ensures TakesBackFrom(sys, e, q) || (e.Mined? && !e.ok && e.r == q)
  {
    hide Next;
    assert KeepsMarks(sys, q);
    SelectedAfter(sys, e, sys.requests[q].wallet, u);
    if e.Mined? && e.r != q {
      assert !Share(sys, e.r, q);
    }
  }

  /** Inputs that a step leaves a send with, it had before, unless it picked them just now. */
  lemma InputBefore(sys: System, e: Event, r: RequestId, u: UtxoId)
    requires Enabled(sys, e) && Live(Next(sys, e), r) && u in Next(sys, e).requests[r].inputs
    ensures Live(sys, r) && Next(sys, e).requests[r].wallet == sys.requests[r].wallet
    ensures u in sys.requests[r].inputs
            || (e.Pick? && e.r == r && (sys.requests[r].wallet, u) !in sys.selected)
  {
    hide Next;
    if !Concerns(e, r) {
      OthersAfter(sys, e, r);
    } else if e.Start? {
      StartAfter(sys, e);
    } else {
      InputsAfter(sys, e, r);
    }
  }

  /** No step makes a send share an input with one that has marked its own. */
  lemma ApartStays(sys: System, e: Event, r: RequestId, q: RequestId)
    requires Exclusive(sys) && InputsApart(sys) && Enabled(sys, e) && Marks(Next(sys, e), q)
    ensures !Share(Next(sys, e), r, q)
  {
    hide Next;
    var next := Next(sys, e);
    if Share(next, r, q) {
      var u :| u in next.requests[r].inputs && u in next.requests[q].inputs;
      InputBefore(sys, e, r, u);
      InputBefore(sys, e, q, u);
      assert (Marks(sys, q) ==> !Share(sys, r, q)) && (Marks(sys, r) ==> !Share(sys, q, r));
      if !Concerns(e, q) {
        OthersAfter(sys, e, q);
      } else {
        InputsAfter(sys, e, q);
      }
      assert false;
    }
  }

  lemma NextKeepsInputs(sys: System, e: Event)
    requires Exclusive(sys) && InputsApart(sys) && Enabled(sys, e) && !TakesBack(sys, e)
    ensures InputsApart(Next(sys, e))
  {
    hide Next, KeepsMarks, Share, Exclusive;
    var next := Next(sys, e);
    forall q | Marks(next, q)
      ensures KeepsMarks(next, q)
    {
      assert !TakesBackFrom(sys, e, q);
      MarksStay(sys, e, q);
    }
    forall r, q | Marks(next, q)
      ensures !Share(next, r, q)
    {
      ApartStays(sys, e, r, q);
    }
  }

  // ----- runs -----

  lemma {:induction false} CarefulRunKeepsApart(sys: System, events: seq<Event>, end: System)
    requires Inv(sys) && InputsApart(sys) && CarefulRun(sys, events, end)
    ensures Inv(end) && InputsApart(end)
    ensures TimelyRun(sys, events, end)
    decreases |events|
  {
    hide Inv, InputsApart, Next, Premature, TakesBack;
    if events == [] {
    } else {
      NextKeepsInv(sys, events[0]);
      assert Exclusive(sys) by { InvExcludes(sys); }
      NextKeepsInputs(sys, events[0]);
      CarefulRunKeepsApart(Next(sys, events[0]), events[1..], end);
    }
  }

  lemma InvExcludes(sys: System)
    requires Inv(sys)
    ensures Exclusive(sys) && Released(sys)
  {}

  lemma CarefullyReached(hsmWallets: set<WalletId>, events: seq<Event>, end: System)
    requires CarefulRun(Initial(hsmWallets), events, end)
    ensures Inv(end) && InputsApart(end) && TimelyRun(Initial(hsmWallets), events, end)
  {
    hide CarefulRun, TimelyRun;
    assert Inv(Initial(hsmWallets)) && InputsApart(Initial(hsmWallets));
    CarefulRunKeepsApart(Initial(hsmWallets), events, end);
  }

  /** Sends on one wallet that have not failed never share an input. */
  lemma NoSharedInputs(hsmWallets: set<WalletId>, events: seq<Event>, end: System, r: RequestId, q: RequestId)
    requires CarefulRun(Initial(hsmWallets), events, end) && r != q
    requires Live(end, r) && Live(end, q) && SameWallet(end, r, q)
    ensures end.requests[r].inputs !! end.requests[q].inputs
  {
    hide CarefulRun, TimelyRun;
    CarefullyReached(hsmWallets, events, end);
    assert (Marks(end, q) ==> !Share(end, r, q)) && (Marks(end, r) ==> !Share(end, q, r));
  }

  /** Utxos marked on demand cannot be picked, those whose marks are taken back can. */
  lemma MarksKeepOthersOff(sys: System, e: Event, b: RequestId, u: UtxoId)
    requires e.SetMarks? && u in e.utxos && At(sys, b, PICKING) && sys.requests[b].wallet == e.wallet
    ensures Enabled(sys, e) && (Enabled(Next(sys, e), Pick(b, {u})) <==> !e.mark)
  {}

  /** A pick that would be allowed now, of an input some other send uses. */
  ghost predicate SharingPick(sys: System, b: RequestId, utxos: set<UtxoId>) {
    Enabled(sys, Pick(b, utxos)) && exists q :: Share(Next(sys, Pick(b, utxos)), b, q)
  }

  /** After a step, a send can pick an input in use exactly if the step took its user's mark back. */
  lemma SharingFailsExactly(hsmWallets: set<WalletId>, events: seq<Event>, sys: System, e: Event, b: RequestId)
    requires CarefulRun(Initial(hsmWallets), events, sys)
    requires Enabled(sys, e) && At(Next(sys, e), b, PICKING)
    ensures (exists utxos :: SharingPick(Next(sys, e), b, utxos))
            <==> exists q :: TakesBackFrom(sys, e, q)
                             && sys.requests[q].wallet == Next(sys, e).requests[b].wallet
  {
    hide CarefulRun, TimelyRun, Next, Inv, InputsApart;
    CarefullyReached(hsmWallets, events, sys);
    var next := Next(sys, e);
    if q :| TakesBackFrom(sys, e, q) && sys.requests[q].wallet == next.requests[b].wallet {
      var u :| u in sys.requests[q].inputs && TakesMark(sys, e, sys.requests[q].wallet, u);
      TakenCanBePicked(sys, e, b, q, u);
      assert SharingPick(next, b, {u});
    }
    if utxos, q :| Enabled(next, Pick(b, utxos)) && Share(Next(next, Pick(b, utxos)), b, q) {
      SharedWasTaken(sys, e, b, utxos, q);
      assert TakesBackFrom(sys, e, q) && sys.requests[q].wallet == next.requests[b].wallet;
    }
  }

  lemma TakenCanBePicked(sys: System, e: Event, b: RequestId, q: RequestId, u: UtxoId)
    requires Enabled(sys, e) && At(Next(sys, e), b, PICKING) && Marks(sys, q)
    requires sys.requests[q].wallet == Next(sys, e).requests[b].wallet
    requires u in sys.requests[q].inputs && TakesMark(sys, e, sys.requests[q].wallet, u)
    ensures Enabled(Next(sys, e), Pick(b, {u}))
    ensures Share(Next(Next(sys, e), Pick(b, {u})), b, q)
  {}

  lemma SharedWasTaken(sys: System, e: Event, b: RequestId, utxos: set<UtxoId>, q: RequestId)
    requires Inv(sys) && InputsApart(sys) && Enabled(sys, e)
    requires Enabled(Next(sys, e), Pick(b, utxos)) && Share(Next(Next(sys, e), Pick(b, utxos)), b, q)
    ensures TakesBackFrom(sys, e, q) && sys.requests[q].wallet == Next(sys, e).requests[b].wallet
  {
    hide Next;
    var next, pick := Next(sys, e), Pick(b, utxos);
    OthersAfter(next, pick, q);
    InputsAfter(next, pick, b);
    if InWindow(next, q) {
      StillOneInWindow(sys, e, b, q);
      assert false;
    } else {
      ApartStays(sys, e, b, q);
      if !TakesBackFrom(sys, e, q) {
        MarksStay(sys, e, q);
        assert false;
      }
      MarkerBefore(sys, e, q);
    }
  }

  lemma MarkerBefore(sys: System, e: Event, q: RequestId)
    requires Enabled(sys, e) && TakesBackFrom(sys, e, q)
    ensures q in Next(sys, e).requests && Next(sys, e).requests[q].wallet == sys.requests[q].wallet
  {
    hide Next;
    OthersAfter(sys, e, q);
  }

  /** Even a premature timer leaves one request in the window, until the next one starts. */
  lemma StillOneInWindow(sys: System, e: Event, r: RequestId, q: RequestId)
    requires Inv(sys) && Enabled(sys, e)
    requires InWindow(Next(sys, e), r) && InWindow(Next(sys, e), q) && r != q
    ensures LockFor(Next(sys, e), Next(sys, e).requests[r].wallet) != LockFor(Next(sys, e), Next(sys, e).requests[q].wallet)
  {
    hide Next;
    if Premature(sys, e) {
      EnvironmentAfter(sys, e);
    } else {
      NextKeepsInv(sys, e);
    }
  }
}
