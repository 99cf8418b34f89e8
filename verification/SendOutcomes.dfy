// Where a request ends, told by its own steps alone, and who keeps whom out, told by wallets alone.
module SendOutcomes {
  import opened LockObjects
  import opened SendProtocol
  import SendInputs

  // ----- what a request has been through -----

  datatype Milestone =
    | Began(kind: Kind)
    | FundsReady
    | TxComplete    // built with its transaction
    | TxDraft       // built without
    | TxFilled
    | InputsMarked
    | Pushed
    | Ended         // unlockInputs
    | Refused       // a step that failed
    | Threw         // prepareTxFunds did

  function MilestoneOf(e: Event): seq<Milestone> {
    match e
    case Start(_, _, kind) => [Began(kind)]
    case FundsPrepared(_, ok) => [if ok then FundsReady else Refused]
    case FundsThrew(_) => [Threw]
    case Built(_, ok, hasTransaction) => [if !ok then Refused else if hasTransaction then TxComplete else TxDraft]
    case TxPrepared(_, ok) => [if ok then TxFilled else Refused]
    case Marked(_, ok, _) => [if ok then InputsMarked else Refused]
    case Mined(_, ok, _) => [if ok then Pushed else Refused]
    case TakingBackEnded(_) => [Ended]
    case _ => []
  }

  function Milestones(events: seq<Event>, r: RequestId): seq<Milestone> {
    if events == [] then []
    else (if Concerns(events[0], r) then MilestoneOf(events[0]) else []) + Milestones(events[1..], r)
  }

  predicate EndsWith(ms: seq<Milestone>, m: Milestone) {
    ms != [] && ms[|ms| - 1] == m
  }

  function Before(ms: seq<Milestone>): seq<Milestone> {
    if ms == [] then [] else ms[..|ms| - 1]
  }

  lemma EndsWithLast(ms: seq<Milestone>, m: Milestone)
    ensures EndsWith(ms + [m], m) && Before(ms + [m]) == ms
  {}

  /** Ready to build the transaction: /send-tx has to prepare funds first. */
  predicate IsReady(ms: seq<Milestone>) {
    || ms == [Began(OtherSend)]
    || (EndsWith(ms, FundsReady) && Before(ms) == [Began(SendTx)])
  }

  /** The transaction has its inputs, from the start or once prepared. */
  predicate HasInputs(ms: seq<Milestone>) {
    || (EndsWith(ms, TxComplete) && IsReady(Before(ms)))
    || (EndsWith(ms, TxFilled) && EndsWith(Before(ms), TxDraft) && IsReady(Before(Before(ms))))
  }

  /** And they were marked, and the transaction mined. */
  predicate AllDone(ms: seq<Milestone>) {
    EndsWith(ms, Pushed) && EndsWith(Before(ms), InputsMarked) && HasInputs(Before(Before(ms)))
  }

  /** What a request in a phase has been through. */
  predicate Tells(phase: Phase, ms: seq<Milestone>) {
    match phase
    case Rejected => |ms| == 1 && ms[0].Began?
    case PreparingFunds => ms == [Began(SendTx)]
    case Building => IsReady(ms)
    case PreparingTx => EndsWith(ms, TxDraft) && IsReady(Before(ms))
    case Marking => HasInputs(ms)
    case Mining => EndsWith(ms, InputsMarked) && HasInputs(Before(ms))
    case Sent => AllDone(ms)
    case Failed => EndsWith(ms, Refused)
    case Leaked => EndsWith(ms, Threw) && Before(ms) == [Began(SendTx)]
    case TakingBack => ms == [Began(UnlockInputs)]
    case TakenBack => EndsWith(ms, Ended) && Before(ms) == [Began(UnlockInputs)]
  }

  predicate Told(sys: System, r: RequestId, ms: seq<Milestone>) {
    if r in sys.requests then Tells(sys.requests[r].phase, ms) else ms == []
  }

  /** The phase a request's own step takes it to. */
  function PhaseAfter(phase: Phase, e: Event): Phase {
    match e
    case FundsPrepared(_, ok) => if ok then Building else Failed
    case FundsThrew(_) => Leaked
    case Built(_, ok, hasTransaction) => if !ok then Failed else if hasTransaction then Marking else PreparingTx
    case TxPrepared(_, ok) => if ok then Marking else Failed
    case Marked(_, ok, _) => if ok then Mining else Failed
    case Mined(_, ok, _) => if ok then Sent else Failed
    case TakingBackEnded(_) => TakenBack
    case _ => phase
  }

  lemma PhaseSteps(sys: System, e: Event)
    requires Enabled(sys, e) && Acts(e) && !e.Start?
    ensures e.r in sys.requests && e.r in Next(sys, e).requests
    ensures Next(sys, e).requests[e.r].phase == PhaseAfter(sys.requests[e.r].phase, e)
  {}

  lemma FirstPhases(sys: System, e: Event)
    requires Enabled(sys, e) && e.Start?
    ensures e.r in Next(sys, e).requests
    ensures Next(sys, e).requests[e.r].phase in {Rejected, FirstPhase(e.kind)}
  {}

  lemma ToldAfter(sys: System, e: Event, r: RequestId, ms: seq<Milestone>)
    requires Enabled(sys, e) && Told(sys, r, ms)
    ensures Told(Next(sys, e), r, ms + if Concerns(e, r) then MilestoneOf(e) else [])
  {
    hide Next;
    if !Concerns(e, r) {
      OthersAfter(sys, e, r);
      assert ms + [] == ms;
    } else if e.Start? {
      FirstPhases(sys, e);
    } else {
      PhaseSteps(sys, e);
      TableStep(sys.requests[r].phase, e, ms);
    }
  }

  predicate StepOf(phase: Phase, e: Event) {
    match e
    case Pick(_, _) => phase in PICKING
    case FundsPrepared(_, _) => phase == PreparingFunds
    case FundsThrew(_) => phase == PreparingFunds
    case Built(_, _, _) => phase == Building
    case TxPrepared(_, _) => phase == PreparingTx
    case Marked(_, _, _) => phase == Marking
    case Mined(_, _, _) => phase == Mining
    case TookBack(_, _) => phase == TakingBack
    case TakingBackEnded(_) => phase == TakingBack
    case _ => false
  }

  lemma TableStep(phase: Phase, e: Event, ms: seq<Milestone>)
    requires StepOf(phase, e) && Tells(phase, ms)
    ensures Tells(PhaseAfter(phase, e), ms + MilestoneOf(e))
  {
    hide EndsWith, Before;
    if MilestoneOf(e) == [] {
      assert ms + [] == ms;
    } else {
      EndsWithLast(ms, MilestoneOf(e)[0]);
      assert ms + MilestoneOf(e) == ms + [MilestoneOf(e)[0]];
    }
  }

  lemma {:induction false} RunTells(sys: System, events: seq<Event>, end: System, r: RequestId, ms: seq<Milestone>)
    requires Run(sys, events, end) && Told(sys, r, ms)
    ensures Told(end, r, ms + Milestones(events, r))
    decreases |events|
  {
    hide Next, Told;
    if events == [] {
      assert ms + [] == ms;
    } else {
      var more := if Concerns(events[0], r) then MilestoneOf(events[0]) else [];
      ToldAfter(sys, events[0], r, ms);
      RunTells(Next(sys, events[0]), events[1..], end, r, ms + more);
      assert ms + more + Milestones(events[1..], r) == ms + (more + Milestones(events[1..], r));
    }
  }

  lemma OutcomesDiffer(phase: Phase, ms: seq<Milestone>)
    requires Tells(phase, ms)
    ensures phase == Sent <==> AllDone(ms)
    ensures phase == Failed <==> EndsWith(ms, Refused)
    ensures phase == Leaked <==> EndsWith(ms, Threw)
    ensures phase == TakenBack <==> EndsWith(ms, Ended)
  {}

  /** In every run a send has gone through exactly if all its steps succeeded, and has failed exactly if the last did. */
  lemma OutcomeExactly(hsmWallets: set<WalletId>, events: seq<Event>, end: System, r: RequestId)
    requires Run(Initial(hsmWallets), events, end)
    ensures var ms := Milestones(events, r);
            && (At(end, r, {Sent}) <==> AllDone(ms))
            && (At(end, r, {Failed}) <==> EndsWith(ms, Refused))
            && (At(end, r, {Leaked}) <==> EndsWith(ms, Threw))
            && (At(end, r, {TakenBack}) <==> EndsWith(ms, Ended))
  {
    hide Run, Tells, AllDone, Milestones;
    var ms := Milestones(events, r);
    RunTells(Initial(hsmWallets), events, end, r, []);
    assert [] + ms == ms;
    if r in end.requests {
      OutcomesDiffer(end.requests[r].phase, ms);
    } else {
      NothingDone();
    }
  }

  lemma NothingDone()
    ensures !AllDone([])
  {}

  /** Everything a request has picked, whenever it did. */
  function PickedBy(events: seq<Event>, r: RequestId): set<UtxoId> {
    if events == [] then {}
    else (if events[0].Pick? && events[0].r == r then events[0].utxos else {}) + PickedBy(events[1..], r)
  }

  lemma InputsStep(sys: System, e: Event, r: RequestId)
    requires Enabled(sys, e)
    ensures InputsOf(Next(sys, e), r) == InputsOf(sys, r) + if e.Pick? && e.r == r then e.utxos else {}
  {
    hide Next;
    if !Concerns(e, r) {
      OthersAfter(sys, e, r);
    } else if e.Start? {
      StartAfter(sys, e);
    } else {
      SendInputs.InputsAfter(sys, e, r);
    }
  }

  function InputsOf(sys: System, r: RequestId): set<UtxoId> {
    if r in sys.requests then sys.requests[r].inputs else {}
  }

  lemma {:induction false} RunPicks(sys: System, events: seq<Event>, end: System, r: RequestId)
    requires Run(sys, events, end)
    ensures InputsOf(end, r) == InputsOf(sys, r) + PickedBy(events, r)
    decreases |events|
  {
    hide Next, InputsOf;
    if events == [] {
    } else {
      InputsStep(sys, events[0], r);
      RunPicks(Next(sys, events[0]), events[1..], end, r);
    }
  }

  /** In every run the inputs of a send are all the utxos it has picked. */
  lemma InputsArePicked(hsmWallets: set<WalletId>, events: seq<Event>, end: System, r: RequestId)
    requires Run(Initial(hsmWallets), events, end) && r in end.requests
    ensures end.requests[r].inputs == PickedBy(events, r)
  {
    hide Run, PickedBy;
    RunPicks(Initial(hsmWallets), events, end, r);
  }

  /** A send that went through holds no lock, and has its inputs marked unless somebody took the marks back. */
  lemma SentHoldsNothing(hsmWallets: set<WalletId>, events: seq<Event>, end: System, r: RequestId)
    requires SendInputs.CarefulRun(Initial(hsmWallets), events, end) && At(end, r, {Sent})
    ensures end.requests[r].lockReleased && SendInputs.KeepsMarks(end, r)
    ensures forall l :: Busy(end, l) ==> exists q :: q != r && Holds(end, q, l)
  {
    hide SendInputs.CarefulRun, TimelyRun, Busy;
    SendInputs.CarefullyReached(hsmWallets, events, end);
    forall l | Busy(end, l)
      ensures exists q :: q != r && Holds(end, q, l)
    {
      var q :| Holds(end, q, l);
      assert q != r;
    }
  }

  // ----- who keeps whom out -----

  /** Wallets whose sends exclude each other: a wallet itself, and all HSM wallets among each other. */
  predicate Rivals(sys: System, v: WalletId, w: WalletId) {
    v == w || (v in sys.hsmWallets && w in sys.hsmWallets)
  }

  lemma RivalsShareLock(sys: System, v: WalletId, w: WalletId)
    ensures LockFor(sys, v) == LockFor(sys, w) <==> Rivals(sys, v, w)
  {}

  /** In timely runs rival requests are never in their windows together. */
  lemma RivalsTakeTurns(hsmWallets: set<WalletId>, events: seq<Event>, end: System, r: RequestId, q: RequestId)
    requires TimelyRun(Initial(hsmWallets), events, end)
    requires InWindow(end, r) && InWindow(end, q) && r != q
    ensures !Rivals(end, end.requests[r].wallet, end.requests[q].wallet)
  {
    hide TimelyRun;
    RivalsShareLock(end, end.requests[r].wallet, end.requests[q].wallet);
    if Rivals(end, end.requests[r].wallet, end.requests[q].wallet) {
      MutualExclusion(hsmWallets, events, end, r, q);
    }
  }

  /** A request is turned away if a rival is in its window, and only if a rival is there or has leaked the lock. */
  lemma TurnedAwayByRivals(hsmWallets: set<WalletId>, events: seq<Event>, sys: System, start: Event)
    requires TimelyRun(Initial(hsmWallets), events, sys) && Enabled(sys, start) && start.Start?
    ensures At(Next(sys, start), start.r, {Rejected}) || InWindow(Next(sys, start), start.r)
    ensures (exists q :: InWindow(sys, q) && Rivals(sys, sys.requests[q].wallet, start.wallet)) ==>
              At(Next(sys, start), start.r, {Rejected})
    ensures At(Next(sys, start), start.r, {Rejected}) ==>
              exists q :: At(sys, q, WINDOW + {Leaked}) && Rivals(sys, sys.requests[q].wallet, start.wallet)
  {
    hide TimelyRun, Next, Busy;
    Reached(hsmWallets, events, sys);
    StartAfter(sys, start);
    var l := LockFor(sys, start.wallet);
    if q :| InWindow(sys, q) && Rivals(sys, sys.requests[q].wallet, start.wallet) {
      RivalsShareLock(sys, sys.requests[q].wallet, start.wallet);
    }
    if Busy(sys, l) {
      var q :| Holds(sys, q, l);
      RivalsShareLock(sys, sys.requests[q].wallet, start.wallet);
    }
  }
}
