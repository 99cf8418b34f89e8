// The handlers that use the send lock. Every `await` is a point where other requests may
// run, so a handler is a sequence of steps and a run interleaves them.
module SendProtocol {
  import L = LockTimers
  import opened LockObjects

  type RequestId(==, !new)
  type UtxoId(==, !new)

  /** The lock a wallet's sends share: one for each wallet, and one for all HSM wallets. */
  datatype LockId = HsmLock | OfWallet(wallet: WalletId)

  /** What a request does: send with utxos from prepareTxFunds, send otherwise, or take back marks of utxos. */
  datatype Kind = SendTx | OtherSend | UnlockInputs

  /** Where a request is. Named after what it awaits. */
  datatype Phase =
    | Rejected        // the lock was taken
    | PreparingFunds  // prepareTxFunds, which only /send-tx awaits and outside its `try`
    | Building        // the wallet's ...SendTransaction method
    | PreparingTx     // prepareTx, inside runSendTransaction's `try`
    | Marking         // updateOutputSelected(true), the end of that `try`
    | Mining          // runFromMining, after the `finally`
    | Sent
    | Failed
    | Leaked          // prepareTxFunds threw: nobody will call unlock any more
    | TakingBack      // markUtxoSelected(false), which unlockInputs awaits inside its `try`
    | TakenBack       // after the `finally` of unlockInputs

  /** A request; the time it started is kept for the analysis of runs, no step looks at it. */
  datatype Request = Request(
    wallet: WalletId, phase: Phase, lockReleased: bool, inputs: set<UtxoId>, startedAt: nat)

  datatype System = System(
    hsmWallets: set<WalletId>,
    locks: map<LockId, L.LockState>,
    requests: map<RequestId, Request>,
    selected: set<(WalletId, UtxoId)>,
    now: nat)

  datatype Event =
    | Start(r: RequestId, wallet: WalletId, kind: Kind)
    | Pick(r: RequestId, utxos: set<UtxoId>)
    | FundsPrepared(r: RequestId, ok: bool)
    | FundsThrew(r: RequestId)
    | Built(r: RequestId, ok: bool, hasTransaction: bool)
    | TxPrepared(r: RequestId, ok: bool)
    | Marked(r: RequestId, ok: bool, marked: set<UtxoId>)
    | Mined(r: RequestId, ok: bool, unmark: bool)
    | TookBack(r: RequestId, utxos: set<UtxoId>)
    | TakingBackEnded(r: RequestId)
    | SetMarks(wallet: WalletId, utxos: set<UtxoId>, mark: bool)  // by requests that take no lock, or on expiry
    | TimerFires(l: LockId, id: nat)
    | Advance(dt: nat)

  function Initial(hsmWallets: set<WalletId>): System {
    System(hsmWallets, map[], map[], {}, 0)
  }

  function LockFor(sys: System, wallet: WalletId): LockId {
    if wallet in sys.hsmWallets then HsmLock else OfWallet(wallet)
  }

  /** The registry makes a lock when it is first asked for. */
  function LockAt(sys: System, l: LockId): L.LockState {
    if l in sys.locks then sys.locks[l] else L.NewLock()
  }

  predicate Busy(sys: System, l: LockId) {
    L.Held(LockAt(sys, l), L.SEND_TX)
  }

  predicate At(sys: System, r: RequestId, phases: set<Phase>) {
    r in sys.requests && sys.requests[r].phase in phases
  }

  const WINDOW: set<Phase> := {PreparingFunds, Building, PreparingTx, Marking, TakingBack}
  const PICKING: set<Phase> := {PreparingFunds, Building, PreparingTx}
  const LEFT: set<Phase> := {Rejected, Mining, Sent, Failed, TakenBack}

  function FirstPhase(kind: Kind): Phase {
    match kind
    case SendTx => PreparingFunds
    case OtherSend => Building
    case UnlockInputs => TakingBack
  }

  // ----- steps -----

  function SetLock(sys: System, l: LockId, st: L.LockState): System {
    sys.(locks := sys.locks[l := st])
  }

  function MoveTo(sys: System, r: RequestId, phase: Phase): System
    requires r in sys.requests
  {
    sys.(requests := sys.requests[r := sys.requests[r].(phase := phase)])
  }

  /** The closure of lockSendTx: only its first call reaches the lock. */
  function CallUnlock(sys: System, r: RequestId): System
    requires r in sys.requests
  {
    var req := sys.requests[r];
    if req.lockReleased then sys else
      var l := LockFor(sys, req.wallet);
      SetLock(sys, l, L.Unlocked(LockAt(sys, l), L.SEND_TX)).(
        requests := sys.requests[r := req.(lockReleased := true)])
  }

  /** The unlock in the `finally` of unlockInputs: it has no flag and always reaches the lock. */
  function ForceUnlock(sys: System, r: RequestId): System
    requires r in sys.requests
  {
    var req := sys.requests[r];
    var l := LockFor(sys, req.wallet);
    SetLock(sys, l, L.Unlocked(LockAt(sys, l), L.SEND_TX)).(
      requests := sys.requests[r := req.(lockReleased := true)])
  }

  /** An error inside the handler's `try`: its `catch` calls unlock. */
  function Catch(sys: System, r: RequestId): System
    requires r in sys.requests
  {
    MoveTo(CallUnlock(sys, r), r, Failed)
  }

  function Mark(sys: System, wallet: WalletId, utxos: set<UtxoId>): System {
    sys.(selected := sys.selected + set u | u in utxos :: (wallet, u))
  }

  function Unmark(sys: System, wallet: WalletId, utxos: set<UtxoId>): System {
    sys.(selected := sys.selected - set u | u in utxos :: (wallet, u))
  }

  /** What the environment and the library may do: the library skips marked utxos when it picks. */
  ghost predicate Enabled(sys: System, e: Event) {
    match e
    case Start(r, _, _) => r !in sys.requests
    case Pick(r, utxos) =>
      && At(sys, r, PICKING)
      && forall u :: u in utxos ==> (sys.requests[r].wallet, u) !in sys.selected
    case FundsPrepared(r, _) => At(sys, r, {PreparingFunds})
    case FundsThrew(r) => At(sys, r, {PreparingFunds})
    case Built(r, _, _) => At(sys, r, {Building})
    case TxPrepared(r, _) => At(sys, r, {PreparingTx})
    case Marked(r, _, marked) => At(sys, r, {Marking}) && marked <= sys.requests[r].inputs
    case Mined(r, _, _) => At(sys, r, {Mining})
    case TookBack(r, _) => At(sys, r, {TakingBack})
    case TakingBackEnded(r) => At(sys, r, {TakingBack})
    case SetMarks(_, _, _) => true
    case TimerFires(l, id) => id in LockAt(sys, l).pending && LockAt(sys, l).pending[id].due <= sys.now
    case Advance(_) => true
  }

  ghost function Next(sys: System, e: Event): System
    requires Enabled(sys, e)
  {
    match e
    case Start(r, wallet, kind) =>
      var l := LockFor(sys, wallet);
      if Busy(sys, l) then
        sys.(requests := sys.requests[r := Request(wallet, Rejected, true, {}, sys.now)])
      else
        SetLock(sys, l, L.Locked(LockAt(sys, l), L.SEND_TX, L.DEFAULT_UNLOCK_TIMEOUT, sys.now)).(
          requests := sys.requests[r := Request(wallet, FirstPhase(kind), false, {}, sys.now)])
    case Pick(r, utxos) =>
      var req := sys.requests[r];
      sys.(requests := sys.requests[r := req.(inputs := req.inputs + utxos)])
    case FundsPrepared(r, ok) =>
      if ok then MoveTo(sys, r, Building) else MoveTo(CallUnlock(sys, r), r, Failed)
    case FundsThrew(r) => MoveTo(sys, r, Leaked)
    case Built(r, ok, hasTransaction) =>
      if !ok then Catch(sys, r)
      else MoveTo(sys, r, if hasTransaction then Marking else PreparingTx)
    case TxPrepared(r, ok) =>
      if ok then MoveTo(sys, r, Marking) else Catch(CallUnlock(sys, r), r)
    case Marked(r, ok, marked) =>
      var req := sys.requests[r];
      if ok then MoveTo(CallUnlock(Mark(sys, req.wallet, req.inputs), r), r, Mining)
      else Catch(CallUnlock(Mark(sys, req.wallet, marked), r), r)
    case Mined(r, ok, unmark) =>
      var req := sys.requests[r];
      if ok then MoveTo(sys, r, Sent)
      else Catch(if unmark then Unmark(sys, req.wallet, req.inputs) else sys, r)
    case TookBack(r, utxos) => Unmark(sys, sys.requests[r].wallet, utxos)
    case TakingBackEnded(r) => MoveTo(ForceUnlock(sys, r), r, TakenBack)
    case SetMarks(wallet, utxos, mark) => if mark then Mark(sys, wallet, utxos) else Unmark(sys, wallet, utxos)
    case TimerFires(l, id) => SetLock(sys, l, L.Expired(LockAt(sys, l), id))
    case Advance(dt) => sys.(now := sys.now + dt)
  }

  /** A request between lockSendTx and its release. */
  predicate InWindow(sys: System, r: RequestId) {
    At(sys, r, WINDOW)
  }

  /** A timer that runs out on a request that has not released its lock yet. */
  ghost predicate Premature(sys: System, e: Event) {
    && e.TimerFires?
    && exists r :: InWindow(sys, r) && LockFor(sys, sys.requests[r].wallet) == e.l
  }

  ghost predicate Run(sys: System, events: seq<Event>, end: System)
    decreases |events|
  {
    if events == [] then end == sys
    else Enabled(sys, events[0]) && Run(Next(sys, events[0]), events[1..], end)
  }

  ghost predicate TimelyRun(sys: System, events: seq<Event>, end: System)
    decreases |events|
  {
    if events == [] then end == sys
    else && Enabled(sys, events[0]) && !Premature(sys, events[0])
         && TimelyRun(Next(sys, events[0]), events[1..], end)
  }

  // ----- what a step does to a lock -----

  /** A step of a request that has started and uses this lock. */
  predicate ActsFor(sys: System, e: Event, l: LockId) {
    && Acts(e) && !e.Start?
    && e.r in sys.requests && LockFor(sys, sys.requests[e.r].wallet) == l
  }

  predicate Acts(e: Event) {
    !e.TimerFires? && !e.Advance? && !e.SetMarks?
  }

  lemma ActorPhase(sys: System, e: Event)
    requires Enabled(sys, e) && Acts(e) && !e.Start?
    ensures At(sys, e.r, WINDOW + {Mining})
  {}

  /** A request that finds its lock busy is turned away; otherwise it has the lock from now on. */
  lemma StartAfter(sys: System, e: Event)
    requires Enabled(sys, e) && e.Start?
    ensures var next, l := Next(sys, e), LockFor(sys, e.wallet);
            && next.hsmWallets == sys.hsmWallets
            && e.r in next.requests && next.requests[e.r].wallet == e.wallet
            && next.requests[e.r].inputs == {} && next.requests[e.r].startedAt == sys.now
            && if Busy(sys, l)
               then At(next, e.r, {Rejected}) && next.requests[e.r].lockReleased && next.locks == sys.locks
               else InWindow(next, e.r) && !next.requests[e.r].lockReleased
                    && next.locks == sys.locks[l :=
                         L.Locked(LockAt(sys, l), L.SEND_TX, L.DEFAULT_UNLOCK_TIMEOUT, sys.now)]
  {
    hide L.Held, L.Locked;
  }

  /** A step leaves a lock alone, locks it, unlocks it, or runs one of its timers. */
  lemma LockAfter(sys: System, e: Event, l: LockId)
    requires Enabled(sys, e)
    ensures var st, st' := LockAt(sys, l), LockAt(Next(sys, e), l);
            || st' == st
            || (ActsFor(sys, e, l) && st' == L.Unlocked(st, L.SEND_TX))
            || (e.Start? && l == LockFor(sys, e.wallet) && !Busy(sys, l)
                && st' == L.Locked(st, L.SEND_TX, L.DEFAULT_UNLOCK_TIMEOUT, sys.now))
            || (e.TimerFires? && e.l == l && st' == L.Expired(st, e.id))
  {
    hide Next, L.Locked, L.Unlocked, L.Expired;
    if !Acts(e) {
      EnvironmentAfter(sys, e);
    } else if e.Start? {
      StartAfter(sys, e);
    } else {
      ActorLocks(sys, e);
    }
  }

  lemma EnvironmentAfter(sys: System, e: Event)
    requires Enabled(sys, e) && !Acts(e)
    ensures Next(sys, e).locks == if e.TimerFires? then sys.locks[e.l := L.Expired(LockAt(sys, e.l), e.id)] else sys.locks
    ensures Next(sys, e).requests == sys.requests && Next(sys, e).hsmWallets == sys.hsmWallets
  {
    hide L.Expired;
  }

  lemma ActorLocks(sys: System, e: Event)
    requires Enabled(sys, e) && Acts(e) && !e.Start?
    ensures e.r in sys.requests && e.r in Next(sys, e).requests
    ensures Next(sys, e).requests[e.r].wallet == sys.requests[e.r].wallet && Next(sys, e).hsmWallets == sys.hsmWallets
    ensures var l := LockFor(sys, sys.requests[e.r].wallet);
            || Next(sys, e).locks == sys.locks
            || Next(sys, e).locks == sys.locks[l := L.Unlocked(LockAt(sys, l), L.SEND_TX)]
  {
    hide L.Held, L.Unlocked;
  }

  lemma LockFacts(st: L.LockState, timeout: nat, now: nat)
    ensures !L.Held(L.Unlocked(st, L.SEND_TX), L.SEND_TX)
    ensures L.Held(L.Locked(st, L.SEND_TX, timeout, now), L.SEND_TX)
    ensures forall id :: id in st.pending && L.Held(L.Expired(st, id), L.SEND_TX) ==> L.Held(st, L.SEND_TX)
  {}

  /** Locks get busy by a request that starts, and in no other way. */
  lemma BusyAfter(sys: System, e: Event, l: LockId)
    requires Enabled(sys, e) && Busy(Next(sys, e), l)
    ensures Busy(sys, l) || (e.Start? && l == LockFor(sys, e.wallet))
  {
    hide L.Held, L.Locked, L.Unlocked, L.Expired, Next;
    LockAfter(sys, e, l);
    LockFacts(LockAt(sys, l), 0, 0);
  }

  predicate Concerns(e: Event, r: RequestId) {
    Acts(e) && e.r == r
  }

  /** A step concerns one request at most, and leaves the others as they are. */
  lemma OthersAfter(sys: System, e: Event, r: RequestId)
    requires Enabled(sys, e) && !Concerns(e, r)
    ensures r in Next(sys, e).requests <==> r in sys.requests
    ensures r in sys.requests ==> Next(sys, e).requests[r] == sys.requests[r]
    ensures Next(sys, e).hsmWallets == sys.hsmWallets
  {
    hide L.Held, L.Locked, L.Unlocked, L.Expired;
  }

  /** Steps of a request in its window either keep it there and its lock as it is, or end both. */
  lemma OwnAfter(sys: System, e: Event, r: RequestId)
    requires Enabled(sys, e) && Concerns(e, r) && InWindow(sys, r) && !sys.requests[r].lockReleased
    ensures var next, l := Next(sys, e), LockFor(sys, sys.requests[r].wallet);
            && r in next.requests && next.hsmWallets == sys.hsmWallets
            && next.requests[r].wallet == sys.requests[r].wallet
            && next.requests[r].startedAt == sys.requests[r].startedAt
            && if At(next, r, WINDOW + {Leaked})
               then next.locks == sys.locks && !next.requests[r].lockReleased
               else next.locks == sys.locks[l := L.Unlocked(LockAt(sys, l), L.SEND_TX)]
                    && At(next, r, LEFT) && next.requests[r].lockReleased
  {
    hide L.Held, L.Unlocked, L.Locked, L.Expired;
  }

  /** A request that has left its window changes no lock any more. */
  lemma LeftAfter(sys: System, e: Event, r: RequestId)
    requires Enabled(sys, e) && Concerns(e, r) && At(sys, r, LEFT) && sys.requests[r].lockReleased
    ensures Next(sys, e).locks == sys.locks && Next(sys, e).hsmWallets == sys.hsmWallets
    ensures At(Next(sys, e), r, LEFT) && Next(sys, e).requests[r].lockReleased
  {
    hide L.Held, L.Unlocked, L.Locked, L.Expired;
  }

  // ----- the invariant of timely runs -----

  /** Requests in the window hold their lock, and no two of them the same one. */
  ghost predicate Exclusive(sys: System) {
    && (forall r :: InWindow(sys, r) ==>
          !sys.requests[r].lockReleased && Busy(sys, LockFor(sys, sys.requests[r].wallet)))
    && (forall r, q :: InWindow(sys, r) && InWindow(sys, q) && r != q ==>
          LockFor(sys, sys.requests[r].wallet) != LockFor(sys, sys.requests[q].wallet))
  }

  /** A request that acquired a lock and has not released it, or never will. */
  predicate Holds(sys: System, r: RequestId, l: LockId) {
    At(sys, r, WINDOW + {Leaked}) && LockFor(sys, sys.requests[r].wallet) == l
  }

  /** Whoever has left the window has released, unless the lock was leaked, and nobody has before. */
  ghost predicate Released(sys: System) {
    forall r :: r in sys.requests ==> (sys.requests[r].lockReleased <==> At(sys, r, LEFT))
  }

  /** And a busy lock has somebody to blame. */
  ghost predicate Accounted(sys: System) {
    Released(sys) && forall l :: Busy(sys, l) ==> exists r :: Holds(sys, r, l)
  }

  ghost predicate Inv(sys: System) {
    Exclusive(sys) && Accounted(sys)
  }

  lemma NextKeepsReleased(sys: System, e: Event)
    requires Released(sys) && Enabled(sys, e)
    ensures Released(Next(sys, e))
  {
    hide Next, Busy;
    var next := Next(sys, e);
    forall r | r in next.requests
      ensures next.requests[r].lockReleased <==> At(next, r, LEFT)
    {
      ReleasedAfter(sys, e, r);
    }
  }

  lemma ReleasedAfter(sys: System, e: Event, r: RequestId)
    requires Released(sys) && Enabled(sys, e) && r in Next(sys, e).requests
    ensures Next(sys, e).requests[r].lockReleased <==> At(Next(sys, e), r, LEFT)
  {
    hide Next, Busy;
    if !Concerns(e, r) {
      OthersAfter(sys, e, r);
    } else if e.Start? {
      StartAfter(sys, e);
    } else {
      ActorPhase(sys, e);
      if InWindow(sys, r) {
        OwnAfter(sys, e, r);
      } else {
        LeftAfter(sys, e, r);
      }
    }
  }

  /** No step of anybody else ends a request's hold of its lock, as long as its timer does not fire. */
  lemma HoldStays(sys: System, e: Event, r: RequestId)
    requires Exclusive(sys) && Released(sys) && Enabled(sys, e) && !Premature(sys, e)
    requires InWindow(sys, r) && !Concerns(e, r)
    ensures InWindow(Next(sys, e), r) && Next(sys, e).requests[r] == sys.requests[r]
    ensures Next(sys, e).hsmWallets == sys.hsmWallets
    ensures Busy(Next(sys, e), LockFor(sys, sys.requests[r].wallet))
  {
    hide Next, L.Held, L.Locked, L.Unlocked, L.Expired;
    var l := LockFor(sys, sys.requests[r].wallet);
    OthersAfter(sys, e, r);
    LockAfter(sys, e, l);
    if ActsFor(sys, e, l) {
      ActorPhase(sys, e);
      assert !InWindow(sys, e.r);
      LeftAfter(sys, e, e.r);
    }
  }

  /** Whoever is in the window after a step holds its lock. */
  lemma WindowAfter(sys: System, e: Event, r: RequestId)
    requires Inv(sys) && Enabled(sys, e) && !Premature(sys, e) && InWindow(Next(sys, e), r)
    ensures !Next(sys, e).requests[r].lockReleased
    ensures Next(sys, e).hsmWallets == sys.hsmWallets
    ensures Busy(Next(sys, e), LockFor(Next(sys, e), Next(sys, e).requests[r].wallet))
    ensures if e.Start? && e.r == r then !Busy(sys, LockFor(sys, e.wallet)) && Next(sys, e).requests[r].wallet == e.wallet
            else InWindow(sys, r) && Next(sys, e).requests[r].wallet == sys.requests[r].wallet
  {
    hide Next, L.Held, L.Locked;
    if !Concerns(e, r) {
      OthersAfter(sys, e, r);
      HoldStays(sys, e, r);
    } else if e.Start? {
      StartAfter(sys, e);
      LockFacts(LockAt(sys, LockFor(sys, e.wallet)), L.DEFAULT_UNLOCK_TIMEOUT, sys.now);
    } else {
      ActorPhase(sys, e);
      if InWindow(sys, r) {
        OwnAfter(sys, e, r);
      } else {
        LeftAfter(sys, e, r);
      }
    }
  }

  lemma NextKeepsExclusive(sys: System, e: Event)
    requires Inv(sys) && Enabled(sys, e) && !Premature(sys, e)
    ensures Exclusive(Next(sys, e))
  {
    hide Next, Busy, Accounted, Premature;
    var next := Next(sys, e);
    forall r | InWindow(next, r)
      ensures !next.requests[r].lockReleased && Busy(next, LockFor(next, next.requests[r].wallet))
    {
      WindowAfter(sys, e, r);
    }
    forall r, q | InWindow(next, r) && InWindow(next, q) && r != q
      ensures LockFor(next, next.requests[r].wallet) != LockFor(next, next.requests[q].wallet)
    {
      WindowAfter(sys, e, r);
      WindowAfter(sys, e, q);
    }
  }

  lemma NextKeepsAccounted(sys: System, e: Event)
    requires Inv(sys) && Enabled(sys, e)
    ensures Accounted(Next(sys, e))
  {
    hide Next, Busy;
    var next := Next(sys, e);
    NextKeepsReleased(sys, e);
    forall l | Busy(next, l)
      ensures exists r :: Holds(next, r, l)
    {
      BusyAfter(sys, e, l);
      if Busy(sys, l) {
        var r :| Holds(sys, r, l);
        HolderAfter(sys, e, r, l);
      } else {
        StartAfter(sys, e);
        assert Holds(next, e.r, l);
      }
    }
  }

  lemma HolderAfter(sys: System, e: Event, r: RequestId, l: LockId)
    requires Released(sys) && Enabled(sys, e) && Holds(sys, r, l) && Busy(Next(sys, e), l)
    ensures Holds(Next(sys, e), r, l)
  {
    hide Next, L.Held, L.Unlocked;
    if !Concerns(e, r) {
      OthersAfter(sys, e, r);
    } else {
      ActorPhase(sys, e);
      OwnAfter(sys, e, r);
      LockFacts(LockAt(sys, l), 0, 0);
    }
  }

  /** Every timely step keeps exclusion and the account of releases. */
  lemma NextKeepsInv(sys: System, e: Event)
    requires Inv(sys) && Enabled(sys, e) && !Premature(sys, e)
    ensures Inv(Next(sys, e))
  {
    hide Exclusive, Accounted, Next;
    NextKeepsExclusive(sys, e);
    NextKeepsAccounted(sys, e);
  }

  lemma {:induction false} TimelyRunKeepsInv(sys: System, events: seq<Event>, end: System)
    requires Inv(sys) && TimelyRun(sys, events, end)
    ensures Inv(end)
    decreases |events|
  {
    hide Inv, Next, Premature;
    if events == [] {
    } else {
      NextKeepsInv(sys, events[0]);
      TimelyRunKeepsInv(Next(sys, events[0]), events[1..], end);
    }
  }

  lemma Reached(hsmWallets: set<WalletId>, events: seq<Event>, end: System)
    requires TimelyRun(Initial(hsmWallets), events, end)
    ensures Inv(end)
  {
    hide TimelyRun;
    assert Inv(Initial(hsmWallets));
    TimelyRunKeepsInv(Initial(hsmWallets), events, end);
  }

  // ----- what timely runs guarantee -----

  /** Two requests between acquiring a lock and their release never share it, and hold it. */
  lemma MutualExclusion(hsmWallets: set<WalletId>, events: seq<Event>, end: System, r: RequestId, q: RequestId)
    requires TimelyRun(Initial(hsmWallets), events, end)
    requires InWindow(end, r) && InWindow(end, q)
    requires LockFor(end, end.requests[r].wallet) == LockFor(end, end.requests[q].wallet)
    ensures r == q
    ensures Busy(end, LockFor(end, end.requests[r].wallet))
  {
    hide TimelyRun;
    Reached(hsmWallets, events, end);
  }

  /** A busy lock is held by a request in its window, or was leaked by a failed prepareTxFunds. */
  lemma BusyMeansHeld(hsmWallets: set<WalletId>, events: seq<Event>, end: System, l: LockId)
    requires TimelyRun(Initial(hsmWallets), events, end) && Busy(end, l)
    ensures exists r :: Holds(end, r, l)
  {
    hide TimelyRun;
    Reached(hsmWallets, events, end);
  }

  /** No step of anybody else, in particular no late second unlock, ends a request's hold of its lock. */
  lemma OthersKeepMyLock(hsmWallets: set<WalletId>, events: seq<Event>, sys: System, r: RequestId, e: Event)
    requires TimelyRun(Initial(hsmWallets), events, sys)
    requires InWindow(sys, r) && !Concerns(e, r) && Enabled(sys, e) && !Premature(sys, e)
    ensures InWindow(Next(sys, e), r)
    ensures Busy(Next(sys, e), LockFor(sys, sys.requests[r].wallet))
  {
    hide TimelyRun, Premature, Next, Busy;
    Reached(hsmWallets, events, sys);
    HoldStays(sys, e, r);
  }

  lemma {:induction false} RunKeepsReleased(sys: System, events: seq<Event>, end: System)
    requires Released(sys) && Run(sys, events, end)
    ensures Released(end)
    decreases |events|
  {
    hide Released, Next;
    if events == [] {
    } else {
      NextKeepsReleased(sys, events[0]);
      RunKeepsReleased(Next(sys, events[0]), events[1..], end);
    }
  }

  /** In every run, once a send has left its window its unlock does nothing, whoever holds the lock by then. */
  lemma LateUnlockDoesNothing(hsmWallets: set<WalletId>, events: seq<Event>, sys: System, r: RequestId)
    requires Run(Initial(hsmWallets), events, sys) && At(sys, r, {Mining, Sent, Failed})
    ensures CallUnlock(sys, r) == sys
  {
    hide Run;
    RunKeepsReleased(Initial(hsmWallets), events, sys);
  }
}
