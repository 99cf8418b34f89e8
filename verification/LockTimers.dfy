// One memory lock with its expiry timers, as a state machine over lock calls,
// unlock calls, timer callbacks and the passing of time.
module LockTimers {
  import opened Common

  /** The keys of the lock's tables: the constructor enters names, the callers use numbers. */
  datatype Key = Name(text: string) | Number(n: nat)

  const SEND_TX := Number(0)
  const HSM := Number(1)

  const DEFAULT_UNLOCK_TIMEOUT: nat := 2 * 60 * 1000

  datatype Timer = Timer(key: Key, due: nat)

  /** `status` and `recorded` are the lock's own tables; `pending` holds its timers in the event loop. */
  datatype LockState = LockState(
    status: map<Key, bool>,
    recorded: map<Key, Option<nat>>,
    pending: map<nat, Timer>,
    nextId: nat)

  function NewLock(): LockState {
    LockState(map[Name("SEND_TX") := false, Name("HSM") := false],
              map[Name("SEND_TX") := None, Name("HSM") := None],
              map[], 1)
  }

  predicate Held(st: LockState, key: Key) {
    key in st.status && st.status[key]
  }

  predicate Recorded(st: LockState, key: Key) {
    key in st.recorded && st.recorded[key].Some?
  }

  /** Clear the recorded timer, if there is one. */
  function ClearTimer(st: LockState, key: Key): LockState {
    if Recorded(st, key)
    then st.(pending := st.pending - {st.recorded[key].value}, recorded := st.recorded[key := None])
    else st
  }

  function Unlocked(st: LockState, key: Key): LockState {
    ClearTimer(st.(status := st.status[key := false]), key)
  }

  function Locked(st: LockState, key: Key, timeout: nat, now: nat): LockState {
    if Held(st, key) then st else
      var cleared := ClearTimer(st.(status := st.status[key := true]), key);
      cleared.(recorded := cleared.recorded[key := Some(st.nextId)],
               pending := cleared.pending[st.nextId := Timer(key, now + timeout)],
               nextId := st.nextId + 1)
  }

  /** The callback of a timer that has run out. */
  function Expired(st: LockState, id: nat): LockState
    requires id in st.pending
  {
    Unlocked(st.(pending := st.pending - {id}), st.pending[id].key)
  }

  // ----- runs -----

  /** An acquisition, named by the timer it armed. */
  datatype Acquisition = Acquisition(id: nat, at: nat, timeout: nat)

  datatype World = World(lock: LockState, now: nat, latest: map<Key, Acquisition>)

  datatype Event =
    | Acquire(key: Key, timeout: nat)
    | Release(key: Key)
    | Fire(id: nat)
    | Elapse(dt: nat)

  const START := World(NewLock(), 0, map[])

  /** A timer fires when it is due, and time does not pass a timer that is due. */
  ghost predicate Enabled(w: World, e: Event) {
    match e
    case Acquire(_, _) => true
    case Release(_) => true
    case Fire(id) => id in w.lock.pending && w.now >= w.lock.pending[id].due
    case Elapse(dt) => forall id :: id in w.lock.pending ==> w.now + dt <= w.lock.pending[id].due
  }

  ghost function Next(w: World, e: Event): World
    requires Enabled(w, e)
  {
    match e
    case Acquire(key, timeout) =>
      w.(lock := Locked(w.lock, key, timeout, w.now),
         latest := if Held(w.lock, key) then w.latest
                   else w.latest[key := Acquisition(w.lock.nextId, w.now, timeout)])
    case Release(key) => w.(lock := Unlocked(w.lock, key))
    case Fire(id) => w.(lock := Expired(w.lock, id))
    case Elapse(dt) => w.(now := w.now + dt)
  }

  ghost predicate Run(w: World, events: seq<Event>, end: World)
    decreases |events|
  {
    if events == [] then end == w
    else Enabled(w, events[0]) && Run(Next(w, events[0]), events[1..], end)
  }

  /** A lock is held exactly while it has one live timer, which is the one it recorded. */
  ghost predicate OneTimerEach(st: LockState) {
    && (forall key :: Held(st, key) <==> Recorded(st, key))
    && (forall key :: Recorded(st, key) ==>
          && st.recorded[key].value in st.pending
          && st.pending[st.recorded[key].value].key == key)
    && (forall id :: id in st.pending ==>
          Recorded(st, st.pending[id].key) && st.recorded[st.pending[id].key].value == id)
    && (forall id :: id in st.pending ==> id < st.nextId)
  }

  /** Every live timer belongs to the acquisition that holds its lock now, and is not overdue. */
  ghost predicate TimersCurrent(w: World) {
    forall id :: id in w.lock.pending ==>
      var timer := w.lock.pending[id];
      && timer.key in w.latest
      && w.latest[timer.key].id == id
      && timer.due == w.latest[timer.key].at + w.latest[timer.key].timeout
      && w.now <= timer.due
  }

  ghost predicate Disciplined(w: World) {
    OneTimerEach(w.lock) && TimersCurrent(w)
  }

  lemma UnlockKeepsTimers(st: LockState, key: Key)
    requires OneTimerEach(st)
    ensures OneTimerEach(Unlocked(st, key))
    ensures !Held(Unlocked(st, key), key)
    ensures forall k :: k != key ==> (Held(Unlocked(st, key), k) <==> Held(st, k))
  {
    var after := Unlocked(st, key);
    forall k
      ensures Held(after, k) <==> Held(st, k) && k != key
      ensures Recorded(after, k) <==> Recorded(st, k) && k != key
      ensures Held(after, k) <==> Recorded(after, k)
    {
      assert Held(st, k) <==> Recorded(st, k);
    }
  }

  /** Locking a free key only arms a timer for it. */
  lemma LockArmsTimer(st: LockState, key: Key, timeout: nat, now: nat)
    requires OneTimerEach(st) && !Held(st, key)
    ensures Locked(st, key, timeout, now) == Armed(st, key, now + timeout)
  {
    assert !Recorded(st, key);
  }

  function Armed(st: LockState, key: Key, due: nat): LockState {
    LockState(st.status[key := true], st.recorded[key := Some(st.nextId)],
              st.pending[st.nextId := Timer(key, due)], st.nextId + 1)
  }

  lemma ArmedKeepsTimers(st: LockState, key: Key, due: nat)
    requires OneTimerEach(st) && !Held(st, key)
    ensures OneTimerEach(Armed(st, key, due))
  {
    var after := Armed(st, key, due);
    forall k
      ensures Held(after, k) <==> Held(st, k) || k == key
      ensures Recorded(after, k) <==> Recorded(st, k) || k == key
      ensures Held(after, k) <==> Recorded(after, k)
    {
      assert Held(st, k) <==> Recorded(st, k);
    }
  }

  lemma LockKeepsTimers(st: LockState, key: Key, timeout: nat, now: nat)
    requires OneTimerEach(st)
    ensures OneTimerEach(Locked(st, key, timeout, now))
    ensures Held(Locked(st, key, timeout, now), key)
    ensures forall k :: k != key ==> (Held(Locked(st, key, timeout, now), k) <==> Held(st, k))
  {
    if Held(st, key) {
    } else {
      hide Locked, OneTimerEach;
      LockArmsTimer(st, key, timeout, now);
      ArmedKeepsTimers(st, key, now + timeout);
    }
  }

  lemma ExpireKeepsTimers(st: LockState, id: nat)
    requires OneTimerEach(st) && id in st.pending
    ensures OneTimerEach(Expired(st, id))
    ensures Expired(st, id) == Unlocked(st, st.pending[id].key)
  {
    UnlockKeepsTimers(st, st.pending[id].key);
    assert st.pending - {id} - {id} == st.pending - {id};
  }

  lemma NextKeepsDiscipline(w: World, e: Event)
    requires Disciplined(w) && Enabled(w, e)
    ensures Disciplined(Next(w, e))
  {
    match e
    case Acquire(key, timeout) => LockKeepsTimers(w.lock, key, timeout, w.now);
    case Release(key) => UnlockKeepsTimers(w.lock, key);
    case Fire(id) => ExpireKeepsTimers(w.lock, id);
    case Elapse(_) =>
  }

  lemma {:induction false} RunKeepsDiscipline(w: World, events: seq<Event>, end: World)
    requires Disciplined(w) && Run(w, events, end)
    ensures Disciplined(end)
    decreases |events|
  {
    if events == [] {
    } else {
      NextKeepsDiscipline(w, events[0]);
      RunKeepsDiscipline(Next(w, events[0]), events[1..], end);
    }
  }

  /** In every run: held means one live timer, that of the current acquisition, and held no longer than asked. */
  lemma TimerDiscipline(events: seq<Event>, end: World, key: Key)
    requires Run(START, events, end)
    ensures Held(end.lock, key) <==> exists id :: id in end.lock.pending && end.lock.pending[id].key == key
    ensures forall i, j | i in end.lock.pending && j in end.lock.pending ::
              end.lock.pending[i].key == end.lock.pending[j].key ==> i == j
    ensures forall id :: id in end.lock.pending && end.lock.pending[id].key == key ==>
              key in end.latest && end.latest[key].id == id
    ensures Held(end.lock, key) ==>
              key in end.latest && end.now <= end.latest[key].at + end.latest[key].timeout
  {
    assert Disciplined(START);
    RunKeepsDiscipline(START, events, end);
    if Held(end.lock, key) {
      assert end.lock.recorded[key].value in end.lock.pending;
    }
  }

  /** Firing a timer ends the acquisition that armed it and touches no other key. */
  lemma FireEndsItsAcquisition(events: seq<Event>, end: World, id: nat)
    requires Run(START, events, end) && Enabled(end, Fire(id))
    ensures var key, after := end.lock.pending[id].key, Next(end, Fire(id)).lock;
            && key in end.latest && end.latest[key].id == id
            && Held(end.lock, key) && !Held(after, key)
            && forall k :: k != key ==> (Held(after, k) <==> Held(end.lock, k))
  {
    assert Disciplined(START);
    RunKeepsDiscipline(START, events, end);
    var key := end.lock.pending[id].key;
    ExpireKeepsTimers(end.lock, id);
    UnlockKeepsTimers(end.lock, key);
  }
}
