// The lock objects: the lock itself, the registry that hands one out for each wallet,
// and the closure that releases a send lock at most once.
module LockObjects {
  import opened Common
  import opened LockTimers

  type WalletId(==, !new)

  class Lock {
    var lockStatus: map<Key, bool>
    var setTimeoutLock: map<Key, Option<nat>>
    // The event loop's side: the timers this lock has armed and that still run.
    var pending: map<nat, Timer>
    var nextId: nat

    ghost function Snapshot(): LockState
      reads this
    {
      LockState(lockStatus, setTimeoutLock, pending, nextId)
    }

    constructor ()
      ensures Snapshot() == NewLock()
    {
      lockStatus := map[Name("SEND_TX") := false, Name("HSM") := false];
      setTimeoutLock := map[Name("SEND_TX") := None, Name("HSM") := None];
      pending, nextId := map[], 1;
    }

    method SetTimeout(key: Key, timeout: nat, now: nat) returns (id: nat)
      modifies this`pending, this`nextId
      ensures id == old(nextId) && nextId == id + 1 && pending == old(pending)[id := Timer(key, now + timeout)]
    {
      id := nextId;
      pending, nextId := pending[id := Timer(key, now + timeout)], nextId + 1;
    }

    method ClearTimeout(id: nat)
      modifies this`pending
      ensures pending == old(pending) - {id}
    {
      pending := pending - {id};
    }

    method Unlock(key: Key)
      modifies this
      ensures Snapshot() == Unlocked(old(Snapshot()), key)
    {
      lockStatus := lockStatus[key := false];
      if key in setTimeoutLock && setTimeoutLock[key].Some? {
        ClearTimeout(setTimeoutLock[key].value);
        setTimeoutLock := setTimeoutLock[key := None];
      }
    }

    method TryLock(key: Key, timeout: nat, now: nat) returns (ok: bool)
      modifies this
      ensures ok <==> !Held(old(Snapshot()), key)
      ensures Snapshot() == Locked(old(Snapshot()), key, timeout, now)
    {
      if key in lockStatus && lockStatus[key] {
        return false;
      }
      lockStatus := lockStatus[key := true];
      if key in setTimeoutLock && setTimeoutLock[key].Some? {
        ClearTimeout(setTimeoutLock[key].value);
        setTimeoutLock := setTimeoutLock[key := None];
      }
      var id := SetTimeout(key, timeout, now);
      setTimeoutLock := setTimeoutLock[key := Some(id)];
      return true;
    }

    /** What the event loop does when a timer runs out. */
    method OnTimeout(id: nat)
      requires id in pending
      modifies this
      ensures Snapshot() == Expired(old(Snapshot()), id)
    {
      var key := pending[id].key;
      pending := pending - {id};
      Unlock(key);
    }
  }

  class GlobalLock {
    var wallets: map<WalletId, Lock>
    const globalLock: Lock
    const hsmLock: Lock

    /** No two users of the registry share a lock, except the HSM wallets theirs. */
    ghost predicate Valid()
      reads this
    {
      && globalLock != hsmLock
      && (forall w :: w in wallets ==> wallets[w] != globalLock && wallets[w] != hsmLock)
      && (forall v, w :: v in wallets && w in wallets && v != w ==> wallets[v] != wallets[w])
    }

    constructor ()
      ensures Valid() && wallets == map[] && fresh(globalLock) && fresh(hsmLock)
      ensures globalLock.Snapshot() == NewLock() && hsmLock.Snapshot() == NewLock()
    {
      wallets := map[];
      globalLock := new Lock();
      hsmLock := new Lock();
    }

    method Delete(walletId: WalletId)
      requires Valid()
      modifies this
      ensures Valid() && wallets == old(wallets) - {walletId}
    {
      if walletId in wallets {
        wallets := wallets - {walletId};
      }
    }

    method Get(walletId: WalletId) returns (lock: Lock)
      requires Valid()
      modifies this
      ensures Valid() && wallets == old(wallets)[walletId := lock]
      ensures if walletId in old(wallets) then lock == old(wallets)[walletId]
              else fresh(lock) && lock.Snapshot() == NewLock()
    {
      if walletId !in wallets {
        var created := new Lock();
        wallets := wallets[walletId := created];
      }
      return wallets[walletId];
    }

    /** HSM wallets all use the one HSM lock. */
    method GetWalletLock(hsmWalletIds: set<WalletId>, walletId: WalletId) returns (lock: Lock)
      requires Valid()
      modifies this
      ensures Valid()
      ensures walletId in hsmWalletIds ==> lock == hsmLock && wallets == old(wallets)
      ensures walletId !in hsmWalletIds ==>
                && wallets == old(wallets)[walletId := lock]
                && if walletId in old(wallets) then lock == old(wallets)[walletId]
                   else fresh(lock) && lock.Snapshot() == NewLock()
    {
      if walletId in hsmWalletIds {
        return hsmLock;
      }
      lock := Get(walletId);
    }
  }

  /** The function `lockSendTx` returns: it captures the lock and remembers its first call. */
  class SendTxUnlock {
    const walletLock: Lock
    var lockReleased: bool

    constructor (walletLock: Lock)
      ensures this.walletLock == walletLock && !lockReleased
    {
      this.walletLock := walletLock;
      lockReleased := false;
    }

    method Call()
      modifies this, walletLock
      ensures lockReleased
      ensures walletLock.Snapshot() == if old(lockReleased) then old(walletLock.Snapshot())
                                       else Unlocked(old(walletLock.Snapshot()), SEND_TX)
    {
      if !lockReleased {
        lockReleased := true;
        walletLock.Unlock(SEND_TX);
      }
    }
  }

  /** Acquire the send lock of a wallet; `null` when somebody else holds it. */
  method LockSendTx(registry: GlobalLock, hsmWalletIds: set<WalletId>, walletId: WalletId, now: nat)
    returns (unlock: SendTxUnlock?)
    requires registry.Valid()
    modifies registry,
             if walletId in hsmWalletIds then {registry.hsmLock}
             else if walletId in registry.wallets then {registry.wallets[walletId]} else {}
    ensures registry.Valid()
    ensures walletId !in hsmWalletIds ==> walletId in registry.wallets
    ensures var lock := if walletId in hsmWalletIds then registry.hsmLock else registry.wallets[walletId];
            && (walletId !in hsmWalletIds && walletId in old(registry.wallets) ==> lock == old(registry.wallets[walletId]))
            && (if unlock == null then !fresh(lock) && Held(old(lock.Snapshot()), SEND_TX)
                                       && lock.Snapshot() == old(lock.Snapshot())
                else fresh(unlock) && unlock.walletLock == lock && !unlock.lockReleased
                     && lock.Snapshot() == Locked(if fresh(lock) then NewLock() else old(lock.Snapshot()),
                                                  SEND_TX, DEFAULT_UNLOCK_TIMEOUT, now))
  {
    var walletLock := registry.GetWalletLock(hsmWalletIds, walletId);
    var canStart := walletLock.TryLock(SEND_TX, DEFAULT_UNLOCK_TIMEOUT, now);
    if !canStart {
      return null;
    }
    return new SendTxUnlock(walletLock);
  }
}
