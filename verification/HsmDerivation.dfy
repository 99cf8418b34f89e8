// Deriving the account and change keys of a root key on the HSM, step by step, on a
// connection that may break after any step.
module HsmDerivation {
  import opened Common
  import opened HsmKeyNames

  /** The key a name stands for: somebody's master key, or a child at an index. */
  datatype KeyMaterial = Master(id: nat) | Child(parent: KeyMaterial, index: nat)

  const HARDENED: nat := 0x8000_0000
  const HATHOR_BIP44_CODE: nat := 280

  const BIP_KEYNAME := "HTR_BIP_KEY"
  const COIN_KEYNAME := "HTR_COIN_KEY"

  /** The account level m/44'/280'/0' and the change level m/44'/280'/0'/0 below a root. */
  function AccountOf(root: KeyMaterial): KeyMaterial {
    Child(Child(Child(root, HARDENED + 44), HARDENED + HATHOR_BIP44_CODE), HARDENED)
  }

  function ChangeOf(root: KeyMaterial): KeyMaterial {
    Child(AccountOf(root), 0)
  }

  /** The key at a derivation path below another. */
  function AtPath(root: KeyMaterial, path: seq<nat>): KeyMaterial {
    if path == [] then root else Child(AtPath(root, path[..|path| - 1]), path[|path| - 1])
  }

  /** The paths m/44'/280'/0' and m/44'/280'/0'/0, a prime standing for 2^31 more. */
  const ACCOUNT_PATH: seq<nat> := [0x8000_0000 + 44, 0x8000_0000 + 280, 0x8000_0000]
  const CHANGE_PATH: seq<nat> := [0x8000_0000 + 44, 0x8000_0000 + 280, 0x8000_0000, 0]

  lemma PathsOfLevels(root: KeyMaterial)
    ensures AccountOf(root) == AtPath(root, ACCOUNT_PATH) && ChangeOf(root) == AtPath(root, CHANGE_PATH)
  {
    var account, change := ACCOUNT_PATH, CHANGE_PATH;
    LongerPath(root, [], account[0]);
    LongerPath(root, [account[0]], account[1]);
    LongerPath(root, [account[0], account[1]], account[2]);
    LongerPath(root, account, change[3]);
    assert [] + [account[0]] == [account[0]] && [account[0]] + [account[1]] == [account[0], account[1]];
    assert [account[0], account[1]] + [account[2]] == account && account + [change[3]] == change;
  }

  lemma LongerPath(root: KeyMaterial, path: seq<nat>, index: nat)
    ensures AtPath(root, path + [index]) == Child(AtPath(root, path), index)
  {
    assert (path + [index])[..|path|] == path;
  }

  type Keys = map<string, KeyMaterial>

  /** The device, the temporary keys of the open session, and how many calls the connection still serves. */
  datatype Device = Device(permanent: Keys, temporary: Keys, calls: nat)

  datatype Error = ObjAlreadyExists | CannotOpenObj | ConnectionLost

  function Lookup(dev: Device, name: string): Option<KeyMaterial> {
    if name in dev.permanent then Some(dev.permanent[name])
    else if name in dev.temporary then Some(dev.temporary[name])
    else None
  }

  // ----- device calls -----

  function KeyExists(dev: Device, name: string): (Device, Outcome<bool, Error>) {
    if dev.calls == 0 then (dev, Fail(ConnectionLost))
    else (dev.(calls := dev.calls - 1), Ok(Lookup(dev, name).Some?))
  }

  function CreateChild(dev: Device, index: nat, temporary: bool, parent: string, child: string)
    : (Device, Outcome<(), Error>)
  {
    if dev.calls == 0 then (dev, Fail(ConnectionLost)) else
      var used := dev.(calls := dev.calls - 1);
      if Lookup(dev, parent).None? then (used, Fail(CannotOpenObj))
      else if Lookup(dev, child).Some? then (used, Fail(ObjAlreadyExists))
      else
        var key := Child(Lookup(dev, parent).value, index);
        if temporary then (used.(temporary := used.temporary[child := key]), Ok(()))
        else (used.(permanent := used.permanent[child := key]), Ok(()))
  }

  // ----- one attempt -----

  /** From the root to the account key, through two temporary keys. */
  function DeriveAccount(dev: Device, root: string): (Device, Outcome<(), Error>) {
    var (d1, r1) := CreateChild(dev, HARDENED + 44, true, root, BIP_KEYNAME);
    if r1.Fail? then (d1, r1) else
      var (d2, r2) := CreateChild(d1, HARDENED + HATHOR_BIP44_CODE, true, BIP_KEYNAME, COIN_KEYNAME);
      if r2.Fail? then (d2, r2) else
        CreateChild(d2, HARDENED, false, COIN_KEYNAME, GetAcctKeyname(root))
  }

  function DeriveChange(dev: Device, root: string): (Device, Outcome<(), Error>) {
    var (d1, exists_) := KeyExists(dev, GetChangeKeyname(root));
    if exists_.Fail? then (d1, Fail(exists_.error))
    else if exists_.value then (d1, Ok(()))
    else CreateChild(d1, 0, false, GetAcctKeyname(root), GetChangeKeyname(root))
  }

  function Attempt(dev: Device, root: string): (Device, Outcome<(), Error>) {
    var (d1, exists_) := KeyExists(dev, GetAcctKeyname(root));
    if exists_.Fail? then (d1, Fail(exists_.error)) else
      var (d2, r2) := if exists_.value then (d1, Ok(())) else DeriveAccount(d1, root);
      if r2.Fail? then (d2, r2) else DeriveChange(d2, root)
  }

  /** One attempt in a session of its own, on a connection that serves this many calls. */
  function Session(keys: Keys, root: string, calls: nat): (Keys, Outcome<(), Error>) {
    var (dev, r) := Attempt(Device(keys, map[], calls), root);
    (dev.permanent, r)
  }

  function Sessions(keys: Keys, root: string, calls: seq<nat>): Keys
    decreases |calls|
  {
    if calls == [] then keys else Sessions(Session(keys, root, calls[0]).0, root, calls[1..])
  }

  // ----- what an attempt does -----

  const ENOUGH_CALLS: nat := 6

  /** What is already there is right: nobody else's key stands under the account or change name. */
  ghost predicate BoundRight(keys: Keys, root: string) {
    && root in keys
    && (GetAcctKeyname(root) in keys ==> keys[GetAcctKeyname(root)] == AccountOf(keys[root]))
    && (GetChangeKeyname(root) in keys ==> keys[GetChangeKeyname(root)] == ChangeOf(keys[root]))
  }

  ghost predicate Complete(keys: Keys, root: string) {
    && root in keys
    && GetAcctKeyname(root) in keys && keys[GetAcctKeyname(root)] == AccountOf(keys[root])
    && GetChangeKeyname(root) in keys && keys[GetChangeKeyname(root)] == ChangeOf(keys[root])
  }

  /** No permanent key stands where the derivation puts its temporary ones. */
  predicate NamesFree(keys: Keys) {
    BIP_KEYNAME !in keys && COIN_KEYNAME !in keys
  }

  /** Nothing is overwritten, and only the two names may be new. */
  ghost predicate OnlyAdds(keys: Keys, after: Keys, root: string) {
    && (forall n :: n in keys ==> n in after && after[n] == keys[n])
    && (forall n :: n in after ==> n in keys || n == GetAcctKeyname(root) || n == GetChangeKeyname(root))
  }

  lemma NamesApart(root: string)
    ensures GetAcctKeyname(root) != GetChangeKeyname(root)
    ensures GetAcctKeyname(root) != root && GetChangeKeyname(root) != root
    ensures GetAcctKeyname(root) != BIP_KEYNAME && GetAcctKeyname(root) != COIN_KEYNAME
    ensures GetChangeKeyname(root) != BIP_KEYNAME && GetChangeKeyname(root) != COIN_KEYNAME
  {
    var a, c := GetAcctKeyname(root), GetChangeKeyname(root);
    assert a[|a| - 1] == 't' && c[|c| - 1] == '0';
    assert BIP_KEYNAME[|BIP_KEYNAME| - 1] == 'Y' && COIN_KEYNAME[|COIN_KEYNAME| - 1] == 'Y';
  }

  lemma AccountAttempt(dev: Device, root: string)
    requires dev.temporary == map[] && GetAcctKeyname(root) !in dev.permanent
    ensures var (after, r) := DeriveAccount(dev, root);
            && (r.Ok? <==> dev.calls >= 3 && root in dev.permanent && NamesFree(dev.permanent))
            && (r.Ok? ==> after.permanent == dev.permanent[GetAcctKeyname(root) := AccountOf(dev.permanent[root])]
                          && after.calls == dev.calls - 3
                          && after.temporary.Keys == {BIP_KEYNAME, COIN_KEYNAME})
            && (r.Fail? ==> after.permanent == dev.permanent)
            && (r.Fail? && root in dev.permanent && NamesFree(dev.permanent) ==> r.error == ConnectionLost)
  {
    hide GetAcctKeyname;
    NamesApart(root);
    assert BIP_KEYNAME != COIN_KEYNAME;
  }

  lemma ChangeAttempt(dev: Device, root: string)
    requires GetAcctKeyname(root) in dev.permanent && GetChangeKeyname(root) !in dev.temporary
    ensures var (after, r) := DeriveChange(dev, root);
            var change := GetChangeKeyname(root);
            && (r.Ok? <==> dev.calls >= if change in dev.permanent then 1 else 2)
            && (r.Ok? && change in dev.permanent ==> after.permanent == dev.permanent)
            && (r.Ok? && change !in dev.permanent ==>
                  after.permanent == dev.permanent[change := Child(dev.permanent[GetAcctKeyname(root)], 0)])
            && (r.Fail? ==> after.permanent == dev.permanent && r.error == ConnectionLost)
  {
    hide GetAcctKeyname, GetChangeKeyname;
  }

  /** How many calls an attempt needs. */
  function CallsNeeded(keys: Keys, root: string): nat {
    (if GetAcctKeyname(root) in keys then 2 else 5) + (if GetChangeKeyname(root) in keys then 0 else 1)
  }

  /** The account key is there already, or the way to it is free. */
  predicate Derivable(keys: Keys, root: string) {
    GetAcctKeyname(root) in keys || NamesFree(keys)
  }

  /** An attempt completes exactly when the connection lasts and the names it needs are there and free. */
  lemma AttemptCompletes(keys: Keys, root: string, calls: nat)
    ensures var (after, r) := Session(keys, root, calls);
            && OnlyAdds(keys, after, root)
            && (r.Ok? <==> calls >= CallsNeeded(keys, root)
                           && (GetAcctKeyname(root) in keys || (root in keys && NamesFree(keys))))
            && (r.Ok? ==> GetAcctKeyname(root) in after && GetChangeKeyname(root) in after)
            && (Derivable(after, root) <==> Derivable(keys, root))
  {
    hide GetAcctKeyname, GetChangeKeyname, DeriveAccount, DeriveChange;
    NamesApart(root);
    var dev := Device(keys, map[], calls);
    if calls > 0 {
      var d1 := dev.(calls := calls - 1);
      if GetAcctKeyname(root) in keys {
        ChangeAttempt(d1, root);
      } else {
        AccountAttempt(d1, root);
        var (d2, r2) := DeriveAccount(d1, root);
        if r2.Ok? {
          ChangeAttempt(d2, root);
        }
      }
    }
  }

  /** Every attempt, broken off or not, keeps right what was right. */
  lemma AttemptKeepsRight(keys: Keys, root: string, calls: nat)
    requires BoundRight(keys, root)
    ensures var (after, r) := Session(keys, root, calls);
            && BoundRight(after, root)
            && (r.Ok? ==> Complete(after, root))
            && (r.Fail? && Derivable(keys, root) ==> r.error == ConnectionLost)
  {
    hide GetAcctKeyname, GetChangeKeyname, DeriveAccount, DeriveChange, AccountOf;
    NamesApart(root);
    var dev := Device(keys, map[], calls);
    if calls > 0 {
      var d1 := dev.(calls := calls - 1);
      if GetAcctKeyname(root) in keys {
        ChangeAttempt(d1, root);
      } else {
        AccountAttempt(d1, root);
        var (d2, r2) := DeriveAccount(d1, root);
        if r2.Ok? {
          ChangeAttempt(d2, root);
        }
      }
    }
  }

  // ----- any number of attempts -----

  lemma {:induction false} SessionsKeepRight(keys: Keys, root: string, calls: seq<nat>)
    requires BoundRight(keys, root)
    ensures var after := Sessions(keys, root, calls);
            && BoundRight(after, root) && OnlyAdds(keys, after, root)
            && (Derivable(after, root) <==> Derivable(keys, root))
    decreases |calls|
  {
    hide GetAcctKeyname, GetChangeKeyname, Session, BoundRight, Derivable;
    if calls == [] {
    } else {
      AttemptKeepsRight(keys, root, calls[0]);
      AttemptCompletes(keys, root, calls[0]);
      SessionsKeepRight(Session(keys, root, calls[0]).0, root, calls[1..]);
    }
  }

  /**
   * However many attempts were broken off and wherever, what is there is right and a completed attempt completes it;
   * on a lasting connection the next attempt completes exactly if the account key was derivable to begin with.
   */
  lemma DerivationResumable(keys: Keys, root: string, broken: seq<nat>, last: nat)
    requires BoundRight(keys, root)
    ensures var (after, r) := Session(Sessions(keys, root, broken), root, last);
            && OnlyAdds(keys, after, root) && BoundRight(after, root)
            && (r.Ok? ==> Complete(after, root) && PathsBound(keys, after, root))
            && (r.Fail? && Derivable(keys, root) ==> r.error == ConnectionLost)
            && (last >= ENOUGH_CALLS ==> (r.Ok? <==> Derivable(keys, root)))
  {
    hide GetAcctKeyname, GetChangeKeyname, Session, BoundRight, NamesFree;
    var mid := Sessions(keys, root, broken);
    SessionsKeepRight(keys, root, broken);
    AttemptKeepsRight(mid, root, last);
    AttemptCompletes(mid, root, last);
    RootStays(mid, root);
    RootStays(keys, root);
    if Session(mid, root, last).1.Ok? {
      CompleteBindsPaths(mid, Session(mid, root, last).0, root);
    }
  }

  /** The account and change names, written out, stand for the keys at the two paths below the root. */
  ghost predicate PathsBound(keys: Keys, after: Keys, root: string)
    requires root in keys
  {
    && root + "_htrAcct" in after && after[root + "_htrAcct"] == AtPath(keys[root], ACCOUNT_PATH)
    && root + "_htrChange0" in after && after[root + "_htrChange0"] == AtPath(keys[root], CHANGE_PATH)
  }

  lemma CompleteBindsPaths(keys: Keys, after: Keys, root: string)
    requires root in keys && OnlyAdds(keys, after, root) && Complete(after, root)
    ensures PathsBound(keys, after, root)
  {
    hide AtPath, AccountOf, ChangeOf;
    PathsOfLevels(keys[root]);
  }

  /** A root key may have the name of a temporary key; no other root without an account key then ever gets one. */
  lemma {:induction false} RootNameBlocks(name: string, keys: Keys, root: string, broken: seq<nat>, last: nat)
    requires (name == BIP_KEYNAME || name == COIN_KEYNAME) && name in keys
    requires BoundRight(keys, root) && GetAcctKeyname(root) !in keys
    ensures ValidRoot(name)
    ensures Session(Sessions(keys, root, broken), root, last).1.Fail?
  {
    hide GetAcctKeyname, GetChangeKeyname, Session, Sessions, BoundRight;
    SessionsKeepRight(keys, root, broken);
    AttemptCompletes(Sessions(keys, root, broken), root, last);
  }

  lemma RootStays(keys: Keys, root: string)
    ensures BoundRight(keys, root) ==> root in keys
  {}

  /** A completed attempt is right exactly when no wrong key stood under its names: existing keys are trusted. */
  lemma CompletedRightExactly(keys: Keys, root: string, calls: nat)
    requires root in keys && Session(keys, root, calls).1.Ok?
    ensures Complete(Session(keys, root, calls).0, root) <==> BoundRight(keys, root)
  {
    hide Session;
    AttemptCompletes(keys, root, calls);
    if BoundRight(keys, root) {
      AttemptKeepsRight(keys, root, calls);
    }
  }

  // ----- the connection object -----

  class Connection {
    var permanent: Keys
    var temporary: Keys
    // How many calls the connection still serves before it is lost.
    var calls: nat

    ghost function Snapshot(): Device
      reads this
    {
      Device(permanent, temporary, calls)
    }

    constructor (permanent: Keys, calls: nat)
      ensures Snapshot() == Device(permanent, map[], calls)
    {
      this.permanent, this.temporary, this.calls := permanent, map[], calls;
    }

    method HsmKeyExists(name: string) returns (r: Outcome<bool, Error>)
      modifies this
      ensures (Snapshot(), r) == KeyExists(old(Snapshot()), name)
      ensures r == if old(calls) == 0 then Fail(ConnectionLost) else Ok(name in permanent || name in temporary)
      ensures permanent == old(permanent) && temporary == old(temporary)
    {
      if calls == 0 {
        return Fail(ConnectionLost);
      }
      calls := calls - 1;
      return Ok(name in permanent || name in temporary);
    }

    method CreateBip32ChildKeyDerivation(index: nat, temp: bool, parent: string, child: string)
      returns (r: Outcome<(), Error>)
      modifies this
      ensures (Snapshot(), r) == CreateChild(old(Snapshot()), index, temp, parent, child)
    {
      if calls == 0 {
        return Fail(ConnectionLost);
      }
      calls := calls - 1;
      if parent !in permanent && parent !in temporary {
        return Fail(CannotOpenObj);
      }
      if child in permanent || child in temporary {
        return Fail(ObjAlreadyExists);
      }
      var key := Child(if parent in permanent then permanent[parent] else temporary[parent], index);
      if temp {
        temporary := temporary[child := key];
      } else {
        permanent := permanent[child := key];
      }
      return Ok(());
    }

    method DeriveMainKeysFromRoot(hsmKeyName: string) returns (r: Outcome<(), Error>)
      modifies this
      ensures (Snapshot(), r) == Attempt(old(Snapshot()), hsmKeyName)
    {
      hide CreateChild, GetAcctKeyname, GetChangeKeyname;
      var acctPathKeyname := GetAcctKeyname(hsmKeyName);
      var changePathKeyname := GetChangeKeyname(hsmKeyName);
      var acctPathExists := HsmKeyExists(acctPathKeyname);
      if acctPathExists.Fail? {
        return Fail(acctPathExists.error);
      }
      if !acctPathExists.value {
        r := CreateBip32ChildKeyDerivation(HARDENED + 44, true, hsmKeyName, BIP_KEYNAME);
        if r.Fail? {
          return;
        }
        r := CreateBip32ChildKeyDerivation(HARDENED + HATHOR_BIP44_CODE, true, BIP_KEYNAME, COIN_KEYNAME);
        if r.Fail? {
          return;
        }
        r := CreateBip32ChildKeyDerivation(HARDENED, false, COIN_KEYNAME, acctPathKeyname);
        if r.Fail? {
          return;
        }
      }
      var changePathExists := HsmKeyExists(changePathKeyname);
      if changePathExists.Fail? {
        return Fail(changePathExists.error);
      }
      if !changePathExists.value {
        r := CreateBip32ChildKeyDerivation(0, false, acctPathKeyname, changePathKeyname);
        return;
      }
      return Ok(());
    }
  }

  // ----- address keys of a signing session -----

  lemma AddressNameSpelt(root: string, index: nat)
    ensures AddressKeyname(root, index) == root + "_HAddr_" + Decimal(index)
    ensures GetChangeKeyname(root) == root + "_htrChange0"
  {}

  class HsmSession {
    const conn: Connection
    const rootKey: string
    var addressKeys: map<nat, string>

    /** The cache holds, for every index it knows, the one name of that address key. */
    ghost predicate Valid()
      reads this
    {
      forall i :: i in addressKeys ==> addressKeys[i] == AddressKeyname(rootKey, i)
    }

    constructor (conn: Connection, rootKeyname: string)
      ensures Valid() && addressKeys == map[] && this.conn == conn && rootKey == rootKeyname
    {
      this.conn, this.rootKey, addressKeys := conn, rootKeyname, map[];
    }

    method GetAddressKeyName(index: nat) returns (r: Outcome<string, Error>)
      requires Valid()
      modifies this, conn
      ensures Valid()
      ensures r.Ok? ==> r.value == AddressKeyname(rootKey, index) && addressKeys == old(addressKeys)[index := r.value]
      ensures r.Fail? ==> addressKeys == old(addressKeys)
      ensures index in old(addressKeys) ==> r.Ok? && conn.Snapshot() == old(conn.Snapshot())
      // A name that is not cached yet is good when the device makes its key or has it already.
      ensures index !in old(addressKeys) ==>
                var (after, made) := CreateChild(old(conn.Snapshot()), index, true, GetChangeKeyname(rootKey),
                                                 AddressKeyname(rootKey, index));
                && conn.Snapshot() == after
                && (r.Ok? <==> made.Ok? || made.error == ObjAlreadyExists)
                && (r.Fail? ==> r.error == made.error)
      // A key made for it is the child of the change key at that index, and temporary.
      ensures var change, name := rootKey + "_htrChange0", rootKey + "_HAddr_" + Decimal(index);
              r.Ok? && index !in old(addressKeys) && old(Lookup(conn.Snapshot(), name)).None? ==>
                && r.value == name && old(Lookup(conn.Snapshot(), change)).Some?
                && conn.permanent == old(conn.permanent)
                && conn.temporary
                   == old(conn.temporary)[name := Child(old(Lookup(conn.Snapshot(), change)).value, index)]
    {
      hide AddressKeyname;
      AddressNameSpelt(rootKey, index);
      if index in addressKeys {
        return Ok(addressKeys[index]);
      }
      var addressKeyName := AddressKeyname(rootKey, index);
      var changeKeyName := GetChangeKeyname(rootKey);
      var made := conn.CreateBip32ChildKeyDerivation(index, true, changeKeyName, addressKeyName);
      if made.Fail? && made.error != ObjAlreadyExists {
        return Fail(made.error);
      }
      addressKeys := addressKeys[index := addressKeyName];
      return Ok(addressKeyName);
    }
  }
}
