// The names under which the HSM stores the keys derived from a root key.
module HsmKeyNames {

  // ----- decimal numbers, as a template string prints them -----

  function Digit(d: nat): char
    requires d < 10
  {
    '0' + d as char
  }

  function Decimal(n: nat): string {
    if n < 10 then [Digit(n)] else Decimal(n / 10) + [Digit(n % 10)]
  }

  function Value(s: string): int {
    if s == [] then 0 else 10 * Value(s[..|s| - 1]) + (s[|s| - 1] as int - '0' as int)
  }

  predicate Digits(s: string) {
    forall i :: 0 <= i < |s| ==> '0' <= s[i] <= '9'
  }

  /** The strings that are the decimal form of a number: digits without a leading zero. */
  predicate Canonical(s: string) {
    s != [] && Digits(s) && (s[0] == '0' ==> |s| == 1)
  }

  lemma {:induction false} DecimalReadsBack(n: nat)
    ensures Value(Decimal(n)) == n && Canonical(Decimal(n))
    ensures n > 0 ==> Decimal(n)[0] != '0'
  {
    if n < 10 {
    } else {
      DecimalReadsBack(n / 10);
      assert Decimal(n)[..|Decimal(n)| - 1] == Decimal(n / 10);
    }
  }

  lemma {:induction false} CanonicalIsDecimal(s: string)
    requires Canonical(s)
    ensures Value(s) >= 0 && Decimal(Value(s)) == s
    ensures s[0] != '0' ==> Value(s) > 0
  {
    if |s| == 1 {
      assert s[..0] == [];
    } else {
      var rest, d := s[..|s| - 1], s[|s| - 1] as int - '0' as int;
      CanonicalIsDecimal(rest);
      assert Value(s) / 10 == Value(rest) && Value(s) % 10 == d;
      assert s == rest + [s[|s| - 1]];
    }
  }

  lemma {:induction false} DecimalLength(n: nat, k: nat)
    requires k > 0 && n < Pow10(k)
    ensures |Decimal(n)| <= k
  {
    if n < 10 {
    } else {
      DecimalLength(n / 10, k - 1);
    }
  }

  function Pow10(k: nat): nat {
    if k == 0 then 1 else 10 * Pow10(k - 1)
  }

  // ----- key names -----

  /** The name of the key at a level of the path; from level 5 on, of the address key at `index`. */
  function GetBip32Keyname(keyname: string, pathIndex: nat, index: nat): string {
    match pathIndex
    case 0 => keyname
    case 1 => keyname + "_bip44"
    case 2 => keyname + "_coinHTR"
    case 3 => keyname + "_htrAcct"
    case 4 => keyname + "_htrChange0"
    case _ => keyname + "_HAddr_" + Decimal(index)
  }

  function GetAcctKeyname(keyname: string): string {
    GetBip32Keyname(keyname, 3, 0)
  }

  function GetChangeKeyname(keyname: string): string {
    GetBip32Keyname(keyname, 4, 0)
  }

  function AddressKeyname(keyname: string, index: nat): string {
    GetBip32Keyname(keyname, 5, index)
  }

  /** Addresses have the indices below the hardened ones. */
  const INDEX_LIMIT: nat := 0x8000_0000

  /** What the creation script demands of the name of a root key. */
  predicate ValidRoot(keyname: string) {
    && 3 <= |keyname| <= 15
    && forall i :: 0 <= i < |keyname| ==>
         'a' <= keyname[i] <= 'z' || 'A' <= keyname[i] <= 'Z' || '0' <= keyname[i] <= '9' || keyname[i] == '_'
  }

  predicate Plain(s: string) {
    forall i :: 0 <= i < |s| ==> s[i] != '_'
  }

  /** An underscore stands at most at the last split of a name. */
  lemma LastUnderscore(a: string, x: string, k: nat)
    requires Plain(x) && k < |a + "_" + x| && (a + "_" + x)[k] == '_'
    ensures k <= |a|
  {
    assert forall i :: 0 <= i < |x| ==> (a + "_" + x)[|a| + 1 + i] == x[i];
  }

  /** A name has one part after its last underscore. */
  lemma SplitUnique(a: string, x: string, b: string, y: string)
    requires Plain(x) && Plain(y) && a + "_" + x == b + "_" + y
    ensures a == b && x == y
  {
    var s, t := a + "_" + x, b + "_" + y;
    LastUnderscore(a, x, |b|);
    LastUnderscore(b, y, |a|);
    assert s[..|a|] == a && t[..|b|] == b;
    assert s[|a| + 1..] == x && t[|b| + 1..] == y;
  }

  function Tail(level: nat): string
    requires 1 <= level <= 4
  {
    if level == 1 then "bip44" else if level == 2 then "coinHTR" else if level == 3 then "htrAcct" else "htrChange0"
  }

  lemma LevelParts(keyname: string, level: nat)
    requires 1 <= level <= 4
    ensures GetBip32Keyname(keyname, level, 0) == keyname + "_" + Tail(level)
    ensures Plain(Tail(level)) && !Digits(Tail(level))
  {
    assert !('0' <= Tail(level)[0] <= '9');
    assert forall k: string, x: string {:trigger k + ("_" + x)} :: k + ("_" + x) == k + "_" + x;
    assert "_bip44" == "_" + "bip44" && "_coinHTR" == "_" + "coinHTR";
    assert "_htrAcct" == "_" + "htrAcct" && "_htrChange0" == "_" + "htrChange0";
  }

  lemma AddressParts(keyname: string, index: nat)
    ensures AddressKeyname(keyname, index) == (keyname + "_HAddr") + "_" + Decimal(index)
    ensures Plain(Decimal(index)) && Digits(Decimal(index))
  {
    DecimalReadsBack(index);
    assert keyname + "_HAddr_" == keyname + "_HAddr" + "_";
  }

  /** No two addresses of any two roots share a key name. */
  lemma AddressNamesInjective(root: string, index: nat, root': string, index': nat)
    requires AddressKeyname(root, index) == AddressKeyname(root', index')
    ensures root == root' && index == index'
  {
    AddressParts(root, index);
    AddressParts(root', index');
    SplitUnique(root + "_HAddr", Decimal(index), root' + "_HAddr", Decimal(index'));
    assert (root + "_HAddr")[..|root|] == root && (root' + "_HAddr")[..|root'|] == root';
    DecimalReadsBack(index);
    DecimalReadsBack(index');
  }

  /** No address shares its name with a derived level of any root, and no two levels share theirs. */
  lemma LevelNamesApart(root: string, level: nat, root': string, level': nat, index: nat)
    requires 1 <= level <= 4 && 1 <= level' <= 4
    ensures AddressKeyname(root, index) != GetBip32Keyname(root', level', 0)
    ensures GetBip32Keyname(root, level, 0) == GetBip32Keyname(root', level', 0) ==> root == root' && level == level'
  {
    AddressParts(root, index);
    LevelParts(root, level);
    LevelParts(root', level');
    if AddressKeyname(root, index) == GetBip32Keyname(root', level', 0) {
      SplitUnique(root + "_HAddr", Decimal(index), root', Tail(level'));
      assert false;
    }
    if GetBip32Keyname(root, level, 0) == GetBip32Keyname(root', level', 0) {
      SplitUnique(root, Tail(level), root', Tail(level'));
    }
  }

  /** Every name made from a valid root fits the 32 characters an HSM key name may have. */
  lemma NamesFit(root: string, level: nat, index: nat)
    requires ValidRoot(root) && index < INDEX_LIMIT
    ensures |GetBip32Keyname(root, level, index)| <= 32
  {
    assert Pow10(10) == 10_000_000_000;
    DecimalLength(index, 10);
  }

  // ----- roots named like derived keys -----

  predicate AddressSuffix(s: string) {
    |s| > 7 && s[..7] == "_HAddr_" && Canonical(s[7..]) && Value(s[7..]) < INDEX_LIMIT
  }

  /** What a derived key has after the name of its root. */
  predicate DerivedSuffix(s: string) {
    s == "_bip44" || s == "_coinHTR" || s == "_htrAcct" || s == "_htrChange0" || AddressSuffix(s)
  }

  /** Whether a name is made of a root's name and the suffix of a derived key. */
  predicate Extends(root: string, name: string) {
    |root| <= |name| && name[..|root|] == root && DerivedSuffix(name[|root|..])
  }

  predicate IsDerivedName(root: string, level: nat, index: nat, name: string) {
    level > 0 && index < INDEX_LIMIT && GetBip32Keyname(root, level, index) == name
  }

  /** The names derived from a root are those that extend it. */
  lemma DerivedNamesExtend(root: string, name: string)
    ensures Extends(root, name) <==> exists level: nat, index: nat :: IsDerivedName(root, level, index, name)
  {
    if Extends(root, name) {
      var level, index := SuffixMeans(root, name[|root|..]);
      assert name == root + name[|root|..];
      assert IsDerivedName(root, level, index, name);
    }
    if level: nat, index: nat :| IsDerivedName(root, level, index, name) {
      NameExtends(root, level, index);
    }
  }

  lemma SuffixMeans(root: string, suffix: string) returns (level: nat, index: nat)
    requires DerivedSuffix(suffix)
    ensures IsDerivedName(root, level, index, root + suffix)
  {
    level, index := 5, 0;
    if suffix == "_bip44" {
      level := 1;
    } else if suffix == "_coinHTR" {
      level := 2;
    } else if suffix == "_htrAcct" {
      level := 3;
    } else if suffix == "_htrChange0" {
      level := 4;
    } else {
      CanonicalIsDecimal(suffix[7..]);
      index := Value(suffix[7..]);
      assert suffix == "_HAddr_" + Decimal(index);
      assert root + suffix == root + "_HAddr_" + Decimal(index);
    }
  }

  lemma NameExtends(root: string, level: nat, index: nat)
    requires level > 0 && index < INDEX_LIMIT
    ensures Extends(root, GetBip32Keyname(root, level, index))
  {
    var name := GetBip32Keyname(root, level, index);
    if level >= 5 {
      DecimalReadsBack(index);
      var suffix := "_HAddr_" + Decimal(index);
      assert name == root + suffix;
      assert suffix[..7] == "_HAddr_" && suffix[7..] == Decimal(index);
    }
  }

  predicate ExtendsValidRootAt(name: string, k: nat) {
    k <= |name| && ValidRoot(name[..k]) && DerivedSuffix(name[k..])
  }

  /**
   * A name is also a derived name of some valid root exactly when it is a valid root's name with a suffix.
   * If the name is valid itself, it is enough that three characters or more stand before the suffix.
   */
  lemma RootNameClash(name: string)
    ensures (exists k: nat :: ExtendsValidRootAt(name, k)) <==>
              exists root: string, level: nat, index: nat :: ValidRoot(root) && IsDerivedName(root, level, index, name)
    ensures ValidRoot(name) ==>
              forall k: nat :: ExtendsValidRootAt(name, k) <==> 3 <= k <= |name| && DerivedSuffix(name[k..])
  {
    hide DerivedSuffix, IsDerivedName;
    if k: nat :| ExtendsValidRootAt(name, k) {
      DerivedNamesExtend(name[..k], name);
    }
    if root: string, level: nat, index: nat :| ValidRoot(root) && IsDerivedName(root, level, index, name) {
      DerivedNamesExtend(root, name);
      assert ExtendsValidRootAt(name, |root|);
    }
  }

  predicate NamesMeet(root: string, level: nat, index: nat, root': string, level': nat, index': nat) {
    && index < INDEX_LIMIT && index' < INDEX_LIMIT
    && GetBip32Keyname(root, level, index) == GetBip32Keyname(root', level', index')
  }

  lemma MeetingNames(root: string, level: nat, index: nat, root': string, level': nat, index': nat)
    requires root != root' && NamesMeet(root, level, index, root', level', index')
    ensures IsDerivedName(root, level, index, root') || IsDerivedName(root', level', index', root)
  {
    if level > 0 && level' > 0 {
      if level >= 5 && level' >= 5 {
        AddressNamesInjective(root, index, root', index');
      } else if level >= 5 {
        LevelNamesApart(root, 1, root', level', index);
      } else if level' >= 5 {
        LevelNamesApart(root', 1, root, level, index');
      } else {
        LevelNamesApart(root, level, root', level', 0);
      }
      assert false;
    }
  }

  /** Two roots have a key name in common, whatever its level, exactly when one extends the other. */
  lemma RootsShareName(root: string, root': string)
    requires root != root'
    ensures (exists level: nat, index: nat, level': nat, index': nat ::
               NamesMeet(root, level, index, root', level', index'))
            <==> Extends(root, root') || Extends(root', root)
  {
    hide GetBip32Keyname, Extends;
    DerivedNamesExtend(root, root');
    DerivedNamesExtend(root', root);
    OwnName(root);
    OwnName(root');
    if level: nat, index: nat, level': nat, index': nat :| NamesMeet(root, level, index, root', level', index') {
      MeetingNames(root, level, index, root', level', index');
    }
    if level: nat, index: nat :| IsDerivedName(root, level, index, root') {
      assert NamesMeet(root, level, index, root', 0, 0);
    }
    if level: nat, index: nat :| IsDerivedName(root', level, index, root) {
      assert NamesMeet(root, 0, 0, root', level, index);
    }
  }

  lemma OwnName(root: string)
    ensures GetBip32Keyname(root, 0, 0) == root
  {}

  /** Two valid roots for which that happens. */
  lemma ValidRootsCanClash()
    ensures ValidRoot("abc") && ValidRoot("abc_htrAcct") && GetAcctKeyname("abc") == "abc_htrAcct"
    ensures Extends("abc", "abc_htrAcct")
  {
    assert "abc" + "_htrAcct" == "abc_htrAcct";
  }
}
