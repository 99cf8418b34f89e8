// Comparing lists of strings by sorting and joining them, and what that comparison means.
module SortedLists {

  // ----- the order of strings -----

  predicate LexLe(a: string, b: string) {
    a == [] || (b != [] && (a[0] < b[0] || (a[0] == b[0] && LexLe(a[1..], b[1..]))))
  }

  lemma {:induction false} LexTotal(a: string, b: string)
    ensures LexLe(a, b) || LexLe(b, a)
  {
    if a != [] && b != [] && a[0] == b[0] {
      LexTotal(a[1..], b[1..]);
    }
  }

  lemma {:induction false} LexAntisymmetric(a: string, b: string)
    requires LexLe(a, b) && LexLe(b, a)
    ensures a == b
  {
    if a != [] {
      LexAntisymmetric(a[1..], b[1..]);
      assert a == [a[0]] + a[1..] && b == [b[0]] + b[1..];
    }
  }

  lemma {:induction false} LexTransitive(a: string, b: string, c: string)
    requires LexLe(a, b) && LexLe(b, c)
    ensures LexLe(a, c)
  {
    if a != [] && a[0] == b[0] && b[0] == c[0] {
      LexTransitive(a[1..], b[1..], c[1..]);
    }
  }

  // ----- sorting -----

  predicate Sorted(s: seq<string>) {
    forall i, j :: 0 <= i < j < |s| ==> LexLe(s[i], s[j])
  }

  function Insert(x: string, s: seq<string>): seq<string> {
    if s == [] || LexLe(x, s[0]) then [x] + s else [s[0]] + Insert(x, s[1..])
  }

  function Sort(s: seq<string>): seq<string> {
    if s == [] then [] else Insert(s[0], Sort(s[1..]))
  }

  lemma {:induction false} InsertElements(x: string, s: seq<string>)
    ensures multiset(Insert(x, s)) == multiset{x} + multiset(s)
  {
    if s == [] || LexLe(x, s[0]) {
    } else {
      InsertElements(x, s[1..]);
      assert s == [s[0]] + s[1..];
    }
  }

  lemma {:induction false} InsertSorted(x: string, s: seq<string>)
    requires Sorted(s)
    ensures Sorted(Insert(x, s))
  {
    if s == [] {
    } else if LexLe(x, s[0]) {
      forall j | 0 <= j < |s|
        ensures LexLe(x, s[j])
      {
        if j > 0 {
          LexTransitive(x, s[0], s[j]);
        }
      }
    } else {
      LexTotal(x, s[0]);
      var rest := Insert(x, s[1..]);
      InsertSorted(x, s[1..]);
      InsertElements(x, s[1..]);
      forall j | 0 <= j < |rest|
        ensures LexLe(s[0], rest[j])
      {
        assert rest[j] in multiset(rest);
      }
    }
  }

  lemma {:induction false} SortSorts(s: seq<string>)
    ensures Sorted(Sort(s)) && multiset(Sort(s)) == multiset(s)
  {
    if s == [] {
    } else {
      SortSorts(s[1..]);
      InsertSorted(s[0], Sort(s[1..]));
      InsertElements(s[0], Sort(s[1..]));
      assert s == [s[0]] + s[1..];
    }
  }

  lemma SortedHead(a: seq<string>, x: string)
    requires Sorted(a) && a != [] && x in multiset(a)
    ensures LexLe(a[0], x)
  {
    LexTotal(a[0], a[0]);
  }

  lemma TailElements(a: seq<string>)
    requires a != []
    ensures multiset(a[1..]) == multiset(a) - multiset{a[0]}
  {
    assert a == [a[0]] + a[1..];
  }

  lemma SameHeads(a: seq<string>, b: seq<string>)
    requires Sorted(a) && Sorted(b) && multiset(a) == multiset(b) && a != []
    ensures |a| == |b| && a[0] == b[0] && multiset(a[1..]) == multiset(b[1..])
  {
    hide LexLe, Sorted;
    assert |a| == |multiset(a)| == |multiset(b)| == |b|;
    assert a[0] in multiset(b) && b[0] in multiset(a);
    SortedHead(b, a[0]);
    SortedHead(a, b[0]);
    LexAntisymmetric(a[0], b[0]);
    TailElements(a);
    TailElements(b);
  }

  /** Sorted lists of the same elements are the same list. */
  lemma {:induction false} SortedUnique(a: seq<string>, b: seq<string>)
    requires Sorted(a) && Sorted(b) && multiset(a) == multiset(b)
    ensures a == b
  {
    hide LexLe;
    if a == [] {
      assert |multiset(b)| == 0;
    } else {
      SameHeads(a, b);
      SortedUnique(a[1..], b[1..]);
      assert a == [a[0]] + a[1..] && b == [b[0]] + b[1..];
    }
  }

  // ----- joining -----

  function Join(s: seq<string>, sep: char): string {
    if s == [] then "" else if |s| == 1 then s[0] else s[0] + [sep] + Join(s[1..], sep)
  }

  predicate Free(s: seq<string>, sep: char) {
    forall i :: 0 <= i < |s| ==> sep !in s[i]
  }

  lemma FirstSeparator(x: string, a: string, sep: char, k: nat)
    requires sep !in x && k < |x + [sep] + a| && (x + [sep] + a)[k] == sep
    ensures k >= |x|
  {
    assert forall i :: 0 <= i < |x| ==> (x + [sep] + a)[i] == x[i];
  }

  /** The part before the first separator is determined by the whole. */
  lemma FirstPart(x: string, a: string, y: string, b: string, sep: char)
    requires sep !in x && sep !in y && x + [sep] + a == y + [sep] + b
    ensures x == y && a == b
  {
    var s, t := x + [sep] + a, y + [sep] + b;
    FirstSeparator(x, a, sep, |y|);
    FirstSeparator(y, b, sep, |x|);
    assert s[..|x|] == x && t[..|y|] == y;
    assert s[|x| + 1..] == a && t[|y| + 1..] == b;
  }

  lemma JoinSeparates(s: seq<string>, sep: char)
    requires Free(s, sep)
    ensures sep in Join(s, sep) <==> |s| > 1
  {
    if |s| > 1 {
      assert Join(s, sep)[|s[0]|] == sep;
    }
  }

  /** Joining loses nothing of a list free of the separator, but for `[]` and `[""]`. */
  lemma {:induction false} JoinInjective(a: seq<string>, b: seq<string>, sep: char)
    requires Free(a, sep) && Free(b, sep) && Join(a, sep) == Join(b, sep)
    ensures a == b || (a == [] && b == [""]) || (a == [""] && b == [])
  {
    JoinSeparates(a, sep);
    JoinSeparates(b, sep);
    if |a| > 1 {
      FirstPart(a[0], Join(a[1..], sep), b[0], Join(b[1..], sep), sep);
      assert Free(a[1..], sep) && Free(b[1..], sep);
      JoinInjective(a[1..], b[1..], sep);
      assert a == [a[0]] + a[1..] && b == [b[0]] + b[1..];
    }
  }

  // ----- the parts of joined lists -----

  /** The parts of a string between its separators. */
  function Split(x: string, sep: char): (parts: seq<string>)
    ensures parts != []
  {
    if x == "" then [""]
    else
      var rest := Split(x[1..], sep);
      if x[0] == sep then [""] + rest else [[x[0]] + rest[0]] + rest[1..]
  }

  /** The parts of all elements one after the other; an empty list reads as one empty part. */
  function Pieces(s: seq<string>, sep: char): (pieces: seq<string>)
    ensures pieces != []
  {
    if s == [] then [""] else if |s| == 1 then Split(s[0], sep) else Split(s[0], sep) + Pieces(s[1..], sep)
  }

  lemma {:induction false} SplitJoins(x: string, sep: char)
    ensures Free(Split(x, sep), sep) && Join(Split(x, sep), sep) == x
  {
    if x == "" {
    } else {
      var rest := Split(x[1..], sep);
      SplitJoins(x[1..], sep);
      assert x == [x[0]] + x[1..];
      if x[0] == sep {
        assert ([""] + rest)[1..] == rest;
      } else {
        assert ([[x[0]] + rest[0]] + rest[1..])[1..] == rest[1..];
      }
    }
  }

  lemma {:induction false} JoinConcat(a: seq<string>, b: seq<string>, sep: char)
    requires a != [] && b != []
    ensures Join(a + b, sep) == Join(a, sep) + [sep] + Join(b, sep)
  {
    if |a| == 1 {
      assert (a + b)[1..] == b;
    } else {
      JoinConcat(a[1..], b, sep);
      assert (a + b)[1..] == a[1..] + b;
    }
  }

  /** A list joins to the same string as its pieces, which are free of the separator. */
  lemma {:induction false} PiecesJoin(s: seq<string>, sep: char)
    ensures Free(Pieces(s, sep), sep) && Join(Pieces(s, sep), sep) == Join(s, sep)
  {
    if s == [] {
    } else {
      SplitJoins(s[0], sep);
      if |s| > 1 {
        PiecesJoin(s[1..], sep);
        JoinConcat(Split(s[0], sep), Pieces(s[1..], sep), sep);
      }
    }
  }

  lemma {:induction false} SplitFree(x: string, sep: char)
    requires sep !in x
    ensures Split(x, sep) == [x]
  {
    if x == "" {
    } else {
      SplitFree(x[1..], sep);
      assert x == [x[0]] + x[1..];
    }
  }

  lemma SplitAtSeparator(x: string, y: string, sep: char)
    ensures Split(x + [sep] + y, sep) == Split(x, sep) + Split(y, sep)
  {
    hide Split, Join;
    SplitJoins(x, sep);
    SplitJoins(y, sep);
    SplitJoins(x + [sep] + y, sep);
    JoinConcat(Split(x, sep), Split(y, sep), sep);
    JoinInjective(Split(x + [sep] + y, sep), Split(x, sep) + Split(y, sep), sep);
  }

  lemma {:induction false} PiecesOfFree(s: seq<string>, sep: char)
    requires Free(s, sep)
    ensures Pieces(s, sep) == if s == [] then [""] else s
  {
    if s == [] {
    } else {
      SplitFree(s[0], sep);
      if |s| > 1 {
        PiecesOfFree(s[1..], sep);
        assert s == [s[0]] + s[1..];
      }
    }
  }

  // ----- the comparison -----

  predicate SameJoined(a: seq<string>, b: seq<string>, sep: char) {
    Join(Sort(a), sep) == Join(Sort(b), sep)
  }

  /** Whatever the elements hold, sorting and joining compares the pieces of the sorted lists. */
  lemma SameJoinedMeansSamePieces(a: seq<string>, b: seq<string>, sep: char)
    ensures SameJoined(a, b, sep) <==> Pieces(Sort(a), sep) == Pieces(Sort(b), sep)
  {
    PiecesJoin(Sort(a), sep);
    PiecesJoin(Sort(b), sep);
    if SameJoined(a, b, sep) {
      JoinInjective(Pieces(Sort(a), sep), Pieces(Sort(b), sep), sep);
    }
  }

  predicate EmptyOrBlank(a: seq<string>, b: seq<string>) {
    (a == [] && b == [""]) || (a == [""] && b == [])
  }

  lemma SameElementsSortSame(a: seq<string>, b: seq<string>)
    requires multiset(a) == multiset(b)
    ensures Sort(a) == Sort(b)
  {
    SortSorts(a);
    SortSorts(b);
    SortedUnique(Sort(a), Sort(b));
  }

  lemma SortKeepsFree(a: seq<string>, sep: char)
    requires Free(a, sep)
    ensures Free(Sort(a), sep)
  {
    SortSorts(a);
    forall i | 0 <= i < |Sort(a)|
      ensures sep !in Sort(a)[i]
    {
      assert Sort(a)[i] in multiset(a);
    }
  }

  /** As long as no element holds the separator, that compares the lists as multisets, but for one pair. */
  lemma SameJoinedExactly(a: seq<string>, b: seq<string>, sep: char)
    requires Free(a, sep) && Free(b, sep)
    ensures SameJoined(a, b, sep) <==> multiset(a) == multiset(b) || EmptyOrBlank(a, b)
  {
    SameJoinedMeansSamePieces(a, b, sep);
    SortKeepsFree(a, sep);
    SortKeepsFree(b, sep);
    PiecesOfFree(Sort(a), sep);
    PiecesOfFree(Sort(b), sep);
    SortSorts(a);
    SortSorts(b);
    if multiset(a) == multiset(b) {
      SameElementsSortSame(a, b);
    }
    Singletons(a);
    Singletons(b);
  }

  lemma Singletons(a: seq<string>)
    ensures Sort(a) == [] <==> a == []
    ensures Sort(a) == [""] <==> a == [""]
  {
    SortSorts(a);
    assert |a| == |multiset(a)| == |Sort(a)|;
    if Sort(a) == [""] {
      assert a[0] in multiset(a);
    }
  }

  /** With the separator inside an element, different lists can pass for the same. */
  lemma SeparatorConfuses(x: string, y: string, sep: char)
    requires LexLe(x, y)
    ensures SameJoined([x + [sep] + y], [x, y], sep) && multiset([x + [sep] + y]) != multiset([x, y])
  {
    assert Sort([y]) == [y];
    assert [x, y][1..] == [y];
    assert Sort([x, y]) == [x, y];
    assert Sort([x + [sep] + y]) == [x + [sep] + y];
    SplitAtSeparator(x, y, sep);
    SameJoinedMeansSamePieces([x + [sep] + y], [x, y], sep);
    assert |multiset([x + [sep] + y])| == 1;
    assert |multiset([x, y])| == 2;
  }
}
