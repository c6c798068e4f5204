/** Python's `sorted`: stable, by a total preorder. */
module Sorting {
  /** Order of strings by code point. */
  predicate LexLe(a: string, b: string) {
    if a == [] then true
    else if b == [] then false
    else if a[0] == b[0] then LexLe(a[1..], b[1..])
    else a[0] < b[0]
  }

  lemma {:induction false} LexTotal(a: string, b: string)
    ensures LexLe(a, b) || LexLe(b, a)
  {
    if a != [] && b != [] && a[0] == b[0] { LexTotal(a[1..], b[1..]); }
  }

  lemma {:induction false} LexTransitive(a: string, b: string, c: string)
    requires LexLe(a, b) && LexLe(b, c)
    ensures LexLe(a, c)
  {
    if a != [] && b != [] && c != [] && a[0] == b[0] == c[0] { LexTransitive(a[1..], b[1..], c[1..]); }
  }

  lemma {:induction false} LexAntisymmetric(a: string, b: string)
    requires LexLe(a, b) && LexLe(b, a)
    ensures a == b
  {
    if a != [] {
      LexAntisymmetric(a[1..], b[1..]);
      assert a == [a[0]] + a[1..] && b == [b[0]] + b[1..];
    }
  }

  /** What the order means: a prefix comes first, else the first difference decides. */
  predicate FirstDifference(a: string, b: string, k: nat) {
    k < |a| && k < |b| && a[..k] == b[..k] && a[k] < b[k]
  }

  lemma {:induction false} LexByDifference(a: string, b: string, k: nat)
    requires FirstDifference(a, b, k)
    ensures LexLe(a, b) && !LexLe(b, a)
  {
    if k > 0 {
      assert a[0] == a[..k][0] == b[0];
      assert a[1..][..k - 1] == a[..k][1..] == b[..k][1..] == b[1..][..k - 1];
      LexByDifference(a[1..], b[1..], k - 1);
    }
  }

  lemma {:induction false} LexByPrefix(a: string, b: string)
    requires a <= b
    ensures LexLe(a, b)
  {
    if a != [] { LexByPrefix(a[1..], b[1..]); }
  }

  predicate Differ(a: string, b: string) {
    exists k: nat :: k < |a| && FirstDifference(a, b, k)
  }

  lemma DifferFurther(a: string, b: string)
    requires a != [] && b != [] && a[0] == b[0]
    ensures a <= b <==> a[1..] <= b[1..]
    ensures Differ(a, b) <==> Differ(a[1..], b[1..])
  {
    assert a == [a[0]] + a[1..] && b == [b[0]] + b[1..];
    if Differ(a, b) {
      var k: nat :| k < |a| && FirstDifference(a, b, k);
      assert a[1..][..k - 1] == a[..k][1..] && b[1..][..k - 1] == b[..k][1..];
      assert FirstDifference(a[1..], b[1..], k - 1);
    }
    if Differ(a[1..], b[1..]) {
      var k: nat :| k < |a[1..]| && FirstDifference(a[1..], b[1..], k);
      assert a[..k + 1] == [a[0]] + a[1..][..k] && b[..k + 1] == [b[0]] + b[1..][..k];
      assert FirstDifference(a, b, k + 1);
    }
  }

  lemma DifferAtOnce(a: string, b: string)
    requires a != [] && b != [] && a[0] != b[0]
    ensures !(a <= b) && (Differ(a, b) <==> a[0] < b[0])
  {
    if a[0] < b[0] { assert FirstDifference(a, b, 0); }
    if Differ(a, b) {
      var k: nat :| k < |a| && FirstDifference(a, b, k);
      assert k > 0 ==> a[..k][0] == b[..k][0];
    }
  }

  lemma {:induction false} LexLeIff(a: string, b: string)
    ensures LexLe(a, b) <==> a <= b || Differ(a, b)
  {
    if a != [] && b != [] {
      if a[0] == b[0] {
        DifferFurther(a, b);
        LexLeIff(a[1..], b[1..]);
      } else {
        DifferAtOnce(a, b);
      }
    }
  }

  ghost predicate TotalPreorder<T(!new)>(le: (T, T) -> bool) {
    && (forall x, y :: le(x, y) || le(y, x))
    && (forall x, y, z :: le(x, y) && le(y, z) ==> le(x, z))
  }

  predicate SortedBy<T>(s: seq<T>, le: (T, T) -> bool) {
    forall i, j :: 0 <= i < j < |s| ==> le(s[i], s[j])
  }

  /** Put `x` behind everything not greater than it. */
  function Insert<T>(s: seq<T>, x: T, le: (T, T) -> bool): seq<T> {
    if s == [] || le(s[|s| - 1], x) then s + [x]
    else Insert(s[..|s| - 1], x, le) + [s[|s| - 1]]
  }

  function Sort<T>(s: seq<T>, le: (T, T) -> bool): seq<T> {
    if s == [] then [] else Insert(Sort(s[..|s| - 1], le), s[|s| - 1], le)
  }

  lemma {:induction false} InsertContents<T>(s: seq<T>, x: T, le: (T, T) -> bool)
    ensures multiset(Insert(s, x, le)) == multiset(s) + multiset{x}
  {
    if s != [] && !le(s[|s| - 1], x) {
      InsertContents(s[..|s| - 1], x, le);
      assert s == s[..|s| - 1] + [s[|s| - 1]];
    }
  }

  lemma {:induction false} SortContents<T>(s: seq<T>, le: (T, T) -> bool)
    ensures multiset(Sort(s, le)) == multiset(s)
  {
    if s != [] {
      var front, x := s[..|s| - 1], s[|s| - 1];
      assert s == front + [x];
      SortContents(front, le);
      InsertContents(Sort(front, le), x, le);
    }
  }

  lemma {:induction false} InsertSorts<T(!new)>(s: seq<T>, x: T, le: (T, T) -> bool)
    requires TotalPreorder(le) && SortedBy(s, le)
    ensures SortedBy(Insert(s, x, le), le)
    ensures forall y :: y in Insert(s, x, le) <==> y in s || y == x
  {
    if s != [] && !le(s[|s| - 1], x) {
      var front, last := s[..|s| - 1], s[|s| - 1];
      InsertSorts(front, x, le);
      var t := Insert(front, x, le);
      forall y | y in t ensures le(y, last) {
        if y != x {
          var i :| 0 <= i < |front| && front[i] == y;
          assert le(s[i], s[|s| - 1]);
        }
      }
      assert s == front + [last];
      SortedAppend(t, last, le);
    } else if s != [] {
      forall y | y in s ensures le(y, x) {
        var i :| 0 <= i < |s| && s[i] == y;
        assert i == |s| - 1 || le(s[i], s[|s| - 1]);
      }
      SortedAppend(s, x, le);
    }
  }

  lemma SortedAppend<T>(s: seq<T>, x: T, le: (T, T) -> bool)
    requires SortedBy(s, le) && forall y :: y in s ==> le(y, x)
    ensures SortedBy(s + [x], le)
  {
    forall i | 0 <= i < |s| ensures le(s[i], x) {
      assert s[i] in s;
    }
  }

  lemma {:induction false} SortSorts<T(!new)>(s: seq<T>, le: (T, T) -> bool)
    requires TotalPreorder(le)
    ensures SortedBy(Sort(s, le), le)
  {
    if s != [] {
      SortSorts(s[..|s| - 1], le);
      InsertSorts(Sort(s[..|s| - 1], le), s[|s| - 1], le);
    }
  }

  lemma {:induction false} SortOfSorted<T>(s: seq<T>, le: (T, T) -> bool)
    requires SortedBy(s, le)
    ensures Sort(s, le) == s
  {
    if s != [] {
      var front, x := s[..|s| - 1], s[|s| - 1];
      assert s == front + [x];
      SortOfSorted(front, le);
      assert front == [] || le(front[|front| - 1], x);
    }
  }

  lemma PrefixGrows<T>(s: seq<T>, i: nat)
    requires i < |s|
    ensures s[..i + 1] == s[..i] + [s[i]]
  {
  }

  /** The elements of `s` that rank equal to `x`, in their order. */
  function Alike<T>(s: seq<T>, x: T, le: (T, T) -> bool): seq<T> {
    if s == [] then []
    else Alike(s[..|s| - 1], x, le) + if le(s[|s| - 1], x) && le(x, s[|s| - 1]) then [s[|s| - 1]] else []
  }

  lemma AlikeStep<T>(s: seq<T>, y: T, x: T, le: (T, T) -> bool)
    ensures Alike(s + [y], x, le) == Alike(s, x, le) + if le(y, x) && le(x, y) then [y] else []
  {
    assert (s + [y])[..|s|] == s;
  }

  lemma {:induction false} InsertIsStable<T(!new)>(s: seq<T>, y: T, x: T, le: (T, T) -> bool)
    requires TotalPreorder(le)
    ensures Alike(Insert(s, y, le), x, le) == Alike(s, x, le) + if le(y, x) && le(x, y) then [y] else []
  {
    if s == [] || le(s[|s| - 1], y) {
      AlikeStep(s, y, x, le);
    } else {
      var front, last := s[..|s| - 1], s[|s| - 1];
      InsertIsStable(front, y, x, le);
      AlikeStep(Insert(front, y, le), last, x, le);
    }
  }

  /** Elements that rank equal keep the order they came in. */
  lemma {:induction false} SortIsStable<T(!new)>(s: seq<T>, x: T, le: (T, T) -> bool)
    requires TotalPreorder(le)
    ensures Alike(Sort(s, le), x, le) == Alike(s, x, le)
  {
    if s != [] {
      SortIsStable(s[..|s| - 1], x, le);
      InsertIsStable(Sort(s[..|s| - 1], le), s[|s| - 1], x, le);
    }
  }
}
