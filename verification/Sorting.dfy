/**
 The sorted, duplicate-free slices the daemon keeps everywhere. sort.Ints and sort.Strings are modelled by
 insertion; what matters to the callers is that the result depends on the set of elements only.
 */
module Sorting {

  ghost predicate StrictOrder<T(!new)>(less: (T, T) -> bool) {
    && (forall x :: !less(x, x))
    && (forall x, y :: x != y ==> less(x, y) || less(y, x))
    && (forall x, y, z :: less(x, y) && less(y, z) ==> less(x, z))
  }

  ghost predicate Ascending<T>(less: (T, T) -> bool, s: seq<T>) {
    forall i, j :: 0 <= i < j < |s| ==> less(s[i], s[j])
  }

  function Elements<T>(s: seq<T>): set<T> {
    set x | x in s
  }

  // Some element of a set, as Go's map iteration would hand out.
  ghost function Pick<T>(s: set<T>): (x: T)
    requires s != {}
    ensures x in s
  {
    var x :| x in s; x
  }

  method NextOf<T>(s: set<T>) returns (x: T)
    requires s != {}
    ensures x in s
  {
    x :| x in s;
  }

  ghost predicate Distinct<T>(s: seq<T>) {
    forall i, j :: 0 <= i < j < |s| ==> s[i] != s[j]
  }

  function Insert<T(!new)>(less: (T, T) -> bool, x: T, s: seq<T>): (r: seq<T>)
    requires StrictOrder(less) && Ascending(less, s) && x !in s
    ensures Ascending(less, r)
    ensures forall y :: y in r <==> y == x || y in s
  {
    if s == [] || less(x, s[0]) then
      assert forall y :: y in [x] + s <==> y == x || y in s;
      [x] + s
    else
      assert s[0] in s;
      var rest := Insert(less, x, s[1..]);
      assert forall y :: y in s <==> y == s[0] || y in s[1..];
      assert forall y :: y in rest ==> less(s[0], y);
      [s[0]] + rest
  }

  function Sort<T(!new, ==)>(less: (T, T) -> bool, s: seq<T>): (r: seq<T>)
    requires StrictOrder(less) && Distinct(s)
    ensures Ascending(less, r)
    ensures Elements(r) == Elements(s)
    ensures |r| == |s|
  {
    if s == [] then []
    else
      assert s[0] !in s[1..];
      assert Elements(s) == {s[0]} + Elements(s[1..]);
      var tail := Sort(less, s[1..]);
      assert s[0] !in tail by { assert s[0] !in Elements(tail); }
      var r := Insert(less, s[0], tail);
      assert |r| == |tail| + 1 by { InsertLength(less, s[0], tail); }
      r
  }

  lemma InsertLength<T(!new)>(less: (T, T) -> bool, x: T, s: seq<T>)
    requires StrictOrder(less) && Ascending(less, s) && x !in s
    ensures |Insert(less, x, s)| == |s| + 1
  {
  }

  // An ascending list is determined by its elements: this is what makes map iteration order irrelevant.
  lemma {:induction false} AscendingUnique<T(!new)>(less: (T, T) -> bool, a: seq<T>, b: seq<T>)
    requires StrictOrder(less) && Ascending(less, a) && Ascending(less, b)
    requires Elements(a) == Elements(b)
    ensures a == b
  {
    assert b != [] ==> b[0] in Elements(b);
    if a != [] {
      assert a[0] in Elements(a);
      assert b != [] && b[0] in Elements(b);
      assert b[0] in a && a[0] in b;
      assert a[0] == b[0];
      forall x
        ensures x in a[1..] <==> x in b[1..]
      {
        assert x in Elements(a) <==> x in Elements(b);
        assert x in a <==> x == a[0] || x in a[1..];
        assert x in b <==> x == b[0] || x in b[1..];
      }
      assert Elements(a[1..]) == Elements(b[1..]);
      AscendingUnique(less, a[1..], b[1..]);
    }
  }

  // The ascending list of a set.
  ghost function AscendingOf<T(!new)>(less: (T, T) -> bool, s: set<T>): (r: seq<T>)
    requires StrictOrder(less)
    ensures Ascending(less, r) && Elements(r) == s
  {
    if s == {} then [] else
      var x := Pick(s);
      var rest := AscendingOf(less, s - {x});
      assert forall y :: y in rest <==> y in Elements(rest);
      var r := Insert(less, x, rest);
      assert forall y :: y in Elements(r) <==> y in s;
      r
  }

  lemma SortOfDistinct<T(!new)>(less: (T, T) -> bool, s: seq<T>)
    requires StrictOrder(less) && Distinct(s)
    ensures Sort(less, s) == AscendingOf(less, Elements(s))
  {
    AscendingUnique(less, Sort(less, s), AscendingOf(less, Elements(s)));
  }

  lemma {:induction false} DistinctSize<T>(s: seq<T>)
    requires Distinct(s)
    ensures |Elements(s)| == |s|
  {
    if s != [] {
      DistinctSize(s[1..]);
      assert Elements(s) == {s[0]} + Elements(s[1..]);
    }
  }

  lemma AppendDistinct<T>(s: seq<T>, x: T)
    requires Distinct(s) && x !in Elements(s)
    ensures Distinct(s + [x]) && Elements(s + [x]) == Elements(s) + {x}
  {
  }

  lemma ElementsNext<T>(s: seq<T>, i: nat)
    requires i < |s|
    ensures Elements(s[..i + 1]) == Elements(s[..i]) + {s[i]}
  {
    assert s[..i + 1] == s[..i] + [s[i]];
  }

  // A Go map used as a set of the elements of a slice.
  method ToSet<T(==)>(s: seq<T>) returns (r: set<T>)
    ensures r == Elements(s)
  {
    r := {};
    for i := 0 to |s|
      invariant r == Elements(s[..i])
    {
      ElementsNext(s, i);
      r := r + {s[i]};
    }
    assert s[..|s|] == s;
  }

  lemma {:induction false} ElementsSize<T>(s: seq<T>)
    ensures |Elements(s)| <= |s|
  {
    if s != [] {
      ElementsSize(s[1..]);
      assert Elements(s) == {s[0]} + Elements(s[1..]);
    }
  }

  lemma AscendingDistinct<T(!new)>(less: (T, T) -> bool, s: seq<T>)
    requires StrictOrder(less) && Ascending(less, s)
    ensures Distinct(s)
  {
  }

  predicate IntLess(a: int, b: int) {
    a < b
  }

  // Go compares strings bytewise; on UTF-8 that is the order of the code points.
  predicate StringLess(a: string, b: string) {
    b != "" && (a == "" || a[0] < b[0] || (a[0] == b[0] && StringLess(a[1..], b[1..])))
  }

  lemma IntLessStrict()
    ensures StrictOrder(IntLess)
  {
  }

  lemma {:induction false} StringLessTotal(a: string, b: string)
    requires a != b
    ensures StringLess(a, b) || StringLess(b, a)
  {
    if a != "" && b != "" && a[0] == b[0] {
      assert a == [a[0]] + a[1..] && b == [b[0]] + b[1..];
      StringLessTotal(a[1..], b[1..]);
    }
  }

  lemma {:induction false} StringLessTransitive(a: string, b: string, c: string)
    requires StringLess(a, b) && StringLess(b, c)
    ensures StringLess(a, c)
  {
    if a != "" && a[0] == b[0] && b[0] == c[0] {
      StringLessTransitive(a[1..], b[1..], c[1..]);
    }
  }

  lemma {:induction false} StringLessIrreflexive(a: string)
    ensures !StringLess(a, a)
  {
    if a != "" {
      StringLessIrreflexive(a[1..]);
    }
  }

  lemma StringLessStrict()
    ensures StrictOrder(StringLess)
  {
    forall x: string ensures !StringLess(x, x) { StringLessIrreflexive(x); }
    forall x: string, y: string | x != y ensures StringLess(x, y) || StringLess(y, x) { StringLessTotal(x, y); }
    forall x: string, y: string, z: string | StringLess(x, y) && StringLess(y, z) ensures StringLess(x, z) {
      StringLessTransitive(x, y, z);
    }
  }
}
