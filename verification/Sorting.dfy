/** Sorting finite sets, as the standard library does for the keys of a map and as the
    database does for an ORDER BY query: the result is the one sorted enumeration. */
module Sorting {

  ghost predicate StrictTotal<T(!new)>(less: (T, T) -> bool) {
    && (forall x :: !less(x, x))
    && (forall x, y, z :: less(x, y) && less(y, z) ==> less(x, z))
    && (forall x, y :: x != y ==> less(x, y) || less(y, x))
  }

  ghost predicate Ascending<T>(s: seq<T>, less: (T, T) -> bool) {
    forall i, j :: 0 <= i < j < |s| ==> less(s[i], s[j])
  }

  /** s lists exactly the elements of elems, each once, in ascending order. */
  ghost predicate Enumerates<T(!new)>(s: seq<T>, elems: set<T>, less: (T, T) -> bool) {
    && Ascending(s, less)
    && (forall x :: x in s <==> x in elems)
  }

  function Insert<T(!new)>(s: seq<T>, x: T, less: (T, T) -> bool): (r: seq<T>)
    requires StrictTotal(less) && Ascending(s, less) && x !in s
    ensures Ascending(r, less)
    ensures forall y :: y in r <==> y == x || y in s
  {
    if s == [] then [x]
    else if less(x, s[0]) then [x] + s
    else
      var rest := Insert(s[1..], x, less);
      FirstIsLess(s, x, less);
      InFront(s[0], rest, less);
      assert s == [s[0]] + s[1..];
      [s[0]] + rest
  }

  lemma FirstIsLess<T(!new)>(s: seq<T>, x: T, less: (T, T) -> bool)
    requires StrictTotal(less) && Ascending(s, less) && x !in s && s != [] && !less(x, s[0])
    ensures less(s[0], x) && forall y :: y in s[1..] ==> less(s[0], y)
  {
    assert s[0] in s;
    forall y | y in s[1..] ensures less(s[0], y) {
      var i :| 0 <= i < |s[1..]| && s[1..][i] == y;
      assert s[i + 1] == y;
    }
  }

  lemma InFront<T(!new)>(x: T, s: seq<T>, less: (T, T) -> bool)
    requires Ascending(s, less) && forall y :: y in s ==> less(x, y)
    ensures Ascending([x] + s, less)
  {
    forall i, j | 0 <= i < j < |[x] + s| ensures less(([x] + s)[i], ([x] + s)[j]) {
      assert s[j - 1] in s;
    }
  }

  /** The sorted enumeration of a finite set exists ... */
  lemma EnumerationExists<T(!new)>(elems: set<T>, less: (T, T) -> bool)
    requires StrictTotal(less)
    ensures exists s :: Enumerates(s, elems, less)
  {
    if elems == {} {
      assert Enumerates([], elems, less);
    } else {
      var x :| x in elems;
      EnumerationExists(elems - {x}, less);
      var s :| Enumerates(s, elems - {x}, less);
      assert Enumerates(Insert(s, x, less), elems, less);
    }
  }

  /** ... is unique ... */
  lemma {:induction false} EnumerationUnique<T(!new)>(s: seq<T>, t: seq<T>, elems: set<T>, less: (T, T) -> bool)
    requires StrictTotal(less)
    requires Enumerates(s, elems, less) && Enumerates(t, elems, less)
    ensures s == t
    decreases |s|
  {
    if s == [] {
      assert forall i :: 0 <= i < |t| ==> t[i] in elems;
      assert t == [];
    } else {
      assert s[0] in elems;
      assert t != [];
      assert t[0] in s && s[0] in t;
      assert s[0] == t[0];
      var rest := elems - {s[0]};
      assert Enumerates(s[1..], rest, less) by { TailEnumerates(s, elems, less); }
      assert Enumerates(t[1..], rest, less) by { TailEnumerates(t, elems, less); }
      EnumerationUnique(s[1..], t[1..], rest, less);
      assert s == [s[0]] + s[1..] && t == [t[0]] + t[1..];
    }
  }

  lemma TailEnumerates<T(!new)>(s: seq<T>, elems: set<T>, less: (T, T) -> bool)
    requires StrictTotal(less) && Enumerates(s, elems, less) && s != []
    ensures Enumerates(s[1..], elems - {s[0]}, less)
  {
    forall x ensures x in s[1..] <==> x in elems - {s[0]} {
      if x in s[1..] {
        var i :| 0 <= i < |s[1..]| && s[1..][i] == x;
        assert s[i + 1] == x;
        assert x in s && less(s[0], s[i + 1]);
      }
      if x in elems - {s[0]} {
        assert x in s;
        var i :| 0 <= i < |s| && s[i] == x;
        assert s[1..][i - 1] == x;
      }
    }
  }

  /** ... and has one entry per element. */
  lemma {:induction false} EnumerationLength<T(!new)>(s: seq<T>, elems: set<T>, less: (T, T) -> bool)
    requires StrictTotal(less) && Enumerates(s, elems, less)
    ensures |s| == |elems|
    decreases |s|
  {
    if s == [] {
      assert forall x :: x in elems ==> x in s;
      assert elems == {};
    } else {
      TailEnumerates(s, elems, less);
      EnumerationLength(s[1..], elems - {s[0]}, less);
      assert s[0] in elems;
    }
  }

  ghost function SortOf<T(!new)>(elems: set<T>, less: (T, T) -> bool): (s: seq<T>)
    requires StrictTotal(less)
    ensures Enumerates(s, elems, less) && |s| == |elems|
  {
    EnumerationExists(elems, less);
    var s :| Enumerates(s, elems, less);
    EnumerationLength(s, elems, less);
    s
  }

  /** Collects the elements in whatever order the set yields them and sorts them. */
  method SortSet<T(!new,==)>(elems: set<T>, less: (T, T) -> bool) returns (r: seq<T>)
    requires StrictTotal(less)
    ensures r == SortOf(elems, less)
  {
    r := [];
    var rest := elems;
    while rest != {}
      invariant rest <= elems && Enumerates(r, elems - rest, less)
      decreases rest
    {
      var x :| x in rest;
      r := Insert(r, x, less);
      rest := rest - {x};
    }
    assert elems - rest == elems;
    EnumerationUnique(r, SortOf(elems, less), elems, less);
  }

  /** Byte order on strings, the order of sort.Strings. */
  predicate StringLess(a: string, b: string) {
    b != [] && (a == [] || a[0] < b[0] || (a[0] == b[0] && StringLess(a[1..], b[1..])))
  }

  lemma StringTransitive(a: string, b: string, c: string)
    requires StringLess(a, b) && StringLess(b, c)
    ensures StringLess(a, c)
  {
    if a != [] && a[0] == b[0] == c[0] {
      StringTransitive(a[1..], b[1..], c[1..]);
    }
  }

  lemma StringConnected(a: string, b: string)
    ensures a == b || StringLess(a, b) || StringLess(b, a)
  {
    if a != [] && b != [] && a[0] == b[0] {
      StringConnected(a[1..], b[1..]);
      assert a == [a[0]] + a[1..] && b == [b[0]] + b[1..];
    }
  }

  lemma StringIrreflexive(a: string)
    ensures !StringLess(a, a)
  {
  }

  lemma StringOrderTotal()
    ensures StrictTotal(StringLess)
  {
    forall x ensures !StringLess(x, x) { StringIrreflexive(x); }
    forall x, y, z | StringLess(x, y) && StringLess(y, z) ensures StringLess(x, z) { StringTransitive(x, y, z); }
    forall x, y | x != y ensures StringLess(x, y) || StringLess(y, x) { StringConnected(x, y); }
  }
}
