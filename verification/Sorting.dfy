/** Sorting by a total order, as `sort.Slice` does it: the result is determined by the elements alone. */
module Sorting {

  /** Any two elements compare, and comparison is transitive; ties are allowed. */
  ghost predicate TotalPreorder<T(!new)>(le: (T, T) -> bool) {
    && (forall x, y :: le(x, y) || le(y, x))
    && (forall x, y, z :: le(x, y) && le(y, z) ==> le(x, z))
  }

  /** A preorder without ties. */
  ghost predicate TotalOrder<T(!new)>(le: (T, T) -> bool) {
    TotalPreorder(le) && forall x, y :: le(x, y) && le(y, x) ==> x == y
  }

  ghost predicate SortedBy<T(!new)>(le: (T, T) -> bool, s: seq<T>) {
    forall i, j | 0 <= i < j < |s| :: le(s[i], s[j])
  }

  function Place<T>(le: (T, T) -> bool, x: T, s: seq<T>): (r: seq<T>)
    ensures |r| == |s| + 1
    ensures multiset(r) == multiset(s) + multiset{x}
  {
    if s == [] || le(x, s[0]) then [x] + s
    else
      assert s == [s[0]] + s[1..];
      [s[0]] + Place(le, x, s[1..])
  }

  function Sort<T>(le: (T, T) -> bool, s: seq<T>): (r: seq<T>)
    ensures |r| == |s|
    ensures multiset(r) == multiset(s)
  {
    if s == [] then []
    else
      assert s == [s[0]] + s[1..];
      Place(le, s[0], Sort(le, s[1..]))
  }

  lemma {:induction false} PlaceSorted<T(!new)>(le: (T, T) -> bool, x: T, s: seq<T>)
    requires TotalPreorder(le) && SortedBy(le, s)
    ensures SortedBy(le, Place(le, x, s))
  {
    if s != [] && !le(x, s[0]) {
      PlaceSorted(le, x, s[1..]);
      var tail := Place(le, x, s[1..]);
      forall j | 0 <= j < |tail| ensures le(s[0], tail[j]) {
        assert tail[j] in multiset(tail);
        assert tail[j] == x || tail[j] in s[1..];
      }
    }
  }

  lemma {:induction false} SortSorts<T(!new)>(le: (T, T) -> bool, s: seq<T>)
    requires TotalPreorder(le)
    ensures SortedBy(le, Sort(le, s))
  {
    if s != [] {
      SortSorts(le, s[1..]);
      PlaceSorted(le, s[0], Sort(le, s[1..]));
    }
  }

  lemma HeadLeast<T(!new)>(le: (T, T) -> bool, s: seq<T>, x: T)
    requires TotalOrder(le) && SortedBy(le, s) && x in s
    ensures le(s[0], x)
  {
    var i :| 0 <= i < |s| && s[i] == x;
    assert le(s[0], s[0]);
  }

  lemma TailElements<T>(s: seq<T>)
    requires s != []
    ensures multiset(s[1..]) == multiset(s) - multiset{s[0]}
  {
    assert s == [s[0]] + s[1..];
  }

  lemma SameHead<T(!new)>(le: (T, T) -> bool, a: seq<T>, b: seq<T>)
    requires TotalOrder(le) && SortedBy(le, a) && SortedBy(le, b)
    requires multiset(a) == multiset(b) && a != []
    ensures b != [] && a[0] == b[0]
  {
    assert a[0] in multiset(b);
    assert b[0] in multiset(a);
    HeadLeast(le, a, b[0]);
    HeadLeast(le, b, a[0]);
  }

  /** Two sorted arrangements of the same elements are the same sequence. */
  lemma {:induction false} SortedUnique<T(!new)>(le: (T, T) -> bool, a: seq<T>, b: seq<T>)
    requires TotalOrder(le) && SortedBy(le, a) && SortedBy(le, b)
    requires multiset(a) == multiset(b)
    ensures a == b
  {
    if a == [] {
      assert |multiset(b)| == 0;
    } else {
      SameHead(le, a, b);
      TailElements(a);
      TailElements(b);
      SortedUnique(le, a[1..], b[1..]);
    }
  }

  lemma SortUnique<T(!new)>(le: (T, T) -> bool, s: seq<T>, t: seq<T>)
    requires TotalOrder(le) && SortedBy(le, t) && multiset(s) == multiset(t)
    ensures Sort(le, s) == t
  {
    SortSorts(le, s);
    SortedUnique(le, Sort(le, s), t);
  }

  /** Sorting keeps the elements. */
  lemma SortElements<T>(le: (T, T) -> bool, s: seq<T>)
    ensures forall x :: x in Sort(le, s) <==> x in s
  {
    forall x ensures x in Sort(le, s) <==> x in s {
      assert x in Sort(le, s) <==> x in multiset(Sort(le, s));
      assert x in s <==> x in multiset(s);
    }
  }

  // ---------- Sorting a set, whatever order it is enumerated in ----------

  ghost function Elements<T>(s: set<T>): (e: seq<T>)
    ensures multiset(e) == multiset(s)
  {
    if s == {} then []
    else
      var x :| x in s;
      assert multiset(s) == multiset{x} + multiset(s - {x});
      [x] + Elements(s - {x})
  }

  ghost function SortSet<T(!new)>(le: (T, T) -> bool, s: set<T>): (r: seq<T>)
    ensures |r| == |s|
    ensures multiset(r) == multiset(s)
    ensures forall x :: x in r <==> x in s
    ensures forall i, j | 0 <= i < j < |r| :: r[i] != r[j]
  {
    var r := Sort(le, Elements(s));
    assert |multiset(r)| == |multiset(s)| == |s|;
    SetEnumeration(r, s);
    r
  }

  lemma SetEnumeration<T(!new)>(r: seq<T>, s: set<T>)
    requires multiset(r) == multiset(s)
    ensures forall x :: x in r <==> x in s
    ensures forall i, j | 0 <= i < j < |r| :: r[i] != r[j]
  {
    forall x ensures x in r <==> x in s {
      assert x in r <==> x in multiset(r);
    }
    forall i, j | 0 <= i < j < |r| ensures r[i] != r[j] {
      if r[i] == r[j] {
        CountTwice(r, i, j);
        assert false;
      }
    }
  }

  lemma CountTwice<T>(r: seq<T>, i: nat, j: nat)
    requires i < j < |r| && r[i] == r[j]
    ensures multiset(r)[r[j]] >= 2
  {
    assert r == r[..j] + [r[j]] + r[j + 1..];
    assert r[i] in r[..j];
  }

  lemma SortSetSorts<T(!new)>(le: (T, T) -> bool, s: set<T>)
    requires TotalPreorder(le)
    ensures SortedBy(le, SortSet(le, s))
  {
    SortSorts(le, Elements(s));
  }

  /** Every enumeration of a set sorts to the same sequence. */
  lemma SortSetUnique<T(!new)>(le: (T, T) -> bool, s: set<T>, enumeration: seq<T>)
    requires TotalOrder(le) && multiset(enumeration) == multiset(s)
    ensures Sort(le, enumeration) == SortSet(le, s)
  {
    SortSorts(le, enumeration);
    SortUnique(le, Elements(s), Sort(le, enumeration));
  }
}
