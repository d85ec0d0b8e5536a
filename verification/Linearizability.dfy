/**
 The linearizability checker for one register: a search that places the operations one at a time
 and remembers only which operations are placed and what the register holds. The theorem says that
 this search decides the definition in the checker's documentation, for every history.
 */
module Linearizability {
  import opened Wrappers

  datatype Operation = Operation(
    invocation: int,
    response: int,
    kind: string,
    value: Option<string>,    // what a write stores
    result: Option<string>)   // what a read returned; None means nothing was written yet

  type History = seq<Operation>

  /** The positions of a history of `n` operations. */
  function Indices(n: nat): (r: set<nat>)
    ensures forall i: nat :: i in r <==> i < n
    ensures |r| == n
  {
    if n == 0 then {} else Indices(n - 1) + {n - 1}
  }

  // ---------- The search ----------

  /** Some operation not placed yet finished before operation `i` began. */
  predicate Blocked(h: History, done: set<nat>, i: nat)
    requires i < |h|
  {
    exists j: nat | j < |h| :: j !in done && h[j].response < h[i].invocation
  }

  /** The search over the operations still missing from `done`, with the register at `value`. */
  predicate Search(h: History, done: set<nat>, value: Option<string>)
    requires done <= Indices(|h|)
    decreases |Indices(|h|) - done|, |h| + 1
  {
    |done| == |h| || TryFrom(h, done, value, 0)
  }

  /** The search's loop over the history, from operation `i` on. */
  predicate TryFrom(h: History, done: set<nat>, value: Option<string>, i: nat)
    requires done <= Indices(|h|) && i <= |h|
    decreases |Indices(|h|) - done|, |h| - i
  {
    i < |h| &&
    (TryNext(h, done, value, i) || TryFrom(h, done, value, i + 1))
  }

  /** The body of that loop: place operation `i` next and search on. */
  predicate TryNext(h: History, done: set<nat>, value: Option<string>, i: nat)
    requires done <= Indices(|h|) && i < |h|
    decreases |Indices(|h|) - done|, |h| - i, 0
  {
    && i !in done
    && !Blocked(h, done, i)
    && (Smaller(h, done, i);
        if h[i].kind == "write" then Search(h, done + {i}, h[i].value)
        else h[i].kind == "read" && h[i].result == value && Search(h, done + {i}, value))
  }

  predicate IsLinearizable(h: History) {
    Search(h, {}, None)
  }

  lemma Smaller(h: History, done: set<nat>, i: nat)
    requires done <= Indices(|h|) && i < |h| && i !in done
    ensures |Indices(|h|) - (done + {i})| < |Indices(|h|) - done|
  {
    assert Indices(|h|) - done == (Indices(|h|) - (done + {i})) + {i};
  }

  /** Counting the placed operations tells whether all are placed. */
  lemma AllPlaced(h: History, done: set<nat>)
    requires done <= Indices(|h|)
    ensures |done| == |h| <==> done == Indices(|h|)
  {
    assert Indices(|h|) == done + (Indices(|h|) - done);
  }

  // ---------- The definition ----------

  /** `order` lists every operation of `h` exactly once. */
  ghost predicate IsOrder(h: History, order: seq<nat>) {
    && (forall a | 0 <= a < |order| :: order[a] < |h|)
    && (forall a, b | 0 <= a < b < |order| :: order[a] != order[b])
    && (forall i: nat | i < |h| :: i in order)
  }

  /** An operation that finished before another began stays before it. */
  ghost predicate RespectsTime(h: History, order: seq<nat>)
    requires IsOrder(h, order)
  {
    forall a, b | 0 <= a < b < |order| :: !(h[order[b]].response < h[order[a]].invocation)
  }

  /** What the register holds after the operations of `placed`: the latest write, or None. */
  ghost function Register(h: History, placed: seq<nat>): Option<string>
    requires forall a | 0 <= a < |placed| :: placed[a] < |h|
  {
    if placed == [] then None
    else
      var last := h[placed[|placed| - 1]];
      if last.kind == "write" then last.value else Register(h, placed[..|placed| - 1])
  }

  /** Every read returns the value of the latest write before it. */
  ghost predicate ReadsLatest(h: History, order: seq<nat>)
    requires IsOrder(h, order)
  {
    forall a | 0 <= a < |order| && h[order[a]].kind == "read" ::
      h[order[a]].result == Register(h, order[..a])
  }

  ghost predicate Explains(h: History, order: seq<nat>) {
    IsOrder(h, order) && RespectsTime(h, order) && ReadsLatest(h, order)
  }

  ghost predicate Linearizable(h: History) {
    exists order :: Explains(h, order)
  }

  /** Every operation is a read or a write, and none finishes before it begins. */
  ghost predicate WellFormed(h: History) {
    forall i | 0 <= i < |h| :: h[i].kind in ["write", "read"] && h[i].invocation <= h[i].response
  }

  // ---------- The search decides the definition ----------

  function Elements(s: seq<nat>): set<nat> {
    set x | x in s
  }

  /** Operation `i` may follow exactly the operations of `placed`. */
  ghost predicate Fits(h: History, placed: seq<nat>, i: nat) {
    && i < |h|
    && i !in placed
    && (forall j: nat | j < |h| && j !in placed :: !(h[j].response < h[i].invocation))
    && (forall a | 0 <= a < |placed| :: placed[a] < |h|)
    && (h[i].kind == "write" || (h[i].kind == "read" && h[i].result == Register(h, placed)))
  }

  /** Each operation of `p` fits after the ones before it. */
  ghost predicate Placed(h: History, p: seq<nat>) {
    forall a | 0 <= a < |p| :: Fits(h, p[..a], p[a])
  }

  lemma PlaceNext(h: History, p: seq<nat>, i: nat)
    requires Placed(h, p) && Fits(h, p, i)
    ensures Placed(h, p + [i])
    ensures Elements(p + [i]) == Elements(p) + {i}
    ensures Register(h, p + [i]) == if h[i].kind == "write" then h[i].value else Register(h, p)
  {
    var q := p + [i];
    forall a | 0 <= a < |q| ensures Fits(h, q[..a], q[a]) {
      assert q[..a] == p[..a];
      assert a == |p| ==> p[..a] == p;
    }
    assert q[..|p|] == p;
  }

  lemma FitsAnew(h: History, placed: seq<nat>, i: nat)
    requires Fits(h, placed, i)
    ensures i < |h| && i !in placed
  {
  }

  /** A placement has no repeats, so one that covers every index is an order of the history. */
  lemma PlacementIsOrder(h: History, p: seq<nat>)
    requires Placed(h, p) && Elements(p) == Indices(|h|)
    ensures IsOrder(h, p)
  {
    hide Fits, Register;
    forall b | 0 <= b < |p| ensures p[b] < |h| && p[b] !in p[..b] {
      FitsAnew(h, p[..b], p[b]);
    }
    forall a, b | 0 <= a < b < |p| ensures p[a] != p[b] {
      assert p[a] == p[..b][a];
    }
    forall i: nat | i < |h| ensures i in p {
      assert i in Elements(p);
    }
  }

  lemma PlacedExplains(h: History, p: seq<nat>)
    requires Placed(h, p) && IsOrder(h, p)
    ensures Explains(h, p) && WellFormed(h)
  {
    forall a, b | 0 <= a <= b < |p| ensures !(h[p[b]].response < h[p[a]].invocation) {
      assert Fits(h, p[..a], p[a]);
      assert p[b] !in p[..a];
    }
    forall a | 0 <= a < |p| && h[p[a]].kind == "read" ensures h[p[a]].result == Register(h, p[..a]) {
      assert Fits(h, p[..a], p[a]);
    }
    forall i: nat | i < |h| ensures h[i].kind in ["write", "read"] && h[i].invocation <= h[i].response {
      assert i in p;
      var a :| 0 <= a < |p| && p[a] == i;
      assert Fits(h, p[..a], p[a]);
    }
  }

  lemma ExplainsPlaced(h: History, order: seq<nat>, k: nat)
    requires WellFormed(h) && Explains(h, order) && k < |order|
    ensures Fits(h, order[..k], order[k])
  {
    var i := order[k];
    forall j: nat | j < |h| && j !in order[..k] ensures !(h[j].response < h[i].invocation) {
      assert j in order;
      assert order == order[..k] + order[k..];
      assert j in order[k..];
    }
  }

  /** The loop succeeds exactly at some operation it accepts. */
  lemma Chosen(h: History, done: set<nat>, value: Option<string>, from: nat) returns (i: nat)
    requires done <= Indices(|h|) && from <= |h| && TryFrom(h, done, value, from)
    ensures i < |h| && TryNext(h, done, value, i)
    decreases |h| - from
  {
    if TryNext(h, done, value, from) {
      i := from;
    } else {
      i := Chosen(h, done, value, from + 1);
    }
  }

  lemma Found(h: History, done: set<nat>, value: Option<string>, from: nat, i: nat)
    requires done <= Indices(|h|) && from <= i < |h| && TryNext(h, done, value, i)
    ensures TryFrom(h, done, value, from)
    decreases i - from
  {
    if from < i {
      Found(h, done, value, from + 1, i);
    }
  }

  /** The search succeeds if it succeeds after placing some operation that fits. */
  lemma SearchStep(h: History, p: seq<nat>, i: nat)
    requires Fits(h, p, i) && Elements(p) <= Indices(|h|)
    requires Search(h, Elements(p) + {i}, if h[i].kind == "write" then h[i].value else Register(h, p))
    ensures Search(h, Elements(p), Register(h, p))
  {
    var done, value := Elements(p), Register(h, p);
    assert TryNext(h, done, value, i);
    Found(h, done, value, 0, i);
  }

  /** The operation the search places next fits, and the search goes on from it. */
  lemma NextFits(h: History, p: seq<nat>) returns (i: nat)
    requires Elements(p) <= Indices(|h|) && (forall a | 0 <= a < |p| :: p[a] < |h|)
    requires Search(h, Elements(p), Register(h, p)) && |Elements(p)| != |h|
    ensures Fits(h, p, i) && i !in Elements(p)
    ensures Search(h, Elements(p) + {i}, if h[i].kind == "write" then h[i].value else Register(h, p))
  {
    i := Chosen(h, Elements(p), Register(h, p), 0);
    Smaller(h, Elements(p), i);
    forall j: nat | j < |h| && j !in p ensures !(h[j].response < h[i].invocation) {
      assert j !in Elements(p);
    }
  }

  /** Soundness: when the search succeeds, the placement so far can be completed. */
  lemma {:induction false} SearchSound(h: History, p: seq<nat>) returns (order: seq<nat>)
    requires Placed(h, p) && Elements(p) <= Indices(|h|)
    requires forall a | 0 <= a < |p| :: p[a] < |h|
    requires Search(h, Elements(p), Register(h, p))
    ensures Placed(h, order) && IsOrder(h, order)
    decreases |Indices(|h|) - Elements(p)|
  {
    hide Placed, Fits, Search, Register, IsOrder, Elements;
    var done := Elements(p);
    AllPlaced(h, done);
    if |done| == |h| {
      PlacementIsOrder(h, p);
      order := p;
    } else {
      var i := NextFits(h, p);
      FitsAnew(h, p, i);
      Smaller(h, done, i);
      PlaceNext(h, p, i);
      order := SearchSound(h, p + [i]);
    }
  }

  /** The search has placed the first `k` operations of an order that explains the history. */
  ghost predicate Reached(h: History, order: seq<nat>, k: nat)
    requires k <= |order|
  {
    && (forall a | 0 <= a < k :: order[a] < |h|)
    && Elements(order[..k]) <= Indices(|h|)
    && Search(h, Elements(order[..k]), Register(h, order[..k]))
  }

  lemma ReachedAll(h: History, order: seq<nat>)
    requires IsOrder(h, order)
    ensures Reached(h, order, |order|)
  {
    assert order[..|order|] == order;
    assert Elements(order) == Indices(|h|);
  }

  lemma ReachedBefore(h: History, order: seq<nat>, k: nat)
    requires k < |order| && Fits(h, order[..k], order[k]) && Reached(h, order, k + 1)
    ensures Reached(h, order, k)
  {
    var p, i := order[..k], order[k];
    var q := order[..k + 1];
    assert q == p + [i] && q[..k] == p;
    assert Elements(q) == Elements(p) + {i};
    SearchStep(h, p, i);
  }

  /** Completeness: the search that has placed a prefix of an explaining order finds the rest. */
  lemma {:induction false} SearchComplete(h: History, order: seq<nat>, k: nat)
    requires WellFormed(h) && Explains(h, order) && k <= |order|
    ensures Reached(h, order, k)
    decreases |order| - k
  {
    if k == |order| {
      ReachedAll(h, order);
    } else {
      SearchComplete(h, order, k + 1);
      ExplainsPlaced(h, order, k);
      ReachedBefore(h, order, k);
    }
  }

  /**
   The checker answers True exactly for the histories that some order explains and whose operations
   are all reads or writes that do not finish before they begin.
   */
  lemma DecidesLinearizability(h: History)
    ensures IsLinearizable(h) <==> WellFormed(h) && Linearizable(h)
  {
    assert Elements([]) == {};
    if IsLinearizable(h) {
      var order := SearchSound(h, []);
      PlacedExplains(h, order);
    }
    if WellFormed(h) && Linearizable(h) {
      var order :| Explains(h, order);
      assert order[..0] == [];
      SearchComplete(h, order, 0);
    }
  }
}
