/** What the best-first walk over one level returns (internal/ann/hnsw.go:178-220). */
module HnswSearch {
  import opened HnswGraph
  import opened HnswInvariants
  import opened Sorting
  import opened Vectors
  import opened Wrappers

  // ---------- Reachability on one level ----------

  ghost predicate IsPath(g: Graph, l: nat, p: seq<Id>) {
    && p != []
    && (forall i | 0 <= i < |p| :: p[i] in g)
    && (forall i | 0 < i < |p| :: p[i] in Links(g, p[i - 1], l))
  }

  ghost predicate Reaches(g: Graph, l: nat, a: Id, b: Id) {
    exists p :: IsPath(g, l, p) && p[0] == a && p[|p| - 1] == b
  }

  ghost function Reachable(g: Graph, l: nat, a: Id): set<Id> {
    set b | b in g && Reaches(g, l, a, b)
  }

  lemma ReachesSelf(g: Graph, l: nat, a: Id)
    requires a in g
    ensures a in Reachable(g, l, a)
  {
    assert IsPath(g, l, [a]);
  }

  lemma ReachesNext(g: Graph, l: nat, a: Id, b: Id, y: Id)
    requires b in Reachable(g, l, a) && y in Links(g, b, l) && y in g
    ensures y in Reachable(g, l, a)
  {
    hide Links;
    var p :| IsPath(g, l, p) && p[0] == a && p[|p| - 1] == b;
    var longer := p + [y];
    assert IsPath(g, l, longer);
    assert longer[0] == a && longer[|longer| - 1] == y;
  }

  ghost predicate ClosedUnder(g: Graph, l: nat, s: set<Id>) {
    forall x, y | x in s && y in Links(g, x, l) && y in g :: y in s
  }

  lemma {:induction false} PathStays(g: Graph, l: nat, p: seq<Id>, s: set<Id>)
    requires IsPath(g, l, p) && p[0] in s && ClosedUnder(g, l, s)
    ensures p[|p| - 1] in s
    decreases |p|
  {
    hide Links;
    if |p| > 1 {
      var front := p[..|p| - 1];
      assert IsPath(g, l, front);
      PathStays(g, l, front, s);
    }
  }

  lemma ClosedHoldsReachable(g: Graph, l: nat, a: Id, s: set<Id>)
    requires a in s && ClosedUnder(g, l, s)
    ensures Reachable(g, l, a) <= s
  {
    hide ClosedUnder;
    forall b | b in Reachable(g, l, a) ensures b in s {
      var p :| IsPath(g, l, p) && p[0] == a && p[|p| - 1] == b;
      PathStays(g, l, p, s);
    }
  }

  // ---------- The result of a walk ----------

  ghost predicate DistinctIds(hits: seq<Hit>) {
    forall i, j | 0 <= i < j < |hits| :: hits[i].id != hits[j].id
  }

  ghost predicate TrueHits(g: Graph, q: Vector, hits: seq<Hit>, ids: set<Id>) {
    forall h | h in hits :: h.id in ids && h == HitOf(g, q, h.id)
  }

  /** Not among the results, so no closer than any of them. */
  ghost predicate Beaten(g: Graph, q: Vector, hits: seq<Hit>, x: Id) {
    forall h | h in hits :: h.distance <= HitOf(g, q, x).distance
  }

  /**
   * `seen` is what the walk visited, all of it reachable from the start. The result is the `ef`
   * closest of it, in order; and everything next to a result was seen.
   */
  ghost predicate LayerResult(g: Graph, q: Vector, start: Id, l: nat, ef: nat, r: seq<Hit>, seen: set<Id>) {
    && start in seen && seen <= Reachable(g, l, start)
    && SortedBy(Nearer, r) && DistinctIds(r) && |r| == Min(ef, |seen|)
    && TrueHits(g, q, r, seen)
    && (forall x | x in seen :: HitOf(g, q, x) in r || Beaten(g, q, r, x))
    && (forall h, y | h in r && y in Links(g, h.id, l) && y in g :: y in seen)
  }

  /** A result's neighbour is a result itself or no closer than the worst of them. */
  lemma LocallyOptimal(g: Graph, q: Vector, start: Id, l: nat, ef: nat, r: seq<Hit>, seen: set<Id>, h: Hit, y: Id)
    requires LayerResult(g, q, start, l, ef, r, seen)
    requires h in r && y in Links(g, h.id, l) && y in g
    ensures HitOf(g, q, y) in r || r[|r| - 1].distance <= HitOf(g, q, y).distance
  {
    hide HitOf, Links;
  }

  ghost function IdSet(hits: seq<Hit>): set<Id> {
    set i | 0 <= i < |hits| :: hits[i].id
  }

  lemma {:induction false} IdSetSize(hits: seq<Hit>)
    requires DistinctIds(hits)
    ensures |IdSet(hits)| == |hits|
  {
    if hits != [] {
      var n := |hits| - 1;
      IdSetSize(hits[..n]);
      assert IdSet(hits) == IdSet(hits[..n]) + {hits[n].id};
    }
  }

  /** Every node of the set is listed when as many are listed as there are. */
  lemma ListsAll(g: Graph, q: Vector, hits: seq<Hit>, ids: set<Id>)
    requires TrueHits(g, q, hits, ids) && DistinctIds(hits) && |hits| >= |ids|
    ensures IdSet(hits) == ids
    ensures forall x | x in ids :: HitOf(g, q, x) in hits
  {
    hide HitOf;
    IdSetSize(hits);
    assert IdSet(hits) <= ids;
    SubsetOfSameSize(IdSet(hits), ids);
  }

  lemma SubsetOfSameSize<T>(a: set<T>, b: set<T>)
    requires a <= b && |a| >= |b|
    ensures a == b
  {
    assert |b| == |a| + |b - a| by { assert b == a + (b - a); }
  }

  lemma SubsetSize<T>(a: set<T>, b: set<T>)
    requires a <= b
    ensures |a| <= |b|
  {
    assert |b| == |a| + |b - a| by { assert b == a + (b - a); }
  }

  ghost function HitSet(g: Graph, q: Vector, ids: set<Id>): set<Hit> {
    set x | x in ids :: HitOf(g, q, x)
  }

  lemma SortedHits(g: Graph, q: Vector, hits: seq<Hit>, ids: set<Id>)
    requires TrueHits(g, q, hits, ids) && DistinctIds(hits) && SortedBy(Nearer, hits)
    requires forall x | x in ids :: HitOf(g, q, x) in hits
    ensures hits == SortSet(Nearer, HitSet(g, q, ids))
  {
    hide HitOf, Nearer;
    NearerTotal();
    var s := SortSet(Nearer, HitSet(g, q, ids));
    SortSetSorts(Nearer, HitSet(g, q, ids));
    assert multiset(hits) == multiset(HitSet(g, q, ids)) by {
      forall h ensures multiset(hits)[h] == multiset(HitSet(g, q, ids))[h] {
        OnceEach(hits, h);
        if h in hits {
          assert h.id in ids;
        }
        if h in HitSet(g, q, ids) {
          assert h in hits;
        }
      }
    }
    SortedUnique(Nearer, hits, s);
  }

  lemma {:induction false} OnceEach(hits: seq<Hit>, h: Hit)
    requires DistinctIds(hits)
    ensures multiset(hits)[h] == if h in hits then 1 else 0
  {
    if hits != [] {
      var n := |hits| - 1;
      OnceEach(hits[..n], h);
      assert hits == hits[..n] + [hits[n]];
    }
  }

  /** A walk wide enough for everything reachable returns exactly that, in order: it equals brute force. */
  lemma ExactWhenWide(g: Graph, q: Vector, start: Id, l: nat, ef: nat, r: seq<Hit>, seen: set<Id>)
    requires LayerResult(g, q, start, l, ef, r, seen) && |Reachable(g, l, start)| <= ef
    ensures seen == Reachable(g, l, start)
    ensures r == SortSet(Nearer, HitSet(g, q, seen))
  {
    hide HitOf, Links, Reachable, Nearer, HitSet, SortedBy, DistinctIds, ClosedUnder, Beaten, TrueHits, IdSet;
    SubsetSize(seen, Reachable(g, l, start));
    ListsAll(g, q, r, seen);
    SeenIsClosed(g, q, l, r, seen);
    ClosedHoldsReachable(g, l, start, seen);
    SortedHits(g, q, r, seen);
  }

  lemma SeenIsClosed(g: Graph, q: Vector, l: nat, r: seq<Hit>, seen: set<Id>)
    requires forall x | x in seen :: HitOf(g, q, x) in r
    requires forall h, y | h in r && y in Links(g, h.id, l) && y in g :: y in seen
    ensures ClosedUnder(g, l, seen)
  {
    hide HitOf, Links;
    forall x, y | x in seen && y in Links(g, x, l) && y in g ensures y in seen {
      NamedHit(g, q, x);
    }
  }

  lemma NamedHit(g: Graph, q: Vector, x: Id)
    ensures HitOf(g, q, x).id == x
  {
  }

  // ---------- One step of the walk ----------

  /** The walk's variables: still to explore, the best found so far, and every ID met. */
  datatype Walk = Walk(frontier: seq<Hit>, best: seq<Hit>, visited: set<Id>)

  ghost predicate Once(hits: seq<Hit>) {
    forall h :: multiset(hits)[h] <= 1
  }

  ghost function Found(g: Graph, w: Walk): set<Id> {
    set x | x in w.visited && x in g
  }

  ghost predicate Covered(g: Graph, q: Vector, ef: nat, best: seq<Hit>, x: Id) {
    HitOf(g, q, x) in best || (|best| == ef && Beaten(g, q, best, x))
  }

  /** What holds between any two statements of the walk. */
  ghost predicate Sound(g: Graph, q: Vector, start: Id, l: nat, ef: nat, w: Walk) {
    && start in Found(g, w) && Found(g, w) <= Reachable(g, l, start)
    && TrueHits(g, q, w.best, Found(g, w)) && TrueHits(g, q, w.frontier, Found(g, w))
    && Once(w.best) && 1 <= |w.best| <= ef
    && (forall x | x in Found(g, w) :: Covered(g, q, ef, w.best, x))
  }

  /** Every best hit is explored, or waiting to be. */
  ghost predicate Pending(w: Walk, explored: set<Id>) {
    forall h | h in w.best :: h in w.frontier || h.id in explored
  }

  ghost predicate Explored(g: Graph, l: nat, w: Walk, explored: set<Id>) {
    forall x, y | x in explored && y in Links(g, x, l) :: y in w.visited
  }

  /** Meeting one neighbour: skipped if met or missing, kept if there is room or it beats the worst. */
  function Meet(g: Graph, q: Vector, ef: nat, w: Walk, y: Id): Walk
    requires w.best != []
  {
    if y in w.visited then w
    else if y !in g then w.(visited := w.visited + {y})
    else
      var hit := HitOf(g, q, y);
      if |w.best| < ef || hit.distance < w.best[|w.best| - 1].distance then
        Walk(w.frontier + [hit], Cut(Sort(Nearer, w.best + [hit]), ef), w.visited + {y})
      else w.(visited := w.visited + {y})
  }

  /** Cutting a sorted sequence keeps hits no farther than any it drops. */
  lemma KeptIsNearest(best: seq<Hit>, hit: Hit, ef: nat)
    requires Once(best) && hit !in best && 1 <= ef && |best| <= ef
    ensures var kept := Cut(Sort(Nearer, best + [hit]), ef);
      && SortedBy(Nearer, kept) && Once(kept) && |kept| == Min(ef, |best| + 1)
      && (forall h | h in kept :: h in best || h == hit)
      && (|best| < ef ==> hit in kept && forall h | h in best :: h in kept)
      && (forall h, other | h in kept && (other in best || other == hit) && other !in kept :: h.distance <= other.distance)
  {
    hide Nearer;
    var all := best + [hit];
    var s := Sort(Nearer, all);
    NearerTotal();
    SortSorts(Nearer, all);
    SortElements(Nearer, all);
    CutOfSorted(Nearer, s, ef);
    CutOnce(s, ef) by {
      assert forall h :: multiset(s)[h] == multiset(best)[h] + (if h == hit then 1 else 0);
      assert multiset(best)[hit] == 0;
    }
    forall h, other | h in Cut(s, ef) && (other in best || other == hit) && other !in Cut(s, ef)
      ensures h.distance <= other.distance
    {
      assert Nearer(h, other);
      NearerDistance(h, other);
    }
  }

  lemma NearerDistance(a: Hit, b: Hit)
    requires Nearer(a, b)
    ensures a.distance <= b.distance
  {
  }

  lemma CutOnce(s: seq<Hit>, limit: nat)
    requires Once(s)
    ensures Once(Cut(s, limit))
  {
    if |s| > limit {
      assert s == s[..limit] + s[limit..];
      forall h ensures multiset(s[..limit])[h] <= 1 {
        assert multiset(s)[h] == multiset(s[..limit])[h] + multiset(s[limit..])[h];
      }
    }
  }

  /** The last of a sorted list is the farthest. */
  lemma WorstIsLast(best: seq<Hit>, h: Hit)
    requires SortedBy(Nearer, best) && h in best
    ensures h.distance <= best[|best| - 1].distance
  {
    var i :| 0 <= i < |best| && best[i] == h;
    if i < |best| - 1 {
      assert Nearer(best[i], best[|best| - 1]);
    }
  }

  /** Meeting a neighbour of a reachable node keeps the walk sound and marks the neighbour. */
  lemma MeetKeeps(g: Graph, q: Vector, start: Id, l: nat, ef: nat, w: Walk, at: Id, y: Id)
    requires Sound(g, q, start, l, ef, w) && SortedBy(Nearer, w.best)
    requires at in Found(g, w) && y in Links(g, at, l)
    ensures var r := Meet(g, q, ef, w, y);
      && Sound(g, q, start, l, ef, r) && SortedBy(Nearer, r.best)
      && r.visited == w.visited + {y}
  {
    hide Nearer, HitOf, Links, Reachable;
    if y !in w.visited {
      var r := Meet(g, q, ef, w, y);
      if y !in g {
        assert Found(g, r) == Found(g, w);
      } else {
        ReachesNext(g, l, start, at, y);
        assert Found(g, r) == Found(g, w) + {y};
        NamedHit(g, q, y);
        var hit := HitOf(g, q, y);
        assert hit !in w.best;
        var last := w.best[|w.best| - 1];
        if |w.best| < ef || hit.distance < last.distance {
          MeetBetter(g, q, ef, w, y);
        } else {
          forall h | h in w.best ensures h.distance <= hit.distance {
            WorstIsLast(w.best, h);
          }
        }
      }
    }
  }

  lemma MeetBetter(g: Graph, q: Vector, ef: nat, w: Walk, y: Id)
    requires 1 <= |w.best| <= ef && Once(w.best) && SortedBy(Nearer, w.best)
    requires forall x | x in Found(g, w) :: Covered(g, q, ef, w.best, x)
    requires HitOf(g, q, y) !in w.best
    requires |w.best| < ef || HitOf(g, q, y).distance < w.best[|w.best| - 1].distance
    ensures var kept := Cut(Sort(Nearer, w.best + [HitOf(g, q, y)]), ef);
      && SortedBy(Nearer, kept) && Once(kept) && 1 <= |kept| <= ef
      && (forall h | h in kept :: h in w.best || h == HitOf(g, q, y))
      && (forall x | x in Found(g, w) + {y} :: Covered(g, q, ef, kept, x))
  {
    hide Nearer, HitOf, Sort;
    var hit := HitOf(g, q, y);
    KeptIsNearest(w.best, hit, ef);
    var kept := Cut(Sort(Nearer, w.best + [hit]), ef);
    forall x | x in Found(g, w) + {y} ensures Covered(g, q, ef, kept, x) {
      var other := HitOf(g, q, x);
      if other !in kept && other !in w.best && other != hit {
        assert Beaten(g, q, w.best, x);
        assert w.best[|w.best| - 1] in w.best;
      }
    }
  }

  /** What the walk keeps while it visits the neighbours of `at`, a node already taken off the frontier. */
  ghost predicate Visiting(g: Graph, q: Vector, start: Id, l: nat, ef: nat, w: Walk, explored: set<Id>, at: Id) {
    && Sound(g, q, start, l, ef, w) && at in Found(g, w)
    && Pending(w, explored + {at}) && Explored(g, l, w, explored)
  }

  lemma MeetPending(g: Graph, q: Vector, ef: nat, w: Walk, y: Id, explored: set<Id>)
    requires 1 <= |w.best| <= ef && Once(w.best) && TrueHits(g, q, w.best, w.visited) && Pending(w, explored)
    ensures Pending(Meet(g, q, ef, w, y), explored)
  {
    hide Nearer, HitOf, Sort;
    if y !in w.visited && y in g {
      NamedHit(g, q, y);
      KeptIsNearest(w.best, HitOf(g, q, y), ef);
    }
  }

  lemma MeetVisiting(g: Graph, q: Vector, start: Id, l: nat, ef: nat, w: Walk, explored: set<Id>, at: Id, y: Id)
    requires Visiting(g, q, start, l, ef, w, explored, at) && SortedBy(Nearer, w.best) && y in Links(g, at, l)
    ensures Visiting(g, q, start, l, ef, Meet(g, q, ef, w, y), explored, at)
    ensures SortedBy(Nearer, Meet(g, q, ef, w, y).best)
    ensures Meet(g, q, ef, w, y).visited == w.visited + {y}
  {
    hide Meet, Nearer, HitOf, Links, Pending, Reachable;
    MeetKeeps(g, q, start, l, ef, w, at, y);
    MeetPending(g, q, ef, w, y, explored + {at});
  }

  /** The frontier grows only with a node not met before. */
  lemma MeetProgress(g: Graph, q: Vector, ef: nat, w: Walk, y: Id)
    requires w.best != []
    ensures var r := Meet(g, q, ef, w, y);
      && g.Keys - r.visited <= g.Keys - w.visited
      && (g.Keys - r.visited == g.Keys - w.visited ==> r.frontier == w.frontier)
  {
    hide HitOf, Sort;
    if y in g && y !in w.visited {
      assert y in g.Keys - w.visited;
    }
  }

  lemma HeadOfSorted(s: seq<Hit>, t: seq<Hit>)
    requires t != [] && SortedBy(Nearer, t) && multiset(s) == multiset(t)
    ensures t[0] in s
    ensures forall h | h in s :: h == t[0] || h in t[1..]
    ensures forall h | h in t[1..] :: h in s && Nearer(t[0], h)
  {
    assert t == [t[0]] + t[1..];
    assert t[0] in multiset(s);
    forall h | h in s ensures h == t[0] || h in t[1..] {
      assert h in multiset(t);
    }
    forall h | h in t[1..] ensures h in s && Nearer(t[0], h) {
      assert h in multiset(s);
      var i :| 0 <= i < |t[1..]| && t[1..][i] == h;
      assert t[i + 1] == h;
    }
  }

  /** Sorting both lists and taking the closest off the frontier. */
  lemma TakeClosest(g: Graph, q: Vector, start: Id, l: nat, ef: nat, w: Walk, explored: set<Id>, sorted: seq<Hit>, best: seq<Hit>)
    requires Sound(g, q, start, l, ef, w) && Pending(w, explored) && Explored(g, l, w, explored) && w.frontier != []
    requires sorted == Sort(Nearer, w.frontier) && best == Sort(Nearer, w.best)
    ensures SortedBy(Nearer, best)
    ensures forall h | h in sorted[1..] :: Nearer(sorted[0], h)
    ensures forall h | h in best :: h == sorted[0] || h in sorted[1..] || h.id in explored
    ensures sorted[0] in w.frontier
    ensures Sound(g, q, start, l, ef, Walk(sorted[1..], best, w.visited))
  {
    hide Nearer, HitOf, Links, Sound, Explored;
    NearerTotal();
    SortSorts(Nearer, w.best);
    SortSorts(Nearer, w.frontier);
    SortElements(Nearer, w.best);
    HeadOfSorted(w.frontier, sorted);
    SortedCovers(g, q, start, l, ef, w, Walk(sorted[1..], best, w.visited));
  }

  lemma TakenVisiting(g: Graph, q: Vector, start: Id, l: nat, ef: nat, w: Walk, r: Walk, explored: set<Id>, candidate: Hit)
    requires Sound(g, q, start, l, ef, w) && Explored(g, l, w, explored) && candidate in w.frontier
    requires Sound(g, q, start, l, ef, r) && r.visited == w.visited
    requires forall h | h in r.best :: h == candidate || h in r.frontier || h.id in explored
    ensures Visiting(g, q, start, l, ef, r, explored, candidate.id)
  {
    hide HitOf, Links, Reachable, Covered;
  }

  lemma SortedCovers(g: Graph, q: Vector, start: Id, l: nat, ef: nat, w: Walk, r: Walk)
    requires Sound(g, q, start, l, ef, w) && r.visited == w.visited
    requires multiset(r.best) == multiset(w.best)
    requires forall h | h in r.frontier :: h in w.frontier
    ensures Sound(g, q, start, l, ef, r)
  {
    hide HitOf, Reachable;
    assert Found(g, r) == Found(g, w);
    assert |multiset(r.best)| == |multiset(w.best)|;
    forall h ensures h in r.best <==> h in w.best {
      assert h in r.best <==> h in multiset(r.best);
    }
  }

  /** Past the worst of a full list, no best hit is left to explore. */
  lemma StopsWhenDone(best: seq<Hit>, frontier: seq<Hit>, candidate: Hit, explored: set<Id>)
    requires best != [] && SortedBy(Nearer, best) && candidate.distance > best[|best| - 1].distance
    requires forall h | h in frontier :: Nearer(candidate, h)
    requires forall h | h in best :: h == candidate || h in frontier || h.id in explored
    ensures forall h | h in best :: h.id in explored
  {
    forall h | h in best ensures h.id in explored {
      WorstIsLast(best, h);
    }
  }

  /** A walk with every best hit explored has its result. */
  lemma WalkEnds(g: Graph, q: Vector, start: Id, l: nat, ef: nat, w: Walk, explored: set<Id>)
    requires Sound(g, q, start, l, ef, w) && Explored(g, l, w, explored)
    requires forall h | h in w.best :: h.id in explored
    ensures LayerResult(g, q, start, l, ef, Sort(Nearer, w.best), Found(g, w))
  {
    hide Nearer, HitOf, Links, Reachable;
    var r := Sort(Nearer, w.best);
    NearerTotal();
    SortSorts(Nearer, w.best);
    SortElements(Nearer, w.best);
    SortedCovers(g, q, start, l, ef, w, w.(best := r));
    OnceDistinct(g, q, r, Found(g, w));
    AsManyAsFound(g, q, ef, r, Found(g, w));
    forall h, y | h in r && y in Links(g, h.id, l) && y in g ensures y in Found(g, w) {
      assert h.id in explored;
    }
  }

  lemma OnceDistinct(g: Graph, q: Vector, r: seq<Hit>, ids: set<Id>)
    requires Once(r) && TrueHits(g, q, r, ids)
    ensures DistinctIds(r)
  {
    hide HitOf;
    forall i, j | 0 <= i < j < |r| ensures r[i].id != r[j].id {
      if r[i] == r[j] {
        CountTwice(r, i, j);
        assert false;
      }
      assert r[i] in r && r[j] in r;
    }
  }

  lemma AsManyAsFound(g: Graph, q: Vector, ef: nat, r: seq<Hit>, found: set<Id>)
    requires DistinctIds(r) && TrueHits(g, q, r, found) && |r| <= ef
    requires forall x | x in found :: Covered(g, q, ef, r, x)
    ensures |r| == Min(ef, |found|)
  {
    hide HitOf, Beaten;
    IdSetSize(r);
    assert IdSet(r) <= found;
    SubsetSize(IdSet(r), found);
    if |r| < ef {
      forall x | x in found ensures x in IdSet(r) {
        NamedHit(g, q, x);
        var i :| 0 <= i < |r| && r[i] == HitOf(g, q, x);
      }
      SubsetSize(found, IdSet(r));
    }
  }

  lemma WalkStarts(g: Graph, q: Vector, start: Id, l: nat, ef: nat)
    requires start in g && 1 <= ef
    ensures var hit := HitOf(g, q, start);
      var w := Walk([hit], [hit], {start});
      Sound(g, q, start, l, ef, w) && Pending(w, {}) && Explored(g, l, w, {})
  {
    hide HitOf, Links, Reachable;
    ReachesSelf(g, l, start);
    NamedHit(g, q, start);
  }

  lemma VisitingHasBest(g: Graph, q: Vector, start: Id, l: nat, ef: nat, w: Walk, explored: set<Id>, at: Id)
    requires Visiting(g, q, start, l, ef, w, explored, at)
    ensures 1 <= |w.best| <= ef
  {
  }

  lemma DoneVisiting(g: Graph, q: Vector, start: Id, l: nat, ef: nat, w: Walk, explored: set<Id>, at: Id)
    requires Visiting(g, q, start, l, ef, w, explored, at) && forall y | y in Links(g, at, l) :: y in w.visited
    ensures Sound(g, q, start, l, ef, w) && Pending(w, explored + {at}) && Explored(g, l, w, explored + {at})
  {
    hide Sound, Pending, Links;
  }

  lemma NothingPending(w: Walk, explored: set<Id>)
    requires Pending(w, explored) && w.frontier == []
    ensures forall h | h in w.best :: h.id in explored
  {
  }

  lemma KeysShrink(before: set<Id>, after: set<Id>)
    requires after <= before
    ensures |after| <= |before|
    ensures |after| == |before| ==> after == before
  {
    SubsetSize(after, before);
    if |after| == |before| {
      SubsetOfSameSize(after, before);
    }
  }

  // ---------- The whole search ----------

  ghost predicate LocalMinimum(g: Graph, q: Vector, x: Id, l: nat) {
    forall y | y in Links(g, x, l) && y in g :: Dist(q, At(g, x)) <= Dist(q, At(g, y))
  }

  /** A walk along links of the level, to a node no farther from the query with no closer neighbour there. */
  ghost predicate WalkedDown(g: Graph, q: Vector, a: Id, b: Id, l: nat) {
    b in Reachable(g, l, a) && Dist(q, At(g, b)) <= Dist(q, At(g, a)) && LocalMinimum(g, q, b, l)
  }

  /** One stop after each level walked so far, from the top level on. */
  ghost predicate Stops(x: Index, q: Vector, stops: seq<Id>) {
    && 0 < |stops| <= x.maxLevel + 1 && stops[0] == x.entry
    && forall k | 0 < k < |stops| :: WalkedDown(x.nodes, q, stops[k - 1], stops[k], x.maxLevel + 1 - k)
  }

  /** Every level from the top down to 1 was walked, each from where the one above stopped. */
  ghost predicate Descended(x: Index, q: Vector, from: Id) {
    && from in x.nodes
    && Dist(q, At(x.nodes, from)) <= Dist(q, At(x.nodes, x.entry))
    && exists stops :: Stops(x, q, stops) && |stops| == x.maxLevel + 1 && stops[x.maxLevel] == from
  }

  lemma OneStop(x: Index, q: Vector)
    requires EntryOk(x) && x.nodes != map[]
    ensures Stops(x, q, [x.entry])
  {
  }

  lemma NextStop(x: Index, q: Vector, stops: seq<Id>, b: Id)
    requires Stops(x, q, stops) && |stops| <= x.maxLevel
    requires WalkedDown(x.nodes, q, stops[|stops| - 1], b, x.maxLevel + 1 - |stops|)
    ensures Stops(x, q, stops + [b])
  {
    hide WalkedDown;
  }

  /** The first `k` of a walk over the bottom level. */
  ghost predicate Answer(g: Graph, q: Vector, from: Id, k: nat, ef: nat, hits: seq<Hit>, seen: set<Id>) {
    exists full :: LayerResult(g, q, from, 0, ef, full, seen) && hits == Cut(full, k)
  }

  /** A walk of width one ends at a local minimum, no farther than where it started. */
  lemma OneBest(g: Graph, q: Vector, start: Id, l: nat, r: seq<Hit>, seen: set<Id>)
    requires start in g && LayerResult(g, q, start, l, 1, r, seen)
    ensures |r| == 1 && WalkedDown(g, q, start, r[0].id, l)
  {
    hide Links, Nearer, Reaches;
    assert seen != {};
    assert |seen| >= 1 by { SubsetSize({start}, seen); }
    assert r[0] in r;
    assert HitOf(g, q, start) in r || Beaten(g, q, r, start);
    forall y | y in Links(g, r[0].id, l) && y in g ensures Dist(q, At(g, r[0].id)) <= Dist(q, At(g, y)) {
      assert HitOf(g, q, y) in r || Beaten(g, q, r, y);
    }
  }

  /** With room for every node the search is exact: the `k` nearest of all that the start reaches. */
  lemma WideSearchIsExact(g: Graph, q: Vector, from: Id, k: nat, ef: nat, hits: seq<Hit>, seen: set<Id>)
    requires Answer(g, q, from, k, ef, hits, seen) && |g| <= ef
    ensures hits == Cut(SortSet(Nearer, HitSet(g, q, Reachable(g, 0, from))), k)
  {
    hide LayerResult, Reaches;
    var full: seq<Hit> :| LayerResult(g, q, from, 0, ef, full, seen) && hits == Cut(full, k);
    SubsetSize(Reachable(g, 0, from), g.Keys);
    ExactWhenWide(g, q, from, 0, ef, full, seen);
  }

  /** Where nobody is isolated, a search for two or more finds at least two. */
  lemma FindsTwo(g: Graph, q: Vector, from: Id, k: nat, ef: nat, hits: seq<Hit>, seen: set<Id>, other: Id)
    requires LinksOk(g) && NoneIsolated(g) && from in g && other in g && other != from
    requires Answer(g, q, from, k, ef, hits, seen) && k >= 2 && ef >= 2
    ensures |hits| >= 2
  {
    hide HitOf, Links, Nearer, Reaches, LinksOk, NoneIsolated;
    var full: seq<Hit> :| LayerResult(g, q, from, 0, ef, full, seen) && hits == Cut(full, k);
    SubsetSize({from}, seen);
    var x := full[0].id;
    assert full[0] in full;
    var y := SomeNeighbour(g, x, if x == from then other else from);
    SubsetSize({x, y}, seen);
  }

  lemma SomeNeighbour(g: Graph, x: Id, other: Id) returns (y: Id)
    requires LinksOk(g) && NoneIsolated(g) && x in g && other in g && other != x
    ensures y in Links(g, x, 0) && y in g && y != x
  {
    hide Links;
    assert HasPeer(g, x, 0);
    assert Linked(g, x, 0);
    y := Links(g, x, 0)[0];
    assert Pair(g, x, 0, y);
  }
}
