/**
 * Which neighbours a node is given (internal/ann/hnsw.go:88-144, 228-273): what an insert does to every list of the
 * graph, and what a delete does to it, turn by turn, without the functions that compute it.
 */
module HnswNeighbours {
  import opened ByteStrings
  import opened HnswGraph
  import opened HnswInvariants
  import opened Sorting
  import opened Vectors
  import opened Wrappers

  // ---------- A diverse choice ----------

  predicate Closer(a: Hit, b: Hit) {
    Nearer(a, b) && a != b
  }

  ghost predicate Ascending(hits: seq<Hit>) {
    forall i, j | 0 <= i < j < |hits| :: Closer(hits[i], hits[j])
  }

  /** Passed over for a closer pick that it is closer to than to the query, or because all places were taken by closer picks. */
  ghost predicate PassedOver(g: Graph, picked: seq<Hit>, h: Hit, want: nat) {
    || (exists i :: 0 <= i < |picked| && Closer(picked[i], h) && Dist(At(g, h.id), At(g, picked[i].id)) < h.distance)
    || (|picked| == want && forall i | 0 <= i < |picked| :: Closer(picked[i], h))
  }

  /**
   * At most `want` of the candidates, closest first and starting with the closest of all. None is closer to one before
   * it than to the query, and every other candidate was passed over.
   */
  ghost predicate Chosen(g: Graph, picked: seq<Hit>, candidates: seq<Hit>, want: nat) {
    && |picked| <= want
    && Ascending(picked)
    && (forall h | h in picked :: h in candidates)
    && (candidates != [] && want > 0 ==> picked != [] && picked[0] == candidates[0])
    && (forall i, j | 0 <= i < j < |picked| :: Dist(At(g, picked[j].id), At(g, picked[i].id)) >= picked[j].distance)
    && (forall h | h in candidates && h !in picked :: PassedOver(g, picked, h, want))
  }

  /** The picks come in order, and whoever is not picked was passed over. */
  lemma {:induction false} DiverseOrder(g: Graph, picked: seq<Hit>, candidates: seq<Hit>, m: nat)
    requires |picked| < m && Ascending(picked + candidates)
    ensures var r := Diverse(g, picked, candidates, m);
      && Ascending(r)
      && (forall h | h in candidates && h !in r :: PassedOver(g, r, h, m))
    decreases |candidates|
  {
    hide Closer, Ascending, PassedOver, Crowded;
    if candidates == [] {
      assert picked + [] == picked;
    } else {
      var c, rest := candidates[0], candidates[1..];
      DiverseSpec(g, picked, candidates, m);
      var r := Diverse(g, picked, candidates, m);
      assert [c] + rest == candidates;
      AscendingSplit(picked, c, rest);
      if Crowded(g, picked, c) {
        DiverseOrder(g, picked, rest, m);
        CrowdedPasses(g, picked, r, c, m);
      } else if |picked| + 1 == m {
        forall h | h in rest ensures PassedOver(g, r, h, m) {
          FullPasses(g, picked, c, h, m);
        }
      } else {
        assert picked + candidates == picked + [c] + rest;
        DiverseOrder(g, picked + [c], rest, m);
        DiverseSpec(g, picked + [c], rest, m);
        assert r[|picked|] == (picked + [c])[|picked|] == c;
      }
    }
  }

  lemma CrowdedPasses(g: Graph, picked: seq<Hit>, r: seq<Hit>, c: Hit, m: nat)
    requires Crowded(g, picked, c) && |picked| <= |r| && r[..|picked|] == picked
    requires forall i | 0 <= i < |picked| :: Closer(picked[i], c)
    ensures PassedOver(g, r, c, m)
  {
    hide Closer;
    var i :| 0 <= i < |picked| && Dist(At(g, c.id), At(g, picked[i].id)) < c.distance;
    assert r[i] == r[..|picked|][i];
  }

  lemma FullPasses(g: Graph, picked: seq<Hit>, c: Hit, h: Hit, m: nat)
    requires |picked| + 1 == m && Closer(c, h) && forall i | 0 <= i < |picked| :: Closer(picked[i], h)
    ensures PassedOver(g, picked + [c], h, m)
  {
    hide Closer;
    var r := picked + [c];
    assert forall i | 0 <= i < |r| :: r[i] == if i < |picked| then picked[i] else c;
  }

  lemma AscendingSplit(picked: seq<Hit>, c: Hit, rest: seq<Hit>)
    requires Ascending(picked + ([c] + rest))
    ensures Ascending(picked + rest) && Ascending(picked + [c])
    ensures forall i | 0 <= i < |picked| :: Closer(picked[i], c)
    ensures forall h | h in rest :: Closer(c, h) && forall i | 0 <= i < |picked| :: Closer(picked[i], h)
  {
    hide Closer, Ascending;
    AscendingWithout(picked, c, rest);
    AscendingPrefix(picked + ([c] + rest), |picked| + 1);
    assert (picked + ([c] + rest))[..|picked| + 1] == picked + [c];
    AscendingAcross(picked, [c] + rest);
    assert picked + [c] + rest == picked + ([c] + rest);
    AscendingAcross(picked + [c], rest);
    assert (picked + [c])[|picked|] == c && c in [c] + rest;
    forall h | h in rest ensures Closer(c, h) && forall i | 0 <= i < |picked| :: Closer(picked[i], h) {
      assert h in [c] + rest;
    }
  }

  lemma AscendingWithout(picked: seq<Hit>, c: Hit, rest: seq<Hit>)
    requires Ascending(picked + ([c] + rest))
    ensures Ascending(picked + rest)
  {
    hide Closer;
    var s, t := picked + ([c] + rest), picked + rest;
    forall i, j | 0 <= i < j < |t| ensures Closer(t[i], t[j]) {
      assert t[i] == s[if i < |picked| then i else i + 1];
      assert t[j] == s[if j < |picked| then j else j + 1];
    }
  }

  lemma AscendingPrefix(s: seq<Hit>, n: nat)
    requires Ascending(s) && n <= |s|
    ensures Ascending(s[..n])
  {
    hide Closer;
  }

  /** Everything in the first part is closer than everything in the second. */
  lemma AscendingAcross(a: seq<Hit>, b: seq<Hit>)
    requires Ascending(a + b)
    ensures forall i, h | 0 <= i < |a| && h in b :: Closer(a[i], h)
  {
    hide Closer;
    forall i, h | 0 <= i < |a| && h in b ensures Closer(a[i], h) {
      var j :| 0 <= j < |b| && b[j] == h;
      assert (a + b)[i] == a[i] && (a + b)[|a| + j] == h;
    }
  }

  /** The nodes that may be picked: the nearest that reach the level, but for those to skip. */
  ghost function Candidates(g: Graph, id: Id, l: nat, skip: set<Id>, c: ValidConfig): seq<Hit> {
    Closest(g, At(g, id), l, c.efConstruction, skip)
  }

  lemma PicksChosen(g: Graph, id: Id, l: nat, skip: set<Id>, want: nat, c: ValidConfig)
    requires 0 < want
    ensures var candidates := Candidates(g, id, l, skip, c); Chosen(g, Diverse(g, [], candidates, want), candidates, want)
  {
    hide Closest, Diverse, Ascending, Candidates, PassedOver;
    var candidates := Candidates(g, id, l, skip, c);
    CandidatesAscend(g, id, l, skip, c);
    assert [] + candidates == candidates;
    DiverseOrder(g, [], candidates, want);
    DiverseSpec(g, [], candidates, want);
    PicksSpread(g, candidates, want);
  }

  lemma CandidatesAscend(g: Graph, id: Id, l: nat, skip: set<Id>, c: ValidConfig)
    ensures Ascending(Candidates(g, id, l, skip, c))
  {
    hide Nearer, Closest;
    ClosestSpec(g, At(g, id), l, c.efConstruction, skip);
    ClosestDistinct(g, At(g, id), l, c.efConstruction, skip);
  }

  lemma PicksSpread(g: Graph, candidates: seq<Hit>, want: nat)
    requires 0 < want
    ensures var picked := Diverse(g, [], candidates, want);
      forall i, j | 0 <= i < j < |picked| :: Dist(At(g, picked[j].id), At(g, picked[i].id)) >= picked[j].distance
  {
    hide Diverse;
    DiverseSpreads(g, [], candidates, want);
    var picked := Diverse(g, [], candidates, want);
    forall i, j | 0 <= i < j < |picked| ensures Dist(At(g, picked[j].id), At(g, picked[i].id)) >= picked[j].distance {
      assert !Crowded(g, picked[..j], picked[j]);
      assert picked[..j][i] == picked[i];
    }
  }

  // ---------- One node's links ----------

  /** Node `id` got these neighbours on the level, each of them got `id` and was trimmed, and no other list changed. */
  ghost predicate Wired(g: Graph, r: Graph, id: Id, l: nat, ids: seq<Id>, m: nat) {
    && SameNodes(g, r)
    && OnlyLevel(g, r, l)
    && Links(r, id, l) == Links(g, id, l) + ids
    && forall x: Id | x != id ::
         Links(r, x, l) == if x in ids then Trimmed(g, At(g, x), Links(g, x, l) + [id], m) else Links(g, x, l)
  }

  lemma {:induction false} LinksWire(g: Graph, id: Id, hits: seq<Hit>, l: nat, m: nat)
    requires id in g && forall h | h in hits :: h.id in g && h.id != id
    requires forall i, j | 0 <= i < j < |hits| :: hits[i].id != hits[j].id
    ensures Wired(g, LinkAll(g, id, hits, l, m), id, l, IdsOf(hits), m)
    decreases |hits|
  {
    hide Links, Link, Trimmed, Wired;
    if hits == [] {
      NothingWired(g, id, l, m);
    } else {
      var b, rest := hits[0].id, hits[1..];
      var g' := Link(g, id, b, l, m);
      LinkEffect(g, id, b, l, m);
      LinksWire(g', id, rest, l, m);
      assert IdsOf(hits) == [b] + IdsOf(rest);
      forall i | 0 <= i < |rest| ensures IdsOf(rest)[i] != b {
        assert rest[i] == hits[i + 1];
      }
      FirstWired(g, g', LinkAll(g, id, hits, l, m), id, b, IdsOf(rest), l, m);
    }
  }

  lemma NothingWired(g: Graph, id: Id, l: nat, m: nat)
    ensures Wired(g, g, id, l, [], m)
  {
    hide Links, Trimmed;
    assert Links(g, id, l) + [] == Links(g, id, l);
  }

  lemma FirstWired(g: Graph, g': Graph, r: Graph, id: Id, b: Id, rest: seq<Id>, l: nat, m: nat)
    requires Wired(g', r, id, l, rest, m) && b != id && b !in rest && SameNodes(g, g')
    requires Links(g', id, l) == Links(g, id, l) + [b] && Links(g', b, l) == Trimmed(g, At(g, b), Links(g, b, l) + [id], m)
    requires forall x: Id, k: nat | k != l || (x != id && x != b) :: Links(g', x, k) == Links(g, x, k)
    ensures Wired(g, r, id, l, [b] + rest, m)
  {
    hide Links, Trimmed;
    assert Links(g, id, l) + [b] + rest == Links(g, id, l) + ([b] + rest);
    forall x: Id | x != id
      ensures Links(r, x, l) == if x in [b] + rest then Trimmed(g, At(g, x), Links(g, x, l) + [id], m) else Links(g, x, l)
    {
      assert x in [b] + rest <==> x == b || x in rest;
      SameTrimmed(g, g', At(g, x), Links(g, x, l) + [id], m);
    }
  }

  /** The node got a diverse choice of the nearest eligible nodes, up to `want`. */
  ghost predicate Extended(g: Graph, r: Graph, id: Id, l: nat, skip: set<Id>, want: nat, c: ValidConfig) {
    exists picked :: Chosen(g, picked, Candidates(g, id, l, skip, c), want) && Wired(g, r, id, l, IdsOf(picked), c.m)
  }

  lemma ConnectExtends(g: Graph, id: Id, l: nat, skip: set<Id>, want: nat, c: ValidConfig)
    requires id in g && l <= g[id].level && id in skip && 0 < want
    ensures Extended(g, Connect(g, id, l, skip, want, c), id, l, skip, want, c)
  {
    hide Diverse, Closest, Chosen, Wired, Closer;
    var candidates := Candidates(g, id, l, skip, c);
    var picked := Diverse(g, [], candidates, want);
    PicksChosen(g, id, l, skip, want, c);
    PickedPartners(g, id, l, skip, want, c);
    ChosenDistinct(g, picked, candidates, want, id, l, skip, c);
    LinksWire(g, id, picked, l, c.m);
  }

  lemma ChosenDistinct(g: Graph, picked: seq<Hit>, candidates: seq<Hit>, want: nat, id: Id, l: nat, skip: set<Id>, c: ValidConfig)
    requires candidates == Candidates(g, id, l, skip, c) && Chosen(g, picked, candidates, want)
    ensures forall i, j | 0 <= i < j < |picked| :: picked[i].id != picked[j].id
  {
    hide Nearer, Closest, PassedOver;
    ClosestDistinct(g, At(g, id), l, c.efConstruction, skip);
    forall i, j | 0 <= i < j < |picked| ensures picked[i].id != picked[j].id {
      assert picked[i] in picked && picked[j] in picked;
      var k :| 0 <= k < |candidates| && candidates[k] == picked[i];
      var n :| 0 <= n < |candidates| && candidates[n] == picked[j];
      assert Closer(picked[i], picked[j]);
    }
  }

  /** A trimmed list has its closest first. */
  lemma TrimmedInOrder(g: Graph, v: Vector, ids: seq<Id>, m: nat)
    ensures SortedBy(Nearer, HitsOf(g, v, Trimmed(g, v, ids, m)))
  {
    hide Nearer, Sort;
    var sorted := Sort(Nearer, HitsOf(g, v, ids));
    NearerTotal();
    SortSorts(Nearer, HitsOf(g, v, ids));
    forall i | 0 <= i < |sorted| ensures HitOf(g, v, sorted[i].id) == sorted[i] {
      SortedAreHits(g, v, ids, i);
    }
    assert HitsOf(g, v, Trimmed(g, v, ids, m)) == Cut(sorted, m);
    CutOfSorted(Nearer, sorted, m);
  }

  // ---------- Insert ----------

  lemma SameChoice(g: Graph, r: Graph, picked: seq<Hit>, id: Id, l: nat, skip: set<Id>, want: nat, c: ValidConfig)
    requires SameNodes(g, r) && Chosen(g, picked, Candidates(g, id, l, skip, c), want)
    ensures Candidates(r, id, l, skip, c) == Candidates(g, id, l, skip, c)
    ensures Chosen(r, picked, Candidates(r, id, l, skip, c), want)
  {
    hide Candidates, SameNodes, Chosen;
    SameCandidates(g, r, id, l, skip, c);
    SameChosen(g, r, picked, Candidates(g, id, l, skip, c), want);
  }

  lemma SameCandidates(g: Graph, r: Graph, id: Id, l: nat, skip: set<Id>, c: ValidConfig)
    requires SameNodes(g, r)
    ensures Candidates(r, id, l, skip, c) == Candidates(g, id, l, skip, c)
  {
    hide Nearer, Eligible, SameNodes, SortSet;
    SameEligible(g, r, id, l, skip);
  }

  lemma SameEligible(g: Graph, r: Graph, id: Id, l: nat, skip: set<Id>)
    requires SameNodes(g, r)
    ensures At(r, id) == At(g, id) && Eligible(r, At(r, id), l, skip) == Eligible(g, At(g, id), l, skip)
  {
    hide Dist;
  }

  lemma SameChosen(g: Graph, r: Graph, picked: seq<Hit>, candidates: seq<Hit>, want: nat)
    requires SameNodes(g, r) && Chosen(g, picked, candidates, want)
    ensures Chosen(r, picked, candidates, want)
  {
    hide Closer, Dist;
    forall id: Id ensures At(r, id) == At(g, id) {}
    hide SameNodes, At;
    forall h | h in candidates && h !in picked ensures PassedOver(r, picked, h, want) {
      assert PassedOver(g, picked, h, want);
    }
  }

  /** Level by level, the new node got a diverse choice, and nothing else changed. */
  lemma {:induction false} DownExtends(g: Graph, id: Id, l: int, c: ValidConfig)
    requires id in g && l <= g[id].level
    ensures var r := ConnectDown(g, id, l, c);
      && SameNodes(g, r)
      && (forall x: Id, k: nat | k > l :: Links(r, x, k) == Links(g, x, k))
      && (forall k: nat | k <= l :: LevelExtended(g, r, id, k, c))
    decreases l + 1
  {
    hide Links, Connect, Chosen, Extended, LevelExtended;
    if l >= 0 {
      var g' := Connect(g, id, l, {id}, c.m, c);
      ConnectExtends(g, id, l, {id}, c.m, c);
      var r := ConnectDown(g', id, l - 1, c);
      ExtendedHere(g, g', id, l, c);
      DownExtends(g', id, l - 1, c);
      forall k: nat | k <= l ensures LevelExtended(g, r, id, k, c) {
        if k < l {
          ExtendedLater(g, g', r, id, l, k, c);
        } else {
          ExtendedEarlier(g, g', r, id, l, c);
        }
      }
    }
  }

  /** The lists of one level, after the new node got its neighbours there. */
  ghost predicate LevelExtended(g: Graph, r: Graph, id: Id, k: nat, c: ValidConfig) {
    exists picked :: Chosen(g, picked, Candidates(g, id, k, {id}, c), c.m) && ListsGot(g, r, id, k, IdsOf(picked), c.m)
  }

  ghost predicate ListsGot(g: Graph, r: Graph, id: Id, k: nat, ids: seq<Id>, m: nat) {
    && Links(r, id, k) == Links(g, id, k) + ids
    && forall x: Id | x != id ::
         Links(r, x, k) == if x in ids then Trimmed(g, At(g, x), Links(g, x, k) + [id], m) else Links(g, x, k)
  }

  lemma ExtendedHere(g: Graph, g': Graph, id: Id, l: nat, c: ValidConfig)
    requires Extended(g, g', id, l, {id}, c.m, c)
    ensures SameNodes(g, g') && OnlyLevel(g, g', l) && LevelExtended(g, g', id, l, c)
  {
    hide Links, Chosen, Trimmed, Closest;
    var picked :| Chosen(g, picked, Candidates(g, id, l, {id}, c), c.m) && Wired(g, g', id, l, IdsOf(picked), c.m);
    assert ListsGot(g, g', id, l, IdsOf(picked), c.m);
  }

  lemma ExtendedEarlier(g: Graph, g': Graph, r: Graph, id: Id, l: nat, c: ValidConfig)
    requires LevelExtended(g, g', id, l, c) && forall x: Id, k: nat | k > l - 1 :: Links(r, x, k) == Links(g', x, k)
    ensures LevelExtended(g, r, id, l, c)
  {
    hide Links, Chosen, Trimmed, Closest;
    var picked :| Chosen(g, picked, Candidates(g, id, l, {id}, c), c.m) && ListsGot(g, g', id, l, IdsOf(picked), c.m);
    assert ListsGot(g, r, id, l, IdsOf(picked), c.m);
  }

  lemma ExtendedLater(g: Graph, g': Graph, r: Graph, id: Id, l: nat, k: nat, c: ValidConfig)
    requires SameNodes(g, g') && OnlyLevel(g, g', l) && k < l && LevelExtended(g', r, id, k, c)
    ensures LevelExtended(g, r, id, k, c)
  {
    hide Links, Chosen, Trimmed, Closest;
    var picked :| Chosen(g', picked, Candidates(g', id, k, {id}, c), c.m) && ListsGot(g', r, id, k, IdsOf(picked), c.m);
    SameChoice(g', g, picked, id, k, {id}, c.m, c);
    forall x: Id ensures Trimmed(g', At(g', x), Links(g', x, k) + [id], c.m) == Trimmed(g, At(g, x), Links(g, x, k) + [id], c.m) {
      SameTrimmed(g, g', At(g, x), Links(g, x, k) + [id], c.m);
    }
    assert ListsGot(g, r, id, k, IdsOf(picked), c.m);
  }

  /**
   * On the level the new node lists a diverse choice of the nearest, each of those got it and was trimmed, and every
   * other list is as before.
   */
  ghost predicate Placed(g: Graph, r: Graph, id: Id, k: nat, c: ValidConfig) {
    exists picked :: Chosen(r, picked, Candidates(r, id, k, {id}, c), c.m) && PlacedWith(g, r, id, k, IdsOf(picked), c.m)
  }

  ghost predicate PlacedWith(g: Graph, r: Graph, id: Id, k: nat, ids: seq<Id>, m: nat) {
    && Links(r, id, k) == ids
    && forall x | x in g :: Links(r, x, k) == if x in ids then Trimmed(r, At(r, x), Links(g, x, k) + [id], m) else Links(g, x, k)
  }

  /** Where nobody else reaches the level there is nobody to choose. */
  lemma NobodyThere(g: Graph, r: Graph, id: Id, k: nat, c: ValidConfig)
    requires forall y | y in r && y != id :: r[y].level < k
    requires forall x: Id :: Links(r, x, k) == Links(g, x, k)
    requires Links(g, id, k) == []
    ensures Placed(g, r, id, k, c)
  {
    hide Links, Nearer, Closest;
    assert Eligible(r, At(r, id), k, {id}) == {};
    ClosestSpec(r, At(r, id), k, c.efConstruction, {id});
    assert IdsOf([]) == [];
    assert Chosen(r, [], Candidates(r, id, k, {id}, c), c.m);
    assert PlacedWith(g, r, id, k, IdsOf([]), c.m);
  }

  lemma ExtendedIsPlaced(g0: Graph, g: Graph, r: Graph, id: Id, k: nat, c: ValidConfig)
    requires LevelExtended(g, r, id, k, c) && SameNodes(g, r) && id !in g0
    requires forall x: Id :: Links(g, x, k) == Links(g0, x, k)
    requires Links(g0, id, k) == []
    ensures Placed(g0, r, id, k, c)
  {
    hide Links, Chosen, Trimmed, Candidates;
    var picked :| Chosen(g, picked, Candidates(g, id, k, {id}, c), c.m) && ListsGot(g, r, id, k, IdsOf(picked), c.m);
    SameChoice(g, r, picked, id, k, {id}, c.m, c);
    assert [] + IdsOf(picked) == IdsOf(picked);
    forall x | x in g0
      ensures Links(r, x, k) == if x in IdsOf(picked) then Trimmed(r, At(r, x), Links(g0, x, k) + [id], c.m) else Links(g0, x, k)
    {
      SameTrimmed(g, r, At(r, x), Links(g0, x, k) + [id], c.m);
    }
    assert PlacedWith(g0, r, id, k, IdsOf(picked), c.m);
  }

  lemma AddedPlaces(x: Index, id: Id, v: Vector, level: nat, c: ValidConfig)
    requires EntryOk(x) && id !in x.nodes
    ensures var r := Added(x, id, v, level, c).nodes;
      && (forall k: nat | k <= level :: Placed(x.nodes, r, id, k, c))
      && (forall y: Id, k: nat | k > level :: Links(r, y, k) == Links(x.nodes, y, k))
      && SameNodes(With(x.nodes, id, v, level), r)
  {
    hide Links, ConnectDown, Placed, LevelExtended;
    var g := With(x.nodes, id, v, level);
    var r := Added(x, id, v, level, c).nodes;
    WithLinks(x.nodes, id, v, level);
    var top := if x.nodes == map[] then -1 else Min(level, x.maxLevel);
    if x.nodes != map[] {
      DownExtends(g, id, top, c);
    }
    assert SameNodes(g, r) && forall y: Id, k: nat | k > top :: Links(r, y, k) == Links(x.nodes, y, k);
    forall k: nat | k <= level ensures Placed(x.nodes, r, id, k, c) {
      assert Links(x.nodes, id, k) == [];
      if k <= top {
        ExtendedIsPlaced(x.nodes, g, r, id, k, c);
      } else {
        NobodyThere(x.nodes, r, id, k, c);
      }
    }
  }

  /**
   * An insert, after the old vector of the ID has been deleted if there was one, gives the new node a diverse choice of
   * the nearest nodes on each of its levels, links them back, and changes nothing else; the entry moves to the new node
   * if and only if that is the first or the highest.
   */
  lemma InsertPlaces(x: Index, id: Id, v: Vector, level: nat, c: ValidConfig)
    requires WellFormed(x, c) && Insert(x, id, v, level, c).Ok?
    ensures var before, after := if id in x.nodes then Removed(x, id, c) else x, Insert(x, id, v, level, c).value;
      && SameNodes(With(before.nodes, id, v, level), after.nodes)
      && (forall k: nat | k <= level :: Placed(before.nodes, after.nodes, id, k, c))
      && (forall y: Id, k: nat | k > level :: Links(after.nodes, y, k) == Links(before.nodes, y, k))
      && (if before.nodes == map[] || level > before.maxLevel then after.entry == id && after.maxLevel == level
          else after.entry == before.entry && after.maxLevel == before.maxLevel)
  {
    hide Placed, LinksOk, Short, NodesOk, EntryOk, Removed, Links, ConnectDown, NoneIsolated;
    var before := if id in x.nodes then Removed(x, id, c) else x;
    if id in x.nodes {
      RemovedKeeps(x, id, c);
    }
    AddedPlaces(before, id, v, level, c);
  }

  // ---------- Delete ----------

  /** A node's turn on one level: nothing if its list is full, otherwise as many diverse neighbours as it lacks, of those it does not list. */
  ghost predicate Turn(g: Graph, r: Graph, id: Id, l: nat, c: ValidConfig) {
    var listed := Links(g, id, l);
    if |listed| >= c.m then r == g
    else Extended(g, r, id, l, {id} + (set other | other in listed), c.m - |listed|, c)
  }

  /** A node's turns on its levels, from the bottom up. */
  ghost predicate LevelTurns(g: Graph, r: Graph, id: Id, l: nat, top: nat, c: ValidConfig)
    decreases top + 1 - l
  {
    if l > top then r == g else exists g' :: Turn(g, g', id, l, c) && LevelTurns(g', r, id, l + 1, top, c)
  }

  /** The turns of these nodes, in this order. */
  ghost predicate Turns(g: Graph, r: Graph, ids: seq<Id>, c: ValidConfig)
    decreases |ids|
  {
    if ids == [] then r == g
    else ids[0] in g && exists g' :: LevelTurns(g, g', ids[0], 0, g[ids[0]].level, c) && Turns(g', r, ids[1..], c)
  }

  lemma RepairIsTurn(g: Graph, id: Id, l: nat, c: ValidConfig)
    requires id in g && l <= g[id].level
    ensures Turn(g, RepairLevel(g, id, l, c), id, l, c)
  {
    hide Links, Connect, Extended;
    var need := c.m - |Links(g, id, l)|;
    if need > 0 {
      assert LinkSet(g, id, l) == set other | other in Links(g, id, l);
      ConnectExtends(g, id, l, {id} + LinkSet(g, id, l), need, c);
    }
  }

  lemma TurnKeepsNodes(g: Graph, r: Graph, id: Id, l: nat, c: ValidConfig)
    requires Turn(g, r, id, l, c)
    ensures SameNodes(g, r)
  {
    hide Chosen, Candidates, Trimmed;
  }

  lemma {:induction false} RepairIsTurns(g: Graph, id: Id, l: nat, top: nat, c: ValidConfig)
    requires id in g && top == g[id].level && l <= top + 1
    ensures LevelTurns(g, Repair(g, id, l, top, c), id, l, top, c)
    ensures SameNodes(g, Repair(g, id, l, top, c))
    decreases top + 1 - l
  {
    hide RepairLevel, Turn;
    if l <= top {
      var g' := RepairLevel(g, id, l, c);
      RepairIsTurn(g, id, l, c);
      TurnKeepsNodes(g, g', id, l, c);
      RepairIsTurns(g', id, l + 1, top, c);
    }
  }

  lemma {:induction false} RepairAllIsTurns(g: Graph, ids: seq<Id>, c: ValidConfig)
    requires forall id | id in ids :: id in g
    ensures Turns(g, RepairAll(g, ids, c), ids, c)
    decreases |ids|
  {
    hide Repair, LevelTurns;
    if ids != [] {
      var top := LevelOf(g, ids[0]);
      RepairIsTurns(g, ids[0], 0, top, c);
      RepairAllIsTurns(Repair(g, ids[0], 0, top, c), ids[1..], c);
    }
  }

  // ---------- What a delete leaves ----------

  /** A list is as it was, or longer, or full. */
  ghost predicate ListGrew(g: Graph, r: Graph, x: Id, l: nat, m: nat) {
    |Links(r, x, l)| <= m && (Links(r, x, l) == Links(g, x, l) || |Links(r, x, l)| >= Min(m, |Links(g, x, l)| + 1))
  }

  ghost predicate Grew(g: Graph, r: Graph, m: nat) {
    SameNodes(g, r) && forall x: Id, l: nat :: ListGrew(g, r, x, l, m)
  }

  lemma GrewChain(g: Graph, g': Graph, r: Graph, m: nat)
    requires Grew(g, g', m) && Grew(g', r, m)
    ensures Grew(g, r, m)
  {
    hide Links;
    forall x: Id, l: nat ensures ListGrew(g, r, x, l, m) {
      assert ListGrew(g, g', x, l, m) && ListGrew(g', r, x, l, m);
    }
  }

  lemma GrewNothing(g: Graph, m: nat)
    requires Short(g, m)
    ensures Grew(g, g, m)
  {
    hide Links;
  }

  /** Somebody reaches the level whom the node does not list. */
  ghost predicate CouldGrow(g: Graph, x: Id, l: nat) {
    exists y :: y in g && y != x && y !in Links(g, x, l) && g[y].level >= l
  }

  ghost predicate GrewByOne(g: Graph, r: Graph, x: Id, l: nat, m: nat) {
    |Links(r, x, l)| >= Min(m, |Links(g, x, l)| + 1)
  }

  lemma GrewThen(g: Graph, g': Graph, r: Graph, x: Id, l: nat, m: nat)
    requires GrewByOne(g, g', x, l, m) && Grew(g', r, m)
    ensures GrewByOne(g, r, x, l, m)
  {
    hide Links;
    assert ListGrew(g', r, x, l, m);
  }

  lemma GrewIsShort(g: Graph, r: Graph, m: nat)
    requires Grew(g, r, m)
    ensures Short(r, m)
  {
    hide Links;
    forall x: Id, l: nat ensures |Links(r, x, l)| <= m {
      assert ListGrew(g, r, x, l, m);
    }
  }

  /** In its turn the node's list grows if it is not full and somebody it does not list reaches the level; no list shrinks. */
  lemma TurnGrows(g: Graph, r: Graph, id: Id, l: nat, c: ValidConfig)
    requires Turn(g, r, id, l, c) && Short(g, c.m)
    ensures Grew(g, r, c.m)
    ensures CouldGrow(g, id, l) ==> GrewByOne(g, r, id, l, c.m)
    ensures forall x: Id, k: nat | k != l :: Links(r, x, k) == Links(g, x, k)
  {
    hide Links, Chosen, Trimmed, Candidates;
    var listed := Links(g, id, l);
    if |listed| >= c.m {
      GrewNothing(g, c.m);
    } else {
      var skip, want := {id} + (set other | other in listed), c.m - |listed|;
      var picked :| Chosen(g, picked, Candidates(g, id, l, skip, c), want) && Wired(g, r, id, l, IdsOf(picked), c.m);
      ChosenWithin(g, picked, Candidates(g, id, l, skip, c), want);
      forall x: Id, k: nat ensures ListGrew(g, r, x, k, c.m) {
        TrimmedSpec(g, At(g, x), Links(g, x, l) + [id], c.m);
      }
      forall y | y in g && y != id && y !in listed && g[y].level >= l ensures picked != [] {
        SomeCandidate(g, id, l, skip, c, y);
      }
    }
  }

  lemma ChosenWithin(g: Graph, picked: seq<Hit>, candidates: seq<Hit>, want: nat)
    requires Chosen(g, picked, candidates, want)
    ensures |picked| <= want && (candidates != [] && want > 0 ==> picked != [])
  {
  }

  lemma SomeCandidate(g: Graph, id: Id, l: nat, skip: set<Id>, c: ValidConfig, y: Id)
    requires y in g && y !in skip && g[y].level >= l
    ensures Candidates(g, id, l, skip, c) != []
  {
    hide Closest, Nearer;
    assert HitOf(g, At(g, id), y) in Eligible(g, At(g, id), l, skip);
    ClosestSpec(g, At(g, id), l, c.efConstruction, skip);
  }

  lemma {:induction false} LevelTurnsGrow(g: Graph, r: Graph, id: Id, l: nat, top: nat, c: ValidConfig)
    requires LevelTurns(g, r, id, l, top, c) && Short(g, c.m) && id in g
    ensures Grew(g, r, c.m)
    ensures forall k: nat | l <= k <= top && CouldGrow(g, id, k) :: GrewByOne(g, r, id, k, c.m)
    decreases top + 1 - l
  {
    hide Turn, Links, Grew, GrewByOne, Short;
    if l > top {
      GrewNothing(g, c.m);
    } else {
      var g' :| Turn(g, g', id, l, c) && LevelTurns(g', r, id, l + 1, top, c);
      TurnGrows(g, g', id, l, c);
      TurnKeepsNodes(g, g', id, l, c);
      GrewIsShort(g, g', c.m);
      LevelTurnsGrow(g', r, id, l + 1, top, c);
      GrewChain(g, g', r, c.m);
      forall k: nat | l <= k <= top && CouldGrow(g, id, k) ensures GrewByOne(g, r, id, k, c.m) {
        if k == l {
          GrewThen(g, g', r, id, l, c.m);
        } else {
          StillCould(g, g', id, k);
          SameGrowth(g, g', r, id, k, c.m);
        }
      }
    }
  }

  lemma StillCould(g: Graph, g': Graph, x: Id, l: nat)
    requires CouldGrow(g, x, l) && SameNodes(g, g') && Links(g', x, l) == Links(g, x, l)
    ensures CouldGrow(g', x, l)
  {
    hide Links;
  }

  lemma SameGrowth(g: Graph, g': Graph, r: Graph, x: Id, l: nat, m: nat)
    requires GrewByOne(g', r, x, l, m) && Links(g', x, l) == Links(g, x, l)
    ensures GrewByOne(g, r, x, l, m)
  {
    hide Links;
  }

  lemma {:induction false} TurnsGrow(g: Graph, r: Graph, ids: seq<Id>, c: ValidConfig)
    requires Turns(g, r, ids, c) && Short(g, c.m)
    ensures Grew(g, r, c.m)
    ensures forall x, l: nat | x in ids && x in g && l <= g[x].level && CouldGrow(g, x, l) :: GrewByOne(g, r, x, l, c.m)
    decreases |ids|
  {
    hide LevelTurns, Links, Grew, GrewByOne, Short, CouldGrow;
    if ids == [] {
      GrewNothing(g, c.m);
    } else {
      var g' :| LevelTurns(g, g', ids[0], 0, g[ids[0]].level, c) && Turns(g', r, ids[1..], c);
      LevelTurnsGrow(g, g', ids[0], 0, g[ids[0]].level, c);
      GrewIsShort(g, g', c.m);
      TurnsGrow(g', r, ids[1..], c);
      GrewChain(g, g', r, c.m);
      forall x, l: nat | x in ids && x in g && l <= g[x].level && CouldGrow(g, x, l) ensures GrewByOne(g, r, x, l, c.m) {
        if x == ids[0] {
          GrewThen(g, g', r, x, l, c.m);
        } else {
          assert x in ids[1..];
          GrewBefore(g, g', r, x, l, c.m);
        }
      }
    }
  }

  /** Another node's turn may have lengthened the list already. */
  lemma GrewBefore(g: Graph, g': Graph, r: Graph, x: Id, l: nat, m: nat)
    requires Grew(g, g', m) && Grew(g', r, m) && CouldGrow(g, x, l) && x in g && l <= g[x].level
    requires x in g' && l <= g'[x].level && CouldGrow(g', x, l) ==> GrewByOne(g', r, x, l, m)
    ensures GrewByOne(g, r, x, l, m)
  {
    hide Links;
    assert ListGrew(g, g', x, l, m);
    if Links(g', x, l) == Links(g, x, l) {
      StillCould(g, g', x, l);
    } else {
      GrewThen(g, g', r, x, l, m);
    }
  }

  lemma {:induction false} WithoutAll(ids: seq<Id>, id: Id)
    ensures multiset(Without(ids, id)) == multiset(ids)[id := 0]
  {
    if ids != [] {
      WithoutAll(ids[1..], id);
      assert ids == [ids[0]] + ids[1..];
      assert multiset([ids[0]] + Without(ids[1..], id)) == multiset{ids[0]} + multiset(Without(ids[1..], id));
    }
  }

  /** Unlinking takes the deleted node out of every list and leaves the rest of it. */
  lemma UnlinkTakesOut(g: Graph, id: Id, m: nat, y: Id, l: nat)
    requires Short(g, m) && y != id
    ensures multiset(Links(Unlink(g, id, m), y, l)) == multiset(Links(g, y, l))[id := 0]
  {
    hide Trimmed;
    var rest := g - {id};
    if y in rest && l in rest[y].neighbors {
      assert |Links(g, y, l)| <= m;
      WithoutSpec(rest[y].neighbors[l], id);
      TrimmedSpec(rest, rest[y].v, Without(rest[y].neighbors[l], id), m);
      WithoutAll(rest[y].neighbors[l], id);
    }
  }

  /** Each of these IDs once, in order. */
  ghost predicate InOrder(ids: seq<Id>, keys: set<Id>) {
    && (forall id :: id in ids <==> id in keys)
    && (forall i, j | 0 <= i < j < |ids| :: Less(ids[i], ids[j]))
  }

  /** The other nodes are still there, and only the node `id` is missing from their lists. */
  ghost predicate TakenOut(g: Graph, r: Graph, id: Id) {
    && SameNodes(g - {id}, r)
    && forall y: Id, l: nat | y != id :: multiset(Links(r, y, l)) == multiset(Links(g, y, l))[id := 0]
  }

  lemma UnlinkIsTakenOut(g: Graph, id: Id, m: nat)
    requires Short(g, m)
    ensures TakenOut(g, Unlink(g, id, m), id)
  {
    hide Unlink, Links, Short;
    UnlinkNodes(g, id, m);
    forall y: Id, l: nat | y != id ensures multiset(Links(Unlink(g, id, m), y, l)) == multiset(Links(g, y, l))[id := 0] {
      UnlinkTakesOut(g, id, m, y, l);
    }
  }

  /** A delete takes the node out of every list, and then every other node has its turns, in the order of the IDs. */
  lemma DeleteRepairs(x: Index, id: Id, c: ValidConfig)
    requires WellFormed(x, c) && id in x.nodes
    ensures exists g, ids ::
      TakenOut(x.nodes, g, id) && InOrder(ids, x.nodes.Keys - {id}) && Turns(g, Removed(x, id, c).nodes, ids, c)
  {
    hide Unlink, RepairAll, PickEntry, Turns, LinksOk, NodesOk, EntryOk, InOrder, Short, SortedIds, TakenOut;
    var g := Unlink(x.nodes, id, c.m);
    UnlinkIsTakenOut(x.nodes, id, c.m);
    UnlinkNodes(x.nodes, id, c.m);
    SortedInOrder(g);
    InOrderHolds(SortedIds(g), g.Keys);
    RepairAllIsTurns(g, SortedIds(g), c);
  }

  lemma InOrderHolds(ids: seq<Id>, keys: set<Id>)
    requires InOrder(ids, keys)
    ensures forall id :: id in ids <==> id in keys
  {
  }

  lemma SortedInOrder(g: Graph)
    ensures InOrder(SortedIds(g), g.Keys)
  {
    AtMostTotal();
    SortSetSorts(AtMost, g.Keys);
  }

  /**
   * After a delete: a node's list on a level is no shorter than what was left of it, and longer or full if anybody
   * reaches the level who was not left on it.
   */
  lemma ListsRepaired(x: Index, id: Id, c: ValidConfig, y: Id, l: nat)
    requires WellFormed(x, c) && id in x.nodes && y in x.nodes && y != id && l <= x.nodes[y].level
    ensures var after, left := Removed(x, id, c).nodes, multiset(Links(x.nodes, y, l))[id := 0];
      && |left| <= |Links(after, y, l)| <= c.m
      && ((exists z :: z in after && z != y && after[z].level >= l && z !in left) ==> |Links(after, y, l)| >= Min(c.m, |left| + 1))
  {
    hide Unlink, RepairAll, PickEntry, Turns, LinksOk, NodesOk, EntryOk, InOrder, Short, SortedIds, Links, Grew, GrewByOne,
      CouldGrow;
    var g, ids := Unlink(x.nodes, id, c.m), SortedIds(Unlink(x.nodes, id, c.m));
    UnlinkOk(x.nodes, id, c.m);
    UnlinkTakesOut(x.nodes, id, c.m, y, l);
    SortedInOrder(g);
    InOrderHolds(ids, g.Keys);
    RepairAllIsTurns(g, ids, c);
    TurnsGrow(g, Removed(x, id, c).nodes, ids, c);
    ListGrewFrom(g, Removed(x, id, c).nodes, y, l, c.m);
  }

  lemma ListGrewFrom(g: Graph, r: Graph, y: Id, l: nat, m: nat)
    requires Grew(g, r, m) && (CouldGrow(g, y, l) ==> GrewByOne(g, r, y, l, m))
    requires Short(g, m)
    ensures var left := multiset(Links(g, y, l));
      && |left| <= |Links(r, y, l)| <= m
      && ((exists z :: z in r && z != y && r[z].level >= l && z !in left) ==> |Links(r, y, l)| >= Min(m, |left| + 1))
  {
    hide Links;
    assert ListGrew(g, r, y, l, m);
  }

  // ---------- A neighbour listed twice ----------

  ghost predicate NoRepeats(ids: seq<Id>) {
    forall x :: multiset(ids)[x] <= 1
  }

  /** One ID too many: trimming drops the farthest. */
  lemma TrimmedDropsFarthest(g: Graph, v: Vector, ids: seq<Id>, m: nat) returns (far: Id)
    requires |ids| == m + 1
    ensures far in ids && forall o | o in ids :: Nearer(HitOf(g, v, o), HitOf(g, v, far))
    ensures multiset(Trimmed(g, v, ids, m)) == multiset(ids) - multiset{far}
  {
    hide Nearer, Sort, HitOf;
    var sorted := Sort(Nearer, HitsOf(g, v, ids));
    far := sorted[m].id;
    SortedNames(g, v, ids);
    assert IdsOf(sorted) == Trimmed(g, v, ids, m) + [far];
    assert far in multiset(IdsOf(sorted)) by { assert IdsOf(sorted)[m] == far; }
    forall o | o in ids ensures Nearer(HitOf(g, v, o), HitOf(g, v, far)) {
      LastIsFarthest(g, v, ids, o);
    }
  }

  /** Sorting the hits keeps their IDs. */
  lemma SortedNames(g: Graph, v: Vector, ids: seq<Id>)
    ensures multiset(IdsOf(Sort(Nearer, HitsOf(g, v, ids)))) == multiset(ids)
  {
    hide Nearer, Sort, HitOf;
    var hits := HitsOf(g, v, ids);
    IdMultisets(Sort(Nearer, hits), hits);
    forall i | 0 <= i < |ids| ensures hits[i].id == ids[i] {
      HitNames(g, v, ids[i]);
    }
    assert IdsOf(hits) == ids;
  }

  lemma LastIsFarthest(g: Graph, v: Vector, ids: seq<Id>, o: Id)
    requires o in ids
    ensures var sorted := Sort(Nearer, HitsOf(g, v, ids)); Nearer(HitOf(g, v, o), HitOf(g, v, sorted[|ids| - 1].id))
  {
    hide Nearer, Sort, HitOf;
    var hits := HitsOf(g, v, ids);
    var sorted := Sort(Nearer, hits);
    NearerTotal();
    SortSorts(Nearer, hits);
    SortElements(Nearer, hits);
    SortedAreHits(g, v, ids, |ids| - 1);
    var i :| 0 <= i < |ids| && ids[i] == o;
    assert hits[i] in sorted;
    var j :| 0 <= j < |sorted| && sorted[j] == hits[i];
  }

  /**
   * Linking `a` to `b` leaves no neighbour of `b` listed twice if and only if `b` did not list `a` yet, or its list was
   * full and `a` the farthest on it.
   */
  lemma LinkRepeatsExactly(g: Graph, a: Id, b: Id, l: nat, m: nat)
    requires a in g && b in g && a != b && |Links(g, b, l)| <= m && NoRepeats(Links(g, b, l))
    ensures var listed, v := Links(g, b, l), At(g, b);
      NoRepeats(Links(Link(g, a, b, l, m), b, l)) <==>
        a !in listed || (|listed| == m && forall o | o in listed :: Nearer(HitOf(g, v, o), HitOf(g, v, a)))
  {
    hide Links, Link, Trimmed, Nearer, HitOf;
    var listed, v := Links(g, b, l), At(g, b);
    var longer, after := listed + [a], Trimmed(g, v, listed + [a], m);
    LinkEffect(g, a, b, l, m);
    assert forall x :: multiset(longer)[x] == multiset(listed)[x] + if x == a then 1 else 0;
    assert a in listed <==> multiset(listed)[a] == 1;
    if |listed| < m {
      TrimmedSpec(g, v, longer, m);
      assert multiset(after)[a] == multiset(listed)[a] + 1;
    } else {
      var far := TrimmedDropsFarthest(g, v, longer, m);
      NearerTotal();
      assert far in longer && a in longer;
      if a in listed {
        assert multiset(after)[a] == 2 - if far == a then 1 else 0;
        if forall o | o in listed :: Nearer(HitOf(g, v, o), HitOf(g, v, a)) {
          HitNames(g, v, far);
          HitNames(g, v, a);
        }
      }
    }
  }

  lemma {:induction false} NoMoreThan<T>(s: seq<T>, all: set<T>)
    requires forall i, j | 0 <= i < j < |s| :: s[i] != s[j]
    requires forall x | x in s :: x in all
    ensures |s| <= |all|
  {
    if s != [] {
      NoMoreThan(s[1..], all - {s[0]});
    }
  }

  lemma TwoInOrder(ids: seq<Id>, a: Id, b: Id)
    requires InOrder(ids, {a, b}) && Less(a, b)
    ensures ids == [a, b]
  {
    hide Less;
    LessTotal(a, b);
    assert a in ids && b in ids;
    forall i, j | 0 <= i < j < |ids| ensures ids[i] != ids[j] && ids[i] in {a, b} && ids[j] in {a, b} {
      LessTotal(ids[i], ids[j]);
      assert ids[i] in ids && ids[j] in ids;
    }
    NoMoreThan(ids, {a, b});
  }

  /** With one other node to choose from, that one is chosen. */
  lemma OnlyChoice(g: Graph, picked: seq<Hit>, id: Id, l: nat, skip: set<Id>, want: nat, c: ValidConfig, y: Id)
    requires Chosen(g, picked, Candidates(g, id, l, skip, c), want) && want > 0
    requires y in g && y !in skip && g[y].level >= l
    requires forall x | x in g && x !in skip && g[x].level >= l :: x == y
    ensures IdsOf(picked) == [y]
  {
    hide Closest, HitOf, Eligible;
    SomeCandidate(g, id, l, skip, c, y);
    ClosestSpec(g, At(g, id), l, c.efConstruction, skip);
    forall h | h in picked ensures h == HitOf(g, At(g, id), y) && h.id == y {
      EligibleNames(g, At(g, id), l, skip, h);
    }
    NoneTwice(picked);
    NoMoreThan(picked, {HitOf(g, At(g, id), y)});
    assert picked[0] in picked;
  }

  lemma NoneTwice(picked: seq<Hit>)
    requires Ascending(picked)
    ensures forall i, j | 0 <= i < j < |picked| :: picked[i] != picked[j]
  {
    forall i, j | 0 <= i < j < |picked| ensures picked[i] != picked[j] {
      assert Closer(picked[i], picked[j]);
    }
  }

  /** A turn of a node with an empty list, in a graph of two nodes, when the other lists it already. */
  lemma TurnListsTwice(g: Graph, r: Graph, a: Id, b: Id, c: ValidConfig)
    requires g.Keys == {a, b} && a != b && g[b].level >= 0 && c.m == 2
    requires Links(g, a, 0) == [] && Links(g, b, 0) == [a] && Turn(g, r, a, 0, c)
    ensures multiset(Links(r, b, 0)) == multiset{a, a} && r.Keys == g.Keys
  {
    hide Links, Trimmed, Chosen, Candidates;
    var skip: set<Id> := {a} + (set other | other in Links(g, a, 0));
    var picked :| Chosen(g, picked, Candidates(g, a, 0, skip, c), 2) && Wired(g, r, a, 0, IdsOf(picked), c.m);
    OnlyChoice(g, picked, a, 0, skip, 2, c, b);
    TrimmedSpec(g, At(g, b), Links(g, b, 0) + [a], 2);
  }

  lemma OneOf<T>(s: seq<T>, x: T)
    requires multiset(s) == multiset{x}
    ensures s == [x]
  {
    assert |s| == |multiset(s)| == 1;
    assert s[0] in multiset(s);
  }

  lemma NoneOf<T>(s: seq<T>)
    requires multiset(s) == multiset{}
    ensures s == []
  {
    assert |s| == |multiset(s)|;
  }

  /**
   * The repair does not look whether a node it links to lists the node in turn already. So a delete from a well-formed
   * index with nobody isolated can leave a list that names one neighbour twice.
   */
  lemma DeleteListsTwice()
    ensures exists x: Index, c: ValidConfig, id, y, other ::
      && WellFormed(x, c) && NoneIsolated(x.nodes) && id in x.nodes
      && multiset(Links(Removed(x, id, c).nodes, y, 0))[other] == 2
  {
    hide Removed, LevelTurns, Turns, Turn, Less;
    var a: Id, b: Id, z: Id := [1], [2], [3];
    var c: ValidConfig := Config(1, 2, 2, 1);
    var x := TwiceStart(a, b, z);
    TwiceStartOk(a, b, z, c);
    DeleteRepairs(x, z, c);
    var g: Graph, ids: seq<Id> :| TakenOut(x.nodes, g, z) && InOrder(ids, x.nodes.Keys - {z}) && Turns(g, Removed(x, z, c).nodes, ids, c);
    TwiceAfter(g, Removed(x, z, c).nodes, ids, a, b, z, c);
    assert multiset(Links(Removed(x, z, c).nodes, b, 0))[a] == 2;
  }

  function TwiceStart(a: Id, b: Id, z: Id): Index {
    Index(map[a := VNode([0.0], 0, map[0 := [z]]), b := VNode([1.0], 0, map[0 := [a]]), z := VNode([2.0], 0, map[0 := [a]])], a, 0)
  }

  lemma TwiceStartLinks(a: Id, b: Id, z: Id, y: Id, l: nat)
    requires a != b && b != z && a != z
    ensures Links(TwiceStart(a, b, z).nodes, y, l) ==
      if l != 0 then [] else if y == a then [z] else if y == b || y == z then [a] else []
  {
  }

  lemma TwiceStartNode(a: Id, b: Id, z: Id, x: Id)
    requires a == [1] && b == [2] && z == [3] && x in TwiceStart(a, b, z).nodes
    ensures var n := TwiceStart(a, b, z).nodes[x]; x != [] && |n.v| == 1 && n.level == 0
  {
    assert x == a || x == b || x == z;
  }

  lemma TwiceStartOk(a: Id, b: Id, z: Id, c: ValidConfig)
    requires a == [1] && b == [2] && z == [3] && c == Config(1, 2, 2, 1)
    ensures var x := TwiceStart(a, b, z); WellFormed(x, c) && NoneIsolated(x.nodes) && x.nodes.Keys == {a, b, z}
  {
    var g := TwiceStart(a, b, z).nodes;
    assert a != b && b != z && a != z;
    assert g.Keys == {a, b, z};
    hide Links;
    forall x | x in g ensures x != [] && |g[x].v| == 1 && g[x].level == 0 {
      TwiceStartNode(a, b, z, x);
    }
    forall y: Id, l: nat ensures |Links(g, y, l)| <= 2 && Linked(g, y, l) && forall other | other in Links(g, y, l) :: Pair(g, y, l, other) {
      TwiceStartLinks(a, b, z, y, l);
    }
  }

  lemma TwiceAfter(g: Graph, r: Graph, ids: seq<Id>, a: Id, b: Id, z: Id, c: ValidConfig)
    requires a == [1] && b == [2] && z == [3] && c == Config(1, 2, 2, 1)
    requires var x := TwiceStart(a, b, z); TakenOut(x.nodes, g, z) && InOrder(ids, x.nodes.Keys - {z}) && Turns(g, r, ids, c)
    ensures multiset(Links(r, b, 0)) == multiset{a, a}
  {
    hide Turn, InOrder, Turns, Less, Wired;
    var x := TwiceStart(a, b, z);
    assert x.nodes.Keys - {z} == {a, b} == g.Keys;
    assert Less(a, b) by { LessHere(a, b); }
    TwoInOrder(ids, a, b);
    assert Links(x.nodes, a, 0) == [z] && Links(x.nodes, b, 0) == [a];
    NoneOf(Links(g, a, 0));
    OneOf(Links(g, b, 0), a);
    var g' := TwoTurns(g, r, a, b, c);
    TurnKeepsNodes(g, g', a, 0, c);
    TurnListsTwice(g, g', a, b, c);
    FullStays(g', r, b, c);
  }

  lemma LessHere(a: Id, b: Id)
    requires a == [1] && b == [2]
    ensures Less(a, b)
  {
  }

  lemma FullStays(g: Graph, r: Graph, b: Id, c: ValidConfig)
    requires Turn(g, r, b, 0, c) && |multiset(Links(g, b, 0))| >= c.m
    ensures r == g
  {
    assert |multiset(Links(g, b, 0))| == |Links(g, b, 0)|;
  }

  lemma OneLevel(g: Graph, r: Graph, id: Id, c: ValidConfig)
    requires LevelTurns(g, r, id, 0, 0, c)
    ensures Turn(g, r, id, 0, c)
  {
    hide Turn;
    var h :| Turn(g, h, id, 0, c) && LevelTurns(h, r, id, 1, 0, c);
    assert h == r;
  }

  lemma TwoTurns(g: Graph, r: Graph, a: Id, b: Id, c: ValidConfig) returns (g': Graph)
    requires Turns(g, r, [a, b], c) && a in g && g[a].level == 0 && b in g && g[b].level == 0
    ensures Turn(g, g', a, 0, c) && Turn(g', r, b, 0, c)
  {
    hide LevelTurns, Turn;
    assert [a, b][1..] == [b] && [b][1..] == [];
    g' :| LevelTurns(g, g', a, 0, 0, c) && Turns(g', r, [b], c);
    OneLevel(g, g', a, c);
    TurnKeepsNodes(g, g', a, 0, c);
    var h :| LevelTurns(g', h, b, 0, 0, c) && Turns(h, r, [], c);
    OneLevel(g', h, b, c);
  }
}
