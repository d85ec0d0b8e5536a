/**
 * The navigable small-world graph as a value, and each of its operations as a function
 * (internal/ann/hnsw.go). No function here looks at an enumeration order: the sets a map
 * iteration produces are sorted by a total order before anything depends on them.
 */
module HnswGraph {
  import opened ByteStrings
  import opened Sorting
  import opened Vectors
  import opened Wrappers

  type Id = Bytes

  datatype Config = Config(dimension: int, m: int, efConstruction: int, efSearch: int) {
    predicate Valid() {
      dimension > 0 && m > 0 && efConstruction >= m && efSearch > 0
    }
  }

  type ValidConfig = c: Config | c.Valid() witness Config(1, 1, 1, 1)

  /** One search hit. */
  datatype Hit = Hit(id: Id, distance: real)

  /** One vector; `neighbors` has no entry for a level that never got a link. */
  datatype VNode = VNode(v: Vector, level: nat, neighbors: map<nat, seq<Id>>)

  type Graph = map<Id, VNode>

  /** The whole index: `entry` is empty and `maxLevel` -1 when there is no node. */
  datatype Index = Index(nodes: Graph, entry: Id, maxLevel: int)

  const EMPTY := Index(map[], [], -1)

  datatype IndexError = InvalidConfig | EmptyId | WrongDimension | NotFound | BadK

  // ---------- The order of hits ----------

  predicate Nearer(a: Hit, b: Hit) {
    a.distance < b.distance || (a.distance == b.distance && AtMost(a.id, b.id))
  }

  lemma AtMostTotal()
    ensures TotalOrder(AtMost)
  {
    forall a: Bytes, b: Bytes ensures (AtMost(a, b) || AtMost(b, a)) && (AtMost(a, b) && AtMost(b, a) ==> a == b) {
      LessTotal(a, b);
    }
    forall a: Bytes, b: Bytes, c: Bytes | AtMost(a, b) && AtMost(b, c) ensures AtMost(a, c) {
      LessTotal(a, b);
      LessTotal(b, c);
      LessTotal(a, c);
      if Less(a, b) && Less(b, c) {
        LessTransitive(a, b, c);
      }
    }
  }

  /** Distance first, then ID: no two different hits tie. */
  lemma NearerTotal()
    ensures TotalOrder(Nearer)
  {
    hide AtMost;
    AtMostTotal();
    forall a, b ensures (Nearer(a, b) || Nearer(b, a)) && (Nearer(a, b) && Nearer(b, a) ==> a == b) {
      assert AtMost(a.id, b.id) || AtMost(b.id, a.id);
    }
    forall a, b, c | Nearer(a, b) && Nearer(b, c) ensures Nearer(a, c) {
      assert AtMost(a.id, b.id) && AtMost(b.id, c.id) ==> AtMost(a.id, c.id);
    }
  }

  // ---------- Reading the graph ----------

  function At(g: Graph, id: Id): Vector {
    if id in g then g[id].v else []
  }

  function LevelOf(g: Graph, id: Id): nat {
    if id in g then g[id].level else 0
  }

  function Links(g: Graph, id: Id, l: nat): seq<Id> {
    if id in g && l in g[id].neighbors then g[id].neighbors[l] else []
  }

  function SetLinks(g: Graph, id: Id, l: nat, ids: seq<Id>): Graph {
    if id in g then g[id := VNode(g[id].v, g[id].level, g[id].neighbors[l := ids])] else g
  }

  function HitOf(g: Graph, q: Vector, id: Id): Hit {
    Hit(id, Dist(q, At(g, id)))
  }

  function HitsOf(g: Graph, q: Vector, ids: seq<Id>): (r: seq<Hit>)
    ensures |r| == |ids|
    ensures forall i | 0 <= i < |r| :: r[i] == HitOf(g, q, ids[i])
  {
    seq(|ids|, i requires 0 <= i < |ids| => HitOf(g, q, ids[i]))
  }

  function IdsOf(hits: seq<Hit>): (r: seq<Id>)
    ensures |r| == |hits|
    ensures forall i | 0 <= i < |r| :: r[i] == hits[i].id
  {
    seq(|hits|, i requires 0 <= i < |hits| => hits[i].id)
  }

  function Cut<T>(s: seq<T>, limit: nat): seq<T> {
    if |s| > limit then s[..limit] else s
  }

  // ---------- Linking ----------

  /** The closest `m` of `ids`, seen from `v`, closest first. */
  function Trimmed(g: Graph, v: Vector, ids: seq<Id>, m: nat): seq<Id> {
    IdsOf(Cut(Sort(Nearer, HitsOf(g, v, ids)), m))
  }

  function Trim(g: Graph, id: Id, l: nat, m: nat): Graph {
    SetLinks(g, id, l, Trimmed(g, At(g, id), Links(g, id, l), m))
  }

  function Link(g: Graph, a: Id, b: Id, l: nat, m: nat): Graph {
    var forth := SetLinks(g, a, l, Links(g, a, l) + [b]);
    var back := SetLinks(forth, b, l, Links(forth, b, l) + [a]);
    Trim(back, b, l, m)
  }

  function LinkAll(g: Graph, a: Id, hits: seq<Hit>, l: nat, m: nat): Graph
    decreases |hits|
  {
    if hits == [] then g else LinkAll(Link(g, a, hits[0].id, l, m), a, hits[1..], l, m)
  }

  /** The nodes that reach level `l`, but for those to skip. */
  function Eligible(g: Graph, q: Vector, l: nat, skip: set<Id>): set<Hit> {
    set id | id in g && id !in skip && g[id].level >= l :: HitOf(g, q, id)
  }

  ghost function Closest(g: Graph, q: Vector, l: nat, limit: nat, skip: set<Id>): seq<Hit> {
    Cut(SortSet(Nearer, Eligible(g, q, l, skip)), limit)
  }

  /** A candidate closer to a node already picked than to the query adds no direction. */
  predicate Crowded(g: Graph, picked: seq<Hit>, c: Hit) {
    exists i | 0 <= i < |picked| :: Dist(At(g, c.id), At(g, picked[i].id)) < c.distance
  }

  function Diverse(g: Graph, picked: seq<Hit>, candidates: seq<Hit>, m: nat): seq<Hit>
    decreases |candidates|
  {
    if candidates == [] then picked
    else if Crowded(g, picked, candidates[0]) then Diverse(g, picked, candidates[1..], m)
    else if |picked| + 1 == m then picked + [candidates[0]]
    else Diverse(g, picked + [candidates[0]], candidates[1..], m)
  }

  /** Up to `want` diverse neighbours for `id` on level `l`, linked both ways. */
  ghost function Connect(g: Graph, id: Id, l: nat, skip: set<Id>, want: nat, c: ValidConfig): Graph {
    LinkAll(g, id, Diverse(g, [], Closest(g, At(g, id), l, c.efConstruction, skip), want), l, c.m)
  }

  // ---------- Insert ----------

  ghost function ConnectDown(g: Graph, id: Id, l: int, c: ValidConfig): Graph
    decreases l + 1
  {
    if l < 0 then g else ConnectDown(Connect(g, id, l, {id}, c.m, c), id, l - 1, c)
  }

  ghost function Added(x: Index, id: Id, v: Vector, level: nat, c: ValidConfig): Index {
    var g := x.nodes[id := VNode(v, level, map[])];
    if x.nodes == map[] then Index(g, id, level)
    else
      var linked := ConnectDown(g, id, Min(level, x.maxLevel), c);
      if level > x.maxLevel then Index(linked, id, level) else Index(linked, x.entry, x.maxLevel)
  }

  ghost function Insert(x: Index, id: Id, v: Vector, level: nat, c: ValidConfig): Result<Index, IndexError> {
    if id == [] then Err(EmptyId)
    else if |v| != c.dimension then Err(WrongDimension)
    else if id in x.nodes then
      match Delete(x, id, c)
      case Ok(rest) => Ok(Added(rest, id, v, level, c))
      case Err(e) => Err(e)
    else Ok(Added(x, id, v, level, c))
  }

  // ---------- Delete ----------

  function Without(ids: seq<Id>, id: Id): seq<Id> {
    if ids == [] then []
    else (if ids[0] == id then [] else [ids[0]]) + Without(ids[1..], id)
  }

  function UnlinkNode(g: Graph, n: VNode, id: Id, m: nat): VNode {
    VNode(n.v, n.level, map l | l in n.neighbors :: Trimmed(g, n.v, Without(n.neighbors[l], id), m))
  }

  /** The graph without `id`, every remaining list without it too and trimmed again. */
  function Unlink(g: Graph, id: Id, m: nat): Graph {
    var rest := g - {id};
    map x | x in rest :: UnlinkNode(rest, rest[x], id, m)
  }

  function LinkSet(g: Graph, id: Id, l: nat): set<Id> {
    set other | other in Links(g, id, l)
  }

  ghost function RepairLevel(g: Graph, id: Id, l: nat, c: ValidConfig): Graph {
    var need := c.m - |Links(g, id, l)|;
    if need <= 0 then g else Connect(g, id, l, {id} + LinkSet(g, id, l), need, c)
  }

  ghost function Repair(g: Graph, id: Id, l: nat, top: nat, c: ValidConfig): Graph
    decreases top + 1 - l
  {
    if l > top then g else Repair(RepairLevel(g, id, l, c), id, l + 1, top, c)
  }

  ghost function RepairAll(g: Graph, ids: seq<Id>, c: ValidConfig): Graph
    decreases |ids|
  {
    if ids == [] then g else RepairAll(Repair(g, ids[0], 0, LevelOf(g, ids[0]), c), ids[1..], c)
  }

  /** The first node of the highest level in the list, above what is already chosen. */
  function PickEntry(g: Graph, ids: seq<Id>, entry: Id, maxLevel: int): (Id, int)
    decreases |ids|
  {
    if ids == [] then (entry, maxLevel)
    else if LevelOf(g, ids[0]) > maxLevel then PickEntry(g, ids[1..], ids[0], LevelOf(g, ids[0]))
    else PickEntry(g, ids[1..], entry, maxLevel)
  }

  ghost function SortedIds(g: Graph): seq<Id> {
    SortSet(AtMost, g.Keys)
  }

  ghost function Removed(x: Index, id: Id, c: ValidConfig): Index {
    var g := Unlink(x.nodes, id, c.m);
    var repaired := RepairAll(g, SortedIds(g), c);
    if x.entry == id then
      var (entry, maxLevel) := PickEntry(repaired, SortedIds(g), [], -1);
      Index(repaired, entry, maxLevel)
    else Index(repaired, x.entry, x.maxLevel)
  }

  ghost function Delete(x: Index, id: Id, c: ValidConfig): Result<Index, IndexError> {
    if id !in x.nodes then Err(NotFound) else Ok(Removed(x, id, c))
  }

  // ---------- What the pieces return ----------

  /** Trimming keeps the `m` closest, and something whenever there was something. */
  lemma TrimmedSpec(g: Graph, v: Vector, ids: seq<Id>, m: nat)
    ensures |Trimmed(g, v, ids, m)| == if |ids| <= m then |ids| else m
    ensures forall x | x in Trimmed(g, v, ids, m) :: x in ids
    ensures |ids| <= m ==> multiset(Trimmed(g, v, ids, m)) == multiset(ids)
  {
    hide HitsOf, Nearer, Sort;
    var hits := HitsOf(g, v, ids);
    var sorted := Sort(Nearer, hits);
    SortElements(Nearer, hits);
    forall x | x in Trimmed(g, v, ids, m) ensures x in ids {
      var i :| 0 <= i < |Cut(sorted, m)| && x == Cut(sorted, m)[i].id;
      assert sorted[i] in hits;
    }
    if |ids| <= m {
      IdMultisets(sorted, hits);
      assert IdsOf(hits) == ids;
    }
  }

  lemma TakeOut<T>(s: seq<T>, i: nat)
    requires i < |s|
    ensures multiset(s[..i] + s[i + 1..]) == multiset(s) - multiset{s[i]}
  {
    assert s == s[..i] + [s[i]] + s[i + 1..];
  }

  lemma IdsWithout(a: seq<Hit>, i: nat)
    requires i < |a|
    ensures a[i].id in multiset(IdsOf(a))
    ensures multiset(IdsOf(a[..i] + a[i + 1..])) == multiset(IdsOf(a)) - multiset{a[i].id}
  {
    TakeOut(IdsOf(a), i);
    assert IdsOf(a[..i] + a[i + 1..]) == IdsOf(a)[..i] + IdsOf(a)[i + 1..];
  }

  /** The same hits in another order carry the same IDs. */
  lemma {:induction false} IdMultisets(a: seq<Hit>, b: seq<Hit>)
    requires multiset(a) == multiset(b)
    ensures multiset(IdsOf(a)) == multiset(IdsOf(b))
    decreases |a|
  {
    if a == [] {
      assert |multiset(b)| == 0;
    } else {
      assert a[0] in multiset(b);
      var j :| 0 <= j < |b| && b[j] == a[0];
      var s, t := a[..0] + a[1..], b[..j] + b[j + 1..];
      SameWithout(a, b, j, s, t);
      IdMultisets(s, t);
      SamePlus(multiset(IdsOf(a)), multiset(IdsOf(b)), a[0].id) by {
        IdsWithout(a, 0);
        IdsWithout(b, j);
      }
    }
  }

  lemma SameWithout<T>(a: seq<T>, b: seq<T>, j: nat, s: seq<T>, t: seq<T>)
    requires a != [] && j < |b| && b[j] == a[0] && multiset(a) == multiset(b)
    requires s == a[..0] + a[1..] && t == b[..j] + b[j + 1..]
    ensures multiset(s) == multiset(t) && |s| < |a|
  {
    TakeOut(a, 0);
    TakeOut(b, j);
  }

  lemma SamePlus<T>(a: multiset<T>, b: multiset<T>, x: T)
    requires x in a && x in b && a - multiset{x} == b - multiset{x}
    ensures a == b
  {
    assert a == (a - multiset{x}) + multiset{x};
    assert b == (b - multiset{x}) + multiset{x};
  }

  /** What trimming drops is no closer to the owner than what it keeps. */
  lemma TrimmedKeepsClosest(g: Graph, v: Vector, ids: seq<Id>, m: nat, kept: Id, dropped: Id)
    requires kept in Trimmed(g, v, ids, m) && dropped in ids && dropped !in Trimmed(g, v, ids, m)
    ensures Nearer(HitOf(g, v, kept), HitOf(g, v, dropped))
  {
    hide Nearer, Sort, HitOf;
    var hits := HitsOf(g, v, ids);
    var sorted := Sort(Nearer, hits);
    NearerTotal();
    SortSorts(Nearer, hits);
    SortElements(Nearer, hits);
    var d :| 0 <= d < |ids| && ids[d] == dropped;
    assert hits[d] in sorted;
    var j :| 0 <= j < |sorted| && sorted[j] == hits[d];
    var i :| 0 <= i < |Cut(sorted, m)| && Cut(sorted, m)[i].id == kept;
    SortedAreHits(g, v, ids, i);
    SortedAreHits(g, v, ids, j);
    if j < |Cut(sorted, m)| {
      assert IdsOf(Cut(sorted, m))[j] == sorted[j].id;
      assert HitOf(g, v, dropped).id == dropped by { HitNames(g, v, dropped); }
    }
    assert i < j;
  }

  lemma HitNames(g: Graph, v: Vector, id: Id)
    ensures HitOf(g, v, id).id == id
  {
  }

  lemma SortedAreHits(g: Graph, v: Vector, ids: seq<Id>, i: nat)
    requires i < |ids|
    ensures var h := Sort(Nearer, HitsOf(g, v, ids))[i]; h == HitOf(g, v, h.id)
  {
    var hits := HitsOf(g, v, ids);
    SortElements(Nearer, hits);
    assert Sort(Nearer, hits)[i] in hits;
  }

  /** `closest` returns the nearest eligible nodes, in order and without repeats. */
  lemma ClosestSpec(g: Graph, q: Vector, l: nat, limit: nat, skip: set<Id>)
    ensures var r := Closest(g, q, l, limit, skip);
      && |r| == Min(limit, |Eligible(g, q, l, skip)|)
      && SortedBy(Nearer, r)
      && (forall h | h in r :: h in Eligible(g, q, l, skip))
      && (forall h, other | h in r && other in Eligible(g, q, l, skip) && other !in r :: Nearer(h, other))
  {
    hide Nearer, HitOf, Eligible;
    NearerTotal();
    SortSetSorts(Nearer, Eligible(g, q, l, skip));
    CutOfSorted(Nearer, SortSet(Nearer, Eligible(g, q, l, skip)), limit);
  }

  lemma CutOfSorted<T(!new)>(le: (T, T) -> bool, s: seq<T>, limit: nat)
    requires SortedBy(le, s)
    ensures SortedBy(le, Cut(s, limit))
    ensures forall x | x in Cut(s, limit) :: x in s
    ensures forall x, y | x in Cut(s, limit) && y in s && y !in Cut(s, limit) :: le(x, y)
  {
    var r := Cut(s, limit);
    assert forall k | 0 <= k < |r| :: s[k] == r[k];
    forall x, y | x in r && y in s && y !in r ensures le(x, y) {
      var i :| 0 <= i < |r| && r[i] == x;
      var j :| 0 <= j < |s| && s[j] == y;
      assert s[i] == x && i < j;
    }
  }

  lemma ClosestDistinct(g: Graph, q: Vector, l: nat, limit: nat, skip: set<Id>)
    ensures var r := Closest(g, q, l, limit, skip); forall i, j | 0 <= i < j < |r| :: r[i].id != r[j].id
  {
    hide Nearer, HitOf, Eligible;
    var r := Closest(g, q, l, limit, skip);
    forall i, j | 0 <= i < j < |r| ensures r[i].id != r[j].id {
      assert r[i] in Eligible(g, q, l, skip) && r[j] in Eligible(g, q, l, skip) && r[i] != r[j];
      EligibleNames(g, q, l, skip, r[i]);
      EligibleNames(g, q, l, skip, r[j]);
    }
  }

  lemma EligibleNames(g: Graph, q: Vector, l: nat, skip: set<Id>, h: Hit)
    requires h in Eligible(g, q, l, skip)
    ensures h.id in g && h.id !in skip && g[h.id].level >= l && h == HitOf(g, q, h.id)
  {
  }

  /** The picked neighbours are candidates, at most `m`, and the closest candidate is always one. */
  lemma {:induction false} DiverseSpec(g: Graph, picked: seq<Hit>, candidates: seq<Hit>, m: nat)
    requires |picked| < m
    ensures var r := Diverse(g, picked, candidates, m);
      && |picked| <= |r| <= m && r[..|picked|] == picked
      && (forall i | |picked| <= i < |r| :: r[i] in candidates)
      && (candidates != [] && picked == [] ==> r != [] && r[0] == candidates[0])
    decreases |candidates|
  {
    hide Crowded;
    if candidates != [] {
      var c, rest := candidates[0], candidates[1..];
      if picked == [] {
        NobodyCrowds(g, c);
      }
      if Crowded(g, picked, c) {
        DiverseSpec(g, picked, rest, m);
      } else if |picked| + 1 < m {
        DiverseSpec(g, picked + [c], rest, m);
        var r := Diverse(g, picked + [c], rest, m);
        assert r[|picked|] == (picked + [c])[|picked|] == c;
        assert r[..|picked|] == (picked + [c])[..|picked|] == picked;
      }
    }
  }

  /** None picked was crowded by those before it, and none not crowded was passed over below the limit. */
  lemma {:induction false} DiverseSpreads(g: Graph, picked: seq<Hit>, candidates: seq<Hit>, m: nat)
    requires |picked| < m
    ensures var r := Diverse(g, picked, candidates, m);
      && |picked| <= |r| && r[..|picked|] == picked
      && (forall i | |picked| <= i < |r| :: !Crowded(g, r[..i], r[i]))
      && (|r| < m ==> forall c | c in candidates :: c in r || Crowded(g, r, c))
    decreases |candidates|
  {
    hide Crowded;
    if candidates != [] {
      var c, rest := candidates[0], candidates[1..];
      DiverseSpec(g, picked, candidates, m);
      var r := Diverse(g, picked, candidates, m);
      if Crowded(g, picked, c) {
        DiverseSpreads(g, picked, rest, m);
        CrowdedStays(g, picked, r, c);
      } else if |picked| + 1 < m {
        DiverseSpreads(g, picked + [c], rest, m);
        assert r[|picked|] == (picked + [c])[|picked|] == c;
      }
    }
  }

  lemma NobodyCrowds(g: Graph, c: Hit)
    ensures !Crowded(g, [], c)
  {
  }

  lemma CrowdedStays(g: Graph, picked: seq<Hit>, r: seq<Hit>, c: Hit)
    requires Crowded(g, picked, c) && |picked| <= |r| && r[..|picked|] == picked
    ensures Crowded(g, r, c)
  {
    var i :| 0 <= i < |picked| && Dist(At(g, c.id), At(g, picked[i].id)) < c.distance;
    assert r[i] == r[..|picked|][i];
  }
}
