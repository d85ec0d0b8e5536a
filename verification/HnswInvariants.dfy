/** What every sequence of inserts, replaces and deletes keeps of the graph (internal/ann/hnsw.go:88-144, 228-273). */
module HnswInvariants {
  import opened ByteStrings
  import opened HnswGraph
  import opened Sorting
  import opened Vectors
  import opened Wrappers

  // ---------- The invariants ----------

  ghost predicate SameNodes(g: Graph, r: Graph) {
    && r.Keys == g.Keys
    && (forall x | x in g :: r[x].v == g[x].v && r[x].level == g[x].level)
  }

  /** Two different nodes that both reach the level. */
  predicate Pair(g: Graph, x: Id, l: nat, other: Id) {
    x in g && l <= g[x].level && other in g && other != x && g[other].level >= l
  }

  /** A listed neighbour exists, is another node, and both ends reach the level. */
  ghost predicate LinksOk(g: Graph) {
    forall x: Id, l: nat, other: Id | other in Links(g, x, l) :: Pair(g, x, l, other)
  }

  ghost predicate Short(g: Graph, m: nat) {
    forall x: Id, l: nat :: |Links(g, x, l)| <= m
  }

  /** Some other node reaches the level. */
  ghost predicate HasPeer(g: Graph, x: Id, l: nat) {
    exists other :: other in g && other != x && g[other].level >= l
  }

  ghost predicate Linked(g: Graph, x: Id, l: nat) {
    x in g && l <= g[x].level && HasPeer(g, x, l) ==> Links(g, x, l) != []
  }

  /** No node is alone on a level it shares with another node. */
  ghost predicate NoneIsolated(g: Graph) {
    forall x: Id, l: nat :: Linked(g, x, l)
  }

  ghost predicate EntryOk(x: Index) {
    if x.nodes == map[] then x.entry == [] && x.maxLevel == -1
    else
      && x.entry in x.nodes && x.nodes[x.entry].level == x.maxLevel
      && (forall id | id in x.nodes :: x.nodes[id].level <= x.maxLevel)
  }

  ghost predicate NodesOk(g: Graph, dimension: int) {
    [] !in g && forall x | x in g :: |g[x].v| == dimension
  }

  ghost predicate WellFormed(x: Index, c: Config) {
    c.Valid() && NodesOk(x.nodes, c.dimension) && LinksOk(x.nodes) && Short(x.nodes, c.m) && EntryOk(x)
  }

  // ---------- One link ----------

  lemma SetLinksEffect(g: Graph, id: Id, l: nat, ids: seq<Id>)
    requires id in g
    ensures SameNodes(g, SetLinks(g, id, l, ids))
    ensures Links(SetLinks(g, id, l, ids), id, l) == ids
    ensures forall x: Id, k: nat | x != id || k != l :: Links(SetLinks(g, id, l, ids), x, k) == Links(g, x, k)
  {
  }

  lemma SameTrimmed(g: Graph, r: Graph, v: Vector, ids: seq<Id>, m: nat)
    requires SameNodes(g, r)
    ensures Trimmed(r, v, ids, m) == Trimmed(g, v, ids, m)
  {
    hide Sort, Nearer;
    assert HitsOf(r, v, ids) == HitsOf(g, v, ids);
  }

  /** Linking appends to one list, and appends to the other and trims it; every other list stays. */
  lemma LinkEffect(g: Graph, a: Id, b: Id, l: nat, m: nat)
    requires a in g && b in g && a != b
    ensures var r := Link(g, a, b, l, m);
      && SameNodes(g, r)
      && Links(r, a, l) == Links(g, a, l) + [b]
      && Links(r, b, l) == Trimmed(g, At(g, b), Links(g, b, l) + [a], m)
      && (forall x: Id, k: nat | k != l || (x != a && x != b) :: Links(r, x, k) == Links(g, x, k))
  {
    hide SetLinks, Links, Trimmed;
    SetLinksEffect(g, a, l, Links(g, a, l) + [b]);
    var forth := SetLinks(g, a, l, Links(g, a, l) + [b]);
    SetLinksEffect(forth, b, l, Links(forth, b, l) + [a]);
    var back := SetLinks(forth, b, l, Links(forth, b, l) + [a]);
    SetLinksEffect(back, b, l, Trimmed(back, At(back, b), Links(back, b, l), m));
    SameTrimmed(g, back, At(g, b), Links(g, b, l) + [a], m);
  }

  /** What rewiring on one level keeps: the nodes, sound links, and every list that was not empty. */
  ghost predicate Keeps(g: Graph, r: Graph) {
    && SameNodes(g, r)
    && LinksOk(r)
    && (forall x: Id, k: nat | Links(g, x, k) != [] :: Links(r, x, k) != [])
  }

  /** Only lists of level `l` changed. */
  ghost predicate OnlyLevel(g: Graph, r: Graph, l: nat) {
    forall x: Id, k: nat | k != l :: Links(r, x, k) == Links(g, x, k)
  }

  ghost predicate ShortBut(g: Graph, m: nat, a: Id, l: nat) {
    forall x: Id, k: nat | x != a || k != l :: |Links(g, x, k)| <= m
  }

  lemma LinkKeeps(g: Graph, a: Id, b: Id, l: nat, m: nat)
    requires LinksOk(g) && m > 0 && ShortBut(g, m, a, l)
    requires a in g && l <= g[a].level && b in g && b != a && l <= g[b].level
    ensures var r := Link(g, a, b, l, m); Keeps(g, r) && OnlyLevel(g, r, l) && ShortBut(r, m, a, l) && Links(r, b, l) != []
  {
    hide Link, Links, Trimmed;
    LinkEffect(g, a, b, l, m);
    TrimmedSpec(g, At(g, b), Links(g, b, l) + [a], m);
    var r := Link(g, a, b, l, m);
    forall x: Id, k: nat, other: Id | other in Links(r, x, k)
      ensures Pair(r, x, k, other)
    {
      if k == l && x == b {
        assert other in Links(g, b, l) + [a];
      }
    }
  }

  lemma KeepsChain(g: Graph, r: Graph, s: Graph)
    requires Keeps(g, r) && Keeps(r, s)
    ensures Keeps(g, s)
  {
  }

  ghost predicate Partners(g: Graph, a: Id, hits: seq<Hit>, l: nat) {
    a in g && l <= g[a].level &&
    forall h | h in hits :: h.id in g && h.id != a && l <= g[h.id].level
  }

  lemma {:induction false} LinkAllKeeps(g: Graph, a: Id, hits: seq<Hit>, l: nat, m: nat)
    requires LinksOk(g) && m > 0 && ShortBut(g, m, a, l) && Partners(g, a, hits, l)
    ensures var r := LinkAll(g, a, hits, l, m);
      && Keeps(g, r) && OnlyLevel(g, r, l) && ShortBut(r, m, a, l)
      && |Links(r, a, l)| == |Links(g, a, l)| + |hits|
      && (forall h | h in hits :: Links(r, h.id, l) != [])
    decreases |hits|
  {
    hide Links, Link, ShortBut, LinksOk;
    if hits != [] {
      var g' := Link(g, a, hits[0].id, l, m);
      LinkEffect(g, a, hits[0].id, l, m);
      LinkKeeps(g, a, hits[0].id, l, m);
      LinkAllKeeps(g', a, hits[1..], l, m);
      KeepsChain(g, g', LinkAll(g', a, hits[1..], l, m));
      var r := LinkAll(g, a, hits, l, m);
      forall h | h in hits ensures Links(r, h.id, l) != [] {
        assert h == hits[0] || h in hits[1..];
      }
    }
  }

  // ---------- Connecting a node ----------

  lemma ConnectKeeps(g: Graph, id: Id, l: nat, skip: set<Id>, want: nat, c: ValidConfig)
    requires LinksOk(g) && Short(g, c.m) && id in g && l <= g[id].level && id in skip
    requires 0 < want && |Links(g, id, l)| + want <= c.m
    ensures var r := Connect(g, id, l, skip, want, c);
      && Keeps(g, r) && OnlyLevel(g, r, l) && Short(r, c.m)
      && (forall y | y in g && y !in skip && g[y].level >= l :: Links(r, id, l) != [])
  {
    hide Links, LinkAll, Diverse, Closest, Eligible, LinksOk, Keeps;
    var q := At(g, id);
    var candidates := Closest(g, q, l, c.efConstruction, skip);
    var picked := Diverse(g, [], candidates, want);
    PickedPartners(g, id, l, skip, want, c);
    LinkAllKeeps(g, id, picked, l, c.m);
    forall y | y in g && y !in skip && g[y].level >= l ensures picked != [] {
      PickedSome(g, q, l, skip, want, c, y);
    }
  }

  lemma PickedPartners(g: Graph, id: Id, l: nat, skip: set<Id>, want: nat, c: ValidConfig)
    requires id in g && l <= g[id].level && id in skip && 0 < want
    ensures var picked := Diverse(g, [], Closest(g, At(g, id), l, c.efConstruction, skip), want);
      |picked| <= want && Partners(g, id, picked, l)
  {
    hide Diverse, Closest, Eligible, Crowded;
    var q := At(g, id);
    var candidates := Closest(g, q, l, c.efConstruction, skip);
    ClosestSpec(g, q, l, c.efConstruction, skip);
    DiverseSpec(g, [], candidates, want);
    var picked := Diverse(g, [], candidates, want);
    forall h | h in picked ensures h.id in g && h.id != id && l <= g[h.id].level {
      var i :| 0 <= i < |picked| && picked[i] == h;
      EligibleNames(g, q, l, skip, h);
    }
  }

  /** The closest eligible node is always picked, so some node is whenever one is eligible. */
  lemma PickedSome(g: Graph, q: Vector, l: nat, skip: set<Id>, want: nat, c: ValidConfig, y: Id)
    requires 0 < want && y in g && y !in skip && g[y].level >= l
    ensures var candidates := Closest(g, q, l, c.efConstruction, skip);
      && candidates != []
      && candidates[0] in Eligible(g, q, l, skip)
      && candidates[0] in Diverse(g, [], candidates, want)
  {
    hide Diverse, Closest, Crowded;
    ClosestSpec(g, q, l, c.efConstruction, skip);
    assert HitOf(g, q, y) in Eligible(g, q, l, skip);
    DiverseSpec(g, [], Closest(g, q, l, c.efConstruction, skip), want);
  }

  /** A node that is the only one eligible is linked to. */
  lemma ConnectReachesOnly(g: Graph, id: Id, l: nat, skip: set<Id>, want: nat, c: ValidConfig, y: Id)
    requires LinksOk(g) && Short(g, c.m) && id in g && l <= g[id].level && id in skip
    requires 0 < want && |Links(g, id, l)| + want <= c.m
    requires y in g && y !in skip && g[y].level >= l
    requires forall x | x in g && x !in skip && g[x].level >= l :: x == y
    ensures Links(Connect(g, id, l, skip, want, c), y, l) != []
  {
    hide Links, LinkAll, Diverse, Closest, Eligible, LinksOk, Keeps;
    var q := At(g, id);
    var candidates := Closest(g, q, l, c.efConstruction, skip);
    PickedPartners(g, id, l, skip, want, c);
    PickedSome(g, q, l, skip, want, c, y);
    EligibleNames(g, q, l, skip, candidates[0]);
    LinkAllKeeps(g, id, Diverse(g, [], candidates, want), l, c.m);
  }

  // ---------- Insert ----------

  /** The new node has no link on the level yet, and each other node there has one or is there alone. */
  ghost predicate Ready(g: Graph, id: Id, k: nat) {
    && Links(g, id, k) == []
    && forall x | x in g && x != id && g[x].level >= k ::
         Links(g, x, k) != [] || (forall y | y in g && y != id && g[y].level >= k :: y == x)
  }

  lemma ConnectHere(g: Graph, id: Id, l: nat, c: ValidConfig)
    requires LinksOk(g) && Short(g, c.m) && id in g && l <= g[id].level && Ready(g, id, l)
    ensures var r := Connect(g, id, l, {id}, c.m, c);
      Keeps(g, r) && OnlyLevel(g, r, l) && Short(r, c.m) && (forall x: Id :: Linked(r, x, l))
  {
    hide Links, Connect, LinksOk, Short;
    ConnectKeeps(g, id, l, {id}, c.m, c);
    var r := Connect(g, id, l, {id}, c.m, c);
    forall x: Id ensures Linked(r, x, l) {
      if x in r && l <= r[x].level && HasPeer(r, x, l) {
        var y :| y in r && y != x && r[y].level >= l;
        if x != id && Links(g, x, l) == [] {
          ConnectReachesOnly(g, id, l, {id}, c.m, c, x);
        }
      }
    }
  }

  lemma LinkedKept(g: Graph, r: Graph, x: Id, k: nat)
    requires Keeps(g, r) && Linked(g, x, k)
    ensures Linked(r, x, k)
  {
    hide Links, LinksOk;
    if x in r && k <= r[x].level && HasPeer(r, x, k) {
      var y :| y in r && y != x && r[y].level >= k;
      assert y in g && g[y].level >= k;
    }
  }

  lemma ReadyKept(g: Graph, r: Graph, id: Id, l: nat, k: nat)
    requires SameNodes(g, r) && OnlyLevel(g, r, l) && k != l && Ready(g, id, k)
    ensures Ready(r, id, k)
  {
    hide Links;
  }

  lemma {:induction false} ConnectDownKeeps(g: Graph, id: Id, l: int, c: ValidConfig)
    requires LinksOk(g) && Short(g, c.m) && id in g && l <= g[id].level
    requires forall k: nat | k <= l :: Ready(g, id, k)
    ensures var r := ConnectDown(g, id, l, c);
      Keeps(g, r) && Short(r, c.m) && (forall x: Id, k: nat | k <= l :: Linked(r, x, k))
    decreases l + 1
  {
    hide Links, Connect, LinksOk, Short, Ready, OnlyLevel, Linked;
    if l >= 0 {
      var g' := Connect(g, id, l, {id}, c.m, c);
      ConnectHere(g, id, l, c);
      forall k: nat | k <= l - 1 ensures Ready(g', id, k) {
        ReadyKept(g, g', id, l, k);
      }
      ConnectDownKeeps(g', id, l - 1, c);
      var r := ConnectDown(g, id, l, c);
      KeepsChain(g, g', r);
      forall x: Id, k: nat | k <= l ensures Linked(r, x, k) {
        if k == l {
          LinkedKept(g', r, x, l);
        }
      }
    }
  }

  /** The graph with a new node that has no links. */
  function With(g: Graph, id: Id, v: Vector, level: nat): Graph {
    g[id := VNode(v, level, map[])]
  }

  lemma WithLinks(g: Graph, id: Id, v: Vector, level: nat)
    requires id !in g
    ensures forall x: Id, k: nat :: Links(With(g, id, v, level), x, k) == Links(g, x, k)
    ensures forall k: nat :: Links(g, id, k) == []
  {
  }

  lemma WithOk(g: Graph, id: Id, v: Vector, level: nat, m: nat)
    requires id !in g && LinksOk(g) && Short(g, m)
    ensures LinksOk(With(g, id, v, level)) && Short(With(g, id, v, level), m)
  {
    WithLinks(g, id, v, level);
    hide Links;
  }

  lemma WithReady(g: Graph, id: Id, v: Vector, level: nat, k: nat)
    requires id !in g && NoneIsolated(g)
    ensures Ready(With(g, id, v, level), id, k)
  {
    WithLinks(g, id, v, level);
    hide Links;
    var r := With(g, id, v, level);
    forall x | x in r && x != id && r[x].level >= k
      ensures Links(r, x, k) != [] || (forall y | y in r && y != id && r[y].level >= k :: y == x)
    {
      assert Linked(g, x, k);
    }
  }

  /** Above the levels the new node was connected on, it shares none. */
  lemma WithLinkedAbove(g: Graph, id: Id, v: Vector, level: nat, maxLevel: int, k: nat, x: Id)
    requires id !in g && NoneIsolated(g) && (forall y | y in g :: g[y].level <= maxLevel)
    requires k > level || k > maxLevel
    ensures Linked(With(g, id, v, level), x, k)
  {
    WithLinks(g, id, v, level);
    hide Links;
    var r := With(g, id, v, level);
    if x in r && k <= r[x].level && HasPeer(r, x, k) {
      var y :| y in r && y != x && r[y].level >= k;
      assert Linked(g, x, k);
    }
  }

  /** A new node leaves a well-formed graph well-formed, and leaves no node isolated. */
  lemma AddedKeeps(x: Index, id: Id, v: Vector, level: nat, c: ValidConfig)
    requires WellFormed(x, c) && NoneIsolated(x.nodes)
    requires id !in x.nodes && id != [] && |v| == c.dimension
    ensures WellFormed(Added(x, id, v, level, c), c)
    ensures NoneIsolated(Added(x, id, v, level, c).nodes)
    ensures SameNodes(With(x.nodes, id, v, level), Added(x, id, v, level, c).nodes)
  {
    hide Links, ConnectDown, LinksOk, Short, Ready, Linked;
    var g := With(x.nodes, id, v, level);
    WithOk(x.nodes, id, v, level, c.m);
    if x.nodes == map[] {
      forall y: Id, k: nat ensures Linked(g, y, k) {
        OneNodeLinked(id, v, level, y, k);
      }
    } else {
      var l := Min(level, x.maxLevel);
      forall k: nat | k <= l ensures Ready(g, id, k) {
        WithReady(x.nodes, id, v, level, k);
      }
      ConnectDownKeeps(g, id, l, c);
      var r := ConnectDown(g, id, l, c);
      forall y: Id, k: nat ensures Linked(r, y, k) {
        if k > l {
          WithLinkedAbove(x.nodes, id, v, level, x.maxLevel, k, y);
          LinkedKept(g, r, y, k);
        }
      }
    }
  }

  lemma OneNodeLinked(id: Id, v: Vector, level: nat, y: Id, k: nat)
    ensures Linked(With(map[], id, v, level), y, k)
  {
  }

  // ---------- Delete ----------

  lemma {:induction false} WithoutSpec(ids: seq<Id>, id: Id)
    ensures |Without(ids, id)| <= |ids|
    ensures forall x :: x in Without(ids, id) <==> x in ids && x != id
  {
    if ids != [] {
      WithoutSpec(ids[1..], id);
      forall x ensures x in Without(ids, id) <==> x in ids && x != id {
        assert x in ids <==> x == ids[0] || x in ids[1..];
      }
    }
  }

  lemma UnlinkNodes(g: Graph, id: Id, m: nat)
    ensures SameNodes(g - {id}, Unlink(g, id, m))
  {
  }

  lemma UnlinkLists(g: Graph, id: Id, m: nat, x: Id, l: nat)
    ensures var r := Unlink(g, id, m);
      |Links(r, x, l)| <= m && (forall other | other in Links(r, x, l) :: other in Links(g, x, l) && x != id && other != id)
  {
    hide Trimmed;
    var rest := g - {id};
    if x in rest && l in rest[x].neighbors {
      TrimmedSpec(rest, rest[x].v, Without(rest[x].neighbors[l], id), m);
      WithoutSpec(rest[x].neighbors[l], id);
    }
  }

  /** Unlinking leaves the other nodes, and no trace of the deleted one. */
  lemma UnlinkOk(g: Graph, id: Id, m: nat)
    requires LinksOk(g)
    ensures var r := Unlink(g, id, m); SameNodes(g - {id}, r) && LinksOk(r) && Short(r, m)
  {
    hide Trimmed, Unlink, Links;
    var r := Unlink(g, id, m);
    UnlinkNodes(g, id, m);
    forall x: Id, l: nat ensures |Links(r, x, l)| <= m {
      UnlinkLists(g, id, m, x, l);
    }
    forall x: Id, l: nat, other: Id | other in Links(r, x, l)
      ensures Pair(r, x, l, other)
    {
      UnlinkLists(g, id, m, x, l);
      assert other in Links(g, x, l);
      assert Pair(g, x, l, other);
      assert x in g - {id} && other in g - {id};
    }
  }

  lemma RepairLevelKeeps(g: Graph, id: Id, l: nat, c: ValidConfig)
    requires LinksOk(g) && Short(g, c.m) && id in g && l <= g[id].level
    ensures var r := RepairLevel(g, id, l, c); Keeps(g, r) && Short(r, c.m) && Linked(r, id, l)
  {
    hide Connect, Links, LinksOk;
    var r := RepairLevel(g, id, l, c);
    var need := c.m - |Links(g, id, l)|;
    if need > 0 {
      var skip := {id} + LinkSet(g, id, l);
      ConnectKeeps(g, id, l, skip, need, c);
      if HasPeer(g, id, l) {
        var y :| y in g && y != id && g[y].level >= l;
        if y in LinkSet(g, id, l) {
          assert Links(g, id, l) != [];
        }
      } else {
        assert !HasPeer(r, id, l);
      }
    }
  }

  lemma {:induction false} RepairKeeps(g: Graph, id: Id, l: nat, top: nat, c: ValidConfig)
    requires LinksOk(g) && Short(g, c.m) && id in g && top == g[id].level && l <= top + 1
    ensures var r := Repair(g, id, l, top, c);
      Keeps(g, r) && Short(r, c.m) && (forall k: nat | l <= k <= top :: Linked(r, id, k))
    decreases top + 1 - l
  {
    hide RepairLevel, Links, LinksOk, Linked, Short;
    if l <= top {
      var g' := RepairLevel(g, id, l, c);
      RepairLevelKeeps(g, id, l, c);
      RepairKeeps(g', id, l + 1, top, c);
      var r := Repair(g', id, l + 1, top, c);
      KeepsChain(g, g', r);
      LinkedKept(g', r, id, l);
    }
  }

  lemma {:induction false} RepairAllKeeps(g: Graph, ids: seq<Id>, c: ValidConfig)
    requires LinksOk(g) && Short(g, c.m) && (forall id | id in ids :: id in g)
    ensures var r := RepairAll(g, ids, c);
      Keeps(g, r) && Short(r, c.m) && (forall id: Id, k: nat | id in ids :: Linked(r, id, k))
    decreases |ids|
  {
    hide Repair, Links, LinksOk, Short, Linked;
    if ids != [] {
      var id, rest := ids[0], ids[1..];
      var g' := Repair(g, id, 0, LevelOf(g, id), c);
      RepairKeeps(g, id, 0, LevelOf(g, id), c);
      RepairAllKeeps(g', rest, c);
      var r := RepairAll(g', rest, c);
      KeepsChain(g, g', r);
      forall x: Id, k: nat | x in ids ensures Linked(r, x, k) {
        if x !in rest {
          assert x == id;
          LinkedAbove(g', id, k);
          LinkedKept(g', r, id, k);
        }
      }
    }
  }

  lemma LinkedAbove(g: Graph, x: Id, k: nat)
    requires x in g && (k <= g[x].level ==> Linked(g, x, k))
    ensures Linked(g, x, k)
  {
  }

  /** The new entry is the first node of the highest level, if that is above the start. */
  lemma {:induction false} PickEntrySpec(g: Graph, ids: seq<Id>, entry: Id, maxLevel: int)
    ensures var (e, top) := PickEntry(g, ids, entry, maxLevel);
      && top >= maxLevel
      && (forall id | id in ids :: LevelOf(g, id) <= top)
      && (if top == maxLevel then e == entry
          else exists i | 0 <= i < |ids| :: ids[i] == e && LevelOf(g, e) == top && (forall j | 0 <= j < i :: LevelOf(g, ids[j]) < top))
    decreases |ids|
  {
    hide LevelOf;
    if ids != [] {
      var here := LevelOf(g, ids[0]) > maxLevel;
      var e0, top0 := if here then ids[0] else entry, if here then LevelOf(g, ids[0]) else maxLevel;
      PickEntrySpec(g, ids[1..], e0, top0);
      var (e, top) := PickEntry(g, ids[1..], e0, top0);
      if top != top0 {
        var i :| 0 <= i < |ids[1..]| && ids[1..][i] == e && LevelOf(g, e) == top && (forall j | 0 <= j < i :: LevelOf(g, ids[1..][j]) < top);
        assert ids[i + 1] == e;
        forall j | 0 <= j < i + 1 ensures LevelOf(g, ids[j]) < top {
          if j > 0 {
            assert ids[j] == ids[1..][j - 1];
          }
        }
      }
    }
  }

  /** Deleting the entry elects the node of the highest level, the lowest ID on ties. */
  lemma EntryChosen(g: Graph, ids: set<Id>)
    requires ids == g.Keys && g != map[]
    ensures var (e, top) := PickEntry(g, SortSet(AtMost, ids), [], -1);
      && e in g && g[e].level == top
      && (forall id | id in g :: g[id].level <= top)
      && (forall id | id in g && g[id].level == top :: AtMost(e, id))
  {
    hide AtMost, SortSet, PickEntry;
    var s := SortSet(AtMost, ids);
    PickEntrySpec(g, s, [], -1);
    var (e, top) := PickEntry(g, s, [], -1);
    AtMostTotal();
    SortSetSorts(AtMost, ids);
    var some :| some in g;
    assert some in s;
    assert LevelOf(g, some) >= 0;
    var i :| 0 <= i < |s| && s[i] == e && LevelOf(g, e) == top && (forall j | 0 <= j < i :: LevelOf(g, s[j]) < top);
    forall id | id in g && g[id].level == top ensures AtMost(e, id) {
      var j :| 0 <= j < |s| && s[j] == id;
      assert j >= i;
      if j == i {
        assert AtMost(e, id) || AtMost(id, e);
      }
    }
  }

  /** Unlinking and repairing leaves the other nodes, soundly linked and nobody isolated. */
  lemma RepairedOk(g0: Graph, id: Id, c: ValidConfig)
    requires LinksOk(g0)
    ensures var g := Unlink(g0, id, c.m);
      var r := RepairAll(g, SortedIds(g), c);
      SameNodes(g0 - {id}, g) && SameNodes(g, r) && LinksOk(r) && Short(r, c.m) && NoneIsolated(r)
  {
    hide Unlink, RepairAll, Links, LinksOk, Short, Linked, AtMost;
    var g := Unlink(g0, id, c.m);
    UnlinkOk(g0, id, c.m);
    RepairAllKeeps(g, SortedIds(g), c);
    var r := RepairAll(g, SortedIds(g), c);
    forall y: Id, k: nat ensures Linked(r, y, k) {
      if y !in r {
        AbsentLinked(r, y, k);
      }
    }
  }

  /** Deleting a node leaves a well-formed graph with nobody isolated, whatever it was before. */
  lemma RemovedKeeps(x: Index, id: Id, c: ValidConfig)
    requires WellFormed(x, c) && id in x.nodes
    ensures WellFormed(Removed(x, id, c), c)
    ensures NoneIsolated(Removed(x, id, c).nodes)
    ensures SameNodes(x.nodes - {id}, Removed(x, id, c).nodes)
  {
    hide Unlink, RepairAll, PickEntry, LinksOk, Short, NoneIsolated, EntryOk, SortedIds;
    var g := Unlink(x.nodes, id, c.m);
    RepairedOk(x.nodes, id, c);
    RemovedEntry(x, id, c, g, RepairAll(g, SortedIds(g), c));
  }

  lemma AbsentLinked(g: Graph, y: Id, k: nat)
    requires y !in g
    ensures Linked(g, y, k)
  {
  }

  lemma RemovedEntry(x: Index, id: Id, c: ValidConfig, g: Graph, r: Graph)
    requires EntryOk(x) && id in x.nodes
    requires g == Unlink(x.nodes, id, c.m) && r == RepairAll(g, SortedIds(g), c)
    requires SameNodes(x.nodes - {id}, g) && SameNodes(g, r)
    ensures EntryOk(Removed(x, id, c))
  {
    hide Unlink, RepairAll, PickEntry, AtMost;
    if x.entry == id {
      if r == map[] {
        assert g.Keys == {};
        NoEntry(r);
      } else {
        EntryChosen(r, g.Keys);
      }
    } else {
      assert x.entry in r;
    }
  }

  lemma NoEntry(r: Graph)
    requires r.Keys == {}
    ensures PickEntry(r, SortSet(AtMost, r.Keys), [], -1) == ([], -1)
  {
    assert SortSet(AtMost, r.Keys) == [];
  }

  // ---------- Whole histories ----------

  datatype Op = Put(id: Id, v: Vector, level: nat) | Drop(id: Id)

  /** A failing operation changes nothing. */
  ghost function Apply(x: Index, op: Op, c: ValidConfig): Index {
    var result :=
      match op
      case Put(id, v, level) => Insert(x, id, v, level, c)
      case Drop(id) => Delete(x, id, c);
    if result.Ok? then result.value else x
  }

  ghost function History(ops: seq<Op>, c: ValidConfig): Index {
    if ops == [] then EMPTY else Apply(History(ops[..|ops| - 1], c), ops[|ops| - 1], c)
  }

  /** What a plain map would hold after the operations. */
  function Contents(ops: seq<Op>, c: ValidConfig): map<Id, Vector> {
    if ops == [] then map[]
    else
      var before := Contents(ops[..|ops| - 1], c);
      match ops[|ops| - 1]
      case Put(id, v, _) => if id != [] && |v| == c.dimension then before[id := v] else before
      case Drop(id) => before - {id}
  }

  function Stored(g: Graph): map<Id, Vector> {
    map id | id in g :: g[id].v
  }

  /** An insert fails for a bad ID or vector only, so a replace never fails. */
  lemma InsertSucceedsExactly(x: Index, id: Id, v: Vector, level: nat, c: ValidConfig)
    ensures Insert(x, id, v, level, c).Ok? <==> id != [] && |v| == c.dimension
  {
  }

  lemma PutKeeps(x: Index, id: Id, v: Vector, level: nat, c: ValidConfig)
    requires WellFormed(x, c) && NoneIsolated(x.nodes) && id != [] && |v| == c.dimension
    ensures var r := Insert(x, id, v, level, c);
      r.Ok? && WellFormed(r.value, c) && NoneIsolated(r.value.nodes) && Stored(r.value.nodes) == Stored(x.nodes)[id := v]
  {
    hide Added, Removed, WellFormed, NoneIsolated;
    if id in x.nodes {
      var rest := Removed(x, id, c);
      RemovedKeeps(x, id, c);
      AddedKeeps(rest, id, v, level, c);
    } else {
      AddedKeeps(x, id, v, level, c);
    }
  }

  /**
   * After any inserts, replaces and deletes the graph is well-formed, nobody is isolated,
   * and it holds the vectors a plain map would.
   */
  lemma {:induction false} EveryHistory(ops: seq<Op>, c: ValidConfig)
    ensures WellFormed(History(ops, c), c)
    ensures NoneIsolated(History(ops, c).nodes)
    ensures Stored(History(ops, c).nodes) == Contents(ops, c)
  {
    hide Insert, Delete, Removed, WellFormed, NoneIsolated;
    if ops == [] {
      EmptyOk(c);
    } else {
      var x := History(ops[..|ops| - 1], c);
      EveryHistory(ops[..|ops| - 1], c);
      ApplyKeeps(x, ops[|ops| - 1], c);
    }
  }

  lemma EmptyOk(c: ValidConfig)
    ensures WellFormed(EMPTY, c) && NoneIsolated(EMPTY.nodes)
  {
  }

  lemma ApplyKeeps(x: Index, op: Op, c: ValidConfig)
    requires WellFormed(x, c) && NoneIsolated(x.nodes)
    ensures var r := Apply(x, op, c);
      && WellFormed(r, c) && NoneIsolated(r.nodes)
      && (op.Put? ==> Stored(r.nodes) == if op.id != [] && |op.v| == c.dimension then Stored(x.nodes)[op.id := op.v] else Stored(x.nodes))
      && (op.Drop? ==> Stored(r.nodes) == Stored(x.nodes) - {op.id})
  {
    hide Insert, Removed, WellFormed, NoneIsolated;
    match op
    case Put(id, v, level) =>
      InsertSucceedsExactly(x, id, v, level, c);
      if id != [] && |v| == c.dimension {
        PutKeeps(x, id, v, level, c);
      }
    case Drop(id) =>
      if id in x.nodes {
        RemovedKeeps(x, id, c);
      }
  }
}
