/**
 * The index as the source runs it: one object whose fields the methods change in place
 * (internal/ann/hnsw.go). Map iterations pick any order, so equality with the functions
 * of HnswGraph says that every replica builds the same graph.
 */
module Hnsw {
  import opened ByteStrings
  import opened HnswGraph
  import opened HnswInvariants
  import opened HnswSearch
  import opened Sorting
  import opened Vectors
  import opened Wrappers

  class HNSW {
    const c: ValidConfig
    var nodes: Graph
    var entry: Id
    var maxLevel: int

    ghost function State(): Index
      reads this
    {
      Index(nodes, entry, maxLevel)
    }

    constructor (c: ValidConfig)
      ensures this.c == c && State() == EMPTY
    {
      this.c := c;
      nodes, entry, maxLevel := map[], [], -1;
    }

    /** `NewHNSW`. */
    static method Create(c: Config) returns (r: Result<HNSW, IndexError>)
      ensures r.Ok? <==> c.Valid()
      ensures r.Ok? ==> fresh(r.value) && r.value.c == c && r.value.State() == EMPTY
      ensures r.Err? ==> r.error == InvalidConfig
    {
      if c.dimension <= 0 || c.m <= 0 || c.efConstruction < c.m || c.efSearch <= 0 {
        return Err(InvalidConfig);
      }
      var h := new HNSW(c);
      r := Ok(h);
    }

    // ---------- Linking ----------

    /** `trim`. */
    method TrimNode(id: Id, l: nat)
      requires id in nodes && forall other | other in Links(nodes, id, l) :: other in nodes
      modifies `nodes
      ensures nodes == Trim(old(nodes), id, l, c.m)
    {
      hide Nearer, Sort;
      var ids := Links(nodes, id, l);
      var rs: seq<Hit> := [];
      var i := 0;
      while i < |ids|
        invariant 0 <= i <= |ids|
        invariant rs == HitsOf(nodes, nodes[id].v, ids[..i])
      {
        rs := rs + [Hit(ids[i], Dist(nodes[id].v, nodes[ids[i]].v))];
        assert ids[..i + 1] == ids[..i] + [ids[i]];
        i := i + 1;
      }
      assert ids[..i] == ids;
      rs := Sort(Nearer, rs);
      if |rs| > c.m {
        rs := rs[..c.m];
      }
      nodes := SetLinks(nodes, id, l, IdsOf(rs));
    }

    /** `link`. */
    method LinkNodes(a: Id, b: Id, l: nat)
      requires a in nodes && b in nodes && a != b
      requires forall other | other in Links(nodes, b, l) :: other in nodes
      modifies `nodes
      ensures nodes == Link(old(nodes), a, b, l, c.m)
    {
      hide SetLinks, Links, Trim;
      SetLinksEffect(nodes, a, l, Links(nodes, a, l) + [b]);
      nodes := SetLinks(nodes, a, l, Links(nodes, a, l) + [b]);
      SetLinksEffect(nodes, b, l, Links(nodes, b, l) + [a]);
      nodes := SetLinks(nodes, b, l, Links(nodes, b, l) + [a]);
      TrimNode(b, l);
    }

    /** `closest`: the nodes are met in any order. */
    method ClosestNodes(q: Vector, l: nat, limit: int, skip: set<Id>) returns (rs: seq<Hit>)
      requires limit >= 0
      ensures rs == Closest(nodes, q, l, limit, skip)
    {
      hide Nearer, Sort, Gathered, Eligible;
      rs := [];
      var rest := nodes.Keys;
      ghost var done: set<Id> := {};
      GatherNone(nodes, q, l, skip);
      while rest != {}
        invariant rest + done == nodes.Keys && rest * done == {}
        invariant Gathered(nodes, q, l, skip, done, rs)
        decreases |rest|
      {
        var id :| id in rest;
        rest := rest - {id};
        GatherNext(nodes, q, l, skip, done, id, rs);
        if id !in skip && nodes[id].level >= l {
          rs := rs + [Hit(id, Dist(q, nodes[id].v))];
        }
        done := done + {id};
      }
      GatherAll(nodes, q, l, skip, done, rs);
      rs := Sort(Nearer, rs);
      if |rs| > limit {
        rs := rs[..limit];
      }
    }

    /** `selectDiverse`. */
    method SelectDiverse(candidates: seq<Hit>, m: nat) returns (picked: seq<Hit>)
      requires 0 < m && forall h | h in candidates :: h.id in nodes
      ensures picked == Diverse(nodes, [], candidates, m)
    {
      picked := [];
      var i := 0;
      while i < |candidates|
        invariant 0 <= i <= |candidates| && |picked| < m
        invariant forall h | h in picked :: h.id in nodes
        invariant Diverse(nodes, [], candidates, m) == Diverse(nodes, picked, candidates[i..], m)
      {
        var candidate := candidates[i];
        var keep := true;
        var j := 0;
        while j < |picked|
          invariant 0 <= j <= |picked|
          invariant keep && !Crowded(nodes, picked[..j], candidate)
        {
          CrowdedNext(nodes, picked, j, candidate);
          if Dist(nodes[candidate.id].v, nodes[picked[j].id].v) < candidate.distance {
            keep := false;
            break;
          }
          j := j + 1;
        }
        if keep {
          assert picked[..j] == picked;
        } else {
          CrowdedStays(nodes, picked[..j + 1], picked, candidate);
        }
        assert candidates[i..][1..] == candidates[i + 1..];
        if keep {
          if |picked| + 1 == m {
            picked := picked + [candidate];
            return;
          }
          picked := picked + [candidate];
        }
        i := i + 1;
      }
    }

    /** The links `Insert` and the repair after `Delete` both make: the closest nodes, thinned out, linked both ways. */
    method ConnectNode(id: Id, l: nat, skip: set<Id>, want: int)
      requires LinksOk(nodes) && Short(nodes, c.m) && id in nodes && l <= nodes[id].level && id in skip
      requires 0 < want && |Links(nodes, id, l)| + want <= c.m
      modifies `nodes
      ensures nodes == Connect(old(nodes), id, l, skip, want, c)
    {
      hide Links, Link, LinksOk, Short, ShortBut, Diverse, Closest, Keeps;
      var candidates := ClosestNodes(nodes[id].v, l, c.efConstruction, skip);
      CandidatesExist(nodes, nodes[id].v, l, c.efConstruction, skip);
      var picked := SelectDiverse(candidates, want);
      PickedPartners(nodes, id, l, skip, want, c);
      ShortIsShortBut(nodes, c.m, id, l);
      var i := 0;
      while i < |picked|
        invariant 0 <= i <= |picked|
        invariant LinksOk(nodes) && ShortBut(nodes, c.m, id, l) && Partners(nodes, id, picked[i..], l)
        invariant LinkAll(nodes, id, picked[i..], l, c.m) == LinkAll(old(nodes), id, picked, l, c.m)
      {
        var other := picked[i].id;
        assert picked[i] == picked[i..][0] && picked[i..][1..] == picked[i + 1..];
        LinkKeeps(nodes, id, other, l, c.m);
        NeighboursExist(nodes, other, l);
        PartnersKept(nodes, Link(nodes, id, other, l, c.m), id, picked[i..], l);
        LinkNodes(id, other, l);
        i := i + 1;
      }
      assert picked[i..] == [];
    }

    // ---------- Insert ----------

    /** `Insert`; `level` is what the random generator gave. */
    method Insert(id: Id, v: Vector, level: nat) returns (error: Option<IndexError>)
      requires WellFormed(State(), c)
      modifies this
      ensures match HnswGraph.Insert(old(State()), id, v, level, c)
        case Ok(after) => error == None && State() == after
        case Err(e) => error == Some(e) && State() == old(State())
    {
      hide WellFormed, Removed, ConnectDown;
      if id == [] {
        return Some(EmptyId);
      }
      if |v| != c.dimension {
        return Some(WrongDimension);
      }
      if id in nodes {
        RemovedKeeps(State(), id, c);
        error := Delete(id);
        if error.Some? {
          return;
        }
      }
      AddNode(id, v, level);
      error := None;
    }

    method AddNode(id: Id, v: Vector, level: nat)
      requires WellFormed(State(), c) && id !in nodes
      modifies this
      ensures State() == Added(old(State()), id, v, level, c)
    {
      hide Links, LinksOk, Short, Connect, NoneIsolated;
      var n := VNode(v, level, map[]);
      WithOk(nodes, id, v, level, c.m);
      WithLinks(nodes, id, v, level);
      if |nodes| == 0 {
        assert nodes == map[];
        nodes, entry, maxLevel := nodes[id := n], id, level;
        return;
      }
      nodes := nodes[id := n];
      ConnectLevels(id, Min(level, maxLevel));
      if level > maxLevel {
        entry, maxLevel := id, level;
      }
    }

    method ConnectLevels(id: Id, top: int)
      requires LinksOk(nodes) && Short(nodes, c.m) && id in nodes && top <= nodes[id].level
      requires forall k: nat :: Links(nodes, id, k) == []
      modifies `nodes
      ensures nodes == ConnectDown(old(nodes), id, top, c)
    {
      hide Links, LinksOk, Short, Connect;
      var l := top;
      while l >= 0
        invariant -1 <= l || l == top
        invariant LinksOk(nodes) && Short(nodes, c.m) && id in nodes && l <= nodes[id].level
        invariant forall k: nat | k <= l :: Links(nodes, id, k) == []
        invariant ConnectDown(nodes, id, l, c) == ConnectDown(old(nodes), id, top, c)
        decreases l + 1
      {
        ConnectKeeps(nodes, id, l, {id}, c.m, c);
        ConnectNode(id, l, {id}, c.m);
        l := l - 1;
      }
    }

    // ---------- Delete ----------

    /** `Delete`. */
    method Delete(id: Id) returns (error: Option<IndexError>)
      requires WellFormed(State(), c)
      modifies this
      ensures match HnswGraph.Delete(old(State()), id, c)
        case Ok(after) => error == None && State() == after
        case Err(e) => error == Some(e) && State() == old(State())
    {
      hide LinksOk, Short, Unlink, RepairAll, PickEntry, SortedIds, NodesOk, EntryOk;
      if id !in nodes {
        return Some(NotFound);
      }
      var ids := TakeOut(id);
      if entry == id {
        RemainingIds(old(nodes), id, c, ids, nodes);
        ChooseEntry(ids);
      }
      error := None;
    }

    method TakeOut(id: Id) returns (ids: seq<Id>)
      requires LinksOk(nodes) && id in nodes
      modifies `nodes
      ensures ids == SortedIds(Unlink(old(nodes), id, c.m))
      ensures nodes == RepairAll(Unlink(old(nodes), id, c.m), ids, c)
    {
      hide LinksOk, Short, Unlink, RepairAll, AtMost, SameNodes;
      UnlinkOk(nodes, id, c.m);
      UnlinkAll(id);
      ids := EveryIdSorted();
      RepairEach(ids);
    }

    /** Taking the node out, and out of every list of every other node, met in any order. */
    method UnlinkAll(id: Id)
      requires LinksOk(nodes) && id in nodes
      modifies `nodes
      ensures nodes == Unlink(old(nodes), id, c.m)
    {
      hide UnlinkNode, LinksOk, PartlyUnlinked, Unlink, Without, Links;
      nodes := nodes - {id};
      ghost var g := nodes;
      var rest := nodes.Keys;
      NoneUnlinked(g, id, c.m);
      while rest != {}
        invariant rest <= g.Keys
        invariant nodes == PartlyUnlinked(g, id, c.m, rest)
        decreases |rest|
      {
        var x :| x in rest;
        PartlySame(g, id, c.m, rest);
        PartlyUntouched(g, id, c.m, rest, x);
        RemainingExist(old(nodes), id, x);
        SameUnlinked(g, nodes, g[x], id, c.m);
        UnlinkFrom(x, id);
        PartlyNext(g, id, c.m, rest, x);
        rest := rest - {x};
      }
      AllUnlinked(old(nodes), id, c.m);
    }

    /** Dropping `id` from one node's lists, the levels met in any order, and trimming each. */
    method UnlinkFrom(x: Id, id: Id)
      requires x in nodes
      requires forall l, other | l in nodes[x].neighbors && other in Without(nodes[x].neighbors[l], id) :: other in nodes
      modifies `nodes
      ensures nodes == old(nodes)[x := UnlinkNode(old(nodes), old(nodes)[x], id, c.m)]
    {
      hide Trimmed, PartlyTrimmed, Trim, UnlinkNode, Without;
      ghost var g := nodes;
      ghost var n := nodes[x];
      var levels := nodes[x].neighbors.Keys;
      NoneTrimmed(g, x, id, c.m);
      while levels != {}
        invariant levels <= n.neighbors.Keys
        invariant nodes == g[x := PartlyTrimmed(g, n, id, c.m, levels)]
        decreases |levels|
      {
        var l :| l in levels;
        ghost var before := nodes;
        LeftUntouched(g, n, id, c.m, levels, l);
        var kept := WithoutLoop(nodes[x].neighbors[l], id);
        assert kept == Without(n.neighbors[l], id);
        nodes := SetLinks(nodes, x, l, kept);
        SetLinksEffect(before, x, l, kept);
        TrimNode(x, l);
        OneMoreTrimmed(g, x, n, id, c.m, levels, l, before, nodes);
        levels := levels - {l};
      }
      AllTrimmed(g, n, id, c.m);
    }

    static method WithoutLoop(ids: seq<Id>, id: Id) returns (kept: seq<Id>)
      ensures kept == Without(ids, id)
    {
      kept := [];
      var i := 0;
      while i < |ids|
        invariant 0 <= i <= |ids|
        invariant kept + Without(ids[i..], id) == Without(ids, id)
      {
        assert ids[i..][0] == ids[i] && ids[i..][1..] == ids[i + 1..];
        if ids[i] != id {
          kept := kept + [ids[i]];
        }
        i := i + 1;
      }
    }

    /** `sortedIDs`. */
    method EveryIdSorted() returns (ids: seq<Id>)
      ensures ids == SortedIds(nodes)
    {
      hide AtMost, Sort;
      ids := [];
      var rest := nodes.Keys;
      while rest != {}
        invariant rest <= nodes.Keys
        invariant multiset(ids) == multiset(nodes.Keys - rest)
        decreases |rest|
      {
        var id :| id in rest;
        assert nodes.Keys - (rest - {id}) == (nodes.Keys - rest) + {id};
        ids := ids + [id];
        rest := rest - {id};
      }
      assert nodes.Keys - rest == nodes.Keys;
      AtMostTotal();
      SortSetUnique(AtMost, nodes.Keys, ids);
      ids := Sort(AtMost, ids);
    }

    /** The repair pass. */
    method RepairEach(ids: seq<Id>)
      requires LinksOk(nodes) && Short(nodes, c.m) && forall id | id in ids :: id in nodes
      modifies `nodes
      ensures nodes == RepairAll(old(nodes), ids, c)
    {
      hide LinksOk, Short, Repair, Linked, Links;
      var i := 0;
      while i < |ids|
        invariant 0 <= i <= |ids|
        invariant LinksOk(nodes) && Short(nodes, c.m) && forall id | id in ids :: id in nodes
        invariant RepairAll(nodes, ids[i..], c) == RepairAll(old(nodes), ids, c)
      {
        assert ids[i..][0] == ids[i] && ids[i..][1..] == ids[i + 1..];
        RepairKeeps(nodes, ids[i], 0, nodes[ids[i]].level, c);
        RepairNode(ids[i]);
        i := i + 1;
      }
    }

    method RepairNode(id: Id)
      requires LinksOk(nodes) && Short(nodes, c.m) && id in nodes
      modifies `nodes
      ensures nodes == Repair(old(nodes), id, 0, old(nodes)[id].level, c)
    {
      hide LinksOk, Connect, Linked, Links;
      ghost var top := nodes[id].level;
      var l: nat := 0;
      while l <= nodes[id].level
        invariant LinksOk(nodes) && Short(nodes, c.m) && id in nodes && nodes[id].level == top && l <= top + 1
        invariant Repair(nodes, id, l, top, c) == Repair(old(nodes), id, 0, top, c)
        decreases top + 1 - l
      {
        RepairLevelKeeps(nodes, id, l, c);
        var need := c.m - |Links(nodes, id, l)|;
        if need > 0 {
          ConnectNode(id, l, {id} + LinkSet(nodes, id, l), need);
        }
        l := l + 1;
      }
    }

    method ChooseEntry(ids: seq<Id>)
      requires forall id | id in ids :: id in nodes
      modifies `entry, `maxLevel
      ensures (entry, maxLevel) == PickEntry(nodes, ids, [], -1)
    {
      entry, maxLevel := [], -1;
      var i := 0;
      while i < |ids|
        invariant 0 <= i <= |ids|
        invariant PickEntry(nodes, ids[i..], entry, maxLevel) == PickEntry(nodes, ids, [], -1)
      {
        assert ids[i..][0] == ids[i] && ids[i..][1..] == ids[i + 1..];
        if nodes[ids[i]].level > maxLevel {
          entry, maxLevel := ids[i], nodes[ids[i]].level;
        }
        i := i + 1;
      }
    }

    // ---------- Search ----------

    /** `searchLayer`. */
    method SearchLayer(q: Vector, start: Id, l: nat, ef: int) returns (best: seq<Hit>, ghost seen: set<Id>)
      requires 1 <= ef
      ensures start !in nodes ==> best == []
      ensures start in nodes ==> LayerResult(nodes, q, start, l, ef, best, seen)
    {
      hide Sound, Pending, Explored, Nearer, Sort, LayerResult, Links, SortedBy;
      if start !in nodes {
        return [], {};
      }
      var frontier := [Hit(start, Dist(q, nodes[start].v))];
      best := frontier;
      var visited := {start};
      ghost var explored: set<Id> := {};
      WalkStarts(nodes, q, start, l, ef);
      while frontier != []
        invariant Sound(nodes, q, start, l, ef, Walk(frontier, best, visited))
        invariant Pending(Walk(frontier, best, visited), explored)
        invariant Explored(nodes, l, Walk(frontier, best, visited), explored)
        decreases |nodes.Keys - visited|, |frontier|
      {
        ghost var w := Walk(frontier, best, visited);
        frontier := Sort(Nearer, frontier);
        best := Sort(Nearer, best);
        TakeClosest(nodes, q, start, l, ef, w, explored, frontier, best);
        var candidate := frontier[0];
        frontier := frontier[1..];
        TakenVisiting(nodes, q, start, l, ef, w, Walk(frontier, best, visited), explored, candidate);
        VisitingHasBest(nodes, q, start, l, ef, Walk(frontier, best, visited), explored, candidate.id);
        if |best| >= ef && candidate.distance > best[|best| - 1].distance {
          StopsWhenDone(best, frontier, candidate, explored);
          break;
        }
        frontier, best, visited := VisitNeighbours(q, start, l, ef, candidate.id, frontier, best, visited, explored);
        KeysShrink(nodes.Keys - w.visited, nodes.Keys - visited);
        DoneVisiting(nodes, q, start, l, ef, Walk(frontier, best, visited), explored, candidate.id);
        explored := explored + {candidate.id};
      }
      if frontier == [] {
        NothingPending(Walk(frontier, best, visited), explored);
      }
      WalkEnds(nodes, q, start, l, ef, Walk(frontier, best, visited), explored);
      seen := Found(nodes, Walk(frontier, best, visited));
      best := Sort(Nearer, best);
    }

    /** The inner loop of `searchLayer`. */
    method VisitNeighbours(q: Vector, start: Id, l: nat, ef: nat, at: Id,
        frontier0: seq<Hit>, best0: seq<Hit>, visited0: set<Id>, ghost explored: set<Id>)
      returns (frontier: seq<Hit>, best: seq<Hit>, visited: set<Id>)
      requires 1 <= ef && Visiting(nodes, q, start, l, ef, Walk(frontier0, best0, visited0), explored, at)
      requires SortedBy(Nearer, best0)
      ensures Visiting(nodes, q, start, l, ef, Walk(frontier, best, visited), explored, at)
      ensures forall y | y in Links(nodes, at, l) :: y in visited
      ensures nodes.Keys - visited <= nodes.Keys - visited0
      ensures nodes.Keys - visited == nodes.Keys - visited0 ==> frontier == frontier0
    {
      hide Visiting, Nearer, Sort, Links, SortedBy;
      frontier, best, visited := frontier0, best0, visited0;
      var neighbours := Links(nodes, at, l);
      var i := 0;
      while i < |neighbours|
        invariant 0 <= i <= |neighbours|
        invariant Visiting(nodes, q, start, l, ef, Walk(frontier, best, visited), explored, at) && SortedBy(Nearer, best)
        invariant forall k | 0 <= k < i :: neighbours[k] in visited
        invariant nodes.Keys - visited <= nodes.Keys - visited0
        invariant nodes.Keys - visited == nodes.Keys - visited0 ==> frontier == frontier0
      {
        var neighbour := neighbours[i];
        ghost var w := Walk(frontier, best, visited);
        VisitingHasBest(nodes, q, start, l, ef, w, explored, at);
        MeetVisiting(nodes, q, start, l, ef, w, explored, at, neighbour);
        MeetProgress(nodes, q, ef, w, neighbour);
        if neighbour !in visited {
          visited := visited + {neighbour};
          if neighbour in nodes {
            var result := Hit(neighbour, Dist(q, nodes[neighbour].v));
            if |best| < ef || result.distance < best[|best| - 1].distance {
              frontier := frontier + [result];
              best := Sort(Nearer, best + [result]);
              if |best| > ef {
                best := best[..ef];
              }
            }
          }
        }
        assert Walk(frontier, best, visited) == Meet(nodes, q, ef, w, neighbour);
        i := i + 1;
      }
    }

    /** `Search`: `from` is where the descent arrived. */
    method Search(q: Vector, k: int, ef: int) returns (r: Result<seq<Hit>, IndexError>, ghost from: Id, ghost seen: set<Id>)
      requires EntryOk(State())
      ensures |q| != c.dimension ==> r == Err(WrongDimension)
      ensures |q| == c.dimension && k <= 0 ==> r == Err(BadK)
      ensures |q| == c.dimension && k > 0 && nodes == map[] ==> r == Ok([])
      ensures |q| == c.dimension && k > 0 && nodes != map[] ==>
        && Descended(State(), q, from)
        && r.Ok? && Answer(nodes, q, from, k, if ef <= 0 then c.efSearch else ef, r.value, seen)
    {
      hide LayerResult;
      from, seen := [], {};
      if |q| != c.dimension {
        return Err(WrongDimension), from, seen;
      }
      if k <= 0 {
        return Err(BadK), from, seen;
      }
      var width := if ef <= 0 then c.efSearch else ef;
      if |nodes| == 0 {
        return Ok([]), from, seen;
      }
      var start := Descend(q);
      var rs;
      rs, seen := SearchLayer(q, start, 0, width);
      from := start;
      ghost var full := rs;
      if |rs| > k {
        rs := rs[..k];
      }
      assert rs == Cut(full, k);
      r := Ok(rs);
    }

    /** The walk down from the top level, one best node a level. */
    method Descend(q: Vector) returns (start: Id)
      requires EntryOk(State()) && nodes != map[]
      ensures Descended(State(), q, start)
    {
      hide LayerResult, WalkedDown, Stops;
      start := entry;
      var level := maxLevel;
      ghost var stops := [entry];
      OneStop(State(), q);
      while level > 0
        invariant 0 <= level <= maxLevel
        invariant start in nodes && Dist(q, At(nodes, start)) <= Dist(q, At(nodes, entry))
        invariant Stops(State(), q, stops) && |stops| == maxLevel + 1 - level && stops[maxLevel - level] == start
      {
        var candidates, seen := SearchLayer(q, start, level, 1);
        OneBest(nodes, q, start, level, candidates, seen);
        NextStop(State(), q, stops, candidates[0].id);
        NoFarther(nodes, q, start, candidates[0].id, level);
        if |candidates| > 0 {
          start := candidates[0].id;
        }
        stops := stops + [start];
        level := level - 1;
      }
    }
  }

  ghost function EligibleIds(g: Graph, l: nat, skip: set<Id>, from: set<Id>): set<Id> {
    set id | id in from && id in g && id !in skip && g[id].level >= l
  }

  /** The hits listed are those of the eligible nodes met so far. */
  ghost predicate Gathered(g: Graph, q: Vector, l: nat, skip: set<Id>, done: set<Id>, rs: seq<Hit>) {
    multiset(rs) == multiset(HitSet(g, q, EligibleIds(g, l, skip, done)))
  }

  lemma GatherNone(g: Graph, q: Vector, l: nat, skip: set<Id>)
    ensures Gathered(g, q, l, skip, {}, [])
  {
  }

  lemma GatherNext(g: Graph, q: Vector, l: nat, skip: set<Id>, done: set<Id>, id: Id, rs: seq<Hit>)
    requires Gathered(g, q, l, skip, done, rs) && id in g && id !in done
    ensures Gathered(g, q, l, skip, done + {id}, if id !in skip && g[id].level >= l then rs + [HitOf(g, q, id)] else rs)
  {
    var before, after := EligibleIds(g, l, skip, done), EligibleIds(g, l, skip, done + {id});
    if id !in skip && g[id].level >= l {
      assert after == before + {id};
      assert HitOf(g, q, id) !in HitSet(g, q, before);
      assert HitSet(g, q, after) == HitSet(g, q, before) + {HitOf(g, q, id)};
    } else {
      assert after == before;
    }
  }

  lemma GatherAll(g: Graph, q: Vector, l: nat, skip: set<Id>, done: set<Id>, rs: seq<Hit>)
    requires Gathered(g, q, l, skip, done, rs) && done == g.Keys
    ensures Sort(Nearer, rs) == SortSet(Nearer, Eligible(g, q, l, skip))
  {
    hide Nearer, HitOf;
    assert HitSet(g, q, EligibleIds(g, l, skip, done)) == Eligible(g, q, l, skip);
    NearerTotal();
    SortSetUnique(Nearer, Eligible(g, q, l, skip), rs);
  }

  lemma NoFarther(g: Graph, q: Vector, a: Id, b: Id, l: nat)
    requires WalkedDown(g, q, a, b, l)
    ensures b in g && Dist(q, At(g, b)) <= Dist(q, At(g, a))
  {
  }

  lemma CrowdedNext(g: Graph, picked: seq<Hit>, j: nat, h: Hit)
    requires j < |picked|
    ensures Crowded(g, picked[..j + 1], h) <==>
      Crowded(g, picked[..j], h) || Dist(At(g, h.id), At(g, picked[j].id)) < h.distance
  {
    assert forall k | 0 <= k < j :: picked[..j + 1][k] == picked[..j][k];
    assert picked[..j + 1][j] == picked[j];
  }

  lemma CandidatesExist(g: Graph, q: Vector, l: nat, limit: nat, skip: set<Id>)
    ensures forall h | h in Closest(g, q, l, limit, skip) :: h.id in g
  {
    hide Closest, Eligible;
    ClosestSpec(g, q, l, limit, skip);
    forall h | h in Closest(g, q, l, limit, skip) ensures h.id in g {
      EligibleNames(g, q, l, skip, h);
    }
  }

  lemma NeighboursExist(g: Graph, x: Id, l: nat)
    requires LinksOk(g)
    ensures forall other | other in Links(g, x, l) :: other in g
  {
    hide Links;
    forall other | other in Links(g, x, l) ensures other in g {
      assert Pair(g, x, l, other);
    }
  }

  lemma ShortIsShortBut(g: Graph, m: nat, id: Id, l: nat)
    requires Short(g, m)
    ensures ShortBut(g, m, id, l)
  {
    hide Links;
  }

  lemma PartnersKept(g: Graph, r: Graph, id: Id, hits: seq<Hit>, l: nat)
    requires Keeps(g, r) && hits != [] && Partners(g, id, hits, l)
    ensures Partners(r, id, hits[1..], l) && LinksOk(r)
  {
    hide LinksOk, Links;
  }

  lemma RemainingIds(g: Graph, id: Id, c: ValidConfig, ids: seq<Id>, r: Graph)
    requires LinksOk(g) && ids == SortedIds(Unlink(g, id, c.m)) && r == RepairAll(Unlink(g, id, c.m), ids, c)
    ensures forall x | x in ids :: x in r
  {
    hide LinksOk, Unlink, RepairAll, AtMost, Short;
    RepairedOk(g, id, c);
  }

  /** The graph while its nodes are unlinked: those left to meet are as they were. */
  ghost function PartlyUnlinked(g: Graph, id: Id, m: nat, left: set<Id>): Graph {
    map x | x in g :: if x in left then g[x] else UnlinkNode(g, g[x], id, m)
  }

  lemma PartlySame(g: Graph, id: Id, m: nat, left: set<Id>)
    ensures SameNodes(g, PartlyUnlinked(g, id, m, left))
  {
    hide Trimmed;
  }

  lemma PartlyUntouched(g: Graph, id: Id, m: nat, left: set<Id>, x: Id)
    requires x in left && x in g
    ensures x in PartlyUnlinked(g, id, m, left) && PartlyUnlinked(g, id, m, left)[x] == g[x]
  {
  }

  lemma PartlyNext(g: Graph, id: Id, m: nat, left: set<Id>, x: Id)
    requires x in left && x in g
    ensures PartlyUnlinked(g, id, m, left)[x := UnlinkNode(g, g[x], id, m)] == PartlyUnlinked(g, id, m, left - {x})
  {
    hide UnlinkNode;
  }

  lemma SameUnlinked(g: Graph, r: Graph, n: VNode, id: Id, m: nat)
    requires SameNodes(g, r)
    ensures UnlinkNode(r, n, id, m) == UnlinkNode(g, n, id, m)
  {
    hide Trimmed, Without;
    forall l | l in n.neighbors
      ensures Trimmed(r, n.v, Without(n.neighbors[l], id), m) == Trimmed(g, n.v, Without(n.neighbors[l], id), m)
    {
      SameTrimmed(g, r, n.v, Without(n.neighbors[l], id), m);
    }
  }

  lemma RemainingExist(g: Graph, id: Id, x: Id)
    requires LinksOk(g) && x in g
    ensures forall l, other | l in g[x].neighbors && other in Without(g[x].neighbors[l], id) :: other in g - {id}
  {
    forall l, other | l in g[x].neighbors && other in Without(g[x].neighbors[l], id) ensures other in g - {id} {
      WithoutSpec(g[x].neighbors[l], id);
      assert other in Links(g, x, l);
      assert Pair(g, x, l, other);
    }
  }

  lemma NoneUnlinked(g: Graph, id: Id, m: nat)
    ensures PartlyUnlinked(g, id, m, g.Keys) == g
  {
  }

  lemma AllUnlinked(g: Graph, id: Id, m: nat)
    ensures PartlyUnlinked(g - {id}, id, m, {}) == Unlink(g, id, m)
  {
    hide UnlinkNode;
  }

  ghost function PartlyTrimmed(g: Graph, n: VNode, id: Id, m: nat, left: set<nat>): VNode {
    VNode(n.v, n.level, map l | l in n.neighbors ::
      if l in left then n.neighbors[l] else Trimmed(g, n.v, Without(n.neighbors[l], id), m))
  }

  lemma NoneTrimmed(g: Graph, x: Id, id: Id, m: nat)
    requires x in g
    ensures g == g[x := PartlyTrimmed(g, g[x], id, m, g[x].neighbors.Keys)]
  {
    hide Trimmed, Without;
    assert PartlyTrimmed(g, g[x], id, m, g[x].neighbors.Keys).neighbors == g[x].neighbors;
  }

  lemma AllTrimmed(g: Graph, n: VNode, id: Id, m: nat)
    ensures PartlyTrimmed(g, n, id, m, {}) == UnlinkNode(g, n, id, m)
  {
    hide Trimmed, Without;
    assert PartlyTrimmed(g, n, id, m, {}).neighbors == UnlinkNode(g, n, id, m).neighbors;
  }

  lemma LeftUntouched(g: Graph, n: VNode, id: Id, m: nat, left: set<nat>, l: nat)
    requires l in left && left <= n.neighbors.Keys
    ensures var p := PartlyTrimmed(g, n, id, m, left); l in p.neighbors && p.neighbors[l] == n.neighbors[l]
    ensures PartlyTrimmed(g, n, id, m, left).v == n.v
  {
    hide Trimmed, Without;
  }

  lemma OneMoreTrimmed(g: Graph, x: Id, n: VNode, id: Id, m: nat, left: set<nat>, l: nat, before: Graph, after: Graph)
    requires x in g && n == g[x] && l in left && left <= n.neighbors.Keys
    requires before == g[x := PartlyTrimmed(g, n, id, m, left)]
    requires after == Trim(SetLinks(before, x, l, Without(n.neighbors[l], id)), x, l, m)
    ensures after == g[x := PartlyTrimmed(g, n, id, m, left - {l})]
  {
    hide Trimmed, Without;
    var set1 := SetLinks(before, x, l, Without(n.neighbors[l], id));
    SameTrimmed(g, set1, n.v, Without(n.neighbors[l], id), m);
    assert after[x].neighbors == PartlyTrimmed(g, n, id, m, left - {l}).neighbors;
  }
}
