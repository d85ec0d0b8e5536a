/**
 In every run of a group, whoever leads, the terms along every log never fall. So the leader's commit
 search, which relies on that order, misses nothing.
 */
module TermOrder {
  import opened Wrappers
  import opened Quorums
  import opened RaftLog
  import opened RaftNode
  import opened RaftSteps
  import opened RaftRuns
  import CommitSearch
  import LM = LogMatching

  ghost predicate NodeOk(s: State) {
    && (s.role != Follower ==> s.term > 0)
    && NoPreVoteWhileLeading(s)
    && LM.Ordered(s.log, s.term)
  }

  /** The batch was cut from a log in term order. */
  ghost predicate FromOrdered(m: Message) {
    exists G: EntryLog :: TakenFrom(m, G) && LM.Ordered(G, m.term)
  }

  ghost predicate MessageOk(m: Message) {
    m.from != m.to && (m.kind == MsgAppend ==> FromOrdered(m))
  }

  // ---------- Receiving ----------

  lemma SliceAt(batch: seq<Entry>, G: EntryLog, first: nat, k: nat)
    requires LM.SliceOf(batch, G, first) && k < |batch|
    ensures batch[k] == G[first + k] && batch[k].index == first + k
  {
  }

  lemma HasAt(L: EntryLog, e: Entry)
    requires Has(L, e)
    ensures e.index < |L| && L[e.index].term == e.term
  {
  }

  /** What a log shares with a batch ends in a term the batch goes on from. */
  lemma SharedEnd(L: EntryLog, G: EntryLog, first: nat, batch: seq<Entry>)
    requires 0 < first <= |L| && LM.SliceOf(batch, G, first) && L[first - 1].term == G[first - 1].term
    ensures var d := Shared(L, batch);
      first + d <= |L| && L[first + d - 1].term == G[first + d - 1].term
  {
    hide Shared, Has, LM.SliceOf, Contiguous;
    var d := Shared(L, batch);
    LM.SliceConsecutive(batch, G, first);
    SharedWithin(L, batch, first);
    if d > 0 {
      SliceAt(batch, G, first, d - 1);
      HasAt(L, batch[d - 1]);
    }
  }

  lemma SpliceOrdered(L: seq<Entry>, G: seq<Entry>, first: nat, d: nat, batch: seq<Entry>, term: nat)
    requires LM.Ordered(L, term) && LM.Ordered(G, term) && LM.SliceOf(batch, G, first) && d <= |batch|
    requires 0 < first && first + d <= |L| && L[first + d - 1].term == G[first + d - 1].term
    ensures LM.Ordered(L[..first + d] + batch[d..], term)
  {
    var merged := L[..first + d] + batch[d..];
    forall k | 0 <= k < |merged| ensures merged[k] == if k < first + d then L[k] else G[k] {
    }
  }

  lemma ReceiveSlice(L: EntryLog, G: EntryLog, first: nat, batch: seq<Entry>, term: nat)
    requires LM.Ordered(L, term) && LM.Ordered(G, term)
    requires 0 < first <= |L| && LM.SliceOf(batch, G, first) && L[first - 1].term == G[first - 1].term
    ensures LM.Ordered(Append(L, batch).log, term)
  {
    hide Append, Merge, Shared, Has, LM.Ordered, LM.SliceOf, Contiguous, Consecutive;
    LM.SliceConsecutive(batch, G, first);
    SharedEnd(L, G, first, batch);
    AppendIsMerge(L, batch, first);
    MergeShape(L, batch, first);
    SpliceOrdered(L, G, first, Shared(L, batch), batch, term);
  }

  /** A batch cut from an ordered log leaves an ordered log ordered. */
  lemma ReceiveOrdered(L: EntryLog, G: EntryLog, m: Message)
    requires LM.Ordered(L, m.term) && LM.Ordered(G, m.term)
    requires TakenFrom(m, G) && Term(L, m.index) == Some(m.logTerm)
    ensures LM.Ordered(Append(L, m.entries).log, m.term)
  {
    hide Append, LM.Ordered;
    if m.entries == [] {
      EmptyAppend(L);
    } else if m.entries[0].index == 0 {
      LM.AppendRefused(L, m.entries);
    } else {
      ReceiveSlice(L, G, m.index + 1, m.entries, m.term);
    }
  }

  // ---------- Every step keeps it ----------

  lemma PushOrdered(L: EntryLog, e: Entry, term: nat)
    requires LM.Ordered(L, term) && e.term == term > 0
    ensures LM.Ordered(L + [e], term)
  {
    assert forall k | 0 <= k < |L| :: (L + [e])[k] == L[k];
  }

  lemma StepKeepsOrder(s: State, t: State, m: Message)
    requires NodeOk(s) && LogStep(s, t, m) && (m.kind == MsgAppend ==> FromOrdered(m))
    ensures NodeOk(t)
  {
    hide Append, TakenFrom, LM.Ordered, SendsWell;
    LM.OrderedLater(s.log, s.term, t.term);
    if Received(s, t, m) {
      var G: EntryLog :| TakenFrom(m, G) && LM.Ordered(G, m.term);
      ReceiveOrdered(s.log, G, m);
    } else if t.log != s.log {
      PushOrdered(s.log, t.log[|s.log|], t.term);
    }
  }

  lemma StepSendsOrdered(s: State, t: State, m: Message, b: Message)
    requires NodeOk(s) && NodeOk(t) && LogStep(s, t, m) && b in t.msgs && b !in s.msgs
    ensures MessageOk(b)
  {
    hide Append, TakenFrom, LM.Ordered, Fits;
    if b.kind == MsgAppend {
      assert SentByLeader(s, t, b);
      assert TakenFrom(b, t.log) && LM.Ordered(t.log, b.term);
    }
  }

  ghost predicate Inv(r: Run) {
    && (forall i | i in r.c.nodes :: r.c.nodes[i].id == i && NodeOk(r.c.nodes[i]))
    && (forall m | InFlight(r.c, m) :: MessageOk(m))
  }

  lemma ActIsStep(r: Run, a: Action) returns (m: Message)
    requires Inv(r) && Enabled(r.c, a)
    ensures LogStep(r.c.nodes[Target(a)], Act(r.c.nodes[Target(a)], a), m)
    ensures m.kind == MsgAppend ==> FromOrdered(m)
  {
    hide LogStep, LocalStep, FromOrdered, LM.Ordered, Act;
    var s := r.c.nodes[Target(a)];
    m := MessageOf(a);
    if a.Deliver? {
      assert InFlight(r.c, m);
      assert MessageOk(m);
    }
    ActSteps(s, a);
    if !a.Deliver? {
      LocalIsLog(s, Act(s, a), m);
    }
  }

  lemma NextKeepsInv(r: Run, a: Action)
    requires Inv(r)
    ensures Inv(Next(r, a))
  {
    hide LogStep, NodeOk, MessageOk, FromOrdered, Act;
    if Enabled(r.c, a) {
      var i := Target(a);
      var s, t := r.c.nodes[i], Act(r.c.nodes[i], a);
      var m := ActIsStep(r, a);
      StepKeepsOrder(s, t, m);
      StepKeepsId(s, t, m);
      forall b | InFlight(Next(r, a).c, b) ensures MessageOk(b) {
        InFlightAfter(r, a, b);
        if InFlight(r.c, b) {
        } else {
          StepSendsOrdered(s, t, m, b);
        }
      }
    }
  }

  lemma StepKeepsId(s: State, t: State, m: Message)
    requires LogStep(s, t, m)
    ensures t.id == s.id
  {
  }

  lemma {:induction false} RunKeepsInv(r: Run, actions: seq<Action>)
    requires Inv(r)
    ensures Inv(Exec(r, actions))
    decreases |actions|
  {
    hide Inv, Next;
    if actions != [] {
      NextKeepsInv(r, actions[0]);
      RunKeepsInv(Next(r, actions[0]), actions[1..]);
    }
  }

  lemma InitialInv(r: Run, m: Membership)
    requires Initial(r, m)
    ensures Inv(r)
  {
  }

  lemma OrderedFits(s: State)
    requires NodeOk(s)
    ensures LM.Ordered(s.log, s.term) && (s.role == Leader ==> CommitSearch.TermsOrdered(s))
  {
  }

  // ---------- The results ----------

  /** In every run, every node's log is in term order and within the node's own term. */
  lemma TermsNeverFall(r: Run, m: Membership, i: NodeID)
    requires Reachable(r, m) && i in r.c.nodes
    ensures LM.Ordered(r.c.nodes[i].log, r.c.nodes[i].term)
    ensures r.c.nodes[i].role == Leader ==> CommitSearch.TermsOrdered(r.c.nodes[i])
  {
    hide Exec, LogStep, MessageOk;
    var start, actions :| Initial(start, m) && Exec(start, actions) == r;
    InitialInv(start, m);
    RunKeepsInv(start, actions);
    OrderedFits(r.c.nodes[i]);
  }

  /** So in every run the sparse search of every leader finds the greatest committable index, or there is none. */
  lemma LeadersCommitFully(r: Run, m: Membership, i: NodeID)
    requires Reachable(r, m) && i in r.c.nodes && r.c.nodes[i].role == Leader
    ensures var s := r.c.nodes[i];
            match CommitTarget(s)
            case Some(c) => Committable(s, c) && forall d: nat | Committable(s, d) :: d <= c
            case None => forall d: nat :: !Committable(s, d)
  {
    hide Reachable, CommitTarget, Committable;
    TermsNeverFall(r, m, i);
    CommitSearch.SparseIsFullScan(r.c.nodes[i]);
  }
}
