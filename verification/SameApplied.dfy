/**
 What the applications of a group meet. In every safe run each node hands its application the entries of
 its log in order, each once, and what one application has met is what the others have met or will meet
 next (State Machine Safety, section 5.4.3, as the applications see it).
 */
module SameApplied {
  import opened Quorums
  import opened RaftLog
  import opened RaftNode
  import opened RaftSteps
  import opened RaftRuns
  import opened Acks
  import opened Histories
  import opened SafeRuns
  import opened CommitSafety
  import CC = ConfChain
  import CM = CachedMembership
  import ER = ElectionRestriction
  import ES = ElectionSafety
  import H = Handoff
  import LM = LogMatching

  /** Everything node `i` hands to its application along a run: the committed entries of each finished cycle. */
  function Handed(r: Run, actions: seq<Action>, i: NodeID): seq<Entry>
    decreases |actions|
  {
    if actions == [] then []
    else HandedBy(r, actions[0], i) + Handed(Next(r, actions[0]), actions[1..], i)
  }

  function HandedBy(r: Run, a: Action, i: NodeID): seq<Entry> {
    if a == AdvanceAt(i) && i in r.c.nodes then CommittedEntries(r.c.nodes[i]) else []
  }

  // ---------- Batches in safe runs ----------

  /** A batch cut from a log that fits is refused at its first entry, or taken. */
  lemma TakenOrRefused(s: State, m: Message, G: EntryLog)
    requires TakenFrom(m, G) && Fits(s, m) && m.kind == MsgAppend && m.term >= s.term && m.entries != []
    ensures Append(s.log, m.entries).log == s.log
            || (TakesBatch(s, m) && 0 < m.index + 1 <= |s.log| && Consecutive(m.entries, m.index + 1))
  {
    hide Append;
    if m.entries[0].index == 0 {
      LM.AppendRefused(s.log, m.entries);
    } else {
      LM.SliceConsecutive(m.entries, G, m.index + 1);
      AppendIsMerge(s.log, m.entries, m.index + 1);
    }
  }

  lemma DeliveredTaken(r: Run, m: Message)
    requires LM.Inv(r) && m in r.c.net && m.kind == MsgAppend
    ensures m.term in r.led && LM.LeaderLogOk(r, m.term) && TakenFrom(m, r.led[m.term])
  {
    hide TakenFrom, LM.NodeOk, LM.LeaderLogOk;
    assert InFlight(r.c, m);
    assert LM.MessageOk(r, m);
  }

  lemma PrefixSpares(s: State, batch: seq<Entry>, first: nat)
    requires s.committed < |s.log| && Consecutive(batch, first) && 0 < first <= |s.log|
    requires var r := Append(s.log, batch).log; s.committed < |r| && r[..s.committed + 1] == s.log[..s.committed + 1]
    ensures H.SparesCommitted(s, batch)
  {
    hide Append, H.SparesCommitted;
    var r := Append(s.log, batch).log;
    forall i | 0 <= i <= s.committed ensures r[i].term == s.log[i].term {
      assert r[i] == r[..s.committed + 1][i] && s.log[i] == s.log[..s.committed + 1][i];
    }
    H.SparesExactly(s, batch, first);
  }

  /** In a safe run no batch a node accepts conflicts with what it has committed. */
  lemma BatchesAreSafe(h: History, a: Action, initial: Membership)
    requires FullInv(h, initial) && Moves(h, a, initial) && a.Deliver? && a.m.kind == MsgAppend
    requires var s := h.w.r.c.nodes[Target(a)]; s.id == a.m.to && a.m.term >= s.term && Fits(s, a.m)
    ensures H.BatchSafe(h.w.r.c.nodes[Target(a)], a.m.entries)
  {
    hide Inv, NodesCovered, MessagesCovered, SafeMove, NextHistory, Append, Fits, Step, TakenFrom, H.SparesCommitted,
      LM.Inv, LM.Grows, ES.Inv, ER.Inv, OneLeaderPerTerm, CM.Inv, CC.Inv;
    var s := h.w.r.c.nodes[Target(a)];
    if a.m.entries == [] {
      EmptyAppend(s.log);
    } else {
      InvBase(h, initial);
      DeliveredTaken(h.w.r, a.m);
      TakenOrRefused(s, a.m, h.w.r.led[a.m.term]);
      if Append(s.log, a.m.entries).log != s.log {
        StepKeepsPrefix(h, a, initial);
        LM.AppendTakesBatch(s, a.m);
        PrefixSpares(s, a.m.entries, a.m.index + 1);
      }
    }
  }

  lemma InvBase(h: History, initial: Membership)
    requires Inv(h, initial)
    ensures LM.Inv(h.w.r)
  {
  }

  lemma NodeIds(h: History, initial: Membership, i: NodeID)
    requires Inv(h, initial) && i in h.w.r.c.nodes
    ensures h.w.r.c.nodes[i].id == i
  {
    InvBase(h, initial);
    assert LM.NodeOk(h.w.r, i);
  }

  // ---------- What is handed out ----------

  /** The event of Handoff that an action is for the node it is for. */
  function EventOf(a: Action): H.Event {
    if a.AdvanceAt? then H.Cycle else H.Call(a)
  }

  lemma EventAllowed(h: History, a: Action, initial: Membership)
    requires FullInv(h, initial) && Moves(h, a, initial)
    ensures H.Allowed(h.w.r.c.nodes[Target(a)], EventOf(a))
  {
    hide Inv, NodesCovered, MessagesCovered, Moves, H.BatchSafe, Fits;
    MovesEnabled(h, a, initial);
    var s := h.w.r.c.nodes[Target(a)];
    if a.Deliver? && a.m.kind == MsgAppend && a.m.term >= s.term && Fits(s, a.m) {
      NodeIds(h, initial, Target(a));
      BatchesAreSafe(h, a, initial);
    }
  }

  lemma MovesEnabled(h: History, a: Action, initial: Membership)
    requires Moves(h, a, initial)
    ensures Enabled(h.w.r.c, a) && Inv(h, initial)
  {
  }

  /** One step of the run is the event for the node that acts, and nothing for the others. */
  lemma StepHands(h: History, a: Action, initial: Membership, i: NodeID, handed: seq<Entry>)
    requires FullInv(h, initial) && SafeMove(h, a) && i in h.w.r.c.nodes
    requires H.Inv(H.Host(h.w.r.c.nodes[i], handed))
    ensures i in Next(h.w.r, a).c.nodes
    ensures H.Inv(H.Host(Next(h.w.r, a).c.nodes[i], handed + HandedBy(h.w.r, a, i)))
  {
    hide FullInv, SafeMove, H.Inv, Act, CommittedEntries;
    assert handed + [] == handed;
    if Enabled(h.w.r.c, a) && Target(a) == i {
      OwnStepHands(h, a, initial, handed);
    }
  }

  lemma OwnStepHands(h: History, a: Action, initial: Membership, handed: seq<Entry>)
    requires FullInv(h, initial) && SafeMove(h, a) && Enabled(h.w.r.c, a)
    requires H.Inv(H.Host(h.w.r.c.nodes[Target(a)], handed))
    ensures var s := h.w.r.c.nodes[Target(a)];
      H.Inv(H.Host(Act(s, a), handed + if a.AdvanceAt? then CommittedEntries(s) else []))
  {
    hide FullInv, SafeMove, Moves, H.Inv, H.Allowed, Act, CommittedEntries;
    FullParts(h, initial);
    MovesOf(h, a, initial);
    EventAllowed(h, a, initial);
    H.NextKeepsInv(H.Host(h.w.r.c.nodes[Target(a)], handed), EventOf(a));
    ActIsEvent(h.w.r.c.nodes[Target(a)], a, handed);
  }

  lemma FullParts(h: History, initial: Membership)
    requires FullInv(h, initial)
    ensures Inv(h, initial)
  {
  }

  lemma ActIsEvent(s: State, a: Action, handed: seq<Entry>)
    ensures H.Next(H.Host(s, handed), EventOf(a)) ==
            H.Host(Act(s, a), handed + if a.AdvanceAt? then CommittedEntries(s) else [])
  {
    hide CommittedEntries;
    assert handed + [] == handed;
  }

  lemma {:induction false} RunHands(h: History, actions: seq<Action>, initial: Membership, i: NodeID, handed: seq<Entry>)
    requires FullInv(h, initial) && SafeHistory(h, actions) && i in h.w.r.c.nodes
    requires H.Inv(H.Host(h.w.r.c.nodes[i], handed))
    ensures i in Exec(h.w.r, actions).c.nodes
    ensures H.Inv(H.Host(Exec(h.w.r, actions).c.nodes[i], handed + Handed(h.w.r, actions, i)))
    decreases |actions|
  {
    hide FullInv, NextHistory, SafeMove, H.Inv, HandedBy, Next;
    if actions == [] {
      assert handed + [] == handed;
    } else {
      var a := actions[0];
      NextIsRun(h, a);
      StepHands(h, a, initial, i, handed);
      NextKeepsFull(h, a, initial);
      RunHands(NextHistory(h, a), actions[1..], initial, i, handed + HandedBy(h.w.r, a, i));
      assert handed + HandedBy(h.w.r, a, i) + Handed(Next(h.w.r, a), actions[1..], i) == handed + Handed(h.w.r, actions, i);
    }
  }

  // ---------- The results ----------

  /** In every safe run, what a node has handed out is exactly entries 1 to `applied` of its log. */
  lemma EachInOrder(start: Run, actions: seq<Action>, initial: Membership, i: NodeID)
    requires Initial(start, initial) && SafeHistory(Begin(start), actions) && i in start.c.nodes
    ensures i in Exec(start, actions).c.nodes
    ensures var s := Exec(start, actions).c.nodes[i];
      s.applied <= s.committed < |s.log| && Handed(start, actions, i) == s.log[1..s.applied + 1]
  {
    hide SafeHistory, Exec, Handed, NextHistory;
    BeginInv(start, initial);
    BeginFull(start, initial);
    assert H.Inv(H.Host(start.c.nodes[i], []));
    RunHands(Begin(start), actions, initial, i, []);
    assert [] + Handed(start, actions, i) == Handed(start, actions, i);
  }

  lemma BeginFull(start: Run, initial: Membership)
    requires Initial(start, initial) && Inv(Begin(start), initial)
    ensures FullInv(Begin(start), initial)
  {
    hide Inv;
    assert forall m :: !InFlight(start.c, m);
  }

  /** In every safe run, of what two applications have met, one is the beginning of the other. */
  lemma ApplicationsAgree(start: Run, actions: seq<Action>, initial: Membership, i: NodeID, j: NodeID)
    requires Initial(start, initial) && SafeHistory(Begin(start), actions) && i in start.c.nodes && j in start.c.nodes
    ensures var a, b := Handed(start, actions, i), Handed(start, actions, j); a <= b || b <= a
  {
    hide SafeHistory, Exec, Handed, Initial;
    EachInOrder(start, actions, initial, i);
    EachInOrder(start, actions, initial, j);
    var s, t := Exec(start, actions).c.nodes[i], Exec(start, actions).c.nodes[j];
    var k := if s.applied <= t.applied then s.applied else t.applied;
    CommittedAgree(start, actions, initial, i, j, k);
    assert s.log[1..k + 1] == s.log[..k + 1][1..] && t.log[1..k + 1] == t.log[..k + 1][1..];
    Begins(s.log, k, s.applied);
    Begins(t.log, k, t.applied);
  }

  lemma Begins(L: seq<Entry>, k: nat, n: nat)
    requires k <= n < |L|
    ensures L[1..k + 1] <= L[1..n + 1]
  {
    assert L[1..n + 1][..k] == L[1..k + 1];
  }
}
