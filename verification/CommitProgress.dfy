/**
 What is committed in safe runs gets on: a follower that takes a batch has then committed all that the leader says
 it may, and no leader that commits the entry that began a joint step stays in it.
 */
module CommitProgress {
  import opened Wrappers
  import opened Quorums
  import opened RaftLog
  import opened RaftNode
  import opened RaftRuns
  import opened Histories
  import opened SafeRuns
  import opened CommitSafety
  import CC = ConfChain
  import CM = CachedMembership
  import Calls = RaftCalls
  import LM = LogMatching
  import SA = SameApplied

  // ---------- Followers ----------

  /** In every safe run, taking a batch raises the commit index as far as the leader's and the log allow, and never lowers it. */
  lemma FollowersCatchUp(start: Run, actions: seq<Action>, initial: Membership, m: Message)
    requires Initial(start, initial) && SafeHistory(Begin(start), actions)
    requires SafeMove(ExecHistory(Begin(start), actions), Deliver(m)) && Enabled(Exec(start, actions).c, Deliver(m))
    requires var s := Exec(start, actions).c.nodes[m.to];
      && m.kind == MsgAppend && m.term >= s.term
      && Term(s.log, m.index) == Some(m.logTerm) && Consecutive(m.entries, m.index + 1)
    ensures var s := Exec(start, actions).c.nodes[m.to];
      var t := Step(s, m);
      var reach := Min(m.commit, LastIndex(t.log));
      t.committed == if s.committed > reach then s.committed else reach
  {
    hide ExecHistory, SafeHistory, Exec, SafeMove, Inv, Step, Term, Merge, FullInv, Calls.Follows;
    var s := Exec(start, actions).c.nodes[m.to];
    SafeRunInv(start, actions, initial);
    SA.FullParts(ExecHistory(Begin(start), actions), initial);
    SA.NodeIds(ExecHistory(Begin(start), actions), initial, m.to);
    CommittedStays(start, actions, initial, Deliver(m));
    Calls.FollowerCommits(s, m);
    LastOf(Step(s, m).log);
  }

  // ---------- Leaders ----------

  /** A leader in a joint step that has committed an entry of its own has not committed the one that began the step. */
  ghost predicate EndsInTime(s: State) {
    s.role == Leader && s.membership.joint && s.committed < |s.log| && s.log[s.committed].term == s.term ==>
      s.committed < s.membershipIndex
  }

  /** The commit index is within the log, and a candidate has no entry of its term. */
  ghost predicate NodeReady(s: State) {
    && s.committed < |s.log|
    && (s.role == Candidate ==> forall k | 0 <= k < |s.log| :: s.log[k].term < s.term)
  }

  lemma ProposalEnds(s: State, data: Data)
    requires NodeReady(s) && EndsInTime(s)
    ensures EndsInTime(Propose(s, data))
  {
    hide Propose, Calls.SendsBatches;
    Calls.Proposed(s, data);
  }

  lemma WinEnds(s: State, m: Message)
    requires NodeReady(s) && EndsInTime(s) && Calls.IsFor(s, m) && m.kind == MsgVoteResp
    ensures EndsInTime(Step(s, m))
  {
    hide Step, Calls.SendsBatches, Membership.HasQuorum;
    Calls.VoteCounted(s, m);
  }

  lemma AckEnds(s: State, m: Message)
    requires NodeReady(s) && EndsInTime(s) && Calls.IsFor(s, m) && m.kind == MsgAppendResp
    ensures EndsInTime(Step(s, m))
  {
    hide Step, Calls.BatchToPeer, Calls.Batch;
    if s.role != Leader || m.term != s.term {
      Calls.AnswerIgnored(s, m);
    } else if m.reject {
      Calls.RefusalBacksUp(s, m);
    } else {
      Calls.AckEffect(s, m);
      Calls.LeaderCommits(s, m);
    }
  }

  lemma StepEnds(s: State, m: Message)
    requires NodeReady(s) && EndsInTime(s)
    ensures EndsInTime(Step(s, m))
  {
    if !Calls.IsFor(s, m) || m.kind == MsgUnknown {
      Calls.NotHandled(s, m);
    } else {
      hide Step;
      match m.kind
      case MsgPreVote => Calls.PreVoteAnswered(s, m);
      case MsgPreVoteResp =>
        hide Membership.HasQuorum;
        Calls.PreVoteCounted(s, m);
      case MsgVote => Calls.VoteAnswered(s, m);
      case MsgVoteResp => WinEnds(s, m);
      case MsgAppend => BatchEnds(s, m);
      case MsgAppendResp => AckEnds(s, m);
    }
  }

  lemma BatchEnds(s: State, m: Message)
    requires EndsInTime(s) && m.kind == MsgAppend && Calls.IsFor(s, m)
    ensures EndsInTime(Step(s, m))
  {
    if m.term < s.term {
      Calls.BatchRefused(s, m);
    } else {
      TakerFollows(s, m);
    }
    hide Step;
  }

  lemma TakerFollows(s: State, m: Message)
    requires m.kind == MsgAppend && Calls.IsFor(s, m) && m.term >= s.term
    ensures Step(s, m).role == Follower
  {
    hide Step, Append, Term, ScanMembership, LastIndex;
    if Term(s.log, m.index) != Some(m.logTerm) {
      Calls.BatchRefused(s, m);
    } else if Append(s.log, m.entries).ok {
      Calls.BatchTaken(s, m, Append(s.log, m.entries).log);
    } else {
      Calls.BatchFails(s, m);
    }
  }

  /** Whatever a node is asked to do, it does not stay in a step it has ended. */
  lemma ActEnds(s: State, a: Action)
    requires NodeReady(s) && EndsInTime(s)
    ensures EndsInTime(Act(s, a))
  {
    hide Step, Tick, Propose, ProposeConfChange, NodeReady;
    match a
    case TickAt(_) => TickEnds(s);
    case ProposeAt(_, command) => ProposalEnds(s, Command(command));
    case ChangeAt(_, v, l) =>
      Calls.ChangeRefused(s, v, l);
      ProposalEnds(s, Conf(ConfChange(s.membership.oldVoters, set p | p in v, set p | p in l, true)));
    case PeerAt(_, peer) => Calls.PeerAdded(s, peer);
    case Deliver(m) => StepEnds(s, m);
    case Emit(_) =>
    case AdvanceAt(_) =>
  }

  lemma TickEnds(s: State)
    requires EndsInTime(s)
    ensures EndsInTime(Tick(s))
  {
    hide Tick, Calls.SendsBatches, Calls.AsksVoters;
    if s.role == Leader {
      Calls.Heartbeat(s);
    } else {
      Calls.ElectionTimeout(s);
    }
  }

  ghost predicate AllEnd(c: Cluster) {
    forall i | i in c.nodes :: EndsInTime(c.nodes[i])
  }

  lemma ReadyInSafeRuns(h: History, initial: Membership, i: NodeID)
    requires FullInv(h, initial) && i in h.w.r.c.nodes
    ensures NodeReady(h.w.r.c.nodes[i])
  {
    hide BaseOk, HeldOk, KeepOk, GrantsOk, AcksOk, MatchedOk, CandidatesOk, WonOk, ElectedOk, CommitsOk, EndsOk,
      MessagesCovered, Covered, LM.Justified, LM.Ordered, CC.Chain, CC.In, CM.CacheOk;
    var s := h.w.r.c.nodes[i];
    NodeFacts(h, initial, i);
    CoveredInLog(h.commits, s.log, s.committed, s.term);
  }

  lemma {:induction false} RunEnds(h: History, actions: seq<Action>, initial: Membership)
    requires FullInv(h, initial) && SafeHistory(h, actions) && AllEnd(h.w.r.c)
    ensures AllEnd(ExecHistory(h, actions).w.r.c)
    decreases |actions|
  {
    hide FullInv, NextHistory, SafeMove, EndsInTime, Act;
    if actions != [] {
      var a := actions[0];
      NextIsRun(h, a);
      if Enabled(h.w.r.c, a) {
        ReadyInSafeRuns(h, initial, Target(a));
        ActEnds(h.w.r.c.nodes[Target(a)], a);
      }
      NextKeepsFull(h, a, initial);
      RunEnds(NextHistory(h, a), actions[1..], initial);
    }
  }

  /**
   In every safe run a leader that has committed an entry of its own term is not left in a joint step whose entry is
   committed: the entry that ends it is in its log by then. Only a new leader, before it has committed anything of its
   own, can find itself there.
   */
  lemma JointStepsEnd(start: Run, actions: seq<Action>, initial: Membership, i: NodeID)
    requires Initial(start, initial) && SafeHistory(Begin(start), actions) && i in Exec(start, actions).c.nodes
    requires var s := Exec(start, actions).c.nodes[i];
      s.role == Leader && s.membership.joint && s.committed >= s.membershipIndex
    ensures var s := Exec(start, actions).c.nodes[i]; s.committed < |s.log| && s.log[s.committed].term < s.term
  {
    hide ExecHistory, SafeHistory, Exec, FullInv, Inv, Initial, NodeReady, AllEnd, Begin, LM.Ordered;
    SafeRunInv(start, actions, initial);
    BeginInv(start, initial);
    SA.BeginFull(start, initial);
    NobodyLeadsYet(start, initial);
    RunEnds(Begin(start), actions, initial);
    var h := ExecHistory(Begin(start), actions);
    ReadyInSafeRuns(h, initial, i);
    SA.FullParts(h, initial);
    LeaderTerms(h, initial, i);
    EndedInTime(h, i);
  }

  lemma NobodyLeadsYet(start: Run, initial: Membership)
    requires Initial(start, initial)
    ensures AllEnd(Begin(start).w.r.c)
  {
  }

  lemma EndedInTime(h: History, i: NodeID)
    requires AllEnd(h.w.r.c) && i in h.w.r.c.nodes
    requires var s := h.w.r.c.nodes[i]; NodeReady(s) && LM.Ordered(s.log, s.term) && s.role == Leader && s.membership.joint
    ensures var s := h.w.r.c.nodes[i];
      s.committed < |s.log| && (s.committed >= s.membershipIndex ==> s.log[s.committed].term < s.term)
  {
    assert EndsInTime(h.w.r.c.nodes[i]);
  }

  lemma LeaderTerms(h: History, initial: Membership, i: NodeID)
    requires Inv(h, initial) && i in h.w.r.c.nodes
    ensures LM.Ordered(h.w.r.c.nodes[i].log, h.w.r.c.nodes[i].term)
  {
    hide BaseOk, HeldOk, KeepOk, GrantsOk, AcksOk, MatchedOk, CandidatesOk, WonOk, ElectedOk, CommitsOk, EndsOk, FreshOk,
      LM.Justified, CC.Chain, CC.In, CM.CacheOk;
    NodeFacts(h, initial, i);
  }
}
