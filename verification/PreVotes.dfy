/**
 What the pre-vote exchange is for: a node moves to a new term by itself only when a quorum would vote for it.
 In every run whatsoever, whoever is counted towards an election is the node itself, or a node that was asked and
 whose log was then no newer than the log the candidate had when it asked, or a node that gave it a real vote.
 */
module PreVotes {
  import opened Wrappers
  import opened Quorums
  import opened RaftLog
  import opened RaftNode
  import opened RaftRuns
  import Calls = RaftCalls
  import ER = ElectionRestriction

  // ---------- What is recorded ----------

  /** A node asked for pre-votes and had this log. */
  datatype Ask = Ask(candidate: NodeID, log: EntryLog)

  /** A node said yes to a pre-vote and had this log. */
  datatype Yes = Yes(voter: NodeID, candidate: NodeID, log: EntryLog)

  datatype Polled = Polled(r: Run, asked: set<Ask>, yes: set<Yes>)

  /** What the node queued in this step. */
  function Queued(s: State, t: State): set<Message> {
    t.msgs - s.msgs
  }

  function AskedIn(s: State, t: State): set<Ask> {
    set b | b in Queued(s, t) && b.kind == MsgPreVote :: Ask(t.id, t.log)
  }

  function YesIn(s: State, t: State): set<Yes> {
    set b | b in Queued(s, t) && b.kind == MsgPreVoteResp && !b.reject :: Yes(t.id, b.to, t.log)
  }

  function NextPolled(w: Polled, a: Action): Polled {
    if !Enabled(w.r.c, a) then w
    else
      var s := w.r.c.nodes[Target(a)];
      Polled(Next(w.r, a), w.asked + AskedIn(s, Act(s, a)), w.yes + YesIn(s, Act(s, a)))
  }

  function ExecPolled(w: Polled, actions: seq<Action>): Polled
    decreases |actions|
  {
    if actions == [] then w else ExecPolled(NextPolled(w, actions[0]), actions[1..])
  }

  /** Recording does not disturb the run. */
  lemma {:induction false} PolledIsRun(w: Polled, actions: seq<Action>)
    ensures ExecPolled(w, actions).r == Exec(w.r, actions)
    decreases |actions|
  {
    hide NextPolled, Next;
    if actions != [] {
      PolledNext(w, actions[0]);
      PolledIsRun(NextPolled(w, actions[0]), actions[1..]);
    }
  }

  lemma PolledNext(w: Polled, a: Action)
    ensures NextPolled(w, a).r == Next(w.r, a)
  {
    hide Act;
  }

  // ---------- The invariant ----------

  /** The candidate asked with a log at least as new as this one. */
  ghost predicate AskedNoOlder(asked: set<Ask>, candidate: NodeID, log: EntryLog) {
    exists q :: q in asked && q.candidate == candidate && ER.NoNewer(log, q.log)
  }

  /** The request names a log the sender had when it asked. */
  ghost predicate RequestOk(w: Polled, m: Message) {
    m.kind == MsgPreVote ==> exists q :: q in w.asked && q.candidate == m.from && ER.Describes(m, q.log)
  }

  ghost predicate Said(yes: set<Yes>, voter: NodeID, candidate: NodeID) {
    exists y :: y in yes && y.voter == voter && y.candidate == candidate
  }

  ghost predicate AnswerOk(w: Polled, m: Message) {
    m.kind == MsgPreVoteResp && !m.reject ==> Said(w.yes, m.from, m.to)
  }

  ghost predicate YesOk(w: Polled, y: Yes) {
    AskedNoOlder(w.asked, y.candidate, y.log)
  }

  /** A real vote for the candidate has been sent. */
  ghost predicate VoteSent(c: Cluster, voter: NodeID, candidate: NodeID) {
    exists b :: b in c.net && b.kind == MsgVoteResp && !b.reject && b.from == voter && b.to == candidate
  }

  /** The node itself, a node that said yes, or a node that gave a real vote. */
  ghost predicate Counts(w: Polled, voter: NodeID, candidate: NodeID) {
    voter == candidate || Said(w.yes, voter, candidate) || VoteSent(w.r.c, voter, candidate)
  }

  ghost predicate NodeOk(w: Polled, i: NodeID)
    requires i in w.r.c.nodes
  {
    var s := w.r.c.nodes[i];
    s.id == i && i != 0 && (s.votes.Some? ==> forall p | p in s.votes.value :: Counts(w, p, i))
  }

  ghost predicate Inv(w: Polled) {
    && (forall i | i in w.r.c.nodes :: NodeOk(w, i))
    && (forall m | InFlight(w.r.c, m) :: RequestOk(w, m) && AnswerOk(w, m))
    && (forall y | y in w.yes :: YesOk(w, y))
  }

  // ---------- What one call does ----------

  /** A pre-vote request asks with the end of the node's log; a yes answers a request whose log is no older. */
  ghost predicate PollTraffic(s: State, t: State, a: Action) {
    forall b | b in Queued(s, t) ::
      && (b.kind == MsgPreVote ==> b.from == t.id && ER.Describes(b, t.log))
      && (b.kind == MsgPreVoteResp && !b.reject ==>
            b.from == t.id && a.Deliver? && a.m.kind == MsgPreVote && b.to == a.m.from && Calls.NamesNoOlder(a.m, t.log))
  }

  /** Nobody is counted but the node itself and whoever has just answered yes or given its vote. */
  ghost predicate CountsOnly(s: State, t: State, a: Action) {
    && t.id == s.id
    && (t.votes.Some? ==> forall p | p in t.votes.value ::
          || p == t.id
          || (s.votes.Some? && p in s.votes.value)
          || (a.Deliver? && p == a.m.from && !a.m.reject && (a.m.kind == MsgPreVoteResp || a.m.kind == MsgVoteResp)))
  }

  /** A node that is a candidate in a later term has just counted a pre-vote that made a quorum. */
  ghost predicate MovesUp(s: State, t: State, a: Action) {
    t.role == Candidate && t.term > s.term ==>
      && t.term == s.term + 1
      && a.Deliver? && a.m.kind == MsgPreVoteResp && !a.m.reject
      && s.votes.Some? && s.membership.HasQuorum(s.votes.value + {a.m.from})
  }

  ghost predicate Polls(s: State, t: State, a: Action) {
    PollTraffic(s, t, a) && CountsOnly(s, t, a) && MovesUp(s, t, a)
  }

  lemma BatchesApart(s: State, u: State, t: State)
    requires Calls.SendsBatches(s, u, t)
    ensures forall b | b in Queued(s, t) :: b.kind == MsgAppend
  {
    forall b | b in Queued(s, t) ensures b.kind == MsgAppend {
      assert Calls.BatchToPeer(u, b);
    }
  }

  lemma TickPolls(s: State, a: Action)
    requires a.TickAt?
    ensures Polls(s, Tick(s), a)
  {
    hide Tick, Calls.SendsBatches, Membership.HasQuorum;
    if s.role == Leader {
      Calls.Heartbeat(s);
      if s.heartbeatElapsed + 1 >= s.heartbeatTick {
        BatchesApart(s, s, Tick(s));
      }
    } else {
      Calls.ElectionTimeout(s);
    }
  }

  lemma ProposalPolls(s: State, data: Data, a: Action)
    ensures Polls(s, Propose(s, data), a)
  {
    hide Propose, Calls.SendsBatches, Membership.HasQuorum;
    Calls.Proposed(s, data);
    if s.role == Leader {
      BatchesApart(s, Propose(s, data), Propose(s, data));
    }
  }

  lemma WinPolls(s: State, a: Action)
    requires a.Deliver? && Calls.IsFor(s, a.m) && a.m.kind == MsgVoteResp
    ensures Polls(s, Step(s, a.m), a)
  {
    hide Step, Calls.SendsBatches, Membership.HasQuorum;
    Calls.VoteCounted(s, a.m);
    if Calls.SendsBatches(s, Step(s, a.m), Step(s, a.m)) {
      BatchesApart(s, Step(s, a.m), Step(s, a.m));
    }
  }

  lemma AckPolls(s: State, a: Action)
    requires a.Deliver? && Calls.IsFor(s, a.m) && a.m.kind == MsgAppendResp
    ensures Polls(s, Step(s, a.m), a)
  {
    hide Step, Calls.Leading, Calls.JointEnds, Calls.Rises, LastIndex, Membership.HasQuorum;
    if s.role != Leader || a.m.term != s.term {
      Calls.AnswerIgnored(s, a.m);
    } else if a.m.reject {
      Calls.RefusalBacksUp(s, a.m);
    } else {
      Calls.AckEffect(s, a.m);
      LeadingApart(s.(matched := Calls.Acks(s, a.m), next := s.next[a.m.from := a.m.index + 1]), Step(s, a.m).committed);
    }
  }

  lemma LeadingApart(s: State, committed: nat)
    requires s.role == Leader
    ensures var t := Calls.Leading(s, committed); t.id == s.id && t.role != Candidate && (t.votes.Some? ==> t.votes == s.votes)
  {
  }

  lemma BatchPolls(s: State, a: Action)
    requires a.Deliver? && Calls.IsFor(s, a.m) && a.m.kind == MsgAppend
    ensures Polls(s, Step(s, a.m), a)
  {
    hide Step, Append, Term, ScanMembership, LastIndex, Membership.HasQuorum;
    var m := a.m;
    if m.term < s.term || Term(s.log, m.index) != Some(m.logTerm) {
      Calls.BatchRefused(s, m);
    } else if Append(s.log, m.entries).ok {
      Calls.BatchTaken(s, m, Append(s.log, m.entries).log);
    } else {
      Calls.BatchFails(s, m);
    }
  }

  lemma StepPolls(s: State, a: Action)
    requires a.Deliver?
    ensures Polls(s, Step(s, a.m), a)
  {
    hide Membership.HasQuorum, Step;
    var m := a.m;
    if !Calls.IsFor(s, m) || m.kind == MsgUnknown {
      Calls.NotHandled(s, m);
    } else {
      match m.kind
      case MsgPreVote => Calls.PreVoteAnswered(s, m);
      case MsgPreVoteResp => Calls.PreVoteCounted(s, m);
      case MsgVote => Calls.VoteAnswered(s, m);
      case MsgVoteResp => WinPolls(s, a);
      case MsgAppend => BatchPolls(s, a);
      case MsgAppendResp => AckPolls(s, a);
    }
  }

  lemma ActPolls(s: State, a: Action)
    ensures Polls(s, Act(s, a), a)
  {
    hide Polls, Step, Tick, Propose, ProposeConfChange;
    match a
    case TickAt(_) => TickPolls(s, a);
    case ProposeAt(_, command) => ProposalPolls(s, Command(command), a);
    case ChangeAt(_, v, l) =>
      Calls.ChangeRefused(s, v, l);
      SamePolls(s, s, a);
      ProposalPolls(s, Conf(ConfChange(s.membership.oldVoters, set p | p in v, set p | p in l, true)), a);
    case PeerAt(_, peer) =>
      Calls.PeerAdded(s, peer);
      SamePolls(s, AddKnownPeer(s, peer), a);
    case Deliver(_) => StepPolls(s, a);
    case Emit(_) => SamePolls(s, s, a);
    case AdvanceAt(_) => SamePolls(s, Advance(s), a);
  }

  lemma SamePolls(s: State, t: State, a: Action)
    requires t.id == s.id && t.votes == s.votes && t.term == s.term && t.msgs <= s.msgs
    ensures Polls(s, t, a)
  {
  }

  // ---------- Preservation ----------

  lemma CountsGrow(w: Polled, w': Polled, voter: NodeID, candidate: NodeID)
    requires Counts(w, voter, candidate) && w.yes <= w'.yes && w.r.c.net <= w'.r.c.net
    ensures Counts(w', voter, candidate)
  {
  }

  lemma MessageStays(w: Polled, w': Polled, m: Message)
    requires RequestOk(w, m) && AnswerOk(w, m) && w.asked <= w'.asked && w.yes <= w'.yes
    ensures RequestOk(w', m) && AnswerOk(w', m)
  {
    hide ER.Describes;
  }

  lemma YesStays(w: Polled, w': Polled, y: Yes)
    requires YesOk(w, y) && w.asked <= w'.asked
    ensures YesOk(w', y)
  {
    hide ER.NoNewer;
  }

  /** What a node queues is recorded as it should be. */
  lemma QueuedOk(w: Polled, a: Action, b: Message)
    requires Inv(w) && Enabled(w.r.c, a)
    requires var s := w.r.c.nodes[Target(a)]; b in Queued(s, Act(s, a)) && Polls(s, Act(s, a), a)
    ensures var w' := NextPolled(w, a); RequestOk(w', b) && AnswerOk(w', b)
  {
    hide Act, ER.Describes, CountsOnly, MovesUp, YesOk, Calls.NamesNoOlder;
    var s := w.r.c.nodes[Target(a)];
    var t := Act(s, a);
    if b.kind == MsgPreVote {
      assert Ask(t.id, t.log) in AskedIn(s, t);
    } else if b.kind == MsgPreVoteResp && !b.reject {
      assert Yes(t.id, b.to, t.log) in YesIn(s, t);
    }
  }

  lemma NewYesOk(w: Polled, a: Action, y: Yes)
    requires Inv(w) && Enabled(w.r.c, a)
    requires var s := w.r.c.nodes[Target(a)]; y in YesIn(s, Act(s, a)) && PollTraffic(s, Act(s, a), a)
    ensures YesOk(w, y)
  {
    hide Act, ER.Describes, ER.NoNewer, Calls.NamesNoOlder, NodeOk;
    var s := w.r.c.nodes[Target(a)];
    var t := Act(s, a);
    var b :| b in Queued(s, t) && b.kind == MsgPreVoteResp && !b.reject && y == Yes(t.id, b.to, t.log);
    assert InFlight(w.r.c, a.m);
    assert RequestOk(w, a.m);
    var q :| q in w.asked && q.candidate == a.m.from && ER.Describes(a.m, q.log);
    Calls.NamedLog(a.m, t.log, q.log);
  }

  lemma NodeKept(w: Polled, a: Action, i: NodeID)
    requires Inv(w) && Enabled(w.r.c, a) && i in w.r.c.nodes
    requires CountsOnly(w.r.c.nodes[Target(a)], Act(w.r.c.nodes[Target(a)], a), a)
    ensures NodeOk(NextPolled(w, a), i)
  {
    hide Act, Counts, RequestOk, YesOk, AskedIn, YesIn;
    var w' := NextPolled(w, a);
    assert NodeOk(w, i);
    if i == Target(a) {
      var s := w.r.c.nodes[i];
      var t := Act(s, a);
      if t.votes.Some? {
        forall p | p in t.votes.value ensures Counts(w', p, i) {
          if s.votes.Some? && p in s.votes.value {
            CountsGrow(w, w', p, i);
          } else if p != i {
            assert InFlight(w.r.c, a.m);
            CountedNow(w, a.m);
            CountsGrow(w, w', p, i);
          } else {
            CountsItself(w', i);
          }
        }
      }
    } else {
      var s := w.r.c.nodes[i];
      if s.votes.Some? {
        forall p | p in s.votes.value ensures Counts(w', p, i) {
          CountsGrow(w, w', p, i);
        }
      }
    }
  }

  lemma CountsItself(w: Polled, i: NodeID)
    ensures Counts(w, i, i)
  {
  }

  lemma CountedNow(w: Polled, m: Message)
    requires m in w.r.c.net && !m.reject && (m.kind == MsgPreVoteResp || m.kind == MsgVoteResp) && AnswerOk(w, m)
    ensures Counts(w, m.from, m.to)
  {
  }

  lemma NextKeepsInv(w: Polled, a: Action)
    requires Inv(w)
    ensures Inv(NextPolled(w, a))
  {
    hide Act, RequestOk, AnswerOk, NodeOk, YesOk, PollTraffic, CountsOnly, MovesUp, AskedIn, YesIn;
    if Enabled(w.r.c, a) {
      var s := w.r.c.nodes[Target(a)];
      var w' := NextPolled(w, a);
      ActPolls(s, a);
      forall i | i in w'.r.c.nodes ensures NodeOk(w', i) {
        NodeKept(w, a, i);
      }
      forall m | InFlight(w'.r.c, m) ensures RequestOk(w', m) && AnswerOk(w', m) {
        InFlightAfter(w.r, a, m);
        if InFlight(w.r.c, m) {
          MessageStays(w, w', m);
        } else {
          NotQueuedYet(w.r.c, Target(a), m);
          QueuedOk(w, a, m);
        }
      }
      forall y | y in w'.yes ensures YesOk(w', y) {
        if y !in w.yes {
          NewYesOk(w, a, y);
        }
        YesStays(w, w', y);
      }
    }
  }

  lemma NotQueuedYet(c: Cluster, i: NodeID, m: Message)
    requires i in c.nodes && !InFlight(c, m)
    ensures m !in c.nodes[i].msgs
  {
  }

  lemma {:induction false} RunKeepsInv(w: Polled, actions: seq<Action>)
    requires Inv(w)
    ensures Inv(ExecPolled(w, actions))
    decreases |actions|
  {
    hide Inv, NextPolled;
    if actions != [] {
      NextKeepsInv(w, actions[0]);
      RunKeepsInv(NextPolled(w, actions[0]), actions[1..]);
    }
  }

  lemma InitialInv(start: Run, m: Membership)
    requires Initial(start, m)
    ensures Inv(Polled(start, {}, {}))
  {
  }

  // ---------- The result ----------

  /** The node has said yes to the candidate, and its log was then no newer than one the candidate asked with. */
  ghost predicate SaidYes(w: Polled, voter: NodeID, candidate: NodeID) {
    exists y :: y in w.yes && y.voter == voter && y.candidate == candidate && AskedNoOlder(w.asked, candidate, y.log)
  }

  /**
   In every run: a node that becomes a candidate in a later term moves up by one term, and a quorum of its voters
   stands behind it. Each of them is the node itself; or it said yes to a pre-vote, with a log that was then no newer
   than the log the node had when it asked; or it has sent the node a real vote.
   */
  lemma ElectionsArePolled(start: Run, m: Membership, actions: seq<Action>, a: Action)
    requires Initial(start, m) && Enabled(Exec(start, actions).c, a)
    requires var s := Exec(start, actions).c.nodes[Target(a)]; Act(s, a).role == Candidate && Act(s, a).term > s.term
    ensures var w, i := ExecPolled(Polled(start, {}, {}), actions), Target(a);
      && w.r == Exec(start, actions)
      && Act(w.r.c.nodes[i], a).term == w.r.c.nodes[i].term + 1
      && exists q :: w.r.c.nodes[i].membership.HasQuorum(q)
           && forall p | p in q :: p == i || SaidYes(w, p, i) || VoteSent(w.r.c, p, i)
  {
    hide ExecPolled, Exec, Inv, Act, Initial, Membership.HasQuorum, SaidYes, VoteSent;
    InitialInv(start, m);
    RunKeepsInv(Polled(start, {}, {}), actions);
    PolledIsRun(Polled(start, {}, {}), actions);
    var w, i := ExecPolled(Polled(start, {}, {}), actions), Target(a);
    ActPolls(w.r.c.nodes[i], a);
    CountedStandBehind(w, a);
  }

  lemma CountedStandBehind(w: Polled, a: Action)
    requires Inv(w) && Enabled(w.r.c, a)
    requires var s := w.r.c.nodes[Target(a)];
      MovesUp(s, Act(s, a), a) && Act(s, a).role == Candidate && Act(s, a).term > s.term
    ensures var i := Target(a);
      exists q :: w.r.c.nodes[i].membership.HasQuorum(q)
        && forall p | p in q :: p == i || SaidYes(w, p, i) || VoteSent(w.r.c, p, i)
  {
    hide Act, RequestOk, ER.NoNewer, Membership.HasQuorum, AskedNoOlder, VoteSent;
    var i := Target(a);
    var s := w.r.c.nodes[i];
    assert NodeOk(w, i);
    var q := s.votes.value + {a.m.from};
    assert InFlight(w.r.c, a.m);
    assert AnswerOk(w, a.m);
    forall p | p in q ensures p == i || SaidYes(w, p, i) || VoteSent(w.r.c, p, i) {
      if p == a.m.from {
        assert Said(w.yes, p, i);
      } else {
        assert Counts(w, p, i);
      }
    }
  }
}
