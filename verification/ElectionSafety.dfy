/**
 Election safety (section 5.2 of the Raft paper) under one fixed membership, possibly joint: no term
 gets two leaders, in every run that keeps clear of two steps the code allows.

 The first: a node's vote is erased when it accepts an append message or steps down, although the term
 stays the same, so it can vote again in that term. The second: a candidate that has gone back to a
 pre-vote still counts real votes, on top of pre-votes. TwoLeaders shows of each step that it is enough
 to elect two leaders in one term: TwoLeadersInOneTerm of the first, PreVoteAndVoteMix of the second.
 */
module ElectionSafety {
  import opened Wrappers
  import opened Quorums
  import opened RaftLog
  import opened RaftNode
  import opened RaftRuns
  import LM = LogMatching

  // ---------- What one step does to votes ----------

  /** A granted vote, counted by the node that asked for it. */
  ghost predicate CountsVote(s: State, m: Message) {
    m.kind == MsgVoteResp && s.role == Candidate && m.term == s.term && !m.reject
  }

  ghost predicate NewMessages(s: State, t: State) {
    forall b | b in t.msgs && b !in s.msgs ::
      && b.from == s.id
      && (b.kind == MsgVoteResp && !b.reject ==> b.term == t.term && b.to == t.vote)
  }

  /** The real votes a candidate holds are its own, or those it had and the one just counted. */
  ghost predicate VotesCounted(s: State, t: State, m: Message) {
    t.role == Candidate && !t.preVote && t.votes.Some? ==>
      || (t.term > s.term && t.vote == t.id && t.votes.value == {t.id})
      || (s.role == Candidate && !s.preVote && s.votes.Some? && t.term == s.term && t.id == s.id
          && t.votes.value <= s.votes.value + if CountsVote(s, m) then {m.from} else {})
  }

  /** A node starts to lead only by counting a quorum. */
  ghost predicate LeadsByQuorum(s: State, t: State, m: Message) {
    t.role == Leader && !(s.role == Leader && s.term == t.term) ==>
      && t.term == s.term && CountsVote(s, m)
      && s.votes.Some? && s.membership.HasQuorum(s.votes.value + {m.from})
  }

  /** Within a term a vote is kept or erased, never moved in one step. */
  ghost predicate VoteHeld(s: State, t: State) {
    t.term == s.term && s.vote != 0 ==> t.vote == s.vote || t.vote == 0
  }

  ghost predicate VoteStep(s: State, t: State, m: Message) {
    && t.id == s.id && t.term >= s.term
    && VoteHeld(s, t) && NewMessages(s, t) && VotesCounted(s, t, m) && LeadsByQuorum(s, t, m)
  }

  /** Nothing about votes changes. */
  ghost predicate Neutral(s: State, t: State) {
    && t.id == s.id && t.term == s.term && t.vote == s.vote && t.role == s.role
    && t.votes == s.votes && t.preVote == s.preVote
    && forall b | b in t.msgs && b !in s.msgs :: b.from == s.id && b.kind != MsgVoteResp
  }

  lemma ProposeNeutral(s: State, data: Data)
    ensures Neutral(s, ProposeInternal(s, data))
  {
    var e := Entry(|s.log|, s.term, data);
    PushNext(s.log, e);
    hide ScanMembership, EntriesFrom, TermOrZero;
  }

  lemma BroadcastNeutral(s: State)
    ensures Neutral(s, BroadcastAppend(s))
  {
    hide EntriesFrom, TermOrZero;
  }

  lemma AskNeutral(s: State, kind: Kind, term: nat)
    requires kind != MsgVoteResp
    ensures Neutral(s, AskVoters(s, kind, term))
  {
    hide TermOrZero;
  }

  lemma TickVotes(s: State, m: Message)
    ensures VoteStep(s, Tick(s), m)
  {
    hide BroadcastAppend, AskVoters;
    var s1 := s.(electionElapsed := s.electionElapsed + 1);
    var s2 :=
      if s1.role != Leader then s1
      else if s1.heartbeatElapsed + 1 >= s1.heartbeatTick then BroadcastAppend(s1.(heartbeatElapsed := 0))
      else s1.(heartbeatElapsed := s1.heartbeatElapsed + 1);
    BroadcastNeutral(s1.(heartbeatElapsed := 0));
    assert Neutral(s, s2);
    AskNeutral(s2.(electionElapsed := 0, votes := Some({s2.id}), preVote := true), MsgPreVote, s2.term + 1);
  }

  lemma PreVoteRespVotes(s: State, m: Message)
    ensures VoteStep(s, HandlePreVoteResp(s, m), m)
  {
    hide AskVoters;
    AskNeutral(
      s.(preVote := false, role := Candidate, term := s.term + 1, vote := s.id, votes := Some({s.id})),
      MsgVote, s.term + 1);
    if s.votes.Some? {
      AskNeutral(
        s.(votes := Some(s.votes.value + {m.from})).(preVote := false, role := Candidate, term := s.term + 1, vote := s.id, votes := Some({s.id})),
        MsgVote, s.term + 1);
    }
  }

  lemma VoteVotes(s: State, m: Message)
    ensures VoteStep(s, HandleVote(s, m), m)
  {
    hide LogUpToDate;
  }

  lemma BecomeLeaderVotes(s: State)
    ensures var t := BecomeLeader(s);
            && t.id == s.id && t.term == s.term && t.vote == s.vote && t.role == Leader
            && forall b | b in t.msgs && b !in s.msgs :: b.from == s.id && b.kind != MsgVoteResp
  {
    hide ProposeInternal, BroadcastAppend;
    ProposeNeutral(StartLeading(s), JointLeaderNoop);
    BroadcastNeutral(StartLeading(s));
  }

  lemma VoteRespVotes(s: State, m: Message)
    requires m.kind == MsgVoteResp
    requires CountsVote(s, m) ==> !s.preVote
    ensures VoteStep(s, HandleVoteResp(s, m), m)
  {
    hide BecomeLeader;
    if s.votes.Some? {
      BecomeLeaderVotes(s.(votes := Some(s.votes.value + {m.from})));
    }
  }

  lemma AppendVotes(s: State, m: Message)
    ensures VoteStep(s, HandleAppend(s, m), m)
  {
    hide Append, ScanMembership, Fits, Contiguous, LastIndex;
  }

  lemma AdvanceCommitVotes(s: State, m: Message)
    requires s.role == Leader
    ensures VoteStep(s, AdvanceCommit(s), m)
  {
    hide CommitTarget, ProposeInternal, BroadcastAppend;
    if CommitTarget(s).Some? {
      var s1 := BroadcastAppend(s.(committed := CommitTarget(s).value));
      BroadcastNeutral(s.(committed := CommitTarget(s).value));
      ProposeNeutral(s1, Conf(ConfChange({}, s1.membership.newVoters, {}, false)));
    }
  }

  lemma AppendRespVotes(s: State, m: Message)
    ensures VoteStep(s, HandleAppendResp(s, m), m)
  {
    hide AdvanceCommit, EntriesFrom, TermOrZero;
    var s1 := Recorded(s, m.from, m.index);
    if s.role == Leader {
      AdvanceCommitVotes(s1, m);
    }
  }

  lemma HandleVotes(s: State, m: Message)
    requires CountsVote(s, m) ==> !s.preVote
    ensures VoteStep(s, Handle(s, m), m)
  {
    hide HandlePreVoteResp, HandleVote, HandleVoteResp, HandleAppend, HandleAppendResp, LogUpToDate;
    match m.kind
    case MsgPreVoteResp => PreVoteRespVotes(s, m);
    case MsgVote => VoteVotes(s, m);
    case MsgVoteResp => VoteRespVotes(s, m);
    case MsgAppend => AppendVotes(s, m);
    case MsgAppendResp => AppendRespVotes(s, m);
    case _ =>
  }

  lemma StepVotes(s: State, m: Message)
    requires CountsVote(s, m) ==> !s.preVote
    ensures VoteStep(s, Step(s, m), m)
  {
    hide Handle;
    HandleVotes(AdoptTerm(s, m), m);
  }

  lemma ActVotes(s: State, a: Action, m: Message)
    requires a.Deliver? ==> m == a.m && (CountsVote(s, m) ==> !s.preVote)
    ensures VoteStep(s, Act(s, a), m)
  {
    hide Step, Tick, ProposeInternal;
    match a
    case TickAt(_) => TickVotes(s, m);
    case ProposeAt(_, command) => ProposeNeutral(s, Command(command));
    case ChangeAt(_, v, l) => ProposeNeutral(s, Conf(ConfChange(s.membership.oldVoters, IdSet(v), IdSet(l), true)));
    case Deliver(_) => StepVotes(s, m);
    case _ =>
  }

  // ---------- When a vote is erased ----------

  /** This acknowledgement commits the entry that has removed the leader from the voters. */
  ghost predicate StepsDown(s: State, m: Message) {
    && m.kind == MsgAppendResp && s.role == Leader && m.term == s.term && !m.reject
    && !s.membership.joint && !IsVoter(s, s.id)
    && CommitTarget(Recorded(s, m.from, m.index)).Some?
  }

  lemma AdvanceCommitErases(s: State)
    requires s.role == Leader
    ensures AdvanceCommit(s).vote == if CommitTarget(s).Some? && !s.membership.joint && !IsVoter(s, s.id) then 0 else s.vote
    ensures AdvanceCommit(s).term == s.term
  {
    hide CommitTarget, ProposeInternal;
    if CommitTarget(s).Some? {
      var s1 := BroadcastAppend(s.(committed := CommitTarget(s).value));
      ProposeNeutral(s1, Conf(ConfChange({}, s1.membership.newVoters, {}, false)));
    }
  }

  lemma AppendErases(s: State, m: Message)
    ensures HandleAppend(s, m).vote == if m.term < s.term then s.vote else 0
    ensures HandleAppend(s, m).term == if m.term < s.term then s.term else m.term
  {
    hide Append, ScanMembership, Fits, Contiguous, LastIndex;
  }

  lemma AppendRespErases(s: State, m: Message)
    requires m.kind == MsgAppendResp
    ensures HandleAppendResp(s, m).vote == if StepsDown(s, m) then 0 else s.vote
    ensures HandleAppendResp(s, m).term == s.term
  {
    hide AdvanceCommit, AppendMessage, CommitTarget;
    var s1 := Recorded(s, m.from, m.index);
    if s.role == Leader {
      AdvanceCommitErases(s1);
    }
  }

  lemma BecomeLeaderKeepsVote(s: State, m: Message)
    ensures HandleVoteResp(s, m).vote == s.vote && HandleVoteResp(s, m).term == s.term
    ensures NewMessages(s, HandleVoteResp(s, m))
  {
    hide BecomeLeader;
    if s.votes.Some? {
      BecomeLeaderVotes(s.(votes := Some(s.votes.value + {m.from})));
    }
  }

  /**
   A held vote is lost without the term moving on by exactly two calls: an append message of the node's
   own term, and the acknowledgement that makes a removed leader step down.
   */
  lemma VoteErasedExactly(s: State, m: Message)
    requires s.vote != 0
    ensures var t := Step(s, m);
            t.term == s.term && t.vote != s.vote <==>
            (m.to == 0 || m.to == s.id) && ((m.kind == MsgAppend && m.term == s.term) || StepsDown(s, m))
  {
    hide HandleVoteResp, HandleAppend, HandleAppendResp, StepsDown, LogUpToDate, AskVoters;
    if m.to != 0 && m.to != s.id {
      return;
    }
    NotSteppingDown(s, m);
    match m.kind
    case MsgVoteResp => BecomeLeaderKeepsVote(AdoptTerm(s, m), m);
    case MsgAppend => AppendErases(AdoptTerm(s, m), m);
    case MsgAppendResp => AppendRespErases(AdoptTerm(s, m), m);
    case MsgPreVoteResp => PreVoteRespKeepsVote(s, m);
    case _ =>
  }

  lemma NotSteppingDown(s: State, m: Message)
    ensures m.kind != MsgAppendResp || m.term != s.term ==> !StepsDown(s, m)
  {
  }

  lemma PreVoteRespKeepsVote(s: State, m: Message)
    ensures var t := HandlePreVoteResp(s, m); t.term == s.term ==> t.vote == s.vote
  {
    hide Requests;
  }

  // ---------- The steps to keep clear of ----------

  /** A vote that was not held before the step. */
  ghost predicate VotesAnew(s: State, t: State) {
    t.vote != 0 && !(t.term == s.term && t.vote == s.vote)
  }

  ghost predicate KeepsVotesApart(r: Run, a: Action) {
    Enabled(r.c, a) ==>
      var i := Target(a);
      var s := r.c.nodes[i];
      // no vote is given in a term in which an earlier vote was erased
      && (VotesAnew(s, Act(s, a)) ==> (i, Act(s, a).term) !in r.erased)
      // no real vote is counted during a pre-vote
      && (a.Deliver? && CountsVote(s, a.m) ==> !s.preVote)
  }

  /** Such a step of a node whose membership has not changed. */
  ghost predicate SafeStep(r: Run, a: Action, fixed: Membership) {
    KeepsVotesApart(r, a) && (Enabled(r.c, a) ==> r.c.nodes[Target(a)].membership == fixed)
  }

  ghost predicate SafeRun(r: Run, actions: seq<Action>, fixed: Membership)
    decreases |actions|
  {
    actions != [] ==> SafeStep(r, actions[0], fixed) && SafeRun(Next(r, actions[0]), actions[1..], fixed)
  }

  // ---------- The invariant ----------

  ghost predicate NodeOk(r: Run, i: NodeID)
    requires i in r.c.nodes
  {
    var s := r.c.nodes[i];
    && i != 0 && s.id == i
    && (s.vote != 0 ==> Ballot(i, s.term, s.vote) in r.ballots)
    && (s.role == Candidate && !s.preVote && s.votes.Some? ==>
          forall v | v in s.votes.value :: Ballot(v, s.term, i) in r.ballots)
  }

  ghost predicate BallotOk(r: Run, b: Ballot) {
    && b.candidate != 0
    && b.voter in r.c.nodes
    && var s := r.c.nodes[b.voter];
       && b.term <= s.term
       && (b.term == s.term ==> s.vote == b.candidate || (b.voter, b.term) in r.erased)
  }

  ghost predicate MessageOk(r: Run, m: Message) {
    m.kind == MsgVoteResp && !m.reject && m.to != 0 ==> Ballot(m.from, m.term, m.to) in r.ballots
  }

  /** Each node has voted for at most one candidate in each term. */
  ghost predicate OneVotePerTerm(r: Run) {
    forall a, b | a in r.ballots && b in r.ballots && a.voter == b.voter && a.term == b.term :: a == b
  }

  ghost predicate Supported(ballots: set<Ballot>, l: (nat, NodeID), q: set<NodeID>) {
    forall v | v in q :: Ballot(v, l.0, l.1) in ballots
  }

  ghost predicate LeaderOk(r: Run, l: (nat, NodeID), fixed: Membership) {
    exists q :: fixed.HasQuorum(q) && Supported(r.ballots, l, q)
  }

  ghost predicate VotesInv(r: Run) {
    && (forall i | i in r.c.nodes :: NodeOk(r, i))
    && (forall b | b in r.ballots :: BallotOk(r, b))
    && (forall e | e in r.erased :: e.0 in r.c.nodes && e.1 <= r.c.nodes[e.0].term)
    && OneVotePerTerm(r)
    && (forall m | InFlight(r.c, m) :: MessageOk(r, m))
    && (forall l | l in r.leaders :: l.1 in r.c.nodes && l.0 <= r.c.nodes[l.1].term)
    && (forall i | i in r.c.nodes && r.c.nodes[i].role == Leader :: (r.c.nodes[i].term, i) in r.leaders)
  }

  ghost predicate Inv(r: Run, fixed: Membership) {
    VotesInv(r) && forall l | l in r.leaders :: LeaderOk(r, l, fixed)
  }

  lemma NodeKept(r: Run, i: NodeID, t: State, net: set<Message>, m: Message, j: NodeID)
    requires VotesInv(r) && i in r.c.nodes && VoteStep(r.c.nodes[i], t, m)
    requires CountsVote(r.c.nodes[i], m) ==> m.to == i && MessageOk(r, m)
    requires j in r.c.nodes
    ensures NodeOk(Record(r, i, t, net), j)
  {
    hide OneVotePerTerm, NewMessages, LeadsByQuorum, BallotOk;
    assert NodeOk(r, j) && NodeOk(r, i);
  }

  lemma BallotKept(r: Run, i: NodeID, t: State, net: set<Message>, m: Message, b: Ballot)
    requires VotesInv(r) && i in r.c.nodes && VoteStep(r.c.nodes[i], t, m)
    requires b in Record(r, i, t, net).ballots
    ensures BallotOk(Record(r, i, t, net), b)
  {
    hide OneVotePerTerm, NewMessages, VotesCounted, LeadsByQuorum, MessageOk;
    if b in r.ballots {
      assert BallotOk(r, b);
    }
  }

  lemma VotesStayUnique(r: Run, i: NodeID, t: State, net: set<Message>, m: Message)
    requires VotesInv(r) && i in r.c.nodes && VoteStep(r.c.nodes[i], t, m)
    requires VotesAnew(r.c.nodes[i], t) ==> (i, t.term) !in r.erased
    ensures OneVotePerTerm(Record(r, i, t, net))
  {
    hide NewMessages, VotesCounted, LeadsByQuorum, MessageOk;
    var s := r.c.nodes[i];
    assert NodeOk(r, i);
    forall b | b in r.ballots && b.voter == i && b.term == t.term && t.vote != 0 ensures b.candidate == t.vote {
      assert BallotOk(r, b);
      if t.vote == s.vote {
        assert Ballot(i, s.term, s.vote) in r.ballots;
      }
    }
  }

  lemma MessageKept(r: Run, i: NodeID, t: State, net: set<Message>, m: Message, b: Message)
    requires VotesInv(r) && i in r.c.nodes && VoteStep(r.c.nodes[i], t, m)
    requires MessageOk(r, b) || (b in t.msgs && b !in r.c.nodes[i].msgs)
    ensures MessageOk(Record(r, i, t, net), b)
  {
    hide OneVotePerTerm, VotesCounted, LeadsByQuorum, BallotOk;
    assert NodeOk(r, i);
  }

  /** What a node has queued afterwards was queued or in flight before, or is new. */
  lemma RecordKeepsVotes(r: Run, i: NodeID, t: State, net: set<Message>, m: Message)
    requires VotesInv(r) && i in r.c.nodes && VoteStep(r.c.nodes[i], t, m)
    requires CountsVote(r.c.nodes[i], m) ==> m.to == i && MessageOk(r, m)
    requires VotesAnew(r.c.nodes[i], t) ==> (i, t.term) !in r.erased
    requires forall b | InFlight(Record(r, i, t, net).c, b) :: InFlight(r.c, b) || (b in t.msgs && b !in r.c.nodes[i].msgs)
    ensures VotesInv(Record(r, i, t, net))
  {
    hide NodeOk, BallotOk, MessageOk, OneVotePerTerm, VotesAnew, CountsVote, InFlight, VoteStep;
    var r' := Record(r, i, t, net);
    TermsGrow(r.c.nodes[i], t, m);
    forall j | j in r'.c.nodes ensures NodeOk(r', j) {
      NodeKept(r, i, t, net, m, j);
    }
    forall b | b in r'.ballots ensures BallotOk(r', b) {
      BallotKept(r, i, t, net, m, b);
    }
    VotesStayUnique(r, i, t, net, m);
    forall b | InFlight(r'.c, b) ensures MessageOk(r', b) {
      MessageKept(r, i, t, net, m, b);
    }
  }

  lemma TermsGrow(s: State, t: State, m: Message)
    requires VoteStep(s, t, m)
    ensures t.term >= s.term
  {
  }

  lemma LeaderKept(r: Run, i: NodeID, t: State, net: set<Message>, m: Message, fixed: Membership, l: (nat, NodeID))
    requires Inv(r, fixed) && i in r.c.nodes && VoteStep(r.c.nodes[i], t, m)
    requires CountsVote(r.c.nodes[i], m) ==> m.to == i && MessageOk(r, m) && !r.c.nodes[i].preVote
    requires r.c.nodes[i].membership == fixed
    requires l in Record(r, i, t, net).leaders
    ensures LeaderOk(Record(r, i, t, net), l, fixed)
  {
    hide OneVotePerTerm, NewMessages, VotesCounted, BallotOk;
    var s := r.c.nodes[i];
    assert NodeOk(r, i);
    if l in r.leaders {
      var q :| fixed.HasQuorum(q) && Supported(r.ballots, l, q);
      assert Supported(Record(r, i, t, net).ballots, l, q);
    } else {
      var q := s.votes.value + {m.from};
      assert Supported(Record(r, i, t, net).ballots, l, q);
    }
  }

  /** A counted vote has been given, and every step is one of those above. */
  lemma NextKeepsVotes(r: Run, a: Action)
    requires VotesInv(r) && KeepsVotesApart(r, a)
    ensures VotesInv(Next(r, a))
    ensures Enabled(r.c, a) ==>
      var i, s := Target(a), r.c.nodes[Target(a)];
      VoteStep(s, Act(s, a), MessageOf(a)) && (CountsVote(s, MessageOf(a)) ==> MessageOf(a).to == i && MessageOk(r, MessageOf(a)) && !s.preVote)
  {
    hide Act, NodeOk, BallotOk, MessageOk, OneVotePerTerm, VotesAnew, CountsVote, VoteStep;
    if Enabled(r.c, a) {
      var i := Target(a);
      var s, t := r.c.nodes[i], Act(r.c.nodes[i], a);
      var net := if a.Emit? then r.c.net + s.msgs else r.c.net;
      var m := MessageOf(a);
      assert Next(r, a) == Record(r, i, t, net);
      NotCounted(s, a, m);
      if a.Deliver? {
        assert InFlight(r.c, m);
      }
      ActVotes(s, a, m);
      forall b | InFlight(Record(r, i, t, net).c, b) ensures InFlight(r.c, b) || (b in t.msgs && b !in s.msgs) {
        InFlightAfter(r, a, b);
        assert b in s.msgs ==> InFlight(r.c, b);
      }
      RecordKeepsVotes(r, i, t, net, m);
    }
  }

  lemma NextKeepsInv(r: Run, a: Action, fixed: Membership)
    requires Inv(r, fixed) && SafeStep(r, a, fixed)
    ensures Inv(Next(r, a), fixed)
  {
    hide VotesInv, Act, NodeOk, MessageOk, LeaderOk, CountsVote, VoteStep, KeepsVotesApart;
    NextKeepsVotes(r, a);
    if Enabled(r.c, a) {
      var i := Target(a);
      var t, net := Act(r.c.nodes[i], a), if a.Emit? then r.c.net + r.c.nodes[i].msgs else r.c.net;
      assert Next(r, a) == Record(r, i, t, net);
      forall l | l in Next(r, a).leaders ensures LeaderOk(Next(r, a), l, fixed) {
        LeaderKept(r, i, t, net, MessageOf(a), fixed, l);
      }
    }
  }

  lemma NotCounted(s: State, a: Action, m: Message)
    requires a.Deliver? || m.kind == MsgUnknown
    ensures !a.Deliver? ==> !CountsVote(s, m)
  {
  }

  lemma {:induction false} RunKeepsInv(r: Run, actions: seq<Action>, fixed: Membership)
    requires Inv(r, fixed) && SafeRun(r, actions, fixed)
    ensures Inv(Exec(r, actions), fixed)
    decreases |actions|
  {
    hide Inv, Next, SafeStep;
    if actions != [] {
      NextKeepsInv(r, actions[0], fixed);
      RunKeepsInv(Next(r, actions[0]), actions[1..], fixed);
    }
  }

  // ---------- The results ----------

  /** Two leaders of one term would share a voter of their quorums, who voted once. */
  lemma InvMeansOneLeader(r: Run, fixed: Membership)
    requires Inv(r, fixed)
    ensures OneLeaderPerTerm(r)
  {
    hide NodeOk, BallotOk, MessageOk;
    forall a, b | a in r.leaders && b in r.leaders && a.0 == b.0 ensures a.1 == b.1 {
      assert LeaderOk(r, a, fixed) && LeaderOk(r, b, fixed);
      var p :| fixed.HasQuorum(p) && Supported(r.ballots, a, p);
      var q :| fixed.HasQuorum(q) && Supported(r.ballots, b, q);
      QuorumsMeet(fixed, fixed, p, q);
      var v :| v in p && v in q;
      assert Ballot(v, a.0, a.1) in r.ballots && Ballot(v, b.0, b.1) in r.ballots;
    }
  }

  lemma InitialInv(r: Run, fixed: Membership)
    requires Initial(r, fixed)
    ensures Inv(r, fixed)
  {
  }

  /** Election safety, and one vote per node and term. */
  lemma ElectionSafe(start: Run, actions: seq<Action>, fixed: Membership)
    requires Initial(start, fixed) && SafeRun(start, actions, fixed)
    ensures OneLeaderPerTerm(Exec(start, actions)) && OneVotePerTerm(Exec(start, actions))
  {
    hide Next, SafeRun;
    InitialInv(start, fixed);
    RunKeepsInv(start, actions, fixed);
    InvMeansOneLeader(Exec(start, actions), fixed);
  }

  /** So in such runs logs match, with nothing assumed about leaders. */
  lemma SafeRunsMatchLogs(start: Run, actions: seq<Action>, fixed: Membership, i: NodeID, j: NodeID, k: nat)
    requires Initial(start, fixed) && SafeRun(start, actions, fixed)
    requires var c := Exec(start, actions).c;
             && i in c.nodes && j in c.nodes
             && k < |c.nodes[i].log| && k < |c.nodes[j].log| && c.nodes[i].log[k].term == c.nodes[j].log[k].term
    ensures var c := Exec(start, actions).c; c.nodes[i].log[..k + 1] == c.nodes[j].log[..k + 1]
  {
    hide Next, SafeRun, OneLeaderPerTerm;
    ElectionSafe(start, actions, fixed);
    LM.LogsMatch(Exec(start, actions), fixed, i, j, k);
  }
}
