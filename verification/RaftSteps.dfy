/**
 What one call can do to a replica's log, role and outgoing messages, stated once for every handler.
 */
module RaftSteps {
  import opened Wrappers
  import opened Quorums
  import opened RaftLog
  import opened RaftNode

  // ---------- Messages that carry entries ----------

  /**
   An append message taken from the log `L`: the entries right after `index`, whose term is `logTerm`.
   A leader that tracks a peer wrongly can also send two useless kinds, which every receiver refuses:
   one that names a missing previous entry, and one that starts with the placeholder.
   */
  ghost predicate TakenFrom(m: Message, L: seq<Entry>) {
    || (m.index < |L| && L[m.index].term == m.logTerm
        && m.index + 1 + |m.entries| <= |L| && m.entries == L[m.index + 1..m.index + 1 + |m.entries|])
    || (m.index > 0 && m.logTerm == 0 && m.entries == [])
    || (m.entries != [] && m.entries[0].index == 0)
  }

  lemma TakenFromLonger(m: Message, L: seq<Entry>, M: seq<Entry>)
    requires TakenFrom(m, L) && L <= M
    ensures TakenFrom(m, M)
  {
    if m.index + 1 + |m.entries| <= |L| {
      assert M[m.index + 1..m.index + 1 + |m.entries|] == L[m.index + 1..m.index + 1 + |m.entries|];
    }
  }

  lemma AppendMessageTaken(s: State, to: NodeID)
    ensures TakenFrom(AppendMessage(s, to), s.log)
  {
    var next := if to in s.next then s.next[to] else 0;
    var m := AppendMessage(s, to);
    if next == 0 {
      assert m.entries == s.log[0..];
    } else if next <= |s.log| {
      assert m.entries == s.log[next..];
    }
  }

  // ---------- One step ----------

  /** An append message sent in a step was sent by the leader of its term, to somebody else. */
  ghost predicate SentByLeader(s: State, t: State, m: Message) {
    && m.from == s.id && m.to != s.id
    && (s.role == Leader || t.role == Leader)
    && m.term == s.term
    && TakenFrom(m, t.log)
  }

  ghost predicate SendsWell(s: State, t: State) {
    forall m | m in t.msgs && m !in s.msgs ::
      m.from != m.to && (m.kind == MsgAppend ==> SentByLeader(s, t, m))
  }

  /** The log is left alone, and nobody starts to lead. */
  ghost predicate Quiet(s: State, t: State) {
    t.log == s.log && (t.role == Leader ==> s.role == Leader && t.term == s.term)
  }

  ghost predicate Elected(s: State, t: State) {
    && s.role == Candidate && t.role == Leader && t.term == s.term
    && (t.log == s.log || t.log == s.log + [Entry(|s.log|, s.term, JointLeaderNoop)])
  }

  /** The config change in an entry is the next step of the change the node is in. */
  ghost predicate NextConf(s: State, data: Data) {
    data.Conf? ==> Successor(s.membership, MembershipOf(data.change))
  }

  ghost predicate Proposed(s: State, t: State) {
    && s.role == Leader && t.role == Leader && t.term == s.term
    && |t.log| == |s.log| + 1
    && t.log == s.log + [Entry(|s.log|, s.term, t.log[|s.log|].data)]
    && NextConf(s, t.log[|s.log|].data)
  }

  /** A batch from the leader of the message's term was accepted. */
  ghost predicate Received(s: State, t: State, m: Message) {
    && m.kind == MsgAppend && m.term >= s.term
    && t.role == Follower && t.term == m.term
    && Fits(s, m)
    && t.log == Append(s.log, m.entries).log
    && forall a | a in t.msgs && a !in s.msgs :: a.kind != MsgAppend
  }

  /** Roles change only forward in terms: a node becomes a candidate only in a new term. */
  ghost predicate RolesMove(s: State, t: State) {
    && t.id == s.id && t.initialMembership == s.initialMembership
    && t.term >= s.term
    && (t.role == Candidate ==> t.term > s.term || (s.role == Candidate && t.term == s.term))
    && (t.role == Leader ==> t.term == s.term && s.role != Follower)
    && (NoPreVoteWhileLeading(s) ==> NoPreVoteWhileLeading(t))
  }

  /** A node that leads has no pre-vote running. */
  ghost predicate NoPreVoteWhileLeading(s: State) {
    s.role == Leader ==> !s.preVote
  }

  ghost predicate LogStep(s: State, t: State, m: Message) {
    && RolesMove(s, t)
    && SendsWell(s, t)
    && (Quiet(s, t) || Elected(s, t) || Proposed(s, t) || Received(s, t, m))
  }

  /** A step that involves no message is a step for any message. */
  ghost predicate LocalStep(s: State, t: State) {
    && RolesMove(s, t)
    && SendsWell(s, t)
    && (Quiet(s, t) || Elected(s, t) || Proposed(s, t))
  }

  lemma QuietStep(s: State, t: State)
    requires t.id == s.id && t.initialMembership == s.initialMembership && t.log == s.log
    requires t.role == s.role && t.term == s.term && t.preVote == s.preVote && t.msgs == s.msgs
    ensures LocalStep(s, t)
  {
  }

  lemma ReplyQuiet(s: State, kind: Kind, to: NodeID, index: nat, reject: bool)
    requires kind != MsgAppend && to != s.id
    ensures LocalStep(s, Reply(s, kind, to, index, reject))
  {
  }

  lemma BroadcastQuiet(s: State)
    requires s.role == Leader
    ensures LocalStep(s, BroadcastAppend(s))
  {
    forall p ensures TakenFrom(AppendMessage(s, p), s.log) {
      AppendMessageTaken(s, p);
    }
  }

  lemma SendAppendQuiet(s: State, to: NodeID)
    requires s.role == Leader && to != s.id
    ensures LocalStep(s, SendAppend(s, to))
  {
    AppendMessageTaken(s, to);
  }

  /** What proposing does, whatever the role: one entry of the current term at the end. */
  lemma ProposeEffect(s: State, data: Data)
    ensures var t, e := ProposeInternal(s, data), Entry(|s.log|, s.term, data);
            && t.log == s.log + [e]
            && t.role == s.role && t.term == s.term && t.id == s.id && t.initialMembership == s.initialMembership
            && t.preVote == s.preVote
            && t.unstable == s.unstable + [e]
            && (forall m | m in t.msgs && m !in s.msgs ::
                  m.kind == MsgAppend && m.from == s.id && m.to != s.id && m.term == s.term && TakenFrom(m, t.log))
  {
    var e := Entry(|s.log|, s.term, data);
    PushNext(s.log, e);
    var s1 := s.(log := s.log + [e]);
    var s2 := if data.Conf? then Recompute(s1) else s1;
    var s3 := s2.(unstable := s2.unstable + [e], matched := s2.matched[s.id := LastIndex(s2.log)]);
    assert ProposeInternal(s, data) == BroadcastAppend(s3);
    forall p ensures TakenFrom(AppendMessage(s3, p), s3.log) {
      AppendMessageTaken(s3, p);
    }
  }

  lemma LeaderProposes(s: State, data: Data)
    requires s.role == Leader && NextConf(s, data)
    ensures LocalStep(s, ProposeInternal(s, data))
  {
    hide ProposeInternal;
    ProposeEffect(s, data);
  }

  /** Two local steps in a row, the first of which leaves the log, role and term alone. */
  lemma QuietThen(s: State, u: State, t: State)
    requires LocalStep(s, u) && u.log == s.log && u.role == s.role && u.term == s.term && u.membership == s.membership
    requires LocalStep(u, t)
    ensures LocalStep(s, t)
  {
  }

  lemma BecomeLeaderStep(s: State)
    requires s.role == Candidate
    ensures LocalStep(s, BecomeLeader(s))
  {
    var s1 := StartLeading(s);
    if s1.membership.joint {
      ProposeEffect(s1, JointLeaderNoop);
      hide ProposeInternal;
    } else {
      BroadcastQuiet(s1);
      hide BroadcastAppend;
    }
  }

  // ---------- Handlers ----------

  lemma PreVoteStep(s: State, m: Message)
    requires m.from != s.id
    ensures LocalStep(s, HandlePreVote(s, m))
  {
    var ok := m.term >= s.term + 1 && LogUpToDate(s, m.index, m.logTerm);
    ReplyQuiet(s, MsgPreVoteResp, m.from, 0, !ok);
    ReplyQuiet(s, MsgPreVoteResp, m.from, 0, true);
  }

  lemma StartElectionStep(s: State)
    requires s.role != Leader
    ensures LocalStep(s, StartElection(s))
  {
  }

  lemma PreVoteRespStep(s: State, m: Message)
    requires s.role == Leader ==> !s.preVote
    ensures LocalStep(s, HandlePreVoteResp(s, m))
  {
    if s.preVote && s.votes.Some? {
      StartElectionStep(s.(votes := Some(s.votes.value + {m.from})));
      hide StartElection;
    }
  }

  lemma VoteStep(s: State, m: Message)
    requires m.from != s.id
    ensures LocalStep(s, HandleVote(s, m))
  {
    ReplyQuiet(s.(vote := m.from, electionElapsed := 0), MsgVoteResp, m.from, 0, false);
    ReplyQuiet(s, MsgVoteResp, m.from, 0, true);
  }

  lemma VoteRespStep(s: State, m: Message)
    ensures LocalStep(s, HandleVoteResp(s, m))
  {
    if s.role == Candidate && s.votes.Some? {
      BecomeLeaderStep(s.(votes := Some(s.votes.value + {m.from})));
      hide BecomeLeader;
    }
  }

  lemma AppendStep(s: State, m: Message)
    requires m.from != s.id && m.kind == MsgAppend
    ensures LogStep(s, HandleAppend(s, m), m)
  {
    hide Append, ScanMembership, TakenFrom;
    if m.term < s.term {
      ReplyQuiet(s, MsgAppendResp, m.from, LastIndex(s.log), true);
    } else {
      var s1 := BecomeFollower(s, m.term, m.from);
      var t := HandleAppend(s, m);
      assert t.log == s.log || (Fits(s, m) && t.log == Append(s.log, m.entries).log);
      assert t.role == Follower && t.term == m.term;
    }
  }

  lemma AdvanceCommitStep(s: State)
    requires s.role == Leader
    ensures LocalStep(s, AdvanceCommit(s)) && AdvanceCommit(s).term == s.term
  {
    hide CommitTarget;
    if CommitTarget(s).Some? {
      var s1 := s.(committed := CommitTarget(s).value);
      var s2 := BroadcastAppend(s1);
      BroadcastQuiet(s1);
      LeaveStep(s2);
      hide BroadcastAppend, LeaveJointOrStepDown;
      QuietThen(s, s2, AdvanceCommit(s));
    }
  }

  lemma LeaveStep(s: State)
    requires s.role == Leader
    ensures LocalStep(s, LeaveJointOrStepDown(s)) && LeaveJointOrStepDown(s).term == s.term
  {
    if s.membership.joint {
      var data := Conf(ConfChange({}, s.membership.newVoters, {}, false));
      ProposeEffect(s, data);
      LeaderProposes(s, data);
      hide ProposeInternal;
    }
  }

  lemma ThenSend(s: State, t: State, to: NodeID)
    requires LocalStep(s, t) && s.role == Leader && t.term == s.term && to != s.id
    ensures LocalStep(s, SendAppend(t, to))
  {
    AppendMessageTaken(t, to);
  }

  lemma RejectStep(s: State, m: Message)
    requires m.from != s.id && s.role == Leader && m.term == s.term && m.reject
    ensures LocalStep(s, HandleAppendResp(s, m))
  {
    var next := if m.from in s.next then s.next[m.from] else 0;
    var s1 := if next > 1 then s.(next := s.next[m.from := next - 1]) else s;
    SendAppendQuiet(s1, m.from);
    hide SendAppend;
  }

  lemma AckStep(s: State, m: Message)
    requires m.from != s.id && s.role == Leader && m.term == s.term && !m.reject
    ensures LocalStep(s, HandleAppendResp(s, m))
  {
    hide AdvanceCommit, SendAppend, LocalStep;
    var s1 := Recorded(s, m.from, m.index);
    AdvanceCommitStep(s1);
    ThenSend(s1, AdvanceCommit(s1), m.from);
    QuietStep(s, s1);
    QuietThen(s, s1, HandleAppendResp(s, m));
  }

  lemma AppendRespStep(s: State, m: Message)
    requires m.from != s.id
    ensures LocalStep(s, HandleAppendResp(s, m))
  {
    if s.role == Leader && m.term == s.term {
      if m.reject {
        RejectStep(s, m);
      } else {
        AckStep(s, m);
      }
    }
  }

  lemma HandleStep(s: State, m: Message)
    requires m.from != s.id && NoPreVoteWhileLeading(s)
    ensures LogStep(s, Handle(s, m), m)
  {
    hide HandlePreVote, HandlePreVoteResp, HandleVote, HandleVoteResp, HandleAppend, HandleAppendResp;
    match m.kind
    case MsgPreVote => PreVoteStep(s, m);
    case MsgPreVoteResp => PreVoteRespStep(s, m);
    case MsgVote => VoteStep(s, m);
    case MsgVoteResp => VoteRespStep(s, m);
    case MsgAppend => AppendStep(s, m);
    case MsgAppendResp => AppendRespStep(s, m);
    case MsgUnknown =>
  }

  /** Whatever message arrives, the step is one of the four kinds. */
  lemma StepIsLogStep(s: State, m: Message)
    requires m.from != s.id && NoPreVoteWhileLeading(s)
    ensures LogStep(s, Step(s, m), m)
  {
    var s1 := AdoptTerm(s, m);
    HandleStep(s1, m);
    hide Handle;
  }

  lemma TickStep(s: State)
    ensures LocalStep(s, Tick(s))
  {
    var s1 := s.(electionElapsed := s.electionElapsed + 1);
    BroadcastQuiet'(s1.(heartbeatElapsed := 0));
    hide BroadcastAppend;
  }

  lemma BroadcastQuiet'(s: State)
    ensures s.role == Leader ==> LocalStep(s, BroadcastAppend(s))
  {
    if s.role == Leader {
      BroadcastQuiet(s);
    }
  }

  lemma ProposeStep(s: State, data: Data)
    requires NextConf(s, data)
    ensures LocalStep(s, Propose(s, data))
  {
    if s.role == Leader {
      LeaderProposes(s, data);
      hide ProposeInternal;
    }
  }

  lemma ConfChangeStep(s: State, newVoters: seq<NodeID>, newLearners: seq<NodeID>)
    ensures LocalStep(s, ProposeConfChange(s, newVoters, newLearners))
  {
    if ConfChangeError(s, newVoters, newLearners).None? {
      LeaderProposes(s, Conf(ConfChange(s.membership.oldVoters, IdSet(newVoters), IdSet(newLearners), true)));
      hide ProposeInternal;
    }
  }

  lemma LocalIsLog(s: State, t: State, m: Message)
    requires LocalStep(s, t)
    ensures LogStep(s, t, m)
  {
  }

  lemma PeerStep(s: State, peer: NodeID)
    ensures LocalStep(s, AddKnownPeer(s, peer))
  {
  }

  lemma EmitStep(s: State)
    ensures LocalStep(s, s)
  {
  }

  lemma AdvanceStep(s: State)
    ensures LocalStep(s, Advance(s))
  {
  }
}
