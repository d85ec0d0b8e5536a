/**
 What one call on a node does to acknowledgements and to the commit index, stated once for every handler:
 which acknowledgements it sends, what a leader comes to believe of its followers, how the commit index moves,
 and which commit index goes out with a batch.
 */
module CallFacts {
  import opened Wrappers
  import opened Quorums
  import opened RaftLog
  import opened RaftNode
  import opened RaftRuns
  import Acks
  import LM = LogMatching

  /** A leader of the message's term is told that a batch was taken. */
  ghost predicate Acknowledged(s: State, m: Message) {
    m.kind == MsgAppendResp && s.role == Leader && m.term == s.term && !m.reject
  }

  /** Only a batch taken is acknowledged, with the last index of the log. */
  ghost predicate AcksSent(s: State, t: State, m: Message) {
    forall b | b in t.msgs && b !in s.msgs && b.kind == MsgAppendResp && !b.reject ::
      Acks.TakesBatch(s, m) && b.from == s.id && b.term == t.term && b.index == LastIndex(t.log)
  }

  /** What a leader believes of a follower it believed before or was told by it; of itself it believes no more than it has. */
  ghost predicate Beliefs(s: State, t: State, m: Message) {
    t.role == Leader ==> forall p | p in t.matched ::
      || (p == t.id && t.matched[p] <= LastIndex(t.log))
      || (s.role == Leader && s.term == t.term && p in s.matched && s.matched[p] == t.matched[p])
      || (Acknowledged(s, m) && s.term == t.term && p == m.from && t.matched[p] == m.index)
  }

  /** The commit index stays, follows the leader's up to the end of the log, or is what the recount finds. */
  ghost predicate Commits(s: State, t: State, m: Message) {
    || t.committed == s.committed
    || (Acks.TakesBatch(s, m) && t.committed <= m.commit && t.committed <= LastIndex(t.log))
    || (Acknowledged(s, m) && CommitTarget(Recorded(s, m.from, m.index)) == Some(t.committed))
  }

  ghost predicate CommitsSent(s: State, t: State) {
    forall b | b in t.msgs && b !in s.msgs && b.kind == MsgAppend :: b.commit <= t.committed && b.term == t.term
  }

  ghost predicate Facts(s: State, t: State, m: Message) {
    AcksSent(s, t, m) && Beliefs(s, t, m) && Commits(s, t, m) && CommitsSent(s, t)
  }

  /** Nothing about acknowledgements or commits changes. */
  ghost predicate Idle(s: State, t: State) {
    && t.committed == s.committed && t.id == s.id
    && (t.role == Leader ==> s.role == Leader && s.term == t.term && t.matched == s.matched)
    && forall b | b in t.msgs && b !in s.msgs ::
         (b.kind == MsgAppendResp ==> b.reject) && (b.kind == MsgAppend ==> b.commit <= t.committed && b.term == t.term)
  }

  lemma IdleFacts(s: State, t: State, m: Message)
    requires Idle(s, t)
    ensures Facts(s, t, m)
  {
    hide CommitTarget, Acks.TakesBatch;
  }

  lemma BroadcastIdle(s: State)
    ensures Idle(s, BroadcastAppend(s))
  {
    hide EntriesFrom, TermOrZero;
  }

  /** A proposal only makes the leader believe more of itself. */
  ghost predicate SelfOnly(s: State, t: State) {
    && t.committed == s.committed && t.id == s.id && t.role == s.role && t.term == s.term
    && (forall p | p in t.matched ::
          if p == t.id then t.matched[p] <= LastIndex(t.log) else p in s.matched && s.matched[p] == t.matched[p])
    && forall b | b in t.msgs && b !in s.msgs ::
         (b.kind == MsgAppendResp ==> b.reject) && (b.kind == MsgAppend ==> b.commit <= t.committed && b.term == t.term)
  }

  lemma ProposeSelfOnly(s: State, data: Data)
    ensures SelfOnly(s, ProposeInternal(s, data))
  {
    PushNext(s.log, Entry(|s.log|, s.term, data));
    hide EntriesFrom, TermOrZero, ScanMembership, AppendOne, Contiguous;
  }

  lemma SelfOnlyFacts(s: State, t: State, m: Message)
    requires SelfOnly(s, t) && s.role == Leader
    ensures Facts(s, t, m)
  {
    hide CommitTarget, Acks.TakesBatch, LastIndex;
  }

  lemma WinFacts(s: State, m: Message)
    ensures Facts(s, HandleVoteResp(s, m), m)
  {
    hide CommitTarget, Acks.TakesBatch, ProposeInternal, BroadcastAppend;
    if s.role == Candidate && s.votes.Some? {
      var s1 := StartLeading(s.(votes := Some(s.votes.value + {m.from})));
      ProposeSelfOnly(s1, JointLeaderNoop);
      BroadcastIdle(s1);
      BroadcastKeeps(s1);
    }
  }

  lemma PreVoteFacts(s: State, m: Message)
    ensures Idle(s, HandlePreVoteResp(s, m))
  {
    hide TermOrZero;
  }

  lemma VoteFacts(s: State, m: Message)
    ensures Idle(s, HandlePreVote(s, m)) && Idle(s, HandleVote(s, m))
  {
    hide LogUpToDate;
  }

  /** What the recount leaves: a commit index it found, and the leader's beliefs. */
  lemma RecountFacts(s: State)
    requires s.role == Leader
    ensures var t := AdvanceCommit(s);
      && (t.committed == s.committed || CommitTarget(s) == Some(t.committed))
      && t.id == s.id
      && (t.role == Leader ==> t.term == s.term)
      && (t.role == Leader ==> forall p | p in t.matched ::
            (p == t.id && t.matched[p] <= LastIndex(t.log)) || (p in s.matched && s.matched[p] == t.matched[p]))
      && (forall b | b in t.msgs && b !in s.msgs ::
            (b.kind == MsgAppendResp ==> b.reject) && (b.kind == MsgAppend ==> b.commit <= t.committed && b.term == t.term))
  {
    hide CommitTarget, ProposeInternal, BroadcastAppend, LastIndex;
    if CommitTarget(s).Some? {
      var s1 := s.(committed := CommitTarget(s).value);
      BroadcastIdle(s1);
      ProposeSelfOnly(BroadcastAppend(s1), Conf(ConfChange({}, s1.membership.newVoters, {}, false)));
      BroadcastKeeps(s1);
    }
  }

  lemma BroadcastKeeps(s: State)
    ensures BroadcastAppend(s).(msgs := s.msgs) == s
  {
    hide AppendMessage;
  }

  lemma AckFacts(s: State, m: Message)
    requires m.kind == MsgAppendResp
    ensures Facts(s, HandleAppendResp(s, m), m)
  {
    hide CommitTarget, Acks.TakesBatch, AdvanceCommit, EntriesFrom, TermOrZero, LastIndex;
    if s.role == Leader {
      RecountFacts(Recorded(s, m.from, m.index));
    }
  }

  lemma RefusalIdle(s: State, m: Message)
    requires m.kind == MsgAppend && !Acks.TakesBatch(s, m)
    ensures Idle(s, HandleAppend(s, m))
  {
    hide Append, ScanMembership, Term, LastIndex, Contiguous;
  }

  lemma TakenFacts(s: State, m: Message)
    requires Acks.TakesBatch(s, m)
    ensures Facts(s, HandleAppend(s, m), m)
  {
    hide CommitTarget, Append, ScanMembership, Term, LastIndex, Contiguous;
    EmptyAppend(s.log);
  }

  lemma TakeFacts(s: State, m: Message)
    requires m.kind == MsgAppend
    ensures Facts(s, HandleAppend(s, m), m)
  {
    hide HandleAppend, Facts, Idle;
    if Acks.TakesBatch(s, m) {
      TakenFacts(s, m);
    } else {
      RefusalIdle(s, m);
      IdleFacts(s, HandleAppend(s, m), m);
    }
  }

  /** Taking over a term first changes nothing of this. */
  lemma AfterAdopting(s: State, t: State, m: Message)
    requires Facts(AdoptTerm(s, m), t, m)
    ensures Facts(s, t, m)
  {
    hide CommitTarget, Append, Term, LastIndex, Contiguous;
  }

  lemma StepFacts(s: State, m: Message)
    ensures Facts(s, Step(s, m), m)
  {
    hide Facts, HandlePreVote, HandlePreVoteResp, HandleVote, HandleVoteResp, HandleAppend, HandleAppendResp, Idle;
    if m.to != 0 && m.to != s.id {
      SameIdle(s);
      IdleFacts(s, s, m);
    } else {
      var s1 := AdoptTerm(s, m);
      HandleFacts(s1, m);
      AfterAdopting(s, Handle(s1, m), m);
    }
  }

  lemma SameIdle(s: State)
    ensures Idle(s, s)
  {
  }

  lemma HandleFacts(s: State, m: Message)
    ensures Facts(s, Handle(s, m), m)
  {
    hide Facts, HandlePreVote, HandlePreVoteResp, HandleVote, HandleVoteResp, HandleAppend, HandleAppendResp, Idle;
    match m.kind
    case MsgPreVote =>
      VoteFacts(s, m);
      IdleFacts(s, HandlePreVote(s, m), m);
    case MsgPreVoteResp =>
      PreVoteFacts(s, m);
      IdleFacts(s, HandlePreVoteResp(s, m), m);
    case MsgVote =>
      VoteFacts(s, m);
      IdleFacts(s, HandleVote(s, m), m);
    case MsgVoteResp => WinFacts(s, m);
    case MsgAppend => TakeFacts(s, m);
    case MsgAppendResp => AckFacts(s, m);
    case MsgUnknown =>
      SameIdle(s);
      IdleFacts(s, s, m);
  }

  lemma TickIdle(s: State)
    ensures Idle(s, Tick(s))
  {
    hide EntriesFrom, TermOrZero;
  }

  lemma OtherIdle(s: State, peer: NodeID)
    ensures Idle(s, AddKnownPeer(s, peer)) && Idle(s, Advance(s)) && Idle(s, s)
  {
    hide LastIndex;
  }

  /** Whatever a node is asked to do; `m` is the message if it is asked to handle one, and otherwise no matter. */
  lemma ActFacts(s: State, a: Action, m: Message)
    requires a.Deliver? ==> m == a.m
    ensures Facts(s, Act(s, a), m)
  {
    hide Facts, Idle, SelfOnly, Step, Tick, ProposeInternal, AddKnownPeer, Advance;
    match a
    case TickAt(_) =>
      TickIdle(s);
      IdleFacts(s, Tick(s), m);
    case ProposeAt(_, command) => ProposalFacts(s, Command(command), m);
    case ChangeAt(_, v, l) => ProposalFacts(s, Conf(ConfChange(s.membership.oldVoters, IdSet(v), IdSet(l), true)), m);
    case PeerAt(_, peer) =>
      OtherIdle(s, peer);
      IdleFacts(s, AddKnownPeer(s, peer), m);
    case Deliver(_) => StepFacts(s, m);
    case Emit(_) =>
      OtherIdle(s, 0);
      IdleFacts(s, s, m);
    case AdvanceAt(_) =>
      OtherIdle(s, 0);
      IdleFacts(s, Advance(s), m);
  }

  lemma ProposalFacts(s: State, data: Data, m: Message)
    ensures s.role == Leader ==> Facts(s, ProposeInternal(s, data), m)
    ensures Facts(s, s, m)
  {
    hide Facts, SelfOnly, Idle, ProposeInternal;
    SameIdle(s);
    IdleFacts(s, s, m);
    ProposeSelfOnly(s, data);
    if s.role == Leader {
      SelfOnlyFacts(s, ProposeInternal(s, data), m);
    }
  }
}
