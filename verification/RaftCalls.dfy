/**
 What each call on a node does, for every state and every input, told by logs, terms, voters and messages:
 which answer goes out, when an election starts and is won, what is committed, and when a membership change
 ends. Together these fix the next state and the messages queued, whatever functions compute them.
 */
module RaftCalls {
  import opened Wrappers
  import opened Quorums
  import opened RaftLog
  import opened RaftNode
  import CommitSearch
  import ER = ElectionRestriction

  predicate IsFor(s: State, m: Message) {
    m.to == 0 || m.to == s.id
  }

  // ---------- Messages ----------

  /** The log that the request names is at least as new as `log`. */
  predicate NamesNoOlder(m: Message, log: EntryLog) {
    LastTerm(log) < m.logTerm || (LastTerm(log) == m.logTerm && LastIndex(log) <= m.index)
  }

  lemma NamedLog(m: Message, log: EntryLog, named: EntryLog)
    requires ER.Describes(m, named)
    ensures NamesNoOlder(m, log) <==> ER.NoNewer(log, named)
  {
  }

  /** A request for the next term to another voter, naming the end of the log. */
  ghost predicate Request(s: State, b: Message, kind: Kind) {
    && b.kind == kind && b.from == s.id
    && b.to in s.membership.Voters() && b.to != s.id
    && b.term == s.term + 1 && ER.Describes(b, s.log)
    && b.commit == 0 && !b.reject && b.entries == []
  }

  /** Exactly these requests are added. */
  ghost predicate AsksVoters(s: State, t: State, kind: Kind) {
    forall b :: b in t.msgs <==> b in s.msgs || Request(s, b, kind)
  }

  /**
   A batch for the node it is addressed to: everything after what that node is thought to have. A node whose
   next index is zero or unknown is sent the whole log after an entry that does not exist.
   */
  ghost predicate Batch(s: State, b: Message) {
    var next := if b.to in s.next then s.next[b.to] else 0;
    && b.kind == MsgAppend && b.from == s.id && b.term == s.term && b.commit == s.committed && !b.reject
    && b.index == (if next == 0 then MAX_UINT64 else next - 1)
    && b.logTerm == (if b.index < |s.log| then s.log[b.index].term else 0)
    && b.entries == (if next <= |s.log| then s.log[next..] else [])
  }

  ghost predicate BatchToPeer(s: State, b: Message) {
    b.to in s.peers && b.to != s.id && Batch(s, b)
  }

  /** Exactly one batch to every other peer is added, from the state `u`. */
  ghost predicate SendsBatches(s: State, u: State, t: State) {
    forall b :: b in t.msgs <==> b in s.msgs || BatchToPeer(u, b)
  }

  lemma OneBatch(s: State, b: Message)
    ensures Batch(s, b) <==> b == AppendMessage(s, b.to)
  {
    TermsOf(s.log);
    LastOf(s.log);
  }

  lemma BatchesSent(s: State)
    ensures SendsBatches(s, s, BroadcastAppend(s))
    ensures BroadcastAppend(s) == s.(msgs := BroadcastAppend(s).msgs)
  {
    hide AppendMessage, Batch;
    forall b ensures b in BroadcastAppend(s).msgs <==> b in s.msgs || BatchToPeer(s, b) {
      OneBatch(s, b);
      AddressedTo(s, b.to);
      forall p | AppendMessage(s, p) == b ensures p == b.to {
        AddressedTo(s, p);
      }
    }
  }

  lemma AddressedTo(s: State, to: NodeID)
    ensures AppendMessage(s, to).to == to
  {
  }

  lemma BatchSent(s: State, to: NodeID, b: Message)
    ensures b in SendAppend(s, to).msgs <==> b in s.msgs || (b.to == to && Batch(s, b))
  {
    hide Batch, AppendMessage;
    OneBatch(s, b);
    AddressedTo(s, to);
  }

  lemma VotersAsked(s: State, kind: Kind)
    ensures AsksVoters(s, AskVoters(s, kind, s.term + 1), kind)
  {
    LastOf(s.log);
  }

  // ---------- Terms and destinations ----------

  /** A node that meets a later term follows it: no vote, no leader and no count of votes. */
  function Joined(s: State, term: nat): State {
    if term <= s.term then s
    else s.(role := Follower, term := term, vote := 0, leader := 0, votes := None, preVote := false, electionElapsed := 0)
  }

  /** A message for another node, or of an unknown kind, moves the term at most. */
  lemma NotHandled(s: State, m: Message)
    requires !IsFor(s, m) || m.kind == MsgUnknown
    ensures Step(s, m) == if IsFor(s, m) then Joined(s, m.term) else s
  {
  }

  // ---------- Pre-votes ----------

  /** A follower whose time is up and who may vote asks the voters first; nothing else starts a pre-vote. */
  lemma ElectionTimeout(s: State)
    requires s.role != Leader
    ensures var t := Tick(s);
      if s.electionElapsed + 1 >= s.electionTick && s.id in s.membership.Voters() then
        && AsksVoters(s, t, MsgPreVote)
        && t == s.(electionElapsed := 0, votes := Some({s.id}), preVote := true, msgs := t.msgs)
      else t == s.(electionElapsed := s.electionElapsed + 1)
  {
    VotersAsked(s.(electionElapsed := 0, votes := Some({s.id}), preVote := true), MsgPreVote);
  }

  /**
   A pre-vote is answered once and changes nothing else. The answer is yes if and only if the node may vote,
   the term asked about is later than its own, and the log named is no older than its own.
   */
  lemma PreVoteAnswered(s: State, m: Message)
    requires IsFor(s, m) && m.kind == MsgPreVote
    ensures var yes := s.id in s.membership.Voters() && m.term > s.term && NamesNoOlder(m, s.log);
      Step(s, m) == s.(msgs := s.msgs + {Message(MsgPreVoteResp, s.id, m.from, s.term, 0, 0, 0, !yes, [])})
  {
  }

  /**
   A yes counts while a pre-vote is running; once a quorum has said yes the node votes for itself in the next
   term and asks the voters for their votes.
   */
  lemma PreVoteCounted(s: State, m: Message)
    requires IsFor(s, m) && m.kind == MsgPreVoteResp
    ensures var t := Step(s, m);
      if m.reject || m.term > s.term || !s.preVote || s.votes.None? then t == s
      else
        var votes := s.votes.value + {m.from};
        if !s.membership.HasQuorum(votes) then t == s.(votes := Some(votes))
        else
          && AsksVoters(s, t, MsgVote)
          && t == s.(role := Candidate, term := s.term + 1, vote := s.id, votes := Some({s.id}), preVote := false, msgs := t.msgs)
  {
    VotersAsked(s, MsgVote);
    hide Membership.HasQuorum;
  }

  // ---------- Votes ----------

  /**
   A vote request is answered once, in the later of the two terms. The vote is given if and only if the node
   may vote, has not voted for another node in that term, and the log named is no older than its own.
   */
  lemma VoteAnswered(s: State, m: Message)
    requires IsFor(s, m) && m.kind == MsgVote
    ensures var u := Joined(s, m.term);
      var yes := s.id in s.membership.Voters() && (u.vote == 0 || u.vote == m.from) && NamesNoOlder(m, s.log);
      Step(s, m) == u.(
        vote := if yes then m.from else u.vote,
        electionElapsed := if yes then 0 else u.electionElapsed,
        msgs := s.msgs + {Message(MsgVoteResp, s.id, m.from, u.term, 0, 0, 0, !yes, [])})
  {
    var u := Joined(s, m.term);
    JoinsFirst(s, m);
    assert LogUpToDate(u, m.index, m.logTerm) == NamesNoOlder(m, s.log);
    hide Joined, AdoptTerm, LogUpToDate, NamesNoOlder;
  }

  lemma JoinsFirst(s: State, m: Message)
    requires IsFor(s, m)
    ensures Step(s, m) == Handle(if m.kind == MsgPreVote || m.kind == MsgPreVoteResp then s else Joined(s, m.term), m)
    ensures var u := Joined(s, m.term); u.id == s.id && u.membership == s.membership && u.msgs == s.msgs && u.log == s.log
  {
    hide Handle;
  }

  /**
   The node leads its unchanged term: every peer is followed from the end of the log, nobody is believed to
   hold anything, and everybody gets a batch. Inside a joint step an empty entry of its own term comes first.
   */
  ghost predicate StartsToLead(s: State, t: State) {
    && (forall p :: p in t.next <==> p in s.peers)
    && (forall p | p in t.next :: t.next[p] == |s.log|)
    && t.matched == map[s.id := LastIndex(t.log)]
    && SendsBatches(s, t, t)
    && var news := if s.membership.joint then [Entry(|s.log|, s.term, JointLeaderNoop)] else [];
       && t.log == s.log + news
       && t == s.(role := Leader, leader := s.id, preVote := false, votes := t.votes, next := t.next, matched := t.matched,
                  msgs := t.msgs, log := t.log, unstable := s.unstable + news)
  }

  /** A vote of its own term counts for a candidate; it leads once, and only once, a quorum has voted for it. */
  lemma VoteCounted(s: State, m: Message)
    requires IsFor(s, m) && m.kind == MsgVoteResp
    ensures var t := Step(s, m);
      if s.role != Candidate || m.term != s.term || m.reject || s.votes.None? then t == Joined(s, m.term)
      else
        var votes := s.votes.value + {m.from};
        if s.membership.HasQuorum(votes) then StartsToLead(s, t) && t.votes == Some(votes)
        else t == s.(votes := Some(votes))
  {
    hide Membership.HasQuorum, BecomeLeader, StartsToLead;
    if s.role == Candidate && m.term == s.term && s.votes.Some? {
      LeadsFrom(s, s.votes.value + {m.from});
    }
  }

  lemma LeadsFrom(s: State, votes: set<NodeID>)
    ensures StartsToLead(s, BecomeLeader(s.(votes := Some(votes))))
    ensures BecomeLeader(s.(votes := Some(votes))).votes == Some(votes)
  {
    hide ProposeInternal, BroadcastAppend, BatchToPeer;
    var u := StartLeading(s.(votes := Some(votes)));
    LastOf(s.log);
    if s.membership.joint {
      EntryProposed(u, JointLeaderNoop);
    } else {
      BatchesSent(u);
      SameBatches(u, BroadcastAppend(u));
      assert s.log + [] == s.log && s.unstable + [] == s.unstable;
    }
  }

  // ---------- Proposals ----------

  /** The queue does not matter to what is sent. */
  lemma SameBatches(s: State, t: State)
    requires t == s.(msgs := t.msgs)
    ensures forall b :: BatchToPeer(s, b) <==> BatchToPeer(t, b)
  {
  }

  /** What a config entry puts into effect. */
  function InEffect(c: ConfChange): Membership {
    Membership(if c.joint then c.oldVoters else c.newVoters, if c.joint then c.newVoters else {}, c.joint)
  }

  lemma EntryProposed(s: State, data: Data)
    ensures var t := ProposeInternal(s, data);
      && SendsBatches(s, t, t)
      && t == s.(log := s.log + [Entry(|s.log|, s.term, data)],
                 unstable := s.unstable + [Entry(|s.log|, s.term, data)],
                 matched := s.matched[s.id := |s.log|],
                 membership := if data.Conf? then InEffect(data.change) else s.membership,
                 membershipIndex := if data.Conf? then |s.log| else s.membershipIndex,
                 msgs := t.msgs)
  {
    hide AppendOne, BroadcastAppend, BatchToPeer;
    LastOf(s.log);
    var e := Entry(|s.log|, s.term, data);
    PushNext(s.log, e);
    var log := s.log + [e];
    assert log[..|log| - 1] == s.log;
    LastOf(log);
    var u := s.(log := log, unstable := s.unstable + [e], matched := s.matched[s.id := |s.log|],
                membership := if data.Conf? then InEffect(data.change) else s.membership,
                membershipIndex := if data.Conf? then |s.log| else s.membershipIndex);
    assert ProposeInternal(s, data) == BroadcastAppend(u);
    BatchesSent(u);
    SameBatches(u, BroadcastAppend(u));
  }

  /**
   A leader appends what is proposed as the next entry of its term and sends it out; a membership in it takes
   effect at once. Another node does nothing.
   */
  lemma Proposed(s: State, data: Data)
    ensures var t := Propose(s, data);
      if s.role != Leader then t == s
      else
        && SendsBatches(s, t, t)
        && t == s.(log := s.log + [Entry(|s.log|, s.term, data)],
                   unstable := s.unstable + [Entry(|s.log|, s.term, data)],
                   matched := s.matched[s.id := |s.log|],
                   membership := if data.Conf? then InEffect(data.change) else s.membership,
                   membershipIndex := if data.Conf? then |s.log| else s.membershipIndex,
                   msgs := t.msgs)
  {
    hide ProposeInternal, SendsBatches;
    EntryProposed(s, data);
  }

  /** The membership in effect is that of the newest config entry, or the first one if the log has none. */
  lemma {:induction false} NewestInEffect(initial: Membership, log: seq<Entry>)
    ensures var (membership, index) := ScanMembership(initial, log);
      || (membership == initial && index == 0 && forall k | 0 <= k < |log| :: !log[k].data.Conf?)
      || (exists k :: 0 <= k < |log| && log[k].data.Conf? && membership == InEffect(log[k].data.change)
            && index == log[k].index && forall j | k < j < |log| :: !log[j].data.Conf?)
  {
    if log != [] {
      var last := |log| - 1;
      if log[last].data.Conf? {
        assert ScanMembership(initial, log) == (InEffect(log[last].data.change), log[last].index);
      } else {
        NewestInEffect(initial, log[..last]);
        if exists k :: 0 <= k < last && log[k].data.Conf? {
          var k :| 0 <= k < last && log[..last][k].data.Conf? && ScanMembership(initial, log).0 == InEffect(log[..last][k].data.change)
            && ScanMembership(initial, log).1 == log[..last][k].index && forall j | k < j < last :: !log[..last][j].data.Conf?;
          forall j | k < j < |log| ensures !log[j].data.Conf? {
            assert j < last ==> log[..last][j] == log[j];
          }
        } else {
          forall k | 0 <= k < last ensures !log[k].data.Conf? && !log[..last][k].data.Conf? {}
        }
      }
    }
  }

  /** A change of voters is refused for one of five reasons, and starts if and only if none of them applies. */
  lemma ChangeRefused(s: State, voters: seq<NodeID>, learners: seq<NodeID>)
    ensures var error, t := ConfChangeError(s, voters, learners), ProposeConfChange(s, voters, learners);
      var known := forall p | p in voters || p in learners :: p in s.peers;
      var apart := forall p | p in learners :: p !in voters;
      var reason :=
        if s.role != Leader then "raft: confChange proposal to non-leader"
        else if s.membership.joint then "raft: membership change already in progress"
        else if |voters| == 0 then "raft: empty voter set"
        else if !known then "raft: confChange target is not a known peer"
        else "raft: confChange voter cannot also be a learner";
      && (error.None? <==> s.role == Leader && !s.membership.joint && |voters| > 0 && known && apart)
      && (error.None? ==> t == Propose(s, Conf(ConfChange(s.membership.oldVoters, set p | p in voters, set p | p in learners, true))))
      && (error.Some? ==> t == s)
      && (error.Some? ==> error.value == reason)
  {
    hide ProposeInternal;
  }

  /** A new peer is followed by a leader from the end of its log; a known one changes nothing. */
  lemma PeerAdded(s: State, id: NodeID)
    ensures AddKnownPeer(s, id) ==
      if id in s.peers then s
      else if s.role == Leader then s.(peers := s.peers + [id], next := s.next[id := |s.log|])
      else s.(peers := s.peers + [id])
  {
    LastOf(s.log);
  }

  // ---------- Batches ----------

  /** A leader sends a batch to everybody each time the heartbeat is due, and at no other tick. */
  lemma Heartbeat(s: State)
    requires s.role == Leader
    ensures var t, due := Tick(s), s.heartbeatElapsed + 1 >= s.heartbeatTick;
      && (if due then SendsBatches(s, s, t) else t.msgs == s.msgs)
      && t == s.(electionElapsed := s.electionElapsed + 1, heartbeatElapsed := if due then 0 else s.heartbeatElapsed + 1, msgs := t.msgs)
  {
    hide BroadcastAppend, Batch;
    var u := s.(electionElapsed := s.electionElapsed + 1, heartbeatElapsed := 0);
    BatchesSent(u);
    forall b ensures BatchToPeer(u, b) <==> BatchToPeer(s, b) {
      OneBatch(u, b);
      OneBatch(s, b);
    }
  }

  /** A node that meets the leader of a term follows it, in its term too, and forgets its vote. */
  function Follows(s: State, m: Message): State {
    s.(role := Follower, term := m.term, vote := 0, leader := m.from, votes := None, preVote := false, electionElapsed := 0)
  }

  /** A batch of an older term, or one that does not fit, is refused with the last index; the log stays. */
  lemma BatchRefused(s: State, m: Message)
    requires IsFor(s, m) && m.kind == MsgAppend && (m.term < s.term || Term(s.log, m.index) != Some(m.logTerm))
    ensures var u := if m.term < s.term then s else Follows(s, m);
      Step(s, m) == u.(msgs := s.msgs + {Message(MsgAppendResp, s.id, m.from, u.term, LastIndex(s.log), 0, 0, true, [])})
  {
    hide Append, ScanMembership, Term, LastIndex;
  }

  /**
   A batch that fits and has no gap, empty or not, is merged into the log and acknowledged with the last index.
   The commit index follows the leader's as far as the log goes: it becomes the larger of what it was and that,
   unless the batch cut the log below it.
   */
  lemma FollowerCommits(s: State, m: Message)
    requires IsFor(s, m) && m.kind == MsgAppend && m.term >= s.term
    requires Term(s.log, m.index) == Some(m.logTerm) && Consecutive(m.entries, m.index + 1)
    ensures Contiguous(Merge(s.log, m.entries))
    ensures var t, log: EntryLog := Step(s, m), Merge(s.log, m.entries);
      var reach := Min(m.commit, LastIndex(log));
      && t == Follows(s, m).(
           log := log,
           membership := if m.entries == [] then s.membership else ScanMembership(s.initialMembership, log).0,
           membershipIndex := if m.entries == [] then s.membershipIndex else ScanMembership(s.initialMembership, log).1,
           unstable := s.unstable + m.entries,
           committed := t.committed,
           msgs := s.msgs + {Message(MsgAppendResp, s.id, m.from, m.term, LastIndex(log), 0, 0, false, [])})
      && t.committed == (if m.commit > s.committed then reach else s.committed)
      && (t.committed == (if s.committed > reach then s.committed else reach)
          <==> m.commit <= s.committed || s.committed <= LastIndex(log))
  {
    TermsOf(s.log);
    AppendIsMerge(s.log, m.entries, m.index + 1);
    BatchTaken(s, m, Merge(s.log, m.entries));
    hide Append, Merge, ScanMembership, Contiguous, LastIndex, Term, Step, Follows;
  }

  lemma BatchTaken(s: State, m: Message, log: EntryLog)
    requires IsFor(s, m) && m.kind == MsgAppend && m.term >= s.term
    requires Term(s.log, m.index) == Some(m.logTerm) && Append(s.log, m.entries) == Appended(log, true)
    ensures Step(s, m) == Follows(s, m).(
      log := log,
      membership := if m.entries == [] then s.membership else ScanMembership(s.initialMembership, log).0,
      membershipIndex := if m.entries == [] then s.membershipIndex else ScanMembership(s.initialMembership, log).1,
      unstable := s.unstable + m.entries,
      committed := if m.commit > s.committed then Min(m.commit, LastIndex(log)) else s.committed,
      msgs := s.msgs + {Message(MsgAppendResp, s.id, m.from, m.term, LastIndex(log), 0, 0, false, [])})
  {
    hide Append, ScanMembership, Contiguous, LastIndex, Term, HandleAppend, Joined;
    JoinsFirst(s, m);
    FollowsEither(s, m);
    TakenBy(Joined(s, m.term), m, log);
  }

  /** Joining the term first makes no difference to the follower. */
  lemma FollowsEither(s: State, m: Message)
    requires m.term >= s.term
    ensures var u := Joined(s, m.term);
      && Follows(u, m) == Follows(s, m) && u.term <= m.term && u.committed == s.committed && u.unstable == s.unstable
      && u.membershipIndex == s.membershipIndex && u.initialMembership == s.initialMembership
  {
  }

  lemma TakenBy(s: State, m: Message, log: EntryLog)
    requires m.term >= s.term && Term(s.log, m.index) == Some(m.logTerm) && Append(s.log, m.entries) == Appended(log, true)
    ensures HandleAppend(s, m) == Follows(s, m).(
      log := log,
      membership := if m.entries == [] then s.membership else ScanMembership(s.initialMembership, log).0,
      membershipIndex := if m.entries == [] then s.membershipIndex else ScanMembership(s.initialMembership, log).1,
      unstable := s.unstable + m.entries,
      committed := if m.commit > s.committed then Min(m.commit, LastIndex(log)) else s.committed,
      msgs := s.msgs + {Message(MsgAppendResp, s.id, m.from, m.term, LastIndex(log), 0, 0, false, [])})
  {
    hide Append, ScanMembership, Contiguous, LastIndex, Term;
    assert s.unstable + [] == s.unstable;
  }

  /** A batch that is refused part of the way is not answered, and commits nothing. */
  lemma BatchFails(s: State, m: Message)
    requires IsFor(s, m) && m.kind == MsgAppend && m.term >= s.term
    requires Term(s.log, m.index) == Some(m.logTerm) && !Append(s.log, m.entries).ok
    ensures Step(s, m) == Follows(s, m).(log := Append(s.log, m.entries).log)
  {
    hide Append, Term;
  }

  /** The exception is there: a later leader's batch cuts two committed entries, and the commit index falls. */
  lemma CommitCanFall()
    ensures exists s: State, m: Message ::
      && s.role == Follower && s.committed <= LastIndex(s.log)
      && IsFor(s, m) && m.kind == MsgAppend && m.term >= s.term
      && Term(s.log, m.index) == Some(m.logTerm) && Consecutive(m.entries, m.index + 1)
      && Step(s, m).committed < s.committed
  {
    var log: EntryLog := [PLACEHOLDER, Entry(1, 1, Command([])), Entry(2, 1, Command([]))];
    var s := NewState(1, [1, 2], Membership({1, 2}, {}, false), 2, 1).(term := 1, log := log, committed := 2);
    var m := Message(MsgAppend, 2, 1, 2, 0, 0, 3, false, [Entry(1, 2, Command([]))]);
    assert Term(s.log, 0) == Some(0) && !Has(s.log, m.entries[0]);
    FollowerCommits(s, m);
    assert Merge(s.log, m.entries) == [PLACEHOLDER, Entry(1, 2, Command([]))] by {
      assert Shared(s.log, m.entries) == 0;
    }
  }

  // ---------- Acknowledgements ----------

  /** Only a leader hears answers, and only those of its term. */
  lemma AnswerIgnored(s: State, m: Message)
    requires IsFor(s, m) && m.kind == MsgAppendResp && (s.role != Leader || m.term != s.term)
    ensures Step(s, m) == Joined(s, m.term)
  {
  }

  /** After a refusal the leader tries one entry further back, but never before the first. */
  lemma RefusalBacksUp(s: State, m: Message)
    requires IsFor(s, m) && m.kind == MsgAppendResp && s.role == Leader && m.term == s.term && m.reject
    ensures var t := Step(s, m);
      && t == s.(next := if m.from in s.next && s.next[m.from] > 1 then s.next[m.from := s.next[m.from] - 1] else s.next,
                 msgs := t.msgs)
      && forall b :: b in t.msgs <==> b in s.msgs || (b.to == m.from && Batch(t, b))
  {
    hide Batch, SendAppend;
    SentLast(
      s.(next := if m.from in s.next && s.next[m.from] > 1 then s.next[m.from := s.next[m.from] - 1] else s.next), m.from);
  }

  /** With these acknowledgements the leader may commit index `c`: it is of its own term, and a quorum has it. */
  ghost predicate MayCommit(s: State, matched: map<NodeID, nat>, c: nat) {
    && TermOrZero(s.log, c) == s.term
    && s.membership.HasQuorum(set p | p in matched && matched[p] >= c)
  }

  ghost predicate IsAck(s: State, m: Message) {
    IsFor(s, m) && m.kind == MsgAppendResp && s.role == Leader && m.term == s.term && !m.reject
  }

  lemma AckIs(s: State, m: Message)
    requires IsAck(s, m)
    ensures var u := AdvanceCommit(Recorded(s, m.from, m.index));
      m.from in u.next && Step(s, m) == if u.next[m.from] <= LastIndex(u.log) then SendAppend(u, m.from) else u
  {
    hide AdvanceCommit, SendAppend, LastIndex;
  }

  function Acks(s: State, m: Message): map<NodeID, nat> {
    s.matched[m.from := m.index]
  }

  /**
   The commit index rises to the highest match index, or the last index, that the leader may commit with the
   new acknowledgement; along ordered terms that is the highest index at all. It never falls.
   */
  lemma LeaderCommits(s: State, m: Message)
    requires IsAck(s, m)
    ensures var committed := Step(s, m).committed;
      && committed >= s.committed
      && (committed > s.committed ==> MayCommit(s, Acks(s, m), committed))
      && (forall c | c > committed && (c == LastIndex(s.log) || c in Acks(s, m).Values) :: !MayCommit(s, Acks(s, m), c))
      && (CommitSearch.TermsOrdered(s) ==> forall c: nat | c > committed :: !MayCommit(s, Acks(s, m), c))
  {
    hide AdvanceCommit, CommitSearch.TermsOrdered, Membership.HasQuorum;
    var u := Recorded(s, m.from, m.index);
    AckIs(s, m);
    CommitSearch.AdvanceCommitMoves(u);
    forall c: nat | c > s.committed ensures MayCommit(s, Acks(s, m), c) <==> Committable(u, c) {
      assert Acked(u, c) == set p | p in Acks(s, m) && Acks(s, m)[p] >= c;
    }
    forall c | c > s.committed && (c == LastIndex(s.log) || c in Acks(s, m).Values) && MayCommit(s, Acks(s, m), c)
      ensures c in CommittableCandidates(u)
    {
    }
    if CommitSearch.TermsOrdered(s) {
      SameTerms(s, u);
      CommitSearch.SparseIsFullScan(u);
    }
  }

  lemma SameTerms(s: State, u: State)
    requires CommitSearch.TermsOrdered(s) && u.log == s.log && u.term == s.term
    ensures CommitSearch.TermsOrdered(u)
  {
  }

  /** The entry that ends the joint step. */
  function LeaveEntry(s: State): Entry {
    Entry(|s.log|, s.term, Conf(ConfChange({}, s.membership.newVoters, {}, false)))
  }

  /** The commit index of a leader has risen to `committed`. */
  ghost predicate Rises(s: State, committed: nat) {
    committed > s.committed
  }

  ghost predicate JointEnds(s: State, committed: nat) {
    Rises(s, committed) && s.membership.joint && committed >= s.membershipIndex
  }

  ghost predicate StepsDown(s: State, committed: nat) {
    Rises(s, committed) && !s.membership.joint && s.id !in s.membership.oldVoters
  }

  /** The leader once its commit index is `committed`, but for what it has queued. */
  ghost function Leading(s: State, committed: nat): State {
    if JointEnds(s, committed) then
      s.(committed := committed,
         log := s.log + [LeaveEntry(s)], unstable := s.unstable + [LeaveEntry(s)], matched := s.matched[s.id := |s.log|],
         membership := Membership(s.membership.newVoters, {}, false), membershipIndex := |s.log|)
    else if StepsDown(s, committed) then
      s.(committed := committed, role := Follower, vote := 0, leader := 0, votes := None, preVote := false, electionElapsed := 0)
    else s.(committed := committed)
  }

  lemma EndsJoint(s: State, committed: nat)
    requires s.role == Leader && committed > s.committed
    ensures var u := s.(committed := committed);
      var t := LeaveJointOrStepDown(BroadcastAppend(u));
      && t == Leading(s, committed).(msgs := t.msgs)
      && forall b :: b in t.msgs <==> b in s.msgs || BatchToPeer(u, b) || (JointEnds(s, committed) && BatchToPeer(t, b))
  {
    hide ProposeInternal, BroadcastAppend, BatchToPeer;
    var u := s.(committed := committed);
    BatchesSent(u);
    EntryProposed(BroadcastAppend(u), Conf(ConfChange({}, s.membership.newVoters, {}, false)));
  }

  lemma Recounted(s: State)
    requires s.role == Leader
    ensures var t := AdvanceCommit(s);
      && t.committed >= s.committed
      && t == Leading(s, t.committed).(msgs := t.msgs)
      && forall b :: b in t.msgs <==>
           b in s.msgs || (Rises(s, t.committed) && BatchToPeer(s.(committed := t.committed), b)) || (JointEnds(s, t.committed) && BatchToPeer(t, b))
  {
    hide LeaveJointOrStepDown, BroadcastAppend, BatchToPeer;
    CommitSearch.AdvanceCommitMoves(s);
    if CommitTarget(s).Some? {
      EndsJoint(s, CommitTarget(s).value);
    } else {
      NotRisen(s, s.committed);
    }
  }

  /**
   An acknowledgement is believed, and the follower's next index is the one after. If the commit index rises,
   every peer is told; then the joint step ends, or a leader that is no longer a voter steps down. Last, the
   follower is sent what it does not have yet.
   */
  lemma AckEffect(s: State, m: Message)
    requires IsAck(s, m)
    ensures var t, u := Step(s, m), s.(matched := Acks(s, m), next := s.next[m.from := m.index + 1]);
      && t == Leading(u, t.committed).(msgs := t.msgs)
      && forall b :: b in t.msgs <==>
           || b in s.msgs
           || (Rises(u, t.committed) && BatchToPeer(u.(committed := t.committed), b))
           || (JointEnds(u, t.committed) && BatchToPeer(t, b))
           || (m.index < LastIndex(t.log) && b.to == m.from && Batch(t, b))
  {
    hide AdvanceCommit, Batch, BatchToPeer, SendAppend, Step, JointEnds, Rises, Leading, LastIndex;
    var u, t := Recorded(s, m.from, m.index), Step(s, m);
    AckIs(s, m);
    Recounted(u);
    var r := AdvanceCommit(u);
    LeadingKeepsNext(u, r.committed);
    SentLast(r, m.from);
    SameBatches(r, t);
  }

  lemma LeadingKeepsNext(s: State, committed: nat)
    ensures var t := Leading(s, committed); t.next == s.next && t.committed == committed
  {
  }

  lemma NotRisen(s: State, committed: nat)
    requires committed == s.committed
    ensures Leading(s, committed) == s && !Rises(s, committed) && !JointEnds(s, committed)
  {
  }

  lemma SentLast(r: State, to: NodeID)
    ensures var t := SendAppend(r, to);
      t == r.(msgs := t.msgs) && forall b :: b in t.msgs <==> b in r.msgs || (b.to == to && Batch(t, b))
  {
    hide Batch, AppendMessage;
    var t := SendAppend(r, to);
    forall b ensures b in t.msgs <==> b in r.msgs || (b.to == to && Batch(t, b)) {
      BatchSent(r, to, b);
      OneBatch(r, b);
      OneBatch(t, b);
      AppendMessageSame(r, t, b.to);
    }
  }

  /**
   When a leader's commit index rises, a joint step whose entry is thereby committed is over: the next entry
   leaves only the new voters. And a plain membership without the leader makes it step down in its term.
   */
  lemma JointStepEnds(s: State, m: Message)
    requires IsAck(s, m) && Step(s, m).committed > s.committed
    ensures var t := Step(s, m);
      && !(t.role == Leader && t.membership.joint && t.committed >= t.membershipIndex)
      && (s.membership.joint && t.committed >= s.membershipIndex ==>
            && t.role == Leader && t.term == s.term
            && t.log == s.log + [Entry(|s.log|, s.term, Conf(ConfChange({}, s.membership.newVoters, {}, false)))]
            && t.membership == Membership(s.membership.newVoters, {}, false) && t.membershipIndex == |s.log|)
      && (s.membership.joint && t.committed < s.membershipIndex ==>
            t.role == Leader && t.term == s.term && t.log == s.log && t.membership == s.membership)
      && (!s.membership.joint ==>
            && t.log == s.log && t.membership == s.membership && t.term == s.term
            && (t.role == Leader <==> s.id in s.membership.oldVoters)
            && (t.role != Leader ==> t.role == Follower && t.leader == 0))
  {
    AckEffect(s, m);
    hide Step, Batch;
  }
}
