/**
 A group of five nodes and the moves that the failing runs of TwoLeaders, StaleVotes and LostCommits are
 made of: ask, answer, campaign, vote, count, propose, accept, refuse, acknowledge. Each move is one or two
 actions of RaftRuns and says what it leaves of the node that acts and what it puts on the network.
 */
module FiveNodes {
  import opened Wrappers
  import opened ByteStrings
  import opened Quorums
  import opened RaftLog
  import opened RaftNode
  import opened RaftRuns

  const ALL: set<NodeID> := {1, 2, 3, 4, 5}
  const PEERS: seq<NodeID> := [1, 2, 3, 4, 5]
  const FIVE: Membership := Membership(ALL, {}, false)

  function Fresh(i: NodeID): State {
    NewState(i, PEERS, FIVE, 2, 1)
  }

  /** What the runs follow of a node. */
  datatype View = View(role: Role, term: nat, vote: NodeID, log: EntryLog, committed: nat)

  function Of(s: State): View {
    View(s.role, s.term, s.vote, s.log, s.committed)
  }

  const START: View := View(Follower, 0, 0, [PLACEHOLDER], 0)

  ghost predicate Plain(log: seq<Entry>) {
    forall k | 0 <= k < |log| :: !log[k].data.Conf?
  }

  /** A node of the group, configured as it was and holding commands only. */
  ghost predicate Here(s: State, i: NodeID) {
    && s.id == i && s.peers == PEERS && s.membership == FIVE && s.initialMembership == FIVE
    && s.electionTick == 2 && s.heartbeatTick == 1 && s.electionElapsed >= 0
    && Plain(s.log)
  }

  ghost predicate Alive(r: Run) {
    Reachable(r, FIVE) && r.c.nodes.Keys == ALL && forall i | i in ALL :: Here(r.c.nodes[i], i)
  }

  lemma HasNode(r: Run, i: NodeID)
    requires Alive(r) && i in ALL
    ensures i in r.c.nodes && r.c.nodes[i].id == i
  {
  }

  // ---------- Messages ----------

  /** The index and the term of a log's last entry. */
  function Last(log: EntryLog): nat {
    |log| - 1
  }

  function End(log: EntryLog): nat {
    log[|log| - 1].term
  }

  function Request(kind: Kind, i: NodeID, j: NodeID, term: nat, log: EntryLog): Message {
    Message(kind, i, j, term, LastIndex(log), LastTerm(log), 0, false, [])
  }

  function Answer(kind: Kind, i: NodeID, j: NodeID, term: nat): Message {
    Message(kind, i, j, term, 0, 0, 0, false, [])
  }

  function Batch(i: NodeID, j: NodeID, term: nat, index: nat, logTerm: nat, commit: nat, entries: seq<Entry>): Message {
    Message(MsgAppend, i, j, term, index, logTerm, commit, false, entries)
  }

  function AckOf(i: NodeID, j: NodeID, term: nat, index: nat, reject: bool): Message {
    Message(MsgAppendResp, i, j, term, index, 0, 0, reject, [])
  }

  // ---------- What a node does ----------

  lemma QuorumOfThree(i: NodeID, a: NodeID, b: NodeID)
    requires i in ALL && a in ALL && b in ALL && i != a && i != b && a != b
    ensures FIVE.HasQuorum({i} + {a} + {b}) && !FIVE.HasQuorum({i} + {a})
  {
    assert ALL * ({i} + {a} + {b}) == {i, a, b};
    assert ALL * ({i} + {a}) == {i, a};
  }

  lemma PlainScan(log: seq<Entry>)
    requires Plain(log)
    ensures ScanMembership(FIVE, log) == (FIVE, 0)
  {
    if log != [] {
      PlainScan(log[..|log| - 1]);
    }
  }

  lemma AsksAll(s: State, kind: Kind, term: nat)
    requires s.membership == FIVE && s.id in ALL
    ensures forall j | j in ALL && j != s.id :: Request(kind, s.id, j, term, s.log) in AskVoters(s, kind, term).msgs
    ensures AskVoters(s, kind, term).(msgs := s.msgs) == s
  {
    hide LastIndex, TermOrZero;
    var voters := s.membership.Voters();
    assert voters == ALL;
    forall j | j in ALL && j != s.id ensures Request(kind, s.id, j, term, s.log) in Requests(s, voters, kind, term) {
      assert j in voters;
    }
  }

  /** Two silent ticks start a pre-vote. */
  lemma TwoTicks(s: State, i: NodeID)
    requires Here(s, i) && i in ALL && s.role != Leader
    ensures var t := Tick(Tick(s));
      && Here(t, i) && Of(t) == Of(s) && t.preVote && t.votes == Some({i})
      && (forall j | j in ALL && j != i :: Request(MsgPreVote, i, j, s.term + 1, s.log) in t.msgs)
  {
    hide Plain, AskVoters, LastIndex, TermOrZero;
    assert i in FIVE.Voters();
    var t1 := Tick(s);
    if s.electionElapsed + 1 >= 2 {
      AsksAll(s.(electionElapsed := 0, votes := Some({i}), preVote := true), MsgPreVote, s.term + 1);
      assert t1.electionElapsed == 0;
      assert Tick(t1) == t1.(electionElapsed := 1);
    } else {
      assert t1 == s.(electionElapsed := 1);
      AsksAll(t1.(electionElapsed := 0, votes := Some({i}), preVote := true), MsgPreVote, s.term + 1);
    }
  }

  lemma AnswersPreVote(s: State, j: NodeID, m: Message)
    requires Here(s, j) && j in ALL && m.kind == MsgPreVote && m.to == j && m.term > s.term && LogUpToDate(s, m.index, m.logTerm)
    ensures var t := Step(s, m);
      Here(t, j) && Of(t) == Of(s) && Answer(MsgPreVoteResp, j, m.from, s.term) in t.msgs
  {
    hide LogUpToDate, Plain;
    assert j in FIVE.Voters();
  }

  /** One pre-vote answer is not enough. */
  lemma FirstAnswer(s: State, i: NodeID, a: NodeID)
    requires Here(s, i) && i in ALL && a in ALL && a != i && s.preVote && s.votes == Some({i})
    ensures var t := Step(s, Answer(MsgPreVoteResp, a, i, 0));
      Here(t, i) && Of(t) == Of(s) && t.preVote && t.votes == Some({i} + {a})
  {
    hide Plain;
    assert ALL * ({i} + {a}) == {i, a};
  }

  /** The second one starts the election. */
  lemma SecondAnswer(s: State, i: NodeID, a: NodeID, b: NodeID)
    requires Here(s, i) && i in ALL && a in ALL && b in ALL && i != a && i != b && a != b
    requires s.preVote && s.votes == Some({i} + {a})
    ensures var t := Step(s, Answer(MsgPreVoteResp, b, i, 0));
      && Here(t, i) && Of(t) == View(Candidate, s.term + 1, i, s.log, s.committed)
      && !t.preVote && t.votes == Some({i})
      && (forall j | j in ALL && j != i :: Request(MsgVote, i, j, s.term + 1, s.log) in t.msgs)
  {
    hide Plain, AskVoters, LastIndex, TermOrZero, Contiguous, Majority;
    QuorumOfThree(i, a, b);
    AsksAll(
      s.(votes := Some({i} + {a} + {b})).(preVote := false, role := Candidate, term := s.term + 1, vote := i, votes := Some({i})),
      MsgVote, s.term + 1);
  }

  /** A granted vote, whatever the request's term. */
  lemma GivesVote(s: State, j: NodeID, m: Message)
    requires Here(s, j) && j in ALL && m.kind == MsgVote && m.to == j
    requires (m.term > s.term || s.vote == 0) && LogUpToDate(s, m.index, m.logTerm)
    ensures var t, term := Step(s, m), if m.term > s.term then m.term else s.term;
      && Here(t, j)
      && Of(t) == View(if m.term > s.term then Follower else s.role, term, m.from, s.log, s.committed)
      && Answer(MsgVoteResp, j, m.from, term) in t.msgs
  {
    hide Plain, LastIndex, TermOrZero;
    assert j in FIVE.Voters();
  }

  /** A request of a higher term from an older log is refused, but its term is adopted. */
  lemma RefusesVote(s: State, j: NodeID, m: Message)
    requires Here(s, j) && j in ALL && m.kind == MsgVote && m.to == j && m.term > s.term && !LogUpToDate(s, m.index, m.logTerm)
    ensures var t := Step(s, m); Here(t, j) && Of(t) == View(Follower, m.term, 0, s.log, s.committed)
  {
    hide Plain, LastIndex, TermOrZero;
    assert j in FIVE.Voters();
  }

  /** A vote that does not decide. */
  lemma CountsOne(s: State, i: NodeID, a: NodeID)
    requires Here(s, i) && i in ALL && a in ALL && a != i && s.role == Candidate && s.votes == Some({i})
    ensures var t := Step(s, Answer(MsgVoteResp, a, i, s.term));
      Here(t, i) && Of(t) == Of(s) && t.preVote == s.preVote && t.votes == Some({i} + {a})
  {
    hide Plain;
    assert ALL * ({i} + {a}) == {i, a};
  }

  /** A leader that has just won tracks every peer from the end of its log. */
  ghost predicate Leads(s: State) {
    && s.role == Leader && (forall j | j in ALL :: j in s.next && s.next[j] == |s.log|)
    && s.matched == map[s.id := |s.log| - 1]
  }

  lemma BroadcastHas(s: State, j: NodeID)
    requires s.peers == PEERS && j in ALL && j != s.id
    ensures AppendMessage(s, j) in BroadcastAppend(s).msgs
  {
    hide AppendMessage;
    assert j in PEERS;
  }

  lemma HeartbeatAtEnd(s: State, j: NodeID)
    requires j in s.next && s.next[j] == |s.log|
    ensures AppendMessage(s, j) == Batch(s.id, j, s.term, Last(s.log), End(s.log), s.committed, [])
  {
  }

  lemma BroadcastOnlySends(s: State)
    ensures BroadcastAppend(s).(msgs := s.msgs) == s
  {
    hide AppendMessage;
  }

  lemma WinnerBroadcasts(s: State, i: NodeID, a: NodeID, b: NodeID)
    requires Here(s, i) && i in ALL && a in ALL && b in ALL && i != a && i != b && a != b
    requires s.role == Candidate && s.votes == Some({i} + {a})
    ensures Step(s, Answer(MsgVoteResp, b, i, s.term)) == BroadcastAppend(StartLeading(s.(votes := Some({i} + {a} + {b}))))
  {
    hide Plain, BroadcastAppend, Contiguous, StartLeading;
    QuorumOfThree(i, a, b);
    StillJointOrNot(s.(votes := Some({i} + {a} + {b})));
    hide Majority;
  }

  lemma StillJointOrNot(s: State)
    ensures StartLeading(s).membership == s.membership
  {
  }

  lemma StartsAtEnd(s: State, i: NodeID)
    requires Here(s, i)
    ensures var t := StartLeading(s);
      && Here(t, i) && Of(t) == Of(s).(role := Leader) && Leads(t) && t.votes == s.votes
      && (forall j | j in ALL :: j in t.next && t.next[j] == |t.log|)
  {
    LastOf(s.log);
    TermsOf(s.log);
    hide Plain, Contiguous, LastIndex;
  }

  lemma LeadsAlike(s: State, t: State)
    requires Leads(s) && t.(msgs := s.msgs) == s
    ensures Leads(t)
  {
  }

  /** The third vote wins, and the winner announces itself. */
  lemma Wins(s: State, i: NodeID, a: NodeID, b: NodeID)
    requires Here(s, i) && i in ALL && a in ALL && b in ALL && i != a && i != b && a != b
    requires s.role == Candidate && s.votes == Some({i} + {a})
    ensures var t := Step(s, Answer(MsgVoteResp, b, i, s.term));
      && Here(t, i) && Of(t) == Of(s).(role := Leader) && Leads(t) && t.votes == Some({i} + {a} + {b})
      && (forall j | j in ALL && j != i ::
            Batch(i, j, s.term, Last(s.log), End(s.log), s.committed, []) in t.msgs)
  {
    hide Plain, Step, BroadcastAppend, AppendMessage, StartLeading, Leads, Contiguous, Last, End;
    WinnerBroadcasts(s, i, a, b);
    var s1 := StartLeading(s.(votes := Some({i} + {a} + {b})));
    StartsAtEnd(s.(votes := Some({i} + {a} + {b})), i);
    BroadcastOnlySends(s1);
    LeadsAlike(s1, BroadcastAppend(s1));
    forall j | j in ALL && j != i
      ensures Batch(i, j, s.term, Last(s.log), End(s.log), s.committed, []) in BroadcastAppend(s1).msgs
    {
      BroadcastHas(s1, j);
      HeartbeatAtEnd(s1, j);
    }
  }

  function Pushed(s: State, e: Entry): State
    requires e.index == |s.log|
  {
    s.(log := s.log + [e], unstable := s.unstable + [e], matched := s.matched[s.id := |s.log|])
  }

  lemma ProposalBroadcasts(s: State, command: Data)
    requires s.role == Leader && command.Command?
    ensures Propose(s, command) == BroadcastAppend(Pushed(s, Entry(|s.log|, s.term, command)))
  {
    hide BroadcastAppend, AppendOne, Contiguous, LastIndex, LastTerm;
    var e := Entry(|s.log|, s.term, command);
    PushNext(s.log, e);
    LastOf(s.log);
    LastOf(s.log + [e]);
  }

  /** A leader's first command goes to every peer. */
  lemma Proposes(s: State, i: NodeID, command: Data)
    requires Here(s, i) && i in ALL && Leads(s) && command.Command?
    ensures var t, e := Propose(s, command), Entry(|s.log|, s.term, command);
      && Here(t, i) && Of(t) == Of(s).(log := s.log + [e])
      && t.next == s.next && t.matched == map[i := |s.log|]
      && (forall j | j in ALL && j != i :: Batch(i, j, s.term, Last(s.log), End(s.log), s.committed, [e]) in t.msgs)
  {
    hide Propose, BroadcastAppend, AppendMessage, Contiguous, Last, End;
    var e := Entry(|s.log|, s.term, command);
    ProposalBroadcasts(s, command);
    BroadcastOnlySends(Pushed(s, e));
    forall j | j in ALL && j != i
      ensures Batch(i, j, s.term, Last(s.log), End(s.log), s.committed, [e]) in BroadcastAppend(Pushed(s, e)).msgs
    {
      BroadcastHas(Pushed(s, e), j);
      SendsOne(Pushed(s, e), s.log, e, j);
    }
  }

  lemma SendsOne(s: State, before: EntryLog, e: Entry, j: NodeID)
    requires s.log == before + [e] && j in s.next && s.next[j] == |before|
    ensures AppendMessage(s, j) == Batch(s.id, j, s.term, Last(before), End(before), s.committed, [e])
  {
    LastOf(s.log);
    TermsOf(s.log);
    assert s.log[|before|..] == [e];
  }

  /** A batch that fits is taken, and answered with the receiver's own last index. */
  lemma Accepts(s: State, j: NodeID, m: Message, after: EntryLog)
    requires Here(s, j) && j in ALL && m.kind == MsgAppend && m.to == j && m.term >= s.term
    requires m.index < |s.log| && s.log[m.index].term == m.logTerm
    requires Append(s.log, m.entries) == Appended(after, true) && Plain(after) && m.commit <= s.committed
    ensures var t := Step(s, m);
      && Here(t, j) && Of(t) == View(Follower, m.term, 0, after, s.committed)
      && AckOf(j, m.from, m.term, |after| - 1, false) in t.msgs
  {
    hide HandleAppend, Append, Plain, Contiguous;
    var s1 := AdoptTerm(s, m);
    AcceptsNow(s1, j, m, after);
  }

  lemma AcceptsNow(s: State, j: NodeID, m: Message, after: EntryLog)
    requires Here(s, j) && j in ALL && m.kind == MsgAppend && m.to == j && m.term == s.term
    requires m.index < |s.log| && s.log[m.index].term == m.logTerm
    requires Append(s.log, m.entries) == Appended(after, true) && Plain(after) && m.commit <= s.committed
    ensures var t := HandleAppend(s, m);
      && Here(t, j) && Of(t) == View(Follower, m.term, 0, after, s.committed)
      && AckOf(j, m.from, m.term, |after| - 1, false) in t.msgs
  {
    LastOf(s.log);
    TermsOf(s.log);
    LastOf(after);
    TermsOf(after);
    PlainScan(after);
    EmptyAppend(s.log);
    hide Append, Plain, ScanMembership, Contiguous, LastIndex, Term, TermOrZero;
  }

  /** A batch that does not fit is refused. */
  lemma Refuses(s: State, j: NodeID, m: Message)
    requires Here(s, j) && j in ALL && m.kind == MsgAppend && m.to == j && m.term >= s.term
    requires m.index < |s.log| ==> s.log[m.index].term != m.logTerm
    ensures var t := Step(s, m);
      && Here(t, j) && Of(t) == View(Follower, m.term, 0, s.log, s.committed)
      && AckOf(j, m.from, m.term, |s.log| - 1, true) in t.msgs
  {
    LastOf(s.log);
    TermsOf(s.log);
    hide Append, Plain, ScanMembership, Contiguous, LastIndex, Term;
  }

  lemma SendsFrom(s: State, j: NodeID, n: nat)
    requires j in s.next && s.next[j] == n && 0 < n < |s.log|
    ensures AppendMessage(s, j) == Batch(s.id, j, s.term, n - 1, s.log[n - 1].term, s.committed, s.log[n..])
  {
    LastOf(s.log);
    TermsOf(s.log);
  }

  /** A refusal makes the leader go back one entry. */
  lemma BacksOff(s: State, i: NodeID, j: NodeID, n: nat, index: nat)
    requires Here(s, i) && i in ALL && s.role == Leader && j in ALL && j != i
    requires j in s.next && s.next[j] == n + 1 && 0 < n < |s.log|
    ensures var t := Step(s, AckOf(j, i, s.term, index, true));
      && Here(t, i) && Of(t) == Of(s) && t.matched == s.matched && t.next == s.next[j := n]
      && Batch(i, j, s.term, n - 1, s.log[n - 1].term, s.committed, s.log[n..]) in t.msgs
  {
    hide AppendMessage, AdvanceCommit, Plain, Contiguous;
    var s1 := s.(next := s.next[j := n]);
    assert Step(s, AckOf(j, i, s.term, index, true)) == SendAppend(s1, j);
    SendsFrom(s1, j, n);
  }

  lemma TwoAreNoQuorum(acked: set<NodeID>, i: NodeID, j: NodeID)
    requires acked <= {i, j}
    ensures !FIVE.HasQuorum(acked)
  {
    assert |{i, j}| <= 2;
    SubsetSize(ALL * acked, {i, j});
  }

  lemma NothingToCommit(s: State, i: NodeID, j: NodeID)
    requires s.membership == FIVE && s.matched.Keys <= {i, j}
    ensures AdvanceCommit(s) == s
  {
    forall c ensures !Committable(s, c) {
      TwoAreNoQuorum(Acked(s, c), i, j);
    }
    hide Committable, Candidates;
    assert CommittableCandidates(s) == {};
  }

  lemma AcksThen(s: State, j: NodeID, c: nat)
    requires s.role == Leader
    ensures var t := HandleAppendResp(s, AckOf(j, s.id, s.term, c, false));
      && t.(msgs := {}) == AdvanceCommit(Recorded(s, j, c)).(msgs := {})
      && AdvanceCommit(Recorded(s, j, c)).msgs <= t.msgs
  {
    hide AdvanceCommit, AppendMessage;
  }

  /** One acknowledgement does not commit. */
  lemma AcksOne(s: State, i: NodeID, j: NodeID, c: nat)
    requires Here(s, i) && i in ALL && s.role == Leader && j in ALL && j != i && s.matched == map[i := Last(s.log)]
    ensures var t := Step(s, AckOf(j, i, s.term, c, false));
      Here(t, i) && Of(t) == Of(s) && t.matched == map[i := Last(s.log), j := c] && t.next == s.next[j := c + 1]
  {
    hide AdvanceCommit, HandleAppendResp, Plain, Contiguous, Last;
    AcksThen(s, j, c);
    NothingToCommit(Recorded(s, j, c), i, j);
    var t := HandleAppendResp(s, AckOf(j, i, s.term, c, false));
    assert t.(msgs := {}) == Recorded(s, j, c).(msgs := {});
    SameButSent(t, Recorded(s, j, c));
  }

  lemma SameButSent(t: State, s: State)
    requires t.(msgs := {}) == s.(msgs := {})
    ensures Of(t) == Of(s) && t.matched == s.matched && t.next == s.next
    ensures forall i :: Here(s, i) ==> Here(t, i)
  {
    hide Plain, Contiguous;
  }

  lemma LastIsTarget(s: State, i: NodeID, a: NodeID, b: NodeID)
    requires s.membership == FIVE && i in ALL && a in ALL && b in ALL && i != a && i != b && a != b
    requires s.term > 0 && End(s.log) == s.term && s.committed < Last(s.log)
    requires s.matched == map[i := Last(s.log), a := Last(s.log), b := Last(s.log)]
    ensures CommitTarget(s) == Some(Last(s.log))
  {
    hide Contiguous, LastIndex, TermOrZero;
    LastOf(s.log);
    var c := Last(s.log);
    QuorumOfThree(i, a, b);
    hide FIVE, ALL;
    assert Acked(s, c) == {i} + {a} + {b};
    assert s.matched[i] == c;
    assert Candidates(s) == {c};
    assert TermOrZero(s.log, c) == s.term;
    assert CommittableCandidates(s) == {c};
  }

  lemma CommitsLast(s: State, i: NodeID, a: NodeID, b: NodeID)
    requires Here(s, i) && i in ALL && a in ALL && b in ALL && i != a && i != b && a != b
    requires s.role == Leader && s.term > 0 && End(s.log) == s.term && s.committed < Last(s.log)
    requires s.matched == map[i := Last(s.log), a := Last(s.log), b := Last(s.log)]
    ensures AdvanceCommit(s) == BroadcastAppend(s.(committed := Last(s.log)))
  {
    hide CommitTarget, AppendMessages, Contiguous, Plain, Last, End;
    LastIsTarget(s, i, a, b);
    assert i in FIVE.Voters();
  }

  /** The second acknowledgement of the leader's last entry commits it. */
  lemma AcksTwo(s: State, i: NodeID, a: NodeID, b: NodeID)
    requires Here(s, i) && i in ALL && a in ALL && b in ALL && i != a && i != b && a != b
    requires s.role == Leader && s.term > 0 && End(s.log) == s.term && s.committed < Last(s.log)
    requires s.matched == map[i := Last(s.log), a := Last(s.log)]
    ensures var t := Step(s, AckOf(b, i, s.term, Last(s.log), false));
      && Here(t, i) && Of(t) == Of(s).(committed := Last(s.log))
      && forall j | j in ALL && j != i && j != b && j in s.next && 0 < s.next[j] < |s.log| :: CommitSent(s, j) in t.msgs
  {
    hide AdvanceCommit, HandleAppendResp, BroadcastAppend, Plain, Contiguous, Last, End, CommitSent;
    var c := Last(s.log);
    var s1 := Recorded(s, b, c);
    AcksThen(s, b, c);
    CommitsLast(s1, i, a, b);
    BroadcastOnlySends(s1.(committed := c));
    SameButSent(HandleAppendResp(s, AckOf(b, i, s.term, c, false)), s1.(committed := c));
    forall j | j in ALL && j != i && j != b && j in s.next && 0 < s.next[j] < |s.log|
      ensures CommitSent(s, j) in BroadcastAppend(s1.(committed := c)).msgs
    {
      SendsCommit(s, s1.(committed := c), j);
    }
  }

  /** What `j` is sent once the last entry is committed. */
  function CommitSent(s: State, j: NodeID): Message
    requires j in s.next && 0 < s.next[j] < |s.log|
  {
    var n := s.next[j];
    Batch(s.id, j, s.term, n - 1, s.log[n - 1].term, Last(s.log), s.log[n..])
  }

  lemma SameCommitSent(s: State, t: State, j: NodeID)
    requires s.id == t.id && Of(s) == Of(t)
    requires j in s.next && 0 < s.next[j] < |s.log| && j in t.next && t.next[j] == s.next[j]
    ensures CommitSent(t, j) == CommitSent(s, j)
  {
  }

  lemma SendsCommit(s: State, t: State, j: NodeID)
    requires j in s.next && 0 < s.next[j] < |s.log| && j in ALL && j != s.id && t.peers == PEERS
    requires t.id == s.id && t.term == s.term && t.log == s.log && t.committed == Last(s.log)
    requires j in t.next && t.next[j] == s.next[j]
    ensures CommitSent(s, j) in BroadcastAppend(t).msgs
  {
    hide AppendMessage, BroadcastAppend;
    BroadcastHas(t, j);
    SendsFrom(t, j, s.next[j]);
  }

  // ---------- Moves ----------

  /** One action and what it queued sent off. */
  lemma Go(r: Run, a: Action) returns (r': Run)
    requires Reachable(r, FIVE) && Enabled(r.c, a) && !a.Emit?
    ensures Reachable(r', FIVE)
    ensures var i, t := Target(a), Act(r.c.nodes[Target(a)], a);
      && r'.c.nodes == r.c.nodes[i := t] && r'.c.net == r.c.net + t.msgs
      && r.leaders <= r'.leaders && (t.role == Leader ==> (t.term, i) in r'.leaders)
      && r'.erased == (if r.c.nodes[i].vote != 0 && t.term == r.c.nodes[i].term && t.vote != r.c.nodes[i].vote
                       then r.erased + {(i, t.term)} else r.erased)
  {
    hide Reachable, Act;
    var i := Target(a);
    var r1 := Next(r, a);
    ReachableNext(r, FIVE, a);
    ReachableNext(r1, FIVE, Emit(i));
    EmitIs(r1, i);
    r' := Next(r1, Emit(i));
  }

  lemma EmitIs(r: Run, i: NodeID)
    requires i in r.c.nodes
    ensures var r' := Next(r, Emit(i));
      && r'.c.nodes == r.c.nodes && r'.c.net == r.c.net + r.c.nodes[i].msgs
      && r.leaders <= r'.leaders && r'.erased == r.erased
  {
  }

  /** Only node `i` moved. */
  ghost predicate Moved(r: Run, r': Run, i: NodeID) {
    && Alive(r') && i in ALL && r'.c.nodes == r.c.nodes[i := r'.c.nodes[i]]
    && r.c.net <= r'.c.net && r.leaders <= r'.leaders
  }

  /** A node that keeps its vote erases none. */
  ghost predicate KeepsVotes(r: Run, r': Run) {
    r'.erased == r.erased
  }

  lemma Deliver1(r: Run, m: Message) returns (r': Run)
    requires Alive(r) && m in r.c.net && m.to in ALL && Here(Step(r.c.nodes[m.to], m), m.to)
    ensures Moved(r, r', m.to)
    ensures var s, t := r.c.nodes[m.to], Step(r.c.nodes[m.to], m);
      && r'.c.nodes[m.to] == t && t.msgs <= r'.c.net && (t.role == Leader ==> (t.term, m.to) in r'.leaders)
      && (s.vote == 0 || t.term > s.term || t.vote == s.vote ==> KeepsVotes(r, r'))
  {
    hide Reachable, Step, Here;
    r' := Go(r, Deliver(m));
  }

  lemma Poll(r: Run, i: NodeID) returns (r': Run)
    requires Alive(r) && i in ALL && r.c.nodes[i].role != Leader
    ensures Moved(r, r', i) && KeepsVotes(r, r')
    ensures var s, t := r.c.nodes[i], r'.c.nodes[i];
      && Of(t) == Of(s) && t.preVote && t.votes == Some({i})
      && (forall j | j in ALL && j != i :: Request(MsgPreVote, i, j, s.term + 1, s.log) in r'.c.net)
  {
    hide Reachable, Tick, Here, Request;
    var s := r.c.nodes[i];
    TwoTicks(s, i);
    OneTick(s);
    OneTick(Tick(s));
    var r1 := Go(r, TickAt(i));
    r' := Go(r1, TickAt(i));
  }

  lemma OneTick(s: State)
    ensures Tick(s).vote == s.vote && Tick(s).term == s.term
  {
  }

  /** Every node asked answers yes, as long as all are as they started. */
  ghost predicate AllStart(r: Run) {
    Alive(r) && forall i | i in ALL :: Of(r.c.nodes[i]) == START
  }

  lemma AnswerOne(r: Run, i: NodeID, j: NodeID) returns (r': Run)
    requires AllStart(r) && i in ALL && j in ALL && j != i && Request(MsgPreVote, i, j, 1, [PLACEHOLDER]) in r.c.net
    ensures AllStart(r') && Moved(r, r', j) && KeepsVotes(r, r')
    ensures Answer(MsgPreVoteResp, j, i, 0) in r'.c.net
  {
    hide Reachable, Step, Here, Request, Answer;
    var m := Request(MsgPreVote, i, j, 1, [PLACEHOLDER]);
    RequestTo(MsgPreVote, i, j, 1, [PLACEHOLDER]);
    StartUpToDate(r.c.nodes[j], i, j);
    AnswersPreVote(r.c.nodes[j], j, m);
    r' := Deliver1(r, m);
  }

  lemma {:induction false} AnswerAll(r: Run, i: NodeID, todo: set<NodeID>) returns (r': Run)
    requires AllStart(r) && i in ALL && todo <= ALL - {i}
    requires forall j | j in ALL && j != i :: Request(MsgPreVote, i, j, 1, [PLACEHOLDER]) in r.c.net
    ensures AllStart(r') && r.c.net <= r'.c.net && KeepsVotes(r, r')
    ensures forall j | j in todo :: Answer(MsgPreVoteResp, j, i, 0) in r'.c.net
    decreases todo
  {
    hide Alive, AllStart, Request, Answer;
    if todo == {} {
      r' := r;
    } else {
      var j :| j in todo;
      var r1 := AnswerOne(r, i, j);
      r' := AnswerAll(r1, i, todo - {j});
    }
  }

  lemma RequestTo(kind: Kind, i: NodeID, j: NodeID, term: nat, log: EntryLog)
    ensures var m := Request(kind, i, j, term, log); m.kind == kind && m.from == i && m.to == j && m.term == term
  {
  }

  lemma StartUpToDate(s: State, i: NodeID, j: NodeID)
    requires s.log == [PLACEHOLDER]
    ensures var m := Request(MsgPreVote, i, j, 1, [PLACEHOLDER]); LogUpToDate(s, m.index, m.logTerm)
  {
  }

  lemma PollStart(r: Run, i: NodeID) returns (r': Run)
    requires AllStart(r) && i in ALL
    ensures AllStart(r') && Moved(r, r', i) && KeepsVotes(r, r')
    ensures forall j | j in ALL && j != i :: Request(MsgPreVote, i, j, 1, [PLACEHOLDER]) in r'.c.net
  {
    hide Reachable, Here, Request, KeepsVotes;
    r' := Poll(r, i);
  }

  lemma Asked(r: Run, i: NodeID) returns (r': Run)
    requires AllStart(r) && i in ALL
    ensures AllStart(r') && r.c.net <= r'.c.net && KeepsVotes(r, r')
    ensures forall j | j in ALL && j != i :: Answer(MsgPreVoteResp, j, i, 0) in r'.c.net
  {
    hide AllStart, Alive, Request, Answer;
    var r1 := PollStart(r, i);
    r' := AnswerAll(r1, i, ALL - {i});
  }

  /** Everybody has answered the pre-votes of nodes 1, 2 and 3; the answers are still on the network. */
  ghost predicate Ready(net: set<Message>) {
    forall i, j | i in {1, 2, 3} && j in ALL && j != i :: Answer(MsgPreVoteResp, j, i, 0) in net
  }

  lemma SetUp() returns (r: Run)
    ensures AllStart(r) && Ready(r.c.net) && r.erased == {}
  {
    hide Reachable, Here;
    r := Created();
    r := Asked(r, 1);
    r := Asked(r, 2);
    r := Asked(r, 3);
  }

  lemma Created() returns (r: Run)
    ensures AllStart(r) && r.erased == {}
    ensures forall i | i in ALL :: r.c.nodes[i] == Fresh(i)
  {
    r := Run(Cluster(map i | i in ALL :: Fresh(i), {}), {}, map[], {}, {});
    assert Initial(r, FIVE);
    assert Exec(r, []) == r;
  }

  /** A node that does not lead campaigns: two delayed answers take it past the pre-vote. */
  lemma Campaign(r: Run, i: NodeID, a: NodeID, b: NodeID) returns (r': Run)
    requires Alive(r) && i in ALL && a in ALL && b in ALL && i != a && i != b && a != b && r.c.nodes[i].role != Leader
    requires Answer(MsgPreVoteResp, a, i, 0) in r.c.net && Answer(MsgPreVoteResp, b, i, 0) in r.c.net
    ensures Moved(r, r', i) && KeepsVotes(r, r')
    ensures var s, t := r.c.nodes[i], r'.c.nodes[i];
      && Of(t) == View(Candidate, s.term + 1, i, s.log, s.committed) && !t.preVote && t.votes == Some({i})
      && (forall j | j in ALL && j != i :: Request(MsgVote, i, j, s.term + 1, s.log) in r'.c.net)
  {
    hide Reachable, Alive, Request, Answer, Contiguous;
    var r1 := Poll(r, i);
    var r2 := CountAnswer(r1, i, a);
    r' := StartElection(r2, i, a, b);
  }

  /** The request for a vote reaches `j`, which gives it. */
  lemma Vote(r: Run, i: NodeID, j: NodeID, term: nat, log: EntryLog) returns (r': Run)
    requires Alive(r) && i in ALL && j in ALL && i != j && Request(MsgVote, i, j, term, log) in r.c.net
    requires var s := r.c.nodes[j]; (term > s.term || s.vote == 0) && LogUpToDate(s, LastIndex(log), LastTerm(log))
    ensures Moved(r, r', j) && KeepsVotes(r, r')
    ensures var s := r.c.nodes[j];
      && Of(r'.c.nodes[j]) == View(if term > s.term then Follower else s.role, if term > s.term then term else s.term, i, s.log, s.committed)
      && Answer(MsgVoteResp, j, i, if term > s.term then term else s.term) in r'.c.net
  {
    hide Reachable, Step, Here, LogUpToDate, LastIndex, LastTerm;
    var m := Request(MsgVote, i, j, term, log);
    GivesVote(r.c.nodes[j], j, m);
    r' := Deliver1(r, m);
  }

  /** The request reaches `j`, whose log is newer. */
  lemma Refuse(r: Run, i: NodeID, j: NodeID, term: nat, log: EntryLog) returns (r': Run)
    requires Alive(r) && i in ALL && j in ALL && i != j && Request(MsgVote, i, j, term, log) in r.c.net
    requires var s := r.c.nodes[j]; term > s.term && !LogUpToDate(s, LastIndex(log), LastTerm(log))
    ensures Moved(r, r', j) && KeepsVotes(r, r')
    ensures var s := r.c.nodes[j]; Of(r'.c.nodes[j]) == View(Follower, term, 0, s.log, s.committed)
  {
    hide Reachable, Step, Here, LogUpToDate, LastIndex, LastTerm;
    var m := Request(MsgVote, i, j, term, log);
    RefusesVote(r.c.nodes[j], j, m);
    r' := Deliver1(r, m);
  }

  /** One vote counted, and then the one that wins. */
  lemma Count(r: Run, i: NodeID, a: NodeID) returns (r': Run)
    requires Alive(r) && i in ALL && a in ALL && i != a
    requires var s := r.c.nodes[i]; s.role == Candidate && s.votes == Some({i}) && Answer(MsgVoteResp, a, i, s.term) in r.c.net
    ensures Moved(r, r', i) && KeepsVotes(r, r')
    ensures var s, t := r.c.nodes[i], r'.c.nodes[i]; Of(t) == Of(s) && t.preVote == s.preVote && t.votes == Some({i} + {a})
  {
    hide Reachable, Step, Here;
    CountsOne(r.c.nodes[i], i, a);
    r' := Deliver1(r, Answer(MsgVoteResp, a, i, r.c.nodes[i].term));
  }

  lemma Win(r: Run, i: NodeID, a: NodeID, b: NodeID) returns (r': Run)
    requires Alive(r) && i in ALL && a in ALL && b in ALL && i != a && i != b && a != b
    requires var s := r.c.nodes[i]; s.role == Candidate && s.votes == Some({i} + {a}) && Answer(MsgVoteResp, b, i, s.term) in r.c.net
    ensures Moved(r, r', i) && KeepsVotes(r, r')
    ensures var s, t := r.c.nodes[i], r'.c.nodes[i];
      && Of(t) == Of(s).(role := Leader) && Leads(t) && (s.term, i) in r'.leaders && t.votes == Some({i} + {a} + {b})
      && (forall j | j in ALL && j != i :: Batch(i, j, s.term, Last(s.log), End(s.log), s.committed, []) in r'.c.net)
  {
    hide Reachable, Step, Here, Leads, Last, End;
    Wins(r.c.nodes[i], i, a, b);
    r' := Deliver1(r, Answer(MsgVoteResp, b, i, r.c.nodes[i].term));
  }

  /** The votes of `a` and `b` are counted. */
  lemma CountBoth(r: Run, i: NodeID, a: NodeID, b: NodeID) returns (r': Run)
    requires Alive(r) && i in ALL && a in ALL && b in ALL && i != a && i != b && a != b
    requires r.c.nodes[i].role == Candidate && r.c.nodes[i].votes == Some({i})
    requires Answer(MsgVoteResp, a, i, r.c.nodes[i].term) in r.c.net && Answer(MsgVoteResp, b, i, r.c.nodes[i].term) in r.c.net
    ensures Moved(r, r', i) && KeepsVotes(r, r')
    ensures var s, t := r.c.nodes[i], r'.c.nodes[i];
      && Of(t) == Of(s).(role := Leader) && Leads(t) && (s.term, i) in r'.leaders
      && (forall j | j in ALL && j != i :: Batch(i, j, s.term, Last(s.log), End(s.log), s.committed, []) in r'.c.net)
  {
    hide Reachable, Here, Leads, Last, End, Answer, Batch;
    var r1 := Count(r, i, a);
    r' := Win(r1, i, a, b);
  }

  lemma VoteBoth(r: Run, i: NodeID, a: NodeID, b: NodeID) returns (r': Run)
    requires Alive(r) && i in ALL && a in ALL && b in ALL && i != a && i != b && a != b
    requires Request(MsgVote, i, a, r.c.nodes[i].term, r.c.nodes[i].log) in r.c.net
    requires Request(MsgVote, i, b, r.c.nodes[i].term, r.c.nodes[i].log) in r.c.net
    requires Willing(r.c.nodes[a], r.c.nodes[i]) && Willing(r.c.nodes[b], r.c.nodes[i])
    ensures Alive(r') && r'.c.nodes == r.c.nodes[a := r'.c.nodes[a]][b := r'.c.nodes[b]]
    ensures r.c.net <= r'.c.net && r.leaders <= r'.leaders && KeepsVotes(r, r')
    ensures Of(r'.c.nodes[a]) == Voted(r.c.nodes[a], r.c.nodes[i], i) && Of(r'.c.nodes[b]) == Voted(r.c.nodes[b], r.c.nodes[i], i)
    ensures Answer(MsgVoteResp, a, i, r.c.nodes[i].term) in r'.c.net && Answer(MsgVoteResp, b, i, r.c.nodes[i].term) in r'.c.net
  {
    hide Reachable, Here, Request, LogUpToDate, Answer, LastIndex, LastTerm;
    var s := r.c.nodes[i];
    var r1 := Vote(r, i, a, s.term, s.log);
    r' := Vote(r1, i, b, s.term, s.log);
  }

  /** A candidate that `a` and `b` vote for takes the lead. */
  lemma Elect(r: Run, i: NodeID, a: NodeID, b: NodeID) returns (r': Run)
    requires Alive(r) && i in ALL && a in ALL && b in ALL && i != a && i != b && a != b
    requires r.c.nodes[i].role == Candidate && r.c.nodes[i].votes == Some({i})
    requires Request(MsgVote, i, a, r.c.nodes[i].term, r.c.nodes[i].log) in r.c.net
    requires Request(MsgVote, i, b, r.c.nodes[i].term, r.c.nodes[i].log) in r.c.net
    requires Willing(r.c.nodes[a], r.c.nodes[i]) && Willing(r.c.nodes[b], r.c.nodes[i])
    ensures Alive(r') && r'.c.nodes == r.c.nodes[a := r'.c.nodes[a]][b := r'.c.nodes[b]][i := r'.c.nodes[i]]
    ensures r.c.net <= r'.c.net && r.leaders <= r'.leaders && KeepsVotes(r, r')
    ensures var s := r.c.nodes[i];
      && Of(r'.c.nodes[i]) == Of(s).(role := Leader) && Leads(r'.c.nodes[i]) && (s.term, i) in r'.leaders
      && Of(r'.c.nodes[a]) == Voted(r.c.nodes[a], s, i) && Of(r'.c.nodes[b]) == Voted(r.c.nodes[b], s, i)
      && (forall j | j in ALL && j != i :: Batch(i, j, s.term, Last(s.log), End(s.log), s.committed, []) in r'.c.net)
  {
    hide Reachable, Leads, Last, End, Request, Willing, Voted, Answer, Batch, Plain, FIVE;
    var r1 := VoteBoth(r, i, a, b);
    r' := CountBoth(r1, i, a, b);
  }

  ghost predicate Willing(v: State, s: State) {
    (s.term > v.term || (s.term == v.term && v.vote == 0)) && LogUpToDate(v, LastIndex(s.log), LastTerm(s.log))
  }

  function Voted(v: State, s: State, i: NodeID): View {
    View(if s.term > v.term then Follower else v.role, s.term, i, v.log, v.committed)
  }

  /** A pre-vote answer that does not decide. */
  lemma CountAnswer(r: Run, i: NodeID, a: NodeID) returns (r': Run)
    requires Alive(r) && i in ALL && a in ALL && a != i && Answer(MsgPreVoteResp, a, i, 0) in r.c.net
    requires r.c.nodes[i].preVote && r.c.nodes[i].votes == Some({i})
    ensures Moved(r, r', i) && KeepsVotes(r, r')
    ensures var s, t := r.c.nodes[i], r'.c.nodes[i]; Of(t) == Of(s) && t.preVote && t.votes == Some({i} + {a})
  {
    hide Reachable, Step, Here;
    FirstAnswer(r.c.nodes[i], i, a);
    r' := Deliver1(r, Answer(MsgPreVoteResp, a, i, 0));
  }

  /** The pre-vote answer that decides. */
  lemma StartElection(r: Run, i: NodeID, a: NodeID, b: NodeID) returns (r': Run)
    requires Alive(r) && i in ALL && a in ALL && b in ALL && i != a && i != b && a != b
    requires Answer(MsgPreVoteResp, b, i, 0) in r.c.net && r.c.nodes[i].preVote && r.c.nodes[i].votes == Some({i} + {a})
    ensures Moved(r, r', i) && KeepsVotes(r, r')
    ensures var s, t := r.c.nodes[i], r'.c.nodes[i];
      && Of(t) == View(Candidate, s.term + 1, i, s.log, s.committed) && !t.preVote && t.votes == Some({i})
      && (forall j | j in ALL && j != i :: Request(MsgVote, i, j, s.term + 1, s.log) in r'.c.net)
  {
    hide Reachable, Step, Here, Request;
    SecondAnswer(r.c.nodes[i], i, a, b);
    r' := Deliver1(r, Answer(MsgPreVoteResp, b, i, 0));
  }

  /** A leader that has just won takes a command. */
  lemma Put(r: Run, i: NodeID, bytes: seq<byte>) returns (r': Run)
    requires Alive(r) && i in ALL && Leads(r.c.nodes[i])
    ensures Moved(r, r', i) && KeepsVotes(r, r')
    ensures var s, t, e := r.c.nodes[i], r'.c.nodes[i], Entry(|r.c.nodes[i].log|, r.c.nodes[i].term, Data.Command(bytes));
      && Of(t) == Of(s).(log := s.log + [e]) && t.next == s.next && t.matched == map[i := |s.log|]
      && (forall j | j in ALL && j != i :: Batch(i, j, s.term, Last(s.log), End(s.log), s.committed, [e]) in r'.c.net)
  {
    hide Reachable, Propose, Here, Last, End;
    Proposes(r.c.nodes[i], i, Data.Command(bytes));
    LeaderIsLeader(r.c.nodes[i]);
    hide Leads;
    r' := Go(r, ProposeAt(i, bytes));
  }

  /** A leader takes another command, and sends `j` all it has from `n` on. */
  lemma PutMore(r: Run, i: NodeID, bytes: seq<byte>, j: NodeID, n: nat) returns (r': Run)
    requires Alive(r) && i in ALL && j in ALL && i != j
    requires SendsNext(r.c.nodes[i], j, n)
    ensures Moved(r, r', i) && KeepsVotes(r, r')
    ensures var s := r.c.nodes[i]; Of(r'.c.nodes[i]) == Of(s).(log := Longer(s, bytes))
    ensures Batch(i, j, r.c.nodes[i].term, n - 1, r.c.nodes[i].log[n - 1].term, r.c.nodes[i].committed, Longer(r.c.nodes[i], bytes)[n..]) in r'.c.net
  {
    hide Reachable, Propose, Here, Contiguous;
    ProposesMore(r.c.nodes[i], i, Data.Command(bytes), j, n);
    r' := Go(r, ProposeAt(i, bytes));
  }

  /** The log with one more command of the node's term. */
  function Longer(s: State, bytes: seq<byte>): EntryLog {
    s.log + [Entry(|s.log|, s.term, Data.Command(bytes))]
  }

  /** A leader whose next message to `j` starts at index `n`. */
  ghost predicate SendsNext(s: State, j: NodeID, n: nat) {
    s.role == Leader && j in s.next && s.next[j] == n && 0 < n <= |s.log|
  }

  lemma ProposesMore(s: State, i: NodeID, command: Data, j: NodeID, n: nat)
    requires Here(s, i) && i in ALL && j in ALL && i != j && command.Command?
    requires SendsNext(s, j, n)
    ensures var t := Propose(s, command);
      && Here(t, i) && Of(t) == Of(s).(log := Longer(s, command.bytes))
      && Batch(i, j, s.term, n - 1, s.log[n - 1].term, s.committed, Longer(s, command.bytes)[n..]) in t.msgs
  {
    hide Propose, BroadcastAppend, AppendMessage, Contiguous;
    var t := Pushed(s, Entry(|s.log|, s.term, command));
    ProposalBroadcasts(s, command);
    BroadcastOnlySends(t);
    BroadcastHas(t, j);
    SendsFrom(t, j, n);
  }

  lemma LeaderIsLeader(s: State)
    requires Leads(s)
    ensures s.role == Leader
  {
  }

  /** A batch is taken. */
  lemma Take(r: Run, i: NodeID, j: NodeID, term: nat, index: nat, logTerm: nat, entries: seq<Entry>, after: EntryLog) returns (r': Run)
    requires Alive(r) && i in ALL && j in ALL && i != j && Batch(i, j, term, index, logTerm, 0, entries) in r.c.net
    requires term >= r.c.nodes[j].term && index < |r.c.nodes[j].log| && r.c.nodes[j].log[index].term == logTerm
    requires Append(r.c.nodes[j].log, entries) == Appended(after, true) && Plain(after)
    ensures Moved(r, r', j)
    ensures Of(r'.c.nodes[j]) == View(Follower, term, 0, after, r.c.nodes[j].committed)
    ensures AckOf(j, i, term, |after| - 1, false) in r'.c.net
  {
    hide Reachable, Step, Here, Append, Plain, Contiguous;
    var m := Batch(i, j, term, index, logTerm, 0, entries);
    Accepts(r.c.nodes[j], j, m, after);
    r' := Deliver1(r, m);
  }

  /** A batch is refused. */
  lemma Turn(r: Run, i: NodeID, j: NodeID, term: nat, index: nat, logTerm: nat, entries: seq<Entry>) returns (r': Run)
    requires Alive(r) && i in ALL && j in ALL && i != j && Batch(i, j, term, index, logTerm, 0, entries) in r.c.net
    requires term >= r.c.nodes[j].term && (index < |r.c.nodes[j].log| ==> r.c.nodes[j].log[index].term != logTerm)
    ensures Moved(r, r', j)
    ensures Of(r'.c.nodes[j]) == View(Follower, term, 0, r.c.nodes[j].log, r.c.nodes[j].committed)
    ensures AckOf(j, i, term, |r.c.nodes[j].log| - 1, true) in r'.c.net
  {
    hide Reachable, Step, Here, Contiguous;
    var m := Batch(i, j, term, index, logTerm, 0, entries);
    Refuses(r.c.nodes[j], j, m);
    r' := Deliver1(r, m);
  }

  /** A refusal reaches the leader. */
  lemma Back(r: Run, i: NodeID, j: NodeID, n: nat, index: nat) returns (r': Run)
    requires Alive(r) && i in ALL && j in ALL && i != j && r.c.nodes[i].role == Leader
    requires AckOf(j, i, r.c.nodes[i].term, index, true) in r.c.net
    requires j in r.c.nodes[i].next && r.c.nodes[i].next[j] == n + 1 && 0 < n < |r.c.nodes[i].log|
    ensures Moved(r, r', i) && KeepsVotes(r, r')
    ensures var s, t := r.c.nodes[i], r'.c.nodes[i];
      && Of(t) == Of(s) && t.matched == s.matched
      && Batch(i, j, s.term, n - 1, s.log[n - 1].term, s.committed, s.log[n..]) in r'.c.net
  {
    hide Reachable, Step, Here, Contiguous;
    BacksOff(r.c.nodes[i], i, j, n, index);
    r' := Deliver1(r, AckOf(j, i, r.c.nodes[i].term, index, true));
  }

  /** One acknowledgement of the leader's last entry reaches it. */
  lemma AckFirst(r: Run, i: NodeID, a: NodeID) returns (r': Run)
    requires Alive(r) && i in ALL && a in ALL && i != a && r.c.nodes[i].role == Leader
    requires r.c.nodes[i].matched == map[i := Last(r.c.nodes[i].log)]
    requires AckOf(a, i, r.c.nodes[i].term, Last(r.c.nodes[i].log), false) in r.c.net
    ensures Moved(r, r', i)
    ensures var s, t := r.c.nodes[i], r'.c.nodes[i];
      && Of(t) == Of(s) && t.id == s.id && t.next == s.next[a := Last(s.log) + 1]
      && t.matched == map[i := Last(s.log), a := Last(s.log)]
  {
    hide Reachable, Step, Last;
    var s := r.c.nodes[i];
    AcksOne(s, i, a, Last(s.log));
    r' := Deliver1(r, AckOf(a, i, s.term, Last(s.log), false));
  }

  /** The second one reaches it, and it commits. */
  lemma AckSecond(r: Run, i: NodeID, a: NodeID, b: NodeID) returns (r': Run)
    requires Alive(r) && i in ALL && a in ALL && b in ALL && i != a && i != b && a != b && r.c.nodes[i].role == Leader
    requires r.c.nodes[i].matched == map[i := Last(r.c.nodes[i].log), a := Last(r.c.nodes[i].log)] && r.c.nodes[i].term > 0
    requires End(r.c.nodes[i].log) == r.c.nodes[i].term && r.c.nodes[i].committed < Last(r.c.nodes[i].log)
    requires AckOf(b, i, r.c.nodes[i].term, Last(r.c.nodes[i].log), false) in r.c.net
    ensures Moved(r, r', i) && Of(r'.c.nodes[i]) == Of(r.c.nodes[i]).(committed := Last(r.c.nodes[i].log))
    ensures var s := r.c.nodes[i];
      forall j | j in ALL && j != i && j != b && j in s.next && 0 < s.next[j] < |s.log| :: CommitSent(s, j) in r'.c.net
  {
    hide Reachable, Step, Here, Last, End, CommitSent;
    AcksTwo(r.c.nodes[i], i, a, b);
    r' := Deliver1(r, AckOf(b, i, r.c.nodes[i].term, Last(r.c.nodes[i].log), false));
  }

  /** Two acknowledgements of the leader's last entry reach it, and it commits. */
  lemma AckBoth(r: Run, i: NodeID, a: NodeID, b: NodeID) returns (r': Run)
    requires Alive(r) && i in ALL && a in ALL && b in ALL && i != a && i != b && a != b && r.c.nodes[i].role == Leader
    requires r.c.nodes[i].matched == map[i := Last(r.c.nodes[i].log)] && r.c.nodes[i].term > 0
    requires End(r.c.nodes[i].log) == r.c.nodes[i].term && r.c.nodes[i].committed < Last(r.c.nodes[i].log)
    requires AckOf(a, i, r.c.nodes[i].term, Last(r.c.nodes[i].log), false) in r.c.net
    requires AckOf(b, i, r.c.nodes[i].term, Last(r.c.nodes[i].log), false) in r.c.net
    ensures Moved(r, r', i) && Of(r'.c.nodes[i]) == Of(r.c.nodes[i]).(committed := Last(r.c.nodes[i].log))
    ensures var s := r.c.nodes[i];
      forall j | j in ALL && j !in {i, a, b} && j in s.next && 0 < s.next[j] < |s.log| :: CommitSent(s, j) in r'.c.net
  {
    hide Alive, Last, End, CommitSent, AckOf;
    HasNode(r, i);
    var s := r.c.nodes[i];
    var r1 := AckFirst(r, i, a);
    r' := AckSecond(r1, i, a, b);
    forall j | j in ALL && j !in {i, a, b} && j in s.next && 0 < s.next[j] < |s.log| ensures CommitSent(s, j) in r'.c.net {
      SameCommitSent(s, r1.c.nodes[i], j);
    }
  }
}
