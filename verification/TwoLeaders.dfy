/**
 Two runs of correctly configured nodes that elect two leaders in one term.

 In the first, node 3 votes for node 1, which wins and sends its first append message. Accepting that
 message erases node 3's vote, so when node 2's request for the same term arrives late, node 3 votes again,
 and node 2 wins as well.

 In the second no vote is ever erased. Nodes 1 and 2 are candidates of term 1. Node 2 wins with the votes of
 nodes 3 and 5. Node 1 hears nothing and goes back to a pre-vote, still a candidate; node 3's answer to the
 pre-vote and node 4's vote make a quorum together, and node 1 wins as well.
 */
module TwoLeaders {
  import opened Wrappers
  import opened Quorums
  import opened RaftLog
  import opened RaftNode
  import opened RaftRuns
  import F = FiveNodes

  const VOTERS := Membership({1, 2, 3}, {}, false)

  /** A node of the group that holds no entries yet. */
  ghost predicate Plain(s: State, i: NodeID) {
    && s.id == i && s.peers == [1, 2, 3] && s.membership == VOTERS && s.log == [PLACEHOLDER]
    && s.committed == 0 && s.electionTick == 2 && s.heartbeatTick == 1
  }

  function Fresh(i: NodeID): State {
    NewState(i, [1, 2, 3], VOTERS, 2, 1)
  }

  function Request(kind: Kind, i: NodeID, to: NodeID): Message {
    Message(kind, i, to, 1, 0, 0, 0, false, [])
  }

  function Yes(kind: Kind, to: NodeID, term: nat): Message {
    Message(kind, 3, to, term, 0, 0, 0, false, [])
  }

  lemma TwoOfThree(i: NodeID)
    requires i == 1 || i == 2
    ensures VOTERS.HasQuorum({i} + {3})
  {
    assert {1, 2, 3} * ({i} + {3}) == {i, 3};
  }

  // ---------- What each node does ----------

  lemma NoEntries(s: State)
    requires s.log == [PLACEHOLDER]
    ensures LastIndex(s.log) == 0 && Term(s.log, 0) == Some(0) && TermOrZero(s.log, 0) == 0
    ensures EntriesFrom(s.log, 1) == []
  {
  }

  lemma AsksEveryone(s: State, kind: Kind, term: nat)
    requires s.membership == VOTERS && s.id != 3 && s.log == [PLACEHOLDER]
    ensures Message(kind, s.id, 3, term, 0, 0, 0, false, []) in AskVoters(s, kind, term).msgs
    ensures AskVoters(s, kind, term).(msgs := s.msgs) == s
  {
    NoEntries(s);
  }

  /** Two silent ticks start a pre-vote. */
  lemma StartsPreVote(i: NodeID) returns (s: State)
    requires i == 1 || i == 2
    ensures s == Tick(Tick(Fresh(i)))
    ensures Plain(s, i) && s.role == Follower && s.term == 0 && s.preVote && s.votes == Some({i})
    ensures Request(MsgPreVote, i, 3) in s.msgs
  {
    hide AskVoters;
    s := Tick(Tick(Fresh(i)));
    var asking := Fresh(i).(electionElapsed := 0, votes := Some({i}), preVote := true);
    AsksEveryone(asking, MsgPreVote, 1);
    assert s == AskVoters(asking, MsgPreVote, 1);
  }

  /** Node 3 answers a pre-vote with yes. */
  lemma AnswersPreVote(s: State, i: NodeID)
    requires Plain(s, 3) && s.term == 0
    ensures var t := Step(s, Request(MsgPreVote, i, 3));
            t == s.(msgs := s.msgs + {Yes(MsgPreVoteResp, i, 0)})
  {
    NoEntries(s);
  }

  /** That answer is a quorum with the node's own, so the real election starts. */
  lemma StartsElection(s: State, i: NodeID)
    requires (i == 1 || i == 2) && Plain(s, i) && s.role == Follower && s.term == 0 && s.preVote && s.votes == Some({i})
    ensures var t := Step(s, Yes(MsgPreVoteResp, i, 0));
            && Plain(t, i) && t.role == Candidate && t.term == 1 && !t.preVote && t.votes == Some({i})
            && Request(MsgVote, i, 3) in t.msgs
  {
    hide AskVoters;
    TwoOfThree(i);
    var asking := s.(votes := Some({i} + {3})).(preVote := false, role := Candidate, term := 1, vote := i, votes := Some({i}));
    AsksEveryone(asking, MsgVote, 1);
  }

  /** Node 3 votes for whoever asks, when it holds no vote in term 1. */
  lemma Votes(s: State, i: NodeID)
    requires i != 0 && Plain(s, 3) && s.term <= 1 && (s.term == 1 ==> s.vote == 0)
    ensures var t := Step(s, Request(MsgVote, i, 3));
            && Plain(t, 3) && t.term == 1 && t.vote == i
            && Yes(MsgVoteResp, i, 1) in t.msgs
  {
    NoEntries(s);
  }

  /** The vote wins the election, and the new leader announces itself. */
  lemma Wins(s: State, i: NodeID)
    requires (i == 1 || i == 2) && Plain(s, i) && s.role == Candidate && s.term == 1 && s.votes == Some({i})
    ensures var t := Step(s, Yes(MsgVoteResp, i, 1));
            && t.role == Leader && t.term == 1
            && Request(MsgAppend, i, 3) in t.msgs
  {
    hide AppendMessage;
    TwoOfThree(i);
    var leading := StartLeading(s.(votes := Some({i} + {3})));
    Announces(leading, i);
    assert Step(s, Yes(MsgVoteResp, i, 1)) == BroadcastAppend(leading);
  }

  lemma Announces(s: State, i: NodeID)
    requires i != 3 && Plain(s, i) && s.term == 1 && 3 in s.next && s.next[3] == 1
    ensures AppendMessage(s, 3) == Request(MsgAppend, i, 3)
    ensures Request(MsgAppend, i, 3) in BroadcastAppend(s).msgs
  {
    NoEntries(s);
  }

  /** Accepting the announcement erases node 3's vote. */
  lemma ForgetsVote(s: State)
    requires Plain(s, 3) && s.term == 1
    ensures var t := Step(s, Request(MsgAppend, 1, 3));
            Plain(t, 3) && t.term == 1 && t.vote == 0
  {
    NoEntries(s);
    var s1 := BecomeFollower(s, 1, 1);
    NoEntries(s1);
    assert Append(s1.log, []) == Appended(s1.log, true);
  }

  // ---------- The run ----------

  lemma Move(r: Run, a: Action) returns (r': Run)
    requires Reachable(r, VOTERS) && Enabled(r.c, a)
    ensures r' == Next(r, a) && Reachable(r', VOTERS)
    ensures r'.c.nodes == r.c.nodes[Target(a) := Act(r.c.nodes[Target(a)], a)]
    ensures r'.c.net == if a.Emit? then r.c.net + r.c.nodes[a.at].msgs else r.c.net
    ensures r.leaders <= r'.leaders
    ensures var t := Act(r.c.nodes[Target(a)], a); t.role == Leader ==> (t.term, Target(a)) in r'.leaders
  {
    hide Act;
    r' := Next(r, a);
    ReachableNext(r, VOTERS, a);
  }

  /** Delivers a message that has been sent. */
  lemma Hand(r: Run, m: Message) returns (r': Run)
    requires Reachable(r, VOTERS) && m in r.c.net && m.to in r.c.nodes
    ensures Reachable(r', VOTERS)
    ensures r'.c.nodes == r.c.nodes[m.to := Step(r.c.nodes[m.to], m)]
    ensures r'.c.net == r.c.net && r.leaders <= r'.leaders
    ensures var t := Step(r.c.nodes[m.to], m); t.role == Leader ==> (t.term, m.to) in r'.leaders
  {
    hide Step;
    r' := Move(r, Deliver(m));
  }

  lemma Flush(r: Run, i: NodeID) returns (r': Run)
    requires Reachable(r, VOTERS) && i in r.c.nodes
    ensures Reachable(r', VOTERS)
    ensures r'.c.nodes == r.c.nodes && r'.c.net == r.c.net + r.c.nodes[i].msgs && r.leaders <= r'.leaders
  {
    r' := Move(r, Emit(i));
    assert r.c.nodes[i := r.c.nodes[i]] == r.c.nodes;
  }

  /** Nodes 1 and 2 both ask for a pre-vote, and the requests are on the network. */
  /** Node `i` times out, and its requests are on the network. */
  lemma AsksNow(r0: Run, i: NodeID) returns (r: Run)
    requires Reachable(r0, VOTERS) && i in r0.c.nodes && (i == 1 || i == 2) && r0.c.nodes[i] == Fresh(i)
    ensures Reachable(r, VOTERS) && r0.c.net <= r.c.net && Request(MsgPreVote, i, 3) in r.c.net
    ensures r.c.nodes == r0.c.nodes[i := Tick(Tick(Fresh(i)))]
  {
    hide Tick, Reachable, Fresh;
    var s := StartsPreVote(i);
    r := Move(r0, TickAt(i));
    r := Move(r, TickAt(i));
    r := Flush(r, i);
  }

  lemma BothAsk() returns (r: Run)
    ensures Reachable(r, VOTERS)
    ensures r.c.nodes == map[1 := Tick(Tick(Fresh(1))), 2 := Tick(Tick(Fresh(2))), 3 := Fresh(3)]
    ensures Request(MsgPreVote, 1, 3) in r.c.net && Request(MsgPreVote, 2, 3) in r.c.net
  {
    hide Tick, Reachable, Fresh, Request;
    r := Created();
    r := AsksNow(r, 1);
    r := AsksNow(r, 2);
  }

  lemma Created() returns (r: Run)
    ensures Reachable(r, VOTERS) && r.c.nodes == map[1 := Fresh(1), 2 := Fresh(2), 3 := Fresh(3)]
  {
    r := Run(Cluster(map[1 := Fresh(1), 2 := Fresh(2), 3 := Fresh(3)], {}), {}, map[], {}, {});
    assert Initial(r, VOTERS);
    assert Exec(r, []) == r;
  }

  /** Both have started the real election for term 1. */
  lemma BothCampaign() returns (r: Run)
    ensures Reachable(r, VOTERS) && r.c.nodes.Keys == {1, 2, 3}
    ensures forall i | i in {1, 2} ::
              var s := r.c.nodes[i]; Plain(s, i) && s.role == Candidate && s.term == 1 && s.votes == Some({i})
    ensures Plain(r.c.nodes[3], 3) && r.c.nodes[3].term == 0
    ensures Request(MsgVote, 1, 3) in r.c.net && Request(MsgVote, 2, 3) in r.c.net
  {
    hide Reachable, Step, Tick;
    r := BothAsk();
    var s1 := StartsPreVote(1);
    var s2 := StartsPreVote(2);
    var s3 := Fresh(3);
    AnswersPreVote(s3, 1);
    r := Hand(r, Request(MsgPreVote, 1, 3));
    AnswersPreVote(r.c.nodes[3], 2);
    r := Hand(r, Request(MsgPreVote, 2, 3));
    r := Flush(r, 3);
    StartsElection(s1, 1);
    r := Hand(r, Yes(MsgPreVoteResp, 1, 0));
    StartsElection(s2, 2);
    r := Hand(r, Yes(MsgPreVoteResp, 2, 0));
    r := Flush(r, 1);
    r := Flush(r, 2);
  }

  /** One term, two leaders, with every node configured alike and the membership never changed. */
  lemma TwoLeadersInOneTerm() returns (r: Run)
    ensures Reachable(r, VOTERS)
    ensures (1, 1) in r.leaders && (1, 2) in r.leaders
    ensures !OneLeaderPerTerm(r)
  {
    hide Reachable, Step;
    r := BothCampaign();
    Votes(r.c.nodes[3], 1);
    r := Hand(r, Request(MsgVote, 1, 3));
    r := Flush(r, 3);
    Wins(r.c.nodes[1], 1);
    r := Hand(r, Yes(MsgVoteResp, 1, 1));
    r := Flush(r, 1);
    ForgetsVote(r.c.nodes[3]);
    r := Hand(r, Request(MsgAppend, 1, 3));
    Votes(r.c.nodes[3], 2);
    r := Hand(r, Request(MsgVote, 2, 3));
    r := Flush(r, 3);
    Wins(r.c.nodes[2], 2);
    r := Hand(r, Yes(MsgVoteResp, 2, 1));
  }

  // ---------- Mixed votes ----------

  lemma NobodyNewer(s: State)
    requires s.log == [PLACEHOLDER]
    ensures LogUpToDate(s, LastIndex([PLACEHOLDER]), LastTerm([PLACEHOLDER]))
  {
  }

  /** Node `i` campaigns in term 1. */
  ghost predicate Runs(r: Run, i: NodeID)
    requires F.Alive(r) && i in F.ALL
  {
    F.Of(r.c.nodes[i]) == F.View(Candidate, 1, i, [PLACEHOLDER], 0) && r.c.nodes[i].votes == Some({i})
  }

  ghost predicate OneRuns(r: Run) {
    && F.Alive(r) && F.Ready(r.c.net) && r.erased == {} && Runs(r, 1)
    && (forall j | j in {2, 3, 4, 5} :: F.Of(r.c.nodes[j]) == F.START)
    && F.Request(MsgVote, 1, 4, 1, [PLACEHOLDER]) in r.c.net
  }

  lemma ToOneRuns() returns (r: Run)
    ensures OneRuns(r)
  {
    hide Reachable, F.Here, F.Request, F.Answer;
    r := F.SetUp();
    r := F.Campaign(r, 1, 4, 5);
  }

  /** Nodes 1 and 2 campaign in term 1. */
  ghost predicate BothRun(r: Run) {
    && F.Alive(r) && F.Ready(r.c.net) && r.erased == {} && Runs(r, 1) && Runs(r, 2)
    && (forall j | j in {3, 4, 5} :: F.Of(r.c.nodes[j]) == F.START)
    && F.Request(MsgVote, 1, 4, 1, [PLACEHOLDER]) in r.c.net
    && F.Request(MsgVote, 2, 3, 1, [PLACEHOLDER]) in r.c.net && F.Request(MsgVote, 2, 5, 1, [PLACEHOLDER]) in r.c.net
  }

  lemma ToBothRun() returns (r: Run)
    ensures BothRun(r)
  {
    hide Reachable, F.Here, F.Request, F.Answer;
    r := ToOneRuns();
    r := F.Campaign(r, 2, 4, 5);
  }

  /** Node 2 wins; node 4's vote for node 1 is delayed. */
  lemma OtherWins() returns (r: Run)
    ensures F.Alive(r) && F.Ready(r.c.net) && r.erased == {} && (1, 2) in r.leaders
    ensures F.Of(r.c.nodes[1]) == F.View(Candidate, 1, 1, [PLACEHOLDER], 0)
    ensures F.Of(r.c.nodes[2]) == F.View(Leader, 1, 2, [PLACEHOLDER], 0) && F.Leads(r.c.nodes[2])
    ensures F.Of(r.c.nodes[3]) == F.View(Follower, 1, 2, [PLACEHOLDER], 0)
    ensures F.Answer(MsgVoteResp, 4, 1, 1) in r.c.net
  {
    hide Reachable, F.Here, F.Request, F.Leads, F.Batch, F.Answer, LastTerm, F.Last, F.End, LastIndex, LogUpToDate;
    r := ToBothRun();
    NobodyNewer(r.c.nodes[3]);
    NobodyNewer(r.c.nodes[5]);
    NobodyNewer(r.c.nodes[4]);
    r := F.Elect(r, 2, 3, 5);
    r := F.Vote(r, 1, 4, 1, [PLACEHOLDER]);
  }

  /** Nodes 1 and 2 lead term 1, neither has an entry, and node 3 follows in that term. */
  ghost predicate BothLead(r: Run) {
    && F.Alive(r) && (1, 1) in r.leaders && (1, 2) in r.leaders
    && (forall i | i in {1, 2} :: F.Of(r.c.nodes[i]) == F.View(Leader, 1, i, [PLACEHOLDER], 0) && F.Leads(r.c.nodes[i]))
    && F.Of(r.c.nodes[3]) == F.View(Follower, 1, 2, [PLACEHOLDER], 0)
  }

  lemma ToBothLead() returns (r: Run)
    ensures BothLead(r) && r.erased == {}
  {
    hide Reachable, F.Here, F.Request, F.Leads, F.Batch, F.Answer, F.Plain, LastTerm, F.Last, F.End;
    r := OtherWins();
    r := F.Poll(r, 1);
    r := F.CountAnswer(r, 1, 3);
    r := F.Win(r, 1, 3, 4);
  }

  /** A vote counted during a pre-vote elects a second leader, although every vote is kept. */
  lemma PreVoteAndVoteMix() returns (r: Run)
    ensures Reachable(r, F.FIVE) && r.erased == {}
    ensures (1, 1) in r.leaders && (1, 2) in r.leaders
    ensures !OneLeaderPerTerm(r)
  {
    r := ToBothLead();
  }
}
