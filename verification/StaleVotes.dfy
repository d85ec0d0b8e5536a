/**
 A run of five nodes in which a delayed request for a vote of term 3 wins a vote of term 4. Node 1 asked for
 it while it held an entry of term 2. Since then the leader of term 3 has overwritten that entry with one of
 term 1. Node 3, which still holds the entry of term 2, has refused node 1's request of term 4, but grants
 the delayed one, and its vote makes node 1 the leader of term 4.
 */
module StaleVotes {
  import opened Wrappers
  import opened Quorums
  import opened RaftLog
  import opened RaftNode
  import opened RaftRuns
  import opened FiveNodes
  import ER = ElectionRestriction

  const LOW: Entry := Entry(1, 1, Data.Command([]))
  const HIGH: Entry := Entry(1, 2, Data.Command([]))
  const NONE: EntryLog := [PLACEHOLDER]
  const LOWS: EntryLog := [PLACEHOLDER, LOW]
  const HIGHS: EntryLog := [PLACEHOLDER, HIGH]

  lemma Logs()
    ensures LastIndex(NONE) == 0 && LastTerm(NONE) == 0 && Last(NONE) == 0 && End(NONE) == 0
    ensures LastIndex(LOWS) == 1 && LastTerm(LOWS) == 1 && Last(LOWS) == 1 && End(LOWS) == 1
    ensures LastIndex(HIGHS) == 1 && LastTerm(HIGHS) == 2 && Last(HIGHS) == 1 && End(HIGHS) == 2
    ensures NONE + [LOW] == LOWS && NONE + [HIGH] == HIGHS && LOWS[1..] == [LOW]
    ensures Plain(NONE) && Plain(LOWS) && Plain(HIGHS)
  {
  }

  lemma Appends()
    ensures Append(NONE, [HIGH]) == Appended(HIGHS, true)
    ensures Append(HIGHS, [LOW]) == Appended(LOWS, true)
    ensures forall log: EntryLog :: Append(log, []) == Appended(log, true)
  {
    hide AppendOne;
    AppendAtEnd(NONE, [HIGH]);
    assert NONE + [HIGH] == HIGHS;
    assert !Has(HIGHS, LOW);
    AppendCut(HIGHS, [LOW], 1);
    assert HIGHS[..1] + [LOW] == LOWS;
  }

  /** Node 2 leads term 1 and keeps its entry to itself. */
  ghost predicate First(r: Run) {
    && Alive(r) && Ready(r.c.net)
    && Of(r.c.nodes[1]) == START && Of(r.c.nodes[3]) == START
    && Of(r.c.nodes[2]) == View(Leader, 1, 2, LOWS, 0)
    && Of(r.c.nodes[4]) == View(Follower, 1, 2, NONE, 0) && Of(r.c.nodes[5]) == View(Follower, 1, 2, NONE, 0)
    && Request(MsgVote, 2, 3, 1, NONE) in r.c.net
  }

  lemma ToFirst() returns (r: Run)
    ensures First(r)
  {
    hide Reachable, Here, Request, Leads, Batch, Answer, KeepsVotes, Plain;
    r := SetUp();
    r := Campaign(r, 2, 4, 5);
    Logs();
    r := Elect(r, 2, 4, 5);
    r := Put(r, 2, []);
  }

  /** Node 3 leads term 2, and node 1 has its entry. */
  ghost predicate Second(r: Run) {
    && Alive(r) && Ready(r.c.net)
    && Of(r.c.nodes[1]) == View(Follower, 2, 0, HIGHS, 0)
    && Of(r.c.nodes[2]) == View(Leader, 1, 2, LOWS, 0)
    && Of(r.c.nodes[3]) == View(Leader, 2, 3, HIGHS, 0)
    && Of(r.c.nodes[4]) == View(Follower, 2, 3, NONE, 0) && Of(r.c.nodes[5]) == View(Follower, 1, 2, NONE, 0)
    && Batch(3, 2, 2, 0, 0, 0, []) in r.c.net
  }

  lemma ToSecond(r0: Run) returns (r: Run)
    requires First(r0)
    ensures Second(r)
  {
    hide Reachable, Here, Request, Leads, Batch, Answer, Plain, LastIndex, LastTerm, Last, End;
    Logs();
    Appends();
    UpToDate(r0.c.nodes[3], NONE);
    r := Vote(r0, 2, 3, 1, NONE);
    r := Campaign(r, 3, 4, 5);
    UpToDate(r.c.nodes[1], NONE);
    UpToDate(r.c.nodes[4], NONE);
    r := Elect(r, 3, 1, 4);
    r := Put(r, 3, []);
    r := Take(r, 3, 1, 2, 0, 0, [HIGH], HIGHS);
  }

  /** An empty log is no newer than any of these. */
  lemma UpToDate(s: State, log: EntryLog)
    requires s.log == NONE && (log == NONE || log == LOWS)
    ensures LogUpToDate(s, LastIndex(log), LastTerm(log))
  {
    Logs();
  }

  /** Node 1's request of term 3 for node 3's vote is delayed. */
  ghost predicate Third(r: Run) {
    && Alive(r) && Ready(r.c.net)
    && Of(r.c.nodes[1]) == View(Candidate, 3, 1, HIGHS, 0)
    && Of(r.c.nodes[2]) == View(Leader, 3, 2, LOWS, 0) && Leads(r.c.nodes[2])
    && Of(r.c.nodes[3]) == View(Leader, 2, 3, HIGHS, 0)
    && Of(r.c.nodes[4]) == View(Follower, 3, 2, NONE, 0) && Of(r.c.nodes[5]) == View(Follower, 3, 2, NONE, 0)
    && Request(MsgVote, 1, 3, 3, HIGHS) in r.c.net
    && Batch(2, 1, 3, 1, 1, 0, []) in r.c.net
  }

  lemma ToThird(r0: Run) returns (r: Run)
    requires Second(r0)
    ensures Third(r)
  {
    hide Reachable, Here, Request, Leads, Batch, Answer, Plain, LastIndex, LastTerm, Last, End;
    Logs();
    Appends();
    r := Campaign(r0, 1, 4, 5);
    r := Take(r, 3, 2, 2, 0, 0, [], LOWS);
    r := Campaign(r, 2, 1, 3);
    UpToDate(r.c.nodes[4], LOWS);
    UpToDate(r.c.nodes[5], LOWS);
    r := Elect(r, 2, 4, 5);
  }

  /** The leader of term 3 has overwritten node 1's entry, and node 1 asks again in term 4. */
  ghost predicate Fourth(r: Run) {
    && Alive(r)
    && Of(r.c.nodes[1]) == View(Candidate, 4, 1, LOWS, 0) && r.c.nodes[1].votes == Some({1})
    && Of(r.c.nodes[3]) == View(Leader, 2, 3, HIGHS, 0)
    && Of(r.c.nodes[5]) == View(Follower, 3, 2, NONE, 0)
    && Request(MsgVote, 1, 3, 3, HIGHS) in r.c.net
    && Request(MsgVote, 1, 3, 4, LOWS) in r.c.net && Request(MsgVote, 1, 5, 4, LOWS) in r.c.net
  }

  lemma ToFourth(r0: Run) returns (r: Run)
    requires Third(r0)
    ensures Fourth(r)
  {
    hide Reachable, Here, Request, Batch, Answer, Plain, LastIndex, LastTerm, Last, End;
    Logs();
    Appends();
    r := Turn(r0, 2, 1, 3, 1, 1, []);
    r := Back(r, 2, 1, 1, 1);
    r := Take(r, 2, 1, 3, 0, 0, [LOW], LOWS);
    r := Campaign(r, 1, 2, 3);
  }

  /** A request that is no longer of the voter's term, but describes a log as new as the voter's. */
  lemma Delayed(s: State)
    requires s.log == HIGHS
    ensures LogUpToDate(s, LastIndex(HIGHS), LastTerm(HIGHS))
    ensures !LogUpToDate(s, LastIndex(LOWS), LastTerm(LOWS))
  {
    Logs();
  }

  /**
   The delayed request wins: node 3 votes in term 4 for node 1, whose request of term 4 it has just refused,
   and node 1 leads term 4 by that vote although its log is older than node 3's.
   */
  lemma StaleRequestWinsVote() returns (before: Run, after: Run)
    ensures Reachable(before, FIVE) && Reachable(after, FIVE)
    // the voter refused the current request and holds a newer log
    ensures before.c.nodes.Keys == ALL && before.c.nodes[3].term == 4 && before.c.nodes[3].vote == 0
    ensures before.c.nodes[1].role == Candidate && before.c.nodes[1].term == 4
    ensures !ER.NoNewer(before.c.nodes[3].log, before.c.nodes[1].log)
    // it then grants the delayed one, and that vote is counted by the winner
    ensures Request(MsgVote, 1, 3, 3, HIGHS) in before.c.net
    ensures Answer(MsgVoteResp, 3, 1, 4) in Step(before.c.nodes[3], Request(MsgVote, 1, 3, 3, HIGHS)).msgs
    ensures after.c.nodes.Keys == ALL && after.c.nodes[1].role == Leader && (4, 1) in after.leaders
    ensures after.c.nodes[1].log == before.c.nodes[1].log && after.c.nodes[3].log == before.c.nodes[3].log
    ensures after.c.nodes[1].votes == Some({1, 3, 5})
  {
    hide Reachable, Here, Request, Leads, Batch, Answer, Plain, LastIndex, LastTerm, Last, End;
    var r := ToFirst();
    r := ToSecond(r);
    r := ToThird(r);
    r := ToFourth(r);
    before, after := Ending(r);
  }

  lemma Ending(r0: Run) returns (before: Run, after: Run)
    requires Fourth(r0)
    ensures Reachable(before, FIVE) && Reachable(after, FIVE)
    ensures before.c.nodes.Keys == ALL && before.c.nodes[3].term == 4 && before.c.nodes[3].vote == 0
    ensures before.c.nodes[1].role == Candidate && before.c.nodes[1].term == 4
    ensures !ER.NoNewer(before.c.nodes[3].log, before.c.nodes[1].log)
    ensures Request(MsgVote, 1, 3, 3, HIGHS) in before.c.net
    ensures Answer(MsgVoteResp, 3, 1, 4) in Step(before.c.nodes[3], Request(MsgVote, 1, 3, 3, HIGHS)).msgs
    ensures after.c.nodes.Keys == ALL && after.c.nodes[1].role == Leader && (4, 1) in after.leaders
    ensures after.c.nodes[1].log == before.c.nodes[1].log && after.c.nodes[3].log == before.c.nodes[3].log
    ensures after.c.nodes[1].votes == Some({1, 3, 5})
  {
    hide Reachable, Here, Request, Leads, Batch, Answer, Plain, LastIndex, LastTerm, Last, End;
    Delayed(r0.c.nodes[3]);
    before := Refuse(r0, 1, 3, 4, LOWS);
    Newer(before.c.nodes[3].log, before.c.nodes[1].log);
    Delayed(before.c.nodes[3]);
    RequestTo(MsgVote, 1, 3, 3, HIGHS);
    RequestNames(1, 3, HIGHS);
    GivesVote(before.c.nodes[3], 3, Request(MsgVote, 1, 3, 3, HIGHS));
    var r := Vote(before, 1, 3, 3, HIGHS);
    UpToDate(r.c.nodes[5], LOWS);
    r := Vote(r, 1, 5, 4, LOWS);
    r := Count(r, 1, 3);
    after := Win(r, 1, 3, 5);
    assert {1} + {3} + {5} == {1, 3, 5};
  }

  lemma Newer(a: EntryLog, b: EntryLog)
    requires a == HIGHS && b == LOWS
    ensures !ER.NoNewer(a, b)
  {
    Logs();
  }

  lemma RequestNames(i: NodeID, j: NodeID, log: EntryLog)
    ensures var m := Request(MsgVote, i, j, 3, log); m.index == LastIndex(log) && m.logTerm == LastTerm(log)
  {
  }
}
