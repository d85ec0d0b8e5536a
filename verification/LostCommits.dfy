/**
 A run of five nodes that commits an entry no quorum holds, and then commits another one in its place. Nodes
 2 and 3 hold an entry of term 1 at index 1. The leader of term 2 has an empty log; both accept its first
 heartbeat and answer with their own last index, which is 1. The leader takes that for a copy of its own entry
 at index 1 and commits it. Node 2 then leads term 3 without that entry, and commits its own at index 1.
 */
module LostCommits {
  import opened Quorums
  import opened RaftLog
  import opened RaftNode
  import opened RaftRuns
  import opened FiveNodes

  const OLD: Entry := Entry(1, 1, Data.Command([]))
  const NEW: Entry := Entry(1, 2, Data.Command([]))
  const NEXT: Entry := Entry(2, 3, Data.Command([]))
  const NONE: EntryLog := [PLACEHOLDER]
  const OLDS: EntryLog := [PLACEHOLDER, OLD]
  const NEWS: EntryLog := [PLACEHOLDER, NEW]
  const BOTH: EntryLog := [PLACEHOLDER, OLD, NEXT]

  lemma Logs()
    ensures LastIndex(NONE) == 0 && LastTerm(NONE) == 0 && Last(NONE) == 0 && End(NONE) == 0
    ensures LastIndex(OLDS) == 1 && LastTerm(OLDS) == 1 && Last(OLDS) == 1 && End(OLDS) == 1
    ensures Last(NEWS) == 1 && End(NEWS) == 2 && Last(BOTH) == 2 && End(BOTH) == 3
    ensures NONE + [OLD] == OLDS && NONE + [NEW] == NEWS && OLDS + [NEXT] == BOTH && BOTH[1..] == [OLD, NEXT]
    ensures Plain(NONE) && Plain(OLDS) && Plain(NEWS) && Plain(BOTH)
  {
  }

  lemma Appends()
    ensures Append(NONE, [OLD]) == Appended(OLDS, true)
    ensures Append(OLDS, [NEXT]) == Appended(BOTH, true)
    ensures Append(NONE, [OLD, NEXT]) == Appended(BOTH, true)
    ensures forall log: EntryLog :: Append(log, []) == Appended(log, true)
  {
    hide AppendOne;
    Logs();
    AppendAtEnd(NONE, [OLD]);
    AppendAtEnd(OLDS, [NEXT]);
    AppendAtEnd(NONE, [OLD, NEXT]);
    assert NONE + [OLD, NEXT] == BOTH;
  }

  /** No node's log is newer than those here, seen from an empty or an old log. */
  lemma UpToDate(s: State, log: EntryLog)
    requires s.log == NONE || s.log == OLDS
    requires log == OLDS || (log == NONE && s.log == NONE)
    ensures LogUpToDate(s, LastIndex(log), LastTerm(log))
  {
    Logs();
  }

  /** Node 2 has led term 1, and node 3 has its entry. */
  ghost predicate First(r: Run) {
    && Alive(r) && Ready(r.c.net)
    && Of(r.c.nodes[1]) == START
    && Of(r.c.nodes[2]) == View(Leader, 1, 2, OLDS, 0)
    && Of(r.c.nodes[3]) == View(Follower, 1, 0, OLDS, 0)
    && Of(r.c.nodes[4]) == View(Follower, 1, 2, NONE, 0) && Of(r.c.nodes[5]) == View(Follower, 1, 2, NONE, 0)
    && Batch(2, 1, 1, 0, 0, 0, []) in r.c.net
  }

  /** Node 2 has just won term 1. */
  ghost predicate Won(r: Run) {
    && Alive(r) && Ready(r.c.net)
    && Of(r.c.nodes[1]) == START && Of(r.c.nodes[3]) == START
    && Of(r.c.nodes[2]) == View(Leader, 1, 2, NONE, 0) && Leads(r.c.nodes[2])
    && Of(r.c.nodes[4]) == View(Follower, 1, 2, NONE, 0) && Of(r.c.nodes[5]) == View(Follower, 1, 2, NONE, 0)
    && Batch(2, 1, 1, 0, 0, 0, []) in r.c.net
  }

  lemma ToWon() returns (r: Run)
    ensures Won(r)
  {
    hide Reachable, Here, Request, Leads, Batch, Answer, KeepsVotes, Plain, LastIndex, LastTerm, Last, End;
    r := SetUp();
    r := Campaign(r, 2, 4, 5);
    Logs();
    UpToDate(r.c.nodes[4], NONE);
    UpToDate(r.c.nodes[5], NONE);
    r := Elect(r, 2, 4, 5);
  }

  lemma ToFirst() returns (r: Run)
    ensures First(r)
  {
    hide Reachable, Here, Leads, Batch, Answer, KeepsVotes, Plain, Last, End;
    Logs();
    Appends();
    r := ToWon();
    r := Put(r, 2, []);
    r := Take(r, 2, 3, 1, 0, 0, [OLD], OLDS);
  }

  /** Node 1 leads term 2 and has its first entry. */
  ghost predicate Second(r: Run) {
    && Alive(r) && Ready(r.c.net)
    && Of(r.c.nodes[1]) == View(Leader, 2, 1, NEWS, 0) && r.c.nodes[1].matched == map[1 := 1]
    && Of(r.c.nodes[2]) == View(Follower, 2, 0, OLDS, 0) && Of(r.c.nodes[3]) == View(Follower, 2, 0, OLDS, 0)
    && Of(r.c.nodes[4]) == View(Follower, 2, 1, NONE, 0) && Of(r.c.nodes[5]) == View(Follower, 2, 1, NONE, 0)
    && AckOf(2, 1, 2, 1, false) in r.c.net && AckOf(3, 1, 2, 1, false) in r.c.net
  }

  lemma ToSecond(r0: Run) returns (r: Run)
    requires First(r0)
    ensures Second(r)
  {
    hide Reachable, Here, Request, Leads, Batch, Answer, Plain, LastIndex, LastTerm, Last, End, AckOf;
    Logs();
    Appends();
    r := Take(r0, 2, 1, 1, 0, 0, [], NONE);
    r := Campaign(r, 1, 2, 3);
    UpToDate(r.c.nodes[4], NONE);
    UpToDate(r.c.nodes[5], NONE);
    r := Elect(r, 1, 4, 5);
    r := Take(r, 1, 3, 2, 0, 0, [], OLDS);
    r := Take(r, 1, 2, 2, 0, 0, [], OLDS);
    r := Put(r, 1, []);
  }

  /** Node 1 has committed an entry that nobody else holds. */
  ghost predicate Third(r: Run) {
    && Alive(r) && Ready(r.c.net)
    && Of(r.c.nodes[1]) == View(Leader, 2, 1, NEWS, 1)
    && Of(r.c.nodes[2]) == View(Follower, 2, 0, OLDS, 0) && Of(r.c.nodes[3]) == View(Follower, 2, 0, OLDS, 0)
    && Of(r.c.nodes[4]) == View(Follower, 2, 1, NONE, 0) && Of(r.c.nodes[5]) == View(Follower, 2, 1, NONE, 0)
  }

  lemma ToThird(r0: Run) returns (r: Run)
    requires Second(r0)
    ensures Third(r)
  {
    hide Reachable, Here, Request, Leads, Batch, Answer, Plain, LastIndex, LastTerm, Last, End, AckOf;
    Logs();
    r := AckBoth(r0, 1, 3, 2);
  }

  /** Node 2 leads term 3. */
  ghost predicate Fourth(r: Run) {
    && Alive(r)
    && Of(r.c.nodes[1]) == View(Leader, 2, 1, NEWS, 1)
    && Of(r.c.nodes[2]) == View(Leader, 3, 2, OLDS, 0) && Leads(r.c.nodes[2]) && (3, 2) in r.leaders
    && Of(r.c.nodes[3]) == View(Follower, 3, 2, OLDS, 0)
    && Of(r.c.nodes[4]) == View(Follower, 3, 2, NONE, 0)
    && Batch(2, 4, 3, 1, 1, 0, []) in r.c.net
  }

  lemma ToFourth(r0: Run) returns (r: Run)
    requires Third(r0)
    ensures Fourth(r)
  {
    hide Reachable, Here, Request, Leads, Batch, Answer, Plain, LastIndex, LastTerm, Last, End;
    Logs();
    r := Campaign(r0, 2, 1, 3);
    UpToDate(r.c.nodes[3], OLDS);
    UpToDate(r.c.nodes[4], OLDS);
    r := Elect(r, 2, 3, 4);
  }

  /** Node 2 has committed two entries of its own. */
  ghost predicate Fifth(r: Run) {
    && Alive(r)
    && Of(r.c.nodes[1]) == View(Leader, 2, 1, NEWS, 1)
    && Of(r.c.nodes[2]) == View(Leader, 3, 2, BOTH, 2)
  }

  lemma ToFifth(r0: Run) returns (r: Run)
    requires Fourth(r0)
    ensures Fifth(r)
  {
    hide Reachable, Here, Request, Batch, Answer, Plain, LastIndex, LastTerm, Last, End, AckOf;
    Logs();
    Appends();
    r := Turn(r0, 2, 4, 3, 1, 1, []);
    r := Put(r, 2, []);
    r := Back(r, 2, 4, 1, 0);
    r := Take(r, 2, 4, 3, 0, 0, [OLD, NEXT], BOTH);
    r := Take(r, 2, 3, 3, 1, 1, [NEXT], BOTH);
    r := AckBoth(r, 2, 3, 4);
  }

  // ---------- The results ----------

  /** The nodes that hold an entry at its index. */
  function Holders(c: Cluster, e: Entry): set<NodeID> {
    set i | i in c.nodes && e.index < |c.nodes[i].log| && c.nodes[i].log[e.index] == e
  }

  /** An index is committed whose entry no quorum holds. */
  lemma CommitNoQuorumHolds() returns (r: Run)
    ensures Reachable(r, FIVE) && r.c.nodes.Keys == ALL
    ensures r.c.nodes[1].role == Leader && r.c.nodes[1].committed == 1 && r.c.nodes[1].log == NEWS
    ensures Holders(r.c, NEW) == {1} && !FIVE.HasQuorum(Holders(r.c, NEW))
    ensures Third(r)
  {
    hide Reachable, Here, First, Second;
    r := ToFirst();
    r := ToSecond(r);
    r := ToThird(r);
    OnlyNodeOne(r);
  }

  lemma OnlyNodeOne(r: Run)
    requires Third(r)
    ensures Holders(r.c, NEW) == {1} && !FIVE.HasQuorum(Holders(r.c, NEW))
  {
    hide Reachable, Here;
    assert forall i | i in r.c.nodes :: i in {1, 2, 3, 4, 5};
    TwoAreNoQuorum({1}, 1, 1);
  }

  /**
   Leader Completeness fails: the leader of term 3 has no copy of the entry that the leader of term 2 had
   committed. Then State Machine Safety fails: it commits another entry at the same index.
   */
  lemma TwoCommitsAtOneIndex() returns (led: Run, r: Run)
    ensures Reachable(led, FIVE) && led.c.nodes.Keys == ALL
    ensures led.c.nodes[1].committed == 1 && led.c.nodes[1].log == NEWS
    ensures (3, 2) in led.leaders && led.c.nodes[2].role == Leader && NEW !in led.c.nodes[2].log
    ensures Reachable(r, FIVE) && r.c.nodes.Keys == ALL
    ensures r.c.nodes[1].committed >= 1 && r.c.nodes[2].committed >= 1
    ensures 1 < |r.c.nodes[1].log| && 1 < |r.c.nodes[2].log| && r.c.nodes[1].log[1] != r.c.nodes[2].log[1]
  {
    hide Reachable, Here, Third, Leads, Batch, Plain;
    var r3 := CommitNoQuorumHolds();
    led := ToFourth(r3);
    r := ToFifth(led);
  }
}
