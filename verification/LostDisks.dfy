/**
 Two runs of a group of five in which what node 1 has on disk fails it. Node 1 has just been created and so
 far nobody has heard from it; the batches it receives are on the network because the leaders sent them.

 In the first, node 2 has committed its first entry with nodes 3 and 4, and sends it to node 1 together with
 that commit index. A crash while node 1 saves leaves a commit index on disk and no entry.

 In the second, node 2 leads term 1 and sends node 1 two entries. Node 3 leads term 2 with nodes 4 and 5, and
 its first entry replaces both. The second comes back when node 1 recovers.
 */
module LostDisks {
  import opened Wrappers
  import opened Quorums
  import opened RaftLog
  import opened RaftNode
  import opened RaftRuns
  import opened RaftDisk
  import opened RecoveryRuns
  import F = FiveNodes

  const OLD_ONE: Entry := Entry(1, 1, Data.Command([]))
  const OLD_TWO: Entry := Entry(2, 1, Data.Command([]))
  const NEW_ONE: Entry := Entry(1, 2, Data.Command([]))
  const NONE: EntryLog := [PLACEHOLDER]

  // ---------- The group ----------

  lemma Logs()
    ensures F.Last(NONE) == 0 && F.End(NONE) == 0 && F.Plain(NONE)
    ensures var one: EntryLog := [PLACEHOLDER, OLD_ONE]; F.Last(one) == 1 && F.End(one) == 1 && F.Plain(one)
    ensures NONE + [OLD_ONE] == [PLACEHOLDER, OLD_ONE] && [PLACEHOLDER, OLD_ONE][1..] == [OLD_ONE]
    ensures ([PLACEHOLDER, OLD_ONE] + [OLD_TWO])[1..] == [OLD_ONE, OLD_TWO]
    ensures Append(NONE, [OLD_ONE]) == Appended([PLACEHOLDER, OLD_ONE], true)
  {
    PushOne(NONE, OLD_ONE);
  }

  lemma NobodyNewer(s: State)
    requires s.log == NONE
    ensures LogUpToDate(s, LastIndex(NONE), LastTerm(NONE))
  {
  }

  /** Nodes 2 and 3 have the answers of nodes 4 and 5 to a pre-vote, and node 1 has taken no step. */
  ghost predicate Asked(r: Run) {
    && F.AllStart(r) && r.c.nodes[1] == F.Fresh(1)
    && forall i, j | i in {2, 3} && j in {4, 5} :: F.Answer(MsgPreVoteResp, j, i, 0) in r.c.net
  }

  lemma AskTwo(r: Run, i: NodeID) returns (r': Run)
    requires F.AllStart(r) && r.c.nodes.Keys == F.ALL && i in {2, 3}
    ensures F.AllStart(r') && r'.c.nodes.Keys == F.ALL && r'.c.nodes[1] == r.c.nodes[1] && r.c.net <= r'.c.net
    ensures forall j | j in {4, 5} :: F.Answer(MsgPreVoteResp, j, i, 0) in r'.c.net
  {
    hide F.Alive, F.AllStart, F.KeepsVotes, F.Request, F.Answer, Contiguous;
    var r1 := F.PollStart(r, i);
    r1 := F.AnswerOne(r1, i, 4);
    r' := F.AnswerOne(r1, i, 5);
  }

  lemma ToAsked() returns (r: Run)
    ensures Asked(r)
  {
    hide Reachable, F.Here, F.Answer, F.Fresh, F.Of, Contiguous;
    r := F.Created();
    r := AskTwo(r, 2);
    r := AskTwo(r, 3);
  }

  /** Node 2 leads term 1 with nodes 3 and 4, and has its first entry. */
  ghost predicate Led(r: Run) {
    && F.Alive(r) && r.c.nodes[1] == F.Fresh(1)
    && F.Of(r.c.nodes[2]) == F.View(Leader, 1, 2, [PLACEHOLDER, OLD_ONE], 0)
    && r.c.nodes[2].matched == map[2 := 1] && (forall j | j in F.ALL :: j in r.c.nodes[2].next && r.c.nodes[2].next[j] == 1)
    && F.Of(r.c.nodes[3]) == F.View(Follower, 1, 2, NONE, 0) && F.Of(r.c.nodes[4]) == F.View(Follower, 1, 2, NONE, 0)
    && F.Of(r.c.nodes[5]) == F.START
    && F.Batch(2, 3, 1, 0, 0, 0, [OLD_ONE]) in r.c.net && F.Batch(2, 4, 1, 0, 0, 0, [OLD_ONE]) in r.c.net
    && F.Answer(MsgPreVoteResp, 4, 3, 0) in r.c.net && F.Answer(MsgPreVoteResp, 5, 3, 0) in r.c.net
  }

  lemma NextOf(s: State)
    requires F.Leads(s) && s.log == NONE
    ensures forall j | j in F.ALL :: j in s.next && s.next[j] == 1
  {
  }

  lemma ToLed() returns (r: Run)
    ensures Led(r)
  {
    hide Reachable, F.Here, F.Request, F.Leads, F.Batch, F.Answer, LastTerm, F.Last, F.End, F.Fresh, LastIndex,
      LogUpToDate, Contiguous;
    Logs();
    r := ToAsked();
    r := F.Campaign(r, 2, 4, 5);
    NobodyNewer(r.c.nodes[3]);
    NobodyNewer(r.c.nodes[4]);
    r := F.Elect(r, 2, 3, 4);
    NextOf(r.c.nodes[2]);
    r := F.Put(r, 2, []);
  }

  /** Node 2 commits its entry with nodes 3 and 4, and sends it to node 1. */
  lemma CommittedSent() returns (r: Run)
    ensures Reachable(r, F.FIVE) && r.c.nodes.Keys == F.ALL && r.c.nodes[1] == F.Fresh(1)
    ensures r.c.nodes[2].role == Leader && r.c.nodes[2].committed == 1
    ensures F.Batch(2, 1, 1, 0, 0, 1, [OLD_ONE]) in r.c.net
  {
    hide Reachable, F.Here, F.AckOf, F.Last, F.End, F.Fresh, F.Plain, Append, Contiguous;
    Logs();
    r := ToLed();
    r := F.Take(r, 2, 3, 1, 0, 0, [OLD_ONE], [PLACEHOLDER, OLD_ONE]);
    r := F.Take(r, 2, 4, 1, 0, 0, [OLD_ONE], [PLACEHOLDER, OLD_ONE]);
    F.HasNode(r, 2);
    assert F.CommitSent(r.c.nodes[2], 1) == F.Batch(2, 1, 1, 0, 0, 1, [OLD_ONE]);
    r := F.AckBoth(r, 2, 3, 4);
  }

  /** Node 2 sends two entries of term 1 to node 1, and node 3 one of term 2. */
  lemma BothSent() returns (r: Run)
    ensures Reachable(r, F.FIVE) && r.c.nodes.Keys == F.ALL && r.c.nodes[1] == F.Fresh(1)
    ensures F.Batch(2, 1, 1, 0, 0, 0, [OLD_ONE, OLD_TWO]) in r.c.net && F.Batch(3, 1, 2, 0, 0, 0, [NEW_ONE]) in r.c.net
  {
    hide Reachable, F.Here, F.Request, F.Leads, F.Batch, F.Answer, F.Last, LastTerm, F.End, F.Fresh, LastIndex,
      LogUpToDate, Contiguous;
    Logs();
    r := ToLed();
    r := F.PutMore(r, 2, [], 1, 1);
    r := F.Campaign(r, 3, 4, 5);
    NobodyNewer(r.c.nodes[4]);
    NobodyNewer(r.c.nodes[5]);
    r := F.Elect(r, 3, 4, 5);
    r := F.Put(r, 3, []);
  }

  // ---------- A commit index without its entry ----------

  function First(commit: nat, entries: seq<Entry>): Message {
    F.Batch(2, 1, 1, 0, 0, commit, entries)
  }

  lemma OnePushed()
    ensures var t := Step(F.Fresh(1), First(1, [OLD_ONE]));
      && t.unstable == [OLD_ONE] && t.committed == 1 && t.initialMembership == F.FIVE
  {
    var s := F.Fresh(1);
    PushOne(s.log, OLD_ONE);
    hide Append;
    assert Term(s.log, 0) == Some(0);
    assert LastIndex([PLACEHOLDER, OLD_ONE]) == 1;
  }

  lemma OneAllowed(s: State)
    requires s.log == [PLACEHOLDER]
    ensures AllowedCall(s, Deliver(First(1, [OLD_ONE])))
  {
    assert Consecutive([OLD_ONE], 1);
  }

  lemma CutLosesEntry(s: State)
    requires s == F.Fresh(1)
    ensures var start := Up(Machine(s, BLANK, s));
      var events := [Call(Deliver(First(1, [OLD_ONE]))), Crash(1)];
      && PlantInv(start) && AllowedEvents(start, events)
      && ExecEvents(start, events).Down?
      && !Restartable(ExecEvents(start, events))
  {
    FreshInv(1, F.PEERS, F.FIVE, 2, 1);
    OnePushed();
    OneAllowed(s);
    hide Step, Recover, Inv, AllowedCall, Restartable;
    var start := Up(Machine(s, BLANK, s));
    var events := [Call(Deliver(First(1, [OLD_ONE]))), Crash(1)];
    var m := Machine(Step(s, First(1, [OLD_ONE])), BLANK, s);
    var end := Down(CutSave(m, 1), F.FIVE);
    assert events[1..] == [Crash(1)] && events[1..][1..] == [];
    assert NextEvent(start, events[0]) == Up(m) && NextEvent(Up(m), events[1]) == end;
    assert ExecEvents(Up(m), events[1..]) == end && AllowedEvents(Up(m), events[1..]);
    RunKeepsInv(start, events);
    assert m.node.unstable[..0] == [];
    assert end.disk.ents == map[];
    RestartableExactly(end);
  }

  /**
   The failing case is real: a message that a leader has sent brings a new node its first entry, already
   committed. A crash after the hard state was written and before the entry was leaves a disk no start
   accepts.
   */
  lemma PartialSaveCanFail() returns (r: Run)
    ensures Reachable(r, F.FIVE) && r.c.nodes.Keys == F.ALL && First(1, [OLD_ONE]) in r.c.net
    ensures var start := Up(Machine(r.c.nodes[1], BLANK, r.c.nodes[1]));
      var events := [Call(Deliver(First(1, [OLD_ONE]))), Crash(1)];
      && PlantInv(start) && AllowedEvents(start, events)
      && ExecEvents(start, events).Down?
      && !Restartable(ExecEvents(start, events))
  {
    hide Reachable, PlantInv, AllowedEvents, ExecEvents, Restartable, F.Fresh;
    r := CommittedSent();
    CutLosesEntry(r.c.nodes[1]);
  }

  // ---------- A stale tail ----------

  function Second(): Message {
    F.Batch(3, 1, 2, 0, 0, 0, [NEW_ONE])
  }

  /** Node 1 receives two entries of term 1, saves them, and has them replaced by one entry of term 2. */
  function ReplacingRun(): seq<Event> {
    [Call(Deliver(First(0, [OLD_ONE, OLD_TWO]))), Drive, Call(Deliver(Second())), Drive]
  }

  lemma TwoPushed()
    ensures var t := Step(F.Fresh(1), First(0, [OLD_ONE, OLD_TWO]));
      && t.log == [PLACEHOLDER, OLD_ONE, OLD_TWO] && t.unstable == [OLD_ONE, OLD_TWO] && t.id == 1 && t.term == 1
  {
    hide AppendOne;
    assert Term([PLACEHOLDER], 0) == Some(0);
    AppendAtEnd([PLACEHOLDER], [OLD_ONE, OLD_TWO]);
    assert [PLACEHOLDER] + [OLD_ONE, OLD_TWO] == [PLACEHOLDER, OLD_ONE, OLD_TWO];
    hide Append;
  }

  lemma Replaced(s: State)
    requires s.log == [PLACEHOLDER, OLD_ONE, OLD_TWO] && s.unstable == [] && s.id == 1 && s.term == 1
    ensures var t := Step(s, Second()); t.log == [PLACEHOLDER, NEW_ONE] && t.unstable == [NEW_ONE]
  {
    assert Term(s.log, 0) == Some(0);
    assert Term(s.log, 1) == Some(1);
    AppendCut(s.log, [NEW_ONE], 1);
    assert s.log[..1] + [NEW_ONE] == [PLACEHOLDER, NEW_ONE];
    hide Append, AppendOne;
  }

  lemma ReplacedAllowed(s: State)
    requires s.log == [PLACEHOLDER, OLD_ONE, OLD_TWO]
    ensures AllowedCall(s, Deliver(Second()))
  {
    assert Consecutive([NEW_ONE], 1);
    assert Term(s.log, 1) == Some(1);
  }

  lemma FirstAllowed(s: State)
    requires s.log == [PLACEHOLDER]
    ensures AllowedCall(s, Deliver(First(0, [OLD_ONE, OLD_TWO])))
  {
    assert Consecutive([OLD_ONE, OLD_TWO], 1);
  }

  lemma TailReturns(s: State)
    requires s == F.Fresh(1)
    ensures var start := Up(Machine(s, BLANK, s));
      && PlantInv(start) && AllowedEvents(start, ReplacingRun())
      && var p := ExecEvents(start, ReplacingRun());
         && p.Up? && p.m.node.log == [PLACEHOLDER, NEW_ONE]
         && var back := Recover(s, p.m.disk);
            back.Ok? && back.value.log == [PLACEHOLDER, NEW_ONE, OLD_TWO]
  {
    hide Step, Recover, AllowedCall, AllowedEvents, ExecEvents, CommittedEntries, Hard, Inv, InOrder;
    var first := Fresh(1, F.PEERS, F.FIVE, 2, 1);
    FreshInv(1, F.PEERS, F.FIVE, 2, 1);
    TwoPushed();
    FirstAllowed(first.node);
    var m1 := first.(node := Act(first.node, ReplacingRun()[0].action));
    var m2 := Driven(m1);
    Replaced(m2.node);
    ReplacedAllowed(m2.node);
    var m3 := m2.(node := Act(m2.node, ReplacingRun()[2].action));
    var m4 := Driven(m3);
    FourEvents(Up(first), Up(m1), Up(m2), Up(m3), Up(m4), ReplacingRun());
    TwoStored(m4.disk.ents);
    StaleRecovers(Up(first), ReplacingRun(), m4);
  }

  /**
   Truncated entries are never deleted from disk, so they can come back after the entries that
   replaced them: the recovered log is longer than the one in memory, and its terms go down.
   */
  lemma StaleTailComesBack() returns (r: Run)
    ensures Reachable(r, F.FIVE) && r.c.nodes.Keys == F.ALL
    ensures First(0, [OLD_ONE, OLD_TWO]) in r.c.net && Second() in r.c.net
    ensures var s := r.c.nodes[1];
      var start := Up(Machine(s, BLANK, s));
      && PlantInv(start) && AllowedEvents(start, ReplacingRun())
      && var p := ExecEvents(start, ReplacingRun());
         && p.Up? && p.m.node.log == [PLACEHOLDER, NEW_ONE]
         && var back := Recover(s, p.m.disk);
            back.Ok? && back.value.log == [PLACEHOLDER, NEW_ONE, OLD_TWO]
  {
    hide Reachable, PlantInv, AllowedEvents, ExecEvents, Recover, F.Fresh, ReplacingRun;
    r := BothSent();
    TailReturns(r.c.nodes[1]);
  }

  lemma FourEvents(p0: Plant, p1: Plant, p2: Plant, p3: Plant, p4: Plant, es: seq<Event>)
    requires |es| == 4 && es[1] == Drive && es[3] == Drive
    requires AllowedEvent(p0, es[0]) && AllowedEvent(p2, es[2])
    requires NextEvent(p0, es[0]) == p1 && NextEvent(p1, es[1]) == p2
    requires NextEvent(p2, es[2]) == p3 && NextEvent(p3, es[3]) == p4
    ensures AllowedEvents(p0, es) && ExecEvents(p0, es) == p4
  {
    hide NextEvent;
    assert AllowedEvent(p1, Drive) && AllowedEvent(p3, Drive);
    hide AllowedEvent;
    assert es[1..][1..] == es[2..] && es[2..][1..] == es[3..] && es[3..][1..] == [];
    assert AllowedEvents(p4, []) && ExecEvents(p4, []) == p4;
    assert AllowedEvents(p3, es[3..]) && ExecEvents(p3, es[3..]) == p4;
    assert AllowedEvents(p2, es[2..]) && ExecEvents(p2, es[2..]) == p4;
    assert AllowedEvents(p1, es[1..]) && ExecEvents(p1, es[1..]) == p4;
  }

  lemma TwoStored(ents: map<nat, Entry>)
    requires ents == StoreAll(StoreAll(map[], [OLD_ONE, OLD_TWO]), [NEW_ONE])
    ensures ents == map[1 := NEW_ONE, 2 := OLD_TWO]
  {
    assert [OLD_ONE, OLD_TWO][1..] == [OLD_TWO];
    StoreOne(map[1 := OLD_ONE], OLD_TWO);
    assert StoreAll(map[], [OLD_ONE, OLD_TWO]) == StoreAll(map[1 := OLD_ONE], [OLD_TWO]);
    StoreOne(map[1 := OLD_ONE, 2 := OLD_TWO], NEW_ONE);
  }

  lemma StaleRecovers(start: Plant, es: seq<Event>, m: Machine)
    requires PlantInv(start) && AllowedEvents(start, es) && Up(m) == ExecEvents(start, es)
    requires m.disk.ents == map[1 := NEW_ONE, 2 := OLD_TWO]
    requires start.Up? && BlankFor(start.m.node, Members(start))
    ensures var r := Recover(start.m.node, m.disk); r.Ok? && r.value.log == [PLACEHOLDER, NEW_ONE, OLD_TWO]
  {
    hide Recover, InOrder, Filled, ExecEvents, AllowedEvents, Covers, Tracks, CommitStored;
    RunKeepsInv(start, es);
    RecoverFilled(start.m.node, m.disk);
    RecoveryExtends(start, es, start.m.node);
    TwoInOrder(m.disk.ents);
    assert [PLACEHOLDER] + [NEW_ONE, OLD_TWO] == [PLACEHOLDER, NEW_ONE, OLD_TWO];
  }

  lemma TwoInOrder(ents: map<nat, Entry>)
    requires Filled(ents) && ents == map[1 := NEW_ONE, 2 := OLD_TWO]
    ensures InOrder(ents) == [NEW_ONE, OLD_TWO]
  {
    hide InOrder, Filled;
    FilledInOrder(ents);
    var es := InOrder(ents);
    assert 2 in ents && 3 !in ents;
    assert |es| == 2;
    assert es[1 - 1] == ents[1] && es[2 - 1] == ents[2];
  }
}
