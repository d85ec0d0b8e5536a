/**
 A node driven by its host: calls on the node, between them the host's cycle that saves, sends,
 applies and advances (internal/raft/host.go:149-176), and crashes followed by recovery. At any point
 of such a run a node recovered from the disk continues where the last finished cycle was.
 */
module RecoveryRuns {
  import opened Wrappers
  import opened Quorums
  import opened RaftLog
  import opened RaftNode
  import opened RaftRuns
  import opened RaftDisk
  import CommitSearch
  import CachedMembership

  /** `saved` is the node as of the last finished cycle or restart. */
  datatype Machine = Machine(node: State, disk: Disk, saved: State)

  /** A node that runs, or what a crash left of it. */
  datatype Plant = Up(m: Machine) | Down(disk: Disk, members: Membership)

  /** A crash lets the first `writes` writes of a save through; with none it falls between cycles. */
  datatype Event = Call(action: Action) | Drive | Crash(writes: nat) | Start(blank: State)

  predicate NothingToDo(s: State) {
    s.unstable == [] && s.msgs == {} && CommittedEntries(s) == [] && Hard(s) == s.lastHard
  }

  /** `driveLocked`; sending and applying do not change the node. */
  function Driven(m: Machine): Machine {
    if NothingToDo(m.node) then m.(saved := m.node)
    else Machine(Advance(m.node), Saved(m.disk, Hard(m.node), m.node.unstable), m.node)
  }

  /** What a crash during a save leaves on disk. */
  function CutSave(m: Machine, writes: nat): Disk {
    if writes <= |m.node.unstable| + 1 then SavedPart(m.disk, Hard(m.node), m.node.unstable, writes) else m.disk
  }

  /** Recovery brings a node up, or fails and leaves it down with its disk as it is. */
  ghost function Started(p: Plant, blank: State): Plant
    requires p.Down?
  {
    match Recover(blank, p.disk)
    case Ok(r) => Up(Machine(r, p.disk, r))
    case Err(_) => p
  }

  ghost function NextEvent(p: Plant, e: Event): Plant {
    match p
    case Up(m) => (
      match e
      case Call(a) => Up(m.(node := Act(m.node, a)))
      case Drive => Up(Driven(m))
      case Crash(writes) => Down(CutSave(m, writes), m.node.initialMembership)
      case Start(_) => p
    )
    case Down(_, _) => if e.Start? then Started(p, e.blank) else p
  }

  ghost function ExecEvents(p: Plant, events: seq<Event>): Plant
    decreases |events|
  {
    if events == [] then p else ExecEvents(NextEvent(p, events[0]), events[1..])
  }

  /** An entry of the batch that the log has by index and term, it has altogether. */
  ghost predicate SameData(log: EntryLog, batch: seq<Entry>) {
    forall k | 0 <= k < |batch| && Has(log, batch[k]) :: log[batch[k].index] == batch[k]
  }

  /** A node created again with the configuration it first had. */
  ghost predicate BlankFor(blank: State, members: Membership) {
    blank == NewState(blank.id, blank.peers, members, blank.electionTick, blank.heartbeatTick)
  }

  function Members(p: Plant): Membership {
    match p
    case Up(m) => m.node.initialMembership
    case Down(_, members) => members
  }

  /** Only the host's cycle advances the node; batches are consecutive, and index and term determine data. */
  ghost predicate AllowedCall(s: State, a: Action) {
    && !a.AdvanceAt?
    && (a.Deliver? && a.m.kind == MsgAppend ==> CachedMembership.BatchOk(a.m.entries) && SameData(s.log, a.m.entries))
  }

  ghost predicate AllowedEvent(p: Plant, e: Event) {
    && (e.Call? && p.Up? ==> AllowedCall(p.m.node, e.action))
    && (e.Crash? && p.Up? ==> e.writes <= |p.m.node.unstable| + 1)
    && (e.Start? ==> BlankFor(e.blank, Members(p)))
  }

  ghost predicate AllowedEvents(p: Plant, events: seq<Event>)
    decreases |events|
  {
    events != [] ==> AllowedEvent(p, events[0]) && AllowedEvents(NextEvent(p, events[0]), events[1..])
  }

  // ---------- The invariant ----------

  /** Storing the entries one by one never leaves a gap. */
  ghost predicate Stepwise(ents: map<nat, Entry>, es: seq<Entry>) {
    forall j | 0 <= j <= |es| :: Filled(StoreAll(ents, es[..j]))
  }

  /** Every entry of the log is stored as it is. */
  ghost predicate Covers(ents: map<nat, Entry>, log: EntryLog) {
    forall i | 0 < i < |log| :: i in ents && ents[i] == log[i]
  }

  ghost predicate CommitStored(ents: map<nat, Entry>, commit: nat) {
    commit == 0 || commit in ents
  }

  /** The disk together with what is still to be saved covers the node. */
  ghost predicate Tracks(s: State, ents: map<nat, Entry>) {
    && Stepwise(ents, s.unstable)
    && Covers(StoreAll(ents, s.unstable), s.log)
    && CommitStored(StoreAll(ents, s.unstable), s.committed)
    && (s.role != Follower ==> s.term > 0)
  }

  ghost predicate Inv(m: Machine) {
    && Tracks(m.node, m.disk.ents)
    && HardOf(m.disk) == m.node.lastHard == Hard(m.saved)
    && Filled(m.disk.ents) && Covers(m.disk.ents, m.saved.log) && CommitStored(m.disk.ents, m.saved.committed)
    && m.saved.initialMembership == m.node.initialMembership
  }

  ghost predicate PlantInv(p: Plant) {
    match p
    case Up(m) => Inv(m)
    case Down(disk, _) => Filled(disk.ents)
  }

  // ---------- Calls keep the disk's cover ----------

  lemma StepwiseMore(ents: map<nat, Entry>, es: seq<Entry>, batch: seq<Entry>, first: nat)
    requires Stepwise(ents, es) && Consecutive(batch, first) && 0 < first
    requires first == 1 || first - 1 in StoreAll(ents, es)
    ensures Stepwise(ents, es + batch)
  {
    hide Filled;
    forall j | 0 <= j <= |es + batch| ensures Filled(StoreAll(ents, (es + batch)[..j])) {
      if j <= |es| {
        assert (es + batch)[..j] == es[..j];
      } else {
        var part := batch[..j - |es|];
        assert (es + batch)[..j] == es + part;
        assert es[..|es|] == es;
        StoreAllAppend(ents, es, part);
        StoreBatch(StoreAll(ents, es), part, first);
      }
    }
  }

  /** Storing a merged batch covers the merged log. */
  lemma MergeCovered(p: map<nat, Entry>, log: EntryLog, batch: seq<Entry>, first: nat)
    requires Filled(p) && Covers(p, log) && Consecutive(batch, first) && 0 < first <= |log| && SameData(log, batch)
    ensures Covers(StoreAll(p, batch), Append(log, batch).log)
  {
    hide Append, AppendOne, Filled, Shared, Merge, StoreAll;
    assert first == 1 || first - 1 in p;
    StoreBatch(p, batch, first);
    AppendIsMerge(log, batch, first);
    MergeShape(log, batch, first);
    var after, r := StoreAll(p, batch), Append(log, batch).log;
    forall i | 0 < i < |r| ensures i in after && after[i] == r[i] {
      MergedAt(log, batch, first, i);
    }
  }

  /** Where a merged log comes from: the batch within its range, and the log elsewhere. */
  lemma MergedAt(log: EntryLog, batch: seq<Entry>, first: nat, i: nat)
    requires Consecutive(batch, first) && 0 < first <= |log| && SameData(log, batch) && i < |Append(log, batch).log|
    ensures var r := Append(log, batch).log;
      if first <= i < first + |batch| then r[i] == batch[i - first] else i < |log| && r[i] == log[i]
  {
    hide Append, AppendOne, Merge, Shared;
    AppendIsMerge(log, batch, first);
    MergeShape(log, batch, first);
    var d := Shared(log, batch);
    if first <= i < first + d {
      assert Has(log, batch[i - first]);
    }
  }

  lemma ProposeTracks(s: State, data: Data, ents: map<nat, Entry>)
    requires Tracks(s, ents)
    ensures Tracks(ProposeInternal(s, data), ents)
    ensures ProposeInternal(s, data).role == s.role && ProposeInternal(s, data).lastHard == s.lastHard
    ensures ProposeInternal(s, data).initialMembership == s.initialMembership
  {
    hide ScanMembership, AppendMessage, Stepwise, Covers, StoreAll, Filled;
    var e := Entry(|s.log|, s.term, data);
    PushNext(s.log, e);
    PushTracked(ents, s.unstable, s.log, s.committed, e);
  }

  lemma PushTracked(ents: map<nat, Entry>, es: seq<Entry>, log: EntryLog, commit: nat, e: Entry)
    requires Stepwise(ents, es) && Covers(StoreAll(ents, es), log) && CommitStored(StoreAll(ents, es), commit) && e.index == |log|
    ensures Stepwise(ents, es + [e])
    ensures Covers(StoreAll(ents, es + [e]), log + [e])
    ensures CommitStored(StoreAll(ents, es + [e]), commit)
  {
    hide Filled, Stepwise;
    var p := StoreAll(ents, es);
    assert |log| == 1 || |log| - 1 in p;
    StepwiseMore(ents, es, [e], |log|);
    StoreAllAppend(ents, es, [e]);
    StoreOne(p, e);
  }

  lemma StoreOne(p: map<nat, Entry>, e: Entry)
    ensures StoreAll(p, [e]) == p[e.index := e]
  {
    assert [e][1..] == [];
    assert StoreAll(p[e.index := e], []) == p[e.index := e];
  }

  /** Storing more never loses an index. */
  lemma {:induction false} StoreKeeps(p: map<nat, Entry>, es: seq<Entry>, commit: nat)
    requires CommitStored(p, commit)
    ensures CommitStored(StoreAll(p, es), commit)
    decreases |es|
  {
    if es != [] {
      StoreKeeps(p[es[0].index := es[0]], es[1..], commit);
    }
  }

  lemma BatchTracked(ents: map<nat, Entry>, es: seq<Entry>, log: EntryLog, commit: nat, batch: seq<Entry>)
    requires Stepwise(ents, es) && Covers(StoreAll(ents, es), log) && CommitStored(StoreAll(ents, es), commit)
    requires CachedMembership.BatchOk(batch) && SameData(log, batch)
    ensures var r := Append(log, batch);
      if r.ok && batch != [] then
        Stepwise(ents, es + batch) && Covers(StoreAll(ents, es + batch), r.log) && CommitStored(StoreAll(ents, es + batch), commit)
      else r.log == log
  {
    hide Filled, Stepwise, Append, AppendOne, SameData, CommitStored;
    CachedMembership.RefusedOrWhole(log, batch);
    EmptyAppend(log);
    if Append(log, batch).ok && batch != [] {
      if batch[0].index == 0 {
        ZeroRefused(log, batch);
      }
      var first: nat :| Consecutive(batch, first);
      AppendFailsExactly(log, batch, first);
      var p := StoreAll(ents, es);
      StepwiseLast(ents, es);
      assert first == 1 || first - 1 in p;
      StepwiseMore(ents, es, batch, first);
      StoreAllAppend(ents, es, batch);
      MergeCovered(p, log, batch, first);
      StoreKeeps(p, batch, commit);
    }
  }

  lemma ZeroRefused(log: EntryLog, batch: seq<Entry>)
    requires batch != [] && batch[0].index == 0
    ensures !Append(log, batch).ok
  {
  }

  lemma StepwiseLast(ents: map<nat, Entry>, es: seq<Entry>)
    requires Stepwise(ents, es)
    ensures Filled(StoreAll(ents, es)) && Filled(ents)
  {
    assert es[..|es|] == es && es[..0] == [];
    assert Filled(StoreAll(ents, es[..0]));
  }

  lemma CoversCommit(ents: map<nat, Entry>, log: EntryLog, commit: nat)
    requires Covers(ents, log) && commit < |log|
    ensures CommitStored(ents, commit)
  {
  }

  /** What an append message does to the fields the disk follows. */
  lemma AppendEffect(s: State, m: Message)
    ensures var t, r := HandleAppend(s, m), Append(s.log, m.entries);
      if m.term >= s.term && Fits(s, m) then
        && t.role == Follower && t.log == r.log
        && t.unstable == (if r.ok then s.unstable + m.entries else s.unstable)
        && (t.committed == s.committed || t.committed == Min(m.commit, LastIndex(r.log)))
      else
        && t.log == s.log && t.unstable == s.unstable && t.committed == s.committed
        && (t.role == Follower || (t.role == s.role && t.term == s.term))
  {
    hide ScanMembership, Append, Term;
    assert s.unstable + [] == s.unstable;
  }

  lemma AppendTracks(s: State, m: Message, ents: map<nat, Entry>)
    requires Tracks(s, ents) && CachedMembership.BatchOk(m.entries) && SameData(s.log, m.entries)
    ensures Tracks(HandleAppend(s, m), ents)
  {
    hide HandleAppend, Append, Stepwise, Covers, StoreAll, SameData, CommitStored, CachedMembership.BatchOk, Fits;
    AppendEffect(s, m);
    BatchTracked(ents, s.unstable, s.log, s.committed, m.entries);
    assert s.unstable + [] == s.unstable;
    if m.term >= s.term && Fits(s, m) {
      var r := Append(s.log, m.entries);
      LastOf(r.log);
      CoversCommit(StoreAll(ents, HandleAppend(s, m).unstable), r.log, Min(m.commit, LastIndex(r.log)));
    }
  }

  lemma VoteRespTracks(s: State, m: Message, ents: map<nat, Entry>)
    requires Tracks(s, ents)
    ensures Tracks(HandleVoteResp(s, m), ents)
  {
    hide ProposeInternal, AppendMessage, Stepwise, Covers, StoreAll, CommitStored;
    if s.role == Candidate && s.votes.Some? {
      ProposeTracks(StartLeading(s.(votes := Some(s.votes.value + {m.from}))), JointLeaderNoop, ents);
    }
  }

  lemma AdvanceCommitTracks(s: State, ents: map<nat, Entry>)
    requires Tracks(s, ents) && s.role == Leader
    ensures Tracks(AdvanceCommit(s), ents)
  {
    hide ProposeInternal, CommitTarget, AppendMessage, Stepwise, Covers, StoreAll, CommitStored;
    if CommitTarget(s).Some? {
      var c := CommitTarget(s).value;
      CommitInLog(s);
      CoversCommit(StoreAll(ents, s.unstable), s.log, c);
      var s1 := BroadcastAppend(s.(committed := c));
      ProposeTracks(s1, Conf(ConfChange({}, s1.membership.newVoters, {}, false)), ents);
    }
  }

  lemma CommitInLog(s: State)
    requires s.term > 0 && CommitTarget(s).Some?
    ensures CommitTarget(s).value < |s.log|
  {
    CommitSearch.TermAt(s.log, CommitTarget(s).value);
  }

  lemma AppendRespTracks(s: State, m: Message, ents: map<nat, Entry>)
    requires Tracks(s, ents)
    ensures Tracks(HandleAppendResp(s, m), ents)
  {
    hide AdvanceCommit, AppendMessage, Stepwise, Covers, StoreAll, CommitStored;
    if s.role == Leader {
      AdvanceCommitTracks(Recorded(s, m.from, m.index), ents);
    }
  }

  lemma StepTracks(s: State, m: Message, ents: map<nat, Entry>)
    requires Tracks(s, ents)
    requires m.kind == MsgAppend ==> CachedMembership.BatchOk(m.entries) && SameData(s.log, m.entries)
    ensures Tracks(Step(s, m), ents)
  {
    hide HandleVoteResp, HandleAppend, HandleAppendResp, LogUpToDate, Requests, Stepwise, Covers, StoreAll,
      CommitStored, SameData, CachedMembership.BatchOk;
    var s1 := AdoptTerm(s, m);
    match m.kind
    case MsgVoteResp => VoteRespTracks(s1, m, ents);
    case MsgAppend => AppendTracks(s1, m, ents);
    case MsgAppendResp => AppendRespTracks(s1, m, ents);
    case _ =>
  }

  lemma ActTracks(s: State, a: Action, ents: map<nat, Entry>)
    requires Tracks(s, ents) && AllowedCall(s, a)
    ensures Tracks(Act(s, a), ents)
  {
    hide Step, ProposeInternal, AppendMessage, Requests, Stepwise, Covers, StoreAll, CommitStored, SameData,
      CachedMembership.BatchOk;
    match a
    case ProposeAt(_, command) => ProposeTracks(s, Command(command), ents);
    case ChangeAt(_, v, l) => ProposeTracks(s, Conf(ConfChange(s.membership.oldVoters, IdSet(v), IdSet(l), true)), ents);
    case Deliver(m) => StepTracks(s, m, ents);
    case _ =>
  }

  // ---------- Whole runs ----------

  ghost predicate SameSaved(s: State, t: State) {
    t.lastHard == s.lastHard && t.initialMembership == s.initialMembership
  }

  lemma AdvanceCommitSame(s: State)
    ensures SameSaved(s, AdvanceCommit(s))
  {
    hide CommitTarget, AppendMessages, ScanMembership, AppendOne;
  }

  lemma VotesSame(s: State, m: Message)
    ensures SameSaved(s, HandlePreVoteResp(s, m)) && SameSaved(s, HandleVoteResp(s, m))
  {
    hide AppendMessages, ScanMembership, AppendOne, Requests;
  }

  lemma AppendSame(s: State, m: Message)
    ensures SameSaved(s, HandleAppend(s, m)) && SameSaved(s, HandleAppendResp(s, m))
  {
    hide AppendMessage, ScanMembership, Append, AdvanceCommit, Term;
    AdvanceCommitSame(Recorded(s, m.from, m.index));
  }

  lemma HandleSame(s: State, m: Message)
    ensures SameSaved(s, Handle(s, m))
  {
    hide HandlePreVoteResp, HandleVoteResp, HandleAppend, HandleAppendResp, LogUpToDate;
    VotesSame(s, m);
    AppendSame(s, m);
  }

  /** Only the host's cycle changes what the node remembers having saved. */
  lemma ActSame(s: State, a: Action)
    requires !a.AdvanceAt?
    ensures SameSaved(s, Act(s, a))
  {
    hide AppendMessages, ScanMembership, AppendOne, Handle, Requests;
    match a
    case Deliver(m) => HandleSame(AdoptTerm(s, m), m);
    case _ =>
  }

  lemma DriveKeepsInv(m: Machine)
    requires Inv(m)
    ensures Inv(Driven(m)) && Driven(m).node.initialMembership == m.node.initialMembership
  {
    hide Covers, StoreAll, CommitStored, Filled, Stepwise, CommittedEntries;
    StepwiseLast(m.disk.ents, m.node.unstable);
    StoreNone(m.disk.ents);
    if !NothingToDo(m.node) {
      var stored := StoreAll(m.disk.ents, m.node.unstable);
      StoreNone(stored);
      StepwiseNone(stored);
    }
  }

  lemma StoreNone(ents: map<nat, Entry>)
    ensures StoreAll(ents, []) == ents
  {
  }

  lemma StepwiseNone(ents: map<nat, Entry>)
    requires Filled(ents)
    ensures Stepwise(ents, [])
  {
    hide Filled;
  }

  lemma EventKeepsInv(p: Plant, e: Event)
    requires PlantInv(p) && AllowedEvent(p, e)
    ensures PlantInv(NextEvent(p, e)) && Members(NextEvent(p, e)) == Members(p)
  {
    hide Inv, AllowedCall, BlankFor, Act, Driven, CutSave, Started, Filled;
    match p
    case Down(_, _) =>
      if e.Start? {
        StartKeepsInv(p, e.blank);
      }
    case Up(m) =>
      match e {
        case Call(a) => CallKeepsInv(m, a);
        case Drive => DriveKeepsInv(m);
        case Crash(writes) => CutFilled(m, writes);
        case Start(_) =>
      }
  }

  lemma CallKeepsInv(m: Machine, a: Action)
    requires Inv(m) && AllowedCall(m.node, a)
    ensures Inv(m.(node := Act(m.node, a)))
    ensures Act(m.node, a).initialMembership == m.node.initialMembership
  {
    hide Act, Tracks, Covers, CommitStored, Filled, SameData, CachedMembership.BatchOk;
    ActTracks(m.node, a, m.disk.ents);
    ActSame(m.node, a);
  }

  lemma CutFilled(m: Machine, writes: nat)
    requires Inv(m)
    ensures Filled(CutSave(m, writes).ents)
  {
    hide Covers, StoreAll, Filled, CommitStored;
  }

  /** A recovered node is covered by the disk it came from. */
  lemma StartKeepsInv(p: Plant, blank: State)
    requires p.Down? && Filled(p.disk.ents) && BlankFor(blank, p.members)
    ensures PlantInv(Started(p, blank)) && Members(Started(p, blank)) == p.members
  {
    hide Inv, Recover, Filled, ScanMembership, InOrder;
    RecoverFilled(blank, p.disk);
    if Recover(blank, p.disk).Ok? {
      RecoverKeepsStart(blank, p.disk);
      RecoveredInv(blank, p.disk, Recover(blank, p.disk).value);
    }
  }

  lemma RecoveredInv(blank: State, d: Disk, r: State)
    requires Filled(d.ents) && Recover(blank, d) == Ok(r)
    requires BlankFor(blank, blank.initialMembership) && r.log == [PLACEHOLDER] + InOrder(d.ents)
    requires Hard(r) == HardOf(d) == r.lastHard && CommitStored(d.ents, r.committed)
    ensures Inv(Machine(r, d, r))
  {
    hide Filled, ScanMembership, InOrder, ReplayLog, HardOf;
    FilledInOrder(d.ents);
    StoreNone(d.ents);
    StepwiseNone(d.ents);
    assert Covers(d.ents, r.log);
  }

  lemma {:induction false} RunKeepsInv(p: Plant, events: seq<Event>)
    requires PlantInv(p) && AllowedEvents(p, events)
    ensures PlantInv(ExecEvents(p, events)) && Members(ExecEvents(p, events)) == Members(p)
    decreases |events|
  {
    hide PlantInv, NextEvent, AllowedEvent, Members;
    if events != [] {
      EventKeepsInv(p, events[0]);
      RunKeepsInv(NextEvent(p, events[0]), events[1..]);
    }
  }

  function Fresh(id: NodeID, peers: seq<NodeID>, initial: Membership, electionTick: int, heartbeatTick: int): Machine {
    var s := NewState(id, peers, initial, electionTick, heartbeatTick);
    Machine(s, BLANK, s)
  }

  lemma FreshInv(id: NodeID, peers: seq<NodeID>, initial: Membership, electionTick: int, heartbeatTick: int)
    ensures Inv(Fresh(id, peers, initial, electionTick, heartbeatTick))
  {
  }

  // ---------- The results ----------

  /** The recovered node has the saved term, vote and commit; its log extends the saved log, and is longer only by a stale tail. */
  ghost predicate Extends(r: State, saved: State, ents: map<nat, Entry>) {
    && r.term == saved.term && r.vote == saved.vote && r.committed == saved.committed
    && saved.log <= r.log
    && (forall i :: i in ents <==> 0 < i <= LastIndex(r.log))
    && (r.log == saved.log <==> forall i | i in ents :: i <= LastIndex(saved.log))
    && CachedMembership.CacheOk(r)
  }

  /**
   After any run of calls, finished cycles, crashes and starts, whatever messages arrive. While the node
   is up, its disk recovers, with the term, vote and commit of the last finished cycle, and its log is a
   prefix of the recovered one. While it is down, recovery works exactly when the commit index on disk is
   within the entries on disk, and then brings back those entries and that hard state.
   */
  lemma RecoveryExtends(start: Plant, events: seq<Event>, blank: State)
    requires PlantInv(start) && AllowedEvents(start, events) && BlankFor(blank, Members(start))
    ensures match ExecEvents(start, events)
      case Up(m) => Recover(blank, m.disk).Ok? && Extends(Recover(blank, m.disk).value, m.saved, m.disk.ents)
      case Down(disk, _) =>
        && (Recover(blank, disk).Ok? <==> CommitStored(disk.ents, HardOf(disk).commit))
        && (Recover(blank, disk).Ok? ==>
              && Recover(blank, disk).value.log == [PLACEHOLDER] + InOrder(disk.ents)
              && Hard(Recover(blank, disk).value) == HardOf(disk))
  {
    hide AllowedEvents, ExecEvents, Recover, Extends, Filled, Inv, InOrder;
    RunKeepsInv(start, events);
    match ExecEvents(start, events)
    case Up(m) =>
      InvSavedMembership(m);
      InvRecovers(m, blank);
    case Down(disk, _) => RecoverFilled(blank, disk);
  }

  lemma InvSavedMembership(m: Machine)
    requires Inv(m)
    ensures m.saved.initialMembership == m.node.initialMembership
  {
  }

  lemma InvRecovers(m: Machine, blank: State)
    requires Inv(m) && BlankFor(blank, m.saved.initialMembership)
    ensures Recover(blank, m.disk).Ok?
    ensures Extends(Recover(blank, m.disk).value, m.saved, m.disk.ents)
  {
    hide Recover, Tracks, InOrder, Filled, Extends, ScanMembership;
    RecoverFilled(blank, m.disk);
    CoveredIsPrefix(m.disk.ents, m.saved.log);
    var r := Recover(blank, m.disk).value;
    assert CachedMembership.CacheOk(r) by {
      RecoverKeepsStart(blank, m.disk);
    }
    ExtendsFrom(r, m.saved, m.disk.ents);
  }

  lemma RecoverKeepsStart(blank: State, d: Disk)
    requires Recover(blank, d).Ok?
    ensures Recover(blank, d).value.initialMembership == blank.initialMembership
  {
    hide InOrder, ReplayLog, ScanMembership;
  }

  lemma CoveredIsPrefix(ents: map<nat, Entry>, log: EntryLog)
    requires Filled(ents) && Covers(ents, log)
    ensures log <= [PLACEHOLDER] + InOrder(ents)
    ensures forall i :: i in ents <==> 0 < i <= |InOrder(ents)|
    ensures Consecutive(InOrder(ents), 1)
  {
    hide InOrder, Filled;
    FilledInOrder(ents);
    var r := [PLACEHOLDER] + InOrder(ents);
    if |log| > 1 {
      assert |log| - 1 in ents;
    }
    assert |log| <= |r|;
    forall i | 0 <= i < |log| ensures log[i] == r[i] {
      if i > 0 {
        assert ents[i] == log[i];
      }
    }
  }

  lemma ExtendsFrom(r: State, saved: State, ents: map<nat, Entry>)
    requires r.log == [PLACEHOLDER] + InOrder(ents) && saved.log <= [PLACEHOLDER] + InOrder(ents)
    requires Hard(r) == Hard(saved) && CachedMembership.CacheOk(r)
    requires forall i :: i in ents <==> 0 < i <= |InOrder(ents)|
    ensures Extends(r, saved, ents)
  {
    hide InOrder, CachedMembership.CacheOk;
    LastOf(r.log);
    LastOf(saved.log);
    if |r.log| > |saved.log| {
      assert |r.log| - 1 in ents;
    } else {
      assert r.log == saved.log;
    }
  }

  // ---------- A crash in the middle of a save ----------

  /**
   Cut between two writes of a save, recovery works exactly when the commit index the hard state
   already carries lies within the entries already written.
   */
  lemma PartialSaveRecoversExactly(m: Machine, writes: nat, blank: State)
    requires Inv(m) && blank.log == [PLACEHOLDER] && writes <= |m.node.unstable| + 1
    ensures var d := SavedPart(m.disk, Hard(m.node), m.node.unstable, writes);
      && (Recover(blank, d).Ok? <==> HardOf(d).commit == 0 || HardOf(d).commit in d.ents)
      && (writes == 0 || writes == |m.node.unstable| + 1 ==> Recover(blank, d).Ok?)
  {
    hide Recover, Covers, StoreAll, Filled;
    var d := SavedPart(m.disk, Hard(m.node), m.node.unstable, writes);
    assert Filled(d.ents);
    RecoverFilled(blank, d);
    assert m.node.unstable[..|m.node.unstable|] == m.node.unstable;
  }

  /** The commit index that a cut save leaves on disk is within the entries it leaves there. */
  ghost predicate CrashCovered(m: Machine, writes: nat) {
    writes == 0 || writes > |m.node.unstable| + 1
    || CommitStored(StoreAll(m.disk.ents, m.node.unstable[..writes - 1]), m.node.committed)
  }

  ghost predicate CrashesCovered(p: Plant, events: seq<Event>)
    decreases |events|
  {
    events != [] ==>
      && (p.Up? && events[0].Crash? ==> CrashCovered(p.m, events[0].writes))
      && CrashesCovered(NextEvent(p, events[0]), events[1..])
  }

  /** If the node is down, starting it again works. */
  ghost predicate Restartable(p: Plant) {
    p.Down? ==> forall blank | BlankFor(blank, p.members) :: Recover(blank, p.disk).Ok?
  }

  ghost predicate AlwaysRestartable(p: Plant, events: seq<Event>)
    decreases |events|
  {
    Restartable(p) && (events != [] ==> AlwaysRestartable(NextEvent(p, events[0]), events[1..]))
  }

  lemma RestartableExactly(p: Plant)
    requires PlantInv(p)
    ensures Restartable(p) <==> p.Up? || CommitStored(p.disk.ents, HardOf(p.disk).commit)
  {
    hide Recover, Filled, Inv;
    if p.Down? {
      var some := NewState(1, [1], p.members, 2, 1);
      assert BlankFor(some, p.members);
      RecoverFilled(some, p.disk);
      forall blank | BlankFor(blank, p.members)
        ensures Recover(blank, p.disk).Ok? <==> CommitStored(p.disk.ents, HardOf(p.disk).commit)
      {
        RecoverFilled(blank, p.disk);
      }
    }
  }

  lemma CrashRestartable(m: Machine, writes: nat)
    requires Inv(m)
    ensures var d := CutSave(m, writes); CommitStored(d.ents, HardOf(d).commit) <==> CrashCovered(m, writes)
  {
    hide StoreAll, Filled, Covers;
  }

  lemma EventRestartable(p: Plant, e: Event)
    requires PlantInv(p) && AllowedEvent(p, e) && Restartable(p)
    ensures Restartable(NextEvent(p, e)) <==> (p.Up? && e.Crash? ==> CrashCovered(p.m, e.writes))
  {
    hide PlantInv, AllowedEvent, Restartable, CrashCovered, Recover, Act, Driven, CutSave, CommitStored;
    EventKeepsInv(p, e);
    RestartableExactly(p);
    RestartableExactly(NextEvent(p, e));
    if p.Up? && e.Crash? {
      UpInv(p);
      CrashRestartable(p.m, e.writes);
    }
  }

  lemma UpInv(p: Plant)
    requires PlantInv(p) && p.Up?
    ensures Inv(p.m)
  {
  }

  /**
   Along a run the node can always be started again if and only if every crash in it is covered: the commit
   index written by then is within the entries written by then.
   */
  lemma {:induction false} CrashesDecide(p: Plant, events: seq<Event>)
    requires PlantInv(p) && AllowedEvents(p, events) && Restartable(p)
    ensures AlwaysRestartable(p, events) <==> CrashesCovered(p, events)
    decreases |events|
  {
    hide PlantInv, NextEvent, AllowedEvent, Restartable, CrashCovered;
    if events != [] {
      EventKeepsInv(p, events[0]);
      EventRestartable(p, events[0]);
      if Restartable(NextEvent(p, events[0])) {
        CrashesDecide(NextEvent(p, events[0]), events[1..]);
      } else {
        NotAlways(NextEvent(p, events[0]), events[1..]);
      }
    }
  }

  lemma NotAlways(p: Plant, events: seq<Event>)
    requires !Restartable(p)
    ensures !AlwaysRestartable(p, events)
  {
    hide Restartable;
  }

  /** A node that cannot be started stays down, with the same disk, whatever is tried. */
  lemma {:induction false} DownForGood(p: Plant, events: seq<Event>)
    requires PlantInv(p) && AllowedEvents(p, events) && !Restartable(p)
    ensures ExecEvents(p, events) == p
    decreases |events|
  {
    hide PlantInv, AllowedEvent, Recover;
    if events != [] {
      StaysDown(p, events[0]);
      DownForGood(p, events[1..]);
    }
  }

  lemma StaysDown(p: Plant, e: Event)
    requires PlantInv(p) && AllowedEvent(p, e) && !Restartable(p)
    ensures NextEvent(p, e) == p
  {
    hide Recover, Filled, CommitStored, Restartable, Inv;
    RestartableExactly(p);
    hide PlantInv;
    if e.Start? && p.Down? {
      StartFails(p, e.blank);
    }
  }

  lemma StartFails(p: Plant, blank: State)
    requires p.Down? && PlantInv(p) && BlankFor(blank, p.members) && !Restartable(p)
    ensures Started(p, blank) == p
  {
    hide Recover, Filled;
    RestartableExactly(p);
    RecoverFilled(blank, p.disk);
  }
}
