/**
 Handing committed entries to the application. Over any run of one node, whatever messages reach it,
 the entries handed out are the log's entries 1, 2, 3, ... up to the applied index, each once and in
 order, as long as no accepted batch conflicts with a committed entry.
 */
module Handoff {
  import opened Wrappers
  import opened Quorums
  import opened RaftLog
  import opened RaftNode
  import opened RaftRuns
  import CommitSearch

  /** A node and everything it has handed to its application. */
  datatype Host = Host(node: State, handed: seq<Entry>)

  /** A call on the node, or one cycle of Ready, apply and Advance. */
  datatype Event = Call(action: Action) | Cycle

  function Next(h: Host, e: Event): Host {
    match e
    case Call(a) => h.(node := Act(h.node, a))
    case Cycle => Host(Advance(h.node), h.handed + CommittedEntries(h.node))
  }

  function Exec(h: Host, events: seq<Event>): Host
    decreases |events|
  {
    if events == [] then h else Exec(Next(h, events[0]), events[1..])
  }

  /** No entry of the batch conflicts with a committed one. */
  ghost predicate SparesCommitted(s: State, batch: seq<Entry>) {
    forall k | 0 <= k < |batch| && 0 < batch[k].index <= s.committed :: Has(s.log, batch[k])
  }

  /** The batch changes nothing, or spares what is committed. */
  ghost predicate BatchSafe(s: State, batch: seq<Entry>) {
    Append(s.log, batch).log == s.log || SparesCommitted(s, batch)
  }

  /** Calls that are not Advance (which only Cycle makes) and whose batch is safe. */
  ghost predicate Allowed(s: State, e: Event) {
    e.Call? ==>
      && !e.action.AdvanceAt?
      && (e.action.Deliver? && e.action.m.kind == MsgAppend && e.action.m.term >= s.term && Fits(s, e.action.m) ==>
            BatchSafe(s, e.action.m.entries))
  }

  ghost predicate AllowedRun(h: Host, events: seq<Event>)
    decreases |events|
  {
    events != [] ==> Allowed(h.node, events[0]) && AllowedRun(Next(h, events[0]), events[1..])
  }

  /** The node's indexes are in order, and a node with a role has a positive term. */
  ghost predicate NodeOk(s: State) {
    s.applied <= s.committed < |s.log| && (s.role != Follower ==> s.term > 0)
  }

  ghost predicate Inv(h: Host) {
    NodeOk(h.node) && h.handed == h.node.log[1..h.node.applied + 1]
  }

  /** Everything up to the committed index stays, and the index does not fall. */
  ghost predicate KeepsCommitted(s: State, t: State)
    requires NodeOk(s)
  {
    && t.applied == s.applied && s.committed <= t.committed
    && NodeOk(t)
    && t.log[..s.committed + 1] == s.log[..s.committed + 1]
  }

  // ---------- Appending above the committed index ----------

  lemma OneSpares(log: EntryLog, e: Entry, committed: nat)
    requires committed < |log|
    requires 0 < e.index <= committed ==> Has(log, e)
    ensures var r := AppendOne(log, e).log; committed < |r| && r[..committed + 1] == log[..committed + 1]
  {
  }

  lemma {:induction false} AppendSpares(log: EntryLog, batch: seq<Entry>, committed: nat)
    requires committed < |log|
    requires forall k | 0 <= k < |batch| && 0 < batch[k].index <= committed :: Has(log, batch[k])
    ensures var r := Append(log, batch).log; committed < |r| && r[..committed + 1] == log[..committed + 1]
    decreases |batch|
  {
    hide AppendOne;
    if batch != [] {
      var one := AppendOne(log, batch[0]).log;
      OneSpares(log, batch[0], committed);
      forall k | 0 <= k < |batch[1..]| && 0 < batch[1..][k].index <= committed ensures Has(one, batch[1..][k]) {
        assert Has(log, batch[k + 1]);
        StillHas(log, one, batch[k + 1], committed);
      }
      if AppendOne(log, batch[0]).ok {
        AppendSpares(one, batch[1..], committed);
      }
    }
  }

  lemma StillHas(log: EntryLog, one: EntryLog, e: Entry, committed: nat)
    requires committed < |log| && committed < |one| && one[..committed + 1] == log[..committed + 1]
    requires e.index <= committed && Has(log, e)
    ensures Has(one, e)
  {
    assert one[e.index] == one[..committed + 1][e.index];
    assert log[e.index] == log[..committed + 1][e.index];
  }

  // ---------- Each call ----------

  lemma BatchKeeps(s: State, batch: seq<Entry>)
    requires s.committed < |s.log| && BatchSafe(s, batch)
    ensures var r := Append(s.log, batch).log; s.committed < |r| && r[..s.committed + 1] == s.log[..s.committed + 1]
  {
    hide Append, Has, Contiguous;
    if SparesCommitted(s, batch) {
      AppendSpares(s.log, batch, s.committed);
    }
  }

  lemma AppendKeeps(s: State, m: Message)
    requires NodeOk(s)
    requires m.term >= s.term && Fits(s, m) ==> BatchSafe(s, m.entries)
    ensures KeepsCommitted(s, HandleAppend(s, m))
  {
    hide Append, ScanMembership, Has, Contiguous, BatchSafe;
    if m.term >= s.term && Fits(s, m) {
      BatchKeeps(s, m.entries);
      LastOf(Append(s.log, m.entries).log);
    }
  }

  lemma ProposeKeeps(s: State, data: Data)
    requires NodeOk(s)
    ensures KeepsCommitted(s, ProposeInternal(s, data))
    ensures ProposeInternal(s, data).role == s.role
  {
    hide ScanMembership, AppendMessage;
    PushNext(s.log, Entry(|s.log|, s.term, data));
  }

  lemma VoteRespKeeps(s: State, m: Message)
    requires NodeOk(s)
    ensures KeepsCommitted(s, HandleVoteResp(s, m))
  {
    hide ProposeInternal, AppendMessage;
    if s.role == Candidate && s.votes.Some? {
      ProposeKeeps(StartLeading(s.(votes := Some(s.votes.value + {m.from}))), JointLeaderNoop);
    }
  }

  /** A commit target has the leader's positive term, so it lies within the log. */
  lemma TargetInLog(s: State)
    requires s.term > 0 && CommitTarget(s).Some?
    ensures s.committed < CommitTarget(s).value < |s.log|
  {
    CommitSearch.TermAt(s.log, CommitTarget(s).value);
  }

  lemma AdvanceCommitKeeps(s: State)
    requires NodeOk(s) && s.role == Leader
    ensures KeepsCommitted(s, AdvanceCommit(s))
  {
    hide ProposeInternal, CommitTarget, AppendMessage;
    if CommitTarget(s).Some? {
      TargetInLog(s);
      var s1 := BroadcastAppend(s.(committed := CommitTarget(s).value));
      ProposeKeeps(s1, Conf(ConfChange({}, s1.membership.newVoters, {}, false)));
      assert NodeOk(s1);
      ShorterPrefix(s1.log, ProposeInternal(s1, Conf(ConfChange({}, s1.membership.newVoters, {}, false))).log, s.committed + 1, s1.committed + 1);
    }
  }

  lemma ShorterPrefix(a: seq<Entry>, b: seq<Entry>, m: nat, n: nat)
    requires m <= n <= |a| && n <= |b|
    ensures b[..n] == a[..n] ==> b[..m] == a[..m]
  {
    assert a[..m] == a[..n][..m] && b[..m] == b[..n][..m];
  }

  lemma AppendRespKeeps(s: State, m: Message)
    requires NodeOk(s)
    ensures KeepsCommitted(s, HandleAppendResp(s, m))
  {
    hide AdvanceCommit, AppendMessage;
    if s.role == Leader {
      AdvanceCommitKeeps(Recorded(s, m.from, m.index));
    }
  }

  lemma PreVoteKeeps(s: State, m: Message)
    requires NodeOk(s)
    ensures KeepsCommitted(s, HandlePreVote(s, m)) && KeepsCommitted(s, HandlePreVoteResp(s, m))
  {
    hide LogUpToDate, Requests;
  }

  lemma VoteKeeps(s: State, m: Message)
    requires NodeOk(s)
    ensures KeepsCommitted(s, HandleVote(s, m))
  {
    hide LogUpToDate;
  }

  lemma StepKeeps(s: State, m: Message)
    requires NodeOk(s)
    requires m.kind == MsgAppend && m.term >= s.term && Fits(s, m) ==> BatchSafe(s, m.entries)
    ensures KeepsCommitted(s, Step(s, m))
  {
    hide HandlePreVote, HandlePreVoteResp, HandleVote, HandleVoteResp, HandleAppend, HandleAppendResp, BatchSafe, Term;
    var s1 := AdoptTerm(s, m);
    match m.kind
    case MsgPreVote => PreVoteKeeps(s1, m);
    case MsgPreVoteResp => PreVoteKeeps(s1, m);
    case MsgVote => VoteKeeps(s1, m);
    case MsgVoteResp => VoteRespKeeps(s1, m);
    case MsgAppend =>
      SameBatch(s, s1, m);
      AppendKeeps(s1, m);
    case MsgAppendResp => AppendRespKeeps(s1, m);
    case _ =>
  }

  lemma SameBatch(s: State, t: State, m: Message)
    requires t.log == s.log && t.committed == s.committed
    ensures BatchSafe(s, m.entries) ==> BatchSafe(t, m.entries)
  {
  }

  lemma TickKeeps(s: State)
    requires NodeOk(s)
    ensures KeepsCommitted(s, Tick(s))
  {
    hide AppendMessage, Requests;
  }

  lemma CommandKeeps(s: State, command: Data)
    requires NodeOk(s)
    ensures KeepsCommitted(s, Propose(s, command))
  {
    hide ProposeInternal;
    ProposeKeeps(s, command);
  }

  lemma ChangeKeeps(s: State, newVoters: seq<NodeID>, newLearners: seq<NodeID>)
    requires NodeOk(s)
    ensures KeepsCommitted(s, ProposeConfChange(s, newVoters, newLearners))
  {
    hide ProposeInternal, ConfChangeError;
    ProposeKeeps(s, Conf(ConfChange(s.membership.oldVoters, IdSet(newVoters), IdSet(newLearners), true)));
  }

  lemma ActKeeps(s: State, a: Action)
    requires NodeOk(s) && Allowed(s, Call(a))
    ensures KeepsCommitted(s, Act(s, a))
  {
    hide Step, Tick, Propose, ProposeConfChange, BatchSafe, Fits;
    match a
    case TickAt(_) => TickKeeps(s);
    case ProposeAt(_, command) => CommandKeeps(s, Command(command));
    case ChangeAt(_, v, l) => ChangeKeeps(s, v, l);
    case Deliver(m) => StepKeeps(s, m);
    case _ =>
  }

  // ---------- Runs ----------

  /** What Ready hands out is exactly the entries between the applied and the committed index. */
  lemma HandsOutNext(s: State)
    requires NodeOk(s)
    ensures CommittedEntries(s) == s.log[s.applied + 1..s.committed + 1]
  {
    if s.applied < s.committed {
      assert EntriesFrom(s.log, s.applied + 1) == s.log[s.applied + 1..];
    }
  }

  lemma NextKeepsInv(h: Host, e: Event)
    requires Inv(h) && Allowed(h.node, e)
    ensures Inv(Next(h, e))
  {
    hide Act, Allowed, CommittedEntries;
    var s := h.node;
    match e
    case Call(a) =>
      ActKeeps(s, a);
      var t := Act(s, a);
      ShorterPrefix(s.log, t.log, s.applied + 1, s.committed + 1);
      assert t.log[1..s.applied + 1] == t.log[..s.applied + 1][1..];
      assert s.log[1..s.applied + 1] == s.log[..s.applied + 1][1..];
    case Cycle =>
      HandsOutNext(s);
      assert s.log[1..s.applied + 1] + s.log[s.applied + 1..s.committed + 1] == s.log[1..s.committed + 1];
  }

  lemma {:induction false} RunKeepsInv(h: Host, events: seq<Event>)
    requires Inv(h) && AllowedRun(h, events)
    ensures Inv(Exec(h, events))
    decreases |events|
  {
    hide Next, Allowed, Inv;
    if events != [] {
      NextKeepsInv(h, events[0]);
      RunKeepsInv(Next(h, events[0]), events[1..]);
    }
  }

  /** A node that has just been created and has handed out nothing. */
  function NewHost(id: NodeID, peers: seq<NodeID>, m: Membership, electionTick: int, heartbeatTick: int): Host {
    Host(NewState(id, peers, m, electionTick, heartbeatTick), [])
  }

  /**
   From a new node, over every run of calls and cycles that spares committed entries: what was handed
   out is exactly log entries 1 to the applied index, and applied, committed and last index stay in order.
   */
  lemma HandsOutInOrder(
    id: NodeID, peers: seq<NodeID>, m: Membership, electionTick: int, heartbeatTick: int, events: seq<Event>)
    requires AllowedRun(NewHost(id, peers, m, electionTick, heartbeatTick), events)
    ensures var r := Exec(NewHost(id, peers, m, electionTick, heartbeatTick), events);
            && r.node.applied <= r.node.committed < |r.node.log| == LastIndex(r.node.log) + 1
            && r.handed == r.node.log[1..r.node.applied + 1]
  {
    var start := NewHost(id, peers, m, electionTick, heartbeatTick);
    RunKeepsInv(start, events);
    LastOf(Exec(start, events).node.log);
  }

  /**
   The condition is the one that matters: an accepted consecutive batch keeps the committed entries as
   they are exactly when it conflicts with none of them.
   */
  lemma SparesExactly(s: State, batch: seq<Entry>, first: nat)
    requires s.committed < |s.log| && Consecutive(batch, first) && 0 < first <= |s.log|
    ensures SparesCommitted(s, batch) <==>
              var r := Append(s.log, batch).log;
              s.committed < |r| && forall i | 0 <= i <= s.committed :: r[i].term == s.log[i].term
  {
    hide Append, AppendOne, Merge, Shared;
    if SparesCommitted(s, batch) {
      AppendSpares(s.log, batch, s.committed);
      var r := Append(s.log, batch).log;
      forall i | 0 <= i <= s.committed ensures r[i].term == s.log[i].term {
        assert r[i] == r[..s.committed + 1][i] && s.log[i] == s.log[..s.committed + 1][i];
      }
    } else {
      var k :| 0 <= k < |batch| && 0 < batch[k].index <= s.committed && !Has(s.log, batch[k]);
      MergeHas(s.log, batch, first, k);
    }
  }
}
