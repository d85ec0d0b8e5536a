/**
 The Raft node object. Every method is proved to change the node's state exactly as the function of
 the same name in RaftNode says.
 */
module RaftReplica {
  import opened Wrappers
  import opened Quorums
  import opened RaftLog
  import N = RaftNode
  import opened RaftMessages = RaftNode
  import Sorting

  datatype Config = Config(id: NodeID, peers: seq<NodeID>, learners: seq<NodeID>, electionTick: int, heartbeatTick: int)

  function ConfigError(c: Config): Option<string> {
    if c.id == 0 || c.peers == [] then Some("raft: ID and peers required")
    else if c.electionTick <= c.heartbeatTick || c.heartbeatTick <= 0 then
      Some("raft: election tick must exceed heartbeat tick")
    else if c.id !in c.peers then Some("raft: local ID absent from peers")
    else if exists l :: l in c.learners && l !in c.peers then Some("raft: learner must also be a peer")
    else if |N.IdSet(c.learners)| >= |c.peers| then Some("raft: at least one peer must be a voter")
    else None
  }

  function InitialMembership(c: Config): Membership {
    Membership(N.IdSet(c.peers) - N.IdSet(c.learners), {}, false)
  }

  /** The five errors in order; a configuration with none of them has its ticks in order and knows everybody it names. */
  lemma ConfigAccepted(c: Config)
    ensures var ticks := 0 < c.heartbeatTick < c.electionTick;
      var known := forall l | l in c.learners :: l in c.peers;
      && (ConfigError(c).None? <==>
            c.id in c.peers && c.id != 0 && ticks && known && |N.IdSet(c.learners)| < |c.peers|)
      && (c.id == 0 || |c.peers| == 0 <==> ConfigError(c) == Some("raft: ID and peers required"))
      && (c.id != 0 && |c.peers| > 0 && !ticks <==> ConfigError(c) == Some("raft: election tick must exceed heartbeat tick"))
      && (c.id != 0 && |c.peers| > 0 && ticks && c.id !in c.peers <==> ConfigError(c) == Some("raft: local ID absent from peers"))
      && (c.id != 0 && ticks && c.id in c.peers && !known <==> ConfigError(c) == Some("raft: learner must also be a peer"))
  {
  }

  /** The first voters are the peers that are not learners. */
  lemma FirstVoters(c: Config)
    ensures var m := InitialMembership(c);
      !m.joint && m.Voters() == m.oldVoters && forall p :: p in m.Voters() <==> p in c.peers && p !in c.learners
  {
  }

  /** A node that can be created has a voter if and only if fewer different nodes are learners than are peers. */
  lemma VoterLeftExactly(c: Config)
    requires ConfigError(c).None?
    ensures InitialMembership(c).Voters() != {} <==> |N.IdSet(c.learners)| < |N.IdSet(c.peers)|
  {
    var peers, learners := N.IdSet(c.peers), N.IdSet(c.learners);
    assert learners <= peers;
    assert |peers - learners| == |peers| - |learners| by {
      assert peers == (peers - learners) + learners;
    }
  }

  /** The code counts the peers as listed, so a peer listed twice can leave nobody to vote. */
  lemma PeerListedTwiceLeavesNone()
    ensures exists c: Config :: ConfigError(c).None? && InitialMembership(c).Voters() == {}
  {
    var c := Config(1, [1, 1], [1], 2, 1);
    assert 1 in c.peers && N.IdSet(c.learners) == {1};
    assert ConfigError(c).None?;
    assert N.IdSet(c.peers) == {1};
  }

  predicate Descending(a: nat, b: nat) {
    a >= b
  }

  class Node {
    const id: NodeID
    var peers: seq<NodeID>
    const initialMembership: Membership
    var membership: Membership
    var membershipIndex: nat
    var role: Role
    var term: nat
    var vote: NodeID
    var leader: NodeID
    const log: Log
    var electionElapsed: int
    var heartbeatElapsed: int
    const electionTick: int
    const heartbeatTick: int
    var votes: Option<set<NodeID>>
    var preVote: bool
    var next: map<NodeID, nat>
    var matched: map<NodeID, nat>
    var msgs: seq<Message>
    var unstable: seq<Entry>
    var lastHard: HardState

    ghost function State(): N.State
      reads this, log
    {
      N.State(id, peers, initialMembership, membership, membershipIndex, role, term, vote, leader,
              log.entries, log.committed, log.applied, electionElapsed, heartbeatElapsed, electionTick, heartbeatTick,
              votes, preVote, next, matched, Queued(msgs), unstable, lastHard)
    }

    constructor (c: Config)
      ensures State() == N.NewState(c.id, c.peers, InitialMembership(c), c.electionTick, c.heartbeatTick)
      ensures fresh(log)
    {
      id, peers, electionTick, heartbeatTick := c.id, c.peers, c.electionTick, c.heartbeatTick;
      initialMembership, membership, membershipIndex := InitialMembership(c), InitialMembership(c), 0;
      role, term, vote, leader := Follower, 0, 0, 0;
      log := new Log();
      electionElapsed, heartbeatElapsed, votes, preVote := 0, 0, None, false;
      next, matched, msgs, unstable, lastHard := map[], map[], [], [], HardState(0, 0, 0);
    }

    static method Create(c: Config) returns (r: Result<Node, string>)
      ensures match ConfigError(c)
              case Some(error) => r == Err(error)
              case None => r.Ok? && fresh(r.value) && fresh(r.value.log)
                           && r.value.State() == N.NewState(c.id, c.peers, InitialMembership(c), c.electionTick, c.heartbeatTick)
    {
      var error := ConfigError(c);
      if error.Some? {
        return Err(error.value);
      }
      var n := new Node(c);
      assert n.log.entries[..0] == [];
      assert N.ScanMembership(InitialMembership(c), []) == (InitialMembership(c), 0);
      n.RecomputeMembership();
      return Ok(n);
    }

    // ---------- Membership ----------

    method RecomputeMembership()
      modifies this`membership, this`membershipIndex
      ensures State() == N.Recompute(old(State()))
    {
      var found, index := initialMembership, 0;
      var i := 0;
      while i < |log.entries|
        invariant i <= |log.entries|
        invariant (found, index) == N.ScanMembership(initialMembership, log.entries[..i])
        invariant State() == old(State())
      {
        assert log.entries[..i + 1][..i] == log.entries[..i];
        if log.entries[i].data.Conf? {
          found, index := N.MembershipOf(log.entries[i].data.change), log.entries[i].index;
        }
        i := i + 1;
      }
      assert log.entries[..i] == log.entries;
      membership, membershipIndex := found, index;
    }

    // ---------- Sending ----------

    method Send(m: Message)
      modifies this`msgs
      ensures State() == N.Send(old(State()), m)
    {
      QueuedPush(msgs, m.(from := id));
      msgs := msgs + [m.(from := id)];
    }

    method Reply(kind: Kind, to: NodeID, index: nat, reject: bool)
      modifies this`msgs
      ensures State() == N.Reply(old(State()), kind, to, index, reject)
    {
      Send(Message(kind, 0, to, term, index, 0, 0, reject, []));
    }

    method SendAppend(to: NodeID)
      modifies this`msgs
      ensures State() == N.SendAppend(old(State()), to)
    {
      var nextIndex := if to in next then next[to] else 0;
      var prev := if nextIndex == 0 then N.MAX_UINT64 else nextIndex - 1;
      var prevTerm := TermOrZero(log.entries, prev);
      Send(Message(MsgAppend, 0, to, term, prev, prevTerm, log.committed, false, EntriesFrom(log.entries, nextIndex)));
    }

    method BroadcastAppend()
      modifies this`msgs
      ensures State() == N.BroadcastAppend(old(State()))
    {
      hide N.AppendMessage, N.AppendMessages;
      ghost var s := State();
      N.AppendMessagesEmpty(s);
      assert peers[..0] == [];
      var i := 0;
      while i < |peers|
        invariant i <= |peers|
        invariant State() == s.(msgs := s.msgs + N.AppendMessages(s, peers[..i]))
      {
        assert peers[..i + 1] == peers[..i] + [peers[i]];
        N.AppendMessagesPush(s, peers[..i], peers[i]);
        if peers[i] != id {
          N.AppendMessageSame(s, State(), peers[i]);
          SendAppend(peers[i]);
        }
        i := i + 1;
      }
      assert peers[..i] == peers;
    }

    /** Sends the same request to every other voter, in whatever order the voter set is listed. */
    method AskVoters(kind: Kind, requestTerm: nat)
      modifies this`msgs
      ensures State() == N.AskVoters(old(State()), kind, requestTerm)
    {
      ghost var s := State();
      var last := LastIndex(log.entries);
      var lastTerm := TermOrZero(log.entries, last);
      var voters := CollectVoters(membership);
      var todo := voters;
      while todo != {}
        invariant todo <= voters
        invariant State() == s.(msgs := s.msgs + N.Requests(s, voters - todo, kind, requestTerm))
      {
        var p :| p in todo;
        if p != id {
          Send(Message(kind, 0, p, requestTerm, last, lastTerm, 0, false, []));
        }
        todo := todo - {p};
      }
    }

    // ---------- Roles ----------

    method Enter(newRole: Role, newTerm: nat, newVote: NodeID, newLeader: NodeID, newVotes: Option<set<NodeID>>, newPreVote: bool)
      modifies this`role, this`term, this`vote, this`leader, this`votes, this`preVote
      ensures role == newRole && term == newTerm && vote == newVote && leader == newLeader
      ensures votes == newVotes && preVote == newPreVote
    {
      role, term, vote, leader, votes, preVote := newRole, newTerm, newVote, newLeader, newVotes, newPreVote;
    }

    method BecomeFollower(newTerm: nat, newLeader: NodeID)
      modifies this
      ensures State() == N.BecomeFollower(old(State()), newTerm, newLeader)
    {
      Enter(Follower, newTerm, 0, newLeader, None, false);
      electionElapsed := 0;
    }

    method ProposeInternal(data: Data) returns (ok: bool)
      modifies this, log
      ensures ok
      ensures State() == N.ProposeInternal(old(State()), data)
    {
      hide N.BroadcastAppend, N.ScanMembership, AppendOne;
      var e := Entry(LastIndex(log.entries) + 1, term, data);
      assert Append(log.entries, [e]) == AppendOne(log.entries, e) by {
        AppendSingle(log.entries, e);
      }
      PushNext(log.entries, e);
      ok := log.AppendBatch([e]);
      if !ok {
        return;
      }
      if data.Conf? {
        RecomputeMembership();
      }
      unstable := unstable + [e];
      matched := matched[id := LastIndex(log.entries)];
      BroadcastAppend();
    }

    method BecomeLeader()
      modifies this, log
      ensures State() == N.BecomeLeader(old(State()))
    {
      hide N.ProposeInternal, N.BroadcastAppend, N.StartLeading;
      StartLeading();
      if membership.joint {
        var _ := ProposeInternal(JointLeaderNoop);
      } else {
        BroadcastAppend();
      }
    }

    method StartLeading()
      modifies this
      ensures State() == N.StartLeading(old(State()))
    {
      TrackPeers();
      Enter(Leader, term, vote, id, votes, false);
    }

    /** Starts replicating to every peer from the end of the log. */
    method TrackPeers()
      modifies this`next, this`matched
      ensures next == map p | p in peers :: LastIndex(log.entries) + 1
      ensures matched == map[id := LastIndex(log.entries)]
    {
      var last := LastIndex(log.entries);
      matched := map[id := last];
      var tracked := map[];
      var i := 0;
      while i < |peers|
        invariant i <= |peers|
        invariant tracked == map p | p in peers[..i] :: last + 1
      {
        assert peers[..i + 1] == peers[..i] + [peers[i]];
        tracked := tracked[peers[i] := last + 1];
        i := i + 1;
      }
      assert peers[..i] == peers;
      next := tracked;
    }

    method StartPreVote()
      modifies this
      ensures State() == N.StartPreVote(old(State()))
    {
      hide N.Requests;
      votes, preVote := Some({id}), true;
      AskVoters(MsgPreVote, term + 1);
    }

    method StartElection()
      modifies this
      ensures State() == N.StartElection(old(State()))
    {
      hide N.Requests;
      Enter(Candidate, term + 1, id, leader, Some({id}), false);
      AskVoters(MsgVote, term);
    }

    // ---------- Message handlers ----------

    method HandlePreVote(m: Message)
      modifies this`msgs
      ensures State() == N.HandlePreVote(old(State()), m)
    {
      if id !in membership.Voters() {
        Reply(MsgPreVoteResp, m.from, 0, true);
        return;
      }
      var ok := m.term >= term + 1 && LogUpToDate(m.index, m.logTerm);
      Reply(MsgPreVoteResp, m.from, 0, !ok);
    }

    predicate LogUpToDate(lastIndex: nat, lastTerm: nat)
      reads this, log
      ensures LogUpToDate(lastIndex, lastTerm) == N.LogUpToDate(State(), lastIndex, lastTerm)
    {
      var index := LastIndex(log.entries);
      var newestTerm := TermOrZero(log.entries, index);
      lastTerm > newestTerm || (lastTerm == newestTerm && lastIndex >= index)
    }

    method HandlePreVoteResp(m: Message)
      modifies this
      ensures State() == N.HandlePreVoteResp(old(State()), m)
    {
      hide N.StartElection;
      if m.reject || m.term > term {
        return;
      }
      if !preVote || votes.None? {
        return;
      }
      votes := Some(votes.value + {m.from});
      if membership.HasQuorum(votes.value) {
        StartElection();
      }
    }

    method HandleVote(m: Message)
      modifies this
      ensures State() == N.HandleVote(old(State()), m)
    {
      if id !in membership.Voters() {
        Reply(MsgVoteResp, m.from, 0, true);
        return;
      }
      var ok := (vote == 0 || vote == m.from) && LogUpToDate(m.index, m.logTerm);
      if ok {
        vote, electionElapsed := m.from, 0;
      }
      Reply(MsgVoteResp, m.from, 0, !ok);
    }

    method HandleVoteResp(m: Message)
      modifies this, log
      ensures State() == N.HandleVoteResp(old(State()), m)
    {
      hide N.BecomeLeader;
      if role != Candidate || m.term != term {
        return;
      }
      if !m.reject && votes.Some? {
        votes := Some(votes.value + {m.from});
        if membership.HasQuorum(votes.value) {
          BecomeLeader();
        }
      }
    }

    method HandleAppend(m: Message)
      modifies this, log
      ensures State() == N.HandleAppend(old(State()), m)
    {
      hide Append, N.ScanMembership;
      if m.term < term {
        Reply(MsgAppendResp, m.from, LastIndex(log.entries), true);
        return;
      }
      BecomeFollower(m.term, m.from);
      if Term(log.entries, m.index) != Some(m.logTerm) {
        Reply(MsgAppendResp, m.from, LastIndex(log.entries), true);
        return;
      }
      var ok := log.AppendBatch(m.entries);
      if !ok {
        return;
      }
      if m.entries != [] {
        RecomputeMembership();
        unstable := unstable + m.entries;
      }
      if m.commit > log.committed {
        log.committed := Min(m.commit, LastIndex(log.entries));
      }
      Reply(MsgAppendResp, m.from, LastIndex(log.entries), false);
    }

    method HandleAppendResp(m: Message)
      modifies this, log
      ensures State() == N.HandleAppendResp(old(State()), m)
    {
      hide N.AdvanceCommit, N.SendAppend;
      if role != Leader || m.term != term {
        return;
      }
      if m.reject {
        if m.from in next && next[m.from] > 1 {
          next := next[m.from := next[m.from] - 1];
        }
        SendAppend(m.from);
        return;
      }
      matched, next := matched[m.from := m.index], next[m.from := m.index + 1];
      AdvanceCommit();
      if next[m.from] <= LastIndex(log.entries) {
        SendAppend(m.from);
      }
    }

    // ---------- Committing ----------

    /** Tries the match indexes from the highest down; stops at the first one a quorum has. */
    method AdvanceCommit()
      modifies this, log
      ensures State() == N.AdvanceCommit(old(State()))
    {
      hide N.BroadcastAppend, N.LeaveJointOrStepDown, N.CommitTarget;
      ghost var s := State();
      var candidates := SortedDescending(matched.Values + {LastIndex(log.entries)});
      var i := 0;
      while i < |candidates|
        invariant i <= |candidates| && State() == s
        invariant forall j | 0 <= j < i :: !N.Committable(s, candidates[j])
      {
        var candidate := candidates[i];
        if candidate <= log.committed {
          break;
        }
        i := i + 1;
        if TermOrZero(log.entries, candidate) != term {
          continue;
        }
        var acked := set p | p in matched && matched[p] >= candidate;
        if membership.HasQuorum(acked) {
          FirstIsTarget(s, candidates, i - 1);
          log.committed := candidate;
          BroadcastAppend();
          LeaveJointOrStepDown();
          return;
        }
      }
      NoTarget(s, candidates, i);
    }

    method LeaveJointOrStepDown()
      modifies this, log
      ensures State() == N.LeaveJointOrStepDown(old(State()))
    {
      hide N.ProposeInternal;
      if role != Leader {
        return;
      }
      if membership.joint && log.committed >= membershipIndex {
        var _ := ProposeInternal(Conf(ConfChange({}, membership.newVoters, {}, false)));
        return;
      }
      if !membership.joint && id !in membership.Voters() {
        BecomeFollower(term, 0);
      }
    }

    // ---------- The node's calls ----------

    method Tick()
      modifies this
      ensures State() == N.Tick(old(State()))
    {
      hide N.BroadcastAppend, N.StartPreVote;
      electionElapsed := electionElapsed + 1;
      if role == Leader {
        heartbeatElapsed := heartbeatElapsed + 1;
        if heartbeatElapsed >= heartbeatTick {
          heartbeatElapsed := 0;
          BroadcastAppend();
        }
      }
      if electionElapsed >= electionTick && role != Leader && id in membership.Voters() {
        electionElapsed := 0;
        StartPreVote();
      }
    }

    method Propose(data: Data) returns (error: Option<string>)
      modifies this, log
      ensures State() == N.Propose(old(State()), data)
      ensures error.None? <==> old(role) == Leader
    {
      hide N.ProposeInternal;
      if role != Leader {
        return Some("raft: proposal to non-leader");
      }
      var ok := ProposeInternal(data);
      return if ok then None else Some("raft: append failed");
    }

    method ProposeConfChange(newVoters: seq<NodeID>, newLearners: seq<NodeID>) returns (error: Option<string>)
      modifies this, log
      ensures State() == N.ProposeConfChange(old(State()), newVoters, newLearners)
      ensures error == N.ConfChangeError(old(State()), newVoters, newLearners)
    {
      hide N.ProposeInternal;
      if role != Leader {
        return Some("raft: confChange proposal to non-leader");
      }
      if membership.joint {
        return Some("raft: membership change already in progress");
      }
      if newVoters == [] {
        return Some("raft: empty voter set");
      }
      if exists id :: id in newVoters + newLearners && id !in peers {
        return Some("raft: confChange target is not a known peer");
      }
      if exists id :: id in newLearners && id in newVoters {
        return Some("raft: confChange voter cannot also be a learner");
      }
      var change := ConfChange(membership.oldVoters, N.IdSet(newVoters), N.IdSet(newLearners), true);
      var ok := ProposeInternal(Conf(change));
      return if ok then None else Some("raft: append failed");
    }

    method AddKnownPeer(peer: NodeID)
      modifies this
      ensures State() == N.AddKnownPeer(old(State()), peer)
    {
      if peer in peers {
        return;
      }
      peers := peers + [peer];
      if role == Leader {
        next := next[peer := LastIndex(log.entries) + 1];
      }
    }

    method Step(m: Message) returns (error: Option<string>)
      modifies this, log
      ensures State() == N.Step(old(State()), m)
      ensures error.None? <==> (m.to == 0 || m.to == id) && m.kind != MsgUnknown
    {
      hide N.HandlePreVote, N.HandlePreVoteResp, N.HandleVote, N.HandleVoteResp, N.HandleAppend, N.HandleAppendResp;
      if m.to != 0 && m.to != id {
        return Some("raft: wrong destination");
      }
      if m.kind != MsgPreVote && m.kind != MsgPreVoteResp && m.term > term {
        BecomeFollower(m.term, 0);
      }
      match m.kind {
        case MsgPreVote => HandlePreVote(m);
        case MsgPreVoteResp => HandlePreVoteResp(m);
        case MsgVote => HandleVote(m);
        case MsgVoteResp => HandleVoteResp(m);
        case MsgAppend => HandleAppend(m);
        case MsgAppendResp => HandleAppendResp(m);
        case MsgUnknown => return Some("raft: unknown message");
      }
      return None;
    }

    method Ready() returns (hard: HardState, entries: seq<Entry>, committedEntries: seq<Entry>, messages: seq<Message>)
      ensures hard == N.Hard(State()) && entries == unstable && messages == msgs
      ensures committedEntries == N.CommittedEntries(State())
    {
      hard, entries, committedEntries, messages := HardState(term, vote, log.committed), unstable, [], msgs;
      if log.applied < log.committed {
        committedEntries := EntriesFrom(log.entries, log.applied + 1);
        if |committedEntries| > log.committed - log.applied {
          committedEntries := committedEntries[..log.committed - log.applied];
        }
      }
    }

    method Advance()
      modifies this, log
      ensures State() == N.Advance(old(State()))
    {
      unstable, msgs := [], [];
      log.applied := log.committed;
      lastHard := HardState(term, vote, log.committed);
    }
  }

  ghost function Queued(msgs: seq<Message>): set<Message> {
    set m | m in msgs
  }

  lemma QueuedPush(msgs: seq<Message>, m: Message)
    ensures Queued(msgs + [m]) == Queued(msgs) + {m}
  {
  }

  lemma AppendSingle(entries: EntryLog, e: Entry)
    ensures Append(entries, [e]) == AppendOne(entries, e)
  {
    hide AppendOne;
    assert [e][1..] == [];
    var one := AppendOne(entries, e);
    assert Append(one.log, []) == Appended(one.log, true);
  }

  method SortedDescending(cs: set<nat>) returns (sorted: seq<nat>)
    ensures forall c :: c in sorted <==> c in cs
    ensures forall i, j | 0 <= i < j < |sorted| :: sorted[i] >= sorted[j]
  {
    var list, todo := [], cs;
    while todo != {}
      invariant todo <= cs && forall c :: c in list <==> c in cs - todo
    {
      var c :| c in todo;
      list, todo := list + [c], todo - {c};
    }
    sorted := Sorting.Sort(Descending, list);
    Sorting.SortSorts(Descending, list);
    Sorting.SortElements(Descending, list);
  }

  /** The first index that can be committed, going down, is the one to commit. */
  lemma FirstIsTarget(s: N.State, sorted: seq<nat>, i: nat)
    requires forall c :: c in sorted <==> c in N.Candidates(s)
    requires forall i, j | 0 <= i < j < |sorted| :: sorted[i] >= sorted[j]
    requires i < |sorted| && N.Committable(s, sorted[i])
    requires forall j | 0 <= j < i :: !N.Committable(s, sorted[j])
    ensures N.CommitTarget(s) == Some(sorted[i])
  {
    var cs := N.CommittableCandidates(s);
    assert sorted[i] in cs;
    var h := N.Highest(cs);
    var j :| 0 <= j < |sorted| && sorted[j] == h;
  }

  lemma NoTarget(s: N.State, sorted: seq<nat>, i: nat)
    requires forall c :: c in sorted <==> c in N.Candidates(s)
    requires forall i, j | 0 <= i < j < |sorted| :: sorted[i] >= sorted[j]
    requires i <= |sorted| && (i < |sorted| ==> sorted[i] <= s.committed)
    requires forall j | 0 <= j < i :: !N.Committable(s, sorted[j])
    ensures N.CommitTarget(s) == None
  {
    forall c | c in N.Candidates(s) ensures !N.Committable(s, c) {
      var j :| 0 <= j < |sorted| && sorted[j] == c;
    }
  }
}
