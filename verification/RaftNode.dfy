/**
 One Raft replica as a value: what each call does to it, as functions. The class in RaftReplica is
 proved equal to these functions; the properties of whole runs are proved about them.
 */
module RaftNode {
  import opened Wrappers
  import opened Quorums
  import opened RaftLog

  datatype Role = Follower | Candidate | Leader

  datatype Kind = MsgPreVote | MsgPreVoteResp | MsgVote | MsgVoteResp | MsgAppend | MsgAppendResp | MsgUnknown

  datatype Message = Message(
    kind: Kind, from: NodeID, to: NodeID,
    term: nat, index: nat, logTerm: nat, commit: nat,
    reject: bool, entries: seq<Entry>)

  datatype HardState = HardState(term: nat, vote: nat, commit: nat)

  /** An unsigned 64-bit zero minus one. */
  const MAX_UINT64 := 0xFFFF_FFFF_FFFF_FFFF

  datatype State = State(
    id: NodeID,
    peers: seq<NodeID>,
    initialMembership: Membership,
    membership: Membership,          // the cached membership in effect
    membershipIndex: nat,            // the log index it came from
    role: Role,
    term: nat,
    vote: NodeID,
    leader: NodeID,
    log: EntryLog,
    committed: nat,
    applied: nat,
    electionElapsed: int,
    heartbeatElapsed: int,
    electionTick: int,
    heartbeatTick: int,
    votes: Option<set<NodeID>>,      // None is Go's nil map
    preVote: bool,
    next: map<NodeID, nat>,
    matched: map<NodeID, nat>,
    msgs: set<Message>,              // queued messages; their order never matters
    unstable: seq<Entry>,
    lastHard: HardState)

  // ---------- Membership ----------

  /** The voters a config entry puts into effect. */
  function MembershipOf(c: ConfChange): Membership {
    if c.joint then Membership(c.oldVoters, c.newVoters, true) else Membership(c.newVoters, {}, false)
  }

  /** The membership that scanning the whole log gives. */
  function ScanMembership(initial: Membership, log: seq<Entry>): (Membership, nat) {
    if log == [] then (initial, 0)
    else
      var last := log[|log| - 1];
      if last.data.Conf? then (MembershipOf(last.data.change), last.index)
      else ScanMembership(initial, log[..|log| - 1])
  }

  function Recompute(s: State): State {
    var (membership, index) := ScanMembership(s.initialMembership, s.log);
    s.(membership := membership, membershipIndex := index)
  }

  predicate IsVoter(s: State, id: NodeID) {
    id in s.membership.Voters()
  }

  // ---------- Sending ----------

  function Send(s: State, m: Message): State {
    s.(msgs := s.msgs + {m.(from := s.id)})
  }

  function Reply(s: State, kind: Kind, to: NodeID, index: nat, reject: bool): State {
    Send(s, Message(kind, 0, to, s.term, index, 0, 0, reject, []))
  }

  /** What is sent to `to`: the entries after the last one it is thought to have. */
  function AppendMessage(s: State, to: NodeID): Message {
    var next := if to in s.next then s.next[to] else 0;
    var prev := if next == 0 then MAX_UINT64 else next - 1;
    Message(MsgAppend, s.id, to, s.term, prev, TermOrZero(s.log, prev), s.committed, false, EntriesFrom(s.log, next))
  }

  function SendAppend(s: State, to: NodeID): State {
    s.(msgs := s.msgs + {AppendMessage(s, to)})
  }

  function AppendMessages(s: State, peers: seq<NodeID>): set<Message> {
    set p | p in peers && p != s.id :: AppendMessage(s, p)
  }

  lemma AppendMessagesPush(s: State, peers: seq<NodeID>, p: NodeID)
    ensures AppendMessages(s, peers + [p]) == AppendMessages(s, peers) + if p == s.id then {} else {AppendMessage(s, p)}
  {
  }

  lemma AppendMessagesEmpty(s: State)
    ensures AppendMessages(s, []) == {}
  {
  }

  /** What is already queued does not change what is sent. */
  lemma AppendMessageSame(s: State, t: State, p: NodeID)
    requires t == s.(msgs := t.msgs)
    ensures AppendMessage(t, p) == AppendMessage(s, p)
  {
  }

  function BroadcastAppend(s: State): State {
    s.(msgs := s.msgs + AppendMessages(s, s.peers))
  }

  /** The same request to every other node of `voters`. */
  function Requests(s: State, voters: set<NodeID>, kind: Kind, term: nat): set<Message> {
    var last := LastIndex(s.log);
    var lastTerm := TermOrZero(s.log, last);
    set p | p in voters && p != s.id :: Message(kind, s.id, p, term, last, lastTerm, 0, false, [])
  }

  function AskVoters(s: State, kind: Kind, term: nat): State {
    s.(msgs := s.msgs + Requests(s, s.membership.Voters(), kind, term))
  }

  // ---------- Roles ----------

  function BecomeFollower(s: State, term: nat, leader: NodeID): State {
    s.(role := Follower, term := term, vote := 0, leader := leader, votes := None, preVote := false, electionElapsed := 0)
  }

  function ProposeInternal(s: State, data: Data): State {
    var e := Entry(LastIndex(s.log) + 1, s.term, data);
    var added := AppendOne(s.log, e);
    if !added.ok then s.(log := added.log)
    else
      var s1 := s.(log := added.log);
      var s2 := if data.Conf? then Recompute(s1) else s1;
      var s3 := s2.(unstable := s2.unstable + [e], matched := s2.matched[s.id := LastIndex(s2.log)]);
      BroadcastAppend(s3)
  }

  function StartLeading(s: State): State {
    var last := LastIndex(s.log);
    s.(role := Leader, leader := s.id, preVote := false,
       next := map p | p in s.peers :: last + 1,
       matched := map[s.id := last])
  }

  function BecomeLeader(s: State): State {
    var s1 := StartLeading(s);
    if s1.membership.joint then ProposeInternal(s1, JointLeaderNoop) else BroadcastAppend(s1)
  }

  function StartPreVote(s: State): State {
    AskVoters(s.(votes := Some({s.id}), preVote := true), MsgPreVote, s.term + 1)
  }

  function StartElection(s: State): State {
    AskVoters(
      s.(preVote := false, role := Candidate, term := s.term + 1, vote := s.id, votes := Some({s.id})),
      MsgVote, s.term + 1)
  }

  predicate LogUpToDate(s: State, lastIndex: nat, lastTerm: nat) {
    var index := LastIndex(s.log);
    var term := TermOrZero(s.log, index);
    lastTerm > term || (lastTerm == term && lastIndex >= index)
  }

  // ---------- Message handlers ----------

  function HandlePreVote(s: State, m: Message): State {
    if !IsVoter(s, s.id) then Reply(s, MsgPreVoteResp, m.from, 0, true)
    else
      var ok := m.term >= s.term + 1 && LogUpToDate(s, m.index, m.logTerm);
      Reply(s, MsgPreVoteResp, m.from, 0, !ok)
  }

  function HandlePreVoteResp(s: State, m: Message): State {
    if m.reject || m.term > s.term then s
    else if !s.preVote || s.votes.None? then s
    else
      var votes := s.votes.value + {m.from};
      var s1 := s.(votes := Some(votes));
      if s1.membership.HasQuorum(votes) then StartElection(s1) else s1
  }

  predicate GrantsVote(s: State, m: Message) {
    IsVoter(s, s.id) && (s.vote == 0 || s.vote == m.from) && LogUpToDate(s, m.index, m.logTerm)
  }

  function HandleVote(s: State, m: Message): State {
    if !IsVoter(s, s.id) then Reply(s, MsgVoteResp, m.from, 0, true)
    else if GrantsVote(s, m) then
      Reply(s.(vote := m.from, electionElapsed := 0), MsgVoteResp, m.from, 0, false)
    else Reply(s, MsgVoteResp, m.from, 0, true)
  }

  function HandleVoteResp(s: State, m: Message): State {
    if s.role != Candidate || m.term != s.term || m.reject || s.votes.None? then s
    else
      var votes := s.votes.value + {m.from};
      var s1 := s.(votes := Some(votes));
      if s1.membership.HasQuorum(votes) then BecomeLeader(s1) else s1
  }

  /** The leader's batch fits onto this log: the entry before it is present with the same term. */
  predicate Fits(s: State, m: Message) {
    Term(s.log, m.index) == Some(m.logTerm)
  }

  function HandleAppend(s: State, m: Message): State {
    if m.term < s.term then Reply(s, MsgAppendResp, m.from, LastIndex(s.log), true)
    else
      var s1 := BecomeFollower(s, m.term, m.from);
      if !Fits(s1, m) then Reply(s1, MsgAppendResp, m.from, LastIndex(s1.log), true)
      else
        var added := Append(s1.log, m.entries);
        var s2 := s1.(log := added.log);
        if !added.ok then s2
        else
          var s3 := if m.entries == [] then s2 else Recompute(s2).(unstable := s2.unstable + m.entries);
          var s4 := if m.commit > s3.committed then s3.(committed := Min(m.commit, LastIndex(s3.log))) else s3;
          Reply(s4, MsgAppendResp, m.from, LastIndex(s4.log), false)
  }

  /** What an acknowledgement of index `c` by node `p` records. */
  function Recorded(s: State, p: NodeID, c: nat): State {
    s.(matched := s.matched[p := c], next := s.next[p := c + 1])
  }

  function HandleAppendResp(s: State, m: Message): State {
    if s.role != Leader || m.term != s.term then s
    else if m.reject then
      var next := if m.from in s.next then s.next[m.from] else 0;
      var s1 := if next > 1 then s.(next := s.next[m.from := next - 1]) else s;
      SendAppend(s1, m.from)
    else
      var s1 := AdvanceCommit(Recorded(s, m.from, m.index));
      if s1.next[m.from] <= LastIndex(s1.log) then SendAppend(s1, m.from) else s1
  }

  // ---------- Committing ----------

  /** The nodes known to hold the log up to index `c`. */
  function Acked(s: State, c: nat): set<NodeID> {
    set p | p in s.matched && s.matched[p] >= c
  }

  predicate Committable(s: State, c: nat) {
    c > s.committed && TermOrZero(s.log, c) == s.term && s.membership.HasQuorum(Acked(s, c))
  }

  /** The only indexes the leader tries. */
  function Candidates(s: State): set<nat> {
    s.matched.Values + {LastIndex(s.log)}
  }

  function Highest(cs: set<nat>): (c: nat)
    requires cs != {}
    ensures c in cs && forall d | d in cs :: d <= c
  {
    HighestExists(cs);
    var c :| c in cs && forall d | d in cs :: d <= c;
    c
  }

  lemma HighestExists(cs: set<nat>)
    requires cs != {}
    ensures exists c :: c in cs && forall d | d in cs :: d <= c
  {
    var c :| c in cs;
    if cs != {c} {
      assert cs - {c} != {};
      HighestExists(cs - {c});
      var d :| d in cs - {c} && forall e | e in cs - {c} :: e <= d;
      var h := if d > c then d else c;
      forall e | e in cs ensures e <= h {
        assert e == c || e in cs - {c};
      }
    }
  }

  function CommittableCandidates(s: State): set<nat> {
    set c | c in Candidates(s) && Committable(s, c)
  }

  function CommitTarget(s: State): Option<nat> {
    var cs := CommittableCandidates(s);
    if cs == {} then None else Some(Highest(cs))
  }

  function AdvanceCommit(s: State): (r: State)
    ensures s.next.Keys <= r.next.Keys
  {
    match CommitTarget(s)
    case None => s
    case Some(c) => LeaveJointOrStepDown(BroadcastAppend(s.(committed := c)))
  }

  function LeaveJointOrStepDown(s: State): State {
    if s.role != Leader then s
    else if s.membership.joint && s.committed >= s.membershipIndex then ProposeLeaveJoint(s)
    else if !s.membership.joint && !IsVoter(s, s.id) then BecomeFollower(s, s.term, 0)
    else s
  }

  // ---------- Config changes ----------

  function ProposeLeaveJoint(s: State): State {
    ProposeInternal(s, Conf(ConfChange({}, s.membership.newVoters, {}, false)))
  }

  function IdSet(ids: seq<NodeID>): set<NodeID> {
    set id | id in ids
  }

  function ConfChangeError(s: State, newVoters: seq<NodeID>, newLearners: seq<NodeID>): Option<string> {
    if s.role != Leader then Some("raft: confChange proposal to non-leader")
    else if s.membership.joint then Some("raft: membership change already in progress")
    else if newVoters == [] then Some("raft: empty voter set")
    else if exists id :: id in newVoters + newLearners && id !in s.peers then
      Some("raft: confChange target is not a known peer")
    else if exists id :: id in newLearners && id in newVoters then
      Some("raft: confChange voter cannot also be a learner")
    else None
  }

  function ProposeConfChange(s: State, newVoters: seq<NodeID>, newLearners: seq<NodeID>): State {
    if ConfChangeError(s, newVoters, newLearners).Some? then s
    else
      ProposeInternal(s, Conf(ConfChange(s.membership.oldVoters, IdSet(newVoters), IdSet(newLearners), true)))
  }

  function AddKnownPeer(s: State, id: NodeID): State {
    if id in s.peers then s
    else
      var s1 := s.(peers := s.peers + [id]);
      if s1.role == Leader then s1.(next := s1.next[id := LastIndex(s1.log) + 1]) else s1
  }

  // ---------- The node's calls ----------

  /** A new follower with an empty log. */
  function NewState(id: NodeID, peers: seq<NodeID>, initial: Membership, electionTick: int, heartbeatTick: int): State {
    State(id, peers, initial, initial, 0, Follower, 0, 0, 0, [PLACEHOLDER], 0, 0, 0, 0, electionTick, heartbeatTick,
          None, false, map[], map[], {}, [], HardState(0, 0, 0))
  }

  function Tick(s: State): State {
    var s1 := s.(electionElapsed := s.electionElapsed + 1);
    var s2 :=
      if s1.role != Leader then s1
      else if s1.heartbeatElapsed + 1 >= s1.heartbeatTick then BroadcastAppend(s1.(heartbeatElapsed := 0))
      else s1.(heartbeatElapsed := s1.heartbeatElapsed + 1);
    if s2.electionElapsed >= s2.electionTick && s2.role != Leader && IsVoter(s2, s2.id)
    then StartPreVote(s2.(electionElapsed := 0))
    else s2
  }

  function Propose(s: State, data: Data): State {
    if s.role != Leader then s else ProposeInternal(s, data)
  }

  /** The term a message carries is adopted, unless it belongs to the pre-vote exchange. */
  function AdoptTerm(s: State, m: Message): State {
    if m.kind != MsgPreVote && m.kind != MsgPreVoteResp && m.term > s.term then BecomeFollower(s, m.term, 0) else s
  }

  function Handle(s: State, m: Message): State {
    match m.kind
    case MsgPreVote => HandlePreVote(s, m)
    case MsgPreVoteResp => HandlePreVoteResp(s, m)
    case MsgVote => HandleVote(s, m)
    case MsgVoteResp => HandleVoteResp(s, m)
    case MsgAppend => HandleAppend(s, m)
    case MsgAppendResp => HandleAppendResp(s, m)
    case MsgUnknown => s
  }

  function Step(s: State, m: Message): State {
    if m.to != 0 && m.to != s.id then s else Handle(AdoptTerm(s, m), m)
  }

  /** The committed entries not handed out yet. */
  function CommittedEntries(s: State): seq<Entry> {
    if s.applied < s.committed then
      var es := EntriesFrom(s.log, s.applied + 1);
      if |es| > s.committed - s.applied then es[..s.committed - s.applied] else es
    else []
  }

  function Hard(s: State): HardState {
    HardState(s.term, s.vote, s.committed)
  }

  function Advance(s: State): State {
    s.(unstable := [], msgs := {}, applied := s.committed, lastHard := Hard(s))
  }
}
