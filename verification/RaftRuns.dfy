/**
 Runs of a whole group. The network is the set of every message sent so far, so a message can be
 delayed, lost, repeated or reordered freely. Nodes do not restart here (see RecoveryRuns for that).
 */
module RaftRuns {
  import opened ByteStrings
  import opened Quorums
  import opened RaftLog
  import opened RaftNode
  import opened RaftSteps

  datatype Cluster = Cluster(nodes: map<NodeID, State>, net: set<Message>)

  datatype Action =
    | TickAt(at: NodeID)
    | ProposeAt(at: NodeID, command: Bytes)
    | ChangeAt(at: NodeID, newVoters: seq<NodeID>, newLearners: seq<NodeID>)
    | PeerAt(at: NodeID, peer: NodeID)
    | Deliver(m: Message)
    | Emit(at: NodeID)         // the host sends what is queued
    | AdvanceAt(at: NodeID)    // the host marks its work as done

  datatype Ballot = Ballot(voter: NodeID, term: nat, candidate: NodeID)

  /**
   A group and what happened to it: who has led which term, the longest log each term's leader has had,
   every vote held, and the terms in which a node's vote was erased without the term moving on.
   */
  datatype Run = Run(
    c: Cluster,
    leaders: set<(nat, NodeID)>,
    led: map<nat, seq<Entry>>,
    ballots: set<Ballot>,
    erased: set<(NodeID, nat)>)

  function Target(a: Action): NodeID {
    match a
    case Deliver(m) => m.to
    case _ => a.at
  }

  /** The message an action delivers, and otherwise one of no kind. */
  function MessageOf(a: Action): Message {
    if a.Deliver? then a.m else Message(MsgUnknown, 0, 0, 0, 0, 0, 0, false, [])
  }

  predicate Enabled(c: Cluster, a: Action) {
    Target(a) in c.nodes && (a.Deliver? ==> a.m in c.net)
  }

  function Act(s: State, a: Action): State {
    match a
    case TickAt(_) => Tick(s)
    case ProposeAt(_, command) => Propose(s, Command(command))
    case ChangeAt(_, newVoters, newLearners) => ProposeConfChange(s, newVoters, newLearners)
    case PeerAt(_, peer) => AddKnownPeer(s, peer)
    case Deliver(m) => Step(s, m)
    case Emit(_) => s
    case AdvanceAt(_) => Advance(s)
  }

  function Next(r: Run, a: Action): Run {
    if !Enabled(r.c, a) then r
    else
      var i := Target(a);
      var s := r.c.nodes[i];
      Record(r, i, Act(s, a), if a.Emit? then r.c.net + s.msgs else r.c.net)
  }

  /** The run after node `i` has become `t` and the network holds `net`. */
  function Record(r: Run, i: NodeID, t: State, net: set<Message>): Run
    requires i in r.c.nodes
  {
    var s := r.c.nodes[i];
    Run(
      Cluster(r.c.nodes[i := t], net),
      if t.role == Leader then r.leaders + {(t.term, i)} else r.leaders,
      if t.role == Leader then r.led[t.term := t.log] else r.led,
      if t.vote != 0 then r.ballots + {Ballot(i, t.term, t.vote)} else r.ballots,
      if s.vote != 0 && t.term == s.term && t.vote != s.vote then r.erased + {(i, t.term)} else r.erased)
  }

  function Exec(r: Run, actions: seq<Action>): Run
    decreases |actions|
  {
    if actions == [] then r else Exec(Next(r, actions[0]), actions[1..])
  }

  /** Nodes that have just been created, sharing one starting membership, and an empty network. */
  ghost predicate Initial(r: Run, m: Membership) {
    && r == Run(Cluster(r.c.nodes, {}), {}, map[], {}, {})
    && forall i | i in r.c.nodes ::
         var s := r.c.nodes[i];
         i != 0 && s == NewState(i, s.peers, m, s.electionTick, s.heartbeatTick)
  }

  ghost predicate Reachable(r: Run, m: Membership) {
    exists start, actions :: Initial(start, m) && Exec(start, actions) == r
  }

  /** No term has had two leaders. */
  ghost predicate OneLeaderPerTerm(r: Run) {
    forall a, b | a in r.leaders && b in r.leaders && a.0 == b.0 :: a.1 == b.1
  }

  /** A message that is queued somewhere or has been sent. */
  ghost predicate InFlight(c: Cluster, m: Message) {
    m in c.net || exists i :: i in c.nodes && m in c.nodes[i].msgs
  }

  lemma LeadersGrow(r: Run, a: Action)
    ensures r.leaders <= Next(r, a).leaders
  {
  }

  lemma {:induction false} LeadersGrowAlong(r: Run, actions: seq<Action>)
    ensures r.leaders <= Exec(r, actions).leaders
    decreases |actions|
  {
    if actions != [] {
      LeadersGrow(r, actions[0]);
      LeadersGrowAlong(Next(r, actions[0]), actions[1..]);
    }
  }

  /** What is in flight after a step was in flight before or was queued by it. */
  lemma InFlightAfter(r: Run, a: Action, m: Message)
    requires Enabled(r.c, a) && InFlight(Next(r, a).c, m)
    ensures InFlight(r.c, m) || m in Act(r.c.nodes[Target(a)], a).msgs
  {
    var i := Target(a);
    var c' := Next(r, a).c;
    if m !in c'.net {
      var j :| j in c'.nodes && m in c'.nodes[j].msgs;
      assert j != i ==> j in r.c.nodes && m in r.c.nodes[j].msgs;
    } else if m !in r.c.net {
      assert m in r.c.nodes[i].msgs;
    }
  }

  /** Whatever a node is asked to do, it takes one of the steps of RaftSteps. */
  lemma ActSteps(s: State, a: Action)
    requires NoPreVoteWhileLeading(s) && (a.Deliver? ==> a.m.from != s.id)
    ensures if a.Deliver? then LogStep(s, Act(s, a), a.m) else LocalStep(s, Act(s, a))
  {
    hide LocalStep, LogStep, Step, Tick, Propose, ProposeConfChange;
    match a
    case TickAt(_) => TickStep(s);
    case ProposeAt(_, command) => ProposeStep(s, Command(command));
    case ChangeAt(_, v, l) => ConfChangeStep(s, v, l);
    case PeerAt(_, peer) => PeerStep(s, peer);
    case Deliver(m) => StepIsLogStep(s, m);
    case Emit(_) => EmitStep(s);
    case AdvanceAt(_) => AdvanceStep(s);
  }

  lemma {:induction false} ExecAppend(r: Run, actions: seq<Action>, a: Action)
    ensures Exec(r, actions + [a]) == Next(Exec(r, actions), a)
    decreases |actions|
  {
    hide Next;
    if actions == [] {
      assert [a][1..] == [];
      assert Exec(Next(r, a), []) == Next(r, a);
    } else {
      assert (actions + [a])[1..] == actions[1..] + [a];
      ExecAppend(Next(r, actions[0]), actions[1..], a);
    }
  }

  lemma ReachableNext(r: Run, m: Membership, a: Action)
    requires Reachable(r, m)
    ensures Reachable(Next(r, a), m)
  {
    hide Next;
    var start, actions :| Initial(start, m) && Exec(start, actions) == r;
    ExecAppend(start, actions, a);
  }
}
