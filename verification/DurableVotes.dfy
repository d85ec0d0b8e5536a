/**
 Why a node saves before it sends. A node's host sends nothing before the hard state that goes with it is on
 disk (internal/raft/host.go:157-161). So, whatever messages arrive and wherever it crashes, over all its
 restarts a node never gives two votes in one term, unless a vote of that term was erased (see
 ElectionSafety). A candidate's request counts as its vote for itself.
 */
module DurableVotes {
  import opened RaftNode
  import opened RaftRuns
  import opened RaftDisk
  import opened RecoveryRuns
  import opened Quorums
  import ER = ElectionRestriction
  import ES = ElectionSafety

  /** The message gives a vote of its term to `c`. */
  ghost predicate Gives(b: Message, c: NodeID) {
    c != 0 && ((b.kind == MsgVoteResp && !b.reject && b.to == c) || (b.kind == MsgVote && b.from == c))
  }

  /**
   What leaves the node in an event. A crash after the last write of a save may come after some of the
   messages have been sent; all of them count.
   */
  ghost function SentBy(p: Plant, e: Event): set<Message> {
    if p.Down? then {}
    else
      match e
      case Drive => if NothingToDo(p.m.node) then {} else p.m.node.msgs
      case Crash(writes) => if writes == |p.m.node.unstable| + 1 then p.m.node.msgs else {}
      case _ => {}
  }

  ghost function Sent(p: Plant, events: seq<Event>): set<Message>
    decreases |events|
  {
    if events == [] then {} else SentBy(p, events[0]) + Sent(NextEvent(p, events[0]), events[1..])
  }

  /** The terms in which a call erases or replaces a vote the node holds. */
  ghost function ErasedBy(p: Plant, e: Event): set<nat> {
    if p.Up? && e.Call? then
      var s, t := p.m.node, Act(p.m.node, e.action);
      if s.vote != 0 && t.term == s.term && t.vote != s.vote then {t.term} else {}
    else {}
  }

  ghost function Erased(p: Plant, events: seq<Event>): set<nat>
    decreases |events|
  {
    if events == [] then {} else ErasedBy(p, events[0]) + Erased(NextEvent(p, events[0]), events[1..])
  }

  /** The node is started as a new node, with whatever configuration. */
  ghost predicate StartsNew(events: seq<Event>) {
    forall e | e in events && e.Start? :: BlankFor(e.blank, e.blank.initialMembership)
  }

  // ---------- The invariant ----------

  /** A vote given is remembered: the term has passed, the vote is held, or a vote of the term was erased. */
  ghost predicate Remembered(b: Message, term: nat, vote: NodeID, erased: set<nat>) {
    forall c | Gives(b, c) :: term > b.term || (term == b.term && (vote == c || b.term in erased))
  }

  ghost predicate AllRemembered(bs: set<Message>, term: nat, vote: NodeID, erased: set<nat>) {
    forall b | b in bs :: Remembered(b, term, vote, erased)
  }

  ghost predicate OneVote(bs: set<Message>, erased: set<nat>) {
    forall a, b, c, d | a in bs && b in bs && a.term == b.term && Gives(a, c) && Gives(b, d) :: c == d || a.term in erased
  }

  ghost predicate Inv(p: Plant, sent: set<Message>, erased: set<nat>) {
    match p
    case Up(m) =>
      && AllRemembered(sent, HardOf(m.disk).term, HardOf(m.disk).vote, erased)
      && AllRemembered(sent + m.node.msgs, m.node.term, m.node.vote, erased)
      && OneVote(sent + m.node.msgs, erased)
    case Down(disk, _) =>
      && AllRemembered(sent, HardOf(disk).term, HardOf(disk).vote, erased)
      && OneVote(sent, erased)
  }

  // ---------- One call ----------

  /** A vote that a call queues is the one the node then holds, and a held vote only goes away by being erased. */
  ghost predicate VotesQueued(s: State, t: State) {
    && t.term >= s.term && ES.VoteHeld(s, t)
    && forall b, c | b in t.msgs && b !in s.msgs && Gives(b, c) :: b.term == t.term && t.vote == c
  }

  lemma ActQueues(s: State, a: Action)
    ensures VotesQueued(s, Act(s, a))
  {
    hide Act, ER.Describes, ER.AnswerOk, ER.GrantedBy;
    ER.ActTraffic(s, a);
    if a.Deliver? && ES.CountsVote(s, a.m) && s.preVote {
      CountsMixed(s, a);
    } else {
      ES.ActVotes(s, a, MessageOf(a));
    }
  }

  lemma CountsMixed(s: State, a: Action)
    requires a.Deliver? && ES.CountsVote(s, a.m)
    ensures var t := Act(s, a); t.term == s.term && t.vote == s.vote && ES.NewMessages(s, t)
  {
    hide HandleVoteResp;
    ES.BecomeLeaderKeepsVote(s, a.m);
  }

  lemma CallKeeps(sent: set<Message>, erased: set<nat>, erased': set<nat>, s: State, t: State)
    requires AllRemembered(sent + s.msgs, s.term, s.vote, erased) && OneVote(sent + s.msgs, erased)
    requires VotesQueued(s, t) && erased <= erased'
    requires s.vote != 0 && t.term == s.term && t.vote != s.vote ==> t.term in erased'
    ensures AllRemembered(sent + t.msgs, t.term, t.vote, erased') && OneVote(sent + t.msgs, erased')
  {
    forall b | b in sent + t.msgs ensures Remembered(b, t.term, t.vote, erased') {
      if b in sent + s.msgs {
        assert Remembered(b, s.term, s.vote, erased);
      }
    }
    forall a, b, c, d | a in sent + t.msgs && b in sent + t.msgs && a.term == b.term && Gives(a, c) && Gives(b, d)
      ensures c == d || a.term in erased'
    {
      if a in sent + s.msgs && b in sent + s.msgs {
      } else {
        assert Remembered(a, t.term, t.vote, erased') && Remembered(b, t.term, t.vote, erased');
      }
    }
  }

  // ---------- Every event ----------

  lemma Fewer(big: set<Message>, small: set<Message>, term: nat, vote: NodeID, erased: set<nat>)
    requires small <= big
    ensures AllRemembered(big, term, vote, erased) ==> AllRemembered(small, term, vote, erased)
    ensures OneVote(big, erased) ==> OneVote(small, erased)
  {
  }

  /** A recovered node has the term and vote on disk, and nothing queued. */
  lemma RecoveredVote(blank: State, d: Disk)
    requires BlankFor(blank, blank.initialMembership) && Recover(blank, d).Ok?
    ensures var r := Recover(blank, d).value; r.term == HardOf(d).term && r.vote == HardOf(d).vote && r.msgs == {}
  {
    hide ReplayLog, InOrder, ScanMembership;
  }

  lemma EventKeepsInv(p: Plant, e: Event, sent: set<Message>, erased: set<nat>)
    requires Inv(p, sent, erased) && StartsNew([e])
    ensures Inv(NextEvent(p, e), sent + SentBy(p, e), erased + ErasedBy(p, e))
  {
    hide Act, Recover, AllRemembered, OneVote, CommittedEntries, StoreAll;
    assert e in [e];
    match p {
      case Up(m) =>
        Fewer(sent + m.node.msgs, sent, m.node.term, m.node.vote, erased);
        assert sent + {} == sent && erased + {} == erased && sent + m.node.msgs + {} == sent + m.node.msgs;
        if e.Call? {
          CallEvent(m, e.action, sent, erased);
        }
      case Down(disk, _) =>
        assert sent + {} == sent && erased + {} == erased;
        if e.Start? && Recover(e.blank, disk).Ok? {
          RecoveredVote(e.blank, disk);
        }
    }
  }

  lemma CallEvent(m: Machine, a: Action, sent: set<Message>, erased: set<nat>)
    requires Inv(Up(m), sent, erased)
    ensures Inv(Up(m.(node := Act(m.node, a))), sent, erased + ErasedBy(Up(m), Call(a)))
  {
    hide Act, AllRemembered, OneVote;
    var erased' := erased + ErasedBy(Up(m), Call(a));
    ActQueues(m.node, a);
    CallKeeps(sent, erased, erased', m.node, Act(m.node, a));
    MoreErased(sent, HardOf(m.disk).term, HardOf(m.disk).vote, erased, erased');
  }

  lemma MoreErased(bs: set<Message>, term: nat, vote: NodeID, erased: set<nat>, erased': set<nat>)
    requires AllRemembered(bs, term, vote, erased) && erased <= erased'
    ensures AllRemembered(bs, term, vote, erased')
  {
    forall b | b in bs ensures Remembered(b, term, vote, erased') {
      assert Remembered(b, term, vote, erased);
    }
  }

  lemma {:induction false} RunKeepsInv(p: Plant, events: seq<Event>, sent: set<Message>, erased: set<nat>)
    requires Inv(p, sent, erased) && StartsNew(events)
    ensures OneVote(sent + Sent(p, events), erased + Erased(p, events))
    decreases |events|
  {
    hide NextEvent, SentBy, ErasedBy, AllRemembered, OneVote;
    if events == [] {
      assert sent + {} == sent && erased + {} == erased;
      if p.Up? {
        Fewer(sent + p.m.node.msgs, sent, 0, 0, erased);
      }
    } else {
      var e, p' := events[0], NextEvent(p, events[0]);
      EventKeepsInv(p, e, sent, erased);
      RunKeepsInv(p', events[1..], sent + SentBy(p, e), erased + ErasedBy(p, e));
      assert sent + SentBy(p, e) + Sent(p', events[1..]) == sent + (SentBy(p, e) + Sent(p', events[1..]));
      assert erased + ErasedBy(p, e) + Erased(p', events[1..]) == erased + (ErasedBy(p, e) + Erased(p', events[1..]));
    }
  }

  /**
   A new node never gives its vote of one term to two candidates, over any run of calls, cycles, crashes and
   starts, unless a vote of that term was erased.
   */
  lemma OneVoteAcrossRestarts(
    start: State, events: seq<Event>, a: Message, b: Message, c: NodeID, d: NodeID)
    requires BlankFor(start, start.initialMembership) && StartsNew(events)
    requires var p := Up(Machine(start, BLANK, start)); a in Sent(p, events) && b in Sent(p, events)
    requires a.term == b.term && Gives(a, c) && Gives(b, d)
    ensures c == d || a.term in Erased(Up(Machine(start, BLANK, start)), events)
  {
    hide Sent, Erased;
    var p := Up(Machine(start, BLANK, start));
    RunKeepsInv(p, events, {}, {});
    assert {} + Sent(p, events) == Sent(p, events) && {} + Erased(p, events) == Erased(p, events);
  }
}
