/**
 Log Matching (section 5.3 of "In Search of an Understandable Consensus Algorithm (Extended Version)"):
 two logs that hold an entry of the same index and term are identical up to it. It holds in every run
 in which no term has two leaders, however the membership changes.
 */
module LogMatching {
  import opened Wrappers
  import opened Quorums
  import opened RaftLog
  import opened RaftNode
  import opened RaftSteps
  import opened RaftRuns

  // ---------- What relates logs to leaders ----------

  /** Every entry of `L` was written by the leader of its term, after the same entries as in that leader's log. */
  ghost predicate Justified(L: seq<Entry>, led: map<nat, seq<Entry>>) {
    forall k | 0 < k < |L| ::
      L[k].term in led && k < |led[L[k].term]| && L[..k + 1] == led[L[k].term][..k + 1]
  }

  /** Terms are positive, never fall along the log, and do not exceed `term`. */
  ghost predicate Ordered(L: seq<Entry>, term: nat) {
    && (forall k | 0 < k < |L| :: 0 < L[k].term <= term)
    && (forall j, k | 0 <= j <= k < |L| :: L[j].term <= L[k].term)
  }

  /** Leader logs only grow. */
  ghost predicate Grows(led: map<nat, seq<Entry>>, led': map<nat, seq<Entry>>) {
    forall t | t in led :: t in led' && led[t] <= led'[t]
  }

  lemma JustifiedGrows(L: seq<Entry>, led: map<nat, seq<Entry>>, led': map<nat, seq<Entry>>)
    requires Justified(L, led) && Grows(led, led')
    ensures Justified(L, led')
  {
    forall k | 0 < k < |L|
      ensures L[k].term in led' && k < |led'[L[k].term]| && L[..k + 1] == led'[L[k].term][..k + 1]
    {
      var t := L[k].term;
      assert led'[t][..k + 1] == led[t][..k + 1];
    }
  }

  lemma JustifiedPrefix(L: seq<Entry>, n: nat, led: map<nat, seq<Entry>>)
    requires Justified(L, led) && n <= |L|
    ensures Justified(L[..n], led)
  {
    forall k | 0 < k < n ensures L[..n][..k + 1] == led[L[k].term][..k + 1] {
      assert L[..n][..k + 1] == L[..k + 1];
    }
  }

  /** Justified logs that agree on a term at a position agree up to it. */
  lemma SameTermSamePrefix(L: EntryLog, M: EntryLog, k: nat, led: map<nat, seq<Entry>>)
    requires Justified(L, led) && Justified(M, led)
    requires k < |L| && k < |M| && L[k].term == M[k].term
    ensures L[..k + 1] == M[..k + 1]
  {
    if k == 0 {
      assert L[..1] == [L[0]] && M[..1] == [M[0]];
    }
  }

  // ---------- Receiving a batch ----------

  /** A batch taken from `G` that fits onto `L` leaves `L` unchanged or makes it a prefix of `G`. */
  lemma ReceiveTaken(L: EntryLog, G: EntryLog, m: Message, led: map<nat, seq<Entry>>, term: nat)
    requires Justified(L, led) && Justified(G, led) && Ordered(L, term)
    requires TakenFrom(m, G) && Term(L, m.index) == Some(m.logTerm)
    ensures var added := Append(L, m.entries);
            && (added.log == L || added.log <= G)
            && (added.ok ==> AgreeUpTo(added.log, G, m.index + 1 + |m.entries|))
  {
    hide Append, AppendOne, Shared, Merge;
    if m.entries != [] && m.entries[0].index == 0 {
      AppendRefused(L, m.entries);
    } else {
      assert m.index < |G| && G[m.index].term == m.logTerm;
      SameTermSamePrefix(L, G, m.index, led);
      ReceiveBatch(L, G, m.index + 1, m.entries, led);
    }
  }

  lemma AppendRefused(L: EntryLog, batch: seq<Entry>)
    requires batch != [] && batch[0].index == 0
    ensures Append(L, batch) == Appended(L, false)
  {
  }

  ghost predicate SliceOf(batch: seq<Entry>, G: seq<Entry>, first: nat) {
    first + |batch| <= |G| && batch == G[first..first + |batch|]
  }

  ghost predicate AgreeUpTo(L: seq<Entry>, G: seq<Entry>, n: nat) {
    n <= |L| && n <= |G| && L[..n] == G[..n]
  }

  lemma ReceiveBatch(L: EntryLog, G: EntryLog, first: nat, batch: seq<Entry>, led: map<nat, seq<Entry>>)
    requires Justified(L, led) && Justified(G, led)
    requires first > 0 && SliceOf(batch, G, first) && AgreeUpTo(L, G, first)
    ensures var added := Append(L, batch);
            added.ok && (added.log == L || added.log <= G) && AgreeUpTo(added.log, G, first + |batch|)
  {
    hide Append, AppendOne, Merge, Shared, Has, Justified, Contiguous, Consecutive, SliceOf, AgreeUpTo;
    SliceConsecutive(batch, G, first);
    AgreeBound(L, G, first);
    AppendIsMerge(L, batch, first);
    MergeShape(L, batch, first);
    AgreeOnShared(L, G, first, batch, led);
    Splice(L, G, first, Shared(L, batch), batch);
  }

  lemma AgreeBound(L: seq<Entry>, G: seq<Entry>, n: nat)
    requires AgreeUpTo(L, G, n)
    ensures n <= |L|
  {
  }

  lemma SliceConsecutive(batch: seq<Entry>, G: EntryLog, first: nat)
    requires SliceOf(batch, G, first)
    ensures Consecutive(batch, first)
  {
  }

  lemma AgreeOnShared(L: EntryLog, G: EntryLog, first: nat, batch: seq<Entry>, led: map<nat, seq<Entry>>)
    requires Justified(L, led) && Justified(G, led)
    requires first > 0 && SliceOf(batch, G, first) && AgreeUpTo(L, G, first) && Consecutive(batch, first)
    ensures AgreeUpTo(L, G, first + Shared(L, batch))
  {
    var d := Shared(L, batch);
    SharedWithin(L, batch, first);
    if d > 0 {
      assert Has(L, batch[d - 1]);
      assert batch[d - 1] == G[first + d - 1];
      hide Justified, Consecutive, AgreeUpTo;
      SameTermSamePrefix(L, G, first + d - 1, led);
      AgreeFrom(L, G, first + d);
    }
  }

  lemma AgreeFrom(L: seq<Entry>, G: seq<Entry>, n: nat)
    requires n <= |L| && n <= |G| && L[..n] == G[..n]
    ensures AgreeUpTo(L, G, n)
  {
  }

  lemma Splice(L: seq<Entry>, G: seq<Entry>, first: nat, d: nat, batch: seq<Entry>)
    requires d <= |batch| && SliceOf(batch, G, first) && AgreeUpTo(L, G, first + d)
    ensures first + d <= |L|
    ensures var merged := if d == |batch| then L else L[..first + d] + batch[d..];
            (merged == L || merged <= G) && AgreeUpTo(merged, G, first + |batch|)
  {
    if d < |batch| {
      assert L[..first + d] + batch[d..] == G[..first + |batch|];
    }
  }

  // ---------- The invariant ----------

  ghost predicate NodeOk(r: Run, i: NodeID)
    requires i in r.c.nodes
  {
    var s := r.c.nodes[i];
    && s.id == i
    && (s.role != Follower ==> s.term > 0)
    && (s.role == Candidate ==> (s.term, i) !in r.leaders)
    && (s.role == Leader ==> (s.term, i) in r.leaders && s.term in r.led && r.led[s.term] == s.log)
    && NoPreVoteWhileLeading(s)
    && Ordered(s.log, s.term)
    && Justified(s.log, r.led)
  }

  ghost predicate LeaderLogOk(r: Run, t: nat)
    requires t in r.led
  {
    t > 0 && Contiguous(r.led[t]) && Ordered(r.led[t], t) && Justified(r.led[t], r.led)
  }

  ghost predicate MessageOk(r: Run, m: Message) {
    && m.from != m.to
    && (m.kind == MsgAppend ==> (m.term, m.from) in r.leaders && m.term in r.led && TakenFrom(m, r.led[m.term]))
  }

  ghost predicate Inv(r: Run) {
    && (forall i | i in r.c.nodes :: NodeOk(r, i))
    && (forall t | t in r.led :: LeaderLogOk(r, t))
    && (forall l | l in r.leaders :: l.0 in r.led && l.1 in r.c.nodes && l.0 <= r.c.nodes[l.1].term)
    && (forall t | t in r.led :: exists i :: (t, i) in r.leaders)
    && (forall m | InFlight(r.c, m) :: MessageOk(r, m))
  }

  /** What a step of node `i` from `s` to `t` does to the run's records. */
  lemma RecordsGrow(r: Run, i: NodeID, t: State, net: set<Message>, m: Message)
    requires Inv(r) && i in r.c.nodes && LogStep(r.c.nodes[i], t, m)
    requires OneLeaderPerTerm(Record(r, i, t, net))
    ensures var r' := Record(r, i, t, net);
            && Grows(r.led, r'.led)
            && (t.role == Leader ==>
                  && t.term == r.c.nodes[i].term
                  && (t.term in r.led ==> r.led[t.term] == r.c.nodes[i].log)
                  && r.c.nodes[i].log <= t.log)
  {
    hide TakenFrom, SendsWell, Justified, Ordered, LeaderLogOk, MessageOk, Contiguous, NoPreVoteWhileLeading;
    assert NodeOk(r, i);
    if t.role == Leader {
      assert (t.term, i) in Record(r, i, t, net).leaders;
    }
  }

  lemma ReceivedLogOk(r: Run, s: State, t: State, m: Message)
    requires Received(s, t, m) && Ordered(s.log, s.term) && Justified(s.log, r.led)
    requires m.term in r.led && LeaderLogOk(r, m.term) && TakenFrom(m, r.led[m.term])
    ensures Ordered(t.log, t.term) && Justified(t.log, r.led)
  {
    hide Append, TakenFrom, Contiguous;
    var G := r.led[m.term];
    ReceiveTaken(s.log, G, m, r.led, s.term);
    if t.log != s.log {
      assert t.log == G[..|t.log|];
      JustifiedPrefix(G, |t.log|, r.led);
    }
  }

  /** The log after the step is ordered and justified by the records after the step. */
  lemma NewLogOk(r: Run, i: NodeID, t: State, net: set<Message>, m: Message)
    requires Inv(r) && i in r.c.nodes && LogStep(r.c.nodes[i], t, m)
    requires m.kind == MsgAppend ==> MessageOk(r, m)
    requires OneLeaderPerTerm(Record(r, i, t, net))
    ensures Ordered(t.log, t.term) && Justified(t.log, Record(r, i, t, net).led)
  {
    hide Justified, Ordered, TakenFrom, Append, SendsWell, OneLeaderPerTerm, Grows;
    var s := r.c.nodes[i];
    var led' := Record(r, i, t, net).led;
    assert NodeOk(r, i);
    RecordsGrow(r, i, t, net, m);
    JustifiedGrows(s.log, r.led, led');
    if t.log == s.log {
      OrderedLater(s.log, s.term, t.term);
    } else if t.role == Leader {
      OrderedLater(s.log, s.term, t.term);
      PushedLogOk(s.log, t.log, t.term, led');
    } else {
      assert LeaderLogOk(r, m.term);
      ReceivedLogOk(r, s, t, m);
      JustifiedGrows(t.log, r.led, led');
    }
  }

  lemma OrderedLater(L: seq<Entry>, term: nat, later: nat)
    requires Ordered(L, term) && term <= later
    ensures Ordered(L, later)
  {
  }

  lemma PushedLogOk(L: seq<Entry>, M: seq<Entry>, term: nat, led: map<nat, seq<Entry>>)
    requires term > 0 && Ordered(L, term) && Justified(L, led)
    requires |M| == |L| + 1 && M[..|L|] == L && M[|L|].term == term
    requires L != [] && L[0].term == 0
    requires term in led && led[term] == M
    ensures Ordered(M, term) && Justified(M, led)
  {
    forall k | 0 < k < |M| ensures M[k].term in led && k < |led[M[k].term]| && M[..k + 1] == led[M[k].term][..k + 1] {
      if k < |L| {
        assert M[k] == L[k] && M[..k + 1] == L[..k + 1];
      }
    }
    forall k | 0 <= k < |L| ensures M[k] == L[k] {
      assert M[..|L|][k] == M[k];
    }
  }

  // ---------- Every step keeps it ----------

  lemma NodesKept(r: Run, i: NodeID, t: State, net: set<Message>, m: Message, j: NodeID)
    requires Inv(r) && i in r.c.nodes && LogStep(r.c.nodes[i], t, m)
    requires m.kind == MsgAppend ==> MessageOk(r, m)
    requires OneLeaderPerTerm(Record(r, i, t, net))
    requires j in r.c.nodes
    ensures NodeOk(Record(r, i, t, net), j)
  {
    hide TakenFrom, SendsWell, Justified, Ordered, LeaderLogOk, MessageOk, Contiguous, Grows, Received;
    var r' := Record(r, i, t, net);
    var s := r.c.nodes[j];
    assert NodeOk(r, j) && NodeOk(r, i);
    RecordsGrow(r, i, t, net, m);
    NewLogOk(r, i, t, net, m);
    if j != i {
      JustifiedGrows(s.log, r.led, r'.led);
    }
  }

  lemma LeaderLogsKept(r: Run, i: NodeID, t: State, net: set<Message>, m: Message, term: nat)
    requires Inv(r) && i in r.c.nodes && LogStep(r.c.nodes[i], t, m)
    requires m.kind == MsgAppend ==> MessageOk(r, m)
    requires OneLeaderPerTerm(Record(r, i, t, net))
    requires term in Record(r, i, t, net).led
    ensures LeaderLogOk(Record(r, i, t, net), term)
  {
    hide TakenFrom, SendsWell, Justified, Ordered, MessageOk, Contiguous, Grows, Received;
    var r' := Record(r, i, t, net);
    RecordsGrow(r, i, t, net, m);
    NewLogOk(r, i, t, net, m);
    assert NodeOk(r, i);
    if t.role == Leader && term == t.term {
      LogIsContiguous(t);
    } else {
      assert LeaderLogOk(r, term);
      JustifiedGrows(r.led[term], r.led, r'.led);
    }
  }

  lemma LogIsContiguous(s: State)
    ensures Contiguous(s.log)
  {
  }

  lemma MessagesKept(r: Run, i: NodeID, t: State, net: set<Message>, m: Message, a: Message)
    requires Inv(r) && i in r.c.nodes && LogStep(r.c.nodes[i], t, m)
    requires OneLeaderPerTerm(Record(r, i, t, net))
    requires MessageOk(r, a) || (a in t.msgs && a !in r.c.nodes[i].msgs)
    ensures MessageOk(Record(r, i, t, net), a)
  {
    hide TakenFrom, Justified, Ordered, LeaderLogOk, Contiguous, OneLeaderPerTerm;
    var r', s := Record(r, i, t, net), r.c.nodes[i];
    assert NodeOk(r, i);
    RecordsGrow(r, i, t, net, m);
    if a.kind == MsgAppend {
      if MessageOk(r, a) {
        TakenFromLonger(a, r.led[a.term], r'.led[a.term]);
      } else {
        assert SentByLeader(s, t, a);
      }
    }
  }

  lemma ActIsLogStep(r: Run, a: Action) returns (m: Message)
    requires Inv(r) && Enabled(r.c, a)
    ensures LogStep(r.c.nodes[Target(a)], Act(r.c.nodes[Target(a)], a), m)
    ensures m.kind == MsgAppend ==> MessageOk(r, m)
  {
    hide LogStep, LocalStep, TakenFrom, Justified, Ordered, LeaderLogOk, Contiguous, Act;
    var s := r.c.nodes[Target(a)];
    assert NodeOk(r, Target(a));
    m := MessageOf(a);
    if a.Deliver? {
      assert InFlight(r.c, m);
      assert MessageOk(r, m);
    }
    ActSteps(s, a);
    if !a.Deliver? {
      LocalIsLog(s, Act(s, a), m);
    }
  }

  lemma AllMessagesKept(r: Run, a: Action, net: set<Message>, m: Message)
    requires Inv(r) && Enabled(r.c, a) && LogStep(r.c.nodes[Target(a)], Act(r.c.nodes[Target(a)], a), m)
    requires net == if a.Emit? then r.c.net + r.c.nodes[Target(a)].msgs else r.c.net
    requires OneLeaderPerTerm(Record(r, Target(a), Act(r.c.nodes[Target(a)], a), net))
    ensures var r' := Record(r, Target(a), Act(r.c.nodes[Target(a)], a), net);
            forall b | InFlight(r'.c, b) :: MessageOk(r', b)
  {
    hide LogStep, LeaderLogOk, MessageOk, NodeOk, OneLeaderPerTerm, Act;
    var i := Target(a);
    var s, t := r.c.nodes[i], Act(r.c.nodes[i], a);
    assert Next(r, a) == Record(r, i, t, net);
    forall b | InFlight(Record(r, i, t, net).c, b) ensures MessageOk(Record(r, i, t, net), b) {
      InFlightAfter(r, a, b);
      assert b in s.msgs ==> InFlight(r.c, b);
      MessagesKept(r, i, t, net, m, b);
    }
  }

  lemma LeadersKept(r: Run, i: NodeID, t: State, net: set<Message>, m: Message)
    requires Inv(r) && i in r.c.nodes && LogStep(r.c.nodes[i], t, m)
    ensures var r' := Record(r, i, t, net);
      && (forall l | l in r'.leaders :: l.0 in r'.led && l.1 in r'.c.nodes && l.0 <= r'.c.nodes[l.1].term)
      && (forall term | term in r'.led :: exists j :: (term, j) in r'.leaders)
  {
    hide LogStep, LeaderLogOk, MessageOk, NodeOk;
    TermGrows(r.c.nodes[i], t, m);
    forall term | term in Record(r, i, t, net).led ensures exists j :: (term, j) in Record(r, i, t, net).leaders {
      LedHasLeader(r, i, t, net, term);
    }
  }

  lemma NextKeepsInv(r: Run, a: Action)
    requires Inv(r) && OneLeaderPerTerm(Next(r, a))
    ensures Inv(Next(r, a))
  {
    hide LogStep, TakenFrom, Justified, Ordered, LeaderLogOk, MessageOk, NodeOk, OneLeaderPerTerm, Act;
    if Enabled(r.c, a) {
      var i := Target(a);
      var s, t := r.c.nodes[i], Act(r.c.nodes[i], a);
      var net := if a.Emit? then r.c.net + s.msgs else r.c.net;
      var r' := Record(r, i, t, net);
      var m := ActIsLogStep(r, a);
      assert Next(r, a) == r';
      forall j | j in r'.c.nodes ensures NodeOk(r', j) {
        NodesKept(r, i, t, net, m, j);
      }
      forall term | term in r'.led ensures LeaderLogOk(r', term) {
        LeaderLogsKept(r, i, t, net, m, term);
      }
      AllMessagesKept(r, a, net, m);
      LeadersKept(r, i, t, net, m);
    }
  }

  lemma TermGrows(s: State, t: State, m: Message)
    requires LogStep(s, t, m)
    ensures t.term >= s.term
  {
  }

  lemma LedHasLeader(r: Run, i: NodeID, t: State, net: set<Message>, term: nat)
    requires i in r.c.nodes && term in Record(r, i, t, net).led
    requires forall t | t in r.led :: exists j :: (t, j) in r.leaders
    ensures exists j :: (term, j) in Record(r, i, t, net).leaders
  {
    var r' := Record(r, i, t, net);
    if t.role == Leader && term == t.term {
      assert (term, i) in r'.leaders;
    } else {
      var j :| (term, j) in r.leaders;
      assert (term, j) in r'.leaders;
    }
  }

  lemma InitialInv(r: Run, m: Membership)
    requires Initial(r, m)
    ensures Inv(r)
  {
  }

  lemma OneLeaderBefore(r: Run, actions: seq<Action>)
    requires OneLeaderPerTerm(Exec(r, actions))
    ensures OneLeaderPerTerm(r)
  {
    LeadersGrowAlong(r, actions);
  }

  lemma {:induction false} RunKeepsInv(r: Run, actions: seq<Action>)
    requires Inv(r) && OneLeaderPerTerm(Exec(r, actions))
    ensures Inv(Exec(r, actions))
    decreases |actions|
  {
    hide Inv, Next, OneLeaderPerTerm;
    if actions != [] {
      OneLeaderBefore(Next(r, actions[0]), actions[1..]);
      NextKeepsInv(r, actions[0]);
      RunKeepsInv(Next(r, actions[0]), actions[1..]);
    }
  }

  // ---------- The results ----------

  lemma ReachableInv(r: Run, m: Membership)
    requires Reachable(r, m) && OneLeaderPerTerm(r)
    ensures Inv(r)
  {
    var start, actions :| Initial(start, m) && Exec(start, actions) == r;
    InitialInv(start, m);
    RunKeepsInv(start, actions);
  }

  /** Log Matching. */
  lemma LogsMatch(r: Run, m: Membership, i: NodeID, j: NodeID, k: nat)
    requires Reachable(r, m) && OneLeaderPerTerm(r)
    requires i in r.c.nodes && j in r.c.nodes
    requires k < |r.c.nodes[i].log| && k < |r.c.nodes[j].log|
    requires r.c.nodes[i].log[k].term == r.c.nodes[j].log[k].term
    ensures r.c.nodes[i].log[..k + 1] == r.c.nodes[j].log[..k + 1]
  {
    hide Reachable, Inv;
    ReachableInv(r, m);
    InvParts(r, i);
    InvParts(r, j);
    SameTermSamePrefix(r.c.nodes[i].log, r.c.nodes[j].log, k, r.led);
  }

  lemma InvParts(r: Run, i: NodeID)
    requires Inv(r) && i in r.c.nodes
    ensures NodeOk(r, i)
  {
  }

  lemma HandleAppendTakesBatch(s: State, m: Message)
    requires m.term >= s.term && Fits(s, m)
    ensures HandleAppend(s, m).log == Append(s.log, m.entries).log
  {
    hide Append, ScanMembership, Contiguous, Term;
    var s1 := BecomeFollower(s, m.term, m.from);
    assert Fits(s1, m) == Fits(s, m);
    EmptyAppend(s.log);
  }

  lemma AppendTakesBatch(s: State, m: Message)
    requires m.kind == MsgAppend && m.to == s.id && m.term >= s.term && Fits(s, m)
    ensures Step(s, m).log == Append(s.log, m.entries).log
  {
    hide HandleAppend, Append, Contiguous;
    HandleAppendTakesBatch(AdoptTerm(s, m), m);
  }

  /**
   Once a node has accepted an append message, it agrees with the log of that term's leader up to the
   last entry of the message.
   */
  lemma AcceptedAgreesWithLeader(r: Run, m: Membership, a: Message)
    requires Reachable(r, m) && OneLeaderPerTerm(r)
    requires a in r.c.net && a.kind == MsgAppend && a.to in r.c.nodes
    requires var s := r.c.nodes[a.to]; a.term >= s.term && Fits(s, a) && Append(s.log, a.entries).ok
    ensures a.term in r.led && (a.term, a.from) in r.leaders
    ensures AgreeUpTo(Next(r, Deliver(a)).c.nodes[a.to].log, r.led[a.term], a.index + 1 + |a.entries|)
  {
    hide Reachable, Append, AgreeUpTo, Justified, Ordered, TakenFrom, Step;
    var s := r.c.nodes[a.to];
    ReachableInv(r, m);
    assert NodeOk(r, a.to);
    assert InFlight(r.c, a);
    assert MessageOk(r, a);
    assert LeaderLogOk(r, a.term);
    AppendTakesBatch(s, a);
    ReceiveTaken(s.log, r.led[a.term], a, r.led, s.term);
  }
}
