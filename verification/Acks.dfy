/**
 What an acknowledgement is worth. A follower answers a batch with its own last index, so the answer also
 counts whatever it holds past the batch. LostCommits shows where that leads. Here: when the answer is right,
 and what a node that has given a right answer keeps of its log from then on.
 */
module Acks {
  import opened Wrappers
  import opened Quorums
  import opened RaftLog
  import opened RaftNode
  import opened RaftSteps
  import opened RaftRuns
  import LM = LogMatching

  /** The node takes the batch of this message. */
  ghost predicate TakesBatch(s: State, m: Message) {
    m.kind == MsgAppend && m.term >= s.term && Fits(s, m) && Append(s.log, m.entries).ok
  }

  /** The leader's log has, where this log ends, an entry of the same term. */
  ghost predicate EndsLike(log: EntryLog, leaders: seq<Entry>) {
    |log| <= |leaders| && leaders[|log| - 1].term == log[|log| - 1].term
  }

  /**
   A batch is answered with an index up to which the node agrees with the leader of the batch's term if and
   only if the batch changes the node's log, or that leader has an entry of the same term where the log
   ends: the node holds nothing that differs past the batch. Both can be seen before the batch is handled.
   */
  lemma AnswerRightExactly(r: Run, m: Membership, a: Message)
    requires Reachable(r, m) && OneLeaderPerTerm(r)
    requires a in r.c.net && a.to in r.c.nodes && TakesBatch(r.c.nodes[a.to], a)
    ensures a.term in r.led
    ensures var t := Step(r.c.nodes[a.to], a);
      && Message(MsgAppendResp, a.to, a.from, a.term, LastIndex(t.log), 0, 0, false, []) in t.msgs
      && (LM.AgreeUpTo(t.log, r.led[a.term], LastIndex(t.log) + 1) <==>
            var s := r.c.nodes[a.to]; Append(s.log, a.entries).log != s.log || EndsLike(s.log, r.led[a.term]))
  {
    hide Reachable, Append, LM.Inv, Step, LM.AgreeUpTo;
    var s := r.c.nodes[a.to];
    LM.ReachableInv(r, m);
    TakenLogOk(r, a);
    Answers(s, a);
    var t := Step(s, a);
    LastOf(t.log);
    EndsLikeIsPrefix(t.log, r.led[a.term], r.led);
    PrefixAgrees(t.log, r.led[a.term]);
  }

  lemma PrefixAgrees(log: EntryLog, leaders: seq<Entry>)
    ensures LM.AgreeUpTo(log, leaders, |log|) <==> log <= leaders
  {
    assert log[..|log|] == log;
  }

  /** Justified logs that end alike: one is a prefix of the other. */
  lemma EndsLikeIsPrefix(log: EntryLog, leaders: seq<Entry>, led: map<nat, seq<Entry>>)
    requires LM.Justified(log, led) && LM.Justified(leaders, led) && Contiguous(leaders)
    ensures EndsLike(log, leaders) <==> log <= leaders
  {
    if EndsLike(log, leaders) {
      var n := |log| - 1;
      LM.SameTermSamePrefix(log, leaders, n, led);
      assert log[..n + 1] == log;
    }
  }

  lemma Answers(s: State, m: Message)
    requires s.id == m.to && TakesBatch(s, m)
    ensures var t := Step(s, m);
      && Message(MsgAppendResp, m.to, m.from, m.term, LastIndex(t.log), 0, 0, false, []) in t.msgs
      && t.log == Append(s.log, m.entries).log && t.role == Follower && t.term == m.term
  {
    hide HandleAppend, Append, Contiguous;
    AnswersNow(AdoptTerm(s, m), m);
  }

  lemma AnswersNow(s: State, m: Message)
    requires s.id == m.to && TakesBatch(s, m)
    ensures var t := HandleAppend(s, m);
      && Message(MsgAppendResp, m.to, m.from, m.term, LastIndex(t.log), 0, 0, false, []) in t.msgs
      && t.log == Append(s.log, m.entries).log && t.role == Follower && t.term == m.term
  {
    EmptyAppend(s.log);
    hide Append, ScanMembership, Contiguous, Term, LastIndex;
  }

  /** The batch is the leader's, and both logs stay justified. */
  lemma TakenLogOk(r: Run, a: Message)
    requires LM.Inv(r) && a in r.c.net && a.to in r.c.nodes && TakesBatch(r.c.nodes[a.to], a)
    ensures a.term in r.led && LM.LeaderLogOk(r, a.term) && TakenFrom(a, r.led[a.term])
    ensures r.c.nodes[a.to].id == a.to
    ensures LM.Justified(Append(r.c.nodes[a.to].log, a.entries).log, r.led)
    ensures var s, t := r.c.nodes[a.to], Append(r.c.nodes[a.to].log, a.entries).log; t == s.log || t <= r.led[a.term]
  {
    hide Append, TakenFrom, LM.Justified, LM.Ordered, Contiguous, NoPreVoteWhileLeading;
    var s := r.c.nodes[a.to];
    assert LM.NodeOk(r, a.to);
    assert InFlight(r.c, a);
    assert LM.MessageOk(r, a);
    assert LM.LeaderLogOk(r, a.term);
    LeaderJustified(r, a.term);
    var G: EntryLog := r.led[a.term];
    LM.ReceiveTaken(s.log, G, a, r.led, s.term);
    var t := Append(s.log, a.entries).log;
    if t != s.log {
      assert t == G[..|t|];
      LM.JustifiedPrefix(G, |t|, r.led);
    }
  }

  lemma LeaderJustified(r: Run, term: nat)
    requires term in r.led && LM.LeaderLogOk(r, term)
    ensures Contiguous(r.led[term]) && LM.Justified(r.led[term], r.led)
  {
  }

  // ---------- What a batch cannot take away ----------

  /**
   Where a node already agrees with the leader, the leader's batches change nothing; and if it agrees with
   all the leader has, they change nothing at all.
   */
  lemma KeepsAgreed(L: EntryLog, G: EntryLog, m: Message, led: map<nat, seq<Entry>>, term: nat, n: nat)
    requires LM.Justified(L, led) && LM.Justified(G, led) && LM.Ordered(L, term)
    requires TakenFrom(m, G) && Term(L, m.index) == Some(m.logTerm)
    requires n <= |L| && n <= |G| && L[..n] == G[..n]
    ensures var r := Append(L, m.entries).log; n <= |r| && r[..n] == L[..n] && (n == |G| ==> r == L)
  {
    hide Append, AppendOne, Merge;
    if m.entries == [] {
      EmptyAppend(L);
    } else if m.entries[0].index == 0 {
      LM.AppendRefused(L, m.entries);
    } else {
      SliceKeepsAgreed(L, G, m.index + 1, m.entries, n);
    }
  }

  lemma SliceKeepsAgreed(L: EntryLog, G: EntryLog, first: nat, batch: seq<Entry>, n: nat)
    requires first > 0 && LM.SliceOf(batch, G, first) && first <= |L|
    requires n <= |L| && n <= |G| && L[..n] == G[..n]
    ensures var r := Append(L, batch).log; n <= |r| && r[..n] == L[..n] && (n == |G| ==> r == L)
  {
    hide Append, AppendOne, Merge;
    LM.SliceConsecutive(batch, G, first);
    AppendIsMerge(L, batch, first);
    MergeShape(L, batch, first);
    var d := Shared(L, batch);
    if d < |batch| && first + d < n {
      AgreedIsHad(L, G, first, batch, n, d);
    }
  }

  lemma AgreedIsHad(L: EntryLog, G: EntryLog, first: nat, batch: seq<Entry>, n: nat, d: nat)
    requires LM.SliceOf(batch, G, first) && n <= |L| && n <= |G| && L[..n] == G[..n]
    requires d < |batch| && first + d < n
    ensures Has(L, batch[d])
  {
    assert batch[d] == G[first + d];
    assert G[..n][first + d] == L[..n][first + d];
  }

  // ---------- What a node keeps of what it has acknowledged ----------

  /** A node's log when it acknowledged, or led, in a term. */
  datatype Held = Held(node: NodeID, term: nat, log: EntryLog)

  ghost predicate Conflict(G: seq<Entry>, P: seq<Entry>) {
    exists k :: 0 <= k < |G| && k < |P| && G[k] != P[k]
  }

  /** Some leader after term `T` and up to term `U` has another entry somewhere in `P`. */
  ghost predicate Lost(led: map<nat, seq<Entry>>, P: seq<Entry>, T: nat, U: nat) {
    exists W :: T < W <= U && W in led && Conflict(led[W], P)
  }

  /** Of every part of what was held, the log has all, or a later leader has lost it. */
  ghost predicate Keeps(led: map<nat, seq<Entry>>, h: Held, log: seq<Entry>, U: nat) {
    forall p | 0 <= p <= |h.log| :: h.log[..p] <= log || Lost(led, h.log[..p], h.term, U)
  }

  lemma LostGrows(led: map<nat, seq<Entry>>, led': map<nat, seq<Entry>>, P: seq<Entry>, T: nat, U: nat, U': nat)
    requires Lost(led, P, T, U) && LM.Grows(led, led') && U <= U'
    ensures Lost(led', P, T, U')
  {
    var W :| T < W <= U && W in led && Conflict(led[W], P);
    var k :| 0 <= k < |led[W]| && k < |P| && led[W][k] != P[k];
    assert led[W] <= led'[W];
    assert led'[W][k] != P[k];
  }

  lemma KeepsGrows(led: map<nat, seq<Entry>>, led': map<nat, seq<Entry>>, h: Held, log: seq<Entry>, log': seq<Entry>, U: nat, U': nat)
    requires Keeps(led, h, log, U) && LM.Grows(led, led') && log <= log' && U <= U'
    ensures Keeps(led', h, log', U')
  {
    hide Lost, LM.Grows;
    forall p | 0 <= p <= |h.log| && !(h.log[..p] <= log') ensures Lost(led', h.log[..p], h.term, U') {
      LostGrows(led, led', h.log[..p], h.term, U, U');
    }
  }

  /** A leader's batch takes away only what that leader has lost. */
  lemma KeepsThroughBatch(led: map<nat, seq<Entry>>, h: Held, L: EntryLog, m: Message, term: nat)
    requires Keeps(led, h, L, term) && h.term <= term <= m.term && m.term in led && Contiguous(led[m.term])
    requires h.term in led && h.log <= led[h.term]
    requires LM.Justified(L, led) && LM.Justified(led[m.term], led) && LM.Ordered(L, term)
    requires TakenFrom(m, led[m.term]) && Term(L, m.index) == Some(m.logTerm)
    ensures Keeps(led, h, Append(L, m.entries).log, m.term)
  {
    hide Append, Lost, LM.Justified, LM.Ordered, TakenFrom, Term, Contiguous;
    var G: EntryLog := led[m.term];
    var r := Append(L, m.entries).log;
    forall p | 0 <= p <= |h.log| && !(h.log[..p] <= r) ensures Lost(led, h.log[..p], h.term, m.term) {
      var P := h.log[..p];
      if P <= L {
        PartThroughBatch(led, P, h.term, L, m, term);
      } else {
        LostGrows(led, led, P, h.term, term, m.term);
      }
    }
  }

  lemma PartThroughBatch(led: map<nat, seq<Entry>>, P: seq<Entry>, T: nat, L: EntryLog, m: Message, term: nat)
    requires P <= L && T <= term <= m.term && m.term in led && Contiguous(led[m.term])
    requires T in led && P <= led[T]
    requires LM.Justified(L, led) && LM.Justified(led[m.term], led) && LM.Ordered(L, term)
    requires TakenFrom(m, led[m.term]) && Term(L, m.index) == Some(m.logTerm)
    requires !(P <= Append(L, m.entries).log)
    ensures Lost(led, P, T, m.term)
  {
    hide Append, LM.Justified, LM.Ordered, TakenFrom, Term, Contiguous, Conflict;
    if !Conflict(led[m.term], P) {
      KeptWithout(led, P, L, m, term);
    }
    if T == m.term {
      PrefixNoConflict(led[T], P);
    }
  }

  lemma PrefixNoConflict(G: seq<Entry>, P: seq<Entry>)
    requires P <= G
    ensures !Conflict(G, P)
  {
  }

  lemma KeptWithout(led: map<nat, seq<Entry>>, P: seq<Entry>, L: EntryLog, m: Message, term: nat)
    requires P <= L && m.term in led && Contiguous(led[m.term]) && !Conflict(led[m.term], P)
    requires LM.Justified(L, led) && LM.Justified(led[m.term], led) && LM.Ordered(L, term)
    requires TakenFrom(m, led[m.term]) && Term(L, m.index) == Some(m.logTerm)
    ensures P <= Append(L, m.entries).log
  {
    hide Append, LM.Justified, LM.Ordered, TakenFrom, Term, Contiguous;
    var G: EntryLog := led[m.term];
    var n := if |P| <= |G| then |P| else |G|;
    AgreeWithout(G, P, n);
    assert L[..n] == P[..n];
    KeepsAgreed(L, G, m, led, term, n);
    assert P[..|P|] == P;
  }

  lemma AgreeWithout(G: seq<Entry>, P: seq<Entry>, n: nat)
    requires !Conflict(G, P) && n <= |G| && n <= |P|
    ensures G[..n] == P[..n]
  {
    forall k | 0 <= k < n ensures G[k] == P[k] {
    }
  }
}
