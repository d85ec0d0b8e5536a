/**
 What the invariant of Histories entails at any moment: every leader has what was committed in earlier terms,
 and whoever wins an election shares a voter with whoever won it before, although the memberships of the two
 may differ. The memberships part ways at most by one unfinished change, because the end of a joint step is
 only ever proposed once its beginning is committed (ConfBranches).
 */
module Completeness {
  import opened Quorums
  import opened RaftLog
  import opened Acks
  import opened Histories
  import CB = ConfBranches
  import CC = ConfChain
  import CM = CachedMembership
  import ER = ElectionRestriction
  import ES = ElectionSafety
  import LM = LogMatching

  // ---------- Who can win ----------

  /** A voter of term `U` had this log, no newer than `E`, with all it had held before but what was lost up to `B`. */
  ghost predicate VoterLog(h: History, v: NodeID, U: nat, E: EntryLog, B: nat, log: EntryLog) {
    && ER.NoNewer(log, E) && LM.Justified(log, h.w.r.led) && LM.Ordered(log, U)
    && forall x | x in h.held && x.node == v && x.term < U :: Keeps(h.w.r.led, x, log, B)
  }

  ghost predicate VotesFor(h: History, v: NodeID, U: nat, E: EntryLog, B: nat) {
    exists log :: VoterLog(h, v, U, E, B, log)
  }

  /** A quorum of the membership in `E` elects a node with this log in term `U`, which may have been led already. */
  ghost predicate Elects(h: History, initial: Membership, E: EntryLog, U: nat, B: nat, q: set<NodeID>) {
    && U > 0 && U - 1 <= B <= U
    && LM.Justified(E, h.w.r.led) && CC.Chain(initial, E) && (forall k | 0 < k < |E| :: E[k].term < U)
    && CC.In(initial, E).HasQuorum(q)
    && forall v | v in q :: VotesFor(h, v, U, E, B)
  }

  /** Every leader of a term up to `B` has what was committed in earlier terms. */
  ghost predicate AllBelow(h: History, B: nat) {
    forall c, W | c in h.commits && W in h.w.r.led && c.term < W <= B :: c.log <= h.w.r.led[W]
  }

  // ---------- What a voter had ----------

  /** Every leader between two terms has the committed entries. */
  ghost predicate AllHave(led: map<nat, seq<Entry>>, cm: Commit, below: nat) {
    forall W | W in led && cm.term < W < below :: cm.log <= led[W]
  }

  lemma NoneLost(led: map<nat, seq<Entry>>, cm: Commit, B: nat)
    requires AllHave(led, cm, B + 1)
    ensures !Lost(led, cm.log, cm.term, B)
  {
    forall W | cm.term < W <= B && W in led ensures !Conflict(led[W], cm.log) {
      PrefixNoConflict(led[W], cm.log);
    }
  }

  /** A voter of the later term that held what was committed still had it when it voted. */
  lemma VoterHasCommit(h: History, cm: Commit, v: NodeID, U: nat, E: EntryLog, B: nat) returns (log: EntryLog)
    requires VotesFor(h, v, U, E, B) && HoldsCommit(h.held, v, cm) && cm.term < U && AllHave(h.w.r.led, cm, B + 1)
    ensures VoterLog(h, v, U, E, B, log) && cm.log <= log
  {
    hide Lost, LM.Justified, LM.Ordered, ER.NoNewer, AllHave;
    NoneLost(h.w.r.led, cm, B);
    log :| VoterLog(h, v, U, E, B, log);
    var x :| x in h.held && x.node == v && x.term == cm.term && cm.log <= x.log;
    assert Keeps(h.w.r.led, x, log, B);
    assert x.log[..|cm.log|] == cm.log;
  }

  /** A log no older than one that has the committed entries has them too. */
  lemma NewerHasCommit(M: EntryLog, E: EntryLog, cm: Commit, led: map<nat, seq<Entry>>, U: nat)
    requires cm.log <= M && |cm.log| >= 2 && cm.log[|cm.log| - 1].term == cm.term && cm.term > 0
    requires ER.NoNewer(M, E) && AllHave(led, cm, U)
    requires LM.Justified(M, led) && LM.Ordered(M, U) && LM.Justified(E, led)
    requires forall k | 0 < k < |E| :: E[k].term < U
    requires forall x | x in led :: Contiguous(led[x]) && LM.Ordered(led[x], x)
    ensures cm.log <= E
  {
    var m, e, c := |M| - 1, |E| - 1, |cm.log| - 1;
    LastOf(M);
    LastOf(E);
    assert M[c] == cm.log[c];
    assert M[m].term >= cm.term;
    assert e > 0;
    var x := E[e].term;
    assert E[..e + 1] == E && E == led[x][..e + 1];
    if x == M[m].term {
      assert M[..m + 1] == M && M == led[x][..m + 1];
    } else {
      assert cm.log <= led[x];
      LaterTermLater(led[x], c, e, x);
    }
  }

  lemma LaterTermLater(L: seq<Entry>, c: nat, e: nat, term: nat)
    requires LM.Ordered(L, term) && c < |L| && e < |L| && L[c].term < L[e].term
    ensures c < e
  {
  }

  // ---------- Reading the invariant ----------

  lemma LedLogs(h: History, initial: Membership)
    requires Inv(h, initial)
    ensures forall x | x in h.w.r.led ::
      x > 0 && Contiguous(h.w.r.led[x]) && LM.Ordered(h.w.r.led[x], x) && LM.Justified(h.w.r.led[x], h.w.r.led)
      && CC.Chain(initial, h.w.r.led[x])
  {
    hide HeldOk, KeepOk, GrantsOk, AcksOk, MatchedOk, CandidatesOk, FreshOk, WonOk, ElectedOk, CommitsOk, EndsOk,
      LM.NodeOk, LM.MessageOk, LM.Justified, LM.Ordered, Contiguous, CC.Chain, CM.Inv, ER.Inv, ES.VotesInv;
    forall x | x in h.w.r.led
      ensures x > 0 && Contiguous(h.w.r.led[x]) && LM.Ordered(h.w.r.led[x], x) && LM.Justified(h.w.r.led[x], h.w.r.led)
    {
      assert LM.LeaderLogOk(h.w.r, x);
    }
  }

  lemma CommitIsOk(h: History, initial: Membership, cm: Commit)
    requires Inv(h, initial) && cm in h.commits
    ensures CommitOk(h, initial, cm)
  {
    hide BaseOk, HeldOk, KeepOk, GrantsOk, AcksOk, MatchedOk, CandidatesOk, FreshOk, WonOk, ElectedOk, EndsOk, CommitOk;
  }

  /** The commit after which a joint step was ended. */
  lemma EndOf(h: History, initial: Membership, L: EntryLog, k: nat) returns (cm: Commit)
    requires Inv(h, initial) && LM.Justified(L, h.w.r.led) && 0 < k < |L| && CB.EndsJoint(L[k])
    ensures cm in h.commits && MadeEnd(cm, initial, L, k)
  {
    hide BaseOk, HeldOk, KeepOk, GrantsOk, AcksOk, MatchedOk, CandidatesOk, FreshOk, WonOk, ElectedOk, CommitsOk,
      Contiguous, CB.PrevConf;
    var W := L[k].term;
    var G := h.w.r.led[W];
    assert L[..k + 1][k] == G[..k + 1][k] && L[..k + 1][..k] == L[..k] && G[..k + 1][..k] == G[..k];
    assert EndMade(h.commits, initial, G, k);
    cm :| cm in h.commits && MadeEnd(cm, initial, G, k);
    SamePrev(initial, L, G, k);
  }

  lemma SamePrev(initial: Membership, L: seq<Entry>, G: seq<Entry>, k: nat)
    requires k <= |L| && k <= |G| && L[..k] == G[..k]
    ensures CB.PrevConf(initial, L, k) == CB.PrevConf(initial, G, k)
  {
  }

  lemma LeaderHas(h: History, initial: Membership, cm: Commit, W: nat, B: nat)
    requires Inv(h, initial) && cm in h.commits && W in h.w.r.led && cm.term <= W <= B && AllBelow(h, B)
    ensures cm.log <= h.w.r.led[W]
  {
    hide Inv, HeldByQuorum;
    CommitIsOk(h, initial, cm);
  }

  // ---------- Completeness ----------

  /** What two logs both have of a third is within their fork. */
  lemma SharedWithinFork(G: seq<Entry>, E: seq<Entry>, common: seq<Entry>, n: nat)
    requires n <= |common| && n <= |G| && n <= |E| && common[..n] == G[..n] && common[..n] == E[..n]
    ensures n <= CB.Fork(G, E)
  {
    CB.WithinFork(G, E, n);
  }

  /** The committed log does not end a joint step past its fork from a log that has all earlier commits. */
  lemma EndShared(h: History, initial: Membership, G: EntryLog, E: EntryLog, k: nat, cm: Commit)
    requires 0 < k < |G| && MadeEnd(cm, initial, G, k) && CommitOk(h, initial, cm) && cm.log <= E
    ensures CB.PrevConf(initial, G, k) < CB.Fork(G, E)
  {
    hide HeldByQuorum, Contiguous, CB.PrevConf;
    var j := CB.PrevConf(initial, G, k);
    assert cm.log[..j + 1] == G[..k][..j + 1];
    SharedWithinFork(G, E, cm.log, j + 1);
  }

  /** The elected log ends no joint step past the fork, unless it has the commit. */
  lemma EndLed(h: History, initial: Membership, cm: Commit, E: EntryLog, k: nat, end: Commit, B: nat)
    requires Inv(h, initial) && cm in h.commits && end in h.commits && AllBelow(h, B)
    requires 0 < k < |E| && MadeEnd(end, initial, E, k) && end.term <= B && cm.term <= B
    ensures cm.log <= E || CB.PrevConf(initial, E, k) < CB.Fork(cm.whole, E)
  {
    hide Inv, AllBelow, HeldByQuorum, Contiguous, CB.PrevConf;
    CommitIsOk(h, initial, cm);
    CommitIsOk(h, initial, end);
    var W := if cm.term > end.term then cm.term else end.term;
    LeaderHas(h, initial, cm, W, B);
    LeaderHas(h, initial, end, W, B);
    var j := CB.PrevConf(initial, E, k);
    assert end.log[..j + 1] == E[..k][..j + 1];
    assert end.log[..j + 1] == h.w.r.led[W][..j + 1];
    if |cm.log| <= j + 1 {
      assert cm.log == h.w.r.led[W][..j + 1][..|cm.log|];
    } else {
      assert cm.log[..j + 1] == h.w.r.led[W][..j + 1];
      SharedWithinFork(cm.whole, E, cm.log, j + 1);
    }
  }

  /** The quorum that held the commit and the quorum that elects share a node, which passes the commit on. */
  lemma VoterPasses(h: History, initial: Membership, cm: Commit, E: EntryLog, U: nat, B: nat, q: set<NodeID>)
    requires Inv(h, initial) && cm in h.commits && cm.term < U && Elects(h, initial, E, U, B, q) && AllBelow(h, B)
    requires Contiguous(cm.whole) && CC.Chain(initial, cm.whole)
    requires CB.EndsOldJoints(initial, cm.whole, CB.Fork(cm.whole, E)) && CB.EndsOldJoints(initial, E, CB.Fork(cm.whole, E))
    ensures cm.log <= E
  {
    hide Inv, LM.Justified, LM.Ordered, CC.Chain, CB.EndsOldJoints, ER.NoNewer, Contiguous, Keeps, VotesFor, AllHold,
      CC.In;
    CommitIsOk(h, initial, cm);
    var q2 :| CC.In(initial, cm.whole).HasQuorum(q2) && AllHold(h.held, q2, cm);
    CB.BranchesMeet(initial, cm.whole, E, q2, q);
    var v :| v in q2 && v in q;
    HolderHolds(h.held, q2, cm, v);
    var log := VoterHasCommit(h, cm, v, U, E, B);
    LedLogs(h, initial);
    NewerHasCommit(log, E, cm, h.w.r.led, U);
  }

  lemma HolderHolds(held: set<Held>, q: set<NodeID>, cm: Commit, p: NodeID)
    requires AllHold(held, q, cm) && p in q
    ensures HoldsCommit(held, p, cm)
  {
  }

  /** Whoever is elected has all that was committed in earlier terms, if the leaders before had. */
  lemma {:induction false} Complete(h: History, initial: Membership, cm: Commit, E: EntryLog, U: nat, B: nat, q: set<NodeID>)
    requires Inv(h, initial) && cm in h.commits && cm.term < U && Elects(h, initial, E, U, B, q) && AllBelow(h, B)
    ensures cm.log <= E
    decreases cm.term, |cm.whole|
  {
    hide Inv, LM.Justified, CC.Chain, VotesFor, AllBelow, CB.PrevConf, CB.EndsJoint, HeldByQuorum, CC.In;
    CommitIsOk(h, initial, cm);
    LedLogs(h, initial);
    var G: EntryLog := cm.whole;
    WholeOk(h, initial, cm);
    CB.WithinFork(G, E, 1);
    if !(cm.log <= E) {
      forall k | CB.Fork(G, E) <= k < |G| && CB.EndsJoint(G[k]) ensures CB.PrevConf(initial, G, k) < CB.Fork(G, E) {
        var end := EndOf(h, initial, G, k);
        OrderedTerm(h, initial, cm, k);
        Complete(h, initial, end, E, U, B, q);
        CommitIsOk(h, initial, end);
        EndShared(h, initial, G, E, k, end);
      }
      forall k | CB.Fork(G, E) <= k < |E| && CB.EndsJoint(E[k]) ensures CB.PrevConf(initial, E, k) < CB.Fork(G, E) {
        var end := EndOf(h, initial, E, k);
        EndLed(h, initial, cm, E, k, end, B);
      }
      VoterPasses(h, initial, cm, E, U, B, q);
    }
  }

  lemma WholeOk(h: History, initial: Membership, cm: Commit)
    requires Inv(h, initial) && cm in h.commits
    ensures Contiguous(cm.whole) && CC.Chain(initial, cm.whole) && LM.Justified(cm.whole, h.w.r.led)
    ensures cm.whole[..1] == [PLACEHOLDER]
  {
    hide Inv, LM.Justified, CC.Chain, HeldByQuorum;
    CommitIsOk(h, initial, cm);
    LedLogs(h, initial);
    var G := h.w.r.led[cm.term];
    assert cm.whole == G[..|cm.whole|];
    LM.JustifiedPrefix(G, |cm.whole|, h.w.r.led);
    CC.ChainPrefix(initial, G, |cm.whole|);
  }

  lemma OrderedTerm(h: History, initial: Membership, cm: Commit, k: nat)
    requires Inv(h, initial) && cm in h.commits && 0 < k < |cm.whole|
    ensures cm.whole[k].term <= cm.term
  {
    hide Inv, HeldByQuorum;
    CommitIsOk(h, initial, cm);
    LedLogs(h, initial);
  }

  /** A leader's election, as it is recorded. */
  lemma LeaderElected(h: History, initial: Membership, U: nat) returns (i: NodeID, q: set<NodeID>)
    requires Inv(h, initial) && U in h.w.r.led
    ensures U > 0 && U in h.won && h.won[U] <= h.w.r.led[U] && Behind(h, initial, U, i, q)
    ensures Elects(h, initial, h.won[U], U, U - 1, q)
  {
    hide BaseOk, HeldOk, KeepOk, GrantsOk, AcksOk, MatchedOk, CandidatesOk, FreshOk, CommitsOk, EndsOk, LM.Justified,
      LM.Ordered, CC.Chain, VoterOk, Keeps, Contiguous, VotesFor;
    assert ElectedBy(h, initial, U);
    i, q :| Behind(h, initial, U, i, q);
    LedLogs(h, initial);
    var G := h.w.r.led[U];
    assert h.won[U] == G[..|h.won[U]|];
    CC.ChainPrefix(initial, G, |h.won[U]|);
    forall v | v in q ensures VotesFor(h, v, U, h.won[U], U - 1) {
      assert VoterOk(h, v, U);
      VoterVotes(h, v, U);
    }
  }

  lemma VoterVotes(h: History, v: NodeID, U: nat)
    requires VoterOk(h, v, U) && U > 0
    ensures U in h.won && VotesFor(h, v, U, h.won[U], U - 1)
  {
    hide Keeps, LM.Justified, LM.Ordered, ER.NoNewer;
    var log: EntryLog :| VoterHad(h, v, U, log);
    assert VoterLog(h, v, U, h.won[U], U - 1, log);
  }

  /** Leader Completeness: what a leader has committed, every leader of a later term has. */
  lemma {:induction false} Below(h: History, initial: Membership, B: nat)
    requires Inv(h, initial)
    ensures AllBelow(h, B)
    decreases B
  {
    hide Inv, Elects, Behind;
    if B > 0 {
      Below(h, initial, B - 1);
      if B in h.w.r.led {
        var _, q := LeaderElected(h, initial, B);
        forall c | c in h.commits && c.term < B ensures c.log <= h.w.r.led[B] {
          Complete(h, initial, c, h.won[B], B, B - 1, q);
        }
      }
    }
  }

  lemma LeaderCompleteness(h: History, initial: Membership, cm: Commit, U: nat)
    requires Inv(h, initial) && cm in h.commits && U in h.w.r.led && cm.term < U
    ensures cm.log <= h.w.r.led[U]
  {
    hide Inv;
    Below(h, initial, U);
  }

  /** A commit is part of the log of every leader from its term on. */
  lemma LeadersHave(h: History, initial: Membership, cm: Commit, U: nat)
    requires Inv(h, initial) && cm in h.commits && U in h.w.r.led && cm.term <= U
    ensures cm.log <= h.w.r.led[U] && cm.term in h.w.r.led
  {
    hide Inv, AllBelow, HeldByQuorum;
    CommitIsOk(h, initial, cm);
    Below(h, initial, U);
    LeaderHas(h, initial, cm, U, U);
  }

  /** Of two commits, one is part of the other. */
  lemma CommitsAgree(h: History, initial: Membership, cm: Commit, other: Commit, k: nat)
    requires Inv(h, initial) && cm in h.commits && other in h.commits && k < |cm.log| && k < |other.log|
    ensures cm.log[..k + 1] == other.log[..k + 1]
  {
    hide Inv, HeldByQuorum;
    CommitIsOk(h, initial, cm);
    CommitIsOk(h, initial, other);
    var U := if cm.term > other.term then cm.term else other.term;
    LeadersHave(h, initial, cm, U);
    LeadersHave(h, initial, other, U);
    PrefixAt(cm.log, h.w.r.led[U], k + 1);
    PrefixAt(other.log, h.w.r.led[U], k + 1);
  }

  lemma PrefixAt(a: seq<Entry>, b: seq<Entry>, n: nat)
    requires a <= b && n <= |a|
    ensures a[..n] == b[..n]
  {
  }

  // ---------- Elections ----------

  /** An elected log ends no joint step past its fork from another log elected in the same term. */
  lemma EndsShared(
    h: History, initial: Membership, L: EntryLog, E: EntryLog, U: nat, bl: nat, ql: set<NodeID>, be: nat, qe: set<NodeID>)
    requires Inv(h, initial) && AllBelow(h, U) && Elects(h, initial, L, U, bl, ql) && Elects(h, initial, E, U, be, qe)
    ensures CB.EndsOldJoints(initial, L, CB.Fork(L, E))
  {
    hide Inv, LM.Justified, CC.Chain, VotesFor, CB.PrevConf, CB.EndsJoint, HeldByQuorum, CC.In;
    assert L[..1] == E[..1];
    CB.WithinFork(L, E, 1);
    forall k | CB.Fork(L, E) <= k < |L| && CB.EndsJoint(L[k]) ensures CB.PrevConf(initial, L, k) < CB.Fork(L, E) {
      var end := EndOf(h, initial, L, k);
      CommitIsOk(h, initial, end);
      Complete(h, initial, end, E, U, be, qe);
      EndShared(h, initial, L, E, k, end);
    }
  }

  lemma ForkSame(L: EntryLog, E: EntryLog)
    ensures CB.Fork(L, E) == CB.Fork(E, L)
  {
    CB.WithinFork(L, E, CB.Fork(E, L));
    CB.WithinFork(E, L, CB.Fork(L, E));
  }

  /** Whoever is elected in a term shares a voter with whoever else is. */
  lemma ElectionsMeet(
    h: History, initial: Membership, L: EntryLog, E: EntryLog, U: nat, bl: nat, ql: set<NodeID>, be: nat, qe: set<NodeID>)
    requires Inv(h, initial) && Elects(h, initial, L, U, bl, ql) && Elects(h, initial, E, U, be, qe)
    ensures exists v :: v in ql && v in qe
  {
    hide Inv, LM.Justified, CC.Chain, CB.EndsOldJoints, VotesFor, AllBelow, CC.In;
    Below(h, initial, U);
    EndsShared(h, initial, L, E, U, bl, ql, be, qe);
    EndsShared(h, initial, E, L, U, be, qe, bl, ql);
    ForkSame(L, E);
    CB.BranchesMeet(initial, L, E, ql, qe);
  }
}
