/**
 Runs that keep clear of the four steps the code allows and the Raft paper does not: a vote given again
 in a term whose vote was erased (TwoLeaders), a vote counted during a pre-vote (TwoLeaders), a vote given
 to a request of an older term (StaleVotes), and a batch acknowledged past what the leader has (LostCommits).
 Memberships may change as the code allows. Here is the record such a run keeps and its invariant: about
 acknowledgements, votes, elections, commits and the ends of joint steps. Completeness draws conclusions from
 the invariant, SafeRuns proves that every step keeps it.
 */
module Histories {
  import opened Wrappers
  import opened Quorums
  import opened RaftLog
  import opened RaftNode
  import opened RaftRuns
  import opened Acks
  import CB = ConfBranches
  import CC = ConfChain
  import CF = CallFacts
  import CM = CachedMembership
  import ER = ElectionRestriction
  import ES = ElectionSafety
  import LM = LogMatching

  /** A leader's log up to an index it committed, and all of its log at that moment. */
  datatype Commit = Commit(term: nat, log: seq<Entry>, whole: seq<Entry>)

  /**
   A run, the votes given in it, what every node has acknowledged or led with, the log each leader was
   elected with, and every commit by a leader.
   */
  datatype History = History(w: ER.Watched, held: set<Held>, won: map<nat, EntryLog>, commits: set<Commit>)

  ghost function HeldBy(s: State, t: State, m: Message): set<Held> {
    if t.role == Leader || TakesBatch(s, m) then {Held(t.id, t.term, t.log)} else {}
  }

  function WonBy(s: State, t: State, won: map<nat, EntryLog>): map<nat, EntryLog> {
    if t.role == Leader && s.role != Leader then won[t.term := s.log] else won
  }

  ghost function CommitBy(s: State, t: State, m: Message): set<Commit> {
    if CF.Acknowledged(s, m) && CommitTarget(Recorded(s, m.from, m.index)) == Some(t.committed) && t.committed < |s.log|
    then {Commit(s.term, s.log[..t.committed + 1], s.log)} else {}
  }

  ghost function NextHistory(h: History, a: Action): History {
    if !Enabled(h.w.r.c, a) then h
    else
      var s := h.w.r.c.nodes[Target(a)];
      var t, m := Act(s, a), MessageOf(a);
      History(ER.NextWatched(h.w, a), h.held + HeldBy(s, t, m), WonBy(s, t, h.won), h.commits + CommitBy(s, t, m))
  }

  // ---------- The steps to keep clear of ----------

  ghost predicate SafeMove(h: History, a: Action) {
    && ES.KeepsVotesApart(h.w.r, a)
    && (Enabled(h.w.r.c, a) && a.Deliver? ==>
          var s := h.w.r.c.nodes[a.m.to];
          // no vote is given to a request of an older term
          && (a.m.kind == MsgVote && GrantsVote(AdoptTerm(s, a.m), a.m) ==> a.m.term >= s.term)
          // a batch taken leaves nothing past what the leader has
          && (TakesBatch(s, a.m) && a.m.term in h.w.r.led ==> EndsLike(Step(s, a.m).log, h.w.r.led[a.m.term])))
  }

  // ---------- The invariant ----------

  ghost predicate BaseOk(h: History, initial: Membership) {
    && LM.Inv(h.w.r) && ES.VotesInv(h.w.r) && ER.Inv(h.w) && CM.Inv(h.w.r) && CC.Inv(h.w.r, initial)
    && OneLeaderPerTerm(h.w.r)
  }

  ghost predicate HeldOk(h: History) {
    forall x | x in h.held ::
      && x.node in h.w.r.c.nodes && x.term <= h.w.r.c.nodes[x.node].term
      && x.term in h.w.r.led && x.log <= h.w.r.led[x.term]
  }

  /** Every node still has what it held, but for what a later leader lost. */
  ghost predicate KeepOk(h: History) {
    forall x | x in h.held && x.node in h.w.r.c.nodes ::
      Keeps(h.w.r.led, x, h.w.r.c.nodes[x.node].log, h.w.r.c.nodes[x.node].term)
  }

  ghost predicate GrantOk(h: History, g: ER.Grant) {
    && g.current && g.voter in h.w.r.c.nodes && g.term <= h.w.r.c.nodes[g.voter].term
    && LM.Justified(g.log, h.w.r.led) && LM.Ordered(g.log, g.term)
    && forall x | x in h.held && x.node == g.voter && x.term < g.term :: Keeps(h.w.r.led, x, g.log, g.term)
  }

  ghost predicate GrantsOk(h: History) {
    forall g | g in h.w.grants :: GrantOk(h, g)
  }

  /** The node has held a log of this term that ends at this index. */
  ghost predicate HasHeld(held: set<Held>, node: NodeID, term: nat, index: nat) {
    exists x :: x in held && x.node == node && x.term == term && index < |x.log|
  }

  ghost predicate AckOk(h: History, m: Message) {
    m.kind == MsgAppendResp && !m.reject ==> HasHeld(h.held, m.from, m.term, m.index)
  }

  ghost predicate AcksOk(h: History) {
    forall m | InFlight(h.w.r.c, m) :: AckOk(h, m)
  }

  ghost predicate BeliefsOk(held: set<Held>, s: State) {
    s.role == Leader ==> forall p | p in s.matched :: HasHeld(held, p, s.term, s.matched[p])
  }

  ghost predicate MatchedOk(h: History) {
    forall i | i in h.w.r.c.nodes :: BeliefsOk(h.held, h.w.r.c.nodes[i])
  }

  ghost predicate GrantedTo(grants: set<ER.Grant>, v: NodeID, term: nat, c: NodeID) {
    exists g :: g in grants && g.voter == v && g.term == term && g.candidate == c
  }

  /** The real votes a candidate holds are its own and granted ones. */
  ghost predicate VotesOk(grants: set<ER.Grant>, s: State) {
    s.role == Candidate && !s.preVote && s.votes.Some? ==>
      forall v | v in s.votes.value :: v == s.id || GrantedTo(grants, v, s.term, s.id)
  }

  ghost predicate CandidatesOk(h: History) {
    forall i | i in h.w.r.c.nodes :: VotesOk(h.w.grants, h.w.r.c.nodes[i])
  }

  /** A candidate has no entry of its term. */
  ghost predicate FreshOk(h: History) {
    forall i | i in h.w.r.c.nodes && h.w.r.c.nodes[i].role == Candidate ::
      forall k | 0 < k < |h.w.r.c.nodes[i].log| :: h.w.r.c.nodes[i].log[k].term < h.w.r.c.nodes[i].term
  }

  /** What a leader was elected with comes before its own entries. */
  ghost predicate WonOk(h: History) {
    && h.won.Keys == h.w.r.led.Keys
    && forall U | U in h.won ::
         && h.won[U] <= h.w.r.led[U]
         && LM.Justified(h.won[U], h.w.r.led) && LM.Ordered(h.won[U], U)
         && forall k | 0 < k < |h.won[U]| :: h.won[U][k].term < U
  }

  /** A voter of term `U` had this log, no newer than the winner's, with all it had held before but what was lost before. */
  ghost predicate VoterHad(h: History, v: NodeID, U: nat, log: EntryLog) {
    && U in h.won && ER.NoNewer(log, h.won[U])
    && LM.Justified(log, h.w.r.led) && LM.Ordered(log, U)
    && forall x | x in h.held && x.node == v && x.term < U :: Keeps(h.w.r.led, x, log, U - 1)
  }

  ghost predicate VoterOk(h: History, v: NodeID, U: nat) {
    v in h.w.r.c.nodes && h.w.r.c.nodes[v].term >= U && exists log :: VoterHad(h, v, U, log)
  }

  ghost predicate VotersOk(h: History, q: set<NodeID>, U: nat) {
    forall v | v in q :: VoterOk(h, v, U)
  }

  /** A quorum of the membership it was elected with stands behind every leader. */
  ghost predicate ElectedBy(h: History, initial: Membership, U: nat) {
    U in h.won && exists i, q :: Behind(h, initial, U, i, q)
  }

  ghost predicate Behind(h: History, initial: Membership, U: nat, i: NodeID, q: set<NodeID>)
    requires U in h.won
  {
    && (U, i) in h.w.r.leaders && ES.Supported(h.w.r.ballots, (U, i), q)
    && CC.In(initial, h.won[U]).HasQuorum(q) && VotersOk(h, q, U)
  }

  ghost predicate ElectedOk(h: History, initial: Membership) {
    forall U | U in h.won :: ElectedBy(h, initial, U)
  }

  /** The node has held all that was committed. */
  ghost predicate HoldsCommit(held: set<Held>, p: NodeID, cm: Commit) {
    exists x :: x in held && x.node == p && x.term == cm.term && cm.log <= x.log
  }

  ghost predicate AllHold(held: set<Held>, q: set<NodeID>, cm: Commit) {
    forall p | p in q :: HoldsCommit(held, p, cm)
  }

  /** A quorum of the membership the leader used then has held what was committed. */
  ghost predicate HeldByQuorum(held: set<Held>, initial: Membership, cm: Commit) {
    exists q :: CC.In(initial, cm.whole).HasQuorum(q) && AllHold(held, q, cm)
  }

  ghost predicate CommitOk(h: History, initial: Membership, cm: Commit) {
    && cm.term in h.w.r.led && |cm.log| >= 2 && cm.log <= cm.whole <= h.w.r.led[cm.term]
    && cm.log[|cm.log| - 1].term == cm.term
    && HeldByQuorum(h.held, initial, cm)
  }

  ghost predicate CommitsOk(h: History, initial: Membership) {
    forall cm | cm in h.commits :: CommitOk(h, initial, cm)
  }

  /** The commit that made a leader end a joint step, with all the leader had before. */
  ghost predicate MadeEnd(cm: Commit, initial: Membership, L: seq<Entry>, k: nat)
    requires k < |L|
  {
    cm.term == L[k].term && cm.whole == L[..k] && CB.PrevConf(initial, L, k) < |cm.log|
  }

  ghost predicate EndMade(commits: set<Commit>, initial: Membership, L: seq<Entry>, k: nat)
    requires k < |L|
  {
    exists cm :: cm in commits && MadeEnd(cm, initial, L, k)
  }

  /** A leader ends a joint step only when the entry that began it has just been committed. */
  ghost predicate EndsOk(h: History, initial: Membership) {
    forall W, k | W in h.w.r.led && 0 < k < |h.w.r.led[W]| && CB.EndsJoint(h.w.r.led[W][k]) && h.w.r.led[W][k].term == W ::
      EndMade(h.commits, initial, h.w.r.led[W], k)
  }

  ghost predicate Inv(h: History, initial: Membership) {
    && BaseOk(h, initial) && HeldOk(h) && KeepOk(h) && GrantsOk(h) && AcksOk(h) && MatchedOk(h)
    && CandidatesOk(h) && FreshOk(h) && WonOk(h) && ElectedOk(h, initial) && CommitsOk(h, initial) && EndsOk(h, initial)
  }

  // ---------- Whole runs ----------

  lemma NotEnabledHistory(h: History, a: Action)
    requires !Enabled(h.w.r.c, a)
    ensures NextHistory(h, a) == h
  {
  }

  ghost function ExecHistory(h: History, actions: seq<Action>): History
    decreases |actions|
  {
    if actions == [] then h else ExecHistory(NextHistory(h, actions[0]), actions[1..])
  }

  ghost predicate SafeHistory(h: History, actions: seq<Action>)
    decreases |actions|
  {
    actions != [] ==> SafeMove(h, actions[0]) && SafeHistory(NextHistory(h, actions[0]), actions[1..])
  }

  function Begin(start: Run): History {
    History(ER.Watched(start, {}), {}, map[], {})
  }

  lemma NextIsRun(h: History, a: Action)
    ensures NextHistory(h, a).w.r == Next(h.w.r, a)
  {
    hide Act, HeldBy, WonBy, CommitBy;
  }

  /** The history runs along with the run. */
  lemma {:induction false} HistoryIsRun(h: History, actions: seq<Action>)
    ensures ExecHistory(h, actions).w.r == Exec(h.w.r, actions)
    decreases |actions|
  {
    hide NextHistory, Next;
    if actions != [] {
      NextIsRun(h, actions[0]);
      HistoryIsRun(NextHistory(h, actions[0]), actions[1..]);
    }
  }
}
