/**
 Every step of a safe run keeps the invariant of Histories. The step that could elect a second leader in a term
 comes first: Completeness rules it out, whatever memberships the two would be elected under.
 */
module SafeRuns {
  import opened Wrappers
  import opened Quorums
  import opened RaftLog
  import opened RaftNode
  import opened RaftSteps
  import opened RaftRuns
  import opened Acks
  import opened Histories
  import opened Completeness
  import CB = ConfBranches
  import CC = ConfChain
  import CF = CallFacts
  import CM = CachedMembership
  import CommitSearch
  import ER = ElectionRestriction
  import ES = ElectionSafety
  import LM = LogMatching

  // ---------- The step, seen once ----------

  /** A step from `h`, with the invariants of the run on both sides and the facts about the node that acts. */
  ghost predicate Moves(h: History, a: Action, initial: Membership) {
    && Inv(h, initial) && SafeMove(h, a) && Enabled(h.w.r.c, a)
    && BaseOk(NextHistory(h, a), initial)
    && LM.Grows(h.w.r.led, NextHistory(h, a).w.r.led)
  }

  // ---------- One leader in each term ----------

  /** What the invariant says of one node. */
  lemma NodeFacts(h: History, initial: Membership, i: NodeID)
    requires BaseOk(h, initial) && i in h.w.r.c.nodes
    ensures LM.NodeOk(h.w.r, i) && ES.NodeOk(h.w.r, i)
    ensures var s := h.w.r.c.nodes[i]; s.membership == CC.In(initial, s.log) && CM.CacheOk(s) && s.initialMembership == initial
    ensures CC.Chain(initial, h.w.r.c.nodes[i].log)
  {
    hide LM.NodeOk, LM.LeaderLogOk, LM.MessageOk, ES.NodeOk, ES.BallotOk, ES.MessageOk, ER.Inv, CC.Chain,
      CM.MessageOk, ScanMembership, OneLeaderPerTerm, ES.OneVotePerTerm;
  }

  /** A candidate and everybody who voted for it could elect it. */
  lemma CandidateElects(h: History, initial: Membership, i: NodeID, q: set<NodeID>)
    requires Inv(h, initial) && i in h.w.r.c.nodes && h.w.r.c.nodes[i].role == Candidate
    requires var s := h.w.r.c.nodes[i];
      s.membership.HasQuorum(q) && forall v | v in q :: v == i || GrantedTo(h.w.grants, v, s.term, i)
    ensures var s := h.w.r.c.nodes[i]; Elects(h, initial, s.log, s.term, s.term, q)
  {
    hide BaseOk, HeldOk, KeepOk, GrantsOk, AcksOk, MatchedOk, CandidatesOk, WonOk, ElectedOk, CommitsOk, EndsOk,
      LM.Justified, LM.Ordered, CC.Chain, VotesFor, GrantedTo, CC.In, CM.CacheOk, ES.NodeOk;
    var s := h.w.r.c.nodes[i];
    NodeFacts(h, initial, i);
    forall v | v in q ensures VotesFor(h, v, s.term, s.log, s.term) {
      CandidateVoter(h, initial, i, v);
    }
  }

  lemma CandidateVoter(h: History, initial: Membership, i: NodeID, v: NodeID)
    requires Inv(h, initial) && i in h.w.r.c.nodes && h.w.r.c.nodes[i].role == Candidate
    requires v == i || GrantedTo(h.w.grants, v, h.w.r.c.nodes[i].term, i)
    ensures var s := h.w.r.c.nodes[i]; VotesFor(h, v, s.term, s.log, s.term)
    ensures h.w.r.c.nodes[i].term > 0 && v in h.w.r.c.nodes && h.w.r.c.nodes[v].term >= h.w.r.c.nodes[i].term
  {
    hide BaseOk, HeldOk, AcksOk, MatchedOk, CandidatesOk, FreshOk, WonOk, ElectedOk, CommitsOk, EndsOk, GrantsOk,
      LM.Justified, LM.Ordered, CC.Chain, CC.In, CM.CacheOk, ES.NodeOk, ER.NoNewer, Keeps;
    var s := h.w.r.c.nodes[i];
    NodeFacts(h, initial, i);
    if v == i {
      ER.NoNewerTotal(s.log, s.log, s.log);
      assert VoterLog(h, v, s.term, s.log, s.term, s.log);
    } else {
      var g :| g in h.w.grants && g.voter == v && g.term == s.term && g.candidate == i;
      GrantBoth(h, g, initial);
      assert VoterLog(h, v, s.term, s.log, s.term, g.log);
    }
  }

  /** A candidate that counts a quorum in a term that somebody has led is that somebody. */
  lemma SameWinner(h: History, initial: Membership, i: NodeID, q: set<NodeID>)
    requires Inv(h, initial) && i in h.w.r.c.nodes && h.w.r.c.nodes[i].role == Candidate
    requires var s := h.w.r.c.nodes[i];
      && s.membership.HasQuorum(q) && ES.Supported(h.w.r.ballots, (s.term, i), q)
      && forall v | v in q :: v == i || GrantedTo(h.w.grants, v, s.term, i)
    ensures h.w.r.c.nodes[i].term !in h.w.r.led
  {
    hide Inv, BaseOk, Elects, ES.Supported, GrantedTo, CC.In, VotersOk;
    var T, E := h.w.r.c.nodes[i].term, h.w.r.c.nodes[i].log;
    if T in h.w.r.led {
      var j, ql := LeaderElected(h, initial, T);
      CandidateElects(h, initial, i, q);
      ElectionsMeet(h, initial, h.won[T], E, T, T - 1, ql, T, q);
      var v :| v in ql && v in q;
      BallotsClash(h, initial, T, i, j, v, q, ql);
      assert false;
    }
  }

  lemma BallotsClash(h: History, initial: Membership, T: nat, i: NodeID, j: NodeID, v: NodeID, q: set<NodeID>, ql: set<NodeID>)
    requires Inv(h, initial) && i in h.w.r.c.nodes && h.w.r.c.nodes[i].role == Candidate && h.w.r.c.nodes[i].term == T
    requires ES.Supported(h.w.r.ballots, (T, i), q) && ES.Supported(h.w.r.ballots, (T, j), ql) && v in q && v in ql
    ensures (T, j) !in h.w.r.leaders
  {
    hide HeldOk, KeepOk, GrantsOk, AcksOk, MatchedOk, CandidatesOk, FreshOk, WonOk, ElectedOk, CommitsOk, EndsOk,
      LM.Inv, ES.NodeOk, ES.BallotOk, ES.MessageOk, ER.Inv, CM.Inv, CC.Inv, OneLeaderPerTerm, CC.Chain, CM.CacheOk,
      CC.In;
    NodeFacts(h, initial, i);
    assert Ballot(v, T, i) in h.w.r.ballots && Ballot(v, T, j) in h.w.r.ballots;
  }

  /** A node that takes the lead has counted a quorum of votes given to it. */
  lemma WinCounts(h: History, a: Action, initial: Membership) returns (q: set<NodeID>)
    requires Inv(h, initial) && SafeMove(h, a) && Enabled(h.w.r.c, a)
    requires var s := h.w.r.c.nodes[Target(a)]; s.role != Leader && Act(s, a).role == Leader
    ensures var s, m := h.w.r.c.nodes[Target(a)], MessageOf(a);
      && a.Deliver? && Act(s, a).term == s.term && s.role == Candidate && !s.preVote && s.votes.Some?
      && ES.CountsVote(s, m) && q == s.votes.value + {m.from} && s.membership.HasQuorum(q)
      && ES.Supported(h.w.r.ballots, (s.term, Target(a)), q)
      && forall v | v in q :: v == Target(a) || GrantedTo(h.w.grants, v, s.term, Target(a))
  {
    hide Act, TakesBatch, EndsLike, GrantsVote, LM.Inv, LM.NodeOk, CM.Inv, CC.Inv, CC.Chain, CC.In, CM.CacheOk,
      OneLeaderPerTerm, ER.Inv, ES.VotesInv, ES.KeepsVotesApart, ES.NewMessages, ES.VotesCounted, ES.BallotOk, HeldOk,
      KeepOk, GrantsOk, AcksOk, MatchedOk, FreshOk, WonOk, ElectedOk, CommitsOk, EndsOk, GrantedTo;
    var i := Target(a);
    var s, m := h.w.r.c.nodes[i], MessageOf(a);
    NodeFacts(h, initial, i);
    ES.NextKeepsVotes(h.w.r, a);
    assert VotesOk(h.w.grants, s);
    q := s.votes.value + {m.from};
    CandidateId(h.w.r, i);
    CountedIsGranted(h, a);
  }

  lemma CandidateId(r: Run, i: NodeID)
    requires i in r.c.nodes && ES.NodeOk(r, i)
    ensures r.c.nodes[i].id == i && i != 0
  {
  }

  lemma OneLeaderKept(h: History, a: Action, initial: Membership)
    requires Inv(h, initial) && SafeMove(h, a)
    ensures OneLeaderPerTerm(Next(h.w.r, a))
  {
    hide Act, SafeMove, LM.Inv, LM.NodeOk, CM.Inv, CC.Inv, CC.Chain, CC.In, CM.CacheOk, ER.Inv, ES.NodeOk, HeldOk,
      KeepOk, GrantsOk, AcksOk, MatchedOk, CandidatesOk, FreshOk, WonOk, ElectedOk, CommitsOk, EndsOk, GrantedTo;
    if Enabled(h.w.r.c, a) {
      var i := Target(a);
      var s, t := h.w.r.c.nodes[i], Act(h.w.r.c.nodes[i], a);
      NodeFacts(h, initial, i);
      if t.role == Leader && s.role != Leader {
        var q := WinCounts(h, a, initial);
        SameWinner(h, initial, i, q);
        NotLedNotLeader(h.w.r, s.term);
      } else if t.role == Leader {
        StaysLeader(h, initial, a);
      }
    }
  }

  lemma NotLedNotLeader(r: Run, T: nat)
    requires LM.Inv(r) && T !in r.led
    ensures forall l | l in r.leaders :: l.0 != T
  {
    hide LM.NodeOk, LM.LeaderLogOk, LM.MessageOk;
  }

  lemma StaysLeader(h: History, initial: Membership, a: Action)
    requires BaseOk(h, initial) && Enabled(h.w.r.c, a)
    requires var s := h.w.r.c.nodes[Target(a)]; s.role == Leader && Act(s, a).role == Leader
    ensures (Act(h.w.r.c.nodes[Target(a)], a).term, Target(a)) in h.w.r.leaders
  {
    hide LogStep, Act, CM.Inv, CC.Inv, CC.Chain, CC.In, CM.CacheOk, ER.Inv, ES.NodeOk, LM.Justified, LM.Ordered,
      OneLeaderPerTerm;
    var s := h.w.r.c.nodes[Target(a)];
    NodeFacts(h, initial, Target(a));
    var m := LM.ActIsLogStep(h.w.r, a);
    LeaderTermStays(s, Act(s, a), m);
  }

  lemma LeaderTermStays(s: State, t: State, m: Message)
    requires LogStep(s, t, m) && t.role == Leader
    ensures t.term == s.term
  {
  }

  lemma BaseKept(h: History, a: Action, initial: Membership)
    requires Inv(h, initial) && SafeMove(h, a)
    ensures BaseOk(NextHistory(h, a), initial)
  {
    hide LM.Inv, ES.VotesInv, ES.KeepsVotesApart, ER.Inv, CM.Inv, CC.Inv, Next, OneLeaderPerTerm, HeldBy, WonBy,
      CommitBy, TakesBatch, EndsLike, HeldOk, KeepOk, GrantsOk, AcksOk, MatchedOk, CandidatesOk, FreshOk, WonOk,
      ElectedOk, CommitsOk, EndsOk;
    OneLeaderKept(h, a, initial);
    ES.NextKeepsVotes(h.w.r, a);
    CM.NextKeepsInv(h.w.r, a);
    CC.NextKeepsInv(h.w.r, initial, a);
    LM.NextKeepsInv(h.w.r, a);
    ER.NextKeepsInv(h.w, a);
    if !Enabled(h.w.r.c, a) {
      NotEnabledSame(h.w, a);
    }
  }

  lemma NotEnabledSame(w: ER.Watched, a: Action)
    requires !Enabled(w.r.c, a)
    ensures ER.NextWatched(w, a) == w
  {
  }

  lemma LedGrows(h: History, a: Action, initial: Membership)
    requires Inv(h, initial) && SafeMove(h, a) && Enabled(h.w.r.c, a)
    ensures LM.Grows(h.w.r.led, NextHistory(h, a).w.r.led)
  {
    hide LM.Inv, ES.VotesInv, ER.Inv, ES.KeepsVotesApart, OneLeaderPerTerm, HeldBy, WonBy, CommitBy, TakesBatch,
      EndsLike, LogStep, Act, LM.Grows, CM.Inv, CC.Inv;
    BaseKept(h, a, initial);
    var m := LM.ActIsLogStep(h.w.r, a);
    var i := Target(a);
    LM.RecordsGrow(h.w.r, i, Act(h.w.r.c.nodes[i], a), if a.Emit? then h.w.r.c.net + h.w.r.c.nodes[i].msgs else h.w.r.c.net, m);
  }

  /** How the log of the node that acts changes. */
  ghost predicate LogChanges(h: History, s: State, t: State, m: Message) {
    || t.log == s.log
    || (t.role == Leader && s.log <= t.log)
    || (&& m.kind == MsgAppend && m.term >= s.term && t.term == m.term && Fits(s, m) && t.log == Append(s.log, m.entries).log
        && m.term in h.w.r.led && LM.LeaderLogOk(h.w.r, m.term) && TakenFrom(m, h.w.r.led[m.term]))
  }

  lemma ActChanges(h: History, a: Action)
    requires LM.Inv(h.w.r) && Enabled(h.w.r.c, a)
    ensures var s := h.w.r.c.nodes[Target(a)];
      && LogChanges(h, s, Act(s, a), MessageOf(a))
      && Act(s, a).id == s.id == Target(a) && Act(s, a).term >= s.term
      && LM.Justified(s.log, h.w.r.led) && LM.Ordered(s.log, s.term)
  {
    hide Act, TakenFrom, SendsWell, LM.Justified, LM.Ordered, LM.LeaderLogOk, Append, Fits, Contiguous,
      NoPreVoteWhileLeading;
    var s := h.w.r.c.nodes[Target(a)];
    assert LM.NodeOk(h.w.r, Target(a));
    if a.Deliver? {
      assert InFlight(h.w.r.c, a.m);
      assert LM.MessageOk(h.w.r, a.m);
    }
    ActSteps(s, a);
    if !a.Deliver? {
      LocalIsLog(s, Act(s, a), MessageOf(a));
    }
    ChangesOfStep(h, s, Act(s, a), MessageOf(a));
  }

  lemma ChangesOfStep(h: History, s: State, t: State, m: Message)
    requires LogStep(s, t, m)
    requires m.kind == MsgAppend ==> m.term in h.w.r.led && LM.LeaderLogOk(h.w.r, m.term) && TakenFrom(m, h.w.r.led[m.term])
    ensures LogChanges(h, s, t, m) && t.id == s.id && t.term >= s.term
  {
    hide TakenFrom, SendsWell, LM.LeaderLogOk, Append, Fits, NextConf;
  }

  // ---------- What was held ----------

  lemma KeepsItself(led: map<nat, seq<Entry>>, x: Held, U: nat)
    ensures Keeps(led, x, x.log, U)
  {
    hide Lost;
  }

  lemma NewHeldOk(h: History, a: Action, initial: Membership, x: Held)
    requires Moves(h, a, initial)
    requires var s := h.w.r.c.nodes[Target(a)]; x in HeldBy(s, Act(s, a), MessageOf(a))
    ensures var s, led := h.w.r.c.nodes[Target(a)], NextHistory(h, a).w.r.led;
      && x == Held(Target(a), Act(s, a).term, Act(s, a).log) && x.term in led && x.log <= led[x.term]
  {
    hide ES.VotesInv, ER.Inv, ES.KeepsVotesApart, OneLeaderPerTerm, WonBy, CommitBy, Act, EndsLike, LM.Justified,
      LM.Ordered, KeepOk, GrantsOk, AcksOk, MatchedOk, CandidatesOk, FreshOk, WonOk, ElectedOk, CommitsOk, EndsOk,
      HeldOk, TakesBatch, LM.Grows, LM.Inv, CM.Inv, CC.Inv;
    var s := h.w.r.c.nodes[Target(a)];
    ActChanges(h, a);
    if TakesBatch(s, MessageOf(a)) {
      TakenIsPrefix(h, a, initial);
    } else {
      LeaderIsLed(h, a);
    }
  }

  lemma LeaderIsLed(h: History, a: Action)
    requires Enabled(h.w.r.c, a) && Act(h.w.r.c.nodes[Target(a)], a).role == Leader
    ensures var t, led := Act(h.w.r.c.nodes[Target(a)], a), NextHistory(h, a).w.r.led; t.term in led && led[t.term] == t.log
  {
    hide Act, HeldBy, WonBy, CommitBy;
  }

  lemma TakenIsPrefix(h: History, a: Action, initial: Membership)
    requires LM.Inv(h.w.r) && SafeMove(h, a) && Enabled(h.w.r.c, a) && TakesBatch(h.w.r.c.nodes[Target(a)], MessageOf(a))
    requires LM.Grows(h.w.r.led, NextHistory(h, a).w.r.led)
    ensures var t, led := Act(h.w.r.c.nodes[Target(a)], a), NextHistory(h, a).w.r.led;
      t.term in led && t.log <= led[t.term] && t.role == Follower && t.term == MessageOf(a).term
  {
    hide ES.KeepsVotesApart, HeldBy, WonBy, CommitBy, Step, EndsLike, LM.Inv, LM.Justified, TakesBatch, NextHistory,
      GrantsVote, CM.Inv, CC.Inv;
    var r := h.w.r;
    UnknownTakesNone(h.w.r.c.nodes[Target(a)], a);
    TakenLogOk(r, a.m);
    Answers(r.c.nodes[a.m.to], a.m);
    LeaderJustified(r, a.m.term);
    var t := Step(r.c.nodes[a.m.to], a.m);
    EndsLikeIsPrefix(t.log, r.led[a.m.term], r.led);
    PrefixGrows(t.log, r.led, NextHistory(h, a).w.r.led, a.m.term);
  }

  lemma UnknownTakesNone(s: State, a: Action)
    requires TakesBatch(s, MessageOf(a))
    ensures a.Deliver?
  {
  }

  lemma PrefixGrows(L: seq<Entry>, led: map<nat, seq<Entry>>, led': map<nat, seq<Entry>>, term: nat)
    requires LM.Grows(led, led') && term in led && L <= led[term]
    ensures term in led' && L <= led'[term]
  {
  }

  lemma HeldKept(h: History, a: Action, initial: Membership)
    requires Moves(h, a, initial)
    ensures HeldOk(NextHistory(h, a))
  {
    hide BaseOk, SafeMove, HeldBy, WonBy, CommitBy, Act, LM.Grows, KeepOk, GrantsOk, AcksOk, MatchedOk, CandidatesOk,
      FreshOk, WonOk, ElectedOk, CommitsOk, EndsOk;
    var h' := NextHistory(h, a);
    var i := Target(a);
    MovesActs(h, a, initial);
    forall x | x in h'.held
      ensures x.node in h'.w.r.c.nodes && x.term <= h'.w.r.c.nodes[x.node].term
      ensures x.term in h'.w.r.led && x.log <= h'.w.r.led[x.term]
    {
      if x in h.held {
        PrefixGrows(x.log, h.w.r.led, h'.w.r.led, x.term);
      } else {
        NewHeldOk(h, a, initial, x);
      }
    }
  }

  /** The facts of ActChanges, and where the node ends up. */
  lemma MovesActs(h: History, a: Action, initial: Membership)
    requires Moves(h, a, initial)
    ensures var i, s := Target(a), h.w.r.c.nodes[Target(a)];
      && LogChanges(h, s, Act(s, a), MessageOf(a))
      && Act(s, a).id == s.id == i && Act(s, a).term >= s.term
      && LM.Justified(s.log, h.w.r.led) && LM.Ordered(s.log, s.term)
      && NextHistory(h, a).w.r.c.nodes == h.w.r.c.nodes[i := Act(s, a)]
  {
    hide SafeMove, HeldBy, WonBy, CommitBy, Act, LogChanges, LM.Inv, ES.VotesInv, ER.Inv, LM.Grows, OneLeaderPerTerm,
      HeldOk, KeepOk, GrantsOk, AcksOk, MatchedOk, CandidatesOk, FreshOk, WonOk, ElectedOk, CommitsOk, EndsOk, CM.Inv,
      CC.Inv;
    ActChanges(h, a);
  }

  /** The node that acts keeps what it held. */
  lemma ActorKeeps(h: History, s: State, t: State, m: Message, led': map<nat, seq<Entry>>, x: Held)
    requires LogChanges(h, s, t, m) && LM.Grows(h.w.r.led, led') && t.term >= s.term
    requires Keeps(h.w.r.led, x, s.log, s.term) && x.term <= s.term && x.term in h.w.r.led && x.log <= h.w.r.led[x.term]
    requires LM.Justified(s.log, h.w.r.led) && LM.Ordered(s.log, s.term)
    ensures Keeps(led', x, t.log, t.term)
  {
    hide Keeps, LM.Grows, LM.Justified, LM.Ordered, TakenFrom, Append, Contiguous;
    if s.log <= t.log {
      KeepsGrows(h.w.r.led, led', x, s.log, t.log, s.term, t.term);
    } else {
      LeaderJustified(h.w.r, m.term);
      KeepsThroughBatch(h.w.r.led, x, s.log, m, s.term);
      KeepsGrows(h.w.r.led, led', x, t.log, t.log, t.term, t.term);
    }
  }

  lemma KeepKept(h: History, a: Action, initial: Membership)
    requires Moves(h, a, initial)
    ensures KeepOk(NextHistory(h, a))
  {
    hide BaseOk, SafeMove, HeldBy, WonBy, CommitBy, Act, LM.Grows, LogChanges, LM.Justified, LM.Ordered, Keeps,
      GrantsOk, AcksOk, MatchedOk, CandidatesOk, FreshOk, WonOk, ElectedOk, CommitsOk, EndsOk;
    var h', i := NextHistory(h, a), Target(a);
    var s := h.w.r.c.nodes[i];
    var t := Act(s, a);
    MovesActs(h, a, initial);
    forall x | x in h'.held && x.node in h'.w.r.c.nodes
      ensures Keeps(h'.w.r.led, x, h'.w.r.c.nodes[x.node].log, h'.w.r.c.nodes[x.node].term)
    {
      if x !in h.held {
        NewHeldOk(h, a, initial, x);
        KeepsItself(h'.w.r.led, x, t.term);
      } else if x.node == i {
        ActorKeeps(h, s, t, MessageOf(a), h'.w.r.led, x);
      } else {
        var v := h.w.r.c.nodes[x.node];
        KeepsGrows(h.w.r.led, h'.w.r.led, x, v.log, v.log, v.term, v.term);
      }
    }
  }

  // ---------- Votes ----------

  lemma GrantStays(h: History, a: Action, initial: Membership, g: ER.Grant)
    requires Moves(h, a, initial) && GrantOk(h, g)
    ensures GrantOk(NextHistory(h, a), g)
  {
    hide BaseOk, SafeMove, HeldBy, WonBy, CommitBy, Act, LM.Grows, LogChanges, LM.Justified, LM.Ordered, Keeps,
      KeepOk, GrantsOk, AcksOk, MatchedOk, CandidatesOk, FreshOk, WonOk, ElectedOk, CommitsOk, EndsOk;
    var h' := NextHistory(h, a);
    MovesActs(h, a, initial);
    LM.JustifiedGrows(g.log, h.w.r.led, h'.w.r.led);
    forall x | x in h'.held && x.node == g.voter && x.term < g.term ensures Keeps(h'.w.r.led, x, g.log, g.term) {
      if x !in h.held {
        NewHeldOk(h, a, initial, x);
      }
      KeepsGrows(h.w.r.led, h'.w.r.led, x, g.log, g.log, g.term, g.term);
    }
  }

  /** A vote just given, with the voter's log. */
  lemma NewGrantOk(h: History, a: Action, initial: Membership, g: ER.Grant)
    requires Moves(h, a, initial) && a.Deliver? && g in ER.GrantOf(h.w.r.c.nodes[a.m.to], a.m)
    ensures GrantOk(NextHistory(h, a), g)
  {
    hide BaseOk, SafeMove, HeldBy, WonBy, CommitBy, Act, LM.Grows, LogChanges, LM.Justified, LM.Ordered, Keeps,
      LogUpToDate, GrantsOk, AcksOk, MatchedOk, CandidatesOk, FreshOk, WonOk, ElectedOk, CommitsOk, EndsOk;
    var h', s := NextHistory(h, a), h.w.r.c.nodes[a.m.to];
    MovesActs(h, a, initial);
    GrantNames(h, a, initial, g);
    LM.JustifiedGrows(s.log, h.w.r.led, h'.w.r.led);
    LM.OrderedLater(s.log, s.term, g.term);
    forall x | x in h'.held && x.node == g.voter && x.term < g.term ensures Keeps(h'.w.r.led, x, g.log, g.term) {
      if x !in h.held {
        NewHeldOk(h, a, initial, x);
      }
      KeepsGrows(h.w.r.led, h'.w.r.led, x, g.log, g.log, s.term, g.term);
    }
  }

  lemma GrantNames(h: History, a: Action, initial: Membership, g: ER.Grant)
    requires SafeMove(h, a) && Enabled(h.w.r.c, a) && a.Deliver? && g in ER.GrantOf(h.w.r.c.nodes[a.m.to], a.m)
    requires h.w.r.c.nodes[a.m.to].id == a.m.to
    ensures var s := h.w.r.c.nodes[a.m.to];
      && g.current && g.voter == a.m.to && g.candidate == a.m.from && g.log == s.log
      && s.term <= g.term && g.term == Act(s, a).term
  {
    hide ES.KeepsVotesApart, TakesBatch, EndsLike, LogUpToDate;
  }

  lemma GrantsKept(h: History, a: Action, initial: Membership)
    requires Moves(h, a, initial)
    ensures GrantsOk(NextHistory(h, a))
  {
    hide BaseOk, SafeMove, HeldBy, WonBy, CommitBy, Act, LM.Grows, GrantOk, ER.GrantOf, HeldOk, KeepOk, AcksOk,
      MatchedOk, CandidatesOk, FreshOk, WonOk, ElectedOk, CommitsOk, EndsOk;
    forall g | g in NextHistory(h, a).w.grants ensures GrantOk(NextHistory(h, a), g) {
      if g in h.w.grants {
        GrantStays(h, a, initial, g);
      } else {
        NewGrantOk(h, a, initial, g);
      }
    }
  }

  // ---------- Acknowledgements ----------

  lemma HasHeldMore(held: set<Held>, held': set<Held>, node: NodeID, term: nat, index: nat)
    requires HasHeld(held, node, term, index) && held <= held'
    ensures HasHeld(held', node, term, index)
  {
  }

  lemma HoldsNow(held: set<Held>, x: Held, index: nat)
    requires x in held && index <= LastIndex(x.log)
    ensures HasHeld(held, x.node, x.term, index)
  {
    LastOf(x.log);
  }

  lemma AcksKept(h: History, a: Action, initial: Membership)
    requires Moves(h, a, initial)
    ensures AcksOk(NextHistory(h, a))
  {
    hide BaseOk, SafeMove, WonBy, CommitBy, Act, LM.Grows, LogChanges, LM.Justified, LM.Ordered, HasHeld, TakesBatch,
      HeldOk, KeepOk, GrantsOk, MatchedOk, CandidatesOk, FreshOk, WonOk, ElectedOk, CommitsOk, EndsOk, CF.Beliefs,
      CF.Commits, CF.CommitsSent, LastIndex;
    var h', i := NextHistory(h, a), Target(a);
    var s := h.w.r.c.nodes[i];
    var t, m := Act(s, a), MessageOf(a);
    MovesActs(h, a, initial);
    CF.ActFacts(s, a, m);
    forall b | InFlight(h'.w.r.c, b) ensures AckOk(h', b) {
      InFlightAfter(h.w.r, a, b);
      assert b in s.msgs ==> InFlight(h.w.r.c, b);
      if b.kind == MsgAppendResp && !b.reject {
        if InFlight(h.w.r.c, b) {
          assert AckOk(h, b);
          HasHeldMore(h.held, h'.held, b.from, b.term, b.index);
        } else {
          HoldsNow(h'.held, Held(t.id, t.term, t.log), b.index);
        }
      }
    }
  }

  lemma MatchedKept(h: History, a: Action, initial: Membership)
    requires Moves(h, a, initial)
    ensures MatchedOk(NextHistory(h, a))
  {
    hide BaseOk, SafeMove, WonBy, CommitBy, Act, LM.Grows, LogChanges, LM.Justified, LM.Ordered, HasHeld, TakesBatch,
      HeldOk, KeepOk, GrantsOk, AcksOk, CandidatesOk, WonOk, ElectedOk, CommitsOk, EndsOk, CF.AcksSent, CF.Commits,
      CF.CommitsSent, LastIndex, FreshOk;
    var h', i := NextHistory(h, a), Target(a);
    var s := h.w.r.c.nodes[i];
    var t, m := Act(s, a), MessageOf(a);
    MovesActs(h, a, initial);
    CF.ActFacts(s, a, m);
    forall j | j in h'.w.r.c.nodes ensures BeliefsOk(h'.held, h'.w.r.c.nodes[j]) {
      var v := h'.w.r.c.nodes[j];
      if v.role == Leader {
        forall p | p in v.matched ensures HasHeld(h'.held, p, v.term, v.matched[p]) {
          if j == i {
            BelievedHeld(h, a, initial, s, t, m, p);
          } else {
            assert BeliefsOk(h.held, h.w.r.c.nodes[j]);
            HasHeldMore(h.held, h'.held, p, v.term, v.matched[p]);
          }
        }
      }
    }
  }

  lemma BelievedHeld(h: History, a: Action, initial: Membership, s: State, t: State, m: Message, p: NodeID)
    requires MatchedOk(h) && AcksOk(h) && Enabled(h.w.r.c, a)
    requires s == h.w.r.c.nodes[Target(a)] && t == Act(s, a) && m == MessageOf(a) && CF.Beliefs(s, t, m)
    requires t.role == Leader && p in t.matched
    ensures HasHeld(h.held + HeldBy(s, t, m), p, t.term, t.matched[p])
  {
    hide Act, HasHeld, TakesBatch, LastIndex;
    var held' := h.held + HeldBy(s, t, m);
    assert BeliefsOk(h.held, s);
    if p == t.id && t.matched[p] <= LastIndex(t.log) {
      HoldsNow(held', Held(t.id, t.term, t.log), t.matched[p]);
    } else if s.role == Leader && s.term == t.term && p in s.matched && s.matched[p] == t.matched[p] {
      HasHeldMore(h.held, held', p, t.term, t.matched[p]);
    } else {
      assert InFlight(h.w.r.c, m);
      assert AckOk(h, m);
      HasHeldMore(h.held, held', p, t.term, t.matched[p]);
    }
  }

  // ---------- Elections ----------

  lemma CandidatesKept(h: History, a: Action, initial: Membership)
    requires Moves(h, a, initial)
    ensures CandidatesOk(NextHistory(h, a))
  {
    hide WonBy, CommitBy, HeldBy, Act, LM.Grows, LogChanges, LM.Justified, LM.Ordered, TakesBatch, EndsLike,
      GrantedTo, HeldOk, KeepOk, GrantsOk, AcksOk, MatchedOk, WonOk, ElectedOk, CommitsOk, EndsOk, LM.Inv,
      ES.VotesInv, OneLeaderPerTerm, GrantsVote, ER.GrantOf, ER.NodeOk, ER.RequestOk, ER.GrantOk, ES.NewMessages,
      ES.LeadsByQuorum, ES.VotesAnew, CM.Inv, CC.Inv, FreshOk;
    var h', i := NextHistory(h, a), Target(a);
    var s := h.w.r.c.nodes[i];
    var t, m := Act(s, a), MessageOf(a);
    MovesActs(h, a, initial);
    ES.ActVotes(s, a, m);
    assert h.w.grants <= h'.w.grants;
    forall j | j in h'.w.r.c.nodes ensures VotesOk(h'.w.grants, h'.w.r.c.nodes[j]) {
      if j == i {
        assert VotesOk(h.w.grants, s);
        if ES.CountsVote(s, m) {
          CountedIsGranted(h, a);
        }
        VotesStay(h.w.grants, h'.w.grants, s, t, m);
      } else {
        assert VotesOk(h.w.grants, h.w.r.c.nodes[j]);
        MoreGranted(h.w.grants, h'.w.grants, h.w.r.c.nodes[j]);
      }
    }
  }

  lemma MoreGranted(grants: set<ER.Grant>, grants': set<ER.Grant>, s: State)
    requires VotesOk(grants, s) && grants <= grants'
    ensures VotesOk(grants', s)
  {
    if s.role == Candidate && !s.preVote && s.votes.Some? {
      forall v | v in s.votes.value && v != s.id ensures GrantedTo(grants', v, s.term, s.id) {
        GrantedMore(grants, grants', v, s.term, s.id);
      }
    }
  }

  lemma GrantedMore(grants: set<ER.Grant>, grants': set<ER.Grant>, v: NodeID, term: nat, c: NodeID)
    requires GrantedTo(grants, v, term, c) && grants <= grants'
    ensures GrantedTo(grants', v, term, c)
  {
  }

  lemma VotesStay(grants: set<ER.Grant>, grants': set<ER.Grant>, s: State, t: State, m: Message)
    requires VotesOk(grants, s) && grants <= grants' && ES.VotesCounted(s, t, m) && t.id == s.id
    requires ES.CountsVote(s, m) ==> GrantedTo(grants, m.from, s.term, s.id)
    ensures VotesOk(grants', t)
  {
    hide ES.CountsVote;
    if t.role == Candidate && !t.preVote && t.votes.Some? {
      forall v | v in t.votes.value && v != t.id ensures GrantedTo(grants', v, t.term, t.id) {
        GrantedMore(grants, grants', v, t.term, t.id);
      }
    }
  }

  lemma CountedIsGranted(h: History, a: Action)
    requires ER.Inv(h.w) && Enabled(h.w.r.c, a) && ES.CountsVote(h.w.r.c.nodes[Target(a)], MessageOf(a))
    requires h.w.r.c.nodes[Target(a)].id == Target(a)
    ensures GrantedTo(h.w.grants, MessageOf(a).from, h.w.r.c.nodes[Target(a)].term, Target(a))
  {
    hide ER.NodeOk, ER.RequestOk, ER.GrantOk;
    assert a.Deliver?;
    assert InFlight(h.w.r.c, a.m);
    assert ER.AnswerOk(h.w.grants, a.m);
  }

  /** A node that takes the lead takes it by counting a vote, in a term nobody has led. */
  lemma WinIsNew(h: History, a: Action, initial: Membership)
    requires Moves(h, a, initial)
    requires var s := h.w.r.c.nodes[Target(a)]; s.role != Leader && Act(s, a).role == Leader
    ensures var s := h.w.r.c.nodes[Target(a)];
      a.Deliver? && Act(s, a).term == s.term && s.term !in h.w.r.led && s.role == Candidate
  {
    hide Inv, SafeMove, Act, NextHistory, BaseOk, LM.Grows, GrantedTo, ES.CountsVote;
    var q := WinCounts(h, a, initial);
    SameWinner(h, initial, Target(a), q);
  }

  /** The log a new leader was elected with has no entry of its term yet. */
  lemma NewWonOk(h: History, a: Action, initial: Membership)
    requires Moves(h, a, initial)
    requires var s := h.w.r.c.nodes[Target(a)]; s.role != Leader && Act(s, a).role == Leader
    ensures var s, t, led := h.w.r.c.nodes[Target(a)], Act(h.w.r.c.nodes[Target(a)], a), NextHistory(h, a).w.r.led;
      && t.term in led && s.log <= led[t.term] && LM.Justified(s.log, led) && LM.Ordered(s.log, t.term)
      && forall k | 0 < k < |s.log| :: s.log[k].term < t.term
  {
    hide WonBy, CommitBy, HeldBy, Act, LM.Grows, TakesBatch, EndsLike, ES.VotesInv, ER.Inv, ES.KeepsVotesApart,
      OneLeaderPerTerm, HeldOk, KeepOk, GrantsOk, AcksOk, MatchedOk, CandidatesOk, FreshOk, WonOk, ElectedOk,
      CommitsOk, EndsOk, LM.LeaderLogOk, LM.MessageOk, LogStep, Contiguous, CM.Inv, CC.Inv;
    var i := Target(a);
    var s := h.w.r.c.nodes[i];
    WinIsNew(h, a, initial);
    LeaderIsLed(h, a);
    var m := LM.ActIsLogStep(h.w.r, a);
    LM.RecordsGrow(h.w.r, i, Act(s, a), if a.Emit? then h.w.r.c.net + s.msgs else h.w.r.c.net, m);
    assert LM.NodeOk(h.w.r, i);
    LM.JustifiedGrows(s.log, h.w.r.led, NextHistory(h, a).w.r.led);
    NoOwnEntryYet(s.log, h.w.r.led, s.term);
  }

  lemma NoOwnEntryYet(L: seq<Entry>, led: map<nat, seq<Entry>>, term: nat)
    requires LM.Justified(L, led) && LM.Ordered(L, term) && term !in led
    ensures forall k | 0 < k < |L| :: L[k].term < term
  {
  }

  lemma WonStays(won: map<nat, EntryLog>, led: map<nat, seq<Entry>>, led': map<nat, seq<Entry>>, U: nat)
    requires U in won && U in led && won[U] <= led[U] && LM.Justified(won[U], led) && LM.Grows(led, led')
    ensures U in led' && won[U] <= led'[U] && LM.Justified(won[U], led')
  {
    LM.JustifiedGrows(won[U], led, led');
  }

  lemma WonKept(h: History, a: Action, initial: Membership)
    requires Moves(h, a, initial)
    ensures WonOk(NextHistory(h, a))
  {
    hide CommitBy, HeldBy, Act, LM.Grows, LM.Justified, LM.Ordered, SafeMove, ES.VotesInv, ER.Inv, OneLeaderPerTerm,
      LM.Inv, HeldOk, KeepOk, GrantsOk, AcksOk, MatchedOk, CandidatesOk, ElectedOk, CommitsOk, EndsOk, CM.Inv, CC.Inv;
    var h', s := NextHistory(h, a), h.w.r.c.nodes[Target(a)];
    var t := Act(s, a);
    LedKeys(h, a, initial);
    if t.role == Leader && s.role != Leader {
      NewWonOk(h, a, initial);
    }
    forall U | U in h'.won
      ensures h'.won[U] <= h'.w.r.led[U] && LM.Justified(h'.won[U], h'.w.r.led) && LM.Ordered(h'.won[U], U)
      ensures forall k | 0 < k < |h'.won[U]| :: h'.won[U][k].term < U
    {
      if !(t.role == Leader && s.role != Leader && U == t.term) {
        WonStays(h.won, h.w.r.led, h'.w.r.led, U);
      }
    }
  }

  /** A term is led from then on that its first leader is elected. */
  lemma LedKeys(h: History, a: Action, initial: Membership)
    requires Moves(h, a, initial)
    ensures var s, t := h.w.r.c.nodes[Target(a)], Act(h.w.r.c.nodes[Target(a)], a);
      NextHistory(h, a).w.r.led.Keys == h.w.r.led.Keys + (if t.role == Leader && s.role != Leader then {t.term} else {})
  {
    hide Inv, BaseOk, CommitBy, HeldBy, WonBy, Act, LM.Grows, SafeMove;
    LeaderWasLed(h, a, initial);
  }

  lemma LeaderWasLed(h: History, a: Action, initial: Membership)
    requires Moves(h, a, initial)
    ensures var s, t := h.w.r.c.nodes[Target(a)], Act(h.w.r.c.nodes[Target(a)], a);
      t.role == Leader && s.role == Leader ==> t.term == s.term && s.term in h.w.r.led && h.w.r.led[s.term] == s.log
  {
    hide Inv, CommitBy, HeldBy, WonBy, Act, LM.Grows, SafeMove, LM.Inv, LogStep, NextHistory, LM.Justified,
      LM.Ordered, ES.VotesInv, ER.Inv, CM.Inv, CC.Inv, OneLeaderPerTerm;
    ActorOk(h, a, initial);
    InvBase(h, initial);
    var m := LM.ActIsLogStep(h.w.r, a);
    if Act(h.w.r.c.nodes[Target(a)], a).role == Leader {
      LeaderTermStays(h.w.r.c.nodes[Target(a)], Act(h.w.r.c.nodes[Target(a)], a), m);
    }
  }

  lemma VoterStays(h: History, a: Action, initial: Membership, v: NodeID, U: nat)
    requires Moves(h, a, initial) && VoterOk(h, v, U) && U in NextHistory(h, a).won && NextHistory(h, a).won[U] == h.won[U]
    ensures VoterOk(NextHistory(h, a), v, U)
  {
    hide BaseOk, SafeMove, HeldBy, WonBy, CommitBy, Act, LM.Grows, LogChanges, LM.Justified, LM.Ordered, Keeps,
      ER.NoNewer, HeldOk, KeepOk, GrantsOk, AcksOk, MatchedOk, CandidatesOk, FreshOk, WonOk, ElectedOk, CommitsOk,
      EndsOk;
    var h' := NextHistory(h, a);
    MovesActs(h, a, initial);
    var log: EntryLog :| VoterHad(h, v, U, log);
    LM.JustifiedGrows(log, h.w.r.led, h'.w.r.led);
    forall x | x in h'.held && x.node == v && x.term < U ensures Keeps(h'.w.r.led, x, log, U - 1) {
      if x !in h.held {
        NewHeldOk(h, a, initial, x);
      }
      KeepsGrows(h.w.r.led, h'.w.r.led, x, log, log, U - 1, U - 1);
    }
    assert VoterHad(h', v, U, log);
  }

  /** Until a term is led, nothing is lost in it. */
  lemma LostBefore(led: map<nat, seq<Entry>>, x: Held, log: seq<Entry>, U: nat)
    requires Keeps(led, x, log, U) && U !in led && U > 0
    ensures Keeps(led, x, log, U - 1)
  {
    hide Conflict;
    forall p | 0 <= p <= |x.log| && !(x.log[..p] <= log) ensures Lost(led, x.log[..p], x.term, U - 1) {
      var W :| x.term < W <= U && W in led && Conflict(led[W], x.log[..p]);
    }
  }

  /** What Log Matching's invariant says of the node that acts. */
  lemma ActorOk(h: History, a: Action, initial: Membership)
    requires Moves(h, a, initial)
    ensures Target(a) in h.w.r.c.nodes && LM.NodeOk(h.w.r, Target(a))
  {
    hide WonBy, CommitBy, HeldBy, Act, LM.Grows, LM.Inv, LM.NodeOk, SafeMove, ES.VotesInv, ER.Inv, OneLeaderPerTerm,
      HeldOk, KeepOk, GrantsOk, AcksOk, MatchedOk, CandidatesOk, FreshOk, WonOk, ElectedOk, CommitsOk, EndsOk,
      NextHistory, CM.Inv, CC.Inv;
    LM.InvParts(h.w.r, Target(a));
  }

  lemma GrantBoth(h: History, g: ER.Grant, initial: Membership)
    requires Inv(h, initial) && g in h.w.grants
    ensures GrantOk(h, g) && ER.GrantOk(h.w.r.c, g)
  {
    hide LM.Inv, ES.VotesInv, ER.MessageOk, ER.NodeOk, GrantOk, ER.GrantOk, OneLeaderPerTerm, HeldOk, KeepOk, AcksOk,
      MatchedOk, CandidatesOk, FreshOk, WonOk, ElectedOk, CommitsOk, EndsOk, CM.Inv, CC.Inv;
  }

  /** Whoever voted for the new leader had all it had held before, but what was lost before. */
  lemma NewVoterOk(h: History, a: Action, initial: Membership, v: NodeID)
    requires Moves(h, a, initial)
    requires var s := h.w.r.c.nodes[Target(a)]; s.role != Leader && Act(s, a).role == Leader
    requires v == Target(a) || GrantedTo(h.w.grants, v, h.w.r.c.nodes[Target(a)].term, Target(a))
    ensures VoterOk(NextHistory(h, a), v, h.w.r.c.nodes[Target(a)].term)
  {
    hide CommitBy, HeldBy, Act, LM.Grows, LogChanges, LM.Justified, LM.Ordered, SafeMove, BaseOk, Inv, Keeps,
      ER.NoNewer, GrantedTo;
    var i := Target(a);
    var s, h' := h.w.r.c.nodes[i], NextHistory(h, a);
    MovesActs(h, a, initial);
    WinIsNew(h, a, initial);
    CandidateVoter(h, initial, i, v);
    var log: EntryLog :| VoterLog(h, v, s.term, s.log, s.term, log);
    LM.JustifiedGrows(log, h.w.r.led, h'.w.r.led);
    forall x | x in h'.held && x.node == v && x.term < s.term ensures Keeps(h'.w.r.led, x, log, s.term - 1) {
      if x !in h.held {
        NewHeldOk(h, a, initial, x);
      }
      LostBefore(h.w.r.led, x, log, s.term);
      KeepsGrows(h.w.r.led, h'.w.r.led, x, log, log, s.term - 1, s.term - 1);
    }
    assert VoterHad(h', v, s.term, log);
  }

  lemma ElectedKept(h: History, a: Action, initial: Membership)
    requires Moves(h, a, initial)
    ensures ElectedOk(NextHistory(h, a), initial)
  {
    hide CommitBy, HeldBy, Act, LM.Grows, SafeMove, BaseOk, VoterOk, ES.CountsVote, HeldOk, KeepOk, GrantsOk, AcksOk,
      MatchedOk, CandidatesOk, CommitsOk, GrantedTo, NextHistory;
    var h', s := NextHistory(h, a), h.w.r.c.nodes[Target(a)];
    var t := Act(s, a);
    WonIs(h, a);
    forall U | U in h'.won ensures ElectedBy(h', initial, U) {
      if t.role == Leader && s.role != Leader && U == t.term {
        NewElected(h, a, initial);
      } else {
        assert ElectedBy(h, initial, U);
        var l, q :| Behind(h, initial, U, l, q);
        forall v | v in q ensures VoterOk(h', v, U) {
          VoterStays(h, a, initial, v, U);
        }
        RecordsStay(h, a, U, l, q);
        assert Behind(h', initial, U, l, q);
      }
    }
  }

  lemma RecordsStay(h: History, a: Action, U: nat, l: NodeID, q: set<NodeID>)
    requires (U, l) in h.w.r.leaders && ES.Supported(h.w.r.ballots, (U, l), q)
    ensures var r' := NextHistory(h, a).w.r; (U, l) in r'.leaders && ES.Supported(r'.ballots, (U, l), q)
  {
    hide Act, HeldBy, WonBy, CommitBy;
  }

  lemma WonIs(h: History, a: Action)
    requires Enabled(h.w.r.c, a)
    ensures NextHistory(h, a).won == WonBy(h.w.r.c.nodes[Target(a)], Act(h.w.r.c.nodes[Target(a)], a), h.won)
  {
    hide Act;
  }

  lemma NewElected(h: History, a: Action, initial: Membership)
    requires Moves(h, a, initial)
    requires var s := h.w.r.c.nodes[Target(a)]; s.role != Leader && Act(s, a).role == Leader
    ensures ElectedBy(NextHistory(h, a), initial, Act(h.w.r.c.nodes[Target(a)], a).term)
  {
    hide Inv, SafeMove, Act, LM.Grows, BaseOk, VoterOk, GrantedTo, NextHistory, ES.CountsVote, CC.In;
    var i := Target(a);
    var s, h' := h.w.r.c.nodes[i], NextHistory(h, a);
    var q := WinCounts(h, a, initial);
    InvBase(h, initial);
    NodeFacts(h, initial, i);
    WinRecorded(h, a, q);
    forall v | v in q ensures VoterOk(h', v, s.term) {
      NewVoterOk(h, a, initial, v);
    }
    assert Behind(h', initial, s.term, i, q);
  }

  lemma InvBase(h: History, initial: Membership)
    requires Inv(h, initial)
    ensures BaseOk(h, initial)
  {
  }

  lemma WinRecorded(h: History, a: Action, q: set<NodeID>)
    requires Enabled(h.w.r.c, a)
    requires var s := h.w.r.c.nodes[Target(a)]; s.role != Leader && Act(s, a).role == Leader && Act(s, a).term == s.term
    requires ES.Supported(h.w.r.ballots, (h.w.r.c.nodes[Target(a)].term, Target(a)), q)
    ensures var s, h' := h.w.r.c.nodes[Target(a)], NextHistory(h, a);
      && s.term in h'.won && h'.won[s.term] == s.log && (s.term, Target(a)) in h'.w.r.leaders
      && ES.Supported(h'.w.r.ballots, (s.term, Target(a)), q)
  {
    hide Act, HeldBy, CommitBy;
  }

  // ---------- Commits ----------

  lemma CommitStays(h: History, a: Action, initial: Membership, cm: Commit)
    requires Moves(h, a, initial) && CommitOk(h, initial, cm)
    ensures CommitOk(NextHistory(h, a), initial, cm)
  {
    hide BaseOk, SafeMove, HeldBy, WonBy, CommitBy, Act, LM.Grows, HeldOk, KeepOk, GrantsOk, AcksOk, MatchedOk,
      CandidatesOk, FreshOk, WonOk, ElectedOk, CommitsOk, EndsOk;
    PrefixGrows(cm.whole, h.w.r.led, NextHistory(h, a).w.r.led, cm.term);
    QuorumStays(h.held, NextHistory(h, a).held, initial, cm);
  }

  lemma QuorumStays(held: set<Held>, held': set<Held>, initial: Membership, cm: Commit)
    requires HeldByQuorum(held, initial, cm) && held <= held'
    ensures HeldByQuorum(held', initial, cm)
  {
    var q :| CC.In(initial, cm.whole).HasQuorum(q) && AllHold(held, q, cm);
    forall p | p in q ensures HoldsCommit(held', p, cm) {
      assert HoldsCommit(held, p, cm);
    }
    assert AllHold(held', q, cm);
  }

  /** What the recount commits is a prefix of the leader's log that ends with an entry of its term. */
  lemma TargetIsOwn(s: State, c: nat)
    requires s.term > 0 && CommitTarget(s) == Some(c)
    ensures 0 < c < |s.log| && s.log[c].term == s.term && s.membership.HasQuorum(Acked(s, c))
  {
    CommitSearch.TermAt(s.log, c);
  }

  lemma NewCommitOk(h: History, a: Action, initial: Membership, cm: Commit)
    requires Moves(h, a, initial)
    requires var s := h.w.r.c.nodes[Target(a)]; cm in CommitBy(s, Act(s, a), MessageOf(a))
    ensures CommitOk(h, initial, cm)
  {
    hide HeldBy, WonBy, Act, LM.Grows, LM.Justified, LM.Ordered, BaseOk, CommitTarget, HasHeld, SafeMove, NextHistory,
      AckOk, BeliefsOk, HeldOk, KeepOk, GrantsOk, CandidatesOk, WonOk, ElectedOk, CommitsOk, EndsOk, HeldByQuorum,
      Acked, FreshOk;
    var s, m := h.w.r.c.nodes[Target(a)], MessageOf(a);
    var c := Act(s, a).committed;
    ActorOk(h, a, initial);
    var s1 := Recorded(s, m.from, m.index);
    TargetIsOwn(s1, c);
    AckIsOk(h, a, initial);
    AckedHeld(h, s, m, c, initial);
  }

  lemma AckIsOk(h: History, a: Action, initial: Membership)
    requires Moves(h, a, initial) && CF.Acknowledged(h.w.r.c.nodes[Target(a)], MessageOf(a))
    ensures AckOk(h, MessageOf(a)) && BeliefsOk(h.held, h.w.r.c.nodes[Target(a)])
    ensures var s := h.w.r.c.nodes[Target(a)]; s.membership == CC.In(initial, s.log)
  {
    hide WonBy, CommitBy, HeldBy, Act, LM.Grows, LM.Inv, ES.VotesInv, ER.Inv, OneLeaderPerTerm, TakesBatch, EndsLike,
      GrantsVote, ES.VotesAnew, ES.CountsVote, HeldOk, KeepOk, GrantsOk, CandidatesOk, WonOk, ElectedOk, CommitsOk,
      EndsOk, NextHistory, AckOk, BeliefsOk, CM.Inv, CC.Inv, FreshOk;
    assert a.Deliver?;
    assert InFlight(h.w.r.c, a.m);
    InvBase(h, initial);
    NodeFacts(h, initial, Target(a));
  }

  lemma AckedHeld(h: History, s: State, m: Message, c: nat, initial: Membership)
    requires HeldOk(h) && s.term in h.w.r.led && h.w.r.led[s.term] == s.log && c < |s.log|
    requires BeliefsOk(h.held, s) && AckOk(h, m) && CF.Acknowledged(s, m)
    requires CC.In(initial, s.log).HasQuorum(Acked(Recorded(s, m.from, m.index), c))
    ensures HeldByQuorum(h.held, initial, Commit(s.term, s.log[..c + 1], s.log))
  {
    var s1, cm := Recorded(s, m.from, m.index), Commit(s.term, s.log[..c + 1], s.log);
    forall p | p in Acked(s1, c) ensures HoldsCommit(h.held, p, cm) {
      assert HasHeld(h.held, p, s.term, s1.matched[p]);
      var x :| x in h.held && x.node == p && x.term == s.term && s1.matched[p] < |x.log|;
      assert s.log[..c + 1] == x.log[..c + 1];
    }
    assert AllHold(h.held, Acked(s1, c), cm);
  }

  lemma CommitsKept(h: History, a: Action, initial: Membership)
    requires Moves(h, a, initial)
    ensures CommitsOk(NextHistory(h, a), initial)
  {
    hide BaseOk, SafeMove, HeldBy, WonBy, CommitBy, Act, LM.Grows, CommitOk, HeldOk, KeepOk, GrantsOk, AcksOk,
      MatchedOk, CandidatesOk, FreshOk, WonOk, ElectedOk;
    forall cm | cm in NextHistory(h, a).commits ensures CommitOk(NextHistory(h, a), initial, cm) {
      if cm !in h.commits {
        NewCommitOk(h, a, initial, cm);
      }
      CommitStays(h, a, initial, cm);
    }
  }

  // ---------- Candidates and the ends of joint steps ----------

  lemma FreshStep(s: State, t: State, m: Message)
    requires LogStep(s, t, m) && ER.CandidateStays(s, t) && LM.Ordered(s.log, s.term)
    requires s.role == Candidate ==> forall k | 0 < k < |s.log| :: s.log[k].term < s.term
    ensures t.role == Candidate ==> forall k | 0 < k < |t.log| :: t.log[k].term < t.term
  {
    hide SendsWell, Append, Fits;
  }

  lemma FreshKept(h: History, a: Action, initial: Membership)
    requires Moves(h, a, initial)
    ensures FreshOk(NextHistory(h, a))
  {
    hide BaseOk, SafeMove, Act, LM.Grows, LogStep, LM.Ordered, LM.Justified, NextHistory, ER.CandidateStays,
      LogChanges, LM.Inv, ER.Inv, ES.VotesInv, CM.Inv, CC.Inv, OneLeaderPerTerm, HeldOk, KeepOk, GrantsOk, AcksOk,
      MatchedOk, CandidatesOk, WonOk, ElectedOk, CommitsOk, EndsOk;
    MovesActs(h, a, initial);
    var m := ActorSteps(h, a, initial);
    var s := h.w.r.c.nodes[Target(a)];
    FreshStep(s, Act(s, a), m);
  }

  /** The step as Log Matching and the election restriction see it. */
  lemma ActorSteps(h: History, a: Action, initial: Membership) returns (m: Message)
    requires Moves(h, a, initial)
    ensures var s := h.w.r.c.nodes[Target(a)]; LogStep(s, Act(s, a), m) && ER.CandidateStays(s, Act(s, a))
  {
    hide Inv, SafeMove, Act, LM.Grows, LogStep, LM.NodeOk, LM.LeaderLogOk, NextHistory, ER.CandidateStays,
      ES.VotesInv, ER.Inv, CM.Inv, CC.Inv, OneLeaderPerTerm, LM.Inv;
    InvBase(h, initial);
    m := LM.ActIsLogStep(h.w.r, a);
    FromOther(h.w.r, a);
    ER.ActStays(h.w.r.c.nodes[Target(a)], a);
  }

  lemma FromOther(r: Run, a: Action)
    requires LM.Inv(r) && Enabled(r.c, a)
    ensures NoPreVoteWhileLeading(r.c.nodes[Target(a)]) && (a.Deliver? ==> a.m.from != r.c.nodes[Target(a)].id)
  {
    hide LM.LeaderLogOk, LM.Justified, LM.Ordered, TakenFrom;
    assert LM.NodeOk(r, Target(a));
    if a.Deliver? {
      assert InFlight(r.c, a.m);
      assert LM.MessageOk(r, a.m);
    }
  }

  /** Handlers other than that of acknowledgements leave a leader's log alone. */
  lemma OthersKeepLog(s: State, m: Message)
    ensures HandlePreVote(s, m).log == s.log && HandlePreVoteResp(s, m).log == s.log && HandleVote(s, m).log == s.log
    ensures s.role != Candidate ==> HandleVoteResp(s, m).log == s.log
  {
    hide LogUpToDate, Requests, BecomeLeader, Contiguous, LastIndex, TermOrZero;
  }

  lemma AppendKeepsLog(s: State, m: Message)
    ensures HandleAppend(s, m).role == Leader ==> HandleAppend(s, m).log == s.log
  {
    hide Append, ScanMembership, Contiguous, LastIndex, Term;
  }

  /** A recount that changes the log commits, and the commit reaches the newest config entry. */
  lemma RecountEnds(s: State)
    requires AdvanceCommit(s).log != s.log
    ensures CommitTarget(s) == Some(AdvanceCommit(s).committed) && s.membershipIndex <= AdvanceCommit(s).committed
  {
    hide CommitTarget, ProposeInternal, AppendMessages;
    var c := CommitTarget(s).value;
    CommitSearch.ProposeKeepsCommitted(BroadcastAppend(s.(committed := c)), Conf(ConfChange({}, s.membership.newVoters, {}, false)));
  }

  lemma AckEnds(s: State, m: Message)
    requires HandleAppendResp(s, m).log != s.log
    ensures var t := HandleAppendResp(s, m);
      && s.role == Leader && m.term == s.term && !m.reject
      && CommitTarget(Recorded(s, m.from, m.index)) == Some(t.committed) && s.membershipIndex <= t.committed
  {
    hide CommitTarget, AdvanceCommit, AppendMessage;
    RecountEnds(Recorded(s, m.from, m.index));
  }

  /** A leader ends a joint step only by a recount that commits the entry that began it. */
  lemma EndProposed(s: State, a: Action)
    requires s.role == Leader && Act(s, a).role == Leader
    requires var t := Act(s, a); |t.log| == |s.log| + 1 && CB.EndsJoint(t.log[|s.log|])
    ensures var t, m := Act(s, a), MessageOf(a);
      && CF.Acknowledged(s, m) && CommitTarget(Recorded(s, m.from, m.index)) == Some(t.committed)
      && s.membershipIndex <= t.committed
  {
    hide ProposeInternal, AppendMessages, HandlePreVote, HandlePreVoteResp, HandleVote, HandleVoteResp, HandleAppend,
      HandleAppendResp, CommitTarget, Contiguous, Requests;
    match a
    case ProposeAt(_, command) => ProposeEffect(s, Command(command));
    case ChangeAt(_, v, l) => ProposeEffect(s, Conf(ConfChange(s.membership.oldVoters, IdSet(v), IdSet(l), true)));
    case Deliver(m) =>
      OthersKeepLog(AdoptTerm(s, m), m);
      AppendKeepsLog(AdoptTerm(s, m), m);
      if m.kind == MsgAppendResp && (m.to == 0 || m.to == s.id) {
        AckEnds(AdoptTerm(s, m), m);
      }
    case _ =>
  }

  lemma EndStays(h: History, commits: set<Commit>, initial: Membership, L: seq<Entry>, M: seq<Entry>, k: nat)
    requires k < |L| && L <= M && EndMade(h.commits, initial, L, k) && h.commits <= commits
    ensures EndMade(commits, initial, M, k)
  {
    hide CB.PrevConf;
    var cm :| cm in h.commits && MadeEnd(cm, initial, L, k);
    SamePrev(initial, L, M, k);
    assert MadeEnd(cm, initial, M, k);
  }

  /** How a leader's log comes out of one step. */
  ghost predicate LeadsOn(s: State, t: State) {
    && t.role == Leader && t.term == s.term && s.log <= t.log
    && (t.log == s.log || |t.log| == |s.log| + 1)
    && (s.role != Leader ==> s.role == Candidate && (t.log == s.log || !CB.EndsJoint(t.log[|s.log|])))
  }

  /** The new entry of a leader's log, if it ends a joint step. */
  lemma NewEndMade(h: History, a: Action, initial: Membership, s: State, t: State)
    requires Enabled(h.w.r.c, a) && s == h.w.r.c.nodes[Target(a)] && t == Act(s, a)
    requires s.role == Leader && LeadsOn(s, t) && |t.log| == |s.log| + 1
    requires CB.EndsJoint(t.log[|s.log|]) && t.log[|s.log|].term == s.term
    requires Moves(h, a, initial)
    ensures EndMade(NextHistory(h, a).commits, initial, t.log, |s.log|)
  {
    hide Inv, SafeMove, Act, LM.Grows, BaseOk, HeldBy, WonBy, CommitTarget, LM.NodeOk, ES.NodeOk, CC.Chain;
    var m := MessageOf(a);
    InvBase(h, initial);
    NodeFacts(h, initial, Target(a));
    LeaderHasTerm(h.w.r, Target(a));
    EndProposed(s, a);
    TargetIsOwn(Recorded(s, m.from, m.index), t.committed);
    var cm := Commit(s.term, s.log[..t.committed + 1], s.log);
    assert cm in CommitBy(s, t, m);
    assert t.log[..|s.log|] == s.log;
    assert MadeEnd(cm, initial, t.log, |s.log|);
  }

  lemma LeaderHasTerm(r: Run, i: NodeID)
    requires i in r.c.nodes && LM.NodeOk(r, i) && r.c.nodes[i].role == Leader
    ensures r.c.nodes[i].term > 0 && r.c.nodes[i].term in r.led && r.led[r.c.nodes[i].term] == r.c.nodes[i].log
  {
  }

  lemma LeaderLogMoves(s: State, t: State, m: Message)
    requires LogStep(s, t, m) && t.role == Leader
    ensures LeadsOn(s, t)
  {
    hide SendsWell, Append, Fits;
  }

  lemma EndsKept(h: History, a: Action, initial: Membership)
    requires Moves(h, a, initial)
    ensures EndsOk(NextHistory(h, a), initial)
  {
    hide Inv, SafeMove, Act, LM.Grows, BaseOk, EndMade, CB.EndsJoint, LogStep, ER.CandidateStays, NextHistory;
    var h', i := NextHistory(h, a), Target(a);
    var s := h.w.r.c.nodes[i];
    var t := Act(s, a);
    var m := ActorSteps(h, a, initial);
    LedMoves(h, a);
    CommitsGrow(h, a);
    InvEnds(h, initial);
    forall W, k | W in h'.w.r.led && 0 < k < |h'.w.r.led[W]| && CB.EndsJoint(h'.w.r.led[W][k]) && h'.w.r.led[W][k].term == W
      ensures EndMade(h'.commits, initial, h'.w.r.led[W], k)
    {
      if t.role == Leader && W == t.term {
        LeaderLogMoves(s, t, m);
        OwnEndMade(h, a, initial, k);
      } else {
        EndStays(h, h'.commits, initial, h.w.r.led[W], h.w.r.led[W], k);
      }
    }
  }

  lemma InvEnds(h: History, initial: Membership)
    requires Inv(h, initial)
    ensures EndsOk(h, initial) && FreshOk(h)
  {
  }

  lemma CommitsGrow(h: History, a: Action)
    ensures h.commits <= NextHistory(h, a).commits
  {
    hide Act, HeldBy, WonBy, CommitBy;
  }

  lemma LedMoves(h: History, a: Action)
    requires Enabled(h.w.r.c, a)
    ensures var t := Act(h.w.r.c.nodes[Target(a)], a);
      NextHistory(h, a).w.r.led == if t.role == Leader then h.w.r.led[t.term := t.log] else h.w.r.led
  {
    hide Act, HeldBy, WonBy, CommitBy;
  }

  lemma OwnEndMade(h: History, a: Action, initial: Membership, k: nat)
    requires Enabled(h.w.r.c, a) && LeadsOn(h.w.r.c.nodes[Target(a)], Act(h.w.r.c.nodes[Target(a)], a))
    requires var t := Act(h.w.r.c.nodes[Target(a)], a); 0 < k < |t.log| && CB.EndsJoint(t.log[k]) && t.log[k].term == t.term
    requires Moves(h, a, initial) && EndsOk(h, initial) && FreshOk(h)
    ensures EndMade(NextHistory(h, a).commits, initial, Act(h.w.r.c.nodes[Target(a)], a).log, k)
  {
    hide Inv, SafeMove, Act, LM.Grows, BaseOk, EndMade, CB.EndsJoint, NextHistory, LM.NodeOk, ES.NodeOk, CC.Chain,
      CM.CacheOk, CC.In;
    var s, t := h.w.r.c.nodes[Target(a)], Act(h.w.r.c.nodes[Target(a)], a);
    if k < |s.log| {
      assert s.log[k] == t.log[k];
      assert s.role == Leader;
      InvBase(h, initial);
      NodeFacts(h, initial, Target(a));
      LeaderHasTerm(h.w.r, Target(a));
      CommitsGrow(h, a);
      EndStays(h, NextHistory(h, a).commits, initial, s.log, t.log, k);
    } else {
      NewEndMade(h, a, initial, s, t);
    }
  }

  // ---------- Whole runs ----------

  lemma NextKeepsInv(h: History, a: Action, initial: Membership)
    requires Inv(h, initial) && SafeMove(h, a)
    ensures Inv(NextHistory(h, a), initial)
  {
    hide BaseOk, SafeMove, LM.Grows, HeldOk, KeepOk, GrantsOk, AcksOk, MatchedOk, CandidatesOk, FreshOk, WonOk,
      ElectedOk, CommitsOk, EndsOk, NextHistory;
    if Enabled(h.w.r.c, a) {
      BaseKept(h, a, initial);
      LedGrows(h, a, initial);
      HeldKept(h, a, initial);
      KeepKept(h, a, initial);
      GrantsKept(h, a, initial);
      AcksKept(h, a, initial);
      MatchedKept(h, a, initial);
      CandidatesKept(h, a, initial);
      FreshKept(h, a, initial);
      WonKept(h, a, initial);
      ElectedKept(h, a, initial);
      CommitsKept(h, a, initial);
      EndsKept(h, a, initial);
    } else {
      NotEnabledHistory(h, a);
    }
  }

  lemma BeginInv(start: Run, initial: Membership)
    requires Initial(start, initial)
    ensures Inv(Begin(start), initial)
  {
    hide LM.Inv, ES.VotesInv, ER.Inv, CM.Inv, CC.Inv;
    CM.InitialInv(start, initial);
    CC.InitialInv(start, initial);
    LM.InitialInv(start, initial);
    ES.InitialInv(start, initial);
    ER.InitialInv(start, initial);
    assert forall m :: !InFlight(start.c, m);
  }
}
