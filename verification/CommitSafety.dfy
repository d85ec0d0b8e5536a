/**
 Election Safety, Leader Completeness and State Machine Safety (sections 5.2 and 5.4.3 of the Raft paper) in every
 run that keeps clear of the four steps of Histories, whatever memberships it goes through: no term has two
 leaders, every later leader has all that was committed, a committed prefix never changes, and no two nodes
 commit different entries at one index. LostCommits shows that the last of the four steps alone is enough to
 break all but the first, and TwoLeaders that each of the first two is enough to break that.
 */
module CommitSafety {
  import opened Wrappers
  import opened Quorums
  import opened RaftLog
  import opened RaftNode
  import opened RaftSteps
  import opened RaftRuns
  import opened Acks
  import opened Histories
  import opened Completeness
  import opened SafeRuns
  import CC = ConfChain
  import CF = CallFacts
  import CM = CachedMembership
  import ER = ElectionRestriction
  import ES = ElectionSafety
  import LM = LogMatching

  // ---------- What each node has committed ----------

  /** Some commit covers this prefix of a log. */
  ghost predicate Covered(commits: set<Commit>, log: seq<Entry>, committed: nat, term: nat) {
    committed == 0 || exists cm :: cm in commits && Covers(cm, log, committed, term)
  }

  ghost predicate Covers(cm: Commit, log: seq<Entry>, committed: nat, term: nat) {
    cm.term <= term && committed < |cm.log| && committed < |log| && log[..committed + 1] == cm.log[..committed + 1]
  }

  ghost predicate NodesCovered(h: History) {
    forall i | i in h.w.r.c.nodes :: Covered(h.commits, h.w.r.c.nodes[i].log, h.w.r.c.nodes[i].committed, h.w.r.c.nodes[i].term)
  }

  /** Some commit covers the index. */
  ghost predicate IndexCovered(commits: set<Commit>, index: nat, term: nat) {
    index == 0 || exists cm :: cm in commits && cm.term <= term && index < |cm.log|
  }

  ghost predicate MessageCovered(h: History, m: Message) {
    m.kind == MsgAppend ==> IndexCovered(h.commits, m.commit, m.term)
  }

  ghost predicate MessagesCovered(h: History) {
    forall m | InFlight(h.w.r.c, m) :: MessageCovered(h, m)
  }

  ghost predicate FullInv(h: History, initial: Membership) {
    Inv(h, initial) && NodesCovered(h) && MessagesCovered(h)
  }

  lemma CoveredMore(commits: set<Commit>, commits': set<Commit>, log: seq<Entry>, log': seq<Entry>, committed: nat, term: nat, term': nat)
    requires Covered(commits, log, committed, term) && commits <= commits' && term <= term'
    requires committed < |log| ==> committed < |log'| && log'[..committed + 1] == log[..committed + 1]
    ensures Covered(commits', log', committed, term')
  {
    if committed > 0 {
      var cm :| cm in commits && Covers(cm, log, committed, term);
      assert Covers(cm, log', committed, term');
    }
  }

  /** A committed prefix survives every step. */
  lemma CommittedKept(h: History, initial: Membership, s: State, t: State, m: Message)
    requires Inv(h, initial) && LogChanges(h, s, t, m) && Covered(h.commits, s.log, s.committed, s.term)
    requires LM.Justified(s.log, h.w.r.led) && LM.Ordered(s.log, s.term)
    ensures s.committed < |t.log| && t.log[..s.committed + 1] == s.log[..s.committed + 1]
  {
    hide Inv, LM.Justified, LM.Ordered, TakenFrom, Append, Contiguous, LM.LeaderLogOk;
    if s.log <= t.log {
      CoveredInLog(h.commits, s.log, s.committed, s.term);
      PrefixAt(s.log, t.log, s.committed + 1);
    } else {
      var G := h.w.r.led[m.term];
      LeaderJustified(h.w.r, m.term);
      LeaderHasCommitted(h, initial, s, m.term);
      KeepsAgreed(s.log, G, m, h.w.r.led, s.term, s.committed + 1);
    }
  }

  lemma CoveredInLog(commits: set<Commit>, log: EntryLog, committed: nat, term: nat)
    requires Covered(commits, log, committed, term)
    ensures committed < |log|
  {
  }

  lemma LeaderHasCommitted(h: History, initial: Membership, s: State, U: nat)
    requires Inv(h, initial) && Covered(h.commits, s.log, s.committed, s.term) && s.term <= U && U in h.w.r.led
    requires Contiguous(h.w.r.led[U])
    ensures s.committed < |s.log| && s.committed < |h.w.r.led[U]| && s.log[..s.committed + 1] == h.w.r.led[U][..s.committed + 1]
  {
    hide Inv;
    if s.committed == 0 {
      assert s.log[..1] == [s.log[0]] && h.w.r.led[U][..1] == [h.w.r.led[U][0]];
    } else {
      var cm :| cm in h.commits && Covers(cm, s.log, s.committed, s.term);
      LeadersHave(h, initial, cm, U);
      PrefixAt(cm.log, h.w.r.led[U], s.committed + 1);
    }
  }

  lemma CoveredByCommit(commits: set<Commit>, log: seq<Entry>, committed: nat, term: nat, cm: Commit)
    requires cm in commits && Covers(cm, log, committed, term)
    ensures Covered(commits, log, committed, term)
  {
  }

  /** A follower takes over a commit index that some commit covers. */
  lemma TakenCovered(h: History, a: Action, initial: Membership)
    requires Moves(h, a, initial) && MessagesCovered(h) && Inv(NextHistory(h, a), initial)
    requires TakesBatch(h.w.r.c.nodes[Target(a)], MessageOf(a))
    requires var t := Act(h.w.r.c.nodes[Target(a)], a); t.committed <= MessageOf(a).commit && t.committed <= LastIndex(t.log)
    ensures var t := Act(h.w.r.c.nodes[Target(a)], a); Covered(NextHistory(h, a).commits, t.log, t.committed, t.term)
  {
    hide Inv, SafeMove, Act, NextHistory, TakesBatch, LM.Grows, LM.Inv, BaseOk, LastIndex, CM.Inv, CC.Inv;
    var h', t, m := NextHistory(h, a), Act(h.w.r.c.nodes[Target(a)], a), MessageOf(a);
    TakenOnto(h, a, initial);
    if t.committed > 0 {
      MessageIsCovered(h, a);
      var cm :| cm in h.commits && cm.term <= m.term && m.commit < |cm.log|;
      CommitsOnly(h, a);
      LeadersHave(h', initial, cm, m.term);
      LastOf(t.log);
      PrefixAt(t.log, h'.w.r.led[m.term], t.committed + 1);
      PrefixAt(cm.log, h'.w.r.led[m.term], t.committed + 1);
      CoveredByCommit(h'.commits, t.log, t.committed, t.term, cm);
    }
  }

  lemma CommitsOnly(h: History, a: Action)
    ensures h.commits <= NextHistory(h, a).commits
  {
    hide Act, HeldBy, WonBy, CommitBy;
  }

  lemma TakenOnto(h: History, a: Action, initial: Membership)
    requires Moves(h, a, initial) && TakesBatch(h.w.r.c.nodes[Target(a)], MessageOf(a))
    ensures var t, led, term := Act(h.w.r.c.nodes[Target(a)], a), NextHistory(h, a).w.r.led, MessageOf(a).term;
      a.Deliver? && term in led && t.log <= led[term] && t.term == term
  {
    hide SafeMove, Act, NextHistory, TakesBatch, LM.Grows, LM.Inv, ES.Inv, ER.Inv, OneLeaderPerTerm, HeldOk, KeepOk,
      GrantsOk, AcksOk, MatchedOk, CandidatesOk, WonOk, ElectedOk, CommitsOk, CM.Inv, CC.Inv, FreshOk, EndsOk;
    UnknownTakesNone(h.w.r.c.nodes[Target(a)], a);
    TakenIsPrefix(h, a, initial);
  }

  lemma MessageIsCovered(h: History, a: Action)
    requires Enabled(h.w.r.c, a) && a.Deliver? && MessagesCovered(h) && TakesBatch(h.w.r.c.nodes[Target(a)], a.m)
    ensures IndexCovered(h.commits, a.m.commit, a.m.term)
  {
    assert InFlight(h.w.r.c, a.m);
    assert MessageCovered(h, a.m);
  }

  /** A leader's recount is covered by the commit it makes. */
  lemma RecountCovered(h: History, a: Action, initial: Membership)
    requires Moves(h, a, initial)
    requires var s, t := h.w.r.c.nodes[Target(a)], Act(h.w.r.c.nodes[Target(a)], a);
      CF.Acknowledged(s, MessageOf(a)) && CommitTarget(Recorded(s, MessageOf(a).from, MessageOf(a).index)) == Some(t.committed)
    ensures var t := Act(h.w.r.c.nodes[Target(a)], a); Covered(NextHistory(h, a).commits, t.log, t.committed, t.term)
  {
    hide Inv, SafeMove, Act, TakesBatch, LM.Grows, BaseOk, CommitTarget, HeldBy, WonBy, TakenFrom, Append,
      LM.LeaderLogOk, LM.Justified, LM.Ordered;
    var s, t, m := h.w.r.c.nodes[Target(a)], Act(h.w.r.c.nodes[Target(a)], a), MessageOf(a);
    MovesActs(h, a, initial);
    PositiveTerm(h, a, initial);
    TargetIsOwn(Recorded(s, m.from, m.index), t.committed);
    var cm := Commit(s.term, s.log[..t.committed + 1], s.log);
    assert cm in CommitBy(s, t, m);
    assert s.log <= t.log;
    PrefixAt(s.log, t.log, t.committed + 1);
    assert cm.log[..t.committed + 1] == cm.log;
    CoveredByCommit(NextHistory(h, a).commits, t.log, t.committed, t.term, cm);
  }

  lemma PositiveTerm(h: History, a: Action, initial: Membership)
    requires Moves(h, a, initial) && h.w.r.c.nodes[Target(a)].role == Leader
    ensures h.w.r.c.nodes[Target(a)].term > 0
  {
    hide SafeMove, Act, NextHistory, LM.Grows, LM.Inv, ES.Inv, ER.Inv, OneLeaderPerTerm, HeldOk, KeepOk, GrantsOk,
      AcksOk, MatchedOk, CandidatesOk, WonOk, ElectedOk, CommitsOk, LM.Justified, LM.Ordered, CM.Inv, CC.Inv, FreshOk,
      EndsOk;
    ActorOk(h, a, initial);
  }

  lemma NodesStayCovered(h: History, a: Action, initial: Membership)
    requires Moves(h, a, initial) && NodesCovered(h) && MessagesCovered(h) && Inv(NextHistory(h, a), initial)
    ensures NodesCovered(NextHistory(h, a))
  {
    hide Inv, SafeMove, Act, TakesBatch, LM.Grows, BaseOk, CommitTarget, NextHistory, LogChanges, LM.Justified,
      LM.Ordered, Covered, CF.AcksSent, CF.Beliefs, CF.CommitsSent, CF.Acknowledged, LastIndex;
    var h', i := NextHistory(h, a), Target(a);
    var s := h.w.r.c.nodes[i];
    var t, m := Act(s, a), MessageOf(a);
    MovesActs(h, a, initial);
    CommitsOnly(h, a);
    CF.ActFacts(s, a, m);
    if t.committed == s.committed {
      assert Covered(h.commits, s.log, s.committed, s.term);
      CommittedKept(h, initial, s, t, m);
      CoveredMore(h.commits, h'.commits, s.log, t.log, s.committed, s.term, t.term);
    } else if CF.Acknowledged(s, m) && CommitTarget(Recorded(s, m.from, m.index)) == Some(t.committed) {
      RecountCovered(h, a, initial);
    } else {
      TakenCovered(h, a, initial);
    }
    forall j | j in h'.w.r.c.nodes
      ensures Covered(h'.commits, h'.w.r.c.nodes[j].log, h'.w.r.c.nodes[j].committed, h'.w.r.c.nodes[j].term)
    {
      if j != i {
        var v := h.w.r.c.nodes[j];
        CoveredMore(h.commits, h'.commits, v.log, v.log, v.committed, v.term, v.term);
      }
    }
  }

  lemma IndexMore(commits: set<Commit>, commits': set<Commit>, log: seq<Entry>, committed: nat, index: nat, term: nat)
    requires Covered(commits, log, committed, term) && commits <= commits' && index <= committed
    ensures IndexCovered(commits', index, term)
  {
    if index > 0 {
      var cm :| cm in commits && Covers(cm, log, committed, term);
    }
  }

  lemma MessagesStayCovered(h: History, a: Action, initial: Membership)
    requires Moves(h, a, initial) && MessagesCovered(h) && NodesCovered(NextHistory(h, a))
    ensures MessagesCovered(NextHistory(h, a))
  {
    hide Inv, SafeMove, Act, TakesBatch, LM.Grows, BaseOk, CommitTarget, NextHistory, LogChanges, LM.Justified,
      LM.Ordered, Covered, IndexCovered, CF.AcksSent, CF.Beliefs, CF.Commits, CF.Acknowledged, LastIndex;
    var h', i := NextHistory(h, a), Target(a);
    var s := h.w.r.c.nodes[i];
    var t, m := Act(s, a), MessageOf(a);
    MovesActs(h, a, initial);
    CommitsOnly(h, a);
    CF.ActFacts(s, a, m);
    NextIsRun(h, a);
    forall b | InFlight(h'.w.r.c, b) ensures MessageCovered(h', b) {
      InFlightAfter(h.w.r, a, b);
      assert b in s.msgs ==> InFlight(h.w.r.c, b);
      if b.kind == MsgAppend {
        if InFlight(h.w.r.c, b) {
          assert MessageCovered(h, b);
          StaysCovered(h.commits, h'.commits, b.commit, b.term);
        } else {
          IndexMore(h'.commits, h'.commits, t.log, t.committed, b.commit, t.term);
        }
      }
    }
  }

  lemma StaysCovered(commits: set<Commit>, commits': set<Commit>, index: nat, term: nat)
    requires IndexCovered(commits, index, term) && commits <= commits'
    ensures IndexCovered(commits', index, term)
  {
  }

  lemma MovesOf(h: History, a: Action, initial: Membership)
    requires Inv(h, initial) && SafeMove(h, a) && Enabled(h.w.r.c, a)
    ensures Moves(h, a, initial)
  {
    hide BaseOk, SafeMove, LM.Grows, HeldOk, KeepOk, GrantsOk, AcksOk, MatchedOk, CandidatesOk, WonOk, ElectedOk,
      CommitsOk, NextHistory, FreshOk, EndsOk;
    BaseKept(h, a, initial);
    LedGrows(h, a, initial);
  }

  lemma NextKeepsFull(h: History, a: Action, initial: Membership)
    requires FullInv(h, initial) && SafeMove(h, a)
    ensures FullInv(NextHistory(h, a), initial)
  {
    hide Inv, SafeMove, Moves, NextHistory, NodesCovered, MessagesCovered;
    SafeRuns.NextKeepsInv(h, a, initial);
    if Enabled(h.w.r.c, a) {
      MovesOf(h, a, initial);
      NodesStayCovered(h, a, initial);
      MessagesStayCovered(h, a, initial);
    } else {
      NotEnabledHistory(h, a);
    }
  }

  lemma {:induction false} RunKeepsFull(h: History, actions: seq<Action>, initial: Membership)
    requires FullInv(h, initial) && SafeHistory(h, actions)
    ensures FullInv(ExecHistory(h, actions), initial)
    decreases |actions|
  {
    hide FullInv, NextHistory, SafeMove;
    if actions != [] {
      NextKeepsFull(h, actions[0], initial);
      RunKeepsFull(NextHistory(h, actions[0]), actions[1..], initial);
    }
  }

  lemma SafeRunInv(start: Run, actions: seq<Action>, initial: Membership)
    requires Initial(start, initial) && SafeHistory(Begin(start), actions)
    ensures FullInv(ExecHistory(Begin(start), actions), initial)
    ensures ExecHistory(Begin(start), actions).w.r == Exec(start, actions)
  {
    hide Inv, SafeHistory, ExecHistory, Exec;
    BeginInv(start, initial);
    assert forall m :: !InFlight(start.c, m);
    RunKeepsFull(Begin(start), actions, initial);
    HistoryIsRun(Begin(start), actions);
  }

  // ---------- The results ----------

  /** Election Safety: in every safe run, through all its membership changes, no term has two leaders. */
  lemma OneLeaderEach(start: Run, actions: seq<Action>, initial: Membership)
    requires Initial(start, initial) && SafeHistory(Begin(start), actions)
    ensures OneLeaderPerTerm(Exec(start, actions))
  {
    hide ExecHistory, SafeHistory, NodesCovered, MessagesCovered, HeldOk, KeepOk, GrantsOk, AcksOk, MatchedOk,
      CandidatesOk, FreshOk, WonOk, ElectedOk, CommitsOk, EndsOk, LM.Inv, ES.VotesInv, ER.Inv, Exec, CM.Inv, CC.Inv;
    SafeRunInv(start, actions, initial);
  }

  /** So in safe runs logs match, and each is a chain of joint-consensus steps, with nothing assumed about leaders. */
  lemma LogsAgree(start: Run, actions: seq<Action>, initial: Membership, i: NodeID, j: NodeID, k: nat)
    requires Initial(start, initial) && SafeHistory(Begin(start), actions)
    requires var c := Exec(start, actions).c;
      && i in c.nodes && j in c.nodes
      && k < |c.nodes[i].log| && k < |c.nodes[j].log| && c.nodes[i].log[k].term == c.nodes[j].log[k].term
    ensures var c := Exec(start, actions).c; c.nodes[i].log[..k + 1] == c.nodes[j].log[..k + 1]
    ensures CC.Chain(initial, Exec(start, actions).c.nodes[i].log)
  {
    hide SafeHistory, Exec, OneLeaderPerTerm, CC.Chain, Initial;
    OneLeaderEach(start, actions, initial);
    LM.LogsMatch(Exec(start, actions), initial, i, j, k);
    CC.LogsAreChains(Exec(start, actions), initial, i);
  }

  /** In every safe run, whatever a leader commits has been in the log of every node of some quorum, in the leader's term. */
  lemma CommitsAreHeld(start: Run, actions: seq<Action>, initial: Membership, cm: Commit)
    requires Initial(start, initial) && SafeHistory(Begin(start), actions)
    requires cm in ExecHistory(Begin(start), actions).commits
    ensures var h := ExecHistory(Begin(start), actions);
      && HeldByQuorum(h.held, initial, cm)
      && cm.term in h.w.r.led && cm.log <= h.w.r.led[cm.term]
      && |cm.log| >= 2 && cm.log[|cm.log| - 1].term == cm.term
  {
    hide ExecHistory, SafeHistory, BaseOk, HeldOk, KeepOk, GrantsOk, AcksOk, MatchedOk, CandidatesOk, WonOk,
      ElectedOk, HeldByQuorum, NodesCovered, MessagesCovered, FreshOk;
    SafeRunInv(start, actions, initial);
    assert CommitOk(ExecHistory(Begin(start), actions), initial, cm);
  }

  /** In every safe run, each leader has all that leaders of earlier terms have committed, even after it was elected. */
  lemma LeadersAreComplete(start: Run, actions: seq<Action>, initial: Membership, cm: Commit, U: nat)
    requires Initial(start, initial) && SafeHistory(Begin(start), actions)
    requires var h := ExecHistory(Begin(start), actions); cm in h.commits && U in h.w.r.led && cm.term < U
    ensures cm.log <= ExecHistory(Begin(start), actions).w.r.led[U]
  {
    hide ExecHistory, SafeHistory, Inv, NodesCovered, MessagesCovered;
    SafeRunInv(start, actions, initial);
    LeaderCompleteness(ExecHistory(Begin(start), actions), initial, cm, U);
  }

  /** State Machine Safety: in every safe run, two nodes agree on all that both have committed. */
  lemma CommittedAgree(start: Run, actions: seq<Action>, initial: Membership, i: NodeID, j: NodeID, k: nat)
    requires Initial(start, initial) && SafeHistory(Begin(start), actions)
    requires var c := Exec(start, actions).c; i in c.nodes && j in c.nodes && k <= c.nodes[i].committed && k <= c.nodes[j].committed
    ensures var c := Exec(start, actions).c;
      k < |c.nodes[i].log| && k < |c.nodes[j].log| && c.nodes[i].log[..k + 1] == c.nodes[j].log[..k + 1]
  {
    hide ExecHistory, SafeHistory, Inv, MessagesCovered, Exec, Covered;
    SafeRunInv(start, actions, initial);
    var h := ExecHistory(Begin(start), actions);
    var s, t := h.w.r.c.nodes[i], h.w.r.c.nodes[j];
    assert Covered(h.commits, s.log, s.committed, s.term) && Covered(h.commits, t.log, t.committed, t.term);
    BothCovered(h, initial, s, t, k);
  }

  lemma BothCovered(h: History, initial: Membership, s: State, t: State, k: nat)
    requires Inv(h, initial) && k <= s.committed && k <= t.committed
    requires Covered(h.commits, s.log, s.committed, s.term) && Covered(h.commits, t.log, t.committed, t.term)
    ensures k < |s.log| && k < |t.log| && s.log[..k + 1] == t.log[..k + 1]
  {
    hide Inv;
    if k == 0 {
      assert s.log[..1] == [s.log[0]] && t.log[..1] == [t.log[0]];
    } else {
      var cm :| cm in h.commits && Covers(cm, s.log, s.committed, s.term);
      var other :| other in h.commits && Covers(other, t.log, t.committed, t.term);
      CommitsAgree(h, initial, cm, other, k);
      Shorter(s.log, cm.log, s.committed + 1, k + 1);
      Shorter(t.log, other.log, t.committed + 1, k + 1);
    }
  }

  lemma Shorter(a: seq<Entry>, b: seq<Entry>, n: nat, k: nat)
    requires n <= |a| && n <= |b| && a[..n] == b[..n] && k <= n
    ensures a[..k] == b[..k]
  {
    assert a[..k] == a[..n][..k] && b[..k] == b[..n][..k];
  }

  /** No safe step changes what the node that takes it has committed. */
  lemma StepKeepsPrefix(h: History, a: Action, initial: Membership)
    requires FullInv(h, initial) && Moves(h, a, initial)
    ensures var s := h.w.r.c.nodes[Target(a)];
      s.committed < |s.log| && s.committed < |Act(s, a).log| && Act(s, a).log[..s.committed + 1] == s.log[..s.committed + 1]
  {
    hide Inv, MessagesCovered, SafeMove, Act, LogChanges, Covered, NextHistory, LM.Justified, LM.Ordered, LM.Grows,
      BaseOk;
    MovesActs(h, a, initial);
    var s := h.w.r.c.nodes[Target(a)];
    assert Covered(h.commits, s.log, s.committed, s.term);
    CoveredInLog(h.commits, s.log, s.committed, s.term);
    CommittedKept(h, initial, s, Act(s, a), MessageOf(a));
  }

  /** In every safe run, no step changes what the node that takes it has committed. */
  lemma CommittedStays(start: Run, actions: seq<Action>, initial: Membership, a: Action)
    requires Initial(start, initial) && SafeHistory(Begin(start), actions)
    requires SafeMove(ExecHistory(Begin(start), actions), a) && Enabled(Exec(start, actions).c, a)
    ensures var s := Exec(start, actions).c.nodes[Target(a)];
      s.committed < |s.log| && s.committed < |Act(s, a).log| && Act(s, a).log[..s.committed + 1] == s.log[..s.committed + 1]
  {
    hide ExecHistory, SafeHistory, Inv, NodesCovered, MessagesCovered, Exec, SafeMove, Act, NextHistory;
    SafeRunInv(start, actions, initial);
    var h := ExecHistory(Begin(start), actions);
    MovesOf(h, a, initial);
    StepKeepsPrefix(h, a, initial);
  }
}
