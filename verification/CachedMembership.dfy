/**
 Each node caches the membership of the newest config entry and skips the rescan where it can. The
 cache always equals what scanning the whole log gives, as long as batches carry consecutive indexes;
 in every run of a group they do.
 */
module CachedMembership {
  import opened Wrappers
  import opened Quorums
  import opened RaftLog
  import opened RaftNode
  import opened RaftSteps
  import opened RaftRuns

  ghost predicate CacheOk(s: State) {
    (s.membership, s.membershipIndex) == ScanMembership(s.initialMembership, s.log)
  }

  /** A batch that is consecutive, or is refused at its first entry. */
  ghost predicate BatchOk(batch: seq<Entry>) {
    (batch != [] && batch[0].index == 0) || exists first: nat :: Consecutive(batch, first)
  }

  ghost predicate SameCache(s: State, t: State) {
    && t.log == s.log && t.membership == s.membership && t.membershipIndex == s.membershipIndex
    && t.initialMembership == s.initialMembership
  }

  lemma RefusedOrWhole(log: EntryLog, batch: seq<Entry>)
    requires BatchOk(batch)
    ensures Append(log, batch).ok || Append(log, batch).log == log
  {
    if batch != [] && batch[0].index != 0 {
      var first: nat :| Consecutive(batch, first);
      AppendFailsExactly(log, batch, first);
    }
  }

  lemma AppendKeepsCache(s: State, m: Message)
    requires CacheOk(s) && BatchOk(m.entries)
    ensures CacheOk(HandleAppend(s, m))
  {
    hide Append, ScanMembership, BatchOk;
    RefusedOrWhole(s.log, m.entries);
    EmptyAppend(s.log);
  }

  lemma ProposeKeepsCache(s: State, data: Data)
    requires CacheOk(s)
    ensures CacheOk(ProposeInternal(s, data))
  {
    var e := Entry(|s.log|, s.term, data);
    PushNext(s.log, e);
    assert (s.log + [e])[..|s.log|] == s.log;
  }

  lemma RolesKeepCache(s: State, m: Message)
    requires CacheOk(s)
    ensures CacheOk(AdoptTerm(s, m))
    ensures SameCache(s, HandlePreVote(s, m)) && SameCache(s, HandlePreVoteResp(s, m)) && SameCache(s, HandleVote(s, m))
  {
    hide ScanMembership, LogUpToDate;
  }

  lemma VoteRespKeepsCache(s: State, m: Message)
    requires CacheOk(s)
    ensures CacheOk(HandleVoteResp(s, m))
  {
    hide ScanMembership, ProposeInternal;
    if s.votes.Some? {
      var s1 := StartLeading(s.(votes := Some(s.votes.value + {m.from})));
      ProposeKeepsCache(s1, JointLeaderNoop);
    }
  }

  lemma AdvanceCommitKeepsCache(s: State)
    requires CacheOk(s)
    ensures CacheOk(AdvanceCommit(s))
  {
    hide ScanMembership, ProposeInternal, CommitTarget;
    if CommitTarget(s).Some? {
      var s1 := BroadcastAppend(s.(committed := CommitTarget(s).value));
      ProposeKeepsCache(s1, Conf(ConfChange({}, s1.membership.newVoters, {}, false)));
    }
  }

  lemma AppendRespKeepsCache(s: State, m: Message)
    requires CacheOk(s)
    ensures CacheOk(HandleAppendResp(s, m))
  {
    hide ScanMembership, AdvanceCommit;
    var s1 := Recorded(s, m.from, m.index);
    AdvanceCommitKeepsCache(s1);
  }

  /** Every message a node handles leaves its cache right, including after a conflict cut its log back. */
  lemma StepKeepsCache(s: State, m: Message)
    requires CacheOk(s) && (m.kind == MsgAppend ==> BatchOk(m.entries))
    ensures CacheOk(Step(s, m))
  {
    hide ScanMembership, HandlePreVote, HandlePreVoteResp, HandleVote, HandleVoteResp, HandleAppend,
      HandleAppendResp, BatchOk;
    var s1 := AdoptTerm(s, m);
    RolesKeepCache(s, m);
    RolesKeepCache(s1, m);
    match m.kind
    case MsgVoteResp => VoteRespKeepsCache(s1, m);
    case MsgAppend => AppendKeepsCache(s1, m);
    case MsgAppendResp => AppendRespKeepsCache(s1, m);
    case _ =>
  }

  lemma ActKeepsCache(s: State, a: Action)
    requires CacheOk(s) && (a.Deliver? && a.m.kind == MsgAppend ==> BatchOk(a.m.entries))
    ensures CacheOk(Act(s, a))
  {
    hide ScanMembership, ProposeInternal, Step, BatchOk;
    match a
    case ProposeAt(_, command) => ProposeKeepsCache(s, Command(command));
    case ChangeAt(_, v, l) =>
      ProposeKeepsCache(s, Conf(ConfChange(s.membership.oldVoters, IdSet(v), IdSet(l), true)));
    case Deliver(m) => StepKeepsCache(s, m);
    case _ =>
  }

  // ---------- Batches in a group's runs ----------

  ghost predicate MessageOk(m: Message) {
    m.from != m.to && (m.kind == MsgAppend ==> BatchOk(m.entries))
  }

  ghost predicate Inv(r: Run) {
    && (forall i | i in r.c.nodes :: r.c.nodes[i].id == i && CacheOk(r.c.nodes[i]) && NoPreVoteWhileLeading(r.c.nodes[i]))
    && (forall m | InFlight(r.c, m) :: MessageOk(m))
  }

  lemma TakenIsConsecutive(m: Message, L: EntryLog)
    requires TakenFrom(m, L)
    ensures BatchOk(m.entries)
  {
    if m.entries == [] {
      assert Consecutive(m.entries, 0);
    } else if m.entries[0].index != 0 {
      assert Consecutive(m.entries, m.index + 1);
    }
  }

  lemma ActSendsOk(s: State, a: Action, b: Message)
    requires NoPreVoteWhileLeading(s) && (a.Deliver? ==> a.m.from != s.id)
    requires b in Act(s, a).msgs && b !in s.msgs
    ensures MessageOk(b)
    ensures NoPreVoteWhileLeading(Act(s, a)) && Act(s, a).id == s.id
  {
    ActSteps(s, a);
    var m := if a.Deliver? then a.m else b;
    assert LogStep(s, Act(s, a), m);
    if b.kind == MsgAppend {
      TakenIsConsecutive(b, Act(s, a).log);
    }
  }

  lemma NextKeepsInv(r: Run, a: Action)
    requires Inv(r)
    ensures Inv(Next(r, a))
  {
    hide Act, CacheOk, MessageOk;
    if Enabled(r.c, a) {
      var i := Target(a);
      var s := r.c.nodes[i];
      if a.Deliver? {
        assert InFlight(r.c, a.m);
        DeliveredOk(a.m);
      }
      ActSteps(s, a);
      StepKeepsId(s, a);
      ActKeepsCache(s, a);
      forall b | InFlight(Next(r, a).c, b) ensures MessageOk(b) {
        InFlightAfter(r, a, b);
        assert b in s.msgs ==> InFlight(r.c, b);
        if b in Act(s, a).msgs && b !in s.msgs {
          ActSendsOk(s, a, b);
        }
      }
    }
  }

  lemma DeliveredOk(m: Message)
    requires MessageOk(m)
    ensures m.from != m.to && (m.kind == MsgAppend ==> BatchOk(m.entries))
  {
  }

  lemma StepKeepsId(s: State, a: Action)
    requires NoPreVoteWhileLeading(s)
    requires if a.Deliver? then LogStep(s, Act(s, a), a.m) else LocalStep(s, Act(s, a))
    ensures Act(s, a).id == s.id && NoPreVoteWhileLeading(Act(s, a))
  {
    hide Act;
  }

  lemma {:induction false} RunKeepsInv(r: Run, actions: seq<Action>)
    requires Inv(r)
    ensures Inv(Exec(r, actions))
    decreases |actions|
  {
    hide Inv, Next;
    if actions != [] {
      NextKeepsInv(r, actions[0]);
      RunKeepsInv(Next(r, actions[0]), actions[1..]);
    }
  }

  lemma InitialInv(r: Run, m: Membership)
    requires Initial(r, m)
    ensures Inv(r)
  {
    forall i | i in r.c.nodes ensures CacheOk(r.c.nodes[i]) {
      FreshCache(r.c.nodes[i]);
    }
  }

  lemma FreshCache(s: State)
    requires s.log == [PLACEHOLDER] && s.membership == s.initialMembership && s.membershipIndex == 0
    ensures CacheOk(s)
  {
    assert s.log[..0] == [];
    assert ScanMembership(s.initialMembership, []) == (s.initialMembership, 0);
  }

  /** In every run of a group, every node's cached membership is the one its log gives. */
  lemma CacheAlwaysRight(r: Run, m: Membership, i: NodeID)
    requires Reachable(r, m) && i in r.c.nodes
    ensures CacheOk(r.c.nodes[i])
  {
    var start, actions :| Initial(start, m) && Exec(start, actions) == r;
    InitialInv(start, m);
    RunKeepsInv(start, actions);
  }

  /** A batch with a gap can leave the cache behind the log: the error path skips the rescan. */
  lemma GapLeavesCacheStale()
    ensures exists s: State, m: Message :: CacheOk(s) && m.kind == MsgAppend && !CacheOk(Step(s, m))
  {
    var s := NewState(1, [1, 2], Membership({1, 2}, {}, false), 2, 1);
    FreshCache(s);
    var conf := Entry(1, 1, Conf(ConfChange({1, 2}, {1}, {}, true)));
    var m := Message(MsgAppend, 2, 1, 1, 0, 0, 0, false, [conf, Entry(5, 1, Command([]))]);
    assert m.entries[1..] == [Entry(5, 1, Command([]))];
    PushNext(s.log, conf);
    var log: EntryLog := [PLACEHOLDER, conf];
    assert Append(s.log, m.entries) == Append(log, m.entries[1..]);
    assert AppendOne(log, m.entries[1]) == Appended(log, false);
    assert Append(s.log, m.entries) == Appended(log, false);
    assert ScanMembership(s.initialMembership, log) == (MembershipOf(conf.data.change), 1);
    assert Step(s, m).log == log && Step(s, m).membership == s.membership;
  }
}
