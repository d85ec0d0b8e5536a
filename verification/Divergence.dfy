/**
 What two leaders of one term can do to the logs: Log Matching fails, and a log can hold two joint steps
 in a row, so that its neighbouring memberships no longer come from one change. Both runs go on from the
 one of TwoLeaders in which no vote is ever erased.
 */
module Divergence {
  import opened Quorums
  import opened RaftLog
  import opened RaftNode
  import opened RaftRuns
  import opened ConfChain
  import F = FiveNodes
  import LM = LogMatching
  import T = TwoLeaders

  /** Each leader writes its own first entry: same index, same term, different data. */
  lemma LogsDiffer() returns (r: Run)
    ensures Reachable(r, F.FIVE) && r.c.nodes.Keys == F.ALL
    ensures var a, b := r.c.nodes[1].log, r.c.nodes[2].log;
      |a| == |b| == 2 && a[1].index == b[1].index && a[1].term == b[1].term && a[1] != b[1]
  {
    hide Reachable, F.Here, F.Leads, F.Batch, F.Last, F.End;
    r := T.ToBothLead();
    r := F.Put(r, 1, [0]);
    r := F.Put(r, 2, [1]);
  }

  // ---------- Two joint steps in a row ----------

  function Joint(index: nat, newVoters: seq<NodeID>): Entry {
    Entry(index, 1, Conf(ConfChange(F.ALL, IdSet(newVoters), {}, true)))
  }

  const COMMAND := Entry(1, 1, Command([1]))
  const FIRST := Joint(1, [1, 3])
  const SECOND := Joint(2, [2, 3])

  lemma Changes(s: State, newVoters: seq<NodeID>)
    requires s.role == Leader && s.membership == F.FIVE && s.peers == F.PEERS
    requires newVoters != [] && forall v | v in newVoters :: v in F.PEERS
    ensures ConfChangeError(s, newVoters, []).None?
    ensures IdSet([]) == {}
  {
  }

  lemma JointLog(s: State, e: Entry)
    requires e.index == |s.log| && e.term == s.term
    ensures ProposeInternal(s, e.data).log == s.log + [e]
    ensures ProposeInternal(s, e.data).id == s.id && ProposeInternal(s, e.data).term == s.term
    ensures ProposeInternal(s, e.data).next == s.next && ProposeInternal(s, e.data).committed == s.committed
    ensures forall p | p in s.peers && p != s.id :: AppendMessage(ProposeInternal(s, e.data), p) in ProposeInternal(s, e.data).msgs
  {
    hide ScanMembership, AppendMessage, Contiguous;
    PushNext(s.log, e);
    LastOf(s.log);
    TermsOf(s.log);
    var s3 := ProposeInternal(s, e.data).(msgs := s.msgs);
    forall p | p in s.peers && p != s.id ensures AppendMessage(ProposeInternal(s, e.data), p) in ProposeInternal(s, e.data).msgs {
      AppendMessageSame(s3, ProposeInternal(s, e.data), p);
    }
  }

  /** A leader of term 1 whose log is `log` enters a joint step, and sends node 3 everything it has. */
  lemma EntersJoint(r: Run, i: NodeID, newVoters: seq<NodeID>) returns (r': Run)
    requires Reachable(r, F.FIVE) && r.c.nodes.Keys == F.ALL && i in {1, 2}
    requires var s := r.c.nodes[i];
      F.Here(s, i) && s.role == Leader && s.term == 1 && s.committed == 0 && 3 in s.next && s.next[3] == 1
    requires newVoters != [] && forall v | v in newVoters :: v in F.PEERS
    ensures var log := r.c.nodes[i].log + [Joint(|r.c.nodes[i].log|, newVoters)];
      && Reachable(r', F.FIVE) && r'.c.nodes.Keys == F.ALL
      && (forall j | j in F.ALL && j != i :: r'.c.nodes[j] == r.c.nodes[j])
      && r.c.net <= r'.c.net && F.Batch(i, 3, 1, 0, 0, 0, log[1..]) in r'.c.net
  {
    hide Reachable, F.Plain, ProposeInternal, AppendMessage;
    var s := r.c.nodes[i];
    var e := Joint(|s.log|, newVoters);
    Changes(s, newVoters);
    JointLog(s, e);
    var t := ProposeInternal(s, e.data);
    assert ProposeConfChange(s, newVoters, []) == t;
    F.SendsFrom(t, 3, 1);
    assert 3 in F.PEERS;
    r' := F.Go(r, ChangeAt(i, newVoters, []));
  }

  lemma TakesAll(s: State, i: NodeID, entries: seq<Entry>)
    requires s.id == 3 && s.term == 1 && i != 3
    ensures var t := Step(s, F.Batch(i, 3, 1, 0, 0, 0, entries));
      t.log == Append(s.log, entries).log && t.term == 1 && t.id == 3
  {
    hide Append, ScanMembership;
    LastOf(s.log);
    TermsOf(s.log);
    LM.AppendTakesBatch(s, F.Batch(i, 3, 1, 0, 0, 0, entries));
  }

  lemma NodeThreeTakes(r: Run, i: NodeID, entries: seq<Entry>) returns (r': Run)
    requires Reachable(r, F.FIVE) && r.c.nodes.Keys == F.ALL && r.c.nodes[3].id == 3 && r.c.nodes[3].term == 1 && i in {1, 2}
    requires F.Batch(i, 3, 1, 0, 0, 0, entries) in r.c.net
    ensures Reachable(r', F.FIVE) && r'.c.nodes.Keys == F.ALL && r.c.net <= r'.c.net
    ensures r'.c.nodes[3].log == Append(r.c.nodes[3].log, entries).log && r'.c.nodes[3].term == 1 && r'.c.nodes[3].id == 3
  {
    hide Reachable, Step, Append;
    TakesAll(r.c.nodes[3], i, entries);
    r' := F.Go(r, Deliver(F.Batch(i, 3, 1, 0, 0, 0, entries)));
  }

  /** The receiver has an entry of index 1 and term 1, so it keeps it and pushes the second leader's joint step behind. */
  lemma TakesFirst()
    ensures Append([PLACEHOLDER], [FIRST]) == Appended([PLACEHOLDER, FIRST], true)
    ensures Append([PLACEHOLDER, FIRST], [COMMAND, SECOND]) == Appended([PLACEHOLDER, FIRST, SECOND], true)
  {
    var log: EntryLog := [PLACEHOLDER];
    var one: EntryLog := [PLACEHOLDER, FIRST];
    PushNext(log, FIRST);
    PushNext(one, SECOND);
    LastOf(one);
    TermsOf(one);
    assert [FIRST][1..] == [] && [COMMAND, SECOND][1..] == [SECOND] && [SECOND][1..] == [];
    assert Append(one, [SECOND]) == Appended(one + [SECOND], true);
    assert AppendOne(one, COMMAND) == Appended(one, true);
  }

  lemma NoChain()
    ensures !Chain(F.FIVE, [PLACEHOLDER, FIRST, SECOND])
  {
    var L := [PLACEHOLDER, FIRST, SECOND];
    ScanPush(F.FIVE, L, 1);
    assert In(F.FIVE, L[..2]).joint;
  }

  /** Both batches have been sent, and node 3 still has no entry. */
  ghost predicate BothSent(r: Run) {
    && Reachable(r, F.FIVE) && r.c.nodes.Keys == F.ALL
    && r.c.nodes[3].id == 3 && r.c.nodes[3].term == 1 && r.c.nodes[3].log == [PLACEHOLDER]
    && F.Batch(1, 3, 1, 0, 0, 0, [FIRST]) in r.c.net && F.Batch(2, 3, 1, 0, 0, 0, [COMMAND, SECOND]) in r.c.net
  }

  lemma LeadsNext(s: State)
    requires F.Leads(s) && s.log == [PLACEHOLDER]
    ensures 3 in s.next && s.next[3] == 1 && s.role == Leader
  {
  }

  lemma LogsSent()
    ensures ([PLACEHOLDER] + [FIRST])[1..] == [FIRST] && ([PLACEHOLDER, COMMAND] + [SECOND])[1..] == [COMMAND, SECOND]
  {
  }

  lemma ToBothSent() returns (r: Run)
    ensures BothSent(r)
  {
    hide Reachable, F.Batch, F.Last, F.End, F.Leads, F.Plain, Joint;
    r := T.ToBothLead();
    LeadsNext(r.c.nodes[1]);
    LeadsNext(r.c.nodes[2]);
    LogsSent();
    r := F.Put(r, 2, [1]);
    assert r.c.nodes[2].log == [PLACEHOLDER, COMMAND];
    r := EntersJoint(r, 2, [2, 3]);
    r := EntersJoint(r, 1, [1, 3]);
  }

  /** Node 3 ends up with the joint step of one leader behind the joint step of the other. */
  lemma TwoJointSteps() returns (r: Run)
    ensures Reachable(r, F.FIVE) && r.c.nodes.Keys == F.ALL && !Chain(F.FIVE, r.c.nodes[3].log)
  {
    hide Reachable, F.Batch, Append, Chain, Joint;
    r := ToBothSent();
    TakesFirst();
    r := NodeThreeTakes(r, 1, [FIRST]);
    r := NodeThreeTakes(r, 2, [COMMAND, SECOND]);
    NoChain();
  }
}
