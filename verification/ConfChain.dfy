/**
 Membership changes (section 6 of the Raft paper): in every log of every run, each config entry is
 the next step of a joint-consensus change from the configuration before it, so the quorums of
 neighbouring configurations always share a voter.
 */
module ConfChain {
  import opened Quorums
  import opened RaftLog
  import opened RaftNode
  import opened RaftSteps
  import opened RaftRuns
  import CM = CachedMembership
  import LM = LogMatching

  /** The membership in effect after the log `L`. */
  function In(initial: Membership, L: seq<Entry>): Membership {
    ScanMembership(initial, L).0
  }

  /** Every config entry continues the change that the entries before it have reached. */
  ghost predicate Chain(initial: Membership, L: seq<Entry>) {
    forall k | 0 <= k < |L| && L[k].data.Conf? :: Successor(In(initial, L[..k]), MembershipOf(L[k].data.change))
  }

  lemma ChainPrefix(initial: Membership, L: seq<Entry>, n: nat)
    requires Chain(initial, L) && n <= |L|
    ensures Chain(initial, L[..n])
  {
    forall k | 0 <= k < n && L[k].data.Conf?
      ensures Successor(In(initial, L[..n][..k]), MembershipOf(L[k].data.change))
    {
      assert L[..n][..k] == L[..k];
    }
  }

  lemma ChainPush(initial: Membership, L: seq<Entry>, e: Entry)
    requires Chain(initial, L) && (e.data.Conf? ==> Successor(In(initial, L), MembershipOf(e.data.change)))
    ensures Chain(initial, L + [e])
  {
    var M := L + [e];
    forall k | 0 <= k < |M| && M[k].data.Conf? ensures Successor(In(initial, M[..k]), MembershipOf(M[k].data.change)) {
      assert M[..k] == L[..k];
      assert k == |L| ==> L[..k] == L;
    }
  }

  // ---------- The invariant ----------

  ghost predicate Inv(r: Run, m: Membership) {
    && (forall i | i in r.c.nodes :: r.c.nodes[i].initialMembership == m && Chain(m, r.c.nodes[i].log))
    && (forall t | t in r.led :: Chain(m, r.led[t]))
  }

  lemma StepKeepsChain(r: Run, m: Membership, i: NodeID, t: State, a: Message)
    requires Inv(r, m) && LM.Inv(r) && i in r.c.nodes
    requires CM.CacheOk(r.c.nodes[i])
    requires LogStep(r.c.nodes[i], t, a) && (a.kind == MsgAppend ==> LM.MessageOk(r, a))
    ensures Chain(m, t.log) && t.initialMembership == m
  {
    hide Chain, TakenFrom, SendsWell, ScanMembership, Append, LM.Justified, LM.Ordered, Contiguous;
    var s := r.c.nodes[i];
    if Received(s, t, a) {
      var G: EntryLog := r.led[a.term];
      assert LM.NodeOk(r, i) && LM.LeaderLogOk(r, a.term);
      LM.ReceiveTaken(s.log, G, a, r.led, s.term);
      if t.log != s.log {
        assert t.log == G[..|t.log|];
        ChainPrefix(m, G, |t.log|);
      }
    } else if t.log != s.log {
      ChainPush(m, s.log, t.log[|s.log|]);
    }
  }

  lemma NextKeepsInv(r: Run, m: Membership, a: Action)
    requires Inv(r, m) && LM.Inv(r) && CM.Inv(r)
    ensures Inv(Next(r, a), m)
  {
    hide Chain, LogStep, Act, LM.Inv, CM.CacheOk;
    if Enabled(r.c, a) {
      var i := Target(a);
      var b := LM.ActIsLogStep(r, a);
      StepKeepsChain(r, m, i, Act(r.c.nodes[i], a), b);
    }
  }

  lemma {:induction false} RunKeepsInv(r: Run, m: Membership, actions: seq<Action>)
    requires Inv(r, m) && LM.Inv(r) && CM.Inv(r) && OneLeaderPerTerm(Exec(r, actions))
    ensures Inv(Exec(r, actions), m)
    decreases |actions|
  {
    hide Inv, Next, LM.Inv, CM.Inv, OneLeaderPerTerm;
    if actions != [] {
      var r1 := Next(r, actions[0]);
      LM.OneLeaderBefore(r1, actions[1..]);
      LM.NextKeepsInv(r, actions[0]);
      CM.NextKeepsInv(r, actions[0]);
      NextKeepsInv(r, m, actions[0]);
      RunKeepsInv(r1, m, actions[1..]);
    }
  }

  lemma InitialInv(r: Run, m: Membership)
    requires Initial(r, m)
    ensures Inv(r, m)
  {
  }

  /** In every run with one leader per term, every node's config entries form a chain. */
  lemma LogsAreChains(r: Run, m: Membership, i: NodeID)
    requires Reachable(r, m) && OneLeaderPerTerm(r) && i in r.c.nodes
    ensures Chain(m, r.c.nodes[i].log)
  {
    hide Chain, Next, LM.Inv, CM.Inv, OneLeaderPerTerm;
    var start, actions :| Initial(start, m) && Exec(start, actions) == r;
    InitialInv(start, m);
    LM.InitialInv(start, m);
    CM.InitialInv(start, m);
    RunKeepsInv(start, m, actions);
  }

  lemma ScanPush(initial: Membership, L: seq<Entry>, k: nat)
    requires k < |L| && L[k].data.Conf?
    ensures In(initial, L[..k + 1]) == MembershipOf(L[k].data.change)
  {
    assert L[..k + 1][..k] == L[..k];
  }

  /**
   Across every config entry of every log, a quorum of the configuration before it and one of the
   configuration after it share a node that votes in both.
   */
  lemma ReconfigurationKeepsOverlap(r: Run, m: Membership, i: NodeID, k: nat, before: set<NodeID>, after: set<NodeID>)
    requires Reachable(r, m) && OneLeaderPerTerm(r) && i in r.c.nodes
    requires k < |r.c.nodes[i].log| && r.c.nodes[i].log[k].data.Conf?
    requires In(m, r.c.nodes[i].log[..k]).HasQuorum(before)
    requires In(m, r.c.nodes[i].log[..k + 1]).HasQuorum(after)
    ensures exists v :: v in before && v in after
                        && v in In(m, r.c.nodes[i].log[..k]).Voters() && v in In(m, r.c.nodes[i].log[..k + 1]).Voters()
  {
    hide Reachable, OneLeaderPerTerm, ScanMembership;
    var L := r.c.nodes[i].log;
    LogsAreChains(r, m, i);
    ScanPush(m, L, k);
    QuorumsMeet(In(m, L[..k]), In(m, L[..k + 1]), before, after);
  }

  /**
   Two nodes that use the same configuration, or configurations one change step apart in one of their
   logs, cannot form disjoint quorums.
   */
  lemma NeighboursOverlap(r: Run, m: Membership, i: NodeID, j: NodeID, k: nat, a: set<NodeID>, b: set<NodeID>)
    requires Reachable(r, m) && OneLeaderPerTerm(r) && i in r.c.nodes && j in r.c.nodes
    requires k < |r.c.nodes[i].log| && r.c.nodes[i].log[k].data.Conf?
    requires r.c.nodes[i].membership == In(m, r.c.nodes[i].log[..k + 1])
    requires r.c.nodes[j].membership == r.c.nodes[i].membership || r.c.nodes[j].membership == In(m, r.c.nodes[i].log[..k])
    requires r.c.nodes[i].membership.HasQuorum(a) && r.c.nodes[j].membership.HasQuorum(b)
    ensures exists v :: v in a && v in b
  {
    hide Reachable, OneLeaderPerTerm, ScanMembership;
    var L := r.c.nodes[i].log;
    if r.c.nodes[j].membership == r.c.nodes[i].membership {
      QuorumsMeet(r.c.nodes[i].membership, r.c.nodes[j].membership, a, b);
    } else {
      ReconfigurationKeepsOverlap(r, m, i, k, b, a);
    }
  }
}
