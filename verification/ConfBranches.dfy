/**
 Two logs that part ways, and the memberships they end in. As long as neither log finishes a joint step that
 it entered after the fork, both memberships count a majority of one voter set, the one the common part was
 on its way to; so their quorums share a node.
 */
module ConfBranches {
  import opened Quorums
  import opened RaftLog
  import opened RaftNode
  import opened ConfChain

  /** The entry ends a joint step: a config entry with the new voters only. */
  ghost predicate EndsJoint(e: Entry) {
    e.data.Conf? && !e.data.change.joint
  }

  /** The index of the newest config entry among the first `k` entries, and 0 if there is none. */
  function PrevConf(initial: Membership, L: seq<Entry>, k: nat): nat
    requires k <= |L|
  {
    ScanMembership(initial, L[..k]).1
  }

  /** Joint steps that end after the first `d` entries began within them. */
  ghost predicate EndsOldJoints(initial: Membership, L: seq<Entry>, d: nat) {
    forall k | d <= k < |L| && EndsJoint(L[k]) :: PrevConf(initial, L, k) < d
  }

  /** The voters that a change under way leads to, and otherwise the voters. */
  function Base(m: Membership): set<NodeID> {
    if m.joint then m.newVoters else m.oldVoters
  }

  /** Where the membership after the first `k` entries comes from. */
  lemma {:induction false} ScanFrom(initial: Membership, L: EntryLog, d: nat, k: nat)
    requires 0 < d <= k <= |L|
    ensures var (m, j) := ScanMembership(initial, L[..k]);
      j < k && (j < d ==> m == In(initial, L[..d]))
    decreases k
  {
    if k > d {
      assert L[..k][..k - 1] == L[..k - 1];
      ScanFrom(initial, L, d, k - 1);
    } else {
      ScanWithin(initial, L, k);
    }
  }

  lemma {:induction false} ScanWithin(initial: Membership, L: EntryLog, k: nat)
    requires 0 < k <= |L|
    ensures ScanMembership(initial, L[..k]).1 < k
    decreases k
  {
    if k > 1 {
      assert L[..k][..k - 1] == L[..k - 1];
      ScanWithin(initial, L, k - 1);
    } else {
      assert L[..1] == [L[0]] && L[..1][..0] == [];
      assert !PLACEHOLDER.data.Conf?;
    }
  }

  /** Past the fork the membership stays, or the voters it starts from are the ones the fork was on its way to. */
  lemma {:induction false} StaysOnBase(initial: Membership, L: EntryLog, d: nat, k: nat)
    requires Chain(initial, L) && 0 < d <= k <= |L| && EndsOldJoints(initial, L, d)
    ensures var m, fork := In(initial, L[..k]), In(initial, L[..d]); m == fork || m.oldVoters == Base(fork)
    decreases k
  {
    if k > d {
      StaysOnBase(initial, L, d, k - 1);
      assert L[..k][..k - 1] == L[..k - 1];
      if L[k - 1].data.Conf? {
        assert Successor(In(initial, L[..k - 1]), MembershipOf(L[k - 1].data.change));
        if EndsJoint(L[k - 1]) {
          assert PrevConf(initial, L, k - 1) < d;
          ScanFrom(initial, L, d, k - 1);
        }
      }
    }
  }

  lemma QuorumHasBase(m: Membership, fork: Membership, a: set<NodeID>)
    requires m.HasQuorum(a) && (m == fork || m.oldVoters == Base(fork))
    ensures Majority(Base(fork), a)
  {
  }

  /** The length of the longest common part. */
  function Fork(L: seq<Entry>, M: seq<Entry>): (d: nat)
    ensures d <= |L| && d <= |M| && L[..d] == M[..d]
    ensures d == |L| || d == |M| || L[d] != M[d]
  {
    ForkFrom(L, M, 0)
  }

  function ForkFrom(L: seq<Entry>, M: seq<Entry>, n: nat): (d: nat)
    requires n <= |L| && n <= |M| && L[..n] == M[..n]
    ensures n <= d <= |L| && d <= |M| && L[..d] == M[..d]
    ensures d == |L| || d == |M| || L[d] != M[d]
    decreases |L| - n
  {
    if n == |L| || n == |M| || L[n] != M[n] then n
    else
      assert L[..n + 1] == L[..n] + [L[n]] && M[..n + 1] == M[..n] + [M[n]];
      ForkFrom(L, M, n + 1)
  }

  lemma WithinFork(L: seq<Entry>, M: seq<Entry>, n: nat)
    requires n <= |L| && n <= |M| && L[..n] == M[..n]
    ensures n <= Fork(L, M)
  {
    forall k | 0 <= k < n ensures L[k] == M[k] {
      assert L[..n][k] == M[..n][k];
    }
  }

  /** Quorums of the memberships that two branches end in share a node. */
  lemma BranchesMeet(initial: Membership, L: EntryLog, M: EntryLog, a: set<NodeID>, b: set<NodeID>)
    requires Chain(initial, L) && Chain(initial, M)
    requires EndsOldJoints(initial, L, Fork(L, M)) && EndsOldJoints(initial, M, Fork(L, M))
    requires In(initial, L).HasQuorum(a) && In(initial, M).HasQuorum(b)
    ensures exists v :: v in a && v in b
  {
    hide Chain, EndsOldJoints, ScanMembership;
    var d := Fork(L, M);
    assert L[..1] == [PLACEHOLDER] == M[..1];
    WithinFork(L, M, 1);
    assert L[..|L|] == L && M[..|M|] == M;
    StaysOnBase(initial, L, d, |L|);
    StaysOnBase(initial, M, d, |M|);
    var fork := In(initial, L[..d]);
    QuorumHasBase(In(initial, L), fork, a);
    QuorumHasBase(In(initial, M), fork, b);
    MajoritiesMeet(Base(fork), a, b);
    var v :| v in Base(fork) && v in a && v in b;
  }
}
