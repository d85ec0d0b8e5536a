/**
 The voter sets that decide elections and commits, and why two quorums always meet: within one
 membership, and across the steps of a joint-consensus change.
 */
module Quorums {

  /** A node's identifier; 0 means "nobody". */
  type NodeID = nat

  datatype Membership = Membership(oldVoters: set<NodeID>, newVoters: set<NodeID>, joint: bool) {

    /** Every node that may vote: the old voters, and the new ones while joint. */
    function Voters(): set<NodeID> {
      if joint then oldVoters + newVoters else oldVoters
    }

    /** A majority of the old voters, and while joint also of the new ones. */
    predicate HasQuorum(votes: set<NodeID>) {
      Majority(oldVoters, votes) && (!joint || Majority(newVoters, votes))
    }
  }

  /** More than half of `voters` appears in `votes`. */
  predicate Majority(voters: set<NodeID>, votes: set<NodeID>) {
    |voters * votes| >= |voters| / 2 + 1
  }

  /** The counting loop that decides it. */
  method CountMajority(voters: set<NodeID>, votes: set<NodeID>) returns (enough: bool)
    ensures enough == Majority(voters, votes)
  {
    var n, todo := 0, voters;
    while todo != {}
      invariant todo <= voters
      invariant n == |(voters - todo) * votes|
    {
      var id :| id in todo;
      assert (voters - (todo - {id})) * votes == (voters - todo) * votes + ({id} * votes);
      if id in votes {
        assert {id} * votes == {id};
        n := n + 1;
      } else {
        assert {id} * votes == {};
      }
      todo := todo - {id};
    }
    assert (voters - todo) * votes == voters * votes;
    enough := n >= |voters| / 2 + 1;
  }

  /** The loop that collects the voters. */
  method CollectVoters(m: Membership) returns (out: set<NodeID>)
    ensures out == m.Voters()
  {
    out := {};
    var todo := m.oldVoters;
    while todo != {}
      invariant todo <= m.oldVoters && out == m.oldVoters - todo
    {
      var id :| id in todo;
      out, todo := out + {id}, todo - {id};
    }
    if m.joint {
      todo := m.newVoters;
      while todo != {}
        invariant todo <= m.newVoters && out == m.oldVoters + (m.newVoters - todo)
      {
        var id :| id in todo;
        out, todo := out + {id}, todo - {id};
      }
    }
  }

  // ---------- Quorums meet ----------

  lemma SubsetSize(a: set<NodeID>, b: set<NodeID>)
    requires a <= b
    ensures |a| <= |b|
  {
    assert b == a + (b - a);
  }

  /** Two majorities of the same voters share a voter, whatever the number of voters. */
  lemma MajoritiesMeet(voters: set<NodeID>, a: set<NodeID>, b: set<NodeID>)
    requires Majority(voters, a) && Majority(voters, b)
    ensures exists v :: v in voters && v in a && v in b
  {
    var va, vb := voters * a, voters * b;
    if va * vb == {} {
      assert |va + vb| == |va| + |vb|;
      SubsetSize(va + vb, voters);
    } else {
      var v :| v in va * vb;
      assert v in voters && v in a && v in b;
    }
  }

  /** More than half of the old voters, and while joint more than half of the new ones, and nothing else, is a quorum. */
  lemma QuorumExactly(m: Membership, votes: set<NodeID>)
    ensures m.HasQuorum(votes) <==>
      2 * |m.oldVoters * votes| > |m.oldVoters| && (m.joint ==> 2 * |m.newVoters * votes| > |m.newVoters|)
    ensures forall p :: p in m.Voters() <==> p in m.oldVoters || (m.joint && p in m.newVoters)
  {
  }

  /** A vote or acknowledgement from a node that is not a voter never matters. */
  lemma OnlyVotersCount(m: Membership, votes: set<NodeID>)
    ensures m.HasQuorum(votes) <==> m.HasQuorum(votes * m.Voters())
  {
    assert m.oldVoters * votes == m.oldVoters * (votes * m.Voters());
    if m.joint {
      assert m.newVoters * votes == m.newVoters * (votes * m.Voters());
    }
  }

  lemma MoreVotesKeepQuorum(m: Membership, a: set<NodeID>, b: set<NodeID>)
    requires a <= b && m.HasQuorum(a)
    ensures m.HasQuorum(b)
  {
    SubsetSize(m.oldVoters * a, m.oldVoters * b);
    SubsetSize(m.newVoters * a, m.newVoters * b);
  }

  lemma QuorumNotEmpty(m: Membership)
    ensures !m.HasQuorum({})
  {
    assert m.oldVoters * {} == {};
  }

  // ---------- Reconfiguration ----------

  /** One step of a membership change: entering the joint step, or leaving it. */
  ghost predicate Successor(m: Membership, n: Membership) {
    || (!m.joint && n.joint && n.oldVoters == m.oldVoters)
    || (m.joint && !n.joint && n.oldVoters == m.newVoters)
  }

  /** Quorums of equal or adjacent memberships of a change share a voter of both. */
  lemma QuorumsMeet(m: Membership, n: Membership, a: set<NodeID>, b: set<NodeID>)
    requires m == n || Successor(m, n) || Successor(n, m)
    requires m.HasQuorum(a) && n.HasQuorum(b)
    ensures exists v :: v in a && v in b && v in m.Voters() && v in n.Voters()
  {
    var shared := if Successor(m, n) then n.oldVoters else m.oldVoters;
    MajoritiesMeet(shared, a, b);
    var v :| v in shared && v in a && v in b;
  }

  // ---------- What the joint step is for ----------

  ghost predicate CanSplit(x: set<NodeID>, y: set<NodeID>) {
    exists a, b :: Majority(x, a) && Majority(y, b) && a !! b
  }

  lemma {:induction false} SubsetOfSize(s: set<NodeID>, n: nat) returns (t: set<NodeID>)
    requires n <= |s|
    ensures t <= s && |t| == n
  {
    t := {};
    if n > 0 {
      var v :| v in s;
      t := SubsetOfSize(s - {v}, n - 1);
      t := t + {v};
    }
  }

  lemma SplitFits(x: set<NodeID>, y: set<NodeID>, a: set<NodeID>, b: set<NodeID>)
    requires Majority(x, a) && Majority(y, b) && a !! b
    ensures x != {} && y != {} && |x| / 2 + 1 + |y| / 2 + 1 <= |x + y|
  {
    SubsetSize(x * a, x);
    SubsetSize(y * b, y);
    assert |x * a + y * b| == |x * a| + |y * b|;
    SubsetSize(x * a + y * b, x + y);
  }

  lemma PartsSize(x: set<NodeID>, y: set<NodeID>)
    ensures |x + y| == |x - y| + |y| && |x| == |x - y| + |x * y|
  {
    assert x + y == (x - y) + y;
    assert x == (x - y) + x * y;
  }

  /** A part of `x` of a given size, outside `y` as far as possible, leaves as much of `y` as can be left. */
  lemma TakeOutside(x: set<NodeID>, y: set<NodeID>, need: nat) returns (a: set<NodeID>)
    requires need <= |x|
    ensures a <= x && |a| == need
    ensures |y - a| == |y| || |y - a| == |x + y| - need
  {
    PartsSize(x, y);
    if need <= |x - y| {
      a := SubsetOfSize(x - y, need);
      assert y - a == y;
    } else {
      var shared := SubsetOfSize(x * y, need - |x - y|);
      a := (x - y) + shared;
      assert y - a == y - shared;
      PartsSize(y, shared);
      assert y * shared == shared;
    }
  }

  lemma FitSplits(x: set<NodeID>, y: set<NodeID>)
    requires x != {} && y != {} && |x| / 2 + 1 + |y| / 2 + 1 <= |x + y|
    ensures CanSplit(x, y)
  {
    var a := TakeOutside(x, y, |x| / 2 + 1);
    var b := y - a;
    assert x * a == a && y * b == b;
    assert Majority(x, a) && Majority(y, b) && a !! b;
  }

  /**
   Two voter sets have disjoint majorities exactly when the two least majorities fit side by side. So
   passing from one set straight to the other is safe only if they share enough voters.
   */
  lemma SkippingJointSplitsExactly(x: set<NodeID>, y: set<NodeID>)
    ensures CanSplit(x, y) <==> x != {} && y != {} && |x| / 2 + 1 + |y| / 2 + 1 <= |x + y|
  {
    if CanSplit(x, y) {
      var a, b :| Majority(x, a) && Majority(y, b) && a !! b;
      SplitFits(x, y, a, b);
    }
    if x != {} && y != {} && |x| / 2 + 1 + |y| / 2 + 1 <= |x + y| {
      FitSplits(x, y);
    }
  }

  /**
   Had the joint step counted a majority of the union, a group still on the old voters, or already on
   the new ones, could act without it as soon as the change is large enough; the joint quorum never
   allows either.
   */
  lemma UnionCountSplitsExactly(oldVoters: set<NodeID>, newVoters: set<NodeID>)
    requires oldVoters != {} && newVoters != {}
    ensures var all := oldVoters + newVoters;
      && (CanSplit(oldVoters, all) <==> |oldVoters| / 2 + 1 + |all| / 2 + 1 <= |all|)
      && (CanSplit(newVoters, all) <==> |newVoters| / 2 + 1 + |all| / 2 + 1 <= |all|)
    ensures var joint := Membership(oldVoters, newVoters, true);
      forall a, b | joint.HasQuorum(b) && (Majority(oldVoters, a) || Majority(newVoters, a)) :: a * b != {}
  {
    var all, joint := oldVoters + newVoters, Membership(oldVoters, newVoters, true);
    SkippingJointSplitsExactly(oldVoters, all);
    SkippingJointSplitsExactly(newVoters, all);
    assert oldVoters + all == all && newVoters + all == all;
    forall a, b | joint.HasQuorum(b) && (Majority(oldVoters, a) || Majority(newVoters, a)) ensures a * b != {} {
      var shared := if Majority(oldVoters, a) then oldVoters else newVoters;
      MajoritiesMeet(shared, a, b);
      var v :| v in shared && v in a && v in b;
      assert v in a * b;
    }
  }
}
