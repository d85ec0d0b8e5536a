/**
 The leader's commit rule. It tries only the match indexes and its own last index, yet finds what a
 scan of every index would.
 */
module CommitSearch {
  import opened Quorums
  import opened RaftLog
  import opened RaftNode

  /** Terms never fall along the log, and none exceeds the node's own, which is positive. */
  ghost predicate TermsOrdered(s: State) {
    && s.term > 0
    && (forall i, j | 0 <= i <= j < |s.log| :: s.log[i].term <= s.log[j].term)
    && (forall i | 0 <= i < |s.log| :: s.log[i].term <= s.term)
  }

  lemma TermAt(log: EntryLog, i: nat)
    ensures TermOrZero(log, i) == if i < |log| then log[i].term else 0
  {
  }

  /** The smallest match index among the nodes that have acknowledged `c`. */
  lemma LowestAck(s: State, acked: set<NodeID>) returns (v: nat)
    requires acked != {} && acked <= s.matched.Keys
    ensures v in s.matched.Values
    ensures forall p | p in acked :: s.matched[p] >= v
    ensures exists p :: p in acked && s.matched[p] == v
  {
    var p :| p in acked;
    if acked == {p} {
      v := s.matched[p];
    } else {
      assert acked - {p} != {};
      var w := LowestAck(s, acked - {p});
      v := if s.matched[p] < w then s.matched[p] else w;
      var q :| q in acked - {p} && s.matched[q] == w;
      forall r | r in acked ensures s.matched[r] >= v {
        assert r == p || r in acked - {p};
      }
    }
  }

  /** Whatever index can be committed, one the leader tries can be committed and is no lower. */
  lemma CandidateAbove(s: State, c: nat) returns (d: nat)
    requires TermsOrdered(s) && Committable(s, c)
    ensures d in Candidates(s) && Committable(s, d) && c <= d
  {
    TermAt(s.log, c);
    assert c < |s.log|;
    var acked := Acked(s, c);
    if acked == {} {
      QuorumNotEmpty(s.membership);
      assert false;
    }
    var v := LowestAck(s, acked);
    d := if v < |s.log| then v else LastIndex(s.log);
    TermAt(s.log, d);
    assert acked <= Acked(s, d);
    MoreVotesKeepQuorum(s.membership, acked, Acked(s, d));
  }

  /**
   The sparse search equals the full scan: it finds the greatest index above the committed one that
   carries the current term and that a quorum has, and finds none only when there is none.
   */
  lemma SparseIsFullScan(s: State)
    requires TermsOrdered(s)
    ensures match CommitTarget(s)
            case Some(c) => Committable(s, c) && c <= LastIndex(s.log) && forall d: nat | Committable(s, d) :: d <= c
            case None => forall d: nat :: !Committable(s, d)
  {
    forall d: nat | Committable(s, d) ensures CommitTarget(s).Some? && d <= CommitTarget(s).value {
      var e := CandidateAbove(s, d);
      assert e in CommittableCandidates(s);
    }
    if CommitTarget(s).Some? {
      TermAt(s.log, CommitTarget(s).value);
    }
  }

  /** Appending and broadcasting do not move the commit index. */
  lemma ProposeKeepsCommitted(s: State, data: Data)
    ensures ProposeInternal(s, data).committed == s.committed
    ensures ProposeInternal(s, data).applied == s.applied
  {
  }

  /** What a call that recounts does to the commit index. */
  lemma AdvanceCommitMoves(s: State)
    ensures AdvanceCommit(s).committed == match CommitTarget(s) case Some(c) => c case None => s.committed
    ensures AdvanceCommit(s).applied == s.applied
  {
    hide ProposeInternal, CommitTarget;
    match CommitTarget(s)
    case None =>
    case Some(c) =>
      ProposeKeepsCommitted(BroadcastAppend(s.(committed := c)), Conf(ConfChange({}, s.membership.newVoters, {}, false)));
  }

  /** An acknowledgement from a node that is not a voter changes nothing about what can be committed. */
  lemma LearnerAckIgnored(s: State, learner: NodeID, index: nat, c: nat)
    requires learner !in s.membership.Voters()
    ensures Committable(s.(matched := s.matched[learner := index]), c) <==> Committable(s, c)
  {
    var t := s.(matched := s.matched[learner := index]);
    assert Acked(t, c) * s.membership.Voters() == Acked(s, c) * s.membership.Voters();
    OnlyVotersCount(s.membership, Acked(t, c));
    OnlyVotersCount(s.membership, Acked(s, c));
  }

  /** So the leader commits the same index with or without it, although it adds a candidate to try. */
  lemma LearnersNeverMatter(s: State, learner: NodeID, index: nat)
    requires TermsOrdered(s) && learner !in s.membership.Voters()
    ensures AdvanceCommit(s.(matched := s.matched[learner := index])).committed == AdvanceCommit(s).committed
  {
    hide AdvanceCommit, CommitTarget;
    var t := s.(matched := s.matched[learner := index]);
    SparseIsFullScan(s);
    SparseIsFullScan(t);
    forall c ensures Committable(t, c) <==> Committable(s, c) {
      LearnerAckIgnored(s, learner, index, c);
    }
    AdvanceCommitMoves(s);
    AdvanceCommitMoves(t);
  }

  /** Without ordered terms the shortcut can miss: an index in the middle is committable but never tried. */
  lemma OrderIsNeeded()
    ensures exists s: State :: s.term > 0 && Committable(s, 1) && CommitTarget(s).None?
  {
    var log: EntryLog := [PLACEHOLDER, Entry(1, 2, Command([])), Entry(2, 1, Command([]))];
    var m := Membership({1}, {}, false);
    var s := NewState(1, [1], m, 2, 1).(term := 2, role := Leader, log := log, matched := map[1 := 2]);
    assert Acked(s, 1) == {1} && {1} * {1} == {1};
    assert Committable(s, 1);
    assert Candidates(s) == {2};
    assert !Committable(s, 2);
  }
}
