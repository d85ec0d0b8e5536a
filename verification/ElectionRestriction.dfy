/**
 The election restriction (section 5.4.1 of the Raft paper): a vote goes only to a candidate whose log
 is at least as up to date as the voter's. It holds of every counted vote that was given to a request
 of the voter's own term, in every run whatsoever; a request of an older term can still be granted,
 because nothing compares its term (see StaleVotes).
 */
module ElectionRestriction {
  import opened Wrappers
  import opened Quorums
  import opened RaftLog
  import opened RaftNode
  import opened RaftSteps
  import opened RaftRuns

  /** `a` is not newer than `b`: a lower last term, or the same and no more entries. */
  predicate NoNewer(a: EntryLog, b: EntryLog) {
    LastTerm(a) < LastTerm(b) || (LastTerm(a) == LastTerm(b) && LastIndex(a) <= LastIndex(b))
  }

  /** Being no newer is a total preorder on logs. */
  lemma NoNewerTotal(a: EntryLog, b: EntryLog, c: EntryLog)
    ensures NoNewer(a, b) || NoNewer(b, a)
    ensures NoNewer(a, b) && NoNewer(b, c) ==> NoNewer(a, c)
  {
  }

  // ---------- Votes given ----------

  /** A vote, the voter's log when it was given, and whether the request was of the voter's term. */
  datatype Grant = Grant(voter: NodeID, term: nat, candidate: NodeID, current: bool, log: EntryLog)

  datatype Watched = Watched(r: Run, grants: set<Grant>)

  function GrantOf(s: State, m: Message): set<Grant> {
    var s1 := AdoptTerm(s, m);
    if m.kind == MsgVote && GrantsVote(s1, m) then {Grant(s.id, s1.term, m.from, m.term == s1.term, s1.log)} else {}
  }

  function NextWatched(w: Watched, a: Action): Watched {
    Watched(Next(w.r, a),
            if Enabled(w.r.c, a) && a.Deliver? then w.grants + GrantOf(w.r.c.nodes[a.m.to], a.m) else w.grants)
  }

  function ExecWatched(w: Watched, actions: seq<Action>): Watched
    decreases |actions|
  {
    if actions == [] then w else ExecWatched(NextWatched(w, actions[0]), actions[1..])
  }

  /** Watching does not disturb the run. */
  lemma {:induction false} WatchedIsRun(w: Watched, actions: seq<Action>)
    ensures ExecWatched(w, actions).r == Exec(w.r, actions)
    decreases |actions|
  {
    hide Next;
    if actions != [] {
      WatchedIsRun(NextWatched(w, actions[0]), actions[1..]);
    }
  }

  // ---------- The invariant ----------

  /** The request names the end of the log. */
  ghost predicate Describes(m: Message, log: EntryLog) {
    m.index == LastIndex(log) && m.logTerm == LastTerm(log)
  }

  ghost predicate RequestOk(c: Cluster, m: Message) {
    m.kind == MsgVote && m.from in c.nodes ==>
      var s := c.nodes[m.from];
      s.term >= m.term && (s.term == m.term && s.role == Candidate ==> Describes(m, s.log))
  }

  ghost predicate AnswerOk(grants: set<Grant>, m: Message) {
    m.kind == MsgVoteResp && !m.reject ==>
      exists g :: g in grants && g.voter == m.from && g.term == m.term && g.candidate == m.to
  }

  ghost predicate GrantOk(c: Cluster, g: Grant) {
    g.current && g.candidate in c.nodes ==>
      var s := c.nodes[g.candidate];
      s.term >= g.term && (s.term == g.term && s.role == Candidate ==> NoNewer(g.log, s.log))
  }

  ghost predicate NodeOk(s: State, i: NodeID) {
    s.id == i && i != 0 && NoPreVoteWhileLeading(s)
  }

  ghost predicate MessageOk(w: Watched, m: Message) {
    m.from != m.to && RequestOk(w.r.c, m) && AnswerOk(w.grants, m)
  }

  ghost predicate Inv(w: Watched) {
    && (forall i | i in w.r.c.nodes :: NodeOk(w.r.c.nodes[i], i))
    && (forall m | InFlight(w.r.c, m) :: MessageOk(w, m))
    && (forall g | g in w.grants :: GrantOk(w.r.c, g))
  }

  // ---------- Vote messages one call can send ----------

  ghost predicate SendsNoVotes(s: State, t: State) {
    forall b | b in t.msgs && b !in s.msgs :: b.kind != MsgVote && (b.kind == MsgVoteResp ==> b.reject)
  }

  /** Requests are sent with a vote for oneself and describe the new candidate's log; votes are those GrantOf records. */
  ghost predicate VoteTraffic(s: State, t: State, granted: set<Grant>) {
    forall b | b in t.msgs && b !in s.msgs ::
      && (b.kind == MsgVote ==> b.from == t.id == t.vote && b.term == t.term && Describes(b, t.log))
      && AnswerOk(granted, b)
  }

  lemma NoVotesTraffic(s: State, t: State, granted: set<Grant>)
    requires SendsNoVotes(s, t)
    ensures VoteTraffic(s, t, granted)
  {
  }

  lemma ProposeSendsNone(s: State, data: Data)
    ensures SendsNoVotes(s, ProposeInternal(s, data))
  {
    hide ProposeInternal, TakenFrom;
    ProposeEffect(s, data);
  }

  lemma BecomeLeaderSendsNone(s: State)
    ensures SendsNoVotes(s, BecomeLeader(s))
  {
    hide ProposeInternal, EntriesFrom, TermOrZero;
    ProposeSendsNone(StartLeading(s), JointLeaderNoop);
  }

  lemma AdvanceCommitSendsNone(s: State)
    ensures SendsNoVotes(s, AdvanceCommit(s))
  {
    hide CommitTarget, ProposeInternal, EntriesFrom, TermOrZero;
    if CommitTarget(s).Some? {
      var s1 := BroadcastAppend(s.(committed := CommitTarget(s).value));
      ProposeSendsNone(s1, Conf(ConfChange({}, s1.membership.newVoters, {}, false)));
    }
  }

  lemma AppendSendsNone(s: State, m: Message)
    ensures SendsNoVotes(s, HandleAppend(s, m))
  {
    hide Append, ScanMembership, Fits, LastIndex;
  }

  lemma AppendRespSendsNone(s: State, m: Message)
    ensures SendsNoVotes(s, HandleAppendResp(s, m))
  {
    hide AdvanceCommit, EntriesFrom, TermOrZero;
    AdvanceCommitSendsNone(Recorded(s, m.from, m.index));
  }

  lemma ElectionTraffic(s: State)
    ensures VoteTraffic(s, StartElection(s), {})
  {
    hide TermOrZero;
  }

  lemma PreVoteTraffic(s: State, m: Message)
    ensures VoteTraffic(s, HandlePreVoteResp(s, m), {})
    ensures SendsNoVotes(s, HandlePreVote(s, m))
  {
    hide StartElection, LogUpToDate, TermOrZero;
    if s.votes.Some? {
      ElectionTraffic(s.(votes := Some(s.votes.value + {m.from})));
    }
  }

  lemma VoteRespSendsNone(s: State, m: Message)
    ensures SendsNoVotes(s, HandleVoteResp(s, m))
  {
    hide BecomeLeader;
    if s.votes.Some? {
      BecomeLeaderSendsNone(s.(votes := Some(s.votes.value + {m.from})));
    }
  }

  lemma VoteIsGrant(s: State, m: Message)
    requires m.kind == MsgVote
    ensures VoteTraffic(s, HandleVote(AdoptTerm(s, m), m), GrantOf(s, m))
  {
    hide LogUpToDate;
    var s1 := AdoptTerm(s, m);
    if GrantsVote(s1, m) {
      assert Grant(s.id, s1.term, m.from, m.term == s1.term, s1.log) in GrantOf(s, m);
    }
  }

  lemma StepTraffic(s: State, m: Message)
    ensures VoteTraffic(s, Step(s, m), GrantOf(s, m))
  {
    hide HandlePreVote, HandlePreVoteResp, HandleVote, HandleVoteResp, HandleAppend, HandleAppendResp, GrantOf,
      AnswerOk, Describes;
    var s1 := AdoptTerm(s, m);
    PreVoteTraffic(s1, m);
    MoreGrants(s1, HandlePreVoteResp(s1, m), GrantOf(s, m));
    match m.kind
    case MsgPreVote => NoVotesTraffic(s1, HandlePreVote(s1, m), GrantOf(s, m));
    case MsgVote => VoteIsGrant(s, m);
    case MsgVoteResp =>
      VoteRespSendsNone(s1, m);
      NoVotesTraffic(s1, HandleVoteResp(s1, m), GrantOf(s, m));
    case MsgAppend =>
      AppendSendsNone(s1, m);
      NoVotesTraffic(s1, HandleAppend(s1, m), GrantOf(s, m));
    case MsgAppendResp =>
      AppendRespSendsNone(s1, m);
      NoVotesTraffic(s1, HandleAppendResp(s1, m), GrantOf(s, m));
    case _ =>
  }

  lemma MoreGrants(s: State, t: State, granted: set<Grant>)
    requires VoteTraffic(s, t, {})
    ensures VoteTraffic(s, t, granted)
  {
    hide Describes;
    forall b | b in t.msgs && b !in s.msgs ensures AnswerOk(granted, b) {
      assert AnswerOk({}, b);
    }
  }

  lemma TickSendsNone(s: State)
    ensures SendsNoVotes(s, Tick(s))
  {
    hide EntriesFrom, TermOrZero;
  }

  ghost function GrantedBy(s: State, a: Action): set<Grant> {
    if a.Deliver? then GrantOf(s, a.m) else {}
  }

  lemma ActTraffic(s: State, a: Action)
    ensures VoteTraffic(s, Act(s, a), GrantedBy(s, a))
  {
    hide Step, Tick, ProposeInternal, GrantOf, VoteTraffic;
    match a
    case TickAt(_) =>
      TickSendsNone(s);
      NoVotesTraffic(s, Act(s, a), {});
    case ProposeAt(_, command) =>
      ProposeSendsNone(s, Command(command));
      NoVotesTraffic(s, Act(s, a), {});
    case ChangeAt(_, v, l) =>
      ProposeSendsNone(s, Conf(ConfChange(s.membership.oldVoters, IdSet(v), IdSet(l), true)));
      NoVotesTraffic(s, Act(s, a), {});
    case Deliver(m) => StepTraffic(s, m);
    case _ => NoVotesTraffic(s, Act(s, a), {});
  }

  // ---------- Preservation ----------

  /** A node that is a candidate after a step, in the same term, was one before, with the same log. */
  ghost predicate CandidateStays(s: State, t: State) {
    && t.id == s.id && t.term >= s.term
    && (t.role == Candidate && t.term == s.term ==> s.role == Candidate && t.log == s.log)
    && (NoPreVoteWhileLeading(s) ==> NoPreVoteWhileLeading(t))
  }

  lemma ActStays(s: State, a: Action)
    requires NoPreVoteWhileLeading(s) && (a.Deliver? ==> a.m.from != s.id)
    ensures CandidateStays(s, Act(s, a))
    ensures forall b | b in Act(s, a).msgs && b !in s.msgs :: b.from != b.to
  {
    hide Act, TakenFrom, Append;
    ActSteps(s, a);
  }

  lemma RequestKept(c: Cluster, i: NodeID, t: State, net: set<Message>, m: Message)
    requires i in c.nodes && CandidateStays(c.nodes[i], t) && RequestOk(c, m)
    ensures RequestOk(Cluster(c.nodes[i := t], net), m)
  {
    hide Describes;
  }

  lemma GrantKept(c: Cluster, i: NodeID, t: State, net: set<Message>, g: Grant)
    requires i in c.nodes && CandidateStays(c.nodes[i], t) && GrantOk(c, g)
    ensures GrantOk(Cluster(c.nodes[i := t], net), g)
  {
    hide NoNewer;
  }

  /** A vote given to a request of the voter's term goes to a candidate no older than the voter. */
  lemma GrantIsOk(c: Cluster, s: State, m: Message, g: Grant)
    requires RequestOk(c, m) && g in GrantOf(s, m)
    ensures GrantOk(c, g)
  {
  }

  lemma NextKeepsInv(w: Watched, a: Action)
    requires Inv(w)
    ensures Inv(NextWatched(w, a))
  {
    hide Act, RequestOk, AnswerOk, GrantOk, GrantOf, CandidateStays, Describes, NoPreVoteWhileLeading;
    if Enabled(w.r.c, a) {
      var i := Target(a);
      var s, t := w.r.c.nodes[i], Act(w.r.c.nodes[i], a);
      var w' := NextWatched(w, a);
      assert w'.r.c.nodes == w.r.c.nodes[i := t];
      if a.Deliver? {
        assert InFlight(w.r.c, a.m);
      }
      ActStays(s, a);
      ActTraffic(s, a);
      NodeStays(s, t, i);
      forall m | InFlight(w'.r.c, m) ensures MessageOk(w', m) {
        InFlightAfter(w.r, a, m);
        if m in t.msgs && m !in s.msgs {
          NewMessageOk(w, a, i, m);
        } else {
          assert m in s.msgs ==> InFlight(w.r.c, m);
          RequestKept(w.r.c, i, t, w'.r.c.net, m);
          AnswerKept(w.grants, w'.grants, m);
        }
      }
      forall g | g in w'.grants ensures GrantOk(w'.r.c, g) {
        if g !in w.grants {
          GrantIsOk(w.r.c, s, a.m, g);
        }
        GrantKept(w.r.c, i, t, w'.r.c.net, g);
      }
    }
  }

  lemma NodeStays(s: State, t: State, i: NodeID)
    requires NodeOk(s, i) && CandidateStays(s, t)
    ensures NodeOk(t, i)
  {
  }

  lemma AnswerKept(before: set<Grant>, after: set<Grant>, m: Message)
    requires AnswerOk(before, m) && before <= after
    ensures AnswerOk(after, m)
  {
  }

  lemma NewMessageOk(w: Watched, a: Action, i: NodeID, m: Message)
    requires Enabled(w.r.c, a) && i == Target(a) && NodeOk(w.r.c.nodes[i], i)
    requires m in Act(w.r.c.nodes[i], a).msgs && m !in w.r.c.nodes[i].msgs && m.from != m.to
    requires VoteTraffic(w.r.c.nodes[i], Act(w.r.c.nodes[i], a), GrantedBy(w.r.c.nodes[i], a))
    requires CandidateStays(w.r.c.nodes[i], Act(w.r.c.nodes[i], a))
    ensures MessageOk(NextWatched(w, a), m)
  {
    hide Act, GrantOf, AnswerOk, Describes;
    AnswerKept(GrantedBy(w.r.c.nodes[i], a), NextWatched(w, a).grants, m);
  }

  lemma {:induction false} RunKeepsInv(w: Watched, actions: seq<Action>)
    requires Inv(w)
    ensures Inv(ExecWatched(w, actions))
    decreases |actions|
  {
    hide Inv, NextWatched;
    if actions != [] {
      NextKeepsInv(w, actions[0]);
      RunKeepsInv(NextWatched(w, actions[0]), actions[1..]);
    }
  }

  lemma InitialInv(start: Run, m: Membership)
    requires Initial(start, m)
    ensures Inv(Watched(start, {}))
  {
  }

  // ---------- The results ----------

  /** This vote was given, for this answer. */
  predicate GrantFor(g: Grant, b: Message) {
    g.voter == b.from && g.term == b.term && g.candidate == b.to
  }

  /**
   In every run: a vote that a candidate counts was given, in that term, by the node it came from; and
   each time that node gave it to a request of its own term, its log was then no newer than the candidate's
   log is now, which is the log it starts to lead with.
   */
  lemma CountedVotesAreRestricted(start: Run, m: Membership, actions: seq<Action>, b: Message)
    requires Initial(start, m)
    requires var c := Exec(start, actions).c;
      && b in c.net && b.kind == MsgVoteResp && !b.reject && b.to in c.nodes
      && c.nodes[b.to].role == Candidate && c.nodes[b.to].term == b.term
    ensures var w := ExecWatched(Watched(start, {}), actions);
      && w.r == Exec(start, actions)
      && (exists g :: g in w.grants && GrantFor(g, b))
      && (forall g | g in w.grants && GrantFor(g, b) && g.current :: NoNewer(g.log, w.r.c.nodes[b.to].log))
  {
    hide ExecWatched, Exec, NoNewer, Inv;
    InitialInv(start, m);
    RunKeepsInv(Watched(start, {}), actions);
    WatchedIsRun(Watched(start, {}), actions);
    CountedVote(ExecWatched(Watched(start, {}), actions), b);
  }

  lemma CountedVote(w: Watched, b: Message)
    requires Inv(w) && b in w.r.c.net && b.kind == MsgVoteResp && !b.reject && b.to in w.r.c.nodes
    requires w.r.c.nodes[b.to].role == Candidate && w.r.c.nodes[b.to].term == b.term
    ensures exists g :: g in w.grants && GrantFor(g, b)
    ensures forall g | g in w.grants && GrantFor(g, b) && g.current :: NoNewer(g.log, w.r.c.nodes[b.to].log)
  {
    hide NoNewer, RequestOk, NodeOk;
    assert InFlight(w.r.c, b);
    assert AnswerOk(w.grants, b);
    var g :| g in w.grants && g.voter == b.from && g.term == b.term && g.candidate == b.to;
    assert GrantFor(g, b);
    forall g | g in w.grants && GrantFor(g, b) && g.current ensures NoNewer(g.log, w.r.c.nodes[b.to].log) {
      assert GrantOk(w.r.c, g);
    }
  }
}
