# Consensa in Dafny

A model of the parts of Consensa that hold real state, with proofs about every input, every run or
every reachable state:

- **One Raft replica** (`RaftLog`, `RaftNode`, `RaftReplica`, `RaftCalls`). `RaftNode` says what each call does to the
  replica as a function on its whole state; the class `RaftReplica.Node` updates its fields as
  `internal/raft` does, and every method is proved equal to its function. `RaftCalls` fixes what those functions
  may be: the next state and every queued message, told by logs, terms, voters and messages alone.
- **Runs of a group** (`Quorums`, `CommitSearch`, `RaftSteps`, `RaftRuns`, `TermOrder`, `LogMatching`,
  `ElectionSafety`, `ElectionRestriction`, `CachedMembership`, `ConfChain`, `ConfBranches`, `Acks`,
  `CallFacts`, `Histories`, `Completeness`, `SafeRuns`, `CommitSafety`, `SameApplied`, `CommitProgress`,
  `PreVotes`). The network is the set
  of all messages ever sent, so a message can be delayed, lost, repeated and reordered freely.
- **Runs that break a promise of Raft** (`FiveNodes`, `TwoLeaders`, `Divergence`, `StaleVotes`,
  `LostCommits`, `LostDisks`), each built action by action from freshly created nodes.
- **One node and its host** (`Handoff`, `RaftDisk`, `RaftKeys`, `RaftPersister`, `RecoveryRuns`,
  `DurableVotes`, `HostDriver`): handing committed entries to the application, saving before sending,
  crashing at any point, and recovering any number of times.
- **The storage engine** (`WalFormat`, `Engine`, `StoreRuns`): the append-only file byte by byte, the map
  kept over it, and runs with crashes that lose any unsynced suffix of bytes.
- **The vector index** (`Vectors`, `HnswGraph`, `HnswInvariants`, `HnswNeighbours`, `HnswSearch`, `Hnsw`): the navigable
  small-world graph under every history of inserts, replaces and deletes, and its best-first search.
- **The linearizability checker** (`Linearizability`).

`Wrappers`, `ByteStrings` and `Sorting` hold what the others share.

Integers are unbounded; the places where 64-bit or 32-bit width matters are written out (record lengths
in `WalFormat`, keys in `RaftKeys`, and the leader's previous index in `RaftNode.AppendMessage`, which
wraps round to the largest unsigned number). Raft is the algorithm of Ongaro and Ousterhout, "In Search
of an Understandable Consensus Algorithm (Extended Version)".

## What the proofs found

Where the code does less than its comments or the paper promise, the code is modelled as it is. Each gap
comes with an input or a run that shows it, and with a theorem that says when the promise holds: exactly
when, if it is an if-and-only-if, and otherwise under conditions that "Left out" names below.

- **Two leaders in one term**, in two ways. Accepting an append message clears `vote` although the term is
  unchanged, so a node can vote twice in a term (`TwoLeaders.TwoLeadersInOneTerm`, three nodes). And a
  candidate that goes back to a pre-vote counts real votes and pre-votes together, so it can win although
  every vote is kept (`TwoLeaders.PreVoteAndVoteMix`, five nodes). Then Log Matching fails
  (`Divergence.LogsDiffer`), and a log can hold two joint steps in a row (`Divergence.TwoJointSteps`).
  `ElectionSafety.VoteErasedExactly` says which messages erase a vote; `ElectionSafety.ElectionSafe` proves
  safety for every run of fixed membership without these two steps, and `CommitSafety.OneLeaderEach` through
  all membership changes, with the two steps below excluded as well.
- **A vote request of an older term can win a vote of the current term** (`StaleVotes.StaleRequestWinsVote`,
  a run of five nodes). Nothing compares the request's term with the voter's, so a node that has just refused
  a candidate for its old log can grant that candidate's delayed earlier request, and the candidate wins.
  `ElectionRestriction.CountedVotesAreRestricted` proves the restriction for every vote given to a request of
  the voter's own term, in every run.
- **A committed entry can be lost** (`LostCommits.TwoCommitsAtOneIndex`, a run of five nodes). A follower
  answers a batch with its own last index, so the leader also counts a stale tail past the batch, and commits
  an index that no quorum holds (`LostCommits.CommitNoQuorumHolds`). `Acks.AnswerRightExactly` says which
  answers are right. `CommitSafety` proves Leader Completeness and State Machine Safety for every run, through
  all its membership changes, whose answers are right and whose votes are as above, and `SameApplied` that the
  applications of such a run meet the same entries in the same order.
- **A crash while saving can leave a node that refuses to start** (`LostDisks.PartialSaveCanFail`). The
  hard state is written before the entries, so its commit index can be ahead of the entries on disk.
  `RecoveryRuns.PartialSaveRecoversExactly` gives the exact condition for one crash, and
  `RecoveryRuns.CrashesDecide` for a whole run.
- **Truncated entries come back** (`LostDisks.StaleTailComesBack`). Nothing deletes them from disk, so
  a recovered log can be longer than the one in memory, with terms that go down.
- **Sync after a reopen can be a no-op** (`StoreRuns.SyncAfterReopenCanLose`). The count of unsynced
  appends restarts at zero, so bytes that survived a process crash unsynced are not covered by the next
  Sync. `StoreRuns.SyncDurableExactly` says when Sync does what it is documented to do, and
  `RaftPersister.PersistIsDurable` why saving a Raft node is not affected.
- **An oversized record does not read back** (`WalFormat.RoundTripExactly`): exactly those of 2^32 bytes
  or more, whose length field keeps only its low 32 bits.
- **A batch with a gap leaves the cached membership behind the log**
  (`CachedMembership.GapLeavesCacheStale`, one state and one message): the error path skips the rescan. No
  leader sends such a batch, so in a run of the group the cache is always right
  (`CachedMembership.CacheAlwaysRight`).
- **The commit index of a follower can fall** (`RaftCalls.CommitCanFall`, one state and one message): when a
  batch cuts the log below it, it becomes the end of the shorter log. `RaftCalls.FollowerCommits` gives the
  exact condition, and `CommitProgress.FollowersCatchUp` shows that no safe run meets it.
- **A peer listed twice can leave nobody to vote** (`RaftReplica.PeerListedTwiceLeavesNone`): the check for a
  voter counts the peers as listed. `RaftReplica.VoterLeftExactly` says when a voter is left.
- **A list can name one neighbour twice** (`HnswNeighbours.DeleteListsTwice`, a delete from a well-formed index):
  the repair skips the nodes that a node lists, not those that list it. `HnswNeighbours.LinkRepeatsExactly` says
  when a link does it.
- **The checker rejects operations that end before they begin**, and kinds it does not know, whatever the
  order of the rest (`Linearizability.DecidesLinearizability`).

## Model

| member | source | states |
|---|---|---|
| Linearizability.DecidesLinearizability | harness/torture/checker/linearizability.py:23-43 | The search answers True if and only if every operation is a read or write that does not end before it begins, and some order explains the history: every operation once, real-time precedence kept, each read returning the latest earlier write or nothing. |
| Linearizability.SearchSound | harness/torture/checker/linearizability.py:26-41 | From any partial placement, a successful search can be completed to an order that explains the whole history. |
| Linearizability.SearchComplete | harness/torture/checker/linearizability.py:26-41 | After placing any prefix of an explaining order, the search succeeds, so no valid order is missed. |
| WalFormat.ParsePrefix | internal/storage/wal.go:39-58 | Replaying any byte prefix of a printed file returns exactly the records wholly inside it, keeps exactly their bytes, and never reports corruption. |
| WalFormat.WholeRecordsExact | internal/storage/wal.go:81-89 | The number of records kept is the largest that fits the prefix. |
| WalFormat.AppendAfterCrash | internal/storage/wal.go:73-105 | After the torn tail is cut, records appended later replay right after the surviving ones. |
| WalFormat.PrintParsed | internal/storage/wal.go:90-103 | For any file at all, printing what was read gives back the bytes it was read from. |
| WalFormat.FrontExactly | internal/storage/wal.go:79-103 | A record is read from the front of a file if and only if the file begins with what that record prints; otherwise nothing is left, or less than the header announces, or the file is corrupt, by its checksum if that differs. |
| WalFormat.ReplayStops | internal/storage/wal.go:78-104 | A replay of any file goes on as long as it can, and ends as the front of what it did not read says. |
| WalFormat.ParseAll | internal/storage/wal.go:72-105 | A whole printed file replays to its records. |
| WalFormat.RoundTripExactly | internal/storage/wal.go:40-46 | One printed record reads back if and only if its payload fits the 32-bit length field. |
| Engine.Wal.Append | internal/storage/wal.go:39-58 | Appends exactly the printed record and syncs when enough are waiting. |
| Engine.Wal.Sync | internal/storage/wal.go:61-70 | Makes the whole file durable, but does nothing when nothing is waiting. |
| Engine.Wal.ReadRecords | internal/storage/wal.go:78-104 | The replay loop reads what the recursive parser reads, and stops where it stops. |
| Engine.Wal.Replay | internal/storage/wal.go:73-105 | Returns every record, cuts a torn tail off the file, and refuses a corrupt record without touching the file. |
| Engine.DB.Open | internal/storage/engine.go:34-51 | The opened engine holds the fold of the replayed records; a corrupt file is refused. |
| Engine.DB.Put | internal/storage/engine.go:55-69 | The whole new state: file first, then the map; an empty key or a closed engine changes nothing. |
| Engine.DB.Get | internal/storage/engine.go:72-83 | The current value, or which error. |
| Engine.DB.Scan | internal/storage/engine.go:86-98 | Exactly the keys of the half-open range, each once with its newest value, in strictly increasing key order, whatever order the map is iterated in. |
| Engine.DB.Sync | internal/storage/engine.go:102-109 | The whole new state after a sync, and the error when closed. |
| Engine.DB.Close | internal/storage/engine.go:112-124 | Closing syncs once and is idempotent. |
| StoreRuns.StoreRefinesFold | internal/storage/engine.go:34-109 | In every run of puts, syncs, closes, crashes and opens, the map is the fold of the surviving writes, and the disk holds exactly the durable ones. |
| StoreRuns.CrashRecovery | internal/storage/engine.go:34-51 | A crash anywhere, losing any unsynced suffix of bytes, then an open: it succeeds with the given sync setting, and the map is the fold of a prefix of the writes that has every durable one. |
| StoreRuns.SyncDurableExactly | internal/storage/engine.go:100-109 | Sync makes every write durable if and only if something was appended since the open or nothing was missing on disk. |
| StoreRuns.SyncAfterReopenCanLose | internal/storage/wal.go:60-70 | A reachable run in which a write present at Sync is lost by a later crash. |
| StoreRuns.FewWait | internal/storage/wal.go:54-57 | In every run fewer than `syncEvery` appends wait for an fsync; with 1, a put is durable when it returns. |
| StoreRuns.ClosedForGood | internal/storage/engine.go:112-124 | Closing keeps the map and the file; after that no put, sync or close changes anything. |
| Quorums.MajoritiesMeet | internal/raft/membership.go:29-37 | Two majorities of one voter set share a voter, for sets of any size. |
| Quorums.CountMajority | internal/raft/membership.go:29-37 | The counting loop decides majority, in any iteration order. |
| Quorums.CollectVoters | internal/raft/membership.go:15-26 | The collecting loop returns the voters in effect. |
| Quorums.QuorumsMeet | internal/raft/membership.go:41-46 | Sets accepted under equal or neighbouring memberships of a change share a voter of both. |
| Quorums.OnlyVotersCount | internal/raft/membership.go:41-46 | Votes of nodes that are not voters never change the answer. |
| Quorums.QuorumExactly | internal/raft/membership.go:15-46 | A quorum is more than half of the old voters and, while joint, more than half of the new ones, and nothing else; the voters are the old ones and, while joint, the new ones. |
| Quorums.SkippingJointSplitsExactly | internal/raft/confchange.go:9-18 | Two voter sets, of any size, have disjoint majorities if and only if neither is empty and their two least majorities fit in the union: when a change without the joint step could split the group. |
| Quorums.UnionCountSplitsExactly | internal/raft/membership.go:5-8 | If the joint step counted a majority of the union, it could act apart from the old voters, or from the new ones, if and only if the least majorities fit in the union; a joint quorum always meets every majority of either. |
| RaftLog.LookupIsScan | internal/raft/log.go:21-35 | The direct term lookup equals a linear scan of the log. |
| RaftLog.AppendIsMerge | internal/raft/log.go:39-61 | A consecutive batch that leaves no gap never fails: the log stays if it has every entry, and is otherwise cut at the first missing or conflicting index and extended with the rest of the batch. |
| RaftLog.AppendFailsExactly | internal/raft/log.go:41-56 | A consecutive batch is refused if and only if it starts at the placeholder or past the end, and then nothing changes. |
| RaftLog.AppendIdempotent | internal/raft/log.go:39-61 | Appending the same batch again changes nothing. |
| RaftLog.MergeHas | internal/raft/log.go:39-61 | Afterwards every entry of the batch is in the log by index and term. |
| RaftLog.Log.AppendBatch | internal/raft/log.go:39-61 | The in-place loop computes that append, including where it stops on an error. |
| RaftReplica.Node.Create | internal/raft/node.go:71-113 | A new follower with an empty log, or which configuration error. |
| RaftReplica.ConfigAccepted | internal/raft/node.go:72-102 | The configurations accepted, and for each of the first four errors exactly those that it refuses. |
| RaftReplica.FirstVoters | internal/raft/node.go:103-109 | The first voters are exactly the peers that are not learners, in no joint step. |
| RaftReplica.VoterLeftExactly | internal/raft/node.go:100-102 | An accepted configuration leaves a voter if and only if fewer different nodes are learners than are peers. |
| RaftReplica.PeerListedTwiceLeavesNone | internal/raft/node.go:100-102 | A peer listed twice can leave none. |
| RaftReplica.Node.Tick | internal/raft/node.go:117-131 | The whole new state after a tick (RaftCalls.Heartbeat, RaftCalls.ElectionTimeout). |
| RaftReplica.Node.Step | internal/raft/node.go:161-187 | The whole new state after any message, and the two errors. RaftCalls says of each kind of message what that state is. |
| RaftReplica.Node.HandleAppend | internal/raft/node.go:262-284 | The whole new state: step down, check, merge, rescan, commit, answer (RaftCalls.FollowerCommits, RaftCalls.BatchRefused, RaftCalls.BatchFails). |
| RaftReplica.Node.HandleAppendResp | internal/raft/node.go:287-304 | The whole new state: back off and resend, or record the match, recount and continue (RaftCalls.RefusalBacksUp, RaftCalls.AckEffect). |
| RaftReplica.Node.AdvanceCommit | internal/raft/node.go:312-343 | The loop over candidates from the highest down commits the greatest committable candidate, or nothing (RaftCalls.LeaderCommits), and then ends the joint step or steps down (RaftCalls.JointStepEnds). |
| RaftReplica.Node.HandleVote | internal/raft/election.go:70-81 | The whole new state after a vote request. |
| RaftReplica.Node.HandleVoteResp | internal/raft/election.go:84-94 | The whole new state after a vote, including the start of leading. |
| RaftReplica.Node.HandlePreVoteResp | internal/raft/election.go:42-53 | The whole new state after a pre-vote, including the start of the election. |
| RaftReplica.Node.RecomputeMembership | internal/raft/confchange.go:98-109 | The rescan finds the newest config entry of the log. |
| RaftReplica.Node.ProposeConfChange | internal/raft/confchange.go:145-177 | Which of the five errors, or the joint entry appended. |
| RaftReplica.Node.AddKnownPeer | internal/raft/confchange.go:128-139 | A new peer is tracked from the end of a leader's log; a known one changes nothing. |
| RaftReplica.Node.Ready | internal/raft/node.go:190-199 | What is to be saved, sent and applied. |
| RaftReplica.Node.Advance | internal/raft/node.go:202-207 | The whole new state after the host's work. |
| RaftCalls.FollowerCommits | internal/raft/node.go:262-284 | Any batch that fits and has no gap, empty or not: the log merged, the membership of the merged log, one acknowledgement of its last index, and a commit index that is the larger of the old one and the leader's as far as the log goes, if and only if the leader's is no higher than the old one or the old one is still within the log. |
| RaftCalls.CommitCanFall | internal/raft/node.go:280-282 | The exception: a state and a batch that lower the commit index. |
| RaftCalls.BatchRefused | internal/raft/node.go:263-271 | Of an older term, or not fitting: one refusal with the last index, and neither log nor commit index change. |
| RaftCalls.BatchFails | internal/raft/node.go:272-274 | A batch that cannot be appended is not answered and commits nothing. |
| RaftCalls.LeaderCommits | internal/raft/node.go:312-343 | With a new acknowledgement the commit index rises to an index of the leader's term that a quorum of the match indexes reaches, and no higher one it tries qualifies, nor any index at all if terms are in order; it never falls. |
| RaftCalls.AckEffect | internal/raft/node.go:287-304 | The whole state and exactly the messages after an acknowledgement: the match and next index, a batch to every peer if the commit index rose, and to the sender whatever it lacks. |
| RaftCalls.JointStepEnds | internal/raft/node.go:345-362 | When a leader's commit index rises: a joint step whose entry is thereby committed is over, with the entry for the new voters at the end of the log; before that it goes on; and a plain membership without the leader makes it a follower in its term. |
| RaftCalls.RefusalBacksUp | internal/raft/node.go:291-297 | A refusal moves the next index back by one, but not below 1, and resends from there. |
| RaftCalls.OneBatch | internal/raft/node.go:254-259 | The batch for a peer is everything from its next index, after the entry before that; with next index zero, the whole log after the largest unsigned number. |
| RaftCalls.Heartbeat | internal/raft/node.go:119-125 | A leader sends one batch to every other peer at each tick its heartbeat is due, and at no other. |
| RaftCalls.ElectionTimeout | internal/raft/node.go:126-130 | A pre-vote starts if and only if the time is up for a node that does not lead and may vote; it asks exactly the other voters, for the next term, and changes neither term nor vote. |
| RaftCalls.PreVoteAnswered | internal/raft/election.go:30-39 | Exactly one answer and no other change: yes if and only if the node may vote, the term asked about is later, and the log named is no older than its own. |
| RaftCalls.PreVoteCounted | internal/raft/election.go:42-53 | Which answers count, and that the election starts with the next term, a vote for itself and a request to every other voter if and only if a quorum has said yes. |
| RaftCalls.VoteAnswered | internal/raft/election.go:70-81 | Exactly one answer, in the later term: yes if and only if the node may vote, holds no vote for another in that term, and the log named is no older than its own. |
| RaftCalls.VoteCounted | internal/raft/election.go:84-94 | Which votes count, and that the node leads if and only if a quorum has voted: every peer followed from the end of the log, a batch to everybody, and an empty entry of its term first if and only if it is inside a joint step. |
| RaftCalls.Proposed | internal/raft/node.go:134-158 | A leader's proposal is the next entry of its term, sent to every peer, a membership in it in effect at once; nobody else's does anything. |
| RaftCalls.ChangeRefused | internal/raft/confchange.go:145-177 | A change starts if and only if the node leads outside a joint step, there are voters, all nodes named are known, and no learner is a voter; and which of the five errors otherwise. |
| RaftCalls.PeerAdded | internal/raft/confchange.go:128-139 | A peer not known yet is known, and followed from the end of the log if and only if the node leads. |
| RaftCalls.NewestInEffect | internal/raft/confchange.go:98-109 | The membership and index found by the rescan are those of the newest config entry, or the first ones if there is none. |
| RaftSteps.StepIsLogStep | internal/raft/node.go:161-187 | Whatever message arrives from another node (and, if the node leads, with no pre-vote running, which holds in every run), the step leaves the log alone, wins an election, proposes one entry of the current term, or merges a batch of the message's term; and append messages are cut from the sender's own log while it leads. |
| CommitSearch.SparseIsFullScan | internal/raft/node.go:312-343 | With terms in order, trying only the match values and the last index finds the greatest index at all that has the current term and a quorum, and finds none only when there is none. |
| CommitSearch.LearnersNeverMatter | internal/raft/node.go:309-311 | An acknowledgement from a learner never changes what is committed. |
| CommitSearch.OrderIsNeeded | internal/raft/node.go:312-343 | The order is what the search rests on: in a state without it, which no run of the group reaches (TermOrder.TermsNeverFall), the search can miss a committable index. |
| LogMatching.LogsMatch | internal/raft/log.go:39-61 | Log Matching (section 5.3): in every run with at most one leader per term, two logs with an entry of the same index and term are identical up to it. |
| LogMatching.AcceptedAgreesWithLeader | internal/raft/node.go:262-284 | After an accepted append message the receiver's log agrees, up to the end of the batch, with the log of the leader of the message's term, which sent it. |
| TermOrder.TermsNeverFall | internal/raft/log.go:39-61 | In every run whatsoever, two leaders in a term or not, the terms along every log never fall and never exceed the node's own. |
| TermOrder.LeadersCommitFully | internal/raft/node.go:306-343 | So in every run each leader's search finds the greatest committable index, or there is none. |
| ElectionSafety.ElectionSafe | internal/raft/election.go:55-94 | Election safety (section 5.2) under one fixed membership, joint or not: no term has two leaders and no node two votes in a term, in every run that avoids two steps the code allows. |
| ElectionSafety.VoteErasedExactly | internal/raft/node.go:214-222 | A held vote is lost without a new term if and only if the message is for this node or for nobody in particular, and is an append message of the current term or makes a leader step down. |
| ElectionSafety.SafeRunsMatchLogs | internal/raft/node.go:262-284 | In those runs Log Matching holds with nothing assumed about leaders. |
| ElectionRestriction.CountedVotesAreRestricted | internal/raft/election.go:70-94 | The election restriction (section 5.4.1), in every run whatsoever: each vote a candidate counts was given to it by its sender in that term, and each time the sender gave it to a request of its own term, its log was no newer than the candidate's is when it counts the vote. |
| PreVotes.ElectionsArePolled | internal/raft/election.go:30-53 | In every run: a node that becomes a candidate in a later term moves up by one, and a quorum of its voters stands behind it, each of them itself, or a node that said yes to a pre-vote with a log no newer than one the candidate had when it asked, or a node that has sent it a real vote. |
| StaleVotes.StaleRequestWinsVote | internal/raft/election.go:70-81 | A reachable run of five nodes: node 3 has refused node 1's request of term 4 for its older log, grants node 1's delayed request of term 3, and that vote makes node 1 leader of term 4. |
| TwoLeaders.TwoLeadersInOneTerm | internal/raft/node.go:214-222 | A reachable run of three identically configured nodes with two leaders in one term, after a vote was erased. |
| TwoLeaders.PreVoteAndVoteMix | internal/raft/election.go:42-53 | A reachable run of five nodes with two leaders in one term in which no vote is ever erased: one of them counted a pre-vote as a vote. |
| Divergence.LogsDiffer | internal/raft/log.go:39-61 | Going on from there: two logs hold different entries of the same index and term. |
| Divergence.TwoJointSteps | internal/raft/confchange.go:145-187 | Going on from there: one log holds two joint steps in a row, which is no chain. |
| Acks.AnswerRightExactly | internal/raft/node.go:283 | In every run with at most one leader per term, the answer to an accepted batch names an index up to which the follower agrees with the leader if and only if the batch changes the follower's log, or the leader has an entry of the same term where that log ends. |
| LostCommits.CommitNoQuorumHolds | internal/raft/node.go:298-301 | A reachable run of five nodes: the leader has committed index 1 and only the leader itself holds that entry. |
| LostCommits.TwoCommitsAtOneIndex | internal/raft/node.go:306-343 | Going on from there: the leader of the next term lacks the committed entry, and commits a different one at the same index. |
| ConfBranches.BranchesMeet | internal/raft/confchange.go:9-18 | Quorums of the memberships that two logs end in share a node, if neither log has ended a joint step that it entered after the two parted. |
| Completeness.Complete | internal/raft/election.go:55-94 | At any moment of a safe run: whoever a quorum of its own membership can elect has all that was committed in earlier terms, whatever memberships those commits and this election use. |
| Completeness.ElectionsMeet | internal/raft/confchange.go:17-18 | At any moment of a safe run: two nodes that could be elected in one term, each by a quorum of its own membership, have a voter in common. |
| CommitSafety.OneLeaderEach | internal/raft/confchange.go:9-18 | Election Safety in every safe run, through all its membership changes: no term has two leaders. |
| CommitSafety.LogsAgree | internal/raft/log.go:39-61 | In every safe run logs match, and each is a chain of joint-consensus steps, with nothing assumed about leaders. |
| CommitSafety.CommitsAreHeld | internal/raft/node.go:306-343 | In every safe run, whatever a leader commits ends in an entry of its own term, is a prefix of its log, and has been held in that term by every node of some quorum of the membership it used then. |
| CommitSafety.LeadersAreComplete | internal/raft/election.go:70-94 | Leader Completeness (section 5.4.3): in every safe run, what the leader of a term commits is in the log of the leader of every later term. |
| CommitSafety.CommittedAgree | internal/raft/node.go:262-284 | State Machine Safety (section 5.4.3): in every safe run, two nodes agree on everything both have committed. |
| CommitSafety.CommittedStays | internal/raft/log.go:39-61 | In every safe run, no step changes what the node that takes it has committed. |
| SameApplied.EachInOrder | internal/raft/node.go:190-207 | In every safe run, what each node has handed to its application is exactly entries 1 to applied of its log, with applied, committed and last index in order. |
| SameApplied.ApplicationsAgree | internal/raft/node.go:190-207 | In every safe run, of what the applications of two nodes have met, one is the beginning of the other. |
| CommitProgress.FollowersCatchUp | internal/raft/node.go:280-282 | In every safe run a batch that is taken makes the commit index the larger of the old one and the leader's as far as the log goes. |
| CommitProgress.JointStepsEnd | internal/raft/node.go:345-357 | In every safe run, a leader in a joint step whose entry is committed has committed nothing of its own term yet: one that has, has ended the step. |
| CachedMembership.CacheAlwaysRight | internal/raft/confchange.go:95-109 | In every run of a group, every node's cached membership and its index are what scanning its whole log gives. |
| CachedMembership.StepKeepsCache | internal/raft/node.go:272-279 | Any message with a consecutive batch keeps the cache right, including after a conflict cut the log. |
| CachedMembership.GapLeavesCacheStale | internal/raft/node.go:272-279 | A batch with a gap can leave the cache behind the log. |
| ConfChain.LogsAreChains | internal/raft/confchange.go:145-187 | In every run with at most one leader per term, the config entries of every log alternate between a joint step from the membership before and the plain membership it leads to. |
| ConfChain.ReconfigurationKeepsOverlap | internal/raft/confchange.go:9-21 | In every run with at most one leader per term: a quorum before any config entry of any log and a quorum after it share a node that votes in both (section 6). |
| ConfChain.NeighboursOverlap | internal/raft/membership.go:5-8 | In every run with at most one leader per term: two nodes that use the same membership, or memberships on the two sides of one config entry of one of their logs, cannot act on disjoint quorums. |
| Handoff.HandsOutInOrder | internal/raft/node.go:190-207 | From a new node, over every run of calls and cycles, whatever arrives, whose batches change nothing or spare committed entries: what was handed out is exactly log entries 1 to applied, each once and in order, with applied, committed and last index in order. |
| Handoff.SparesExactly | internal/raft/node.go:280-282 | A consecutive batch keeps the terms of the committed entries if and only if it conflicts with none of them. |
| RaftKeys.EntryKeysOrdered | internal/raft/storage.go:105-110 | Keys of different indexes differ, and sort in index order. |
| RaftKeys.RangeIsPrefix | internal/raft/storage.go:54 | Scanning from a stem and a byte to the stem and the next byte meets exactly the keys that start with the first. |
| RaftKeys.PartHolds | internal/raft/storage.go:23-39 | After any number of a save's writes, the engine's map stands for exactly that part of the save. |
| RaftPersister.Persister.Persist | internal/raft/storage.go:23-39 | Puts the hard state, then each entry, and syncs once; or fails on a closed engine and changes nothing. |
| RaftPersister.Persister.LoadHardState | internal/raft/storage.go:42-49 | The saved hard state, or which error. |
| RaftPersister.Persister.LoadEntries | internal/raft/storage.go:52-63 | Every stored entry in index order; that error if and only if one cannot be read. |
| RaftPersister.RecoverNode | internal/raft/storage.go:68-103 | No persister, a bad configuration, a closed engine, an unreadable hard state or an unreadable entry: that error, in that order. Otherwise the node that the stored state recovers to, or the error that stops it, for whatever the engine's map stands for. |
| RaftPersister.PersistIsDurable | internal/raft/storage.go:21-39 | When a save returns, the map holds it and every byte of the file is on disk, even right after a reopen. |
| RaftPersister.CrashDuringSave | internal/raft/storage.go:23-39 | A power loss during a save, in any run of the engine: after the reopen the map holds the save cut between two of its writes. |
| RaftDisk.FilledInOrder | internal/raft/storage.go:52-63 | Stored indexes without a gap read back as entries 1, 2, 3, and so on. |
| RaftDisk.RecoverFilled | internal/raft/storage.go:85-102 | From such a disk, exactly the stored entries come back with the saved hard state, and recovery fails if and only if the commit index is past them. |
| RaftDisk.CommittedHandedOutAgain | internal/raft/storage.go:65-102 | A recovered node is a blank one but for what was stored, and hands out all that is committed again. |
| RecoveryRuns.RecoveryExtends | internal/raft/storage.go:68-103 | After any run of calls, finished cycles, crashes and starts. While the node is up: recovery from its disk succeeds with the term, vote and commit of the last finished cycle; stored indexes are exactly 1 to the last; the saved log is a prefix of the recovered log, and equals it if and only if nothing above its last index was ever stored; and the recovered membership is the newest in that log. While it is down: recovery succeeds if and only if the commit index on disk is within the entries on disk, and brings back exactly those entries and that hard state. |
| RecoveryRuns.CrashesDecide | internal/raft/storage.go:85-95 | Along a run, the node could be started again at every point if and only if each crash left a commit index within the entries it left. |
| RecoveryRuns.DownForGood | internal/raft/storage.go:93-95 | A node whose disk does not recover stays down whatever is tried after, and the disk never changes. |
| RecoveryRuns.StartKeepsInv | internal/raft/storage.go:93-102 | Starting a node that is down keeps the invariant of those runs, whether or not the start succeeds. |
| RecoveryRuns.PartialSaveRecoversExactly | internal/raft/storage.go:24-37 | Cut between two writes of a save, recovery works if and only if the written commit index is within the written entries; it always works before the first write and after the last. |
| LostDisks.PartialSaveCanFail | internal/raft/storage.go:93-95 | A reachable run of five nodes in which a leader has sent its committed first entry to a node that has taken no step yet; if that node crashes between two writes while it saves the entry, no start succeeds any more. |
| LostDisks.StaleTailComesBack | internal/raft/storage.go:29-37 | A reachable run of five nodes in which two leaders have sent a new node their batches; once it has taken and saved both, recovery brings back an entry of the first behind the one that replaced its predecessor. |
| DurableVotes.OneVoteAcrossRestarts | internal/raft/host.go:157-161 | Over every run of calls, cycles, crashes and starts of one node, whatever arrives, the votes of one term that have left it, in answers or in requests of its own, are all for one candidate, unless a vote of that term was erased: what is sent is on disk before. |
| HostDriver.Host.DriveLocked | internal/raft/host.go:151-176 | Nothing happens when there is nothing to do; a failed save sends nothing; otherwise the save, then every message, then the application's entries up to the first it refuses, in that order, and the node advances only if it refused none. |
| HostDriver.AppliedInOrder | internal/raft/host.go:167-173 | The application meets exactly the commands among the committed entries, in order, up to the first it refuses. |
| HostDriver.CycleIsDriven | internal/raft/host.go:151-176 | A finished cycle moves the node and the durable bytes as the runs above say. |
| Vectors.L2Squared | internal/vector/distance.go:8-26 | Eight components a step and then the rest gives the sum of the squared differences; different lengths give NaN. |
| Vectors.DistSeparates | internal/vector/distance.go:5-32 | Distance is symmetric and zero for equal vectors only. |
| Vectors.OneMoreComponent | internal/vector/distance.go:8-26 | One more component adds the square of its difference, and the empty vectors are at distance zero. |
| HnswGraph.NearerTotal | internal/ann/hnsw.go:324-332 | Distance, then ID, is a total order: two different hits never tie. |
| HnswGraph.ClosestSpec | internal/ann/hnsw.go:287-299 | The nearest eligible nodes, as many as the limit allows, in order; each one left out is no nearer than any returned. |
| HnswGraph.ClosestDistinct | internal/ann/hnsw.go:287-299 | No node is returned twice. |
| HnswGraph.TrimmedSpec | internal/ann/hnsw.go:131-144 | Trimming keeps M of the list, or all of a shorter list in another order. |
| HnswGraph.TrimmedKeepsClosest | internal/ann/hnsw.go:130-144 | What trimming drops is no closer to the owner than what it keeps. |
| HnswNeighbours.TrimmedInOrder | internal/ann/hnsw.go:131-144 | A trimmed list has its closest first. |
| HnswGraph.DiverseSpec | internal/ann/hnsw.go:304-322 | The picked are candidates, at most as many as wanted, and always the closest one. |
| HnswGraph.DiverseSpreads | internal/ann/hnsw.go:301-322 | No picked candidate is closer to one picked before it than to the query, and below the limit every other candidate is. |
| HnswInvariants.LinkEffect | internal/ann/hnsw.go:124-128 | One list gets the new neighbour, the other gets it and is trimmed, every other list stays. |
| HnswInvariants.ConnectKeeps | internal/ann/hnsw.go:109-114 | Linking a node to diverse neighbours keeps links sound, lists short and non-empty lists non-empty, and gives the node a neighbour if it could have one. |
| HnswInvariants.AddedKeeps | internal/ann/hnsw.go:100-119 | Inserting a new node keeps the graph well-formed and leaves no node isolated. |
| HnswInvariants.RemovedKeeps | internal/ann/hnsw.go:228-273 | Deleting keeps the graph well-formed and the other nodes as they were, and leaves no node isolated even if some were before. |
| HnswInvariants.EntryChosen | internal/ann/hnsw.go:263-271 | The new entry has the highest level, and the lowest ID among those that have. |
| HnswInvariants.EveryHistory | internal/ann/hnsw.go:88-144 | After every history of inserts, replaces and deletes: each listed neighbour exists, is another node and reaches the level; lists have at most M entries; the entry has the highest level; no node is isolated on a level it shares; and the vectors are those a plain map would hold. |
| HnswNeighbours.InsertPlaces | internal/ann/hnsw.go:100-119 | On each of its levels the new node lists at most M of its `efConstruction` nearest, closest first and the very closest among them, none closer to one before it than to the new node; every other of those nearest was passed over for a listed one that is nearer to the new node than it is, and to which it is closer than to the new node, or because M nearer ones were listed. Each listed node gets the new one and is trimmed, no other list changes, and the entry moves if and only if the new node is the first or the highest. |
| HnswNeighbours.DeleteRepairs | internal/ann/hnsw.go:228-262 | A delete takes the node, and nothing else, out of every list; then every other node, in the order of the IDs and on each level from the bottom, gets as many such neighbours as it lacks from the nearest it does not list, if its list is not full. |
| HnswNeighbours.ListsRepaired | internal/ann/hnsw.go:247-262 | After a delete no list is shorter than what was left of it, and each is longer or full if any node of the level was not left on it. |
| HnswNeighbours.LinkRepeatsExactly | internal/ann/hnsw.go:124-128 | A link leaves no neighbour listed twice if and only if the other node did not list this one, or was full and had it farthest. |
| HnswNeighbours.DeleteListsTwice | internal/ann/hnsw.go:252-259 | A delete from a well-formed index that leaves a neighbour listed twice. |
| Hnsw.HNSW.Insert | internal/ann/hnsw.go:88-120 | The new graph is a function of the old graph, the vector and the level, for every map iteration order, so replicas agree; HnswNeighbours.InsertPlaces says which neighbours the new node gets. |
| Hnsw.HNSW.Delete | internal/ann/hnsw.go:228-273 | The same for a delete, through unlinking in any order, the repair pass and the choice of an entry; HnswNeighbours.DeleteRepairs says what the repair does to every list. |
| Hnsw.HNSW.UnlinkAll | internal/ann/hnsw.go:232-244 | Unlinking and trimming nodes and levels in any order gives one result. |
| Hnsw.HNSW.ClosestNodes | internal/ann/hnsw.go:287-299 | The loop over the map in any order returns the nearest eligible nodes. |
| Hnsw.HNSW.SelectDiverse | internal/ann/hnsw.go:304-322 | The two loops pick the diverse candidates. |
| Hnsw.HNSW.SearchLayer | internal/ann/hnsw.go:182-220 | Terminates; the result is sorted, has distinct IDs and the `ef` closest of all nodes visited, or all of them; every result was expanded, so everything next to a result was visited. |
| HnswSearch.LocallyOptimal | internal/ann/hnsw.go:178-181 | A result's neighbour on the level is a result or no closer than the worst one. |
| HnswSearch.ExactWhenWide | internal/ann/hnsw.go:178-220 | If `ef` covers what the start reaches on the level, the result is exactly that set in order: brute force. |
| HnswSearch.WideSearchIsExact | internal/ann/hnsw.go:149-176 | A search with room for every node returns the exact k nearest of all that its start on the bottom level reaches. |
| Hnsw.HNSW.Search | internal/ann/hnsw.go:149-176 | Which error; nothing from an empty graph; otherwise the first k of a bottom-level walk from where the descent ends. |
| Hnsw.HNSW.Descend | internal/ann/hnsw.go:162-169 | Every level from the top down to 1 is walked, from where the level above stopped, along its links, to a node no farther from the query and with no closer neighbour there. |
| HnswSearch.FindsTwo | internal/ann/hnsw.go:149-176 | Where no node is isolated, a search for two or more among two or more nodes finds at least two. |

## Left out

- ElectionSafety.ElectionSafe: is not stated for every run, because it is false there; the two steps it excludes are a vote granted again after the term's vote was erased (TwoLeaders.TwoLeadersInOneTerm) and a vote counted while a pre-vote is running (TwoLeaders.PreVoteAndVoteMix). It keeps one fixed membership; through membership changes see CommitSafety.OneLeaderEach, which needs the two further exclusions of a safe run.
- ElectionRestriction.CountedVotesAreRestricted: says nothing of the logs when the request was of an older term, because the restriction fails there (StaleVotes.StaleRequestWinsVote).
- CommitSafety.LeadersAreComplete: and the other results of CommitSafety and SameApplied are stated for safe runs, because they are false of the code otherwise (LostCommits.TwoCommitsAtOneIndex, TwoLeaders). A safe run avoids the two steps of ElectionSafety.ElectionSafe, votes given to requests of an older term, and wrong answers to batches; its membership changes freely.
- CommitProgress.FollowersCatchUp: and CommitProgress.JointStepsEnd are stated for safe runs, in which the commit index is always within the log; RaftCalls.FollowerCommits and RaftCalls.JointStepEnds say what one call does in any state.
- PreVotes.ElectionsArePolled: the log compared is one the candidate had when it asked, not the one it has when it counts the answer, because the code counts an answer to an earlier pre-vote as well.
- LogMatching.LogsMatch: assumes at most one leader per term, without which it is false (Divergence.LogsDiffer); ElectionSafety.SafeRunsMatchLogs and CommitSafety.LogsAgree remove the assumption for safe runs. Runs of a group have no restarts, because a recovered log can hold a stale tail (LostDisks.StaleTailComesBack).
- ConfChain.LogsAreChains: assumes at most one leader per term, without which it is false (Divergence.TwoJointSteps); safe runs have it (CommitSafety.LogsAgree).
- RaftSteps.StepIsLogStep: is not stated for messages that name the node itself as sender, nor for a leader with a pre-vote running; no run of the group has either.
- Handoff.HandsOutInOrder: assumes that no accepted batch conflicts with a committed entry and that applying does not fail. SameApplied.EachInOrder proves the first of safe runs; when the application refuses an entry, the node does not advance (HostDriver.Host.DriveLocked) and hands the same entries out again.
- RaftPersister.RecoverNode: says nothing of the node when every stored value is readable but some entry lies under a key that is not its own index, which no save produces.
- RecoveryRuns.RecoveryExtends: assumes consecutive batches and that index and term determine an entry's data; in a run of a group without restarts the first is CachedMembership's invariant and the second is Log Matching. A host cycle whose apply fails is not a finished cycle.
- Vectors.L2Squared: exact real arithmetic; rounding, overflow to infinity and NaN components are not modelled. The graph proofs use only that distances are totally ordered.
- Liveness, election timing, the host's election stagger and search recall: not safety properties.
- The in-process cluster's delivery loop: it is one schedule of the actions in RaftRuns, and whether it stops depends on the messages.
- The JSON forms of entries, hard states and config changes: values are kept as they are, or printed by a function that can be read back; config changes and the joint leader's entry are told apart from application data by their constructor.
- Engine.Wal.Replay: cutting off a torn tail is not followed by an fsync, so a power loss could bring the tail back; the crashes of StoreRuns never lengthen the file.
- CRC-32: an arbitrary function of the payload; nothing is claimed about detecting damage.
- The random level of a new vector: a parameter of insert.
- HNSW nodes are values in the map the object holds, not objects of their own; in-place reuse of a neighbour slice is not modelled.
- Voter and learner lists in config entries are sets, and the queue of outgoing messages is compared as a set, since nothing depends on their order.
- Overflow of 64-bit terms and indexes, other than the leader's previous index.
- A vote arriving at a candidate whose vote map is nil: the code would panic writing to it; the model ignores the vote.
- File-system and transport errors, directories and file names, locks and goroutines: each locked call is one atomic step.
- gRPC, the command-line programs, DurableNode, range splitting, the fault-schedule generator and the torture harness around the checker.
