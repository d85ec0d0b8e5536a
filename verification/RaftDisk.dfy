/**
 What a node has on disk, as values: the hard state and the entries by index (internal/raft/storage.go).
 Saving writes the hard state first and then each entry; nothing ever removes an entry.
 */
module RaftDisk {
  import opened Wrappers
  import opened RaftLog
  import opened RaftNode
  import opened Sorting

  datatype Disk = Disk(hard: Option<HardState>, ents: map<nat, Entry>)

  const BLANK := Disk(None, map[])

  function StoreAll(ents: map<nat, Entry>, es: seq<Entry>): map<nat, Entry>
    decreases |es|
  {
    if es == [] then ents else StoreAll(ents[es[0].index := es[0]], es[1..])
  }

  /** After the first `writes` of the writes a save makes: the hard state, then the entries in order. */
  function SavedPart(d: Disk, hard: HardState, es: seq<Entry>, writes: nat): Disk
    requires writes <= |es| + 1
  {
    if writes == 0 then d else Disk(Some(hard), StoreAll(d.ents, es[..writes - 1]))
  }

  /** After a whole save. */
  function Saved(d: Disk, hard: HardState, es: seq<Entry>): Disk {
    Disk(Some(hard), StoreAll(d.ents, es))
  }

  lemma SavedIsAllWrites(d: Disk, hard: HardState, es: seq<Entry>)
    ensures SavedPart(d, hard, es, |es| + 1) == Saved(d, hard, es)
  {
    assert es[..|es|] == es;
  }

  function HardOf(d: Disk): HardState {
    if d.hard.Some? then d.hard.value else HardState(0, 0, 0)
  }

  // ---------- Reading back ----------

  predicate NotAbove(a: nat, b: nat) {
    a <= b
  }

  lemma NotAboveTotal()
    ensures TotalOrder(NotAbove)
  {
  }

  ghost function Indexes(ents: map<nat, Entry>): (r: seq<nat>)
    ensures |r| == |ents.Keys|
    ensures forall i :: i in r <==> i in ents
  {
    SortSet(NotAbove, ents.Keys)
  }

  /** The stored entries, in index order. */
  ghost function InOrder(ents: map<nat, Entry>): seq<Entry> {
    var keys := Indexes(ents);
    seq(|keys|, k requires 0 <= k < |keys| => assert keys[k] in keys; ents[keys[k]])
  }

  /** The loop of recovery: an index already present is skipped, the rest is pushed. */
  function ReplayLog(log: EntryLog, es: seq<Entry>): Result<EntryLog, string>
    decreases |es|
  {
    if es == [] then Ok(log)
    else if es[0].index <= LastIndex(log) then ReplayLog(log, es[1..])
    else
      var added := Append(log, [es[0]]);
      if added.ok then ReplayLog(added.log, es[1..]) else Err("raft: non-contiguous append")
  }

  const COMMIT_PAST_LOG := "raft: committed index exceeds persisted log"

  /** A node recovered from what is on disk. */
  ghost function Recover(blank: State, d: Disk): Result<State, string> {
    match ReplayLog(blank.log, InOrder(d.ents))
    case Err(e) => Err(e)
    case Ok(log) =>
      var hard := HardOf(d);
      if hard.commit > LastIndex(log) then Err(COMMIT_PAST_LOG)
      else Ok(Recompute(blank.(log := log, term := hard.term, vote := hard.vote, committed := hard.commit, lastHard := hard)))
  }

  // ---------- Stored indexes without a gap ----------

  /** Exactly the indexes from 1 to some last one are stored, each under its own index. */
  ghost predicate Filled(ents: map<nat, Entry>) {
    forall i | i in ents :: ents[i].index == i && i > 0 && forall j | 0 < j <= i :: j in ents
  }

  ghost predicate Increasing(s: seq<nat>) {
    forall i, j | 0 <= i < j < |s| :: s[i] < s[j]
  }

  ghost predicate Dense(s: seq<nat>) {
    forall x | x in s :: x > 0 && forall j | 0 < j <= x :: j in s
  }

  lemma {:induction false} DenseCounts(s: seq<nat>, k: nat)
    requires Increasing(s) && Dense(s) && k < |s|
    ensures s[k] == k + 1
    decreases k
  {
    assert s[k] in s;
    if k > 0 {
      DenseCounts(s, k - 1);
      assert s[k - 1] < s[k];
    }
    assert k + 1 in s;
    var j :| 0 <= j < |s| && s[j] == k + 1;
    if j < k {
      DenseCounts(s, j);
    }
  }

  lemma IndexesIncrease(ents: map<nat, Entry>)
    ensures Increasing(Indexes(ents))
  {
    NotAboveTotal();
    SortSetSorts(NotAbove, ents.Keys);
    var s := Indexes(ents);
    forall i, j | 0 <= i < j < |s| ensures s[i] < s[j] {
      assert NotAbove(s[i], s[j]) && s[i] != s[j];
    }
  }

  lemma FilledIndexes(ents: map<nat, Entry>)
    requires Filled(ents)
    ensures forall k | 0 <= k < |Indexes(ents)| :: Indexes(ents)[k] == k + 1
    ensures forall i :: i in ents <==> 0 < i <= |Indexes(ents)|
  {
    hide Indexes, Increasing;
    var keys := Indexes(ents);
    IndexesIncrease(ents);
    FilledIsDense(ents);
    hide Dense, Filled;
    forall k | 0 <= k < |keys| ensures keys[k] == k + 1 {
      DenseCounts(keys, k);
    }
    forall i: nat ensures i in ents <==> 0 < i <= |keys| {
      if 0 < i <= |keys| {
        assert keys[i - 1] == i;
      }
    }
  }

  lemma FilledIsDense(ents: map<nat, Entry>)
    requires Filled(ents)
    ensures Dense(Indexes(ents))
  {
    hide Indexes;
  }

  /** Reading back in index order lists the entries 1, 2, 3, ... */
  lemma FilledInOrder(ents: map<nat, Entry>)
    requires Filled(ents)
    ensures forall i :: i in ents <==> 0 < i <= |InOrder(ents)|
    ensures forall i | 0 < i <= |InOrder(ents)| :: InOrder(ents)[i - 1] == ents[i]
    ensures Consecutive(InOrder(ents), 1)
  {
    hide Indexes;
    FilledIndexes(ents);
  }

  lemma {:induction false} ReplayPushes(log: EntryLog, es: seq<Entry>)
    requires Consecutive(es, |log|)
    ensures ReplayLog(log, es) == Ok(log + es)
    decreases |es|
  {
    if es == [] {
      assert log + es == log;
    } else {
      PushNext(log, es[0]);
      PushOne(log, es[0]);
      ReplayPushes(log + [es[0]], es[1..]);
      assert log + [es[0]] + es[1..] == log + es;
    }
  }

  lemma PushOne(log: EntryLog, e: Entry)
    requires e.index == |log|
    ensures Append(log, [e]) == Appended(log + [e], true) && LastIndex(log) < e.index
  {
    PushNext(log, e);
    hide AppendOne;
    var one := Appended(log + [e], true);
    assert [e][1..] == [];
    assert Append(one.log, []) == one;
  }

  /** From a blank log, exactly the stored entries come back, and recovery fails only for a commit past them. */
  lemma RecoverFilled(blank: State, d: Disk)
    requires blank.log == [PLACEHOLDER] && Filled(d.ents)
    ensures var r := Recover(blank, d);
      && (r.Ok? <==> HardOf(d).commit == 0 || HardOf(d).commit in d.ents)
      && (r.Err? ==> r.error == COMMIT_PAST_LOG)
      && (r.Ok? ==>
            && r.value.log == [PLACEHOLDER] + InOrder(d.ents)
            && Hard(r.value) == HardOf(d) == r.value.lastHard
            && (r.value.membership, r.value.membershipIndex) == ScanMembership(blank.initialMembership, r.value.log))
  {
    hide InOrder, ScanMembership;
    FilledInOrder(d.ents);
    ReplayPushes(blank.log, InOrder(d.ents));
    LastOfExtended(InOrder(d.ents));
  }

  /**
   A recovered node starts as a blank one but for what was stored, and as nothing counts as applied yet, all that is
   committed is handed out again.
   */
  lemma CommittedHandedOutAgain(blank: State, d: Disk)
    requires blank.log == [PLACEHOLDER] && blank.applied == 0 && Filled(d.ents) && Recover(blank, d).Ok?
    ensures var s := Recover(blank, d).value;
      && HardOf(d).commit <= |InOrder(d.ents)| && CommittedEntries(s) == InOrder(d.ents)[..HardOf(d).commit]
      && s == blank.(term := HardOf(d).term, vote := HardOf(d).vote, committed := HardOf(d).commit, lastHard := HardOf(d),
                     log := s.log, membership := s.membership, membershipIndex := s.membershipIndex)
  {
    hide InOrder, ScanMembership;
    FilledInOrder(d.ents);
    ReplayPushes(blank.log, InOrder(d.ents));
    LastOfExtended(InOrder(d.ents));
    var s := Recover(blank, d).value;
    assert s.log[1..] == InOrder(d.ents);
  }

  lemma LastOfExtended(es: seq<Entry>)
    requires Consecutive(es, 1)
    ensures LastIndex([PLACEHOLDER] + es) == |es|
  {
  }

  // ---------- Storing keeps the indexes without a gap ----------

  lemma {:induction false} StoreAllAppend(ents: map<nat, Entry>, a: seq<Entry>, b: seq<Entry>)
    ensures StoreAll(ents, a + b) == StoreAll(StoreAll(ents, a), b)
    decreases |a|
  {
    if a == [] {
      assert a + b == b;
    } else {
      assert (a + b)[0] == a[0] && (a + b)[1..] == a[1..] + b;
      StoreAllAppend(ents[a[0].index := a[0]], a[1..], b);
    }
  }

  /** A consecutive batch that starts within or right after the stored indexes leaves no gap. */
  lemma {:induction false} StoreBatch(ents: map<nat, Entry>, batch: seq<Entry>, first: nat)
    requires Filled(ents) && Consecutive(batch, first) && 0 < first && (first == 1 || first - 1 in ents)
    ensures var r := StoreAll(ents, batch);
      && Filled(r)
      && (forall i | i in ents :: i in r)
      && (forall i | i in r :: r[i] == (if first <= i < first + |batch| then batch[i - first] else if i in ents then ents[i] else r[i]))
      && (forall i | first <= i < first + |batch| :: i in r)
      && (forall i | i in r :: i in ents || first <= i < first + |batch|)
    decreases |batch|
  {
    if batch != [] {
      var e, rest := batch[0], batch[1..];
      var one := ents[e.index := e];
      StoreOneFilled(ents, e);
      assert rest == [] || first + 1 - 1 in one;
      assert Consecutive(rest, first + 1);
      StoreBatch(one, rest, first + 1);
    }
  }

  lemma StoreOneFilled(ents: map<nat, Entry>, e: Entry)
    requires Filled(ents) && e.index > 0 && (e.index == 1 || e.index - 1 in ents)
    ensures Filled(ents[e.index := e])
  {
  }
}
