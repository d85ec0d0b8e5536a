/**
 The replicated log kept by one node. Its first entry is a placeholder with index 0, and entries are
 contiguous from there. Appending a batch drops what conflicts with it.
 */
module RaftLog {
  import opened Wrappers
  import opened ByteStrings
  import opened Quorums

  /** The content of a config-change entry. */
  datatype ConfChange = ConfChange(oldVoters: set<NodeID>, newVoters: set<NodeID>, learners: set<NodeID>, joint: bool)

  /** What an entry carries: an application command, a config change, or a new leader's empty entry. */
  datatype Data = Command(bytes: Bytes) | Conf(change: ConfChange) | JointLeaderNoop

  datatype Entry = Entry(index: nat, term: nat, data: Data)

  const PLACEHOLDER := Entry(0, 0, Command([]))

  /** Entry `k` sits at position `k`; position 0 is the placeholder. */
  ghost predicate Contiguous(log: seq<Entry>) {
    && log != []
    && log[0] == PLACEHOLDER
    && forall k | 0 <= k < |log| :: log[k].index == k
  }

  /** A log as it always is. */
  type EntryLog = log: seq<Entry> | Contiguous(log) witness [PLACEHOLDER]

  // ---------- Reading ----------

  function LastIndex(log: EntryLog): nat
  {
    log[|log| - 1].index
  }

  /** The term of the entry at index `i`, by direct lookup. */
  function Term(log: EntryLog, i: nat): Option<nat>
  {
    var base := log[0].index;
    if i < base then None
    else if i - base >= |log| then None
    else if log[i - base].index != i then None
    else Some(log[i - base].term)
  }

  function TermOrZero(log: EntryLog, i: nat): nat
  {
    match Term(log, i)
    case Some(term) => term
    case None => 0
  }

  /** The term of the last entry. */
  function LastTerm(log: EntryLog): nat {
    TermOrZero(log, LastIndex(log))
  }

  lemma LastOf(log: EntryLog)
    ensures LastIndex(log) == |log| - 1 && LastTerm(log) == log[|log| - 1].term
  {
  }

  lemma TermsOf(log: EntryLog)
    ensures forall i: nat | i < |log| :: Term(log, i) == Some(log[i].term) && TermOrZero(log, i) == log[i].term
    ensures forall i: nat | i >= |log| :: Term(log, i) == None
  {
  }

  /** Every entry from index `i` on. */
  function EntriesFrom(log: EntryLog, i: nat): seq<Entry>
  {
    if i > LastIndex(log) then []
    else
      var base := log[0].index;
      log[if i > base then i - base else 0..]
  }

  /** The slow reference for `Term`: look through the whole log. */
  function ScanTerm(log: seq<Entry>, i: nat): Option<nat> {
    if log == [] then None
    else if log[0].index == i then Some(log[0].term)
    else ScanTerm(log[1..], i)
  }

  lemma {:induction false} ScanTermFrom(log: EntryLog, i: nat, from: nat)
    requires from <= |log|
    ensures ScanTerm(log[from..], i) == if from <= i < |log| then Some(log[i].term) else None
    decreases |log| - from
  {
    if from < |log| {
      assert log[from..][1..] == log[from + 1..];
      ScanTermFrom(log, i, from + 1);
    }
  }

  /** The direct lookup finds what a scan of the whole log finds. */
  lemma LookupIsScan(log: EntryLog, i: nat)
    ensures Term(log, i) == ScanTerm(log, i)
  {
    ScanTermFrom(log, i, 0);
    assert log[0..] == log;
  }

  // ---------- Appending ----------

  datatype Appended = Appended(log: EntryLog, ok: bool)

  predicate Has(log: EntryLog, e: Entry)
  {
    e.index <= LastIndex(log) && Term(log, e.index) == Some(e.term)
  }

  /** One entry of a batch: skip it if present, cut back to below it on a conflict, and push it. */
  function AppendOne(log: EntryLog, e: Entry): (r: Appended)
  {
    if e.index == 0 then Appended(log, false)
    else if Has(log, e) then Appended(log, true)
    else
      var kept := if e.index <= LastIndex(log) then log[..e.index] else log;
      if e.index != LastIndex(kept) + 1 then Appended(kept, false) else Appended(kept + [e], true)
  }

  function Append(log: EntryLog, batch: seq<Entry>): (r: Appended)
    decreases |batch|
  {
    if batch == [] then Appended(log, true)
    else
      var one := AppendOne(log, batch[0]);
      if one.ok then Append(one.log, batch[1..]) else one
  }

  // ---------- Appending is a merge ----------

  /** The batch carries consecutive indexes from `first`. */
  ghost predicate Consecutive(batch: seq<Entry>, first: nat) {
    forall k | 0 <= k < |batch| :: batch[k].index == first + k
  }

  /** How many entries at the front of the batch the log already has, by index and term. */
  function Shared(log: EntryLog, batch: seq<Entry>): (d: nat)
    ensures d <= |batch|
    ensures forall k | 0 <= k < d :: Has(log, batch[k])
    ensures d < |batch| ==> !Has(log, batch[d])
  {
    if batch == [] || !Has(log, batch[0]) then 0 else 1 + Shared(log, batch[1..])
  }

  lemma EmptyAppend(log: EntryLog)
    ensures Append(log, []) == Appended(log, true)
  {
  }

  /** Keep what is before the first entry the log does not have, then the rest of the batch. */
  function Merge(log: EntryLog, batch: seq<Entry>): seq<Entry>
  {
    var d := Shared(log, batch);
    if d == |batch| then log
    else if batch[d].index <= |log| then log[..batch[d].index] + batch[d..]
    else log
  }

  /** Past the first new entry, everything is simply pushed. */
  lemma {:induction false} AppendAtEnd(log: EntryLog, batch: seq<Entry>)
    requires Consecutive(batch, |log|)
    ensures Append(log, batch) == Appended(log + batch, true)
    decreases |batch|
  {
    if batch == [] {
      assert log + batch == log;
    } else {
      AppendAtEnd(log + [batch[0]], batch[1..]);
      assert log + [batch[0]] + batch[1..] == log + batch;
    }
  }

  /** The next entry is always accepted. */
  lemma PushNext(log: EntryLog, e: Entry)
    requires e.index == |log|
    ensures AppendOne(log, e) == Appended(log + [e], true)
  {
  }

  lemma AppendOneCut(log: EntryLog, e: Entry)
    requires 0 < e.index <= |log| && !Has(log, e)
    ensures AppendOne(log, e) == Appended(log[..e.index] + [e], true)
    ensures Contiguous(log[..e.index] + [e])
  {
    assert log[..|log|] == log;
  }

  lemma PushRest(kept: seq<Entry>, batch: seq<Entry>)
    requires batch != []
    ensures kept + [batch[0]] + batch[1..] == kept + batch
  {
  }

  /** At the first entry the log lacks, it is cut and the rest of the batch pushed. */
  lemma AppendCut(log: EntryLog, batch: seq<Entry>, first: nat)
    requires Consecutive(batch, first) && 0 < first <= |log|
    requires batch != [] && !Has(log, batch[0])
    ensures Append(log, batch) == Appended(log[..first] + batch, true)
  {
    hide AppendOne, Has;
    var kept, e := log[..first], batch[0];
    AppendOneCut(log, e);
    AppendAtEnd(kept + [e], batch[1..]);
    PushRest(kept, batch);
  }

  /**
   A consecutive batch that starts at a positive index and leaves no gap merges without error: the
   log stays as it is if it has every entry, and otherwise is cut at the first one it lacks.
   */
  lemma {:induction false} AppendIsMerge(log: EntryLog, batch: seq<Entry>, first: nat)
    requires Consecutive(batch, first) && 0 < first <= |log|
    ensures Append(log, batch) == Appended(Merge(log, batch), true)
  {
    if batch != [] {
      if Has(log, batch[0]) {
        AppendIsMerge(log, batch[1..], first + 1);
        var d := Shared(log, batch[1..]);
        assert batch[1..][d..] == batch[d + 1..];
      } else {
        AppendCut(log, batch, first);
        assert batch[0..] == batch;
      }
    }
  }

  /** A consecutive batch is refused exactly when it starts at the placeholder or past the end. */
  lemma AppendFailsExactly(log: EntryLog, batch: seq<Entry>, first: nat)
    requires Consecutive(batch, first) && batch != []
    ensures Append(log, batch).ok <==> 0 < first <= |log|
    ensures !Append(log, batch).ok ==> Append(log, batch).log == log
  {
    if 0 < first <= |log| {
      AppendIsMerge(log, batch, first);
    }
  }

  lemma SharedWithin(log: EntryLog, batch: seq<Entry>, first: nat)
    requires Consecutive(batch, first) && 0 < first <= |log|
    ensures first + Shared(log, batch) <= |log|
  {
    var d := Shared(log, batch);
    if d > 0 {
      assert Has(log, batch[d - 1]);
    }
  }

  /** The merged log, position by position. */
  lemma MergeShape(log: EntryLog, batch: seq<Entry>, first: nat)
    requires Consecutive(batch, first) && 0 < first <= |log|
    ensures var d := Shared(log, batch);
            && first + d <= |log|
            && Merge(log, batch) == (if d == |batch| then log else log[..first + d] + batch[d..])
  {
    hide Append, AppendOne, Has, Contiguous;
    SharedWithin(log, batch, first);
  }

  lemma {:induction false} SharedAll(log: EntryLog, batch: seq<Entry>)
    requires forall k | 0 <= k < |batch| :: Has(log, batch[k])
    ensures Shared(log, batch) == |batch|
  {
    if batch != [] {
      SharedAll(log, batch[1..]);
    }
  }

  /** Appending the same batch again changes nothing. */
  lemma AppendIdempotent(log: EntryLog, batch: seq<Entry>, first: nat)
    requires Consecutive(batch, first) && 0 < first <= |log|
    ensures var once := Append(log, batch).log; Append(once, batch) == Appended(once, true)
  {
    hide Append, AppendOne;
    AppendIsMerge(log, batch, first);
    var once := Append(log, batch).log;
    forall k | 0 <= k < |batch| ensures Has(once, batch[k]) {
      MergeHas(log, batch, first, k);
    }
    SharedAll(once, batch);
    AppendIsMerge(once, batch, first);
  }

  lemma SplicedHas(log: EntryLog, r: EntryLog, batch: seq<Entry>, first: nat, d: nat, k: nat)
    requires Consecutive(batch, first) && 0 < first && d <= |batch| && first + d <= |log| && k < |batch|
    requires r == (if d == |batch| then log else log[..first + d] + batch[d..])
    requires k < d ==> Has(log, batch[k])
    ensures Has(r, batch[k])
  {
    if k < d {
      assert r[first + k] == log[first + k];
    } else {
      assert r[first + k] == batch[d..][k - d];
    }
  }

  /** After the append, every entry of the batch is present by index and term. */
  lemma MergeHas(log: EntryLog, batch: seq<Entry>, first: nat, k: nat)
    requires Consecutive(batch, first) && 0 < first <= |log| && k < |batch|
    ensures Has(Append(log, batch).log, batch[k])
  {
    hide Append, AppendOne, Merge, Has;
    AppendIsMerge(log, batch, first);
    MergeShape(log, batch, first);
    var d := Shared(log, batch);
    if k < d {
      assert Has(log, batch[k]);
    }
    SplicedHas(log, Append(log, batch).log, batch, first, d, k);
  }

  // ---------- The log object ----------

  class Log {
    var entries: EntryLog
    var committed: nat
    var applied: nat

    constructor ()
      ensures entries == [PLACEHOLDER] && committed == 0 && applied == 0
    {
      entries, committed, applied := [PLACEHOLDER], 0, 0;
    }

    /** Adds a batch of entries, cutting back on the first conflict. */
    method AppendBatch(batch: seq<Entry>) returns (ok: bool)
      modifies this`entries
      ensures Appended(entries, ok) == Append(old(entries), batch)
    {
      hide AppendOne;
      var i := 0;
      assert batch[0..] == batch;
      while i < |batch|
        invariant i <= |batch|
        invariant Append(entries, batch[i..]) == Append(old(entries), batch)
      {
        assert batch[i..][1..] == batch[i + 1..];
        var added := AppendEntry(batch[i]);
        if !added {
          return false;
        }
        i := i + 1;
      }
      ok := true;
    }

    /** The loop's body: one entry. */
    method AppendEntry(e: Entry) returns (ok: bool)
      modifies this`entries
      ensures Appended(entries, ok) == AppendOne(old(entries), e)
    {
      if e.index == 0 {
        return false;
      }
      if e.index <= LastIndex(entries) {
        if Term(entries, e.index) == Some(e.term) {
          return true;
        }
        var keep := 0;
        while keep < |entries| && entries[keep].index < e.index
          invariant keep <= |entries| && keep <= e.index
        {
          keep := keep + 1;
        }
        entries := entries[..keep];
      }
      if e.index != LastIndex(entries) + 1 {
        return false;
      }
      entries := entries + [e];
      return true;
    }
  }
}
