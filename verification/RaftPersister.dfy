/** Saving a node's durable state through the storage engine, and rebuilding a node from it (internal/raft/storage.go). */
module RaftPersister {
  import opened Wrappers
  import opened ByteStrings
  import opened WalFormat
  import E = Engine
  import opened StoreRuns
  import opened RaftLog
  import N = RaftNode
  import R = RaftReplica
  import opened RaftDisk
  import opened RaftKeys
  import Sorting

  // ---------- What saving does to the engine ----------

  function PutImages(s: E.Image, ws: seq<Record>, crc: Checksum): E.Image
    decreases |ws|
  {
    if ws == [] then s else PutImages(E.PutImage(s, ws[0].key, ws[0].value, crc), ws[1..], crc)
  }

  /** Every write is put, in order, and then the file is synced once. */
  function PersistImage(s: E.Image, hard: N.HardState, es: seq<Entry>, c: Codec, crc: Checksum): E.Image {
    E.SyncImage(PutImages(s, Writes(hard, es, c), crc))
  }

  ghost predicate KeyedWrites(ws: seq<Record>) {
    forall w | w in ws :: w.key != []
  }

  lemma WritesKeyed(hard: N.HardState, es: seq<Entry>, c: Codec)
    ensures KeyedWrites(Writes(hard, es, c))
  {
    hide EntryKey;
    forall w | w in Writes(hard, es, c) ensures w.key != [] {
      if w.key != HARD_KEY {
        var k :| 0 <= k < |EntryWrites(es, c)| && EntryWrites(es, c)[k] == w;
        EntryKeyInRange(es[k].index);
      }
    }
  }

  /** Something was written since the last fsync, or nothing is missing on disk. */
  ghost predicate SyncWorks(s: E.Image) {
    s.pending > 0 || s.synced == |s.file|
  }

  lemma {:induction false} PutImagesEffect(s: E.Image, ws: seq<Record>, crc: Checksum)
    requires !s.closed && KeyedWrites(ws)
    ensures var t := PutImages(s, ws, crc);
      && !t.closed && t.data == PutAll(s.data, ws) && t.file == s.file + EncodeAll(ws, crc)
      && (ws != [] || SyncWorks(s) ==> SyncWorks(t))
    decreases |ws|
  {
    hide Encode;
    if ws == [] {
      assert s.file + EncodeAll(ws, crc) == s.file;
    } else {
      var one := E.PutImage(s, ws[0].key, ws[0].value, crc);
      PutImagesEffect(one, ws[1..], crc);
      EncodeAllCons(ws[0], ws[1..], crc);
      assert [ws[0]] + ws[1..] == ws;
      assert s.file + Encode(ws[0], crc) + EncodeAll(ws[1..], crc) == s.file + EncodeAll(ws, crc);
    }
  }

  /**
   When a save returns, the map holds it and every byte of the file is on disk: the save itself wrote
   something, so its Sync is never skipped, not even right after a reopen.
   */
  lemma PersistIsDurable(s: E.Image, hard: N.HardState, es: seq<Entry>, c: Codec, crc: Checksum, d: Disk)
    requires !s.closed && Holds(s.data, c, d) && Invertible(c) && forall e | e in es :: Index64(e.index)
    ensures var t := PersistImage(s, hard, es, c, crc);
      && !t.closed && t.synced == |t.file| && t.pending == 0
      && t.file == s.file + EncodeAll(Writes(hard, es, c), crc)
      && Holds(t.data, c, Saved(d, hard, es))
  {
    hide Holds, Invertible, Index64, EncodeAll, Writes, PutImages, PutAll;
    WritesKeyed(hard, es, c);
    PutImagesEffect(s, Writes(hard, es, c), crc);
    assert Writes(hard, es, c) != [];
    PartHolds(s.data, c, d, hard, es, |es| + 1);
    SavedIsAllWrites(d, hard, es);
    assert Writes(hard, es, c)[..|es| + 1] == Writes(hard, es, c);
  }

  /**
   A power loss during a save, in any run of the engine whose earlier writes were durable: after the
   reopen the map holds the first part of the save, cut between two writes.
   */
  lemma CrashDuringSave(r: Run, before: seq<Record>, hard: N.HardState, es: seq<Entry>, made: nat,
      keep: nat, syncEvery: int, c: Codec, crc: Checksum, d: Disk)
    requires Reachable(r, crc) && r.machine.Up? && made <= |es| + 1
    requires r.writes == before + Writes(hard, es, c)[..made] && r.durable >= |before|
    requires CrashAllowed(r.machine.image.file, r.machine.image.synced, keep)
    requires Holds(E.Fold(before), c, d) && Invertible(c) && forall e | e in es :: Index64(e.index)
    ensures var after := Next(Next(r, Crash(keep), crc), Open(syncEvery), crc);
      && after.machine.Up? && !after.machine.image.closed
      && exists writes :: 0 <= writes <= made && Holds(after.machine.image.data, c, SavedPart(d, hard, es, writes))
  {
    hide Holds, Invertible, Index64, Writes, PutAll, E.Fold, Next, SavedPart;
    CrashRecovery(r, keep, syncEvery, crc);
    var after := Next(Next(r, Crash(keep), crc), Open(syncEvery), crc);
    var writes := |after.writes| - |before|;
    PrefixOfSave(after.writes, before, Writes(hard, es, c), made);
    FoldMore(before, Writes(hard, es, c)[..writes]);
    PartHolds(E.Fold(before), c, d, hard, es, writes);
  }

  lemma PrefixOfSave(survived: seq<Record>, before: seq<Record>, ws: seq<Record>, made: nat)
    requires made <= |ws| && survived <= before + ws[..made] && |before| <= |survived|
    ensures |survived| - |before| <= made
    ensures survived == before + ws[..|survived| - |before|]
  {
  }

  // ---------- Reading back ----------

  const NOT_FOUND := "storage: key not found"
  const BAD_HARD_STATE := "json: invalid hard state"
  const BAD_ENTRY := "json: invalid entry"

  predicate HardUnreadable(data: Store, c: Codec) {
    HARD_KEY in data && c.readHard(data[HARD_KEY]).None?
  }

  predicate SomeEntryUnreadable(data: Store, c: Codec) {
    exists k :: k in data && LOG_START <= k && c.readEntry(data[k]).None?
  }

  function ReadHard(closed: bool, data: Store, c: Codec): Result<N.HardState, string> {
    if closed then Err("storage: closed")
    else if HARD_KEY !in data then Err(NOT_FOUND)
    else
      match c.readHard(data[HARD_KEY])
      case Some(hard) => Ok(hard)
      case None => Err(BAD_HARD_STATE)
  }

  predicate ByIndex(a: Entry, b: Entry) {
    a.index <= b.index
  }

  lemma {:induction false} SortedStays<T(!new)>(le: (T, T) -> bool, s: seq<T>)
    requires Sorting.SortedBy(le, s)
    ensures Sorting.Sort(le, s) == s
  {
    if s != [] {
      SortedStays(le, s[1..]);
      assert s == [s[0]] + s[1..];
    }
  }

  lemma IncreasingIsIndexes(s: seq<nat>, ents: map<nat, Entry>)
    requires Increasing(s) && forall i :: i in s <==> i in ents
    ensures s == Indexes(ents)
  {
    var keys := Indexes(ents);
    IndexesIncrease(ents);
    NotAboveTotal();
    assert multiset(s) == multiset(keys) by {
      forall i ensures multiset(s)[i] == multiset(keys)[i] {
        CountInIncreasing(s, i);
        CountInIncreasing(keys, i);
      }
    }
    Sorting.SortedUnique(NotAbove, s, keys);
  }

  lemma {:induction false} CountInIncreasing(s: seq<nat>, i: nat)
    requires Increasing(s)
    ensures multiset(s)[i] == if i in s then 1 else 0
  {
    if s != [] {
      var n := |s| - 1;
      CountInIncreasing(s[..n], i);
      assert s == s[..n] + [s[n]];
    }
  }

  /** What the scan of the log's key range returns. */
  ghost predicate Scanned(data: Store, kvs: seq<E.KV>) {
    && (forall i, j | 0 <= i < j < |kvs| :: Less(kvs[i].key, kvs[j].key))
    && (forall kv :: kv in kvs <==> kv.key in data && E.InRange(kv.key, LOG_START, LOG_END) && kv.value == data[kv.key])
  }

  /** Entry by entry, what the scanned values read as. */
  ghost predicate ReadAs(c: Codec, kvs: seq<E.KV>, es: seq<Entry>) {
    |es| == |kvs| && forall k | 0 <= k < |es| :: c.readEntry(kvs[k].value) == Some(es[k])
  }

  /** A scanned value is one of the disk's entries, under its own key. */
  lemma ScannedEntry(data: Store, c: Codec, d: Disk, kvs: seq<E.KV>, k: nat)
    requires Scanned(data, kvs) && Holds(data, c, d) && k < |kvs|
    ensures c.readEntry(kvs[k].value).Some?
    ensures var e := c.readEntry(kvs[k].value).value; e.index in d.ents && e == d.ents[e.index] && kvs[k].key == EntryKey(e.index) && Index64(e.index)
  {
    hide EntryKey, E.InRange, Index64;
    assert kvs[k] in kvs;
    RangeIsPrefix(LOG_STEM, 47, kvs[k].key);
    var i :| i in d.ents && kvs[k].key == EntryKey(i);
    assert HoldsEntry(data, c, i, d.ents[i]);
  }

  lemma EntryScanned(data: Store, c: Codec, d: Disk, kvs: seq<E.KV>, i: nat) returns (k: nat)
    requires Scanned(data, kvs) && Holds(data, c, d) && i in d.ents
    ensures k < |kvs| && kvs[k].key == EntryKey(i)
  {
    hide EntryKey, E.InRange, Index64;
    assert HoldsEntry(data, c, i, d.ents[i]);
    EntryKeyInRange(i);
    RangeIsPrefix(LOG_STEM, 47, EntryKey(i));
    var kv := E.KV(EntryKey(i), data[EntryKey(i)]);
    assert kv in kvs;
    k :| 0 <= k < |kvs| && kvs[k] == kv;
  }

  function IndexesOf(es: seq<Entry>): (r: seq<nat>)
    ensures |r| == |es|
    ensures forall k | 0 <= k < |es| :: r[k] == es[k].index
  {
    seq(|es|, k requires 0 <= k < |es| => es[k].index)
  }

  lemma ScanMeetsStored(data: Store, c: Codec, d: Disk, kvs: seq<E.KV>, es: seq<Entry>)
    requires Scanned(data, kvs) && Holds(data, c, d) && ReadAs(c, kvs, es)
    ensures forall k | 0 <= k < |es| :: es[k].index in d.ents && es[k] == d.ents[es[k].index]
    ensures Increasing(IndexesOf(es))
  {
    hide EntryKey, E.InRange, Scanned, Holds, Index64;
    forall k | 0 <= k < |es| ensures es[k].index in d.ents && es[k] == d.ents[es[k].index] {
      ScannedEntry(data, c, d, kvs, k);
    }
    forall i, j | 0 <= i < j < |es| ensures es[i].index < es[j].index {
      ScanIncreases(data, c, d, kvs, i, j);
    }
  }

  lemma ScanMissesNone(data: Store, c: Codec, d: Disk, kvs: seq<E.KV>, es: seq<Entry>, i: nat)
    requires Scanned(data, kvs) && Holds(data, c, d) && ReadAs(c, kvs, es) && i in d.ents
    ensures i in IndexesOf(es)
  {
    hide EntryKey, E.InRange, Scanned, Holds, Index64;
    var k := EntryScanned(data, c, d, kvs, i);
    SameKeySameIndex(data, c, d, kvs, k, i);
    assert IndexesOf(es)[k] == i;
  }

  /** The scan of the key range, read entry by entry, is exactly the stored entries in index order. */
  lemma ScanIsInOrder(data: Store, c: Codec, d: Disk, kvs: seq<E.KV>, es: seq<Entry>)
    requires Scanned(data, kvs) && Holds(data, c, d) && ReadAs(c, kvs, es)
    ensures es == InOrder(d.ents) && Sorting.Sort(ByIndex, es) == es
  {
    hide Scanned, Holds, ReadAs, Indexes, Increasing;
    ScanMeetsStored(data, c, d, kvs, es);
    forall i ensures i in IndexesOf(es) <==> i in d.ents {
      if i in d.ents {
        ScanMissesNone(data, c, d, kvs, es, i);
      }
    }
    IncreasingIsIndexes(IndexesOf(es), d.ents);
    SortedByIndex(es);
    SortedStays(ByIndex, es);
  }

  lemma SortedByIndex(es: seq<Entry>)
    requires Increasing(IndexesOf(es))
    ensures Sorting.SortedBy(ByIndex, es)
  {
    forall i, j | 0 <= i < j < |es| ensures ByIndex(es[i], es[j]) {
      assert IndexesOf(es)[i] < IndexesOf(es)[j];
    }
  }

  lemma ScanIncreases(data: Store, c: Codec, d: Disk, kvs: seq<E.KV>, i: nat, j: nat)
    requires Scanned(data, kvs) && Holds(data, c, d) && i < j < |kvs|
    ensures c.readEntry(kvs[i].value).Some? && c.readEntry(kvs[j].value).Some?
    ensures c.readEntry(kvs[i].value).value.index < c.readEntry(kvs[j].value).value.index
  {
    hide EntryKey, E.InRange, Holds, Index64;
    ScannedEntry(data, c, d, kvs, i);
    ScannedEntry(data, c, d, kvs, j);
    EntryKeysOrdered(c.readEntry(kvs[i].value).value.index, c.readEntry(kvs[j].value).value.index);
  }

  lemma SameKeySameIndex(data: Store, c: Codec, d: Disk, kvs: seq<E.KV>, k: nat, i: nat)
    requires Scanned(data, kvs) && Holds(data, c, d) && i in d.ents && k < |kvs| && kvs[k].key == EntryKey(i)
    ensures c.readEntry(kvs[k].value).Some? && c.readEntry(kvs[k].value).value.index == i
  {
    hide EntryKey, E.InRange, Scanned, Index64;
    ScannedEntry(data, c, d, kvs, k);
    assert HoldsEntry(data, c, i, d.ents[i]);
    EntryKeysOrdered(c.readEntry(kvs[k].value).value.index, i);
  }

  // ---------- The persister ----------

  class Persister {
    const db: E.DB
    const c: Codec

    constructor (db: E.DB, c: Codec)
      ensures this.db == db && this.c == c
    {
      this.db, this.c := db, c;
    }

    /** `Persist`. */
    method Persist(hard: N.HardState, es: seq<Entry>) returns (error: Option<string>)
      modifies db`data, db.wal, db.wal.file
      ensures error.None? <==> !db.closed
      ensures db.State() == if db.closed then old(db.State()) else PersistImage(old(db.State()), hard, es, c, db.wal.crc)
    {
      hide E.PutImage, Writes;
      WritesKeyed(hard, es, c);
      ghost var ws := Writes(hard, es, c);
      WritesParts(hard, es, c);
      error := db.Put(HARD_KEY, c.printHard(hard));
      if error.Some? {
        ClosedPut(old(db.State()), HARD_KEY, c.printHard(hard), db.wal.crc);
        return;
      }
      var i := 0;
      while i < |es|
        invariant 0 <= i <= |es| && !db.closed
        invariant PutImages(db.State(), ws[i + 1..], db.wal.crc) == PutImages(old(db.State()), ws, db.wal.crc)
      {
        NextWrite(ws, i + 1);
        EntryKeyInRange(es[i].index);
        error := db.Put(EntryKey(es[i].index), c.printEntry(es[i]));
        if error.Some? {
          return;
        }
        i := i + 1;
      }
      assert ws[i + 1..] == [];
      error := db.Sync();
    }

    /** `LoadHardState`. */
    method LoadHardState() returns (r: Result<N.HardState, string>)
      ensures r == ReadHard(db.closed, db.data, c)
    {
      var got := db.Get(HARD_KEY);
      if got.Err? {
        return Err(got.error);
      }
      var hard := c.readHard(got.value);
      if hard.None? {
        return Err(BAD_HARD_STATE);
      }
      r := Ok(hard.value);
    }

    /** `LoadEntries`: an error exactly when some stored entry cannot be read. */
    method LoadEntries() returns (r: Result<seq<Entry>, string>)
      ensures r.Err? <==> SomeEntryUnreadable(db.data, c)
      ensures r.Err? ==> r.error == BAD_ENTRY
      ensures forall d | Holds(db.data, c, d) :: r == Ok(InOrder(d.ents))
    {
      hide Holds, InOrder, E.InRange;
      var kvs := db.Scan(LOG_START, LOG_END);
      assert Scanned(db.data, kvs);
      var entries: seq<Entry> := [];
      var i := 0;
      while i < |kvs|
        invariant 0 <= i <= |kvs|
        invariant ReadAs(c, kvs[..i], entries)
      {
        var e := c.readEntry(kvs[i].value);
        if e.None? {
          UnreadableEntry(db.data, c, kvs, i);
          return Err(BAD_ENTRY);
        }
        entries := entries + [e.value];
        i := i + 1;
      }
      assert kvs[..i] == kvs;
      AllReadable(db.data, c, kvs, entries);
      forall d | Holds(db.data, c, d) ensures Sorting.Sort(ByIndex, entries) == InOrder(d.ents) {
        ScanIsInOrder(db.data, c, d, kvs, entries);
      }
      r := Ok(Sorting.Sort(ByIndex, entries));
    }
  }

  lemma WritesParts(hard: N.HardState, es: seq<Entry>, c: Codec)
    ensures var ws := Writes(hard, es, c);
      && ws[0] == Record(HARD_KEY, c.printHard(hard))
      && forall k | 0 <= k < |es| :: ws[k + 1] == Record(EntryKey(es[k].index), c.printEntry(es[k]))
  {
    hide EntryKey;
    var ws := Writes(hard, es, c);
    forall k | 0 <= k < |es| ensures ws[k + 1] == Record(EntryKey(es[k].index), c.printEntry(es[k])) {
      assert ws[k + 1] == EntryWrites(es, c)[k];
    }
  }

  lemma ClosedPut(s: E.Image, key: Bytes, value: Bytes, crc: Checksum)
    requires s.closed
    ensures E.PutImage(s, key, value, crc) == s
  {
  }

  lemma NextWrite(ws: seq<Record>, i: nat)
    requires i < |ws|
    ensures ws[i..][0] == ws[i] && ws[i..][1..] == ws[i + 1..] && ws[i..] != []
  {
  }

  lemma UnreadableEntry(data: Store, c: Codec, kvs: seq<E.KV>, i: nat)
    requires Scanned(data, kvs) && i < |kvs| && c.readEntry(kvs[i].value).None?
    ensures SomeEntryUnreadable(data, c)
    ensures forall d :: !Holds(data, c, d)
  {
    hide E.InRange, Holds;
    assert kvs[i] in kvs;
    RangeIsPrefix(LOG_STEM, 47, kvs[i].key);
    forall d ensures !Holds(data, c, d) {
      if Holds(data, c, d) {
        ScannedEntry(data, c, d, kvs, i);
        assert false;
      }
    }
  }

  lemma AllReadable(data: Store, c: Codec, kvs: seq<E.KV>, es: seq<Entry>)
    requires Scanned(data, kvs) && ReadAs(c, kvs, es)
    ensures !SomeEntryUnreadable(data, c)
  {
    hide E.InRange;
    forall k | k in data && LOG_START <= k ensures c.readEntry(data[k]).Some? {
      RangeIsPrefix(LOG_STEM, 47, k);
      assert E.KV(k, data[k]) in kvs;
    }
  }

  // ---------- Recovery ----------

  function Blank(config: R.Config): N.State {
    N.NewState(config.id, config.peers, R.InitialMembership(config), config.electionTick, config.heartbeatTick)
  }

  /** The loop of `RecoverNode` over the loaded entries. */
  method ReplayInto(log: Log, es: seq<Entry>) returns (ok: bool)
    modifies log`entries
    ensures match ReplayLog(old(log.entries), es)
      case Ok(after) => ok && log.entries == after
      case Err(_) => !ok
  {
    hide Append;
    var i := 0;
    while i < |es|
      invariant 0 <= i <= |es|
      invariant ReplayLog(log.entries, es[i..]) == ReplayLog(old(log.entries), es)
    {
      assert es[i..][0] == es[i] && es[i..][1..] == es[i + 1..];
      if es[i].index > LastIndex(log.entries) {
        var added := log.AppendBatch([es[i]]);
        if !added {
          return false;
        }
      }
      i := i + 1;
    }
    ok := true;
  }

  /** `RecoverNode`: whatever disk the engine's map stands for, the result is what that disk recovers to. */
  method RecoverNode(config: R.Config, persister: Persister?) returns (r: Result<R.Node, string>)
    ensures persister == null ==> r == Err("raft: nil persister")
    ensures persister != null && R.ConfigError(config).Some? ==> r == Err(R.ConfigError(config).value)
    ensures persister != null && R.ConfigError(config).None? && persister.db.closed ==> r == Err("storage: closed")
    ensures persister != null && R.ConfigError(config).None? && !persister.db.closed ==>
      forall d | Holds(persister.db.data, persister.c, d) ::
        match Recover(Blank(config), d)
        case Ok(s) => r.Ok? && fresh(r.value) && r.value.State() == s
        case Err(e) => r == Err(e)
    ensures persister != null && R.ConfigError(config).None? && !persister.db.closed ==>
      var data, c := persister.db.data, persister.c;
      && (HardUnreadable(data, c) ==> r == Err(BAD_HARD_STATE))
      && (!HardUnreadable(data, c) && SomeEntryUnreadable(data, c) ==> r == Err(BAD_ENTRY))
  {
    hide Holds, R.ConfigError, ReplayLog, InOrder, R.InitialMembership, N.ScanMembership;
    if persister == null {
      return Err("raft: nil persister");
    }
    var created := R.Node.Create(config);
    if created.Err? {
      return Err(created.error);
    }
    var n := created.value;
    var loaded := persister.LoadHardState();
    ghost var data, c := persister.db.data, persister.c;
    if loaded.Err? && loaded.error != NOT_FOUND {
      HardLoads(persister.db.closed, data, c);
      return Err(loaded.error);
    }
    var hard := if loaded.Ok? then loaded.value else N.HardState(0, 0, 0);
    HardLoads(persister.db.closed, data, c);
    var entries := persister.LoadEntries();
    if entries.Err? {
      return Err(entries.error);
    }
    var ok := ReplayInto(n.log, entries.value);
    if !ok {
      GapErrorBlank(entries.value);
      return Err("raft: non-contiguous append");
    }
    if hard.commit > LastIndex(n.log.entries) {
      return Err(COMMIT_PAST_LOG);
    }
    Restore(n, hard);
    r := Ok(n);
  }

  method Restore(n: R.Node, hard: N.HardState)
    modifies n, n.log
    ensures n.State() == N.Recompute(old(n.State()).(term := hard.term, vote := hard.vote, committed := hard.commit, lastHard := hard))
  {
    hide N.ScanMembership;
    n.term := hard.term;
    n.vote := hard.vote;
    n.log.committed := hard.commit;
    n.lastHard := hard;
    n.RecomputeMembership();
  }

  lemma HardLoads(closed: bool, data: Store, c: Codec)
    ensures closed ==> ReadHard(closed, data, c) == Err("storage: closed") && "storage: closed" != NOT_FOUND
    ensures !closed ==> (HardUnreadable(data, c) <==> ReadHard(closed, data, c) == Err(BAD_HARD_STATE))
    ensures BAD_HARD_STATE != NOT_FOUND
    ensures forall d | Holds(data, c, d) && !closed ::
      var r := ReadHard(closed, data, c);
      if r.Ok? then r.value == HardOf(d) else r.error == NOT_FOUND && HardOf(d) == N.HardState(0, 0, 0)
  {
    assert |"storage: closed"| != |NOT_FOUND| && |BAD_HARD_STATE| != |NOT_FOUND|;
  }

  lemma {:induction false} GapError(log: EntryLog, es: seq<Entry>)
    ensures ReplayLog(log, es).Err? ==> ReplayLog(log, es).error == "raft: non-contiguous append"
    decreases |es|
  {
    hide Append;
    if es != [] {
      if es[0].index <= LastIndex(log) {
        GapError(log, es[1..]);
      } else if Append(log, [es[0]]).ok {
        GapError(Append(log, [es[0]]).log, es[1..]);
      }
    }
  }

  lemma GapErrorBlank(es: seq<Entry>)
    ensures ReplayLog([PLACEHOLDER], es).Err? ==> ReplayLog([PLACEHOLDER], es).error == "raft: non-contiguous append"
  {
    GapError([PLACEHOLDER], es);
  }
}
