/**
 Runs of the storage engine with crashes. A crash keeps any byte prefix of the file that holds at
 least what fsync made durable. The map is always the fold of the surviving writes.
 */
module StoreRuns {
  import opened ByteStrings
  import opened WalFormat
  import opened Engine

  datatype Action =
    | Put(key: Bytes, value: Bytes)
    | Sync
    | Close
    | Crash(keep: nat)         // the process is gone; the file's first `keep` bytes remain
    | Open(syncEvery: int)

  datatype Machine = Down(file: Bytes, synced: nat) | Up(image: Image)

  /** A machine, the writes that still count, and how many of them an fsync has covered. */
  datatype Run = Run(machine: Machine, writes: seq<Record>, durable: nat)

  function Start(): Run {
    Run(Down([], 0), [], 0)
  }

  predicate CrashAllowed(file: Bytes, synced: nat, keep: nat) {
    synced <= keep <= |file|
  }

  function Next(r: Run, a: Action, crc: Checksum): Run {
    match r.machine
    case Up(s) => (
      match a
      case Put(key, value) =>
        if key == [] || s.closed then r
        else
          var t := PutImage(s, key, value, crc);
          Run(Up(t), r.writes + [Record(key, value)], if t.pending == 0 then |r.writes| + 1 else r.durable)
      case Sync =>
        Run(Up(SyncImage(s)), r.writes, if !s.closed && s.pending > 0 then |r.writes| else r.durable)
      case Close =>
        Run(Up(CloseImage(s)), r.writes, if !s.closed && s.pending > 0 then |r.writes| else r.durable)
      case Crash(keep) =>
        if CrashAllowed(s.file, s.synced, keep) then r.(machine := Down(s.file[..keep], s.synced)) else r
      case Open(_) => r
    )
    case Down(file, synced) => (
      match a
      case Crash(keep) =>
        if CrashAllowed(file, synced, keep) then r.(machine := Down(file[..keep], synced)) else r
      case Open(syncEvery) => (
        match OpenImage(file, synced, syncEvery, crc)
        case Ok(image) => Run(Up(image), r.writes[..WholeRecords(r.writes, crc, |file|)], r.durable)
        case Err(_) => r
      )
      case _ => r
    )
  }

  function Exec(r: Run, actions: seq<Action>, crc: Checksum): Run
    decreases |actions|
  {
    if actions == [] then r else Exec(Next(r, actions[0], crc), actions[1..], crc)
  }

  /** The states some run from an empty directory reaches. */
  ghost predicate Reachable(r: Run, crc: Checksum) {
    exists actions :: PutsSmall(actions) && Exec(Start(), actions, crc) == r
  }

  /** Every value put fits the record format's length field (see WalFormat.RoundTripExactly). */
  predicate PutsSmall(actions: seq<Action>) {
    forall i | 0 <= i < |actions| && actions[i].Put? :: Small(Record(actions[i].key, actions[i].value))
  }

  // ---------- The invariant ----------

  ghost predicate Good(r: Run, crc: Checksum) {
    && AllSmall(r.writes)
    && r.durable <= |r.writes|
    && match r.machine
       case Up(s) =>
         && s.file == EncodeAll(r.writes, crc)
         && s.synced == |EncodeAll(r.writes[..r.durable], crc)|
         && s.data == Fold(r.writes)
       case Down(file, synced) =>
         && |file| <= |EncodeAll(r.writes, crc)|
         && file == EncodeAll(r.writes, crc)[..|file|]
         && synced == |EncodeAll(r.writes[..r.durable], crc)| <= |file|
  }

  lemma PutKeepsGood(r: Run, key: Bytes, value: Bytes, crc: Checksum)
    requires Good(r, crc) && r.machine.Up? && Small(Record(key, value))
    ensures Good(Next(r, Put(key, value), crc), crc)
  {
    var w := Record(key, value);
    var writes := r.writes + [w];
    EncodeAllPush(r.writes, w, crc);
    assert writes[..r.durable] == r.writes[..r.durable];
    assert writes[..|writes|] == writes;
    assert writes[..|writes| - 1] == r.writes;
  }

  lemma CrashKeepsGood(r: Run, keep: nat, crc: Checksum)
    requires Good(r, crc)
    ensures Good(Next(r, Crash(keep), crc), crc)
  {
    EncodeAllMonotone(r.writes, r.durable, |r.writes|, crc);
    assert r.writes[..|r.writes|] == r.writes;
    if r.machine.Down? && CrashAllowed(r.machine.file, r.machine.synced, keep) {
      assert r.machine.file[..keep] == EncodeAll(r.writes, crc)[..keep];
    }
  }

  /** Opening succeeds and keeps every durable write. */
  lemma OpenKeepsGood(r: Run, syncEvery: int, crc: Checksum)
    requires Good(r, crc) && r.machine.Down?
    ensures var r' := Next(r, Open(syncEvery), crc);
            Good(r', crc) && r'.machine.Up? && r.durable <= |r'.writes| && r'.writes <= r.writes
  {
    hide Parse, ParseFront, EncodeAll, Encode, WholeRecords, Fold;
    var file := r.machine.file;
    var j := WholeRecords(r.writes, crc, |file|);
    ParsePrefix(r.writes, crc, |file|);
    WholeRecordsExact(r.writes, crc, |file|);
    if j < r.durable {
      EncodeAllMonotone(r.writes, j + 1, r.durable, crc);
    } else {
      EncodeAllMonotone(r.writes, r.durable, j, crc);
    }
    var keep := Parse(file, crc).keep;
    assert file[..keep] == EncodeAll(r.writes, crc)[..keep];
    assert r.writes[..j][..r.durable] == r.writes[..r.durable];
  }

  lemma NextKeepsGood(r: Run, a: Action, crc: Checksum)
    requires Good(r, crc)
    requires a.Put? ==> Small(Record(a.key, a.value))
    ensures Good(Next(r, a, crc), crc)
  {
    match a
    case Put(key, value) => if r.machine.Up? { PutKeepsGood(r, key, value, crc); }
    case Crash(keep) => CrashKeepsGood(r, keep, crc);
    case Open(syncEvery) => if r.machine.Down? { OpenKeepsGood(r, syncEvery, crc); }
    case _ => assert r.writes[..|r.writes|] == r.writes;
  }

  // ---------- The results ----------

  /** Every run from a good state ends in a good state. */
  lemma {:induction false} RunKeepsGood(r: Run, actions: seq<Action>, crc: Checksum)
    requires Good(r, crc) && PutsSmall(actions)
    ensures Good(Exec(r, actions, crc), crc)
    decreases |actions|
  {
    if actions != [] {
      NextKeepsGood(r, actions[0], crc);
      RunKeepsGood(Next(r, actions[0], crc), actions[1..], crc);
    }
  }

  /**
   After every interleaving of puts, syncs, closes, crashes and opens, a running engine's map is the
   fold of the surviving writes, its file is exactly their printed records, and what is durable on
   disk is exactly the printed records of the durable writes.
   */
  lemma StoreRefinesFold(r: Run, crc: Checksum)
    requires Reachable(r, crc)
    ensures Good(r, crc)
  {
    var actions :| PutsSmall(actions) && Exec(Start(), actions, crc) == r;
    assert Start().writes[..0] == [];
    RunKeepsGood(Start(), actions, crc);
  }

  /**
   Crash anywhere in any run and open again: the open succeeds, and the map is the fold of a prefix of
   the surviving writes that holds every durable one.
   */
  lemma CrashRecovery(r: Run, keep: nat, syncEvery: int, crc: Checksum)
    requires Reachable(r, crc) && r.machine.Up?
    requires CrashAllowed(r.machine.image.file, r.machine.image.synced, keep)
    ensures var after := Next(Next(r, Crash(keep), crc), Open(syncEvery), crc);
            && after.machine.Up?
            && !after.machine.image.closed && after.machine.image.syncEvery == syncEvery
            && r.durable <= |after.writes| && after.writes <= r.writes
            && after.machine.image.data == Fold(after.writes)
  {
    hide Parse, ParseFront, EncodeAll, Encode, WholeRecords, Fold;
    StoreRefinesFold(r, crc);
    CrashKeepsGood(r, keep, crc);
    OpenKeepsGood(Next(r, Crash(keep), crc), syncEvery, crc);
  }

  /**
   Sync is documented to force all writes so far onto disk. It does so exactly when something was
   appended since the engine was opened, or nothing was missing on disk.
   */
  lemma SyncDurableExactly(r: Run, crc: Checksum)
    requires Reachable(r, crc) && r.machine.Up? && !r.machine.image.closed
    ensures var after := Next(r, Sync, crc);
            && after.writes == r.writes
            && (after.durable == |r.writes| <==>
                  r.machine.image.pending > 0 || r.machine.image.synced == |r.machine.image.file|)
  {
    hide Parse, ParseFront, EncodeAll, Encode, WholeRecords, Fold;
    StoreRefinesFold(r, crc);
    EncodeAllMonotone(r.writes, r.durable, |r.writes|, crc);
    assert r.writes[..|r.writes|] == r.writes;
  }

  /** Fewer appends than the engine was told to tolerate wait for an fsync. */
  ghost predicate Tolerated(m: Machine) {
    m.Up? && m.image.syncEvery > 0 ==> m.image.pending < m.image.syncEvery
  }

  lemma {:induction false} RunTolerates(r: Run, actions: seq<Action>, crc: Checksum)
    requires Tolerated(r.machine)
    ensures Tolerated(Exec(r, actions, crc).machine)
    decreases |actions|
  {
    hide Parse, Encode, Fold, WholeRecords;
    if actions != [] {
      RunTolerates(Next(r, actions[0], crc), actions[1..], crc);
    }
  }

  /** So in every run at most `syncEvery - 1` appends wait, and with one the last put is durable when it returns. */
  lemma FewWait(r: Run, key: Bytes, value: Bytes, crc: Checksum)
    requires Reachable(r, crc) && r.machine.Up?
    ensures var s := r.machine.image; s.syncEvery > 0 ==> s.pending < s.syncEvery
    ensures var s, after := r.machine.image, Next(r, Put(key, value), crc);
      s.syncEvery == 1 && key != [] && !s.closed ==>
        && after.writes == r.writes + [Record(key, value)] && after.durable == |after.writes|
        && after.machine.Up? && after.machine.image.synced == |after.machine.image.file|
  {
    hide Parse, Encode, Fold, WholeRecords;
    var actions :| PutsSmall(actions) && Exec(Start(), actions, crc) == r;
    RunTolerates(Start(), actions, crc);
  }

  /** Closing keeps the map and the file, and nothing changes a closed engine any more. */
  lemma ClosedForGood(r: Run, crc: Checksum)
    requires r.machine.Up?
    ensures var after := Next(r, Close, crc);
      && after.machine.Up? && after.machine.image.closed
      && after.machine.image.data == r.machine.image.data && after.machine.image.file == r.machine.image.file
      && after.writes == r.writes
      && (forall a | a == Sync || a == Close || a.Put? :: Next(after, a, crc) == after)
  {
    hide Parse, Encode, Fold, WholeRecords;
  }

  /** Open, put one record, and lose the process but not the machine: the bytes survive, unsynced. */
  lemma ProcessCrashKeepsBytes(w: Record, crc: Checksum)
    requires w.key != [] && Small(w)
    ensures Reachable(Run(Down(Encode(w, crc), 0), [w], 0), crc)
  {
    hide Encode, ParseFront, EncodeAll, WholeRecords;
    var file := Encode(w, crc);
    var actions := [Open(0), Put(w.key, w.value), Crash(|file|)];
    assert Parse([], crc) == Parsed([], 0, Clean);
    assert Fold([]) == map[];
    var empty := Next(Start(), actions[0], crc);
    assert empty == Run(Up(Image([], 0, 0, 0, map[], false)), [], 0);
    var put := Next(empty, actions[1], crc);
    assert [] + file == file && [] + [w] == [w];
    assert put == Run(Up(Image(file, 0, 1, 0, map[w.key := w.value], false)), [w], 0);
    var survived := Next(put, actions[2], crc);
    assert file[..|file|] == file;
    assert survived == Run(Down(file, 0), [w], 0);
    assert actions[1..] == [actions[1], actions[2]] && actions[1..][1..] == [actions[2]];
    assert Exec(survived, [], crc) == survived;
    assert Exec(put, [actions[2]], crc) == survived;
    assert Exec(empty, actions[1..], crc) == survived;
    assert Exec(Start(), actions, crc) == survived;
  }

  /**
   The exception is real: a write that only survived a process crash is not covered by a Sync after
   the restart, and a later power loss takes it.
   */
  lemma SyncAfterReopenCanLose(w: Record, crc: Checksum)
    requires w.key != [] && Small(w)
    ensures var survived := Run(Down(Encode(w, crc), 0), [w], 0);
            && Reachable(survived, crc)
            && var synced := Next(Next(survived, Open(0), crc), Sync, crc);
               var lost := Next(Next(synced, Crash(0), crc), Open(0), crc);
               && synced.machine.Up? && synced.machine.image.data == map[w.key := w.value]
               && lost.machine.Up? && lost.machine.image.data == map[]
  {
    ProcessCrashKeepsBytes(w, crc);
    RoundTripExactly(w, crc);
    hide Encode, ParseFront, EncodeAll, WholeRecords;
    var file := Encode(w, crc);
    assert [w][..0] == [] && Fold([]) == map[] && Fold([w]) == map[w.key := w.value];
    var synced := Next(Next(Run(Down(file, 0), [w], 0), Open(0), crc), Sync, crc);
    assert synced.machine == Up(Image(file, 0, 0, 0, map[w.key := w.value], false));
    assert file[..0] == [] && Parse([], crc) == Parsed([], 0, Clean);
    assert Next(synced, Crash(0), crc).machine == Down([], 0);
  }
}
