/**
 The storage engine: a map kept in memory, backed by an append-only file. Each operation is proved
 equal to a function on the engine's `Image`; StoreRuns then follows those functions through crashes.
 */
module Engine {
  import opened Wrappers
  import opened ByteStrings
  import opened WalFormat
  import Sorting

  type Data = map<Bytes, Bytes>

  /** The last value written for each key. */
  function Fold(rs: seq<Record>): Data {
    if rs == [] then map[]
    else
      var last := rs[|rs| - 1];
      Fold(rs[..|rs| - 1])[last.key := last.value]
  }

  /** The whole state of a running engine: the file, how much of it is on disk, and the map. */
  datatype Image = Image(
    file: Bytes,
    synced: nat,       // bytes of the file known to be on disk
    pending: nat,      // appends since the last fsync
    syncEvery: int,
    data: Data,
    closed: bool)

  // ---------- What each operation does to the image ----------

  function SyncedImage(s: Image): Image {
    if s.pending == 0 then s else s.(synced := |s.file|, pending := 0)
  }

  function AppendedImage(s: Image, r: Record, crc: Checksum): Image {
    var t := s.(file := s.file + Encode(r, crc), pending := s.pending + 1);
    if s.syncEvery > 0 && t.pending >= s.syncEvery then SyncedImage(t) else t
  }

  function PutImage(s: Image, key: Bytes, value: Bytes, crc: Checksum): Image {
    if key == [] || s.closed then s
    else AppendedImage(s, Record(key, value), crc).(data := s.data[key := value])
  }

  function SyncImage(s: Image): Image {
    if s.closed then s else SyncedImage(s)
  }

  function CloseImage(s: Image): Image {
    if s.closed then s else SyncedImage(s.(closed := true))
  }

  /** Opening a file replays it and drops a torn tail; a corrupt file is refused. */
  function OpenImage(file: Bytes, synced: nat, syncEvery: int, crc: Checksum): Result<Image, string> {
    var p := Parse(file, crc);
    match p.ending
    case Corrupt(error) => Err(error)
    case Clean => Ok(Image(file, synced, 0, syncEvery, Fold(p.records), false))
    case Torn => Ok(Image(file[..p.keep], Min(synced, p.keep), 0, syncEvery, Fold(p.records), false))
  }

  // ---------- The operations ----------

  /** A file as the operating system keeps it: what was written, and how much fsync has made durable. */
  class File {
    var bytes: Bytes
    var synced: nat

    constructor ()
      ensures bytes == [] && synced == 0
    {
      bytes, synced := [], 0;
    }
  }

  class Wal {
    const file: File
    const crc: Checksum
    const syncEvery: int
    var pending: nat

    constructor (file: File, syncEvery: int, crc: Checksum)
      ensures this.file == file && this.syncEvery == syncEvery && this.crc == crc && pending == 0
    {
      this.file, this.syncEvery, this.crc, this.pending := file, syncEvery, crc, 0;
    }

    method Append(r: Record)
      modifies this`pending, file
      ensures file.bytes == old(file.bytes) + Encode(r, crc)
      ensures if syncEvery > 0 && old(pending) + 1 >= syncEvery
              then pending == 0 && file.synced == |file.bytes|
              else pending == old(pending) + 1 && file.synced == old(file.synced)
    {
      var payload := BigEndian(|r.key|, 4) + r.key + r.value;
      var head := BigEndian(|payload|, 4) + BigEndian(crc(payload), 4);
      file.bytes := file.bytes + head;
      file.bytes := file.bytes + payload;
      assert file.bytes == old(file.bytes) + (head + payload);
      pending := pending + 1;
      if syncEvery > 0 && pending >= syncEvery {
        Sync();
      }
    }

    method Sync()
      modifies this`pending, file`synced
      ensures pending == 0
      ensures file.synced == if old(pending) == 0 then old(file.synced) else |file.bytes|
    {
      if pending == 0 {
        return;
      }
      file.synced := |file.bytes|;
      pending := 0;
    }

    /** Reads the record that starts at `offset`. */
    method ReadFront(data: Bytes, offset: nat) returns (front: Front)
      requires offset < |data|
      ensures front == ParseFront(data[offset..], crc)
    {
      if |data| - offset < 8 {
        return Stop(Torn);
      }
      HeaderAt(data, offset);
      var n := FromBigEndian(data[offset..offset + 4]);
      var sum := FromBigEndian(data[offset + 4..offset + 8]);
      if |data| - offset - 8 < n {
        return Stop(Torn);
      }
      PayloadAt(data, offset, n);
      var p := data[offset + 8..offset + 8 + n];
      if sum != crc(p) {
        return Stop(Corrupt("storage: WAL checksum mismatch"));
      }
      if |p| < 4 {
        return Stop(Corrupt("storage: WAL record too short"));
      }
      var k := FromBigEndian(p[..4]);
      if 4 + k > |p| {
        return Stop(Corrupt("storage: WAL key length invalid"));
      }
      return Got(Record(p[4..4 + k], p[4 + k..]), 8 + n);
    }

    /** The loop over the file's records. */
    method ReadRecords(data: Bytes) returns (records: seq<Record>, offset: nat, ending: Ending)
      ensures Parsed(records, offset, ending) == Parse(data, crc)
    {
      hide ParseFront;
      offset, records, ending := 0, [], Clean;
      assert data[0..] == data;
      while offset < |data|
        invariant offset <= |data| && ending == Clean && ReadSoFar(data, crc, records, offset)
      {
        var front := ReadFront(data, offset);
        if front.Stop? {
          ending := front.ending;
          break;
        }
        ReadOneMore(data, crc, records, offset);
        records, offset := records + [front.record], offset + front.size;
      }
      ReadAll(data, crc, records, offset);
    }

    /** Reads every record in order; a torn tail is cut off the file, a bad record is an error. */
    method Replay() returns (r: Result<seq<Record>, string>)
      modifies file
      ensures var p := Parse(old(file.bytes), crc);
              && r == (if p.ending.Corrupt? then Err(p.ending.error) else Ok(p.records))
              && file.bytes == (if p.ending.Torn? then old(file.bytes)[..p.keep] else old(file.bytes))
              && file.synced == (if p.ending.Torn? then Min(old(file.synced), p.keep) else old(file.synced))
    {
      var records, start, ending := ReadRecords(file.bytes);
      match ending
      case Corrupt(error) => return Err(error);
      case Clean => return Ok(records);
      case Torn =>
        file.bytes, file.synced := file.bytes[..start], Min(file.synced, start);
        return Ok(records);
    }
  }

  /** The replay loop has read `records` from the first `offset` bytes; parsing the rest completes it. */
  ghost predicate ReadSoFar(data: Bytes, crc: Checksum, records: seq<Record>, offset: nat)
    requires offset <= |data|
  {
    var rest := Parse(data[offset..], crc);
    Parse(data, crc) == Parsed(records + rest.records, offset + rest.keep, rest.ending)
  }

  lemma HeaderAt(data: Bytes, offset: nat)
    requires offset + 8 <= |data|
    ensures data[offset..][..4] == data[offset..offset + 4]
    ensures data[offset..][4..8] == data[offset + 4..offset + 8]
  {
  }

  lemma PayloadAt(data: Bytes, offset: nat, n: nat)
    requires offset + 8 + n <= |data|
    ensures data[offset..][8..8 + n] == data[offset + 8..offset + 8 + n]
  {
  }

  lemma ReadAll(data: Bytes, crc: Checksum, records: seq<Record>, offset: nat)
    requires offset <= |data| && ReadSoFar(data, crc, records, offset)
    requires ParseFront(data[offset..], crc).Stop?
    ensures Parse(data, crc) == Parsed(records, offset, ParseFront(data[offset..], crc).ending)
  {
    assert records + [] == records;
  }

  lemma ReadOneMore(data: Bytes, crc: Checksum, records: seq<Record>, offset: nat)
    requires offset <= |data| && ReadSoFar(data, crc, records, offset)
    requires ParseFront(data[offset..], crc).Got?
    ensures var f := ParseFront(data[offset..], crc); ReadSoFar(data, crc, records + [f.record], offset + f.size)
  {
    var f := ParseFront(data[offset..], crc);
    assert data[offset..][f.size..] == data[offset + f.size..];
    Regroup(records, [f.record], Parse(data[offset + f.size..], crc).records);
  }

  datatype KV = KV(key: Bytes, value: Bytes)

  predicate InRange(k: Bytes, start: Bytes, end: Bytes) {
    AtMost(start, k) && (end == [] || Less(k, end))
  }

  predicate KeyOrder(a: KV, b: KV) {
    AtMost(a.key, b.key)
  }

  class DB {
    const wal: Wal
    var data: Data
    var closed: bool

    ghost function State(): Image
      reads this, wal, wal.file
    {
      Image(wal.file.bytes, wal.file.synced, wal.pending, wal.syncEvery, data, closed)
    }

    constructor (wal: Wal, data: Data)
      ensures this.wal == wal && this.data == data && !closed
    {
      this.wal, this.data, this.closed := wal, data, false;
    }

    static method Open(dir: string, file: File, syncEvery: int, crc: Checksum) returns (r: Result<DB, string>)
      modifies file
      ensures dir == "" ==> r.Err? && unchanged(file)
      ensures dir != "" ==>
                match OpenImage(old(file.bytes), old(file.synced), syncEvery, crc)
                case Ok(image) => r.Ok? && fresh(r.value) && fresh(r.value.wal) && r.value.wal.file == file
                                  && r.value.wal.crc == crc && r.value.State() == image
                case Err(error) => r == Err(error) && file.bytes == old(file.bytes) && file.synced == old(file.synced)
    {
      if dir == "" {
        return Err("storage: Dir is required");
      }
      var w := new Wal(file, syncEvery, crc);
      var replayed := w.Replay();
      if replayed.Err? {
        return Err(replayed.error);
      }
      var records, data, i := replayed.value, map[], 0;
      while i < |records|
        invariant i <= |records| && data == Fold(records[..i])
      {
        assert records[..i + 1][..i] == records[..i];
        data := data[records[i].key := records[i].value];
        i := i + 1;
      }
      assert records[..i] == records;
      var db := new DB(w, data);
      return Ok(db);
    }

    method Put(key: Bytes, value: Bytes) returns (error: Option<string>)
      modifies this`data, wal, wal.file
      ensures State() == PutImage(old(State()), key, value, wal.crc)
      ensures error.None? <==> key != [] && !closed
    {
      if key == [] {
        return Some("storage: empty key");
      }
      if closed {
        return Some("storage: closed");
      }
      wal.Append(Record(key, value));
      data := data[key := value];
      return None;
    }

    method Get(key: Bytes) returns (r: Result<Bytes, string>)
      ensures r == if closed then Err("storage: closed")
                   else if key in data then Ok(data[key])
                   else Err("storage: key not found")
    {
      if closed {
        return Err("storage: closed");
      }
      if key !in data {
        return Err("storage: key not found");
      }
      return Ok(data[key]);
    }

    /** Every key in [start, end) with its newest value, each once, in key order. */
    method Scan(start: Bytes, end: Bytes) returns (out: seq<KV>)
      ensures forall i, j | 0 <= i < j < |out| :: Less(out[i].key, out[j].key)
      ensures forall kv :: kv in out <==> kv.key in data && InRange(kv.key, start, end) && kv.value == data[kv.key]
    {
      var found: seq<KV> := [];
      var todo := data.Keys;
      while todo != {}
        invariant todo <= data.Keys
        invariant forall kv :: kv in found <==>
                    kv.key in data && kv.key !in todo && InRange(kv.key, start, end) && kv.value == data[kv.key]
        invariant forall i, j | 0 <= i < j < |found| :: found[i].key != found[j].key
      {
        var k :| k in todo;
        ghost var before := found;
        if InRange(k, start, end) {
          assert forall i | 0 <= i < |found| :: found[i] in found;
          found := found + [KV(k, data[k])];
        }
        todo := todo - {k};
      }
      out := Sorting.Sort(KeyOrder, found);
      KeyOrderIsPreorder();
      Sorting.SortSorts(KeyOrder, found);
      Sorting.SortElements(KeyOrder, found);
      StrictlySorted(found, out);
    }

    method Sync() returns (error: Option<string>)
      modifies wal`pending, wal.file`synced
      ensures State() == SyncImage(old(State()))
      ensures error.None? <==> !closed
    {
      if closed {
        return Some("storage: closed");
      }
      wal.Sync();
      return None;
    }

    method Close()
      modifies this`closed, wal`pending, wal.file`synced
      ensures State() == CloseImage(old(State()))
    {
      if closed {
        return;
      }
      closed := true;
      wal.Sync();
    }
  }

  // ---------- Lemmas for Scan ----------

  lemma KeyOrderIsPreorder()
    ensures Sorting.TotalPreorder(KeyOrder)
  {
    forall a: KV, b: KV ensures KeyOrder(a, b) || KeyOrder(b, a) {
      LessTotal(a.key, b.key);
    }
    forall a: KV, b: KV, c: KV | KeyOrder(a, b) && KeyOrder(b, c) ensures KeyOrder(a, c) {
      LessTotal(a.key, b.key);
      LessTotal(b.key, c.key);
      if Less(c.key, a.key) {
        LessTransitive(c.key, a.key, if a.key == b.key then c.key else b.key);
      }
    }
  }

  /** Sorting a list without repeated keys puts it in strictly increasing key order. */
  lemma StrictlySorted(found: seq<KV>, out: seq<KV>)
    requires multiset(out) == multiset(found) && Sorting.SortedBy(KeyOrder, out)
    requires forall i, j | 0 <= i < j < |found| :: found[i].key != found[j].key
    ensures forall i, j | 0 <= i < j < |out| :: Less(out[i].key, out[j].key)
  {
    forall i, j | 0 <= i < j < |out| ensures Less(out[i].key, out[j].key) {
      KeysDistinct(found, out, i, j);
      LessTotal(out[i].key, out[j].key);
    }
  }

  lemma KeysDistinct(found: seq<KV>, out: seq<KV>, i: nat, j: nat)
    requires multiset(out) == multiset(found) && i < j < |out|
    requires forall i, j | 0 <= i < j < |found| :: found[i].key != found[j].key
    ensures out[i].key != out[j].key
  {
    if out[i] == out[j] {
      AppearsTwice(out, i, j);
      AppearsOnce(found, out[i]);
    } else {
      assert out[i] in multiset(found) && out[j] in multiset(found);
    }
  }

  lemma AppearsTwice(out: seq<KV>, i: nat, j: nat)
    requires i < j < |out| && out[i] == out[j]
    ensures multiset(out)[out[i]] >= 2
  {
    assert out == out[..i] + [out[i]] + out[i + 1..j] + [out[j]] + out[j + 1..];
  }

  lemma {:induction false} AppearsOnce(found: seq<KV>, kv: KV)
    requires forall i, j | 0 <= i < j < |found| :: found[i].key != found[j].key
    ensures multiset(found)[kv] <= 1
  {
    if found != [] {
      var n := |found| - 1;
      assert found == found[..n] + [found[n]];
      AppearsOnce(found[..n], kv);
      if found[n] == kv {
        assert kv !in found[..n];
      }
    }
  }
}
