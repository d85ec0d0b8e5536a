/**
 The storage keys of a node's durable state, and what the engine's map says about the disk
 (internal/raft/storage.go). How values are printed is a parameter that can be read back.
 */
module RaftKeys {
  import opened Wrappers
  import opened ByteStrings
  import opened WalFormat
  import opened Engine
  import opened RaftLog
  import opened RaftNode
  import opened RaftDisk

  /** The engine's map. */
  type Store = map<Bytes, Bytes>

  /** "raft/hard-state", "raft/log/" and "raft/log0". */
  const HARD_KEY: Bytes := [114, 97, 102, 116, 47, 104, 97, 114, 100, 45, 115, 116, 97, 116, 101]
  const LOG_STEM: Bytes := [114, 97, 102, 116, 47, 108, 111, 103]
  const LOG_START: Bytes := LOG_STEM + [47]
  const LOG_END: Bytes := LOG_STEM + [48]

  function EntryKey(index: nat): Bytes {
    LOG_START + BigEndian(index, 8)
  }

  /** Indexes are unsigned 64-bit numbers. */
  predicate Index64(index: nat) {
    index < Power256(8)
  }

  datatype Codec = Codec(
    printHard: HardState -> Bytes, readHard: Bytes -> Option<HardState>,
    printEntry: Entry -> Bytes, readEntry: Bytes -> Option<Entry>)

  /** What was printed reads back. */
  ghost predicate Invertible(c: Codec) {
    && (forall h :: c.readHard(c.printHard(h)) == Some(h))
    && (forall e :: c.readEntry(c.printEntry(e)) == Some(e))
  }

  // ---------- Keys ----------

  /** Scanning from a stem and a byte to the stem and the next byte meets exactly the keys that start so. */
  lemma {:induction false} RangeIsPrefix(stem: Bytes, b: byte, k: Bytes)
    requires b < 255
    ensures InRange(k, stem + [b], stem + [b + 1]) <==> stem + [b] <= k
  {
    var start, end := stem + [b], stem + [b + 1];
    if stem == [] {
      assert start == [b] && end == [b + 1];
      if k != [] {
        LessTotal(k[1..], []);
      }
    } else if k != [] && k[0] == stem[0] {
      RangeIsPrefix(stem[1..], b, k[1..]);
      assert start[1..] == stem[1..] + [b] && end[1..] == stem[1..] + [b + 1];
      assert k == [k[0]] + k[1..] && start == [stem[0]] + (stem[1..] + [b]);
    }
  }

  /** Different indexes have different keys, and keys sort in index order. */
  lemma EntryKeysOrdered(i: nat, j: nat)
    requires Index64(i) && Index64(j)
    ensures EntryKey(i) == EntryKey(j) <==> i == j
    ensures Less(EntryKey(i), EntryKey(j)) <==> i < j
  {
    LessAfterPrefix(LOG_START, BigEndian(i, 8), BigEndian(j, 8));
    LessTotal(EntryKey(i), EntryKey(j));
    LessTotal(BigEndian(i, 8), BigEndian(j, 8));
    if i < j {
      BigEndianOrder(i, j, 8);
    } else if j < i {
      BigEndianOrder(j, i, 8);
      LessAfterPrefix(LOG_START, BigEndian(j, 8), BigEndian(i, 8));
    }
  }

  lemma EntryKeyInRange(i: nat)
    ensures LOG_START <= EntryKey(i) && EntryKey(i) != HARD_KEY && EntryKey(i) != []
  {
    assert EntryKey(i)[5] == LOG_START[5] == 108;
  }

  lemma HardKeyOutside()
    ensures !(LOG_START <= HARD_KEY)
  {
    assert HARD_KEY[5] != LOG_START[5];
  }

  // ---------- The engine's map as a disk ----------

  /** The map holds exactly this hard state and these entries under the node's keys. */
  ghost predicate Holds(data: Store, c: Codec, d: Disk) {
    && (HARD_KEY in data <==> d.hard.Some?)
    && (d.hard.Some? ==> c.readHard(data[HARD_KEY]) == d.hard)
    && (forall i | i in d.ents :: HoldsEntry(data, c, i, d.ents[i]))
    && (forall k | k in data && LOG_START <= k :: exists i :: i in d.ents && k == EntryKey(i))
  }

  ghost predicate HoldsEntry(data: Store, c: Codec, i: nat, e: Entry) {
    Index64(i) && e.index == i && EntryKey(i) in data && c.readEntry(data[EntryKey(i)]) == Some(e)
  }

  /** The writes of one save, in order. */
  function Writes(hard: HardState, es: seq<Entry>, c: Codec): (ws: seq<Record>)
    ensures |ws| == |es| + 1
  {
    [Record(HARD_KEY, c.printHard(hard))] + EntryWrites(es, c)
  }

  function EntryWrites(es: seq<Entry>, c: Codec): (ws: seq<Record>)
    ensures |ws| == |es|
    ensures forall k | 0 <= k < |es| :: ws[k] == Record(EntryKey(es[k].index), c.printEntry(es[k]))
  {
    seq(|es|, k requires 0 <= k < |es| => Record(EntryKey(es[k].index), c.printEntry(es[k])))
  }

  function PutAll(data: Store, ws: seq<Record>): Store
    decreases |ws|
  {
    if ws == [] then data else PutAll(data[ws[0].key := ws[0].value], ws[1..])
  }

  lemma {:induction false} FoldMore(a: seq<Record>, b: seq<Record>)
    ensures Fold(a + b) == PutAll(Fold(a), b)
    decreases |b|
  {
    if b == [] {
      assert a + b == a;
    } else {
      var one := a + [b[0]];
      assert one[..|one| - 1] == a;
      assert a + b == one + b[1..];
      FoldMore(one, b[1..]);
    }
  }

  lemma HardPutHolds(data: Store, c: Codec, d: Disk, hard: HardState)
    requires Holds(data, c, d) && Invertible(c)
    ensures Holds(data[HARD_KEY := c.printHard(hard)], c, d.(hard := Some(hard)))
  {
    hide EntryKey;
    HardKeyOutside();
    forall i | i in d.ents ensures EntryKey(i) != HARD_KEY {
      EntryKeyInRange(i);
    }
  }

  lemma EntryPutHolds(data: Store, c: Codec, d: Disk, e: Entry)
    requires Holds(data, c, d) && Invertible(c) && Index64(e.index)
    ensures Holds(data[EntryKey(e.index) := c.printEntry(e)], c, d.(ents := d.ents[e.index := e]))
  {
    hide EntryKey, Index64;
    EntryKeyInRange(e.index);
    var after := data[EntryKey(e.index) := c.printEntry(e)];
    var ents := d.ents[e.index := e];
    forall i | i in ents ensures HoldsEntry(after, c, i, ents[i]) {
      if i != e.index {
        assert HoldsEntry(data, c, i, d.ents[i]);
        EntryKeysOrdered(i, e.index);
      }
    }
    forall k | k in after && LOG_START <= k ensures exists i :: i in ents && k == EntryKey(i) {
      if k == EntryKey(e.index) {
        assert e.index in ents;
      } else {
        var i :| i in d.ents && k == EntryKey(i);
        assert i in ents;
      }
    }
  }

  lemma {:induction false} EntryPutsHold(data: Store, c: Codec, d: Disk, es: seq<Entry>)
    requires Holds(data, c, d) && Invertible(c) && forall e | e in es :: Index64(e.index)
    ensures Holds(PutAll(data, EntryWrites(es, c)), c, d.(ents := StoreAll(d.ents, es)))
    decreases |es|
  {
    hide Holds, Invertible, EntryKey, Index64;
    if es != [] {
      EntryPutHolds(data, c, d, es[0]);
      assert EntryWrites(es, c)[1..] == EntryWrites(es[1..], c);
      EntryPutsHold(data[EntryKey(es[0].index) := c.printEntry(es[0])], c, d.(ents := d.ents[es[0].index := es[0]]), es[1..]);
    }
  }

  /** After any number of a save's writes, the map holds that part of the save. */
  lemma PartHolds(data: Store, c: Codec, d: Disk, hard: HardState, es: seq<Entry>, writes: nat)
    requires Holds(data, c, d) && Invertible(c) && (forall e | e in es :: Index64(e.index)) && writes <= |es| + 1
    ensures Holds(PutAll(data, Writes(hard, es, c)[..writes]), c, SavedPart(d, hard, es, writes))
  {
    hide Holds, Invertible, EntryKey, Index64, StoreAll;
    if writes == 0 {
      assert Writes(hard, es, c)[..0] == [];
    } else {
      HardPutHolds(data, c, d, hard);
      EntryPutsHold(data[HARD_KEY := c.printHard(hard)], c, d.(hard := Some(hard)), es[..writes - 1]);
      assert Writes(hard, es, c)[..writes] == [Record(HARD_KEY, c.printHard(hard))] + EntryWrites(es[..writes - 1], c);
      assert ([Record(HARD_KEY, c.printHard(hard))] + EntryWrites(es[..writes - 1], c))[1..] == EntryWrites(es[..writes - 1], c);
    }
  }
}
