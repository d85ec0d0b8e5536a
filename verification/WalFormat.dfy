/**
 The byte format of the write-ahead log: how one record is printed, how a file is parsed back, and
 that the two undo each other on every byte prefix a crash can leave.
 */
module WalFormat {
  import opened ByteStrings

  /** One key and its value. */
  datatype Record = Record(key: Bytes, value: Bytes)

  /** A 32-bit checksum. The checksum function itself is a parameter of everything below. */
  type Word = n: int | 0 <= n < 0x1_0000_0000
  type Checksum = Bytes -> Word

  // ---------- Printing ----------

  /** Key length, key, value. The key length keeps only its low 32 bits. */
  function Payload(r: Record): (p: Bytes) {
    BigEndian(|r.key|, 4) + r.key + r.value
  }

  /** Payload length (its low 32 bits), checksum, payload. */
  function Encode(r: Record, crc: Checksum): Bytes {
    BigEndian(|Payload(r)|, 4) + BigEndian(crc(Payload(r)), 4) + Payload(r)
  }

  function EncodeAll(rs: seq<Record>, crc: Checksum): Bytes {
    if rs == [] then [] else Encode(rs[0], crc) + EncodeAll(rs[1..], crc)
  }

  lemma EncodeAllCons(r: Record, rs: seq<Record>, crc: Checksum)
    ensures EncodeAll([r] + rs, crc) == Encode(r, crc) + EncodeAll(rs, crc)
  {
    assert ([r] + rs)[1..] == rs;
  }

  /** The payload fits its 32-bit length field. */
  predicate Small(r: Record) {
    4 + |r.key| + |r.value| < 0x1_0000_0000
  }

  predicate AllSmall(rs: seq<Record>) {
    forall i | 0 <= i < |rs| :: Small(rs[i])
  }

  // ---------- Parsing ----------

  /** How a replay ends: at the end of the file, at a half-written record, or at a bad record. */
  datatype Ending = Clean | Torn | Corrupt(error: string)

  /** The records read, the number of bytes they take, and how the replay ended. */
  datatype Parsed = Parsed(records: seq<Record>, keep: nat, ending: Ending)

  /** What the front of the file holds: a record and the bytes it takes, or the reason to stop. */
  datatype Front = Got(record: Record, size: nat) | Stop(ending: Ending)

  function ParseFront(data: Bytes, crc: Checksum): (f: Front)
    ensures f.Got? ==> 0 < f.size <= |data|
    ensures f == Stop(Clean) <==> data == []
  {
    if data == [] then Stop(Clean)
    else if |data| < 8 then Stop(Torn)
    else
      var n, sum := FromBigEndian(data[..4]), FromBigEndian(data[4..8]);
      if |data| - 8 < n then Stop(Torn)
      else
        var p := data[8..8 + n];
        if sum != crc(p) then Stop(Corrupt("storage: WAL checksum mismatch"))
        else if |p| < 4 then Stop(Corrupt("storage: WAL record too short"))
        else
          var k := FromBigEndian(p[..4]);
          if 4 + k > |p| then Stop(Corrupt("storage: WAL key length invalid"))
          else Got(Record(p[4..4 + k], p[4 + k..]), 8 + n)
  }

  function Parse(data: Bytes, crc: Checksum): (r: Parsed)
    ensures r.keep <= |data|
    ensures r.ending.Clean? ==> r.keep == |data|
  {
    match ParseFront(data, crc)
    case Stop(ending) => Parsed([], 0, ending)
    case Got(record, size) =>
      var rest := Parse(data[size..], crc);
      Parsed([record] + rest.records, size + rest.keep, rest.ending)
  }

  // ---------- Parsing what was printed ----------

  /** How many of the records lie wholly within the first `n` bytes of their printed file. */
  function WholeRecords(rs: seq<Record>, crc: Checksum, n: nat): (j: nat)
    ensures j <= |rs|
  {
    if rs == [] || n < |Encode(rs[0], crc)| then 0
    else 1 + WholeRecords(rs[1..], crc, n - |Encode(rs[0], crc)|)
  }

  /** That count is the one that fits while the next record does not. */
  lemma {:induction false} WholeRecordsExact(rs: seq<Record>, crc: Checksum, n: nat)
    ensures var j := WholeRecords(rs, crc, n);
            && |EncodeAll(rs[..j], crc)| <= n
            && (j < |rs| ==> n < |EncodeAll(rs[..j + 1], crc)|)
  {
    var j := WholeRecords(rs, crc, n);
    if rs != [] {
      if j == 0 {
        assert rs[..1] == [rs[0]] && rs[..1][1..] == [];
      } else {
        WholeRecordsExact(rs[1..], crc, n - |Encode(rs[0], crc)|);
        assert rs[..j] == [rs[0]] + rs[1..][..j - 1];
        assert j < |rs| ==> rs[..j + 1] == [rs[0]] + rs[1..][..j];
      }
    }
  }

  lemma Power256Of4()
    ensures Power256(4) == 0x1_0000_0000
  {
    assert Power256(1) == 256;
    assert Power256(2) == 0x1_0000;
    assert Power256(3) == 0x100_0000;
  }

  /** The header of a record too long for its length field still reads back, but as a shorter length. */
  lemma HeaderFields(r: Record, crc: Checksum, tail: Bytes)
    ensures var data, p := Encode(r, crc) + tail, Payload(r);
            && |data| >= 8 + |p|
            && data[..4] == BigEndian(|p|, 4)
            && FromBigEndian(data[4..8]) == crc(p)
            && (forall n | 0 <= n <= |p| :: data[8..8 + n] == p[..n])
            && data[8 + |p|..] == tail
  {
    var p := Payload(r);
    var data := Encode(r, crc) + tail;
    assert data[4..8] == BigEndian(crc(p), 4);
    Power256Of4();
    BigEndianRoundTrip(crc(p), 4);
  }

  /** The payload gives back the record when the key length fits its field. */
  lemma PayloadFields(r: Record)
    requires |r.key| < 0x1_0000_0000
    ensures var p, k := Payload(r), FromBigEndian(Payload(r)[..4]);
            k == |r.key| && 4 + k <= |p| && p[4..4 + k] == r.key && p[4 + k..] == r.value
  {
    var p := Payload(r);
    assert p[..4] == BigEndian(|r.key|, 4);
    Power256Of4();
    BigEndianRoundTrip(|r.key|, 4);
  }

  /** A small record at the front is read back. */
  lemma ParseRecord(r: Record, crc: Checksum, tail: Bytes)
    requires Small(r)
    ensures ParseFront(Encode(r, crc) + tail, crc) == Got(r, |Encode(r, crc)|)
    ensures (Encode(r, crc) + tail)[|Encode(r, crc)|..] == tail
  {
    HeaderFields(r, crc, tail);
    PayloadFields(r);
    Power256Of4();
    BigEndianRoundTrip(|Payload(r)|, 4);
    assert Payload(r)[..|Payload(r)|] == Payload(r);
  }

  /** Parsing goes on after it. */
  lemma ParseCons(r: Record, crc: Checksum, tail: Bytes)
    requires Small(r)
    ensures var rest := Parse(tail, crc);
            Parse(Encode(r, crc) + tail, crc) == Parsed([r] + rest.records, |Encode(r, crc)| + rest.keep, rest.ending)
  {
    ParseRecord(r, crc, tail);
  }

  /** A proper, non-empty prefix of a small record is a torn tail. */
  lemma ParsePartial(r: Record, crc: Checksum, n: nat)
    requires Small(r) && 0 < n < |Encode(r, crc)|
    ensures Parse(Encode(r, crc)[..n], crc) == Parsed([], 0, Torn)
  {
    if n >= 8 {
      var data := Encode(r, crc)[..n];
      HeaderFields(r, crc, []);
      assert Encode(r, crc) + [] == Encode(r, crc);
      assert data[..4] == BigEndian(|Payload(r)|, 4);
      Power256Of4();
      BigEndianRoundTrip(|Payload(r)|, 4);
    }
  }

  lemma {:induction false} EncodeAllAppend(rs: seq<Record>, ss: seq<Record>, crc: Checksum)
    ensures EncodeAll(rs + ss, crc) == EncodeAll(rs, crc) + EncodeAll(ss, crc)
  {
    if rs == [] {
      assert rs + ss == ss;
    } else {
      assert (rs + ss)[1..] == rs[1..] + ss;
      EncodeAllAppend(rs[1..], ss, crc);
    }
  }

  lemma EncodeAllPush(rs: seq<Record>, r: Record, crc: Checksum)
    ensures EncodeAll(rs + [r], crc) == EncodeAll(rs, crc) + Encode(r, crc)
  {
    EncodeAllAppend(rs, [r], crc);
    assert [r][1..] == [];
    assert EncodeAll([r], crc) == Encode(r, crc) + [];
  }

  lemma EncodeAllMonotone(rs: seq<Record>, i: nat, j: nat, crc: Checksum)
    requires i <= j <= |rs|
    ensures |EncodeAll(rs[..i], crc)| <= |EncodeAll(rs[..j], crc)|
    ensures i < j ==> |EncodeAll(rs[..i], crc)| < |EncodeAll(rs[..j], crc)|
  {
    assert rs[..j] == rs[..i] + rs[i..j];
    EncodeAllAppend(rs[..i], rs[i..j], crc);
  }

  lemma Regroup<T>(a: seq<T>, b: seq<T>, c: seq<T>)
    ensures a + b + c == a + (b + c)
  {
  }

  /** Replaying printed records followed by anything reads those records and goes on. */
  lemma {:induction false} ParseAppend(rs: seq<Record>, tail: Bytes, crc: Checksum)
    requires AllSmall(rs)
    ensures var rest := Parse(tail, crc);
            Parse(EncodeAll(rs, crc) + tail, crc) == Parsed(rs + rest.records, |EncodeAll(rs, crc)| + rest.keep, rest.ending)
  {
    if rs == [] {
      assert EncodeAll(rs, crc) + tail == tail;
      assert rs + Parse(tail, crc).records == Parse(tail, crc).records;
    } else {
      ParseAppend(rs[1..], tail, crc);
      ParseCons(rs[0], crc, EncodeAll(rs[1..], crc) + tail);
      Regroup(Encode(rs[0], crc), EncodeAll(rs[1..], crc), tail);
      Regroup([rs[0]], rs[1..], Parse(tail, crc).records);
      assert [rs[0]] + rs[1..] == rs;
    }
  }

  /** The whole file replays to all its records. */
  lemma ParseAll(rs: seq<Record>, crc: Checksum)
    requires AllSmall(rs)
    ensures Parse(EncodeAll(rs, crc), crc) == Parsed(rs, |EncodeAll(rs, crc)|, Clean)
  {
    ParseAppend(rs, [], crc);
    assert EncodeAll(rs, crc) + [] == EncodeAll(rs, crc);
    assert Parse([], crc) == Parsed([], 0, Clean);
    assert rs + [] == rs;
  }

  /** The first `n` bytes are whole records and then a proper prefix of the next one. */
  lemma SplitPrefix(rs: seq<Record>, crc: Checksum, n: nat) returns (torn: Bytes)
    requires AllSmall(rs) && n <= |EncodeAll(rs, crc)|
    ensures var j := WholeRecords(rs, crc, n); EncodeAll(rs, crc)[..n] == EncodeAll(rs[..j], crc) + torn
    ensures Parse(torn, crc) == Parsed([], 0, if torn == [] then Clean else Torn)
  {
    var j := WholeRecords(rs, crc, n);
    WholeRecordsExact(rs, crc, n);
    var whole := EncodeAll(rs[..j], crc);
    var m := n - |whole|;
    assert rs == rs[..j] + rs[j..];
    EncodeAllAppend(rs[..j], rs[j..], crc);
    TakeAfter(whole, EncodeAll(rs[j..], crc), n);
    torn := EncodeAll(rs[j..], crc)[..m];
    if m > 0 {
      TornNext(rs, j, crc, m);
    }
  }

  /** Less than the next record is torn. */
  lemma TornNext(rs: seq<Record>, j: nat, crc: Checksum, m: nat)
    requires AllSmall(rs) && j < |rs| && 0 < m
    requires |EncodeAll(rs[..j], crc)| + m < |EncodeAll(rs[..j + 1], crc)|
    ensures m <= |EncodeAll(rs[j..], crc)| && Parse(EncodeAll(rs[j..], crc)[..m], crc) == Parsed([], 0, Torn)
  {
    hide Parse, Encode;
    assert rs[..j + 1] == rs[..j] + [rs[j]];
    EncodeAllPush(rs[..j], rs[j], crc);
    assert EncodeAll(rs[j..], crc) == Encode(rs[j], crc) + EncodeAll(rs[j + 1..], crc) by {
      assert rs[j..][1..] == rs[j + 1..];
    }
    assert EncodeAll(rs[j..], crc)[..m] == Encode(rs[j], crc)[..m];
    ParsePartial(rs[j], crc, m);
  }

  /**
   Replaying any byte prefix of a file of appended records returns exactly the wholly contained
   records, never reports corruption, and keeps the bytes up to the last record boundary.
   */
  lemma ParsePrefix(rs: seq<Record>, crc: Checksum, n: nat)
    requires AllSmall(rs) && n <= |EncodeAll(rs, crc)|
    ensures var j, r := WholeRecords(rs, crc, n), Parse(EncodeAll(rs, crc)[..n], crc);
            && r.records == rs[..j]
            && EncodeAll(rs, crc)[..r.keep] == EncodeAll(rs[..j], crc)
            && r.ending == if r.keep == n then Clean else Torn
  {
    var j := WholeRecords(rs, crc, n);
    var torn := SplitPrefix(rs, crc, n);
    ParseAppend(rs[..j], torn, crc);
    TakeFront(EncodeAll(rs, crc), EncodeAll(rs[..j], crc), torn, n);
    assert rs[..j] + [] == rs[..j];
  }

  lemma TakeAfter(e: Bytes, tail: Bytes, n: nat)
    requires |e| <= n <= |e| + |tail|
    ensures (e + tail)[..n] == e + tail[..n - |e|]
  {
  }

  lemma TakeFront(file: Bytes, whole: Bytes, torn: Bytes, n: nat)
    requires n <= |file| && file[..n] == whole + torn
    ensures file[..|whole|] == whole
  {
    assert file[..|whole|] == file[..n][..|whole|];
  }

  /** After a torn tail is dropped, the records appended later replay after the surviving ones. */
  lemma AppendAfterCrash(rs: seq<Record>, crc: Checksum, n: nat, more: seq<Record>)
    requires AllSmall(rs) && AllSmall(more) && n <= |EncodeAll(rs, crc)|
    ensures var r := Parse(EncodeAll(rs, crc)[..n], crc);
            var file := EncodeAll(rs, crc)[..n][..r.keep] + EncodeAll(more, crc);
            Parse(file, crc) == Parsed(rs[..WholeRecords(rs, crc, n)] + more, |file|, Clean)
  {
    var j := WholeRecords(rs, crc, n);
    ParsePrefix(rs, crc, n);
    var keep := Parse(EncodeAll(rs, crc)[..n], crc).keep;
    assert EncodeAll(rs, crc)[..n][..keep] == EncodeAll(rs, crc)[..keep];
    EncodeAllAppend(rs[..j], more, crc);
    ParseAll(rs[..j] + more, crc);
  }

  // ---------- Printing what was parsed ----------

  /** A record read from the front of a file is printed as the bytes it was read from. */
  lemma PrintFront(data: Bytes, crc: Checksum)
    requires ParseFront(data, crc).Got?
    ensures var f := ParseFront(data, crc); data[..f.size] == Encode(f.record, crc)
  {
    var n := FromBigEndian(data[..4]);
    var p := data[8..8 + n];
    var k := FromBigEndian(p[..4]);
    FromBigEndianRoundTrip(data[..4]);
    FromBigEndianRoundTrip(data[4..8]);
    FromBigEndianRoundTrip(p[..4]);
    assert p == p[..4] + p[4..4 + k] + p[4 + k..];
    assert data[..8 + n] == data[..4] + data[4..8] + p;
  }

  lemma TakeMore(data: Bytes, m: nat, n: nat)
    requires m + n <= |data|
    ensures data[..m + n] == data[..m] + data[m..][..n]
  {
  }

  /** For any file at all, printing the records that were read gives back the bytes they were read from. */
  lemma {:induction false} PrintParsed(data: Bytes, crc: Checksum)
    ensures EncodeAll(Parse(data, crc).records, crc) == data[..Parse(data, crc).keep]
    decreases |data|
  {
    var f := ParseFront(data, crc);
    if f.Got? {
      var tail := data[f.size..];
      var rest := Parse(tail, crc);
      PrintFront(data, crc);
      PrintParsed(tail, crc);
      EncodeAllCons(f.record, rest.records, crc);
      TakeMore(data, f.size, rest.keep);
    }
  }

  // ---------- What a replay makes of any file ----------

  /** The file begins with a header and as many bytes as the header announces. */
  predicate WholeFront(data: Bytes) {
    |data| >= 8 && |data| - 8 >= FromBigEndian(data[..4])
  }

  /**
   A record is read from the front of a file if and only if the file begins with what that record prints. Otherwise
   nothing is left, or less than the header announces is left and the tail is torn, or the file is corrupt.
   */
  lemma FrontExactly(data: Bytes, crc: Checksum)
    ensures var f := ParseFront(data, crc);
      && (f == Stop(Clean) <==> data == [])
      && (f == Stop(Torn) <==> data != [] && !WholeFront(data))
      && (f.Got? <==> exists r :: Small(r) && Encode(r, crc) <= data)
      && (forall r | Small(r) && Encode(r, crc) <= data :: f == Got(r, |Encode(r, crc)|))
      && (f == Stop(Corrupt("storage: WAL checksum mismatch")) <==>
            WholeFront(data) && FromBigEndian(data[4..8]) != crc(data[8..8 + FromBigEndian(data[..4])]))
  {
    var f := ParseFront(data, crc);
    forall r | Small(r) && Encode(r, crc) <= data ensures f == Got(r, |Encode(r, crc)|) {
      assert data == Encode(r, crc) + data[|Encode(r, crc)|..];
      ParseRecord(r, crc, data[|Encode(r, crc)|..]);
    }
    if f.Got? {
      PrintFront(data, crc);
      FrontIsSmall(data, crc);
      assert Encode(f.record, crc) <= data;
    }
  }

  lemma FrontIsSmall(data: Bytes, crc: Checksum)
    requires ParseFront(data, crc).Got?
    ensures Small(ParseFront(data, crc).record)
  {
    Power256Of4();
    FromBigEndianBound(data[..4]);
  }

  /** A replay reads records as long as it can: it ends the way the front of what it did not read says. */
  lemma {:induction false} ReplayStops(data: Bytes, crc: Checksum)
    ensures var p := Parse(data, crc); ParseFront(data[p.keep..], crc) == Stop(p.ending)
    decreases |data|
  {
    hide ParseFront;
    var f := ParseFront(data, crc);
    if f.Got? {
      ReplayStops(data[f.size..], crc);
      var rest := Parse(data[f.size..], crc);
      assert data[f.size..][rest.keep..] == data[f.size + rest.keep..];
    } else {
      assert data[0..] == data;
    }
  }

  // ---------- Exactly when a record survives ----------

  /**
   One record replays to itself exactly when its payload is shorter than 2^32 bytes. A longer one is
   written with a cut-off length field, so what is read back is never that record.
   */
  lemma RoundTripExactly(r: Record, crc: Checksum)
    ensures Parse(Encode(r, crc), crc) == Parsed([r], |Encode(r, crc)|, Clean) <==> Small(r)
  {
    assert Encode(r, crc) + [] == Encode(r, crc);
    if Small(r) {
      ParseRecord(r, crc, []);
      assert Parse([], crc) == Parsed([], 0, Clean);
    } else {
      var p := Payload(r);
      HeaderFields(r, crc, []);
      Power256Of4();
      BigEndianTruncates(|p|, 4);
      var f := ParseFront(Encode(r, crc), crc);
      if f.Got? {
        assert |f.record.key| + |f.record.value| == f.size - 12 < |p| - 4 == |r.key| + |r.value|;
      }
    }
  }
}
