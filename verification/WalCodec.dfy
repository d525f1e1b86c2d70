/** Log records as bytes: length prefix, LSN, operation tag, payload and checksum. */
module WalCodec {
  import opened Bytes
  import opened Entities
  import opened Codec
  import opened MetaCodec

  const PUT_TAG: byte := 1
  const DELETE_TAG: byte := 2
  const CHECKPOINT_TAG: byte := 3

  function Tag(r: Record): byte
  {
    match r
    case PutRecord(_, _, _) => PUT_TAG
    case DeleteRecord(_, _) => DELETE_TAG
    case CheckpointRecord(_, _, _, _) => CHECKPOINT_TAG
  }

  function Payload(r: Record): Bytes
  {
    match r
    case PutRecord(_, key, value) => LengthPrefixed(key) + LengthPrefixed(value)
    case DeleteRecord(_, key) => LengthPrefixed(key)
    case CheckpointRecord(_, root, freelistHead, next) => LE(root, 8) + LE(freelistHead, 8) + LE(next, 8)
  }

  /** What the length prefix says: everything after it. */
  function RecordLength(r: Record): nat { 9 + |Payload(r)| + 4 }

  /** `encode_wal_record`. */
  function EncodedRecord(r: Record): (b: Bytes)
    ensures |b| == 4 + RecordLength(r)
  {
    WithCrc(LE(RecordLength(r), 4) + LE(r.lsn, 8) + [Tag(r)] + Payload(r))
  }

  /** What `struct.pack` demands of a record's fields. */
  predicate RecordEncodable(r: Record)
  {
    && r.lsn < U64 && RecordLength(r) < U32
    && (r.CheckpointRecord? ==> r.root < U64 && r.freelistHead < U64 && r.next < U64)
  }

  datatype Decoded = BadChecksum | Malformed | Good(record: Record)

  /** `decode_wal_record`. */
  function DecodedRecord(data: Bytes): Decoded
    requires |data| >= 4
  {
    if !CrcMatches(data) then BadChecksum
    else if |data| < 13 then Malformed
    else DecodedFields(FromLE(data[4..12]), data[12], data)
  }

  function DecodedFields(lsn: nat, tag: byte, data: Bytes): Decoded
  {
    if tag == PUT_TAG then
      match ReadLE(data, 13, 4)
      case None => Malformed
      case Some(n) =>
        match ReadLE(data, 17 + n, 4)
        case None => Malformed
        case Some(m) => Good(PutRecord(lsn, Slice(data, 17, n), Slice(data, 21 + n, m)))
    else if tag == DELETE_TAG then
      match ReadPrefixed(data, 13)
      case None => Malformed
      case Some(key) => Good(DeleteRecord(lsn, key))
    else if tag == CHECKPOINT_TAG then
      match ReadLE(data, 29, 8)
      case None => Malformed
      case Some(next) => Good(CheckpointRecord(lsn, FromLE(data[13..21]), FromLE(data[21..29]), next))
    else Malformed
  }

  lemma PutReadsBack(lsn: nat, key: Bytes, value: Bytes, pre: Bytes, post: Bytes)
    requires |key| < U32 && |value| < U32 && |pre| == 13
    ensures DecodedFields(lsn, PUT_TAG, pre + (LengthPrefixed(key) + LengthPrefixed(value)) + post) == Good(PutRecord(lsn, key, value))
  {
    hide LE, FromLE;
    Widths();
    hide Pow256;
    var data := pre + (LengthPrefixed(key) + LengthPrefixed(value)) + post;
    ReadBack(pre, |key|, 4, key + LengthPrefixed(value) + post);
    assert data == pre + LE(|key|, 4) + (key + LengthPrefixed(value) + post);
    ReadBack(pre + LengthPrefixed(key), |value|, 4, value + post);
    assert data == (pre + LengthPrefixed(key)) + LE(|value|, 4) + (value + post);
    hide ReadLE;
    assert data[17..17 + |key|] == key;
    assert data[21 + |key|..21 + |key| + |value|] == value;
  }

  lemma DeleteReadsBack(lsn: nat, key: Bytes, pre: Bytes, post: Bytes)
    requires |key| < U32 && |pre| == 13
    ensures DecodedFields(lsn, DELETE_TAG, pre + LengthPrefixed(key) + post) == Good(DeleteRecord(lsn, key))
  {
    hide LE, FromLE;
    Widths();
    hide Pow256;
    var data := pre + LengthPrefixed(key) + post;
    ReadBack(pre, |key|, 4, key + post);
    assert data == pre + LE(|key|, 4) + (key + post);
    hide ReadLE;
    assert data[17..17 + |key|] == key;
  }

  lemma CheckpointReadsBack(lsn: nat, root: nat, freelistHead: nat, next: nat, pre: Bytes, post: Bytes)
    requires root < U64 && freelistHead < U64 && next < U64 && |pre| == 13
    ensures DecodedFields(lsn, CHECKPOINT_TAG, pre + (LE(root, 8) + LE(freelistHead, 8) + LE(next, 8)) + post)
         == Good(CheckpointRecord(lsn, root, freelistHead, next))
  {
    hide LE, FromLE, Pow256;
    Widths();
    var a, b, c := LE(root, 8), LE(freelistHead, 8), LE(next, 8);
    var data := pre + (a + b + c) + post;
    LERoundTrip(root, 8);
    LERoundTrip(freelistHead, 8);
    assert data[13..21] == a && data[21..29] == b;
    ReadBack(pre + a + b, next, 8, post);
    assert data == (pre + a + b) + c + post;
  }

  lemma FieldsReadBack(r: Record, pre: Bytes, post: Bytes)
    requires RecordEncodable(r) && |pre| == 13
    ensures DecodedFields(r.lsn, Tag(r), pre + Payload(r) + post) == Good(r)
  {
    hide LE, DecodedFields;
    match r
    case PutRecord(lsn, key, value) => PutReadsBack(lsn, key, value, pre, post);
    case DeleteRecord(lsn, key) => DeleteReadsBack(lsn, key, pre, post);
    case CheckpointRecord(lsn, root, freelistHead, next) => CheckpointReadsBack(lsn, root, freelistHead, next, pre, post);
  }

  /** Every record the engine writes reads back as itself. */
  lemma RecordRoundTrip(r: Record)
    requires RecordEncodable(r)
    ensures DecodedRecord(EncodedRecord(r)) == Good(r)
  {
    hide LE, FromLE, CrcMatches, Crc32, Payload, DecodedFields;
    Widths();
    hide Pow256;
    var pre := LE(RecordLength(r), 4) + LE(r.lsn, 8) + [Tag(r)];
    var data := EncodedRecord(r);
    WithCrcMatches(pre + Payload(r));
    var post := LE(Crc32(pre + Payload(r)), 4);
    assert data == pre + Payload(r) + post;
    LERoundTrip(r.lsn, 8);
    assert data[4..12] == LE(r.lsn, 8);
    FieldsReadBack(r, pre, post);
  }

  // ---- reading a log file ----

  datatype Step =
    | EndOfFile
    | Broken(next: nat)
    | Invalid
    | Found(record: Record, next: nat)

  /** `decode_next_wal_record_from_file` at position `pos`; `next` is where the file position is left. */
  function DecodedNext(file: Bytes, pos: nat): (s: Step)
    requires pos <= |file|
    ensures s.Broken? || s.Found? ==> pos < s.next <= |file|
  {
    if |file| - pos < 4 then EndOfFile else
      var length := FromLE(file[pos..pos + 4]);
      if |file| - pos - 4 < length then EndOfFile else
        match DecodedRecord(file[pos..pos + 4 + length])
        case BadChecksum => Broken(pos + 4 + length)
        case Malformed => Invalid
        case Good(r) => Found(r, pos + 4 + length)
  }

  /** A whole record in the file is read, whatever follows it. */
  lemma NextIsRecord(pre: Bytes, r: Record, post: Bytes)
    requires RecordEncodable(r)
    ensures DecodedNext(pre + EncodedRecord(r) + post, |pre|) == Found(r, |pre| + |EncodedRecord(r)|)
  {
    hide LE, FromLE, CrcMatches, Crc32, Payload, DecodedRecord;
    RecordRoundTrip(r);
    var enc := EncodedRecord(r);
    var file := pre + enc + post;
    LengthReads(r, enc);
    assert file[|pre|..|pre| + 4] == enc[..4];
    assert file[|pre|..|pre| + |enc|] == enc;
  }

  lemma LengthReads(r: Record, enc: Bytes)
    requires RecordEncodable(r) && enc == EncodedRecord(r)
    ensures |enc| == 4 + RecordLength(r) && FromLE(enc[..4]) == RecordLength(r)
  {
    hide LE, FromLE, Crc32, Payload;
    Widths();
    hide Pow256;
    LERoundTrip(RecordLength(r), 4);
    assert enc[..4] == LE(RecordLength(r), 4);
  }

  /** What a crash in the middle of an append leaves behind. */
  ghost predicate Torn(tail: Bytes)
  {
    tail == [] || exists r :: RecordEncodable(r) && IsCut(tail, r)
  }

  ghost predicate IsCut(tail: Bytes, r: Record)
  {
    |tail| < |EncodedRecord(r)| && tail == EncodedRecord(r)[..|tail|]
  }

  /** A torn record reads as the end of the file. */
  lemma NextIsTorn(pre: Bytes, tail: Bytes)
    requires Torn(tail)
    ensures DecodedNext(pre + tail, |pre|) == EndOfFile
  {
    hide LE, FromLE, CrcMatches, Crc32, Payload, DecodedRecord;
    if |tail| >= 4 {
      var r :| RecordEncodable(r) && IsCut(tail, r);
      LengthReads(r, EncodedRecord(r));
      assert tail[..4] == EncodedRecord(r)[..4];
      assert (pre + tail)[|pre|..|pre| + 4] == tail[..4];
    }
  }

  // ---- whole logs ----

  function EncodedLog(recs: seq<Record>): Bytes
  {
    if recs == [] then [] else EncodedRecord(recs[0]) + EncodedLog(recs[1..])
  }

  function LastLsn(recs: seq<Record>): nat
  {
    if recs == [] then 0 else recs[|recs| - 1].lsn
  }

  /** LSNs start at 1 or later and grow by one. */
  ghost predicate Contiguous(recs: seq<Record>)
  {
    forall i :: 0 <= i < |recs| ==> recs[i].lsn == recs[0].lsn + i && recs[i].lsn >= 1
  }

  ghost predicate AllEncodable(recs: seq<Record>)
  {
    forall i :: 0 <= i < |recs| ==> RecordEncodable(recs[i])
  }

  /** A log the engine writes. */
  ghost predicate GoodLog(recs: seq<Record>) { Contiguous(recs) && AllEncodable(recs) }

  lemma {:induction false} EncodedConcat(a: seq<Record>, b: seq<Record>)
    ensures EncodedLog(a + b) == EncodedLog(a) + EncodedLog(b)
  {
    hide EncodedRecord;
    if a == [] {
      assert a + b == b;
    } else {
      assert (a + b)[1..] == a[1..] + b;
      EncodedConcat(a[1..], b);
    }
  }

  lemma EncodedOne(r: Record)
    ensures EncodedLog([r]) == EncodedRecord(r)
  {
    hide EncodedRecord;
    assert [r][1..] == [];
    assert EncodedLog([]) == [];
  }

  lemma EncodedMore(recs: seq<Record>, r: Record)
    ensures EncodedLog(recs + [r]) == EncodedLog(recs) + EncodedRecord(r)
  {
    EncodedConcat(recs, [r]);
    EncodedOne(r);
  }

  lemma GoodLogMore(recs: seq<Record>, r: Record)
    requires GoodLog(recs) && RecordEncodable(r) && r.lsn == LastLsn(recs) + 1
    ensures GoodLog(recs + [r]) && LastLsn(recs + [r]) == r.lsn
  {
  }

  /**
   * What iterating over the log delivers from one of its states on: the records, the position after the last one
   * (`good` when there is none), and whether the iteration raises.
   */
  datatype Delivery = Delivery(records: seq<Record>, good: nat, corrupted: bool)

  /** `_iter_records`, from file position `pos` with `lastLsn` seen and possibly a broken record behind. */
  ghost function Iterate(file: Bytes, pos: nat, lastLsn: nat, broken: bool, good: nat): Delivery
    requires pos <= |file|
    decreases |file| - pos
  {
    match DecodedNext(file, pos)
    case EndOfFile => Delivery([], good, false)
    case Broken(next) => Iterate(file, next, lastLsn, true, good)
    case Invalid => Delivery([], good, true)
    case Found(r, next) =>
      if broken || (lastLsn != 0 && r.lsn != lastLsn + 1) then Delivery([], good, true)
      else
        var rest := Iterate(file, next, r.lsn, false, next);
        Delivery([r] + rest.records, rest.good, rest.corrupted)
  }

  lemma IterateFound(file: Bytes, pos: nat, lastLsn: nat, good: nat, r: Record, next: nat)
    requires pos <= |file| && DecodedNext(file, pos) == Found(r, next) && (lastLsn == 0 || r.lsn == lastLsn + 1)
    ensures next <= |file|
    ensures var rest := Iterate(file, next, r.lsn, false, next);
      Iterate(file, pos, lastLsn, false, good) == Delivery([r] + rest.records, rest.good, rest.corrupted)
  {
    hide DecodedNext;
  }

  lemma IterateEnd(file: Bytes, pos: nat, lastLsn: nat, broken: bool, good: nat)
    requires pos <= |file| && DecodedNext(file, pos) == EndOfFile
    ensures Iterate(file, pos, lastLsn, broken, good) == Delivery([], good, false)
  {
    hide DecodedNext;
  }

  lemma GoodLogAt(done: seq<Record>, recs: seq<Record>)
    requires GoodLog(done + recs) && recs != []
    ensures RecordEncodable(recs[0]) && (LastLsn(done) == 0 || recs[0].lsn == LastLsn(done) + 1)
    ensures LastLsn(done + [recs[0]]) == recs[0].lsn && (done + [recs[0]]) + recs[1..] == done + recs
  {
    hide RecordEncodable;
    assert recs[0] == (done + recs)[|done|];
    if done != [] { assert done[|done| - 1] == (done + recs)[|done| - 1]; }
  }

  /** Good records are delivered, and the iteration goes on behind them, whatever is there. */
  lemma {:induction false} IterateGood(done: seq<Record>, recs: seq<Record>, rest: Bytes)
    requires GoodLog(done + recs)
    ensures var file, pos, end := EncodedLog(done) + EncodedLog(recs) + rest, |EncodedLog(done)|, |EncodedLog(done + recs)|;
      && end <= |file|
      && var after := Iterate(file, end, LastLsn(done + recs), false, end);
         Iterate(file, pos, LastLsn(done), false, pos) == Delivery(recs + after.records, after.good, after.corrupted)
    decreases |recs|
  {
    hide *;
    var file, pos := EncodedLog(done) + EncodedLog(recs) + rest, |EncodedLog(done)|;
    if recs == [] {
      assert done + recs == done;
      NoRecords();
    } else {
      var r, more := recs[0], recs[1..];
      GoodLogAt(done, recs);
      EncodedConcat([r], more);
      EncodedOne(r);
      EncodedMore(done, r);
      assert recs == [r] + more;
      NextIsRecord(EncodedLog(done), r, EncodedLog(more) + rest);
      assert file == EncodedLog(done) + EncodedRecord(r) + (EncodedLog(more) + rest);
      IterateFound(file, pos, LastLsn(done), pos, r, pos + |EncodedRecord(r)|);
      assert file == EncodedLog(done + [r]) + EncodedLog(more) + rest;
      IterateGood(done + [r], more, rest);
    }
  }

  /** Iterating over a log with a torn tail delivers exactly its records. */
  lemma IterateLog(done: seq<Record>, recs: seq<Record>, tail: Bytes)
    requires GoodLog(done + recs) && Torn(tail)
    ensures var file, pos := EncodedLog(done) + EncodedLog(recs) + tail, |EncodedLog(done)|;
      Iterate(file, pos, LastLsn(done), false, pos) == Delivery(recs, |EncodedLog(done + recs)|, false)
  {
    hide *;
    var all := EncodedLog(done + recs);
    IterateGood(done, recs, tail);
    EncodedConcat(done, recs);
    NextIsTorn(all, tail);
    IterateEnd(all + tail, |all|, LastLsn(done + recs), false, |all|);
  }

  /** How many records lie wholly within the first `cut` bytes. */
  ghost function Whole(recs: seq<Record>, cut: nat): (n: nat)
    ensures n <= |recs|
  {
    if recs == [] || cut < |EncodedRecord(recs[0])| then 0
    else 1 + Whole(recs[1..], cut - |EncodedRecord(recs[0])|)
  }

  /** The records wholly inside a cut take up its first bytes; what follows them is torn. */
  lemma {:induction false} CutLog(recs: seq<Record>, cut: nat)
    requires AllEncodable(recs) && cut <= |EncodedLog(recs)|
    ensures var size := |EncodedLog(recs[..Whole(recs, cut)])|;
      && size <= cut && EncodedLog(recs)[..size] == EncodedLog(recs[..Whole(recs, cut)])
      && Torn(EncodedLog(recs)[size..cut])
  {
    hide *;
    var n, log := Whole(recs, cut), EncodedLog(recs);
    AboutWhole(recs, cut);
    NoRecords();
    if recs == [] {
      assert recs[..n] == [];
    } else if cut < |EncodedRecord(recs[0])| {
      assert recs[..n] == [];
      CutFirst(recs, cut);
    } else {
      var r, rest := recs[0], recs[1..];
      CutLog(rest, cut - |EncodedRecord(r)|);
      assert recs[..n] == [r] + rest[..n - 1];
      EncodedConcat([r], rest[..n - 1]);
      EncodedOne(r);
      CutShifted(EncodedRecord(r), EncodedLog(rest), |EncodedLog(rest[..n - 1])|, cut);
    }
  }

  lemma AboutWhole(recs: seq<Record>, cut: nat)
    requires AllEncodable(recs)
    ensures Whole(recs, cut) <= |recs| && (recs == [] ==> Torn(EncodedLog(recs)))
    ensures recs != [] ==> EncodedLog(recs) == EncodedRecord(recs[0]) + EncodedLog(recs[1..]) && AllEncodable(recs[1..])
    ensures recs != [] && cut < |EncodedRecord(recs[0])| ==> Whole(recs, cut) == 0
    ensures recs != [] && cut >= |EncodedRecord(recs[0])| ==> Whole(recs, cut) == 1 + Whole(recs[1..], cut - |EncodedRecord(recs[0])|)
  {
    hide EncodedRecord, RecordEncodable;
  }

  lemma CutFirst(recs: seq<Record>, cut: nat)
    requires AllEncodable(recs) && recs != [] && cut < |EncodedRecord(recs[0])|
    ensures cut <= |EncodedLog(recs)| && Torn(EncodedLog(recs)[0..cut])
  {
    hide EncodedRecord, RecordEncodable;
    assert IsCut(EncodedLog(recs)[0..cut], recs[0]);
    assert RecordEncodable(recs[0]);
  }

  lemma CutShifted(head: Bytes, log: Bytes, m: nat, cut: nat)
    requires m <= |log| && |head| + m <= cut <= |head| + |log|
    ensures (head + log)[|head| + m..cut] == log[m..cut - |head|]
    ensures (head + log)[..|head| + m] == head + log[..m]
  {
  }

  lemma GoodLogPrefix(recs: seq<Record>, n: nat)
    requires GoodLog(recs) && n <= |recs|
    ensures AllEncodable(recs) && GoodLog(recs[..n])
  {
    hide RecordEncodable;
  }

  lemma NoRecords()
    ensures EncodedLog([]) == [] && LastLsn([]) == 0
  {
  }

  /** The torn-tail law: a log cut at any byte offset delivers exactly the records wholly inside the cut. */
  lemma TornTail(recs: seq<Record>, cut: nat)
    requires GoodLog(recs) && cut <= |EncodedLog(recs)|
    ensures var kept := recs[..Whole(recs, cut)];
      && Iterate(EncodedLog(recs)[..cut], 0, 0, false, 0) == Delivery(kept, |EncodedLog(kept)|, false)
      && |EncodedLog(kept)| <= cut && EncodedLog(kept) == EncodedLog(recs)[..|EncodedLog(kept)|]
      && (|kept| < |recs| ==> cut < |EncodedLog(kept)| + |EncodedRecord(recs[|kept|])|)
  {
    hide *;
    var kept, log := recs[..Whole(recs, cut)], EncodedLog(recs);
    GoodLogPrefix(recs, Whole(recs, cut));
    CutLog(recs, cut);
    WholeIsMost(recs, cut);
    NoRecords();
    var tail := log[|EncodedLog(kept)|..cut];
    assert [] + kept == kept;
    IterateLog([], kept, tail);
    assert [] + EncodedLog(kept) + tail == log[..cut];
  }

  lemma {:induction false} WholeIsMost(recs: seq<Record>, cut: nat)
    ensures var n := Whole(recs, cut); n < |recs| ==> cut < |EncodedLog(recs[..n])| + |EncodedRecord(recs[n])|
  {
    hide EncodedRecord;
    var n := Whole(recs, cut);
    if recs != [] && cut >= |EncodedRecord(recs[0])| {
      WholeIsMost(recs[1..], cut - |EncodedRecord(recs[0])|);
      if n < |recs| { assert recs[..n][1..] == recs[1..][..n - 1]; }
    }
  }
}
