/** The write-ahead log: append, iterate, cut the torn tail, rotate. */
module Logging {
  import opened Bytes
  import opened Entities
  import opened WalCodec
  import opened Devices

  datatype Delivered =
    | Next(record: Record)
    | Finished
    | Corrupted

  /** One pass over the log file: the generator `_iter_records` with its local variables. */
  class RecordReader {
    const file: Bytes
    var pos: nat
    var lastLsn: nat
    var broken: bool
    /** Position after the last record delivered. */
    var good: nat

    constructor (file: Bytes)
      ensures this.file == file && pos == 0 && lastLsn == 0 && !broken && good == 0
    {
      this.file, pos, lastLsn, broken, good := file, 0, 0, false, 0;
    }

    /** What the pass still delivers. */
    ghost function Rest(): Delivery
      requires pos <= |file|
      reads this
    {
      Iterate(file, pos, lastLsn, broken, good)
    }

    method Advance() returns (d: Delivered)
      requires pos <= |file|
      modifies this
      ensures pos <= |file|
      ensures match d
              case Next(r) => old(Rest()) == Delivery([r] + Rest().records, Rest().good, Rest().corrupted)
              case Finished => old(Rest()) == Delivery([], good, false)
              case Corrupted => old(Rest()) == Delivery([], good, true)
      ensures d.Next? ==> good == pos > old(pos) && lastLsn == d.record.lsn && !broken
      ensures !d.Next? ==> good == old(good)
    {
      hide DecodedNext;
      while true
        invariant pos <= |file| && Rest() == old(Rest()) && old(pos) <= pos && good == old(good)
        decreases |file| - pos
      {
        match DecodedNext(file, pos)
        case EndOfFile => return Finished;
        case Broken(next) => pos, broken := next, true;
        case Invalid => return Corrupted;
        case Found(r, next) =>
          if broken || (lastLsn != 0 && r.lsn != lastLsn + 1) { return Corrupted; }
          pos, lastLsn, good := next, r.lsn, next;
          return Next(r);
      }
    }
  }

  /** The records with LSN at least `lsn`. */
  function Since(recs: seq<Record>, lsn: nat): seq<Record>
  {
    if recs == [] then [] else (if recs[0].lsn >= lsn then [recs[0]] else []) + Since(recs[1..], lsn)
  }

  lemma {:induction false} SinceMore(recs: seq<Record>, r: Record, lsn: nat)
    ensures Since(recs + [r], lsn) == Since(recs, lsn) + (if r.lsn >= lsn then [r] else [])
  {
    if recs == [] {
      assert [r][1..] == [];
    } else {
      assert (recs + [r])[1..] == recs[1..] + [r];
      SinceMore(recs[1..], r, lsn);
    }
  }

  /** In a contiguous log the records from some LSN on are a suffix. */
  lemma {:induction false} SinceIsSuffix(recs: seq<Record>, lsn: nat) returns (i: nat)
    requires Contiguous(recs)
    ensures i <= |recs| && Since(recs, lsn) == recs[i..]
    ensures forall j :: 0 <= j < |recs| ==> (recs[j].lsn >= lsn <==> j >= i)
  {
    if recs == [] {
      i := 0;
    } else if recs[0].lsn >= lsn {
      i := 0;
      AllSince(recs, lsn);
    } else {
      var rest := recs[1..];
      assert forall j :: 0 <= j < |rest| ==> rest[j] == recs[j + 1];
      var k := SinceIsSuffix(rest, lsn);
      i := k + 1;
      forall j | 0 <= j < |recs| ensures recs[j].lsn >= lsn <==> j >= i {
        if j > 0 { assert rest[j - 1] == recs[j]; }
      }
    }
  }

  lemma {:induction false} AllSince(recs: seq<Record>, lsn: nat)
    requires forall i :: 0 <= i < |recs| ==> recs[i].lsn >= lsn
    ensures Since(recs, lsn) == recs
  {
    if recs != [] { AllSince(recs[1..], lsn); }
  }

  lemma GoodLogSuffix(recs: seq<Record>, i: nat)
    requires GoodLog(recs) && i <= |recs|
    ensures GoodLog(recs[i..]) && (i < |recs| ==> LastLsn(recs[i..]) == LastLsn(recs))
  {
    hide RecordEncodable;
  }

  /** Dropping the records before record `i` keeps exactly the byte suffix that starts with it. */
  lemma SuffixBytes(recs: seq<Record>, i: nat)
    requires i <= |recs|
    ensures |EncodedLog(recs[..i])| <= |EncodedLog(recs)|
    ensures EncodedLog(recs[i..]) == EncodedLog(recs)[|EncodedLog(recs[..i])|..]
  {
    assert recs == recs[..i] + recs[i..];
    EncodedConcat(recs[..i], recs[i..]);
  }

  lemma ReadsWhole(recs: seq<Record>, tail: Bytes)
    requires GoodLog(recs) && Torn(tail)
    ensures Iterate(EncodedLog(recs) + tail, 0, 0, false, 0) == Delivery(recs, |EncodedLog(recs)|, false)
  {
    hide *;
    NoRecords();
    assert [] + recs == recs;
    IterateLog([], recs, tail);
    assert [] + EncodedLog(recs) + tail == EncodedLog(recs) + tail;
  }

  class Wal {
    const device: Device
    /** The file as this process reads it back. */
    var file: Bytes
    var currentLsn: nat
    /** The records of the file, and the torn record that may follow them until the first replay. */
    ghost var records: seq<Record>
    ghost var tail: Bytes

    ghost predicate Readable()
      reads this, device`log
    {
      GoodLog(records) && Torn(tail) && file == EncodedLog(records) + tail && device.log == file
    }

    /** Ready for appends. */
    ghost predicate Valid()
      reads this, device`log
    {
      Readable() && tail == [] && currentLsn == LastLsn(records)
    }

    /** Opening an existing file. */
    constructor (device: Device, ghost records: seq<Record>, ghost tail: Bytes)
      requires GoodLog(records) && Torn(tail) && device.log == EncodedLog(records) + tail
      ensures this.device == device && Readable() && currentLsn == 0 && this.records == records && this.tail == tail
    {
      this.device, file, currentLsn := device, device.log, 0;
      this.records, this.tail := records, tail;
    }

    /** Writes and fsyncs one record; false where `struct.pack` raises, before anything is written. */
    method Append(r: Record) returns (ok: bool)
      requires Valid() && device.Valid() && r.lsn == currentLsn + 1
      modifies this, device`log, device`history, device`exposed
      ensures Valid() && device.Valid()
      ensures ok <==> RecordEncodable(r)
      ensures ok ==> records == old(records) + [r] && currentLsn == r.lsn && file == old(file) + EncodedRecord(r)
      ensures !ok ==> records == old(records) && currentLsn == old(currentLsn) && file == old(file)
      ensures !ok ==> unchanged(device)
      ensures ok ==> device.history == old(device.history) + Cuts(device.blocks, file, |old(file)|, old(device.exposed)) && !device.exposed
    {
      hide EncodedRecord, RecordEncodable, GoodLog, EncodedLog, LastLsn, IsCut, Recorded, Cuts;
      ok := RecordEncodable(r);
      if ok {
        EncodedMore(records, r);
        GoodLogMore(records, r);
        currentLsn := r.lsn;
        file := file + EncodedRecord(r);
        device.AppendLog(EncodedRecord(r));
        records := records + [r];
      }
    }

    method AppendPut(key: Bytes, value: Bytes) returns (ok: bool, lsn: nat)
      requires Valid() && device.Valid()
      modifies this, device`log, device`history, device`exposed
      ensures Valid() && device.Valid() && lsn == old(currentLsn) + 1
      ensures ok <==> RecordEncodable(PutRecord(lsn, key, value))
      ensures ok ==> records == old(records) + [PutRecord(lsn, key, value)] && currentLsn == lsn
      ensures ok ==> file == old(file) + EncodedRecord(PutRecord(lsn, key, value))
      ensures !ok ==> records == old(records) && currentLsn == old(currentLsn) && file == old(file)
      ensures !ok ==> unchanged(device)
      ensures ok ==> device.history == old(device.history) + Cuts(device.blocks, file, |old(file)|, old(device.exposed)) && !device.exposed
    {
      hide *;
      lsn := currentLsn + 1;
      ok := Append(PutRecord(lsn, key, value));
    }

    method AppendDelete(key: Bytes) returns (ok: bool, lsn: nat)
      requires Valid() && device.Valid()
      modifies this, device`log, device`history, device`exposed
      ensures Valid() && device.Valid() && lsn == old(currentLsn) + 1
      ensures ok <==> RecordEncodable(DeleteRecord(lsn, key))
      ensures ok ==> records == old(records) + [DeleteRecord(lsn, key)] && currentLsn == lsn
      ensures ok ==> file == old(file) + EncodedRecord(DeleteRecord(lsn, key))
      ensures !ok ==> records == old(records) && currentLsn == old(currentLsn) && file == old(file)
      ensures !ok ==> unchanged(device)
      ensures ok ==> device.history == old(device.history) + Cuts(device.blocks, file, |old(file)|, old(device.exposed)) && !device.exposed
    {
      hide *;
      lsn := currentLsn + 1;
      ok := Append(DeleteRecord(lsn, key));
    }

    method AppendCheckpoint(root: nat, freelistHead: nat, next: nat) returns (ok: bool, lsn: nat)
      requires Valid() && device.Valid()
      modifies this, device`log, device`history, device`exposed
      ensures Valid() && device.Valid() && lsn == old(currentLsn) + 1
      ensures ok <==> RecordEncodable(CheckpointRecord(lsn, root, freelistHead, next))
      ensures ok ==> records == old(records) + [CheckpointRecord(lsn, root, freelistHead, next)] && currentLsn == lsn
      ensures ok ==> file == old(file) + EncodedRecord(CheckpointRecord(lsn, root, freelistHead, next))
      ensures !ok ==> records == old(records) && currentLsn == old(currentLsn) && file == old(file)
      ensures !ok ==> unchanged(device)
      ensures ok ==> device.history == old(device.history) + Cuts(device.blocks, file, |old(file)|, old(device.exposed)) && !device.exposed
    {
      hide *;
      lsn := currentLsn + 1;
      ok := Append(CheckpointRecord(lsn, root, freelistHead, next));
    }

    /** `replay` and `peek_records` go over the file with a reader of their own. */
    method Reader() returns (reader: RecordReader)
      requires Readable()
      ensures fresh(reader) && reader.file == file && reader.pos == 0 && reader.good == 0
      ensures reader.Rest() == Delivery(records, |EncodedLog(records)|, false)
    {
      hide Iterate, DecodedNext, EncodedLog, GoodLog, Torn;
      ReadsWhole(records, tail);
      reader := new RecordReader(file);
    }

    /** The end of `replay`: cuts whatever follows the last good record. */
    method TruncateTail(good: nat, lastLsn: nat)
      requires Readable() && device.Valid() && good == |EncodedLog(records)| && lastLsn == LastLsn(records)
      modifies this, device`log, device`history
      ensures device.Valid() && device.history == old(device.history) + [Moment(device.Now(), device.exposed)]
      ensures Valid() && records == old(records) && file == old(file)[..good] && currentLsn == lastLsn
    {
      hide EncodedRecord, EncodedLog, GoodLog, IsCut, Recorded;
      currentLsn := lastLsn;
      assert file[..good] == EncodedLog(records) + [];
      file, tail := file[..good], [];
      device.ReplaceLog(file);
    }

    /**
     * Rewrites the log with the records from `lsn` on, and renames the new file over the old one; the rename is
     * atomic, so there is no state in between. What is kept is a byte suffix of the old file.
     */
    method TruncateBefore(lsn: nat)
      requires Valid() && device.Valid()
      modifies this, device`log, device`history
      ensures device.Valid() && device.history == old(device.history) + [Moment(device.Now(), device.exposed)]
      ensures Readable() && tail == [] && currentLsn == old(currentLsn)
      ensures records == Since(old(records), lsn)
      ensures |file| <= |old(file)| && file == old(file)[|old(file)| - |file|..]
      ensures lsn <= currentLsn && records != [] ==> Valid()
    {
      hide EncodedRecord, RecordEncodable, Torn, Iterate, DecodedNext, EncodedLog, Contiguous, AllEncodable, Since, LastLsn, Recorded;
      var reader := Reader();
      var newFile := [];
      ghost var copied: seq<Record> := [];
      NoneSince(lsn);
      assert copied + reader.Rest().records == records;
      while true
        invariant reader.pos <= |reader.file| && reader.file == file && fresh(reader)
        invariant copied + reader.Rest().records == records && !reader.Rest().corrupted
        invariant newFile == EncodedLog(Since(copied, lsn))
        invariant unchanged(this) && unchanged(device)
        modifies reader
        decreases |reader.file| - reader.pos
      {
        ghost var before := reader.Rest();
        var d := reader.Advance();
        if d.Next? {
          SinceMore(copied, d.record, lsn);
          EncodedMore(Since(copied, lsn), d.record);
          assert before.records == [d.record] + reader.Rest().records;
          assert copied + [d.record] + reader.Rest().records == copied + before.records;
          if d.record.lsn >= lsn { newFile := newFile + EncodedRecord(d.record); } else { assert Since(copied, lsn) + [] == Since(copied, lsn); }
          copied := copied + [d.record];
        } else {
          assert copied == records;
          break;
        }
      }
      KeptLog(records, file, lsn);
      file := newFile;
      device.ReplaceLog(newFile);
      records := Since(records, lsn);
    }
  }

  lemma NoneSince(lsn: nat)
    ensures Since([], lsn) == [] && EncodedLog([]) == []
  {
  }

  lemma KeptLog(recs: seq<Record>, file: Bytes, lsn: nat)
    requires GoodLog(recs) && file == EncodedLog(recs)
    ensures var kept := Since(recs, lsn); var bytes := EncodedLog(kept);
      && GoodLog(kept) && |bytes| <= |file| && bytes == file[|file| - |bytes|..]
      && (kept != [] ==> LastLsn(kept) == LastLsn(recs))
  {
    hide *;
    GoodLogPrefix(recs, 0);
    IsContiguous(recs);
    var i := SinceIsSuffix(recs, lsn);
    GoodLogSuffix(recs, i);
    SuffixBytes(recs, i);
  }

  lemma IsContiguous(recs: seq<Record>)
    requires GoodLog(recs)
    ensures Contiguous(recs)
  {
  }
}
