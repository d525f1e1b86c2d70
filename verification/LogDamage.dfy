/** What an iteration over a damaged log delivers: broken records at its end are dropped, anywhere else they are an error. */
module LogDamage {
  import opened Bytes
  import opened Entities
  import opened WalCodec
  import opened Checksums

  /** Nothing but whole records with a wrong checksum between two positions. */
  ghost predicate BrokenRun(file: Bytes, pos: nat, end: nat)
    requires pos <= |file|
    decreases |file| - pos
  {
    pos == end || (DecodedNext(file, pos).Broken? && BrokenRun(file, DecodedNext(file, pos).next, end))
  }

  lemma {:induction false} RunForward(file: Bytes, pos: nat, end: nat)
    requires pos <= |file| && BrokenRun(file, pos, end)
    ensures pos <= end <= |file|
    decreases |file| - pos
  {
    if pos != end { RunForward(file, DecodedNext(file, pos).next, end); }
  }

  /** A run of broken records is passed over, but not forgotten. */
  lemma {:induction false} IterateBroken(file: Bytes, pos: nat, lastLsn: nat, broken: bool, good: nat, end: nat)
    requires pos <= |file| && BrokenRun(file, pos, end)
    ensures pos <= end <= |file|
    ensures Iterate(file, pos, lastLsn, broken, good) == Iterate(file, end, lastLsn, broken || pos < end, good)
    decreases |file| - pos
  {
    hide DecodedNext;
    RunForward(file, pos, end);
    if pos != end {
      var next := DecodedNext(file, pos).next;
      NextForward(file, pos);
      IterateBroken(file, next, lastLsn, true, good, end);
    }
  }

  lemma NextForward(file: Bytes, pos: nat)
    requires pos <= |file| && DecodedNext(file, pos).Broken?
    ensures pos < DecodedNext(file, pos).next <= |file|
  {
  }

  /** From the start of a file: good records, and then whatever is there. */
  lemma FromStart(recs: seq<Record>, rest: Bytes)
    requires GoodLog(recs)
    ensures var file, end := EncodedLog(recs) + rest, |EncodedLog(recs)|;
      var after := Iterate(file, end, LastLsn(recs), false, end);
      Iterate(file, 0, 0, false, 0) == Delivery(recs + after.records, after.good, after.corrupted)
  {
    hide *;
    NoRecords();
    assert [] + recs == recs;
    IterateGood([], recs, rest);
    assert [] + EncodedLog(recs) + rest == EncodedLog(recs) + rest;
  }

  /** Broken records followed by a readable one: the iteration raises, after the good records. */
  lemma BrokenThenReadable(recs: seq<Record>, rest: Bytes, end: nat)
    requires GoodLog(recs) && |EncodedLog(recs)| < end
    requires BrokenRun(EncodedLog(recs) + rest, |EncodedLog(recs)|, end)
    requires end <= |EncodedLog(recs) + rest| && DecodedNext(EncodedLog(recs) + rest, end).Found?
    ensures Iterate(EncodedLog(recs) + rest, 0, 0, false, 0) == Delivery(recs, |EncodedLog(recs)|, true)
  {
    hide DecodedNext, EncodedLog, GoodLog, LastLsn, BrokenRun;
    var file, pos := EncodedLog(recs) + rest, |EncodedLog(recs)|;
    FromStart(recs, rest);
    IterateBroken(file, pos, LastLsn(recs), false, pos, end);
    assert recs + [] == recs;
  }

  /** Broken records up to the end of the file: they are dropped, as a torn tail is. */
  lemma BrokenThenEnd(recs: seq<Record>, rest: Bytes, end: nat)
    requires GoodLog(recs) && BrokenRun(EncodedLog(recs) + rest, |EncodedLog(recs)|, end)
    requires end <= |EncodedLog(recs) + rest| && DecodedNext(EncodedLog(recs) + rest, end).EndOfFile?
    ensures Iterate(EncodedLog(recs) + rest, 0, 0, false, 0) == Delivery(recs, |EncodedLog(recs)|, false)
  {
    hide DecodedNext, EncodedLog, GoodLog, LastLsn, BrokenRun;
    var file, pos := EncodedLog(recs) + rest, |EncodedLog(recs)|;
    FromStart(recs, rest);
    IterateBroken(file, pos, LastLsn(recs), false, pos, end);
    assert recs + [] == recs;
  }

  /** A whole record that does not continue the LSNs: the iteration raises. */
  lemma GapIsCorruption(recs: seq<Record>, r: Record, rest: Bytes)
    requires GoodLog(recs) && recs != [] && RecordEncodable(r) && r.lsn != LastLsn(recs) + 1
    ensures Iterate(EncodedLog(recs) + (EncodedRecord(r) + rest), 0, 0, false, 0) == Delivery(recs, |EncodedLog(recs)|, true)
  {
    hide DecodedNext, EncodedLog, EncodedRecord, RecordEncodable, AllEncodable;
    var file, pos := EncodedLog(recs) + (EncodedRecord(r) + rest), |EncodedLog(recs)|;
    FromStart(recs, EncodedRecord(r) + rest);
    NextIsRecord(EncodedLog(recs), r, rest);
    assert file == EncodedLog(recs) + EncodedRecord(r) + rest;
    assert LastLsn(recs) != 0;
    assert recs + [] == recs;
  }

  /** Whatever the file holds, the LSNs delivered are consecutive; only after an LSN of 0 any other is accepted. */
  lemma {:induction false} DeliveredInSequence(file: Bytes, pos: nat, lastLsn: nat, broken: bool, good: nat)
    requires pos <= |file|
    ensures var out := Iterate(file, pos, lastLsn, broken, good).records;
      && (out != [] && lastLsn != 0 ==> out[0].lsn == lastLsn + 1)
      && forall i :: 0 < i < |out| && out[i - 1].lsn != 0 ==> out[i].lsn == out[i - 1].lsn + 1
    decreases |file| - pos
  {
    hide DecodedNext;
    match DecodedNext(file, pos)
    case EndOfFile =>
    case Invalid =>
    case Broken(next) =>
      NextForward(file, pos);
      DeliveredInSequence(file, next, lastLsn, true, good);
    case Found(r, next) =>
      FoundForward(file, pos);
      if !broken && (lastLsn == 0 || r.lsn == lastLsn + 1) {
        DeliveredInSequence(file, next, r.lsn, false, next);
        var rest := Iterate(file, next, r.lsn, false, next).records;
        assert Iterate(file, pos, lastLsn, broken, good).records == [r] + rest;
      }
  }

  lemma FoundForward(file: Bytes, pos: nat)
    requires pos <= |file| && DecodedNext(file, pos).Found?
    ensures pos < DecodedNext(file, pos).next <= |file|
  {
  }

  // ---- one damaged record ----

  /** Behind a damaged record, the next whole one or the end of the file. */
  lemma AfterDamage(pre: Bytes, bad: Bytes, later: seq<Record>, tail: Bytes)
    requires AllEncodable(later) && Torn(tail)
    ensures var file, end := pre + (bad + (EncodedLog(later) + tail)), |pre| + |bad|;
      if later == [] then DecodedNext(file, end) == EndOfFile else DecodedNext(file, end).Found?
  {
    hide *;
    var file := pre + (bad + (EncodedLog(later) + tail));
    if later == [] {
      NoRecords();
      NextIsTorn(pre + bad, tail);
      assert file == (pre + bad) + tail;
    } else {
      FirstRecord(later);
      NextIsRecord(pre + bad, later[0], EncodedLog(later[1..]) + tail);
      Regrouped(pre, bad, EncodedRecord(later[0]), EncodedLog(later[1..]), tail);
    }
  }

  lemma Regrouped(a: Bytes, b: Bytes, c: Bytes, d: Bytes, e: Bytes)
    ensures a + (b + ((c + d) + e)) == (a + b) + c + (d + e)
  {
  }

  lemma FirstRecord(recs: seq<Record>)
    requires AllEncodable(recs) && recs != []
    ensures EncodedLog(recs) == EncodedRecord(recs[0]) + EncodedLog(recs[1..]) && RecordEncodable(recs[0])
  {
    hide EncodedRecord, RecordEncodable;
  }

  /**
   * A log in which one record has been damaged behind its length prefix delivers the records before it. It raises
   * exactly when another whole record follows; a damaged last record is dropped like a torn tail.
   */
  lemma DamagedLog(recs: seq<Record>, k: nat, bad: Bytes, at: nat, n: nat, tail: Bytes)
    requires GoodLog(recs) && k < |recs| && Torn(tail)
    requires Damaged(EncodedRecord(recs[k]), bad, at, n) && 4 <= at && (at + n <= |bad| - 4 || at >= |bad| - 4)
    ensures Iterate(EncodedLog(recs[..k]) + (bad + (EncodedLog(recs[k + 1..]) + tail)), 0, 0, false, 0)
         == Delivery(recs[..k], |EncodedLog(recs[..k])|, k + 1 < |recs|)
  {
    hide DecodedNext, EncodedRecord, RecordEncodable, EncodedLog, Torn, Damaged;
    var pre, later := EncodedLog(recs[..k]), recs[k + 1..];
    var rest := bad + (EncodedLog(later) + tail);
    var file, end := pre + rest, |pre| + |bad|;
    GoodLogPrefix(recs, k);
    DamagedIsBroken(pre, recs[k], bad, at, n, EncodedLog(later) + tail);
    assert file == pre + bad + (EncodedLog(later) + tail);
    assert BrokenRun(file, end, end);
    DamageIsLong(recs[k], bad, at, n);
    assert BrokenRun(file, |pre|, end);
    AfterDamage(pre, bad, later, tail);
    if later == [] {
      BrokenThenEnd(recs[..k], rest, end);
    } else {
      BrokenThenReadable(recs[..k], rest, end);
    }
  }

  lemma DamageIsLong(r: Record, bad: Bytes, at: nat, n: nat)
    requires Damaged(EncodedRecord(r), bad, at, n)
    ensures |bad| > 0
  {
    hide EncodedRecord;
  }
}
