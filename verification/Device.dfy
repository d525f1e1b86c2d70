/** The two files as a crash would leave them, and every state they have passed through. */
module Devices {
  import opened Bytes

  /** The durable contents of the data file, block by block, and of the log. */
  datatype Disk = Disk(blocks: seq<Bytes>, log: Bytes)

  /**
   * A state a crash could have left. `exposed` marks the blocks of a checkpoint that are durable while neither the
   * meta page nor the log describes them yet, where a recovery would not replay on them safely.
   */
  datatype Moment = Moment(disk: Disk, exposed: bool)

  /** A log append after its first `was` bytes, byte by byte. With its last byte the exposure ends. */
  function Cuts(blocks: seq<Bytes>, log: Bytes, was: nat, exposed: bool): (r: seq<Moment>)
    requires was <= |log|
    ensures |r| == |log| - was
    ensures forall k :: was < k <= |log| ==> r[k - was - 1] == Moment(Disk(blocks, log[..k]), exposed && k < |log|)
  {
    seq(|log| - was, i requires 0 <= i < |log| - was =>
      Moment(Disk(blocks, log[..was + 1 + i]), exposed && was + 1 + i < |log|))
  }

  /** What one durable step can do: sync the blocks, append one byte to the log, or keep a stretch of the log. */
  ghost predicate Follows(a: Disk, b: Disk)
  {
    || a.log == b.log
    || (a.blocks == b.blocks && a.log < b.log && |b.log| == |a.log| + 1)
    || (a.blocks == b.blocks && (b.log <= a.log || IsEnd(b.log, a.log)))
  }

  ghost predicate IsEnd(a: Bytes, b: Bytes) { |a| <= |b| && a == b[|b| - |a|..] }

  ghost predicate Chained(history: seq<Moment>)
  {
    forall i :: 0 < i < |history| ==> Follows(history[i - 1].disk, history[i].disk)
  }

  /** The history ends with `now`, and no state on the way is missing. */
  ghost predicate Recorded(history: seq<Moment>, now: Disk)
  {
    history != [] && history[|history| - 1].disk == now && Chained(history)
  }

  lemma OneMoreStep(history: seq<Moment>, now: Disk, x: Moment)
    requires Recorded(history, now) && Follows(now, x.disk)
    ensures Recorded(history + [x], x.disk)
  {
    hide Follows;
  }

  lemma AppendSteps(history: seq<Moment>, blocks: seq<Bytes>, log: Bytes, data: Bytes, exposed: bool)
    requires Recorded(history, Disk(blocks, log))
    ensures Recorded(history + Cuts(blocks, log + data, |log|, exposed), Disk(blocks, log + data))
  {
    var full := log + data;
    var cuts := Cuts(blocks, full, |log|, exposed);
    if data == [] {
      assert full == log && history + cuts == history;
    } else {
      forall i | 0 <= i < |cuts|
        ensures cuts[i].disk == Disk(blocks, full[..|log| + 1 + i])
      {
        assert cuts[i] == cuts[(|log| + 1 + i) - |log| - 1];
      }
      assert full[..|full|] == full && full[..|log|] == log;
      forall i | 0 < i < |history + cuts| ensures Follows((history + cuts)[i - 1].disk, (history + cuts)[i].disk) {
        if i >= |history| {
          var k := |log| + (i - |history|);
          ByteMore(blocks, full, k);
        }
      }
    }
  }

  lemma ByteMore(blocks: seq<Bytes>, log: Bytes, k: nat)
    requires k < |log|
    ensures Follows(Disk(blocks, log[..k]), Disk(blocks, log[..k + 1]))
  {
  }

  class Device {
    var blocks: seq<Bytes>
    var log: Bytes
    /** Model only: the states since the running call began, oldest first. */
    var history: seq<Moment>
    /** Model only: a recovery would not replay safely on the durable blocks, which nothing durable describes yet. */
    var exposed: bool

    ghost predicate Valid()
      reads this
    {
      Recorded(history, Disk(blocks, log))
    }

    /** What a crash now would leave. */
    function Now(): Disk
      reads this
    {
      Disk(blocks, log)
    }

    constructor (disk: Disk)
      ensures Valid() && Now() == disk && history == [Moment(disk, false)] && !exposed
    {
      blocks, log, exposed := disk.blocks, disk.log, false;
      history := [Moment(disk, false)];
    }

    /** A call begins: what happened before is past. */
    method Forget()
      requires !exposed
      modifies this`history
      ensures Valid() && history == [Moment(Now(), false)]
    {
      history := [Moment(Now(), false)];
    }

    /** Says whether the blocks about to be synced are safe to recover from before anything durable describes them. */
    method Expose(b: bool)
      modifies this`exposed
      ensures exposed == b
    {
      exposed := b;
    }

    /** fsync of the data file: all its unsynced writes become durable together. */
    method SyncBlocks(file: seq<Bytes>)
      requires Valid()
      modifies this`blocks, this`history
      ensures Valid() && blocks == file && history == old(history) + [Moment(Disk(file, log), exposed)]
    {
      hide Recorded;
      OneMoreStep(history, Now(), Moment(Disk(file, log), exposed));
      blocks := file;
      history := history + [Moment(Disk(file, log), exposed)];
    }

    /** A write to the end of the log and its fsync: a crash may leave any byte prefix. */
    method AppendLog(data: Bytes)
      requires Valid()
      modifies this`log, this`history, this`exposed
      ensures Valid() && log == old(log) + data && !exposed
      ensures history == old(history) + Cuts(blocks, log, |old(log)|, old(exposed))
    {
      hide Recorded, Cuts;
      AppendSteps(history, blocks, log, data, exposed);
      history := history + Cuts(blocks, log + data, |log|, exposed);
      log, exposed := log + data, false;
    }

    /** The log cut off, or replaced through a rename, in one step. */
    method ReplaceLog(data: Bytes)
      requires Valid() && (data <= log || IsEnd(data, log))
      modifies this`log, this`history
      ensures Valid() && log == data && history == old(history) + [Moment(Disk(blocks, data), exposed)]
    {
      hide Recorded;
      OneMoreStep(history, Now(), Moment(Disk(blocks, data), exposed));
      log := data;
      history := history + [Moment(Disk(blocks, data), exposed)];
    }
  }
}
