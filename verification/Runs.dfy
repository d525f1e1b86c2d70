/**
 * Whole runs of the database: calls, crashes at any point of any call, crashes during the recovery that follows, and
 * clean restarts. Every run ends in a store that its acknowledged calls explain.
 */
module Runs {
  import opened Bytes
  import opened Entities
  import opened Codec
  import opened Devices
  import opened Paging
  import opened TreeModel
  import opened TreeMaps
  import opened LeafChain
  import opened Durability
  import opened DurableSteps
  import opened Database

  datatype Op =
    | PutOp(key: Bytes, value: Bytes)
    | DeleteOp(key: Bytes)
    | CheckpointOp
    | RestartOp

  /**
   * A call that returns, or one the process does not survive: it dies at moment `at` of the call, and then at the
   * moments `again` of one recovery after the other, before a recovery gets through.
   */
  datatype Event =
    | Call(op: Op)
    | Crash(op: Op, at: nat, again: seq<nat>)

  /**
   * How far a run gets: to its end; to a pool too small for the tree; to a counter that no longer fits its field; to the
   * final assertion of the rebalancing; or to a crash while the blocks of a checkpoint are exposed.
   */
  datatype End = AllDone | PoolTooSmall | CountersExhausted | RebalanceStuck | CrashedExposed

  /** What the call does to the store. */
  ghost function Intended(s: Store, op: Op, pageSize: nat): Store
  {
    match op
    case PutOp(key, value) => if LeafRecordSize(key, value) > MaxLeafRecordSize(pageSize) then s else s[key := value]
    case DeleteOp(key) => s - {key}
    case CheckpointOp => s
    case RestartOp => s
  }

  /**
   * `final` is the result of the calls that returned, in order; a call the process died in has happened either
   * completely or not at all.
   */
  ghost predicate Explained(events: seq<Event>, pageSize: nat, final: Store)
  {
    if events == [] then final == map[] else
      var front, last := events[..|events| - 1], events[|events| - 1];
      || (last.Crash? && Explained(front, pageSize, final))
      || exists s :: Explained(front, pageSize, s) && final == Intended(s, last.op, pageSize)
  }

  predicate ShortKeys(op: Op, pageSize: nat)
  {
    op.PutOp? ==> ShortKey(op.key, pageSize)
  }

  lemma CallExplained(events: seq<Event>, n: nat, pageSize: nat, s: Store)
    requires n < |events| && Explained(events[..n], pageSize, s)
    ensures Explained(events[..n + 1], pageSize, Intended(s, events[n].op, pageSize))
    ensures events[n].Crash? ==> Explained(events[..n + 1], pageSize, s)
  {
    hide Intended;
    assert events[..n + 1][..n] == events[..n];
  }

  lemma StartExplained(pageSize: nat)
    ensures Explained([], pageSize, map[])
  {
  }

  lemma PickJudged(history: seq<Moment>, i: nat, c: Config, a: Store, b: Store)
    requires AllJudged(history, c, a, b) && i < |history| && !history[i].exposed
    ensures RecoversTo(history[i].disk, c, a) || RecoversTo(history[i].disk, c, b)
  {
    hide RecoversTo;
    assert Judged(history[i], c, a, b);
  }

  lemma HasMoments(history: seq<Moment>, now: Disk)
    requires Recorded(history, now)
    ensures history != []
  {
  }

  class Machine {
    const pageSize: nat
    const cacheCapacity: nat
    const checkpointWalSize: nat
    const checkpointDirtyRatio: real
    /** Keys are held to the bound under which rebalancing never gets stuck. */
    ghost const strict: bool
    /** No crash is survived that would leak a page id. */
    const tight: bool

    predicate Configured()
    {
      256 <= pageSize < U32 && cacheCapacity > 0 && 0.0 < checkpointDirtyRatio <= 1.0
    }

    ghost function Cfg(): Config { Config(pageSize, strict, tight) }

    ghost predicate Accepts(op: Op) { strict ==> ShortKeys(op, pageSize) }

    constructor (pageSize: nat, cacheCapacity: nat, checkpointWalSize: nat, checkpointDirtyRatio: real, ghost strict: bool, tight: bool)
      requires 256 <= pageSize < U32 && cacheCapacity > 0 && 0.0 < checkpointDirtyRatio <= 1.0
      ensures Configured() && this.pageSize == pageSize && this.strict == strict && this.tight == tight
    {
      this.pageSize, this.cacheCapacity, this.checkpointWalSize, this.checkpointDirtyRatio, this.strict, this.tight :=
        pageSize, cacheCapacity, checkpointWalSize, checkpointDirtyRatio, strict, tight;
    }

    /** A process of this machine, whatever has become of it. */
    ghost predicate Mine(db: DB)
      reads db.tree.pager`pageSize
    {
      && db.Parts() && db.tree.Cfg() == Cfg()
      && db.checkpointDirtyRatio == checkpointDirtyRatio && db.pool.capacity == cacheCapacity
    }

    /** A process that is up, or the reason why it cannot go on. */
    ghost predicate Up(db: DB, end: End)
      reads db, db.device, db.pager, db.pool, db.tree, db.wal, db.tree.pager`pageSize
    {
      && Mine(db)
      && (end == AllDone ==> db.Valid())
      && (end == CountersExhausted ==> !db.CanCount())
      && (end == RebalanceStuck ==> !strict)
      && end != PoolTooSmall
    }

    /** The process starts on the files it finds, dying in recovery at each of the moments `again` first. */
    method Start(disk: Disk, again: seq<nat>, ghost store: Store) returns (db: DB, end: End)
      requires Configured() && RecoversTo(disk, Cfg(), store)
      ensures fresh(db) && fresh(db.device) && fresh(db.pager) && fresh(db.pool) && fresh(db.tree) && fresh(db.wal)
      ensures Up(db, end) && (end == AllDone ==> db.Map() == store) && (end == CrashedExposed ==> again != [])
    {
      hide RecoversTo, AllJudged, DB.Closed, DB.Ready, DB.Valid, Recorded;
      db, end := Boot(disk, store);
      var i := 0;
      while i < |again| && (end == AllDone || end == CountersExhausted)
        invariant i <= |again|
        invariant fresh(db) && fresh(db.device) && fresh(db.pager) && fresh(db.pool) && fresh(db.tree) && fresh(db.wal)
        invariant Up(db, end) && (end == AllDone ==> db.Map() == store) && (end == CrashedExposed ==> again != [])
        invariant end != CrashedExposed ==> db.Quiet() && db.before == store && db.SafeUpTo(store)
      {
        HasMoments(db.device.history, db.device.Now());
        var moment := db.device.history[again[i] % |db.device.history|];
        if moment.exposed {
          end := CrashedExposed;
        } else {
          PickJudged(db.device.history, again[i] % |db.device.history|, Cfg(), store, store);
          db, end := Boot(moment.disk, store);
        }
        i := i + 1;
      }
    }

    /** One attempt to open the database. */
    method Boot(disk: Disk, ghost store: Store) returns (db: DB, end: End)
      requires Configured() && RecoversTo(disk, Cfg(), store)
      ensures fresh(db) && fresh(db.device) && fresh(db.pager) && fresh(db.pool) && fresh(db.tree) && fresh(db.wal)
      ensures Up(db, end) && (end == AllDone ==> db.Map() == store) && end != CrashedExposed
      ensures db.Quiet() && db.before == store && db.SafeUpTo(store)
    {
      hide RecoversTo, AllJudged, DB.Closed, DB.Ready, DB.Valid, Recorded, DB.CanCount, DB.CheckpointedAt, DB.Trail;
      db := new DB(disk, cacheCapacity, checkpointWalSize, checkpointDirtyRatio, tight, Cfg(), store);
      ClosedParts(db, store);
      var status := db.Open(store);
      end := if status == Status.Finished then AllDone else if status == Exhausted then CountersExhausted else RebalanceStuck;
    }

    lemma ClosedParts(db: DB, store: Store)
      requires db.Closed(store)
      ensures db.Parts()
    {
      hide Recovers, DB.Parts;
    }

    /** One call. What it could leave if the process died in it is safe however it ends. */
    method Perform(db: DB, op: Op) returns (end: End)
      requires Mine(db) && db.Valid() && db.Roomy() && Accepts(op)
      modifies db, db.device, db.pager, db.pool, db.tree, db.wal
      ensures Up(db, end) && end != CrashedExposed
      ensures end == AllDone ==> db.Map() == Intended(old(db.Map()), op, pageSize)
      ensures end == AllDone && (op.CheckpointOp? || op.RestartOp?) ==> db.CheckpointedAt(old(db.wal.currentLsn) + 1)
      ensures db.Quiet() && db.before == old(db.Map()) && db.SafeUpTo(Intended(old(db.Map()), op, pageSize))
      ensures db.device.history[0].disk == old(db.device.Now())
    {
      hide RecoversTo, AllJudged, DB.Ready, LeafRecordSize, MaxLeafRecordSize, Recorded, DB.Logged, DB.CanCount, DB.CheckpointedAt, DB.Written,
        DB.Trail, DB.InRatio;
      match op
      case PutOp(key, value) =>
        var status := db.Put(key, value);
        end := Outcome(status);
        if status == Exhausted && db.Map() == db.before { NewStore(db.device.history, Cfg(), db.before, Intended(db.before, op, pageSize)); }
      case DeleteOp(key) =>
        var status := db.Delete(key);
        end := Outcome(status);
        if status == Missing { assert db.before - {key} == db.before; }
        if status == Exhausted && db.Map() == db.before { NewStore(db.device.history, Cfg(), db.before, Intended(db.before, op, pageSize)); }
      case CheckpointOp =>
        var ok := db.RunCheckpoint();
        end := if ok then AllDone else CountersExhausted;
      case RestartOp =>
        var ok := db.RunCheckpoint();
        end := if ok then AllDone else CountersExhausted;
    }

    function Outcome(status: Status): End
    {
      if status == Exhausted then CountersExhausted else if status == Jammed then RebalanceStuck else AllDone
    }

    /** Runs the events from a new database, as far as they get. */
    method Run(events: seq<Event>) returns (end: End, n: nat, db: DB)
      requires Configured() && forall i :: 0 <= i < |events| ==> Accepts(events[i].op)
      ensures n <= |events| && (end == AllDone ==> n == |events|)
      ensures end == AllDone || end == PoolTooSmall ==> db.Valid() && Explained(events[..n], pageSize, db.Map())
      ensures tight && end in {AllDone, PoolTooSmall} ==> TreeIds(db.tree.root) == Live(db.pager.chain, db.pager.meta.next)
      ensures end == PoolTooSmall ==> !db.Roomy()
      ensures end == CountersExhausted ==> !db.CanCount()
      ensures end == RebalanceStuck ==> !strict
      ensures end == CrashedExposed ==> n < |events| && events[n].Crash?
      ensures fresh(db) && fresh(db.pool) && db.checkpointDirtyRatio == checkpointDirtyRatio && db.pool.capacity == cacheCapacity
    {
      hide RecoversTo, AllJudged, DB.Ready, DB.Roomy, Explained, Intended, InitialFile, Recorded, TreeIds, Live;
      FreshDatabase(Cfg());
      StartExplained(pageSize);
      assert events[..0] == [];
      var disk := NewFiles();
      db, end := Start(disk, [], map[]);
      n := 0;
      while n < |events| && end == AllDone
        invariant n <= |events|
        invariant fresh(db) && fresh(db.device) && fresh(db.pager) && fresh(db.pool) && fresh(db.tree) && fresh(db.wal)
        invariant Up(db, end)
        invariant end == AllDone ==> Explained(events[..n], pageSize, db.Map())
        invariant end == CrashedExposed ==> n < |events| && events[n].Crash?
        decreases |events| - n, if end == AllDone then 1 else 0
      {
        var room := db.HasRoom();
        if !room {
          db.PagesConserved();
          return PoolTooSmall, n, db;
        }
        var event := events[n];
        ghost var store := db.Map();
        CallExplained(events, n, pageSize, store);
        end := Perform(db, event.op);
        match event
        case Call(op) =>
          if end == AllDone && op.RestartOp? {
            db.Recoverable();
            db, end := Start(db.device.Now(), [], db.Map());
          }
          if end == AllDone { n := n + 1; }
        case Crash(op, at, again) =>
          HasMoments(db.device.history, db.device.Now());
          var i := at % |db.device.history|;
          if db.device.history[i].exposed {
            end := CrashedExposed;
          } else {
            PickJudged(db.device.history, i, Cfg(), store, Intended(store, op, pageSize));
            store := if RecoversTo(db.device.history[i].disk, Cfg(), store) then store else Intended(store, op, pageSize);
            db, end := Start(db.device.history[i].disk, again, store);
            if end == AllDone { n := n + 1; }
          }
      }
      if end == AllDone { db.PagesConserved(); }
    }

    /** The files of a new database. */
    method NewFiles() returns (disk: Disk)
      requires Configured()
      ensures disk == Disk(InitialFile(pageSize), [])
    {
      hide InitialFile, Recorded;
      var device := new Device(Disk([], []));
      var pager := new Pager.Bootstrap(device, pageSize);
      disk := device.Now();
    }

    /**
     * A run, and a scan of everything at its end. What the scan shows is a store that explains the run. With a dirty
     * ratio below 1 a checkpoint always leaves the pool a page to read through.
     */
    method Observe(events: seq<Event>) returns (end: End, n: nat, ok: bool, out: seq<LeafSlot>)
      requires Configured() && forall i :: 0 <= i < |events| ==> Accepts(events[i].op)
      ensures n <= |events| && (end == AllDone ==> n == |events|) && (end == RebalanceStuck ==> !strict)
      ensures end == CrashedExposed ==> n < |events| && events[n].Crash?
      ensures checkpointDirtyRatio < 1.0 && end in {AllDone, PoolTooSmall} ==> ok
      ensures ok ==> SortedEntries(out) && Explained(events[..n], pageSize, ToMap(out))
    {
      hide DB.Ready, DB.Map, Explained, Intended, InRange, SortedEntries, ToMap;
      var db;
      end, n, db := Run(events);
      ok, out := false, [];
      if end != AllDone && end != PoolTooSmall { return; }
      if db.checkpointDirtyRatio < 1.0 { RatioLeavesRoom(|db.pool.Dirty()|, db.pool.capacity, db.checkpointDirtyRatio); }
      ok, out := db.ScanAll(None, None);
      if ok { WholeRange(db.Map()); }
    }
  }

  lemma RatioLeavesRoom(dirty: nat, capacity: nat, ratio: real)
    requires WithinRatio(dirty, capacity, ratio) && ratio < 1.0 && capacity > 0
    ensures dirty < capacity
  {
    var c := capacity as real;
    assert (1.0 - ratio) * c > 0.0;
  }

  /** No bounds, no restriction. */
  lemma WholeRange(s: Store)
    ensures (map k | k in s && InRange(k, [], None) :: s[k]) == s
  {
    forall k | k in s ensures InRange(k, [], None) {
      assert !Less(k, []) by { assert Rank(k) >= Rank([]); }
    }
  }
}
