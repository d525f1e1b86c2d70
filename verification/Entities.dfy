/** Pages, slots and log records, and the byte sizes the tree balances by. */
module Entities {
  import opened Bytes

  datatype LeafSlot = LeafSlot(key: Bytes, value: Bytes)

  datatype InternalSlot = InternalSlot(key: Bytes, child: nat)

  /** What a page holds besides its `last_modified_lsn`. */
  datatype Body =
    | Leaf(right: nat, entries: seq<LeafSlot>)
    | Internal(leftmost: nat, slots: seq<InternalSlot>)
    | Freelist(next: nat, freed: seq<nat>)

  datatype Page = Page(lsn: nat, body: Body)

  datatype Meta = Meta(pageSize: nat, root: nat, next: nat, freelistHead: nat, checkpointLsn: nat)

  datatype Record =
    | PutRecord(lsn: nat, key: Bytes, value: Bytes)
    | DeleteRecord(lsn: nat, key: Bytes)
    | CheckpointRecord(lsn: nat, root: nat, freelistHead: nat, next: nat)

  const PAGE_HEADER_SIZE := 32
  const SLOT_ENTRY_SIZE := 8

  /** Encoded size of a leaf record without its directory entry. */
  function LeafRecordSize(key: Bytes, value: Bytes): nat { 8 + |key| + |value| }

  /** Slot sizes include the directory entry. */
  function LeafSlotSize(s: LeafSlot): nat { SLOT_ENTRY_SIZE + LeafRecordSize(s.key, s.value) }

  function InternalSlotSize(s: InternalSlot): nat { SLOT_ENTRY_SIZE + 4 + |s.key| + 8 }

  function LeafSum(s: seq<LeafSlot>): nat
  {
    if s == [] then 0 else LeafSum(s[..|s| - 1]) + LeafSlotSize(s[|s| - 1])
  }

  function InternalSum(s: seq<InternalSlot>): nat
  {
    if s == [] then 0 else InternalSum(s[..|s| - 1]) + InternalSlotSize(s[|s| - 1])
  }

  /** Bytes taken by the slots of a tree page. */
  function BodySum(b: Body): nat
  {
    match b
    case Leaf(_, entries) => LeafSum(entries)
    case Internal(_, slots) => InternalSum(slots)
    case Freelist(_, freed) => 8 * |freed|
  }

  function PageSize(b: Body): nat { PAGE_HEADER_SIZE + BodySum(b) }

  /** The record cap, floor division as in the source (page sizes are at least 52). */
  function MaxLeafRecordSize(pageSize: nat): int { (pageSize - PAGE_HEADER_SIZE) / 5 - SLOT_ENTRY_SIZE }

  function MaxFreedIds(pageSize: nat): int { (pageSize - PAGE_HEADER_SIZE) / 8 }

  lemma {:induction false} LeafSumConcat(a: seq<LeafSlot>, b: seq<LeafSlot>)
    ensures LeafSum(a + b) == LeafSum(a) + LeafSum(b)
  {
    if b == [] {
      assert a + b == a;
    } else {
      LeafSumConcat(a, b[..|b| - 1]);
      assert (a + b)[..|a + b| - 1] == a + b[..|b| - 1];
    }
  }

  lemma {:induction false} InternalSumConcat(a: seq<InternalSlot>, b: seq<InternalSlot>)
    ensures InternalSum(a + b) == InternalSum(a) + InternalSum(b)
  {
    if b == [] {
      assert a + b == a;
    } else {
      InternalSumConcat(a, b[..|b| - 1]);
      assert (a + b)[..|a + b| - 1] == a + b[..|b| - 1];
    }
  }
}
