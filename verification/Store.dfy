/** The in-memory block and checkpoint store (persistence/store.go). */
module Persistence {
  import opened Types

  /** A block as it is stored and sent: its height is a uint64. */
  type StoredBlock = b: Block | b.height < U64_LIMIT witness Block(0, [], [], 0, [], [])

  datatype Checkpoint = Checkpoint(sequenceNum: U64, digest: Bytes, nodeId: NodeId)

  type Blocks = map<U64, StoredBlock>

  ghost predicate Filed(blocks: Blocks) {
    forall h <- blocks :: blocks[h].height == h
  }

  /** Saving a list of blocks, in order. */
  ghost function Saved(blocks: Blocks, list: seq<StoredBlock>): (r: Blocks)
    ensures Filed(blocks) ==> Filed(r)
  {
    if list == [] then blocks
    else
      var last := list[|list| - 1];
      Saved(blocks, list[..|list| - 1])[last.height := last]
  }

  /** Exactly the heights of the list are filled; nothing else changes. */
  lemma {:induction false} SavedElsewhere(blocks: Blocks, list: seq<StoredBlock>, h: U64)
    ensures h in Saved(blocks, list) <==> h in blocks || exists b <- list :: b.height == h
    ensures (forall b <- list :: b.height != h) && h in blocks ==> Saved(blocks, list)[h] == blocks[h]
  {
    if list != [] {
      var init, last := list[..|list| - 1], list[|list| - 1];
      assert list == init + [last];
      SavedElsewhere(blocks, init, h);
    }
  }

  /** A height holds the last block of that height in the list. */
  lemma {:induction false} SavedLast(blocks: Blocks, list: seq<StoredBlock>, i: nat)
    requires i < |list| && forall j | i < j < |list| :: list[j].height != list[i].height
    ensures list[i].height in Saved(blocks, list) && Saved(blocks, list)[list[i].height] == list[i]
  {
    if i < |list| - 1 {
      SavedLast(blocks, list[..|list| - 1], i);
    }
  }

  /** The stored blocks with heights from `lo` up to but not including `hi`, in order. */
  ghost function InRange(blocks: Blocks, lo: nat, hi: nat): seq<StoredBlock>
    decreases hi
  {
    if hi <= lo then []
    else InRange(blocks, lo, hi - 1) + if hi - 1 in blocks then [blocks[hi - 1]] else []
  }

  /** The list holds exactly the stored blocks of the range, gaps left out, in ascending order. */
  lemma {:induction false} InRangeExactly(blocks: Blocks, lo: nat, hi: nat)
    requires Filed(blocks)
    ensures forall i, j | 0 <= i < j < |InRange(blocks, lo, hi)| ::
              InRange(blocks, lo, hi)[i].height < InRange(blocks, lo, hi)[j].height
    ensures forall b: StoredBlock :: b in InRange(blocks, lo, hi) <==>
              lo <= b.height < hi && b.height in blocks && blocks[b.height] == b
    decreases hi
  {
    if hi > lo {
      InRangeExactly(blocks, lo, hi - 1);
    }
  }

  /** When the range is full, the list holds one block per height. */
  lemma {:induction false} FullRange(blocks: Blocks, lo: nat, hi: nat)
    requires lo <= hi <= U64_LIMIT && Filed(blocks) && forall h: U64 | lo <= h < hi :: h in blocks
    ensures |InRange(blocks, lo, hi)| == hi - lo
    ensures forall i | 0 <= i < hi - lo :: InRange(blocks, lo, hi)[i] == blocks[lo + i]
  {
    if lo < hi {
      FullRange(blocks, lo, hi - 1);
    }
  }

  class MemoryStore {
    var blocks: Blocks
    var checkpoints: map<U64, Checkpoint>

    ghost predicate Valid()
      reads this
    {
      Filed(blocks) && forall n <- checkpoints :: checkpoints[n].sequenceNum == n
    }

    constructor ()
      ensures Valid() && blocks == map[] && checkpoints == map[]
    {
      blocks, checkpoints := map[], map[];
    }

    /** A nil block is None. */
    method SaveBlock(block: Option<StoredBlock>) returns (ok: bool)
      requires Valid()
      modifies this`blocks
      ensures Valid() && (ok <==> block.Some?)
      ensures blocks == if ok then old(blocks)[block.value.height := block.value] else old(blocks)
    {
      if block.None? {
        return false;
      }
      blocks := blocks[block.value.height := block.value];
      return true;
    }

    /** None where the loop does not end, because no uint64 is above toHeight. */
    method LoadBlocks(fromHeight: U64, toHeight: U64) returns (list: Option<seq<StoredBlock>>)
      ensures list == if toHeight == U64_LIMIT - 1 then None else Some(InRange(blocks, fromHeight, toHeight + 1))
    {
      if toHeight == U64_LIMIT - 1 {
        return None;
      }
      var found: seq<StoredBlock> := [];
      var h := fromHeight;
      while h <= toHeight
        invariant fromHeight <= h && (h <= toHeight + 1 || h == fromHeight)
        invariant found == InRange(blocks, fromHeight, h)
      {
        if h in blocks {
          found := found + [blocks[h]];
        }
        h := h + 1;
      }
      list := Some(found);
    }

    method GetLatestBlockHeight() returns (maxHeight: U64)
      ensures forall h <- blocks :: h <= maxHeight
      ensures if blocks == map[] then maxHeight == 0 else maxHeight in blocks
    {
      maxHeight := 0;
      var pending := blocks.Keys;
      while pending != {}
        invariant pending <= blocks.Keys
        invariant forall h <- blocks :: h in pending || h <= maxHeight
        invariant maxHeight in blocks || (maxHeight == 0 && forall h <- blocks :: h in pending || h == 0)
      {
        var h: U64 :| h in pending;
        if h > maxHeight {
          maxHeight := h;
        }
        pending := pending - {h};
      }
    }

    /** A nil checkpoint is None. */
    method SaveCheckpoint(checkpoint: Option<Checkpoint>) returns (ok: bool)
      requires Valid()
      modifies this`checkpoints
      ensures Valid() && (ok <==> checkpoint.Some?)
      ensures checkpoints == if ok then old(checkpoints)[checkpoint.value.sequenceNum := checkpoint.value]
                             else old(checkpoints)
    {
      if checkpoint.None? {
        return false;
      }
      checkpoints := checkpoints[checkpoint.value.sequenceNum := checkpoint.value];
      return true;
    }
  }
}
