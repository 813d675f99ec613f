/**
 * The block ring buffer between the CD reader thread and the player
 * thread (cdioringbuf.h, cdioringbuf.cc), together with the cAllowed
 * gate it uses to block GetBlock and PutBlock.
 *
 * Threads are not modelled: a gate wait (`WaitAllow`) becomes the
 * precondition that the gate is open.
 */
module RingBuf {

  /** Bytes in one raw audio sector (libcdio's CDIO_CD_FRAMESIZE_RAW). */
  const CDIO_CD_FRAMESIZE_RAW: nat := 2352

  /** One raw CD sector, the unit the ring buffer stores. */
  type Block = b: seq<bv8> | |b| == CDIO_CD_FRAMESIZE_RAW witness seq(2352, _ => 0)

  const ZeroBlock: Block := seq(CDIO_CD_FRAMESIZE_RAW, _ => 0)

  /** A binary gate: callers wait until it is open (cAllowed). */
  class Allowed {
    var allowed: bool

    /** A fresh gate is open. */
    constructor ()
      ensures allowed
    {
      allowed := true;
    }

    /** Open the gate, whatever its previous state. */
    method Allow()
      modifies this
      ensures allowed
    {
      allowed := true;
    }

    /** Close the gate, whatever its previous state. */
    method Deny()
      modifies this
      ensures !allowed
    {
      allowed := false;
    }

    /** Returns only once the gate is open; run sequentially, the gate must already be open. */
    method WaitAllow()
      requires allowed
    {
    }
  }

  /**
   * The index step of GetBlock and PutBlock as written: increment, and
   * wrap to 0 once the index exceeds `blocks`.  The index therefore
   * cycles through the `blocks + 1` values 0..blocks.
   */
  function NextIdx(idx: int, blocks: nat): (r: int)
    requires 0 <= idx <= blocks
    ensures 0 <= r <= blocks
    ensures r == (idx + 1) % (blocks + 1)
  {
    var n := idx + 1;
    if n > blocks then 0 else n
  }

  /** Slots of storage the model allocates: one for each value the index cycle can take. */
  function StorageBlocks(blocks: nat): (r: nat)
    ensures forall idx :: 0 <= idx <= blocks ==> idx < r && NextIdx(idx, blocks) < r
  {
    blocks + 1
  }

  /** Bytes the constructor allocates as written: `CDIO_CD_FRAMESIZE_RAW * blocks`. */
  function AsWrittenStorageBytes(blocks: nat): nat
  {
    CDIO_CD_FRAMESIZE_RAW * blocks
  }

  /** The put index after `n` PutBlock calls on a cleared buffer with no GetBlock in between. */
  function PutIdxAfter(n: nat, blocks: nat): (r: int)
    ensures 0 <= r <= blocks
  {
    if n == 0 then 0 else NextIdx(PutIdxAfter(n - 1, blocks), blocks)
  }

  /**
   * The put gate after `n` PutBlock calls on a cleared buffer with no
   * GetBlock: PutBlock closes it when the put index comes back to the
   * get index (0), and nothing reopens it.
   */
  predicate PutGateOpenAfter(n: nat, blocks: nat)
  {
    forall j :: 1 <= j <= n ==> PutIdxAfter(j, blocks) != 0
  }

  lemma {:induction false} PutIdxCounts(n: nat, blocks: nat)
    requires n <= blocks
    ensures PutIdxAfter(n, blocks) == n
  {
    if n > 0 {
      PutIdxCounts(n - 1, blocks);
    }
  }

  /**
   * The storage mismatch as written: after `blocks` PutBlock calls on a
   * cleared buffer the put gate is still open and the put index is
   * `blocks`, so the next PutBlock copies the bytes
   * [blocks * 2352, blocks * 2352 + 2352), which lie past the
   * `2352 * blocks` bytes the constructor allocates.
   */
  lemma {:induction false} AsWrittenPutOverflows(blocks: nat)
    ensures PutGateOpenAfter(blocks, blocks)
    ensures PutIdxAfter(blocks, blocks) == blocks
    ensures PutIdxAfter(blocks, blocks) * CDIO_CD_FRAMESIZE_RAW + CDIO_CD_FRAMESIZE_RAW
            > AsWrittenStorageBytes(blocks)
  {
    forall j | 1 <= j <= blocks
      ensures PutIdxAfter(j, blocks) != 0
    {
      PutIdxCounts(j, blocks);
    }
    PutIdxCounts(blocks, blocks);
  }

  /**
   * A fixed-capacity FIFO of sectors (cCdIoRingBuffer).  `Contents` is
   * the queue of stored blocks, oldest first.
   */
  class RingBuffer {
    /** mBlocks */
    const blocks: nat
    /** mData, one slot per block; `StorageBlocks(blocks)` slots */
    const slots: array<Block>
    /** mPutIdx and mGetIdx */
    var putIdx: int
    var getIdx: int
    /** mGetAllowed and mPutAllowed */
    const getAllowed: Allowed
    const putAllowed: Allowed

    ghost var Contents: seq<Block>
    ghost const Repr: set<object>

    /** The slot `i` positions after slot 0, on the cycle of `blocks + 1` slots (for 0 <= i < 2 * (blocks + 1)). */
    function Wrap(i: int): int
    {
      if i <= blocks then i else i - (blocks + 1)
    }

    /** Occupancy: the number of blocks stored. */
    ghost function Count(): nat
      reads this
    {
      |Contents|
    }

    ghost predicate Valid()
      reads this, Repr
    {
      this in Repr && slots in Repr && getAllowed in Repr && putAllowed in Repr &&
      Repr == {this, slots, getAllowed, putAllowed} &&
      getAllowed != putAllowed &&
      slots.Length == StorageBlocks(blocks) &&
      0 <= getIdx <= blocks && 0 <= putIdx <= blocks &&
      |Contents| <= blocks + 1 &&
      putIdx == Wrap(getIdx + |Contents|) &&
      // the gate invariant
      (getAllowed.allowed <==> |Contents| > 0) &&
      (putAllowed.allowed <==> |Contents| < blocks + 1) &&
      forall k {:trigger Stored(k)} :: 0 <= k < |Contents| ==> Contents[k] == Stored(k)
    }

    /** The block in the slot `k` places after the get index. */
    ghost function Stored(k: int): Block
      reads this, slots
    {
      var i := Wrap(getIdx + k);
      if 0 <= i < slots.Length then slots[i] else ZeroBlock
    }

    /** cCdIoRingBuffer(int blocks): empty, get denied, put allowed. */
    constructor (blocks: nat)
      ensures Valid() && fresh(Repr)
      ensures this.blocks == blocks && Contents == []
      ensures putIdx == 0 && getIdx == 0
      ensures !getAllowed.allowed && putAllowed.allowed
    {
      this.blocks := blocks;
      slots := new Block[StorageBlocks(blocks)](_ => ZeroBlock);
      putIdx, getIdx := 0, 0;
      getAllowed := new Allowed();
      putAllowed := new Allowed();
      Contents := [];
      Repr := {this, slots, getAllowed, putAllowed};
      new;
      getAllowed.Deny();
      putAllowed.Allow();
    }

    /** Take the oldest block; the get gate must be open. */
    method GetBlock() returns (block: Block)
      requires Valid() && getAllowed.allowed
      modifies this, getAllowed, putAllowed
      ensures Valid()
      ensures old(Contents) != [] && block == old(Contents)[0]
      ensures Contents == old(Contents)[1..]
      ensures getIdx == NextIdx(old(getIdx), blocks) && putIdx == old(putIdx)
      ensures putAllowed.allowed
      ensures getAllowed.allowed <==> getIdx != putIdx
    {
      ghost var stored := Contents;
      assert stored[0] == Stored(0);
      var idx := getIdx;
      getAllowed.WaitAllow();
      block := slots[idx];
      getIdx := getIdx + 1;
      if getIdx > blocks {
        getIdx := 0;
      }
      if getIdx == putIdx {
        getAllowed.Deny();
      }
      putAllowed.Allow();
      Contents := Contents[1..];
      forall k | 0 <= k < |Contents|
        ensures Contents[k] == Stored(k)
      {
        assert Contents[k] == stored[k + 1] == old(Stored(k + 1));
      }
    }

    /** Append a block; the put gate must be open. */
    method PutBlock(block: Block)
      requires Valid() && putAllowed.allowed
      modifies this, slots, getAllowed, putAllowed
      ensures Valid()
      ensures Contents == old(Contents) + [block]
      ensures putIdx == NextIdx(old(putIdx), blocks) && getIdx == old(getIdx)
      ensures getAllowed.allowed
      ensures putAllowed.allowed <==> getIdx != putIdx
    {
      ghost var stored := Contents;
      var idx := putIdx;
      putAllowed.WaitAllow();
      slots[idx] := block;
      putIdx := putIdx + 1;
      if putIdx > blocks {
        putIdx := 0;
      }
      if getIdx == putIdx {
        putAllowed.Deny();
      }
      getAllowed.Allow();
      Contents := Contents + [block];
      forall k | 0 <= k < |Contents|
        ensures Contents[k] == Stored(k)
      {
        if k < |stored| {
          assert Contents[k] == stored[k] == old(Stored(k));
        }
      }
    }

    /** Drop every stored block: both indices 0, get denied, put allowed. */
    method Clear()
      requires Valid()
      modifies this, getAllowed, putAllowed
      ensures Valid()
      ensures Contents == []
      ensures putIdx == 0 && getIdx == 0
      ensures !getAllowed.allowed && putAllowed.allowed
    {
      putIdx := 0;
      getIdx := 0;
      getAllowed.Deny();
      putAllowed.Allow();
      Contents := [];
    }
  }
}
