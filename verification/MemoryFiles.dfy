/**
 * Cutting a file into numbered blocks, and the in-memory file that produces and collects them.
 *
 * A block shorter than the block size ends a transfer (section 6 of RFC 1350).
 */
module MemoryFiles {
  import opened Basics

  /** How far the read position in a file of `length` bytes has moved after `index` blocks. */
  function Cursor(length: nat, size: nat, index: nat): (position: nat)
    ensures position <= length
  {
    if index == 0 then 0 else Min(Cursor(length, size, index - 1) + size, length)
  }

  /** The data of block `index`, counted from 1. Past the end of the file the blocks are empty. */
  function Block(file: Bytes, size: nat, index: nat): (block: Bytes)
    requires index >= 1
    ensures |block| <= size
  {
    file[Cursor(|file|, size, index - 1)..Cursor(|file|, size, index)]
  }

  /** The number of blocks of a complete transfer: the full ones and a shorter last one. */
  function BlockCount(length: nat, size: nat): (count: nat)
    requires size >= 1
    ensures count >= 1
  {
    if length < size then 1 else 1 + BlockCount(length - size, size)
  }

  function Blocks(file: Bytes, size: nat, count: nat): (blocks: seq<Bytes>)
    ensures |blocks| == count
    ensures forall i :: 0 <= i < count ==> blocks[i] == Block(file, size, i + 1)
  {
    seq(count, i requires 0 <= i < count => Block(file, size, i + 1))
  }

  function Flatten(blocks: seq<Bytes>): Bytes {
    if blocks == [] then [] else Flatten(blocks[..|blocks| - 1]) + blocks[|blocks| - 1]
  }

  lemma FlattenMore(blocks: seq<Bytes>, block: Bytes)
    ensures Flatten(blocks + [block]) == Flatten(blocks) + block
  {
    assert (blocks + [block])[..|blocks|] == blocks;
  }

  lemma ProductsApart(p: int, q: int, d: int)
    requires p < q && d >= 1
    ensures p * d + d <= q * d
  {
    assert q * d == p * d + d + (q - p - 1) * d;
  }

  lemma UniqueQuotient(a: int, d: int, q: int, r: int)
    requires a == q * d + r && 0 <= r < d
    ensures a / d == q
  {
    var p := a / d;
    assert a == p * d + a % d;
    if p < q {
      ProductsApart(p, q, d);
    } else if q < p {
      ProductsApart(q, p, d);
    }
  }

  lemma {:induction false} BlockCountIsQuotient(length: nat, size: nat)
    requires size >= 1
    ensures BlockCount(length, size) == length / size + 1
  {
    if length >= size {
      BlockCountIsQuotient(length - size, size);
      var q, r := length / size, length % size;
      assert length - size == (q - 1) * size + r by {
        assert (q - 1) * size == q * size - size;
      }
      UniqueQuotient(length - size, size, q - 1, r);
    }
  }

  lemma {:induction false} CursorShift(length: nat, size: nat, index: nat)
    requires size <= length && index >= 1
    ensures Cursor(length, size, index) == size + Cursor(length - size, size, index - 1)
  {
    if index > 1 {
      CursorShift(length, size, index - 1);
    }
  }

  lemma {:induction false} CursorNearEnd(length: nat, size: nat, index: nat)
    requires size >= 1
    ensures Cursor(length, size, index) + size > length <==> index + 1 >= BlockCount(length, size)
    decreases index
  {
    if length >= size && index > 0 {
      CursorShift(length, size, index);
      CursorNearEnd(length - size, size, index - 1);
    }
  }

  /** A block is short exactly from the last block of the file on. */
  lemma ShortBlock(file: Bytes, size: nat, index: nat)
    requires size >= 1 && index >= 1
    ensures |Block(file, size, index)| < size <==> index >= BlockCount(|file|, size)
  {
    CursorNearEnd(|file|, size, index - 1);
  }

  lemma CursorAtEnd(length: nat, size: nat, index: nat)
    requires size >= 1
    ensures index >= BlockCount(length, size) ==> Cursor(length, size, index) == length
  {
    if index > 0 {
      CursorNearEnd(length, size, index - 1);
    }
  }

  /** The blocks up to any index, put together, are the file up to the read position. */
  lemma {:induction false} FlattenPrefix(file: Bytes, size: nat, blocks: seq<Bytes>)
    requires forall i :: 0 <= i < |blocks| ==> blocks[i] == Block(file, size, i + 1)
    ensures Flatten(blocks) == file[..Cursor(|file|, size, |blocks|)]
  {
    if blocks != [] {
      FlattenPrefix(file, size, blocks[..|blocks| - 1]);
      var from, to := Cursor(|file|, size, |blocks| - 1), Cursor(|file|, size, |blocks|);
      assert file[..from] + file[from..to] == file[..to];
    }
  }

  lemma BlocksFurther(file: Bytes, size: nat, count: nat)
    ensures Blocks(file, size, count + 1) == Blocks(file, size, count) + [Block(file, size, count + 1)]
    ensures Flatten(Blocks(file, size, count)) <= file
  {
    FlattenPrefix(file, size, Blocks(file, size, count));
  }

  /**
   * A complete transfer has floor(length / size) + 1 blocks: all full but the last, which is strictly shorter.
   * Together they are the file.
   */
  lemma Chunking(file: Bytes, size: nat)
    requires size >= 1
    ensures var blocks := Blocks(file, size, BlockCount(|file|, size));
            && |blocks| == |file| / size + 1
            && (forall i :: 0 <= i < |blocks| - 1 ==> |blocks[i]| == size)
            && |blocks[|blocks| - 1]| < size
            && Flatten(blocks) == file
  {
    var blocks := Blocks(file, size, BlockCount(|file|, size));
    FlattenPrefix(file, size, blocks);
    BlockCountIsQuotient(|file|, size);
    forall i | 0 <= i < |blocks|
      ensures |blocks[i]| < size <==> i == |blocks| - 1
    {
      ShortBlock(file, size, i + 1);
    }
    CursorAtEnd(|file|, size, |blocks|);
  }

  datatype Use = Receive | Transmit

  /** The file handler that keeps the whole file in memory. */
  class MemoryFile {
    const use: Use
    var data: Bytes
    var position: nat

    ghost predicate Valid()
      reads this
    {
      position <= |data|
    }

    constructor ForReceiving()
      ensures Valid() && use == Receive && data == [] && position == 0
    {
      use, data, position := Receive, [], 0;
    }

    constructor ForSending(contents: Bytes)
      ensures Valid() && use == Transmit && data == contents && position == 0
    {
      use, data, position := Transmit, contents, 0;
    }

    method Start()
      requires Valid()
      modifies this
      ensures Valid() && position == 0
      ensures data == if use == Receive then [] else old(data)
    {
      if use == Receive {
        data := [];
      }
      position := 0;
    }

    method Finished()
      requires Valid()
      modifies this
      ensures Valid() && position == 0 && data == old(data)
    {
      position := 0;
    }

    method RequestedTransferSize() returns (size: Option<uint64>)
      requires |data| < UINT64_LIMIT
      ensures size == Some(|data|)
    {
      size := Some(|data|);
    }

    method ReceivedTransferSize(size: uint64) returns (accepted: bool)
      ensures accepted
    {
      accepted := true;
    }

    method ReceivedData(block: Bytes)
      requires Valid()
      modifies this
      ensures Valid() && data == old(data) + block
      ensures position == if block == [] then old(position) else 0
    {
      if block != [] {
        data := data + block;
        position := 0;
      }
    }

    /** Sends the next block when called the next time: after `index` calls the cursor is at `Cursor(index)`. */
    method SendData(maxSize: nat) returns (block: Bytes)
      requires Valid()
      modifies this
      ensures Valid() && data == old(data)
      ensures position == Min(old(position) + maxSize, |data|) && block == data[old(position)..position]
      ensures forall index: nat :: old(position) == Cursor(|data|, maxSize, index) ==>
        position == Cursor(|data|, maxSize, index + 1) && block == Block(data, maxSize, index + 1)
    {
      var from := position;
      var end;
      if |data| - from <= maxSize {
        end := |data|;
      } else {
        end := from + maxSize;
      }
      position := end;
      block := data[from..end];
    }
  }
}
