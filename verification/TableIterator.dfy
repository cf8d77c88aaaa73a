/** The seekable iterator over a table (internal/sstable/iterator.go). */
module TableIterators {
  import opened Bytes
  import opened Records
  import opened Runs
  import opened TableFormat
  import opened TableImage
  import opened BlockCaches
  import opened TableReaders

  /** What is left from entry i of block j on. */
  ghost function Suffix(blocks: Blocks, j: nat, i: nat): seq<Record>
    requires j < |blocks| && i <= |blocks[j]|
  {
    blocks[j][i..] + Flatten(blocks[j + 1..])
  }

  lemma SuffixIsDrop(blocks: Blocks, j: nat, i: nat)
    requires j < |blocks| && i <= |blocks[j]|
    ensures |Flatten(blocks[..j])| + i <= |Flatten(blocks)|
    ensures Suffix(blocks, j, i) == Flatten(blocks)[|Flatten(blocks[..j])| + i..]
  {
    BlockOfFlat(blocks, j);
  }

  class SSTableIterator {
    const reader: TableReader
    var blockIndex: nat
    var block: Option<Block>
    var entryIndex: nat

    ghost predicate Valid()
      reads this
    {
      block.Some? ==>
        blockIndex < |reader.blocks| && block.value == reader.blocks[blockIndex] && entryIndex < |block.value|
    }

    ghost function Remaining(): seq<Record>
      requires Valid()
      reads this
    {
      if block.None? then [] else Suffix(reader.blocks, blockIndex, entryIndex)
    }

    /** The reader is in order, and the cache it shares tells the truth. */
    ghost predicate Usable(tables: Catalog)
      reads reader.filter, CacheFrame(reader.cache)
    {
      reader.Valid() && reader.Listed(tables) && CacheAgrees(reader.cache, reader.env.crc, tables)
    }

    constructor (reader: TableReader)
      ensures this.reader == reader && blockIndex == 0 && block == None && entryIndex == 0
    {
      this.reader := reader;
      blockIndex, block, entryIndex := 0, None, 0;
    }

    predicate HasCurrent()
      reads this
    {
      block.Some? && entryIndex < |block.value|
    }

    function Current(): Record
      requires HasCurrent()
      reads this
    {
      block.value[entryIndex]
    }

    lemma CurrentIsFirst()
      requires Valid()
      ensures HasCurrent() <==> Remaining() != []
      ensures HasCurrent() ==> Current() == Remaining()[0]
    {
    }

    method LoadBlock(ghost tables: Catalog)
      requires Usable(tables)
      modifies this`block, this`entryIndex, CacheFrame(reader.cache)
      ensures Usable(tables) && Valid()
      ensures Remaining() == if blockIndex < |reader.blocks| then Flatten(reader.blocks[blockIndex..]) else []
      ensures blockIndex < |reader.blocks| ==> block == Some(reader.blocks[blockIndex]) && entryIndex == 0
    {
      hide IsTable, Touched, IsBlockAt, WeaklySorted, IndexOf, DataRegion, LRU.Valid;
      if blockIndex >= |reader.index| {
        block := None;
        return;
      }
      var b := reader.FetchBlock(blockIndex, tables);
      // A read error leaves no block; on a table file there is none.
      block, entryIndex := b.ToOption(), 0;
      assert reader.blocks[blockIndex..] == [reader.blocks[blockIndex]] + reader.blocks[blockIndex + 1..];
    }

    method Next(ghost tables: Catalog)
      requires Usable(tables) && Valid() && HasCurrent()
      modifies this, CacheFrame(reader.cache)
      ensures Usable(tables) && Valid()
      ensures Remaining() == old(Remaining())[1..]
    {
      hide IsTable;
      SuffixTail(reader.blocks, blockIndex, entryIndex);
      if entryIndex + 1 < |block.value| {
        entryIndex := entryIndex + 1;
        return;
      }
      blockIndex := blockIndex + 1;
      LoadBlock(tables);
    }

    static lemma SuffixTail(blocks: Blocks, j: nat, i: nat)
      requires j < |blocks| && i < |blocks[j]|
      ensures i + 1 < |blocks[j]| ==> Suffix(blocks, j, i)[1..] == Suffix(blocks, j, i + 1)
      ensures i + 1 == |blocks[j]| ==> Suffix(blocks, j, i)[1..] == if j + 1 < |blocks| then Flatten(blocks[j + 1..]) else []
    {
      if i + 1 == |blocks[j]| {
        assert blocks[j][i..] == [blocks[j][i]];
      }
    }

    /** Afterwards exactly the records at or after target remain, wherever the iterator stood. */
    method Seek(target: InternalKey, ghost tables: Catalog)
      requires Usable(tables) && GoodBlocks(reader.blocks)
      modifies this, CacheFrame(reader.cache)
      ensures Usable(tables) && Valid()
      ensures Remaining() == reader.Records()[LowerBound(reader.Records(), target)..]
    {
      hide IsTable, Suffix, Flatten, LowerBound, WeaklySorted, Probe, Separators, IsBlockAt, DataRegion;
      var idx := reader.FindBlockIndex(target);
      SeekLands(reader.blocks, target);
      if idx >= |reader.index| {
        block := None;
        return;
      }
      blockIndex := idx;
      SeekInBlock(target, tables);
    }

    method SeekInBlock(target: InternalKey, ghost tables: Catalog)
      requires Usable(tables) && blockIndex < |reader.blocks|
      requires LowerBound(reader.blocks[blockIndex], target) < |reader.blocks[blockIndex]|
      modifies this, CacheFrame(reader.cache)
      ensures Usable(tables) && Valid()
      ensures Remaining() == Suffix(reader.blocks, old(blockIndex), LowerBound(reader.blocks[old(blockIndex)], target))
    {
      hide IsTable, LowerBound, IsBlockAt, DataRegion, IndexOf;
      LoadBlock(tables);
      SkipTo(target);
    }

    /** Where Seek ends: no block if every record is before target, else at the lower bound inside one block. */
    static lemma SeekLands(blocks: Blocks, target: InternalKey)
      requires GoodBlocks(blocks)
      ensures var j, all := BlockFor(blocks, target), Flatten(blocks);
              && j <= |blocks|
              && if j == |blocks| then all[LowerBound(all, target)..] == []
                 else LowerBound(blocks[j], target) < |blocks[j]| && all[LowerBound(all, target)..] == Suffix(blocks, j, LowerBound(blocks[j], target))
    {
      hide BlockFor, WeaklySorted, LowerBound, Suffix, Flatten;
      var j := BlockFor(blocks, target);
      BlockForIsFirst(blocks, target);
      LowerBoundByBlock(blocks, j, target);
      if j == |blocks| {
        assert blocks[..j] == blocks;
      } else {
        SuffixIsDrop(blocks, j, LowerBound(blocks[j], target));
      }
    }

    /** The scan inside the block. Some record of the block is at or after target, so it never runs off the end. */
    method SkipTo(target: InternalKey)
      requires Valid() && block.Some? && entryIndex == 0 && LowerBound(block.value, target) < |block.value|
      modifies this`entryIndex
      ensures Valid() && entryIndex == LowerBound(block.value, target)
    {
      ghost var entries := block.value;
      while entryIndex < |block.value| && HasCurrent() && Before(Current().key, target)
        invariant entryIndex <= LowerBound(entries, target)
        decreases |entries| - entryIndex
      {
        entryIndex := entryIndex + 1;
      }
    }
  }

  /** TableReader.Iterator: positioned at the first record. */
  method NewIterator(reader: TableReader, ghost tables: Catalog) returns (it: SSTableIterator)
    requires reader.Valid() && reader.Listed(tables) && CacheAgrees(reader.cache, reader.env.crc, tables)
    modifies CacheFrame(reader.cache)
    ensures fresh(it) && it.reader == reader && it.Valid() && it.Usable(tables)
    ensures it.Remaining() == reader.Records()
  {
    hide IsTable, IsBlockAt, DataRegion, IndexOf, LRU.Valid;
    it := new SSTableIterator(reader);
    it.LoadBlock(tables);
    assert reader.blocks[0..] == reader.blocks;
  }
}
