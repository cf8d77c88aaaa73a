/** Writing a table file block by block (internal/sstable/writer.go). */
module TableWriters {
  import opened Bytes
  import opened Records
  import opened Runs
  import opened Cuts
  import opened Frames
  import opened Filters
  import opened TableFormat
  import opened TableImage

  /** The options that shape a table. */
  datatype TableOptions = TableOptions(blockSize: nat, filter: FilterData, maxSize: nat)

  /** What the writer counts of its open block. */
  function OpenBytes(block: seq<Record>): nat {
    8 + |Framed(block, RecordEncoder())|
  }

  /** f has the bits of f0 and those that the records' keys probe, and no others. */
  ghost predicate FilterOf(f: FilterData, f0: FilterData, fnv: Hash, s: seq<Record>) {
    && f0.WellFormed() && f.m == f0.m && f.k == f0.k && |f.bits| == |f0.bits|
    && forall q :: 0 <= q < 8 * |f0.bits| ==>
          (BitAt(f.bits, q) <==> BitAt(f0.bits, q) || exists r :: r in s && Probes(fnv, f0.m, f0.k, r.key.userKey, q))
  }

  lemma FilterMore(f: FilterData, f0: FilterData, fnv: Hash, s: seq<Record>, g: FilterData, r: Record)
    requires FilterOf(f, f0, fnv, s) && Grown(f, g, fnv, r.key.userKey)
    ensures FilterOf(g, f0, fnv, s + [r])
  {
    hide Probes, BitAt;
    forall q | 0 <= q < 8 * |f0.bits|
      ensures BitAt(g.bits, q) <==> BitAt(f0.bits, q) || exists x :: x in s + [r] && Probes(fnv, f0.m, f0.k, x.key.userKey, q)
    {
      assert r in s + [r];
    }
  }

  lemma FilterContains(f: FilterData, f0: FilterData, fnv: Hash, s: seq<Record>)
    requires FilterOf(f, f0, fnv, s)
    ensures forall r :: r in s ==> f.MayContain(fnv, r.key.userKey)
  {
    forall r, i | r in s && 0 <= i < f.k ensures BitAt(f.bits, ProbeBit(fnv, f.m, r.key.userKey, i)) {
      assert Probes(fnv, f0.m, f0.k, r.key.userKey, ProbeBit(fnv, f.m, r.key.userKey, i));
    }
  }

  /** The blocks end where the options say, and the filter is the records'. */
  ghost predicate Shaped(env: Env, opts: TableOptions, blocks: Blocks, f: FilterData) {
    CutInto(blocks, OpenBytes, opts.blockSize) && FilterOf(f, opts.filter, env.fnv, Flatten(blocks))
  }

  /** The records and the options determine every byte of the file. */
  lemma FileIsDetermined(env: Env, opts: TableOptions, file: bytes, blocks: Blocks, f: FilterData, file': bytes, blocks': Blocks, f': FilterData)
    requires IsTable(env, file, blocks, f) && Shaped(env, opts, blocks, f)
    requires IsTable(env, file', blocks', f') && Shaped(env, opts, blocks', f')
    requires Flatten(blocks) == Flatten(blocks')
    ensures blocks == blocks' && f == f' && file == file'
  {
    hide Image, BitAt;
    CutIsUnique(blocks, blocks', OpenBytes, opts.blockSize);
    SameBytes(f.bits, f'.bits);
  }

  class TableWriter {
    const file: Sink
    const blockSize: nat
    const filter: Filter
    const env: Env
    /** The filter as it was made. */
    ghost const filter0: FilterData
    var block: seq<Record>
    var currentBlockSize: nat
    var index: seq<IndexEntry>
    var offset: nat
    var estimatedSize: nat
    /** The blocks already in the file. */
    ghost var blocks: Blocks

    ghost predicate Valid()
      reads this, file, filter
    {
      Layout() && Counters() && Filtered() && Cut()
    }

    /** Each flushed block has reached the block size at its last record, and the open one has not reached it. */
    ghost predicate Cut()
      reads this
    {
      AllFull(blocks, OpenBytes, blockSize) && Open(block, OpenBytes, blockSize)
    }

    /** The file is the flushed blocks, and the index describes them. */
    ghost predicate Layout()
      reads this, file
    {
      && NonEmptyBlocks(blocks)
      && file.data == DataRegion(env.crc, blocks)
      && index == IndexOf(env.crc, blocks)
      && offset == |file.data|
    }

    /** The running sizes count exactly the bytes they stand for. */
    ghost predicate Counters()
      reads this
    {
      && currentBlockSize == 8 + |Framed(block, RecordEncoder())|
      && estimatedSize == SumSizes(Added())
      && (forall r :: r in block ==> r.Fits())
      && (forall j :: 0 <= j < |blocks| ==> forall r :: r in blocks[j] ==> r.Fits())
    }

    /** The filter has the user keys of exactly the records added. */
    ghost predicate Filtered()
      reads this, filter
    {
      filter.Valid() && filter.fnv == env.fnv && FilterOf(filter.Data(), filter0, env.fnv, Added())
    }

    /** Everything passed to Add so far, in order. */
    ghost function Added(): seq<Record>
      reads this
    {
      Flatten(blocks) + block
    }

    ghost function Repr(): set<object> {
      {this, file, filter}
    }

    constructor (blockSize: nat, filterData: FilterData, env: Env)
      requires filterData.WellFormed()
      ensures Valid() && Added() == [] && fresh(Repr())
      ensures this.blockSize == blockSize && this.env == env && filter0 == filterData
    {
      file := new Sink();
      this.blockSize := blockSize;
      filter := new Filter(filterData, env.fnv);
      this.env, filter0 := env, filterData;
      block := [];
      currentBlockSize := 8;
      index := [];
      offset, estimatedSize := 0, 0;
      blocks := [];
    }

    method Add(r: Record)
      requires Valid() && r.Fits()
      modifies Repr()
      ensures Valid() && Added() == old(Added()) + [r]
    {
      hide Full, Open, OpenBytes, Layout, Counters, Filtered;
      Fuller(r);
      Append(r);
      if currentBlockSize >= blockSize {
        FlushBlock();
      }
    }

    /** With r the open block is full, or still open. */
    lemma Fuller(r: Record)
      requires Cut()
      ensures if OpenBytes(block + [r]) >= blockSize then AllFull(blocks + [block + [r]], OpenBytes, blockSize) else Open(block + [r], OpenBytes, blockSize)
      ensures Open([], OpenBytes, blockSize)
    {
      hide Full, Open, OpenBytes;
      NoPart(OpenBytes, blockSize);
      OneMoreRecord(block, r, OpenBytes, blockSize);
      OneMorePart(blocks, block + [r], OpenBytes, blockSize);
    }

    /** The record joins the open block, the size counters and the filter. */
    method Append(r: Record)
      requires Layout() && Counters() && Filtered() && r.Fits()
      modifies this`block, this`currentBlockSize, this`estimatedSize, filter
      ensures Layout() && Counters() && Filtered() && Added() == old(Added()) + [r] && block == old(block) + [r]
      ensures currentBlockSize == OpenBytes(block)
    {
      hide Framed, Flatten, SumSizes, DataRegion, IndexOf, Filter.Data, Filter.Valid, Le32, FilterOf;
      FramedSnoc(block, r, RecordEncoder());
      SizeIsEncodedLength(r);
      Appended(blocks, block, r);
      block := block + [r];
      currentBlockSize := currentBlockSize + 4;
      currentBlockSize := currentBlockSize + r.Size();
      estimatedSize := estimatedSize + r.Size();
      AddToFilter(r, old(Added()));
    }

    static lemma Appended(blocks: Blocks, block: seq<Record>, r: Record)
      ensures Flatten(blocks) + (block + [r]) == Flatten(blocks) + block + [r]
      ensures SumSizes(Flatten(blocks) + block + [r]) == SumSizes(Flatten(blocks) + block) + r.Size()
    {
      var s := Flatten(blocks) + block + [r];
      assert s[..|s| - 1] == Flatten(blocks) + block;
    }

    method AddToFilter(r: Record, ghost added: seq<Record>)
      requires filter.Valid() && FilterOf(filter.Data(), filter0, env.fnv, added) && filter.fnv == env.fnv
      modifies filter
      ensures filter.Valid() && FilterOf(filter.Data(), filter0, env.fnv, added + [r])
    {
      hide FilterOf;
      ghost var before := filter.Data();
      filter.Add(r.key.userKey);
      FilterMore(before, filter0, env.fnv, added, filter.Data(), r);
    }

    function EstimatedSize(): nat
      reads this
    {
      estimatedSize
    }

    method FlushBlock()
      requires Layout() && Counters() && Filtered()
      modifies this, file
      ensures Layout() && Counters() && Filtered() && block == [] && Added() == old(Added())
      ensures blocks == if old(block) == [] then old(blocks) else old(blocks) + [old(block)]
    {
      if |block| < 1 {
        return;
      }
      var start := offset;
      var n := WriteBlock();
      IndexBlock(start, n);
    }

    /** The block just written gets its index entry, and the next block starts empty. */
    method IndexBlock(start: nat, n: nat)
      requires block != [] && Counters() && Filtered()
      requires NonEmptyBlocks(blocks) && index == IndexOf(env.crc, blocks)
      requires file.data == DataRegion(env.crc, blocks) + EncodedBlock(env.crc, block)
      requires offset == start == |DataRegion(env.crc, blocks)| && n == |EncodedBlock(env.crc, block)|
      modifies this
      ensures Layout() && Counters() && Filtered() && block == [] && Added() == old(Added())
      ensures blocks == old(blocks) + [old(block)]
    {
      hide DataRegion, EncodedBlock, IndexOf, RecordEncoder, SumSizes, Filter.Data, Filter.Valid, FilterOf;
      BlockAdded(env.crc, blocks, block);
      ghost var added := Added();
      hide Flatten;
      var last := block[|block| - 1];
      index := index + [IndexEntry(last.key, Low64(start), Low32(n))];
      offset := offset + n;
      blocks := blocks + [block];
      block := [];
      currentBlockSize := 8;
      assert Added() == added;
    }

    static lemma BlockAdded(crc: Checksum, blocks: Blocks, block: seq<Record>)
      requires NonEmptyBlocks(blocks) && block != []
      ensures var more := blocks + [block];
              && NonEmptyBlocks(more) && DataRegion(crc, more) == DataRegion(crc, blocks) + EncodedBlock(crc, block)
              && IndexOf(crc, more) == IndexOf(crc, blocks) + [IndexEntry(Last(block).key, Low64(|DataRegion(crc, blocks)|), Low32(|EncodedBlock(crc, block)|))]
              && Flatten(more) + [] == Flatten(blocks) + block
    {
      AddBlock(crc, blocks, block);
      FlattenSnoc(blocks, block);
      assert (blocks + [block])[..|blocks|] == blocks;
    }

    /** Streams the open block to the file; the size it reports is the number of bytes written. */
    method WriteBlock() returns (n: nat)
      requires Counters()
      modifies file
      ensures file.data == old(file.data) + EncodedBlock(env.crc, block)
      ensures n == |EncodedBlock(env.crc, block)|
    {
      hide Framed, RecordEncoder, Le32;
      var totalSize := currentBlockSize + 4;
      var bw := new Sink();
      bw.Write(Le32(totalSize));
      bw.Write(Le32(|block|));
      WriteEntries(bw);
      assert bw.data == [] + Le32(totalSize) + Le32(|block|) + Framed(block, RecordEncoder());
      assert [] + Le32(totalSize) == Le32(totalSize);
      ConcatAssociates(Le32(totalSize), Le32(|block|), Framed(block, RecordEncoder()));
      file.Write(bw.data);
      file.Write(Le32(env.crc(bw.data)));
      n := totalSize;
      ConcatAssociates(old(file.data), BlockBody(block), Le32(env.crc(BlockBody(block))));
    }

    method WriteEntries(bw: Sink)
      requires forall r :: r in block ==> r.Fits()
      modifies bw
      ensures bw.data == old(bw.data) + Framed(block, RecordEncoder())
    {
      hide RecordEncoder, Le32;
      assert old(bw.data) + Framed(block[..0], RecordEncoder()) == old(bw.data);
      for i := 0 to |block|
        invariant bw.data == old(bw.data) + Framed(block[..i], RecordEncoder())
      {
        assert block[..i + 1] == block[..i] + [block[i]];
        WriteEntry(bw, block[i], old(bw.data), block[..i]);
      }
      assert block[..|block|] == block;
    }

    /** One record goes out behind its size. */
    method WriteEntry(bw: Sink, rec: Record, ghost before: bytes, ghost done: seq<Record>)
      requires rec.Fits() && bw.data == before + Framed(done, RecordEncoder())
      modifies bw
      ensures bw.data == before + Framed(done + [rec], RecordEncoder())
    {
      hide Framed, Le32;
      FramedSnoc(done, rec, RecordEncoder());
      SizeIsEncodedLength(rec);
      var size := Le32(rec.Size());
      bw.Write(size);
      EncodeRecordIntoWriter(bw, rec);
      ConcatAssociates(before, Framed(done, RecordEncoder()), size);
    }

    /** Leaves the complete file: every record added, in blocks that end where the block size is reached, behind a filter of exactly their keys. */
    method Close() returns (size: nat)
      requires Valid()
      modifies Repr()
      ensures size == |file.data|
      ensures NonEmptyBlocks(blocks) && Flatten(blocks) == old(Added())
      ensures filter.Valid() && file.data == Image(env.crc, blocks, filter.Data())
      ensures forall j :: 0 <= j < |blocks| ==> forall r :: r in blocks[j] ==> r.Fits()
      ensures Fits(env.crc, blocks, filter.Data()) ==> IsTable(env, file.data, blocks, filter.Data())
      ensures CutInto(blocks, OpenBytes, blockSize) && FilterOf(filter.Data(), filter0, env.fnv, Flatten(blocks))
    {
      hide Full, Open, OpenBytes, FilterOf;
      FullIsCut(blocks, OpenBytes, blockSize);
      OneMorePart(blocks, block, OpenBytes, blockSize);
      FlushBlock();
      assert Flatten(blocks) == Added();
      FilterContains(filter.Data(), filter0, env.fnv, Added());
      WriteTail();
      size := |file.data|;
    }

    /** Index, filter and footer follow the data region. */
    method WriteTail()
      requires offset == |file.data|
      modifies file, this`offset
      ensures file.data == Assemble(old(file.data), EncodedIndex(index), EncodedFilter(filter.Data()))
    {
      var indexOffset := offset;
      var indexBytes := EncodedIndex(index);
      file.Write(indexBytes);
      offset := offset + |indexBytes|;
      var filterOffset := offset;
      var filterBytes := EncodedFilter(filter.Data());
      file.Write(filterBytes);
      offset := offset + |filterBytes|;
      WriteFooter(old(file.data), indexOffset, indexBytes, filterOffset, filterBytes);
    }

    method WriteFooter(ghost data: bytes, indexOffset: nat, indexBytes: bytes, filterOffset: nat, filterBytes: bytes)
      requires file.data == data + indexBytes + filterBytes
      requires indexOffset == |data| && filterOffset == |data| + |indexBytes|
      modifies file
      ensures file.data == Assemble(data, indexBytes, filterBytes)
    {
      var footer := Footer(Low64(indexOffset), Low32(|indexBytes|), Low64(filterOffset), Low32(|filterBytes|), MAGIC);
      file.Write(EncodedFooter(footer));
      ConcatAssociates(data + indexBytes, filterBytes, EncodedFooter(footer));
      ConcatAssociates(data, indexBytes, filterBytes + EncodedFooter(footer));
    }
  }
}
