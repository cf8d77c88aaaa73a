/** How large a table file can get from what its writer counts (internal/sstable/writer.go). */
module TableSizes {
  import opened Bytes
  import opened Records
  import opened Runs
  import opened Frames
  import opened Filters
  import opened TableFormat
  import opened TableImage
  import opened TableWriters

  ghost predicate AllFit(s: seq<Record>) {
    forall r :: r in s ==> r.Fits()
  }

  /** A record's size is at least 17, and a framed record is four bytes longer. */
  lemma {:induction false} FramedSize(s: seq<Record>)
    requires AllFit(s)
    ensures |Framed(s, RecordEncoder())| == SumSizes(s) + 4 * |s| && 17 * |s| <= SumSizes(s)
  {
    if s != [] {
      var n := |s| - 1;
      assert s == s[..n] + [s[n]];
      assert s[n] in s && AllFit(s[..n]);
      FramedSize(s[..n]);
      FramedSnoc(s[..n], s[n], RecordEncoder());
      SizeIsEncodedLength(s[n]);
    }
  }

  lemma BlockSize(crc: Checksum, b: seq<Record>)
    requires AllFit(b) && b != []
    ensures |EncodedBlock(crc, b)| <= 2 * SumSizes(b) && 12 + |Framed(b, RecordEncoder())| <= 2 * SumSizes(b)
  {
    FramedSize(b);
  }

  ghost predicate BlocksFit(blocks: Blocks) {
    NonEmptyBlocks(blocks) && forall j :: 0 <= j < |blocks| ==> AllFit(blocks[j])
  }

  lemma {:induction false} DataSize(crc: Checksum, blocks: Blocks)
    requires BlocksFit(blocks)
    ensures |DataRegion(crc, blocks)| <= 2 * SumSizes(Flatten(blocks))
    decreases |blocks|
  {
    if blocks != [] {
      var n := |blocks| - 1;
      hide EncodedBlock, Flatten;
      DataSize(crc, blocks[..n]);
      BlockSize(crc, blocks[n]);
      assert blocks == blocks[..n] + [blocks[n]];
      FlattenSnoc(blocks[..n], blocks[n]);
      SumSizesConcat(Flatten(blocks[..n]), blocks[n]);
    }
  }

  lemma LastIsPart(b: seq<Record>)
    requires b != []
    ensures b[|b| - 1].Size() <= SumSizes(b)
  {
  }

  lemma {:induction false} IndexSize(crc: Checksum, blocks: Blocks)
    requires BlocksFit(blocks)
    ensures |Framed(IndexOf(crc, blocks), EntryEncoder())| <= 2 * SumSizes(Flatten(blocks))
    decreases |blocks|
  {
    if blocks != [] {
      var n := |blocks| - 1;
      IndexSize(crc, blocks[..n]);
      assert blocks == blocks[..n] + [blocks[n]];
      AddBlock(crc, blocks[..n], blocks[n]);
      var e := EntryOf(crc, blocks, n);
      FramedSnoc(IndexOf(crc, blocks[..n]), e, EntryEncoder());
      FlattenSnoc(blocks[..n], blocks[n]);
      SumSizesConcat(Flatten(blocks[..n]), blocks[n]);
      LastIsPart(blocks[n]);
      assert Last(blocks[n]) in blocks[n];
      SizeIsEncodedLength(Last(blocks[n]));
    }
  }

  lemma {:induction false} BlockIsPart(blocks: Blocks, j: nat)
    requires j < |blocks|
    ensures SumSizes(blocks[j]) <= SumSizes(Flatten(blocks))
    decreases |blocks|
  {
    var n := |blocks| - 1;
    assert blocks == blocks[..n] + [blocks[n]];
    FlattenSnoc(blocks[..n], blocks[n]);
    SumSizesConcat(Flatten(blocks[..n]), blocks[n]);
    if j < n {
      BlockIsPart(blocks[..n], j);
    }
  }

  /** Records of less than half a gigabyte in all make a file whose fields hold all its offsets and sizes. */
  lemma SmallTableFits(crc: Checksum, blocks: Blocks, f: FilterData)
    requires BlocksFit(blocks) && SumSizes(Flatten(blocks)) < 0x2000_0000 && |f.bits| <= 0x2000_0000
    ensures Fits(crc, blocks, f)
  {
    DataSize(crc, blocks);
    IndexSize(crc, blocks);
    forall j | 0 <= j < |blocks| ensures BlockFits(blocks[j]) {
      BlockIsPart(blocks, j);
      BlockSize(crc, blocks[j]);
    }
  }
}
