/** Two tables that one block cache takes for the same file (internal/sstable/reader.go). */
module Collisions {
  import opened Bytes
  import opened Records
  import opened Runs
  import opened Filters
  import opened TableFormat
  import opened TableImage
  import opened BlockCaches
  import opened TableReaders
  import opened FileNames

  method OpenedTable(n: uint64, file: bytes, cache: LRU, env: Env, ghost blocks: Blocks, ghost f: FilterData) returns (t: TableReader)
    requires IsTable(env, file, blocks, f)
    ensures fresh(t) && t.Valid() && t.cache == cache && t.blocks == blocks && t.file == file && t.env == env && t.fileNum == TableNumber(TableName(n))
  {
    var r := TableReader.Open(file, TableName(n), cache, env, blocks);
    ImageParses(env.crc, blocks, f);
    t := r.value;
    t.OpenedIsValid(f);
  }

  lemma FirstBlock(t: TableReader)
    requires t.Valid() && t.blocks != []
    ensures |t.index| > 0 && t.index[0].blockOffset == 0 && t.InFile(t.index[0].blockOffset, t.index[0].blockSize) == Ok(t.blocks[0])
  {
    assert t.blocks[..0] == [];
    BlockBytes(t.env.crc, t.blocks, t.filter.Data(), 0);
    BlockRoundTrip(t.env.crc, t.blocks[0]);
  }

  /** Whatever tables 1000000 and 1000001 hold: once the first block of one has been read, it is also read as that of the other. */
  method SecondTableReadsTheFirst(fileA: bytes, fileB: bytes, cap: int, env: Env, ghost a: Blocks, ghost fa: FilterData, ghost b: Blocks, ghost fb: FilterData)
    returns (first: Result<Block>, second: Result<Block>)
    requires IsTable(env, fileA, a, fa) && IsTable(env, fileB, b, fb) && a != [] && b != [] && cap >= 1
    ensures first == Ok(a[0]) && second == Ok(a[0])
  {
    hide IsTable, DataRegion, IndexOf, TableName, TableNumber;
    TableNumberIff(1_000_000);
    TableNumberIff(1_000_001);
    var cache := new LRU(cap);
    var ta := OpenedTable(1_000_000, fileA, cache, env, a, fa);
    var tb := OpenedTable(1_000_001, fileB, cache, env, b, fb);
    FirstBlock(ta);
    FirstBlock(tb);
    assert Leading(1_000_000) == 100_000 && Leading(1_000_001) == 100_000;
    first := ta.ReadBlock(ta.index[0].blockOffset, ta.index[0].blockSize);
    second := tb.ReadBlock(tb.index[0].blockOffset, tb.index[0].blockSize);
  }
}
