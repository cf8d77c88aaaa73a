/** Point lookups and iteration over a table file (internal/sstable/reader.go, iterator.go). */
module TableReaders {
  import opened Bytes
  import opened Records
  import opened Runs
  import opened Filters
  import opened TableFormat
  import opened TableImage
  import opened BlockCaches
  import opened FileNames

  // ---------- searching block by block ----------

  ghost predicate GoodBlocks(blocks: Blocks) {
    NonEmptyBlocks(blocks) && WeaklySorted(Flatten(blocks))
  }

  lemma {:induction false} BlockOfFlat(blocks: Blocks, j: nat)
    requires j < |blocks|
    ensures Flatten(blocks) == Flatten(blocks[..j]) + (blocks[j] + Flatten(blocks[j + 1..]))
  {
    FlattenConcat(blocks[..j], blocks[j..]);
    assert blocks == blocks[..j] + blocks[j..];
    assert blocks[j..] == [blocks[j]] + blocks[j + 1..];
  }

  ghost function Separators(blocks: Blocks): (keys: seq<InternalKey>)
    requires NonEmptyBlocks(blocks)
    ensures |keys| == |blocks|
    ensures forall j :: 0 <= j < |keys| ==> keys[j] == Last(blocks[j]).key
  {
    seq(|blocks|, j requires 0 <= j < |blocks| && blocks[j] != [] => Last(blocks[j]).key)
  }

  /** Where the last record of block j stands among all the records. */
  ghost function EndOf(blocks: Blocks, j: nat): nat
    requires j < |blocks|
  {
    |Flatten(blocks[..j])| + |blocks[j]|
  }

  lemma EndsIncrease(blocks: Blocks, i: nat, j: nat)
    requires NonEmptyBlocks(blocks) && i <= j < |blocks|
    ensures 0 < EndOf(blocks, i) <= |Flatten(blocks)| && Flatten(blocks)[EndOf(blocks, i) - 1] == Last(blocks[i])
    ensures i < j ==> EndOf(blocks, i) < EndOf(blocks, j)
  {
    BlockOfFlat(blocks, i);
    if i < j {
      BlockOfFlat(blocks[..j], i);
      assert blocks[..j][..i] == blocks[..i];
    }
  }

  /** The separators go up, so the search for a block is a search in a sorted list. */
  lemma SeparatorsAscend(blocks: Blocks, t: InternalKey)
    requires GoodBlocks(blocks)
    ensures forall i, j :: 0 <= i < j < |blocks| && !Before(Separators(blocks)[i], t) ==> !Before(Separators(blocks)[j], t)
  {
    forall i, j | 0 <= i < j < |blocks| && !Before(Separators(blocks)[i], t) ensures !Before(Separators(blocks)[j], t) {
      EndsIncrease(blocks, i, j);
      EndsIncrease(blocks, j, j);
      BeforeIsOrder();
    }
  }

  lemma AllBeforeSeparator(blocks: Blocks, j: nat, t: InternalKey)
    requires GoodBlocks(blocks) && j <= |blocks|
    requires forall i :: 0 <= i < j ==> Before(Separators(blocks)[i], t)
    ensures LowerBound(Flatten(blocks[..j]), t) == |Flatten(blocks[..j])|
  {
    if j > 0 {
      PrefixEnds(blocks, j);
      assert Before(Separators(blocks)[j - 1], t);
      PrefixIsSorted(Flatten(blocks[..j]), Flatten(blocks));
      EndsBefore(Flatten(blocks[..j]), t);
    } else {
      assert blocks[..0] == [];
    }
  }

  lemma PrefixEnds(blocks: Blocks, j: nat)
    requires NonEmptyBlocks(blocks) && 0 < j <= |blocks|
    ensures var s := Flatten(blocks[..j]); s <= Flatten(blocks) && s != [] && Last(s) == Last(blocks[j - 1])
  {
    hide Flatten;
    var i := j - 1;
    assert blocks[..j] == blocks[..i] + [blocks[i]];
    BlockOfFlat(blocks, i);
    FlattenSnoc(blocks[..i], blocks[i]);
    PrefixOf(Flatten(blocks[..i]), blocks[i], Flatten(blocks[i + 1..]));
  }

  lemma PrefixOf(a: seq<Record>, b: seq<Record>, c: seq<Record>)
    ensures a + b <= a + (b + c)
    ensures b != [] ==> Last(a + b) == Last(b)
  {
  }

  lemma EndsBefore(s: seq<Record>, t: InternalKey)
    requires WeaklySorted(s) && s != [] && Before(Last(s).key, t)
    ensures LowerBound(s, t) == |s|
  {
    BeforeIsOrder();
    forall i | 0 <= i < |s| ensures Before(s[i].key, t) {
      assert i < |s| - 1 ==> !Before(s[|s| - 1].key, s[i].key);
    }
    LowerBoundUnique(s, t, |s|);
  }

  /**
   * The first record at or after t is in the first block whose last key is at or after t,
   * and there the search within the block finds it.
   */
  lemma LowerBoundByBlock(blocks: Blocks, j: nat, t: InternalKey)
    requires GoodBlocks(blocks) && j <= |blocks|
    requires forall i :: 0 <= i < j ==> Before(Separators(blocks)[i], t)
    requires j < |blocks| ==> !Before(Separators(blocks)[j], t)
    ensures j < |blocks| ==> LowerBound(blocks[j], t) < |blocks[j]|
    ensures LowerBound(Flatten(blocks), t) == |Flatten(blocks[..j])| + if j < |blocks| then LowerBound(blocks[j], t) else 0
  {
    AllBeforeSeparator(blocks, j, t);
    if j < |blocks| {
      BlockOfFlat(blocks, j);
      LowerBoundConcat(Flatten(blocks[..j]), blocks[j] + Flatten(blocks[j + 1..]), t);
      LowerBoundConcat(blocks[j], Flatten(blocks[j + 1..]), t);
    } else {
      assert blocks[..j] == blocks;
    }
  }

  /** The first block to look in, by binary search over the separators. */
  ghost function BlockFor(blocks: Blocks, t: InternalKey): nat
    requires NonEmptyBlocks(blocks)
  {
    Probe(AtOrAfter(Separators(blocks), t), 0, |blocks|)
  }

  lemma BlockForIsFirst(blocks: Blocks, t: InternalKey)
    requires GoodBlocks(blocks)
    ensures var j := BlockFor(blocks, t);
            && j <= |blocks|
            && (forall i :: 0 <= i < j ==> Before(Separators(blocks)[i], t))
            && (j < |blocks| ==> !Before(Separators(blocks)[j], t))
  {
    SeparatorsAscend(blocks, t);
    ProbeIsLeast(AtOrAfter(Separators(blocks), t), 0, |blocks|);
    assert forall i :: 0 <= i < |blocks| ==> AtOrAfter(Separators(blocks), t)(i) == !Before(Separators(blocks)[i], t);
  }

  function KeysOf(entries: seq<Record>): (keys: seq<InternalKey>)
    ensures |keys| == |entries|
    ensures forall i :: 0 <= i < |keys| ==> keys[i] == entries[i].key
  {
    seq(|entries|, i requires 0 <= i < |entries| => entries[i].key)
  }

  /** Binary search inside a sorted block is linear search. */
  lemma SearchInBlock(entries: seq<Record>, t: InternalKey)
    requires WeaklySorted(entries)
    ensures Probe(AtOrAfter(KeysOf(entries), t), 0, |entries|) == LowerBound(entries, t)
  {
    LowerBoundSplits(entries, t);
    var f := AtOrAfter(KeysOf(entries), t);
    assert forall i :: 0 <= i < |entries| ==> f(i) == !Before(entries[i].key, t);
    ProbeIsLeast(f, 0, |entries|);
    LowerBoundUnique(entries, t, Probe(f, 0, |entries|));
  }

  lemma BlockIsSorted(blocks: Blocks, j: nat)
    requires GoodBlocks(blocks) && j < |blocks|
    ensures WeaklySorted(blocks[j])
  {
    hide WeaklySorted, Flatten;
    BlockOfFlat(blocks, j);
    MiddleIsSorted(Flatten(blocks[..j]), blocks[j], Flatten(blocks[j + 1..]));
  }

  /** Two nested binary searches, over the separators and then inside a block, are one linear search. */
  lemma FindByBlock(blocks: Blocks, key: InternalKey)
    requires GoodBlocks(blocks)
    ensures var b := BlockFor(blocks, key);
            && b <= |blocks|
            && if b == |blocks| then Find(Flatten(blocks), key) == None else
               var idx := Probe(AtOrAfter(KeysOf(blocks[b]), key), 0, |blocks[b]|);
               && idx < |blocks[b]|
               && Find(Flatten(blocks), key) == if blocks[b][idx].key.userKey == key.userKey then Some(blocks[b][idx]) else None
  {
    hide Flatten, WeaklySorted, Probe, Separators;
    var b := BlockFor(blocks, key);
    BlockForIsFirst(blocks, key);
    LowerBoundByBlock(blocks, b, key);
    if b == |blocks| {
      assert blocks[..b] == blocks;
    } else {
      BlockIsSorted(blocks, b);
      SearchInBlock(blocks[b], key);
      BlockOfFlat(blocks, b);
    }
  }

  lemma FoundIsThere(s: seq<Record>, key: InternalKey)
    ensures Find(s, key).Some? ==> Find(s, key).value in s && Find(s, key).value.key.userKey == key.userKey
  {
  }

  // ---------- the shared cache ----------

  /** b is the block of this table that starts at file offset off. */
  ghost predicate IsBlockAt(crc: Checksum, blocks: Blocks, off: uint64, b: Block) {
    exists j :: 0 <= j < |blocks| && off == |DataRegion(crc, blocks[..j])| && b == blocks[j]
  }

  lemma BlockAtIsUnique(crc: Checksum, blocks: Blocks, j: nat, off: uint64, b: Block)
    requires j < |blocks| && off == |DataRegion(crc, blocks[..j])| && IsBlockAt(crc, blocks, off, b)
    ensures b == blocks[j]
  {
    var i :| 0 <= i < |blocks| && off == |DataRegion(crc, blocks[..i])| && b == blocks[i];
    if i < j {
      OffsetsIncrease(crc, blocks, i, j);
    } else if j < i {
      OffsetsIncrease(crc, blocks, j, i);
    }
  }

  /** tables says which blocks each file number stands for, now and for the rest of the run. */
  type Catalog = map<uint64, Blocks>

  /** Whatever is cached is what decoding the file would give. */
  ghost predicate CacheAgrees(cache: LRU?, crc: Checksum, tables: Catalog)
    reads CacheFrame(cache)
  {
    cache != null ==>
      && cache.Valid()
      && forall k :: k in cache.items ==> k.fileNum in tables && IsBlockAt(crc, tables[k.fileNum], k.offset, cache.items[k])
  }

  function CacheFrame(cache: LRU?): set<object> {
    if cache == null then {} else {cache}
  }

  /** Adding a table under a fresh number does not disturb the cache: this is why numbers must not be reused. */
  lemma CatalogGrows(cache: LRU?, crc: Checksum, tables: Catalog, fileNum: uint64, blocks: Blocks)
    requires CacheAgrees(cache, crc, tables) && fileNum !in tables
    ensures CacheAgrees(cache, crc, tables[fileNum := blocks])
  {
  }

  // ---------- the reader ----------

  class TableReader {
    const file: bytes
    const index: seq<IndexEntry>
    const filter: Filter
    const fileNum: uint64
    const cache: LRU?
    const env: Env
    ghost const blocks: Blocks

    ghost predicate Valid()
      reads filter
    {
      && filter.Valid() && filter.fnv == env.fnv
      && NonEmptyBlocks(blocks) && IsTable(env, file, blocks, filter.Data())
      && index == IndexOf(env.crc, blocks)
    }

    ghost predicate Listed(tables: Catalog) {
      fileNum in tables && tables[fileNum] == blocks
    }

    ghost function Records(): seq<Record> {
      Flatten(blocks)
    }

    constructor (file: bytes, index: seq<IndexEntry>, filter: Filter, fileNum: uint64, cache: LRU?, env: Env, ghost blocks: Blocks)
      ensures this.file == file && this.index == index && this.filter == filter && this.fileNum == fileNum
      ensures this.cache == cache && this.env == env && this.blocks == blocks
    {
      this.file, this.index, this.filter, this.fileNum := file, index, filter, fileNum;
      this.cache, this.env, this.blocks := cache, env, blocks;
    }

    /**
     * Reads the footer, then the index and filter it points to; anything malformed is an error.
     * The number that the reader's blocks are cached under is scanned from the file's name.
     */
    static method Open(file: bytes, name: string, cache: LRU?, env: Env, ghost blocks: Blocks) returns (r: Result<TableReader>)
      ensures r.Ok? <==> ParseTable(file).Ok?
      ensures r.Ok? ==>
        var t := r.value;
        && fresh(t) && fresh(t.filter) && t.file == file && t.fileNum == TableNumber(name) && t.cache == cache && t.env == env && t.blocks == blocks
        && t.index == ParseTable(file).value.index && t.filter.Data() == ParseTable(file).value.filter && t.filter.fnv == env.fnv
    {
      var footerBytes := ReadAt(file, |file| - FOOTER_SIZE, FOOTER_SIZE);
      if footerBytes.Err? { return Err; }
      var footer := DecodeFooter(footerBytes.value);
      if footer.Err? { return Err; }
      var indexBytes := ReadAt(file, footer.value.indexOffset, footer.value.indexSize);
      if indexBytes.Err? { return Err; }
      var index := DecodeIndexBlock(indexBytes.value);
      if index.Err? { return Err; }
      var filterBytes := ReadAt(file, footer.value.filterOffset, footer.value.filterSize);
      if filterBytes.Err? { return Err; }
      var data := DecodeFilter(filterBytes.value);
      if data.Err? { return Err; }
      var filter := new Filter(data.value, env.fnv);
      var reader := new TableReader(file, index.value, filter, TableNumber(name), cache, env, blocks);
      return Ok(reader);
    }

    /** A file that holds these blocks opens, and the reader sees them. */
    lemma OpenedIsValid(f: FilterData)
      requires IsTable(env, file, blocks, f)
      requires ParseTable(file).Ok? ==> index == ParseTable(file).value.index && filter.Data() == ParseTable(file).value.filter
      requires filter.fnv == env.fnv
      ensures ParseTable(file).Ok? && Valid()
    {
      ImageParses(env.crc, blocks, f);
    }

    /** What the file itself holds in a range. */
    function InFile(offset: uint64, size: uint32): Result<Block> {
      match ReadAt(file, offset, size)
      case Err => Err
      case Ok(blockBytes) => DecodedBlock(env.crc, blockBytes)
    }

    /** readBlock, whatever the cache holds: a cached block is trusted, any other is read from the file and cached. */
    method ReadBlock(offset: uint64, size: uint32) returns (r: Result<Block>)
      requires cache != null ==> cache.Valid()
      modifies CacheFrame(cache)
      ensures r == if cache != null && BlockKey(fileNum, offset) in old(cache.items) then Ok(old(cache.items)[BlockKey(fileNum, offset)])
                   else InFile(offset, size)
      ensures cache != null ==>
          && cache.Valid()
          && (forall k :: k in cache.items ==> if k == BlockKey(fileNum, offset) then r == Ok(cache.items[k]) else k in old(cache.items) && cache.items[k] == old(cache.items)[k])
          && cache.ll == if r.Ok? then Touched(old(cache.ll), cache.cap, BlockKey(fileNum, offset)) else old(cache.ll)
    {
      if cache != null {
        var data, ok := cache.Get(fileNum, offset);
        if ok {
          return Ok(data);
        }
      }
      var blockBytes := ReadAt(file, offset, size);
      if blockBytes.Err? { return Err; }
      r := DecodeBlock(env.crc, blockBytes.value);
      if r.Err? { return Err; }
      if cache != null {
        cache.Set(fileNum, offset, r.value);
      }
    }

    /** Through the cache or not, the caller gets the block that the file holds there, as long as the cache agrees with the tables. */
    method FetchBlock(j: nat, ghost tables: Catalog) returns (r: Result<Block>)
      requires Valid() && Listed(tables) && CacheAgrees(cache, env.crc, tables) && j < |blocks|
      modifies CacheFrame(cache)
      ensures CacheAgrees(cache, env.crc, tables)
      ensures r == Ok(blocks[j]) && (cache != null ==> cache.ll == Touched(old(cache.ll), cache.cap, BlockKey(fileNum, index[j].blockOffset)))
    {
      hide Touched, IsBlockAt, IsTable, DataRegion, IndexOf, DecodedBlock, LRU.Valid, InFile;
      BlockIsThere(j);
      r := ReadBlock(index[j].blockOffset, index[j].blockSize);
    }

    /** Where the index says that block j is, the file has it, and whatever is found in a cache for that place is it. */
    lemma BlockIsThere(j: nat)
      requires Valid() && j < |blocks|
      ensures j < |index| && InFile(index[j].blockOffset, index[j].blockSize) == Ok(blocks[j])
      ensures forall b: Block :: IsBlockAt(env.crc, blocks, index[j].blockOffset, b) <==> b == blocks[j]
    {
      BlockBytes(env.crc, blocks, filter.Data(), j);
      BlockRoundTrip(env.crc, blocks[j]);
      var offset := index[j].blockOffset;
      forall b: Block | IsBlockAt(env.crc, blocks, offset, b) ensures b == blocks[j] {
        BlockAtIsUnique(env.crc, blocks, j, offset, b);
      }
      assert IsBlockAt(env.crc, blocks, offset, blocks[j]);
    }

    /** sort.Search over the separators: the first block whose last key is at or after key. */
    method FindBlockIndex(key: InternalKey) returns (idx: nat)
      requires Valid()
      ensures idx == BlockFor(blocks, key)
    {
      assert SeparatorKeys(index) == Separators(blocks);
      ghost var looked;
      idx, looked := Search(|index|, AtOrAfter(SeparatorKeys(index), key));
    }

    /** What the filter excludes is not there. */
    lemma ExcludedIsAbsent(key: InternalKey)
      requires Valid() && !filter.Data().MayContain(env.fnv, key.userKey)
      ensures Find(Records(), key) == None
    {
      FoundIsThere(Records(), key);
    }

    /**
     * The first record at or after key, if it has key's user key: as linear search over everything
     * added would give. One block is fetched for it, or none if the filter excludes the key or no
     * block reaches it.
     */
    method Get(key: InternalKey, ghost tables: Catalog) returns (r: Result<Option<Record>>)
      requires Valid() && GoodBlocks(blocks) && Listed(tables) && CacheAgrees(cache, env.crc, tables)
      modifies CacheFrame(cache)
      ensures CacheAgrees(cache, env.crc, tables)
      ensures r == Ok(Find(Records(), key))
      ensures cache != null ==>
        var b := BlockFor(blocks, key);
          cache.ll == if filter.Data().MayContain(env.fnv, key.userKey) && b < |index| then Touched(old(cache.ll), cache.cap, BlockKey(fileNum, index[b].blockOffset))
                      else old(cache.ll)
    {
      hide Flatten, WeaklySorted, Probe, Touched, IsTable, IsBlockAt, LowerBound, DataRegion, LRU.Valid, BlockFor;
      var may := filter.Contains(key.userKey);
      if !may {
        ExcludedIsAbsent(key);
        return Ok(None);
      }
      var b := FindBlockIndex(key);
      FindByBlock(blocks, key);
      if b >= |index| {
        return Ok(None);
      }
      var block := FetchBlock(b, tables);
      if block.Err? {
        return Err;
      }
      var entries := block.value;
      var idx, looked := Search(|entries|, AtOrAfter(KeysOf(entries), key));
      if idx >= |entries| || entries[idx].key.userKey != key.userKey {
        return Ok(None);
      }
      return Ok(Some(entries[idx]));
    }
  }

  function SeparatorKeys(index: seq<IndexEntry>): (keys: seq<InternalKey>)
    ensures |keys| == |index|
    ensures forall j :: 0 <= j < |keys| ==> keys[j] == index[j].separator
  {
    seq(|index|, j requires 0 <= j < |index| => index[j].separator)
  }
}
