/** A whole table file as a function of its blocks and filter, and how it parses back. */
module TableImage {
  import opened Bytes
  import opened Records
  import opened Runs
  import opened Frames
  import opened Filters
  import opened TableFormat

  /** The checksum and the hash that files are written and read with. */
  datatype Env = Env(crc: Checksum, fnv: Hash)

  type Blocks = seq<seq<Record>>

  ghost predicate NonEmptyBlocks(blocks: Blocks) {
    forall j :: 0 <= j < |blocks| ==> blocks[j] != []
  }

  function Last(b: seq<Record>): Record
    requires b != []
  {
    b[|b| - 1]
  }

  function DataRegion(crc: Checksum, blocks: Blocks): bytes {
    if blocks == [] then [] else
      var n := |blocks| - 1;
      DataRegion(crc, blocks[..n]) + EncodedBlock(crc, blocks[n])
  }

  /** The index entry of block j: its last key and where its bytes are. */
  function EntryOf(crc: Checksum, blocks: Blocks, j: nat): IndexEntry
    requires j < |blocks| && blocks[j] != []
  {
    IndexEntry(Last(blocks[j]).key, Low64(|DataRegion(crc, blocks[..j])|), Low32(|EncodedBlock(crc, blocks[j])|))
  }

  function IndexOf(crc: Checksum, blocks: Blocks): (index: seq<IndexEntry>)
    requires NonEmptyBlocks(blocks)
    ensures |index| == |blocks|
    ensures forall j :: 0 <= j < |blocks| ==> index[j] == EntryOf(crc, blocks, j)
  {
    seq(|blocks|, j requires 0 <= j < |blocks| && blocks[j] != [] => EntryOf(crc, blocks, j))
  }

  lemma AddBlock(crc: Checksum, blocks: Blocks, b: seq<Record>)
    requires NonEmptyBlocks(blocks) && b != []
    ensures DataRegion(crc, blocks + [b]) == DataRegion(crc, blocks) + EncodedBlock(crc, b)
    ensures IndexOf(crc, blocks + [b]) == IndexOf(crc, blocks) + [EntryOf(crc, blocks + [b], |blocks|)]
  {
    hide IndexOf, EntryOf, EncodedBlock;
    var more := blocks + [b];
    assert more[..|blocks|] == blocks;
    forall j | 0 <= j < |blocks| ensures EntryOf(crc, more, j) == EntryOf(crc, blocks, j) {
      EntryKept(crc, blocks, b, j);
    }
    hide DataRegion;
    AppendedIndex(IndexOf(crc, blocks), IndexOf(crc, more), EntryOf(crc, more, |blocks|));
  }

  lemma AppendedIndex(index: seq<IndexEntry>, more: seq<IndexEntry>, e: IndexEntry)
    requires |more| == |index| + 1 && more[|index|] == e && forall j :: 0 <= j < |index| ==> more[j] == index[j]
    ensures more == index + [e]
  {
  }

  lemma EntryKept(crc: Checksum, blocks: Blocks, b: seq<Record>, j: nat)
    requires NonEmptyBlocks(blocks) && b != [] && j < |blocks|
    ensures EntryOf(crc, blocks + [b], j) == EntryOf(crc, blocks, j)
  {
    hide DataRegion, EncodedBlock, Low64, Low32;
    assert (blocks + [b])[..j] == blocks[..j] && (blocks + [b])[j] == blocks[j];
  }

  function FooterOf(data: nat, index: nat, filter: nat): Footer {
    Footer(Low64(data), Low32(index), Low64(data + index), Low32(filter), MAGIC)
  }

  function Assemble(data: bytes, index: bytes, filter: bytes): bytes {
    data + (index + (filter + EncodedFooter(FooterOf(|data|, |index|, |filter|))))
  }

  function Image(crc: Checksum, blocks: Blocks, f: FilterData): bytes
    requires NonEmptyBlocks(blocks)
  {
    Assemble(DataRegion(crc, blocks), EncodedIndex(IndexOf(crc, blocks)), EncodedFilter(f))
  }

  /** The file's offsets and sizes fit the fields that record them. */
  ghost predicate Fits(crc: Checksum, blocks: Blocks, f: FilterData)
    requires NonEmptyBlocks(blocks)
  {
    && (forall j :: 0 <= j < |blocks| ==> BlockFits(blocks[j]))
    && |EncodedIndex(IndexOf(crc, blocks))| < 0x1_0000_0000
    && |EncodedFilter(f)| < 0x1_0000_0000
    && |Image(crc, blocks, f)| < 0x8000_0000_0000_0000
  }

  // ---------- reading ----------

  function ReadAt(file: bytes, off: int, size: nat): Result<bytes> {
    if off < 0 || off + size > |file| then Err else Ok(file[off..off + size])
  }

  datatype Parsed = Parsed(index: seq<IndexEntry>, filter: FilterData)

  /** What Open reads: the footer from the end, then the index and the filter it points to. */
  function ParseTable(file: bytes): Result<Parsed> {
    match ReadAt(file, |file| - FOOTER_SIZE, FOOTER_SIZE)
    case Err => Err
    case Ok(footerBytes) =>
      match DecodeFooter(footerBytes)
      case Err => Err
      case Ok(footer) =>
        match ReadAt(file, footer.indexOffset, footer.indexSize)
        case Err => Err
        case Ok(indexBytes) =>
          match DecodedIndex(indexBytes)
          case Err => Err
          case Ok(index) =>
            match ReadAt(file, footer.filterOffset, footer.filterSize)
            case Err => Err
            case Ok(filterBytes) =>
              match DecodeFilter(filterBytes)
              case Err => Err
              case Ok(filter) => Ok(Parsed(index, filter))
  }

  lemma AssembledParts(data: bytes, index: bytes, filter: bytes)
    requires |index| < 0x1_0000_0000 && |filter| < 0x1_0000_0000 && |Assemble(data, index, filter)| < 0x8000_0000_0000_0000
    ensures var file := Assemble(data, index, filter);
            && ReadAt(file, |file| - FOOTER_SIZE, FOOTER_SIZE) == Ok(EncodedFooter(FooterOf(|data|, |index|, |filter|)))
            && ReadAt(file, |data|, |index|) == Ok(index)
            && ReadAt(file, |data| + |index|, |filter|) == Ok(filter)
            && FooterOf(|data|, |index|, |filter|) == Footer(|data|, |index|, |data| + |index|, |filter|, MAGIC)
  {
    FileParts(data, index, filter, EncodedFooter(FooterOf(|data|, |index|, |filter|)));
  }

  lemma FileParts(data: bytes, index: bytes, filter: bytes, footer: bytes)
    ensures var file := data + (index + (filter + footer));
            && ReadAt(file, |file| - |footer|, |footer|) == Ok(footer)
            && ReadAt(file, |data|, |index|) == Ok(index)
            && ReadAt(file, |data| + |index|, |filter|) == Ok(filter)
  {
    var file := data + (index + (filter + footer));
    assert file[|file| - |footer|..|file|] == footer;
    assert file == data + index + (filter + footer);
    assert file == (data + index) + filter + footer;
  }

  /** Parsing a file from its last 32 bytes recovers the index and the filter it was written with. */
  lemma ImageParses(crc: Checksum, blocks: Blocks, f: FilterData)
    requires NonEmptyBlocks(blocks) && Fits(crc, blocks, f)
    ensures ParseTable(Image(crc, blocks, f)) == Ok(Parsed(IndexOf(crc, blocks), f))
  {
    AssembledParses(DataRegion(crc, blocks), IndexOf(crc, blocks), f);
  }

  lemma AssembledParses(data: bytes, index: seq<IndexEntry>, f: FilterData)
    requires |EncodedIndex(index)| < 0x1_0000_0000 && |EncodedFilter(f)| < 0x1_0000_0000
    requires |Assemble(data, EncodedIndex(index), EncodedFilter(f))| < 0x8000_0000_0000_0000
    ensures ParseTable(Assemble(data, EncodedIndex(index), EncodedFilter(f))) == Ok(Parsed(index, f))
  {
    hide EncodedIndex, EncodedFilter, EncodedFooter, DecodedIndex, DecodeFilter, DecodeFooter, ReadAt, ParseTable;
    var ix, fl := EncodedIndex(index), EncodedFilter(f);
    var footer := FooterOf(|data|, |ix|, |fl|);
    AssembledParts(data, ix, fl);
    FooterRoundTrip(footer);
    IndexRoundTrip(index);
    FilterFits(f);
    FilterRoundTrip(f);
    ParseSteps(Assemble(data, ix, fl), footer, ix, index, fl, f);
  }

  lemma FilterFits(f: FilterData)
    requires |EncodedFilter(f)| < 0x1_0000_0000
    ensures |f.bits| < 0x1_0000_0000
  {
  }

  lemma ParseSteps(file: bytes, footer: Footer, indexBytes: bytes, index: seq<IndexEntry>, filterBytes: bytes, filter: FilterData)
    requires ReadAt(file, |file| - FOOTER_SIZE, FOOTER_SIZE) == Ok(EncodedFooter(footer)) && DecodeFooter(EncodedFooter(footer)) == Ok(footer)
    requires ReadAt(file, footer.indexOffset, footer.indexSize) == Ok(indexBytes) && DecodedIndex(indexBytes) == Ok(index)
    requires ReadAt(file, footer.filterOffset, footer.filterSize) == Ok(filterBytes) && DecodeFilter(filterBytes) == Ok(filter)
    ensures ParseTable(file) == Ok(Parsed(index, filter))
  {
  }

  lemma {:induction false} DataRegionPrefix(crc: Checksum, blocks: Blocks, j: nat)
    requires j <= |blocks|
    ensures DataRegion(crc, blocks[..j]) <= DataRegion(crc, blocks)
    decreases |blocks|
  {
    if j == |blocks| {
      assert blocks[..j] == blocks;
    } else {
      var n := |blocks| - 1;
      assert blocks[..n][..j] == blocks[..j];
      DataRegionPrefix(crc, blocks[..n], j);
    }
  }

  lemma BlockInData(crc: Checksum, blocks: Blocks, j: nat)
    requires j < |blocks|
    ensures var off := |DataRegion(crc, blocks[..j])|;
            DataRegion(crc, blocks[..j]) + EncodedBlock(crc, blocks[j]) <= DataRegion(crc, blocks)
  {
    assert blocks[..j + 1][..j] == blocks[..j] && blocks[..j + 1][j] == blocks[j];
    DataRegionPrefix(crc, blocks, j + 1);
  }

  lemma ReadPart(before: bytes, part: bytes, data: bytes, rest: bytes)
    requires before + part <= data
    ensures ReadAt(data + rest, |before|, |part|) == Ok(part)
  {
    assert (data + rest)[..|before + part|] == before + part;
  }

  /** The bytes that index entry j points to are block j. */
  lemma BlockBytes(crc: Checksum, blocks: Blocks, f: FilterData, j: nat)
    requires NonEmptyBlocks(blocks) && Fits(crc, blocks, f) && j < |blocks|
    ensures EntryOf(crc, blocks, j).blockOffset == |DataRegion(crc, blocks[..j])|
    ensures EntryOf(crc, blocks, j).blockSize == |EncodedBlock(crc, blocks[j])|
    ensures ReadAt(Image(crc, blocks, f), |DataRegion(crc, blocks[..j])|, |EncodedBlock(crc, blocks[j])|) == Ok(EncodedBlock(crc, blocks[j]))
  {
    var data, ix, fl := DataRegion(crc, blocks), EncodedIndex(IndexOf(crc, blocks)), EncodedFilter(f);
    BlockInData(crc, blocks, j);
    ReadPart(DataRegion(crc, blocks[..j]), EncodedBlock(crc, blocks[j]), data, ix + (fl + EncodedFooter(FooterOf(|data|, |ix|, |fl|))));
  }

  /** Block offsets tell the blocks apart. */
  lemma OffsetsIncrease(crc: Checksum, blocks: Blocks, i: nat, j: nat)
    requires i < j < |blocks|
    ensures |DataRegion(crc, blocks[..i])| < |DataRegion(crc, blocks[..j])|
  {
    assert blocks[..j][..i + 1] == blocks[..i + 1];
    DataRegionPrefix(crc, blocks[..j], i + 1);
    assert blocks[..i + 1][..i] == blocks[..i];
  }

  // ---------- what it means for a file to hold records ----------

  ghost predicate IsTable(env: Env, file: bytes, blocks: Blocks, f: FilterData) {
    && NonEmptyBlocks(blocks) && Fits(env.crc, blocks, f) && f.WellFormed()
    && file == Image(env.crc, blocks, f)
    && (forall r :: r in Flatten(blocks) ==> f.MayContain(env.fnv, r.key.userKey))
  }
}
