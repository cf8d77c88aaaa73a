/** The bytes of a table file: data blocks, index, filter and footer (internal/sstable). */
module TableFormat {
  import opened Bytes
  import opened Records
  import opened Runs
  import opened Frames
  import opened Filters

  /** crc stands for CRC-32: any deterministic checksum will do. */
  type Checksum = bytes -> uint32

  // ---------- data blocks ----------

  function RecordEncoder(): Record -> bytes {
    r => EncodedRecord(r)
  }

  function RecordDecoder(): bytes -> Result<Record> {
    b => DecodeRecord(b)
  }

  /** [total(4)][count(4)] and the framed records: what the checksum covers. */
  function BlockBody(entries: seq<Record>): bytes {
    var frames := Framed(entries, RecordEncoder());
    Le32(12 + |frames|) + (Le32(|entries|) + frames)
  }

  function EncodedBlock(crc: Checksum, entries: seq<Record>): (b: bytes)
    ensures |b| == 12 + |Framed(entries, RecordEncoder())|
  {
    BlockBody(entries) + Le32(crc(BlockBody(entries)))
  }

  function DecodedBlock(crc: Checksum, b: bytes): Result<seq<Record>> {
    if |b| < 12 then Err else
    if Uint32(b[|b| - 4..]) != crc(b[..|b| - 4]) then Err else
    Unframed(b, 8, Uint32(b[4..]), |b| - 4, RecordDecoder())
  }

  method DecodeBlock(crc: Checksum, b: bytes) returns (r: Result<seq<Record>>)
    ensures r == DecodedBlock(crc, b)
  {
    if |b| < 12 {
      return Err;
    }
    var sumOffset := |b| - 4;
    if Uint32(b[sumOffset..]) != crc(b[..sumOffset]) {
      return Err;
    }
    var numEntries := Uint32(b[4..]);
    r := DecodeFrames(b, 8, numEntries, sumOffset, RecordDecoder());
  }

  ghost predicate BlockFits(entries: seq<Record>) {
    && (forall r :: r in entries ==> r.Fits())
    && 0 < |entries|
    && 12 + |Framed(entries, RecordEncoder())| < 0x1_0000_0000
  }

  lemma {:induction false} FramedAtLeastFour(entries: seq<Record>)
    ensures 4 * |entries| <= |Framed(entries, RecordEncoder())|
  {
    if entries != [] {
      FramedAtLeastFour(entries[1..]);
    }
  }

  lemma RecordsRoundTrip(entries: seq<Record>)
    requires forall r :: r in entries ==> r.Fits()
    ensures forall r :: r in entries ==> |RecordEncoder()(r)| < 0x1_0000_0000 && RecordDecoder()(RecordEncoder()(r)) == Ok(r)
  {
    forall r | r in entries ensures RecordDecoder()(RecordEncoder()(r)) == Ok(r) {
      RecordRoundTrip(r);
    }
  }

  lemma BlockParts(total: bytes, count: bytes, frames: bytes, sum: bytes)
    requires |total| == |count| == |sum| == 4
    ensures var body := total + (count + frames);
            var b := body + sum;
            && b[..|b| - 4] == body && b[|b| - 4..] == sum
            && b[4..] == count + (frames + sum)
            && b == (total + count) + frames + sum
  {
  }

  lemma BlockRoundTrip(crc: Checksum, entries: seq<Record>)
    requires BlockFits(entries)
    ensures DecodedBlock(crc, EncodedBlock(crc, entries)) == Ok(entries)
  {
    var frames := Framed(entries, RecordEncoder());
    var total, count, sum := Le32(12 + |frames|), Le32(|entries|), Le32(crc(BlockBody(entries)));
    FramedAtLeastFour(entries);
    Le32RoundTrip(|entries|, frames + sum);
    Assembled(crc, total, count, frames, |entries|);
    EntriesDecode(total + count, entries, sum);
  }

  /** The checksum holds and the count is found, whatever the frames contain. */
  lemma Assembled(crc: Checksum, total: bytes, count: bytes, frames: bytes, n: uint32)
    requires |total| == |count| == 4
    requires Uint32(count + (frames + Le32(crc(total + (count + frames))))) == n
    ensures var body := total + (count + frames);
            var b := (total + count) + frames + Le32(crc(body));
            b == body + Le32(crc(body)) && DecodedBlock(crc, b) == Unframed(b, 8, n, |b| - 4, RecordDecoder())
  {
    var body := total + (count + frames);
    BlockParts(total, count, frames, Le32(crc(body)));
    ChecksumHolds(crc, body);
    BlockFields(crc, body + Le32(crc(body)), n);
  }

  lemma EntriesDecode(header: bytes, entries: seq<Record>, sum: bytes)
    requires |header| == 8 && |sum| == 4 && forall r :: r in entries ==> r.Fits()
    ensures var b := header + Framed(entries, RecordEncoder()) + sum;
            Unframed(b, 8, |entries|, |b| - 4, RecordDecoder()) == Ok(entries)
  {
    RecordsRoundTrip(entries);
    FramesRoundTrip(header, entries, sum, |header + Framed(entries, RecordEncoder())|, RecordEncoder(), RecordDecoder());
  }

  lemma ChecksumHolds(crc: Checksum, body: bytes)
    ensures var b := body + Le32(crc(body)); Uint32(b[|b| - 4..]) == crc(b[..|b| - 4])
  {
    var b := body + Le32(crc(body));
    assert b[..|b| - 4] == body && b[|b| - 4..] == Le32(crc(body));
    Le32Whole(crc(body));
  }

  lemma BlockFields(crc: Checksum, b: bytes, n: uint32)
    requires |b| >= 12 && Uint32(b[|b| - 4..]) == crc(b[..|b| - 4]) && Uint32(b[4..]) == n
    ensures DecodedBlock(crc, b) == Unframed(b, 8, n, |b| - 4, RecordDecoder())
  {
  }

  // ---------- index ----------

  datatype IndexEntry = IndexEntry(separator: InternalKey, blockOffset: uint64, blockSize: uint32)

  function EncodedIndexEntry(e: IndexEntry): (b: bytes)
    ensures |b| == 25 + |e.separator.userKey|
  {
    Le64(e.blockOffset) + Le32(e.blockSize) + EncodedKey(e.separator)
  }

  function DecodeIndexEntry(b: bytes): Result<IndexEntry> {
    if |b| < 12 then Err else
    match DecodeInternalKey(b, 12)
    case Err => Err
    case Ok((key, _)) => Ok(IndexEntry(key, Uint64(b), Uint32(b[8..])))
  }

  lemma IndexEntryRoundTrip(e: IndexEntry)
    requires |e.separator.userKey| < 0x1_0000_0000
    ensures DecodeIndexEntry(EncodedIndexEntry(e)) == Ok(e)
  {
    var b, key := EncodedIndexEntry(e), EncodedKey(e.separator);
    var pre := Le64(e.blockOffset) + Le32(e.blockSize);
    assert b == Le64(e.blockOffset) + (Le32(e.blockSize) + key);
    Le64RoundTrip(e.blockOffset, Le32(e.blockSize) + key);
    assert b[8..] == Le32(e.blockSize) + key;
    Le32RoundTrip(e.blockSize, key);
    assert b == pre + key + [];
    KeyRoundTrip(pre, e.separator, []);
  }

  function EntryEncoder(): IndexEntry -> bytes {
    e => EncodedIndexEntry(e)
  }

  function EntryDecoder(): bytes -> Result<IndexEntry> {
    b => DecodeIndexEntry(b)
  }

  function EncodedIndex(es: seq<IndexEntry>): bytes {
    Le32(|es|) + Framed(es, EntryEncoder())
  }

  function DecodedIndex(b: bytes): Result<seq<IndexEntry>> {
    if |b| < 4 then Err else Unframed(b, 4, Uint32(b), |b|, EntryDecoder())
  }

  method DecodeIndexBlock(b: bytes) returns (r: Result<seq<IndexEntry>>)
    ensures r == DecodedIndex(b)
  {
    if |b| < 4 {
      return Err;
    }
    var numEntries := Uint32(b);
    r := DecodeFrames(b, 4, numEntries, |b|, EntryDecoder());
  }

  lemma {:induction false} FramedEntriesBound(es: seq<IndexEntry>)
    ensures 4 * |es| <= |Framed(es, EntryEncoder())|
    ensures forall e :: e in es ==> |e.separator.userKey| + 29 <= |Framed(es, EntryEncoder())|
  {
    if es != [] {
      FramedEntriesBound(es[1..]);
    }
  }

  lemma EntriesRoundTrip(es: seq<IndexEntry>)
    requires forall e :: e in es ==> |e.separator.userKey| + 29 < 0x1_0000_0000
    ensures forall e :: e in es ==> |EntryEncoder()(e)| < 0x1_0000_0000 && EntryDecoder()(EntryEncoder()(e)) == Ok(e)
  {
    forall e | e in es ensures EntryDecoder()(EntryEncoder()(e)) == Ok(e) {
      IndexEntryRoundTrip(e);
    }
  }

  lemma IndexRoundTrip(es: seq<IndexEntry>)
    requires |EncodedIndex(es)| < 0x1_0000_0000
    ensures DecodedIndex(EncodedIndex(es)) == Ok(es)
  {
    var b := EncodedIndex(es);
    var count, frames := Le32(|es|), Framed(es, EntryEncoder());
    FramedEntriesBound(es);
    Le32RoundTrip(|es|, frames);
    assert b == count + frames + [];
    assert Uint32(b) == |es|;
    EntriesRoundTrip(es);
    FramesRoundTrip(count, es, [], |b|, EntryEncoder(), EntryDecoder());
  }

  // ---------- footer ----------

  const MAGIC: uint64 := 0xdbb5a3c4f1e2d678
  const FOOTER_SIZE: nat := 32

  datatype Footer = Footer(indexOffset: uint64, indexSize: uint32, filterOffset: uint64, filterSize: uint32, magic: uint64)

  function EncodedFooter(f: Footer): (b: bytes)
    ensures |b| == FOOTER_SIZE
  {
    Le64(f.indexOffset) + (Le32(f.indexSize) + (Le64(f.filterOffset) + (Le32(f.filterSize) + Le64(f.magic))))
  }

  function DecodeFooter(b: bytes): Result<Footer> {
    if |b| < FOOTER_SIZE then Err else
    var magic := Uint64(b[24..]);
    if magic != MAGIC then Err else
    Ok(Footer(Uint64(b), Uint32(b[8..]), Uint64(b[12..]), Uint32(b[20..]), magic))
  }

  lemma FooterRoundTrip(f: Footer)
    ensures DecodeFooter(EncodedFooter(f)) == if f.magic == MAGIC then Ok(f) else Err
  {
    var s4 := Le64(f.magic);
    var s3 := Le32(f.filterSize) + s4;
    var s2 := Le64(f.filterOffset) + s3;
    var s1 := Le32(f.indexSize) + s2;
    FooterParts(Le64(f.indexOffset), Le32(f.indexSize), Le64(f.filterOffset), Le32(f.filterSize), s4);
    assert s4 + [] == s4;
    Le64RoundTrip(f.indexOffset, s1);
    Le32RoundTrip(f.indexSize, s2);
    Le64RoundTrip(f.filterOffset, s3);
    Le32RoundTrip(f.filterSize, s4);
    Le64RoundTrip(f.magic, []);
    FooterFields(f, EncodedFooter(f));
  }

  lemma FooterFields(f: Footer, b: bytes)
    requires |b| == FOOTER_SIZE && Uint64(b) == f.indexOffset && Uint32(b[8..]) == f.indexSize
    requires Uint64(b[12..]) == f.filterOffset && Uint32(b[20..]) == f.filterSize && Uint64(b[24..]) == f.magic
    ensures DecodeFooter(b) == if f.magic == MAGIC then Ok(f) else Err
  {
  }

  lemma FooterParts(a: bytes, b: bytes, c: bytes, d: bytes, e: bytes)
    requires |a| == |c| == |e| == 8 && |b| == |d| == 4
    ensures var f := a + (b + (c + (d + e)));
            f[8..] == b + (c + (d + e)) && f[12..] == c + (d + e) && f[20..] == d + e && f[24..] == e
  {
    var f := a + (b + (c + (d + e)));
    assert f[8..] == b + (c + (d + e));
    assert f[12..] == f[8..][4..] == c + (d + e);
    assert f[20..] == f[12..][8..] == d + e;
    assert f[24..] == f[20..][4..] == e;
  }
}
