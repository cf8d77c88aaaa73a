/** Internal keys and records: the order on keys, and the byte format of both (internal/record). */
module Records {
  import opened Bytes

  const TYPE_PUT: byte := 1
  const TYPE_DEL: byte := 0

  datatype InternalKey = InternalKey(userKey: bytes, seqNum: uint64, typ: byte) {
    /** len(Encoded) as the source's uint32 arithmetic gives it. */
    function KeySize(): uint32 {
      Low32(4 + |userKey| + 8 + 1)
    }
  }

  datatype Record = Record(key: InternalKey, value: bytes) {
    predicate IsTombstone() {
      key.typ == TYPE_DEL
    }

    function Size(): uint32 {
      Low32(4 + |key.userKey| + 8 + 1 + 4 + |value|)
    }

    /** Both length fields, and the length of the whole encoding, fit the format's 32 bits. */
    predicate Fits() {
      |key.userKey| + |value| + 17 < 0x1_0000_0000
    }
  }

  // ---------- order ----------

  /** a.Compare(b) < 0: user key ascending, then sequence number descending. */
  predicate Before(a: InternalKey, b: InternalKey) {
    Less(a.userKey, b.userKey) || (a.userKey == b.userKey && a.seqNum > b.seqNum)
  }

  /** bytes.Compare. */
  function CompareBytes(a: bytes, b: bytes): int {
    if a == [] then (if b == [] then 0 else -1)
    else if b == [] || a[0] > b[0] then 1
    else if a[0] < b[0] then -1 else CompareBytes(a[1..], b[1..])
  }

  function Compare(a: InternalKey, b: InternalKey): int {
    var cmp := CompareBytes(a.userKey, b.userKey);
    if cmp != 0 then cmp
    else if a.seqNum < b.seqNum then 1 else if a.seqNum > b.seqNum then -1 else 0
  }

  lemma {:induction false} CompareBytesIsLess(a: bytes, b: bytes)
    ensures CompareBytes(a, b) < 0 <==> Less(a, b)
    ensures CompareBytes(a, b) == 0 <==> a == b
  {
    if a != [] && b != [] {
      CompareBytesIsLess(a[1..], b[1..]);
      assert a == [a[0]] + a[1..] && b == [b[0]] + b[1..];
    }
  }

  /** The sign of Compare is the order Before; it is zero for one version of one user key, whatever the types. */
  lemma CompareIsBefore(a: InternalKey, b: InternalKey)
    ensures Compare(a, b) < 0 <==> Before(a, b)
    ensures Compare(a, b) > 0 <==> Before(b, a)
    ensures Compare(a, b) == 0 <==> a.userKey == b.userKey && a.seqNum == b.seqNum
  {
    CompareBytesIsLess(a.userKey, b.userKey);
    LessIsOrder();
  }

  /** Before is a strict total order on (user key, sequence number); the type plays no part. */
  lemma BeforeIsOrder()
    ensures forall a, b {:trigger Before(a, b)} :: !(Before(a, b) && Before(b, a))
    ensures forall a, b {:trigger Before(a, b)} :: Before(a, b) || Before(b, a) || (a.userKey == b.userKey && a.seqNum == b.seqNum)
    ensures forall a, b, c {:trigger Before(a, b), Before(b, c)} :: Before(a, b) && Before(b, c) ==> Before(a, c)
    ensures forall a, b, c {:trigger Before(a, b), Before(c, b)} :: Before(a, b) && !Before(c, b) ==> Before(a, c)
    ensures forall a, b, c {:trigger Before(a, b), Before(a, c)} :: Before(a, b) && !Before(a, c) ==> Before(c, b)
  {
    LessIsOrder();
  }

  // ---------- encoding ----------

  function EncodedKey(k: InternalKey): (b: bytes)
    ensures |b| == 13 + |k.userKey|
  {
    Le32(|k.userKey|) + k.userKey + Le64(k.seqNum) + [k.typ]
  }

  function EncodedRecord(r: Record): (b: bytes)
    ensures |b| == 17 + |r.key.userKey| + |r.value|
  {
    EncodedKey(r.key) + Le32(|r.value|) + r.value
  }

  function DecodeInternalKey(src: bytes, off: nat): Result<(InternalKey, nat)>
    requires off <= |src|
  {
    if off + 4 > |src| then Err else
    var keyLen := Uint32(src[off..]);
    var o1 := off + 4;
    if o1 + keyLen > |src| then Err else
    var o2 := o1 + keyLen;
    if o2 + 8 > |src| then Err else
    var o3 := o2 + 8;
    if o3 + 1 > |src| then Err else
    Ok((InternalKey(src[o1..o2], Uint64(src[o2..]), src[o3]), o3 + 1))
  }

  function DecodeRecord(data: bytes): Result<Record> {
    match DecodeInternalKey(data, 0)
    case Err => Err
    case Ok((key, off)) =>
      if off + 4 > |data| then Err else
      var valLen := Uint32(data[off..]);
      if off + 4 + valLen > |data| then Err else
      Ok(Record(key, data[off + 4..off + 4 + valLen]))
  }

  lemma SizeIsEncodedLength(r: Record)
    requires r.Fits()
    ensures r.Size() == |EncodedRecord(r)| && r.key.KeySize() == |EncodedKey(r.key)|
  {
  }

  /** A key decodes to itself wherever it stands in a buffer. */
  lemma KeyRoundTrip(pre: bytes, k: InternalKey, rest: bytes)
    requires |k.userKey| < 0x1_0000_0000
    ensures DecodeInternalKey(pre + EncodedKey(k) + rest, |pre|) == Ok((k, |pre| + |EncodedKey(k)|))
  {
    var n := |k.userKey|;
    var src := pre + EncodedKey(k) + rest;
    var off := |pre|;
    assert src[off..] == Le32(n) + (k.userKey + Le64(k.seqNum) + [k.typ] + rest);
    Le32RoundTrip(n, k.userKey + Le64(k.seqNum) + [k.typ] + rest);
    assert src[off + 4..off + 4 + n] == k.userKey;
    assert src[off + 4 + n..] == Le64(k.seqNum) + ([k.typ] + rest);
    Le64RoundTrip(k.seqNum, [k.typ] + rest);
    assert src[off + 4 + n + 8] == k.typ;
  }

  lemma RecordParts(k: bytes, l: bytes, v: bytes, rest: bytes)
    requires |l| == 4
    ensures var data := k + l + v + rest;
            && data == [] + k + (l + v + rest)
            && data[|k|..] == l + (v + rest)
            && data[|k| + 4..|k| + 4 + |v|] == v
  {
  }

  lemma RecordRoundTripAt(r: Record, rest: bytes)
    requires |r.key.userKey| < 0x1_0000_0000 && |r.value| < 0x1_0000_0000
    ensures DecodeRecord(EncodedRecord(r) + rest) == Ok(r)
  {
    hide EncodedKey, DecodeInternalKey, LittleEndian, FromLittleEndian, Uint32, Le32;
    var n := Le32(|r.value|);
    RecordParts(EncodedKey(r.key), n, r.value, rest);
    KeyRoundTrip([], r.key, n + r.value + rest);
    Le32RoundTrip(|r.value|, r.value + rest);
  }

  /** A record survives its encoding exactly when its two length fields do not wrap. */
  lemma RecordRoundTrip(r: Record)
    ensures DecodeRecord(EncodedRecord(r)) == Ok(r) <==> |r.key.userKey| < 0x1_0000_0000 && |r.value| < 0x1_0000_0000
  {
    if |r.key.userKey| < 0x1_0000_0000 && |r.value| < 0x1_0000_0000 {
      RecordRoundTripAt(r, []);
      assert EncodedRecord(r) + [] == EncodedRecord(r);
    }
  }

  /** A record cut short anywhere is rejected. */
  lemma TruncatedRecordRejected(r: Record, n: nat)
    requires r.Fits() && n < |EncodedRecord(r)|
    ensures DecodeRecord(EncodedRecord(r)[..n]) == Err
  {
    var data := EncodedRecord(r)[..n];
    var keyEnd := |EncodedKey(r.key)|;
    if n >= 4 {
      assert data == Le32(|r.key.userKey|) + data[4..];
      Le32RoundTrip(|r.key.userKey|, data[4..]);
      if n >= keyEnd {
        var rest := data[keyEnd..];
        assert data == [] + EncodedKey(r.key) + rest;
        KeyRoundTrip([], r.key, rest);
        if |rest| >= 4 {
          assert rest == Le32(|r.value|) + rest[4..];
          Le32RoundTrip(|r.value|, rest[4..]);
        }
      }
    }
  }

  // ---------- the encoders, which write in place or to a stream ----------

  /** PutUint32, PutUint64 and copy: b overwrites dst from off on. */
  method Put(dst: array<byte>, off: nat, b: bytes)
    requires off + |b| <= dst.Length
    modifies dst
    ensures dst[..off + |b|] == old(dst[..off]) + b
    ensures forall i :: off + |b| <= i < dst.Length ==> dst[i] == old(dst[i])
  {
    forall i | 0 <= i < |b| {
      dst[off + i] := b[i];
    }
  }

  method EncodeInternalKey(dst: array<byte>, start: nat, k: InternalKey) returns (off: nat)
    requires start + 13 + |k.userKey| <= dst.Length
    modifies dst
    ensures off == start + 13 + |k.userKey|
    ensures dst[..off] == old(dst[..start]) + EncodedKey(k)
    ensures forall i :: off <= i < dst.Length ==> dst[i] == old(dst[i])
  {
    off := start;
    Put(dst, off, Le32(|k.userKey|));
    off := off + 4;
    Put(dst, off, k.userKey);
    off := off + |k.userKey|;
    Put(dst, off, Le64(k.seqNum));
    off := off + 8;
    Put(dst, off, [k.typ]);
    off := off + 1;
    assert dst[..off] == old(dst[..start]) + (Le32(|k.userKey|) + k.userKey + Le64(k.seqNum) + [k.typ]);
  }

  /** Writes at position start of dst; the source passes the sub-slice that begins there. */
  method EncodeRecordInto(dst: array<byte>, start: nat, r: Record) returns (off: nat)
    requires start + 17 + |r.key.userKey| + |r.value| <= dst.Length
    modifies dst
    ensures off == start + |EncodedRecord(r)|
    ensures dst[..off] == old(dst[..start]) + EncodedRecord(r)
    ensures forall i :: off <= i < dst.Length ==> dst[i] == old(dst[i])
  {
    off := EncodeInternalKey(dst, start, r.key);
    Put(dst, off, Le32(|r.value|));
    off := off + 4;
    Put(dst, off, r.value);
    off := off + |r.value|;
  }

  /** An io.Writer that never fails. */
  class Sink {
    var data: bytes

    constructor ()
      ensures data == []
    {
      data := [];
    }

    method Write(b: bytes)
      modifies this
      ensures data == old(data) + b
    {
      data := data + b;
    }
  }

  method EncodeRecordIntoWriter(w: Sink, r: Record)
    modifies w
    ensures w.data == old(w.data) + EncodedRecord(r)
  {
    w.Write(Le32(|r.key.userKey|));
    w.Write(r.key.userKey);
    w.Write(Le64(r.key.seqNum));
    w.Write([r.key.typ]);
    w.Write(Le32(|r.value|));
    w.Write(r.value);
  }
}
