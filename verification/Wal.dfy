/** The write-ahead log: framing, replay of any prefix, and group commit (internal/wal/wal.go). */
module Wals {
  import opened Bytes
  import opened Records
  import opened TableFormat

  // ---------- framing ----------

  /** [size(4)][record][crc(4)]. */
  function WalFrame(crc: Checksum, r: Record): (b: bytes)
    ensures |b| == 8 + |EncodedRecord(r)|
  {
    Le32(|EncodedRecord(r)|) + (EncodedRecord(r) + Le32(crc(EncodedRecord(r))))
  }

  function EncodedRecords(crc: Checksum, recs: seq<Record>): bytes {
    if recs == [] then [] else WalFrame(crc, recs[0]) + EncodedRecords(crc, recs[1..])
  }

  lemma {:induction false} EncodedRecordsConcat(crc: Checksum, a: seq<Record>, b: seq<Record>)
    ensures EncodedRecords(crc, a + b) == EncodedRecords(crc, a) + EncodedRecords(crc, b)
  {
    hide WalFrame;
    if a == [] {
      assert a + b == b;
    } else {
      EncodedRecordsConcat(crc, a[1..], b);
      assert (a + b)[0] == a[0] && (a + b)[1..] == a[1..] + b;
      ConcatAssociates(WalFrame(crc, a[0]), EncodedRecords(crc, a[1..]), EncodedRecords(crc, b));
    }
  }

  function FramesSize(recs: seq<Record>): nat {
    if recs == [] then 0 else 4 + recs[0].Size() + 4 + FramesSize(recs[1..])
  }

  lemma {:induction false} FramesSizeIsLength(crc: Checksum, recs: seq<Record>)
    requires forall r :: r in recs ==> r.Fits()
    ensures FramesSize(recs) == |EncodedRecords(crc, recs)|
  {
    if recs != [] {
      assert recs[0] in recs;
      SizeIsEncodedLength(recs[0]);
      FramesSizeIsLength(crc, recs[1..]);
    }
  }

  method TotalSize(recs: seq<Record>) returns (total: nat)
    ensures total == FramesSize(recs)
  {
    total := 0;
    for i := 0 to |recs|
      invariant total + FramesSize(recs[i..]) == FramesSize(recs)
    {
      assert recs[i..][0] == recs[i] && recs[i..][1..] == recs[i + 1..];
      total := total + 4 + recs[i].Size() + 4;
    }
  }

  /** encodeRecords: one buffer of the exact size, filled at a moving offset. */
  method EncodeRecords(crc: Checksum, recs: seq<Record>) returns (b: bytes)
    requires forall r :: r in recs ==> r.Fits()
    ensures b == EncodedRecords(crc, recs)
  {
    hide WalFrame, FramesSize;
    var total := TotalSize(recs);
    FramesSizeIsLength(crc, recs);
    var buf := new byte[total](_ => 0);
    var off: nat := 0;
    for i := 0 to |recs|
      invariant off <= total && buf[..off] + EncodedRecords(crc, recs[i..]) == EncodedRecords(crc, recs)
    {
      ghost var done, rest := buf[..off], EncodedRecords(crc, recs[i + 1..]);
      EncodedRecordsStep(crc, recs, i);
      assert |done| + |WalFrame(crc, recs[i]) + rest| == total;
      off := EncodeFrame(crc, recs[i], buf, off);
      ConcatAssociates(done, WalFrame(crc, recs[i]), rest);
    }
    b := buf[..];
    assert recs[|recs|..] == [] && buf[..off] + [] == buf[..off];
    assert |buf[..off]| == total && buf[..total] == buf[..];
  }

  lemma EncodedRecordsStep(crc: Checksum, recs: seq<Record>, i: nat)
    requires i < |recs|
    ensures recs[i] in recs && EncodedRecords(crc, recs[i..]) == WalFrame(crc, recs[i]) + EncodedRecords(crc, recs[i + 1..])
  {
    assert recs[i..][0] == recs[i] && recs[i..][1..] == recs[i + 1..];
  }

  method EncodeFrame(crc: Checksum, r: Record, buf: array<byte>, start: nat) returns (off: nat)
    requires r.Fits() && start + |WalFrame(crc, r)| <= buf.Length
    modifies buf
    ensures off == start + |WalFrame(crc, r)|
    ensures buf[..off] == old(buf[..start]) + WalFrame(crc, r)
  {
    hide Le32, EncodedRecord;
    SizeIsEncodedLength(r);
    var size := r.Size();
    off := start;
    Put(buf, off, Le32(size));
    off := off + 4;
    ghost var head := buf[..off];
    var end := EncodeRecordInto(buf, off, r);
    assert buf[off..off + size] == EncodedRecord(r) by {
      assert buf[..end] == head + EncodedRecord(r);
    }
    var sum := crc(buf[off..off + size]);
    off := off + size;
    Put(buf, off, Le32(sum));
    off := off + 4;
  }

  // ---------- replay ----------

  /** The records handed to the callback, and whether replay ended without an error. */
  datatype Outcome = Outcome(recs: seq<Record>, ok: bool)

  function Cons(r: Record, rest: Outcome): Outcome {
    Outcome([r] + rest.recs, rest.ok)
  }

  /** Reading frame after frame; a frame cut short or damaged ends replay with an error. */
  function Replay(crc: Checksum, data: bytes): Outcome {
    if data == [] then Outcome([], true) else
    match FirstFrame(crc, data)
    case Err => Outcome([], false)
    case Ok((r, next)) => Cons(r, Replay(crc, data[next..]))
  }

  function FirstFrame(crc: Checksum, data: bytes): (r: Result<(Record, nat)>)
    ensures r.Ok? ==> 0 < r.value.1 <= |data|
  {
    if |data| < 4 then Err else
    var size: nat := Uint32(data);
    if |data| < 4 + size then Err else
    var recBuf := data[4..4 + size];
    if |data| < 4 + size + 4 then Err else
    if crc(recBuf) != Uint32(data[4 + size..]) then Err else
    match DecodeRecord(recBuf)
    case Err => Err
    case Ok(rec) => Ok((rec, 4 + size + 4))
  }

  /** The replay loop over a file; the callback collects and never fails. */
  method ReplayFile(crc: Checksum, file: bytes) returns (recs: seq<Record>, ok: bool)
    ensures Outcome(recs, ok) == Replay(crc, file)
  {
    hide FirstFrame;
    recs := [];
    var pos := 0;
    assert file[0..] == file;
    while pos < |file|
      invariant pos <= |file|
      invariant Replay(crc, file) == Outcome(recs + Replay(crc, file[pos..]).recs, Replay(crc, file[pos..]).ok)
      decreases |file| - pos
    {
      var next := ReadFrame(crc, file[pos..]);
      if next.Err? {
        return recs, false;
      }
      var (rec, size) := next.value;
      assert file[pos..][size..] == file[pos + size..];
      assert recs + ([rec] + Replay(crc, file[pos + size..]).recs) == recs + [rec] + Replay(crc, file[pos + size..]).recs;
      recs := recs + [rec];
      pos := pos + size;
    }
    ok := true;
  }

  /** One turn of the loop: header, payload and checksum in turn, each possibly cut short. */
  method ReadFrame(crc: Checksum, rest: bytes) returns (r: Result<(Record, nat)>)
    ensures r == FirstFrame(crc, rest)
  {
    if |rest| < 4 {
      return Err;
    }
    var recSize: nat := Uint32(rest);
    if |rest| < 4 + recSize {
      return Err;
    }
    var recBuf := rest[4..4 + recSize];
    if |rest| < 4 + recSize + 4 {
      return Err;
    }
    var expected := Uint32(rest[4 + recSize..]);
    if crc(recBuf) != expected {
      return Err;
    }
    var rec := DecodeRecord(recBuf);
    if rec.Err? {
      return Err;
    }
    return Ok((rec.value, 4 + recSize + 4));
  }

  lemma FrameParts(size: bytes, rec: bytes, sum: bytes, rest: bytes)
    requires |size| == |sum| == 4
    ensures var data := size + (rec + sum) + rest;
            && data == size + (rec + sum + rest) && data[4..4 + |rec|] == rec
            && data[4 + |rec|..] == sum + rest && data[8 + |rec|..] == rest
  {
    var data := size + (rec + sum) + rest;
    assert data[4..] == rec + (sum + rest);
  }

  lemma FirstFrameRead(crc: Checksum, r: Record, rest: bytes)
    requires r.Fits()
    ensures FirstFrame(crc, WalFrame(crc, r) + rest) == Ok((r, |WalFrame(crc, r)|))
    ensures (WalFrame(crc, r) + rest)[|WalFrame(crc, r)|..] == rest
  {
    hide EncodedRecord, DecodeRecord, Le32, Uint32;
    var rec := EncodedRecord(r);
    FrameParts(Le32(|rec|), rec, Le32(crc(rec)), rest);
    Le32RoundTrip(|rec|, rec + Le32(crc(rec)) + rest);
    Le32RoundTrip(crc(rec), rest);
    RecordRoundTrip(r);
  }

  lemma CutFrameRejected(crc: Checksum, r: Record, n: nat)
    requires r.Fits() && 0 < n < |WalFrame(crc, r)|
    ensures FirstFrame(crc, WalFrame(crc, r)[..n]) == Err
  {
    var rec, frame := EncodedRecord(r), WalFrame(crc, r);
    if n >= 4 {
      var data := frame[..n];
      assert data == Le32(|rec|) + data[4..];
      Le32RoundTrip(|rec|, data[4..]);
    }
  }

  lemma FrameNotEmpty(crc: Checksum, r: Record)
    ensures |WalFrame(crc, r)| > 0
  {
  }

  /** How many frames end within the first n bytes. */
  ghost function CompleteFrames(crc: Checksum, recs: seq<Record>, n: nat): (k: nat)
    ensures k <= |recs|
  {
    if recs == [] || n < |WalFrame(crc, recs[0])| then 0 else 1 + CompleteFrames(crc, recs[1..], n - |WalFrame(crc, recs[0])|)
  }

  /** The complete frames are the longest run of frames that fits. */
  lemma {:induction false} CompleteFramesFit(crc: Checksum, recs: seq<Record>, n: nat)
    ensures var k := CompleteFrames(crc, recs, n);
            |EncodedRecords(crc, recs[..k])| <= n && (k < |recs| ==> n < |EncodedRecords(crc, recs[..k + 1])|)
  {
    if recs != [] && n >= |WalFrame(crc, recs[0])| {
      var k := CompleteFrames(crc, recs, n);
      CompleteFramesFit(crc, recs[1..], n - |WalFrame(crc, recs[0])|);
      assert recs[..k][0] == recs[0] && recs[..k][1..] == recs[1..][..k - 1];
      if k < |recs| {
        assert recs[..k + 1][0] == recs[0] && recs[..k + 1][1..] == recs[1..][..k];
      }
    } else if recs != [] {
      assert recs[..1] == [recs[0]];
      assert EncodedRecords(crc, [recs[0]]) == WalFrame(crc, recs[0]) + EncodedRecords(crc, []);
    }
  }

  /**
   * However a log of appended records is cut, replay delivers exactly the records whose frames
   * are complete, in order, and reports an error exactly when the cut is inside a frame.
   */
  lemma {:induction false} PrefixReplay(crc: Checksum, recs: seq<Record>, n: nat)
    requires (forall r :: r in recs ==> r.Fits()) && n <= |EncodedRecords(crc, recs)|
    ensures var k := CompleteFrames(crc, recs, n);
            Replay(crc, EncodedRecords(crc, recs)[..n]) == Outcome(recs[..k], n == |EncodedRecords(crc, recs[..k])|)
    decreases |recs|
  {
    hide WalFrame, FirstFrame;
    if recs != [] && n > 0 {
      assert recs[0] in recs;
      var frame, more := WalFrame(crc, recs[0]), EncodedRecords(crc, recs[1..]);
      var data := EncodedRecords(crc, recs)[..n];
      if n < |frame| {
        assert data == frame[..n];
        CutFrameRejected(crc, recs[0], n);
        assert recs[..0] == [];
      } else {
        FrameNotEmpty(crc, recs[0]);
        var rest := more[..n - |frame|];
        assert data == frame + rest;
        FirstFrameRead(crc, recs[0], rest);
        PrefixReplay(crc, recs[1..], n - |frame|);
        var k := CompleteFrames(crc, recs, n);
        assert recs[..k][0] == recs[0] && recs[..k][1..] == recs[1..][..k - 1];
        assert recs[..k] == [recs[0]] + recs[1..][..k - 1];
      }
    } else {
      assert EncodedRecords(crc, recs)[..n] == [];
      assert recs[..0] == [] && EncodedRecords(crc, recs[..0]) == [];
      if recs != [] {
        FrameNotEmpty(crc, recs[0]);
        assert CompleteFrames(crc, recs, n) == 0;
      }
    }
  }

  lemma {:induction false} AllComplete(crc: Checksum, recs: seq<Record>)
    ensures CompleteFrames(crc, recs, |EncodedRecords(crc, recs)|) == |recs|
  {
    if recs != [] {
      AllComplete(crc, recs[1..]);
    }
  }

  /** A whole log replays to the records appended to it. */
  lemma WholeReplay(crc: Checksum, recs: seq<Record>)
    requires forall r :: r in recs ==> r.Fits()
    ensures Replay(crc, EncodedRecords(crc, recs)) == Outcome(recs, true)
  {
    hide WalFrame, Replay;
    var data := EncodedRecords(crc, recs);
    PrefixReplay(crc, recs, |data|);
    AllComplete(crc, recs);
    assert data[..|data|] == data && recs[..|recs|] == recs;
  }

  // ---------- damage ----------

  /** The records appended are replayed first, whatever follows them. */
  lemma {:induction false} ReplayGoesOn(crc: Checksum, recs: seq<Record>, rest: bytes)
    requires forall r :: r in recs ==> r.Fits()
    ensures Replay(crc, EncodedRecords(crc, recs) + rest) == Outcome(recs + Replay(crc, rest).recs, Replay(crc, rest).ok)
  {
    hide WalFrame, FirstFrame;
    if recs == [] {
      assert [] + rest == rest && [] + Replay(crc, rest).recs == Replay(crc, rest).recs;
    } else {
      var frame, more := WalFrame(crc, recs[0]), EncodedRecords(crc, recs[1..]);
      assert recs[0] in recs;
      ConcatAssociates(frame, more, rest);
      FirstFrameRead(crc, recs[0], more + rest);
      FrameNotEmpty(crc, recs[0]);
      ReplayGoesOn(crc, recs[1..], rest);
      assert recs + Replay(crc, rest).recs == [recs[0]] + (recs[1..] + Replay(crc, rest).recs);
    }
  }

  /** A frame of that size, with payload and checksum of any kind. */
  function AnyFrame(payload: bytes, sum: uint32): bytes
    requires |payload| < 0x1_0000_0000
  {
    Le32(|payload|) + (payload + Le32(sum))
  }

  /**
   * A frame in the middle of a log is delivered, and replay goes on behind it, exactly when its
   * checksum is its payload's and the payload is a record; otherwise replay ends there with an error,
   * the records before it delivered and none of those behind it.
   */
  lemma DamageEndsReplay(crc: Checksum, recs: seq<Record>, payload: bytes, sum: uint32, rest: bytes)
    requires (forall r :: r in recs ==> r.Fits()) && |payload| < 0x1_0000_0000
    ensures Replay(crc, EncodedRecords(crc, recs) + (AnyFrame(payload, sum) + rest)) ==
        if sum == crc(payload) && DecodeRecord(payload).Ok?
        then Outcome(recs + ([DecodeRecord(payload).value] + Replay(crc, rest).recs), Replay(crc, rest).ok)
        else Outcome(recs, false)
  {
    hide EncodedRecords, DecodeRecord, Le32, Uint32;
    var data := AnyFrame(payload, sum) + rest;
    ReplayGoesOn(crc, recs, data);
    FrameParts(Le32(|payload|), payload, Le32(sum), rest);
    Le32RoundTrip(|payload|, payload + Le32(sum) + rest);
    Le32RoundTrip(sum, rest);
    assert recs + [] == recs;
  }
}
