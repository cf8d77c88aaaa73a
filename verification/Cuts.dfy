/** Cutting records into parts by size: a table into blocks (internal/sstable/writer.go), a merge into tables (internal/engine/compactor.go). */
module Cuts {
  import opened Records
  import opened Runs

  /** What is counted of the records of a part. */
  type Measure = seq<Record> -> nat

  /** At no record of the part has it reached the limit. */
  ghost predicate Open(part: seq<Record>, size: Measure, limit: nat) {
    forall k :: 0 < k <= |part| ==> size(part[..k]) < limit
  }

  /** The part reaches the limit at its last record, and not before. */
  ghost predicate Full(part: seq<Record>, size: Measure, limit: nat) {
    part != [] && Open(part[..|part| - 1], size, limit) && size(part) >= limit
  }

  ghost predicate AllFull(parts: seq<seq<Record>>, size: Measure, limit: nat) {
    forall i :: 0 <= i < |parts| ==> Full(parts[i], size, limit)
  }

  /** Every part ends where it reaches the limit; only the last one may end before, but is not empty. */
  ghost predicate CutInto(parts: seq<seq<Record>>, size: Measure, limit: nat) {
    parts != [] ==>
      var n := |parts| - 1;
      AllFull(parts[..n], size, limit) && parts[n] != [] && (Full(parts[n], size, limit) || Open(parts[n], size, limit))
  }

  /** One record more fills an open part, or leaves it open. */
  lemma OneMoreRecord(part: seq<Record>, r: Record, size: Measure, limit: nat)
    requires Open(part, size, limit)
    ensures if size(part + [r]) >= limit then Full(part + [r], size, limit) else Open(part + [r], size, limit)
  {
    var more := part + [r];
    assert more[..|part|] == part && more[..|more|] == more;
    forall k | 0 < k <= |part| ensures size(more[..k]) < limit {
      assert more[..k] == part[..k];
    }
  }

  lemma NoPart(size: Measure, limit: nat)
    ensures AllFull([], size, limit) && Open([], size, limit)
  {
  }

  /** One part more behind full ones. */
  lemma OneMorePart(parts: seq<seq<Record>>, part: seq<Record>, size: Measure, limit: nat)
    requires AllFull(parts, size, limit)
    ensures Full(part, size, limit) ==> AllFull(parts + [part], size, limit)
    ensures part != [] && (Full(part, size, limit) || Open(part, size, limit)) ==> CutInto(parts + [part], size, limit)
  {
    hide Full;
    assert (parts + [part])[..|parts|] == parts;
  }

  lemma FullIsCut(parts: seq<seq<Record>>, size: Measure, limit: nat)
    requires AllFull(parts, size, limit)
    ensures CutInto(parts, size, limit)
  {
    hide Open;
  }

  /** There is one way only to cut given records. */
  lemma {:induction false} CutIsUnique(p: seq<seq<Record>>, q: seq<seq<Record>>, size: Measure, limit: nat)
    requires CutInto(p, size, limit) && CutInto(q, size, limit) && Flatten(p) == Flatten(q)
    ensures p == q
  {
    if p != [] && q != [] {
      FirstIsNoLonger(p, q, size, limit);
      FirstIsNoLonger(q, p, size, limit);
      assert p[0] == Flatten(p)[..|p[0]|] && q[0] == Flatten(q)[..|q[0]|];
      assert Flatten(p[1..]) == Flatten(p)[|p[0]|..] && Flatten(q[1..]) == Flatten(q)[|q[0]|..];
      RestIsCut(p, size, limit);
      RestIsCut(q, size, limit);
      CutIsUnique(p[1..], q[1..], size, limit);
      assert p == [p[0]] + p[1..] && q == [q[0]] + q[1..];
    }
  }

  lemma RestIsCut(p: seq<seq<Record>>, size: Measure, limit: nat)
    requires CutInto(p, size, limit) && p != []
    ensures CutInto(p[1..], size, limit)
  {
    hide Full, Open;
    var n := |p| - 1;
    assert n > 0 ==> p[1..][..n - 1] == p[..n][1..];
  }

  /** The first part of one cut ends no later than that of another: what is inside the latter has not reached the limit. */
  lemma FirstIsNoLonger(p: seq<seq<Record>>, q: seq<seq<Record>>, size: Measure, limit: nat)
    requires CutInto(p, size, limit) && CutInto(q, size, limit) && p != [] && q != [] && Flatten(p) == Flatten(q)
    ensures |q[0]| <= |p[0]|
  {
    FirstOfCut(p, size, limit);
    FirstOfCut(q, size, limit);
    assert |Flatten(q)| >= |q[0]| && (|p| == 1 ==> Flatten(p[1..]) == []);
    assert |p[0]| <= |q[0]| ==> p[0] == Flatten(p)[..|p[0]|] == q[0][..|p[0]|];
    forall k | 0 < k < |q[0]| ensures size(q[0][..k]) < limit {
      assert q[0][..|q[0]| - 1][..k] == q[0][..k];
    }
  }

  lemma FirstOfCut(p: seq<seq<Record>>, size: Measure, limit: nat)
    requires CutInto(p, size, limit) && p != []
    ensures p[0] != [] && (|p| > 1 ==> Full(p[0], size, limit)) && (Full(p[0], size, limit) || Open(p[0], size, limit))
  {
    hide Open;
    assert |p| > 1 ==> p[..|p| - 1][0] == p[0];
  }
}
