/** The Bloom filter of a table (internal/sstable/filter.go). */
module Filters {
  import opened Bytes

  // ---------- single bits of a byte ----------

  predicate BitSet(b: nat, r: nat) {
    if r == 0 then b % 2 == 1 else BitSet(b / 2, r - 1)
  }

  /** b | 1 << r. */
  function WithBit(b: nat, r: nat): nat {
    if r == 0 then b / 2 * 2 + 1 else WithBit(b / 2, r - 1) * 2 + b % 2
  }

  lemma {:induction false} WithBitSets(b: nat, r: nat, q: nat)
    ensures BitSet(WithBit(b, r), q) <==> q == r || BitSet(b, q)
  {
    var w := WithBit(b, r);
    if r > 0 {
      assert w % 2 == b % 2 && w / 2 == WithBit(b / 2, r - 1);
      if q > 0 {
        WithBitSets(b / 2, r - 1, q - 1);
      }
    } else {
      assert w / 2 == b / 2;
    }
  }

  function Pow2(n: nat): nat {
    if n == 0 then 1 else 2 * Pow2(n - 1)
  }

  lemma {:induction false} WithBitBound(b: nat, r: nat, n: nat)
    requires r < n && b < Pow2(n)
    ensures WithBit(b, r) < Pow2(n)
  {
    if r > 0 {
      WithBitBound(b / 2, r - 1, n - 1);
    }
  }

  function SetInByte(b: byte, r: nat): (w: byte)
    requires r < 8
  {
    assert Pow2(8) == 0x100 by { assert Pow2(4) == 16; assert Pow2(6) == 64; }
    WithBitBound(b, r, 8);
    WithBit(b, r)
  }

  predicate BitAt(bits: bytes, q: nat)
    requires q / 8 < |bits|
  {
    BitSet(bits[q / 8], q % 8)
  }

  // ---------- the filter as a value ----------

  /** fnv stands for 64-bit FNV-1a: any deterministic hash will do. */
  type Hash = bytes -> uint64

  const SALT: bytes := [0xDE, 0xAD, 0xBE, 0xEF]

  /** The i-th probe position for key: double hashing in wrapping 64-bit arithmetic. */
  function ProbeBit(fnv: Hash, m: uint32, key: bytes, i: nat): (q: nat)
    requires m > 0
    ensures q < m
  {
    (fnv(key) + i * fnv(key + SALT)) % 0x1_0000_0000_0000_0000 % m
  }

  datatype FilterData = FilterData(bits: bytes, m: uint32, k: byte) {
    predicate WellFormed() {
      m > 0 && |bits| == (m + 7) / 8
    }

    ghost predicate MayContain(fnv: Hash, key: bytes)
      requires WellFormed()
    {
      forall i :: 0 <= i < k ==> BitAt(bits, ProbeBit(fnv, m, key, i))
    }
  }

  /** One of key's probes is q. */
  ghost predicate Probes(fnv: Hash, m: uint32, k: byte, key: bytes, q: nat)
    requires m > 0
  {
    exists i :: 0 <= i < k && q == ProbeBit(fnv, m, key, i)
  }

  /** after is before with exactly the bits set that key probes. */
  ghost predicate Grown(before: FilterData, after: FilterData, fnv: Hash, key: bytes) {
    && before.WellFormed() && after.m == before.m && after.k == before.k && |after.bits| == |before.bits|
    && forall q :: 0 <= q < 8 * |before.bits| ==> (BitAt(after.bits, q) <==> BitAt(before.bits, q) || Probes(fnv, before.m, before.k, key, q))
  }

  function EncodedFilter(f: FilterData): (b: bytes)
    ensures |b| == 9 + |f.bits|
  {
    Le32(|f.bits|) + f.bits + Le32(f.m) + [f.k]
  }

  function DecodeFilter(b: bytes): Result<FilterData> {
    if |b| < 4 then Err else
    var bitsLen := Uint32(b);
    if 4 + bitsLen + 4 + 1 > |b| then Err else
    Ok(FilterData(b[4..4 + bitsLen], Uint32(b[4 + bitsLen..]), b[4 + bitsLen + 4]))
  }

  lemma FilterRoundTrip(f: FilterData)
    requires |f.bits| < 0x1_0000_0000
    ensures DecodeFilter(EncodedFilter(f)) == Ok(f)
  {
    var b, n := EncodedFilter(f), |f.bits|;
    assert b == Le32(n) + (f.bits + Le32(f.m) + [f.k]);
    Le32RoundTrip(n, f.bits + Le32(f.m) + [f.k]);
    assert Uint32(b) == n;
    assert b[4..4 + n] == f.bits;
    assert b[4 + n..] == Le32(f.m) + [f.k];
    Le32RoundTrip(f.m, [f.k]);
    assert b[4 + n + 4] == f.k;
  }

  // ---------- the filter as the source's mutable object ----------

  class Filter {
    var bits: bytes
    const m: uint32
    const k: byte
    const fnv: Hash

    ghost predicate Valid()
      reads this
    {
      Data().WellFormed()
    }

    function Data(): FilterData
      reads this
    {
      FilterData(bits, m, k)
    }

    constructor (f: FilterData, fnv: Hash)
      ensures Data() == f && this.fnv == fnv
    {
      bits, m, k := f.bits, f.m, f.k;
      this.fnv := fnv;
    }

    /** Sets exactly the bits that key probes, so nothing already contained is lost. */
    method Add(key: bytes)
      requires Valid()
      modifies this
      ensures Grown(old(Data()), Data(), fnv, key)
    {
      hide Probes;
      ghost var before := bits;
      for i := 0 to k
        invariant Valid() && |bits| == |before|
        invariant forall q :: 0 <= q < 8 * |bits| ==> (BitAt(bits, q) <==> BitAt(before, q) || ProbedBelow(key, i, q))
      {
        ProbedNext(key, i);
        SetBit(ProbeBit(fnv, m, key, i));
      }
      ProbedAll(key);
    }

    /** One of key's first n probes is q. */
    ghost predicate ProbedBelow(key: bytes, n: nat, q: nat)
      requires m > 0
    {
      exists i :: 0 <= i < n && q == ProbeBit(fnv, m, key, i)
    }

    lemma ProbedNext(key: bytes, n: nat)
      requires m > 0
      ensures forall q: nat :: ProbedBelow(key, n + 1, q) <==> ProbedBelow(key, n, q) || q == ProbeBit(fnv, m, key, n)
    {
      var last := ProbeBit(fnv, m, key, n);
      hide ProbeBit;
      forall q: nat ensures ProbedBelow(key, n + 1, q) <==> ProbedBelow(key, n, q) || q == last {
      }
    }

    lemma ProbedAll(key: bytes)
      requires m > 0
      ensures forall q: nat :: ProbedBelow(key, k as nat, q) <==> Probes(fnv, m, k, key, q)
    {
    }

    method SetBit(idx: nat)
      requires Valid() && idx < m
      modifies this
      ensures Valid() && |bits| == |old(bits)|
      ensures forall q :: 0 <= q < 8 * |bits| ==> (BitAt(bits, q) <==> q == idx || old(BitAt(bits, q)))
    {
      ghost var before := bits;
      bits := bits[idx / 8 := SetInByte(bits[idx / 8], idx % 8)];
      forall q | 0 <= q < 8 * |bits| ensures BitAt(bits, q) <==> q == idx || BitAt(before, q) {
        if q / 8 == idx / 8 {
          WithBitSets(before[q / 8], idx % 8, q % 8);
        }
      }
    }

    method Contains(key: bytes) returns (may: bool)
      requires Valid()
      ensures may == Data().MayContain(fnv, key)
    {
      for i := 0 to k
        invariant forall j :: 0 <= j < i ==> BitAt(bits, ProbeBit(fnv, m, key, j))
      {
        var idx := ProbeBit(fnv, m, key, i);
        if !BitSet(bits[idx / 8], idx % 8) {
          assert !BitAt(bits, idx);
          return false;
        }
      }
      return true;
    }
  }

  /** What Add does to the contents: key is in, and whatever was in still is. No key is ever reported missing. */
  lemma AddedAreContained(before: FilterData, after: FilterData, fnv: Hash, key: bytes, other: bytes)
    requires Grown(before, after, fnv, key)
    ensures after.WellFormed() && after.MayContain(fnv, key)
    ensures before.MayContain(fnv, other) ==> after.MayContain(fnv, other)
  {
    forall i | 0 <= i < after.k ensures BitAt(after.bits, ProbeBit(fnv, after.m, key, i)) {
      assert Probes(fnv, before.m, before.k, key, ProbeBit(fnv, after.m, key, i));
    }
  }

  // ---------- a filter is its bits ----------

  lemma {:induction false} SameBits(a: nat, b: nat, n: nat)
    requires a < Pow2(n) && b < Pow2(n) && forall r :: 0 <= r < n ==> BitSet(a, r) == BitSet(b, r)
    ensures a == b
  {
    if n > 0 {
      assert BitSet(a, 0) == BitSet(b, 0);
      forall r | 0 <= r < n - 1 ensures BitSet(a / 2, r) == BitSet(b / 2, r) {
        assert BitSet(a, r + 1) == BitSet(b, r + 1);
      }
      SameBits(a / 2, b / 2, n - 1);
    }
  }

  lemma SameBytes(a: bytes, b: bytes)
    requires |a| == |b| && forall q :: 0 <= q < 8 * |a| ==> BitAt(a, q) == BitAt(b, q)
    ensures a == b
  {
    assert Pow2(8) == 0x100 by { assert Pow2(4) == 16; assert Pow2(6) == 64; }
    forall j | 0 <= j < |a| ensures a[j] == b[j] {
      forall r | 0 <= r < 8 ensures BitSet(a[j], r) == BitSet(b[j], r) {
        assert BitAt(a, 8 * j + r) == BitAt(b, 8 * j + r);
      }
      SameBits(a[j], b[j], 8);
    }
  }
}
