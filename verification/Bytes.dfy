/** Byte strings: their lexicographic order and the little-endian and varint integer codecs. */
module Bytes {
  type byte = b: int | 0 <= b < 256
  type bytes = seq<byte>
  type uint32 = n: int | 0 <= n < 0x1_0000_0000
  type uint64 = n: int | 0 <= n < 0x1_0000_0000_0000_0000

  /** uint32(n) and uint64(n): the low bits of n, which is n itself unless n is too large. */
  function Low32(n: nat): uint32 {
    if n < 0x1_0000_0000 then n else n % 0x1_0000_0000
  }

  function Low64(n: nat): uint64 {
    if n < 0x1_0000_0000_0000_0000 then n else n % 0x1_0000_0000_0000_0000
  }

  const MAX_UINT64: uint64 := 0xFFFF_FFFF_FFFF_FFFF

  datatype Option<+T> = None | Some(value: T)

  datatype Result<+T> = Ok(value: T) | Err {
    function ToOption(): Option<T> {
      match this case Ok(v) => Some(v) case Err => None
    }
  }

  lemma ConcatAssociates<T>(a: seq<T>, b: seq<T>, c: seq<T>)
    ensures a + (b + c) == a + b + c
  {
  }

  // ---------- lexicographic order ----------

  /** bytes.Compare(a, b) < 0. */
  predicate Less(a: bytes, b: bytes) {
    b != [] && (a == [] || a[0] < b[0] || (a[0] == b[0] && Less(a[1..], b[1..])))
  }

  predicate AtMost(a: bytes, b: bytes) {
    !Less(b, a)
  }

  lemma {:induction false} LessIsStrict(a: bytes, b: bytes)
    ensures !(Less(a, b) && Less(b, a))
    ensures a == b ==> !Less(a, b)
  {
    if a != [] && b != [] {
      LessIsStrict(a[1..], b[1..]);
    }
  }

  lemma {:induction false} LessIsTotal(a: bytes, b: bytes)
    ensures Less(a, b) || a == b || Less(b, a)
  {
    if a != [] && b != [] {
      LessIsTotal(a[1..], b[1..]);
      assert a == [a[0]] + a[1..] && b == [b[0]] + b[1..];
    }
  }

  lemma {:induction false} LessIsTransitive(a: bytes, b: bytes, c: bytes)
    requires Less(a, b) && Less(b, c)
    ensures Less(a, c)
  {
    if a != [] && a[0] == b[0] == c[0] {
      LessIsTransitive(a[1..], b[1..], c[1..]);
    }
  }

  /** All the order facts at once: Less is a strict total order. */
  lemma LessIsOrder()
    ensures forall a: bytes, b: bytes {:trigger Less(a, b)} :: Less(a, b) ==> a != b && !Less(b, a)
    ensures forall a: bytes, b: bytes {:trigger Less(a, b)} :: Less(a, b) || a == b || Less(b, a)
    ensures forall a: bytes, b: bytes, c: bytes {:trigger Less(a, b), Less(b, c)} :: Less(a, b) && Less(b, c) ==> Less(a, c)
  {
    forall a: bytes, b: bytes ensures (Less(a, b) ==> a != b && !Less(b, a)) && (Less(a, b) || a == b || Less(b, a)) {
      LessIsStrict(a, b);
      LessIsTotal(a, b);
    }
    forall a: bytes, b: bytes, c: bytes | Less(a, b) && Less(b, c) ensures Less(a, c) {
      LessIsTransitive(a, b, c);
    }
  }

  // ---------- fixed-width little-endian integers ----------

  /** The k low bytes of n, least significant first. */
  function LittleEndian(n: nat, k: nat): (b: bytes)
    ensures |b| == k
  {
    if k == 0 then [] else [n % 0x100] + LittleEndian(n / 0x100, k - 1)
  }

  function FromLittleEndian(b: bytes, k: nat): (n: nat)
    requires k <= |b|
  {
    if k == 0 then 0 else
      var low: int := b[0];
      low + 0x100 * FromLittleEndian(b[1..], k - 1)
  }

  function Pow256(k: nat): (p: nat)
    ensures p > 0
  {
    if k == 0 then 1 else 0x100 * Pow256(k - 1)
  }

  lemma {:induction false} FromLittleEndianBound(b: bytes, k: nat)
    requires k <= |b|
    ensures FromLittleEndian(b, k) < Pow256(k)
  {
    if k > 0 {
      FromLittleEndianBound(b[1..], k - 1);
    }
  }

  /** Reading k bytes back gives the number when it fits in k bytes, whatever follows them. */
  lemma {:induction false} LittleEndianRoundTrip(n: nat, k: nat, rest: bytes)
    requires n < Pow256(k)
    ensures FromLittleEndian(LittleEndian(n, k) + rest, k) == n
  {
    if k > 0 {
      LittleEndianRoundTrip(n / 0x100, k - 1, rest);
      assert (LittleEndian(n, k) + rest)[1..] == LittleEndian(n / 0x100, k - 1) + rest;
    }
  }

  lemma Powers()
    ensures Pow256(4) == 0x1_0000_0000 && Pow256(8) == 0x1_0000_0000_0000_0000
  {
    assert Pow256(2) == 0x1_0000;
    assert Pow256(4) == 0x100 * (0x100 * Pow256(2));
    assert Pow256(6) == 0x100 * (0x100 * Pow256(4));
    assert Pow256(8) == 0x100 * (0x100 * Pow256(6));
  }

  /** PutUint32(uint32(n)): the conversion to uint32 keeps the low four bytes. */
  function Le32(n: nat): (b: bytes)
    ensures |b| == 4
  {
    LittleEndian(n, 4)
  }

  function Uint32(b: bytes): uint32
    requires |b| >= 4
  {
    Powers();
    FromLittleEndianBound(b, 4);
    FromLittleEndian(b, 4)
  }

  function Le64(n: uint64): (b: bytes)
    ensures |b| == 8
  {
    LittleEndian(n, 8)
  }

  function Uint64(b: bytes): uint64
    requires |b| >= 8
  {
    Powers();
    FromLittleEndianBound(b, 8);
    FromLittleEndian(b, 8)
  }

  lemma Le32RoundTrip(n: uint32, rest: bytes)
    ensures Uint32(Le32(n) + rest) == n
  {
    Powers();
    LittleEndianRoundTrip(n, 4, rest);
  }

  lemma Le64RoundTrip(n: uint64, rest: bytes)
    ensures Uint64(Le64(n) + rest) == n
  {
    Powers();
    LittleEndianRoundTrip(n, 8, rest);
  }

  lemma Le32Whole(n: uint32)
    ensures Uint32(Le32(n)) == n
  {
    Le32RoundTrip(n, []);
    assert Le32(n) + [] == Le32(n);
  }
}
