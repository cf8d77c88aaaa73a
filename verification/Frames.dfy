/** Length-prefixed items in a buffer, the layout that blocks and indexes share. */
module Frames {
  import opened Bytes

  /** [len(4)][item] for each item; the length field is the item's size as a uint32. */
  function Framed<T>(xs: seq<T>, enc: T -> bytes): bytes {
    if xs == [] then [] else Le32(|enc(xs[0])|) + enc(xs[0]) + Framed(xs[1..], enc)
  }

  lemma {:induction false} FramedConcat<T>(a: seq<T>, b: seq<T>, enc: T -> bytes)
    ensures Framed(a + b, enc) == Framed(a, enc) + Framed(b, enc)
  {
    if a == [] {
      assert a + b == b;
    } else {
      hide Le32;
      FramedConcat(a[1..], b, enc);
      FirstOfConcat(a, b);
      ConcatAssociates(Le32(|enc(a[0])|) + enc(a[0]), Framed(a[1..], enc), Framed(b, enc));
    }
  }

  lemma FirstOfConcat<T>(a: seq<T>, b: seq<T>)
    requires a != []
    ensures (a + b)[0] == a[0] && (a + b)[1..] == a[1..] + b
  {
  }

  lemma FramedSnoc<T>(a: seq<T>, x: T, enc: T -> bytes)
    ensures Framed(a + [x], enc) == Framed(a, enc) + (Le32(|enc(x)|) + enc(x))
  {
    FramedConcat(a, [x], enc);
    assert Framed([x], enc) == Le32(|enc(x)|) + enc(x) + Framed([], enc);
  }

  function Cons<T>(x: T, rest: Result<seq<T>>): Result<seq<T>> {
    match rest case Err => Err case Ok(xs) => Ok([x] + xs)
  }

  /** One item at off; its length field must end by limit and the item itself by the end of the buffer. */
  function FrameAt<T>(b: bytes, off: nat, limit: nat, dec: bytes -> Result<T>): (r: Result<(T, nat)>)
    requires limit <= |b|
    ensures r.Ok? ==> off + 4 <= r.value.1 <= |b|
  {
    if off + 4 > limit then Err else
    var size := Uint32(b[off..]);
    if off + 4 + size > |b| then Err else
    match dec(b[off + 4..off + 4 + size])
    case Err => Err
    case Ok(x) => Ok((x, off + 4 + size))
  }

  /** n items starting at off. */
  function Unframed<T>(b: bytes, off: nat, n: nat, limit: nat, dec: bytes -> Result<T>): Result<seq<T>>
    requires limit <= |b|
    decreases n
  {
    if n == 0 then Ok([]) else
    match FrameAt(b, off, limit, dec)
    case Err => Err
    case Ok((x, next)) => Cons(x, Unframed(b, next, n - 1, limit, dec))
  }

  /** The decode loop of blocks and indexes, with its moving offset. */
  method DecodeFrames<T>(b: bytes, start: nat, n: nat, limit: nat, dec: bytes -> Result<T>) returns (r: Result<seq<T>>)
    requires limit <= |b|
    ensures r == Unframed(b, start, n, limit, dec)
  {
    hide Cons, Uint32;
    var off: nat, entries: seq<T> := start, [];
    PrefixedNothing(Unframed(b, start, n, limit, dec));
    for i := 0 to n
      invariant Unframed(b, start, n, limit, dec) == Prefixed(entries, Unframed(b, off, n - i, limit, dec))
    {
      if off + 4 > limit {
        return Err;
      }
      var entrySize := Uint32(b[off..]);
      if off + 4 + entrySize > |b| {
        return Err;
      }
      var x := dec(b[off + 4..off + 4 + entrySize]);
      if x.Err? {
        assert FrameAt(b, off, limit, dec) == Err;
        return Err;
      }
      assert FrameAt(b, off, limit, dec) == Ok((x.value, off + 4 + entrySize));
      PrefixedCons(entries, x.value, Unframed(b, off + 4 + entrySize, n - i - 1, limit, dec));
      entries := entries + [x.value];
      off := off + 4 + entrySize;
    }
    assert Unframed(b, off, 0, limit, dec) == Ok([]) && entries + [] == entries;
    return Ok(entries);
  }

  ghost function Prefixed<T>(xs: seq<T>, rest: Result<seq<T>>): Result<seq<T>> {
    match rest case Err => Err case Ok(ys) => Ok(xs + ys)
  }

  lemma PrefixedNothing<T>(rest: Result<seq<T>>)
    ensures Prefixed([], rest) == rest
  {
    if rest.Ok? {
      assert [] + rest.value == rest.value;
    }
  }

  lemma PrefixedCons<T>(xs: seq<T>, x: T, rest: Result<seq<T>>)
    ensures Prefixed(xs, Cons(x, rest)) == Prefixed(xs + [x], rest)
  {
    if rest.Ok? {
      assert xs + ([x] + rest.value) == xs + [x] + rest.value;
    }
  }

  lemma FirstFrame(pre: bytes, prefix: bytes, item: bytes, more: bytes, rest: bytes)
    requires |prefix| == 4
    ensures var b := pre + (prefix + item + more) + rest;
            && b == pre + prefix + item + more + rest && b[|pre|..] == prefix + (item + more + rest)
            && b[|pre| + 4..|pre| + 4 + |item|] == item
  {
    var b := pre + (prefix + item + more) + rest;
    assert b == (pre + prefix) + item + (more + rest);
    Middle(pre + prefix, item, more + rest);
  }

  lemma Middle(a: bytes, b: bytes, c: bytes)
    ensures (a + b + c)[|a|..|a| + |b|] == b
  {
  }

  /** Items that decode to themselves and whose sizes fit 32 bits survive framing, wherever the frames stand. */
  lemma {:induction false} FramesRoundTrip<T>(pre: bytes, xs: seq<T>, rest: bytes, limit: nat, enc: T -> bytes, dec: bytes -> Result<T>)
    requires forall x :: x in xs ==> |enc(x)| < 0x1_0000_0000 && dec(enc(x)) == Ok(x)
    requires |pre + Framed(xs, enc)| <= limit <= |pre + Framed(xs, enc) + rest|
    ensures Unframed(pre + Framed(xs, enc) + rest, |pre|, |xs|, limit, dec) == Ok(xs)
    decreases |xs|
  {
    if xs != [] {
      var x, more := xs[0], Framed(xs[1..], enc);
      var b := pre + Framed(xs, enc) + rest;
      var size := |enc(x)|;
      var pre' := pre + Le32(size) + enc(x);
      FirstFrame(pre, Le32(size), enc(x), more, rest);
      Le32RoundTrip(size, enc(x) + more + rest);
      assert FrameAt(b, |pre|, limit, dec) == Ok((x, |pre'|));
      FramesRoundTrip(pre', xs[1..], rest, limit, enc, dec);
      assert [x] + xs[1..] == xs;
    }
  }
}
