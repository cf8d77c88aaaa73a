/** Range scans: collapsing the merged versions to the visible keys (internal/engine/iterator.go). */
module ScanIterators {
  import opened Bytes
  import opened Records
  import opened Runs
  import opened BlockCaches
  import opened TableReaders
  import opened IteratorHeaps

  // ---------- what a scan should show ----------

  ghost function Support(m: multiset<Record>): set<Record> {
    set r | r in m
  }

  /** user is behind the point lim that the scan has reached. */
  predicate Behind(user: bytes, lim: Option<bytes>) {
    lim.Some? && AtMost(user, lim.value)
  }

  /** out lists, once each and in increasing key order, what the keys below end and not beyond lim show. */
  ghost predicate Lists(out: seq<Record>, all: set<Record>, bound: uint64, end: bytes, lim: Option<bytes>) {
    && (forall i, j :: 0 <= i < j < |out| ==> Less(out[i].key.userKey, out[j].key.userKey))
    && (forall i :: 0 <= i < |out| ==> var u := out[i].key.userKey; Less(u, end) && Behind(u, lim) && Shown(all, u, bound) == Some(out[i]))
    && (forall u: bytes {:trigger Shown(all, u, bound)} :: Less(u, end) && Behind(u, lim) && Shown(all, u, bound).Some? ==> Shown(all, u, bound).value in out)
  }

  /** out is the complete answer: every visible key in the range, once, in order, with its newest version. */
  ghost predicate IsScan(out: seq<Record>, all: set<Record>, bound: uint64, end: bytes) {
    && (forall i, j :: 0 <= i < j < |out| ==> Less(out[i].key.userKey, out[j].key.userKey))
    && (forall i :: 0 <= i < |out| ==> var u := out[i].key.userKey; Less(u, end) && Shown(all, u, bound) == Some(out[i]))
    && (forall u: bytes {:trigger Shown(all, u, bound)} :: Less(u, end) && Shown(all, u, bound).Some? ==> Shown(all, u, bound).value in out)
  }

  /** The answer to a scan is unique. */
  lemma {:induction false} ScanIsUnique(a: seq<Record>, b: seq<Record>, all: set<Record>, bound: uint64, end: bytes)
    requires IsScan(a, all, bound, end) && IsScan(b, all, bound, end)
    ensures a == b
  {
    SameMembers(a, b, all, bound, end);
    SameMembers(b, a, all, bound, end);
    SortedSetsAgree(a, b);
  }

  lemma SameMembers(a: seq<Record>, b: seq<Record>, all: set<Record>, bound: uint64, end: bytes)
    requires IsScan(a, all, bound, end) && IsScan(b, all, bound, end)
    ensures forall r :: r in a ==> r in b
  {
    forall r | r in a ensures r in b {
      var i :| 0 <= i < |a| && a[i] == r;
      assert Shown(all, a[i].key.userKey, bound) == Some(r);
    }
  }

  lemma BothEmpty(a: seq<Record>, b: seq<Record>)
    requires forall r :: r in a <==> r in b
    ensures a == [] <==> b == []
  {
    assert a != [] ==> a[0] in b;
    assert b != [] ==> b[0] in a;
  }

  lemma FirstsAgree(a: seq<Record>, b: seq<Record>)
    requires KeysAscend(a) && KeysAscend(b) && a != [] && b != []
    requires forall r :: r in a <==> r in b
    ensures a[0] == b[0]
  {
    assert a[0] in b && b[0] in a;
    var j :| 0 <= j < |b| && b[j] == a[0];
    var i :| 0 <= i < |a| && a[i] == b[0];
    LessIsStrict(a[0].key.userKey, b[0].key.userKey);
    assert !(i > 0 && j > 0);
  }

  lemma {:induction false} SortedSetsAgree(a: seq<Record>, b: seq<Record>)
    requires KeysAscend(a) && KeysAscend(b)
    requires forall r :: r in a <==> r in b
    ensures a == b
  {
    BothEmpty(a, b);
    if a != [] {
      FirstsAgree(a, b);
      assert a == [a[0]] + a[1..] && b == [b[0]] + b[1..];
      forall r ensures r in a[1..] <==> r in b[1..] {
        LessIsStrict(a[0].key.userKey, r.key.userKey);
        assert r in a <==> r == a[0] || r in a[1..];
        assert r in b <==> r == b[0] || r in b[1..];
        assert (r in a[1..] || r in b[1..]) ==> Less(a[0].key.userKey, r.key.userKey);
      }
      SortedSetsAgree(a[1..], b[1..]);
    }
  }

  /** rest is what is left of all beyond lim. */
  ghost predicate Beyond(rest: multiset<Record>, all: set<Record>, lim: Option<bytes>) {
    forall r :: r in rest <==> r in all && !Behind(r.key.userKey, lim)
  }

  // ---------- one user key ----------

  /** Of the records popped so far for user, best is the one a reader at bound would see. */
  ghost predicate BestOf(popped: multiset<Record>, user: bytes, bound: uint64, best: Option<Record>) {
    Runs.IsNewest(Support(popped), user, bound, best)
  }

  lemma NoneOf(user: bytes, bound: uint64)
    ensures BestOf(multiset{}, user, bound, None)
  {
  }

  lemma PoppedOne(popped: multiset<Record>, rec: Record, user: bytes, bound: uint64, best: Option<Record>, best': Option<Record>)
    requires BestOf(popped, user, bound, best) && rec.key.userKey == user
    requires best' == if rec.key.seqNum > bound then best else if best.None? || rec.key.seqNum > best.value.key.seqNum then Some(rec) else best
    ensures BestOf(popped + multiset{rec}, user, bound, best')
  {
  }

  /** Once every record of user has been popped, best is the newest of all. */
  lemma PoppedAll(popped: multiset<Record>, all: set<Record>, user: bytes, bound: uint64, best: Option<Record>)
    requires Coherent(all) && BestOf(popped, user, bound, best)
    requires forall r :: r in popped <==> r in all && r.key.userKey == user
    ensures best == Runs.Newest(all, user, bound)
  {
    assert Runs.IsNewest(all, user, bound, best) by {
      assert forall r :: r in all && Matches(r, user, bound) ==> r in Support(popped);
    }
    NewestUnique(all, user, bound, best);
  }

  // ---------- moving the limit ----------

  /** user is the next key of all beyond lim. */
  ghost predicate NextKey(all: set<Record>, lim: Option<bytes>, user: bytes) {
    !Behind(user, lim) && forall r :: r in all && !Behind(r.key.userKey, lim) ==> AtMost(user, r.key.userKey)
  }

  /** Once user is dealt with, being beyond lim means being beyond user. */
  lemma LimitMoves(all: set<Record>, lim: Option<bytes>, user: bytes)
    requires NextKey(all, lim, user)
    ensures forall r :: r in all ==> (!Behind(r.key.userKey, Some(user)) <==> !Behind(r.key.userKey, lim) && r.key.userKey != user)
  {
    LessIsOrder();
  }

  lemma ShownIsIn(all: set<Record>, user: bytes, bound: uint64)
    ensures Shown(all, user, bound).Some? ==> Shown(all, user, bound).value in all && Shown(all, user, bound).value.key.userKey == user
  {
  }

  /** out gains what user shows, if anything. */
  ghost function With(out: seq<Record>, shown: Option<Record>): seq<Record> {
    if shown.Some? then out + [shown.value] else out
  }

  lemma ListsMore(out: seq<Record>, all: set<Record>, bound: uint64, end: bytes, lim: Option<bytes>, user: bytes)
    requires Lists(out, all, bound, end, lim) && NextKey(all, lim, user) && Less(user, end)
    ensures Lists(With(out, Shown(all, user, bound)), all, bound, end, Some(user))
  {
    LessIsOrder();
    LimitMoves(all, lim, user);
    var out' := With(out, Shown(all, user, bound));
    ShownIsIn(all, user, bound);
    forall u: bytes | Less(u, end) && Behind(u, Some(user)) && Shown(all, u, bound).Some? ensures Shown(all, u, bound).value in out' {
      ShownIsIn(all, u, bound);
      if u == user {
        assert out'[|out|] == Shown(all, u, bound).value;
      } else {
        assert Behind(u, lim);
        assert Shown(all, u, bound).value in out;
        var i :| 0 <= i < |out| && out[i] == Shown(all, u, bound).value;
        assert out'[i] == out[i];
      }
    }
  }

  /** With nothing left below end, the list is complete. */
  lemma ListsAll(out: seq<Record>, all: set<Record>, bound: uint64, end: bytes, lim: Option<bytes>)
    requires Lists(out, all, bound, end, lim)
    requires forall r :: r in all && !Behind(r.key.userKey, lim) ==> AtMost(end, r.key.userKey)
    ensures IsScan(out, all, bound, end)
  {
    forall u: bytes | Less(u, end) && Shown(all, u, bound).Some? ensures Shown(all, u, bound).value in out {
      ShownIsIn(all, u, bound);
    }
  }

  lemma Nothing(rest: multiset<Record>, bound: uint64, end: bytes)
    ensures Lists([], Support(rest), bound, end, None) && Beyond(rest, Support(rest), None)
  {
  }

  // ---------- the iterator ----------

  class ScanIterator {
    const end: bytes
    const seqNum: uint64
    const heap: IteratorHeap
    var current: Option<Record>
    /** Every record the sources held when the scan began. */
    ghost const all: set<Record>
    /** How far the scan has come, and what it has shown so far, the current record last. */
    ghost var lim: Option<bytes>
    ghost var emitted: seq<Record>

    ghost predicate Underway()
      reads this, heap, Feet(heap.items), CacheFrame(heap.ctx.cache)
    {
      && heap.Valid() && this !in Feet(heap.items) + Objs(heap.items) && this !in CacheFrame(heap.ctx.cache)
      && Coherent(all) && Beyond(Bag(heap.items), all, lim)
      && Lists(emitted, all, seqNum, end, lim)
    }

    ghost predicate Valid()
      reads this, heap, Feet(heap.items), CacheFrame(heap.ctx.cache)
    {
      && heap.Valid() && this !in Feet(heap.items) + Objs(heap.items) && this !in CacheFrame(heap.ctx.cache)
      && match current
         case None => IsScan(emitted, all, seqNum, end)
         case Some(r) => Underway() && emitted != [] && emitted[|emitted| - 1] == r
    }

    constructor (heap: IteratorHeap, end: bytes, seqNum: uint64)
      ensures this.heap == heap && this.end == end && this.seqNum == seqNum && current == None
      ensures all == Support(Bag(heap.items)) && lim == None && emitted == []
    {
      this.heap, this.end, this.seqNum := heap, end, seqNum;
      current := None;
      all := Support(Bag(heap.items));
      lim, emitted := None, [];
    }

    predicate HasCurrent()
      reads this
    {
      current.Some?
    }

    method Next()
      requires Valid()
      modifies this, heap, Objs(heap.items), CacheFrame(heap.ctx.cache)
      ensures Valid()
      ensures old(current).None? ==> current.None? && emitted == old(emitted)
      ensures old(current).Some? ==> emitted == With(old(emitted), current)
      ensures Objs(heap.items) <= old(Objs(heap.items)) && Feet(heap.items) <= old(Feet(heap.items))
      ensures current.Some? ==> |Bag(heap.items)| < |old(Bag(heap.items))|
    {
      if current.None? {
        return;
      }
      Advance();
    }

    method Advance()
      requires Underway()
      modifies this, heap, Objs(heap.items), CacheFrame(heap.ctx.cache)
      ensures Valid() && emitted == With(old(emitted), current)
      ensures Objs(heap.items) <= old(Objs(heap.items)) && Feet(heap.items) <= old(Feet(heap.items))
      ensures current.Some? ==> |Bag(heap.items)| < |old(Bag(heap.items))|
    {
      hide IteratorHeap.Valid, Lists, IsScan, Beyond, Bag, Feet, Objs, Coherent;
      heap.Outside();
      while heap.items != []
        invariant Underway() && emitted == old(emitted)
        invariant Objs(heap.items) <= old(Objs(heap.items)) && Feet(heap.items) <= old(Feet(heap.items))
        invariant |Bag(heap.items)| <= |old(Bag(heap.items))|
        decreases |Bag(heap.items)|
      {
        var userKey := heap.Peek().key.userKey;
        PeekIsNextKey();
        if !Less(userKey, end) {
          ScanEnds();
          current := None;
          return;
        }
        var best := PopKey(userKey);
        ListsMore(emitted, all, seqNum, end, lim, userKey);
        lim := Some(userKey);
        if best.None? || best.value.IsTombstone() {
          continue;
        }
        emitted := emitted + [best.value];
        current := best;
        return;
      }
      ScanEnds();
      current := None;
    }

    /** Nothing is left, or nothing below end. */
    lemma ScanEnds()
      requires Underway() && (heap.items != [] ==> !Less(heap.Peek().key.userKey, end))
      ensures IsScan(emitted, all, seqNum, end)
    {
      LessIsOrder();
      heap.EmptyIffDrained();
      if heap.items != [] {
        PeekIsNextKey();
      }
      ListsAll(emitted, all, seqNum, end, lim);
    }

    /** The smallest remaining user key is the next one of all. */
    lemma PeekIsNextKey()
      requires Underway() && heap.items != []
      ensures NextKey(all, lim, heap.Peek().key.userKey)
      ensures forall r :: r in Bag(heap.items) ==> AtMost(heap.Peek().key.userKey, r.key.userKey)
    {
      LessIsOrder();
      heap.PeekIsFirst();
    }

    /** Pops every version of userKey, and returns the one a reader at seqNum sees. */
    method PopKey(userKey: bytes) returns (best: Option<Record>)
      requires Underway() && heap.items != [] && userKey == heap.Peek().key.userKey
      modifies heap, Objs(heap.items), CacheFrame(heap.ctx.cache)
      ensures heap.Valid() && Objs(heap.items) <= old(Objs(heap.items)) && Feet(heap.items) <= old(Feet(heap.items))
      ensures Beyond(Bag(heap.items), all, Some(userKey)) && best == Runs.Newest(all, userKey, seqNum)
      ensures |Bag(heap.items)| < |old(Bag(heap.items))|
    {
      hide IteratorHeap.Valid, Lists, IsScan, Beyond, Bag, Feet, Objs, Coherent, NextKey, BestOf;
      PeekIsNextKey();
      heap.Outside();
      best := None;
      NoneOf(userKey, seqNum);
      ghost var popped: multiset<Record> := multiset{};
      while heap.items != [] && heap.Peek().key.userKey == userKey
        invariant heap.Valid() && Objs(heap.items) <= old(Objs(heap.items)) && Feet(heap.items) <= old(Feet(heap.items))
        invariant old(Bag(heap.items)) == popped + Bag(heap.items)
        invariant forall r :: r in popped ==> r.key.userKey == userKey
        invariant BestOf(popped, userKey, seqNum, best)
        invariant popped == multiset{} ==> heap.items == old(heap.items)
        decreases |Bag(heap.items)|
      {
        var rec := heap.PopAndAdvance();
        ghost var before := best;
        if rec.key.seqNum <= seqNum && (best.None? || rec.key.seqNum > best.value.key.seqNum) {
          best := Some(rec);
        }
        PoppedOne(popped, rec, userKey, seqNum, before, best);
        popped := popped + multiset{rec};
      }
      KeyIsDone(old(Bag(heap.items)), popped, userKey);
      PoppedAll(popped, all, userKey, seqNum, best);
    }

    /** When the loop stops, no version of userKey is left. */
    lemma KeyIsDone(start: multiset<Record>, popped: multiset<Record>, userKey: bytes)
      requires heap.Valid() && start == popped + Bag(heap.items) && Beyond(start, all, lim) && NextKey(all, lim, userKey)
      requires forall r :: r in popped ==> r.key.userKey == userKey
      requires heap.items != [] ==> heap.Peek().key.userKey != userKey
      ensures forall r :: r in popped <==> r in all && r.key.userKey == userKey
      ensures Beyond(Bag(heap.items), all, Some(userKey))
    {
      LessIsOrder();
      LimitMoves(all, lim, userKey);
      if heap.items != [] {
        heap.PeekIsFirst();
      } else {
        heap.EmptyIffDrained();
      }
      forall r ensures r in start <==> r in popped || r in Bag(heap.items) {
      }
    }
  }

  /** A scan over what the sources have left, at its first visible key. */
  method NewScanIterator(iters: seq<Source>, ghost rests: seq<seq<Record>>, end: bytes, seqNum: uint64, ghost ctx: Context) returns (s: ScanIterator)
    requires Ready(iters, rests, ctx) && Agrees(ctx) && Coherent(Support(Sum(rests)))
    modifies SourceObjs(iters), CacheFrame(ctx.cache)
    ensures fresh(s) && fresh(s.heap) && s.Valid() && s.all == Support(Sum(rests)) && s.end == end && s.seqNum == seqNum
    ensures s.heap.ctx == ctx && Feet(s.heap.items) <= SourcesFeet(iters) && Objs(s.heap.items) <= SourceObjs(iters)
    ensures s.emitted == With([], s.current)
  {
    hide IteratorHeap.Valid, Lists, IsScan, Beyond, Bag, Coherent, Source.Foot;
    var h := NewIteratorHeap(iters, rests, ctx);
    ghost var feet := Feet(h.items);
    s := Wrap(h, end, seqNum);
    h.Outside();
    assert Objs(h.items) <= feet;
    s.Advance();
  }

  method Wrap(h: IteratorHeap, end: bytes, seqNum: uint64) returns (s: ScanIterator)
    requires h.Valid() && Coherent(Support(Bag(h.items)))
    ensures fresh(s) && s.heap == h && s.end == end && s.seqNum == seqNum && s.current == None
    ensures s.Underway() && s.all == Support(Bag(h.items)) && s.emitted == []
  {
    hide IteratorHeap.Valid, Lists, IsScan, Beyond, Bag, Coherent, Source.Foot;
    ghost var feet := Feet(h.items);
    assert allocated(feet) && allocated(CacheFrame(h.ctx.cache));
    h.Outside();
    Nothing(Bag(h.items), seqNum, end);
    s := new ScanIterator(h, end, seqNum);
    assert unchanged(feet) && unchanged(h);
  }

  /** The loop a caller of Scan runs: it collects the complete answer. */
  method Drain(s: ScanIterator) returns (out: seq<Record>)
    requires s.Valid() && s.emitted == With([], s.current)
    modifies s, s.heap, Objs(s.heap.items), CacheFrame(s.heap.ctx.cache)
    ensures s.Valid() && IsScan(out, s.all, s.seqNum, s.end)
  {
    hide IteratorHeap.Valid, Lists, IsScan, Beyond, Bag, Coherent, Source.Foot;
    out := [];
    while s.HasCurrent()
      invariant s.Valid() && s.emitted == With(out, s.current)
      invariant Objs(s.heap.items) <= old(Objs(s.heap.items)) && Feet(s.heap.items) <= old(Feet(s.heap.items))
      decreases if s.current.Some? then 1 + |Bag(s.heap.items)| else 0
    {
      out := out + [s.current.value];
      s.Next();
    }
  }
}
