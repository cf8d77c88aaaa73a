/** Merging the tables of a compaction and writing what is kept (internal/engine/compactor.go, internal/compaction/merger.go). */
module CompactionMerges {
  import opened Bytes
  import opened Records
  import opened Runs
  import opened Cuts
  import opened TableImage
  import opened TableWriters
  import opened TableReaders
  import opened IteratorHeaps
  import opened Versions
  import opened Manifests
  import opened Collapses
  import opened TableSets
  import opened CompactionOutputs

  /** drained came out of the heap in order, and nothing left in it comes before. */
  ghost predicate Drained(drained: seq<Record>, left: multiset<Record>, all: multiset<Record>) {
    && multiset(drained) + left == all && WeaklySorted(drained)
    && (drained != [] ==> forall r :: r in left ==> !Before(r.key, drained[|drained| - 1].key))
  }

  lemma DrainOne(drained: seq<Record>, left: multiset<Record>, all: multiset<Record>, rec: Record, left': multiset<Record>)
    requires Drained(drained, left, all) && left == multiset{rec} + left'
    requires forall r :: r in left ==> !Before(r.key, rec.key)
    ensures Drained(drained + [rec], left', all)
  {
    BeforeIsOrder();
    var more := drained + [rec];
    forall i, j | 0 <= i < j < |more| ensures !Before(more[j].key, more[i].key) {
      if j == |drained| {
        assert !Before(rec.key, drained[|drained| - 1].key);
        assert i < |drained| - 1 ==> !Before(drained[|drained| - 1].key, drained[i].key);
      }
    }
  }

  ghost predicate AllSmall(all: multiset<Record>) {
    forall r :: r in all ==> Small(r)
  }

  /** The merger and the tables being written share nothing. */
  ghost predicate Independent(heap: IteratorHeap, out: OutputTables)
    reads heap, out
  {
    && heap !in out.Repr() && out.vs !in {heap} + Feet(heap.items) + CacheFrame(heap.ctx.cache)
    && out.Repr() !! Feet(heap.items) && out.Repr() !! CacheFrame(heap.ctx.cache)
  }

  /** The empty output, its first table open. */
  method NewOutput(vs: VersionSet, fileNum: uint64, level: uint32, isBottom: bool, oldest: uint64, opts: TableOptions, env: Env) returns (out: OutputTables)
    requires fileNum < vs.nextFileNum && opts.filter.WellFormed() && opts.maxSize <= SIZE_LIMIT
    ensures fresh(out.Repr()) && out.Valid() && out.Roomy() && out.taken == []
    ensures out.vs == vs && out.level == level && out.isBottom == isBottom && out.oldest == oldest && out.env == env && out.opts == opts
    ensures out.num0 == fileNum && out.start == vs.nextFileNum
  {
    hide OutputTables.Books;
    out := new OutputTables(vs, fileNum, level, isBottom, oldest, opts, env);
    out.OpenWriter();
  }

  /** One round of the loop, with the merger moved on at its end. */
  method Round(merger: IteratorHeap, out: OutputTables, ghost all: multiset<Record>)
    requires merger.Valid() && out.Valid() && out.Roomy() && Independent(merger, out) && merger.items != []
    requires Drained(out.taken, Bag(merger.items), all) && AllSmall(all) && out.vs.nextFileNum < MAX_UINT64
    modifies out.Repr(), out.vs`nextFileNum, merger, Objs(merger.items), CacheFrame(merger.ctx.cache)
    ensures merger.Valid() && out.Valid() && out.Roomy() && Independent(merger, out)
    ensures Drained(out.taken, Bag(merger.items), all) && |out.taken| == |old(out.taken)| + 1
    ensures out.vs.nextFileNum <= old(out.vs.nextFileNum) + 1
    ensures Feet(merger.items) <= old(Feet(merger.items)) && Objs(merger.items) <= old(Objs(merger.items))
    ensures (forall o :: o in out.Repr() ==> o in old(out.Repr()) || fresh(o)) && |Bag(merger.items)| < |old(Bag(merger.items))|
  {
    hide IteratorHeap.Valid, OutputTables.Valid, OutputTables.Books, OutputTables.WriterReady, OutputTables.Roomy, Bag, Feet, Objs, Small, Drained;
    var rec := merger.Peek();
    PeekIsSmall(merger, out.taken, all);
    merger.Outside();
    ghost var feet := Feet(merger.items);
    assert allocated(feet) && allocated(CacheFrame(merger.ctx.cache));
    out.Take(rec, merger.items != []);
    assert unchanged(feet) && unchanged(merger) && unchanged(CacheFrame(merger.ctx.cache));
    assert merger.Valid();
    ghost var repr := out.Repr();
    assert allocated(repr);
    ghost var left := Bag(merger.items);
    var popped := merger.PopAndAdvance();
    assert out.Valid() && out.Roomy();
    DrainOne(old(out.taken), left, all, rec, Bag(merger.items));
  }

  lemma PeekIsSmall(merger: IteratorHeap, drained: seq<Record>, all: multiset<Record>)
    requires merger.Valid() && merger.items != [] && Drained(drained, Bag(merger.items), all) && AllSmall(all)
    ensures Small(merger.Peek()) && forall r :: r in Bag(merger.items) ==> !Before(r.key, merger.Peek().key)
  {
    merger.PeekIsFirst();
    assert merger.Peek() in all;
  }

  /**
   * Drains the merge of the inputs into tables. Together they hold the collapse of a sorted merge
   * of everything the inputs held.
   */
  method WriteCompactionOutput(vs: VersionSet, fileNum: uint64, level: uint32, iters: seq<Source>, ghost rests: seq<seq<Record>>,
                               isBottomLevel: bool, oldestSnap: uint64, opts: TableOptions, ghost ctx: Context, env: Env)
    returns (out: OutputTables)
    requires Ready(iters, rests, ctx) && Agrees(ctx) && AllSmall(Sum(rests))
    requires vs !in SourcesFeet(iters) + CacheFrame(ctx.cache)
    requires fileNum < vs.nextFileNum && vs.nextFileNum as int + |Sum(rests)| + 1 < MAX_UINT64 as int
    requires opts.filter.WellFormed() && opts.maxSize <= SIZE_LIMIT
    modifies SourceObjs(iters), CacheFrame(ctx.cache), vs`nextFileNum
    ensures fresh(out) && out.vs == vs && out.level == level && out.isBottom == isBottomLevel && out.oldest == oldestSnap && out.env == env && out.opts == opts
    ensures out.num0 == fileNum && out.start == old(vs.nextFileNum) && vs.nextFileNum as int <= old(vs.nextFileNum) as int + |Sum(rests)| + 1
    ensures WeaklySorted(out.taken) && multiset(out.taken) == Sum(rests)
    ensures out.Books(out.taken, [], out.lastUserKey) && CutInto(out.runs, SumSizes, opts.maxSize) && Agrees(ctx)
  {
    hide IteratorHeap.Valid, OutputTables.Valid, OutputTables.Books, OutputTables.Roomy, Ready, Agrees, Bag, Sum, Source.Foot, Feet, Objs, SourcesFeet, SourceObjs, Small, Drained;
    var merger := NewIteratorHeap(iters, rests, ctx);
    ghost var feet := Feet(merger.items);
    assert allocated(feet) && allocated(CacheFrame(ctx.cache));
    label Made:
    out := NewOutput(vs, fileNum, level, isBottomLevel, oldestSnap, opts, env);
    assert unchanged@Made(feet) && unchanged@Made(merger) && unchanged@Made(CacheFrame(ctx.cache));
    merger.Outside();
    NothingDrained(Bag(merger.items));
    while merger.items != []
      invariant merger.Valid() && merger.ctx == ctx && out.Valid() && out.Roomy() && Independent(merger, out)
      invariant Drained(out.taken, Bag(merger.items), Sum(rests))
      invariant vs.nextFileNum as int <= old(vs.nextFileNum) as int + |out.taken|
      invariant fresh(merger) && fresh(out.Repr()) && Feet(merger.items) <= SourcesFeet(iters) && Objs(merger.items) <= SourceObjs(iters)
      decreases |Bag(merger.items)|
    {
      DrainedAtMost(out.taken, Bag(merger.items), Sum(rests));
      Round(merger, out, Sum(rests));
      merger.Outside();
    }
    merger.EmptyIffDrained();
    StillAgrees(merger);
    AllDrained(out.taken, Bag(merger.items), Sum(rests));
    out.Finish();
  }

  lemma StillAgrees(merger: IteratorHeap)
    requires merger.Valid()
    ensures Agrees(merger.ctx)
  {
  }

  lemma NothingDrained(all: multiset<Record>)
    ensures Drained([], all, all)
  {
  }

  lemma DrainedAtMost(drained: seq<Record>, left: multiset<Record>, all: multiset<Record>)
    requires Drained(drained, left, all)
    ensures |drained| <= |all|
  {
    assert |multiset(drained)| == |drained|;
  }

  lemma AllDrained(drained: seq<Record>, left: multiset<Record>, all: multiset<Record>)
    requires Drained(drained, left, all) && left == multiset{}
    ensures multiset(drained) == all && WeaklySorted(drained) && |drained| == |all|
  {
    assert |multiset(drained)| == |drained|;
  }
}
