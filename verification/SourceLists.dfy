/** Collecting the iterators of a scan or a compaction (internal/engine/read.go, compactor.go). */
module SourceLists {
  import opened Bytes
  import opened Records
  import opened Runs
  import opened TableReaders
  import opened IteratorHeaps
  import opened ScanIterators

  /** s is independent of the iterators there already. */
  ghost predicate Newcomer(iters: seq<Source>, s: Source, ctx: Context) {
    s.Obj() !in SourcesFeet(iters) && SourceObjs(iters) !! s.Foot() && CacheFrame(ctx.cache) !! s.Foot()
  }

  lemma HoldsIsGood(s: Source, rest: seq<Record>, ctx: Context)
    requires Holds(s, rest, ctx)
    ensures s.Good(ctx)
  {
  }

  lemma FeetMore(iters: seq<Source>, s: Source)
    ensures SourcesFeet(iters + [s]) == SourcesFeet(iters) + s.Foot() && SourceObjs(iters + [s]) == SourceObjs(iters) + {s.Obj()}
  {
    hide Source.Foot;
    assert forall x :: x in iters + [s] <==> x in iters || x == s;
  }

  lemma ReadyMore(iters: seq<Source>, rests: seq<seq<Record>>, s: Source, rest: seq<Record>, ctx: Context)
    requires Ready(iters, rests, ctx) && Newcomer(iters, s, ctx) && Holds(s, rest, ctx)
    ensures Ready(iters + [s], rests + [rest], ctx)
  {
    hide Source.Foot, Holds;
    FeetMore(iters, s);
    var more := iters + [s];
    forall i, j | 0 <= i < |more| && 0 <= j < |more| && i != j ensures more[i].Obj() !in more[j].Foot() {
      if i < |iters| && j < |iters| {
        assert iters[i] in iters && iters[j] in iters;
      } else if i < |iters| {
        assert iters[i] in iters && iters[i].Obj() in SourceObjs(iters);
      } else {
        assert iters[j] in iters && iters[j].Foot() <= SourcesFeet(iters);
      }
    }
  }

  lemma NoneReady(ctx: Context)
    ensures Ready([], [], ctx) && Sum([]) == multiset{} && SourcesFeet([]) == {} && SourceObjs([]) == {}
  {
  }

  lemma SumMore(rests: seq<seq<Record>>, rest: seq<Record>)
    ensures Sum(rests + [rest]) == Sum(rests) + multiset(rest)
    ensures Support(Sum(rests + [rest])) == Support(Sum(rests)) + Elements(rest)
  {
    assert (rests + [rest])[..|rests|] == rests;
    forall r ensures r in Sum(rests + [rest]) <==> r in Sum(rests) || r in rest {
      assert r in multiset(rest) <==> r in rest;
    }
  }

  /** The iterator is moved to target and joins the others; they stay where they are. */
  method AddSought(iters: seq<Source>, ghost rests: seq<seq<Record>>, s: Source, target: InternalKey, ghost ctx: Context)
    returns (more: seq<Source>, ghost moreRests: seq<seq<Record>>)
    requires Ready(iters, rests, ctx) && Agrees(ctx) && s.Good(ctx) && Newcomer(iters, s, ctx)
    modifies s.Obj(), CacheFrame(ctx.cache)
    ensures more == iters + [s] && Ready(more, moreRests, ctx) && Agrees(ctx)
    ensures var all := old(s.All(ctx)); moreRests == rests + [all[LowerBound(all, target)..]]
  {
    hide Source.Good, Source.Remaining, Source.Foot, Source.All, Agrees;
    ghost var feet := SourcesFeet(iters);
    assert allocated(feet) && CacheFrame(ctx.cache) !! feet;
    hide Ready;
    s.Seek(target, ctx);
    assert unchanged(feet);
    ghost var rest := s.Remaining(ctx);
    ReadyMore(iters, rests, s, rest, ctx);
    more, moreRests := iters + [s], rests + [rest];
  }
}
