/** The k-way merge: a binary heap of stateful iterators (internal/iterator_heap.go). */
module IteratorHeaps {
  import opened Bytes
  import opened Records
  import opened Runs
  import opened TableFormat
  import opened TableImage
  import opened BlockCaches
  import opened TableReaders
  import opened Skiplists
  import opened Memtables
  import opened TableIterators

  // ---------- the two kinds of iterator behind one interface ----------

  /** What every table iterator of a merge shares. */
  datatype Context = Context(cache: LRU?, env: Env, tables: Catalog)

  ghost predicate Agrees(ctx: Context)
    reads CacheFrame(ctx.cache)
  {
    CacheAgrees(ctx.cache, ctx.env.crc, ctx.tables)
  }

  datatype Source = Mem(mem: MemtableIterator) | Tab(tab: SSTableIterator) {
    function Obj(): object {
      match this case Mem(m) => m case Tab(t) => t
    }

    /** Everything the iterator's position and contents depend on. */
    ghost function Foot(): set<object> {
      match this
      case Mem(m) => {m} + m.frame
      case Tab(t) => {t, t.reader.filter}
    }

    ghost predicate Good(ctx: Context)
      reads Foot()
    {
      match this
      case Mem(m) => m.Valid()
      case Tab(t) => t.Valid() && t.reader.Valid() && t.reader.Listed(ctx.tables) && t.reader.cache == ctx.cache && t.reader.env == ctx.env && GoodBlocks(t.reader.blocks)
    }

    ghost function Remaining(ctx: Context): seq<Record>
      requires Good(ctx)
      reads Foot()
    {
      match this case Mem(m) => m.Remaining() case Tab(t) => t.Remaining()
    }

    /** All the records the iterator could be positioned on. */
    ghost function All(ctx: Context): seq<Record>
      requires Good(ctx)
      reads Foot()
    {
      match this case Mem(m) => m.list.Records() case Tab(t) => t.reader.Records()
    }

    predicate HasCurrent()
      reads Obj()
    {
      match this case Mem(m) => m.HasCurrent() case Tab(t) => t.HasCurrent()
    }

    function Current(): Record
      requires HasCurrent()
      reads Obj()
    {
      match this case Mem(m) => m.Current() case Tab(t) => t.Current()
    }

    lemma RemainingIsSorted(ctx: Context)
      requires Good(ctx)
      ensures WeaklySorted(All(ctx)) && WeaklySorted(Remaining(ctx))
      ensures HasCurrent() <==> Remaining(ctx) != []
      ensures HasCurrent() ==> Current() == Remaining(ctx)[0]
    {
      match this
      case Mem(m) =>
        m.CurrentIsFirst();
      case Tab(t) =>
        hide Flatten, WeaklySorted, Separators;
        t.CurrentIsFirst();
        assert WeaklySorted(All(ctx));
        if t.block.Some? {
          SuffixIsDrop(t.reader.blocks, t.blockIndex, t.entryIndex);
        }
    }

    method Next(ghost ctx: Context)
      requires Good(ctx) && Agrees(ctx) && HasCurrent()
      modifies Obj(), CacheFrame(ctx.cache)
      ensures Good(ctx) && Agrees(ctx)
      ensures old(Remaining(ctx)) != [] && Remaining(ctx) == old(Remaining(ctx))[1..]
    {
      RemainingIsSorted(ctx);
      match this {
        case Mem(m) =>
          m.Next();
        case Tab(t) => t.Next(ctx.tables);
      }
    }

    method Seek(target: InternalKey, ghost ctx: Context)
      requires Good(ctx) && Agrees(ctx)
      modifies Obj(), CacheFrame(ctx.cache)
      ensures Good(ctx) && Agrees(ctx) && All(ctx) == old(All(ctx))
      ensures Remaining(ctx) == All(ctx)[LowerBound(All(ctx), target)..]
    {
      match this {
        case Mem(m) => m.Seek(target);
        case Tab(t) => t.Seek(target, ctx.tables);
      }
    }
  }

  // ---------- heap order on an array of items ----------

  /** rest is what the iterator has left, rec its first record. */
  datatype Item = Item(iter: Source, rec: Record, ghost rest: seq<Record>)

  ghost predicate WellFormed(items: seq<Item>) {
    forall i :: 0 <= i < |items| ==> items[i].rest != [] && items[i].rec == items[i].rest[0] && WeaklySorted(items[i].rest)
  }

  function Parent(i: nat): nat
    requires i > 0
  {
    (i - 1) / 2
  }

  predicate ItemLess(items: seq<Item>, i: nat, j: nat)
    requires i < |items| && j < |items|
  {
    Before(items[i].rec.key, items[j].rec.key)
  }

  /** Among the first n items, none below position lo is before its parent. */
  ghost predicate Ordered(items: seq<Item>, lo: nat, n: nat)
    requires n <= |items|
  {
    forall j {:trigger Parent(j)} :: 0 < j < n && Parent(j) >= lo ==> !ItemLess(items, j, Parent(j))
  }

  /** As Ordered, but the item at hole may be wrong in relation to its children; they still respect its parent. */
  ghost predicate OrderedBelow(items: seq<Item>, lo: nat, n: nat, hole: nat)
    requires n <= |items|
  {
    && (forall j {:trigger Parent(j)} :: 0 < j < n && Parent(j) >= lo && Parent(j) != hole ==> !ItemLess(items, j, Parent(j)))
    && (forall j {:trigger Parent(j)} :: 0 < j < n && Parent(j) == hole > lo && Parent(hole) >= lo ==> !ItemLess(items, j, Parent(hole)))
  }

  /** As Ordered, but the item at hole may be before its parent; its children respect that parent. */
  ghost predicate OrderedAbove(items: seq<Item>, hole: nat)
  {
    && (forall j {:trigger Parent(j)} :: 0 < j < |items| && j != hole ==> !ItemLess(items, j, Parent(j)))
    && (forall j {:trigger Parent(j)} :: 0 < j < |items| && Parent(j) == hole > 0 ==> !ItemLess(items, j, Parent(hole)))
  }

  function Swapped(items: seq<Item>, i: nat, j: nat): seq<Item>
    requires i < |items| && j < |items|
  {
    items[i := items[j]][j := items[i]]
  }

  /** Moving one iterator does not disturb another. */
  ghost predicate Separate(items: seq<Item>) {
    forall i, j :: 0 <= i < |items| && 0 <= j < |items| && i != j ==> items[i].iter.Obj() !in items[j].iter.Foot()
  }

  lemma SwapKeeps(items: seq<Item>, i: nat, j: nat)
    requires i < |items| && j < |items|
    ensures multiset(Swapped(items, i, j)) == multiset(items)
    ensures Separate(items) ==> Separate(Swapped(items, i, j))
    ensures WellFormed(items) ==> WellFormed(Swapped(items, i, j))
  {
  }

  /** One step down: the hole's smaller child takes its place. */
  lemma StepDown(items: seq<Item>, lo: nat, n: nat, i: nat, j: nat)
    requires n <= |items| && lo <= i < j < n && Parent(j) == i && OrderedBelow(items, lo, n, i)
    requires ItemLess(items, j, i)
    requires forall c {:trigger Parent(c)} :: 0 < c < n && Parent(c) == i ==> !ItemLess(items, c, j)
    ensures OrderedBelow(Swapped(items, i, j), lo, n, j)
  {
    BeforeIsOrder();
  }

  /** The child that down picks is not after its sibling. */
  lemma SmallerChild(items: seq<Item>, n: nat, i: nat, j: nat)
    requires n <= |items| && j < n && (j == 2 * i + 1 || j == 2 * i + 2)
    requires if j == 2 * i + 2 then ItemLess(items, j, j - 1) else j + 1 < n ==> !ItemLess(items, j + 1, j)
    ensures Parent(j) == i
    ensures forall c {:trigger Parent(c)} :: 0 < c < n && Parent(c) == i ==> !ItemLess(items, c, j)
  {
    BeforeIsOrder();
    forall c | 0 < c < n && Parent(c) == i ensures !ItemLess(items, c, j) {
      assert c == 2 * i + 1 || c == 2 * i + 2;
    }
  }

  lemma NoneBelow(items: seq<Item>, lo: nat, n: nat, i: nat, j: nat)
    requires n <= |items| && lo <= i && i < n && j < n && (j == 2 * i + 1 || j == 2 * i + 2)
    requires if j == 2 * i + 2 then ItemLess(items, j, j - 1) else j + 1 < n ==> !ItemLess(items, j + 1, j)
    requires OrderedBelow(items, lo, n, i) && !ItemLess(items, j, i)
    ensures Ordered(items, lo, n)
  {
    SmallerChild(items, n, i, j);
    BeforeIsOrder();
  }

  lemma StepUp(items: seq<Item>, j: nat)
    requires 0 < j < |items| && OrderedAbove(items, j) && ItemLess(items, j, Parent(j))
    ensures OrderedAbove(Swapped(items, Parent(j), j), Parent(j))
  {
    hide Before;
    BeforeIsOrder();
  }

  lemma {:induction false} RootIsLeast(items: seq<Item>, i: nat)
    requires i < |items| && Ordered(items, 0, |items|)
    ensures !ItemLess(items, i, 0)
  {
    BeforeIsOrder();
    if i > 0 {
      RootIsLeast(items, Parent(i));
      assert !ItemLess(items, i, Parent(i));
    }
  }

  // ---------- the records still to come ----------

  ghost function Bag(items: seq<Item>): multiset<Record> {
    if items == [] then multiset{} else multiset(items[0].rest) + Bag(items[1..])
  }

  lemma BagOfConcat(a: seq<Item>, b: seq<Item>)
    requires a != []
    ensures Bag(a + b) == multiset(a[0].rest) + Bag(a[1..] + b)
  {
    assert (a + b)[0] == a[0] && (a + b)[1..] == a[1..] + b;
  }

  lemma {:induction false} BagConcat(a: seq<Item>, b: seq<Item>)
    ensures Bag(a + b) == Bag(a) + Bag(b)
  {
    if a == [] {
      assert a + b == b;
    } else {
      BagConcat(a[1..], b);
      BagOfConcat(a, b);
      Associative(multiset(a[0].rest), Bag(a[1..]), Bag(b));
    }
  }

  lemma Associative(x: multiset<Record>, y: multiset<Record>, z: multiset<Record>)
    ensures x + (y + z) == (x + y) + z
  {
  }

  lemma BagWithout(items: seq<Item>, k: nat)
    requires k < |items|
    ensures Bag(items) == multiset(items[k].rest) + Bag(items[..k] + items[k + 1..])
  {
    assert items == items[..k] + ([items[k]] + items[k + 1..]);
    BagConcat(items[..k], [items[k]] + items[k + 1..]);
    BagConcat([items[k]], items[k + 1..]);
    BagConcat(items[..k], items[k + 1..]);
    assert [items[k]][1..] == [];
  }

  /** The bag does not depend on the arrangement of the items. */
  lemma {:induction false} BagOfPermutation(a: seq<Item>, b: seq<Item>)
    requires multiset(a) == multiset(b)
    ensures Bag(a) == Bag(b)
    decreases |a|
  {
    if a == [] {
      assert |multiset(b)| == 0;
    } else {
      var k := Matching(a, b);
      BagOfPermutation(a[1..], b[..k] + b[k + 1..]);
      BagWithout(b, k);
    }
  }

  /** Where the first item of a stands in its rearrangement b. */
  lemma Matching(a: seq<Item>, b: seq<Item>) returns (k: nat)
    requires a != [] && multiset(a) == multiset(b)
    ensures k < |b| && b[k] == a[0] && multiset(a[1..]) == multiset(b[..k] + b[k + 1..])
  {
    assert a[0] in multiset(b);
    k :| 0 <= k < |b| && b[k] == a[0];
    RemoveAt(b, k);
    assert a == [a[0]] + a[1..];
    Removed(multiset(a[1..]), multiset(b), a[0]);
  }

  lemma Removed(x: multiset<Item>, y: multiset<Item>, i: Item)
    requires multiset{i} + x == y
    ensures x == y - multiset{i}
  {
  }

  lemma RemoveAt(s: seq<Item>, k: nat)
    requires k < |s|
    ensures multiset(s[..k] + s[k + 1..]) == multiset(s) - multiset{s[k]}
  {
    assert s == s[..k] + [s[k]] + s[k + 1..];
  }

  lemma {:induction false} InBag(items: seq<Item>, r: Record)
    ensures r in Bag(items) <==> exists i :: 0 <= i < |items| && r in items[i].rest
  {
    if items != [] {
      InBag(items[1..], r);
      if i: nat :| i < |items[1..]| && r in items[1..][i].rest {
        assert r in items[i + 1].rest;
      }
      if i: nat :| i < |items| && r in items[i].rest {
        assert i > 0 ==> r in items[1..][i - 1].rest;
      }
    }
  }

  /** The root's record is not after any record still to come. */
  lemma RootIsFirst(items: seq<Item>)
    requires items != [] && WellFormed(items) && Ordered(items, 0, |items|)
    ensures forall r :: r in Bag(items) ==> !Before(r.key, items[0].rec.key)
    ensures items[0].rec in Bag(items)
  {
    forall r | r in Bag(items) ensures !Before(r.key, items[0].rec.key) {
      InBag(items, r);
      var i :| 0 <= i < |items| && r in items[i].rest;
      var k :| 0 <= k < |items[i].rest| && items[i].rest[k] == r;
      RootIsLeast(items, i);
      BeforeIsOrder();
      assert k > 0 ==> !Before(items[i].rest[k].key, items[i].rest[0].key);
    }
    InBag(items, items[0].rec);
  }

  ghost function Feet(items: seq<Item>): set<object> {
    set x, o | x in items && o in x.iter.Foot() :: o
  }

  ghost function Objs(items: seq<Item>): set<object> {
    set x | x in items :: x.iter.Obj()
  }

  // ---------- the heap ----------

  class IteratorHeap {
    var items: seq<Item>
    ghost const ctx: Context

    /** The sift loops need only this part: the iterators themselves stay as they are. */
    ghost predicate Shape()
      reads this
    {
      WellFormed(items) && Separate(items)
    }

    /** The item's record is its iterator's current one, and rest is what that iterator has left. */
    ghost predicate InStep(x: Item)
      reads x.iter.Foot()
    {
      x.iter.Good(ctx) && x.rest == x.iter.Remaining(ctx)
    }

    ghost predicate Synced(items: seq<Item>)
      reads Feet(items)
    {
      forall x :: x in items ==> InStep(x)
    }

    /** Neither the heap nor the cache is part of any iterator. */
    ghost predicate Apart(items: seq<Item>) {
      this !in Feet(items) && this !in CacheFrame(ctx.cache) && CacheFrame(ctx.cache) !! Feet(items)
    }

    ghost predicate Valid()
      reads this, Feet(items), CacheFrame(ctx.cache)
    {
      Shape() && Synced(items) && Apart(items) && Agrees(ctx) && Ordered(items, 0, |items|)
    }

    constructor Empty(ghost ctx: Context)
      ensures items == [] && this.ctx == ctx
    {
      items := [];
      this.ctx := ctx;
    }

    /** Takes over items and puts them in heap order. */
    method Fill(items: seq<Item>, ghost feet: set<object>)
      requires WellFormed(items) && Separate(items) && Synced(items) && Agrees(ctx)
      requires Feet(items) <= feet && this !in feet && CacheFrame(ctx.cache) !! Feet(items) && this !in CacheFrame(ctx.cache)
      modifies this
      ensures Valid() && Bag(this.items) == Bag(items) && Feet(this.items) == Feet(items) && Objs(this.items) == Objs(items)
    {
      hide Source.Good, Source.Remaining, Source.Foot, CacheAgrees, Bag, Ordered, Separate;
      assert allocated(Feet(items)) && allocated(CacheFrame(ctx.cache));
      this.items := items;
      Init();
      BagOfPermutation(items, this.items);
      assert unchanged(Feet(items)) && unchanged(CacheFrame(ctx.cache));
      forall x ensures x in this.items <==> x in items {
        assert x in this.items <==> x in multiset(this.items);
      }
      forall x | x in items ensures InStep(x) {
        assert old(InStep(x));
      }
    }

    method Swap(i: nat, j: nat)
      requires Shape() && i < |items| && j < |items|
      modifies this
      ensures Shape() && items == Swapped(old(items), i, j) && multiset(items) == multiset(old(items))
    {
      SwapKeeps(items, i, j);
      items := items[i := items[j]][j := items[i]];
    }

    /** container/heap's down: sinks the item at i0 among the first n. */
    method Down(i0: nat, n: nat)
      requires Shape() && i0 < n <= |items| && OrderedBelow(items, i0, n, i0)
      modifies this
      ensures Shape() && multiset(items) == multiset(old(items)) && |items| == |old(items)|
      ensures Ordered(items, i0, n) && items[n..] == old(items)[n..]
    {
      var i := i0;
      while true
        invariant Shape() && multiset(items) == multiset(old(items)) && |items| == |old(items)|
        invariant i0 <= i < n && OrderedBelow(items, i0, n, i) && items[n..] == old(items)[n..]
        decreases n - i
      {
        var j1 := 2 * i + 1;
        if j1 >= n {
          break;
        }
        var j := j1;
        var j2 := j1 + 1;
        if j2 < n && ItemLess(items, j2, j1) {
          j := j2;
        }
        if !ItemLess(items, j, i) {
          NoneBelow(items, i0, n, i, j);
          break;
        }
        SmallerChild(items, n, i, j);
        StepDown(items, i0, n, i, j);
        Swap(i, j);
        i := j;
      }
    }

    /** container/heap's up: raises the item at j0. */
    method Up(j0: nat)
      requires Shape() && j0 < |items| && OrderedAbove(items, j0)
      modifies this
      ensures Shape() && multiset(items) == multiset(old(items)) && Ordered(items, 0, |items|)
    {
      var j: nat := j0;
      while true
        invariant Shape() && multiset(items) == multiset(old(items))
        invariant j < |items| && OrderedAbove(items, j)
        decreases j
      {
        if j == 0 || !ItemLess(items, j, Parent(j)) {
          break;
        }
        StepUp(items, j);
        Swap(Parent(j), j);
        j := Parent(j);
      }
    }

    /** container/heap's Init. */
    method Init()
      requires Shape()
      modifies this
      ensures Shape() && multiset(items) == multiset(old(items)) && Ordered(items, 0, |items|)
    {
      for i := |items| / 2 downto 0
        invariant Shape() && multiset(items) == multiset(old(items)) && |items| == |old(items)|
        invariant Ordered(items, i, |items|)
      {
        Down(i, |items|);
      }
    }

    /** container/heap's Push. */
    method Push(item: Item)
      requires Shape() && Ordered(items, 0, |items|)
      requires WellFormed(items + [item]) && Separate(items + [item])
      modifies this
      ensures Shape() && multiset(items) == multiset(old(items)) + multiset{item} && Ordered(items, 0, |items|)
    {
      items := items + [item];
      Up(|items| - 1);
    }

    /** container/heap's Pop: the root leaves, the last item sinks from its place. */
    method Pop() returns (item: Item)
      requires Shape() && items != [] && Ordered(items, 0, |items|)
      modifies this
      ensures item == old(items[0]) && multiset(old(items)) == multiset(items) + multiset{item}
      ensures WellFormed(items + [item]) && Separate(items + [item])
      ensures Shape() && Ordered(items, 0, |items|)
    {
      var n := |items| - 1;
      Swap(0, n);
      if n > 0 {
        Down(0, n);
      }
      item := items[n];
      DropLast(items, n);
      items := items[..n];
    }

    static lemma DropLast(items: seq<Item>, n: nat)
      requires |items| == n + 1 && WellFormed(items) && Separate(items) && Ordered(items, 0, n)
      ensures items == items[..n] + [items[n]] && multiset(items) == multiset(items[..n]) + multiset{items[n]}
      ensures WellFormed(items[..n]) && Separate(items[..n]) && Ordered(items[..n], 0, n)
    {
      assert items == items[..n] + [items[n]];
    }

    /** The record of the heap's first item, which callers read before advancing. */
    function Peek(): Record
      requires items != []
      reads this
    {
      items[0].rec
    }

    /** Advancing the heap's iterators leaves alone whatever is outside their feet. */
    lemma Outside()
      requires Valid()
      ensures this !in Feet(items) && this !in CacheFrame(ctx.cache) && Objs(items) <= Feet(items)
    {
      forall o | o in Objs(items) ensures o in Feet(items) {
        var x :| x in items && o == x.iter.Obj();
        assert o in x.iter.Foot();
      }
    }

    /** Nothing still to come is before what Peek shows. */
    lemma PeekIsFirst()
      requires Valid() && items != []
      ensures Peek() in Bag(items) && forall r :: r in Bag(items) ==> !Before(r.key, Peek().key)
    {
      RootIsFirst(items);
    }

    lemma EmptyIffDrained()
      requires Valid()
      ensures items == [] <==> Bag(items) == multiset{}
    {
      if items != [] {
        RootIsFirst(items);
      }
    }

    /** Moves a popped item's iterator on; the other items stay in step with theirs. */
    method Advance(item: Item)
      requires Synced(items) && Apart(items) && Agrees(ctx)
      requires InStep(item) && WellFormed([item]) && item.iter.Obj() !in Feet(items)
      modifies item.iter.Obj(), CacheFrame(ctx.cache)
      ensures Synced(items) && Agrees(ctx)
      ensures item.iter.Good(ctx) && item.rest != [] && item.iter.Remaining(ctx) == item.rest[1..]
    {
      hide Source.Good, Source.Remaining, Source.Foot, Agrees;
      assert [item][0] == item;
      item.iter.RemainingIsSorted(ctx);
      ghost var feet := Feet(items);
      assert allocated(feet);
      forall x | x in items ensures x.iter.Foot() <= feet && InStep(x) {
      }
      item.iter.Next(ctx);
      assert unchanged(feet);
      forall x | x in items ensures InStep(x) {
        assert old(InStep(x));
      }
    }

    /** Pop keeps the remaining items in step with their iterators, and apart from the popped one. */
    method PopItem() returns (item: Item)
      requires Valid() && items != []
      modifies this
      ensures Valid() && InStep(item) && WellFormed([item]) && Apart([item])
      ensures item == old(items[0]) && item in old(items) && Separate(items + [item]) && item.iter.Obj() !in Feet(items)
      ensures old(Bag(items)) == multiset(item.rest) + Bag(items)
      ensures Feet(items) <= old(Feet(items)) && Objs(items) <= old(Objs(items))
    {
      hide Source.Good, Source.Remaining, Source.Foot, CacheAgrees, Bag, Ordered;
      ghost var feet := Feet(items);
      assert allocated(feet) && allocated(CacheFrame(ctx.cache));
      item := Pop();
      PoppedIsApart(old(items), items, item);
      assert unchanged(feet) && unchanged(CacheFrame(ctx.cache));
      forall x | x in items || x == item ensures x in old(items) && x.iter.Foot() <= feet && InStep(x) {
        assert old(InStep(x));
      }
    }

    /** Push, for an item in step with an iterator of its own. */
    method PushItem(item: Item)
      requires Valid() && InStep(item) && WellFormed([item]) && Apart([item]) && Separate(items + [item])
      modifies this
      ensures Valid() && Bag(items) == multiset(item.rest) + old(Bag(items))
      ensures Feet(items) == old(Feet(items)) + item.iter.Foot() && Objs(items) == old(Objs(items)) + {item.iter.Obj()}
    {
      hide Source.Good, Source.Remaining, Source.Foot, CacheAgrees, Bag, Ordered, Separate;
      ghost var feet := Feet(items) + Feet([item]);
      assert allocated(Feet(items)) && allocated(Feet([item])) && allocated(CacheFrame(ctx.cache));
      assert [item][0] == item;
      Push(item);
      SameElements(old(items), items, item);
      assert unchanged(feet) && unchanged(CacheFrame(ctx.cache));
      forall x | x in items ensures InStep(x) {
        assert x in old(items) || x == item;
        assert old(InStep(x));
      }
    }

    /** Yields a record that nothing still to come is before; the bag loses exactly that record. */
    method PopAndAdvance() returns (rec: Record)
      requires Valid()
      modifies this, Objs(items), CacheFrame(ctx.cache)
      ensures Valid() && Feet(items) <= old(Feet(items)) && Objs(items) <= old(Objs(items))
      ensures old(items) == [] ==> items == [] && rec == Record(InternalKey([], 0, 0), [])
      ensures old(items) != [] ==> rec == old(Peek()) && old(Bag(items)) == multiset{rec} + Bag(items)
    {
      hide Source.Good, Source.Remaining, Source.Foot, CacheAgrees;
      if |items| == 0 {
        return Record(InternalKey([], 0, 0), []);
      }
      var item := PopItem();
      rec := item.rec;
      RestSplits(item);
      MoveOn(item);
    }

    lemma RestSplits(item: Item)
      requires WellFormed([item])
      ensures item.rest != [] && multiset(item.rest) == multiset{item.rec} + multiset(item.rest[1..])
    {
      assert [item][0] == item && item.rest == [item.rec] + item.rest[1..];
    }

    /** The popped item goes back with its iterator's next record, if there is one. */
    method MoveOn(item: Item)
      requires Valid() && InStep(item) && WellFormed([item]) && Apart([item])
      requires item.rest != [] && Separate(items + [item]) && item.iter.Obj() !in Feet(items)
      modifies this, item.iter.Obj(), CacheFrame(ctx.cache)
      ensures Valid() && Bag(items) == multiset(item.rest[1..]) + old(Bag(items))
      ensures Feet(items) <= old(Feet(items)) + item.iter.Foot() && Objs(items) <= old(Objs(items)) + {item.iter.Obj()}
    {
      hide Source.Good, Source.Remaining, Source.Foot, CacheAgrees;
      Advance(item);
      item.iter.RemainingIsSorted(ctx);
      if item.iter.HasCurrent() {
        var next := Item(item.iter, item.iter.Current(), item.rest[1..]);
        SameIterator(items, item, next);
        PushItem(next);
      }
    }

    static lemma SameIterator(items: seq<Item>, item: Item, next: Item)
      requires Separate(items + [item]) && item.iter == next.iter
      ensures Separate(items + [next])
    {
      forall i, j | 0 <= i <= |items| && 0 <= j <= |items| && i != j
        ensures (items + [next])[i].iter.Obj() !in (items + [next])[j].iter.Foot()
      {
        assert (items + [item])[i].iter.Obj() !in (items + [item])[j].iter.Foot();
      }
    }

    lemma SameElements(before: seq<Item>, items: seq<Item>, item: Item)
      requires multiset(items) == multiset(before) + multiset{item}
      ensures forall x :: x in items <==> x in before || x == item
      ensures Bag(items) == multiset(item.rest) + Bag(before)
      ensures Feet(items) == Feet(before) + item.iter.Foot() && Objs(items) == Objs(before) + {item.iter.Obj()}
    {
      hide Bag, Source.Foot, Source.Obj;
      forall x ensures x in items <==> x in before || x == item {
        assert x in items <==> x in multiset(items);
      }
      assert multiset(before + [item]) == multiset(items);
      BagOfPermutation(items, before + [item]);
      BagConcat(before, [item]);
      BagOfOne(item);
    }

    static lemma BagOfOne(item: Item)
      ensures Bag([item]) == multiset(item.rest)
    {
      assert [item][1..] == [];
    }

    lemma PoppedIsApart(before: seq<Item>, items: seq<Item>, item: Item)
      requires multiset(before) == multiset(items) + multiset{item} && Separate(items + [item])
      ensures forall x :: x in before <==> x in items || x == item
      ensures item.iter.Obj() !in Feet(items)
      ensures Bag(before) == multiset(item.rest) + Bag(items)
    {
      forall x ensures x in before <==> x in items || x == item {
        assert x in before <==> x in multiset(before);
      }
      forall x | x in items ensures item.iter.Obj() !in x.iter.Foot() {
        var i :| 0 <= i < |items| && items[i] == x;
        assert (items + [item])[i] == x && (items + [item])[|items|] == item;
      }
      assert multiset(items + [item]) == multiset(before);
      BagOfPermutation(before, items + [item]);
      BagConcat(items, [item]);
      assert [item][1..] == [];
    }
  }

  // ---------- building the heap ----------

  ghost function SourcesFeet(iters: seq<Source>): set<object> {
    set s, o | s in iters && o in s.Foot() :: o
  }

  ghost function SourceObjs(iters: seq<Source>): set<object> {
    set s | s in iters :: s.Obj()
  }

  ghost predicate Holds(s: Source, rest: seq<Record>, ctx: Context)
    reads s.Foot()
  {
    s.Good(ctx) && rest == s.Remaining(ctx)
  }

  lemma HoldsFirst(s: Source, rest: seq<Record>, ctx: Context)
    requires Holds(s, rest, ctx)
    ensures WeaklySorted(rest) && (s.HasCurrent() <==> rest != [])
    ensures s.HasCurrent() ==> s.Current() == rest[0]
  {
    s.RemainingIsSorted(ctx);
  }

  /** The sources have rests left, and are independent of each other and of the cache. */
  ghost predicate Ready(iters: seq<Source>, rests: seq<seq<Record>>, ctx: Context)
    reads SourcesFeet(iters)
  {
    && |rests| == |iters| && CacheFrame(ctx.cache) !! SourcesFeet(iters)
    && (forall i :: 0 <= i < |iters| ==> iters[i] in iters && Holds(iters[i], rests[i], ctx))
    && (forall i, j :: 0 <= i < |iters| && 0 <= j < |iters| && i != j ==> iters[i].Obj() !in iters[j].Foot())
  }

  /** All the records of several runs. */
  ghost function Sum(rests: seq<seq<Record>>): multiset<Record> {
    if rests == [] then multiset{} else
      var n := |rests| - 1;
      Sum(rests[..n]) + multiset(rests[n])
  }

  method NewIteratorHeap(iters: seq<Source>, ghost rests: seq<seq<Record>>, ghost ctx: Context) returns (h: IteratorHeap)
    requires Ready(iters, rests, ctx) && Agrees(ctx)
    ensures fresh(h) && h.Valid() && h.ctx == ctx
    ensures Bag(h.items) == Sum(rests) && Feet(h.items) <= SourcesFeet(iters) && Objs(h.items) <= SourceObjs(iters)
  {
    hide Source.Good, Source.Remaining, Source.Foot, CacheAgrees, Bag, Ordered;
    ghost var feet := SourcesFeet(iters);
    assert allocated(feet) && allocated(CacheFrame(ctx.cache));
    var items, from := CollectItems(iters, rests, ctx);
    CollectedIsReady(iters, rests, items, from, ctx);
    h := new IteratorHeap.Empty(ctx);
    assert unchanged(feet) && unchanged(CacheFrame(ctx.cache));
    forall x | x in items ensures h.InStep(x) {
      assert old(Holds(x.iter, x.rest, ctx));
      assert x.iter.Foot() <= feet;
    }
    h.Fill(items, feet);
  }

  /** The iterators that are already exhausted get no item. */
  method CollectItems(iters: seq<Source>, ghost rests: seq<seq<Record>>, ghost ctx: Context) returns (items: seq<Item>, ghost from: seq<nat>)
    requires Ready(iters, rests, ctx)
    ensures Collected(iters, rests, items, from, |iters|)
  {
    hide Source.Good, Source.Remaining, Source.Foot;
    items, from := [], [];
    ghost var feet := SourcesFeet(iters);
    assert allocated(feet);
    for i := 0 to |iters|
      invariant unchanged(feet)
      invariant Collected(iters, rests, items, from, i)
    {
      assert old(Holds(iters[i], rests[i], ctx)) && iters[i].Foot() <= feet;
      HoldsFirst(iters[i], rests[i], ctx);
      if iters[i].HasCurrent() {
        var item := Item(iters[i], iters[i].Current(), rests[i]);
        AddItem(iters, rests, items, from, i, item);
        items, from := items + [item], from + [i];
      } else {
        assert rests[..i + 1][..i] == rests[..i];
      }
    }
  }

  /** items holds those of the first n iterators that have a current record, in order. */
  ghost predicate Collected(iters: seq<Source>, rests: seq<seq<Record>>, items: seq<Item>, from: seq<nat>, n: nat) {
    && n <= |iters| == |rests| && |from| == |items| && WellFormed(items)
    && (forall k :: 0 <= k < |from| ==> from[k] < n && items[k].iter == iters[from[k]] && items[k].rest == rests[from[k]])
    && (forall k, l :: 0 <= k < l < |from| ==> from[k] < from[l])
    && Bag(items) == Sum(rests[..n])
  }

  lemma AddItem(iters: seq<Source>, rests: seq<seq<Record>>, items: seq<Item>, from: seq<nat>, i: nat, item: Item)
    requires Collected(iters, rests, items, from, i) && i < |iters|
    requires item.iter == iters[i] && item.rest == rests[i] && WellFormed([item])
    ensures Collected(iters, rests, items + [item], from + [i], i + 1)
  {
    assert [item][0] == item;
    assert rests[..i + 1][..i] == rests[..i];
    BagConcat(items, [item]);
    assert [item][1..] == [];
  }

  lemma CollectedIsReady(iters: seq<Source>, rests: seq<seq<Record>>, items: seq<Item>, from: seq<nat>, ctx: Context)
    requires Ready(iters, rests, ctx) && Collected(iters, rests, items, from, |iters|)
    ensures Separate(items) && Feet(items) <= SourcesFeet(iters)
    ensures forall x :: x in items ==> x.iter in iters && Holds(x.iter, x.rest, ctx)
    ensures Bag(items) == Sum(rests)
  {
    hide Source.Good, Source.Remaining, Source.Foot;
    assert rests[..|iters|] == rests;
    forall x | x in items ensures x.iter in iters && Holds(x.iter, x.rest, ctx) {
      var k :| 0 <= k < |items| && items[k] == x;
    }
    forall k, l | 0 <= k < |items| && 0 <= l < |items| && k != l ensures items[k].iter.Obj() !in items[l].iter.Foot() {
      assert from[k] != from[l];
    }
  }
}
