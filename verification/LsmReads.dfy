/** Point reads on the state: what get looks at, and when that is enough (internal/engine/read.go). */
module LsmReads {
  import opened Bytes
  import opened Records
  import opened Runs
  import opened Versions
  import opened Layers
  import opened TableSets
  import opened Lsm
  import opened LsmCompaction
  import opened LsmRuns

  // ---------- the read path ----------

  function MaxKeys(tables: Level): (keys: seq<InternalKey>)
    ensures |keys| == |tables|
    ensures forall i :: 0 <= i < |tables| ==> keys[i] == tables[i].maxKey
  {
    seq(|tables|, i requires 0 <= i < |tables| => tables[i].maxKey)
  }

  /** A record found replaces the best so far only if it is newer. */
  function Better(best: Option<Record>, found: Option<Record>): Option<Record> {
    if found.Some? && (best.None? || found.value.key.seqNum > best.value.key.seqNum) then found else best
  }

  /** Level 0, from the last table to the first. */
  function ScanLevel0(files: Files, tables: Level, k: InternalKey, best: Option<Record>): Option<Record> {
    if tables == [] then best else
      var n := |tables| - 1;
      var t := tables[n];
      ScanLevel0(files, tables[..n], k,
        if Less(k.userKey, t.minKey.userKey) || Less(t.maxKey.userKey, k.userKey) then best
        else Better(best, Find(Run(files, t.fileNum), k)))
  }

  /** The table that binary search over a deeper level arrives at. */
  ghost function Probed(tables: Level, k: InternalKey): (i: nat)
    ensures i <= |tables|
  {
    Probe(AtOrAfter(MaxKeys(tables), k), 0, |tables|)
  }

  /** Levels l and deeper, one table each, stopping behind the first level looked into with something found. */
  ghost function Descend(files: Files, levels: Levels, k: InternalKey, l: nat, best: Option<Record>): Option<Record>
    requires l <= |levels|
    decreases |levels| - l
  {
    if l == |levels| then best else
      var tables := levels[l];
      if Probed(tables, k) == |tables| then Descend(files, levels, k, l + 1, best) else
        var better := Better(best, Find(Run(files, tables[Probed(tables, k)].fileNum), k));
        if better.Some? then better else Descend(files, levels, k, l + 1, better)
  }

  ghost function Get(s: State, k: InternalKey): Option<Record>
    requires |s.levels| >= 1
  {
    if Find(s.mt, k).Some? then Find(s.mt, k) else
    if s.immt.Some? && Find(s.immt.value, k).Some? then Find(s.immt.value, k) else
    Descend(s.files, s.levels, k, 1, ScanLevel0(s.files, s.levels[0], k, None))
  }

  // ---------- what readers can see ----------

  ghost function Immutable(s: State): set<Record> {
    if s.immt.Some? then Elements(s.immt.value) else {}
  }

  /** The records of levels lo up to hi. */
  ghost function HeldIn(files: Files, levels: Levels, lo: nat, hi: nat): set<Record>
    requires hi <= |levels|
  {
    set l, r | lo <= l < hi && r in Held(files, levels[l]) :: r
  }

  ghost function Seen(s: State): set<Record> {
    Elements(s.mt) + Immutable(s) + HeldIn(s.files, s.levels, 0, |s.levels|)
  }

  ghost predicate LevelsSorted(levels: Levels) {
    forall l :: 1 <= l < |levels| ==> KeysSorted(MaxKeys(levels[l]), 0, |levels[l]|)
  }

  // ---------- one level ----------

  lemma FindIsIn(run: seq<Record>, k: InternalKey)
    ensures Find(run, k).Some? ==> Find(run, k).value in run && Matches(Find(run, k).value, k.userKey, k.seqNum)
  {
    LessIsOrder();
  }

  lemma NewestOfTwo(a: set<Record>, b: set<Record>, user: bytes, bound: uint64, x: Option<Record>, y: Option<Record>)
    requires IsNewest(a, user, bound, x) && IsNewest(b, user, bound, y)
    ensures IsNewest(a + b, user, bound, Better(x, y))
  {
  }

  /** Level 0 is searched completely: the range test only skips tables without the key. */
  lemma {:induction false} Level0IsSearched(files: Files, tables: Level, k: InternalKey, best: Option<Record>, above: set<Record>)
    requires Described(files, tables) && IsNewest(above, k.userKey, k.seqNum, best)
    ensures IsNewest(above + Held(files, tables), k.userKey, k.seqNum, ScanLevel0(files, tables, k, best))
    decreases |tables|
  {
    hide IsNewest, Find, Run, Describes;
    if tables == [] {
      assert above + Held(files, tables) == above;
    } else {
      var n := |tables| - 1;
      var t := tables[n];
      assert t in tables;
      var run := Run(files, t.fileNum);
      var next := if Less(k.userKey, t.minKey.userKey) || Less(t.maxKey.userKey, k.userKey) then best else Better(best, Find(run, k));
      TableIsSearched(t, run, k, best, above);
      Level0IsSearched(files, tables[..n], k, next, above + Elements(run));
      HeldSnoc(files, tables, above);
    }
  }

  lemma HeldSnoc(files: Files, tables: Level, above: set<Record>)
    requires tables != []
    ensures var n := |tables| - 1;
            above + Elements(Run(files, tables[n].fileNum)) + Held(files, tables[..n]) == above + Held(files, tables)
  {
    var n := |tables| - 1;
    HeldParts(files, tables, tables[..n], [tables[n]]);
    assert Held(files, [tables[n]]) == Elements(Run(files, tables[n].fileNum));
  }

  lemma TableIsSearched(t: TableMeta, run: seq<Record>, k: InternalKey, best: Option<Record>, above: set<Record>)
    requires Describes(t, run) && IsNewest(above, k.userKey, k.seqNum, best)
    ensures IsNewest(above + Elements(run), k.userKey, k.seqNum,
              if Less(k.userKey, t.minKey.userKey) || Less(t.maxKey.userKey, k.userKey) then best else Better(best, Find(run, k)))
  {
    if Less(k.userKey, t.minKey.userKey) || Less(t.maxKey.userKey, k.userKey) {
      forall r | r in run ensures r.key.userKey != k.userKey {
        InKeyRange(t, run, r);
      }
    } else {
      FindIsNewest(run, k);
      NewestOfTwo(above, Elements(run), k.userKey, k.seqNum, best, Find(run, k));
    }
  }

  /**
   * On a sorted level of disjoint tables, one table is enough. That includes skipping a table whose
   * last key is the key looked for, but only in versions that are too new.
   */
  lemma SortedLevelIsSearched(files: Files, tables: Level, k: InternalKey)
    requires Described(files, tables) && DisjointRanges(tables) && KeysSorted(MaxKeys(tables), 0, |tables|)
    ensures IsNewest(Held(files, tables), k.userKey, k.seqNum,
              if Probed(tables, k) == |tables| then None else Find(Run(files, tables[Probed(tables, k)].fileNum), k))
  {
    hide Describes, DisjointRanges, KeysSorted, Find, Run;
    var i := Probed(tables, k);
    SearchSorted(MaxKeys(tables), k);
    forall x | x in Held(files, tables) && Matches(x, k.userKey, k.seqNum)
      ensures i < |tables| && x in Run(files, tables[i].fileNum)
    {
      var t :| t in tables && x in Run(files, t.fileNum);
      var j :| 0 <= j < |tables| && tables[j] == t;
      OnlyTheProbed(files, tables, k, i, j, x);
    }
    if i < |tables| {
      var t := tables[i];
      DescribedIsSorted(t, Run(files, t.fileNum));
      FindIsNewest(Run(files, t.fileNum), k);
      assert t in tables;
    }
  }

  lemma DescribedIsSorted(t: TableMeta, run: seq<Record>)
    requires Describes(t, run)
    ensures WeaklySorted(run)
  {
  }

  lemma OnlyTheProbed(files: Files, tables: Level, k: InternalKey, i: nat, j: nat, x: Record)
    requires Described(files, tables) && DisjointRanges(tables) && KeysSorted(MaxKeys(tables), 0, |tables|)
    requires i <= |tables| && (forall m :: 0 <= m < i ==> Before(tables[m].maxKey, k)) && (i < |tables| ==> !Before(tables[i].maxKey, k))
    requires j < |tables| && x in Run(files, tables[j].fileNum) && Matches(x, k.userKey, k.seqNum)
    ensures i == j
  {
    var t := tables[j];
    assert t in tables;
    InKeyRange(t, Run(files, t.fileNum), x);
    BeforeIsOrder();
    LessIsOrder();
    assert !Before(x.key, k);
    assert j >= i;
    if j > i {
      var u := tables[i];
      assert u in tables;
      assert Before(MaxKeys(tables)[i], MaxKeys(tables)[j]);
      assert Below(u, t) || Below(t, u);
      InKeyRange(u, Run(files, u.fileNum), Run(files, u.fileNum)[0]);
    }
  }

  // ---------- all levels ----------

  lemma HeldInSplit(files: Files, levels: Levels, lo: nat, l: nat, hi: nat)
    requires lo <= l <= hi <= |levels|
    ensures HeldIn(files, levels, lo, hi) == HeldIn(files, levels, lo, l) + HeldIn(files, levels, l, hi)
    ensures l < hi ==> HeldIn(files, levels, l, hi) == Held(files, levels[l]) + HeldIn(files, levels, l + 1, hi)
    ensures HeldIn(files, levels, lo, lo) == {}
  {
  }

  /** Once the newest of everything above is newer than all below, further tables cannot better it. */
  lemma {:induction false} BestStays(files: Files, levels: Levels, k: InternalKey, l: nat, best: Option<Record>)
    requires l <= |levels| && best.Some?
    requires forall x :: x in HeldIn(files, levels, l, |levels|) && Matches(x, k.userKey, k.seqNum) ==> x.key.seqNum <= best.value.key.seqNum
    ensures Descend(files, levels, k, l, best) == best
    decreases |levels| - l
  {
    hide HeldIn, Find, Probed;
    if l < |levels| {
      var tables := levels[l];
      HeldInSplit(files, levels, l, l, |levels|);
      if Probed(tables, k) == |tables| {
        BestStays(files, levels, k, l + 1, best);
      } else {
        var t := tables[Probed(tables, k)];
        var found := Find(Run(files, t.fileNum), k);
        FindIsIn(Run(files, t.fileNum), k);
        if found.Some? {
          assert t in tables;
          assert found.value in Held(files, tables);
        }
      }
    }
  }

  /** Deeper levels are older, level by level. */
  ghost predicate LevelsOrdered(files: Files, levels: Levels, strict: bool) {
    forall l, m :: 0 <= l < m < |levels| ==> Newer(Held(files, levels[l]), Held(files, levels[m]), strict)
  }

  ghost predicate LevelsGood(files: Files, levels: Levels) {
    && (forall l :: 0 <= l < |levels| ==> Described(files, levels[l]))
    && (forall l :: 1 <= l < |levels| ==> DisjointRanges(levels[l]))
    && LevelsOrdered(files, levels, false)
  }

  lemma HeldInNext(files: Files, levels: Levels, l: nat)
    requires l < |levels|
    ensures HeldIn(files, levels, 0, l + 1) == HeldIn(files, levels, 0, l) + Held(files, levels[l])
  {
  }

  lemma FoundIsNewest(up: set<Record>, down: set<Record>, user: bytes, bound: uint64, r: Option<Record>)
    requires IsNewest(up, user, bound, r) && r.Some? && Newer(up, down, false)
    ensures IsNewest(up + down, user, bound, r)
    ensures forall x :: x in down && Matches(x, user, bound) ==> x.key.seqNum <= r.value.key.seqNum
  {
  }

  lemma UpperNewer(files: Files, levels: Levels, l: nat)
    requires LevelsOrdered(files, levels, false) && l <= |levels|
    ensures Newer(HeldIn(files, levels, 0, l), HeldIn(files, levels, l, |levels|), false)
  {
    hide Held;
    forall x, y | x in HeldIn(files, levels, 0, l) && y in HeldIn(files, levels, l, |levels|) && x.key.userKey == y.key.userKey
      ensures x.key.seqNum >= y.key.seqNum
    {
      var i :| 0 <= i < l && x in Held(files, levels[i]);
      var j :| l <= j < |levels| && y in Held(files, levels[j]);
      assert Newer(Held(files, levels[i]), Held(files, levels[j]), false);
    }
  }

  /** Stopping at the first level with a hit is sound, and otherwise every level is searched. */
  lemma {:induction false} DescendIsNewest(files: Files, levels: Levels, k: InternalKey, l: nat, best: Option<Record>)
    requires 1 <= l <= |levels| && LevelsGood(files, levels) && LevelsSorted(levels)
    requires IsNewest(HeldIn(files, levels, 0, l), k.userKey, k.seqNum, best)
    ensures IsNewest(HeldIn(files, levels, 0, |levels|), k.userKey, k.seqNum, Descend(files, levels, k, l, best))
    decreases |levels| - l, 1
  {
    hide IsNewest, Held, HeldIn, Newer, Find, Described, DisjointRanges, KeysSorted, Better;
    HeldInSplit(files, levels, 0, l, |levels|);
    if best.Some? {
      UpperNewer(files, levels, l);
      FoundIsNewest(HeldIn(files, levels, 0, l), HeldIn(files, levels, l, |levels|), k.userKey, k.seqNum, best);
      BestStays(files, levels, k, l, best);
    } else if l < |levels| {
      var tables := levels[l];
      SortedLevelIsSearched(files, tables, k);
      HeldInNext(files, levels, l);
      var found := if Probed(tables, k) == |tables| then None else Find(Run(files, tables[Probed(tables, k)].fileNum), k);
      NewestOfTwo(HeldIn(files, levels, 0, l), Held(files, tables), k.userKey, k.seqNum, best, found);
      NothingBetter(found);
      DescendFrom(files, levels, k, l, found);
    }
  }

  lemma NothingBetter(found: Option<Record>)
    ensures Better(None, found) == found
  {
  }

  lemma {:induction false} DescendFrom(files: Files, levels: Levels, k: InternalKey, l: nat, found: Option<Record>)
    requires 1 <= l < |levels| && LevelsGood(files, levels) && LevelsSorted(levels)
    requires found == if Probed(levels[l], k) == |levels[l]| then None else Find(Run(files, levels[l][Probed(levels[l], k)].fileNum), k)
    requires IsNewest(HeldIn(files, levels, 0, l + 1), k.userKey, k.seqNum, found)
    ensures IsNewest(HeldIn(files, levels, 0, |levels|), k.userKey, k.seqNum, Descend(files, levels, k, l, None))
    decreases |levels| - l, 0
  {
    hide IsNewest, Held, HeldIn, Newer, Find, Described, DisjointRanges, KeysSorted, Better, Run;
    NothingBetter(found);
    if found.Some? {
      UpperNewer(files, levels, l + 1);
      HeldInSplit(files, levels, 0, l + 1, |levels|);
      FoundIsNewest(HeldIn(files, levels, 0, l + 1), HeldIn(files, levels, l + 1, |levels|), k.userKey, k.seqNum, found);
    } else {
      DescendIsNewest(files, levels, k, l + 1, None);
    }
  }

  // ---------- the whole read ----------

  /** The tables' part of the stack holds what the levels hold. */
  lemma TablesInStack(files: Files, levels: Levels)
    requires |levels| >= 1
    ensures Union(Deep(files, levels, 1, |levels|) + Sets(Contents(files, levels[0]))) == HeldIn(files, levels, 0, |levels|)
  {
    hide Held, Contents;
    var n := |levels|;
    var deep := Deep(files, levels, 1, n);
    UnionConcat(deep, Sets(Contents(files, levels[0])));
    HeldIsUnion(files, levels[0]);
    forall r ensures r in Union(deep) <==> r in HeldIn(files, levels, 1, n) {
      if r in HeldIn(files, levels, 1, n) {
        var l :| 1 <= l < n && r in Held(files, levels[l]);
        assert r in deep[n - 1 - l];
      }
    }
    HeldInSplit(files, levels, 0, 0, n);
  }

  lemma TablesOrdered(files: Files, levels: Levels, strict: bool)
    requires |levels| >= 1 && Ordered(Deep(files, levels, 1, |levels|) + Sets(Contents(files, levels[0])), strict)
    ensures LevelsOrdered(files, levels, strict)
  {
    var n := |levels|;
    var deep := Deep(files, levels, 1, n);
    OrderedConcat(deep, Sets(Contents(files, levels[0])), strict);
    HeldIsUnion(files, levels[0]);
    forall l, m | 0 <= l < m < n ensures Newer(Held(files, levels[l]), Held(files, levels[m]), strict) {
      assert deep[n - 1 - m] == Held(files, levels[m]);
      if l == 0 {
        assert forall r :: r in deep[n - 1 - m] ==> r in Union(deep);
      } else {
        assert deep[n - 1 - l] == Held(files, levels[l]);
      }
    }
  }

  lemma StackInThree(s: State)
    requires |s.levels| >= 1
    ensures StackOf(s) == (Deep(s.files, s.levels, 1, |s.levels|) + Sets(Contents(s.files, s.levels[0]))) + Sets(TaskRuns(s.tasks)) + [Elements(s.mt)]
  {
    var a, b := Contents(s.files, s.levels[0]), TaskRuns(s.tasks);
    assert Sets(Recents(s)) == Sets(a) + Sets(b) + [Elements(s.mt)];
  }

  /** What the invariant gives a reader: the memtables above the tables, each level above the deeper ones. */
  lemma ReaderFacts(s: State, strict: bool)
    requires Inv(s, strict)
    ensures LevelsOrdered(s.files, s.levels, strict)
    ensures Newer(Elements(s.mt), Union(Sets(TaskRuns(s.tasks))), strict)
    ensures Newer(Elements(s.mt), HeldIn(s.files, s.levels, 0, |s.levels|), strict)
    ensures Newer(Union(Sets(TaskRuns(s.tasks))), HeldIn(s.files, s.levels, 0, |s.levels|), strict)
    ensures All(s) == HeldIn(s.files, s.levels, 0, |s.levels|) + Union(Sets(TaskRuns(s.tasks))) + Elements(s.mt)
    ensures Immutable(s) <= Union(Sets(TaskRuns(s.tasks))) && Ordered(Sets(TaskRuns(s.tasks)), strict)
  {
    hide Catalogued, NumbersFresh, JobStands, StackOf, Deep, Sets, Contents;
    StackInThree(s);
    var low, mid := Deep(s.files, s.levels, 1, |s.levels|) + Sets(Contents(s.files, s.levels[0])), Sets(TaskRuns(s.tasks));
    TablesInStack(s.files, s.levels);
    OrderedConcat(low + mid, [Elements(s.mt)], strict);
    OrderedConcat(low, mid, strict);
    UnionConcat(low + mid, [Elements(s.mt)]);
    UnionConcat(low, mid);
    UnionOne(Elements(s.mt));
    TablesOrdered(s.files, s.levels, strict);
    ImmutableIsTask(s);
  }

  lemma ImmutableIsTask(s: State)
    requires RunsSorted(s.mt, s.immt, s.tasks)
    ensures Immutable(s) <= Union(Sets(TaskRuns(s.tasks)))
  {
    if s.immt.Some? {
      var i := |s.tasks| - 1;
      assert Sets(TaskRuns(s.tasks))[i] == Elements(s.immt.value);
    }
  }

  lemma LevelsAreGood(s: State, strict: bool)
    requires Inv(s, strict)
    ensures LevelsGood(s.files, s.levels)
  {
    ReaderFacts(s, strict);
    LevelsDescribed(s.levels, s.files, s.used);
    forall l, m | 0 <= l < m < |s.levels| ensures Newer(Held(s.files, s.levels[l]), Held(s.files, s.levels[m]), false) {
      NewerParts(Held(s.files, s.levels[l]), Held(s.files, s.levels[m]), Held(s.files, s.levels[l]), Held(s.files, s.levels[m]), strict);
    }
  }

  lemma TablesSearched(s: State, k: InternalKey, strict: bool)
    requires Inv(s, strict) && LevelsSorted(s.levels)
    ensures IsNewest(HeldIn(s.files, s.levels, 0, |s.levels|), k.userKey, k.seqNum,
              Descend(s.files, s.levels, k, 1, ScanLevel0(s.files, s.levels[0], k, None)))
  {
    LevelsAreGood(s, strict);
    Level0IsSearched(s.files, s.levels[0], k, None, {});
    HeldInNext(s.files, s.levels, 0);
    HeldInSplit(s.files, s.levels, 0, 0, 0);
    assert HeldIn(s.files, s.levels, 0, 1) == {} + Held(s.files, s.levels[0]);
    DescendIsNewest(s.files, s.levels, k, 1, ScanLevel0(s.files, s.levels[0], k, None));
  }

  lemma RunSearched(run: seq<Record>, k: InternalKey)
    requires WeaklySorted(run)
    ensures IsNewest(Elements(run), k.userKey, k.seqNum, Find(run, k))
  {
    FindIsNewest(run, k);
  }

  /** Nothing above, so what is below decides. */
  lemma NothingAbove(up: set<Record>, down: set<Record>, user: bytes, bound: uint64, r: Option<Record>)
    requires IsNewest(up, user, bound, None) && IsNewest(down, user, bound, r)
    ensures IsNewest(up + down, user, bound, r)
  {
  }

  /** For every key and every bound, get returns the newest visible version of what readers see, once the deeper levels are sorted. */
  lemma GetIsNewest(s: State, k: InternalKey, strict: bool)
    requires Inv(s, strict) && LevelsSorted(s.levels)
    ensures Get(s, k) == Newest(Seen(s), k.userKey, k.seqNum)
  {
    ReaderFacts(s, strict);
    TablesSearched(s, k, strict);
    SeenIsCoherent(s, strict);
    MemtablesSorted(s, strict);
    var tables := HeldIn(s.files, s.levels, 0, |s.levels|);
    NewerParts(Elements(s.mt), Union(Sets(TaskRuns(s.tasks))), Elements(s.mt), Immutable(s), strict);
    NewerParts(Elements(s.mt), tables, Elements(s.mt), tables, strict);
    NewerParts(Union(Sets(TaskRuns(s.tasks))), tables, Immutable(s), tables, strict);
    hide Inv, LevelsSorted, HeldIn, Union, Sets, IsNewest, LevelsOrdered, Find, Descend, ScanLevel0, Elements, Coherent;
    GetOfThree(s, k, tables);
    NewestUnique(Seen(s), k.userKey, k.seqNum, Get(s, k));
  }

  lemma GetOfThree(s: State, k: InternalKey, tables: set<Record>)
    requires |s.levels| >= 1 && tables == HeldIn(s.files, s.levels, 0, |s.levels|)
    requires Newer(Elements(s.mt), Immutable(s), false) && Newer(Elements(s.mt), tables, false) && Newer(Immutable(s), tables, false)
    requires WeaklySorted(s.mt) && (s.immt.Some? ==> WeaklySorted(s.immt.value))
    requires IsNewest(tables, k.userKey, k.seqNum, Descend(s.files, s.levels, k, 1, ScanLevel0(s.files, s.levels[0], k, None)))
    ensures IsNewest(Seen(s), k.userKey, k.seqNum, Get(s, k))
  {
    hide HeldIn, IsNewest, Descend, ScanLevel0, Find, WeaklySorted, Elements;
    var mt, im := Elements(s.mt), Immutable(s);
    RunSearched(s.mt, k);
    assert Seen(s) == mt + (im + tables);
    if Find(s.mt, k).Some? {
      NewerUnion(mt, im, tables);
      FoundIsNewest(mt, im + tables, k.userKey, k.seqNum, Get(s, k));
    } else {
      if s.immt.Some? {
        RunSearched(s.immt.value, k);
      } else {
        NothingThere(k);
      }
      if s.immt.Some? && Find(s.immt.value, k).Some? {
        FoundIsNewest(im, tables, k.userKey, k.seqNum, Get(s, k));
      } else {
        NothingAbove(im, tables, k.userKey, k.seqNum, Get(s, k));
      }
      NothingAbove(mt, im + tables, k.userKey, k.seqNum, Get(s, k));
    }
  }

  lemma NothingThere(k: InternalKey)
    ensures IsNewest({}, k.userKey, k.seqNum, None)
  {
  }

  lemma NewerUnion(a: set<Record>, b: set<Record>, c: set<Record>)
    requires Newer(a, b, false) && Newer(a, c, false)
    ensures Newer(a, b + c, false)
  {
  }

  lemma SeenIsCoherent(s: State, strict: bool)
    requires Inv(s, strict)
    ensures Seen(s) <= All(s) && Coherent(Seen(s))
  {
    ReaderFacts(s, strict);
    SubsetCoherent(Seen(s), All(s));
  }

  lemma MemtablesSorted(s: State, strict: bool)
    requires Inv(s, strict)
    ensures WeaklySorted(s.mt) && (s.immt.Some? ==> WeaklySorted(s.immt.value))
  {
    if s.immt.Some? {
      assert s.tasks[|s.tasks| - 1] in s.tasks;
    }
  }
}
