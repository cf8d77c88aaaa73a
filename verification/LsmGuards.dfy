/**
 * Where the engine's own choices limit what reads return, and exactly when they do not:
 * unsorted levels (internal/meta/version_set.go), and rotation while a flush is pending
 * (internal/engine/flusher.go).
 */
module LsmGuards {
  import opened Bytes
  import opened Records
  import opened Runs
  import opened Versions
  import opened Collapses
  import opened Layers
  import opened TableSets
  import opened Lsm
  import opened LsmCompaction
  import opened LsmRuns
  import opened LsmReads

  /** The key that get looks up; its type is the zero value. */
  function LookupKey(user: bytes, bound: uint64): InternalKey {
    InternalKey(user, bound, TYPE_DEL)
  }

  // ---------- sorted levels ----------

  lemma {:induction false} ProbeSame(f: nat -> bool, g: nat -> bool, lo: nat, hi: nat)
    requires lo <= hi && forall i :: lo <= i < hi ==> f(i) == g(i)
    ensures Probe(f, lo, hi) == Probe(g, lo, hi)
    decreases hi - lo
  {
    if lo < hi {
      var h := (lo + hi) / 2;
      ProbeSame(f, g, lo, h);
      ProbeSame(f, g, h + 1, hi);
    }
  }

  /** A search does not look at the type of its key. */
  lemma ProbeIgnoresType(tables: Level, k: InternalKey)
    ensures Probed(tables, LookupKey(k.userKey, k.seqNum)) == Probed(tables, k)
  {
    ProbeSame(AtOrAfter(MaxKeys(tables), LookupKey(k.userKey, k.seqNum)), AtOrAfter(MaxKeys(tables), k), 0, |tables|);
  }

  lemma {:induction false} Level0Sources(files: Files, tables: Level, k: InternalKey, best: Option<Record>)
    ensures var r := ScanLevel0(files, tables, k, best); r == best || (r.Some? && r.value in Held(files, tables))
  {
    if tables != [] {
      var n := |tables| - 1;
      var t := tables[n];
      var run := Run(files, t.fileNum);
      FindIsIn(run, k);
      Level0Sources(files, tables[..n], k,
        if Less(k.userKey, t.minKey.userKey) || Less(t.maxKey.userKey, k.userKey) then best else Better(best, Find(run, k)));
      assert t in tables;
      HeldParts(files, tables, tables[..n], [t]);
      assert Find(run, k).Some? ==> Find(run, k).value in Held(files, tables);
    }
  }

  /** x is in the table of some deeper level that the search for k arrives at. */
  ghost predicate InProbed(files: Files, levels: Levels, l: nat, k: InternalKey, x: Record) {
    exists m :: l <= m < |levels| && Probed(levels[m], k) < |levels[m]| && x in Run(files, levels[m][Probed(levels[m], k)].fileNum)
  }

  lemma {:induction false} DescendSources(files: Files, levels: Levels, k: InternalKey, l: nat, best: Option<Record>)
    requires l <= |levels|
    ensures var r := Descend(files, levels, k, l, best); r == best || (r.Some? && InProbed(files, levels, l, k, r.value))
    decreases |levels| - l
  {
    hide Find, Probed;
    if l < |levels| {
      var tables := levels[l];
      if Probed(tables, k) == |tables| {
        DescendSources(files, levels, k, l + 1, best);
      } else {
        var found := Find(Run(files, tables[Probed(tables, k)].fileNum), k);
        FindIsIn(Run(files, tables[Probed(tables, k)].fileNum), k);
        assert found.Some? ==> InProbed(files, levels, l, k, found.value);
        if Better(best, found).None? {
          DescendSources(files, levels, k, l + 1, None);
        }
      }
    }
  }

  /** Whatever get returns is in a place it looked at. */
  lemma GetSources(s: State, k: InternalKey)
    requires |s.levels| >= 1 && Get(s, k).Some?
    ensures var x := Get(s, k).value;
            x in Elements(s.mt) + Immutable(s) + Held(s.files, s.levels[0]) || InProbed(s.files, s.levels, 1, k, x)
  {
    FindIsIn(s.mt, k);
    if s.immt.Some? {
      FindIsIn(s.immt.value, k);
    }
    Level0Sources(s.files, s.levels[0], k, None);
    DescendSources(s.files, s.levels, k, 1, ScanLevel0(s.files, s.levels[0], k, None));
  }

  lemma NotAbove(a: set<Record>, b: set<Record>, x: Record)
    requires Newer(a, b, true) && x in b
    ensures x !in a
  {
  }

  /** In a state without duplicates, the last record of a table that its own search misses is never looked at. */
  lemma MissedIsNotFound(s: State, l: nat, p: nat, k: InternalKey, x: Record)
    requires Inv(s, true) && 1 <= l < |s.levels| && p < |s.levels[l]| && Probed(s.levels[l], k) != p
    requires x in Run(s.files, s.levels[l][p].fileNum)
    ensures Get(s, k) != Some(x)
  {
    hide Inv, Probed;
    if Get(s, k).Some? {
      var tables := s.levels[l];
      assert tables[p] in tables;
      assert x in Held(s.files, tables);
      NotInMemory(s, l, x);
      GetSources(s, k);
      if InProbed(s.files, s.levels, 1, k, Get(s, k).value) {
        var y := Get(s, k).value;
        var m :| 1 <= m < |s.levels| && Probed(s.levels[m], k) < |s.levels[m]| && y in Run(s.files, s.levels[m][Probed(s.levels[m], k)].fileNum);
        InAnotherTable(s, l, p, x, m, Probed(s.levels[m], k), y);
      }
    }
  }

  lemma NotInMemory(s: State, l: nat, x: Record)
    requires Inv(s, true) && 1 <= l < |s.levels| && x in Held(s.files, s.levels[l])
    ensures x !in Elements(s.mt) + Immutable(s) + Held(s.files, s.levels[0])
  {
    ReaderFacts(s, true);
    var all := HeldIn(s.files, s.levels, 0, |s.levels|);
    assert x in all;
    NotAbove(Elements(s.mt), all, x);
    NotAbove(Union(Sets(TaskRuns(s.tasks))), all, x);
    NotAbove(Held(s.files, s.levels[0]), Held(s.files, s.levels[l]), x);
  }

  lemma LevelFacts(s: State, l: nat)
    requires Inv(s, true) && l < |s.levels|
    ensures Described(s.files, s.levels[l]) && (l > 0 ==> DisjointRanges(s.levels[l]))
  {
    LevelsDescribed(s.levels, s.files, s.used);
  }

  lemma InAnotherTable(s: State, l: nat, p: nat, x: Record, m: nat, q: nat, y: Record)
    requires Inv(s, true) && 1 <= l < |s.levels| && 1 <= m < |s.levels| && p < |s.levels[l]| && q < |s.levels[m]|
    requires x in Run(s.files, s.levels[l][p].fileNum) && y in Run(s.files, s.levels[m][q].fileNum) && (l == m ==> p != q)
    ensures x != y
  {
    if l == m {
      LevelFacts(s, l);
      SameLevelApart(s.files, s.levels[l], p, x, q, y);
    } else {
      ReaderFacts(s, true);
      hide Inv, Held, Newer;
      var lo, hi := if l < m then l else m, if l < m then m else l;
      assert Newer(Held(s.files, s.levels[lo]), Held(s.files, s.levels[hi]), true);
      InHeld(s.files, s.levels[l], p, x);
      InHeld(s.files, s.levels[m], q, y);
      NotAbove(Held(s.files, s.levels[lo]), Held(s.files, s.levels[hi]), if l < m then y else x);
    }
  }

  lemma InHeld(files: Files, tables: Level, p: nat, x: Record)
    requires p < |tables| && x in Run(files, tables[p].fileNum)
    ensures x in Held(files, tables)
  {
    assert tables[p] in tables;
  }

  lemma SameLevelApart(files: Files, tables: Level, p: nat, x: Record, q: nat, y: Record)
    requires Described(files, tables) && DisjointRanges(tables) && p < |tables| && q < |tables| && p != q
    requires x in Run(files, tables[p].fileNum) && y in Run(files, tables[q].fileNum)
    ensures x != y
  {
    var t, u := tables[p], tables[q];
    assert t in tables && u in tables;
    assert Below(t, u) || Below(u, t);
    BelowSharesNothing(t, Run(files, t.fileNum), u, Run(files, u.fileNum), x, y);
  }

  lemma DisjointHaveNoTies(files: Files, tables: Level)
    requires Described(files, tables) && DisjointRanges(tables)
    ensures NoTies(MaxKeys(tables))
  {
    RangesWhole(files, tables);
    LessIsOrder();
    forall i, j | 0 <= i < j < |tables| ensures Before(tables[i].maxKey, tables[j].maxKey) || Before(tables[j].maxKey, tables[i].maxKey) {
      assert tables[i] in tables && tables[j] in tables;
      assert Below(tables[i], tables[j]) || Below(tables[j], tables[i]);
    }
  }

  lemma ExactIsNewest(all: set<Record>, x: Record)
    requires Coherent(all) && x in all
    ensures Newest(all, x.key.userKey, x.key.seqNum) == Some(x)
  {
    NewestUnique(all, x.key.userKey, x.key.seqNum, Some(x));
  }

  /** Looking up a table's last key at its own number must return that record. */
  lemma LastIsNewest(s: State, l: nat, p: nat)
    requires Inv(s, true) && 1 <= l < |s.levels| && p < |s.levels[l]|
    ensures var t := s.levels[l][p]; var run := Run(s.files, t.fileNum);
            run != [] && Newest(Seen(s), t.maxKey.userKey, t.maxKey.seqNum) == Some(run[|run| - 1])
  {
    LevelFacts(s, l);
    SeenIsCoherent(s, true);
    var t := s.levels[l][p];
    assert t in s.levels[l];
    var run := Run(s.files, t.fileNum);
    assert Describes(t, run);
    hide Inv, Coherent, WeaklySorted;
    var x := run[|run| - 1];
    assert x in run && x in Held(s.files, s.levels[l]);
    assert x in HeldIn(s.files, s.levels, 0, |s.levels|);
    ExactIsNewest(Seen(s), x);
  }

  /** get finds the newest version for this key and bound. */
  ghost predicate Finds(s: State, user: bytes, bound: uint64)
    requires |s.levels| >= 1
  {
    Get(s, LookupKey(user, bound)) == Newest(Seen(s), user, bound)
  }

  lemma MissedKey(keys: seq<InternalKey>) returns (p: nat)
    requires !FindsEach(keys, 0, |keys|)
    ensures p < |keys| && Probe(AtOrAfter(keys, keys[p]), 0, |keys|) != p
  {
    p :| p < |keys| && Probe(AtOrAfter(keys, keys[p]), 0, |keys|) != p;
  }

  lemma UnsortedMisses(s: State, l: nat)
    requires Inv(s, true) && 1 <= l < |s.levels| && !KeysSorted(MaxKeys(s.levels[l]), 0, |s.levels[l]|)
    ensures exists user, bound :: !Finds(s, user, bound)
  {
    LevelFacts(s, l);
    hide Inv, KeysSorted, Described, DisjointRanges;
    var tables := s.levels[l];
    DisjointHaveNoTies(s.files, tables);
    SearchFindsAllIffSorted(MaxKeys(tables));
    var p: nat := MissedKey(MaxKeys(tables));
    var k := tables[p].maxKey;
    assert Probed(tables, k) != p;
    hide FindsEach, NoTies, Probed, AtOrAfter;
    ProbeIgnoresType(tables, k);
    LastIsNewest(s, l, p);
    var run := Run(s.files, tables[p].fileNum);
    MissedIsNotFound(s, l, p, LookupKey(k.userKey, k.seqNum), run[|run| - 1]);
    assert !Finds(s, k.userKey, k.seqNum);
  }

  /**
   * get returns the newest visible version for every key and every bound exactly when every level
   * below the first is sorted; scan, which visits all tables, does not depend on it.
   */
  lemma GetFindsAllIffSorted(s: State)
    requires Inv(s, true)
    ensures (forall user, bound :: Finds(s, user, bound)) <==> LevelsSorted(s.levels)
  {
    if LevelsSorted(s.levels) {
      forall user, bound ensures Finds(s, user, bound) {
        GetIsNewest(s, LookupKey(user, bound), true);
      }
    } else {
      var l :| 1 <= l < |s.levels| && !KeysSorted(MaxKeys(s.levels[l]), 0, |s.levels[l]|);
      UnsortedMisses(s, l);
    }
  }

  // ---------- which reads are right on unsorted levels ----------

  /** Every last key that halving passes on its way to table p stands on the same side of k as its table stands of p. */
  ghost predicate WayIsClear(tables: Level, p: nat, k: InternalKey)
    requires p < |tables|
  {
    forall h :: h in Halving(0, |tables|, p) ==> (Before(tables[h].maxKey, k) <==> h < p)
  }

  lemma ProbedIff(tables: Level, p: nat, k: InternalKey)
    requires p < |tables|
    ensures Probed(tables, k) == p <==> WayIsClear(tables, p, k)
  {
    var f := AtOrAfter(MaxKeys(tables), k);
    ProbeEndsIff(f, 0, |tables|, p);
    assert forall h :: 0 <= h < |tables| ==> f(h) == !Before(tables[h].maxKey, k);
    hide Halving, Before;
  }

  ghost predicate NoMatch(held: set<Record>, k: InternalKey) {
    forall r :: r in held ==> !Matches(r, k.userKey, k.seqNum)
  }

  /** Above the newest visible version there is no visible one. */
  lemma NoneAbove(a: set<Record>, b: set<Record>, all: set<Record>, k: InternalKey, x: Record)
    requires Newer(a, b, true) && x in b && a <= all && IsNewest(all, k.userKey, k.seqNum, Some(x))
    ensures NoMatch(a, k)
  {
  }

  lemma RunHasNone(run: seq<Record>, k: InternalKey)
    requires NoMatch(Elements(run), k)
    ensures Find(run, k) == None
  {
    FindIsIn(run, k);
  }

  lemma RunHasIt(run: seq<Record>, all: set<Record>, k: InternalKey, x: Record)
    requires WeaklySorted(run) && Elements(run) <= all && Coherent(all) && x in run && IsNewest(all, k.userKey, k.seqNum, Some(x))
    ensures Find(run, k) == Some(x)
  {
    FindIsNewest(run, k);
    hide WeaklySorted, Find;
    SubsetCoherent(Elements(run), all);
    NewestUnique(Elements(run), k.userKey, k.seqNum, Some(x));
    NewestUnique(Elements(run), k.userKey, k.seqNum, Find(run, k));
  }

  lemma {:induction false} DescendPast(files: Files, levels: Levels, k: InternalKey, m: nat, l: nat)
    requires m <= l <= |levels| && forall q :: m <= q < l ==> NoMatch(Held(files, levels[q]), k)
    ensures Descend(files, levels, k, m, None) == Descend(files, levels, k, l, None)
    decreases l - m
  {
    hide Probed, Find, Held;
    if m < l {
      DescendPast(files, levels, k, m + 1, l);
      var tables := levels[m];
      if Probed(tables, k) < |tables| {
        ProbedHasNone(files, tables, Probed(tables, k), k);
      }
    }
  }

  lemma ProbedHasNone(files: Files, tables: Level, p: nat, k: InternalKey)
    requires p < |tables| && NoMatch(Held(files, tables), k)
    ensures Find(Run(files, tables[p].fileNum), k) == None
  {
    forall r | r in Run(files, tables[p].fileNum) ensures r in Held(files, tables) {
      InHeld(files, tables, p, r);
    }
    RunHasNone(Run(files, tables[p].fileNum), k);
  }

  /** Nothing visible in memory or in level 0, nor in the levels above l. */
  lemma UpperHasNone(s: State, k: InternalKey, l: nat)
    requires Inv(s, true) && 1 <= l <= |s.levels| && NoMatch(Elements(s.mt) + Immutable(s), k)
    requires forall q :: 0 <= q < l ==> NoMatch(Held(s.files, s.levels[q]), k)
    ensures Get(s, k) == Descend(s.files, s.levels, k, l, None)
  {
    hide Inv, Find, Descend, Held;
    RunHasNone(s.mt, k);
    if s.immt.Some? {
      RunHasNone(s.immt.value, k);
    }
    Level0HasNone(s, k);
    DescendPast(s.files, s.levels, k, 1, l);
  }

  lemma Level0HasNone(s: State, k: InternalKey)
    requires Inv(s, true) && |s.levels| >= 1 && NoMatch(Held(s.files, s.levels[0]), k)
    ensures ScanLevel0(s.files, s.levels[0], k, None) == None
  {
    LevelFacts(s, 0);
    Level0IsSearched(s.files, s.levels[0], k, None, {});
    hide Inv, Held;
    assert {} + Held(s.files, s.levels[0]) == Held(s.files, s.levels[0]);
  }

  /** Where the newest visible version lies in a deeper level, no source above it holds a visible one. */
  lemma NoneAboveTable(s: State, k: InternalKey, l: nat, p: nat, x: Record)
    requires Inv(s, true) && 1 <= l < |s.levels| && p < |s.levels[l]| && x in Run(s.files, s.levels[l][p].fileNum)
    requires Newest(Seen(s), k.userKey, k.seqNum) == Some(x)
    ensures NoMatch(Elements(s.mt) + Immutable(s), k) && forall q :: 0 <= q < l ==> NoMatch(Held(s.files, s.levels[q]), k)
  {
    ReaderFacts(s, true);
    hide Inv, IsNewest, Held, NoMatch;
    var tables := HeldIn(s.files, s.levels, 0, |s.levels|);
    InHeld(s.files, s.levels[l], p, x);
    assert x in tables;
    MemoryHasNone(s, k, x);
    hide Newer;
    forall q | 0 <= q < l ensures NoMatch(Held(s.files, s.levels[q]), k) {
      assert Held(s.files, s.levels[q]) <= tables;
      NoneAbove(Held(s.files, s.levels[q]), Held(s.files, s.levels[l]), Seen(s), k, x);
    }
  }

  lemma TableHasIt(s: State, k: InternalKey, l: nat, p: nat, x: Record)
    requires Inv(s, true) && l < |s.levels| && p < |s.levels[l]| && x in Run(s.files, s.levels[l][p].fileNum)
    requires IsNewest(Seen(s), k.userKey, k.seqNum, Some(x))
    ensures Find(Run(s.files, s.levels[l][p].fileNum), k) == Some(x)
  {
    LevelFacts(s, l);
    SeenIsCoherent(s, true);
    var t := s.levels[l][p];
    assert t in s.levels[l];
    var run := Run(s.files, t.fileNum);
    DescribedIsSorted(t, run);
    hide Inv, IsNewest, Describes;
    forall r | r in run ensures r in Seen(s) {
      InHeld(s.files, s.levels[l], p, r);
      assert r in HeldIn(s.files, s.levels, 0, |s.levels|);
    }
    RunHasIt(run, Seen(s), k, x);
  }

  /**
   * Whatever the order of the levels: when the newest visible version lies in table p of a deeper
   * level, get finds it exactly when no key that halving passes on the way to p leads astray.
   */
  lemma GetFindsIff(s: State, k: InternalKey, l: nat, p: nat, x: Record)
    requires Inv(s, true) && 1 <= l < |s.levels| && p < |s.levels[l]| && x in Run(s.files, s.levels[l][p].fileNum)
    requires Newest(Seen(s), k.userKey, k.seqNum) == Some(x)
    ensures Get(s, k) == Some(x) <==> WayIsClear(s.levels[l], p, k)
  {
    ProbedIff(s.levels[l], p, k);
    hide Inv, Probed, WayIsClear, Find;
    if Probed(s.levels[l], k) == p {
      NoneAboveTable(s, k, l, p, x);
      UpperHasNone(s, k, l);
      TableHasIt(s, k, l, p, x);
    } else {
      MissedIsNotFound(s, l, p, k, x);
    }
  }

  /** In particular, of an unsorted level exactly those last keys are found that are on the right side of every key halving passes on the way. */
  lemma LastKeyFoundIff(s: State, l: nat, p: nat)
    requires Inv(s, true) && 1 <= l < |s.levels| && p < |s.levels[l]|
    ensures var k := s.levels[l][p].maxKey;
            Finds(s, k.userKey, k.seqNum) <==>
            forall h :: h in Halving(0, |s.levels[l]|, p) ==> RightSide(MaxKeys(s.levels[l]), h, p)
  {
    LevelFacts(s, l);
    LastIsNewest(s, l, p);
    DisjointHaveNoTies(s.files, s.levels[l]);
    KeyFoundIff(MaxKeys(s.levels[l]), p);
    var tables := s.levels[l];
    var k, run := tables[p].maxKey, Run(s.files, tables[p].fileNum);
    hide Inv, Halving, RightSide, NoTies, Describes, DisjointRanges;
    var lookup := LookupKey(k.userKey, k.seqNum);
    ProbeIgnoresType(tables, k);
    ProbedIff(tables, p, lookup);
    assert Probed(tables, k) == Probe(AtOrAfter(MaxKeys(tables), MaxKeys(tables)[p]), 0, |tables|);
    hide Probed, WayIsClear;
    GetFindsIff(s, lookup, l, p, run[|run| - 1]);
  }

  /** A version in memory or in level 0 is found whatever the order of the deeper levels. */
  lemma GetFindsUpper(s: State, k: InternalKey, x: Record)
    requires Inv(s, true) && |s.levels| >= 1 && Newest(Seen(s), k.userKey, k.seqNum) == Some(x)
    requires x in Elements(s.mt) + Immutable(s) + Held(s.files, s.levels[0])
    ensures Get(s, k) == Some(x)
  {
    ReaderFacts(s, true);
    SeenIsCoherent(s, true);
    MemtablesSorted(s, true);
    hide Inv, Find, Held, Newer, WeaklySorted, Coherent, IsNewest;
    if x in s.mt {
      RunHasIt(s.mt, Seen(s), k, x);
    } else if x in Immutable(s) {
      NewerParts(Elements(s.mt), Union(Sets(TaskRuns(s.tasks))), Elements(s.mt), Immutable(s), true);
      NoneAbove(Elements(s.mt), Immutable(s), Seen(s), k, x);
      RunHasNone(s.mt, k);
      RunHasIt(s.immt.value, Seen(s), k, x);
    } else {
      Level0HasIt(s, k, x);
    }
  }

  lemma Level0HasIt(s: State, k: InternalKey, x: Record)
    requires Inv(s, true) && |s.levels| >= 1 && Newest(Seen(s), k.userKey, k.seqNum) == Some(x) && x in Held(s.files, s.levels[0])
    ensures Get(s, k) == Some(x)
  {
    Level0Answers(s, k, x);
    MemoryHasNone(s, k, x);
    hide Inv, Held, Find, Descend, ScanLevel0, Newest;
    RunHasNone(s.mt, k);
    if s.immt.Some? {
      RunHasNone(s.immt.value, k);
    }
    DeeperIsOlder(s, k, x);
    BestStays(s.files, s.levels, k, 1, Some(x));
  }

  lemma DeeperIsOlder(s: State, k: InternalKey, x: Record)
    requires |s.levels| >= 1 && Newest(Seen(s), k.userKey, k.seqNum) == Some(x)
    ensures forall r :: r in HeldIn(s.files, s.levels, 1, |s.levels|) && Matches(r, k.userKey, k.seqNum) ==> r.key.seqNum <= x.key.seqNum
  {
    hide Held;
    forall r | r in HeldIn(s.files, s.levels, 1, |s.levels|) && Matches(r, k.userKey, k.seqNum) ensures r.key.seqNum <= x.key.seqNum {
      assert r in HeldIn(s.files, s.levels, 0, |s.levels|);
      assert r in Seen(s);
    }
  }

  lemma MemoryHasNone(s: State, k: InternalKey, x: Record)
    requires Inv(s, true) && x in HeldIn(s.files, s.levels, 0, |s.levels|) && Newest(Seen(s), k.userKey, k.seqNum) == Some(x)
    ensures NoMatch(Elements(s.mt) + Immutable(s), k)
  {
    ReaderFacts(s, true);
    hide Inv, Held, HeldIn;
    var tables := HeldIn(s.files, s.levels, 0, |s.levels|);
    NewerParts(Union(Sets(TaskRuns(s.tasks))), tables, Immutable(s), tables, true);
    NewerTwo(Elements(s.mt), Immutable(s), tables);
    NoneAbove(Elements(s.mt) + Immutable(s), tables, Seen(s), k, x);
  }

  lemma Level0Answers(s: State, k: InternalKey, x: Record)
    requires Inv(s, true) && |s.levels| >= 1 && Newest(Seen(s), k.userKey, k.seqNum) == Some(x) && x in Held(s.files, s.levels[0])
    ensures ScanLevel0(s.files, s.levels[0], k, None) == Some(x) && x in HeldIn(s.files, s.levels, 0, |s.levels|)
  {
    hide Inv, Held, HeldIn, ScanLevel0, Coherent, IsNewest, Described, Seen, LevelsSorted, Newest;
    LevelFacts(s, 0);
    SeenIsCoherent(s, true);
    var held := Held(s.files, s.levels[0]);
    NothingThere(k);
    Level0IsSearched(s.files, s.levels[0], k, None, {});
    assert {} + held == held;
    Level0IsSeen(s);
    NewestOfPart(Seen(s), held, k, x, ScanLevel0(s.files, s.levels[0], k, None));
  }

  lemma Level0IsSeen(s: State)
    requires |s.levels| >= 1
    ensures Held(s.files, s.levels[0]) <= HeldIn(s.files, s.levels, 0, |s.levels|) <= Seen(s)
  {
    hide Held;
  }

  lemma NewestOfPart(all: set<Record>, part: set<Record>, k: InternalKey, x: Record, r: Option<Record>)
    requires Coherent(all) && part <= all && x in part && Newest(all, k.userKey, k.seqNum) == Some(x) && IsNewest(part, k.userKey, k.seqNum, r)
    ensures r == Some(x)
  {
    SubsetCoherent(part, all);
    NewestUnique(part, k.userKey, k.seqNum, Some(x));
    NewestUnique(part, k.userKey, k.seqNum, r);
  }

  /** Where no version is visible, get finds none. */
  lemma GetFindsNothing(s: State, k: InternalKey)
    requires Inv(s, true) && Newest(Seen(s), k.userKey, k.seqNum) == None
    ensures |s.levels| >= 1 && Get(s, k) == None
  {
    ReaderFacts(s, true);
    hide Inv, Held;
    forall q | 0 <= q < |s.levels| ensures NoMatch(Held(s.files, s.levels[q]), k) {
      assert Held(s.files, s.levels[q]) <= HeldIn(s.files, s.levels, 0, |s.levels|);
    }
    UpperHasNone(s, k, |s.levels|);
  }

  /** Table p of level l holds what k should find. */
  ghost predicate LiesIn(s: State, k: InternalKey, l: nat, p: nat) {
    && 1 <= l < |s.levels| && p < |s.levels[l]|
    && var x := Newest(Seen(s), k.userKey, k.seqNum); x.Some? && x.value in Run(s.files, s.levels[l][p].fileNum)
  }

  /**
   * In every state, sorted or not, get is right about a key and a bound exactly when the way to the
   * table that holds the newest visible version, if a deeper level holds it, is clear.
   */
  lemma FindsIff(s: State, user: bytes, bound: uint64)
    requires Inv(s, true)
    ensures |s.levels| >= 1
    ensures var k := LookupKey(user, bound);
            Finds(s, user, bound) <==> forall l: nat, p: nat :: LiesIn(s, k, l, p) ==> WayIsClear(s.levels[l], p, k)
  {
    var k := LookupKey(user, bound);
    var v := Newest(Seen(s), user, bound);
    LevelsAtLeastOne(s);
    hide Inv, Get, WayIsClear;
    if v == None {
      GetFindsNothing(s, k);
    } else if l: nat, p: nat :| LiesIn(s, k, l, p) {
      GetFindsIff(s, k, l, p, v.value);
      forall m: nat, q: nat | LiesIn(s, k, m, q) ensures m == l && q == p {
        OneTable(s, l, p, m, q, v.value);
      }
    } else {
      NotDeep(s, k, v.value);
      GetFindsUpper(s, k, v.value);
    }
  }

  lemma LevelsAtLeastOne(s: State)
    requires Inv(s, true)
    ensures |s.levels| >= 1
  {
  }

  lemma OneTable(s: State, l: nat, p: nat, m: nat, q: nat, x: Record)
    requires Inv(s, true) && 1 <= l < |s.levels| && p < |s.levels[l]| && x in Run(s.files, s.levels[l][p].fileNum)
    requires 1 <= m < |s.levels| && q < |s.levels[m]| && x in Run(s.files, s.levels[m][q].fileNum)
    ensures m == l && q == p
  {
    if m != l || q != p {
      InAnotherTable(s, l, p, x, m, q, x);
    }
  }

  lemma NotDeep(s: State, k: InternalKey, x: Record)
    requires |s.levels| >= 1 && Newest(Seen(s), k.userKey, k.seqNum) == Some(x) && forall l: nat, p: nat :: !LiesIn(s, k, l, p)
    ensures x in Elements(s.mt) + Immutable(s) + Held(s.files, s.levels[0])
  {
    if x in HeldIn(s.files, s.levels, 0, |s.levels|) {
      var l :| 0 <= l < |s.levels| && x in Held(s.files, s.levels[l]);
      if l > 0 {
        var t :| t in s.levels[l] && x in Run(s.files, t.fileNum);
        var p :| 0 <= p < |s.levels[l]| && s.levels[l][p] == t;
        assert LiesIn(s, k, l, p);
      }
    }
  }

  /** Appending the outputs of a compaction leaves a sorted level sorted exactly when nothing that stays lies above them. */
  lemma AppendedIsSortedIff(kept: Level, outs: Level)
    requires KeysSorted(MaxKeys(kept), 0, |kept|) && KeysSorted(MaxKeys(outs), 0, |outs|)
    ensures KeysSorted(MaxKeys(kept + outs), 0, |kept + outs|) <==>
        kept == [] || outs == [] || Before(kept[|kept| - 1].maxKey, outs[0].maxKey)
  {
    BeforeIsOrder();
    var keys := MaxKeys(kept + outs);
    if kept != [] && outs != [] {
      assert keys[|kept| - 1] == kept[|kept| - 1].maxKey && keys[|kept|] == outs[0].maxKey;
      if Before(kept[|kept| - 1].maxKey, outs[0].maxKey) {
        forall i, j | 0 <= i < j < |keys| ensures Before(keys[i], keys[j]) {
          if i < |kept| <= j {
            assert i < |kept| - 1 ==> Before(MaxKeys(kept)[i], MaxKeys(kept)[|kept| - 1]);
            assert j > |kept| ==> Before(MaxKeys(outs)[0], MaxKeys(outs)[j - |kept|]);
          } else if j < |kept| {
            assert Before(MaxKeys(kept)[i], MaxKeys(kept)[j]);
          } else {
            assert Before(MaxKeys(outs)[i - |kept|], MaxKeys(outs)[j - |kept|]);
          }
        }
      }
    } else if kept == [] {
      assert kept + outs == outs;
    } else {
      assert kept + outs == kept;
    }
  }

  /** A level in order. */
  ghost predicate InKeyOrder(tables: Level) {
    KeysSorted(MaxKeys(tables), 0, |tables|)
  }

  lemma {:induction false} KeepInOrder(tables: Level, fs: set<uint64>)
    requires InKeyOrder(tables)
    ensures InKeyOrder(Keep(tables, fs))
  {
    if tables != [] {
      assert forall i :: 0 <= i < |tables| - 1 ==> MaxKeys(tables[1..])[i] == MaxKeys(tables)[i + 1];
      KeepInOrder(tables[1..], fs);
      KeepMembers(tables[1..], fs);
      var rest := Keep(tables[1..], fs);
      if tables[0].fileNum !in fs {
        forall i | 0 <= i < |rest| ensures Before(tables[0].maxKey, rest[i].maxKey) {
          assert rest[i] in rest;
          var k :| 0 <= k < |tables[1..]| && tables[1..][k] == rest[i];
          assert Before(MaxKeys(tables)[0], MaxKeys(tables)[k + 1]);
        }
        FrontInOrder(tables[0], rest);
      }
    }
  }

  lemma FrontInOrder(t: TableMeta, rest: Level)
    requires InKeyOrder(rest) && forall i :: 0 <= i < |rest| ==> Before(t.maxKey, rest[i].maxKey)
    ensures InKeyOrder([t] + rest)
  {
    var keys := MaxKeys([t] + rest);
    assert forall i :: 0 < i < |keys| ==> keys[i] == MaxKeys(rest)[i - 1];
  }

  /** What a compaction puts into the next level comes after everything that stays there. */
  ghost predicate AppendsInOrder(s: State, a: Action)
    requires a.Finish? && s.job.Some?
  {
    EndsBefore(Rest(s.job.value.pick.next, s.job.value.pick.Chosen()), a.outs)
  }

  predicate EndsBefore(kept: Level, outs: Level) {
    kept == [] || outs == [] || Before(kept[|kept| - 1].maxKey, outs[0].maxKey)
  }

  lemma OutputsInOrder(s: State, a: Action)
    requires Finishing(s, a, true)
    ensures InKeyOrder(a.outs)
  {
    hide Inv;
    CollapseAscends(a.m, Bottom(s, s.job.value.level), a.oldest);
    OutputsAscend(a.outs, a.runs, Collapse(a.m, Bottom(s, s.job.value.level), a.oldest), s.job.value.level + 1);
    RangesOfRuns(a.outs, a.runs);
    LessIsOrder();
    forall i, j | 0 <= i < j < |a.outs| ensures Before(a.outs[i].maxKey, a.outs[j].maxKey) {
      assert Below(a.outs[i], a.outs[j]);
    }
  }

  lemma RangesOfRuns(outs: Level, runs: seq<seq<Record>>)
    requires |outs| == |runs| && forall i :: 0 <= i < |outs| ==> Describes(outs[i], runs[i])
    ensures forall i :: 0 <= i < |outs| ==> WholeRange(outs[i])
  {
    forall i | 0 <= i < |outs| ensures WholeRange(outs[i]) {
      InKeyRange(outs[i], runs[i], runs[i][0]);
    }
  }

  /**
   * After a compaction the levels are sorted exactly when its outputs come after every table that
   * stays in their level: apply appends them and never sorts.
   */
  lemma FinishedIsSortedIff(s: State, a: Action)
    requires Finishing(s, a, true) && InRange(s.levels, FinishEdit(s, a)) && LevelsSorted(s.levels)
    ensures LevelsSorted(Finished(s, a).levels) <==> AppendsInOrder(s, a)
  {
    hide Inv, LevelsSorted, InKeyOrder, EndsBefore, Keep, CanFinish;
    FinishLevels(s, a);
    OutputsInOrder(s, a);
    var j := s.job.value;
    ReplacedInOrder(s.levels, j.level, Nums(j.pick.inputs), Nums(j.pick.Chosen()), a.outs);
  }

  lemma ReplacedInOrder(levels: Levels, l: nat, gone: set<uint64>, merged: set<uint64>, outs: Level)
    requires l + 1 < |levels| && LevelsSorted(levels) && InKeyOrder(outs)
    ensures var kept := Keep(levels[l + 1], merged);
            LevelsSorted(levels[l := Keep(levels[l], gone)][l + 1 := kept + outs]) <==> EndsBefore(kept, outs)
  {
    var kept := Keep(levels[l + 1], merged);
    var levels' := levels[l := Keep(levels[l], gone)][l + 1 := kept + outs];
    LevelsInOrder(levels);
    LevelsInOrder(levels');
    hide InKeyOrder, LevelsSorted, EndsBefore, Keep;
    assert levels'[l + 1] == kept + outs && levels'[l] == Keep(levels[l], gone);
    assert forall k :: 0 <= k < |levels| && k != l && k != l + 1 ==> levels'[k] == levels[k];
    assert InKeyOrder(levels[l + 1]);
    KeepInOrder(levels[l + 1], merged);
    if l > 0 {
      KeepInOrder(levels[l], gone);
    }
    AppendedInOrder(kept, outs);
  }

  lemma LevelsInOrder(levels: Levels)
    ensures LevelsSorted(levels) <==> forall l :: 1 <= l < |levels| ==> InKeyOrder(levels[l])
  {
  }

  lemma AppendedInOrder(kept: Level, outs: Level)
    requires InKeyOrder(kept) && InKeyOrder(outs)
    ensures InKeyOrder(kept + outs) <==> EndsBefore(kept, outs)
  {
    AppendedIsSortedIff(kept, outs);
  }

  // ---------- pending flushes ----------

  lemma {:induction false} NoTaskNothing(tasks: seq<Task>)
    ensures |tasks| == 0 ==> Union(Sets(TaskRuns(tasks))) == {}
    ensures |tasks| == 1 ==> Union(Sets(TaskRuns(tasks))) == Elements(tasks[0].run)
  {
    if |tasks| == 1 {
      assert Sets(TaskRuns(tasks)) == [Elements(tasks[0].run)];
      UnionOne(Elements(tasks[0].run));
    }
  }

  /** The first record of the oldest task is nowhere else. */
  lemma TaskIsHidden(s: State)
    requires Inv(s, true) && s.tasks != [] && (|s.tasks| == 1 ==> s.immt.None?)
    ensures exists x :: x in All(s) && x !in Seen(s)
  {
    ReaderFacts(s, true);
    var st := Sets(TaskRuns(s.tasks));
    assert s.tasks[0] in s.tasks;
    var x := s.tasks[0].run[0];
    assert x in st[0] && x in Union(st);
    NotAbove(Elements(s.mt), Union(st), x);
    var n := |s.tasks| - 1;
    if s.immt.Some? {
      assert Newer(st[n], st[0], true);
      NotAbove(st[n], st[0], x);
    }
    assert x !in Immutable(s);
    NotInTables(s, x);
  }

  lemma NotInTables(s: State, x: Record)
    requires Inv(s, true) && x in Union(Sets(TaskRuns(s.tasks)))
    ensures x !in HeldIn(s.files, s.levels, 0, |s.levels|)
  {
    ReaderFacts(s, true);
  }

  /** Readers see everything exactly when at most one flush is pending, and its memtable is still the immutable one. */
  lemma SeenIsAllIff(s: State)
    requires Inv(s, true)
    ensures Seen(s) == All(s) <==> s.tasks == [] || (|s.tasks| == 1 && s.immt.Some?)
  {
    ReaderFacts(s, true);
    NoTaskNothing(s.tasks);
    if s.tasks == [] || (|s.tasks| == 1 && s.immt.Some?) {
      assert Immutable(s) == Union(Sets(TaskRuns(s.tasks)));
    } else {
      TaskIsHidden(s);
    }
  }

  /** A rotation hides no record from readers exactly when no flush is pending. */
  lemma RotateHidesNothingIff(s: State)
    requires Inv(s, true) && CanRotate(s)
    ensures Seen(Rotated(s)) == All(Rotated(s)) <==> s.tasks == []
  {
    RotateKeepsInv(s, true);
    SeenIsAllIff(Rotated(s));
  }

  /** After a flush readers see everything exactly when it was the only one. */
  lemma FlushShowsAllIff(s: State, size: uint64)
    requires Inv(s, true) && CanFlush(s)
    ensures Seen(Flushed(s, size)) == All(Flushed(s, size)) <==> |s.tasks| == 1
  {
    FlushKeepsInv(s, size, true);
    SeenIsAllIff(Flushed(s, size));
  }

  // ---------- runs in which reads are right ----------

  /** Memtables are rotated only when no flush is pending. */
  ghost predicate IsCalm(states: seq<State>, actions: seq<Action>)
    requires |states| == |actions| + 1
  {
    forall i :: 0 <= i < |actions| && actions[i].Rotate? ==> states[i].tasks == []
  }

  ghost predicate OnePending(s: State) {
    s.tasks == [] || (|s.tasks| == 1 && s.immt.Some?)
  }

  lemma {:induction false} CalmRunHidesNothing(states: seq<State>, actions: seq<Action>)
    requires IsRun(states, actions) && IsCalm(states, actions)
    ensures OnePending(states[|actions|])
    decreases |actions|
  {
    var n := |actions|;
    if n > 0 {
      var before := actions[..n - 1];
      assert IsRun(states[..n], before);
      CalmRunHidesNothing(states[..n], before);
      hide Step, OnePending;
      assert Step(states[n - 1], actions[n - 1], states[n]);
      StepHidesNothing(states[n - 1], actions[n - 1], states[n]);
    }
  }

  lemma StepHidesNothing(s: State, a: Action, s': State)
    requires Step(s, a, s') && OnePending(s) && (a.Rotate? ==> s.tasks == [])
    ensures OnePending(s')
  {
    hide CanFinish, Applied, FinishEdit, CanStart, Insert;
  }

  /** Every compaction of the run appends its outputs in order. */
  ghost predicate IsTidy(states: seq<State>, actions: seq<Action>)
    requires |states| == |actions| + 1
  {
    forall i :: 0 <= i < |actions| && actions[i].Finish? && states[i].job.Some? ==> AppendsInOrder(states[i], actions[i])
  }

  /** In every run the levels stay sorted as long as every compaction appends in order. */
  lemma {:induction false} TidyRunStaysSorted(states: seq<State>, actions: seq<Action>)
    requires IsRun(states, actions) && IsTidy(states, actions)
    ensures LevelsSorted(states[|actions|].levels)
    decreases |actions|
  {
    var n := |actions|;
    if n > 0 {
      var before := actions[..n - 1];
      assert IsRun(states[..n], before);
      TidyRunStaysSorted(states[..n], before);
      EveryRun(states[..n], before);
      hide IsRun, LevelsSorted, Inv, Step, AppendsInOrder, Stands;
      StepStaysSorted(states[n - 1], actions[n - 1], states[n]);
    }
  }

  lemma StepStaysSorted(s: State, a: Action, s': State)
    requires Inv(s, true) && Step(s, a, s') && LevelsSorted(s.levels)
    requires a.Finish? && s.job.Some? ==> AppendsInOrder(s, a)
    ensures LevelsSorted(s'.levels)
  {
    if a.Finish? {
      FinishedIsSortedIff(s, a);
    } else if a.Flush? {
      FlushLevels(s, a.size);
    }
  }

  /** What get returns depends on the steps alone: in a calm and tidy run it is what was written last. */
  lemma TidyReadsAreRight(states: seq<State>, actions: seq<Action>, user: bytes)
    requires IsRun(states, actions) && IsCalm(states, actions) && IsTidy(states, actions)
    ensures var s := states[|actions|];
            |s.levels| >= 1 && Visible(Get(s, LookupKey(user, MAX_UINT64))) == Lookup(Fold(actions), user)
  {
    TidyRunStaysSorted(states, actions);
    CalmReadsAreRight(states, actions, user);
  }

  /** In a calm run, while the levels are sorted, get returns what was written last. */
  lemma CalmReadsAreRight(states: seq<State>, actions: seq<Action>, user: bytes)
    requires IsRun(states, actions) && IsCalm(states, actions)
    ensures var s := states[|actions|];
            |s.levels| >= 1 && (LevelsSorted(s.levels) ==>
              Visible(Get(s, LookupKey(user, MAX_UINT64))) == Lookup(Fold(actions), user))
  {
    var s := states[|actions|];
    EveryRun(states, actions);
    CalmRunHidesNothing(states, actions);
    SeenIsAllIff(s);
    if LevelsSorted(s.levels) {
      GetIsNewest(s, LookupKey(user, MAX_UINT64), true);
      assert Latest(s, user) == Lookup(Fold(actions), user);
    }
  }
}
