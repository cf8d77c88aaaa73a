/** Range scans on the state: the tables they visit, and that they show all there is (internal/engine/read.go). */
module LsmScans {
  import opened Bytes
  import opened Records
  import opened Runs
  import opened Versions
  import opened Layers
  import opened TableSets
  import opened Lsm
  import opened LsmReads
  import opened LsmGuards
  import opened ScanIterators

  /** What is left of a sorted set when an iterator seeks to t. */
  ghost function After(all: set<Record>, t: InternalKey): set<Record> {
    set r | r in all && !Before(r.key, t)
  }

  lemma AfterUnion(a: set<Record>, b: set<Record>, t: InternalKey)
    ensures After(a + b, t) == After(a, t) + After(b, t) && After({}, t) == {}
  {
  }

  lemma TailIs(run: seq<Record>, t: InternalKey)
    requires WeaklySorted(run)
    ensures Elements(run[LowerBound(run, t)..]) == After(Elements(run), t)
  {
    LowerBoundSplits(run, t);
    var n := LowerBound(run, t);
    forall r ensures r in run[n..] <==> r in run && !Before(r.key, t) {
      if r in run && !Before(r.key, t) {
        var i :| 0 <= i < |run| && run[i] == r;
        assert i >= n && run[n..][i - n] == r;
      }
    }
  }

  lemma VisitNone(files: Files, tables: Level, start: bytes, end: bytes, target: InternalKey)
    ensures After(Held(files, Overlapping(tables[..0], start, end)), target) == {}
  {
  }

  /** One table further in a level: it adds what is left of its run, or nothing if it misses the range. */
  lemma VisitMore(files: Files, tables: Level, i: nat, start: bytes, end: bytes, target: InternalKey)
    requires i < |tables|
    ensures var before, after := Held(files, Overlapping(tables[..i], start, end)), Held(files, Overlapping(tables[..i + 1], start, end));
            After(after, target) ==
              if Meets(tables[i], start, end) then After(before, target) + After(Elements(Run(files, tables[i].fileNum)), target) else After(before, target)
  {
    assert tables[..i + 1][..i] == tables[..i] && tables[..i + 1][i] == tables[i];
    var chosen := Overlapping(tables[..i], start, end);
    if Meets(tables[i], start, end) {
      HeldParts(files, chosen + [tables[i]], chosen, [tables[i]]);
      assert Held(files, [tables[i]]) == Elements(Run(files, tables[i].fileNum));
    } else {
      assert chosen + [] == chosen;
    }
  }

  /** The tables of each level that a scan from start to end visits. */
  function Visited(levels: Levels, start: bytes, end: bytes): (v: Levels)
    ensures |v| == |levels|
    ensures forall l :: 0 <= l < |levels| ==> v[l] == Overlapping(levels[l], start, end)
  {
    seq(|levels|, l requires 0 <= l < |levels| => Overlapping(levels[l], start, end))
  }

  lemma AfterNone(files: Files, levels: Levels, inMemory: set<Record>, t: InternalKey)
    ensures After(inMemory, t) == After(inMemory + HeldIn(files, levels, 0, 0), t)
  {
    HeldInSplit(files, levels, 0, 0, 0);
  }

  lemma AfterLevel(files: Files, levels: Levels, inMemory: set<Record>, l: nat, t: InternalKey)
    requires l < |levels|
    ensures After(inMemory + HeldIn(files, levels, 0, l + 1), t) ==
        After(inMemory + HeldIn(files, levels, 0, l), t) + After(Held(files, levels[l]), t)
  {
    HeldInNext(files, levels, l);
  }

  /** The records a scan begins with. */
  ghost function ScanBase(s: State, start: bytes, end: bytes, bound: uint64): set<Record> {
    After(Elements(s.mt) + Immutable(s) + HeldIn(s.files, Visited(s.levels, start, end), 0, |s.levels|), LookupKey(start, bound))
  }

  /** Tables passed over hold no key of the range, and the seek passes over no visible version in it. */
  lemma BaseHasRange(s: State, start: bytes, end: bytes, bound: uint64, strict: bool)
    requires Inv(s, strict)
    ensures ScanBase(s, start, end, bound) <= Seen(s)
    ensures forall r :: r in Seen(s) && AtMost(start, r.key.userKey) && Less(r.key.userKey, end) && r.key.seqNum <= bound ==> r in ScanBase(s, start, end, bound)
    ensures forall r :: r in ScanBase(s, start, end, bound) ==> AtMost(start, r.key.userKey)
  {
    LevelsAreGood(s, strict);
    VisitedHeld(s.files, s.levels, start, end);
    hide Inv, HeldIn, LevelsGood, Visited;
    forall r | r in Seen(s) && AtMost(start, r.key.userKey) && Less(r.key.userKey, end) && r.key.seqNum <= bound
      ensures r in ScanBase(s, start, end, bound)
    {
      LessIsOrder();
    }
    forall r | r in ScanBase(s, start, end, bound) ensures AtMost(start, r.key.userKey) {
    }
  }

  lemma VisitedHeld(files: Files, levels: Levels, start: bytes, end: bytes)
    requires forall l :: 0 <= l < |levels| ==> Described(files, levels[l])
    ensures HeldIn(files, Visited(levels, start, end), 0, |levels|) <= HeldIn(files, levels, 0, |levels|)
    ensures forall r :: r in HeldIn(files, levels, 0, |levels|) && AtMost(start, r.key.userKey) && Less(r.key.userKey, end) ==>
        r in HeldIn(files, Visited(levels, start, end), 0, |levels|)
  {
    hide Visited, Described, Overlapping;
    var v := Visited(levels, start, end);
    forall r | r in HeldIn(files, v, 0, |levels|) ensures r in HeldIn(files, levels, 0, |levels|) {
      var l :| 0 <= l < |levels| && r in Held(files, v[l]);
      OverlappingMembers(levels[l], start, end);
      assert r in Held(files, levels[l]);
    }
    forall r | r in HeldIn(files, levels, 0, |levels|) && AtMost(start, r.key.userKey) && Less(r.key.userKey, end) ensures r in HeldIn(files, v, 0, |levels|) {
      var l :| 0 <= l < |levels| && r in Held(files, levels[l]);
      InRangeIsVisited(files, levels[l], start, end, r);
      assert r in Held(files, v[l]);
    }
  }

  lemma InRangeIsVisited(files: Files, tables: Level, start: bytes, end: bytes, r: Record)
    requires Described(files, tables) && r in Held(files, tables) && AtMost(start, r.key.userKey) && Less(r.key.userKey, end)
    ensures r in Held(files, Overlapping(tables, start, end))
  {
    OverlappingMembers(tables, start, end);
    var t :| t in tables && r in Run(files, t.fileNum);
    InKeyRange(t, Run(files, t.fileNum), r);
    LessIsOrder();
    assert Meets(t, start, end);
  }

  /** out lists, once each and in order, exactly the visible keys from start up to end. */
  ghost predicate IsRangeScan(out: seq<Record>, all: set<Record>, bound: uint64, start: bytes, end: bytes) {
    && KeysAscend(out)
    && (forall i :: 0 <= i < |out| ==> var u := out[i].key.userKey; AtMost(start, u) && Less(u, end) && Shown(all, u, bound) == Some(out[i]))
    && (forall u: bytes {:trigger Shown(all, u, bound)} :: AtMost(start, u) && Less(u, end) && Shown(all, u, bound).Some? ==> Shown(all, u, bound).value in out)
  }

  lemma SameShown(s: State, start: bytes, end: bytes, bound: uint64, strict: bool, u: bytes)
    requires Inv(s, strict) && AtMost(start, u) && Less(u, end)
    ensures Shown(ScanBase(s, start, end, bound), u, bound) == Shown(Seen(s), u, bound)
  {
    BaseHasRange(s, start, end, bound, strict);
    SeenIsCoherent(s, strict);
    hide Inv, ScanBase, Seen, Coherent;
    StillNewest(Seen(s), ScanBase(s, start, end, bound), u, bound);
  }

  /**
   * A drained scan is the complete answer for its range: each visible key once, in order, with its
   * newest version, whether or not the levels are sorted.
   */
  lemma ScanIsComplete(s: State, start: bytes, end: bytes, bound: uint64, strict: bool, out: seq<Record>)
    requires Inv(s, strict) && IsScan(out, ScanBase(s, start, end, bound), bound, end)
    ensures IsRangeScan(out, Seen(s), bound, start, end)
  {
    BaseHasRange(s, start, end, bound, strict);
    var base := ScanBase(s, start, end, bound);
    hide Inv, ScanBase, Seen;
    forall i | 0 <= i < |out|
      ensures var u := out[i].key.userKey; AtMost(start, u) && Less(u, end) && Shown(Seen(s), u, bound) == Some(out[i])
    {
      var u := out[i].key.userKey;
      assert Shown(base, u, bound) == Some(out[i]);
      assert out[i] in base;
      SameShown(s, start, end, bound, strict, u);
    }
    forall u: bytes | AtMost(start, u) && Less(u, end) && Shown(Seen(s), u, bound).Some? ensures Shown(Seen(s), u, bound).value in out {
      SameShown(s, start, end, bound, strict, u);
    }
  }

  lemma ListedIsShown(out: seq<Record>, all: set<Record>, bound: uint64, start: bytes, end: bytes, user: bytes)
    requires IsRangeScan(out, all, bound, start, end) && AtMost(start, user) && Less(user, end)
    ensures Shown(all, user, bound).Some? <==> exists r :: r in out && r.key.userKey == user
    ensures forall r :: r in out && r.key.userKey == user ==> Shown(all, user, bound) == Some(r)
  {
    forall r | r in out && r.key.userKey == user ensures Shown(all, user, bound) == Some(r) {
      var i :| 0 <= i < |out| && out[i] == r;
    }
    if Shown(all, user, bound).Some? {
      ShownIsIn(all, user, bound);
      assert Shown(all, user, bound).value in out;
    }
  }

  /** On sorted levels get and scan agree: a key is in the answer exactly when get finds it, with the same value. */
  lemma GetAgreesWithScan(s: State, start: bytes, end: bytes, bound: uint64, out: seq<Record>, user: bytes)
    requires Inv(s, true) && LevelsSorted(s.levels) && IsRangeScan(out, Seen(s), bound, start, end)
    requires AtMost(start, user) && Less(user, end)
    ensures var got := Visible(Get(s, LookupKey(user, bound)));
            && (got.Some? <==> exists r :: r in out && r.key.userKey == user)
            && (forall r :: r in out && r.key.userKey == user ==> got == Some(r.value))
  {
    hide IsRangeScan, Seen, Get, LevelsSorted;
    GetIsNewest(s, LookupKey(user, bound), true);
    hide Inv;
    ListedIsShown(out, Seen(s), bound, start, end, user);
  }
}
