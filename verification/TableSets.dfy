/** What the tables of a level hold, and what a compaction does to a level's tables. */
module TableSets {
  import opened Bytes
  import opened Records
  import opened Runs
  import opened Versions
  import opened Collapses
  import opened Layers

  /** The records of each table file. */
  type Files = map<uint64, seq<Record>>

  function Run(files: Files, n: uint64): seq<Record> {
    if n in files then files[n] else []
  }

  function Contents(files: Files, tables: Level): (runs: seq<seq<Record>>)
    ensures |runs| == |tables|
    ensures forall i :: 0 <= i < |tables| ==> runs[i] == Run(files, tables[i].fileNum)
  {
    seq(|tables|, i requires 0 <= i < |tables| => Run(files, tables[i].fileNum))
  }

  /** Every record of the tables. */
  ghost function Held(files: Files, tables: Level): set<Record> {
    set t, r | t in tables && r in Run(files, t.fileNum) :: r
  }

  lemma HeldParts(files: Files, tables: Level, a: Level, b: Level)
    requires forall t :: t in tables <==> t in a || t in b
    ensures Held(files, tables) == Held(files, a) + Held(files, b)
  {
  }

  /** The files that a level needs are the same. */
  ghost predicate SameRuns(files: Files, files': Files, tables: Level) {
    forall t :: t in tables ==> Run(files, t.fileNum) == Run(files', t.fileNum)
  }

  lemma SameHeld(files: Files, files': Files, tables: Level)
    requires SameRuns(files, files', tables)
    ensures Held(files, tables) == Held(files', tables) && Contents(files, tables) == Contents(files', tables)
  {
    assert forall i :: 0 <= i < |tables| ==> tables[i] in tables;
  }

  /** The metadata names the true first and last keys of a non-empty sorted run. */
  ghost predicate Describes(t: TableMeta, run: seq<Record>) {
    run != [] && WeaklySorted(run) && t.minKey == run[0].key && t.maxKey == run[|run| - 1].key
  }

  ghost predicate Described(files: Files, tables: Level) {
    forall t :: t in tables ==> Describes(t, Run(files, t.fileNum))
  }

  lemma InKeyRange(t: TableMeta, run: seq<Record>, r: Record)
    requires Describes(t, run) && r in run
    ensures AtMost(t.minKey.userKey, r.key.userKey) && AtMost(r.key.userKey, t.maxKey.userKey) && WholeRange(t)
    ensures !Before(t.maxKey, r.key)
  {
    LessIsOrder();
    var i :| 0 <= i < |run| && run[i] == r;
    assert i > 0 ==> !Before(run[i].key, run[0].key);
    assert i < |run| - 1 ==> !Before(run[|run| - 1].key, run[i].key);
    assert |run| > 1 ==> !Before(run[|run| - 1].key, run[0].key);
  }

  lemma AsideOfTable(t: TableMeta, u: TableMeta, run: seq<Record>, r: Record)
    requires Describes(u, run) && r in run
    ensures Below(t, u) ==> Less(t.maxKey.userKey, r.key.userKey)
    ensures Below(u, t) ==> Less(r.key.userKey, t.minKey.userKey)
  {
    InKeyRange(u, run, r);
    LessIsOrder();
  }

  /** Tables whose ranges do not meet share no key. */
  lemma BelowSharesNothing(t: TableMeta, a: seq<Record>, u: TableMeta, b: seq<Record>, x: Record, y: Record)
    requires Describes(t, a) && Describes(u, b) && (Below(t, u) || Below(u, t)) && x in a && y in b
    ensures x.key.userKey != y.key.userKey
  {
    InKeyRange(t, a, x);
    InKeyRange(u, b, y);
    LessIsOrder();
  }

  lemma DisjointTables(tables: Level, t: TableMeta, u: TableMeta)
    requires DisjointRanges(tables) && t in tables && u in tables && t != u
    ensures Below(t, u) || Below(u, t)
  {
    var i :| 0 <= i < |tables| && tables[i] == t;
    var j :| 0 <= j < |tables| && tables[j] == u;
  }

  /** Splitting a level with disjoint ranges tears no key apart. */
  lemma SplitIsClean(files: Files, tables: Level, a: Level, b: Level)
    requires Described(files, tables) && DisjointRanges(tables)
    requires forall t :: t in a ==> t in tables && t !in b
    requires forall t :: t in b ==> t in tables
    ensures NoSharedKey(Held(files, a), Held(files, b))
  {
    forall x, y | x in Held(files, a) && y in Held(files, b) ensures x.key.userKey != y.key.userKey {
      var t :| t in a && x in Run(files, t.fileNum);
      var u :| u in b && y in Run(files, u.fileNum);
      DisjointTables(tables, t, u);
      BelowSharesNothing(t, Run(files, t.fileNum), u, Run(files, u.fileNum), x, y);
    }
  }

  lemma RangesWhole(files: Files, tables: Level)
    requires Described(files, tables)
    ensures forall t :: t in tables ==> WholeRange(t)
  {
    forall t | t in tables ensures WholeRange(t) {
      InKeyRange(t, Run(files, t.fileNum), Run(files, t.fileNum)[0]);
    }
  }

  // ---------- choosing what to merge ----------

  /** inputs span user keys lo to hi; the tables of next that meet that span are merged with them. */
  datatype Pick = Pick(inputs: Level, next: Level, lo: bytes, hi: bytes) {
    ghost predicate Spans() {
      if inputs == [] then lo == hi == [] else IsRange(inputs, lo, hi)
    }

    function Chosen(): Level {
      Overlapping(next, lo, hi)
    }

    ghost predicate Good(files: Files) {
      Spans() && Described(files, inputs) && Described(files, next) && DisjointRanges(next)
    }

    ghost function Inputs(files: Files): set<Record> {
      Held(files, inputs) + Held(files, Chosen())
    }

    /** t is left where it is. */
    predicate Left(t: TableMeta) {
      t in next && !Meets(t, lo, hi)
    }

    /** A table that is left lies wholly to one side of every record merged. */
    lemma LeftIsAside(files: Files, t: TableMeta)
      requires Good(files) && Left(t)
      ensures (forall r :: r in Inputs(files) ==> Less(t.maxKey.userKey, r.key.userKey))
           || (forall r :: r in Inputs(files) ==> Less(r.key.userKey, t.minKey.userKey))
    {
      RangesWhole(files, inputs);
      RangesWhole(files, next);
      OverlappingMembers(next, lo, hi);
      RetainedMissHull(inputs, next, lo, hi, t);
      hide Below, IsRange, DisjointRanges, Describes;
      var all := inputs + Chosen();
      var above := forall u :: u in all ==> Below(t, u);
      forall r | r in Inputs(files)
        ensures if above then Less(t.maxKey.userKey, r.key.userKey) else Less(r.key.userKey, t.minKey.userKey)
      {
        var u :| u in all && r in Run(files, u.fileNum);
        AsideOfTable(t, u, Run(files, u.fileNum), r);
      }
    }

    /** The overlap test is enough: what it leaves behind shares no key with anything merged. */
    lemma LeftSharesNothing(files: Files, kept: Level)
      requires Good(files) && forall t :: t in kept ==> Left(t)
      ensures NoSharedKey(Inputs(files), Held(files, kept))
    {
      forall x, y | x in Inputs(files) && y in Held(files, kept) ensures x.key.userKey != y.key.userKey {
        var t :| t in kept && y in Run(files, t.fileNum);
        LeftIsAside(files, t);
        InKeyRange(t, Run(files, t.fileNum), y);
        LessIsOrder();
      }
    }

    /** The level that compaction writes to keeps its ranges disjoint, wherever the output was cut. */
    lemma OutputIsDisjoint(files: Files, kept: Level, outs: Level, runs: seq<seq<Record>>, collapsed: seq<Record>, level: nat)
      requires Good(files) && DisjointRanges(kept) && forall t :: t in kept ==> Left(t)
      requires AreOutputs(outs, runs, collapsed, level) && KeysAscend(collapsed)
      requires forall r :: r in collapsed ==> r in Inputs(files)
      ensures DisjointRanges(kept + outs)
    {
      OutputsAscend(outs, runs, collapsed, level);
      forall t, j | t in kept && 0 <= j < |outs| ensures Below(t, outs[j]) || Below(outs[j], t) {
        LeftIsAside(files, t);
        FlattenMembers(runs, runs[j][0]);
        FlattenMembers(runs, runs[j][|runs[j]| - 1]);
      }
      DisjointConcat(kept, outs);
    }
  }

  // ---------- the tables a compaction writes ----------

  /** outs and runs are the tables written for the collapsed records. */
  ghost predicate AreOutputs(outs: Level, runs: seq<seq<Record>>, collapsed: seq<Record>, level: nat) {
    && |outs| == |runs| && Flatten(runs) == collapsed
    && UniqueFiles(outs)
    && (forall i :: 0 <= i < |outs| ==>
          outs[i].level == level && runs[i] != [] && outs[i].minKey == runs[i][0].key && outs[i].maxKey == runs[i][|runs[i]| - 1].key)
  }

  lemma {:induction false} FlattenMembers(runs: seq<seq<Record>>, r: Record)
    ensures r in Flatten(runs) <==> exists i :: 0 <= i < |runs| && r in runs[i]
  {
    if runs != [] {
      FlattenMembers(runs[1..], r);
      if i: nat :| i < |runs[1..]| && r in runs[1..][i] {
        assert r in runs[i + 1];
      }
      if i: nat :| i < |runs| && r in runs[i] {
        assert i > 0 ==> r in runs[1..][i - 1];
      }
    }
  }

  /** Cutting an ascending run anywhere gives runs that ascend and follow one another. */
  lemma {:induction false} CutsAscend(runs: seq<seq<Record>>)
    requires KeysAscend(Flatten(runs))
    ensures forall i :: 0 <= i < |runs| ==> KeysAscend(runs[i])
    ensures forall i, j, x, y :: 0 <= i < j < |runs| && x in runs[i] && y in runs[j] ==> Less(x.key.userKey, y.key.userKey)
  {
    if runs != [] {
      var all := Flatten(runs);
      assert all == runs[0] + Flatten(runs[1..]);
      assert forall k :: 0 <= k < |runs[0]| ==> all[k] == runs[0][k];
      assert forall k :: 0 <= k < |Flatten(runs[1..])| ==> all[|runs[0]| + k] == Flatten(runs[1..])[k];
      CutsAscend(runs[1..]);
      forall i, j, x, y | 0 <= i < j < |runs| && x in runs[i] && y in runs[j] ensures Less(x.key.userKey, y.key.userKey) {
        if i == 0 {
          assert runs[1..][j - 1] == runs[j];
          FlattenMembers(runs[1..], y);
          var k :| 0 <= k < |Flatten(runs[1..])| && Flatten(runs[1..])[k] == y;
        } else {
          assert runs[1..][i - 1] == runs[i] && runs[1..][j - 1] == runs[j];
        }
      }
      forall i | 0 <= i < |runs| ensures KeysAscend(runs[i]) {
        if i > 0 { assert runs[1..][i - 1] == runs[i]; }
      }
    }
  }

  lemma AscendingIsSorted(run: seq<Record>)
    requires KeysAscend(run)
    ensures Sorted(run) && WeaklySorted(run)
  {
    SortedIsWeak(run);
  }

  /** The output tables are sorted, truthfully described, and go up one after the other. */
  lemma OutputsAscend(outs: Level, runs: seq<seq<Record>>, collapsed: seq<Record>, level: nat)
    requires AreOutputs(outs, runs, collapsed, level) && KeysAscend(collapsed)
    ensures forall i :: 0 <= i < |outs| ==> Describes(outs[i], runs[i])
    ensures forall i, j :: 0 <= i < j < |outs| ==> Below(outs[i], outs[j])
  {
    CutsAscend(runs);
    forall i | 0 <= i < |outs| ensures Describes(outs[i], runs[i]) {
      AscendingIsSorted(runs[i]);
    }
  }

  lemma DisjointConcat(a: Level, b: Level)
    requires DisjointRanges(a) && DisjointRanges(b)
    requires forall t, j :: t in a && 0 <= j < |b| ==> Below(t, b[j]) || Below(b[j], t)
    ensures DisjointRanges(a + b)
  {
    forall i, j | 0 <= i < j < |a + b| ensures Below((a + b)[i], (a + b)[j]) || Below((a + b)[j], (a + b)[i]) {
      if i < |a| <= j {
        assert a[i] in a && (a + b)[j] == b[j - |a|];
      }
    }
  }
}
