/** Finishing a compaction: what it does to levels, files and the stack of layers (internal/engine/compactor.go). */
module LsmCompaction {
  import opened Bytes
  import opened Records
  import opened Runs
  import opened Versions
  import opened Collapses
  import opened Layers
  import opened TableSets
  import opened Snapshots
  import opened Lsm

  // ---------- files ----------

  lemma {:induction false} InstalledRuns(files: Files, outs: Level, runs: seq<seq<Record>>)
    requires |outs| == |runs| && UniqueFiles(outs)
    ensures forall i :: 0 <= i < |outs| ==> Run(Installed(files, outs, runs), outs[i].fileNum) == runs[i]
    ensures forall n :: n !in Nums(outs) ==> Run(Installed(files, outs, runs), n) == Run(files, n)
  {
    if outs != [] {
      var k := |outs| - 1;
      InstalledRuns(files, outs[..k], runs[..k]);
      var less := Installed(files, outs[..k], runs[..k]);
      forall i | 0 <= i < |outs| ensures Run(less[outs[k].fileNum := runs[k]], outs[i].fileNum) == runs[i] {
        assert i < k ==> outs[..k][i] == outs[i];
      }
      forall n | n !in Nums(outs) ensures Run(less[outs[k].fileNum := runs[k]], n) == Run(files, n) {
        assert outs[k] in outs;
      }
    }
  }

  /** What the output tables hold is the collapsed records. */
  lemma HeldOutputs(files: Files, outs: Level, runs: seq<seq<Record>>)
    requires |outs| == |runs| && forall i :: 0 <= i < |outs| ==> Run(files, outs[i].fileNum) == runs[i]
    ensures Held(files, outs) == Elements(Flatten(runs))
  {
    forall r ensures r in Held(files, outs) <==> r in Flatten(runs) {
      FlattenMembers(runs, r);
      if r in Held(files, outs) {
        var t :| t in outs && r in Run(files, t.fileNum);
        var i :| 0 <= i < |outs| && outs[i] == t;
        assert r in runs[i];
      }
      if i: nat :| i < |runs| && r in runs[i] {
        assert outs[i] in outs;
      }
    }
  }

  lemma HeldIsUnion(files: Files, tables: Level)
    ensures Union(Sets(Contents(files, tables))) == Held(files, tables)
    ensures Elements(Flatten(Contents(files, tables))) == Held(files, tables)
  {
    var runs := Contents(files, tables);
    forall r ensures r in Held(files, tables) <==> r in Union(Sets(runs)) {
      if r in Held(files, tables) {
        var t :| t in tables && r in Run(files, t.fileNum);
        var i :| 0 <= i < |tables| && tables[i] == t;
        assert r in Sets(runs)[i];
      }
    }
    assert forall i :: 0 <= i < |tables| ==> tables[i] in tables;
    HeldOutputs(files, tables, runs);
  }

  // ---------- levels ----------

  lemma {:induction false} DeletionsAt(tables: Level, level: nat, l: nat)
    requires forall t :: t in tables ==> t.level == level
    ensures DeletedAt(Deletions(tables), l) == if l == level then Nums(tables) else {}
  {
    forall n | l == level && n in Nums(tables) ensures n in DeletedAt(Deletions(tables), l) {
      var t :| t in tables && t.fileNum == n;
      assert DeletedTable(t.level, t.fileNum) in Deletions(tables);
    }
  }

  lemma {:induction false} DeletionsConcat(a: Level, b: Level)
    ensures Deletions(a + b) == Deletions(a) + Deletions(b)
  {
    if a == [] {
      assert a + b == b;
    } else {
      DeletionsConcat(a[1..], b);
      assert (a + b)[0] == a[0] && (a + b)[1..] == a[1..] + b;
    }
  }

  lemma DeletedTwo(a: Level, b: Level, level: nat, l: nat)
    requires forall t :: t in a ==> t.level == level
    requires forall t :: t in b ==> t.level == level + 1
    ensures DeletedAt(Deletions(a + b), l) == if l == level then Nums(a) else if l == level + 1 then Nums(b) else {}
  {
    DeletionsConcat(a, b);
    DeletionsAt(a, level, l);
    DeletionsAt(b, level + 1, l);
    assert DeletedAt(Deletions(a) + Deletions(b), l) == DeletedAt(Deletions(a), l) + DeletedAt(Deletions(b), l);
  }

  /** The tables of a level that are not among the given ones. */
  ghost function Rest(tables: Level, gone: Level): Level {
    Keep(tables, Nums(gone))
  }

  lemma RestMembers(tables: Level, gone: Level)
    requires UniqueFiles(tables) && forall t :: t in gone ==> t in tables
    ensures forall t :: t in Rest(tables, gone) <==> t in tables && t !in gone
  {
    KeepMembers(tables, Nums(gone));
    forall t | t in tables && t.fileNum in Nums(gone) ensures t in gone {
      var u :| u in gone && u.fileNum == t.fileNum;
      var i :| 0 <= i < |tables| && tables[i] == t;
      var k :| 0 <= k < |tables| && tables[k] == u;
    }
  }

  lemma {:induction false} KeepIsSubsequence(tables: Level, fs: set<uint64>)
    requires DisjointRanges(tables)
    ensures DisjointRanges(Keep(tables, fs))
  {
    if tables != [] {
      KeepIsSubsequence(tables[1..], fs);
      KeepMembers(tables[1..], fs);
      var rest := Keep(tables[1..], fs);
      forall t | t in rest ensures Below(tables[0], t) || Below(t, tables[0]) {
        var i :| 0 <= i < |tables[1..]| && tables[1..][i] == t;
        assert tables[i + 1] == t;
      }
      assert forall i :: 0 <= i < |rest| ==> rest[i] in rest;
    }
  }

  lemma {:induction false} KeepUnique(tables: Level, fs: set<uint64>)
    requires UniqueFiles(tables)
    ensures UniqueFiles(Keep(tables, fs))
  {
    if tables != [] {
      KeepUnique(tables[1..], fs);
      KeepMembers(tables[1..], fs);
      var rest := Keep(tables[1..], fs);
      forall t | t in rest ensures tables[0].fileNum != t.fileNum {
        var i :| 0 <= i < |tables[1..]| && tables[1..][i] == t;
        assert tables[i + 1] == t;
      }
      assert forall i :: 0 <= i < |rest| ==> rest[i] in rest;
    }
  }

  lemma NumsApart(tables: Level, k: nat)
    requires UniqueFiles(tables) && k <= |tables|
    ensures forall t :: t in tables[k..] ==> t.fileNum !in Nums(tables[..k])
  {
    forall t, x | t in tables[k..] && x in tables[..k] ensures t.fileNum != x.fileNum {
      var i :| k <= i < |tables| && tables[i] == t;
      var j :| 0 <= j < k && tables[j] == x;
    }
  }

  /** Taking the front of a level leaves the back. */
  lemma RestOfPrefix(tables: Level, k: nat)
    requires UniqueFiles(tables) && k <= |tables|
    ensures Rest(tables, tables[..k]) == tables[k..]
  {
    hide Keep, UniqueFiles;
    var fs := Nums(tables[..k]);
    assert tables == tables[..k] + tables[k..];
    KeepConcat(tables[..k], tables[k..], fs);
    KeepNone(tables[..k], fs);
    NumsApart(tables, k);
    hide Nums;
    KeepAll(tables[k..], fs);
  }

  /** The edit of a finished compaction touches its two levels only. */
  lemma LevelsAfter(levels: Levels, level: nat, inputs: Level, chosen: Level, edit: VersionEdit, l: nat)
    requires UniqueLevels(levels) && InRange(levels, edit) && l < |levels|
    requires forall t :: t in inputs ==> t.level == level
    requires forall t :: t in chosen ==> t.level == level + 1
    requires forall t :: t in edit.addTables ==> t.level == level + 1
    requires edit.deleteTables == Deletions(inputs + chosen)
    ensures Applied(levels, edit)[l] ==
        if l == level then Rest(levels[l], inputs) else if l == level + 1 then Rest(levels[l], chosen) + edit.addTables else levels[l]
  {
    AppliedAt(levels, edit, l);
    DeletedTwo(inputs, chosen, level, l);
    if l == level + 1 {
      AddedAll(edit.addTables, l);
    } else {
      AddedNone(edit.addTables, l);
      assert Rest(levels[l], inputs) + [] == Rest(levels[l], inputs);
      if l != level {
        KeepAll(levels[l], {});
      }
    }
  }

  // ---------- the merge that a finished compaction is ----------

  /** Everything the finishing step may rely on. */
  ghost predicate Finishing(s: State, a: Action, strict: bool) {
    a.Finish? && Inv(s, strict) && CanFinish(s, a)
  }

  ghost predicate HasJob(s: State) {
    |s.levels| >= 1 && s.job.Some? && JobStands(s.job, s.levels)
  }

  ghost predicate TablesOf(tables: Level, all: Level, level: nat) {
    forall t :: t in tables ==> t in all && t.level == level
  }

  /** The tables of the job are tables of their levels, and described like all others. */
  ghost predicate JobInLevels(s: State) {
    HasJob(s) &&
    var j := s.job.value;
      && TablesOf(j.pick.inputs, s.levels[j.level], j.level) && TablesOf(j.pick.Chosen(), j.pick.next, j.level + 1)
      && j.pick.Good(s.files) && Described(s.files, s.levels[j.level]) && (j.level > 0 ==> DisjointRanges(s.levels[j.level]))
  }

  lemma JobTables(s: State, a: Action, strict: bool)
    requires Finishing(s, a, strict)
    ensures JobInLevels(s) && UniqueLevels(s.levels) && InRange(s.levels, FinishEdit(s, a))
  {
    hide Versioned, StackOf, NumbersFresh, RunsSorted, Describes, DisjointRanges, Collapse, Held;
    var j := s.job.value;
    JobTablesIn(s.levels, s.files, s.used, j);
    OutsInRange(s, a);
  }

  lemma JobTablesIn(levels: Levels, files: Files, used: set<uint64>, j: Job)
    requires Catalogued(levels, files, used) && JobStands(Some(j), levels)
    ensures TablesOf(j.pick.inputs, levels[j.level], j.level) && TablesOf(j.pick.Chosen(), j.pick.next, j.level + 1)
    ensures Described(files, j.pick.inputs) && Described(files, j.pick.next) && Described(files, levels[j.level])
    ensures DisjointRanges(j.pick.next) && (j.level > 0 ==> DisjointRanges(levels[j.level]))
  {
    hide Describes, DisjointRanges;
    OverlappingMembers(j.pick.next, j.pick.lo, j.pick.hi);
    LevelsDescribed(levels, files, used);
    assert Described(files, levels[j.level]) && Described(files, levels[j.level + 1]);
  }

  lemma LevelsDescribed(levels: Levels, files: Files, used: set<uint64>)
    requires Catalogued(levels, files, used)
    ensures forall l :: 0 <= l < |levels| ==> Described(files, levels[l])
  {
  }

  lemma OutsInRange(s: State, a: Action)
    requires a.Finish? && HasJob(s) && CanFinish(s, a)
    requires var j := s.job.value; TablesOf(j.pick.inputs, s.levels[j.level], j.level) && TablesOf(j.pick.Chosen(), j.pick.next, j.level + 1)
    ensures InRange(s.levels, FinishEdit(s, a))
  {
    forall t | t in a.outs ensures t.level < |s.levels| {
      var i :| 0 <= i < |a.outs| && a.outs[i] == t;
    }
  }

  ghost function MergeOf(s: State, a: Action): Merge
    requires a.Finish? && |s.levels| >= 1 && JobStands(s.job, s.levels) && s.job.Some?
  {
    var j := s.job.value;
    var p, l := j.pick, j.level;
    var left := Held(s.files, Rest(s.levels[l], p.inputs));
    Merge(
      if l == 0 then Sets(Contents(s.files, s.levels[0][|p.inputs|..]) + TaskRuns(s.tasks) + [s.mt])
      else Deep(s.files, s.levels, 1, l) + Sets(Recents(s)),
      if l == 0 then Sets(Contents(s.files, p.inputs)) else [Held(s.files, s.levels[l])],
      if l == 0 then [] else [left],
      Deep(s.files, s.levels, l + 2, |s.levels|),
      Held(s.files, p.inputs), if l == 0 then {} else left,
      Held(s.files, p.Chosen()), Held(s.files, Rest(p.next, p.Chosen())),
      Elements(Flatten(a.runs)))
  }

  lemma DeepSplits(files: Files, levels: Levels, lo: nat, l: nat, hi: nat)
    requires lo <= l < hi <= |levels|
    ensures Deep(files, levels, lo, hi) == Deep(files, levels, l + 1, hi) + [Held(files, levels[l])] + Deep(files, levels, lo, l)
  {
  }

  lemma StackAtJob(s: State)
    requires HasJob(s)
    ensures var l, n := s.job.value.level, |s.levels|;
            StackOf(s) == Deep(s.files, s.levels, l + 2, n) + [Held(s.files, s.job.value.pick.next)] + Deep(s.files, s.levels, 1, l + 1) + Sets(Recents(s))
  {
    DeepSplits(s.files, s.levels, 1, s.job.value.level + 1, |s.levels|);
  }

  lemma StackAtTop(s: State)
    requires HasJob(s) && s.job.value.level == 0
    ensures var inputs := s.job.value.pick.inputs;
            Deep(s.files, s.levels, 1, 1) + Sets(Recents(s)) ==
            Sets(Contents(s.files, inputs)) + Sets(Contents(s.files, s.levels[0][|inputs|..]) + TaskRuns(s.tasks) + [s.mt])
  {
    var inputs := s.job.value.pick.inputs;
    assert s.levels[0] == inputs + s.levels[0][|inputs|..];
    RecentsSplit(s, inputs, s.levels[0][|inputs|..]);
    NoDeep(s);
  }

  lemma BeforeIsStack(s: State, a: Action)
    requires a.Finish? && HasJob(s)
    requires var p := s.job.value.pick; Held(s.files, p.Chosen()) + Held(s.files, Rest(p.next, p.Chosen())) == Held(s.files, p.next)
    ensures MergeOf(s, a).Before() == StackOf(s)
  {
    StackAtJob(s);
    var l, m := s.job.value.level, MergeOf(s, a);
    var low := m.down + [m.merged + m.beside];
    if l == 0 {
      StackAtTop(s);
      hide Held, Contents, Recents, Deep, Sets;
      Nest(low, [], Deep(s.files, s.levels, 1, 1), Sets(Recents(s)));
      Nest(low, [], m.mids, m.up);
    } else {
      DeepSplits(s.files, s.levels, 1, l, l + 1);
      NoDeepAt(s, l + 1);
      hide Held, Contents, Recents, Deep, Sets;
      Nest(low, m.mids, Deep(s.files, s.levels, 1, l), Sets(Recents(s)));
    }
  }

  lemma NoDeep(s: State)
    requires |s.levels| >= 1
    ensures Deep(s.files, s.levels, 1, 1) == []
  {
  }

  lemma NoDeepAt(s: State, l: nat)
    requires l <= |s.levels|
    ensures Deep(s.files, s.levels, l, l) == []
  {
  }

  lemma Nest(a: Stack, b: Stack, c: Stack, d: Stack)
    ensures a + (b + c) + d == a + b + (c + d)
    ensures a + b + d == a + (b + d)
    ensures [] + b == b && a + [] == a
  {
  }

  lemma NextIsSplit(s: State, a: Action, strict: bool)
    requires Finishing(s, a, strict)
    ensures var p := s.job.value.pick;
            Held(s.files, p.Chosen()) + Held(s.files, Rest(p.next, p.Chosen())) == Held(s.files, p.next)
    ensures var j := s.job.value;
            Held(s.files, j.pick.inputs) + Held(s.files, Rest(s.levels[j.level], j.pick.inputs)) == Held(s.files, s.levels[j.level])
  {
    var j := s.job.value;
    JobTables(s, a, strict);
    RestMembers(j.pick.next, j.pick.Chosen());
    RestMembers(s.levels[j.level], j.pick.inputs);
    HeldParts(s.files, j.pick.next, j.pick.Chosen(), Rest(j.pick.next, j.pick.Chosen()));
    HeldParts(s.files, s.levels[j.level], j.pick.inputs, Rest(s.levels[j.level], j.pick.inputs));
  }

  lemma RecentsSplit(s: State, a: Level, b: Level)
    requires |s.levels| >= 1 && s.levels[0] == a + b
    ensures Sets(Recents(s)) == Sets(Contents(s.files, a)) + Sets(Contents(s.files, b) + TaskRuns(s.tasks) + [s.mt])
  {
    assert Contents(s.files, a + b) == Contents(s.files, a) + Contents(s.files, b);
  }

  /** No key is split between what the merge takes and what it leaves. */
  lemma MergeIsClean(s: State, a: Action, strict: bool)
    requires Finishing(s, a, strict)
    ensures MergeOf(s, a).Clean()
    ensures Merged(MergeOf(s, a).Inputs(), MergeOf(s, a).out, Bottom(s, s.job.value.level), a.oldest)
  {
    UpperIsClean(s, a, strict);
    InputsMerged(s, a, strict);
    LeftBehind(s, a, strict);
    hide Inv, CanFinish, Held, Merged, NoSharedKey, Deep, Recents, Union;
  }

  lemma UpperIsClean(s: State, a: Action, strict: bool)
    requires Finishing(s, a, strict)
    ensures var m := MergeOf(s, a);
            Union(m.mids) == m.taken + m.kept && Union(m.middle) == m.kept && NoSharedKey(m.taken, m.kept)
  {
    JobTables(s, a, strict);
    NextIsSplit(s, a, strict);
    var j := s.job.value;
    UpperParts(s, a, j.level, s.levels[j.level], j.pick.inputs);
  }

  lemma UpperParts(s: State, a: Action, l: nat, tables: Level, inputs: Level)
    requires a.Finish? && HasJob(s) && l == s.job.value.level && inputs == s.job.value.pick.inputs && tables == s.levels[l]
    requires UniqueFiles(tables) && Described(s.files, tables) && (l > 0 ==> DisjointRanges(tables))
    requires forall t :: t in inputs ==> t in tables
    requires Held(s.files, inputs) + Held(s.files, Rest(tables, inputs)) == Held(s.files, tables)
    ensures var m := MergeOf(s, a);
            Union(m.mids) == m.taken + m.kept && Union(m.middle) == m.kept && NoSharedKey(m.taken, m.kept)
  {
    UnionOne({});
    if l == 0 {
      HeldIsUnion(s.files, inputs);
    } else {
      UnionOne(Held(s.files, tables));
      UnionOne(Held(s.files, Rest(tables, inputs)));
      RestMembers(tables, inputs);
      SplitIsClean(s.files, tables, inputs, Rest(tables, inputs));
    }
  }

  lemma LeftBehind(s: State, a: Action, strict: bool)
    requires Finishing(s, a, strict)
    ensures var p := s.job.value.pick;
            && (forall t :: t in Rest(p.next, p.Chosen()) ==> p.Left(t))
            && NoSharedKey(p.Inputs(s.files), Held(s.files, Rest(p.next, p.Chosen())))
  {
    var p := s.job.value.pick;
    JobTables(s, a, strict);
    RestMembers(p.next, p.Chosen());
    OverlappingMembers(p.next, p.lo, p.hi);
    p.LeftSharesNothing(s.files, Rest(p.next, p.Chosen()));
  }

  lemma InputsMerged(s: State, a: Action, strict: bool)
    requires Finishing(s, a, strict)
    ensures var m := MergeOf(s, a);
            Elements(a.m) == m.Inputs() && m.out <= m.Inputs() && Merged(m.Inputs(), m.out, Bottom(s, s.job.value.level), a.oldest)
    ensures KeysAscend(Flatten(a.runs))
  {
    hide Catalogued, NumbersFresh, RunsSorted, Versioned, Held, Merged, Deep, Recents, KeysAscend, Coherent, Collapse, WeaklySorted;
    var p, m := s.job.value.pick, MergeOf(s, a);
    var all := p.inputs + p.Chosen();
    HeldIsUnion(s.files, all);
    HeldParts(s.files, all, p.inputs, p.Chosen());
    forall r ensures r in a.m <==> r in m.Inputs() {
      assert r in a.m <==> r in multiset(a.m);
      assert r in Flatten(Contents(s.files, all)) <==> r in multiset(Flatten(Contents(s.files, all)));
    }
    InputsAreAll(s, a, strict);
    CollapseIsMerged(a.m, m.Inputs(), Bottom(s, s.job.value.level), a.oldest);
  }

  /** The merged versions are among those of the whole state, so they are named by key and number. */
  lemma InputsAreAll(s: State, a: Action, strict: bool)
    requires Finishing(s, a, strict)
    ensures Coherent(MergeOf(s, a).Inputs())
  {
    var m := MergeOf(s, a);
    NextIsSplit(s, a, strict);
    BeforeIsStack(s, a);
    StackParts(m.up, m.mids, m.merged + m.beside, m.down);
    JobTables(s, a, strict);
    NextIsSplit(s, a, strict);
    HeldIsUnion(s.files, s.job.value.pick.inputs);
    UnionOne(Held(s.files, s.levels[s.job.value.level]));
    assert m.Inputs() <= All(s);
    SubsetCoherent(m.Inputs(), All(s));
  }

  lemma CollapseIsMerged(m: seq<Record>, inputs: set<Record>, bottom: bool, oldest: uint64)
    requires WeaklySorted(m) && Elements(m) == inputs && Coherent(inputs)
    ensures Merged(inputs, Elements(Collapse(m, bottom, oldest)), bottom, oldest)
    ensures KeysAscend(Collapse(m, bottom, oldest)) && Elements(Collapse(m, bottom, oldest)) <= inputs
  {
    CollapseKeepsNewest(m, bottom, oldest);
    CollapseAscends(m, bottom, oldest);
    assert forall r :: r in m <==> r in inputs;
    forall r ensures NewestOf(m, r) <==> NewestIn(inputs, r) {
    }
  }

  // ---------- the state afterwards ----------

  ghost predicate OutputRuns(files: Files, outs: Level, runs: seq<seq<Record>>) {
    |outs| == |runs| && forall i :: 0 <= i < |outs| ==> Run(files, outs[i].fileNum) == runs[i]
  }

  ghost predicate OthersSame(files: Files, files': Files, levels: Levels, level: nat) {
    forall l :: 0 <= l < |levels| && l != level && l != level + 1 ==> SameRuns(files, files', levels[l])
  }

  /** Two neighbouring levels change, the lower one gaining the outputs; the files of all tables that remain are as before. */
  ghost predicate Replaced(files: Files, levels: Levels, files': Files, levels': Levels, level: nat, upper: Level, lower: Level, outs: Level, runs: seq<seq<Record>>) {
    && level + 1 < |levels| && levels' == levels[level := upper][level + 1 := lower + outs]
    && SameRuns(files, files', upper) && SameRuns(files, files', lower)
    && OutputRuns(files', outs, runs) && OthersSame(files, files', levels, level)
  }

  lemma OutsLevel(outs: Level, runs: seq<seq<Record>>, collapsed: seq<Record>, level: nat)
    requires AreOutputs(outs, runs, collapsed, level)
    ensures forall t :: t in outs ==> t.level == level
  {
    forall t | t in outs ensures t.level == level {
      var i :| 0 <= i < |outs| && outs[i] == t;
    }
  }

  lemma EditedLevels(levels: Levels, level: nat, inputs: Level, chosen: Level, edit: VersionEdit)
    requires UniqueLevels(levels) && InRange(levels, edit) && level + 1 < |levels|
    requires forall t :: t in inputs ==> t.level == level
    requires forall t :: t in chosen ==> t.level == level + 1
    requires forall t :: t in edit.addTables ==> t.level == level + 1
    requires edit.deleteTables == Deletions(inputs + chosen)
    ensures Applied(levels, edit) == levels[level := Rest(levels[level], inputs)][level + 1 := Rest(levels[level + 1], chosen) + edit.addTables]
  {
    forall l | 0 <= l < |levels|
      ensures Applied(levels, edit)[l] ==
        levels[level := Rest(levels[level], inputs)][level + 1 := Rest(levels[level + 1], chosen) + edit.addTables][l]
    {
      LevelsAfter(levels, level, inputs, chosen, edit, l);
    }
  }

  /** Removing the merged files and adding the outputs leaves every other table's file as it was. */
  lemma FilesAfter(levels: Levels, files: Files, used: set<uint64>, level: nat, inputs: Level, chosen: Level, outs: Level, runs: seq<seq<Record>>)
    requires Catalogued(levels, files, used) && level + 1 < |levels| && |outs| == |runs| && UniqueFiles(outs)
    requires forall t :: t in inputs ==> t in levels[level]
    requires forall t :: t in chosen ==> t in levels[level + 1]
    requires forall t :: t in outs ==> t.fileNum !in used
    ensures var files' := Installed(files - Nums(inputs + chosen), outs, runs);
            && OutputRuns(files', outs, runs)
            && SameRuns(files, files', Rest(levels[level], inputs)) && SameRuns(files, files', Rest(levels[level + 1], chosen))
            && OthersSame(files, files', levels, level)
  {
    hide Describes, DisjointRanges;
    var gone := Nums(inputs + chosen);
    InstalledRuns(files - gone, outs, runs);
    RestMembers(levels[level], inputs);
    RestMembers(levels[level + 1], chosen);
    var files' := Installed(files - gone, outs, runs);
    forall l, t | 0 <= l < |levels| && t in levels[l] && (l == level ==> t !in inputs) && (l == level + 1 ==> t !in chosen)
      ensures Run(files', t.fileNum) == Run(files, t.fileNum)
    {
      NotGone(levels, files, used, level, inputs, chosen, l, t);
    }
  }

  lemma NotGone(levels: Levels, files: Files, used: set<uint64>, level: nat, inputs: Level, chosen: Level, l: nat, t: TableMeta)
    requires Catalogued(levels, files, used) && level + 1 < |levels| && l < |levels|
    requires forall u :: u in inputs ==> u in levels[level]
    requires forall u :: u in chosen ==> u in levels[level + 1]
    requires t in levels[l] && (l == level ==> t !in inputs) && (l == level + 1 ==> t !in chosen)
    ensures t.fileNum !in Nums(inputs + chosen)
  {
    hide Describes, DisjointRanges;
    forall u | u in inputs + chosen ensures u.fileNum != t.fileNum {
      var k := if u in inputs then level else level + 1;
      assert u in levels[k];
      if k == l {
        var i :| 0 <= i < |levels[l]| && levels[l][i] == t;
        var i' :| 0 <= i' < |levels[l]| && levels[l][i'] == u;
      }
    }
  }

  lemma OutsNumbered(s: State, a: Action)
    requires a.Finish? && CanFinish(s, a)
    ensures s.job.Some? && |a.outs| == |a.runs| && UniqueFiles(a.outs) && forall t :: t in a.outs ==> t.fileNum !in s.used
  {
  }

  ghost function Upper(s: State): Level
    requires HasJob(s)
  {
    Rest(s.levels[s.job.value.level], s.job.value.pick.inputs)
  }

  ghost function Lower(s: State): Level
    requires HasJob(s)
  {
    Rest(s.job.value.pick.next, s.job.value.pick.Chosen())
  }

  ghost predicate FinishReplaced(s: State, a: Action, s': State)
    requires a.Finish? && HasJob(s)
  {
    && Replaced(s.files, s.levels, s'.files, s'.levels, s.job.value.level, Upper(s), Lower(s), a.outs, a.runs)
    && s'.tasks == s.tasks && s'.mt == s.mt
  }

  lemma FinishReplaces(s: State, a: Action, strict: bool)
    requires Finishing(s, a, strict) && InRange(s.levels, FinishEdit(s, a))
    ensures FinishReplaced(s, a, Finished(s, a))
  {
    var j := s.job.value;
    OutsLevel(a.outs, a.runs, Collapse(a.m, Bottom(s, j.level), a.oldest), j.level + 1);
    OutsNumbered(s, a);
    JobTables(s, a, strict);
    ReplaceParts(s, a);
  }

  /** The levels that a compaction leaves. */
  lemma FinishLevels(s: State, a: Action)
    requires Finishing(s, a, true) && InRange(s.levels, FinishEdit(s, a))
    ensures HasJob(s) && s.job.value.level + 1 < |s.levels| && s.job.value.pick.next == s.levels[s.job.value.level + 1]
    ensures var l := s.job.value.level; Finished(s, a).levels == s.levels[l := Upper(s)][l + 1 := Lower(s) + a.outs]
  {
    FinishReplaces(s, a, true);
    hide Catalogued, Versioned, NumbersFresh, RunsSorted, StackOf, CanFinish, SameRuns, OutputRuns, OthersSame, Rest, Overlapping;
  }

  lemma ReplaceParts(s: State, a: Action)
    requires a.Finish? && a.next > 0 && JobInLevels(s) && UniqueLevels(s.levels) && InRange(s.levels, FinishEdit(s, a)) && Catalogued(s.levels, s.files, s.used)
    requires |a.outs| == |a.runs| && UniqueFiles(a.outs)
    requires forall t :: t in a.outs ==> t.fileNum !in s.used && t.level == s.job.value.level + 1
    ensures FinishReplaced(s, a, Finished(s, a))
  {
    hide Catalogued, Pick.Good, Described, DisjointRanges, UniqueLevels, UniqueFiles, InRange, SameRuns, OthersSame, OutputRuns,
         Rest, Installed, Applied, Deletions;
    var j := s.job.value;
    EditedLevels(s.levels, j.level, j.pick.inputs, j.pick.Chosen(), FinishEdit(s, a));
    FilesAfter(s.levels, s.files, s.used, j.level, j.pick.inputs, j.pick.Chosen(), a.outs, a.runs);
  }

  lemma HeldWithOutputs(files: Files, files': Files, kept: Level, outs: Level, runs: seq<seq<Record>>)
    requires SameRuns(files, files', kept) && OutputRuns(files', outs, runs)
    ensures Held(files', kept + outs) == Held(files, kept) + Elements(Flatten(runs))
  {
    HeldParts(files', kept + outs, kept, outs);
    SameHeld(files, files', kept);
    HeldOutputs(files', outs, runs);
  }

  /** The stack above and below the two levels, given what became of them. */
  lemma ReplacedStack(files: Files, levels: Levels, files': Files, levels': Levels, level: nat, upper: Level, lower: Level, outs: Level, runs: seq<seq<Record>>)
    requires Replaced(files, levels, files', levels', level, upper, lower, outs, runs)
    ensures |levels'| == |levels| && Deep(files', levels', level + 2, |levels|) == Deep(files, levels, level + 2, |levels|)
    ensures Held(files', levels'[level + 1]) == Held(files, lower) + Elements(Flatten(runs))
    ensures level == 0 ==> Contents(files', levels'[0]) == Contents(files, upper)
    ensures level > 0 ==> Contents(files', levels'[0]) == Contents(files, levels[0])
    ensures level > 0 ==> Deep(files', levels', 1, level + 1) == [Held(files, upper)] + Deep(files, levels, 1, level)
  {
    HeldWithOutputs(files, files', lower, outs, runs);
    SameHeld(files, files', upper);
    SameDeep(files, files', levels, levels', level + 2, |levels|);
    if level > 0 {
      SameHeld(files, files', levels[0]);
      SameDeep(files, files', levels, levels', 1, level);
      hide Held, SameRuns, OthersSame, Contents;
      DeepSplits(files', levels', 1, level, level + 1);
    }
  }

  lemma AfterIsStack(s: State, a: Action, s': State)
    requires a.Finish? && HasJob(s) && FinishReplaced(s, a, s') && UniqueFiles(s.levels[0])
    ensures |s'.levels| == |s.levels| && MergeOf(s, a).After() == StackOf(s')
  {
    hide Rest, Held, Deep, Sets, Contents, SameRuns, OthersSame, OutputRuns;
    var l, m := s.job.value.level, MergeOf(s, a);
    ReplacedStack(s.files, s.levels, s'.files, s'.levels, l, Upper(s), Lower(s), a.outs, a.runs);
    hide Replaced;
    DeepSplits(s'.files, s'.levels, 1, l + 1, |s.levels|);
    var low := m.down + [m.beside + m.out];
    assert StackOf(s') == low + Deep(s'.files, s'.levels, 1, l + 1) + Sets(Recents(s'));
    if l == 0 {
      TopRecents(s, s');
      NoDeep(s');
      hide Recents;
      Nest(low, [], [], m.up);
    } else {
      Nest(low, m.middle, Deep(s.files, s.levels, 1, l), Sets(Recents(s)));
    }
  }

  lemma TopRecents(s: State, s': State)
    requires HasJob(s) && s.job.value.level == 0 && UniqueFiles(s.levels[0]) && |s'.levels| == |s.levels|
    requires Contents(s'.files, s'.levels[0]) == Contents(s.files, Upper(s)) && s'.tasks == s.tasks && s'.mt == s.mt
    ensures Recents(s') == Contents(s.files, s.levels[0][|s.job.value.pick.inputs|..]) + TaskRuns(s.tasks) + [s.mt]
  {
    var inputs := s.job.value.pick.inputs;
    RestOfPrefix(s.levels[0], |inputs|);
    assert inputs == s.levels[0][..|inputs|];
  }

  // ---------- the invariant, and what readers see ----------

  lemma CataloguedAfter(levels: Levels, files: Files, used: set<uint64>, files': Files, levels': Levels, level: nat, upper: Level, lower: Level, outs: Level, runs: seq<seq<Record>>)
    requires Catalogued(levels, files, used)
    requires Replaced(files, levels, files', levels', level, upper, lower, outs, runs)
    requires UniqueFiles(upper) && (level > 0 ==> DisjointRanges(upper)) && forall t :: t in upper ==> t in levels[level]
    requires UniqueFiles(lower) && forall t :: t in lower ==> t in levels[level + 1]
    requires UniqueFiles(outs) && DisjointRanges(lower + outs)
    requires forall i :: 0 <= i < |outs| ==> outs[i].level == level + 1 && Describes(outs[i], runs[i])
    requires forall t :: t in outs ==> t.fileNum !in used
    ensures Catalogued(levels', files', used + Nums(outs))
  {
    hide Describes, DisjointRanges, UniqueFiles;
    forall l: nat, t: TableMeta | l < |levels'| && t in levels'[l]
      ensures (t in levels[l] && t.fileNum in used) || (l == level + 1 && t in outs)
      ensures t.level == l && t.fileNum in used + Nums(outs) && Describes(t, Run(files', t.fileNum))
    {
      TableAfter(levels, files, used, files', levels', level, upper, lower, outs, runs, l, t);
    }
    UniqueConcat(lower, outs, used);
    hide SameRuns, OthersSame, OutputRuns;
    assert forall l :: 0 <= l < |levels'| ==> UniqueFiles(levels'[l]) && (l > 0 ==> DisjointRanges(levels'[l]));
    forall l, m, t, u | 0 <= l < m < |levels'| && t in levels'[l] && u in levels'[m] ensures t.fileNum != u.fileNum {
      assert (t in levels[l] && t.fileNum in used) || t in outs;
      assert (u in levels[m] && u.fileNum in used) || u in outs;
    }
  }

  lemma TableAfter(levels: Levels, files: Files, used: set<uint64>, files': Files, levels': Levels, level: nat, upper: Level, lower: Level, outs: Level, runs: seq<seq<Record>>, l: nat, t: TableMeta)
    requires Catalogued(levels, files, used)
    requires Replaced(files, levels, files', levels', level, upper, lower, outs, runs)
    requires forall t :: t in upper ==> t in levels[level]
    requires forall t :: t in lower ==> t in levels[level + 1]
    requires forall i :: 0 <= i < |outs| ==> outs[i].level == level + 1 && Describes(outs[i], runs[i])
    requires l < |levels'| && t in levels'[l]
    ensures (t in levels[l] && t.fileNum in used) || (l == level + 1 && t in outs)
    ensures t.level == l && t.fileNum in used + Nums(outs) && Describes(t, Run(files', t.fileNum))
  {
    hide Describes, DisjointRanges, UniqueFiles;
    if l == level + 1 && t in outs {
      var i :| 0 <= i < |outs| && outs[i] == t;
    } else if l == level + 1 {
      assert t in lower;
    } else if l == level {
      assert t in upper;
    } else {
      assert t in levels[l] && SameRuns(files, files', levels[l]);
    }
  }

  lemma UniqueConcat(a: Level, b: Level, used: set<uint64>)
    requires UniqueFiles(a) && UniqueFiles(b)
    requires (forall t :: t in a ==> t.fileNum in used) && (forall t :: t in b ==> t.fileNum !in used)
    ensures UniqueFiles(a + b)
  {
    forall i, j | 0 <= i < j < |a + b| ensures (a + b)[i].fileNum != (a + b)[j].fileNum {
      if i < |a| <= j {
        assert a[i] in a && b[j - |a|] in b;
      }
    }
  }

  lemma FinishCatalogued(s: State, a: Action, strict: bool)
    requires Finishing(s, a, strict) && InRange(s.levels, FinishEdit(s, a))
    ensures Catalogued(Finished(s, a).levels, Finished(s, a).files, Finished(s, a).used)
  {
    FinishReplaces(s, a, strict);
    RestsFit(s, a, strict);
    OutputsFit(s, a, strict);
    OutsNumbered(s, a);
    var j := s.job.value;
    hide Versioned, StackOf, NumbersFresh, RunsSorted, Catalogued, Describes, DisjointRanges, Rest, Replaced, FinishEdit, Applied, Installed;
    CataloguedAfter(s.levels, s.files, s.used, Finished(s, a).files, Finished(s, a).levels, j.level, Upper(s), Lower(s), a.outs, a.runs);
  }

  lemma RestsFit(s: State, a: Action, strict: bool)
    requires Finishing(s, a, strict)
    ensures var j := s.job.value; var upper := Rest(s.levels[j.level], j.pick.inputs);
            UniqueFiles(upper) && (j.level > 0 ==> DisjointRanges(upper)) && forall t :: t in upper ==> t in s.levels[j.level]
    ensures var j := s.job.value; var lower := Rest(j.pick.next, j.pick.Chosen());
            UniqueFiles(lower) && forall t :: t in lower ==> t in j.pick.next
  {
    JobTables(s, a, strict);
    var j := s.job.value;
    RestMembers(s.levels[j.level], j.pick.inputs);
    RestMembers(j.pick.next, j.pick.Chosen());
    KeepUnique(s.levels[j.level], Nums(j.pick.inputs));
    KeepUnique(j.pick.next, Nums(j.pick.Chosen()));
    if j.level > 0 {
      KeepIsSubsequence(s.levels[j.level], Nums(j.pick.inputs));
    }
  }

  lemma OutputsFit(s: State, a: Action, strict: bool)
    requires Finishing(s, a, strict)
    ensures var p := s.job.value.pick; DisjointRanges(Rest(p.next, p.Chosen()) + a.outs)
    ensures forall i :: 0 <= i < |a.outs| ==> Describes(a.outs[i], a.runs[i])
  {
    JobTables(s, a, strict);
    InputsMerged(s, a, strict);
    LeftBehind(s, a, strict);
    var j := s.job.value;
    var collapsed := Collapse(a.m, Bottom(s, j.level), a.oldest);
    KeepIsSubsequence(j.pick.next, Nums(j.pick.Chosen()));
    OutputsAscend(a.outs, a.runs, collapsed, j.level + 1);
    assert forall r :: r in collapsed ==> r in MergeOf(s, a).out;
    j.pick.OutputIsDisjoint(s.files, Rest(j.pick.next, j.pick.Chosen()), a.outs, a.runs, collapsed, j.level + 1);
  }

  lemma FinishVersioned(s: State, a: Action, strict: bool)
    requires Finishing(s, a, strict) && InRange(s.levels, FinishEdit(s, a))
    ensures Versioned(StackOf(Finished(s, a)), s.seqNum, strict)
  {
    var m := MergeOf(s, a);
    FinishStack(s, a, strict);
    MergeIsClean(s, a, strict);
    m.KeepsOrder(strict);
    SubsetCoherent(Union(m.After()), Union(m.Before()));
    hide Catalogued, Ordered, Coherent, StackOf, MergeOf, CanFinish, Finished, Merge.Clean, Merged;
    assert Versioned(StackOf(s), s.seqNum, strict);
  }

  lemma FinishNumbers(s: State, a: Action, strict: bool)
    requires Finishing(s, a, strict) && InRange(s.levels, FinishEdit(s, a))
    ensures NumbersFresh(Finished(s, a).used, s.tasks, a.next)
  {
    hide Catalogued, Versioned, RunsSorted, JobStands, AreOutputs, Contents, Collapse;
    assert forall t :: t in s.tasks ==> t.fileNum in TaskNums(s.tasks);
  }

  /** A finished compaction keeps the invariant: levels disjoint, numbers unique, newer above older. */
  lemma FinishKeepsInv(s: State, a: Action, strict: bool)
    requires Finishing(s, a, strict) && InRange(s.levels, FinishEdit(s, a))
    ensures Inv(Finished(s, a), strict)
  {
    FinishCatalogued(s, a, strict);
    FinishVersioned(s, a, strict);
    FinishNumbers(s, a, strict);
    assert Finished(s, a).job == None;
    hide Catalogued, Versioned, NumbersFresh, StackOf, CanFinish, FinishEdit, Applied, Installed;
  }

  lemma FinishStack(s: State, a: Action, strict: bool)
    requires Finishing(s, a, strict) && InRange(s.levels, FinishEdit(s, a))
    ensures MergeOf(s, a).Before() == StackOf(s) && MergeOf(s, a).After() == StackOf(Finished(s, a))
  {
    JobTables(s, a, strict);
    NextIsSplit(s, a, strict);
    BeforeIsStack(s, a);
    FinishReplaces(s, a, strict);
    AfterIsStack(s, a, Finished(s, a));
  }

  /** A reader whose bound does not fall between two merged versions of the key sees no difference. */
  lemma FinishKeepsReads(s: State, a: Action, strict: bool, user: bytes, bound: uint64)
    requires Finishing(s, a, strict) && InRange(s.levels, FinishEdit(s, a))
    requires Within(Elements(a.m), user, bound) || PastBound(Elements(a.m), user, bound)
    ensures Shown(All(Finished(s, a)), user, bound) == Shown(All(s), user, bound)
  {
    var m := MergeOf(s, a);
    FinishStack(s, a, strict);
    MergeIsClean(s, a, strict);
    InputsMerged(s, a, strict);
    BottomIsLast(s, a, strict);
    m.KeepsReads(Bottom(s, s.job.value.level), a.oldest, user, bound);
  }

  lemma BottomIsLast(s: State, a: Action, strict: bool)
    requires Finishing(s, a, strict)
    ensures Bottom(s, s.job.value.level) ==> MergeOf(s, a).down == []
    ensures Ordered(StackOf(s), false)
  {
    assert Ordered(StackOf(s), strict);
  }

  /** The newest value of every key survives every compaction. */
  lemma FinishKeepsLatest(s: State, a: Action, strict: bool, user: bytes)
    requires Finishing(s, a, strict) && InRange(s.levels, FinishEdit(s, a))
    ensures Latest(Finished(s, a), user) == Latest(s, user)
  {
    FinishKeepsReads(s, a, strict, user, MAX_UINT64);
  }

  /** The levels under the one that a compaction writes to. */
  ghost function Under(s: State): set<Record>
    requires s.job.Some? && s.job.value.level + 2 <= |s.levels|
  {
    Union(Deep(s.files, s.levels, s.job.value.level + 2, |s.levels|))
  }

  /**
   * A compaction into any level, the last one included, leaves a reader at bound what it was shown
   * exactly when no version merged is beyond its bound, or all are, or it was shown nothing and the
   * levels under the output would show it nothing.
   */
  lemma FinishSnapshotIff(s: State, a: Action, user: bytes, bound: uint64)
    requires Finishing(s, a, true) && InRange(s.levels, FinishEdit(s, a))
    ensures Shown(All(Finished(s, a)), user, bound) == Shown(All(s), user, bound) <==>
        || Within(Elements(a.m), user, bound) || PastBound(Elements(a.m), user, bound)
        || (Shown(All(s), user, bound) == None && Shown(Under(s), user, bound) == None)
  {
    hide Shown, Within, PastBound;
    var m := MergeOf(s, a);
    FinishStack(s, a, true);
    MergeIsClean(s, a, true);
    InputsMerged(s, a, true);
    BottomIsLast(s, a, true);
    m.ShownIff(Bottom(s, s.job.value.level), a.oldest, user, bound);
  }

  /** Into any level but the last, the version found, tombstone or not, stays exactly when the bound does not split the merged versions. */
  lemma FinishVersionIff(s: State, a: Action, user: bytes, bound: uint64)
    requires Finishing(s, a, true) && InRange(s.levels, FinishEdit(s, a)) && !Bottom(s, s.job.value.level) && user != []
    ensures Newest(All(Finished(s, a)), user, bound) == Newest(All(s), user, bound) <==>
        Within(Elements(a.m), user, bound) || PastBound(Elements(a.m), user, bound)
  {
    var m := MergeOf(s, a);
    FinishStack(s, a, true);
    MergeIsClean(s, a, true);
    InputsMerged(s, a, true);
    m.ReadsIff(a.oldest, user, bound);
  }

  /**
   * A tombstone is written exactly when it is the newest merged version of its key and the output
   * is not the last level, or some live snapshot is no newer than it.
   */
  lemma TombstoneStaysIff(s: State, a: Action, snapshots: seq<uint64>, r: Record, strict: bool)
    requires Finishing(s, a, strict) && IsOldest(a.oldest, snapshots) && r.IsTombstone()
    ensures (exists i :: 0 <= i < |a.runs| && r in a.runs[i]) <==>
        && NewestOf(a.m, r) && r.key.userKey != []
        && (!Bottom(s, s.job.value.level) || r.key.seqNum == MAX_UINT64 || exists x :: x in snapshots && x <= r.key.seqNum)
  {
    InputsMerged(s, a, strict);
    InputsAreAll(s, a, strict);
    hide Inv, Coherent, WeaklySorted, Collapse, Merged, NewestOf;
    CollapseKeepsNewest(a.m, Bottom(s, s.job.value.level), a.oldest);
    FlattenMembers(a.runs, r);
  }
}
