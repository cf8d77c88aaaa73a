/** Concrete inputs on which the engine falls short of what one might expect of it. */
module Counterexamples {
  import opened Bytes
  import opened Records
  import opened Runs
  import opened Versions
  import opened Collapses
  import opened Layers
  import opened TableSets
  import opened Lsm
  import opened LsmCompaction
  import opened LsmRuns
  import opened LsmReads
  import opened LsmGuards
  import opened Pickers
  import opened Schedules

  const A: bytes := [97]
  const M: bytes := [109]
  const N: bytes := [110]

  function PutOf(key: bytes, seqNum: uint64): Record {
    Record(InternalKey(key, seqNum, TYPE_PUT), [118])
  }

  // ---------- an unsorted level ----------

  function KeyOf(key: bytes): InternalKey {
    InternalKey(key, 1, TYPE_PUT)
  }

  /** Of the keys m, n, a, in this order, the halves lead to m and to n, but not to a. */
  lemma TwoOfThreeFound()
    ensures var keys := [KeyOf(M), KeyOf(N), KeyOf(A)];
            && Probe(AtOrAfter(keys, KeyOf(M)), 0, 3) == 0
            && Probe(AtOrAfter(keys, KeyOf(N)), 0, 3) == 1
            && Probe(AtOrAfter(keys, KeyOf(A)), 0, 3) != 2
  {
    var keys := [KeyOf(M), KeyOf(N), KeyOf(A)];
    assert Less(A, M) && Less(M, N) && Less(A, N);
    assert forall p: nat :: p < 3 ==> Halving(0, 3, p) == [1] + if p == 2 then [2] else Halving(0, 1, p);
    assert Halving(0, 1, 0) == [0] && Halving(0, 1, 1) == [0];
    KeyFoundIff(keys, 0);
    KeyFoundIff(keys, 1);
    KeyFoundIff(keys, 2);
  }

  // ---------- a run that leaves a level unsorted ----------

  const V: bytes := [118]

  /** A run from s0 to s in which no memtable is rotated while a flush is pending, and what its writes leave. */
  ghost predicate Leads(states: seq<State>, actions: seq<Action>, s0: State, s: State, contents: map<bytes, bytes>) {
    IsRun(states, actions) && IsCalm(states, actions) && states[0] == s0 && states[|actions|] == s && Fold(actions) == contents
  }

  /** One more step. */
  lemma Extend(states: seq<State>, actions: seq<Action>, s0: State, s: State, contents: map<bytes, bytes>, a: Action, s': State)
    requires Leads(states, actions, s0, s, contents) && Step(s, a, s') && (a.Rotate? ==> s.tasks == [])
    ensures Leads(states + [s'], actions + [a], s0, s', Effect(a, contents))
  {
    hide Step, Effect, Init, Fold;
    RunMore(states, actions, a, s');
    CalmMore(states, actions, a, s');
    FoldMore(actions, a);
  }

  lemma RunMore(states: seq<State>, actions: seq<Action>, a: Action, s: State)
    requires IsRun(states, actions) && Step(states[|actions|], a, s)
    ensures IsRun(states + [s], actions + [a])
  {
    hide Step, Init;
  }

  lemma CalmMore(states: seq<State>, actions: seq<Action>, a: Action, s: State)
    requires |states| == |actions| + 1 && IsCalm(states, actions) && (a.Rotate? ==> states[|actions|].tasks == [])
    ensures IsCalm(states + [s], actions + [a])
  {
  }

  lemma FoldMore(actions: seq<Action>, a: Action)
    ensures Fold(actions + [a]) == Effect(a, Fold(actions))
  {
    hide Effect;
    assert (actions + [a])[..|actions|] == actions;
  }

  lemma LeadsSoundly(states: seq<State>, actions: seq<Action>, s0: State, s: State, contents: map<bytes, bytes>)
    requires Leads(states, actions, s0, s, contents)
    ensures Inv(s, true) && Stands(s, contents)
  {
    EveryRun(states, actions);
  }

  /** Nothing in memory, and nothing under way. */
  ghost predicate Settled(s: State, levels: Levels, seqNum: uint64, nextFile: uint64) {
    && s.mt == [] && s.immt == None && s.tasks == [] && s.job == None
    && s.levels == levels && s.seqNum == seqNum && s.nextFile == nextFile
  }

  function Table(key: bytes, seqNum: uint64, fileNum: uint64, level: uint32): TableMeta {
    TableMeta(fileNum, 1, level, InternalKey(key, seqNum, TYPE_PUT), InternalKey(key, seqNum, TYPE_PUT))
  }

  /** A key is written, rotated and flushed. */
  lemma IntoLevel0(states: seq<State>, actions: seq<Action>, s0: State, s: State, contents: map<bytes, bytes>, key: bytes)
    returns (states': seq<State>, actions': seq<Action>, s': State)
    requires Leads(states, actions, s0, s, contents) && Settled(s, s.levels, s.seqNum, s.nextFile) && key != []
    requires |s.levels| >= 2 && s.levels[0] == [] && s.seqNum < 100 && s.nextFile < 100
    ensures Leads(states', actions', s0, s', contents[key := V])
    ensures Settled(s', s.levels[0 := [Table(key, s.seqNum + 1, s.nextFile + 1, 0)]], s.seqNum + 1, s.nextFile + 3)
    ensures Run(s'.files, s.nextFile + 1) == [PutOf(key, s.seqNum + 1)]
  {
    hide Leads;
    var s1 := Written(s, key, V, TYPE_PUT);
    assert s1.mt == [PutOf(key, s.seqNum + 1)];
    Extend(states, actions, s0, s, contents, Put(key, V), s1);
    var s2 := Rotated(s1);
    Extend(states + [s1], actions + [Put(key, V)], s0, s1, contents[key := V], Rotate, s2);
    FlushLevels(s2, 1);
    assert s2.levels[0] + [FlushedMeta(s2.tasks[0], 1)] == [Table(key, s.seqNum + 1, s.nextFile + 1, 0)];
    s' := Flushed(s2, 1);
    Extend(states + [s1] + [s2], actions + [Put(key, V)] + [Rotate], s0, s2, contents[key := V], Flush(1), s');
    states', actions' := states + [s1] + [s2] + [s'], actions + [Put(key, V)] + [Rotate] + [Flush(1)];
  }

  lemma OneRecordMerged(s: State, key: bytes, r: Record, t: TableMeta)
    requires r.key.userKey == key != [] && !r.IsTombstone() && Run(s.files, t.fileNum) == [r]
    ensures WeaklySorted([r]) && Flatten([[r]]) == [r] && Flatten(Contents(s.files, [t])) == [r]
    ensures forall bottom: bool :: Collapse([r], bottom, 0) == [r]
  {
    assert Contents(s.files, [t]) == [[r]];
    assert [[r]][0] == [r] && [[r]][1..] == [];
    forall bottom: bool ensures Collapse([r], bottom, 0) == [r] {
      assert [r][..0] == [];
    }
  }

  /** The only table of level 0 is compacted into level 1, where nothing meets it: its records are appended there. */
  lemma IntoLevel1(states: seq<State>, actions: seq<Action>, s0: State, s: State, contents: map<bytes, bytes>, key: bytes, t0: TableMeta)
    returns (states': seq<State>, actions': seq<Action>, s': State)
    requires Leads(states, actions, s0, s, contents) && Settled(s, s.levels, s.seqNum, s.nextFile) && key != []
    requires |s.levels| >= 2 && s.levels[0] == [t0] && 0 < s.nextFile < 1000 && Overlapping(s.levels[1], key, key) == []
    requires t0 == Table(key, s.seqNum, t0.fileNum, 0) && Run(s.files, t0.fileNum) == [PutOf(key, s.seqNum)]
    ensures Leads(states', actions', s0, s', contents)
    ensures Settled(s', s.levels[0 := []][1 := s.levels[1] + [Table(key, s.seqNum, s.nextFile, 1)]], s.seqNum, s.nextFile + 3)
  {
    hide Leads, Overlapping, Stands;
    LeadsSoundly(states, actions, s0, s, contents);
    var a, s1 := StartStep(s, key, t0);
    var b;
    b, s' := FinishStep(s, s1, key, t0);
    hide Inv, Settled, Step;
    Extend(states, actions, s0, s, contents, a, s1);
    Extend(states + [s1], actions + [a], s0, s1, contents, b, s');
    states', actions' := states + [s1] + [s'], actions + [a] + [b];
  }

  lemma StartStep(s: State, key: bytes, t0: TableMeta) returns (a: Action, s': State)
    requires Inv(s, true) && s.job == None && |s.levels| >= 2 && s.levels[0] == [t0] && s.nextFile < 1000 && t0.minKey.userKey == key == t0.maxKey.userKey
    ensures a.Start? && Step(s, a, s') && Inv(s', true) && Effect(a, map[]) == map[]
    ensures s' == s.(job := Some(Job(0, 0, Pick([t0], s.levels[1], key, key))), nextFile := s.nextFile + 1) && s.nextFile !in s.used
  {
    a := Start(0, 0, 1, key, key);
    LessIsOrder();
    assert s.levels[0][0..1] == [t0];
    s' := Started(s, a);
    StartKeepsInv(s, a, true);
    hide StackOf, Overlapping;
  }

  lemma FinishStep(s: State, s1: State, key: bytes, t0: TableMeta) returns (b: Action, s': State)
    requires Inv(s1, true) && Settled(s, s.levels, s.seqNum, s.nextFile) && |s.levels| >= 2 && s.levels[0] == [t0] && 0 < s.nextFile < 1000 && s.nextFile !in s.used
    requires s1 == s.(job := Some(Job(0, 0, Pick([t0], s.levels[1], key, key))), nextFile := s.nextFile + 1)
    requires key != [] && Overlapping(s.levels[1], key, key) == []
    requires t0 == Table(key, s.seqNum, t0.fileNum, 0) && Run(s.files, t0.fileNum) == [PutOf(key, s.seqNum)]
    ensures b.Finish? && Step(s1, b, s')
    ensures Settled(s', s.levels[0 := []][1 := s.levels[1] + [Table(key, s.seqNum, s.nextFile, 1)]], s.seqNum, s.nextFile + 3)
  {
    var r := PutOf(key, s.seqNum);
    hide Inv, Overlapping, Collapse, Flatten, Contents, WeaklySorted, Rest;
    b := Finish([Table(key, s.seqNum, s.nextFile, 1)], [[r]], [r], 0, s.nextFile + 3);
    assert [t0] + [] == [t0];
    OneRecordMerged(s, key, r, t0);
    FinishesWith(s1, b);
    JobTables(s1, b, true);
    s' := Finished(s1, b);
    FinishLevels(s1, b);
    WholeLevelTaken(t0, s.levels[1]);
  }

  lemma FinishesWith(s: State, b: Action)
    requires b.Finish? && s.job.Some? && s.job.value.level == 0 && |s.levels| >= 2 && b.next > 2 && s.nextFile == b.next - 2 && s.tasks == []
    requires WeaklySorted(b.m) && b.m == Flatten(Contents(s.files, s.job.value.pick.inputs + s.job.value.pick.Chosen()))
    requires |b.outs| == |b.runs| == 1 && b.runs == [b.m] && b.m != [] && Collapse(b.m, Bottom(s, 0), b.oldest) == b.m == Flatten(b.runs)
    requires b.outs[0] == TableMeta(s.nextFile - 1, 1, 1, b.m[0].key, b.m[|b.m| - 1].key) && s.nextFile - 1 !in s.used
    ensures CanFinish(s, b)
  {
    hide WeaklySorted, Collapse, Flatten, Contents, Overlapping;
    assert TaskNums(s.tasks) == {};
  }

  lemma WholeLevelTaken(t0: TableMeta, next: Level)
    ensures Rest([t0], [t0]) == [] && Rest(next, []) == next
  {
    assert Nums([]) == {} && t0.fileNum in Nums([t0]);
    assert [t0][1..] == [] && Keep([], Nums([t0])) == [];
    KeepAll(next, {});
  }

  /** A key goes all the way to level 1. */
  lemma Through(states: seq<State>, actions: seq<Action>, s0: State, s: State, contents: map<bytes, bytes>, key: bytes)
    returns (states': seq<State>, actions': seq<Action>, s': State)
    requires Leads(states, actions, s0, s, contents) && Settled(s, s.levels, s.seqNum, s.nextFile) && key != []
    requires |s.levels| >= 2 && s.levels[0] == [] && s.seqNum < 100 && s.nextFile < 100 && Overlapping(s.levels[1], key, key) == []
    ensures Leads(states', actions', s0, s', contents[key := V])
    ensures Settled(s', s.levels[1 := s.levels[1] + [Table(key, s.seqNum + 1, s.nextFile + 3, 1)]], s.seqNum + 1, s.nextFile + 6)
  {
    hide Leads, Overlapping;
    states', actions', s' := IntoLevel0(states, actions, s0, s, contents, key);
    states', actions', s' := IntoLevel1(states', actions', s0, s', contents[key := V], key, Table(key, s.seqNum + 1, s.nextFile + 1, 0));
  }

  lemma MissesSmaller(t: TableMeta)
    requires t.minKey.userKey == M
    ensures Overlapping([t], A, A) == [] && Overlapping([], M, M) == []
  {
    assert Less(A, M) && !Less(M, A);
    assert [t][..0] == [];
  }

  /**
   * Write, rotate, flush and compact one key, then a smaller one: level 1 is left with the later
   * table behind, and get no longer finds the first key although nothing has deleted it. No flush
   * was ever pending when a memtable was rotated.
   */
  lemma UnsortedLevelMisses(s0: State) returns (states: seq<State>, actions: seq<Action>)
    requires Init(s0) && |s0.levels| >= 2
    ensures IsRun(states, actions) && IsCalm(states, actions) && states[0] == s0
    ensures var s := states[|actions|];
            && |s.levels| >= 2 && !LevelsSorted(s.levels)
            && Latest(s, M) == Some(V) && Get(s, LookupKey(M, MAX_UINT64)) == None
  {
    var s;
    states, actions, s := TwoKeys(s0);
    LeadsSoundly(states, actions, s0, s, map[M := V][A := V]);
    hide Stands, Fold, Init, Inv, IsRun, IsCalm, LevelsSorted, Latest, Get;
    LatestIs(s, M, map[M := V][A := V]);
    TwoTablesMiss(s);
  }

  lemma TwoKeys(s0: State) returns (states: seq<State>, actions: seq<Action>, s: State)
    requires Init(s0) && |s0.levels| >= 2
    ensures Leads(states, actions, s0, s, map[M := V][A := V])
    ensures s.mt == [] && s.immt == None && s.levels == s0.levels[1 := [Table(M, 1, 5, 1), Table(A, 2, 11, 1)]]
    ensures forall l :: 0 <= l < |s.levels| && l != 1 ==> s.levels[l] == []
  {
    hide Overlapping, Leads;
    states, actions, s := FirstKey(s0);
    MissesSmaller(Table(M, 1, 5, 1));
    states, actions, s := Through(states, actions, s0, s, map[M := V], A);
    assert s.levels[1] == [Table(M, 1, 5, 1)] + [Table(A, 2, 11, 1)] == [Table(M, 1, 5, 1), Table(A, 2, 11, 1)];
    assert forall l :: 0 <= l < |s.levels| && l != 1 ==> s.levels[l] == s0.levels[l];
  }

  lemma FirstKey(s0: State) returns (states: seq<State>, actions: seq<Action>, s: State)
    requires Init(s0) && |s0.levels| >= 2
    ensures Leads(states, actions, s0, s, map[M := V]) && Settled(s, s0.levels[1 := [Table(M, 1, 5, 1)]], 1, 8)
  {
    states, actions := [s0], [];
    assert Leads(states, actions, s0, s0, map[]);
    MissesSmaller(Table(M, 1, 5, 1));
    assert s0.levels[1] == [] && Settled(s0, s0.levels, 0, 2);
    hide Overlapping, Leads, Init;
    states, actions, s := Through(states, actions, s0, s0, map[], M);
    assert [] + [Table(M, 1, 5, 1)] == [Table(M, 1, 5, 1)];
  }

  lemma LatestIs(s: State, user: bytes, contents: map<bytes, bytes>)
    requires |s.levels| >= 1 && Stands(s, contents)
    ensures Latest(s, user) == Lookup(contents, user)
  {
  }

  lemma TwoTablesMiss(s: State)
    requires s.mt == [] && s.immt == None && |s.levels| >= 2 && s.levels[0] == [] && |s.levels[1]| == 2
    requires s.levels[1][0].maxKey == InternalKey(M, 1, TYPE_PUT) && s.levels[1][1].maxKey == InternalKey(A, 2, TYPE_PUT)
    requires forall l :: 2 <= l < |s.levels| ==> s.levels[l] == []
    ensures !LevelsSorted(s.levels) && Get(s, LookupKey(M, MAX_UINT64)) == None
  {
    var k, tables := LookupKey(M, MAX_UINT64), s.levels[1];
    assert Less(A, M) && !Less(M, A);
    assert !Before(MaxKeys(tables)[0], MaxKeys(tables)[1]);
    var f := AtOrAfter(MaxKeys(tables), k);
    assert !f(1);
    assert Probe(f, 2, 2) == 2;
    assert Probed(tables, k) == 2;
    EmptyLevels(s, k, 2);
  }

  // ---------- other shortfalls ----------

  /** A second rotation before the first flush: the first memtable's key cannot be read until it reaches a table. */
  lemma SecondRotationHides(s0: State)
    requires Init(s0)
    ensures var s := Rotated(Written(Rotated(Written(s0, M, A, TYPE_PUT)), A, M, TYPE_PUT));
            && Latest(s, M) == Some(A)
            && Get(s, LookupKey(M, MAX_UINT64)) == None
  {
    var s2 := Rotated(Written(s0, M, A, TYPE_PUT));
    FirstRotation(s0);
    hide Inv;
    var s3 := Written(s2, A, M, TYPE_PUT);
    WriteKeepsInv(s2, A, M, TYPE_PUT, true);
    WriteIsRead(s2, A, M, TYPE_PUT, true, M);
    RotateKeepsInv(s3, true);
    hide All, Written;
    SecondMissing(Rotated(s3), Record(InternalKey(A, 2, TYPE_PUT), M));
  }

  lemma FirstRotation(s0: State)
    requires Init(s0)
    ensures var s := Rotated(Written(s0, M, A, TYPE_PUT));
            && Inv(s, true) && Latest(s, M) == Some(A) && s.levels == s0.levels && s.seqNum == 1 && s.nextFile == 4 && s.mt == []
            && Written(s, A, M, TYPE_PUT).mt == [Record(InternalKey(A, 2, TYPE_PUT), M)]
  {
    InitHolds(s0);
    WriteKeepsInv(s0, M, A, TYPE_PUT, true);
    WriteIsRead(s0, M, A, TYPE_PUT, true, M);
    RotateKeepsInv(Written(s0, M, A, TYPE_PUT), true);
    hide Inv, All;
  }

  lemma SecondMissing(s: State, r: Record)
    requires s.mt == [] && s.immt == Some([r]) && r.key.userKey == A && |s.levels| >= 1 && forall l :: 0 <= l < |s.levels| ==> s.levels[l] == []
    ensures Get(s, LookupKey(M, MAX_UINT64)) == None
  {
    var k := LookupKey(M, MAX_UINT64);
    assert Less(A, M) && !Less(M, A);
    assert Find(s.mt, k) == None && Find([r], k) == None;
    EmptyLevels(s, k, 1);
  }

  lemma {:induction false} EmptyLevels(s: State, k: InternalKey, l: nat)
    requires l <= |s.levels| && forall i :: l <= i < |s.levels| ==> s.levels[i] == []
    ensures Descend(s.files, s.levels, k, l, None) == None
    decreases |s.levels| - l
  {
    if l < |s.levels| {
      EmptyLevels(s, k, l + 1);
    }
  }

  /** A snapshot taken between two versions of a key loses the older one when they are merged. */
  lemma SnapshotIsLost()
    ensures var m := [PutOf(M, 2), PutOf(M, 1)];
            && WeaklySorted(m)
            && Newest(Elements(m), M, 1) == Some(PutOf(M, 1))
            && Newest(Elements(Collapse(m, false, 1)), M, 1) == None
  {
    var m := [PutOf(M, 2), PutOf(M, 1)];
    assert PutOf(M, 1) in m;
    NewestUnique(Elements(m), M, 1, Some(PutOf(M, 1)));
    OnlyNewestKept(PutOf(M, 2), PutOf(M, 1), 1);
    hide Collapse;
    NewestUnique(Elements([PutOf(M, 2)]), M, 1, None);
  }

  /**
   * A deleted key comes back to a snapshot: the tombstone it saw is merged with a newer version and
   * goes, while the value it hid lies in a deeper level.
   */
  lemma DeletedKeyReturns()
    ensures var m, under := [PutOf(M, 3), Record(InternalKey(M, 2, TYPE_DEL), [])], [PutOf(M, 1)];
            && WeaklySorted(m) && Newer(Elements(m), Elements(under), true)
            && Shown(Elements(m) + Elements(under), M, 2) == None
            && Shown(Elements(Collapse(m, false, 2)) + Elements(under), M, 2) == Some(PutOf(M, 1))
  {
    var del := Record(InternalKey(M, 2, TYPE_DEL), []);
    var m, under := [PutOf(M, 3), del], [PutOf(M, 1)];
    OnlyNewestKept(PutOf(M, 3), del, 2);
    assert Elements(m) == {PutOf(M, 3), del} && Elements(under) == {PutOf(M, 1)} && Elements([PutOf(M, 3)]) == {PutOf(M, 3)};
    hide Collapse, Elements;
    NewestUnique({PutOf(M, 3), del} + {PutOf(M, 1)}, M, 2, Some(del));
    NewestUnique({PutOf(M, 3)} + {PutOf(M, 1)}, M, 2, Some(PutOf(M, 1)));
  }

  lemma OnlyNewestKept(r: Record, older: Record, oldest: uint64)
    requires r.key.userKey == older.key.userKey != []
    ensures Collapse([r, older], false, oldest) == [r]
  {
    var m := [r, older];
    assert m[..1] == [r] && m[..1][..0] == [];
    assert Collapse(m[..1][..0], false, oldest) == [];
  }

  /** The last key of a table need not be its newest record: LastSequence would be 1 here. */
  lemma LastKeyIsNotNewest()
    ensures var run := [PutOf(A, 2), PutOf(M, 1)];
            WeaklySorted(run) && run[|run| - 1].key.seqNum == 1 && exists r :: r in run && r.key.seqNum == 2
  {
    var run := [PutOf(A, 2), PutOf(M, 1)];
    assert Less(A, M) && !Less(M, A);
    assert run[0] in run;
  }

  /** The same table listed twice in a level makes replaying its deletion slice out of range. */
  lemma RepeatedTableFails()
    ensures RemoveInPlace([Table(A, 1, 7, 1), Table(A, 1, 7, 1)], 0, 2, 7).Err?
  {
    var a := [Table(A, 1, 7, 1), Table(A, 1, 7, 1)];
    assert a[0].fileNum == 7;
    InPlaceFails(a, 7);
  }

  // ---------- a pointer beyond every table ----------

  /** Level 1 takes no byte: its one table, of the given key, is due. */
  function OneTableBelow(key: bytes): Levels {
    [[], [Table(key, 1, 3, 1)], []]
  }

  /**
   * Compacting the table of m moves the pointer of level 1 from nothing to m. A table of a that comes
   * to that level afterwards is due at once, but behind the pointer there is nothing to pick.
   */
  lemma PointerPasses(limits: Limits)
    requires limits.maxL0Files > 0 && limits.maxBytesBase == 0
    ensures IsScheduled(OneTableBelow(M), limits, Some(1)) && PicksEnough(OneTableBelow(M)[1], [], 0, limits.levelMultiplier, 1, 0, 1)
    ensures PointerMoves(1, OneTableBelow(M)[1], map[], map[1 := M])
    ensures Spent(limits, OneTableBelow(A), map[1 := M], 1)
  {
    assert Less([], M) && !Less(M, A);
    OneTableSize(A);
    OneTableSize(M);
    assert Power(limits.levelMultiplier, 0) == 1;
    var t := Table(M, 1, 3, 1);
    assert [t][0..1] == [t];
    assert [] + M == M;
  }

  lemma OneTableSize(key: bytes)
    ensures var t := Table(key, 1, 3, 1); TablesSize([t]) == 1
  {
    var t := Table(key, 1, 3, 1);
    assert [t][..0] == [];
  }
}
