/**
 * The engine as a state machine: single writes, rotations, flushes and compactions as atomic
 * steps (internal/engine/write.go, flusher.go, compactor.go).
 */
module Lsm {
  import opened Bytes
  import opened Records
  import opened Runs
  import opened Versions
  import opened Collapses
  import opened Layers
  import opened TableSets

  /** A rotated memtable on its way to level 0, with the number its table will have and its log's. */
  datatype Task = Task(run: seq<Record>, fileNum: uint64, wal: uint64)

  /** A compaction under way: what it merges, from which level and where in that level. */
  datatype Job = Job(level: nat, from: nat, pick: Pick)

  /** lastSeq and loggedNext are the counters last logged in the manifest, used the numbers that tables have had so far. */
  datatype State = State(
    mt: seq<Record>, immt: Option<seq<Record>>, tasks: seq<Task>,
    levels: Levels, files: Files, job: Option<Job>,
    seqNum: uint64, nextFile: uint64,
    lastSeq: uint64, loggedNext: uint64,
    wal: uint64, logs: Files,
    used: set<uint64>)

  datatype Action =
    | Put(key: bytes, value: bytes)
    | Delete(key: bytes)
    | Rotate
    | Flush(size: uint64)
    | Start(level: nat, from: nat, to: nat, lo: bytes, hi: bytes)
    | Finish(outs: Level, runs: seq<seq<Record>>, m: seq<Record>, oldest: uint64, next: uint64)

  // ---------- steps ----------

  /** A new data directory; the first log takes file number 1. */
  predicate Init(s: State) {
    && s.mt == [] && s.immt == None && s.tasks == [] && s.job == None
    && |s.levels| >= 1 && (forall l :: 0 <= l < |s.levels| ==> s.levels[l] == [])
    && s.files == map[] && s.used == {}
    && s.seqNum == 0 && s.nextFile == 2 && s.lastSeq == 0 && s.loggedNext == 0
    && s.wal == 1 && s.logs == map[1 := []]
  }

  function NewRecord(s: State, key: bytes, value: bytes, typ: byte): Record
    requires s.seqNum < MAX_UINT64
  {
    Record(InternalKey(key, s.seqNum + 1, typ), value)
  }

  function Written(s: State, key: bytes, value: bytes, typ: byte): State
    requires s.seqNum < MAX_UINT64
  {
    var r := NewRecord(s, key, value, typ);
    s.(seqNum := s.seqNum + 1, logs := s.logs[s.wal := Run(s.logs, s.wal) + [r]], mt := Insert(s.mt, r))
  }

  predicate CanRotate(s: State) {
    s.mt != [] && s.nextFile + 2 < MAX_UINT64
  }

  /** The memtable becomes the immutable one, whether or not another still waits to be flushed. */
  function Rotated(s: State): State
    requires CanRotate(s)
  {
    s.(mt := [], immt := Some(s.mt), tasks := s.tasks + [Task(s.mt, s.nextFile + 1, s.wal)],
       wal := s.nextFile, logs := s.logs[s.nextFile := []], nextFile := s.nextFile + 2)
  }

  predicate CanFlush(s: State) {
    s.tasks != [] && s.tasks[0].run != [] && s.nextFile < MAX_UINT64 && |s.levels| >= 1
  }

  function FlushedMeta(task: Task, size: uint64): TableMeta
    requires task.run != []
  {
    TableMeta(task.fileNum, size, 0, task.run[0].key, task.run[|task.run| - 1].key)
  }

  function FlushEdit(s: State, size: uint64): VersionEdit
    requires CanFlush(s)
  {
    var t := FlushedMeta(s.tasks[0], size);
    VersionEdit([t], [], Some(t.maxKey.seqNum), Some(s.nextFile), None)
  }

  /** The table is in the version; its log is still there. */
  function Applied0(s: State, size: uint64): State
    requires CanFlush(s)
  {
    var t := s.tasks[0];
    s.(levels := Applied(s.levels, FlushEdit(s, size)), files := s.files[t.fileNum := t.run], used := s.used + {t.fileNum},
       lastSeq := FlushEdit(s, size).lastSequence.value, loggedNext := s.nextFile, nextFile := s.nextFile + 1)
  }

  /** The oldest task reaches level 0. There is no immutable memtable afterwards, even if other tasks wait. */
  function Flushed(s: State, size: uint64): State
    requires CanFlush(s)
  {
    Applied0(s, size).(tasks := s.tasks[1..], immt := None, logs := s.logs - {s.tasks[0].wal})
  }

  predicate CanStart(s: State, a: Action)
    requires a.Start?
  {
    && s.job == None && a.level + 1 < |s.levels| && s.nextFile < MAX_UINT64
    && a.from <= a.to <= |s.levels[a.level]|
    && (a.level == 0 ==> a.from == 0 && a.to == |s.levels[0]|)
  }

  function Picked(s: State, a: Action): Pick
    requires a.Start? && CanStart(s, a)
  {
    Pick(s.levels[a.level][a.from..a.to], s.levels[a.level + 1], a.lo, a.hi)
  }

  function Started(s: State, a: Action): State
    requires a.Start? && CanStart(s, a)
  {
    s.(job := Some(Job(a.level, a.from, Picked(s, a))), nextFile := s.nextFile + 1)
  }

  function Bottom(s: State, level: nat): bool {
    level + 2 == |s.levels|
  }

  function Nums(tables: Level): set<uint64> {
    set t | t in tables :: t.fileNum
  }

  function TaskNums(tasks: seq<Task>): set<uint64> {
    set t | t in tasks :: t.fileNum
  }

  /** m is the merge of all the tables of the job, and the outputs are its collapse under numbers never used before. */
  ghost predicate CanFinish(s: State, a: Action)
    requires a.Finish?
  {
    && a.next > 0 && s.job.Some? && s.job.value.level + 1 < |s.levels|
    && var j := s.job.value;
      && WeaklySorted(a.m) && multiset(a.m) == multiset(Flatten(Contents(s.files, j.pick.inputs + j.pick.Chosen())))
      && AreOutputs(a.outs, a.runs, Collapse(a.m, Bottom(s, j.level), a.oldest), j.level + 1)
      && s.nextFile < a.next
      && (forall t :: t in a.outs ==> t.fileNum < a.next - 1 && t.fileNum !in s.used && t.fileNum !in TaskNums(s.tasks))
  }

  function Deletions(tables: Level): (dels: seq<DeletedTable>)
    ensures forall d :: d in dels <==> exists t :: t in tables && d == DeletedTable(t.level, t.fileNum)
  {
    if tables == [] then [] else [DeletedTable(tables[0].level, tables[0].fileNum)] + Deletions(tables[1..])
  }

  function FinishEdit(s: State, a: Action): VersionEdit
    requires a.Finish? && s.job.Some? && a.next > 0
  {
    VersionEdit(a.outs, Deletions(s.job.value.pick.inputs + s.job.value.pick.Chosen()), None, Some(a.next - 1), None)
  }

  /** The files with the output tables among them. */
  function Installed(files: Files, outs: Level, runs: seq<seq<Record>>): Files
    requires |outs| == |runs|
  {
    if outs == [] then files else
      var n := |outs| - 1;
      Installed(files, outs[..n], runs[..n])[outs[n].fileNum := runs[n]]
  }

  function Finished(s: State, a: Action): State
    requires a.Finish? && s.job.Some? && a.next > 0 && |a.outs| == |a.runs| && InRange(s.levels, FinishEdit(s, a))
  {
    var p := s.job.value.pick;
    s.(levels := Applied(s.levels, FinishEdit(s, a)),
       files := Installed(s.files - Nums(p.inputs + p.Chosen()), a.outs, a.runs),
       used := s.used + Nums(a.outs), loggedNext := a.next - 1, nextFile := a.next, job := None)
  }

  ghost predicate Step(s: State, a: Action, s': State) {
    match a
    case Put(key, value) =>
      if key == [] || value == [] then s' == s
      else s.seqNum < MAX_UINT64 && s' == Written(s, key, value, TYPE_PUT)
    case Delete(key) => s.seqNum < MAX_UINT64 && s' == Written(s, key, [], TYPE_DEL)
    case Rotate => CanRotate(s) && s' == Rotated(s)
    case Flush(size) => CanFlush(s) && s' == Flushed(s, size)
    case Start(_, _, _, _, _) => CanStart(s, a) && Picked(s, a).Spans() && s' == Started(s, a)
    case Finish(_, _, _, _, _) => CanFinish(s, a) && InRange(s.levels, FinishEdit(s, a)) && s' == Finished(s, a)
  }

  // ---------- the stack of layers ----------

  function TaskRuns(tasks: seq<Task>): (runs: seq<seq<Record>>)
    ensures |runs| == |tasks|
    ensures forall i :: 0 <= i < |tasks| ==> runs[i] == tasks[i].run
  {
    seq(|tasks|, i requires 0 <= i < |tasks| => tasks[i].run)
  }

  /** Level 0, the tasks and the memtable, from the oldest to the newest. */
  function Recents(s: State): seq<seq<Record>>
    requires |s.levels| >= 1
  {
    Contents(s.files, s.levels[0]) + TaskRuns(s.tasks) + [s.mt]
  }

  ghost function Sets(runs: seq<seq<Record>>): (st: Stack)
    ensures |st| == |runs|
    ensures forall i :: 0 <= i < |runs| ==> st[i] == Elements(runs[i])
  {
    seq(|runs|, i requires 0 <= i < |runs| => Elements(runs[i]))
  }

  /** Levels hi - 1 down to lo: deeper is older. */
  ghost function Deep(files: Files, levels: Levels, lo: nat, hi: nat): (st: Stack)
    requires lo <= hi <= |levels|
    ensures |st| == hi - lo
    ensures forall i :: 0 <= i < hi - lo ==> st[i] == Held(files, levels[hi - 1 - i])
  {
    seq(hi - lo, i requires 0 <= i < hi - lo => Held(files, levels[hi - 1 - i]))
  }

  ghost function StackOf(s: State): Stack
    requires |s.levels| >= 1
  {
    Deep(s.files, s.levels, 1, |s.levels|) + Sets(Recents(s))
  }

  ghost function All(s: State): set<Record>
    requires |s.levels| >= 1
  {
    Union(StackOf(s))
  }

  /** The latest value of user, as the whole state has it. */
  ghost function Latest(s: State, user: bytes): Option<bytes>
    requires |s.levels| >= 1
  {
    match Shown(All(s), user, MAX_UINT64) case None => None case Some(r) => Some(r.value)
  }

  // ---------- the invariant ----------

  /** Each table is on one level only, under a number of its own, and truthfully described. */
  ghost predicate Catalogued(levels: Levels, files: Files, used: set<uint64>) {
    && (forall l, t :: 0 <= l < |levels| && t in levels[l] ==>
          t.level == l && t.fileNum in used && Describes(t, Run(files, t.fileNum)))
    && (forall l :: 0 <= l < |levels| ==> UniqueFiles(levels[l]))
    && (forall l, m, t, u :: 0 <= l < m < |levels| && t in levels[l] && u in levels[m] ==> t.fileNum != u.fileNum)
    && (forall l :: 1 <= l < |levels| ==> DisjointRanges(levels[l]))
  }

  /** Numbers that name, named or will name a table are all different, and all given out already. */
  ghost predicate NumbersFresh(used: set<uint64>, tasks: seq<Task>, nextFile: uint64) {
    && (forall n :: n in used ==> n < nextFile)
    && (forall t :: t in tasks ==> t.fileNum < nextFile && t.fileNum !in used)
    && (forall i, j :: 0 <= i < j < |tasks| ==> tasks[i].fileNum != tasks[j].fileNum)
  }

  ghost predicate RunsSorted(mt: seq<Record>, immt: Option<seq<Record>>, tasks: seq<Task>) {
    && WeaklySorted(mt)
    && (forall t :: t in tasks ==> t.run != [] && WeaklySorted(t.run))
    && (immt.Some? ==> tasks != [] && immt.value == tasks[|tasks| - 1].run)
  }

  /** Every version lies above all older versions of its key. With strict, no version lies in two places. */
  ghost predicate Versioned(st: Stack, seqNum: uint64, strict: bool) {
    && Ordered(st, strict)
    && Coherent(Union(st)) && EmptyKeyDeleted(Union(st))
    && (forall r :: r in Union(st) ==> r.key.seqNum <= seqNum)
  }

  /** The job's tables are still where they were; level 0 may have grown above them. */
  ghost predicate JobStands(job: Option<Job>, levels: Levels) {
    job.Some? ==>
      var j := job.value;
      && j.level + 1 < |levels|
      && j.from + |j.pick.inputs| <= |levels[j.level]|
      && j.pick.inputs == levels[j.level][j.from..j.from + |j.pick.inputs|]
      && (j.level == 0 ==> j.from == 0)
      && j.pick.next == levels[j.level + 1] && j.pick.Spans()
  }

  ghost predicate Inv(s: State, strict: bool) {
    && |s.levels| >= 1
    && Catalogued(s.levels, s.files, s.used)
    && NumbersFresh(s.used, s.tasks, s.nextFile)
    && RunsSorted(s.mt, s.immt, s.tasks)
    && Versioned(StackOf(s), s.seqNum, strict)
    && JobStands(s.job, s.levels)
  }

  lemma InitHolds(s: State)
    requires Init(s)
    ensures Inv(s, true) && All(s) == {}
  {
    assert forall i :: 0 <= i < |StackOf(s)| ==> StackOf(s)[i] == {};
  }

  // ---------- writes ----------

  lemma WriteStack(s: State, s': State, r: Record)
    requires |s.levels| >= 1 && s'.levels == s.levels && s'.files == s.files && s'.tasks == s.tasks && s'.mt == Insert(s.mt, r)
    ensures var n := |StackOf(s)| - 1;
            n >= 0 && StackOf(s)[n] == Elements(s.mt) && StackOf(s') == StackOf(s)[..n] + [StackOf(s)[n] + {r}]
  {
    InsertAdds(s.mt, r);
  }

  lemma NewestAdded(all: set<Record>, r: Record, user: bytes)
    requires Coherent(all) && forall x :: x in all ==> x.key.seqNum < r.key.seqNum
    ensures Coherent(all + {r})
    ensures Newest(all + {r}, user, MAX_UINT64) == if user == r.key.userKey then Some(r) else Newest(all, user, MAX_UINT64)
  {
    NewestUnique(all + {r}, user, MAX_UINT64, if user == r.key.userKey then Some(r) else Newest(all, user, MAX_UINT64));
  }

  /** A version newer than all others goes on top. */
  lemma PushKeepsVersioned(st: Stack, seqNum: uint64, r: Record, strict: bool)
    requires st != [] && Versioned(st, seqNum, strict) && seqNum < r.key.seqNum && (r.key.userKey == [] ==> r.IsTombstone())
    ensures var st' := st[..|st| - 1] + [st[|st| - 1] + {r}];
            Versioned(st', r.key.seqNum, strict) && Union(st') == Union(st) + {r}
  {
    var low, top := st[..|st| - 1], st[|st| - 1];
    assert st == low + [top];
    UnionConcat(low, [top]);
    UnionConcat(low, [top + {r}]);
    UnionOne(top);
    UnionOne(top + {r});
    NewestAdded(Union(st), r, []);
    PushOrdered(low, top, r, strict);
  }

  lemma PushOrdered(low: Stack, top: set<Record>, r: Record, strict: bool)
    requires Ordered(low + [top], strict) && forall x :: x in Union(low) ==> x.key.seqNum < r.key.seqNum
    ensures Ordered(low + [top + {r}], strict)
  {
    OrderedConcat(low, [top], strict);
    OrderedConcat(low, [top + {r}], strict);
    UnionOne(top);
    UnionOne(top + {r});
  }

  lemma WriteKeepsInv(s: State, key: bytes, value: bytes, typ: byte, strict: bool)
    requires Inv(s, strict) && s.seqNum < MAX_UINT64 && (key == [] ==> typ == TYPE_DEL)
    ensures Inv(Written(s, key, value, typ), strict)
    ensures All(Written(s, key, value, typ)) == All(s) + {NewRecord(s, key, value, typ)}
  {
    hide Versioned, Catalogued, NumbersFresh, StackOf, JobStands, WeaklySorted, Insert;
    var s', r := Written(s, key, value, typ), NewRecord(s, key, value, typ);
    WriteStack(s, s', r);
    InsertKeepsWeaklySorted(s.mt, r);
    PushKeepsVersioned(StackOf(s), s.seqNum, r, strict);
  }

  /** The written key reads as written; no other key reads differently. */
  lemma WriteIsRead(s: State, key: bytes, value: bytes, typ: byte, strict: bool, user: bytes)
    requires Inv(s, strict) && s.seqNum < MAX_UINT64 && (key == [] ==> typ == TYPE_DEL)
    ensures Latest(Written(s, key, value, typ), user) ==
        if user == key then (if typ == TYPE_DEL then None else Some(value)) else Latest(s, user)
  {
    WriteKeepsInv(s, key, value, typ, strict);
    NewestAdded(All(s), NewRecord(s, key, value, typ), user);
  }

  // ---------- rotation ----------

  lemma RotateKeepsInv(s: State, strict: bool)
    requires Inv(s, strict) && CanRotate(s)
    ensures Inv(Rotated(s), strict) && StackOf(Rotated(s)) == StackOf(s) + [{}] && All(Rotated(s)) == All(s)
  {
    RotateStack(s);
    var st := StackOf(s);
    UnionConcat(st, [{}]);
    UnionOne({});
    OrderedConcat(st, [{}], strict);
    hide Catalogued, StackOf, JobStands;
    assert Versioned(st + [{}], s.seqNum, strict);
  }

  lemma RotateStack(s: State)
    requires |s.levels| >= 1 && CanRotate(s)
    ensures StackOf(Rotated(s)) == StackOf(s) + [{}]
  {
    var s' := Rotated(s);
    assert Elements([]) == {};
    assert TaskRuns(s'.tasks) == TaskRuns(s.tasks) + [s.mt];
    assert Recents(s') == Recents(s) + [[]];
    assert Sets(Recents(s')) == Sets(Recents(s)) + [{}];
    assert StackOf(s') == Deep(s.files, s.levels, 1, |s.levels|) + (Sets(Recents(s)) + [{}]);
  }

  // ---------- flush ----------

  lemma FlushLevels(s: State, size: uint64)
    requires CanFlush(s)
    ensures Applied(s.levels, FlushEdit(s, size)) == s.levels[0 := s.levels[0] + [FlushedMeta(s.tasks[0], size)]]
  {
    var t := FlushedMeta(s.tasks[0], size);
    var next := s.levels[0 := s.levels[0] + [t]];
    assert [t][0] == t && [t][1..] == [];
    assert AddAll(next, []) == next;
  }

  /** A table under a new number leaves the runs of the others alone. */
  lemma NewFileKeeps(levels: Levels, files: Files, used: set<uint64>, n: uint64, run: seq<Record>)
    requires Catalogued(levels, files, used) && n !in used
    ensures forall l :: 0 <= l < |levels| ==> SameRuns(files, files[n := run], levels[l])
  {
  }

  lemma SameDeep(files: Files, files': Files, levels: Levels, levels': Levels, lo: nat, hi: nat)
    requires lo <= hi <= |levels| && |levels'| == |levels|
    requires forall l :: lo <= l < hi ==> levels'[l] == levels[l] && SameRuns(files, files', levels[l])
    ensures Deep(files', levels', lo, hi) == Deep(files, levels, lo, hi)
  {
    forall l | lo <= l < hi ensures Held(files', levels'[l]) == Held(files, levels[l]) {
      SameHeld(files, files', levels[l]);
    }
  }

  /** The oldest task's run becomes the newest table of level 0: it does not move in the stack. */
  lemma FlushRecents(files: Files, files': Files, level0: Level, tasks: seq<Task>, t: TableMeta, mt: seq<Record>)
    requires tasks != [] && SameRuns(files, files', level0) && Run(files', t.fileNum) == tasks[0].run
    ensures Contents(files', level0 + [t]) + TaskRuns(tasks[1..]) + [mt] == Contents(files, level0) + TaskRuns(tasks) + [mt]
  {
    SameHeld(files, files', level0);
    assert Contents(files', level0 + [t]) == Contents(files, level0) + [tasks[0].run];
    assert TaskRuns(tasks) == [tasks[0].run] + TaskRuns(tasks[1..]);
    MoveAcross(Contents(files, level0), tasks[0].run, TaskRuns(tasks[1..]), [mt]);
  }

  lemma MoveAcross(a: seq<seq<Record>>, x: seq<Record>, b: seq<seq<Record>>, c: seq<seq<Record>>)
    ensures (a + [x]) + b + c == a + ([x] + b) + c
  {
  }

  lemma FlushStack(s: State, size: uint64, strict: bool)
    requires Inv(s, strict) && CanFlush(s)
    ensures StackOf(Flushed(s, size)) == StackOf(s)
  {
    var s', t := Flushed(s, size), s.tasks[0];
    FlushLevels(s, size);
    assert t in s.tasks;
    NewFileKeeps(s.levels, s.files, s.used, t.fileNum, t.run);
    SameDeep(s.files, s'.files, s.levels, s'.levels, 1, |s.levels|);
    FlushRecents(s.files, s'.files, s.levels[0], s.tasks, FlushedMeta(t, size), s.mt);
    hide Catalogued, NumbersFresh, RunsSorted, Versioned, JobStands, SameRuns, Applied, Contents, TaskRuns, Deep;
    assert Recents(s') == Recents(s);
  }

  lemma FlushCatalogued(levels: Levels, files: Files, used: set<uint64>, t: TableMeta, run: seq<Record>)
    requires Catalogued(levels, files, used) && |levels| >= 1 && t.fileNum !in used && t.level == 0 && Describes(t, run)
    ensures Catalogued(levels[0 := levels[0] + [t]], files[t.fileNum := run], used + {t.fileNum})
  {
    NewFileKeeps(levels, files, used, t.fileNum, run);
    hide Describes, DisjointRanges;
    var next := levels[0 := levels[0] + [t]];
    assert UniqueFiles(next[0]) by {
      assert forall i :: 0 <= i < |levels[0]| ==> levels[0][i] in levels[0];
    }
    assert forall l :: 1 <= l < |levels| ==> next[l] == levels[l];
    assert forall x :: x in next[0] ==> x in levels[0] || x == t;
  }

  lemma FlushNumbers(used: set<uint64>, tasks: seq<Task>, nextFile: uint64, more: uint64)
    requires NumbersFresh(used, tasks, nextFile) && tasks != [] && more >= nextFile
    ensures NumbersFresh(used + {tasks[0].fileNum}, tasks[1..], more) && tasks[0].fileNum !in used
  {
    assert tasks[0] in tasks;
    forall x | x in tasks[1..] ensures x in tasks && x.fileNum != tasks[0].fileNum {
    }
  }

  lemma FlushRuns(mt: seq<Record>, immt: Option<seq<Record>>, tasks: seq<Task>, size: uint64)
    requires RunsSorted(mt, immt, tasks) && tasks != []
    ensures RunsSorted(mt, None, tasks[1..]) && tasks[0].run != [] && Describes(FlushedMeta(tasks[0], size), tasks[0].run)
  {
    assert tasks[0] in tasks;
  }

  lemma FlushJob(job: Option<Job>, levels: Levels, t: TableMeta)
    requires |levels| >= 1 && JobStands(job, levels)
    ensures JobStands(job, levels[0 := levels[0] + [t]])
  {
  }

  lemma FlushKeepsInv(s: State, size: uint64, strict: bool)
    requires Inv(s, strict) && CanFlush(s)
    ensures Inv(Flushed(s, size), strict) && StackOf(Flushed(s, size)) == StackOf(s)
  {
    hide Catalogued, Versioned, StackOf, NumbersFresh, RunsSorted, JobStands, Describes, AddAll, DeleteAll;
    FlushStack(s, size, strict);
    FlushLevels(s, size);
    var t := s.tasks[0];
    FlushNumbers(s.used, s.tasks, s.nextFile, s.nextFile + 1);
    FlushRuns(s.mt, s.immt, s.tasks, size);
    FlushJob(s.job, s.levels, FlushedMeta(t, size));
    FlushCatalogued(s.levels, s.files, s.used, FlushedMeta(t, size), t.run);
    hide Applied;
  }

  // ---------- starting a compaction ----------

  lemma StartKeepsInv(s: State, a: Action, strict: bool)
    requires Inv(s, strict) && a.Start? && CanStart(s, a) && Picked(s, a).Spans()
    ensures Inv(Started(s, a), strict) && StackOf(Started(s, a)) == StackOf(s)
  {
    hide Catalogued, Versioned, RunsSorted, Contents, TaskRuns, Sets, Deep;
    assert StackOf(Started(s, a)) == StackOf(s);
    hide StackOf;
  }
}
