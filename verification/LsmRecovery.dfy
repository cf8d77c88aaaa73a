/** What the logs hold, and one crash and recovery (internal/engine/recover.go, engine.go). */
module LsmRecovery {
  import opened Bytes
  import opened Records
  import opened Runs
  import opened Versions
  import opened Layers
  import opened TableSets
  import opened Lsm
  import opened LsmCompaction
  import opened LsmRuns
  import opened LsmReads
  import opened FileNames

  // ---------- what the logs hold ----------

  function TaskWals(tasks: seq<Task>): set<uint64> {
    set t | t in tasks :: t.wal
  }

  function TaskLogs(logs: Files, tasks: seq<Task>): (runs: seq<seq<Record>>)
    ensures |runs| == |tasks|
    ensures forall i :: 0 <= i < |tasks| ==> runs[i] == Run(logs, tasks[i].wal)
  {
    seq(|tasks|, i requires 0 <= i < |tasks| => Run(logs, tasks[i].wal))
  }

  /** The records of the live logs, in the order they were appended. */
  function Joined(s: State): seq<Record> {
    Flatten(TaskLogs(s.logs, s.tasks)) + Run(s.logs, s.wal)
  }

  ghost predicate SeqsAscend(log: seq<Record>) {
    forall i, j :: 0 <= i < j < |log| ==> log[i].key.seqNum < log[j].key.seqNum
  }

  ghost predicate WalsDistinct(tasks: seq<Task>, wal: uint64, nextFile: uint64) {
    && wal < nextFile && (forall t :: t in tasks ==> t.wal != wal && t.wal < nextFile)
    && (forall i, j :: 0 <= i < j < |tasks| ==> tasks[i].wal != tasks[j].wal)
  }

  /** Each memtable, rotated or not, has a live log with the same records; nothing else is live. */
  ghost predicate LogsMatch(logs: Files, tasks: seq<Task>, wal: uint64, mt: seq<Record>) {
    && logs.Keys == TaskWals(tasks) + {wal}
    && Elements(Run(logs, wal)) == Elements(mt)
    && (forall t :: t in tasks ==> Elements(Run(logs, t.wal)) == Elements(t.run))
  }

  /** Sequence numbers go up through the live logs, and the last of them is the last given out. */
  ghost predicate LogsDated(joined: seq<Record>, seqNum: uint64, lastSeq: uint64) {
    && SeqsAscend(joined)
    && (joined != [] ==> joined[|joined| - 1].key.seqNum == seqNum)
    && lastSeq <= seqNum
  }

  /** No table has a number that the manifest would give out again. */
  ghost predicate NumbersLogged(used: set<uint64>, loggedNext: uint64, nextFile: uint64) {
    (forall n :: n in used ==> n < loggedNext) && loggedNext <= nextFile
  }

  ghost predicate Logged(s: State) {
    && WalsDistinct(s.tasks, s.wal, s.nextFile)
    && LogsMatch(s.logs, s.tasks, s.wal, s.mt)
    && LogsDated(Joined(s), s.seqNum, s.lastSeq)
    && NumbersLogged(s.used, s.loggedNext, s.nextFile)
    && s.files.Keys <= s.used
  }

  /** What the engine needs to go on, whether or not the memtables are logged. */
  ghost predicate Running(s: State) {
    WalsDistinct(s.tasks, s.wal, s.nextFile) && s.wal in s.logs && s.files.Keys <= s.used
  }

  lemma InitLogged(s: State)
    requires Init(s)
    ensures Logged(s)
  {
    assert TaskLogs(s.logs, s.tasks) == [];
  }

  lemma SameTaskLogs(logs: Files, logs': Files, tasks: seq<Task>)
    requires forall t :: t in tasks ==> Run(logs', t.wal) == Run(logs, t.wal)
    ensures TaskLogs(logs', tasks) == TaskLogs(logs, tasks)
  {
    assert forall i :: 0 <= i < |tasks| ==> tasks[i] in tasks;
  }

  lemma AscendSnoc(log: seq<Record>, r: Record)
    requires SeqsAscend(log) && (log != [] ==> log[|log| - 1].key.seqNum < r.key.seqNum)
    ensures SeqsAscend(log + [r])
  {
    forall i | 0 <= i < |log| ensures log[i].key.seqNum < r.key.seqNum {
      assert i < |log| - 1 ==> log[i].key.seqNum < log[|log| - 1].key.seqNum;
    }
  }

  lemma WriteMatch(logs: Files, tasks: seq<Task>, wal: uint64, mt: seq<Record>, nextFile: uint64, r: Record)
    requires WalsDistinct(tasks, wal, nextFile) && LogsMatch(logs, tasks, wal, mt)
    ensures var logs' := logs[wal := Run(logs, wal) + [r]];
            LogsMatch(logs', tasks, wal, Insert(mt, r)) && TaskLogs(logs', tasks) == TaskLogs(logs, tasks)
  {
    hide Insert;
    InsertAdds(mt, r);
    ElementsConcat(Run(logs, wal), [r]);
    SameTaskLogs(logs, logs[wal := Run(logs, wal) + [r]], tasks);
  }

  lemma WriteLogged(s: State, key: bytes, value: bytes, typ: byte)
    requires Logged(s) && s.seqNum < MAX_UINT64
    ensures Logged(Written(s, key, value, typ)) && Joined(Written(s, key, value, typ)) == Joined(s) + [NewRecord(s, key, value, typ)]
  {
    hide WalsDistinct, LogsMatch, NumbersLogged, TaskLogs, Insert, SeqsAscend;
    var r := NewRecord(s, key, value, typ);
    WriteMatch(s.logs, s.tasks, s.wal, s.mt, s.nextFile, r);
    AscendSnoc(Joined(s), r);
    ConcatAssociates(Flatten(TaskLogs(s.logs, s.tasks)), Run(s.logs, s.wal), [r]);
  }

  lemma LogsSnoc(logs: Files, tasks: seq<Task>, t: Task)
    ensures TaskLogs(logs, tasks + [t]) == TaskLogs(logs, tasks) + [Run(logs, t.wal)]
  {
  }

  lemma RotateWals(tasks: seq<Task>, wal: uint64, nextFile: uint64, t: Task)
    requires WalsDistinct(tasks, wal, nextFile) && t.wal == wal && nextFile + 2 < MAX_UINT64
    ensures WalsDistinct(tasks + [t], nextFile, nextFile + 2)
  {
    forall x | x in tasks + [t] ensures x.wal < nextFile {
      assert x in tasks || x == t;
    }
    forall i | 0 <= i < |tasks| ensures tasks[i].wal != t.wal {
      assert tasks[i] in tasks;
    }
  }

  lemma RotateMatch(logs: Files, tasks: seq<Task>, wal: uint64, mt: seq<Record>, nextFile: uint64, t: Task)
    requires WalsDistinct(tasks, wal, nextFile) && LogsMatch(logs, tasks, wal, mt) && t.run == mt && t.wal == wal && nextFile + 2 < MAX_UINT64
    ensures var logs' := logs[nextFile := []];
            && WalsDistinct(tasks + [t], nextFile, nextFile + 2) && LogsMatch(logs', tasks + [t], nextFile, [])
            && TaskLogs(logs', tasks + [t]) == TaskLogs(logs, tasks) + [Run(logs, wal)]
  {
    hide TaskLogs, Elements;
    var logs' := logs[nextFile := []];
    SameTaskLogs(logs, logs', tasks);
    LogsSnoc(logs', tasks, t);
    RotateWals(tasks, wal, nextFile, t);
    assert TaskWals(tasks + [t]) == TaskWals(tasks) + {wal};
    forall x | x in tasks + [t] ensures x.wal < nextFile && Elements(Run(logs', x.wal)) == Elements(x.run) {
      assert x in tasks || x == t;
    }
  }

  lemma RotateLogged(s: State)
    requires Logged(s) && CanRotate(s)
    ensures Logged(Rotated(s)) && Joined(Rotated(s)) == Joined(s)
  {
    hide WalsDistinct, LogsMatch, TaskLogs, SeqsAscend;
    RotateMatch(s.logs, s.tasks, s.wal, s.mt, s.nextFile, Task(s.mt, s.nextFile + 1, s.wal));
    FlattenSnoc(TaskLogs(s.logs, s.tasks), Run(s.logs, s.wal));
    assert Joined(s) + [] == Joined(s);
  }

  lemma FlushMatch(logs: Files, tasks: seq<Task>, wal: uint64, mt: seq<Record>, nextFile: uint64)
    requires WalsDistinct(tasks, wal, nextFile) && LogsMatch(logs, tasks, wal, mt) && tasks != [] && nextFile < MAX_UINT64
    ensures var logs' := logs - {tasks[0].wal};
            && WalsDistinct(tasks[1..], wal, nextFile + 1) && LogsMatch(logs', tasks[1..], wal, mt) && Run(logs', wal) == Run(logs, wal)
            && TaskLogs(logs, tasks) == [Run(logs, tasks[0].wal)] + TaskLogs(logs', tasks[1..])
  {
    var rest, logs' := tasks[1..], logs - {tasks[0].wal};
    WalsTail(tasks, wal, nextFile);
    hide WalsDistinct;
    assert logs'.Keys == TaskWals(rest) + {wal};
    forall x | x in rest ensures Run(logs', x.wal) == Run(logs, x.wal) && Elements(Run(logs', x.wal)) == Elements(x.run) {
      assert x in tasks;
    }
    SameTaskLogs(logs, logs', rest);
  }

  lemma WalsTail(tasks: seq<Task>, wal: uint64, nextFile: uint64)
    requires WalsDistinct(tasks, wal, nextFile) && tasks != [] && nextFile < MAX_UINT64
    ensures WalsDistinct(tasks[1..], wal, nextFile + 1) && tasks[0].wal != wal
    ensures TaskWals(tasks) == TaskWals(tasks[1..]) + {tasks[0].wal} && tasks[0].wal !in TaskWals(tasks[1..])
  {
    assert tasks[0] in tasks && tasks == [tasks[0]] + tasks[1..];
    forall x | x in tasks[1..] ensures x in tasks && x.wal != tasks[0].wal {
    }
  }

  lemma SuffixDated(log: seq<Record>, rest: seq<Record>, seqNum: uint64, lastSeq: uint64, newLast: uint64)
    requires LogsDated(log + rest, seqNum, lastSeq) && newLast <= seqNum
    ensures LogsDated(rest, seqNum, newLast)
  {
    assert forall i :: 0 <= i < |rest| ==> (log + rest)[|log| + i] == rest[i];
  }

  lemma FlushLogged(s: State, size: uint64)
    requires Logged(s) && CanFlush(s) && s.tasks[0].fileNum < s.nextFile
    requires s.tasks[0].run[|s.tasks[0].run| - 1].key.seqNum <= s.seqNum
    ensures Logged(Flushed(s, size)) && Joined(s) == Run(s.logs, s.tasks[0].wal) + Joined(Flushed(s, size))
  {
    hide WalsDistinct, LogsMatch, TaskLogs, LogsDated, Applied;
    var s', log := Flushed(s, size), Run(s.logs, s.tasks[0].wal);
    FlushMatch(s.logs, s.tasks, s.wal, s.mt, s.nextFile);
    FlattenConcat([log], TaskLogs(s'.logs, s'.tasks));
    ConcatAssociates(log, Flatten(TaskLogs(s'.logs, s'.tasks)), Run(s.logs, s.wal));
    assert Flatten([log]) == log + Flatten([]);
    assert log + [] == log;
    assert Joined(s) == log + Joined(s');
    SuffixDated(log, Joined(s'), s.seqNum, s.lastSeq, s'.lastSeq);
  }

  lemma StepKeepsLogged(s: State, a: Action, s': State)
    requires Inv(s, true) && Logged(s) && Step(s, a, s')
    ensures Logged(s')
  {
    hide Inv, Logged, Applied, CanFinish, Finished;
    match a
    case Put(key, value) =>
      if key != [] && value != [] {
        WriteLogged(s, key, value, TYPE_PUT);
      }
    case Delete(key) => WriteLogged(s, key, [], TYPE_DEL);
    case Rotate => RotateLogged(s);
    case Flush(size) =>
      OldestTask(s);
      FlushLogged(s, size);
    case Start(_, _, _, _, _) => StartLogged(s, a);
    case Finish(_, _, _, _, _) => FinishLogged(s, a);
  }

  /** Every step, logged or not, leaves the engine able to go on. */
  lemma StepKeepsRunning(s: State, a: Action, s': State)
    requires Inv(s, true) && Running(s) && Step(s, a, s')
    ensures Running(s')
  {
    hide Inv, Applied, CanFinish, WalsDistinct;
    match a
    case Put(key, value) =>
    case Delete(key) =>
    case Rotate => RotateWals(s.tasks, s.wal, s.nextFile, Task(s.mt, s.nextFile + 1, s.wal));
    case Flush(size) => WalsTail(s.tasks, s.wal, s.nextFile);
    case Start(_, _, _, _, _) => WalsBelow(s.tasks, s.wal, s.nextFile, s.nextFile + 1);
    case Finish(_, _, _, _, _) =>
      OutputsMatch(s, a);
      WalsBelow(s.tasks, s.wal, s.nextFile, a.next);
      InstalledKeys(s.files - Nums(s.job.value.pick.inputs + s.job.value.pick.Chosen()), a.outs, a.runs);
  }

  lemma OutputsMatch(s: State, a: Action)
    requires a.Finish? && CanFinish(s, a)
    ensures s.nextFile < a.next && |a.outs| == |a.runs| && s.job.Some?
  {
  }

  lemma {:induction false} InstalledKeys(files: Files, outs: Level, runs: seq<seq<Record>>)
    requires |outs| == |runs|
    ensures Installed(files, outs, runs).Keys == files.Keys + Nums(outs)
  {
    if outs != [] {
      var n := |outs| - 1;
      InstalledKeys(files, outs[..n], runs[..n]);
      assert outs == outs[..n] + [outs[n]];
    }
  }

  lemma StartLogged(s: State, a: Action)
    requires Logged(s) && a.Start? && CanStart(s, a)
    ensures Logged(Started(s, a))
  {
    hide WalsDistinct, LogsMatch, LogsDated, TaskLogs;
    WalsBelow(s.tasks, s.wal, s.nextFile, s.nextFile + 1);
  }

  lemma OldestTask(s: State)
    requires Inv(s, true) && s.tasks != []
    ensures s.tasks[0].fileNum < s.nextFile
    ensures var run := s.tasks[0].run; run != [] && run[|run| - 1].key.seqNum <= s.seqNum
  {
    ReaderFacts(s, true);
    var t := s.tasks[0];
    assert t in s.tasks;
    assert t.run[|t.run| - 1] in Sets(TaskRuns(s.tasks))[0];
  }

  lemma FinishLogged(s: State, a: Action)
    requires a.Finish? && Logged(s) && CanFinish(s, a) && InRange(s.levels, FinishEdit(s, a))
    ensures Logged(Finished(s, a))
  {
    hide WalsDistinct, LogsMatch, LogsDated, TaskLogs, Installed, Applied, AreOutputs;
    WalsBelow(s.tasks, s.wal, s.nextFile, a.next);
    OutputsMatch(s, a);
    InstalledKeys(s.files - Nums(s.job.value.pick.inputs + s.job.value.pick.Chosen()), a.outs, a.runs);
  }

  lemma WalsBelow(tasks: seq<Task>, wal: uint64, nextFile: uint64, more: uint64)
    requires WalsDistinct(tasks, wal, nextFile) && nextFile <= more
    ensures WalsDistinct(tasks, wal, more)
  {
  }

  /** In every run all records that no table holds are in a live log. */
  lemma {:induction false} EveryRunIsLogged(states: seq<State>, actions: seq<Action>)
    requires IsRun(states, actions)
    ensures Logged(states[|actions|])
    decreases |actions|
  {
    var n := |actions|;
    if n == 0 {
      InitLogged(states[0]);
    } else {
      var before := actions[..n - 1];
      assert IsRun(states[..n], before);
      EveryRunIsLogged(states[..n], before);
      EveryRun(states[..n], before);
      hide Inv, Logged, Step;
      assert Step(states[n - 1], actions[n - 1], states[n]);
      StepKeepsLogged(states[n - 1], actions[n - 1], states[n]);
    }
  }

  // ---------- a crash ----------

  /** What a crash leaves: the version, the table files, the live logs and the counters in the manifest. */
  datatype Disk = Disk(levels: Levels, files: Files, logs: Files, lastSeq: uint64, loggedNext: uint64)

  function DiskOf(s: State): Disk {
    Disk(s.levels, s.files, s.logs, s.lastSeq, s.loggedNext)
  }

  /** The crash comes between two steps, or in a flush after its edit is logged and before its log is removed. */
  ghost predicate CrashImage(s: State, d: Disk) {
    d == DiskOf(s) || (CanFlush(s) && exists size: uint64 :: d == DiskOf(Applied0(s, size)))
  }

  function InsertAll(mt: seq<Record>, recs: seq<Record>): seq<Record> {
    if recs == [] then mt else Insert(InsertAll(mt, recs[..|recs| - 1]), recs[|recs| - 1])
  }

  function Max(a: uint64, b: uint64): uint64 {
    if b > a then b else a
  }

  /** The greatest sequence number among start and those of recs. */
  function MaxSeq(recs: seq<Record>, start: uint64): uint64 {
    if recs == [] then start else Max(MaxSeq(recs[..|recs| - 1], start), recs[|recs| - 1].key.seqNum)
  }

  /** Replaying the logs numbered in order. */
  function Replayed(logs: Files, order: seq<uint64>): seq<Record> {
    Flatten(seq(|order|, i requires 0 <= i < |order| => Run(logs, order[i])))
  }

  /** In ascending order, the logs whose numbers can be read back from their names. */
  ghost predicate ReplayOrder(order: seq<uint64>, logs: Files) {
    (forall i, j :: 0 <= i < j < |order| ==> order[i] < order[j]) && (forall n :: n in order <==> n in logs && n < NAME_LIMIT)
  }

  /** No log that holds a record is passed over. */
  ghost predicate AllRead(logs: Files) {
    forall n :: n in logs && Run(logs, n) != [] ==> n < NAME_LIMIT
  }

  /** The engine after recovery: everything replayed into a new memtable, the old logs gone, a new log opened. */
  function Recovered(d: Disk, order: seq<uint64>): State
    requires d.loggedNext < MAX_UINT64
  {
    var recs := Replayed(d.logs, order);
    State(InsertAll([], recs), None, [], d.levels, d.files, None,
          MaxSeq(recs, d.lastSeq), d.loggedNext + 1, d.lastSeq, d.loggedNext,
          d.loggedNext, map[d.loggedNext := []],
          d.files.Keys)
  }

  lemma {:induction false} InsertAllElements(mt: seq<Record>, recs: seq<Record>)
    ensures Elements(InsertAll(mt, recs)) == Elements(mt) + Elements(recs)
    ensures WeaklySorted(mt) ==> WeaklySorted(InsertAll(mt, recs))
  {
    hide Insert, WeaklySorted;
    if recs != [] {
      var n := |recs| - 1;
      InsertAllElements(mt, recs[..n]);
      InsertAdds(InsertAll(mt, recs[..n]), recs[n]);
      if WeaklySorted(mt) {
        InsertKeepsWeaklySorted(InsertAll(mt, recs[..n]), recs[n]);
      }
      assert recs == recs[..n] + [recs[n]];
      ElementsConcat(recs[..n], [recs[n]]);
      assert Elements([recs[n]]) == {recs[n]};
    }
  }

  lemma {:induction false} MaxSeqIsMax(recs: seq<Record>, start: uint64)
    ensures start <= MaxSeq(recs, start) && forall r :: r in recs ==> r.key.seqNum <= MaxSeq(recs, start)
    ensures MaxSeq(recs, start) == start || exists r :: r in recs && r.key.seqNum == MaxSeq(recs, start)
  {
    if recs != [] {
      var n := |recs| - 1;
      MaxSeqIsMax(recs[..n], start);
      assert recs == recs[..n] + [recs[n]];
    }
  }

  lemma ReplayedElements(logs: Files, order: seq<uint64>)
    requires ReplayOrder(order, logs)
    ensures forall r :: r in Replayed(logs, order) <==> exists n :: n in logs && n < NAME_LIMIT && r in Run(logs, n)
  {
    var runs := seq(|order|, i requires 0 <= i < |order| => Run(logs, order[i]));
    forall r ensures r in Replayed(logs, order) <==> exists n :: n in logs && n < NAME_LIMIT && r in Run(logs, n) {
      FlattenMembers(runs, r);
      if i: nat :| i < |runs| && r in runs[i] {
        assert order[i] in order;
        assert r in Run(logs, order[i]);
      }
      if n: uint64 :| n in logs && n < NAME_LIMIT && r in Run(logs, n) {
        assert n in order;
        var i :| 0 <= i < |order| && order[i] == n;
        assert r in runs[i];
      }
    }
  }

  /** The logs, read or not, hold exactly what the memtables hold. */
  lemma LogsAreMemory(logs: Files, tasks: seq<Task>, wal: uint64, mt: seq<Record>)
    requires LogsMatch(logs, tasks, wal, mt)
    ensures forall r :: r in Elements(mt) + Union(Sets(TaskRuns(tasks))) <==> exists n :: n in logs && r in Run(logs, n)
  {
    var st := Sets(TaskRuns(tasks));
    forall r ensures r in Elements(mt) + Union(st) <==> exists n :: n in logs && r in Run(logs, n) {
      if n: uint64 :| n in logs && r in Run(logs, n) {
        if n == wal {
          assert r in Elements(Run(logs, n));
        } else {
          var t :| t in tasks && t.wal == n;
          var i :| 0 <= i < |tasks| && tasks[i] == t;
          assert r in Elements(Run(logs, t.wal));
          assert r in st[i];
        }
      }
      if r in mt {
        assert r in Elements(Run(logs, wal));
      }
      if r in Union(st) {
        var i :| 0 <= i < |st| && r in st[i];
        assert tasks[i] in tasks && r in Elements(tasks[i].run);
        assert r in Elements(Run(logs, tasks[i].wal)) && tasks[i].wal in TaskWals(tasks);
      }
    }
  }

  /** When none that matters is passed over, replay delivers exactly what the memtables held. */
  lemma LogsHoldMemtables(logs: Files, tasks: seq<Task>, wal: uint64, mt: seq<Record>, order: seq<uint64>)
    requires LogsMatch(logs, tasks, wal, mt) && ReplayOrder(order, logs) && AllRead(logs)
    ensures Elements(Replayed(logs, order)) == Elements(mt) + Union(Sets(TaskRuns(tasks)))
  {
    hide Replayed, LogsMatch;
    ReplayedElements(logs, order);
    LogsAreMemory(logs, tasks, wal, mt);
  }

  // ---------- recovery ----------

  lemma RecoveredStack(d: Disk, order: seq<uint64>)
    requires |d.levels| >= 1 && d.loggedNext < MAX_UINT64
    ensures var r := Recovered(d, order);
            All(r) == HeldIn(d.files, d.levels, 0, |d.levels|) + Elements(Replayed(d.logs, order))
            && StackOf(r) == Deep(d.files, d.levels, 1, |d.levels|) + Sets(Contents(d.files, d.levels[0])) + [Elements(Replayed(d.logs, order))]
  {
    var r := Recovered(d, order);
    InsertAllElements([], Replayed(d.logs, order));
    assert Elements([]) + Elements(Replayed(d.logs, order)) == Elements(Replayed(d.logs, order));
    StackInThree(r);
    TablesInStack(d.files, d.levels);
    var low := Deep(d.files, d.levels, 1, |d.levels|) + Sets(Contents(d.files, d.levels[0]));
    assert Sets(TaskRuns(r.tasks)) == [];
    assert low + [] == low;
    UnionConcat(low, [Elements(r.mt)]);
    UnionOne(Elements(r.mt));
  }

  /** A table that a flush has just added holds what its memtable held. */
  lemma FlushedTables(s: State, size: uint64)
    requires Inv(s, true) && CanFlush(s)
    ensures var f := Applied0(s, size);
            |f.levels| == |s.levels| && HeldIn(f.files, f.levels, 0, |f.levels|) == HeldIn(s.files, s.levels, 0, |s.levels|) + Elements(s.tasks[0].run)
  {
    var f, t := Applied0(s, size), s.tasks[0];
    FlushLevels(s, size);
    assert t in s.tasks;
    NewFileKeeps(s.levels, s.files, s.used, t.fileNum, t.run);
    hide Inv, Applied;
    SameHeldIn(s.files, f.files, s.levels, 1);
    HeldWithNew(s.files, f.files, s.levels, FlushedMeta(t, size), t.run);
  }

  lemma SameHeldIn(files: Files, files': Files, levels: Levels, lo: nat)
    requires forall l :: 0 <= l < |levels| ==> SameRuns(files, files', levels[l])
    ensures HeldIn(files, levels, lo, |levels|) == HeldIn(files', levels, lo, |levels|)
  {
    forall l | 0 <= l < |levels| ensures Held(files, levels[l]) == Held(files', levels[l]) {
      SameHeld(files, files', levels[l]);
    }
  }

  lemma HeldSnocIs(files: Files, tables: Level, t: TableMeta)
    ensures Held(files, tables + [t]) == Held(files, tables) + Elements(Run(files, t.fileNum))
  {
    HeldSnoc(files, tables + [t], {});
    assert (tables + [t])[..|tables|] == tables;
  }

  lemma HeldWithNew(files: Files, files': Files, levels: Levels, t: TableMeta, run: seq<Record>)
    requires |levels| >= 1 && SameRuns(files, files', levels[0]) && Run(files', t.fileNum) == run
    requires HeldIn(files, levels, 1, |levels|) == HeldIn(files', levels, 1, |levels|)
    ensures var levels' := levels[0 := levels[0] + [t]];
            HeldIn(files', levels', 0, |levels|) == HeldIn(files, levels, 0, |levels|) + Elements(run)
  {
    hide Held, HeldIn;
    var levels': Levels := levels[0 := levels[0] + [t]];
    HeldInSplit(files, levels, 0, 0, |levels|);
    HeldInSplit(files', levels', 0, 0, |levels|);
    HeldSnocIs(files', levels[0], t);
    SameHeld(files, files', levels[0]);
    OtherLevelsSame(files', levels, levels');
    hide Held, HeldIn, SameRuns, Elements;
    assert levels'[0] == levels[0] + [t];
  }

  lemma OtherLevelsSame(files: Files, levels: Levels, levels': Levels)
    requires |levels'| == |levels| && forall l :: 1 <= l < |levels| ==> levels'[l] == levels[l]
    ensures HeldIn(files, levels', 1, |levels|) == HeldIn(files, levels, 1, |levels|)
  {
    hide Held;
  }

  lemma LevelsExist(s: State)
    requires Inv(s, true)
    ensures |s.levels| >= 1
  {
  }

  /** A live log matters unless it is empty, or the crash came when its memtable had already become a table. */
  ghost predicate Matters(s: State, d: Disk, n: uint64) {
    n in d.logs && Run(d.logs, n) != [] && !(d != DiskOf(s) && s.tasks != [] && n == s.tasks[0].wal)
  }

  /** What one live log holds, no other does. */
  lemma LogsApart(s: State, n: uint64, m: uint64, r: Record)
    requires Inv(s, true) && Logged(s) && n in s.logs && m in s.logs && r in Run(s.logs, n) && r in Run(s.logs, m)
    ensures n == m
  {
    ReaderFacts(s, true);
    hide Inv;
    assert r in Elements(Run(s.logs, n)) && r in Elements(Run(s.logs, m));
    if n != s.wal && m != s.wal {
      LayerOf(s, n, r);
      LayerOf(s, m, r);
    } else if n != m {
      LayerOf(s, if n == s.wal then m else n, r);
    }
  }

  lemma LayerOf(s: State, n: uint64, r: Record)
    requires Logged(s) && n in s.logs && n != s.wal && r in Run(s.logs, n)
    ensures exists i :: 0 <= i < |s.tasks| && s.tasks[i].wal == n && r in Sets(TaskRuns(s.tasks))[i]
    ensures r in Union(Sets(TaskRuns(s.tasks)))
  {
    var t :| t in s.tasks && t.wal == n;
    var i :| 0 <= i < |s.tasks| && s.tasks[i] == t;
    assert r in Elements(Run(s.logs, t.wal));
    assert r in Sets(TaskRuns(s.tasks))[i];
  }

  /** The tables that a crash leaves, and what they hold beyond those of the last state. */
  lemma TablesLeft(s: State, d: Disk)
    requires Inv(s, true) && Logged(s) && CrashImage(s, d)
    ensures |d.levels| >= 1 && d.logs == s.logs
    ensures HeldIn(d.files, d.levels, 0, |d.levels|) == HeldIn(s.files, s.levels, 0, |s.levels|) +
        if d == DiskOf(s) || s.tasks == [] then {} else Elements(Run(s.logs, s.tasks[0].wal))
  {
    LevelsExist(s);
    hide Inv, Applied, HeldIn;
    if d != DiskOf(s) {
      var size: uint64 :| d == DiskOf(Applied0(s, size));
      FlushedTables(s, size);
      assert s.tasks[0] in s.tasks;
    }
  }

  /**
   * Nothing is lost and nothing comes back: after a crash at any point, replaying the live logs over
   * the logged version gives exactly the records there were, for every reader, if and only if no log
   * that matters has a number of a million or more, which its name would not give back.
   */
  lemma RecoveryKeepsAllIff(s: State, d: Disk, order: seq<uint64>)
    requires Inv(s, true) && Logged(s) && CrashImage(s, d) && ReplayOrder(order, d.logs) && d.loggedNext < MAX_UINT64
    ensures |d.levels| >= 1
    ensures All(Recovered(d, order)) == All(s) <==> forall n: uint64 :: Matters(s, d, n) ==> n < NAME_LIMIT
  {
    hide Inv, Logged, Replayed, StackOf, Recovered, HeldIn, Union, Sets, Applied, LogsMatch, WalsDistinct, LogsDated, ReplayOrder, CrashImage, All;
    ReaderFacts(s, true);
    TablesLeft(s, d);
    RecoveredStack(d, order);
    ReplayedElements(d.logs, order);
    MemoryIsLogged(s);
    if forall n: uint64 :: Matters(s, d, n) ==> n < NAME_LIMIT {
      NothingLost(s, d, order);
    } else {
      var n: uint64 :| Matters(s, d, n) && n >= NAME_LIMIT;
      SkippedIsLost(s, d, order, n);
    }
  }

  lemma MemoryIsLogged(s: State)
    requires Logged(s)
    ensures forall r :: r in Elements(s.mt) + Union(Sets(TaskRuns(s.tasks))) <==> exists n :: n in s.logs && r in Run(s.logs, n)
  {
    LogsAreMemory(s.logs, s.tasks, s.wal, s.mt);
  }

  lemma NothingLost(s: State, d: Disk, order: seq<uint64>)
    requires Logged(s) && d.logs == s.logs && ReplayOrder(order, d.logs) && (forall n: uint64 :: Matters(s, d, n) ==> n < NAME_LIMIT)
    ensures Elements(s.mt) + Union(Sets(TaskRuns(s.tasks))) ==
        Elements(Replayed(d.logs, order)) + if d == DiskOf(s) || s.tasks == [] then {} else Elements(Run(s.logs, s.tasks[0].wal))
  {
    hide Replayed, ReplayOrder;
    MemoryIsLogged(s);
    ReplayedElements(d.logs, order);
    assert s.tasks != [] ==> s.tasks[0] in s.tasks && s.tasks[0].wal in TaskWals(s.tasks);
    hide Logged, Union;
    var mem, read := Elements(s.mt) + Union(Sets(TaskRuns(s.tasks))), Elements(Replayed(d.logs, order));
    var more := if d == DiskOf(s) || s.tasks == [] then {} else Elements(Run(s.logs, s.tasks[0].wal));
    forall r ensures r in mem <==> r in read + more {
      if r in mem {
        var n :| n in s.logs && r in Run(s.logs, n);
        assert Matters(s, d, n) || (d != DiskOf(s) && s.tasks != [] && n == s.tasks[0].wal);
      }
    }
  }

  /** The first record of a log that matters and is passed over is gone. */
  lemma SkippedIsLost(s: State, d: Disk, order: seq<uint64>, n: uint64)
    requires Inv(s, true) && Logged(s) && CrashImage(s, d) && ReplayOrder(order, d.logs) && Matters(s, d, n) && n >= NAME_LIMIT
    ensures d.logs == s.logs && |d.levels| >= 1 && Run(s.logs, n) != []
    ensures var r := Run(s.logs, n)[0];
            && r in Elements(s.mt) + Union(Sets(TaskRuns(s.tasks)))
            && r !in HeldIn(d.files, d.levels, 0, |d.levels|) + Elements(Replayed(d.logs, order))
  {
    hide Inv, HeldIn, Replayed, CrashImage, ReplayOrder, Union;
    TablesLeft(s, d);
    ReaderFacts(s, true);
    ReplayedElements(d.logs, order);
    MemoryIsLogged(s);
    var r := Run(s.logs, n)[0];
    assert r in Run(s.logs, n);
    NotAbove2(Elements(s.mt), Union(Sets(TaskRuns(s.tasks))), HeldIn(s.files, s.levels, 0, |s.levels|), r);
    if m: uint64 :| m in s.logs && m < NAME_LIMIT && r in Run(s.logs, m) {
      LogsApart(s, n, m, r);
    }
    if d != DiskOf(s) && s.tasks != [] && r in Run(s.logs, s.tasks[0].wal) {
      assert s.tasks[0] in s.tasks;
      LogsApart(s, n, s.tasks[0].wal, r);
    }
  }

  lemma NotAbove2(a: set<Record>, b: set<Record>, c: set<Record>, x: Record)
    requires Newer(a, c, true) && Newer(b, c, true) && x in a + b
    ensures x !in c
  {
  }

  /** The contents after recovery are those of the writes before the crash, wherever in the run it came. */
  lemma RecoveredRun(states: seq<State>, actions: seq<Action>, d: Disk, order: seq<uint64>)
    requires IsRun(states, actions) && CrashImage(states[|actions|], d) && ReplayOrder(order, d.logs) && d.loggedNext < MAX_UINT64
    requires forall n: uint64 :: Matters(states[|actions|], d, n) ==> n < NAME_LIMIT
    ensures |d.levels| >= 1 && Stands(Recovered(d, order), Fold(actions))
  {
    var s := states[|actions|];
    EveryRun(states, actions);
    EveryRunIsLogged(states, actions);
    RecoveryKeepsAllIff(s, d, order);
    SameStands(s, Recovered(d, order), Fold(actions));
  }

  // ---------- the sequence number ----------

  /** Recovery finds the last sequence number given out whenever some live log has a record. */
  lemma RecoveredSeq(s: State, order: seq<uint64>)
    requires Inv(s, true) && Logged(s) && ReplayOrder(order, s.logs) && AllRead(s.logs) && s.loggedNext < MAX_UINT64
    ensures Recovered(DiskOf(s), order).seqNum == if Joined(s) != [] then s.seqNum else s.lastSeq
  {
    ReaderFacts(s, true);
    LogsHoldMemtables(s.logs, s.tasks, s.wal, s.mt, order);
    JoinedElements(s);
    var recs := Replayed(s.logs, order);
    MaxSeqIsMax(recs, s.lastSeq);
    assert forall r :: r in recs <==> r in Elements(recs);
    assert forall r :: r in recs <==> r in Elements(Joined(s));
    assert forall r :: r in recs ==> r in All(s);
    SameEmptiness(recs, Joined(s));
    if Joined(s) != [] {
      assert Joined(s)[|Joined(s)| - 1] in recs;
    }
  }

  lemma SameEmptiness(a: seq<Record>, b: seq<Record>)
    requires Elements(a) == Elements(b)
    ensures a == [] <==> b == []
  {
    if a != [] {
      assert a[0] in Elements(a);
    }
    if b != [] {
      assert b[0] in Elements(b);
    }
  }

  lemma JoinedElements(s: State)
    requires Logged(s)
    ensures Elements(Joined(s)) == Elements(s.mt) + Union(Sets(TaskRuns(s.tasks)))
  {
    var st := Sets(TaskRuns(s.tasks));
    var logs := TaskLogs(s.logs, s.tasks);
    forall r ensures r in Flatten(logs) <==> r in Union(st) {
      FlattenMembers(logs, r);
      if i: nat :| i < |logs| && r in logs[i] {
        assert s.tasks[i] in s.tasks && r in Elements(logs[i]);
        assert r in st[i];
      }
      if r in Union(st) {
        var i :| 0 <= i < |st| && r in st[i];
        assert s.tasks[i] in s.tasks && r in Elements(logs[i]);
      }
    }
    ElementsConcat(Flatten(logs), Run(s.logs, s.wal));
  }

  /**
   * When the last pending flush empties the logs, the manifest's LastSequence is the last sequence
   * number given out exactly when the last key written is greater than every other key of the table.
   */
  lemma LastSequenceIff(s: State, size: uint64)
    requires Inv(s, true) && Logged(s) && CanFlush(s) && |s.tasks| == 1 && s.mt == []
    ensures var log := Run(s.logs, s.tasks[0].wal);
            && log != []
            && (Flushed(s, size).lastSeq == s.seqNum <==>
                forall i :: 0 <= i < |log| - 1 ==> Less(log[i].key.userKey, log[|log| - 1].key.userKey))
  {
    OneLog(s);
    hide Inv, Logged, Applied;
    LastKeyIsLastWrite(s.tasks[0].run, Run(s.logs, s.tasks[0].wal), s.seqNum);
  }

  lemma OneLog(s: State)
    requires Inv(s, true) && Logged(s) && CanFlush(s) && |s.tasks| == 1 && s.mt == []
    ensures var run, log := s.tasks[0].run, Run(s.logs, s.tasks[0].wal);
            run != [] && WeaklySorted(run) && Elements(run) == Elements(log) && SeqsAscend(log) && log != [] && log[|log| - 1].key.seqNum == s.seqNum
  {
    hide Catalogued, Versioned, StackOf, NumbersFresh, JobStands, WeaklySorted, SeqsAscend;
    var t, log := s.tasks[0], Run(s.logs, s.tasks[0].wal);
    assert t in s.tasks;
    SameEmptiness(Run(s.logs, s.wal), s.mt);
    SameEmptiness(log, t.run);
    assert TaskLogs(s.logs, s.tasks) == [log];
    assert Flatten([log]) == log + Flatten([]);
    assert log + [] == log;
    assert Joined(s) == log;
  }

  lemma LastKeyIsLastWrite(run: seq<Record>, log: seq<Record>, seqNum: uint64)
    requires run != [] && WeaklySorted(run) && Elements(run) == Elements(log) && SeqsAscend(log)
    requires log != [] && log[|log| - 1].key.seqNum == seqNum
    ensures run[|run| - 1].key.seqNum == seqNum <==>
        forall i :: 0 <= i < |log| - 1 ==> Less(log[i].key.userKey, log[|log| - 1].key.userKey)
  {
    var last, end := log[|log| - 1], run[|run| - 1];
    assert last in Elements(log) && end in Elements(run);
    assert end in log && last in run;
    var e :| 0 <= e < |log| && log[e] == end;
    BeforeIsOrder();
    if end.key.seqNum == seqNum {
      assert e == |log| - 1;
      forall i | 0 <= i < |log| - 1 ensures Less(log[i].key.userKey, last.key.userKey) {
        assert log[i] in Elements(log) && log[i] in run;
        var k :| 0 <= k < |run| && run[k] == log[i];
        LastInOrder(run, k);
        LessIsOrder();
      }
    } else {
      var k :| 0 <= k < |run| && run[k] == last;
      LastInOrder(run, k);
      assert e < |log| - 1;
      LessIsOrder();
    }
  }

  lemma LastInOrder(run: seq<Record>, k: nat)
    requires WeaklySorted(run) && k < |run|
    ensures !Before(run[|run| - 1].key, run[k].key)
  {
    BeforeIsOrder();
  }

  // ---------- going on after recovery ----------

  lemma RecoveredVersioned(s: State, order: seq<uint64>)
    requires Inv(s, true) && Logged(s) && ReplayOrder(order, s.logs) && AllRead(s.logs) && s.loggedNext < MAX_UINT64
    ensures Ordered(StackOf(Recovered(DiskOf(s), order)), true) && All(Recovered(DiskOf(s), order)) == All(s)
  {
    var low, mid := Deep(s.files, s.levels, 1, |s.levels|) + Sets(Contents(s.files, s.levels[0])), Sets(TaskRuns(s.tasks));
    hide Catalogued, NumbersFresh, RunsSorted, JobStands, Replayed, Deep, Sets, Contents, LogsMatch, WalsDistinct, LogsDated, ReplayOrder;
    StackInThree(s);
    RecoveredStack(DiskOf(s), order);
    LogsHoldMemtables(s.logs, s.tasks, s.wal, s.mt, order);
    ReaderFacts(s, true);
    TablesInStack(s.files, s.levels);
    OrderedConcat(low + mid, [Elements(s.mt)], true);
    OrderedConcat(low, mid, true);
    var top := Elements(Replayed(s.logs, order));
    NewerTwo(Elements(s.mt), Union(mid), Union(low));
    UnionOne(top);
    OrderedConcat(low, [top], true);
  }

  lemma RecoveredCatalogued(s: State, order: seq<uint64>)
    requires Inv(s, true) && Logged(s) && s.loggedNext < MAX_UINT64
    ensures var r := Recovered(DiskOf(s), order);
            Catalogued(r.levels, r.files, r.used) && NumbersFresh(r.used, r.tasks, r.nextFile) && RunsSorted(r.mt, r.immt, r.tasks)
  {
    hide Catalogued, Versioned, StackOf, JobStands;
    InsertAllElements([], Replayed(s.logs, order));
    FilesInUse(s.levels, s.files, s.used);
  }

  /** The files there are include all the tables of the version. */
  lemma FilesInUse(levels: Levels, files: Files, used: set<uint64>)
    requires Catalogued(levels, files, used)
    ensures Catalogued(levels, files, files.Keys)
  {
    hide DisjointRanges, UniqueFiles;
    forall l, t | 0 <= l < |levels| && t in levels[l] ensures t.fileNum in files.Keys {
      assert Describes(t, Run(files, t.fileNum));
    }
  }

  /**
   * The recovered engine is as good as a running one, able to go on with further writes and
   * compactions, exactly when no table holds a version newer than the sequence number found.
   */
  lemma RecoveredGoesOnIff(s: State, order: seq<uint64>)
    requires Inv(s, true) && Logged(s) && ReplayOrder(order, s.logs) && AllRead(s.logs) && s.loggedNext < MAX_UINT64
    ensures Inv(Recovered(DiskOf(s), order), true) <==> Joined(s) != [] || forall r :: r in All(s) ==> r.key.seqNum <= s.lastSeq
  {
    RecoveredVersioned(s, order);
    RecoveredCatalogued(s, order);
    RecoveredSeq(s, order);
    hide Catalogued, NumbersFresh, RunsSorted, StackOf, Ordered, LogsMatch, WalsDistinct, LogsDated, Replayed, ReplayOrder;
    assert Versioned(StackOf(s), s.seqNum, true);
  }
}
