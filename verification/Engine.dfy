/** The engine over its real parts: memtables, table files, version set, logs and block cache (internal/engine). */
module Engines {
  import opened Bytes
  import opened Records
  import opened Runs
  import opened Cuts
  import opened Filters
  import opened TableFormat
  import opened TableImage
  import opened TableWriters
  import opened TableSizes
  import BlockCaches
  import opened TableReaders
  import opened FileNames
  import opened Recoveries
  import opened Memtables
  import opened Skiplists
  import opened TableIterators
  import opened IteratorHeaps
  import opened ScanIterators
  import opened SourceLists
  import opened Versions
  import opened Manifests
  import Wals
  import opened Layers
  import opened TableSets
  import opened Collapses
  import opened CompactionOutputs
  import opened CompactionMerges
  import opened Pickers
  import opened Schedules
  import opened Snapshots
  import opened Flushers
  import Lsm
  import LsmCompaction
  import LsmReads
  import LsmGuards
  import LsmRecovery
  import LsmRuns
  import LsmScans

  datatype Options = Options(table: TableOptions, memtableSize: nat, skiplistMaxLevel: nat, limits: Limits)

  /** A rotated memtable in the flush channel, the number its table will have, and its log's. */
  datatype FlushTask = FlushTask(mt: Memtable, fileNum: uint64, wal: uint64)

  /** The files hold the runs, through the blocks and filters they were written with. */
  ghost predicate FilesHold(env: Env, files: map<uint64, bytes>, runs: Files, catalog: Catalog, filters: map<uint64, FilterData>) {
    && files.Keys == runs.Keys
    && forall n :: n in files ==> n in catalog && n in filters && Flatten(catalog[n]) == runs[n] && IsTable(env, files[n], catalog[n], filters[n])
  }

  ghost predicate LogsHold(env: Env, logs: map<uint64, bytes>, runs: Files) {
    && logs.Keys == runs.Keys
    && forall n :: n in logs ==> logs[n] == Wals.EncodedRecords(env.crc, runs[n]) && AllFit(runs[n])
  }

  ghost function InitialState(numLevels: nat): (s: Lsm.State)
    ensures numLevels >= 1 ==> Lsm.Init(s) && Sound(s)
    ensures s.levels == seq(numLevels, _ => []) && s.lastSeq == s.loggedNext == 0
    ensures s.mt == [] && s.immt == None && s.tasks == [] && s.files == map[] && s.used == {}
    ensures s.seqNum == 0 && s.nextFile == 2 && s.wal == 1 && s.logs == map[1 := []]
  {
    var s := Lsm.State([], None, [], seq(numLevels, _ => []), map[], None, 0, 2, 0, 0, 1, map[1 := []], {});
    if numLevels >= 1 then Lsm.InitHolds(s); s else s
  }

  ghost predicate TaskHolds(t: FlushTask, a: Lsm.Task)
    reads t.mt, t.mt.list, t.mt.list.nodes
  {
    t.mt.Valid() && t.mt.Records() == a.run && t.fileNum == a.fileNum && t.wal == a.wal
  }

  ghost predicate MemtableHolds(mt: Memtable, live: set<object>, opts: Options, recs: seq<Record>)
    reads live
  {
    && mt in live && mt.list in live && mt.Repr() <= live
    && mt.Valid() && mt.list.maxLevel == opts.skiplistMaxLevel && mt.maxSize == opts.memtableSize && mt.Records() == recs
  }

  /** The flush channel, its memtables all within frozen, is what the abstract state says; immt is the last one rotated, or none. */
  ghost predicate TasksHold(tasks: seq<FlushTask>, immt: Memtable?, frozen: set<object>, ts: seq<Lsm.Task>, im: Option<seq<Record>>)
    reads frozen
  {
    && |tasks| == |ts|
    && (forall i :: 0 <= i < |tasks| ==> tasks[i].mt in frozen && tasks[i].mt.list in frozen && tasks[i].mt.Repr() <= frozen && TaskHolds(tasks[i], ts[i]))
    && (if immt == null then im == None else tasks != [] && immt == tasks[|tasks| - 1].mt && im == Some(ts[|tasks| - 1].run))
  }

  lemma TasksMore(tasks: seq<FlushTask>, immt: Memtable?, frozen: set<object>, ts: seq<Lsm.Task>, im: Option<seq<Record>>, t: FlushTask, live: set<object>, a: Lsm.Task)
    requires TasksHold(tasks, immt, frozen, ts, im)
    requires t.mt in live && t.mt.list in live && t.mt.Repr() <= live && TaskHolds(t, a)
    ensures TasksHold(tasks + [t], t.mt, frozen + live, ts + [a], Some(a.run))
  {
    hide TaskHolds;
  }

  lemma TasksRest(tasks: seq<FlushTask>, immt: Memtable?, frozen: set<object>, ts: seq<Lsm.Task>, im: Option<seq<Record>>)
    requires TasksHold(tasks, immt, frozen, ts, im) && tasks != []
    ensures TasksHold(tasks[1..], null, frozen, ts[1..], None) && ts[0].wal == tasks[0].wal
  {
    hide TaskHolds;
    assert TaskHolds(tasks[0], ts[0]);
    FirstWal(tasks[0], ts[0]);
  }

  lemma FirstWal(t: FlushTask, a: Lsm.Task)
    requires TaskHolds(t, a)
    ensures t.wal == a.wal
  {
  }

  lemma LogsRest(env: Env, logs: map<uint64, bytes>, runs: Files, n: uint64)
    requires LogsHold(env, logs, runs)
    ensures LogsHold(env, logs - {n}, runs - {n})
  {
  }

  /** The value-level invariants. A running engine's logs match its memtables too (LsmRecovery.EveryRunIsLogged); a recovered one's do not. */
  ghost predicate Sound(s: Lsm.State) {
    Lsm.Inv(s, true) && LsmRecovery.Running(s)
  }

  lemma WriteIsSound(s: Lsm.State, key: bytes, value: bytes, typ: byte)
    requires Sound(s) && s.seqNum < MAX_UINT64 && (key == [] ==> typ == TYPE_DEL)
    ensures Sound(Lsm.Written(s, key, value, typ))
  {
    Lsm.WriteKeepsInv(s, key, value, typ, true);
  }

  /** What a write changes, part by part. */
  lemma WrittenParts(s: Lsm.State, key: bytes, value: bytes, typ: byte)
    requires s.seqNum < MAX_UINT64
    ensures var r, w := Record(InternalKey(key, s.seqNum + 1, typ), value), Lsm.Written(s, key, value, typ);
            && w.mt == Insert(s.mt, r) && w.logs == s.logs[s.wal := Run(s.logs, s.wal) + [r]] && w.seqNum == s.seqNum + 1
            && w.immt == s.immt && w.tasks == s.tasks && w.levels == s.levels && w.files == s.files && w.used == s.used
            && w.nextFile == s.nextFile && w.wal == s.wal && w.lastSeq == s.lastSeq && w.loggedNext == s.loggedNext
  {
  }

  /** What a rotation changes, part by part. */
  lemma RotatedParts(s: Lsm.State)
    requires Lsm.CanRotate(s)
    ensures s.nextFile + 2 < MAX_UINT64
    ensures var r := Lsm.Rotated(s);
            && r.mt == [] && r.immt == Some(s.mt) && r.tasks == s.tasks + [Lsm.Task(s.mt, s.nextFile + 1, s.wal)]
            && r.wal == s.nextFile && r.logs == s.logs[s.nextFile := []] && r.nextFile == s.nextFile + 2
            && r.levels == s.levels && r.files == s.files && r.used == s.used && r.seqNum == s.seqNum
            && r.lastSeq == s.lastSeq && r.loggedNext == s.loggedNext
  {
  }

  lemma RotateIsSound(s: Lsm.State)
    requires Sound(s) && Lsm.CanRotate(s)
    ensures Sound(Lsm.Rotated(s))
  {
    Lsm.RotateKeepsInv(s, true);
    LsmRecovery.StepKeepsRunning(s, Lsm.Rotate, Lsm.Rotated(s));
  }

  /** The edit of a rotation: the number of the new log. */
  function LogEdit(logNum: uint64): VersionEdit {
    VersionEdit([], [], None, None, Some(logNum))
  }

  lemma EmptyLogHolds(env: Env)
    ensures LogsHold(env, map[1 := []], map[1 := []])
  {
  }

  lemma EmptyLog(env: Env, logs: map<uint64, bytes>, runs: Files, n: uint64)
    requires LogsHold(env, logs, runs)
    ensures LogsHold(env, logs[n := []], runs[n := []])
  {
  }

  lemma LoggedMore(log: seq<VersionEdit>, edit: VersionEdit)
    ensures LastLogged(log + [edit], SequenceField(), 0) == if edit.lastSequence.Some? then edit.lastSequence.value else LastLogged(log, SequenceField(), 0)
    ensures LastLogged(log + [edit], FileNumField(), 0) == if edit.nextFileNum.Some? then edit.nextFileNum.value else LastLogged(log, FileNumField(), 0)
  {
    assert (log + [edit])[..|log|] == log;
  }

  /** An edit of counters alone fits any version, and leaves it as it is. */
  lemma CountersFit(s: Lsm.State, edit: VersionEdit)
    requires Sound(s) && edit.addTables == [] && edit.deleteTables == []
    ensures FitsLevels(s.levels, edit) && Applied(s.levels, edit) == s.levels
  {
  }

  /** Small enough for one table file. */
  ghost predicate SmallRun(run: seq<Record>) {
    AllFit(run) && SumSizes(run) < 2 * SIZE_LIMIT
  }

  lemma {:induction false} PartIsSmall(run: seq<Record>, i: nat)
    requires AllFit(run) && i < |run|
    ensures |run[i].key.userKey| + 17 <= SumSizes(run)
  {
    var n := |run| - 1;
    assert run[n] in run;
    SizeIsEncodedLength(run[n]);
    if i < n {
      PartIsSmall(run[..n], i);
    }
  }

  lemma FlushIsSound(s: Lsm.State, size: uint64)
    requires Sound(s) && Lsm.CanFlush(s)
    ensures Sound(Lsm.Flushed(s, size)) && s.tasks[0].fileNum !in s.used
  {
    Lsm.FlushKeepsInv(s, size, true);
    LsmRecovery.OldestTask(s);
    LsmRecovery.StepKeepsRunning(s, Lsm.Flush(size), Lsm.Flushed(s, size));
    assert s.tasks[0] in s.tasks;
  }

  /** What a flush changes on disk, part by part. */
  lemma FlushedParts(s: Lsm.State, size: uint64)
    requires Lsm.CanFlush(s)
    ensures s.tasks != []
    ensures var f := Lsm.Flushed(s, size);
            && f.files == s.files[s.tasks[0].fileNum := s.tasks[0].run] && f.used == s.used + {s.tasks[0].fileNum}
            && f.nextFile == s.nextFile + 1 && f.wal == s.wal && f.seqNum == s.seqNum
  {
  }

  lemma FlushFits(s: Lsm.State, size: uint64)
    requires Sound(s) && Lsm.CanFlush(s) && SmallRun(s.tasks[0].run)
    ensures FitsLevels(s.levels, Lsm.FlushEdit(s, size))
  {
    hide Sound, SmallRun, UniqueLevels, Encodable, FitsLevels, Applied;
    FlushIsSound(s, size);
    FlushedUnique(Lsm.Flushed(s, size));
    var t := Lsm.FlushedMeta(s.tasks[0], size);
    KeysEncode(t, s.tasks[0].run);
    OneAdditionFits(s.levels, t, Lsm.FlushEdit(s, size));
  }

  lemma OneAdditionFits(levels: Levels, t: TableMeta, edit: VersionEdit)
    requires edit.addTables == [t] && edit.deleteTables == [] && t.level < |levels| && Encodable(t)
    requires UniqueLevels(Applied(levels, edit))
    ensures FitsLevels(levels, edit)
  {
    hide UniqueLevels, Encodable, AddAll;
  }

  lemma KeysEncode(t: TableMeta, run: seq<Record>)
    requires SmallRun(run) && run != [] && t.minKey == run[0].key && t.maxKey == run[|run| - 1].key
    ensures Encodable(t)
  {
    PartIsSmall(run, 0);
    PartIsSmall(run, |run| - 1);
  }

  lemma FlushedUnique(s: Lsm.State)
    requires Sound(s)
    ensures UniqueLevels(s.levels)
  {
  }

  lemma ScanIsCoherent(s: Lsm.State, start: bytes, end: bytes, bound: uint64)
    requires Sound(s)
    ensures Coherent(LsmScans.ScanBase(s, start, end, bound))
  {
    LsmScans.BaseHasRange(s, start, end, bound, true);
    LsmReads.SeenIsCoherent(s, true);
    SubsetCoherent(LsmScans.ScanBase(s, start, end, bound), LsmReads.Seen(s));
  }

  lemma CacheStillAgrees(s: ScanIterator)
    requires s.Valid()
    ensures Agrees(s.heap.ctx)
  {
  }

  /** Starting a compaction changes the job and the next file number only. */
  lemma StartedParts(s: Lsm.State, a: Lsm.Action)
    requires a.Start? && Lsm.CanStart(s, a)
    ensures s.nextFile < MAX_UINT64
    ensures var f := Lsm.Started(s, a);
            && f.nextFile == s.nextFile + 1 && f.mt == s.mt && f.immt == s.immt && f.tasks == s.tasks && f.levels == s.levels && f.files == s.files
            && f.used == s.used && f.lastSeq == s.lastSeq && f.loggedNext == s.loggedNext && f.wal == s.wal && f.logs == s.logs && f.seqNum == s.seqNum
  {
  }

  lemma StartIsSound(s: Lsm.State, a: Lsm.Action)
    requires Sound(s) && a.Start? && Lsm.CanStart(s, a) && Lsm.Picked(s, a).Spans()
    ensures Sound(Lsm.Started(s, a))
  {
    Lsm.StartKeepsInv(s, a, true);
    LsmRecovery.StepKeepsRunning(s, a, Lsm.Started(s, a));
  }

  lemma {:induction false} SumIsFlatten(rests: seq<seq<Record>>)
    ensures Sum(rests) == multiset(Flatten(rests))
    decreases |rests|
  {
    if rests != [] {
      var n := |rests| - 1;
      SumIsFlatten(rests[..n]);
      FlattenSnoc(rests[..n], rests[n]);
      assert rests == rests[..n] + [rests[n]];
    }
  }

  lemma OutputsAre(env: Env, level: uint32, metas: Level, files: seq<bytes>, runs: seq<seq<Record>>, blocks: seq<Blocks>, filters: seq<FilterData>, collapsed: seq<Record>)
    requires TablesWritten(env, level, metas, files, runs, blocks, filters) && Flatten(runs) == collapsed && UniqueFiles(metas)
    ensures AreOutputs(metas, runs, collapsed, level)
  {
    assert forall i :: 0 <= i < |metas| ==> IsOutput(env, level, metas[i], files[i], runs[i], blocks[i], filters[i]);
  }

  /** Everything below nextFile is used up or spoken for; what is taken later is new. */
  lemma LaterIsNew(s: Lsm.State, metas: Level, num0: uint64, start: uint64, next: uint64)
    requires Sound(s) && forall t :: t in metas ==> (t.fileNum == num0 || start <= t.fileNum) && t.fileNum < next
    requires num0 !in s.used && num0 !in Lsm.TaskNums(s.tasks) && s.nextFile <= start
    ensures forall t :: t in metas ==> t.fileNum < next && t.fileNum !in s.used && t.fileNum !in Lsm.TaskNums(s.tasks)
  {
  }

  /** What the writer of the outputs leaves is what the finishing step asks for. */
  lemma FinishEnabled(s: Lsm.State, a: Lsm.Action, rests: seq<seq<Record>>, num0: uint64, start: uint64)
    requires Sound(s) && a.Finish? && s.job.Some? && s.job.value.level + 1 < |s.levels|
    requires WeaklySorted(a.m) && multiset(a.m) == Sum(rests) && rests == Contents(s.files, s.job.value.pick.inputs + s.job.value.pick.Chosen())
    requires AreOutputs(a.outs, a.runs, Collapse(a.m, Lsm.Bottom(s, s.job.value.level), a.oldest), s.job.value.level + 1)
    requires a.next > 0 && s.nextFile < a.next && s.nextFile <= start && num0 !in s.used && num0 !in Lsm.TaskNums(s.tasks)
    requires forall t :: t in a.outs ==> (t.fileNum == num0 || start <= t.fileNum) && t.fileNum < a.next - 1
    ensures Lsm.CanFinish(s, a)
  {
    hide Sound, AreOutputs, Collapse, Contents, WeaklySorted, Flatten, Sum, Lsm.TaskNums;
    SumIsFlatten(rests);
    LaterIsNew(s, a.outs, num0, start, a.next - 1);
  }

  /** A finished compaction leaves memory and the logs alone. */
  lemma FinishedParts(s: Lsm.State, a: Lsm.Action)
    requires a.Finish? && s.job.Some? && a.next > 0 && |a.outs| == |a.runs| && InRange(s.levels, Lsm.FinishEdit(s, a))
    ensures var f := Lsm.Finished(s, a);
            && f.mt == s.mt && f.immt == s.immt && f.tasks == s.tasks && f.logs == s.logs && f.wal == s.wal && f.seqNum == s.seqNum
  {
  }

  lemma FinishIsSound(s: Lsm.State, a: Lsm.Action)
    requires Sound(s) && a.Finish? && Lsm.CanFinish(s, a)
    ensures InRange(s.levels, Lsm.FinishEdit(s, a)) && Sound(Lsm.Finished(s, a))
  {
    LsmCompaction.JobTables(s, a, true);
    LsmCompaction.FinishKeepsInv(s, a, true);
    LsmRecovery.StepKeepsRunning(s, a, Lsm.Finished(s, a));
  }

  lemma AddedUnique(levels: Levels, outs: Level, level: nat, used: set<uint64>)
    requires UniqueLevels(levels) && level < |levels| && UniqueFiles(outs)
    requires forall l, t :: 0 <= l < |levels| && t in levels[l] ==> t.fileNum in used
    requires forall t :: t in outs ==> t.level == level && t.fileNum !in used
    ensures UniqueLevels(AddAll(levels, outs))
  {
    forall l | 0 <= l < |levels| ensures UniqueFiles(AddAll(levels, outs)[l]) {
      AddAllAppends(levels, outs, l);
      if l == level {
        AddedAll(outs, l);
        LsmCompaction.UniqueConcat(levels[l], outs, used);
      } else {
        AddedNone(outs, l);
        assert levels[l] + [] == levels[l];
      }
    }
  }

  lemma NumbersInUse(s: Lsm.State)
    requires Sound(s)
    ensures forall l, t :: 0 <= l < |s.levels| && t in s.levels[l] ==> t.fileNum in s.used
  {
  }

  lemma FinishFits(s: Lsm.State, a: Lsm.Action)
    requires Sound(s) && a.Finish? && Lsm.CanFinish(s, a) && forall t :: t in a.outs ==> Encodable(t)
    ensures FitsLevels(s.levels, Lsm.FinishEdit(s, a))
  {
    var j, edit := s.job.value, Lsm.FinishEdit(s, a);
    FinishIsSound(s, a);
    LsmCompaction.JobTables(s, a, true);
    LsmCompaction.OutsNumbered(s, a);
    LsmCompaction.OutsLevel(a.outs, a.runs, Collapse(a.m, Lsm.Bottom(s, j.level), a.oldest), j.level + 1);
    NumbersInUse(s);
    hide Sound, Lsm.CanFinish, InRange;
    AddedUnique(s.levels, a.outs, j.level + 1, s.used);
    DeletesOld(s, a);
  }

  lemma DeletesOld(s: Lsm.State, a: Lsm.Action)
    requires a.Finish? && a.next > 0 && LsmCompaction.JobInLevels(s)
    requires forall l, t :: 0 <= l < |s.levels| && t in s.levels[l] ==> t.fileNum in s.used
    requires forall t :: t in a.outs ==> t.fileNum !in s.used
    ensures DeletesNoAddition(Lsm.FinishEdit(s, a))
  {
    hide Pick.Good, Described, DisjointRanges;
    var p, level := s.job.value.pick, s.job.value.level;
    forall d | d in Lsm.Deletions(p.inputs + p.Chosen()) ensures d.fileNum in s.used {
      var t :| t in p.inputs + p.Chosen() && d == DeletedTable(t.level, t.fileNum);
      assert t in s.levels[level] || t in s.levels[level + 1];
    }
  }

  lemma SmallKeysEncode(t: TableMeta, run: seq<Record>)
    requires run != [] && t.minKey == run[0].key && t.maxKey == run[|run| - 1].key && forall r :: r in run ==> Small(r)
    ensures Encodable(t)
  {
    assert run[0] in run && run[|run| - 1] in run;
    SizeIsEncodedLength(run[0]);
    SizeIsEncodedLength(run[|run| - 1]);
  }

  lemma FilesRest(env: Env, files: map<uint64, bytes>, runs: Files, catalog: Catalog, filters: map<uint64, FilterData>, gone: set<uint64>)
    requires FilesHold(env, files, runs, catalog, filters)
    ensures FilesHold(env, files - gone, runs - gone, catalog, filters)
  {
  }

  lemma NoneInstalled(runs: Files)
    ensures Lsm.Installed(runs, [], []) == runs && Lsm.Nums([]) == {}
  {
  }

  lemma OneInstalled(runs: Files, tables: Level, outRuns: seq<seq<Record>>, i: nat)
    requires i < |tables| == |outRuns| && UniqueFiles(tables)
    ensures Lsm.Installed(runs, tables[..i + 1], outRuns[..i + 1]) == Lsm.Installed(runs, tables[..i], outRuns[..i])[tables[i].fileNum := outRuns[i]]
    ensures Lsm.Nums(tables[..i + 1]) == Lsm.Nums(tables[..i]) + {tables[i].fileNum}
    ensures tables[i].fileNum !in Lsm.Nums(tables[..i]) && tables[i] in tables
  {
    assert tables[..i + 1][..i] == tables[..i] && outRuns[..i + 1][..i] == outRuns[..i];
    assert tables[..i + 1] == tables[..i] + [tables[i]];
  }

  lemma OutputsParallel(env: Env, level: uint32, metas: Level, files: seq<bytes>, runs: seq<seq<Record>>, blocks: seq<Blocks>, filters: seq<FilterData>)
    requires TablesWritten(env, level, metas, files, runs, blocks, filters)
    ensures |metas| == |files| == |runs| == |blocks| == |filters|
  {
  }

  lemma OneOutput(env: Env, level: uint32, metas: Level, files: seq<bytes>, runs: seq<seq<Record>>, blocks: seq<Blocks>, filters: seq<FilterData>, i: nat)
    requires TablesWritten(env, level, metas, files, runs, blocks, filters) && i < |metas|
    ensures |metas| == |files| == |runs| == |blocks| == |filters|
    ensures metas[i].fileSize == Low64(|files[i]|) && IsTable(env, files[i], blocks[i], filters[i]) && Flatten(blocks[i]) == runs[i]
  {
    assert IsOutput(env, level, metas[i], files[i], runs[i], blocks[i], filters[i]);
  }

  lemma JobInLevels(s: Lsm.State)
    requires Sound(s) && s.job.Some?
    ensures var j := s.job.value;
            && j.level + 1 < |s.levels|
            && (forall t :: t in j.pick.inputs ==> t in s.levels[j.level]) && (forall t :: t in j.pick.Chosen() ==> t in s.levels[j.level + 1])
  {
    LsmCompaction.JobTablesIn(s.levels, s.files, s.used, s.job.value);
  }

  lemma OutputsAreNew(s: Lsm.State, a: Lsm.Action)
    requires a.Finish? && Lsm.CanFinish(s, a)
    ensures a.next > 0 && s.job.Some? && |a.outs| == |a.runs| && UniqueFiles(a.outs) && forall t :: t in a.outs ==> t.fileNum !in s.used
  {
  }

  lemma OutputsEncode(env: Env, level: uint32, metas: Level, files: seq<bytes>, runs: seq<seq<Record>>, blocks: seq<Blocks>, filters: seq<FilterData>,
                      m: seq<Record>, bottom: bool, oldest: uint64, all: multiset<Record>)
    requires TablesWritten(env, level, metas, files, runs, blocks, filters) && Flatten(runs) == Collapse(m, bottom, oldest)
    requires WeaklySorted(m) && multiset(m) == all && AllSmall(all)
    ensures forall t :: t in metas ==> Encodable(t)
  {
    hide Collapse, Small, WeaklySorted, Encodable, IsTable, TablesWritten, Flatten, KeysAscend;
    CollapseAscends(m, bottom, oldest);
    OutputsParallel(env, level, metas, files, runs, blocks, filters);
    forall i | 0 <= i < |runs|, r | r in runs[i] ensures Small(r) {
      FlattenMembers(runs, r);
      assert r in m && r in multiset(m);
    }
    forall t | t in metas ensures Encodable(t) {
      var i :| 0 <= i < |metas| && metas[i] == t;
      OutputKeys(env, level, metas, files, runs, blocks, filters, i);
      SmallKeysEncode(t, runs[i]);
    }
  }

  lemma OutputKeys(env: Env, level: uint32, metas: Level, files: seq<bytes>, runs: seq<seq<Record>>, blocks: seq<Blocks>, filters: seq<FilterData>, i: nat)
    requires TablesWritten(env, level, metas, files, runs, blocks, filters) && i < |metas|
    ensures |runs| == |metas| && runs[i] != [] && metas[i].minKey == runs[i][0].key && metas[i].maxKey == runs[i][|runs[i]| - 1].key
  {
    assert IsOutput(env, level, metas[i], files[i], runs[i], blocks[i], filters[i]);
  }

  /** All that the finishing step asks for holds of what MergeTables returns. */
  lemma MergedCanFinish(env: Env, s: Lsm.State, a: Lsm.Action, rests: seq<seq<Record>>, level: uint32,
                        files: seq<bytes>, blocks: seq<Blocks>, filters: seq<FilterData>, fileNum: uint64, num0: uint64, start: uint64, next: uint64)
    requires Sound(s) && a.Finish? && s.job.Some? && level as int == s.job.value.level + 1 < |s.levels| && RunsSmall(s.files)
    requires WeaklySorted(a.m) && multiset(a.m) == Sum(rests) && rests == Contents(s.files, s.job.value.pick.inputs + s.job.value.pick.Chosen())
    requires TablesWritten(env, level, a.outs, files, a.runs, blocks, filters)
    requires Flatten(a.runs) == Collapse(a.m, level as int == |s.levels| - 1, a.oldest)
    requires NumbersTaken(a.outs, fileNum, num0, start, next) && num0 !in s.used && num0 !in Lsm.TaskNums(s.tasks)
    requires s.nextFile == start && a.next == next + 1
    ensures Lsm.CanFinish(s, a) && (forall t :: t in a.outs ==> Encodable(t)) && UniqueFiles(a.outs)
  {
    hide Sound, TablesWritten, NumbersTaken, Collapse, Contents, WeaklySorted, RunsSmall;
    NumbersGrow(a.outs, fileNum, num0, start, next);
    OutputsAre(env, level, a.outs, files, a.runs, blocks, filters, Collapse(a.m, level as int == |s.levels| - 1, a.oldest));
    FinishEnabled(s, a, rests, num0, start);
    SumIsFlatten(rests);
    AllAreSmall(s.files, s.job.value.pick.inputs + s.job.value.pick.Chosen());
    OutputsEncode(env, level, a.outs, files, a.runs, blocks, filters, a.m, level as int == |s.levels| - 1, a.oldest, Sum(rests));
  }

  lemma WrittenNotEmpty(s: Lsm.State, key: bytes, value: bytes, typ: byte)
    requires s.seqNum < MAX_UINT64
    ensures Lsm.Written(s, key, value, typ).mt != []
  {
  }

  lemma ScanIsRight(s: Lsm.State, start: bytes, end: bytes, bound: uint64, out: seq<Record>)
    requires Sound(s) && IsScan(out, LsmScans.ScanBase(s, start, end, bound), bound, end)
    ensures LsmScans.IsRangeScan(out, LsmReads.Seen(s), bound, start, end)
  {
    LsmScans.ScanIsComplete(s, start, end, bound, true, out);
  }

  lemma FinalBooks(out: OutputTables)
    requires out.Books(out.taken, [], out.lastUserKey)
    ensures TablesWritten(out.env, out.level, out.outTables, out.outFiles, out.runs, out.blocks, out.filters)
    ensures Flatten(out.runs) == Collapse(out.taken, out.isBottom, out.oldest)
    ensures NumbersTaken(out.outTables, out.fileNum, out.num0, out.start, out.vs.nextFileNum) && TablesShaped(out.env, out.opts, out.blocks, out.filters)
  {
    assert Flatten(out.runs) + [] == Flatten(out.runs);
  }

  /** Outputs are numbered one after another, and one number more is taken for the edit. */
  ghost predicate OutputsNumbered(a: Lsm.Action, num0: uint64, start: uint64) {
    a.Finish? && a.next as nat == start + |a.outs| + 1 && forall i :: 0 <= i < |a.outs| ==> a.outs[i].fileNum == OutputNumber(i, num0, start)
  }

  lemma NumbersExact(a: Lsm.Action, fileNum: uint64, num0: uint64, start: uint64, next: uint64)
    requires a.Finish? && NumbersTaken(a.outs, fileNum, num0, start, next) && a.next == next + 1
    ensures OutputsNumbered(a, num0, start)
  {
  }

  lemma NumbersGrow(metas: Level, fileNum: uint64, num0: uint64, start: uint64, next: uint64)
    requires NumbersTaken(metas, fileNum, num0, start, next)
    ensures start <= next && UniqueFiles(metas) && forall t :: t in metas ==> (t.fileNum == num0 || start <= t.fileNum) && t.fileNum < next
  {
  }

  ghost predicate RunsSmall(files: Files) {
    forall n :: n in files ==> forall r :: r in files[n] ==> Small(r)
  }

  lemma AllAreSmall(files: Files, tables: Level)
    requires RunsSmall(files)
    ensures AllSmall(multiset(Flatten(Contents(files, tables))))
  {
    forall r | r in Flatten(Contents(files, tables)) ensures Small(r) {
      FlattenMembers(Contents(files, tables), r);
    }
  }

  lemma NoSupport()
    ensures Support(multiset{}) == {}
  {
  }

  lemma MemtablesAreSorted(s: Lsm.State)
    requires Sound(s)
    ensures WeaklySorted(s.mt) && (s.immt.Some? ==> WeaklySorted(s.immt.value))
  {
    LsmReads.MemtablesSorted(s, true);
  }

  lemma FileParses(env: Env, file: bytes, blocks: Blocks, f: FilterData)
    requires IsTable(env, file, blocks, f)
    ensures ParseTable(file).Ok?
  {
    ImageParses(env.crc, blocks, f);
  }

  lemma BlocksOfTable(env: Env, file: bytes, blocks: Blocks, f: FilterData)
    requires IsTable(env, file, blocks, f)
    ensures NonEmptyBlocks(blocks)
  {
  }

  class Engine {
    const env: Env
    const opts: Options
    const cache: BlockCaches.LRU
    const vs: VersionSet
    var mt: Memtable
    var immt: Memtable?
    var tasks: seq<FlushTask>
    var seqNum: uint64
    /** The table files and the log files, by number. */
    var files: map<uint64, bytes>
    var wal: uint64
    var logs: map<uint64, bytes>
    var compactPointer: Pointers

    /** The abstract state; what every table file number has stood for, with the filters; the memtable and its nodes, and the rotated ones and theirs. */
    ghost var abs: Lsm.State
    ghost var catalog: Catalog
    ghost var filters: map<uint64, FilterData>
    ghost var live: set<object>
    ghost var frozen: set<object>

    ghost function Frame(): set<object>
      reads `live, `frozen
    {
      {this, vs, vs.manifest} + live + frozen
    }

    /** The memtable, the rotated ones, the version set and the cache share nothing. */
    ghost predicate Separated()
      reads `live, `frozen
    {
      && this !in {vs, vs.manifest} && {this, vs, vs.manifest} !! live + frozen && live !! frozen
      && cache !in Frame()
    }

    /** The memtable, all within live, holds what the abstract state says. */
    ghost predicate InMemory()
      reads `mt, `live, `abs, live
    {
      MemtableHolds(mt, live, opts, abs.mt)
    }

    ghost predicate Rotated()
      reads `tasks, `immt, `frozen, `abs, frozen
    {
      TasksHold(tasks, immt, frozen, abs.tasks, abs.immt)
    }

    /** The current version, the next file number, and the counters that the manifest last logged. */
    ghost predicate VersionHolds(levels: Levels, nextFile: uint64, lastSeq: uint64, loggedNext: uint64)
      reads vs, vs.manifest
    {
      && vs.Valid() && vs.levels == levels && vs.nextFileNum == nextFile
      && LastLogged(vs.log, SequenceField(), 0) == lastSeq && LastLogged(vs.log, FileNumField(), 0) == loggedNext
    }

    /** The version and the table files are these. */
    ghost predicate TablesHold(levels: Levels, nextFile: uint64, runs: Files, used: set<uint64>, lastSeq: uint64, loggedNext: uint64)
      reads `files, `catalog, `filters, vs, vs.manifest
    {
      && VersionHolds(levels, nextFile, lastSeq, loggedNext)
      && FilesHold(env, files, runs, catalog, filters) && catalog.Keys == used
    }

    ghost predicate OnDisk()
      reads `files, `abs, `catalog, `filters, `logs, `wal, `seqNum, vs, vs.manifest
    {
      && TablesHold(abs.levels, abs.nextFile, abs.files, abs.used, abs.lastSeq, abs.loggedNext)
      && LogsHold(env, logs, abs.logs) && wal == abs.wal && seqNum == abs.seqNum
    }

    /** Everything but the block cache. */
    ghost predicate Core()
      reads this, vs, vs.manifest, live, frozen
    {
      && Separated() && InMemory() && Rotated() && OnDisk()
      && opts.table.filter.WellFormed() && opts.skiplistMaxLevel >= 1
      && Sound(abs)
    }

    ghost predicate Valid()
      reads this, vs, vs.manifest, live, frozen, cache
    {
      Core() && CacheAgrees(cache, env.crc, catalog)
    }

    // ---------- reading ----------

    /** A table that may be read: its file is there, under a name that its number can be read back from, and holds a sorted run. */
    ghost predicate Readable(n: uint64)
      reads this
    {
      && n < NAME_LIMIT && n in files && n in catalog && n in filters && n in abs.files
      && IsTable(env, files[n], catalog[n], filters[n]) && Flatten(catalog[n]) == abs.files[n] && WeaklySorted(abs.files[n])
    }

    /** Every table's number can be read back from its name. */
    ghost predicate NamesFit()
      reads `files
    {
      forall n :: n in files ==> n < NAME_LIMIT
    }

    lemma LevelsReadable(l: nat)
      requires Core() && NamesFit() && l < |vs.levels|
      ensures forall t :: t in vs.levels[l] ==> Readable(t.fileNum)
    {
      hide Separated, InMemory, Rotated, Sound, IsTable, WeaklySorted, VersionSet.Valid, LogsHold;
      forall t | t in vs.levels[l] ensures Readable(t.fileNum) {
        TableDescribed(l, t);
      }
    }

    lemma TableDescribed(l: nat, t: TableMeta)
      requires Sound(abs) && l < |abs.levels| && t in abs.levels[l]
      ensures t.fileNum in abs.files && WeaklySorted(abs.files[t.fileNum])
    {
      assert Describes(t, Run(abs.files, t.fileNum));
    }

    /** getReader: the file opened as a table. */
    method OpenTable(n: uint64) returns (reader: TableReader)
      requires Readable(n)
      ensures fresh(reader) && fresh(reader.filter) && reader.Valid() && reader.Listed(catalog) && GoodBlocks(reader.blocks)
      ensures reader.cache == cache && reader.env == env && reader.Records() == abs.files[n]
    {
      hide IsTable, ParseTable, WeaklySorted;
      TableNumberIff(n);
      var r := TableReader.Open(files[n], TableName(n), cache, env, catalog[n]);
      FileParses(env, files[n], catalog[n], filters[n]);
      reader := r.value;
      reader.OpenedIsValid(filters[n]);
      BlocksOfTable(env, files[n], catalog[n], filters[n]);
    }

    /** checkTable: a newer record found in the table replaces the best so far. */
    method CheckTable(t: TableMeta, lookupKey: InternalKey, best: Option<Record>) returns (better: Option<Record>)
      requires Readable(t.fileNum) && CacheAgrees(cache, env.crc, catalog)
      modifies cache
      ensures CacheAgrees(cache, env.crc, catalog)
      ensures better == LsmReads.Better(best, Find(Run(abs.files, t.fileNum), lookupKey))
    {
      hide IsTable, GoodBlocks, CacheAgrees, Find;
      better := best;
      var reader := OpenTable(t.fileNum);
      var found := reader.Get(lookupKey, catalog);
      var rec := found.value;
      if rec.None? {
        return;
      }
      if best.None? || rec.value.key.seqNum > best.value.key.seqNum {
        better := rec;
      }
    }

    /** Level 0: every table whose range has the key, newest first. */
    method CheckLevel0(tables: Level, lookupKey: InternalKey) returns (best: Option<Record>)
      requires (forall t :: t in tables ==> Readable(t.fileNum)) && CacheAgrees(cache, env.crc, catalog)
      modifies cache
      ensures CacheAgrees(cache, env.crc, catalog)
      ensures best == LsmReads.ScanLevel0(abs.files, tables, lookupKey, None)
    {
      hide CacheAgrees, Find, IsTable, WeaklySorted;
      best := None;
      assert tables[..|tables|] == tables;
      for i := |tables| downto 0
        invariant CacheAgrees(cache, env.crc, catalog)
        invariant LsmReads.ScanLevel0(abs.files, tables[..i], lookupKey, best) == LsmReads.ScanLevel0(abs.files, tables, lookupKey, None)
      {
        var t := tables[i];
        assert tables[..i + 1][..i] == tables[..i] && t in tables;
        if Less(lookupKey.userKey, t.minKey.userKey) || Less(t.maxKey.userKey, lookupKey.userKey) {
          continue;
        }
        best := CheckTable(t, lookupKey, best);
      }
    }

    /** The cache is no part of what the rest of the engine depends on. */
    lemma CacheApart()
      requires Core()
      ensures cache !in {this, vs, vs.manifest} && cache !in live && cache !in frozen
      ensures forall o :: o in {this, vs, vs.manifest} ==> o !in live && o !in frozen
    {
    }

    lemma LevelsExist()
      requires Sound(abs)
      ensures |abs.levels| >= 1
    {
    }

    /** The level loop of get. */
    method SearchTables(lookupKey: InternalKey) returns (best: Option<Record>)
      requires Core() && NamesFit() && CacheAgrees(cache, env.crc, catalog)
      modifies cache
      ensures Core() && CacheAgrees(cache, env.crc, catalog)
      ensures |abs.levels| >= 1
      ensures best == LsmReads.Descend(abs.files, abs.levels, lookupKey, 1, LsmReads.ScanLevel0(abs.files, abs.levels[0], lookupKey, None))
    {
      hide Find, IsTable, Readable, InMemory, Rotated, Sound, VersionSet.Valid, FilesHold, LogsHold, LsmReads.Probed, LsmReads.ScanLevel0;
      LevelsExist();
      CacheApart();
      best := None;
      ghost var k0 := LsmReads.ScanLevel0(abs.files, abs.levels[0], lookupKey, None);
      for level := 0 to |vs.levels|
        invariant Core() && CacheAgrees(cache, env.crc, catalog)
        invariant level == 0 ==> best == None
        invariant level >= 1 ==> LsmReads.Descend(abs.files, abs.levels, lookupKey, level, best) == LsmReads.Descend(abs.files, abs.levels, lookupKey, 1, k0)
      {
        LevelsReadable(level);
        var tables := vs.levels[level];
        if level == 0 {
          best := CheckLevel0(tables, lookupKey);
        } else {
          var idx := SearchLevel(tables, lookupKey);
          if idx >= |tables| {
            continue;
          }
          assert tables[idx] in tables;
          best := CheckTable(tables[idx], lookupKey, best);
          if best.Some? {
            break;
          }
        }
      }
    }

    /** sort.Search over the last keys; an empty level ends at once. */
    method SearchLevel(tables: Level, lookupKey: InternalKey) returns (idx: nat)
      ensures idx == LsmReads.Probed(tables, lookupKey)
    {
      ghost var looked;
      idx, looked := Search(|tables|, AtOrAfter(LsmReads.MaxKeys(tables), lookupKey));
    }

    /** get: the memtables first, then the tables. */
    method Get(key: bytes, bound: uint64) returns (value: bytes, found: bool)
      requires Valid() && NamesFit()
      modifies cache
      ensures Valid()
      ensures |abs.levels| >= 1 && (if found then Some(value) else None) == Visible(LsmReads.Get(abs, LsmGuards.LookupKey(key, bound)))
    {
      hide Find, IsTable, VersionSet.Valid, FilesHold, LogsHold, LsmReads.Descend, LsmReads.ScanLevel0, Memtable.Valid, Sound;
      LevelsExist();
      var lookupKey := LsmGuards.LookupKey(key, bound);
      var val, ok, deleted := mt.Get(key, lookupKey);
      if ok {
        return val, !deleted;
      }
      if immt != null {
        assert TaskHolds(tasks[|tasks| - 1], abs.tasks[|tasks| - 1]);
        val, ok, deleted := immt.Get(key, lookupKey);
        if ok {
          return val, !deleted;
        }
      }
      var best := SearchTables(lookupKey);
      if best.None? || best.value.key.typ == TYPE_DEL {
        return [], false;
      }
      return best.value.value, true;
    }

    // ---------- scanning ----------

    /** What the table iterators of this engine share. */
    ghost function Ctx(): Context
      reads this
    {
      Context(cache, env, catalog)
    }

    /** reader.Iterator() on the table's file. */
    method TableSource(n: uint64) returns (s: Source)
      requires Readable(n) && Agrees(Ctx())
      modifies cache
      ensures fresh(s.Foot()) && fresh(s.Obj()) && s.Tab? && Holds(s, abs.files[n], Ctx()) && s.All(Ctx()) == abs.files[n] && Agrees(Ctx())
    {
      hide IsTable, GoodBlocks, CacheAgrees;
      var reader := OpenTable(n);
      var it := NewIterator(reader, catalog);
      s := Source.Tab(it);
    }

    /** The tables of one level that meet the range, each sought to its start. */
    method AddTables(iters0: seq<Source>, ghost rests0: seq<seq<Record>>, tables: Level, start: bytes, end: bytes, target: InternalKey)
      returns (iters: seq<Source>, ghost rests: seq<seq<Record>>)
      requires (forall t :: t in tables ==> Readable(t.fileNum)) && Ready(iters0, rests0, Ctx()) && Agrees(Ctx())
      modifies cache
      ensures Ready(iters, rests, Ctx()) && Agrees(Ctx()) && (forall o :: o in SourceObjs(iters) ==> o in SourceObjs(iters0) || fresh(o))
      ensures Support(Sum(rests)) == Support(Sum(rests0)) + LsmScans.After(Held(abs.files, Overlapping(tables, start, end)), target)
    {
      hide Readable, Ready, Sum, Support, Source.Foot, Source.All, LsmScans.After, Held, Overlapping;
      iters, rests := iters0, rests0;
      LsmScans.VisitNone(abs.files, tables, start, end, target);
      for i := 0 to |tables|
        invariant Ready(iters, rests, Ctx()) && Agrees(Ctx()) && (forall o :: o in SourceObjs(iters) ==> o in SourceObjs(iters0) || fresh(o))
        invariant Support(Sum(rests)) == Support(Sum(rests0)) + LsmScans.After(Held(abs.files, Overlapping(tables[..i], start, end)), target)
      {
        var t := tables[i];
        assert t in tables;
        LsmScans.VisitMore(abs.files, tables, i, start, end, target);
        if Less(t.maxKey.userKey, start) || Less(end, t.minKey.userKey) {
          continue;
        }
        iters, rests := AddTable(iters, rests, t.fileNum, target);
      }
      assert tables[..|tables|] == tables;
    }

    method AddTable(iters0: seq<Source>, ghost rests0: seq<seq<Record>>, n: uint64, target: InternalKey)
      returns (iters: seq<Source>, ghost rests: seq<seq<Record>>)
      requires Readable(n) && Ready(iters0, rests0, Ctx()) && Agrees(Ctx())
      modifies cache
      ensures Ready(iters, rests, Ctx()) && Agrees(Ctx()) && (forall o :: o in SourceObjs(iters) ==> o in SourceObjs(iters0) || fresh(o))
      ensures Support(Sum(rests)) == Support(Sum(rests0)) + LsmScans.After(Elements(Run(abs.files, n)), target)
    {
      hide IsTable, Sum, Support, Source.Foot, Source.All, LsmScans.After, Elements, WeaklySorted, SourcesFeet, SourceObjs, Holds;
      ghost var feet, objs := SourcesFeet(iters0), SourceObjs(iters0);
      assert allocated(feet) && allocated(objs) && CacheFrame(cache) !! feet;
      hide Ready;
      var s := TableSource(n);
      assert unchanged(feet);
      HoldsIsGood(s, abs.files[n], Ctx());
      iters, rests := AddSought(iters0, rests0, s, target, Ctx());
      FeetMore(iters0, s);
      LsmScans.TailIs(abs.files[n], target);
      SumMore(rests0, rests[|rests0|]);
    }

    /** mt.Iterator(). */
    method MemtableSource(m: Memtable) returns (s: Source)
      requires m.Valid()
      ensures fresh(s.Obj()) && s.Foot() <= {s.Obj()} + m.Repr() && s.Good(Ctx()) && s.All(Ctx()) == m.Records()
    {
      hide Memtable.Valid;
      var it := m.Iterator();
      s := Source.Mem(it);
    }

    /** A memtable's iterator, sought to the start of the range. */
    method AddMemtable(iters0: seq<Source>, ghost rests0: seq<seq<Record>>, m: Memtable, target: InternalKey)
      returns (iters: seq<Source>, ghost rests: seq<seq<Record>>)
      requires m.Valid() && cache !in m.Repr() && WeaklySorted(m.Records())
      requires Ready(iters0, rests0, Ctx()) && Agrees(Ctx()) && SourceObjs(iters0) !! m.Repr()
      modifies cache
      ensures Ready(iters, rests, Ctx()) && Agrees(Ctx()) && (forall o :: o in SourceObjs(iters) ==> o in SourceObjs(iters0) || fresh(o))
      ensures Support(Sum(rests)) == Support(Sum(rests0)) + LsmScans.After(Elements(m.Records()), target)
    {
      hide Sum, Support, Source.Foot, Source.Good, Source.All, LsmScans.After, Elements, WeaklySorted, SourcesFeet, SourceObjs,
           Memtable.Valid, Memtable.Repr;
      ghost var feet, objs := SourcesFeet(iters0), SourceObjs(iters0);
      assert allocated(feet) && allocated(objs) && CacheFrame(cache) !! feet;
      hide Ready;
      ghost var all := m.Records();
      var s := MemtableSource(m);
      assert unchanged(feet);
      iters, rests := AddSought(iters0, rests0, s, target, Ctx());
      FeetMore(iters0, s);
      LsmScans.TailIs(all, target);
      SumMore(rests0, rests[|rests0|]);
    }

    /** The memtables' part of a scan. */
    method MemtableSources(target: InternalKey) returns (iters: seq<Source>, ghost rests: seq<seq<Record>>)
      requires Core() && Agrees(Ctx())
      modifies cache
      ensures Ready(iters, rests, Ctx()) && Agrees(Ctx()) && fresh(SourceObjs(iters))
      ensures Support(Sum(rests)) == LsmScans.After(Elements(abs.mt) + LsmReads.Immutable(abs), target)
    {
      hide Ready, Agrees, Sum, Support, Source.Foot, Elements, WeaklySorted, SourcesFeet, SourceObjs, Memtable.Valid, Sound, OnDisk;
      NoneReady(Ctx());
      MemtablesAreSorted(abs);
      LsmScans.AfterUnion(Elements(abs.mt), LsmReads.Immutable(abs), target);
      LsmScans.AfterUnion(Elements(abs.mt), {}, target);
      NoSupport();
      iters, rests := AddMemtable([], [], mt, target);
      if immt != null {
        assert TaskHolds(tasks[|tasks| - 1], abs.tasks[|tasks| - 1]);
        iters, rests := AddMemtable(iters, rests, immt, target);
      }
    }

    method AllSources(start: bytes, end: bytes, target: InternalKey) returns (iters: seq<Source>, ghost rests: seq<seq<Record>>)
      requires Core() && NamesFit() && Agrees(Ctx())
      modifies cache
      ensures Core() && Ready(iters, rests, Ctx()) && Agrees(Ctx()) && fresh(SourceObjs(iters))
      ensures Support(Sum(rests)) == LsmScans.After(
          Elements(abs.mt) + LsmReads.Immutable(abs) + LsmReads.HeldIn(abs.files, LsmScans.Visited(abs.levels, start, end), 0, |abs.levels|), target)
    {
      hide Ready, Sum, Support, Source.Foot, Elements, WeaklySorted, SourcesFeet, SourceObjs, Sound, InMemory, Rotated, Readable,
           LsmScans.After, LsmScans.Visited, LsmReads.HeldIn, LsmReads.Immutable, VersionSet.Valid, FilesHold, LogsHold;
      CacheApart();
      iters, rests := MemtableSources(target);
      ghost var visited := LsmScans.Visited(abs.levels, start, end);
      ghost var inMemory := Elements(abs.mt) + LsmReads.Immutable(abs);
      LsmScans.AfterNone(abs.files, visited, inMemory, target);
      for level := 0 to |vs.levels|
        invariant Core() && Ready(iters, rests, Ctx()) && Agrees(Ctx()) && fresh(SourceObjs(iters))
        invariant Support(Sum(rests)) == LsmScans.After(inMemory + LsmReads.HeldIn(abs.files, visited, 0, level), target)
      {
        LevelsReadable(level);
        iters, rests := AddTables(iters, rests, vs.levels[level], start, end, target);
        LsmScans.AfterLevel(abs.files, visited, inMemory, level, target);
      }
    }

    /** scan: an iterator over everything in the range, positioned on its first visible key. */
    method Scan(start: bytes, end: bytes, bound: uint64) returns (s: ScanIterator)
      requires Valid() && NamesFit()
      modifies cache
      ensures Valid()
      ensures fresh(s) && fresh(s.heap) && fresh(Objs(s.heap.items)) && s.heap.ctx == Ctx() && s.Valid() && s.emitted == With([], s.current)
      ensures s.all == LsmScans.ScanBase(abs, start, end, bound) && s.seqNum == bound && s.end == end
    {
      hide Ready, Sum, Support, Source.Foot, Elements, WeaklySorted, SourcesFeet, SourceObjs, Sound, ScanIterator.Valid, InMemory,
           Rotated, OnDisk, Readable;
      CacheApart();
      LevelsExist();
      var target := LsmGuards.LookupKey(start, bound);
      var iters, rests := AllSources(start, end, target);
      ScanIsCoherent(abs, start, end, bound);
      s := NewScanIterator(iters, rests, end, bound, Ctx());
      CacheStillAgrees(s);
    }

    /** What a caller of Scan collects: every visible key of the range, once, in order, whether or not the levels are sorted. */
    method Collect(start: bytes, end: bytes, bound: uint64) returns (out: seq<Record>)
      requires Valid() && NamesFit()
      modifies cache
      ensures Valid() && LsmScans.IsRangeScan(out, LsmReads.Seen(abs), bound, start, end)
    {
      hide Sound, ScanIterator.Valid, InMemory, Rotated, OnDisk, IsScan, LsmScans.IsRangeScan, LsmScans.ScanBase, LsmReads.Seen, Objs, Feet;
      CacheApart();
      var s := Scan(start, end, bound);
      out := Drain(s);
      CacheStillAgrees(s);
      ScanIsRight(abs, start, end, bound, out);
    }

    // ---------- writing ----------

    /** wal.Append: the record's frame goes to the end of the log. */
    method AppendLog(r: Record)
      requires LogsHold(env, logs, abs.logs) && wal in logs && r.Fits()
      modifies this`logs
      ensures LogsHold(env, logs, abs.logs[wal := Run(abs.logs, wal) + [r]])
    {
      hide Wals.EncodedRecords;
      var b := Wals.EncodeRecords(env.crc, [r]);
      Wals.EncodedRecordsConcat(env.crc, abs.logs[wal], [r]);
      logs := logs[wal := logs[wal] + b];
    }

    lemma LogIsOpen()
      requires Sound(abs) && OnDisk()
      ensures wal in logs
    {
    }

    /** The first part of write: the record is logged, then put into the memtable. */
    method AppendAndPut(key: bytes, value: bytes, typ: byte, lvl: nat)
      requires Valid() && seqNum < MAX_UINT64 && 1 <= lvl <= opts.skiplistMaxLevel
      requires |key| + |value| + 17 < 0x1_0000_0000 && (key == [] ==> typ == TYPE_DEL)
      modifies this`seqNum, this`logs, this`abs, this`live, live
      ensures Valid() && abs == Lsm.Written(old(abs), key, value, typ) && fresh(live - old(live))
    {
      hide Separated, InMemory, Rotated, OnDisk, Sound, Lsm.Written;
      CacheApart();
      LogAndPut(key, value, typ, lvl);
    }

    method LogAndPut(key: bytes, value: bytes, typ: byte, lvl: nat)
      requires Separated() && InMemory() && Rotated() && OnDisk() && Sound(abs) && seqNum < MAX_UINT64 && 1 <= lvl <= opts.skiplistMaxLevel
      requires |key| + |value| + 17 < 0x1_0000_0000 && (key == [] ==> typ == TYPE_DEL)
      modifies this`seqNum, this`logs, this`abs, this`live, live
      ensures Separated() && InMemory() && Rotated() && OnDisk() && Sound(abs) && old(abs).seqNum < MAX_UINT64
      ensures abs == Lsm.Written(old(abs), key, value, typ) && fresh(live - old(live))
    {
      hide TablesHold, LogsHold, MemtableHolds, TasksHold, Insert, Sound, Run, Lsm.Written;
      LogIsOpen();
      WriteIsSound(abs, key, value, typ);
      WrittenParts(abs, key, value, typ);
      seqNum := seqNum + 1;
      var r := Record(InternalKey(key, seqNum, typ), value);
      AppendLog(r);
      PutRecord(r, lvl);
      abs := Lsm.Written(abs, key, value, typ);
    }

    /** e.mt.Put: nothing but the memtable is touched. */
    method PutRecord(r: Record, lvl: nat)
      requires Separated() && InMemory() && Rotated() && 1 <= lvl <= opts.skiplistMaxLevel
      modifies this`live, live
      ensures Separated() && Rotated() && MemtableHolds(mt, live, opts, Insert(old(abs.mt), r))
      ensures fresh(live - old(live))
    {
      hide Memtable.Valid, Insert, TaskHolds;
      assert allocated(frozen);
      mt.Put(r, lvl);
      assert unchanged(frozen);
      live := live + mt.Repr();
    }

    // ---------- rotation ----------

    /** A new log is opened under the next number, and the manifest told so; the table to be has the number after it. */
    method NewLog() returns (logNum: uint64, fileNum: uint64)
      requires Separated() && OnDisk() && Sound(abs) && vs.nextFileNum as int + 2 < MAX_UINT64 as int
      modifies this`wal, this`logs, vs, vs.manifest
      ensures logNum == old(vs.nextFileNum) && fileNum == logNum + 1 && wal == logNum && vs.log == old(vs.log) + [LogEdit(logNum)]
      ensures TablesHold(abs.levels, logNum + 2, abs.files, abs.used, abs.lastSeq, abs.loggedNext) && LogsHold(env, logs, abs.logs[logNum := []])
    {
      hide LogsHold, FilesHold, VersionSet.Valid, FitsLevels;
      logNum := vs.NextFileNum();
      EmptyLog(env, logs, abs.logs, logNum);
      logs := logs[logNum := []];
      wal := logNum;
      var edit := LogEdit(logNum);
      CountersFit(abs, edit);
      LoggedMore(vs.log, edit);
      vs.LogAndApply(edit);
      fileNum := vs.NextFileNum();
    }

    /** The full memtable joins the flush channel and a new one takes its place. */
    method SwapMemtables(fileNum: uint64, oldWal: uint64)
      requires Separated() && InMemory() && Rotated() && opts.skiplistMaxLevel >= 1
      modifies this`mt, this`immt, this`tasks, this`live, this`frozen
      ensures Separated() && MemtableHolds(mt, live, opts, []) && fresh(live)
      ensures TasksHold(tasks, immt, frozen, abs.tasks + [Lsm.Task(abs.mt, fileNum, oldWal)], Some(abs.mt))
    {
      hide Memtable.Valid, TasksHold;
      assert allocated(frozen) && allocated(live);
      immt := mt;
      mt := new Memtable(opts.memtableSize, opts.skiplistMaxLevel);
      assert unchanged(old(frozen)) && unchanged(old(live));
      TasksMore(tasks, old(immt), frozen, abs.tasks, abs.immt, FlushTask(immt, fileNum, oldWal), live, Lsm.Task(abs.mt, fileNum, oldWal));
      tasks := tasks + [FlushTask(immt, fileNum, oldWal)];
      frozen := frozen + live;
      live := mt.Repr();
    }

    method Rotate()
      requires Valid() && Lsm.CanRotate(abs)
      modifies this`mt, this`immt, this`tasks, this`wal, this`logs, this`abs, this`live, this`frozen, vs, vs.manifest
      ensures Valid() && abs == Lsm.Rotated(old(abs)) && fresh(live) && vs.log == old(vs.log) + [LogEdit(old(abs).nextFile)]
    {
      hide Separated, InMemory, Rotated, OnDisk, Sound, Lsm.Rotated, Lsm.CanRotate;
      CacheApart();
      SwitchMemtableAndLog();
    }

    method SwitchMemtableAndLog()
      requires Separated() && InMemory() && Rotated() && OnDisk() && Sound(abs) && opts.skiplistMaxLevel >= 1 && Lsm.CanRotate(abs)
      modifies this`mt, this`immt, this`tasks, this`wal, this`logs, this`abs, this`live, this`frozen, vs, vs.manifest
      ensures Separated() && InMemory() && Rotated() && OnDisk() && Sound(abs) && abs == Lsm.Rotated(old(abs)) && fresh(live)
      ensures vs.log == old(vs.log) + [LogEdit(old(abs).nextFile)]
    {
      hide LogsHold, TablesHold, MemtableHolds, TasksHold, Sound, Lsm.Rotated, Lsm.CanRotate;
      RotateIsSound(abs);
      RotatedParts(abs);
      VersionIs();
      var oldWal := wal;
      var logNum, fileNum := NewLog();
      SwapMemtables(fileNum, oldWal);
      abs := Lsm.Rotated(abs);
    }

    // ---------- write ----------

    /** Whether the memtable has reached its size. */
    method MemtableFull() returns (full: bool)
      requires InMemory()
      ensures full == (SumSizes(abs.mt) >= opts.memtableSize)
    {
      full := mt.IsFull();
    }

    /** What a write leaves of s and of the manifest's edits: the write step, and behind it a rotation exactly when the memtable has reached its size. */
    ghost predicate TookWrite(s: Lsm.State, log: seq<VersionEdit>, key: bytes, value: bytes, typ: byte, after: Lsm.State, log': seq<VersionEdit>) {
      s.seqNum < MAX_UINT64 &&
      var w := Lsm.Written(s, key, value, typ);
        if SumSizes(w.mt) >= opts.memtableSize then Lsm.CanRotate(w) && after == Lsm.Rotated(w) && log' == log + [LogEdit(w.nextFile)]
        else after == w && log' == log
    }

    /** write: one atomic step, with a rotation at its end when it fills the memtable. */
    method Write(key: bytes, value: bytes, typ: byte, lvl: nat)
      requires Valid() && seqNum < MAX_UINT64 && 1 <= lvl <= opts.skiplistMaxLevel && vs.nextFileNum as int + 2 < MAX_UINT64 as int
      requires |key| + |value| + 17 < 0x1_0000_0000 && (key == [] ==> typ == TYPE_DEL)
      modifies this, live, vs, vs.manifest
      ensures Valid() && TookWrite(old(abs), old(vs.log), key, value, typ, abs, vs.log)
    {
      hide LogsHold, FilesHold, VersionSet.Valid, MemtableHolds, TasksHold, Sound, Insert;
      WrittenNotEmpty(abs, key, value, typ);
      AppendAndPut(key, value, typ, lvl);
      var full := MemtableFull();
      if full {
        Rotate();
      }
    }

    /** Put refuses an empty key or value and leaves the engine as it is. */
    method Put(key: bytes, value: bytes, lvl: nat) returns (ok: bool)
      requires Valid() && seqNum < MAX_UINT64 && 1 <= lvl <= opts.skiplistMaxLevel && vs.nextFileNum as int + 2 < MAX_UINT64 as int
      requires |key| + |value| + 17 < 0x1_0000_0000
      modifies this, live, vs, vs.manifest
      ensures Valid() && ok == (key != [] && value != [])
      ensures if ok then TookWrite(old(abs), old(vs.log), key, value, TYPE_PUT, abs, vs.log) else unchanged(this) && unchanged(vs) && unchanged(old(live))
      ensures Lsm.Step(old(abs), Lsm.Put(key, value), if ok then Lsm.Written(old(abs), key, value, TYPE_PUT) else abs)
    {
      hide LogsHold, FilesHold, VersionSet.Valid, MemtableHolds, TasksHold, Sound, Insert, TookWrite;
      ok := key != [] && value != [];
      if !ok {
        return;
      }
      Write(key, value, TYPE_PUT, lvl);
    }

    method Delete(key: bytes, lvl: nat)
      requires Valid() && seqNum < MAX_UINT64 && 1 <= lvl <= opts.skiplistMaxLevel && vs.nextFileNum as int + 2 < MAX_UINT64 as int
      requires |key| + 17 < 0x1_0000_0000
      modifies this, live, vs, vs.manifest
      ensures Valid() && TookWrite(old(abs), old(vs.log), key, [], TYPE_DEL, abs, vs.log)
      ensures Lsm.Step(old(abs), Lsm.Delete(key), Lsm.Written(old(abs), key, [], TYPE_DEL))
    {
      hide LogsHold, FilesHold, VersionSet.Valid, MemtableHolds, TasksHold, Sound, Insert, TookWrite;
      Write(key, [], TYPE_DEL, lvl);
    }

    // ---------- flush ----------

    /** The edit for a flushed memtable reaches the manifest and the version. */
    method LogFlush(t: FlushTask, size: nat, firstKey: InternalKey, lastKey: InternalKey)
      requires Separated() && OnDisk() && Sound(abs) && vs.nextFileNum < MAX_UINT64
      requires abs.tasks != [] && t.fileNum == abs.tasks[0].fileNum && abs.tasks[0].run != [] && SmallRun(abs.tasks[0].run)
      requires var run := abs.tasks[0].run; firstKey == run[0].key && lastKey == run[|run| - 1].key
      modifies vs, vs.manifest
      ensures Lsm.CanFlush(abs)
      ensures var s := Lsm.Flushed(abs, Low64(size)); VersionHolds(s.levels, s.nextFile, s.lastSeq, s.loggedNext)
      ensures vs.log == old(vs.log) + [Lsm.FlushEdit(abs, Low64(size))]
    {
      hide LogsHold, FilesHold, VersionSet.Valid, FitsLevels, Applied;
      LevelsExist();
      var nextFileNum := vs.NextFileNum();
      var edit := VersionEdit([TableMeta(t.fileNum, Low64(size), 0, firstKey, lastKey)], [], Some(lastKey.seqNum), Some(nextFileNum), None);
      FlushFits(abs, Low64(size));
      assert edit == Lsm.FlushEdit(abs, Low64(size));
      LoggedMore(vs.log, edit);
      vs.LogAndApply(edit);
    }

    /** The file of that number has the size given, and is what the engine's options make of its records. */
    ghost predicate BuiltAs(n: uint64, size: uint64)
      reads `files, `catalog, `filters
    {
      && n in files && n in catalog && n in filters
      && size == Low64(|files[n]|) && Shaped(env, opts.table, catalog[n], filters[n])
    }

    /** A finished file under a number that never had one. */
    method InstallTable(n: uint64, file: bytes, ghost blocks: Blocks, ghost f: FilterData, ghost runs: Files)
      requires FilesHold(env, files, runs, catalog, filters) && n !in catalog
      requires IsTable(env, file, blocks, f) && CacheAgrees(cache, env.crc, catalog)
      modifies this`files, this`catalog, this`filters
      ensures FilesHold(env, files, runs[n := Flatten(blocks)], catalog, filters) && CacheAgrees(cache, env.crc, catalog)
      ensures catalog.Keys == old(catalog.Keys) + {n}
      ensures files == old(files)[n := file] && catalog == old(catalog)[n := blocks] && filters == old(filters)[n := f]
    {
      hide IsTable;
      CatalogGrows(cache, env.crc, catalog, n, blocks);
      files := files[n := file];
      catalog, filters := catalog[n := blocks], filters[n := f];
    }

    /** The task is done with: its log goes, and there is no immutable memtable any more. */
    method DropTask(ghost size: uint64)
      requires Separated() && InMemory() && Rotated() && LogsHold(env, logs, abs.logs) && tasks != [] && Lsm.CanFlush(abs)
      requires var s := Lsm.Flushed(abs, size); TablesHold(s.levels, s.nextFile, s.files, s.used, s.lastSeq, s.loggedNext) && wal == abs.wal && seqNum == abs.seqNum
      modifies this`immt, this`tasks, this`logs, this`abs
      ensures abs == Lsm.Flushed(old(abs), size) && Separated() && InMemory() && Rotated() && OnDisk()
    {
      hide LogsHold, MemtableHolds, TasksHold, Applied, TablesHold;
      FlushedParts(abs, size);
      TasksRest(tasks, immt, frozen, abs.tasks, abs.immt);
      LogsRest(env, logs, abs.logs, tasks[0].wal);
      logs := logs - {tasks[0].wal};
      immt := null;
      tasks := tasks[1..];
      abs := Lsm.Flushed(abs, size);
    }

    /** What WriteMemtable needs to know of the oldest task. */
    lemma OldestTask()
      requires Rotated() && tasks != []
      ensures abs.tasks != [] && tasks[0].mt.Valid() && tasks[0].mt.Records() == abs.tasks[0].run
      ensures tasks[0].fileNum == abs.tasks[0].fileNum && tasks[0].wal == abs.tasks[0].wal
    {
      assert TaskHolds(tasks[0], abs.tasks[0]);
    }

    lemma FlushIsPossible(s: Lsm.State)
      requires Sound(s) && s.tasks != [] && s.tasks[0].run != [] && s.nextFile < MAX_UINT64
      ensures Lsm.CanFlush(s)
    {
    }

    /** The version and the files, with the table of the oldest task in them. */
    method AddFlushedTable(t: FlushTask, file: bytes, firstKey: InternalKey, lastKey: InternalKey, ghost blocks: Blocks, ghost f: FilterData)
      requires Separated() && OnDisk() && Sound(abs) && CacheAgrees(cache, env.crc, catalog) && vs.nextFileNum < MAX_UINT64
      requires abs.tasks != [] && t.fileNum == abs.tasks[0].fileNum && SmallRun(abs.tasks[0].run)
      requires var run := abs.tasks[0].run; run != [] && firstKey == run[0].key && lastKey == run[|run| - 1].key
      requires IsTable(env, file, blocks, f) && Shaped(env, opts.table, blocks, f) && Flatten(blocks) == abs.tasks[0].run
      modifies this`files, this`catalog, this`filters, vs, vs.manifest
      ensures Lsm.CanFlush(abs)
      ensures var s := Lsm.Flushed(abs, Low64(|file|)); TablesHold(s.levels, s.nextFile, s.files, s.used, s.lastSeq, s.loggedNext)
      ensures CacheAgrees(cache, env.crc, catalog) && BuiltAs(t.fileNum, Low64(|file|)) && vs.log == old(vs.log) + [Lsm.FlushEdit(abs, Low64(|file|))]
    {
      hide LogsHold, FilesHold, VersionSet.Valid, Sound, IsTable, Shaped, SmallRun, Flatten, Lsm.Flushed, Lsm.CanFlush;
      LogFlush(t, |file|, firstKey, lastKey);
      FlushIsSound(abs, Low64(|file|));
      FlushedParts(abs, Low64(|file|));
      InstallTable(t.fileNum, file, blocks, f, abs.files);
    }

    /** The finished file of the oldest task becomes a table of level 0. */
    method CommitFlush(file: bytes, firstKey: InternalKey, lastKey: InternalKey, ghost blocks: Blocks, ghost f: FilterData)
      requires Separated() && InMemory() && Rotated() && OnDisk() && Sound(abs) && CacheAgrees(cache, env.crc, catalog)
      requires tasks != [] && vs.nextFileNum < MAX_UINT64 && abs.tasks != [] && SmallRun(abs.tasks[0].run)
      requires var run := abs.tasks[0].run; run != [] && firstKey == run[0].key && lastKey == run[|run| - 1].key
      requires IsTable(env, file, blocks, f) && Shaped(env, opts.table, blocks, f) && Flatten(blocks) == abs.tasks[0].run
      modifies this`immt, this`tasks, this`files, this`logs, this`abs, this`catalog, this`filters, vs, vs.manifest
      ensures Lsm.CanFlush(old(abs)) && abs == Lsm.Flushed(old(abs), Low64(|file|)) && BuiltAs(old(abs).tasks[0].fileNum, Low64(|file|))
      ensures vs.log == old(vs.log) + [Lsm.FlushEdit(old(abs), Low64(|file|))]
      ensures Separated() && InMemory() && Rotated() && OnDisk() && Sound(abs) && CacheAgrees(cache, env.crc, catalog)
    {
      hide LogsHold, TablesHold, MemtableHolds, TasksHold, Sound, IsTable, Shaped, SmallRun, Flatten, Lsm.Flushed, Lsm.CanFlush, BuiltAs, Low64;
      OldestTask();
      VersionIs();
      FlushIsPossible(abs);
      FlushIsSound(abs, Low64(|file|));
      AddFlushedTable(tasks[0], file, firstKey, lastKey, blocks, f);
      DropTask(Low64(|file|));
    }

    lemma OldestRun(s: Lsm.State)
      requires Sound(s) && s.tasks != []
      ensures s.tasks[0].run != []
    {
      assert s.tasks[0] in s.tasks;
    }

    /** flush, of the oldest task; a rotated memtable is never empty, so there is always a table to make. */
    method Flush() returns (ghost size: uint64)
      requires Valid() && tasks != [] && vs.nextFileNum < MAX_UINT64 && SmallRun(abs.tasks[0].run)
      modifies this`immt, this`tasks, this`files, this`logs, this`abs, this`catalog, this`filters, vs, vs.manifest
      ensures Lsm.CanFlush(old(abs)) && Valid() && abs == Lsm.Flushed(old(abs), size) && BuiltAs(old(abs).tasks[0].fileNum, size)
      ensures vs.log == old(vs.log) + [Lsm.FlushEdit(old(abs), size)]
    {
      hide LogsHold, FilesHold, VersionSet.Valid, MemtableHolds, TasksHold, Sound, IsTable, Shaped;
      OldestTask();
      OldestRun(abs);
      var hasData, file, firstKey, lastKey, blocks, f := WriteMemtable(tasks[0].mt, opts.table, env);
      size := Low64(|file|);
      if !hasData {
        assert false;
      }
      CommitFlush(file, firstKey, lastKey, blocks, f);
    }

    // ---------- compaction ----------

    /** One iterator over each table that is merged. */
    method OpenAll(tables: Level) returns (iters: seq<Source>, ghost rests: seq<seq<Record>>)
      requires (forall t :: t in tables ==> Readable(t.fileNum)) && Agrees(Ctx())
      modifies cache
      ensures Ready(iters, rests, Ctx()) && Agrees(Ctx()) && fresh(SourceObjs(iters)) && fresh(SourcesFeet(iters))
      ensures rests == Contents(abs.files, tables)
    {
      hide Readable, Ready, Source.Foot, Source.All, CacheAgrees, SourceObjs, SourcesFeet;
      NoneReady(Ctx());
      iters, rests := [], [];
      for i := 0 to |tables|
        invariant Ready(iters, rests, Ctx()) && Agrees(Ctx()) && fresh(SourceObjs(iters)) && fresh(SourcesFeet(iters))
        invariant rests == Contents(abs.files, tables[..i])
      {
        assert tables[i] in tables;
        assert tables[..i + 1] == tables[..i] + [tables[i]];
        iters, rests := OpenOne(iters, rests, tables[i].fileNum);
      }
      assert tables[..|tables|] == tables;
    }

    method OpenOne(iters0: seq<Source>, ghost rests0: seq<seq<Record>>, n: uint64) returns (iters: seq<Source>, ghost rests: seq<seq<Record>>)
      requires Readable(n) && Ready(iters0, rests0, Ctx()) && Agrees(Ctx())
      modifies cache
      ensures Ready(iters, rests, Ctx()) && Agrees(Ctx()) && rests == rests0 + [Run(abs.files, n)]
      ensures forall o :: o in SourceObjs(iters) ==> o in SourceObjs(iters0) || fresh(o)
      ensures forall o :: o in SourcesFeet(iters) ==> o in SourcesFeet(iters0) || fresh(o)
    {
      hide IsTable, Source.Foot, Source.All, SourcesFeet, SourceObjs, Holds, WeaklySorted;
      ghost var feet, objs := SourcesFeet(iters0), SourceObjs(iters0);
      assert allocated(feet) && allocated(objs) && CacheFrame(cache) !! feet;
      hide Ready;
      var s := TableSource(n);
      assert unchanged(feet);
      ReadyMore(iters0, rests0, s, abs.files[n], Ctx());
      FeetMore(iters0, s);
      iters, rests := iters0 + [s], rests0 + [abs.files[n]];
    }

    function Pointer(level: nat): bytes
      reads this
    {
      PointerOf(compactPointer, level)
    }

    /** The tables to compact from a level, and their number: all of level 0, or a stretch of a deeper level. */
    method PickInputs(level: nat) returns (inputs: Level, ghost from: nat, ghost to: nat)
      requires level < |vs.levels|
      ensures from <= to <= |vs.levels[level]| && inputs == vs.levels[level][from..to]
      ensures PicksEnough(vs.levels[level], Pointer(level), opts.limits.maxBytesBase, opts.limits.levelMultiplier, level, from, to)
    {
      var tables := vs.levels[level];
      var size, capacity := 0, 0;
      if level > 0 {
        size := LevelSize(tables);
        capacity := LevelCapacity(opts.limits.maxBytesBase, opts.limits.levelMultiplier, level);
      }
      inputs, from, to := PickCompactionInputs(level, tables, Pointer(level), size, capacity);
    }

    /** The tables to merge, their key range, and how far the pointer of the level moves. */
    method ChooseTables(level: nat) returns (inputs: Level, overlapping: Level, minKey: bytes, maxKey: bytes, ghost from: nat, ghost to: nat)
      requires level + 1 < |vs.levels|
      modifies this`compactPointer
      ensures from <= to <= |vs.levels[level]| && inputs == vs.levels[level][from..to]
      ensures PicksEnough(vs.levels[level], old(Pointer(level)), opts.limits.maxBytesBase, opts.limits.levelMultiplier, level, from, to)
      ensures overlapping == Overlapping(vs.levels[level + 1], minKey, maxKey)
      ensures if inputs == [] then minKey == maxKey == [] else IsRange(inputs, minKey, maxKey)
      ensures PointerMoves(level, inputs, old(compactPointer), compactPointer)
    {
      hide IsRange, Overlapping, PicksEnough;
      inputs, from, to := PickInputs(level);
      minKey, maxKey := KeyRangeOf(inputs);
      if level > 0 && |inputs| > 0 {
        compactPointer := compactPointer[level := Pointer(level) + inputs[|inputs| - 1].maxKey.userKey];
      }
      overlapping := FindOverlapping(vs.levels[level + 1], minKey, maxKey);
    }

    /** The first half of a compaction: inputs are picked, the tables they overlap are found, and the first output gets its number. */
    method StartCompaction(level: nat) returns (inputs: Level, overlapping: Level, outFileNum: uint64, ghost a: Lsm.Action)
      requires Valid() && abs.job == None && level + 1 < |vs.levels| && vs.nextFileNum < MAX_UINT64
      modifies vs`nextFileNum, this`compactPointer, this`abs
      ensures Valid() && a.Start? && a.level == level && Lsm.CanStart(old(abs), a) && Lsm.Picked(old(abs), a).Spans() && abs == Lsm.Started(old(abs), a)
      ensures inputs == Lsm.Picked(old(abs), a).inputs && overlapping == Lsm.Picked(old(abs), a).Chosen() && outFileNum == old(vs.nextFileNum)
      ensures PointerMoves(level, inputs, old(compactPointer), compactPointer)
      ensures PicksEnough(old(abs).levels[level], old(Pointer(level)), opts.limits.maxBytesBase, opts.limits.levelMultiplier, level, a.from, a.to)
    {
      hide LogsHold, TablesHold, MemtableHolds, TasksHold, Sound, Separated, Lsm.CanStart, Lsm.Picked, Lsm.Started, Pick.Spans,
           Pick.Chosen, PointerMoves, PicksEnough;
      CacheApart();
      VersionIs();
      inputs, overlapping, outFileNum, a := TakeTables(level);
      StartIsSound(abs, a);
      StartedParts(abs, a);
      NextTaken(old(vs.nextFileNum));
      abs := Lsm.Started(abs, a);
    }

    /** scheduleCompaction: the first level that is due is compacted, with the pick behind its pointer; if none is, nothing happens. */
    method ScheduleCompaction() returns (level: Option<nat>, inputs: Level, overlapping: Level, outFileNum: uint64, ghost a: Lsm.Action)
      requires Valid() && abs.job == None && |vs.levels| >= 2 && vs.nextFileNum < MAX_UINT64
      modifies vs`nextFileNum, this`compactPointer, this`abs
      ensures Valid() && IsScheduled(old(abs).levels, opts.limits, level)
      ensures level == None ==> unchanged(this) && unchanged(vs)
      ensures level.Some? ==>
          && a.Start? && a.level == level.value && Lsm.CanStart(old(abs), a) && outFileNum == old(vs.nextFileNum)
          && inputs == Lsm.Picked(old(abs), a).inputs && overlapping == Lsm.Picked(old(abs), a).Chosen()
          && ScheduledStep(opts.limits, old(abs), old(compactPointer), a, abs, compactPointer)
    {
      hide Engine.Core, CacheAgrees, Due, PicksEnough, PointerMoves, Sound;
      LevelsAre();
      level := Schedule(vs.levels, opts.limits);
      if level.None? {
        inputs, overlapping, outFileNum, a := [], [], 0, Lsm.Rotate;
        return;
      }
      DueHasNext(vs.levels, opts.limits, level.value);
      inputs, overlapping, outFileNum, a := StartCompaction(level.value);
    }

    lemma LevelsAre()
      requires Valid()
      ensures vs.levels == abs.levels
    {
      hide Sound, CacheAgrees, FilesHold, LogsHold, VersionSet.Valid, MemtableHolds, TasksHold;
    }

    lemma VersionIs()
      requires OnDisk()
      ensures vs.levels == abs.levels && vs.nextFileNum == abs.nextFile
    {
    }

    /** A number has been taken, and nothing else changed. */
    twostate lemma NextTaken(n: uint64)
      requires old(TablesHold(abs.levels, n, abs.files, abs.used, abs.lastSeq, abs.loggedNext)) && n < MAX_UINT64
      requires vs.nextFileNum == n + 1 && abs == old(abs) && unchanged(this`files, this`catalog, this`filters, vs`levels, vs`log, vs.manifest)
      ensures TablesHold(abs.levels, n + 1, abs.files, abs.used, abs.lastSeq, abs.loggedNext)
    {
      hide FilesHold, LastLogged;
    }

    /** What is to be merged, as a step of the abstract state, and the number of the first output. */
    method TakeTables(level: nat) returns (inputs: Level, overlapping: Level, outFileNum: uint64, ghost a: Lsm.Action)
      requires abs.job == None && level + 1 < |vs.levels| && vs.nextFileNum < MAX_UINT64 && vs.levels == abs.levels && vs.nextFileNum == abs.nextFile
      requires this != vs as object
      modifies vs`nextFileNum, this`compactPointer
      ensures a.Start? && a.level == level && Lsm.CanStart(abs, a) && Lsm.Picked(abs, a).Spans()
      ensures inputs == Lsm.Picked(abs, a).inputs && overlapping == Lsm.Picked(abs, a).Chosen()
      ensures outFileNum == old(vs.nextFileNum) && vs.nextFileNum == outFileNum + 1
      ensures PointerMoves(level, inputs, old(compactPointer), compactPointer)
      ensures PicksEnough(abs.levels[level], old(Pointer(level)), opts.limits.maxBytesBase, opts.limits.levelMultiplier, level, a.from, a.to)
    {
      hide IsRange, Overlapping, PointerMoves;
      ghost var from, to;
      var minKey, maxKey;
      inputs, overlapping, minKey, maxKey, from, to := ChooseTables(level);
      outFileNum := vs.NextFileNum();
      a := Lsm.Start(level, from, to, minKey, maxKey);
    }

    /** os.Remove for every table merged. */
    method RemoveFiles(all: Level, ghost runs: Files)
      requires FilesHold(env, files, runs, catalog, filters)
      modifies this`files
      ensures FilesHold(env, files, runs - Lsm.Nums(all), catalog, filters)
    {
      hide FilesHold;
      ghost var before := files;
      for i := 0 to |all|
        invariant files == before - Lsm.Nums(all[..i])
      {
        assert all[..i + 1] == all[..i] + [all[i]];
        files := files - {all[i].fileNum};
      }
      assert all[..|all|] == all;
      FilesRest(env, before, runs, catalog, filters, Lsm.Nums(all));
    }

    ghost predicate AllBuilt(tables: Level)
      reads `files, `catalog, `filters
    {
      forall t :: t in tables ==> BuiltAs(t.fileNum, t.fileSize)
    }

    /** One output more, besides those already there. */
    method InstallOutput(t: TableMeta, file: bytes, ghost blocks: Blocks, ghost f: FilterData, ghost runs: Files, ghost others: Level)
      requires FilesHold(env, files, runs, catalog, filters) && t.fileNum !in catalog && CacheAgrees(cache, env.crc, catalog)
      requires IsTable(env, file, blocks, f) && Shaped(env, opts.table, blocks, f) && t.fileSize == Low64(|file|) && AllBuilt(others)
      modifies this`files, this`catalog, this`filters
      ensures FilesHold(env, files, runs[t.fileNum := Flatten(blocks)], catalog, filters) && CacheAgrees(cache, env.crc, catalog)
      ensures catalog.Keys == old(catalog.Keys) + {t.fileNum} && AllBuilt(others + [t])
    {
      hide FilesHold, IsTable, Shaped, CacheAgrees;
      InstallTable(t.fileNum, file, blocks, f, runs);
    }

    /** The output files are now the engine's. */
    method InstallOutputs(out: OutputTables, ghost runs: Files)
      requires FilesHold(env, files, runs, catalog, filters) && CacheAgrees(cache, env.crc, catalog)
      requires TablesWritten(env, out.level, out.outTables, out.outFiles, out.runs, out.blocks, out.filters) && UniqueFiles(out.outTables)
      requires TablesShaped(env, opts.table, out.blocks, out.filters)
      requires forall t :: t in out.outTables ==> t.fileNum !in catalog
      requires out != this as object
      modifies this`files, this`catalog, this`filters
      ensures FilesHold(env, files, Lsm.Installed(runs, out.outTables, out.runs), catalog, filters) && CacheAgrees(cache, env.crc, catalog)
      ensures catalog.Keys == old(catalog.Keys) + Lsm.Nums(out.outTables) && AllBuilt(out.outTables)
    {
      hide FilesHold, IsTable, Shaped, Lsm.Installed, Lsm.Nums, UniqueFiles, TablesWritten, BuiltAs;
      var tables := out.outTables;
      OutputsParallel(env, out.level, tables, out.outFiles, out.runs, out.blocks, out.filters);
      NoneInstalled(runs);
      for i := 0 to |tables|
        invariant FilesHold(env, files, Lsm.Installed(runs, tables[..i], out.runs[..i]), catalog, filters) && CacheAgrees(cache, env.crc, catalog)
        invariant catalog.Keys == old(catalog.Keys) + Lsm.Nums(tables[..i]) && AllBuilt(tables[..i])
      {
        OneInstalled(runs, tables, out.runs, i);
        OneOutput(env, out.level, tables, out.outFiles, out.runs, out.blocks, out.filters, i);
        assert tables[..i + 1] == tables[..i] + [tables[i]];
        InstallOutput(tables[i], out.outFiles[i], out.blocks[i], out.filters[i], Lsm.Installed(runs, tables[..i], out.runs[..i]), tables[..i]);
      }
      assert tables[..|tables|] == tables && out.runs[..|tables|] == out.runs;
    }

    /** The deletions of a compaction's edit. */
    method DeletedTables(all: Level) returns (deleted: seq<DeletedTable>)
      ensures deleted == Lsm.Deletions(all)
    {
      deleted := [];
      for i := 0 to |all|
        invariant deleted + Lsm.Deletions(all[i..]) == Lsm.Deletions(all)
      {
        assert all[i..][0] == all[i] && all[i..][1..] == all[i + 1..];
        deleted := deleted + [DeletedTable(all[i].level, all[i].fileNum)];
      }
    }

    /** Merges the given tables into outputs of the next level. */
    method MergeTables(all: Level, nextLevel: uint32, outFileNum: uint64, oldestSnap: uint64) returns (out: OutputTables, ghost rests: seq<seq<Record>>)
      requires Separated() && vs.Valid() && opts.table.filter.WellFormed() && Agrees(Ctx())
      requires (forall t :: t in all ==> Readable(t.fileNum)) && RunsSmall(abs.files)
      requires outFileNum < vs.nextFileNum && opts.table.maxSize <= SIZE_LIMIT
      requires vs.nextFileNum as int + |Flatten(Contents(abs.files, all))| + 2 < MAX_UINT64 as int
      modifies vs`nextFileNum, cache
      ensures Agrees(Ctx()) && vs.Valid() && fresh(out)
      ensures old(vs.nextFileNum) <= vs.nextFileNum && vs.nextFileNum as int <= old(vs.nextFileNum) as int + |Flatten(Contents(abs.files, all))| + 1
      ensures WeaklySorted(out.taken) && multiset(out.taken) == Sum(rests) && rests == Contents(abs.files, all)
      ensures TablesWritten(env, nextLevel, out.outTables, out.outFiles, out.runs, out.blocks, out.filters) && out.level == nextLevel
      ensures Flatten(out.runs) == Collapse(out.taken, nextLevel as int == |vs.levels| - 1, oldestSnap)
      ensures NumbersTaken(out.outTables, out.fileNum, outFileNum, old(vs.nextFileNum), vs.nextFileNum)
      ensures TablesShaped(env, opts.table, out.blocks, out.filters) && CutInto(out.runs, SumSizes, opts.table.maxSize)
    {
      hide Ready, Readable, Source.Foot, Source.All, Source.Good, IsTable, TablesWritten, TablesShaped, CutInto, NumbersTaken, Collapse, Sum,
           WeaklySorted, VersionSet.Valid, AllSmall, SourcesFeet, SourceObjs, OutputTables.Books, RunsSmall;
      var iters;
      iters, rests := OpenAll(all);
      SumIsFlatten(rests);
      AllAreSmall(abs.files, all);
      var isBottomLevel := nextLevel as int == |vs.levels| - 1;
      out := WriteCompactionOutput(vs, outFileNum, nextLevel, iters, rests, isBottomLevel, oldestSnap, opts.table, Ctx(), env);
      FinalBooks(out);
    }

    /** The edit of the compaction reaches the manifest and the version. */
    method LogCompaction(all: Level, outTables: Level, ghost a: Lsm.Action)
      requires Separated() && VersionHolds(abs.levels, vs.nextFileNum, abs.lastSeq, abs.loggedNext) && Sound(abs) && a.Finish? && Lsm.CanFinish(abs, a)
      requires all == abs.job.value.pick.inputs + abs.job.value.pick.Chosen() && outTables == a.outs && (forall t :: t in a.outs ==> Encodable(t))
      requires a.next < MAX_UINT64 && vs.nextFileNum == a.next - 1
      modifies vs, vs.manifest
      ensures InRange(abs.levels, Lsm.FinishEdit(abs, a))
      ensures var s := Lsm.Finished(abs, a); VersionHolds(s.levels, s.nextFile, s.lastSeq, s.loggedNext)
      ensures vs.log == old(vs.log) + [Lsm.FinishEdit(abs, a)]
    {
      hide VersionSet.Valid, Sound, Lsm.CanFinish, FitsLevels, Applied, Encodable;
      FinishIsSound(abs, a);
      FinishFits(abs, a);
      var deleted := DeletedTables(all);
      var nextFileNum := vs.NextFileNum();
      var edit := VersionEdit(outTables, deleted, None, Some(nextFileNum), None);
      LoggedMore(vs.log, edit);
      vs.LogAndApply(edit);
    }

    lemma JobReadable()
      requires Core() && NamesFit() && abs.job.Some?
      ensures forall t :: t in abs.job.value.pick.inputs + abs.job.value.pick.Chosen() ==> Readable(t.fileNum)
      ensures abs.job.value.level + 1 < |vs.levels|
    {
      hide InMemory, Rotated, Readable, VersionSet.Valid, FilesHold, LogsHold;
      JobInLevels(abs);
      var j := abs.job.value;
      LevelsReadable(j.level);
      LevelsReadable(j.level + 1);
    }

    /** Edit, removal of the merged files, and the outputs in their place. */
    method CommitOutputs(all: Level, out: OutputTables, ghost a: Lsm.Action)
      requires Separated() && VersionHolds(abs.levels, vs.nextFileNum, abs.lastSeq, abs.loggedNext) && Sound(abs) && a.Finish? && Lsm.CanFinish(abs, a)
      requires FilesHold(env, files, abs.files, catalog, filters) && catalog.Keys == abs.used && CacheAgrees(cache, env.crc, catalog)
      requires all == abs.job.value.pick.inputs + abs.job.value.pick.Chosen() && (forall t :: t in a.outs ==> Encodable(t))
      requires out.outTables == a.outs && out.runs == a.runs && out != this as object && out != vs as object && out != vs.manifest as object
      requires TablesWritten(env, out.level, out.outTables, out.outFiles, out.runs, out.blocks, out.filters) && TablesShaped(env, opts.table, out.blocks, out.filters)
      requires a.next < MAX_UINT64 && vs.nextFileNum == a.next - 1
      modifies this`files, this`catalog, this`filters, vs, vs.manifest
      ensures InRange(abs.levels, Lsm.FinishEdit(abs, a))
      ensures var s := Lsm.Finished(abs, a); TablesHold(s.levels, s.nextFile, s.files, s.used, s.lastSeq, s.loggedNext)
      ensures CacheAgrees(cache, env.crc, catalog) && AllBuilt(a.outs) && vs.log == old(vs.log) + [Lsm.FinishEdit(abs, a)]
    {
      hide VersionSet.Valid, Sound, Lsm.CanFinish, FilesHold, TablesWritten, TablesShaped, AllBuilt, Encodable, Applied, Lsm.Installed, UniqueFiles;
      OutputsAreNew(abs, a);
      LogCompaction(all, out.outTables, a);
      RemoveFiles(all, abs.files);
      InstallOutputs(out, abs.files - Lsm.Nums(all));
    }

    /** The second half of a compaction: the merge is written, the version edited, and the merged files removed. */
    method FinishCompaction(level: nat, inputs: Level, overlapping: Level, outFileNum: uint64, snapshots: SnapshotList) returns (ghost a: Lsm.Action)
      requires Valid() && NamesFit() && snapshots.Valid() && |vs.levels| < 0x1_0000_0000
      requires abs.job.Some? && abs.job.value.level == level && inputs == abs.job.value.pick.inputs && overlapping == abs.job.value.pick.Chosen()
      requires outFileNum < vs.nextFileNum && outFileNum !in abs.used && outFileNum !in Lsm.TaskNums(abs.tasks)
      requires RunsSmall(abs.files) && opts.table.maxSize <= SIZE_LIMIT
      requires vs.nextFileNum as int + |Flatten(Contents(abs.files, inputs + overlapping))| + 2 < MAX_UINT64 as int
      modifies this`files, this`abs, this`catalog, this`filters, vs, vs.manifest, cache
      ensures a.Finish? && Lsm.CanFinish(old(abs), a) && InRange(old(abs).levels, Lsm.FinishEdit(old(abs), a)) && abs == Lsm.Finished(old(abs), a)
      ensures Valid() && IsOldest(a.oldest, snapshots.snapshots) && vs.log == old(vs.log) + [Lsm.FinishEdit(old(abs), a)]
      ensures CutInto(a.runs, SumSizes, opts.table.maxSize) && AllBuilt(a.outs) && OutputsNumbered(a, outFileNum, old(vs.nextFileNum))
    {
      hide LogsHold, MemtableHolds, TasksHold, Sound, FilesHold, IsTable, VersionSet.Valid, RunsSmall, Contents, Flatten,
           Lsm.CanFinish, Applied, Lsm.FinishEdit, Lsm.Finished, Lsm.TaskNums, CutInto, AllBuilt, OutputsNumbered;
      CacheApart();
      JobReadable();
      ghost var before := abs;
      a := MergeAndCommit(level, inputs, overlapping, outFileNum, snapshots);
      FinishIsSound(before, a);
      OutputsAreNew(before, a);
      FinishedParts(before, a);
      abs := Lsm.Finished(before, a);
    }

    method MergeAndCommit(level: nat, inputs: Level, overlapping: Level, outFileNum: uint64, snapshots: SnapshotList) returns (ghost a: Lsm.Action)
      requires Separated() && TablesHold(abs.levels, abs.nextFile, abs.files, abs.used, abs.lastSeq, abs.loggedNext) && Sound(abs) && opts.table.filter.WellFormed()
      requires CacheAgrees(cache, env.crc, catalog)
      requires snapshots.Valid() && level + 1 < |vs.levels| < 0x1_0000_0000
      requires abs.job.Some? && abs.job.value.level == level && inputs == abs.job.value.pick.inputs && overlapping == abs.job.value.pick.Chosen()
      requires outFileNum < vs.nextFileNum && outFileNum !in abs.used && outFileNum !in Lsm.TaskNums(abs.tasks)
      requires RunsSmall(abs.files) && opts.table.maxSize <= SIZE_LIMIT && forall t :: t in inputs + overlapping ==> Readable(t.fileNum)
      requires vs.nextFileNum as int + |Flatten(Contents(abs.files, inputs + overlapping))| + 2 < MAX_UINT64 as int
      modifies this`files, this`catalog, this`filters, vs, vs.manifest, cache
      ensures a.Finish? && Lsm.CanFinish(abs, a) && |a.outs| == |a.runs| && InRange(abs.levels, Lsm.FinishEdit(abs, a))
      ensures var s := Lsm.Finished(abs, a); TablesHold(s.levels, s.nextFile, s.files, s.used, s.lastSeq, s.loggedNext)
      ensures CacheAgrees(cache, env.crc, catalog) && IsOldest(a.oldest, snapshots.snapshots) && vs.log == old(vs.log) + [Lsm.FinishEdit(abs, a)]
      ensures CutInto(a.runs, SumSizes, opts.table.maxSize) && AllBuilt(a.outs) && OutputsNumbered(a, outFileNum, old(vs.nextFileNum))
    {
      hide FilesHold, Sound, VersionSet.Valid, Readable, RunsSmall, Contents, Collapse, TablesWritten, TablesShaped, CutInto, AllBuilt,
           NumbersTaken, WeaklySorted, Lsm.CanFinish, Applied, Lsm.Installed, Lsm.Bottom;
      var oldestSnap := snapshots.Oldest();
      var out, rests := MergeTables(inputs + overlapping, (level + 1) as uint32, outFileNum, oldestSnap);
      a := Lsm.Finish(out.outTables, out.runs, out.taken, oldestSnap, vs.nextFileNum + 1);
      MergedCanFinish(env, abs, a, rests, out.level, out.outFiles, out.blocks, out.filters, out.fileNum, outFileNum, old(vs.nextFileNum), vs.nextFileNum);
      OutputsAreNew(abs, a);
      NumbersExact(a, out.fileNum, outFileNum, old(vs.nextFileNum), vs.nextFileNum);
      CommitOutputs(inputs + overlapping, out, a);
    }

    constructor (env: Env, opts: Options, vs: VersionSet, mt: Memtable, cache: BlockCaches.LRU, wal: uint64)
      ensures this.env == env && this.opts == opts && this.vs == vs && this.mt == mt && this.cache == cache
      ensures immt == null && tasks == [] && seqNum == 0 && files == map[] && this.wal == wal && logs == map[wal := []]
      ensures abs == InitialState(|vs.levels|) && catalog == map[] && filters == map[] && live == mt.Repr() && frozen == {} && compactPointer == map[]
    {
      this.env, this.opts, this.vs, this.mt, this.cache := env, opts, vs, mt, cache;
      immt, tasks, seqNum, compactPointer := null, [], 0, map[];
      files, catalog, filters, live, frozen := map[], map[], map[], mt.Repr(), {};
      this.wal, logs := wal, map[wal := []];
      abs := InitialState(|vs.levels|);
    }

    constructor Recovered(env: Env, opts: Options, vs: VersionSet, mt: Memtable, cache: BlockCaches.LRU, wal: uint64, seqNum: uint64, files: map<uint64, bytes>,
                          ghost abs: Lsm.State, ghost catalog: Catalog, ghost filters: map<uint64, FilterData>)
      ensures this.env == env && this.opts == opts && this.vs == vs && this.mt == mt && this.cache == cache
      ensures immt == null && tasks == [] && this.seqNum == seqNum && this.files == files && this.wal == wal && logs == map[wal := []]
      ensures this.abs == abs && this.catalog == catalog && this.filters == filters && live == mt.Repr() && frozen == {} && compactPointer == map[]
    {
      this.env, this.opts, this.vs, this.mt, this.cache := env, opts, vs, mt, cache;
      immt, tasks, compactPointer := null, [], map[];
      this.seqNum, this.files, this.wal, logs := seqNum, files, wal, map[wal := []];
      this.abs, this.catalog, this.filters, live, frozen := abs, catalog, filters, mt.Repr(), {};
    }
  }

  /** A new engine's parts: apart from one another, and holding nothing. */
  ghost predicate Blank(e: Engine)
    reads e, e.vs, e.vs.manifest, e.mt, e.mt.list, e.mt.list.nodes, e.cache
  {
    && e.vs.Valid() && |e.vs.levels| >= 1 && e.vs.levels == seq(|e.vs.levels|, _ => []) && e.vs.nextFileNum == 2 && e.vs.log == []
    && e.mt.Valid() && e.mt.Records() == [] && e.cache.Valid() && e.cache.items == map[]
    && e.immt == null && e.tasks == [] && e.files == map[] && e.wal == 1 && e.logs == map[1 := []] && e.seqNum == 0
    && e.abs == InitialState(|e.vs.levels|) && e.catalog == map[] && e.filters == map[] && e.live == e.mt.Repr() && e.frozen == {}
  }

  lemma BlankOnDisk(e: Engine)
    requires Blank(e)
    ensures e.OnDisk()
  {
    hide InitialState, VersionSet.Valid, Memtable.Valid, LogsHold;
    EmptyLogHolds(e.env);
  }

  /** An engine with one memtable and nothing rotated. */
  lemma OneMemtable(e: Engine)
    requires e.mt.Valid() && e.mt.list.maxLevel == e.opts.skiplistMaxLevel && e.mt.maxSize == e.opts.memtableSize
    requires e.live == e.mt.Repr() && e.mt.Records() == e.abs.mt
    requires e.immt == null && e.tasks == [] && e.frozen == {} && e.abs.immt == None && e.abs.tasks == []
    ensures e.InMemory() && e.Rotated()
  {
    hide Memtable.Valid;
  }

  lemma BlankIsValid(e: Engine)
    requires Blank(e) && e.mt.list.maxLevel == e.opts.skiplistMaxLevel && e.mt.maxSize == e.opts.memtableSize
    requires e.opts.table.filter.WellFormed() && e.opts.skiplistMaxLevel >= 1
    requires e.Separated()
    ensures e.Valid() && Lsm.Init(e.abs)
  {
    BlankOnDisk(e);
    OneMemtable(e);
    hide Engine.OnDisk, Engine.InMemory, Engine.Rotated, Engine.Separated, VersionSet.Valid, Memtable.Valid, BlockCaches.LRU.Valid, Sound, Lsm.Init;
  }

  /** New, on an empty data directory: an empty version, a memtable and a cache. */
  method New(env: Env, opts: Options, numLevels: nat, blockCacheSize: int) returns (e: Engine)
    requires numLevels >= 1 && opts.table.filter.WellFormed() && opts.skiplistMaxLevel >= 1
    ensures e.Valid() && Lsm.Init(e.abs) && |e.vs.levels| == numLevels && e.env == env && e.opts == opts
    ensures fresh(e) && fresh(e.cache) && e.cache.cap == blockCacheSize && e.cache.items == map[] && e.compactPointer == map[]
  {
    hide InitialState, Sound, Lsm.Init, VersionSet.Valid, Memtable.Valid, BlockCaches.LRU.Valid, Engine.Valid, Elems;
    var vs := new VersionSet(numLevels);
    var mt := new Memtable(opts.memtableSize, opts.skiplistMaxLevel);
    var cache := new BlockCaches.LRU(blockCacheSize);
    e := Begin(env, opts, vs, mt, cache);
  }

  /** The rest of New: the first log is open. */
  method Begin(env: Env, opts: Options, vs: VersionSet, mt: Memtable, cache: BlockCaches.LRU) returns (e: Engine)
    requires opts.table.filter.WellFormed() && opts.skiplistMaxLevel >= 1
    requires vs.Valid() && |vs.levels| >= 1 && vs.levels == seq(|vs.levels|, _ => []) && vs.nextFileNum == 1 && vs.log == []
    requires mt.Valid() && mt.Records() == [] && mt.list.maxLevel == opts.skiplistMaxLevel && mt.maxSize == opts.memtableSize
    requires cache.Valid() && cache.items == map[] && {vs, vs.manifest, cache} !! mt.Repr() && vs as object != vs.manifest && cache as object !in {vs, vs.manifest}
    modifies vs
    ensures fresh(e) && e.Valid() && Lsm.Init(e.abs) && e.vs == vs && |e.vs.levels| == old(|vs.levels|) && e.env == env && e.opts == opts && e.cache == cache && e.compactPointer == map[]
  {
    hide InitialState, Sound, Lsm.Init, VersionSet.Valid, Memtable.Valid, BlockCaches.LRU.Valid, Engine.Valid;
    var wal := vs.NextFileNum();
    e := new Engine(env, opts, vs, mt, cache, wal);
    BlankIsValid(e);
  }

  // ---------- opening the engine again ----------

  /** The log directory is what the running engine's logs make it. */
  ghost predicate IsDirectory(dir: Directory, logs: map<uint64, bytes>) {
    && (forall n :: n in logs ==> LogName(n) in dir && dir[LogName(n)] == logs[n])
    && (forall name :: name in dir ==> exists n: uint64 :: n in logs && LogName(n) == name)
  }

  lemma DirectoryIsLogged(env: Env, dir: Directory, logs: map<uint64, bytes>, runs: Files)
    requires IsDirectory(dir, logs) && LogsHold(env, logs, runs)
    ensures DirectoryHolds(env.crc, dir, runs)
  {
    hide LogName, Wals.EncodedRecords;
  }

  ghost function Restricted<T>(all: map<uint64, T>, keys: set<uint64>): (part: map<uint64, T>)
    requires keys <= all.Keys
    ensures part.Keys == keys && forall n :: n in keys ==> part[n] == all[n]
  {
    map n | n in keys :: all[n]
  }

  lemma KeysKnown(e: Engine)
    requires e.OnDisk()
    ensures e.files.Keys <= e.catalog.Keys && e.files.Keys == e.abs.files.Keys
  {
  }

  /** What opening reads back from the disk of an engine that was running. */
  ghost predicate ReadBack(e: Engine, before: Engine, r: Lsm.State)
    reads e, e.vs, e.vs.manifest, before, before.vs, before.vs.manifest
  {
    && before.OnDisk()
    && e.env == before.env && e.files == before.files && e.files.Keys <= before.catalog.Keys && e.catalog == Restricted(before.catalog, e.files.Keys) && e.filters == before.filters
    && e.vs.Valid() && e.vs.levels == before.abs.levels && e.vs.log == before.vs.log && e.vs.nextFileNum == r.nextFile
    && r.wal == e.wal && r.logs == map[e.wal := []] && e.logs == map[e.wal := []] && r.seqNum == e.seqNum
    && r.levels == before.abs.levels && r.files == before.abs.files && r.used == r.files.Keys
    && r.lastSeq == before.abs.lastSeq && r.loggedNext == before.abs.loggedNext
  }

  lemma ReadBackHolds(e: Engine, before: Engine)
    requires ReadBack(e, before, e.abs)
    ensures e.OnDisk()
  {
    hide VersionSet.Valid, IsTable, Flatten, LastLogged;
    NewLogHolds(e.env, e.wal);
    FilesStay(e.env, before.files, before.abs.files, before.catalog, e.catalog, before.filters);
  }

  lemma NewLogHolds(env: Env, wal: uint64)
    ensures LogsHold(env, map[wal := []], map[wal := []])
  {
  }

  lemma FilesStay(env: Env, files: map<uint64, bytes>, runs: Files, catalog: Catalog, part: Catalog, filters: map<uint64, FilterData>)
    requires FilesHold(env, files, runs, catalog, filters) && part.Keys == files.Keys && forall n :: n in files ==> part[n] == catalog[n]
    ensures FilesHold(env, files, runs, part, filters)
  {
    hide IsTable, Flatten;
  }

  lemma RecoveredIsRunning(d: LsmRecovery.Disk, order: seq<uint64>)
    requires d.loggedNext < MAX_UINT64
    ensures LsmRecovery.Running(LsmRecovery.Recovered(d, order))
  {
    hide LsmRecovery.Replayed, LsmRecovery.InsertAll, LsmRecovery.MaxSeq;
  }

  /** meta.Open on the manifest that the running engine left. */
  method ReadVersion(manifest: bytes, numLevels: nat, ghost before: Engine) returns (vs: VersionSet, ok: bool)
    requires before.OnDisk() && manifest == before.vs.manifest.data && numLevels == |before.vs.levels|
    ensures ok && fresh(vs) && fresh(vs.manifest) && vs.Valid() && vs.levels == before.abs.levels && vs.log == before.vs.log
    ensures vs.lastSeqNum == before.abs.lastSeq && vs.nextFileNum == before.abs.loggedNext
  {
    hide FilesHold, LogsHold;
    before.vs.StartsEmpty();
    var file := new Sink();
    file.Write(manifest);
    vs, ok := VersionSet.Open(file, numLevels, before.vs.log);
  }

  /** recover, on the logs that the running engine left. */
  method ReplayLogs(env: Env, opts: Options, dir: Directory, entries: seq<string>, lastSeq: uint64, ghost before: Engine)
    returns (mt: Memtable, seqNum: uint64, ok: bool, ghost order: seq<uint64>)
    requires before.OnDisk() && env == before.env && opts.skiplistMaxLevel >= 1 && lastSeq == before.abs.lastSeq && before.abs.loggedNext < MAX_UINT64
    requires IsDirectory(dir, before.logs) && Distinct(entries) && forall name :: name in entries <==> name in dir
    ensures ok && LsmRecovery.ReplayOrder(order, before.abs.logs)
    ensures fresh(mt.Repr()) && mt.Valid() && mt.list.maxLevel == opts.skiplistMaxLevel && mt.maxSize == opts.memtableSize
    ensures var r := LsmRecovery.Recovered(LsmRecovery.DiskOf(before.abs), order); mt.Records() == r.mt && seqNum == r.seqNum
  {
    hide Memtable.Valid, LogsHold, FilesHold, IsDirectory, DirectoryHolds, Delivered, LsmRecovery.ReplayOrder,
         LsmRecovery.Recovered, LsmRecovery.InsertAll, LsmRecovery.MaxSeq, Distinct;
    DirectoryIsLogged(env, dir, before.logs, before.abs.logs);
    mt := new Memtable(opts.memtableSize, opts.skiplistMaxLevel);
    ghost var left;
    seqNum, left, ok, order := Recover(env.crc, dir, entries, mt, lastSeq);
    RecoverYieldsState(env.crc, before.abs, dir, entries, order);
  }

  /**
   * New, on the data directory of an engine that stopped between two steps: from the bytes of its
   * manifest, logs and tables alone, the engine becomes its recovered state. It is good to go on
   * exactly when that state is sound (LsmRecovery.RecoveredGoesOnIff).
   */
  method Reopen(manifest: bytes, dir: Directory, entries: seq<string>, files: map<uint64, bytes>, env: Env, opts: Options,
                numLevels: nat, blockCacheSize: int, ghost before: Engine)
    returns (e: Engine, ghost order: seq<uint64>)
    requires before.OnDisk() && env == before.env && opts.table.filter.WellFormed() && opts.skiplistMaxLevel >= 1 && before.abs.loggedNext < MAX_UINT64
    requires manifest == before.vs.manifest.data && numLevels == |before.vs.levels| && files == before.files
    requires IsDirectory(dir, before.logs) && Distinct(entries) && forall name :: name in entries <==> name in dir
    ensures fresh(e) && LsmRecovery.ReplayOrder(order, before.abs.logs) && e.abs == LsmRecovery.Recovered(LsmRecovery.DiskOf(before.abs), order)
    ensures e.Separated() && e.InMemory() && e.Rotated() && e.OnDisk() && e.opts == opts && e.env == env
    ensures e.cache.cap == blockCacheSize && e.cache.items == map[] && e.compactPointer == map[]
    ensures e.Valid() <==> Lsm.Inv(e.abs, true)
  {
    hide Memtable.Valid, VersionSet.Valid, LogsHold, FilesHold, IsDirectory, Distinct, Engine.OnDisk, Engine.InMemory,
         Engine.Rotated, Lsm.Inv, LsmRecovery.ReplayOrder;
    var vs, read := ReadVersion(manifest, numLevels, before);
    var mt, seqNum, replayed;
    mt, seqNum, replayed, order := ReplayLogs(env, opts, dir, entries, vs.lastSeqNum, before);
    var wal := vs.NextFileNum();
    var cache := new BlockCaches.LRU(blockCacheSize);
    e := Assemble(vs, mt, cache, seqNum, files, env, opts, wal, order, before);
    RecoveredIsRunning(LsmRecovery.DiskOf(before.abs), order);
  }

  method Assemble(vs: VersionSet, mt: Memtable, cache: BlockCaches.LRU, seqNum: uint64, files: map<uint64, bytes>, env: Env, opts: Options,
                  wal: uint64, ghost order: seq<uint64>, ghost before: Engine)
    returns (e: Engine)
    requires before.OnDisk() && env == before.env && files == before.files && before.abs.loggedNext < MAX_UINT64
    requires vs.Valid() && vs.levels == before.abs.levels && vs.log == before.vs.log && wal == before.abs.loggedNext && vs.nextFileNum == wal + 1
    requires mt.Valid() && mt.list.maxLevel == opts.skiplistMaxLevel && mt.maxSize == opts.memtableSize && cache.Valid() && cache.items == map[]
    requires vs != before.vs && vs as object != before && vs.manifest as object != before && {vs, vs.manifest, cache} !! mt.Repr() && vs as object != vs.manifest && cache as object !in {vs, vs.manifest}
    requires var r := LsmRecovery.Recovered(LsmRecovery.DiskOf(before.abs), order); mt.Records() == r.mt && seqNum == r.seqNum
    ensures fresh(e) && e.abs == LsmRecovery.Recovered(LsmRecovery.DiskOf(before.abs), order) && e.opts == opts && e.env == env
    ensures e.cache == cache && e.compactPointer == map[]
    ensures e.Separated() && e.InMemory() && e.Rotated() && e.OnDisk() && CacheAgrees(e.cache, e.env.crc, e.catalog)
  {
    hide Memtable.Valid, VersionSet.Valid, LogsHold, FilesHold, MemtableHolds, TasksHold, Engine.OnDisk, Engine.InMemory,
         Engine.Rotated, BlockCaches.LRU.Valid;
    KeysKnown(before);
    ghost var r := LsmRecovery.Recovered(LsmRecovery.DiskOf(before.abs), order);
    e := new Engine.Recovered(env, opts, vs, mt, cache, wal, seqNum, files, r, Restricted(before.catalog, files.Keys), before.filters);
    ReadBackHolds(e, before);
    OneMemtable(e);
  }
}
