/** Which level is compacted next, and what becomes of a level whose pointer has passed all its tables (internal/engine/compactor.go). */
module Schedules {
  import opened Bytes
  import opened Records
  import opened Runs
  import opened Versions
  import opened TableSets
  import opened Lsm
  import opened LsmCompaction
  import LsmRuns
  import opened Pickers

  datatype Limits = Limits(maxL0Files: nat, maxBytesBase: nat, levelMultiplier: nat)

  /** Level 0 is due by its number of tables, a deeper one by their size; the last level never is. */
  predicate Due(levels: Levels, limits: Limits, level: nat)
    requires level < |levels|
  {
    if level == 0 then |levels[0]| >= limits.maxL0Files
    else level + 1 < |levels| && TablesSize(levels[level]) > limits.maxBytesBase * Power(limits.levelMultiplier, level - 1)
  }

  /** The choice is the first level that is due, if any is. */
  ghost predicate IsScheduled(levels: Levels, limits: Limits, choice: Option<nat>) {
    match choice
    case None => forall l: nat :: l < |levels| ==> !Due(levels, limits, l)
    case Some(k) => k < |levels| && Due(levels, limits, k) && forall l: nat :: l < k ==> !Due(levels, limits, l)
  }

  lemma DueHasNext(levels: Levels, limits: Limits, level: nat)
    requires level < |levels| && |levels| >= 2 && Due(levels, limits, level)
    ensures level + 1 < |levels|
  {
  }

  /** The level loop of scheduleCompaction. */
  method Schedule(levels: Levels, limits: Limits) returns (choice: Option<nat>)
    requires levels != []
    ensures IsScheduled(levels, limits, choice)
  {
    if |levels[0]| >= limits.maxL0Files {
      return Some(0);
    }
    var level := 1;
    while level < |levels| - 1
      invariant 1 <= level && forall l: nat :: l < level && l < |levels| ==> !Due(levels, limits, l)
    {
      var size := LevelSize(levels[level]);
      var capacity := LevelCapacity(limits.maxBytesBase, limits.levelMultiplier, level);
      if size > capacity {
        return Some(level);
      }
      level := level + 1;
    }
    return None;
  }

  // ---------- the pointers ----------

  type Pointers = map<nat, bytes>

  function PointerOf(pointers: Pointers, level: nat): bytes {
    if level in pointers then pointers[level] else []
  }

  /** The last key picked is appended to the pointer of a deeper level; an empty pick leaves the pointer where it was. */
  ghost predicate PointerMoves(level: nat, inputs: Level, before: Pointers, after: Pointers) {
    after == if level > 0 && inputs != []
             then before[level := PointerOf(before, level) + inputs[|inputs| - 1].maxKey.userKey]
             else before
  }

  /** Where the tables of a level are picked for compaction is settled by the level and its pointer. */
  lemma PickIsUnique(tables: Level, pointer: bytes, base: nat, multiplier: nat, level: nat, from: nat, to: nat, from': nat, to': nat)
    requires PicksEnough(tables, pointer, base, multiplier, level, from, to) && PicksEnough(tables, pointer, base, multiplier, level, from', to')
    ensures from == from' && to == to'
  {
    hide Probe, TablesSize, Excess;
  }

  // ---------- tables that start with a key ----------

  /** Below level 0 no table starts with the empty key: compaction never writes it. */
  ghost predicate KeyedDeep(levels: Levels) {
    forall l, t :: 1 <= l < |levels| && t in levels[l] ==> t.minKey.userKey != []
  }

  lemma StepKeepsKeyed(s: State, a: Action, s': State)
    requires Inv(s, true) && Step(s, a, s') && KeyedDeep(s.levels)
    ensures KeyedDeep(s'.levels)
  {
    match a
    case Flush(size) => FlushLevels(s, size);
    case Finish(_, _, _, _, _) => FinishKeepsKeyed(s, a);
    case _ =>
  }

  lemma FinishKeepsKeyed(s: State, a: Action)
    requires Finishing(s, a, true) && InRange(s.levels, FinishEdit(s, a)) && KeyedDeep(s.levels)
    ensures KeyedDeep(Finished(s, a).levels)
  {
    hide Inv, Finished, FinishEdit, Rest, InRange, UniqueLevels, Pick.Good, Described, DisjointRanges;
    FinishLevels(s, a);
    JobTables(s, a, true);
    OutputsStartWithKeys(s, a, true);
    hide Finishing, JobInLevels;
    var l := s.job.value.level;
    RestWithin(s.levels[l], s.job.value.pick.inputs);
    RestWithin(s.levels[l + 1], s.job.value.pick.Chosen());
    KeyedAfter(s.levels, l, Upper(s), Lower(s), a.outs);
  }

  lemma RestWithin(tables: Level, gone: Level)
    ensures forall t :: t in Rest(tables, gone) ==> t in tables
  {
    KeepMembers(tables, Nums(gone));
  }

  lemma KeyedAfter(levels: Levels, level: nat, upper: Level, lower: Level, outs: Level)
    requires KeyedDeep(levels) && level + 1 < |levels|
    requires (forall t :: t in upper ==> t in levels[level]) && (forall t :: t in lower ==> t in levels[level + 1])
    requires forall t :: t in outs ==> t.minKey.userKey != []
    ensures KeyedDeep(levels[level := upper][level + 1 := lower + outs])
  {
  }

  /** It is so in every state of every run. */
  lemma {:induction false} EveryRunIsKeyed(states: seq<State>, actions: seq<Action>)
    requires LsmRuns.IsRun(states, actions)
    ensures Inv(states[|actions|], true) && KeyedDeep(states[|actions|].levels)
    decreases |actions|
  {
    hide Step, Inv, Init, KeyedDeep, LsmRuns.Stands, LsmRuns.Fold;
    var n := |actions|;
    LsmRuns.EveryRun(states, actions);
    if n == 0 {
      NewIsKeyed(states[0]);
    } else {
      EveryRunIsKeyed(states[..n], actions[..n - 1]);
      StepKeepsKeyed(states[n - 1], actions[n - 1], states[n]);
    }
  }

  lemma NewIsKeyed(s: State)
    requires Init(s)
    ensures KeyedDeep(s.levels)
  {
  }

  // ---------- runs with the scheduler ----------

  /** A step in which a compaction, if one is started, is the scheduler's, with the pick behind the level's pointer. */
  ghost predicate ScheduledStep(limits: Limits, s: State, p: Pointers, a: Action, s': State, p': Pointers) {
    && Step(s, a, s')
    && if a.Start? then
         && IsScheduled(s.levels, limits, Some(a.level)) && PointerMoves(a.level, Picked(s, a).inputs, p, p')
         && PicksEnough(s.levels[a.level], PointerOf(p, a.level), limits.maxBytesBase, limits.levelMultiplier, a.level, a.from, a.to)
       else p' == p
  }

  /** Of the levels below the first, level k is the first that is due, and no table of it is found behind its pointer. */
  ghost predicate Spent(limits: Limits, levels: Levels, p: Pointers, k: nat) {
    && 0 < k && k + 1 < |levels| && Due(levels, limits, k) && (forall l: nat :: 0 < l < k ==> !Due(levels, limits, l))
    && Probe(StartsAfter(levels[k], PointerOf(p, k)), 0, |levels[k]|) == |levels[k]|
  }

  /** No compaction is under way, or one that merges nothing. */
  ghost predicate MergesNothing(job: Option<Job>, k: nat) {
    job.Some? ==> job.value.level == k && job.value.pick.inputs == []
  }

  ghost predicate Stuck(limits: Limits, s: State, p: Pointers, k: nat) {
    Inv(s, true) && KeyedDeep(s.levels) && Spent(limits, s.levels, p, k) && MergesNothing(s.job, k)
  }

  /** As long as level 0 is not due, a step leaves all deeper levels and all pointers as they are, and the engine where it was stuck. */
  lemma StuckStep(limits: Limits, s: State, p: Pointers, a: Action, s': State, p': Pointers, k: nat)
    requires Stuck(limits, s, p, k) && ScheduledStep(limits, s, p, a, s', p') && !Due(s.levels, limits, 0)
    ensures s'.levels[1..] == s.levels[1..] && p' == p && Stuck(limits, s', p', k)
  {
    LsmRuns.StepKeepsInv(s, a, s', true);
    StepKeepsKeyed(s, a, s');
    StuckLevels(limits, s, p, a, s', p', k);
    SpentStays(limits, s.levels, s'.levels, p, k);
  }

  lemma SpentStays(limits: Limits, levels: Levels, levels': Levels, p: Pointers, k: nat)
    requires Spent(limits, levels, p, k) && |levels'| == |levels| && levels'[1..] == levels[1..]
    ensures Spent(limits, levels', p, k)
  {
    hide TablesSize, Power, Probe, StartsAfter;
    forall l: nat | 0 < l < |levels| ensures levels'[l] == levels[l] {
      assert levels'[l] == levels'[1..][l - 1];
    }
    assert forall l: nat :: 0 < l < k ==> Due(levels', limits, l) == Due(levels, limits, l);
  }

  lemma StuckLevels(limits: Limits, s: State, p: Pointers, a: Action, s': State, p': Pointers, k: nat)
    requires Stuck(limits, s, p, k) && ScheduledStep(limits, s, p, a, s', p') && !Due(s.levels, limits, 0)
    ensures |s'.levels| == |s.levels| && s'.levels[1..] == s.levels[1..] && p' == p && MergesNothing(s'.job, k)
  {
    match a
    case Flush(size) => FlushLevels(s, size);
    case Start(_, _, _, _, _) => NothingPicked(limits, s.levels, p, a.level, a.from, a.to, k);
    case Finish(_, _, _, _, _) => NothingMerged(s, a, k);
    case _ =>
  }

  lemma NothingPicked(limits: Limits, levels: Levels, p: Pointers, level: nat, from: nat, to: nat, k: nat)
    requires Spent(limits, levels, p, k) && !Due(levels, limits, 0) && IsScheduled(levels, limits, Some(level))
    requires PicksEnough(levels[level], PointerOf(p, level), limits.maxBytesBase, limits.levelMultiplier, level, from, to)
    ensures level == k && from == to
  {
    hide TablesSize, Power, Probe, StartsAfter, Excess;
    assert Due(levels, limits, level) && Due(levels, limits, k);
  }

  lemma NothingMerged(s: State, a: Action, k: nat)
    requires Finishing(s, a, true) && InRange(s.levels, FinishEdit(s, a)) && KeyedDeep(s.levels) && MergesNothing(s.job, k) && k > 0
    ensures Finished(s, a).levels == s.levels
  {
    FinishLevels(s, a);
    EmptyPickChangesNothing(s, a, true);
  }

  /** Stuck, the engine can always start the next compaction and finish it: each takes two file numbers, and changes nothing else. */
  lemma StuckGoesOn(limits: Limits, s: State, p: Pointers, k: nat, oldest: uint64) returns (a: Action, b: Action)
    requires Stuck(limits, s, p, k) && !Due(s.levels, limits, 0) && s.job == None && s.nextFile as int + 2 <= MAX_UINT64 as int
    ensures a.Start? && CanStart(s, a) && ScheduledStep(limits, s, p, a, Started(s, a), p)
    ensures ScheduledStep(limits, Started(s, a), p, b, s.(nextFile := s.nextFile + 2, loggedNext := s.nextFile + 1), p)
  {
    var n := |s.levels[k]|;
    a := Start(k, n, n, [], []);
    b := Finish([], [], [], oldest, s.nextFile + 2);
    AtTheEnd(s.levels[k], PointerOf(p, k), limits.maxBytesBase, limits.levelMultiplier, k);
    assert Step(s, a, Started(s, a));
    NothingToMerge(s, a, b);
  }

  lemma AtTheEnd(tables: Level, pointer: bytes, base: nat, multiplier: nat, level: nat)
    requires level > 0 && Probe(StartsAfter(tables, pointer), 0, |tables|) == |tables|
    ensures PicksEnough(tables, pointer, base, multiplier, level, |tables|, |tables|) && tables[|tables|..|tables|] == []
  {
    hide TablesSize, Probe;
  }

  lemma NothingToMerge(s: State, a: Action, b: Action)
    requires a.Start? && CanStart(s, a) && a.level > 0 && Picked(s, a) == Pick([], s.levels[a.level + 1], [], []) && KeyedDeep(s.levels)
    requires b.Finish? && b.outs == [] && b.runs == [] && b.m == [] && s.nextFile as int + 2 <= MAX_UINT64 as int && b.next == s.nextFile + 2
    ensures Step(Started(s, a), b, s.(nextFile := s.nextFile + 2, loggedNext := s.nextFile + 1))
  {
    var t := Started(s, a);
    NothingChosen(s.levels[a.level + 1]);
    assert t.job.value.pick.inputs + t.job.value.pick.Chosen() == [];
    assert Contents(t.files, []) == [];
    assert t.files - Nums([]) == t.files;
    assert t.used + Nums([]) == t.used;
  }

  ghost predicate ScheduledRun(limits: Limits, states: seq<State>, pointers: seq<Pointers>, actions: seq<Action>) {
    && |states| == |pointers| == |actions| + 1
    && forall i :: 0 <= i < |actions| ==> ScheduledStep(limits, states[i], pointers[i], actions[i], states[i + 1], pointers[i + 1])
  }

  /**
   * Once the pointer of the first level that is due has passed all its tables, nothing moves any more:
   * through any run, of any length, in which level 0 does not become due, every level below the first
   * stays as it is, and so does every pointer, however many compactions are started and finished.
   */
  lemma {:induction false} StuckForGood(limits: Limits, states: seq<State>, pointers: seq<Pointers>, actions: seq<Action>, k: nat)
    requires ScheduledRun(limits, states, pointers, actions) && Stuck(limits, states[0], pointers[0], k)
    requires forall i :: 0 <= i < |actions| ==> |states[i].levels| > 0 && !Due(states[i].levels, limits, 0)
    ensures var n := |actions|;
            |states[n].levels| > 0 && states[n].levels[1..] == states[0].levels[1..] && pointers[n] == pointers[0] && Stuck(limits, states[n], pointers[n], k)
    decreases |actions|
  {
    hide ScheduledStep, Stuck, Due;
    StuckHasLevels(limits, states[0], pointers[0], k);
    if actions != [] {
      var n := |actions| - 1;
      StuckForGood(limits, states[..n + 1], pointers[..n + 1], actions[..n], k);
      StuckStep(limits, states[n], pointers[n], actions[n], states[n + 1], pointers[n + 1], k);
      StuckHasLevels(limits, states[n + 1], pointers[n + 1], k);
    }
  }

  lemma StuckHasLevels(limits: Limits, s: State, p: Pointers, k: nat)
    requires Stuck(limits, s, p, k)
    ensures |s.levels| > 0
  {
  }
}
