/** Choosing what to compact (internal/engine/compactor.go). */
module Pickers {
  import opened Bytes
  import opened Records
  import opened Runs
  import opened Versions
  import opened Collapses
  import opened TableSets
  import opened Lsm
  import opened LsmCompaction

  function TablesSize(tables: Level): nat {
    if tables == [] then 0 else TablesSize(tables[..|tables| - 1]) + tables[|tables| - 1].fileSize
  }

  function Power(base: nat, n: nat): nat {
    if n == 0 then 1 else Power(base, n - 1) * base
  }

  method LevelSize(tables: Level) returns (total: nat)
    ensures total == TablesSize(tables)
  {
    total := 0;
    for i := 0 to |tables|
      invariant total == TablesSize(tables[..i])
    {
      assert tables[..i + 1][..i] == tables[..i];
      total := total + tables[i].fileSize;
    }
    assert tables[..|tables|] == tables;
  }

  /** The base size for level 1, and a factor more for each level below. */
  method LevelCapacity(base: nat, multiplier: nat, level: nat) returns (cap: nat)
    requires level >= 1
    ensures cap == base * Power(multiplier, level - 1)
  {
    cap := base;
    for i := 1 to level
      invariant cap == base * Power(multiplier, i - 1)
    {
      cap := cap * multiplier;
      Associate(base, Power(multiplier, i - 1), multiplier);
    }
  }

  lemma Associate(a: nat, b: nat, c: nat)
    ensures (a * b) * c == a * (b * c)
  {
  }

  /** sort.Search's predicate: the table begins after the pointer. */
  function StartsAfter(tables: Level, pointer: bytes): nat -> bool {
    (i: nat) => i < |tables| && Less(pointer, tables[i].minKey.userKey)
  }

  /** tables[from..to] is the shortest non-empty stretch from there that reaches the target, or all the rest if none does. */
  ghost predicate Reaches(tables: Level, from: nat, to: nat, target: nat) {
    && from <= to <= |tables|
    && (to < |tables| ==> from < to && TablesSize(tables[from..to]) >= target)
    && (forall k :: from < k < to ==> TablesSize(tables[from..k]) < target)
  }

  /** How far a level is beyond the capacity of its depth. */
  function Excess(tables: Level, base: nat, multiplier: nat, level: nat): nat
    requires level >= 1
  {
    var capacity := base * Power(multiplier, level - 1);
    if TablesSize(tables) > capacity then TablesSize(tables) - capacity else 0
  }

  /** tables[from..to] is what is compacted of a level: all of level 0, or from the first table after the pointer on enough to bring the level down to capacity. */
  ghost predicate PicksEnough(tables: Level, pointer: bytes, base: nat, multiplier: nat, level: nat, from: nat, to: nat) {
    if level == 0 || tables == [] then from == 0 && to == |tables|
    else from == Probe(StartsAfter(tables, pointer), 0, |tables|) && Reaches(tables, from, to, Excess(tables, base, multiplier, level))
  }

  /** All of level 0; of a deeper level, from the first table after the pointer, enough to bring the level down to its capacity. */
  method PickCompactionInputs(level: nat, tables: Level, pointer: bytes, size: nat, capacity: nat) returns (selected: Level, ghost from: nat, ghost to: nat)
    ensures from <= to <= |tables| && selected == tables[from..to]
    ensures level == 0 || tables == [] ==> from == 0 && to == |tables|
    ensures level > 0 && tables != [] ==>
        from == Probe(StartsAfter(tables, pointer), 0, |tables|) && Reaches(tables, from, to, if size > capacity then size - capacity else 0)
  {
    hide TablesSize, Probe, Reaches, Short;
    if |tables| == 0 {
      return [], 0, 0;
    }
    if level == 0 {
      return tables, 0, |tables|;
    }
    var idx, looked := Search(|tables|, StartsAfter(tables, pointer));
    selected, from, to := [], idx, idx;
    NothingYet(tables, idx, if size > capacity then size - capacity else 0);
    var pickedSize: nat := 0;
    var targetSize: nat := if size > capacity then size - capacity else 0;
    for i := idx to |tables|
      invariant to == i && selected == tables[from..i] && pickedSize == TablesSize(tables[from..i])
      invariant Short(tables, from, i, targetSize)
    {
      OneMore(tables, from, i, targetSize);
      selected := selected + [tables[i]];
      pickedSize := pickedSize + tables[i].fileSize;
      to := i + 1;
      if pickedSize >= targetSize {
        return;
      }
    }
    AllTaken(tables, from, targetSize);
  }

  /** No stretch from there up to i reaches the target. */
  ghost predicate Short(tables: Level, from: nat, i: nat, target: nat) {
    from <= i <= |tables| && forall k :: from < k <= i ==> TablesSize(tables[from..k]) < target
  }

  lemma NothingYet(tables: Level, from: nat, target: nat)
    requires from <= |tables|
    ensures Short(tables, from, from, target) && tables[from..from] == [] && TablesSize([]) == 0
  {
  }

  lemma AllTaken(tables: Level, from: nat, target: nat)
    requires Short(tables, from, |tables|, target)
    ensures Reaches(tables, from, |tables|, target)
  {
  }

  lemma OneMore(tables: Level, from: nat, i: nat, target: nat)
    requires Short(tables, from, i, target) && i < |tables|
    ensures tables[from..i + 1] == tables[from..i] + [tables[i]]
    ensures TablesSize(tables[from..i + 1]) == TablesSize(tables[from..i]) + tables[i].fileSize
    ensures TablesSize(tables[from..i + 1]) < target ==> Short(tables, from, i + 1, target)
    ensures TablesSize(tables[from..i + 1]) >= target ==> Reaches(tables, from, i + 1, target)
  {
    assert tables[from..i + 1][..i - from] == tables[from..i];
  }

  /** On a level sorted by first keys, the pick begins with the first table that starts after the pointer; it is empty exactly if there is none. */
  lemma PickStartsAfterPointer(tables: Level, pointer: bytes)
    requires forall i, j :: 0 <= i < j < |tables| ==> Less(tables[i].minKey.userKey, tables[j].minKey.userKey)
    ensures var idx := Probe(StartsAfter(tables, pointer), 0, |tables|);
            && (forall i :: 0 <= i < idx ==> !Less(pointer, tables[i].minKey.userKey))
            && (forall i :: idx <= i < |tables| ==> Less(pointer, tables[i].minKey.userKey))
            && (idx == |tables| <==> forall t :: t in tables ==> !Less(pointer, t.minKey.userKey))
  {
    LessIsOrder();
    var f := StartsAfter(tables, pointer);
    ProbeIsLeast(f, 0, |tables|);
    assert forall i :: 0 <= i < |tables| ==> f(i) == Less(pointer, tables[i].minKey.userKey);
    var idx := Probe(f, 0, |tables|);
    if idx < |tables| {
      assert tables[idx] in tables && Less(pointer, tables[idx].minKey.userKey);
    }
  }

  // ---------- an empty pick ----------

  /** With nothing picked, no table of the next level is merged either: none starts with the empty key. */
  lemma {:induction false} NothingChosen(next: Level)
    requires forall t :: t in next ==> t.minKey.userKey != []
    ensures Overlapping(next, [], []) == []
  {
    if next != [] {
      var n := |next| - 1;
      NothingChosen(next[..n]);
      assert next[n] in next;
    }
  }

  /**
   * A compaction whose pick is empty leaves every level as it is; the pointer does not move either
   * (Engine.StartCompaction), so that the next pick is empty again, however large the level grows.
   */
  lemma EmptyPickChangesNothing(s: State, a: Action, strict: bool)
    requires Finishing(s, a, strict) && InRange(s.levels, FinishEdit(s, a)) && s.job.value.pick.inputs == []
    requires forall t :: t in s.job.value.pick.next ==> t.minKey.userKey != []
    ensures Finished(s, a).levels == s.levels && a.outs == []
  {
    NothingChosen(s.job.value.pick.next);
    assert s.job.value.pick.Chosen() == [];
    assert Contents(s.files, []) == [];
    assert multiset(a.m) == multiset{};
    assert |a.m| == |multiset(a.m)|;
    NoRuns(a.runs);
  }

  lemma NoRuns(runs: seq<seq<Record>>)
    requires Flatten(runs) == [] && forall i :: 0 <= i < |runs| ==> runs[i] != []
    ensures runs == []
  {
  }

  /** What compaction writes never begins with the empty key. */
  lemma OutputsStartWithKeys(s: State, a: Action, strict: bool)
    requires Finishing(s, a, strict)
    ensures forall t :: t in a.outs ==> t.minKey.userKey != []
  {
    hide Inv, Pick.Good, Flatten, WeaklySorted, KeysAscend;
    CollapseAscends(a.m, Bottom(s, s.job.value.level), a.oldest);
    hide Collapse;
    forall t | t in a.outs ensures t.minKey.userKey != [] {
      var i :| 0 <= i < |a.outs| && a.outs[i] == t;
      FlattenMembers(a.runs, a.runs[i][0]);
    }
  }
}
