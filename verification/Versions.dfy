/** Table metadata, versions and edits, and how an edit changes a version (internal/meta). */
module Versions {
  import opened Bytes
  import opened Records

  datatype TableMeta = TableMeta(fileNum: uint64, fileSize: uint64, level: uint32, minKey: InternalKey, maxKey: InternalKey)

  datatype DeletedTable = DeletedTable(level: uint32, fileNum: uint64)

  datatype VersionEdit = VersionEdit(
    addTables: seq<TableMeta>, deleteTables: seq<DeletedTable>,
    lastSequence: Option<uint64>, nextFileNum: Option<uint64>, logNumber: Option<uint64>)

  type Level = seq<TableMeta>
  type Levels = seq<Level>

  // ---------- one level ----------

  /** No file number occurs twice. */
  ghost predicate UniqueFiles(tables: Level) {
    forall i, j :: 0 <= i < j < |tables| ==> tables[i].fileNum != tables[j].fileNum
  }

  /** The tables without the first one numbered f. */
  function RemoveFirst(tables: Level, f: uint64): (r: Level) {
    if tables == [] then [] else
    if tables[0].fileNum == f then tables[1..] else [tables[0]] + RemoveFirst(tables[1..], f)
  }

  /** The tables numbered f taken out, the rest in order. */
  function Without(tables: Level, f: uint64): Level {
    if tables == [] then [] else
    (if tables[0].fileNum == f then [] else [tables[0]]) + Without(tables[1..], f)
  }

  lemma {:induction false} WithoutAbsent(tables: Level, f: uint64)
    requires forall t :: t in tables ==> t.fileNum != f
    ensures Without(tables, f) == tables
  {
    if tables != [] {
      assert tables[0] in tables;
      WithoutAbsent(tables[1..], f);
      assert [tables[0]] + tables[1..] == tables;
    }
  }

  lemma {:induction false} RemoveFirstIsWithout(tables: Level, f: uint64)
    requires UniqueFiles(tables)
    ensures RemoveFirst(tables, f) == Without(tables, f)
  {
    if tables != [] {
      if tables[0].fileNum == f {
        WithoutAbsent(tables[1..], f);
      } else {
        RemoveFirstIsWithout(tables[1..], f);
      }
    }
  }

  lemma {:induction false} WithoutMembers(tables: Level, f: uint64)
    ensures forall t :: t in Without(tables, f) <==> t in tables && t.fileNum != f
    ensures UniqueFiles(tables) ==> UniqueFiles(Without(tables, f))
  {
    if tables != [] {
      WithoutMembers(tables[1..], f);
      var rest := Without(tables[1..], f);
      assert tables == [tables[0]] + tables[1..];
      if UniqueFiles(tables) {
        assert UniqueFiles(tables[1..]);
        forall t | t in rest ensures t.fileNum != tables[0].fileNum {
          var i :| 0 <= i < |tables[1..]| && tables[1..][i] == t;
          assert tables[i + 1] == t;
        }
        assert forall i :: 0 <= i < |rest| ==> rest[i] in rest;
      }
    }
  }

  lemma ConsRest(a: Level, b: Level)
    requires a != []
    ensures a + b != [] && (a + b)[0] == a[0] && (a + b)[1..] == a[1..] + b
  {
  }

  // ---------- removal in place, as replay does it ----------

  /**
   * The loop of removeFromLevel from index i on, over a slice of fixed extent whose first n
   * entries are still the level. A match shifts the rest left by one; an entry beyond n is a
   * stale copy, and a match there slices out of range.
   */
  function RemoveInPlace(a: Level, i: nat, n: nat, f: uint64): Result<Level>
    requires i <= |a| && n <= |a|
    decreases |a| - i
  {
    if i == |a| then Ok(a[..n]) else
    if a[i].fileNum != f then RemoveInPlace(a, i + 1, n, f) else
    if i + 1 > n then Err else
    RemoveInPlace(a[..i] + a[i + 1..n] + a[n - 1..], i + 1, n - 1, f)
  }

  method RemoveFromLevel(a: array<TableMeta>, f: uint64) returns (n: nat, ok: bool)
    modifies a
    ensures var r := RemoveInPlace(old(a[..]), 0, a.Length, f);
            ok == r.Ok? && (ok ==> n <= a.Length && a[..n] == r.value)
  {
    n := a.Length;
    for i := 0 to a.Length
      invariant n <= a.Length
      invariant RemoveInPlace(a[..], i, n, f) == RemoveInPlace(old(a[..]), 0, a.Length, f)
    {
      if a[i].fileNum == f {
        if i + 1 > n {
          return n, false;
        }
        ghost var before := a[..];
        ShiftLeft(a, i, n);
        assert a[..] == before[..i] + before[i + 1..n] + before[n - 1..];
        n := n - 1;
      }
    }
    return n, true;
  }

  /** append(s[:i], s[i+1:]...) on a slice s of length n: the tail moves down, the last entry stays behind as well. */
  method ShiftLeft(a: array<TableMeta>, i: nat, n: nat)
    requires i < n <= a.Length
    modifies a
    ensures a[..] == old(a[..i]) + old(a[i + 1..n]) + old(a[n - 1..])
  {
    forall k | i <= k < n - 1 {
      a[k] := a[k + 1];
    }
  }

  /** With unique file numbers the loop removes the one table it should. */
  lemma {:induction false} InPlaceBeforeMatch(a: Level, i: nat, f: uint64)
    requires UniqueFiles(a) && i <= |a| && forall k :: 0 <= k < i ==> a[k].fileNum != f
    ensures RemoveInPlace(a, i, |a|, f) == Ok(a[..i] + Without(a[i..], f))
    decreases |a| - i
  {
    if i < |a| {
      assert a[i..][0] == a[i] && a[i..][1..] == a[i + 1..];
      if a[i].fileNum != f {
        InPlaceBeforeMatch(a, i + 1, f);
        var rest := Without(a[i + 1..], f);
        assert a[..i] + ([a[i]] + rest) == a[..i + 1] + rest;
      } else {
        var b := a[..i] + a[i + 1..] + a[|a| - 1..];
        assert a[i + 1..|a|] == a[i + 1..];
        forall t | t in a[i + 1..] ensures t.fileNum != f {
          var k :| i + 1 <= k < |a| && a[k] == t;
        }
        WithoutAbsent(a[i + 1..], f);
        NoMatchLeft(b, i + 1, |a| - 1, f);
        assert b[..|a| - 1] == a[..i] + a[i + 1..];
        assert b == a[..i] + a[i + 1..|a|] + a[|a| - 1..];
        assert Without(a[i..], f) == [] + a[i + 1..] == a[i + 1..];
      }
    } else {
      assert a[i..] == [] && Without(a[i..], f) == [] && a[..i] + [] == a[..|a|];
    }
  }

  lemma {:induction false} NoMatchLeft(a: Level, i: nat, n: nat, f: uint64)
    requires i <= |a| && n <= |a| && forall k :: i <= k < |a| ==> a[k].fileNum != f
    ensures RemoveInPlace(a, i, n, f) == Ok(a[..n])
    decreases |a| - i
  {
    if i < |a| {
      NoMatchLeft(a, i + 1, n, f);
    }
  }

  lemma InPlaceIsWithout(a: Level, f: uint64)
    requires UniqueFiles(a)
    ensures RemoveInPlace(a, 0, |a|, f) == Ok(Without(a, f))
  {
    InPlaceBeforeMatch(a, 0, f);
    assert a[..0] + Without(a[0..], f) == Without(a, f);
  }

  /** Once something was removed, everything past the end is a copy of the last table: the loop fails exactly if that one matches. */
  lemma {:induction false} StaleTail(a: Level, i: nat, n: nat, f: uint64)
    requires 0 < n < |a| && i <= n && forall k :: n <= k < |a| ==> a[k] == a[n - 1]
    ensures RemoveInPlace(a, i, n, f).Err? <==> i < |a| && a[n - 1].fileNum == f
    decreases |a| - i
  {
    if i == n {
      if a[i].fileNum != f {
        NoMatchLeft(a, i, n, f);
      }
    } else if a[i].fileNum != f {
      StaleTail(a, i + 1, n, f);
    } else {
      var b := a[..i] + a[i + 1..n] + a[n - 1..];
      assert forall k :: 0 <= k < i ==> b[k] == a[k];
      assert forall k :: i <= k < n - 1 ==> b[k] == a[k + 1];
      assert forall k :: n - 1 <= k < |a| ==> b[k] == a[k];
      if i == n - 1 {
        assert b[i + 1].fileNum == f;
      } else {
        StaleTail(b, i + 1, n - 1, f);
      }
    }
  }

  lemma {:induction false} InPlaceFailsFrom(a: Level, i: nat, f: uint64)
    requires i <= |a| && a != [] && forall k :: 0 <= k < i ==> a[k].fileNum != f
    ensures RemoveInPlace(a, i, |a|, f).Err? <==> a[|a| - 1].fileNum == f && exists k :: 0 <= k < |a| - 1 && a[k].fileNum == f
    decreases |a| - i
  {
    if i < |a| {
      if a[i].fileNum != f {
        InPlaceFailsFrom(a, i + 1, f);
      } else {
        var b := a[..i] + a[i + 1..|a|] + a[|a| - 1..];
        if i < |a| - 1 {
          assert forall k :: i <= k < |a| - 1 ==> b[k] == a[k + 1];
          assert b[|a| - 1] == a[|a| - 1];
          StaleTail(b, i + 1, |a| - 1, f);
        } else {
          assert forall k :: 0 <= k < |a| - 1 ==> a[k].fileNum != f;
        }
      }
    }
  }

  /**
   * removeFromLevel slices out of range exactly when the last table of the level has the
   * number being removed and an earlier one has it too; in particular never when numbers are unique.
   */
  lemma InPlaceFails(a: Level, f: uint64)
    ensures RemoveInPlace(a, 0, |a|, f).Err? <==>
        a != [] && a[|a| - 1].fileNum == f && exists k :: 0 <= k < |a| - 1 && a[k].fileNum == f
  {
    if a != [] {
      InPlaceFailsFrom(a, 0, f);
    }
  }

  // ---------- edits ----------

  function DeleteAll(levels: Levels, dels: seq<DeletedTable>): (r: Levels)
    requires forall d :: d in dels ==> d.level < |levels|
    ensures |r| == |levels|
    decreases |dels|
  {
    if dels == [] then levels else
      var d := dels[0];
      DeleteAll(levels[d.level := RemoveFirst(levels[d.level], d.fileNum)], dels[1..])
  }

  function AddAll(levels: Levels, adds: seq<TableMeta>): (r: Levels)
    requires forall t :: t in adds ==> t.level < |levels|
    ensures |r| == |levels|
    decreases |adds|
  {
    if adds == [] then levels else
      var t := adds[0];
      AddAll(levels[t.level := levels[t.level] + [t]], adds[1..])
  }

  /** The edit names levels that exist; the source would panic otherwise. */
  predicate InRange(levels: Levels, edit: VersionEdit) {
    (forall t :: t in edit.addTables ==> t.level < |levels|) && (forall d :: d in edit.deleteTables ==> d.level < |levels|)
  }

  /** apply: deletions first, then additions at the end of their levels. */
  function Applied(levels: Levels, edit: VersionEdit): Levels
    requires InRange(levels, edit)
  {
    AddAll(DeleteAll(levels, edit.deleteTables), edit.addTables)
  }

  ghost predicate UniqueLevels(levels: Levels) {
    forall l :: 0 <= l < |levels| ==> UniqueFiles(levels[l])
  }

  /** The numbers an edit deletes from level l. */
  ghost function DeletedAt(dels: seq<DeletedTable>, l: nat): set<uint64> {
    set d | d in dels && d.level == l :: d.fileNum
  }

  function AddedAt(adds: seq<TableMeta>, l: nat): Level {
    if adds == [] then [] else (if adds[0].level == l then [adds[0]] else []) + AddedAt(adds[1..], l)
  }

  /** The tables whose numbers are not in fs, in order. */
  ghost function Keep(tables: Level, fs: set<uint64>): Level {
    if tables == [] then [] else (if tables[0].fileNum in fs then [] else [tables[0]]) + Keep(tables[1..], fs)
  }

  lemma {:induction false} KeepMembers(tables: Level, fs: set<uint64>)
    ensures forall t :: t in Keep(tables, fs) <==> t in tables && t.fileNum !in fs
  {
    if tables != [] {
      KeepMembers(tables[1..], fs);
      assert tables == [tables[0]] + tables[1..];
    }
  }

  lemma {:induction false} KeepConcat(a: Level, b: Level, fs: set<uint64>)
    ensures Keep(a + b, fs) == Keep(a, fs) + Keep(b, fs)
  {
    if a == [] {
      assert a + b == b;
    } else {
      KeepConcat(a[1..], b, fs);
      ConsRest(a, b);
      ConcatAssociates(if a[0].fileNum in fs then [] else [a[0]], Keep(a[1..], fs), Keep(b, fs));
    }
  }

  lemma {:induction false} KeepAfterWithout(tables: Level, f: uint64, fs: set<uint64>)
    ensures Keep(Without(tables, f), fs) == Keep(tables, fs + {f})
  {
    if tables != [] {
      KeepAfterWithout(tables[1..], f, fs);
      var rest := Without(tables[1..], f);
      if tables[0].fileNum == f {
        assert [] + rest == rest;
      } else {
        assert ([tables[0]] + rest)[1..] == rest;
      }
    }
  }

  lemma {:induction false} KeepAll(tables: Level, fs: set<uint64>)
    requires forall t :: t in tables ==> t.fileNum !in fs
    ensures Keep(tables, fs) == tables
  {
    if tables != [] {
      assert tables[0] in tables;
      KeepAll(tables[1..], fs);
      assert [tables[0]] + tables[1..] == tables;
    }
  }

  lemma {:induction false} KeepNone(tables: Level, fs: set<uint64>)
    requires forall t :: t in tables ==> t.fileNum in fs
    ensures Keep(tables, fs) == []
  {
    if tables != [] {
      assert tables[0] in tables;
      KeepNone(tables[1..], fs);
    }
  }

  lemma {:induction false} DeleteAllKeeps(levels: Levels, dels: seq<DeletedTable>, l: nat)
    requires UniqueLevels(levels) && l < |levels| && forall d :: d in dels ==> d.level < |levels|
    ensures DeleteAll(levels, dels)[l] == Keep(levels[l], DeletedAt(dels, l))
    decreases |dels|
  {
    if dels == [] {
      assert DeletedAt(dels, l) == {};
      KeepAll(levels[l], {});
    } else {
      var d := dels[0];
      var next := levels[d.level := RemoveFirst(levels[d.level], d.fileNum)];
      RemoveFirstIsWithout(levels[d.level], d.fileNum);
      WithoutMembers(levels[d.level], d.fileNum);
      assert dels == [d] + dels[1..];
      DeleteAllKeeps(next, dels[1..], l);
      if d.level == l {
        KeepAfterWithout(levels[l], d.fileNum, DeletedAt(dels[1..], l));
        assert DeletedAt(dels, l) == DeletedAt(dels[1..], l) + {d.fileNum};
      } else {
        assert DeletedAt(dels, l) == DeletedAt(dels[1..], l);
      }
    }
  }

  lemma {:induction false} AddAllAppends(levels: Levels, adds: seq<TableMeta>, l: nat)
    requires l < |levels| && forall t :: t in adds ==> t.level < |levels|
    ensures AddAll(levels, adds)[l] == levels[l] + AddedAt(adds, l)
    decreases |adds|
  {
    if adds != [] {
      var t := adds[0];
      assert adds == [t] + adds[1..];
      AddAllAppends(levels[t.level := levels[t.level] + [t]], adds[1..], l);
    }
  }

  /** What an edit does to each level: the deleted numbers go, the added tables follow in order. */
  lemma AppliedAt(levels: Levels, edit: VersionEdit, l: nat)
    requires UniqueLevels(levels) && InRange(levels, edit) && l < |levels|
    ensures Applied(levels, edit)[l] == Keep(levels[l], DeletedAt(edit.deleteTables, l)) + AddedAt(edit.addTables, l)
  {
    DeleteAllKeeps(levels, edit.deleteTables, l);
    AddAllAppends(DeleteAll(levels, edit.deleteTables), edit.addTables, l);
  }

  lemma {:induction false} AddedMembers(adds: seq<TableMeta>, l: nat)
    ensures forall t :: t in AddedAt(adds, l) <==> t in adds && t.level == l
  {
    if adds != [] {
      AddedMembers(adds[1..], l);
      assert adds == [adds[0]] + adds[1..];
    }
  }

  lemma {:induction false} AddedAll(adds: seq<TableMeta>, l: nat)
    requires forall t :: t in adds ==> t.level == l
    ensures AddedAt(adds, l) == adds
  {
    if adds != [] {
      assert adds[0] in adds;
      AddedAll(adds[1..], l);
      assert [adds[0]] + adds[1..] == adds;
    }
  }

  lemma {:induction false} AddedNone(adds: seq<TableMeta>, l: nat)
    requires forall t :: t in adds ==> t.level != l
    ensures AddedAt(adds, l) == []
  {
    if adds != [] {
      assert adds[0] in adds;
      AddedNone(adds[1..], l);
    }
  }

  // ---------- key ranges ----------

  /** The table's range of user keys meets [lo, hi]. */
  predicate Meets(t: TableMeta, lo: bytes, hi: bytes) {
    AtMost(lo, t.maxKey.userKey) && AtMost(t.minKey.userKey, hi)
  }

  function Overlapping(tables: Level, lo: bytes, hi: bytes): Level {
    if tables == [] then [] else
      var n := |tables| - 1;
      Overlapping(tables[..n], lo, hi) + (if Meets(tables[n], lo, hi) then [tables[n]] else [])
  }

  method FindOverlapping(tables: Level, minKey: bytes, maxKey: bytes) returns (out: Level)
    ensures out == Overlapping(tables, minKey, maxKey)
  {
    out := [];
    for i := 0 to |tables|
      invariant out == Overlapping(tables[..i], minKey, maxKey)
    {
      var t := tables[i];
      assert tables[..i + 1][..i] == tables[..i];
      if Less(t.maxKey.userKey, minKey) || Less(maxKey, t.minKey.userKey) {
        continue;
      }
      out := out + [t];
    }
    assert tables[..|tables|] == tables;
  }

  lemma {:induction false} OverlappingMembers(tables: Level, lo: bytes, hi: bytes)
    ensures forall t :: t in Overlapping(tables, lo, hi) <==> t in tables && Meets(t, lo, hi)
    ensures UniqueFiles(tables) ==> UniqueFiles(Overlapping(tables, lo, hi))
  {
    if tables != [] {
      var n := |tables| - 1;
      OverlappingMembers(tables[..n], lo, hi);
      assert tables == tables[..n] + [tables[n]];
      if UniqueFiles(tables) {
        assert UniqueFiles(tables[..n]);
        var rest := Overlapping(tables[..n], lo, hi);
        forall i | 0 <= i < |rest| ensures rest[i].fileNum != tables[n].fileNum {
          assert rest[i] in rest;
        }
      }
    }
  }

  /** lo and hi are the least and greatest user keys that the tables' ranges mention. */
  ghost predicate IsRange(tables: Level, lo: bytes, hi: bytes) {
    && (forall t :: t in tables ==> AtMost(lo, t.minKey.userKey) && AtMost(t.maxKey.userKey, hi))
    && (exists t :: t in tables && t.minKey.userKey == lo)
    && (exists t :: t in tables && t.maxKey.userKey == hi)
  }

  method KeyRangeOf(tables: Level) returns (minKey: bytes, maxKey: bytes)
    ensures tables == [] ==> minKey == [] && maxKey == []
    ensures tables != [] ==> IsRange(tables, minKey, maxKey)
  {
    if |tables| == 0 {
      return [], [];
    }
    LessIsOrder();
    minKey, maxKey := tables[0].minKey.userKey, tables[0].maxKey.userKey;
    for i := 1 to |tables|
      invariant forall k :: 0 <= k < i ==> AtMost(minKey, tables[k].minKey.userKey) && AtMost(tables[k].maxKey.userKey, maxKey)
      invariant exists k :: 0 <= k < i && tables[k].minKey.userKey == minKey
      invariant exists k :: 0 <= k < i && tables[k].maxKey.userKey == maxKey
    {
      if Less(tables[i].minKey.userKey, minKey) {
        minKey := tables[i].minKey.userKey;
      }
      if Less(maxKey, tables[i].maxKey.userKey) {
        maxKey := tables[i].maxKey.userKey;
      }
    }
  }

  ghost predicate WholeRange(t: TableMeta) {
    AtMost(t.minKey.userKey, t.maxKey.userKey)
  }

  /** t lies wholly below u. */
  ghost predicate Below(t: TableMeta, u: TableMeta) {
    Less(t.maxKey.userKey, u.minKey.userKey)
  }

  /** No two tables of the level share a user key. */
  ghost predicate DisjointRanges(tables: Level) {
    forall i, j :: 0 <= i < j < |tables| ==> Below(tables[i], tables[j]) || Below(tables[j], tables[i])
  }

  /**
   * A next-level table that is not picked up by the overlap test lies wholly below, or wholly
   * above, all inputs and all overlapping tables taken together: it misses their hull.
   */
  lemma RetainedMissHull(inputs: Level, next: Level, lo: bytes, hi: bytes, t: TableMeta)
    requires if inputs == [] then lo == hi == [] else IsRange(inputs, lo, hi)
    requires forall u :: u in inputs || u in next ==> WholeRange(u)
    requires DisjointRanges(next) && t in next && !Meets(t, lo, hi)
    ensures var all := inputs + Overlapping(next, lo, hi);
            (forall u :: u in all ==> Below(t, u)) || (forall u :: u in all ==> Below(u, t))
  {
    LessIsOrder();
    OverlappingMembers(next, lo, hi);
    var i :| 0 <= i < |next| && next[i] == t;
    forall u | u in Overlapping(next, lo, hi) ensures if Less(t.maxKey.userKey, lo) then Below(t, u) else Below(u, t) {
      var j :| 0 <= j < |next| && next[j] == u;
      assert i != j;
    }
  }
}
