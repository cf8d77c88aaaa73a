/** Replaying the logs into a memtable when the engine is opened (internal/engine/recover.go, write.go). */
module Recoveries {
  import opened Bytes
  import opened Records
  import opened Runs
  import opened TableFormat
  import opened Wals
  import opened TableSizes
  import opened Memtables
  import opened TableSets
  import Lsm
  import opened LsmRecovery
  import opened FileNames
  import Snapshots

  /** The log directory: the bytes of each file by its name. */
  type Directory = map<string, bytes>

  /** wal.Open: a file that is not there is created empty. */
  function LogFile(dir: Directory, n: uint64): bytes {
    if LogName(n) in dir then dir[LogName(n)] else []
  }

  /** The records that replaying the logs in order hands on, each log being removed after it, up to the first that is cut short or damaged. */
  function Delivered(crc: Checksum, dir: Directory, order: seq<uint64>): Outcome {
    if order == [] then Outcome([], true) else
      var first := Replay(crc, LogFile(dir, order[0]));
      if !first.ok then first else
        var rest := Delivered(crc, dir - {LogName(order[0])}, order[1..]);
        Outcome(first.recs + rest.recs, rest.ok)
  }

  /** The numbers that the names of the directory's entries are scanned to, in that order. */
  function Scanned(entries: seq<string>): seq<uint64> {
    if entries == [] then [] else
      var n := LogNumber(entries[|entries| - 1]);
      Scanned(entries[..|entries| - 1]) + if n.Some? then [n.value] else []
  }

  /** The directory holds the logs, whole. */
  ghost predicate DirectoryHolds(crc: Checksum, dir: Directory, logs: Files) {
    && (forall n :: n in logs ==> LogName(n) in dir && dir[LogName(n)] == EncodedRecords(crc, logs[n]) && AllFit(logs[n]))
    && (forall name :: name in dir ==> exists n: uint64 :: n in logs && LogName(n) == name)
  }

  ghost predicate Increasing(order: seq<uint64>) {
    forall i, j :: 0 <= i < j < |order| ==> order[i] < order[j]
  }

  ghost predicate HoldsLogs(crc: Checksum, dir: Directory, runs: Files, order: seq<uint64>) {
    forall n :: n in order ==> n in runs && LogName(n) in dir && dir[LogName(n)] == EncodedRecords(crc, runs[n]) && AllFit(runs[n])
  }

  lemma OthersHeld(crc: Checksum, dir: Directory, runs: Files, order: seq<uint64>)
    requires order != [] && Increasing(order) && HoldsLogs(crc, dir, runs, order)
    ensures Increasing(order[1..]) && HoldsLogs(crc, dir - {LogName(order[0])}, runs, order[1..])
  {
    hide EncodedRecords, LogName;
    forall n | n in order[1..] ensures n in order && LogName(n) != LogName(order[0]) {
      NamesDistinct(n, order[0]);
    }
  }

  lemma ReplayedFirst(runs: Files, order: seq<uint64>)
    requires order != []
    ensures Replayed(runs, order) == Run(runs, order[0]) + Replayed(runs, order[1..])
  {
    var rs := seq(|order|, i requires 0 <= i < |order| => Run(runs, order[i]));
    assert rs[1..] == seq(|order[1..]|, i requires 0 <= i < |order[1..]| => Run(runs, order[1..][i]));
  }

  /** Logs that were closed or cut at a frame boundary are delivered in full. */
  lemma {:induction false} WholeLogsDelivered(crc: Checksum, dir: Directory, runs: Files, order: seq<uint64>)
    requires Increasing(order) && HoldsLogs(crc, dir, runs, order)
    ensures Delivered(crc, dir, order) == Outcome(Replayed(runs, order), true)
  {
    if order != [] {
      OthersHeld(crc, dir, runs, order);
      assert order[0] in order;
      hide LogName, EncodedRecords, Replay, Increasing, Replayed;
      WholeReplay(crc, runs[order[0]]);
      WholeLogsDelivered(crc, dir - {LogName(order[0])}, runs, order[1..]);
      ReplayedFirst(runs, order);
    }
  }

  lemma {:induction false} MaxSeqFrom(recs: seq<Record>, start: uint64)
    ensures MaxSeq(recs, start) == Max(start, MaxSeq(recs, 0))
  {
    if recs != [] {
      MaxSeqFrom(recs[..|recs| - 1], start);
    }
  }

  lemma {:induction false} MaxSeqConcat(a: seq<Record>, b: seq<Record>, start: uint64)
    ensures MaxSeq(a + b, start) == MaxSeq(b, MaxSeq(a, start))
    decreases |b|
  {
    if b == [] {
      assert a + b == a;
    } else {
      var n := |b| - 1;
      assert (a + b)[..|a + b| - 1] == a + b[..n];
      MaxSeqConcat(a, b[..n], start);
    }
  }

  lemma {:induction false} InsertAllConcat(mt: seq<Record>, a: seq<Record>, b: seq<Record>)
    ensures InsertAll(mt, a + b) == InsertAll(InsertAll(mt, a), b)
    decreases |b|
  {
    if b == [] {
      assert a + b == a;
    } else {
      var n := |b| - 1;
      assert (a + b)[..|a + b| - 1] == a + b[..n];
      InsertAllConcat(mt, a, b[..n]);
    }
  }

  /** One log: its records go into the memtable, and their greatest number is noted. */
  method ReplayLog(crc: Checksum, file: bytes, mt: Memtable) returns (maxSeq: uint64, ok: bool, ghost recs: seq<Record>)
    requires mt.Valid() && mt.list.maxLevel >= 1
    modifies mt.Repr()
    ensures mt.Valid() && fresh(mt.Repr() - old(mt.Repr()))
    ensures Replay(crc, file) == Outcome(recs, ok) && mt.Records() == InsertAll(old(mt.Records()), recs) && maxSeq == MaxSeq(recs, 0)
  {
    hide Memtable.Valid, Replay, Insert;
    var all;
    all, ok := ReplayFile(crc, file);
    maxSeq := 0;
    for i := 0 to |all|
      invariant mt.Valid() && fresh(mt.Repr() - old(mt.Repr()))
      invariant mt.Records() == InsertAll(old(mt.Records()), all[..i]) && maxSeq == MaxSeq(all[..i], 0)
    {
      assert all[..i + 1][..i] == all[..i];
      var lvl: nat :| 1 <= lvl <= mt.list.maxLevel;
      mt.Put(all[i], lvl);
      if all[i].key.seqNum > maxSeq {
        maxSeq := all[i].key.seqNum;
      }
    }
    assert all[..|all|] == all;
    recs := all;
  }

  /** The names of the logs with these numbers. */
  ghost function NameSet(order: seq<uint64>): set<string> {
    set n | n in order :: LogName(n)
  }

  lemma DeliveredStep(crc: Checksum, dir: Directory, order: seq<uint64>, i: nat, done: seq<Record>)
    requires i < |order|
    requires var rest := Delivered(crc, dir - NameSet(order[..i]), order[i..]); Delivered(crc, dir, order) == Outcome(done + rest.recs, rest.ok)
    ensures var first, rest := Replay(crc, LogFile(dir - NameSet(order[..i]), order[i])), Delivered(crc, dir - NameSet(order[..i + 1]), order[i + 1..]);
            if first.ok then Delivered(crc, dir, order) == Outcome((done + first.recs) + rest.recs, rest.ok)
            else Delivered(crc, dir, order) == Outcome(done + first.recs, false)
  {
    hide Replay, LogFile, LogName;
    var left := dir - NameSet(order[..i]);
    assert order[i..][0] == order[i] && order[i..][1..] == order[i + 1..];
    NameMore(dir, order, i);
    var first := Replay(crc, LogFile(left, order[i]));
    if first.ok {
      ConcatAssociates(done, first.recs, Delivered(crc, dir - NameSet(order[..i + 1]), order[i + 1..]).recs);
    }
  }

  lemma NameMore(dir: Directory, order: seq<uint64>, i: nat)
    requires i < |order|
    ensures dir - NameSet(order[..i + 1]) == (dir - NameSet(order[..i])) - {LogName(order[i])}
  {
    hide LogName;
    assert order[..i + 1] == order[..i] + [order[i]];
  }

  /** The loop over the directory's entries: a name that does not scan is passed over. */
  method ScanNames(entries: seq<string>) returns (fileNums: seq<uint64>)
    ensures fileNums == Scanned(entries)
  {
    fileNums := [];
    for i := 0 to |entries|
      invariant fileNums == Scanned(entries[..i])
    {
      assert entries[..i + 1][..i] == entries[..i];
      var num := LogNumber(entries[i]);
      if num.None? {
        continue;
      }
      fileNums := fileNums + [num.value];
    }
    assert entries[..|entries|] == entries;
  }

  /**
   * recover's loop over the log files in ascending order. Each is replayed, then removed; after an
   * error the rest stay. The memtable is taken to be large enough that replay does not fill it.
   */
  method Recover(crc: Checksum, dir: Directory, entries: seq<string>, mt: Memtable, lastSeq: uint64)
    returns (seqNum: uint64, left: Directory, ok: bool, ghost order: seq<uint64>)
    requires mt.Valid() && mt.list.maxLevel >= 1
    modifies mt.Repr()
    ensures Snapshots.Ascending(order) && multiset(order) == multiset(Scanned(entries))
    ensures var d := Delivered(crc, dir, order);
            && mt.Valid() && ok == d.ok && mt.Records() == InsertAll(old(mt.Records()), d.recs) && fresh(mt.Repr() - old(mt.Repr()))
            && (ok ==> seqNum == MaxSeq(d.recs, lastSeq) && left == dir - NameSet(order))
  {
    hide Memtable.Valid, Replay, Insert, MaxSeq, InsertAll, Delivered, LogName, LogFile, NameSet, Scanned;
    var fileNums := ScanNames(entries);
    fileNums := Snapshots.Sort(fileNums);
    order := fileNums;
    seqNum, left := lastSeq, dir;
    ghost var done: seq<Record> := [];
    Begin(crc, dir, order, old(mt.Records()), lastSeq);
    for i := 0 to |fileNums|
      invariant mt.Valid() && fresh(mt.Repr() - old(mt.Repr()))
      invariant left == dir - NameSet(order[..i])
      invariant Delivered(crc, dir, order) == Outcome(done + Delivered(crc, left, order[i..]).recs, Delivered(crc, left, order[i..]).ok)
      invariant mt.Records() == InsertAll(old(mt.Records()), done) && seqNum == MaxSeq(done, lastSeq)
    {
      DeliveredStep(crc, dir, order, i, done);
      var maxSeq, replayed, recs := ReplayLog(crc, LogFile(left, fileNums[i]), mt);
      InsertAllConcat(old(mt.Records()), done, recs);
      if !replayed {
        return seqNum, left, false, order;
      }
      NameMore(dir, order, i);
      left := left - {LogName(fileNums[i])};
      MaxSeqConcat(done, recs, lastSeq);
      MaxSeqFrom(recs, seqNum);
      if maxSeq > seqNum {
        seqNum := maxSeq;
      }
      done := done + recs;
    }
    End(crc, dir, order, done);
    ok := true;
  }

  lemma Begin(crc: Checksum, dir: Directory, order: seq<uint64>, mt: seq<Record>, lastSeq: uint64)
    ensures order[0..] == order && order[..0] == [] && dir - NameSet([]) == dir
    ensures Delivered(crc, dir, order) == Outcome([] + Delivered(crc, dir, order).recs, Delivered(crc, dir, order).ok)
    ensures InsertAll(mt, []) == mt && MaxSeq([], lastSeq) == lastSeq
  {
  }

  lemma End(crc: Checksum, dir: Directory, order: seq<uint64>, done: seq<Record>)
    requires var rest := Delivered(crc, dir - NameSet(order[..|order|]), order[|order|..]); Delivered(crc, dir, order) == Outcome(done + rest.recs, rest.ok)
    ensures Delivered(crc, dir, order) == Outcome(done, true) && order[..|order|] == order
  {
    assert order[|order|..] == [];
    assert done + [] == done;
  }

  // ---------- the directory of a running engine ----------

  lemma {:induction false} ScannedMembers(entries: seq<string>)
    ensures forall n :: n in Scanned(entries) <==> exists name :: name in entries && LogNumber(name) == Some(n)
  {
    hide LogNumber;
    if entries != [] {
      var k := |entries| - 1;
      ScannedMembers(entries[..k]);
      assert entries == entries[..k] + [entries[k]];
    }
  }

  ghost predicate Distinct<T>(s: seq<T>) {
    forall i, j :: 0 <= i < j < |s| ==> s[i] != s[j]
  }

  ghost predicate IsNameOf(name: string, logs: set<uint64>) {
    exists n: uint64 :: n in logs && LogName(n) == name
  }

  /** Logs whose names scan to the same number are the same. */
  lemma SameNumber(logs: set<uint64>, a: string, b: string)
    requires IsNameOf(a, logs) && IsNameOf(b, logs)
    ensures LogNumber(a) == LogNumber(b) ==> LogNumber(a) == None || a == b
  {
    var n: uint64 :| n in logs && LogName(n) == a;
    var m: uint64 :| m in logs && LogName(m) == b;
    hide LogNumber, LogName;
    LogNumberIff(n);
    LogNumberIff(m);
  }

  ghost predicate AllNames(entries: seq<string>, logs: set<uint64>) {
    forall name :: name in entries ==> IsNameOf(name, logs)
  }

  lemma LastIsNew(entries: seq<string>, logs: set<uint64>)
    requires entries != [] && Distinct(entries) && AllNames(entries, logs)
    ensures var k := |entries| - 1; LogNumber(entries[k]).Some? ==> LogNumber(entries[k]).value !in Scanned(entries[..k])
    ensures AllNames(entries[..|entries| - 1], logs)
  {
    hide LogNumber, LogName, IsNameOf;
    var k := |entries| - 1;
    ScannedMembers(entries[..k]);
    assert entries[k] in entries;
    forall name | name in entries[..k] ensures name in entries && (LogNumber(name) == None || LogNumber(name) != LogNumber(entries[k])) {
      var i :| 0 <= i < k && entries[..k][i] == name;
      assert name == entries[i] && name != entries[k];
      SameNumber(logs, name, entries[k]);
    }
    hide Scanned;
  }

  lemma DistinctSnoc<T>(s: seq<T>, x: T)
    requires Distinct(s) && x !in s
    ensures Distinct(s + [x])
  {
  }

  /** Different logs scan to different numbers. */
  lemma {:induction false} ScannedDistinct(entries: seq<string>, logs: set<uint64>)
    requires Distinct(entries) && AllNames(entries, logs)
    ensures Distinct(Scanned(entries))
  {
    if entries != [] {
      var k := |entries| - 1;
      LastIsNew(entries, logs);
      assert Distinct(entries[..k]);
      hide LogNumber, AllNames, Distinct;
      ScannedDistinct(entries[..k], logs);
      if LogNumber(entries[k]).Some? {
        DistinctSnoc(Scanned(entries[..k]), LogNumber(entries[k]).value);
      } else {
        assert Scanned(entries) == Scanned(entries[..k]);
      }
    }
  }

  lemma SortedDistinct(s: seq<uint64>, order: seq<uint64>)
    requires Distinct(s) && Snapshots.Ascending(order) && multiset(order) == multiset(s)
    ensures Increasing(order) && forall n :: n in order <==> n in s
  {
    forall n ensures n in order <==> n in s {
      assert n in order <==> n in multiset(order);
      assert n in s <==> n in multiset(s);
    }
    OnceEach(s);
    forall i, j | 0 <= i < j < |order| ensures order[i] < order[j] {
      assert order[i] in order && order[i] in s;
      if order[i] == order[j] {
        Twice(order, i, j);
      }
    }
  }

  lemma {:induction false} OnceEach<T>(s: seq<T>)
    requires Distinct(s)
    ensures forall x :: x in s ==> multiset(s)[x] == 1
  {
    if s != [] {
      var k := |s| - 1;
      OnceEach(s[..k]);
      assert s == s[..k] + [s[k]];
      assert s[k] !in s[..k];
    }
  }

  lemma Twice<T>(s: seq<T>, i: nat, j: nat)
    requires i < j < |s| && s[i] == s[j]
    ensures multiset(s)[s[i]] >= 2
  {
    assert s == s[..i] + [s[i]] + s[i + 1..j] + [s[j]] + s[j + 1..];
  }

  /** The entries are the names of the logs. */
  ghost predicate NamesOf(entries: seq<string>, logs: set<uint64>) {
    (forall n: uint64 :: n in logs ==> LogName(n) in entries) && AllNames(entries, logs)
  }

  lemma ScannedLogs(entries: seq<string>, logs: set<uint64>, n: uint64)
    requires NamesOf(entries, logs)
    ensures n in Scanned(entries) <==> n in logs && n < NAME_LIMIT
  {
    hide LogNumber, LogName, Scanned;
    ScannedMembers(entries);
    LogNumberIff(n);
    if n in Scanned(entries) {
      var name :| name in entries && LogNumber(name) == Some(n);
      var m: uint64 :| m in logs && LogName(m) == name;
      LogNumberIff(m);
    }
  }

  lemma DirectoryNames(crc: Checksum, dir: Directory, logs: Files, entries: seq<string>)
    requires DirectoryHolds(crc, dir, logs) && forall name :: name in entries <==> name in dir
    ensures NamesOf(entries, logs.Keys)
  {
    hide LogName, EncodedRecords;
  }

  /** The order in which recovery reads a running engine's own logs: all of them whose numbers their names give back. */
  lemma OrderOfLogs(crc: Checksum, dir: Directory, logs: Files, entries: seq<string>, order: seq<uint64>)
    requires DirectoryHolds(crc, dir, logs) && Distinct(entries) && forall name :: name in entries <==> name in dir
    requires Snapshots.Ascending(order) && multiset(order) == multiset(Scanned(entries))
    ensures ReplayOrder(order, logs)
  {
    DirectoryNames(crc, dir, logs, entries);
    hide DirectoryHolds, Scanned, LogName;
    ScannedDistinct(entries, logs.Keys);
    SortedDistinct(Scanned(entries), order);
    hide Distinct, Snapshots.Ascending, NamesOf;
    forall n: uint64 ensures n in order <==> n in logs && n < NAME_LIMIT {
      ScannedLogs(entries, logs.Keys, n);
    }
  }

  /** Recovering a running engine's own logs yields the memtable and the sequence number of its recovered state. */
  lemma RecoverYieldsState(crc: Checksum, s: Lsm.State, dir: Directory, entries: seq<string>, order: seq<uint64>)
    requires DirectoryHolds(crc, dir, s.logs) && Distinct(entries) && forall name :: name in entries <==> name in dir
    requires Snapshots.Ascending(order) && multiset(order) == multiset(Scanned(entries)) && s.loggedNext < MAX_UINT64
    ensures ReplayOrder(order, s.logs)
    ensures var d, r := Delivered(crc, dir, order), Recovered(DiskOf(s), order);
            d.ok && InsertAll([], d.recs) == r.mt && MaxSeq(d.recs, s.lastSeq) == r.seqNum
  {
    hide Distinct, Scanned, InsertAll, MaxSeq, LogName;
    OrderOfLogs(crc, dir, s.logs, entries, order);
    WholeLogsDelivered(crc, dir, s.logs, order);
  }
}
