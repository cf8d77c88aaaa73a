/** Writing a rotated memtable to a table file (internal/engine/flusher.go). */
module Flushers {
  import opened Bytes
  import opened Records
  import opened Runs
  import opened Cuts
  import opened Filters
  import opened TableImage
  import opened TableWriters
  import opened TableSizes
  import opened Memtables
  import opened CompactionOutputs

  /** Of the run, added has been written and rest is still to come; the keys remembered are those of added. */
  ghost predicate Midway(run: seq<Record>, added: seq<Record>, rest: seq<Record>, hasData: bool, firstKey: InternalKey, lastKey: InternalKey) {
    && run == added + rest && hasData == (added != [])
    && (hasData ==> firstKey == added[0].key && lastKey == added[|added| - 1].key)
  }

  lemma OneFurther(run: seq<Record>, added: seq<Record>, rest: seq<Record>, hasData: bool, firstKey: InternalKey, lastKey: InternalKey)
    requires Midway(run, added, rest, hasData, firstKey, lastKey) && rest != []
    ensures Midway(run, added + [rest[0]], rest[1..], true, if hasData then firstKey else rest[0].key, rest[0].key)
    ensures AllFit(run) ==> rest[0].Fits()
  {
    assert rest == [rest[0]] + rest[1..];
    assert run[|added|] == rest[0] && run[|added|] in run;
  }

  /** The file and its true first and last keys; an empty memtable makes no table. */
  method WriteMemtable(mt: Memtable, opts: TableOptions, env: Env)
    returns (hasData: bool, file: bytes, firstKey: InternalKey, lastKey: InternalKey, ghost blocks: Blocks, ghost f: FilterData)
    requires mt.Valid() && opts.filter.WellFormed()
    requires AllFit(mt.Records()) && SumSizes(mt.Records()) < 2 * SIZE_LIMIT
    ensures var run := mt.Records();
            && hasData == (run != [])
            && (hasData ==> firstKey == run[0].key && lastKey == run[|run| - 1].key)
            && IsTable(env, file, blocks, f) && Shaped(env, opts, blocks, f) && Flatten(blocks) == run
  {
    hide IsTable, Shaped, TableWriter.Valid, TableWriter.Added, SumSizes, Midway, AllFit, Memtable.Valid, Memtable.Repr, MemtableIterator.Valid, MemtableIterator.Remaining;
    ghost var run := mt.Records();
    firstKey, lastKey, hasData := InternalKey([], 0, 0), InternalKey([], 0, 0), false;
    var iter := mt.Iterator();
    var writer := NewWriter(opts, env, iter);
    Start(run);
    while iter.HasCurrent()
      invariant Underway(iter, writer, opts, env) && fresh(iter) && fresh(writer.Repr())
      invariant Midway(run, writer.Added(), iter.Remaining(), hasData, firstKey, lastKey)
      decreases |iter.Remaining()|
    {
      hasData, firstKey, lastKey := AddOne(iter, writer, opts, env, run, hasData, firstKey, lastKey);
    }
    iter.CurrentIsFirst();
    Done(run, writer.Added(), hasData, firstKey, lastKey);
    file, blocks, f := CloseWriter(writer, opts, run);
  }

  ghost predicate Underway(iter: MemtableIterator, writer: TableWriter, opts: TableOptions, env: Env)
    reads iter, iter.frame, writer, writer.Repr()
  {
    && iter.Valid() && writer.Valid() && writer.env == env && writer.blockSize == opts.blockSize && writer.filter0 == opts.filter
    && writer.Repr() !! {iter} + iter.frame && iter !in iter.frame
  }

  /** One round of the loop. */
  method AddOne(iter: MemtableIterator, writer: TableWriter, ghost opts: TableOptions, env: Env, ghost run: seq<Record>, hasData: bool, firstKey: InternalKey, lastKey: InternalKey)
    returns (has: bool, first: InternalKey, last: InternalKey)
    requires Underway(iter, writer, opts, env) && iter.HasCurrent() && AllFit(run)
    requires Midway(run, writer.Added(), iter.Remaining(), hasData, firstKey, lastKey)
    modifies iter, writer.Repr()
    ensures Underway(iter, writer, opts, env) && Midway(run, writer.Added(), iter.Remaining(), has, first, last)
    ensures |iter.Remaining()| < |old(iter.Remaining())|
  {
    hide TableWriter.Valid, TableWriter.Added, SumSizes, Midway, AllFit;
    iter.CurrentIsFirst();
    OneFurther(run, writer.Added(), iter.Remaining(), hasData, firstKey, lastKey);
    var rec := iter.Current();
    has, first := hasData, firstKey;
    if !has {
      first := rec.key;
      has := true;
    }
    last := rec.key;
    writer.Add(rec);
    iter.Next();
  }

  method CloseWriter(writer: TableWriter, ghost opts: TableOptions, ghost run: seq<Record>) returns (file: bytes, ghost blocks: Blocks, ghost f: FilterData)
    requires writer.Valid() && writer.Added() == run && SumSizes(run) < 2 * SIZE_LIMIT
    requires writer.blockSize == opts.blockSize && writer.filter0 == opts.filter
    modifies writer.Repr()
    ensures IsTable(writer.env, file, blocks, f) && Shaped(writer.env, opts, blocks, f) && Flatten(blocks) == run
  {
    hide IsTable, SumSizes, CutInto, FilterOf;
    var size := writer.Close();
    file, blocks, f := writer.file.data, writer.blocks, writer.filter.Data();
    SmallTableFits(writer.env.crc, blocks, f);
  }

  method NewWriter(opts: TableOptions, env: Env, iter: MemtableIterator) returns (writer: TableWriter)
    requires opts.filter.WellFormed() && iter.Valid() && iter !in iter.frame
    ensures Underway(iter, writer, opts, env) && writer.Added() == [] && fresh(writer.Repr())
  {
    hide TableWriter.Valid, TableWriter.Added;
    assert allocated(iter.frame);
    writer := new TableWriter(opts.blockSize, opts.filter, env);
    assert unchanged(iter) && unchanged(iter.frame);
  }

  lemma Start(run: seq<Record>)
    ensures Midway(run, [], run, false, InternalKey([], 0, 0), InternalKey([], 0, 0))
  {
  }

  lemma Done(run: seq<Record>, added: seq<Record>, hasData: bool, firstKey: InternalKey, lastKey: InternalKey)
    requires Midway(run, added, [], hasData, firstKey, lastKey)
    ensures added == run && hasData == (run != []) && (hasData ==> firstKey == run[0].key && lastKey == run[|run| - 1].key)
  {
  }
}
