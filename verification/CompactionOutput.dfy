/** Writing the merged records of a compaction into tables (internal/engine/compactor.go). */
module CompactionOutputs {
  import opened Bytes
  import opened Records
  import opened Runs
  import opened Cuts
  import opened Filters
  import opened TableFormat
  import opened TableImage
  import opened TableWriters
  import opened TableSizes
  import opened Versions
  import opened Manifests
  import opened Collapses
  import opened TableSets

  /** Sizes for which no field of the file format can overflow. */
  const SIZE_LIMIT: nat := 0x1000_0000

  ghost predicate Small(r: Record) {
    r.Fits() && r.Size() < SIZE_LIMIT
  }

  /** The file holds the run, under the metadata given. */
  ghost predicate HoldsRun(env: Env, t: TableMeta, file: bytes, blocks: Blocks, f: FilterData, run: seq<Record>) {
    t.fileSize == Low64(|file|) && IsTable(env, file, blocks, f) && Flatten(blocks) == run
  }

  /** Every finished table is non-empty, holds its run, and carries its true first and last keys. */
  ghost predicate TablesWritten(env: Env, level: uint32, metas: Level, files: seq<bytes>, runs: seq<seq<Record>>, blocks: seq<Blocks>, filters: seq<FilterData>) {
    && |metas| == |files| == |runs| == |blocks| == |filters|
    && forall i :: 0 <= i < |metas| ==> IsOutput(env, level, metas[i], files[i], runs[i], blocks[i], filters[i])
  }

  ghost predicate IsOutput(env: Env, level: uint32, t: TableMeta, file: bytes, run: seq<Record>, blocks: Blocks, f: FilterData) {
    && t.level == level && run != []
    && t.minKey == run[0].key && t.maxKey == run[|run| - 1].key
    && HoldsRun(env, t, file, blocks, f, run)
  }

  /** Every finished table is what the options make of its records. */
  ghost predicate TablesShaped(env: Env, opts: TableOptions, blocks: seq<Blocks>, filters: seq<FilterData>) {
    |blocks| == |filters| && forall i :: 0 <= i < |blocks| ==> Shaped(env, opts, blocks[i], filters[i])
  }

  lemma ShapeAdded(env: Env, opts: TableOptions, blocks: seq<Blocks>, filters: seq<FilterData>, b: Blocks, f: FilterData)
    requires TablesShaped(env, opts, blocks, filters) && Shaped(env, opts, b, f)
    ensures TablesShaped(env, opts, blocks + [b], filters + [f])
  {
    hide Shaped;
  }

  /** The number of the i-th output: num0 was taken beforehand, the others one by one from start on. */
  function OutputNumber(i: nat, num0: uint64, start: uint64): nat {
    if i == 0 then num0 else start + i - 1
  }

  /** The numbers of the finished tables and the next one, and the first number that is not given out. */
  ghost predicate NumbersTaken(metas: Level, fileNum: uint64, num0: uint64, start: uint64, next: uint64) {
    && num0 < start && next == start + |metas| && fileNum == OutputNumber(|metas|, num0, start)
    && forall i :: 0 <= i < |metas| ==> metas[i].fileNum == OutputNumber(i, num0, start)
  }

  /** The table just closed and the number taken after it. */
  lemma NumberTaken(metas: Level, t: TableMeta, num0: uint64, start: uint64, next: uint64)
    requires NumbersTaken(metas, t.fileNum, num0, start, next) && next < MAX_UINT64
    ensures NumbersTaken(metas + [t], next, num0, start, next + 1)
  {
  }

  lemma TableAdded(env: Env, level: uint32, metas: Level, files: seq<bytes>, runs: seq<seq<Record>>, blocks: seq<Blocks>, filters: seq<FilterData>,
                   t: TableMeta, file: bytes, run: seq<Record>, b: Blocks, f: FilterData)
    requires TablesWritten(env, level, metas, files, runs, blocks, filters) && IsOutput(env, level, t, file, run, b, f)
    ensures TablesWritten(env, level, metas + [t], files + [file], runs + [run], blocks + [b], filters + [f])
  {
  }

  /** first, firstKey and lastKey describe what is in the open table. */
  ghost predicate Spanned(added: seq<Record>, first: bool, firstKey: InternalKey, lastKey: InternalKey) {
    && first == (added == [])
    && (added != [] ==> firstKey == added[0].key && lastKey == added[|added| - 1].key)
  }

  /** The variables that the loop of writeCompactionOutput shares with openWriter and closeWriter. */
  class OutputTables {
    const vs: VersionSet
    const level: uint32
    const isBottom: bool
    const oldest: uint64
    const opts: TableOptions
    const env: Env

    var fileNum: uint64
    var writer: TableWriter?
    var firstKey: InternalKey
    var lastKey: InternalKey
    var lastUserKey: bytes
    var first: bool
    var outTables: Level
    var outFiles: seq<bytes>

    /** The records of the merge so far, and what became of them. */
    ghost var taken: seq<Record>
    ghost var runs: seq<seq<Record>>
    ghost var blocks: seq<Blocks>
    ghost var filters: seq<FilterData>
    /** The number of the first table, and the first one of those taken later. */
    ghost const num0: uint64
    ghost const start: uint64

    ghost function Repr(): set<object>
      reads this
    {
      {this} + WriterRepr()
    }

    ghost function WriterRepr(): set<object>
      reads this
    {
      if writer == null then {} else writer.Repr()
    }

    ghost function Pending(): seq<Record>
      reads this, writer
    {
      if writer == null then [] else writer.Added()
    }

    ghost predicate Valid()
      reads this, Repr(), vs`nextFileNum
    {
      WriterReady() && Books(taken, Pending(), lastUserKey)
    }

    /** All tables but the open one have reached the maximal size, each at its last record. */
    ghost predicate AllClosed()
      reads `runs
    {
      AllFull(runs, SumSizes, opts.maxSize)
    }

    /** What the finished tables and the open one make of the records taken. */
    ghost predicate Books(taken: seq<Record>, pending: seq<Record>, lastUserKey: bytes)
      reads `outTables, `outFiles, `runs, `blocks, `filters, `fileNum, vs`nextFileNum
    {
      && TablesWritten(env, level, outTables, outFiles, runs, blocks, filters)
      && TablesShaped(env, opts, blocks, filters)
      && Flatten(runs) + pending == Collapse(taken, isBottom, oldest)
      && lastUserKey == LastUserKey(taken, |taken|)
      && NumbersTaken(outTables, fileNum, num0, start, vs.nextFileNum)
      && opts.filter.WellFormed() && opts.maxSize <= SIZE_LIMIT
    }

    /** The open table holds what was added to it, and its first and last keys are remembered. */
    ghost predicate WriterReady()
      reads this, Repr()
    {
      writer != null ==>
        && vs !in writer.Repr() && this !in writer.Repr()
        && writer.Valid() && writer.env == env && writer.blockSize == opts.blockSize && writer.filter0 == opts.filter
        && SumSizes(writer.Added()) < 2 * SIZE_LIMIT && AllFit(writer.Added())
        && Spanned(writer.Added(), first, firstKey, lastKey)
    }

    /** There is an open table, and it has not reached its size yet. */
    ghost predicate Roomy()
      reads this, writer
    {
      writer != null && AllClosed() && Open(writer.Added(), SumSizes, opts.maxSize)
    }

    constructor (vs: VersionSet, fileNum: uint64, level: uint32, isBottom: bool, oldest: uint64, opts: TableOptions, env: Env)
      requires fileNum < vs.nextFileNum && opts.filter.WellFormed() && opts.maxSize <= SIZE_LIMIT
      ensures Valid() && fresh(Repr()) && taken == [] && writer == null
      ensures this.vs == vs && this.level == level && this.isBottom == isBottom && this.oldest == oldest && this.opts == opts && this.env == env
      ensures num0 == fileNum && start == vs.nextFileNum && AllClosed()
    {
      this.vs, this.level, this.isBottom, this.oldest, this.opts, this.env := vs, level, isBottom, oldest, opts, env;
      this.fileNum, num0, start := fileNum, fileNum, vs.nextFileNum;
      writer := null;
      firstKey, lastKey := InternalKey([], 0, 0), InternalKey([], 0, 0);
      lastUserKey, first := [], true;
      outTables, outFiles := [], [];
      taken, runs, blocks, filters := [], [], [], [];
    }

    method OpenWriter()
      requires Valid() && writer == null && AllClosed()
      modifies this`writer, this`first
      ensures Valid() && Roomy() && fresh(writer.Repr()) && writer.Added() == []
    {
      hide TablesWritten, TablesShaped, NumbersTaken, Collapse, LastUserKey, Flatten, FilterOf, Full, TableWriter.Layout, TableWriter.Counters, TableWriter.Filtered, TableWriter.Cut;
      NoPart(SumSizes, opts.maxSize);
      writer := new TableWriter(opts.blockSize, opts.filter, env);
      first := true;
    }

    /** The open table is finished and listed, and the next one gets a new number. */
    method CloseWriter()
      requires Valid() && writer != null && writer.Added() != []
      requires vs.nextFileNum < MAX_UINT64
      modifies Repr(), vs`nextFileNum
      ensures Valid() && writer == null && taken == old(taken) && vs.nextFileNum == old(vs.nextFileNum) + 1
      ensures runs == old(runs) + [old(writer.Added())]
    {
      hide Books, IsTable, Shaped;
      ghost var run := writer.Added();
      var size, file := CloseFile();
      var t := TableMeta(fileNum, Low64(size), level, firstKey, lastKey);
      ListTable(t, file, run, writer.blocks, writer.filter.Data());
    }

    /** writer.Close(): the file is complete. */
    method CloseFile() returns (size: nat, file: bytes)
      requires Valid() && writer != null && writer.Added() != []
      modifies writer.Repr()
      ensures unchanged(this) && size == |file|
      ensures Flatten(writer.blocks) == old(writer.Added()) && IsTable(env, file, writer.blocks, writer.filter.Data())
      ensures Shaped(env, opts, writer.blocks, writer.filter.Data())
      ensures Books(taken, old(writer.Added()), lastUserKey) && Spanned(old(writer.Added()), first, firstKey, lastKey)
    {
      hide TablesWritten, TablesShaped, NumbersTaken, Collapse, LastUserKey, IsTable, CutInto, FilterOf;
      size := writer.Close();
      file := writer.file.data;
      SmallTableFits(env.crc, writer.blocks, writer.filter.Data());
    }

    /** The rest of closeWriter: outTables grows, the writer is gone, and the next file number is taken. */
    method ListTable(t: TableMeta, file: bytes, ghost run: seq<Record>, ghost b: Blocks, ghost f: FilterData)
      requires Books(taken, run, lastUserKey) && IsOutput(env, level, t, file, run, b, f) && Shaped(env, opts, b, f)
      requires vs.nextFileNum < MAX_UINT64 && t.fileNum == fileNum
      modifies this, vs`nextFileNum
      ensures Valid() && writer == null && taken == old(taken) && vs.nextFileNum == old(vs.nextFileNum) + 1
      ensures runs == old(runs) + [run]
    {
      hide TablesWritten, TablesShaped, Shaped, NumbersTaken, Collapse, IsOutput, LastUserKey;
      ShapeAdded(env, opts, blocks, filters, b, f);
      TableAdded(env, level, outTables, outFiles, runs, blocks, filters, t, file, run, b, f);
      NumberTaken(outTables, t, num0, start, vs.nextFileNum);
      FlattenSnoc(runs, run);
      outTables, outFiles := outTables + [t], outFiles + [file];
      runs, blocks, filters := runs + [run], blocks + [b], filters + [f];
      writer := null;
      fileNum := vs.NextFileNum();
    }

    /** The books after one more record, according to whether it was added to the open table. */
    lemma BooksMore(rec: Record, pending: seq<Record>)
      requires Books(taken, pending, lastUserKey)
      ensures opts.maxSize <= SIZE_LIMIT
      ensures rec.key.userKey == lastUserKey || Droppable(rec, isBottom, oldest) ==> Books(taken + [rec], pending, rec.key.userKey)
      ensures rec.key.userKey != lastUserKey && !Droppable(rec, isBottom, oldest) ==> Books(taken + [rec], pending + [rec], rec.key.userKey)
    {
      hide TablesWritten, TablesShaped, NumbersTaken, Droppable;
      CollapseMore(taken, rec, isBottom, oldest);
      var kept := if rec.key.userKey != lastUserKey && !Droppable(rec, isBottom, oldest) then [rec] else [];
      assert Flatten(runs) + (pending + kept) == Collapse(taken, isBottom, oldest) + kept;
      assert pending + [] == pending;
    }

    /** One round of the loop: the merger shows rec, which is the next record after those taken. */
    method Take(rec: Record, mergerValid: bool)
      requires Valid() && Roomy() && Small(rec) && mergerValid
      requires vs.nextFileNum < MAX_UINT64
      modifies Repr(), vs`nextFileNum
      ensures Valid() && Roomy() && fresh(Repr() - old(Repr())) && taken == old(taken) + [rec]
      ensures vs.nextFileNum <= old(vs.nextFileNum) + 1
    {
      hide Books, TableWriter.Layout, TableWriter.Filtered, TableWriter.Cut, TableWriter.Added, SumSizes, AllFit, Spanned, Flatten, Full, Open;
      BooksMore(rec, writer.Added());
      OneMoreRecord(writer.Added(), rec, SumSizes, opts.maxSize);
      OneMorePart(runs, writer.Added() + [rec], SumSizes, opts.maxSize);
      taken := taken + [rec];
      if rec.key.userKey == lastUserKey {
        return;
      }
      lastUserKey := rec.key.userKey;
      if rec.key.typ == TYPE_DEL && isBottom && rec.key.seqNum < oldest {
        return;
      }
      AddRecord(rec);
      if writer.EstimatedSize() >= opts.maxSize {
        CloseWriter();
        if mergerValid {
          OpenWriter();
        }
      }
    }

    /** The record joins the open table, and the remembered keys follow. */
    method AddRecord(rec: Record)
      requires WriterReady() && Roomy() && Small(rec) && Books(taken, Pending() + [rec], lastUserKey) && opts.maxSize <= SIZE_LIMIT
      modifies this`first, this`firstKey, this`lastKey, writer.Repr()
      ensures Valid() && writer.Added() == old(writer.Added()) + [rec]
    {
      hide Books, TableWriter.Valid, TableWriter.Added, SumSizes, AllFit, Spanned, Open;
      ghost var added := writer.Added();
      OpenIsSmall(added);
      AddedOne(added, rec, first, firstKey, lastKey);
      if first {
        firstKey := rec.key;
        first := false;
      }
      lastKey := rec.key;
      writer.Add(rec);
    }

    lemma OpenIsSmall(added: seq<Record>)
      requires Open(added, SumSizes, opts.maxSize)
      ensures SumSizes(added) <= opts.maxSize
    {
      assert added[..|added|] == added;
    }

    lemma AddedOne(added: seq<Record>, rec: Record, first: bool, firstKey: InternalKey, lastKey: InternalKey)
      requires AllFit(added) && rec.Fits() && Spanned(added, first, firstKey, lastKey)
      ensures AllFit(added + [rec]) && SumSizes(added + [rec]) == SumSizes(added) + rec.Size()
      ensures Spanned(added + [rec], false, if first then rec.key else firstKey, rec.key)
    {
      assert (added + [rec])[..|added|] == added;
    }

    /** After the loop: a table with records is finished, an empty one is closed and its file removed. */
    method Finish()
      requires Valid() && Roomy() && vs.nextFileNum < MAX_UINT64
      modifies Repr(), vs`nextFileNum
      ensures taken == old(taken) && Books(taken, [], lastUserKey) && vs.nextFileNum <= old(vs.nextFileNum) + 1
      ensures CutInto(runs, SumSizes, opts.maxSize)
    {
      hide Full, Open;
      FullIsCut(runs, SumSizes, opts.maxSize);
      OneMorePart(runs, writer.Added(), SumSizes, opts.maxSize);
      if writer != null {
        if !first {
          CloseWriter();
        } else {
          var size := writer.Close();
        }
      }
    }
  }
}
