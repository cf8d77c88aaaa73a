/** The manifest: the byte form of version edits, and replaying it (internal/meta). */
module Manifests {
  import opened Bytes
  import opened Records
  import opened Versions

  const TAG_ADD_TABLE: uint64 := 1
  const TAG_DELETE_TABLE: uint64 := 2
  const TAG_LAST_SEQUENCE: uint64 := 3
  const TAG_NEXT_FILE_NUM: uint64 := 4
  const TAG_LOG_NUM: uint64 := 5

  // ---------- variable-length integers ----------

  /** binary.PutUvarint. */
  function Uvarint(x: nat): (b: bytes)
    ensures 0 < |b|
  {
    if x < 0x80 then [x] else [x % 0x80 + 0x80] + Uvarint(x / 0x80)
  }

  datatype Read<T> = Read(value: T, next: nat, ok: bool)

  /** binary.ReadUvarint: at most ten bytes; on a missing byte or overflow, the partial value and an error. */
  function ReadUvarint(b: bytes, off: nat): Read<nat> {
    ReadDigits(b, off, 0, 1)
  }

  /** i bytes read so far; the next one counts scale. */
  function ReadDigits(b: bytes, off: nat, i: nat, scale: nat): (r: Read<nat>)
    requires i <= 10
    decreases 10 - i
  {
    if i == 10 then Read(0, off, false) else
    if off >= |b| then Read(0, off, false) else
    var d: int := b[off];
    if d < 0x80 then
      if i == 9 && d > 1 then Read(0, off + 1, false) else Read(d * scale, off + 1, true)
    else
      var rest := ReadDigits(b, off + 1, i + 1, scale * 0x80);
      rest.(value := (d - 0x80) * scale + rest.value)
  }

  function Pow128(k: nat): (p: nat)
    ensures p > 0
  {
    if k == 0 then 1 else 0x80 * Pow128(k - 1)
  }

  lemma DigitsStep(x: nat, scale: nat)
    ensures x / 0x80 * (scale * 0x80) + x % 0x80 * scale == x * scale
  {
    var q, r := x / 0x80, x % 0x80;
    assert x == q * 0x80 + r;
    calc {
      q * (scale * 0x80) + r * scale;
      { assert q * (scale * 0x80) == (q * 0x80) * scale; }
      (q * 0x80) * scale + r * scale;
      (q * 0x80 + r) * scale;
    }
  }

  lemma {:induction false} DigitsRoundTrip(pre: bytes, x: nat, rest: bytes, i: nat, scale: nat)
    requires i < 10 && x < 2 * Pow128(9 - i)
    ensures ReadDigits(pre + Uvarint(x) + rest, |pre|, i, scale) == Read(x * scale, |pre + Uvarint(x)|, true)
    decreases 10 - i
  {
    var b := pre + Uvarint(x) + rest;
    if x < 0x80 {
      assert b[|pre|] == x;
      assert i == 9 ==> Pow128(0) == 1;
    } else {
      assert i < 9;
      var pre' := pre + [x % 0x80 + 0x80];
      assert b == pre' + Uvarint(x / 0x80) + rest;
      assert b[|pre|] == x % 0x80 + 0x80;
      DigitsRoundTrip(pre', x / 0x80, rest, i + 1, scale * 0x80);
      DigitsStep(x, scale);
      assert |pre + Uvarint(x)| == |pre' + Uvarint(x / 0x80)|;
    }
  }

  /** Every 64-bit number reads back, wherever it stands. */
  lemma UvarintRoundTrip(pre: bytes, x: uint64, rest: bytes)
    ensures ReadUvarint(pre + Uvarint(x) + rest, |pre|) == Read(x, |pre + Uvarint(x)|, true)
  {
    assert Pow128(3) == 0x20_0000;
    assert Pow128(6) == 0x80 * (0x80 * (0x80 * Pow128(3)));
    assert Pow128(9) == 0x80 * (0x80 * (0x80 * Pow128(6)));
    DigitsRoundTrip(pre, x, rest, 0, 1);
  }

  // ---------- table metadata ----------

  const TABLE_META_SIZE: nat := 32

  function EncodedTable(m: TableMeta): (b: bytes)
    ensures |b| == TABLE_META_SIZE + 13 + |m.minKey.userKey| + 13 + |m.maxKey.userKey|
  {
    Le32(TABLE_META_SIZE + 13 + |m.minKey.userKey| + 13 + |m.maxKey.userKey|) +
    (Le64(m.fileNum) + (Le64(m.fileSize) + (Le32(m.level) +
    (Le32(13 + |m.minKey.userKey|) + (EncodedKey(m.minKey) + (Le32(13 + |m.maxKey.userKey|) + EncodedKey(m.maxKey)))))))
  }

  function DecodeTable(b: bytes): Result<TableMeta> {
    if |b| < TABLE_META_SIZE then Err else
    match DecodeInternalKey(b, 28)
    case Err => Err
    case Ok((minKey, off)) =>
      if off + 4 > |b| then Err else
      match DecodeInternalKey(b, off + 4)
      case Err => Err
      case Ok((maxKey, _)) => Ok(TableMeta(Uint64(b[4..]), Uint64(b[12..]), Uint32(b[20..]), minKey, maxKey))
  }

  predicate Encodable(m: TableMeta) {
    TABLE_META_SIZE + 26 + |m.minKey.userKey| + |m.maxKey.userKey| < 0x1_0000_0000
  }

  lemma TableParts(total: bytes, num: bytes, size: bytes, level: bytes, minLen: bytes, min: bytes, maxLen: bytes, max: bytes)
    requires |total| == |level| == |minLen| == |maxLen| == 4 && |num| == |size| == 8
    ensures var tail := minLen + (min + (maxLen + max));
            var b := total + (num + (size + (level + tail)));
            && b[4..] == num + (size + (level + tail)) && b[12..] == size + (level + tail) && b[20..] == level + tail
            && b == (total + num + size + level + minLen) + min + (maxLen + max)
            && b == (total + num + size + level + minLen + min + maxLen) + max + []
  {
    var tail := minLen + (min + (maxLen + max));
    var b := total + (num + (size + (level + tail)));
    assert b[12..] == b[4..][8..];
    assert b[20..] == b[12..][8..];
    var head := total + num + size + level;
    assert b == head + tail;
    assert head + tail == (head + minLen) + (min + (maxLen + max));
    assert (head + minLen) + (min + (maxLen + max)) == (head + minLen) + min + (maxLen + max);
    assert (head + minLen) + min + (maxLen + max) == (head + minLen + min + maxLen) + max + [];
  }

  lemma TableRoundTrip(m: TableMeta)
    requires Encodable(m)
    ensures DecodeTable(EncodedTable(m)) == Ok(m)
  {
    hide Le32, Le64, Uint32, Uint64, EncodedKey, DecodeInternalKey, DecodeTable;
    var total := Le32(TABLE_META_SIZE + 13 + |m.minKey.userKey| + 13 + |m.maxKey.userKey|);
    var num, size, level := Le64(m.fileNum), Le64(m.fileSize), Le32(m.level);
    var minLen, maxLen := Le32(13 + |m.minKey.userKey|), Le32(13 + |m.maxKey.userKey|);
    var min, max := EncodedKey(m.minKey), EncodedKey(m.maxKey);
    var tail := minLen + (min + (maxLen + max));
    TableParts(total, num, size, level, minLen, min, maxLen, max);
    KeyRoundTrip(total + num + size + level + minLen, m.minKey, maxLen + max);
    KeyRoundTrip(total + num + size + level + minLen + min + maxLen, m.maxKey, []);
    Le64RoundTrip(m.fileNum, size + (level + tail));
    Le64RoundTrip(m.fileSize, level + tail);
    Le32RoundTrip(m.level, tail);
    TableFields(m, EncodedTable(m));
  }

  lemma TableFields(m: TableMeta, b: bytes)
    requires |b| == TABLE_META_SIZE + 26 + |m.minKey.userKey| + |m.maxKey.userKey|
    requires DecodeInternalKey(b, 28) == Ok((m.minKey, 28 + 13 + |m.minKey.userKey|))
    requires DecodeInternalKey(b, 45 + |m.minKey.userKey|) == Ok((m.maxKey, |b|))
    requires Uint64(b[4..]) == m.fileNum && Uint64(b[12..]) == m.fileSize && Uint32(b[20..]) == m.level
    ensures DecodeTable(b) == Ok(m)
  {
  }

  function EncodedDelete(d: DeletedTable): (b: bytes)
    ensures |b| == 12
  {
    Le32(d.level) + Le64(d.fileNum)
  }

  function DecodeDelete(b: bytes): Result<DeletedTable> {
    if |b| < 12 then Err else Ok(DeletedTable(Uint32(b), Uint64(b[4..])))
  }

  lemma DeleteRoundTrip(d: DeletedTable)
    ensures DecodeDelete(EncodedDelete(d)) == Ok(d)
  {
    var b := EncodedDelete(d);
    Le32RoundTrip(d.level, Le64(d.fileNum));
    assert b[4..] == Le64(d.fileNum) + [];
    Le64RoundTrip(d.fileNum, []);
  }

  // ---------- edits ----------

  function Tagged(tag: uint64, b: bytes): bytes {
    Uvarint(tag) + b
  }

  function EncodedAdds(adds: seq<TableMeta>): bytes {
    if adds == [] then [] else Tagged(TAG_ADD_TABLE, EncodedTable(adds[0])) + EncodedAdds(adds[1..])
  }

  function EncodedDeletes(dels: seq<DeletedTable>): bytes {
    if dels == [] then [] else Tagged(TAG_DELETE_TABLE, EncodedDelete(dels[0])) + EncodedDeletes(dels[1..])
  }

  function EncodedField(tag: uint64, x: Option<uint64>): bytes {
    if x.None? then [] else Tagged(tag, Uvarint(x.value))
  }

  function EncodedFields(edit: VersionEdit): bytes {
    EncodedField(TAG_LOG_NUM, edit.logNumber) + (EncodedField(TAG_LAST_SEQUENCE, edit.lastSequence) + EncodedField(TAG_NEXT_FILE_NUM, edit.nextFileNum))
  }

  /** Additions come before deletions here, although apply deletes first. */
  function EncodedEdit(edit: VersionEdit): bytes {
    EncodedAdds(edit.addTables) + (EncodedDeletes(edit.deleteTables) + EncodedFields(edit))
  }

  // ---------- replay ----------

  datatype Replayed = Replayed(levels: Levels, lastSeqNum: uint64, nextFileNum: uint64, logNum: uint64)

  /** reader.Read into a buffer of n bytes: what there is, then zeros; an error only at the very end. */
  function ReadInto(data: bytes, off: nat, n: nat): Result<bytes>
    requires off <= |data|
  {
    if off == |data| then Err else
    if off + n <= |data| then Ok(data[off..off + n]) else Ok(data[off..] + seq(off + n - |data|, _ => 0))
  }

  function Min(a: nat, b: nat): nat {
    if a < b then a else b
  }

  /** One tag and its payload. A level that does not exist, which would panic, is Err. */
  function ReplayOne(data: bytes, off: nat, st: Replayed): (r: Result<(Replayed, nat)>)
    requires off < |data|
    ensures r.Ok? ==> off < r.value.1 <= |data| && |r.value.0.levels| == |st.levels|
  {
    var tag := ReadUvarint(data, off);
    if !tag.ok then Err else
    ReadAdvances(data, off, 0, 1);
    var at := tag.next;
    if tag.value == TAG_ADD_TABLE then
      if at + 4 > |data| then Err else
      var size := Uint32(data[at..]);
      match ReadInto(data, at, size)
      case Err => Err
      case Ok(buf) =>
        match DecodeTable(buf)
        case Err => Err
        case Ok(t) =>
          if t.level >= |st.levels| then Err else
          Ok((st.(levels := st.levels[t.level := st.levels[t.level] + [t]]), Min(at + size, |data|)))
    else if tag.value == TAG_DELETE_TABLE then
      match ReadInto(data, at, 12)
      case Err => Err
      case Ok(buf) =>
        match DecodeDelete(buf)
        case Err => Err
        case Ok(d) =>
          if d.level >= |st.levels| then Err else
          match RemoveInPlace(st.levels[d.level], 0, |st.levels[d.level]|, d.fileNum)
          case Err => Err
          case Ok(left) => Ok((st.(levels := st.levels[d.level := left]), Min(at + 12, |data|)))
    else if tag.value == TAG_LAST_SEQUENCE || tag.value == TAG_NEXT_FILE_NUM || tag.value == TAG_LOG_NUM then
      ReadAdvances(data, at, 0, 1);
      var v := ReadUvarint(data, at);
      var x := Low64(v.value);
      Ok((if tag.value == TAG_LAST_SEQUENCE then st.(lastSeqNum := x)
          else if tag.value == TAG_NEXT_FILE_NUM then st.(nextFileNum := x)
          else st.(logNum := x), v.next))
    else
      Ok((st, at))
  }

  lemma {:induction false} ReadAdvances(b: bytes, off: nat, i: nat, scale: nat)
    requires i <= 10 && off <= |b|
    ensures off <= ReadDigits(b, off, i, scale).next <= |b|
    ensures ReadDigits(b, off, i, scale).ok ==> off < ReadDigits(b, off, i, scale).next
    decreases 10 - i
  {
    if i < 10 && off < |b| && b[off] >= 0x80 {
      ReadAdvances(b, off + 1, i + 1, scale * 0x80);
    }
  }

  function ReplayFrom(data: bytes, off: nat, st: Replayed): Result<Replayed>
    requires off <= |data|
    decreases |data| - off
  {
    if off == |data| then Ok(st) else
    match ReplayOne(data, off, st)
    case Err => Err
    case Ok((st', next)) => ReplayFrom(data, next, st')
  }

  // ---------- what replaying an encoded edit does ----------

  /** Additions first, then deletions, then the counters. */
  function ReplayedEdit(st: Replayed, edit: VersionEdit): Replayed
    requires InRange(st.levels, edit)
  {
    Replayed(
      DeleteAll(AddAll(st.levels, edit.addTables), edit.deleteTables),
      if edit.lastSequence.Some? then edit.lastSequence.value else st.lastSeqNum,
      if edit.nextFileNum.Some? then edit.nextFileNum.value else st.nextFileNum,
      if edit.logNumber.Some? then edit.logNumber.value else st.logNum)
  }

  predicate EditEncodable(edit: VersionEdit) {
    forall t :: t in edit.addTables ==> Encodable(t)
  }

  lemma ReplayAdd(pre: bytes, t: TableMeta, rest: bytes, st: Replayed)
    requires Encodable(t) && t.level < |st.levels|
    ensures var data := pre + Tagged(TAG_ADD_TABLE, EncodedTable(t)) + rest;
            ReplayOne(data, |pre|, st) == Ok((st.(levels := st.levels[t.level := st.levels[t.level] + [t]]), |data| - |rest|))
  {
    hide Uvarint, ReadUvarint, EncodedTable, DecodeTable, ReplayOne;
    var tag, b := Uvarint(TAG_ADD_TABLE), EncodedTable(t);
    var data := pre + Tagged(TAG_ADD_TABLE, b) + rest;
    assert data == pre + tag + (b + rest);
    UvarintRoundTrip(pre, TAG_ADD_TABLE, b + rest);
    var at := |pre + tag|;
    assert data[at..] == b + rest;
    assert data[at..at + |b|] == b;
    TableSize(t, rest);
    TableRoundTrip(t);
    ReplayAddAt(data, |pre|, at, b, t, st);
  }

  lemma ReplayAddAt(data: bytes, off: nat, at: nat, b: bytes, t: TableMeta, st: Replayed)
    requires off < |data| && ReadUvarint(data, off) == Read(TAG_ADD_TABLE, at, true) && t.level < |st.levels|
    requires at + 4 <= at + |b| <= |data| && data[at..at + |b|] == b && Uint32(data[at..]) == |b| && DecodeTable(b) == Ok(t)
    ensures ReplayOne(data, off, st) == Ok((st.(levels := st.levels[t.level := st.levels[t.level] + [t]]), at + |b|))
  {
    hide ReadUvarint, DecodeTable, Uint32;
  }

  lemma TableSize(t: TableMeta, rest: bytes)
    requires Encodable(t)
    ensures Uint32(EncodedTable(t) + rest) == |EncodedTable(t)|
  {
    var b := EncodedTable(t);
    assert b + rest == Le32(|b|) + (b[4..] + rest);
    Le32RoundTrip(|b|, b[4..] + rest);
  }

  lemma ReplayDelete(pre: bytes, d: DeletedTable, rest: bytes, st: Replayed)
    requires d.level < |st.levels| && UniqueFiles(st.levels[d.level])
    ensures var data := pre + Tagged(TAG_DELETE_TABLE, EncodedDelete(d)) + rest;
            ReplayOne(data, |pre|, st) == Ok((st.(levels := st.levels[d.level := RemoveFirst(st.levels[d.level], d.fileNum)]), |data| - |rest|))
  {
    var tag, b := Uvarint(TAG_DELETE_TABLE), EncodedDelete(d);
    var data := pre + Tagged(TAG_DELETE_TABLE, b) + rest;
    assert data == pre + tag + (b + rest);
    UvarintRoundTrip(pre, TAG_DELETE_TABLE, b + rest);
    var at := |pre + tag|;
    assert data[at..at + 12] == b;
    DeleteRoundTrip(d);
    InPlaceIsWithout(st.levels[d.level], d.fileNum);
    RemoveFirstIsWithout(st.levels[d.level], d.fileNum);
  }

  lemma ReplayField(pre: bytes, tag: uint64, x: uint64, rest: bytes, st: Replayed)
    requires tag == TAG_LAST_SEQUENCE || tag == TAG_NEXT_FILE_NUM || tag == TAG_LOG_NUM
    ensures var data := pre + Tagged(tag, Uvarint(x)) + rest;
            ReplayOne(data, |pre|, st) == Ok((
              if tag == TAG_LAST_SEQUENCE then st.(lastSeqNum := x) else if tag == TAG_NEXT_FILE_NUM then st.(nextFileNum := x) else st.(logNum := x),
              |data| - |rest|))
  {
    hide Uvarint, ReadUvarint;
    var t, b := Uvarint(tag), Uvarint(x);
    var data := pre + Tagged(tag, b) + rest;
    assert data == pre + t + (b + rest);
    UvarintRoundTrip(pre, tag, b + rest);
    assert data == (pre + t) + b + rest;
    UvarintRoundTrip(pre + t, x, rest);
  }

  // ---------- replaying a whole edit ----------

  lemma {:induction false} ReplayAdds(pre: bytes, adds: seq<TableMeta>, rest: bytes, st: Replayed)
    requires forall t :: t in adds ==> Encodable(t) && t.level < |st.levels|
    ensures var data := pre + EncodedAdds(adds) + rest;
            ReplayFrom(data, |pre|, st) == ReplayFrom(data, |pre + EncodedAdds(adds)|, st.(levels := AddAll(st.levels, adds)))
    decreases |adds|
  {
    hide ReplayOne, Tagged, EncodedTable, Encodable;
    if adds == [] {
      assert pre + EncodedAdds(adds) == pre;
    } else {
      var t := adds[0];
      var one, more := Tagged(TAG_ADD_TABLE, EncodedTable(t)), EncodedAdds(adds[1..]);
      var data := pre + EncodedAdds(adds) + rest;
      assert data == pre + one + (more + rest);
      ReplayAdd(pre, t, more + rest, st);
      TaggedNonEmpty(TAG_ADD_TABLE, EncodedTable(t));
      var st' := st.(levels := st.levels[t.level := st.levels[t.level] + [t]]);
      assert data == (pre + one) + more + rest;
      assert |data| - |more + rest| == |pre + one|;
      ReplayAdds(pre + one, adds[1..], rest, st');
      assert (pre + one) + more == pre + EncodedAdds(adds);
    }
  }

  lemma TaggedNonEmpty(tag: uint64, b: bytes)
    ensures |Tagged(tag, b)| > |b|
  {
  }

  lemma {:induction false} ReplayDeletes(pre: bytes, dels: seq<DeletedTable>, rest: bytes, st: Replayed)
    requires UniqueLevels(st.levels) && forall d :: d in dels ==> d.level < |st.levels|
    ensures var data := pre + EncodedDeletes(dels) + rest;
            ReplayFrom(data, |pre|, st) == ReplayFrom(data, |pre + EncodedDeletes(dels)|, st.(levels := DeleteAll(st.levels, dels)))
    decreases |dels|
  {
    hide ReplayOne, Tagged, EncodedDelete;
    if dels == [] {
      assert pre + EncodedDeletes(dels) == pre;
    } else {
      var d := dels[0];
      var one, more := Tagged(TAG_DELETE_TABLE, EncodedDelete(d)), EncodedDeletes(dels[1..]);
      var data := pre + EncodedDeletes(dels) + rest;
      assert data == pre + one + (more + rest);
      ReplayDelete(pre, d, more + rest, st);
      TaggedNonEmpty(TAG_DELETE_TABLE, EncodedDelete(d));
      RemoveFirstIsWithout(st.levels[d.level], d.fileNum);
      WithoutMembers(st.levels[d.level], d.fileNum);
      var st' := st.(levels := st.levels[d.level := RemoveFirst(st.levels[d.level], d.fileNum)]);
      assert data == (pre + one) + more + rest;
      assert |data| - |more + rest| == |pre + one|;
      ReplayDeletes(pre + one, dels[1..], rest, st');
      assert (pre + one) + more == pre + EncodedDeletes(dels);
    }
  }

  lemma ReplayOptional(pre: bytes, tag: uint64, x: Option<uint64>, rest: bytes, st: Replayed)
    requires tag == TAG_LAST_SEQUENCE || tag == TAG_NEXT_FILE_NUM || tag == TAG_LOG_NUM
    ensures var data := pre + EncodedField(tag, x) + rest;
            ReplayFrom(data, |pre|, st) == ReplayFrom(data, |pre + EncodedField(tag, x)|,
              if x.None? then st else if tag == TAG_LAST_SEQUENCE then st.(lastSeqNum := x.value)
              else if tag == TAG_NEXT_FILE_NUM then st.(nextFileNum := x.value) else st.(logNum := x.value))
  {
    hide ReplayOne, Tagged, Uvarint;
    if x.None? {
      assert pre + EncodedField(tag, x) == pre;
    } else {
      ReplayField(pre, tag, x.value, rest, st);
      TaggedNonEmpty(tag, Uvarint(x.value));
    }
  }

  lemma ReplayFields(pre: bytes, edit: VersionEdit, rest: bytes, st: Replayed)
    requires InRange(st.levels, edit)
    ensures var data := pre + EncodedFields(edit) + rest;
            ReplayFrom(data, |pre|, st) == ReplayFrom(data, |pre + EncodedFields(edit)|, ReplayedEdit(st, edit).(levels := st.levels))
  {
    hide ReplayFrom, EncodedField;
    var a, b, c := EncodedField(TAG_LOG_NUM, edit.logNumber), EncodedField(TAG_LAST_SEQUENCE, edit.lastSequence), EncodedField(TAG_NEXT_FILE_NUM, edit.nextFileNum);
    var data := pre + EncodedFields(edit) + rest;
    assert data == pre + a + (b + c + rest);
    ReplayOptional(pre, TAG_LOG_NUM, edit.logNumber, b + c + rest, st);
    var st1 := if edit.logNumber.None? then st else st.(logNum := edit.logNumber.value);
    assert data == (pre + a) + b + (c + rest);
    ReplayOptional(pre + a, TAG_LAST_SEQUENCE, edit.lastSequence, c + rest, st1);
    var st2 := if edit.lastSequence.None? then st1 else st1.(lastSeqNum := edit.lastSequence.value);
    assert data == (pre + a + b) + c + rest;
    ReplayOptional(pre + a + b, TAG_NEXT_FILE_NUM, edit.nextFileNum, rest, st2);
    assert pre + a + b + c == pre + EncodedFields(edit);
  }

  /** Replaying the encoding of an edit adds, deletes and sets the counters, and moves on to what follows. */
  lemma ReplayEdit(pre: bytes, edit: VersionEdit, rest: bytes, st: Replayed)
    requires InRange(st.levels, edit) && EditEncodable(edit) && UniqueLevels(AddAll(st.levels, edit.addTables))
    ensures var data := pre + EncodedEdit(edit) + rest;
            ReplayFrom(data, |pre|, st) == ReplayFrom(data, |pre + EncodedEdit(edit)|, ReplayedEdit(st, edit))
  {
    hide ReplayFrom, EncodedAdds, EncodedDeletes, EncodedFields;
    var a, d, f := EncodedAdds(edit.addTables), EncodedDeletes(edit.deleteTables), EncodedFields(edit);
    var data := pre + EncodedEdit(edit) + rest;
    assert data == pre + a + (d + f + rest);
    ReplayAdds(pre, edit.addTables, d + f + rest, st);
    var st1 := st.(levels := AddAll(st.levels, edit.addTables));
    assert data == (pre + a) + d + (f + rest);
    ReplayDeletes(pre + a, edit.deleteTables, f + rest, st1);
    var st2 := st1.(levels := DeleteAll(st1.levels, edit.deleteTables));
    assert data == (pre + a + d) + f + rest;
    ReplayFields(pre + a + d, edit, rest, st2);
    assert pre + a + d + f == pre + EncodedEdit(edit);
  }

  // ---------- replay agrees with apply ----------

  /** No deletion of the edit names a table the edit adds. */
  ghost predicate DeletesNoAddition(edit: VersionEdit) {
    forall d, t :: d in edit.deleteTables && t in edit.addTables ==> !(d.level == t.level && d.fileNum == t.fileNum)
  }

  /**
   * Adding before deleting and deleting before adding give the same levels exactly when
   * the edit deletes nothing that it adds (file numbers being unique in each level).
   */
  lemma OrderMatters(levels: Levels, edit: VersionEdit)
    requires InRange(levels, edit) && UniqueLevels(AddAll(levels, edit.addTables))
    ensures DeleteAll(AddAll(levels, edit.addTables), edit.deleteTables) == Applied(levels, edit) <==> DeletesNoAddition(edit)
  {
    var adds, dels := edit.addTables, edit.deleteTables;
    var replayed, applied := DeleteAll(AddAll(levels, adds), dels), Applied(levels, edit);
    forall l | 0 <= l < |levels|
      ensures UniqueFiles(levels[l])
      ensures replayed[l] == Keep(levels[l], DeletedAt(dels, l)) + Keep(AddedAt(adds, l), DeletedAt(dels, l))
    {
      AddAllAppends(levels, adds, l);
      assert forall i :: 0 <= i < |levels[l]| ==> AddAll(levels, adds)[l][i] == levels[l][i];
      DeleteAllKeeps(AddAll(levels, adds), dels, l);
      KeepConcat(levels[l], AddedAt(adds, l), DeletedAt(dels, l));
    }
    forall l | 0 <= l < |levels| ensures applied[l] == Keep(levels[l], DeletedAt(dels, l)) + AddedAt(adds, l) {
      AppliedAt(levels, edit, l);
    }
    if DeletesNoAddition(edit) {
      forall l | 0 <= l < |levels| ensures replayed[l] == applied[l] {
        AddedMembers(adds, l);
        KeepAll(AddedAt(adds, l), DeletedAt(dels, l));
      }
    } else {
      var d, t :| d in dels && t in adds && d.level == t.level && d.fileNum == t.fileNum;
      var l := t.level;
      AddedMembers(adds, l);
      KeepMembers(AddedAt(adds, l), DeletedAt(dels, l));
      assert t in AddedAt(adds, l) && t !in Keep(AddedAt(adds, l), DeletedAt(dels, l));
      var kept := Keep(levels[l], DeletedAt(dels, l));
      assert replayed[l][|kept|..] == Keep(AddedAt(adds, l), DeletedAt(dels, l)) != AddedAt(adds, l) == applied[l][|kept|..];
    }
  }

  // ---------- the whole log ----------

  function EncodedLog(edits: seq<VersionEdit>): bytes {
    if edits == [] then [] else EncodedLog(edits[..|edits| - 1]) + EncodedEdit(edits[|edits| - 1])
  }

  /** Each edit in turn fits the levels it meets: existing levels, new file numbers, nothing deleted that is being added. */
  ghost predicate WellLogged(levels: Levels, edits: seq<VersionEdit>)
    decreases |edits|, 0
  {
    edits == [] ||
    var n := |edits| - 1;
    WellLogged(levels, edits[..n]) && FitsLevels(Folded(levels, edits[..n]), edits[n])
  }

  ghost predicate FitsLevels(levels: Levels, edit: VersionEdit) {
    InRange(levels, edit) && EditEncodable(edit) && UniqueLevels(AddAll(levels, edit.addTables)) && DeletesNoAddition(edit)
  }

  /** The levels after applying the edits one after another. */
  ghost function Folded(levels: Levels, edits: seq<VersionEdit>): Levels
    requires WellLogged(levels, edits)
    decreases |edits|, 1
  {
    if edits == [] then levels else
      var n := |edits| - 1;
      Applied(Folded(levels, edits[..n]), edits[n])
  }

  lemma {:induction false} FoldedLength(levels: Levels, edits: seq<VersionEdit>)
    requires WellLogged(levels, edits)
    ensures |Folded(levels, edits)| == |levels|
    decreases |edits|
  {
    if edits != [] {
      FoldedLength(levels, edits[..|edits| - 1]);
    }
  }

  /** The last value that the edits logged for a counter. */
  ghost function LastLogged(edits: seq<VersionEdit>, field: VersionEdit -> Option<uint64>, initial: uint64): uint64 {
    if edits == [] then initial else
      var n := |edits| - 1;
      if field(edits[n]).Some? then field(edits[n]).value else LastLogged(edits[..n], field, initial)
  }

  ghost function SequenceField(): VersionEdit -> Option<uint64> { (e: VersionEdit) => e.lastSequence }

  ghost function FileNumField(): VersionEdit -> Option<uint64> { (e: VersionEdit) => e.nextFileNum }

  ghost function LogNumField(): VersionEdit -> Option<uint64> { (e: VersionEdit) => e.logNumber }

  /** What a manifest holding these edits means. */
  ghost function Meaning(levels: Levels, edits: seq<VersionEdit>): Replayed
    requires WellLogged(levels, edits)
  {
    Replayed(Folded(levels, edits), LastLogged(edits, SequenceField(), 0), LastLogged(edits, FileNumField(), 0), LastLogged(edits, LogNumField(), 0))
  }

  lemma {:induction false} ReplayLog(levels: Levels, edits: seq<VersionEdit>, rest: bytes)
    requires WellLogged(levels, edits)
    ensures ReplayFrom(EncodedLog(edits) + rest, 0, Replayed(levels, 0, 0, 0)) == ReplayFrom(EncodedLog(edits) + rest, |EncodedLog(edits)|, Meaning(levels, edits))
    decreases |edits|
  {
    hide ReplayFrom, EncodedEdit;
    if edits != [] {
      var n := |edits| - 1;
      var before, last := EncodedLog(edits[..n]), EncodedEdit(edits[n]);
      assert EncodedLog(edits) + rest == before + (last + rest) == before + last + rest;
      ReplayLog(levels, edits[..n], last + rest);
      ReplayEdit(before, edits[n], rest, Meaning(levels, edits[..n]));
      OrderMatters(Folded(levels, edits[..n]), edits[n]);
    }
  }

  /** Replaying the manifest reproduces the version that apply built in memory, level by level and in order, and the last logged counters. */
  lemma ReplayAgrees(levels: Levels, edits: seq<VersionEdit>)
    requires WellLogged(levels, edits)
    ensures ReplayFrom(EncodedLog(edits), 0, Replayed(levels, 0, 0, 0)) == Ok(Meaning(levels, edits))
  {
    ReplayLog(levels, edits, []);
    assert EncodedLog(edits) + [] == EncodedLog(edits);
  }

  // ---------- the version set ----------

  class VersionSet {
    var levels: Levels
    var nextFileNum: uint64
    var lastSeqNum: uint64
    var logNum: uint64
    const manifest: Sink
    /** The edits in the manifest so far. */
    ghost var log: seq<VersionEdit>
    ghost const start: Levels

    /** The manifest holds the log, and the current version is the log applied to empty levels. */
    ghost predicate Valid()
      reads `levels, `log, manifest
    {
      && (forall l :: 0 <= l < |start| ==> start[l] == [])
      && WellLogged(start, log) && manifest.data == EncodedLog(log) && levels == Folded(start, log)
    }

    /** A new manifest, as for an empty data directory. */
    constructor (numLevels: nat)
      ensures Valid() && levels == seq(numLevels, _ => []) && start == levels && log == []
      ensures nextFileNum == 1 && lastSeqNum == 0 && logNum == 0 && fresh(manifest)
    {
      levels := seq(numLevels, _ => []);
      nextFileNum, lastSeqNum, logNum := 1, 0, 0;
      manifest := new Sink();
      log, start := [], seq(numLevels, _ => []);
    }

    lemma StartsEmpty()
      requires Valid()
      ensures start == seq(|levels|, _ => [])
    {
      FoldedLength(start, log);
    }

    /** Before its manifest has been replayed. */
    constructor Unread(file: Sink, numLevels: nat, ghost edits: seq<VersionEdit>)
      ensures levels == start == seq(numLevels, _ => []) && nextFileNum == lastSeqNum == logNum == 0
      ensures manifest == file && log == edits
    {
      levels := seq(numLevels, _ => []);
      nextFileNum, lastSeqNum, logNum := 0, 0, 0;
      manifest := file;
      log, start := edits, seq(numLevels, _ => []);
    }

    /** Open on an existing manifest: the version and the counters are what its edits mean. */
    static method Open(file: Sink, numLevels: nat, ghost edits: seq<VersionEdit>) returns (vs: VersionSet, ok: bool)
      requires WellLogged(seq(numLevels, _ => []), edits) && file.data == EncodedLog(edits)
      ensures ok && fresh(vs) && vs.Valid() && vs.manifest == file && vs.log == edits
      ensures Replayed(vs.levels, vs.lastSeqNum, vs.nextFileNum, vs.logNum) == Meaning(seq(numLevels, _ => []), edits)
    {
      vs := new VersionSet.Unread(file, numLevels, edits);
      ReplayAgrees(vs.start, edits);
      ok := vs.Replay(file.data);
    }

    method NextFileNum() returns (n: uint64)
      modifies this`nextFileNum
      ensures n == old(nextFileNum) && nextFileNum == Low64(n + 1)
    {
      n := nextFileNum;
      nextFileNum := Low64(nextFileNum + 1);
    }

    /** The edit reaches the manifest and the levels; the counters in memory are not touched. */
    method LogAndApply(edit: VersionEdit)
      requires Valid() && FitsLevels(levels, edit)
      modifies this`levels, this`log, manifest
      ensures Valid() && log == old(log) + [edit] && levels == Applied(old(levels), edit)
    {
      manifest.Write(EncodedEdit(edit));
      levels := Apply(edit);
      assert (log + [edit])[..|log|] == log;
      log := log + [edit];
    }

    method Apply(edit: VersionEdit) returns (newLevels: Levels)
      requires InRange(levels, edit)
      ensures newLevels == Applied(levels, edit)
    {
      newLevels := levels;
      var dels, adds := edit.deleteTables, edit.addTables;
      for j := 0 to |dels|
        invariant |newLevels| == |levels|
        invariant DeleteAll(newLevels, dels[j..]) == DeleteAll(levels, dels)
      {
        assert dels[j] in dels && dels[j..][0] == dels[j] && dels[j..][1..] == dels[j + 1..];
        var lvl := dels[j].level;
        var left := RemoveMatching(newLevels[lvl], dels[j].fileNum);
        newLevels := newLevels[lvl := left];
      }
      for j := 0 to |adds|
        invariant |newLevels| == |levels|
        invariant AddAll(newLevels, adds[j..]) == Applied(levels, edit)
      {
        assert adds[j] in adds && adds[j..][0] == adds[j] && adds[j..][1..] == adds[j + 1..];
        var lvl := adds[j].level;
        newLevels := newLevels[lvl := newLevels[lvl] + [adds[j]]];
      }
    }

    /** The search for one deletion: the first match is spliced out, then the loop stops. */
    method RemoveMatching(tables: Level, f: uint64) returns (left: Level)
      ensures left == RemoveFirst(tables, f)
    {
      for i := 0 to |tables|
        invariant RemoveFirst(tables, f) == tables[..i] + RemoveFirst(tables[i..], f)
      {
        assert tables[i..][0] == tables[i] && tables[i..][1..] == tables[i + 1..];
        if tables[i].fileNum == f {
          return tables[..i] + tables[i + 1..];
        }
        assert tables[..i] + ([tables[i]] + RemoveFirst(tables[i + 1..], f)) == tables[..i + 1] + RemoveFirst(tables[i + 1..], f);
      }
      return tables;
    }

    /** Rebuilds levels and counters from the manifest's bytes; after an error they are as far as replay got. */
    method Replay(data: bytes) returns (ok: bool)
      modifies this`levels, this`lastSeqNum, this`nextFileNum, this`logNum
      ensures var r := ReplayFrom(data, 0, old(Replayed(levels, lastSeqNum, nextFileNum, logNum)));
              ok == r.Ok? && (ok ==> Replayed(levels, lastSeqNum, nextFileNum, logNum) == r.value)
    {
      ghost var st0 := Replayed(levels, lastSeqNum, nextFileNum, logNum);
      var off := 0;
      while off < |data|
        invariant off <= |data|
        invariant ReplayFrom(data, off, Replayed(levels, lastSeqNum, nextFileNum, logNum)) == ReplayFrom(data, 0, st0)
        decreases |data| - off
      {
        off, ok := ReplayTag(data, off);
        if !ok {
          return;
        }
      }
      ok := true;
    }

    method ReplayTag(data: bytes, off: nat) returns (next: nat, ok: bool)
      requires off < |data|
      modifies this`levels, this`lastSeqNum, this`nextFileNum, this`logNum
      ensures var r := ReplayOne(data, off, old(Replayed(levels, lastSeqNum, nextFileNum, logNum)));
              ok == r.Ok? && (ok ==> (Replayed(levels, lastSeqNum, nextFileNum, logNum), next) == r.value)
    {
      var tag := ReadUvarint(data, off);
      if !tag.ok {
        return off, false;
      }
      ReadAdvances(data, off, 0, 1);
      var at := tag.next;
      if tag.value == TAG_ADD_TABLE {
        next, ok := ReplayAddTable(data, off, at);
      } else if tag.value == TAG_DELETE_TABLE {
        next, ok := ReplayDeleteTable(data, off, at);
      } else if tag.value == TAG_LAST_SEQUENCE || tag.value == TAG_NEXT_FILE_NUM || tag.value == TAG_LOG_NUM {
        var val := ReadUvarint(data, at);
        if tag.value == TAG_LAST_SEQUENCE {
          lastSeqNum := Low64(val.value);
        } else if tag.value == TAG_NEXT_FILE_NUM {
          nextFileNum := Low64(val.value);
        } else {
          logNum := Low64(val.value);
        }
        return val.next, true;
      } else {
        return at, true;
      }
    }

    method ReplayAddTable(data: bytes, ghost off: nat, at: nat) returns (next: nat, ok: bool)
      requires off < |data| && ReadUvarint(data, off) == Read(TAG_ADD_TABLE, at, true) && at <= |data|
      modifies this`levels
      ensures var r := ReplayOne(data, off, old(Replayed(levels, lastSeqNum, nextFileNum, logNum)));
              ok == r.Ok? && (ok ==> (Replayed(levels, lastSeqNum, nextFileNum, logNum), next) == r.value)
    {
      if at + 4 > |data| {
        return at, false;
      }
      var size := Uint32(data[at..]);
      var buf := ReadInto(data, at, size);
      if buf.Err? {
        return at, false;
      }
      var t := DecodeTable(buf.value);
      if t.Err? || t.value.level >= |levels| {
        return at, false;
      }
      var level := t.value.level;
      levels := levels[level := levels[level] + [t.value]];
      return Min(at + size, |data|), true;
    }

    method ReplayDeleteTable(data: bytes, ghost off: nat, at: nat) returns (next: nat, ok: bool)
      requires off < |data| && ReadUvarint(data, off) == Read(TAG_DELETE_TABLE, at, true) && at <= |data|
      modifies this`levels
      ensures var r := ReplayOne(data, off, old(Replayed(levels, lastSeqNum, nextFileNum, logNum)));
              ok == r.Ok? && (ok ==> (Replayed(levels, lastSeqNum, nextFileNum, logNum), next) == r.value)
    {
      var buf := ReadInto(data, at, 12);
      if buf.Err? {
        return at, false;
      }
      var d := DecodeDelete(buf.value);
      if d.Err? || d.value.level >= |levels| {
        return at, false;
      }
      var tables := levels[d.value.level];
      var a := new TableMeta[|tables|](i requires 0 <= i < |tables| => tables[i]);
      assert a[..] == tables;
      var n, fine := RemoveFromLevel(a, d.value.fileNum);
      if !fine {
        return at, false;
      }
      levels := levels[d.value.level := a[..n]];
      return Min(at + 12, |data|), true;
    }
  }
}
