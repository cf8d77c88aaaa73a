/** Layers of records, newer above older, and what merging two of them leaves a reader. */
module Layers {
  import opened Bytes
  import opened Records
  import opened Runs
  import opened Collapses

  /** Of a user key that both hold, a has only newer versions than b, or, unless strict, the same one. */
  ghost predicate Newer(a: set<Record>, b: set<Record>, strict: bool) {
    forall x, y :: x in a && y in b && x.key.userKey == y.key.userKey ==>
      x.key.seqNum > y.key.seqNum || (!strict && x.key.seqNum == y.key.seqNum)
  }

  ghost predicate NoSharedKey(a: set<Record>, b: set<Record>) {
    forall x, y :: x in a && y in b ==> x.key.userKey != y.key.userKey
  }

  /** Deletes may name the empty key, writes may not. */
  ghost predicate EmptyKeyDeleted(all: set<Record>) {
    forall r :: r in all && r.key.userKey == [] ==> r.IsTombstone()
  }

  ghost predicate NewestIn(m: set<Record>, r: Record) {
    r in m && forall x :: x in m && x.key.userKey == r.key.userKey ==> x.key.seqNum <= r.key.seqNum
  }

  /** out is what a merge of m writes. */
  ghost predicate Merged(m: set<Record>, out: set<Record>, bottom: bool, oldest: uint64) {
    forall r :: r in out <==> NewestIn(m, r) && r.key.userKey != [] && !Droppable(r, bottom, oldest)
  }

  ghost predicate Within(m: set<Record>, user: bytes, bound: uint64) {
    forall r :: r in m && r.key.userKey == user ==> r.key.seqNum <= bound
  }

  ghost predicate PastBound(m: set<Record>, user: bytes, bound: uint64) {
    forall r :: r in m && r.key.userKey == user ==> r.key.seqNum > bound
  }

  /** The merge takes m from between the layers above and under it; beside is left in the layer it goes to. */
  ghost predicate MergeSite(above: set<Record>, m: set<Record>, beside: set<Record>, under: set<Record>, bottom: bool) {
    && Coherent(above + m + beside + under) && EmptyKeyDeleted(above + m + beside + under)
    && Newer(above, m, false) && Newer(m, under, false) && NoSharedKey(m, beside)
    && (bottom ==> under == {})
  }

  lemma SubsetCoherent(a: set<Record>, b: set<Record>)
    requires a <= b && Coherent(b)
    ensures Coherent(a)
  {
  }

  /** A newest version outside the merge, or kept by it, is still the newest afterwards. */
  lemma StillNewest(all: set<Record>, after: set<Record>, user: bytes, bound: uint64)
    requires Coherent(all) && after <= all
    requires Newest(all, user, bound).Some? ==> Newest(all, user, bound).value in after
    ensures Newest(after, user, bound) == Newest(all, user, bound)
  {
    SubsetCoherent(after, all);
    NewestUnique(after, user, bound, Newest(all, user, bound));
  }

  /** A tombstone that the bottom merge drops hid nothing that is left. */
  lemma DroppedHidNothing(above: set<Record>, m: set<Record>, beside: set<Record>, under: set<Record>, out: set<Record>,
                          oldest: uint64, user: bytes, bound: uint64, v: Record)
    requires MergeSite(above, m, beside, under, true) && Merged(m, out, true, oldest)
    requires v in m && NewestIn(m, v) && v.IsTombstone() && v.key.userKey == user
    requires IsNewest(above + m + beside + under, user, bound, Some(v))
    ensures Shown(above + out + beside + under, user, bound) == None
  {
    forall r | r in above + out + beside + under && Matches(r, user, bound) ensures r == v {
      assert r in out ==> NewestIn(m, r);
      assert r in above ==> r.key.seqNum >= v.key.seqNum;
    }
  }

  /**
   * A reader whose bound does not fall between two of the versions merged sees the same before
   * and after, although older versions and bottom-level tombstones are gone.
   */
  lemma MergeKeepsShown(above: set<Record>, m: set<Record>, beside: set<Record>, under: set<Record>, out: set<Record>,
                        bottom: bool, oldest: uint64, user: bytes, bound: uint64)
    requires MergeSite(above, m, beside, under, bottom) && Merged(m, out, bottom, oldest)
    requires Within(m, user, bound) || PastBound(m, user, bound)
    ensures Shown(above + out + beside + under, user, bound) == Shown(above + m + beside + under, user, bound)
  {
    var all, after := above + m + beside + under, above + out + beside + under;
    assert out <= m by { assert forall r :: r in out ==> NewestIn(m, r); }
    var v := Newest(all, user, bound);
    if v.None? || v.value in after {
      StillNewest(all, after, user, bound);
    } else {
      assert v.value in m && v.value !in out;
      assert NewestIn(m, v.value);
      if user == [] {
        assert v.value.IsTombstone();
        forall r | r in after && Matches(r, user, bound) ensures r.IsTombstone() {
          assert r in all;
        }
      } else {
        DroppedHidNothing(above, m, beside, under, out, oldest, user, bound, v.value);
      }
    }
  }

  /** A reader whose bound splits the merged versions saw one of them, and now sees what lies under the merge. */
  lemma SplitReaderSeesUnder(above: set<Record>, m: set<Record>, beside: set<Record>, under: set<Record>, out: set<Record>,
                             bottom: bool, oldest: uint64, user: bytes, bound: uint64)
    requires MergeSite(above, m, beside, under, bottom) && Newer(m, under, true) && Merged(m, out, bottom, oldest)
    requires !Within(m, user, bound) && !PastBound(m, user, bound)
    ensures var v := Newest(above + m + beside + under, user, bound); v.Some? && v.value in m && v.value !in under
    ensures Newest(above + out + beside + under, user, bound) == Newest(under, user, bound)
  {
    var all, after := above + m + beside + under, above + out + beside + under;
    assert out <= m by { assert forall r :: r in out ==> NewestIn(m, r); }
    var young :| young in m && young.key.userKey == user && young.key.seqNum > bound;
    var aged :| aged in m && aged.key.userKey == user && aged.key.seqNum <= bound;
    assert Matches(aged, user, bound) && aged in all;
    forall r | r in after && Matches(r, user, bound) ensures r in under {
      assert r in out ==> NewestIn(m, r);
    }
    SubsetCoherent(after, all);
    NewestUnique(after, user, bound, Newest(under, user, bound));
  }

  /**
   * What a reader is shown survives the merge exactly when its bound does not split the merged
   * versions of the key, or when it was shown nothing and the layers under the merge show it nothing.
   */
  lemma ShownKeptIff(above: set<Record>, m: set<Record>, beside: set<Record>, under: set<Record>, out: set<Record>,
                     bottom: bool, oldest: uint64, user: bytes, bound: uint64)
    requires MergeSite(above, m, beside, under, bottom) && Newer(m, under, true) && Merged(m, out, bottom, oldest)
    ensures Shown(above + out + beside + under, user, bound) == Shown(above + m + beside + under, user, bound) <==>
        || Within(m, user, bound) || PastBound(m, user, bound)
        || (Shown(above + m + beside + under, user, bound) == None && Shown(under, user, bound) == None)
  {
    if Within(m, user, bound) || PastBound(m, user, bound) {
      MergeKeepsShown(above, m, beside, under, out, bottom, oldest, user, bound);
    } else {
      SplitReaderSeesUnder(above, m, beside, under, out, bottom, oldest, user, bound);
      assert Newest(under, user, bound).Some? ==> Newest(under, user, bound).value in under;
    }
  }

  /**
   * The version found, tombstone or not: above the bottom level it is kept exactly when the
   * reader's bound does not split the merged versions of the key.
   */
  lemma ReadKeptIff(above: set<Record>, m: set<Record>, beside: set<Record>, under: set<Record>, out: set<Record>,
                    oldest: uint64, user: bytes, bound: uint64)
    requires MergeSite(above, m, beside, under, false) && Newer(m, under, true) && Merged(m, out, false, oldest) && user != []
    ensures Newest(above + out + beside + under, user, bound) == Newest(above + m + beside + under, user, bound) <==>
        Within(m, user, bound) || PastBound(m, user, bound)
  {
    if Within(m, user, bound) || PastBound(m, user, bound) {
      var all := above + m + beside + under;
      assert out <= m by { assert forall r :: r in out ==> NewestIn(m, r); }
      var v := Newest(all, user, bound);
      assert v.Some? && v.value in m ==> NewestIn(m, v.value);
      StillNewest(all, above + out + beside + under, user, bound);
    } else {
      SplitReaderSeesUnder(above, m, beside, under, out, false, oldest, user, bound);
    }
  }

  // ---------- stacks of layers, oldest first ----------

  type Stack = seq<set<Record>>

  ghost function Union(st: Stack): set<Record> {
    set i, r | 0 <= i < |st| && r in st[i] :: r
  }

  ghost predicate Ordered(st: Stack, strict: bool) {
    forall i, j :: 0 <= i < j < |st| ==> Newer(st[j], st[i], strict)
  }

  lemma UnionConcat(a: Stack, b: Stack)
    ensures Union(a + b) == Union(a) + Union(b)
  {
    forall r ensures r in Union(a + b) <==> r in Union(a) || r in Union(b) {
      if r in Union(a) {
        var i :| 0 <= i < |a| && r in a[i];
        assert (a + b)[i] == a[i];
      }
      if r in Union(b) {
        var i :| 0 <= i < |b| && r in b[i];
        assert (a + b)[|a| + i] == b[i];
      }
    }
  }

  lemma UnionOne(x: set<Record>)
    ensures Union([x]) == x && Union([]) == {}
  {
    assert forall r :: r in x ==> r in [x][0];
  }

  /** A stack is in order when its parts are, and everything in the upper part is newer. */
  lemma OrderedConcat(a: Stack, b: Stack, strict: bool)
    ensures Ordered(a + b, strict) <==> Ordered(a, strict) && Ordered(b, strict) && Newer(Union(b), Union(a), strict)
  {
    var ab := a + b;
    if Ordered(ab, strict) {
      assert forall i :: 0 <= i < |a| ==> ab[i] == a[i];
      assert forall i :: 0 <= i < |b| ==> ab[|a| + i] == b[i];
      forall x, y | x in Union(b) && y in Union(a) && x.key.userKey == y.key.userKey
        ensures x.key.seqNum > y.key.seqNum || (!strict && x.key.seqNum == y.key.seqNum)
      {
        var i :| 0 <= i < |b| && x in b[i];
        var j :| 0 <= j < |a| && y in a[j];
        assert Newer(ab[|a| + i], ab[j], strict);
      }
    }
    if Ordered(a, strict) && Ordered(b, strict) && Newer(Union(b), Union(a), strict) {
      forall i, j | 0 <= i < j < |ab| ensures Newer(ab[j], ab[i], strict) {
        if i < |a| && j >= |a| {
          assert ab[i] == a[i] && ab[j] == b[j - |a|];
        }
      }
    }
  }

  lemma NewerParts(a: set<Record>, b: set<Record>, a': set<Record>, b': set<Record>, strict: bool)
    requires Newer(a, b, strict) && a' <= a && b' <= b
    ensures Newer(a', b', strict) && Newer(a', b', false)
  {
  }

  lemma NewerTwo(a: set<Record>, b: set<Record>, c: set<Record>)
    requires Newer(a, c, true) && Newer(b, c, true)
    ensures Newer(a + b, c, true)
  {
  }

  lemma StackParts(up: Stack, mids: Stack, bot: set<Record>, down: Stack)
    ensures Union(down + [bot] + mids + up) == Union(down) + bot + Union(mids) + Union(up)
  {
    UnionConcat(down + [bot] + mids, up);
    UnionConcat(down + [bot], mids);
    UnionConcat(down, [bot]);
    UnionOne(bot);
  }

  /** What the parts of an ordered stack know about each other. */
  lemma PartsOrdered(up: Stack, mids: Stack, bot: set<Record>, down: Stack, strict: bool)
    ensures Ordered(down + [bot] + mids + up, strict) <==>
        && Ordered(down, strict) && Ordered(mids, strict) && Ordered(up, strict)
        && Newer(bot, Union(down), strict) && Newer(Union(mids), Union(down) + bot, strict)
        && Newer(Union(up), Union(down) + bot + Union(mids), strict)
  {
    var low := down + [bot] + mids;
    OrderedConcat(low, up, strict);
    OrderedConcat(down + [bot], mids, strict);
    OrderedConcat(down, [bot], strict);
    UnionConcat(down + [bot], mids);
    UnionConcat(down, [bot]);
    UnionOne(bot);
  }

  /**
   * A merge takes part of some neighbouring layers and part of the layer below them, and puts its
   * output beside what is left of the lower one; middle is whatever is left of the upper ones.
   */
  datatype Merge = Merge(up: Stack, mids: Stack, middle: Stack, down: Stack,
                         taken: set<Record>, kept: set<Record>, merged: set<Record>, beside: set<Record>, out: set<Record>) {
    ghost function Before(): Stack {
      down + [merged + beside] + mids + up
    }

    ghost function After(): Stack {
      down + [beside + out] + middle + up
    }

    ghost function Inputs(): set<Record> {
      taken + merged
    }

    /** No key is torn apart: what is left shares none with what was taken from the same layer. */
    ghost predicate Clean() {
      && Union(mids) == taken + kept && Union(middle) == kept && |middle| <= 1
      && NoSharedKey(taken, kept) && NoSharedKey(Inputs(), beside)
      && out <= Inputs()
    }

    lemma KeepsOrder(strict: bool)
      requires Clean() && Ordered(Before(), strict)
      ensures Ordered(After(), strict) && Union(After()) <= Union(Before())
    {
      PartsOrdered(up, mids, merged + beside, down, strict);
      PartsOrdered(up, middle, beside + out, down, strict);
      StackParts(up, mids, merged + beside, down);
      StackParts(up, middle, beside + out, down);
    }

    lemma Regroup()
      ensures Union(down) + (merged + beside) + (taken + kept) + Union(up) == (Union(up) + kept) + Inputs() + beside + Union(down)
      ensures Union(down) + (beside + out) + kept + Union(up) == (Union(up) + kept) + out + beside + Union(down)
    {
    }

    lemma SiteNewer(strict: bool)
      requires Newer(merged + beside, Union(down), strict) && Newer(taken + kept, Union(down) + (merged + beside), strict)
      requires Newer(Union(up), Union(down) + (merged + beside) + (taken + kept), strict) && NoSharedKey(taken, kept)
      ensures Newer(Union(up) + kept, Inputs(), false) && Newer(Inputs(), Union(down), strict) && Newer(Inputs(), Union(down), false)
    {
    }

    /** A merge inside a stack is a merge between its layers. */
    lemma Site(bottom: bool, strict: bool)
      requires Clean() && Ordered(Before(), strict) && Coherent(Union(Before())) && EmptyKeyDeleted(Union(Before()))
      requires bottom ==> down == []
      ensures MergeSite(Union(up) + kept, Inputs(), beside, Union(down), bottom) && Newer(Inputs(), Union(down), strict)
      ensures Union(Before()) == (Union(up) + kept) + Inputs() + beside + Union(down)
      ensures Union(After()) == (Union(up) + kept) + out + beside + Union(down)
    {
      PartsOrdered(up, mids, merged + beside, down, strict);
      StackParts(up, mids, merged + beside, down);
      StackParts(up, middle, beside + out, down);
      SiteNewer(strict);
      Regroup();
      hide Newer, Ordered, Coherent, EmptyKeyDeleted, NoSharedKey;
      if bottom {
        UnionOne({});
      }
    }

    lemma KeepsReads(bottom: bool, oldest: uint64, user: bytes, bound: uint64)
      requires Clean() && Ordered(Before(), false) && Coherent(Union(Before())) && EmptyKeyDeleted(Union(Before()))
      requires (bottom ==> down == []) && Merged(Inputs(), out, bottom, oldest)
      requires Within(Inputs(), user, bound) || PastBound(Inputs(), user, bound)
      ensures Shown(Union(After()), user, bound) == Shown(Union(Before()), user, bound)
    {
      hide Newer, Ordered, Coherent, EmptyKeyDeleted, NoSharedKey, MergeSite;
      Site(bottom, false);
      MergeKeepsShown(Union(up) + kept, Inputs(), beside, Union(down), out, bottom, oldest, user, bound);
    }

    /** Exactly which readers are shown the same before and after. */
    lemma ShownIff(bottom: bool, oldest: uint64, user: bytes, bound: uint64)
      requires Clean() && Ordered(Before(), true) && Coherent(Union(Before())) && EmptyKeyDeleted(Union(Before()))
      requires (bottom ==> down == []) && Merged(Inputs(), out, bottom, oldest)
      ensures Shown(Union(After()), user, bound) == Shown(Union(Before()), user, bound) <==>
          || Within(Inputs(), user, bound) || PastBound(Inputs(), user, bound)
          || (Shown(Union(Before()), user, bound) == None && Shown(Union(down), user, bound) == None)
    {
      hide Newer, Ordered, Coherent, EmptyKeyDeleted, NoSharedKey, MergeSite, Merged, Shown, Within, PastBound;
      Site(bottom, true);
      ShownKeptIff(Union(up) + kept, Inputs(), beside, Union(down), out, bottom, oldest, user, bound);
    }

    /** Above the bottom level, exactly the readers whose bound does not split the merged versions find the same version. */
    lemma ReadsIff(oldest: uint64, user: bytes, bound: uint64)
      requires Clean() && Ordered(Before(), true) && Coherent(Union(Before())) && EmptyKeyDeleted(Union(Before()))
      requires Merged(Inputs(), out, false, oldest) && user != []
      ensures Newest(Union(After()), user, bound) == Newest(Union(Before()), user, bound) <==>
          Within(Inputs(), user, bound) || PastBound(Inputs(), user, bound)
    {
      hide Newer, Ordered, Coherent, EmptyKeyDeleted, NoSharedKey, MergeSite;
      Site(false, true);
      ReadKeptIff(Union(up) + kept, Inputs(), beside, Union(down), out, oldest, user, bound);
    }
  }
}
