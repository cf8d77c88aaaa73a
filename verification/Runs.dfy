/** Sorted runs of records, what a lookup in one means, and sort.Search. */
module Runs {
  import opened Bytes
  import opened Records

  // ---------- sorted runs ----------

  ghost predicate Sorted(s: seq<Record>) {
    forall i, j :: 0 <= i < j < |s| ==> Before(s[i].key, s[j].key)
  }

  ghost predicate WeaklySorted(s: seq<Record>) {
    forall i, j :: 0 <= i < j < |s| ==> !Before(s[j].key, s[i].key)
  }

  ghost predicate KeysAscend(s: seq<Record>) {
    forall i, j :: 0 <= i < j < |s| ==> Less(s[i].key.userKey, s[j].key.userKey)
  }

  lemma SortedIsWeak(s: seq<Record>)
    requires Sorted(s)
    ensures WeaklySorted(s)
  {
    BeforeIsOrder();
  }

  lemma PrefixIsSorted(s: seq<Record>, all: seq<Record>)
    requires s <= all && WeaklySorted(all)
    ensures WeaklySorted(s)
  {
    assert forall i :: 0 <= i < |s| ==> s[i] == all[i];
  }

  lemma MiddleIsSorted(a: seq<Record>, b: seq<Record>, c: seq<Record>)
    requires WeaklySorted(a + (b + c))
    ensures WeaklySorted(b)
  {
    hide Before;
    var s := a + (b + c);
    forall i | 0 <= i < |b| ensures s[|a| + i] == b[i] {
    }
    forall i, j | 0 <= i < j < |b| ensures !Before(b[j].key, b[i].key) {
      assert !Before(s[|a| + j].key, s[|a| + i].key);
    }
  }

  /** How many records stand before the first one at or after t: found by looking at each in turn. */
  function LowerBound(s: seq<Record>, t: InternalKey): (n: nat)
    ensures n <= |s|
    ensures forall i :: 0 <= i < n ==> Before(s[i].key, t)
    ensures n < |s| ==> !Before(s[n].key, t)
  {
    if s == [] || !Before(s[0].key, t) then 0 else 1 + LowerBound(s[1..], t)
  }

  lemma LowerBoundSplits(s: seq<Record>, t: InternalKey)
    requires WeaklySorted(s)
    ensures forall i :: LowerBound(s, t) <= i < |s| ==> !Before(s[i].key, t)
  {
    BeforeIsOrder();
  }

  lemma LowerBoundUnique(s: seq<Record>, t: InternalKey, n: nat)
    requires n <= |s|
    requires forall i :: 0 <= i < n ==> Before(s[i].key, t)
    requires n < |s| ==> !Before(s[n].key, t)
    ensures LowerBound(s, t) == n
  {
  }

  lemma LowerBoundConcat(a: seq<Record>, b: seq<Record>, t: InternalKey)
    ensures LowerBound(a + b, t) == if LowerBound(a, t) < |a| then LowerBound(a, t) else |a| + LowerBound(b, t)
  {
    LowerBoundUnique(a + b, t, if LowerBound(a, t) < |a| then LowerBound(a, t) else |a| + LowerBound(b, t));
  }

  /** Linear search: the first record at or after k, if it has k's user key. */
  function Find(s: seq<Record>, k: InternalKey): Option<Record> {
    var i := LowerBound(s, k);
    if i < |s| && s[i].key.userKey == k.userKey then Some(s[i]) else None
  }

  /** s with r put in order, before any record of equal key. */
  function Insert(s: seq<Record>, r: Record): seq<Record> {
    var i := LowerBound(s, r.key);
    s[..i] + [r] + s[i..]
  }

  /** out is s with r added at position n. */
  ghost predicate AddedAt(s: seq<Record>, out: seq<Record>, n: nat, r: Record) {
    && n <= |s| && |out| == |s| + 1 && out[n] == r
    && (forall i :: 0 <= i < n ==> out[i] == s[i])
    && (forall i :: n < i < |out| ==> out[i] == s[i - 1])
  }

  lemma AddedKeepsWeaklySorted(s: seq<Record>, out: seq<Record>, n: nat, r: Record)
    requires WeaklySorted(s) && AddedAt(s, out, n, r)
    requires forall i :: 0 <= i < n ==> Before(s[i].key, r.key)
    requires forall i :: n <= i < |s| ==> !Before(s[i].key, r.key)
    ensures WeaklySorted(out)
  {
    BeforeIsOrder();
  }

  lemma InsertKeepsWeaklySorted(s: seq<Record>, r: Record)
    requires WeaklySorted(s)
    ensures WeaklySorted(Insert(s, r))
  {
    LowerBoundSplits(s, r.key);
    AddedKeepsWeaklySorted(s, Insert(s, r), LowerBound(s, r.key), r);
  }

  lemma InsertAdds(s: seq<Record>, r: Record)
    ensures Elements(Insert(s, r)) == Elements(s) + {r}
  {
    var i := LowerBound(s, r.key);
    assert s == s[..i] + s[i..];
    forall x ensures x in Insert(s, r) <==> x in s || x == r {
    }
  }

  ghost function Elements(s: seq<Record>): set<Record> {
    set r | r in s
  }

  lemma ElementsConcat(a: seq<Record>, b: seq<Record>)
    ensures Elements(a + b) == Elements(a) + Elements(b)
  {
  }

  /** The bytes that records count for. */
  function SumSizes(s: seq<Record>): nat {
    if s == [] then 0 else SumSizes(s[..|s| - 1]) + s[|s| - 1].Size()
  }

  lemma {:induction false} SumSizesConcat(a: seq<Record>, b: seq<Record>)
    ensures SumSizes(a + b) == SumSizes(a) + SumSizes(b)
    decreases |b|
  {
    if b == [] {
      assert a + b == a;
    } else {
      var n := |b| - 1;
      SumSizesConcat(a, b[..n]);
      assert (a + b)[..|a + b| - 1] == a + b[..n];
    }
  }

  function Flatten(bs: seq<seq<Record>>): seq<Record> {
    if bs == [] then [] else bs[0] + Flatten(bs[1..])
  }

  lemma {:induction false} FlattenConcat(a: seq<seq<Record>>, b: seq<seq<Record>>)
    ensures Flatten(a + b) == Flatten(a) + Flatten(b)
  {
    if a == [] {
      assert a + b == b;
    } else {
      FlattenConcat(a[1..], b);
      assert (a + b)[0] == a[0] && (a + b)[1..] == a[1..] + b;
      assert a[0] + (Flatten(a[1..]) + Flatten(b)) == a[0] + Flatten(a[1..]) + Flatten(b);
    }
  }

  lemma FlattenSnoc(a: seq<seq<Record>>, b: seq<Record>)
    ensures Flatten(a + [b]) == Flatten(a) + b
  {
    FlattenConcat(a, [b]);
    assert Flatten([b]) == b + Flatten([]);
  }

  // ---------- versions of a user key ----------

  predicate Matches(r: Record, user: bytes, bound: uint64) {
    r.key.userKey == user && r.key.seqNum <= bound
  }

  /** r is the version of user that a reader at bound sees in S. */
  ghost predicate IsNewest(S: set<Record>, user: bytes, bound: uint64, r: Option<Record>) {
    match r
    case None => forall x :: x in S ==> !Matches(x, user, bound)
    case Some(v) => v in S && Matches(v, user, bound) && forall x :: x in S && Matches(x, user, bound) ==> x.key.seqNum <= v.key.seqNum
  }

  /** A version is named by its user key and sequence number. */
  ghost predicate Coherent(S: set<Record>) {
    forall x, y :: x in S && y in S && x.key.userKey == y.key.userKey && x.key.seqNum == y.key.seqNum ==> x == y
  }

  lemma {:induction false} NewestExists(S: set<Record>, user: bytes, bound: uint64)
    ensures exists r :: IsNewest(S, user, bound, r)
  {
    if exists x :: x in S && Matches(x, user, bound) {
      var x :| x in S && Matches(x, user, bound);
      NewestExists(S - {x}, user, bound);
      var r :| IsNewest(S - {x}, user, bound, r);
      if r.Some? && r.value.key.seqNum >= x.key.seqNum {
        assert IsNewest(S, user, bound, r);
      } else {
        assert IsNewest(S, user, bound, Some(x));
      }
    } else {
      assert IsNewest(S, user, bound, None);
    }
  }

  ghost function Newest(S: set<Record>, user: bytes, bound: uint64): (r: Option<Record>)
    ensures IsNewest(S, user, bound, r)
  {
    NewestExists(S, user, bound);
    var r :| IsNewest(S, user, bound, r);
    r
  }

  lemma NewestUnique(S: set<Record>, user: bytes, bound: uint64, r: Option<Record>)
    requires Coherent(S) && IsNewest(S, user, bound, r)
    ensures r == Newest(S, user, bound)
  {
  }

  /** The newest version of user at bound, unless there is none or it is a tombstone. */
  ghost function Shown(all: set<Record>, user: bytes, bound: uint64): Option<Record> {
    var r := Newest(all, user, bound);
    if r.Some? && !r.value.IsTombstone() then r else None
  }

  /** What a reader gets: a tombstone reads as absence. */
  function Visible(r: Option<Record>): Option<bytes> {
    if r.Some? && !r.value.IsTombstone() then Some(r.value.value) else None
  }

  /** The first record at or after (user, bound) in a sorted run is the newest visible version. */
  lemma FindIsNewest(s: seq<Record>, k: InternalKey)
    requires WeaklySorted(s)
    ensures IsNewest(Elements(s), k.userKey, k.seqNum, Find(s, k))
  {
    LessIsOrder();
    LowerBoundSplits(s, k);
    var i := LowerBound(s, k);
    forall x | x in s && Matches(x, k.userKey, k.seqNum)
      ensures i < |s| && s[i].key.userKey == k.userKey && x.key.seqNum <= s[i].key.seqNum
    {
      var j :| 0 <= j < |s| && s[j] == x;
      assert !Before(x.key, k) && i <= j;
      assert !Before(s[i].key, k);
      if i < j {
        assert !Before(s[j].key, s[i].key);
      }
    }
  }

  // ---------- sort.Search ----------

  /** The index at which sort.Search ends, for any predicate, monotone or not. */
  ghost function Probe(f: nat -> bool, lo: nat, hi: nat): (r: nat)
    requires lo <= hi
    ensures lo <= r <= hi
    decreases hi - lo
  {
    if lo == hi then lo else
      var h := (lo + hi) / 2;
      if f(h) then Probe(f, lo, h) else Probe(f, h + 1, hi)
  }

  /** The positions that halving [lo, hi) looks at on its way to p: the middle one, then the middle of the half that is left. */
  function Halving(lo: nat, hi: nat, p: nat): (path: seq<nat>)
    requires lo <= p <= hi
    ensures forall h :: h in path ==> lo <= h < hi
    ensures lo < hi ==> path != [] && path[0] == lo + (hi - lo) / 2
    decreases hi - lo
  {
    if lo == hi then [] else
      var h := (lo + hi) / 2;
      [h] + if h < p then Halving(h + 1, hi, p) else Halving(lo, h, p)
  }

  /** Each position of the path is answered by its side of p. */
  ghost predicate LeadsTo(f: nat -> bool, path: seq<nat>, p: nat) {
    forall h :: h in path ==> (f(h) <==> p <= h)
  }

  lemma LeadsToNothing(f: nat -> bool, p: nat)
    ensures LeadsTo(f, [], p)
  {
  }

  lemma LeadsToCons(f: nat -> bool, h: nat, rest: seq<nat>, p: nat)
    ensures LeadsTo(f, [h] + rest, p) <==> (f(h) <==> p <= h) && LeadsTo(f, rest, p)
  {
    assert h in [h] + rest;
    assert forall x :: x in [h] + rest <==> x == h || x in rest;
  }

  /** On any predicate the search ends at p exactly when each position that halving looks at on the way there is answered by its side of p. */
  lemma {:induction false} ProbeEndsIff(f: nat -> bool, lo: nat, hi: nat, p: nat)
    requires lo <= p <= hi
    ensures Probe(f, lo, hi) == p <==> LeadsTo(f, Halving(lo, hi, p), p)
    decreases hi - lo
  {
    LeadsToNothing(f, p);
    NothingToProbe(f, lo);
    hide LeadsTo, Probe, Halving;
    if lo == hi {
      NothingToHalve(lo, p);
    } else {
      var h := (lo + hi) / 2;
      ProbeStep(f, lo, hi);
      HalvingIs(lo, hi, p);
      LeadsToCons(f, h, if h < p then Halving(h + 1, hi, p) else Halving(lo, h, p), p);
      if h < p {
        ProbeEndsIff(f, h + 1, hi, p);
      } else {
        ProbeEndsIff(f, lo, h, p);
      }
    }
  }

  function Power2(k: nat): nat {
    if k == 0 then 1 else 2 * Power2(k - 1)
  }

  /** Halving looks at no more positions than the logarithm of their number and one. */
  lemma {:induction false} HalvingIsShort(lo: nat, hi: nat, p: nat)
    requires lo <= p <= hi && lo < hi
    ensures Power2(|Halving(lo, hi, p)| - 1) <= hi - lo
    decreases hi - lo
  {
    var h := (lo + hi) / 2;
    if h < p {
      if h + 1 < hi {
        HalvingIsShort(h + 1, hi, p);
      }
    } else if lo < h {
      HalvingIsShort(lo, h, p);
    }
  }

  /** Whatever lies in [i, j], the way to it began with looked. */
  ghost predicate OnTheWay(n: nat, looked: seq<nat>, i: nat, j: nat)
    requires i <= j <= n
  {
    forall p: nat :: i <= p <= j ==> Halving(0, n, p) == looked + Halving(i, j, p)
  }

  lemma HalvingStep(n: nat, looked: seq<nat>, i: nat, j: nat)
    requires i < j <= n && OnTheWay(n, looked, i, j)
    ensures var h := (i + j) / 2; OnTheWay(n, looked + [h], i, h) && OnTheWay(n, looked + [h], h + 1, j)
  {
    hide Halving;
    var h := (i + j) / 2;
    forall p: nat | i <= p <= h ensures Halving(0, n, p) == looked + [h] + Halving(i, h, p) {
      OneHalving(looked, i, j, p);
    }
    forall p: nat | h < p <= j ensures Halving(0, n, p) == looked + [h] + Halving(h + 1, j, p) {
      OneHalving(looked, i, j, p);
    }
  }

  lemma OneHalving(looked: seq<nat>, i: nat, j: nat, p: nat)
    requires i < j && i <= p <= j
    ensures var h := (i + j) / 2; looked + Halving(i, j, p) == looked + [h] + if h < p then Halving(h + 1, j, p) else Halving(i, h, p)
  {
    HalvingIs(i, j, p);
    hide Halving;
    var h := (i + j) / 2;
    ConcatAssociates(looked, [h], if h < p then Halving(h + 1, j, p) else Halving(i, h, p));
  }

  lemma HalvingIs(i: nat, j: nat, p: nat)
    requires i < j && i <= p <= j
    ensures var h := (i + j) / 2; Halving(i, j, p) == [h] + if h < p then Halving(h + 1, j, p) else Halving(i, h, p)
  {
  }

  /** sort.Search; looked is where it has evaluated the predicate. */
  method Search(n: nat, f: nat -> bool) returns (i: nat, ghost looked: seq<nat>)
    ensures i <= n && i == Probe(f, 0, n)
    ensures looked == Halving(0, n, i) && (n > 0 ==> Power2(|looked| - 1) <= n)
  {
    hide OnTheWay, Halving, Power2, Probe;
    var j := n;
    i, looked := 0, [];
    NothingLooked(n);
    while i < j
      invariant i <= j <= n
      invariant Probe(f, i, j) == Probe(f, 0, n)
      invariant OnTheWay(n, looked, i, j)
    {
      var h := (i + j) / 2;
      HalvingStep(n, looked, i, j);
      ProbeStep(f, i, j);
      looked := looked + [h];
      if !f(h) {
        i := h + 1;
      } else {
        j := h;
      }
    }
    Arrived(n, looked, i);
    NothingToProbe(f, i);
    if n > 0 {
      HalvingIsShort(0, n, i);
    }
  }

  lemma ProbeStep(f: nat -> bool, i: nat, j: nat)
    requires i < j
    ensures var h := (i + j) / 2; i <= h < j && Probe(f, i, j) == if f(h) then Probe(f, i, h) else Probe(f, h + 1, j)
  {
  }

  lemma NothingToHalve(i: nat, p: nat)
    requires p == i
    ensures Halving(i, i, p) == []
  {
  }

  lemma NothingToProbe(f: nat -> bool, i: nat)
    ensures Probe(f, i, i) == i
  {
  }

  lemma NothingLooked(n: nat)
    ensures OnTheWay(n, [], 0, n)
  {
    forall p: nat | p <= n ensures Halving(0, n, p) == [] + Halving(0, n, p) {
    }
  }

  lemma Arrived(n: nat, looked: seq<nat>, i: nat)
    requires i <= n && OnTheWay(n, looked, i, i)
    ensures looked == Halving(0, n, i)
  {
    assert Halving(0, n, i) == looked + Halving(i, i, i);
  }

  /** On a monotone predicate the search ends at its first true index. */
  lemma {:induction false} ProbeIsLeast(f: nat -> bool, lo: nat, hi: nat)
    requires lo <= hi
    requires forall i, j :: lo <= i < j < hi && f(i) ==> f(j)
    ensures forall i :: lo <= i < Probe(f, lo, hi) ==> !f(i)
    ensures forall i :: Probe(f, lo, hi) <= i < hi ==> f(i)
    decreases hi - lo
  {
    if lo < hi {
      var h := (lo + hi) / 2;
      if f(h) {
        ProbeIsLeast(f, lo, h);
      } else {
        ProbeIsLeast(f, h + 1, hi);
      }
    }
  }

  function AtOrAfter(keys: seq<InternalKey>, t: InternalKey): nat -> bool {
    (i: nat) => i < |keys| && !Before(keys[i], t)
  }

  ghost predicate KeysSorted(keys: seq<InternalKey>, lo: nat, hi: nat)
    requires hi <= |keys|
  {
    forall i, j :: lo <= i < j < hi ==> Before(keys[i], keys[j])
  }

  ghost predicate FindsEach(keys: seq<InternalKey>, lo: nat, hi: nat)
    requires lo <= hi <= |keys|
  {
    forall p :: lo <= p < hi ==> Probe(AtOrAfter(keys, keys[p]), lo, hi) == p
  }

  ghost predicate NoTies(keys: seq<InternalKey>) {
    forall i, j :: 0 <= i < j < |keys| ==> Before(keys[i], keys[j]) || Before(keys[j], keys[i])
  }

  lemma SearchSorted(keys: seq<InternalKey>, t: InternalKey)
    requires KeysSorted(keys, 0, |keys|)
    ensures var i := Probe(AtOrAfter(keys, t), 0, |keys|);
            (forall j :: 0 <= j < i ==> Before(keys[j], t)) && (forall j :: i <= j < |keys| ==> !Before(keys[j], t))
  {
    BeforeIsOrder();
    ProbeIsLeast(AtOrAfter(keys, t), 0, |keys|);
    assert forall j :: 0 <= j < |keys| ==> AtOrAfter(keys, t)(j) == !Before(keys[j], t);
  }

  /** p is on the right side of position h. */
  predicate RightSide(keys: seq<InternalKey>, h: nat, p: nat)
    requires h < |keys| && p < |keys|
  {
    if h < p then Before(keys[h], keys[p]) else h == p || Before(keys[p], keys[h])
  }

  /** The key at p is found there exactly when it is on the right side of every key that halving passes on the way, however the list is ordered. */
  lemma KeyFoundIff(keys: seq<InternalKey>, p: nat)
    requires NoTies(keys) && p < |keys|
    ensures Probe(AtOrAfter(keys, keys[p]), 0, |keys|) == p <==> forall h :: h in Halving(0, |keys|, p) ==> RightSide(keys, h, p)
  {
    var f, path := AtOrAfter(keys, keys[p]), Halving(0, |keys|, p);
    ProbeEndsIff(f, 0, |keys|, p);
    hide Halving, Probe;
    forall h | h in path ensures (f(h) <==> p <= h) <==> RightSide(keys, h, p) {
      SideAnswered(keys, h, p);
    }
    hide AtOrAfter, RightSide;
  }

  lemma SideAnswered(keys: seq<InternalKey>, h: nat, p: nat)
    requires NoTies(keys) && h < |keys| && p < |keys|
    ensures (AtOrAfter(keys, keys[p])(h) <==> p <= h) <==> RightSide(keys, h, p)
  {
    BeforeIsOrder();
    assert h < p ==> Before(keys[h], keys[p]) || Before(keys[p], keys[h]);
    assert p < h ==> Before(keys[h], keys[p]) || Before(keys[p], keys[h]);
  }

  /**
   * Binary search finds every key of a list of distinct keys exactly when the list is sorted:
   * the probes of all the searches together compare enough pairs to order the whole list.
   */
  lemma SearchFindsAllIffSorted(keys: seq<InternalKey>)
    requires NoTies(keys)
    ensures FindsEach(keys, 0, |keys|) <==> KeysSorted(keys, 0, |keys|)
  {
    BeforeIsOrder();
    if KeysSorted(keys, 0, |keys|) {
      forall p | 0 <= p < |keys| ensures Probe(AtOrAfter(keys, keys[p]), 0, |keys|) == p {
        SearchSorted(keys, keys[p]);
        var q := Probe(AtOrAfter(keys, keys[p]), 0, |keys|);
        assert !Before(keys[p], keys[p]);
        assert q < |keys| ==> !Before(keys[q], keys[p]);
      }
    }
    if FindsEach(keys, 0, |keys|) {
      FindsEachSorts(keys, 0, |keys|);
    }
  }

  lemma {:induction false} FindsEachSorts(keys: seq<InternalKey>, lo: nat, hi: nat)
    requires lo <= hi <= |keys| && NoTies(keys) && FindsEach(keys, lo, hi)
    ensures KeysSorted(keys, lo, hi)
    decreases hi - lo
  {
    if lo < hi {
      BeforeIsOrder();
      var h := (lo + hi) / 2;
      forall p | lo <= p < h ensures Probe(AtOrAfter(keys, keys[p]), lo, h) == p && Before(keys[p], keys[h]) {
        assert Probe(AtOrAfter(keys, keys[p]), lo, hi) == p;
        assert AtOrAfter(keys, keys[p])(h);
      }
      forall p | h < p < hi ensures Probe(AtOrAfter(keys, keys[p]), h + 1, hi) == p && Before(keys[h], keys[p]) {
        assert Probe(AtOrAfter(keys, keys[p]), lo, hi) == p;
        assert !AtOrAfter(keys, keys[p])(h);
      }
      FindsEachSorts(keys, lo, h);
      FindsEachSorts(keys, h + 1, hi);
    }
  }
}
