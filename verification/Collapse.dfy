/** What compaction keeps of a merged run of records (internal/engine/compactor.go). */
module Collapses {
  import opened Bytes
  import opened Records
  import opened Runs

  /** A tombstone that compaction into the bottom level may drop. */
  predicate Droppable(r: Record, bottom: bool, oldest: uint64) {
    r.IsTombstone() && bottom && r.key.seqNum < oldest
  }

  /** lastUserKey as the loop has it before record i; it starts nil, which no non-empty key equals. */
  function LastUserKey(m: seq<Record>, i: nat): bytes
    requires i <= |m|
  {
    if i == 0 then [] else m[i - 1].key.userKey
  }

  predicate Kept(m: seq<Record>, i: nat, bottom: bool, oldest: uint64)
    requires i < |m|
  {
    m[i].key.userKey != LastUserKey(m, i) && !Droppable(m[i], bottom, oldest)
  }

  /** The records written, in order. */
  function Collapse(m: seq<Record>, bottom: bool, oldest: uint64): seq<Record> {
    if m == [] then [] else
      var n := |m| - 1;
      Collapse(m[..n], bottom, oldest) + (if Kept(m, n, bottom, oldest) then [m[n]] else [])
  }

  lemma {:induction false} CollapseMembers(m: seq<Record>, bottom: bool, oldest: uint64)
    ensures forall r :: r in Collapse(m, bottom, oldest) <==> exists i :: 0 <= i < |m| && m[i] == r && Kept(m, i, bottom, oldest)
    decreases |m|
  {
    if m != [] {
      var n := |m| - 1;
      CollapseMembers(m[..n], bottom, oldest);
      forall r ensures r in Collapse(m, bottom, oldest) <==> exists i :: 0 <= i < |m| && m[i] == r && Kept(m, i, bottom, oldest) {
        KeptOfPrefix(m, r, bottom, oldest);
      }
    }
  }

  lemma KeptOfPrefix(m: seq<Record>, r: Record, bottom: bool, oldest: uint64)
    requires m != []
    ensures var n := |m| - 1;
            (exists i :: 0 <= i < |m| && m[i] == r && Kept(m, i, bottom, oldest)) <==>
            (exists i :: 0 <= i < n && m[..n][i] == r && Kept(m[..n], i, bottom, oldest)) || (m[n] == r && Kept(m, n, bottom, oldest))
  {
    hide Kept;
    var n := |m| - 1;
    if i: nat :| i < n && m[i] == r && Kept(m, i, bottom, oldest) {
      KeptSame(m, i, bottom, oldest);
    }
    if i: nat :| i < n && m[..n][i] == r && Kept(m[..n], i, bottom, oldest) {
      KeptSame(m, i, bottom, oldest);
    }
  }

  lemma KeptSame(m: seq<Record>, i: nat, bottom: bool, oldest: uint64)
    requires i < |m| - 1
    ensures m[..|m| - 1][i] == m[i] && (Kept(m[..|m| - 1], i, bottom, oldest) <==> Kept(m, i, bottom, oldest))
  {
    hide Droppable;
  }

  lemma UserKeysOrdered(m: seq<Record>, i: nat, j: nat)
    requires WeaklySorted(m) && i <= j < |m|
    ensures AtMost(m[i].key.userKey, m[j].key.userKey)
    ensures m[i].key.userKey == m[j].key.userKey ==> m[j].key.seqNum <= m[i].key.seqNum
  {
    LessIsOrder();
  }

  lemma CollapseWithin(m: seq<Record>, bottom: bool, oldest: uint64)
    requires WeaklySorted(m)
    ensures forall r :: r in Collapse(m, bottom, oldest) ==> r in m && r.key.userKey != []
  {
    CollapseMembers(m, bottom, oldest);
    forall r | r in Collapse(m, bottom, oldest) ensures r in m && r.key.userKey != [] {
      var i :| 0 <= i < |m| && m[i] == r && Kept(m, i, bottom, oldest);
      if i > 0 {
        UserKeysOrdered(m, i - 1, i);
        LessIsStrict(m[i - 1].key.userKey, m[i].key.userKey);
      }
    }
  }

  lemma KeptIsBeyond(m: seq<Record>, r: Record)
    requires m != [] && WeaklySorted(m) && m[|m| - 1].key.userKey != LastUserKey(m, |m| - 1)
    requires r in m[..|m| - 1]
    ensures Less(r.key.userKey, m[|m| - 1].key.userKey)
  {
    var n := |m| - 1;
    var i :| 0 <= i < n && m[i] == r;
    UserKeysOrdered(m, i, n - 1);
    UserKeysOrdered(m, n - 1, n);
    LessIsOrder();
  }

  /** The output has strictly increasing user keys, none of them empty, and none beyond the merged records. */
  lemma {:induction false} CollapseAscends(m: seq<Record>, bottom: bool, oldest: uint64)
    requires WeaklySorted(m)
    ensures KeysAscend(Collapse(m, bottom, oldest))
    ensures forall r :: r in Collapse(m, bottom, oldest) ==> r in m && r.key.userKey != []
    decreases |m|
  {
    CollapseWithin(m, bottom, oldest);
    hide WeaklySorted;
    if m != [] {
      var n := |m| - 1;
      PrefixIsSorted(m[..n], m);
      CollapseAscends(m[..n], bottom, oldest);
      if Kept(m, n, bottom, oldest) {
        CollapseWithin(m[..n], bottom, oldest);
        AscendsBeyond(m, Collapse(m[..n], bottom, oldest));
      }
    }
  }

  lemma AscendsBeyond(m: seq<Record>, out: seq<Record>)
    requires m != [] && WeaklySorted(m) && m[|m| - 1].key.userKey != LastUserKey(m, |m| - 1)
    requires KeysAscend(out) && forall r :: r in out ==> r in m[..|m| - 1]
    ensures KeysAscend(out + [m[|m| - 1]])
  {
    hide Less, WeaklySorted;
    forall k | 0 <= k < |out| ensures Less(out[k].key.userKey, m[|m| - 1].key.userKey) {
      assert out[k] in out;
      KeptIsBeyond(m, out[k]);
    }
  }

  /** r is the newest version of its user key in s. */
  ghost predicate NewestOf(s: seq<Record>, r: Record) {
    r in s && forall x :: x in s && x.key.userKey == r.key.userKey ==> x.key.seqNum <= r.key.seqNum
  }

  lemma FirstOfKey(m: seq<Record>, i: nat)
    requires WeaklySorted(m) && i < |m| && m[i].key.userKey != LastUserKey(m, i)
    ensures NewestOf(m, m[i])
  {
    forall x | x in m && x.key.userKey == m[i].key.userKey ensures x.key.seqNum <= m[i].key.seqNum {
      var j :| 0 <= j < |m| && m[j] == x;
      NotBeforeFirst(m, i, j);
      UserKeysOrdered(m, i, j);
    }
  }

  lemma NotBeforeFirst(m: seq<Record>, i: nat, j: nat)
    requires WeaklySorted(m) && i < |m| && j < |m| && m[i].key.userKey != LastUserKey(m, i) && m[i].key.userKey == m[j].key.userKey
    ensures i <= j
  {
    if i > 0 {
      LessIsOrder();
      UserKeysOrdered(m, i - 1, i);
      UserKeysOrdered(m, if j < i then j else i, if j < i then i - 1 else j);
    }
  }

  lemma {:induction false} HasFirst(m: seq<Record>, j: nat) returns (i: nat)
    requires WeaklySorted(m) && j < |m| && m[j].key.userKey != []
    ensures i <= j && m[i].key.userKey == m[j].key.userKey != LastUserKey(m, i)
  {
    if j > 0 && m[j - 1].key.userKey == m[j].key.userKey {
      i := HasFirst(m, j - 1);
    } else {
      i := j;
    }
  }

  /**
   * Exactly the newest version of each non-empty user key survives, except tombstones dropped
   * at the bottom level; versions being named by key and sequence number.
   */
  lemma CollapseKeepsNewest(m: seq<Record>, bottom: bool, oldest: uint64)
    requires WeaklySorted(m) && Coherent(Elements(m))
    ensures forall r :: r in Collapse(m, bottom, oldest) <==> NewestOf(m, r) && r.key.userKey != [] && !Droppable(r, bottom, oldest)
  {
    CollapseMembers(m, bottom, oldest);
    CollapseAscends(m, bottom, oldest);
    forall r ensures r in Collapse(m, bottom, oldest) <==> NewestOf(m, r) && r.key.userKey != [] && !Droppable(r, bottom, oldest) {
      if r in Collapse(m, bottom, oldest) {
        var i :| 0 <= i < |m| && m[i] == r && Kept(m, i, bottom, oldest);
        FirstOfKey(m, i);
      }
      if NewestOf(m, r) && r.key.userKey != [] && !Droppable(r, bottom, oldest) {
        var j :| 0 <= j < |m| && m[j] == r;
        var i := HasFirst(m, j);
        FirstOfKey(m, i);
        assert m[i] in Elements(m) && m[i] == r;
        assert Kept(m, i, bottom, oldest);
      }
    }
  }

  /** Collapsing further: the record on its own decides what is added. */
  lemma CollapseMore(m: seq<Record>, r: Record, bottom: bool, oldest: uint64)
    ensures Collapse(m + [r], bottom, oldest) ==
        Collapse(m, bottom, oldest) + (if r.key.userKey != LastUserKey(m, |m|) && !Droppable(r, bottom, oldest) then [r] else [])
  {
    var n := |m|;
    assert (m + [r])[..n] == m && (m + [r])[n] == r;
    assert LastUserKey(m + [r], n) == LastUserKey(m, n);
  }
}
