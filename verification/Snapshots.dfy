/** The list of live snapshots (internal/engine/snapshot.go). */
module Snapshots {
  import opened Bytes

  ghost predicate Ascending(s: seq<uint64>) {
    forall i, j :: 0 <= i < j < |s| ==> s[i] <= s[j]
  }

  /** slices.Sort, by insertion. */
  method Sort(s: seq<uint64>) returns (t: seq<uint64>)
    ensures Ascending(t) && multiset(t) == multiset(s)
  {
    t := [];
    for n := 0 to |s|
      invariant Ascending(t) && multiset(t) == multiset(s[..n])
    {
      var i: nat := |t|;
      while i > 0 && s[n] < t[i - 1]
        invariant i <= |t| && forall k :: i <= k < |t| ==> s[n] < t[k]
      {
        i := i - 1;
      }
      assert s[..n + 1] == s[..n] + [s[n]];
      Inserted(t, i, s[n]);
      t := t[..i] + [s[n]] + t[i..];
    }
    assert s[..|s|] == s;
  }

  lemma Counted(a: seq<uint64>, b: seq<uint64>, x: uint64)
    ensures multiset(a + [x] + b) == multiset(a + b) + multiset{x}
  {
  }

  lemma Inserted(t: seq<uint64>, i: nat, x: uint64)
    requires Ascending(t) && i <= |t| && (i > 0 ==> t[i - 1] <= x) && forall k :: i <= k < |t| ==> x < t[k]
    ensures Ascending(t[..i] + [x] + t[i..]) && multiset(t[..i] + [x] + t[i..]) == multiset(t) + multiset{x}
  {
    assert forall k :: 0 <= k < i - 1 ==> t[k] <= t[i - 1];
    StaysAscending(t, i, x);
    Counted(t[..i], t[i..], x);
    assert t == t[..i] + t[i..];
    hide Ascending;
  }

  lemma StaysAscending(t: seq<uint64>, i: nat, x: uint64)
    requires Ascending(t) && i <= |t| && (forall k :: 0 <= k < i ==> t[k] <= x) && forall k :: i <= k < |t| ==> x < t[k]
    ensures Ascending(t[..i] + [x] + t[i..])
  {
    var out := t[..i] + [x] + t[i..];
    assert forall k :: 0 <= k < i ==> out[k] == t[k];
    assert forall k :: i < k < |out| ==> out[k] == t[k - 1];
  }

  lemma Removed(s: seq<uint64>, i: nat)
    requires Ascending(s) && i < |s|
    ensures Ascending(s[..i] + s[i + 1..]) && multiset(s[..i] + s[i + 1..]) == multiset(s) - multiset{s[i]}
  {
    assert s == s[..i] + ([s[i]] + s[i + 1..]);
    assert multiset(s) == multiset(s[..i]) + multiset([s[i]] + s[i + 1..]);
    assert multiset([s[i]] + s[i + 1..]) == multiset{s[i]} + multiset(s[i + 1..]);
  }

  /** The least of the snapshots; with none, the greatest number of all. */
  ghost predicate IsOldest(seqNum: uint64, snapshots: seq<uint64>) {
    && (if snapshots == [] then seqNum == MAX_UINT64 else seqNum in snapshots)
    && forall s :: s in snapshots ==> seqNum <= s
  }

  class SnapshotList {
    var snapshots: seq<uint64>

    ghost predicate Valid()
      reads this
    {
      Ascending(snapshots)
    }

    constructor ()
      ensures Valid() && snapshots == []
    {
      snapshots := [];
    }

    method Add(seqNum: uint64)
      requires Valid()
      modifies this
      ensures Valid() && multiset(snapshots) == multiset(old(snapshots)) + multiset{seqNum}
    {
      snapshots := snapshots + [seqNum];
      snapshots := Sort(snapshots);
    }

    /** One entry of that number is released; other snapshots at the same number stay. */
    method Remove(seqNum: uint64)
      requires Valid()
      modifies this
      ensures Valid() && multiset(snapshots) == multiset(old(snapshots)) - multiset{seqNum}
    {
      for i := 0 to |snapshots|
        invariant snapshots == old(snapshots) && seqNum !in snapshots[..i]
      {
        if snapshots[i] == seqNum {
          Removed(snapshots, i);
          snapshots := snapshots[..i] + snapshots[i + 1..];
          return;
        }
        assert snapshots[..i + 1] == snapshots[..i] + [snapshots[i]];
      }
      assert snapshots[..|snapshots|] == snapshots;
    }

    /** No live snapshot is older than this; with none, every number is below it but the greatest. */
    method Oldest() returns (seqNum: uint64)
      requires Valid()
      ensures IsOldest(seqNum, snapshots)
    {
      if |snapshots| == 0 {
        return MAX_UINT64;
      }
      return snapshots[0];
    }
  }
}
