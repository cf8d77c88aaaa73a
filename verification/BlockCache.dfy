/** The least-recently-used cache of decoded blocks (internal/sstable/block_cache.go). */
module BlockCaches {
  import opened Bytes
  import opened Records

  datatype BlockKey = BlockKey(fileNum: uint64, offset: uint64)

  type Block = seq<Record>

  // ---------- recency lists ----------

  ghost predicate NoRepeats(s: seq<BlockKey>) {
    forall i, j :: 0 <= i < j < |s| ==> s[i] != s[j]
  }

  function Without(s: seq<BlockKey>, k: BlockKey): (r: seq<BlockKey>)
    ensures forall x :: x in r ==> x in s
    ensures forall x :: x in s && x != k ==> x in r
    ensures NoRepeats(s) ==> NoRepeats(r) && k !in r && |r| == if k in s then |s| - 1 else |s|
  {
    if s == [] then [] else if s[0] == k then s[1..] else
      var rest := Without(s[1..], k);
      assert NoRepeats(s) ==> NoRepeats(s[1..]) && s[0] !in s[1..];
      [s[0]] + rest
  }

  function Limit(cap: int): nat {
    if cap < 0 then 0 else cap
  }

  function Newest(s: seq<BlockKey>, cap: int): seq<BlockKey> {
    if |s| <= Limit(cap) then s else s[..Limit(cap)]
  }

  /** k comes to the front; beyond capacity the back falls off. */
  function Touched(s: seq<BlockKey>, cap: int, k: BlockKey): seq<BlockKey> {
    Newest([k] + Without(s, k), cap)
  }

  /** The distinct keys of an access history, most recent first. */
  ghost function Recent(history: seq<BlockKey>): (r: seq<BlockKey>)
    ensures NoRepeats(r)
  {
    if history == [] then [] else
      var n := |history| - 1;
      [history[n]] + Without(Recent(history[..n]), history[n])
  }

  lemma {:induction false} WithoutPrefix(s: seq<BlockKey>, n: nat, k: BlockKey)
    requires NoRepeats(s) && n <= |s|
    ensures n < |Without(s, k)| ==> Without(s[..n], k) == Without(s, k)[..|Without(s[..n], k)|]
    ensures n >= |Without(s, k)| ==> Without(s[..n], k) <= Without(s, k)
    ensures n - 1 <= |Without(s[..n], k)| <= n
    decreases |s|
  {
    if n > 0 {
      assert s[..n][0] == s[0] && s[..n][1..] == s[1..][..n - 1];
      if s[0] != k {
        WithoutPrefix(s[1..], n - 1, k);
        ConsPrefix(s[0], Without(s[1..][..n - 1], k), Without(s[1..], k));
      }
    }
  }

  lemma ConsPrefix(x: BlockKey, a: seq<BlockKey>, b: seq<BlockKey>)
    ensures a <= b ==> [x] + a <= [x] + b
    ensures |a| <= |b| && a == b[..|a|] ==> [x] + a == ([x] + b)[..|a| + 1]
  {
  }

  /**
   * The cache holds the cap most recently touched keys of its whole history:
   * touching the truncated list is truncating the touched list.
   */
  lemma TouchedIsRecent(history: seq<BlockKey>, cap: int, k: BlockKey)
    ensures Touched(Newest(Recent(history), cap), cap, k) == Newest(Recent(history + [k]), cap)
  {
    var r, n := Recent(history), Limit(cap);
    assert (history + [k])[..|history|] == history;
    if |r| > n {
      WithoutPrefix(r, n, k);
    }
  }

  // ---------- the cache ----------

  class LRU {
    const cap: int
    /** The keys from most to least recently used; each names its list element. */
    var ll: seq<BlockKey>
    var items: map<BlockKey, Block>

    /** Map and list hold the same keys, once each, within capacity. */
    ghost predicate Valid()
      reads this
    {
      NoRepeats(ll) && (forall k :: k in ll <==> k in items) && |ll| <= Limit(cap)
    }

    constructor (cap: int)
      ensures Valid() && ll == [] && items == map[] && this.cap == cap
    {
      this.cap, ll, items := cap, [], map[];
    }

    method Get(fileNum: uint64, offset: uint64) returns (block: Block, ok: bool)
      requires Valid()
      modifies this
      ensures Valid() && items == old(items)
      ensures ok == (BlockKey(fileNum, offset) in items)
      ensures ok ==> block == items[BlockKey(fileNum, offset)]
      ensures ll == if ok then Touched(old(ll), cap, BlockKey(fileNum, offset)) else old(ll)
    {
      var key := BlockKey(fileNum, offset);
      if key !in items {
        return [], false;
      }
      MoveToFront(key);
      return items[key], true;
    }

    method MoveToFront(key: BlockKey)
      requires Valid() && key in items
      modifies this`ll
      ensures Valid() && ll == [key] + Without(old(ll), key)
    {
      ll := [key] + Without(ll, key);
    }

    /** Afterwards the cache maps key to data, unless it can hold nothing at all. */
    method Set(fileNum: uint64, offset: uint64, data: Block)
      requires Valid()
      modifies this
      ensures Valid()
      ensures var key := BlockKey(fileNum, offset);
              && ll == Touched(old(ll), cap, key)
              && (forall k :: k in items ==> if k == key then items[k] == data else k in old(items) && items[k] == old(items)[k])
    {
      var key := BlockKey(fileNum, offset);
      if key in items {
        MoveToFront(key);
        items := items[key := data];
        return;
      }
      WithoutAbsent(ll, key);
      ll := [key] + ll;
      items := items[key := data];
      if |ll| > cap {
        Evict();
      }
    }

    lemma WithoutAbsent(s: seq<BlockKey>, k: BlockKey)
      requires k !in s
      ensures Without(s, k) == s
    {
    }

    /** Drops the least recently used key. */
    method Evict()
      requires NoRepeats(ll) && (forall k :: k in ll <==> k in items) && ll != []
      modifies this
      ensures ll == old(ll)[..|old(ll)| - 1]
      ensures NoRepeats(ll) && (forall k :: k in ll <==> k in items)
      ensures forall k :: k in items ==> k in old(items) && items[k] == old(items)[k]
    {
      var key := ll[|ll| - 1];
      ll := ll[..|ll| - 1];
      items := items - {key};
      forall k ensures k in ll <==> k in items {
        if k in old(ll) && k != key {
          var i :| 0 <= i < |old(ll)| && old(ll)[i] == k;
          assert ll[i] == k;
        }
      }
    }
  }
}
