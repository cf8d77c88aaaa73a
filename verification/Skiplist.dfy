/** The multi-level linked list behind a memtable (internal/memtable/skiplist.go). */
module Skiplists {
  import opened Bytes
  import opened Records
  import opened Runs

  // ---------- towers: the level structure as plain numbers ----------

  /** The next position after p whose tower is taller than i, or |h| if there is none. */
  ghost function NextTall(h: seq<nat>, p: nat, i: nat): (q: nat)
    requires p < |h|
    ensures p < q <= |h|
    ensures forall x :: p < x < q ==> h[x] <= i
    ensures q < |h| ==> h[q] > i
    decreases |h| - p
  {
    if p + 1 == |h| || h[p + 1] > i then p + 1 else NextTall(h, p + 1, i)
  }

  /** The positions visited by following level i from p. */
  ghost function Chain(h: seq<nat>, p: nat, i: nat): seq<nat>
    requires p < |h|
    decreases |h| - p
  {
    var q := NextTall(h, p, i);
    if q == |h| then [] else [q] + Chain(h, q, i)
  }

  /** Level i visits, in increasing order, exactly the towers taller than i: so no cycles, and each level thins the one below. */
  lemma {:induction false} ChainIsTallTowers(h: seq<nat>, p: nat, i: nat)
    requires p < |h|
    ensures forall x, y :: 0 <= x < y < |Chain(h, p, i)| ==> Chain(h, p, i)[x] < Chain(h, p, i)[y]
    ensures forall q :: q in Chain(h, p, i) <==> p < q < |h| && h[q] > i
    decreases |h| - p
  {
    var q := NextTall(h, p, i);
    if q < |h| {
      ChainIsTallTowers(h, q, i);
      var rest := Chain(h, q, i);
      assert Chain(h, p, i) == [q] + rest;
      assert forall y :: 0 <= y < |rest| ==> rest[y] in rest;
    }
  }

  lemma NextIs(h: seq<nat>, p: nat, i: nat, q: nat)
    requires p < q <= |h|
    requires forall x :: p < x < q ==> h[x] <= i
    requires q < |h| ==> h[q] > i
    ensures NextTall(h, p, i) == q
  {
  }

  /** h' is h with one tower of height lvl added after position c. */
  ghost predicate Inserted(h: seq<nat>, h': seq<nat>, c: nat, lvl: nat) {
    && c < |h| && |h'| == |h| + 1
    && (forall x :: 0 <= x <= c ==> h'[x] == h[x])
    && h'[c + 1] == lvl
    && (forall x :: c + 1 < x < |h'| ==> h'[x] == h[x - 1])
  }

  /** The position that q becomes. */
  ghost function Shift(q: nat, c: nat): nat {
    if q <= c then q else q + 1
  }

  /** A tower between u and the end of its long link is not tall. */
  lemma NotBetween(h: seq<nat>, u: nat, p: nat, i: nat, c: nat)
    requires u <= c && p <= c && c < |h| && h[u] > i && h[p] > i && u != p && NextTall(h, u, i) > c
    ensures NextTall(h, p, i) <= c
  {
  }

  /** A link from the left part leads where it did, unless it is the one that now stops at the new tower. */
  lemma NextOnLeft(h: seq<nat>, h': seq<nat>, c: nat, lvl: nat, u: nat, p: nat, i: nat)
    requires Inserted(h, h', c, lvl) && p <= c && h[p] > i
    requires i < lvl ==> u <= c && h[u] > i && NextTall(h, u, i) > c
    ensures NextTall(h', p, i) == if i < lvl && u == p then c + 1 else Shift(NextTall(h, p, i), c)
  {
    var q := NextTall(h, p, i);
    if i < lvl && u != p {
      NotBetween(h, u, p, i, c);
    }
    NextIs(h', p, i, if i < lvl && u == p then c + 1 else Shift(q, c));
  }

  lemma NextOnRight(h: seq<nat>, h': seq<nat>, c: nat, lvl: nat, p: nat, i: nat)
    requires Inserted(h, h', c, lvl) && c < p < |h|
    ensures NextTall(h', p + 1, i) == Shift(NextTall(h, p, i), c)
  {
    NextIs(h', p + 1, i, NextTall(h, p, i) + 1);
  }

  /** The new tower takes over the link of its predecessor u. */
  lemma NextOfNewTower(h: seq<nat>, h': seq<nat>, c: nat, lvl: nat, u: nat, i: nat)
    requires Inserted(h, h', c, lvl) && u <= c && NextTall(h, u, i) > c
    ensures NextTall(h', c + 1, i) == Shift(NextTall(h, u, i), c)
  {
    NextIs(h', c + 1, i, NextTall(h, u, i) + 1);
  }

  // ---------- the linked structure ----------

  class SkiplistNode {
    const key: InternalKey
    const value: bytes
    var forward: seq<SkiplistNode?>

    constructor (key: InternalKey, value: bytes, height: nat)
      ensures this.key == key && this.value == value
      ensures forward == seq(height, _ => null)
    {
      this.key := key;
      this.value := value;
      forward := seq(height, _ => null);
    }

    function Rec(): Record {
      Record(key, value)
    }
  }

  ghost function NodeAt(nodes: seq<SkiplistNode>, q: nat): SkiplistNode? {
    if q < |nodes| then nodes[q] else null
  }

  /** ns is nodes with newNode added after position c. */
  ghost predicate Spliced(nodes: seq<SkiplistNode>, ns: seq<SkiplistNode>, c: nat, newNode: SkiplistNode) {
    && c < |nodes| && |ns| == |nodes| + 1 && ns[c + 1] == newNode
    && (forall x :: 0 <= x <= c ==> ns[x] == nodes[x])
    && (forall x :: c + 1 < x < |ns| ==> ns[x] == nodes[x - 1])
  }

  lemma SplicedAt(nodes: seq<SkiplistNode>, ns: seq<SkiplistNode>, c: nat, newNode: SkiplistNode, q: nat)
    requires Spliced(nodes, ns, c, newNode)
    ensures NodeAt(ns, Shift(q, c)) == NodeAt(nodes, q)
  {
  }

  /** No node occurs twice and, after the head, no key is before an earlier one. */
  ghost predicate InOrder(nodes: seq<SkiplistNode>) {
    && (forall p, q :: 0 <= p < q < |nodes| ==> nodes[p] != nodes[q])
    && (forall p, q :: 0 < p < q < |nodes| ==> !Before(nodes[q].key, nodes[p].key))
  }

  lemma SpliceKeepsOrder(nodes: seq<SkiplistNode>, ns: seq<SkiplistNode>, c: nat, newNode: SkiplistNode)
    requires InOrder(nodes) && Spliced(nodes, ns, c, newNode) && newNode !in nodes
    requires forall p :: 0 < p <= c ==> Before(nodes[p].key, newNode.key)
    requires c + 1 < |nodes| ==> !Before(nodes[c + 1].key, newNode.key)
    ensures InOrder(ns)
  {
    forall p, q | 0 < p < q < |ns| ensures !Before(ns[q].key, ns[p].key) {
      BeforeIsOrder();
      if p == c + 1 && c + 1 < q - 1 {
        assert !Before(nodes[q - 1].key, nodes[c + 1].key);
      }
    }
  }

  /** Every link of every level leads to the next tower that reaches that level. */
  ghost predicate LinksFit(nodes: seq<SkiplistNode>, heights: seq<nat>)
    reads nodes
  {
    && |nodes| == |heights|
    && (forall p :: 0 <= p < |nodes| ==> |nodes[p].forward| == heights[p])
    && (forall p, i {:trigger nodes[p].forward[i]} :: 0 <= p < |nodes| && 0 <= i < heights[p] ==>
          nodes[p].forward[i] == NodeAt(nodes, NextTall(heights, p, i)))
  }

  class Skiplist {
    const head: SkiplistNode
    const maxLevel: nat
    var level: nat
    /** head and then the data nodes, in list order; and the height of each. */
    ghost var nodes: seq<SkiplistNode>
    ghost var heights: seq<nat>

    ghost predicate Shape()
      reads this
    {
      && 0 < |nodes| == |heights|
      && nodes[0] == head && heights[0] == maxLevel
      && 1 <= level <= maxLevel
      && (forall p :: 0 < p < |nodes| ==> 1 <= heights[p] <= level)
      && InOrder(nodes)
    }

    ghost predicate Valid()
      reads this, nodes
    {
      Shape() && LinksFit(nodes, heights)
    }

    ghost function Records(): seq<Record>
      reads this
    {
      RecordsOf(nodes)
    }

    static ghost function RecordsOf(nodes: seq<SkiplistNode>): seq<Record> {
      seq(if |nodes| == 0 then 0 else |nodes| - 1, p requires 0 <= p < |nodes| - 1 => nodes[p + 1].Rec())
    }

    constructor (maxLevel: nat)
      requires maxLevel >= 1
      ensures Valid() && Records() == [] && fresh(this) && fresh(nodes)
      ensures this.maxLevel == maxLevel
    {
      var h := new SkiplistNode(InternalKey([], 0, 0), [], maxLevel);
      head := h;
      this.maxLevel := maxLevel;
      level := 1;
      nodes := [h];
      heights := [maxLevel];
    }

    /** Where key belongs: position c is the last one before it. */
    ghost predicate Splits(c: nat, key: InternalKey)
      reads this
    {
      && c < |nodes|
      && (forall p :: 0 < p <= c ==> Before(nodes[p].key, key))
      && (c + 1 < |nodes| ==> !Before(nodes[c + 1].key, key))
    }

    lemma SplitsIsLowerBound(c: nat, key: InternalKey)
      requires Shape() && Splits(c, key)
      ensures LowerBound(Records(), key) == c && WeaklySorted(Records())
    {
      LowerBoundUnique(Records(), key, c);
    }

    /** The descent shared by search and Seek: the last node before key. */
    method Descend(key: InternalKey) returns (curr: SkiplistNode, ghost c: nat)
      requires Valid()
      ensures Splits(c, key) && curr == nodes[c]
    {
      BeforeIsOrder();
      curr, c := head, 0;
      for i := level downto 0
        invariant c < |nodes| && curr == nodes[c] && heights[c] >= i
        invariant forall p :: 0 < p <= c ==> Before(nodes[p].key, key)
        invariant i == 0 ==> c + 1 < |nodes| ==> !Before(nodes[c + 1].key, key)
      {
        curr, c := Walk(curr, c, i, key);
      }
    }

    /** The inner loop: along level i while the next key is still before key. */
    method Walk(start: SkiplistNode, ghost c0: nat, i: nat, key: InternalKey) returns (curr: SkiplistNode, ghost c: nat)
      requires Valid() && c0 < |nodes| && start == nodes[c0] && heights[c0] > i
      requires forall p :: 0 < p <= c0 ==> Before(nodes[p].key, key)
      ensures c0 <= c < |nodes| && curr == nodes[c] && heights[c] > i
      ensures forall p :: 0 < p <= c ==> Before(nodes[p].key, key)
      ensures NextTall(heights, c, i) < |nodes| ==> !Before(nodes[NextTall(heights, c, i)].key, key)
    {
      BeforeIsOrder();
      curr, c := start, c0;
      while curr.forward[i] != null && Before(curr.forward[i].key, key)
        invariant c0 <= c < |nodes| && curr == nodes[c] && heights[c] > i
        invariant forall p :: 0 < p <= c ==> Before(nodes[p].key, key)
        decreases |nodes| - c
      {
        ghost var q := NextTall(heights, c, i);
        curr := curr.forward[i];
        c := q;
      }
    }

    method Search(userKey: bytes, lookupKey: InternalKey) returns (value: bytes, found: bool, deleted: bool)
      requires Valid() && userKey == lookupKey.userKey
      ensures found == Find(Records(), lookupKey).Some?
      ensures deleted == (found && Find(Records(), lookupKey).value.IsTombstone())
      ensures found && !deleted ==> value == Find(Records(), lookupKey).value.value
    {
      var before, c := Descend(lookupKey);
      SplitsIsLowerBound(c, lookupKey);
      assert NextTall(heights, c, 0) == c + 1;
      var curr := before.forward[0];
      if curr != null && curr.key.userKey == userKey {
        if curr.key.typ == TYPE_DEL {
          return [], true, true;
        }
        return curr.value, true, false;
      }
      return [], false, false;
    }

    /** u[j] is the last position up to c whose tower reaches level j, for the n lowest levels. */
    ghost predicate LastBefore(u: seq<nat>, c: nat, n: nat)
      reads this
    {
      && n <= |u| && |nodes| == |heights| && c < |nodes|
      && forall j :: 0 <= j < n ==> u[j] <= c && heights[u[j]] > j && NextTall(heights, u[j], j) > c
    }

    ghost predicate NodesAt(update: seq<SkiplistNode?>, u: seq<nat>, n: nat)
      reads this
    {
      && n <= |u| && n <= |update|
      && forall j :: 0 <= j < n ==> u[j] < |nodes| && update[j] == nodes[u[j]]
    }

    /** As far as the descent has come: position u[j] was left at level j because the next key there is not before key. */
    ghost predicate Descended(u: seq<nat>, c: nat, i: nat, key: InternalKey)
      reads this
    {
      && level <= |u| && |nodes| == |heights| && c < |nodes|
      && forall j :: i <= j < level ==>
          u[j] <= c && heights[u[j]] > j && (NextTall(heights, u[j], j) < |nodes| ==> !Before(nodes[NextTall(heights, u[j], j)].key, key))
    }

    lemma DescendedIsLastBefore(u: seq<nat>, c: nat, key: InternalKey)
      requires Shape() && Descended(u, c, 0, key)
      requires forall p :: 0 < p <= c ==> Before(nodes[p].key, key)
      ensures LastBefore(u, c, level) && Splits(c, key)
    {
      BeforeIsOrder();
      assert NextTall(heights, u[0], 0) == u[0] + 1;
    }

    /** The descent of insert, which remembers the node it leaves each level from. */
    method FindPredecessors(key: InternalKey) returns (update: seq<SkiplistNode?>, ghost u: seq<nat>, ghost c: nat)
      requires Valid()
      ensures Splits(c, key) && |update| == |u| == maxLevel
      ensures NodesAt(update, u, level) && LastBefore(u, c, level)
    {
      hide NextTall, Before;
      var curr := head;
      update := seq(maxLevel, _ => null);
      c, u := 0, seq(maxLevel, _ => 0);
      for i := level downto 0
        invariant |update| == |u| == maxLevel
        invariant c < |nodes| && curr == nodes[c] && heights[c] >= i
        invariant forall p :: 0 < p <= c ==> Before(nodes[p].key, key)
        invariant forall j :: i <= j < level ==> u[j] < |nodes| && update[j] == nodes[u[j]]
        invariant Descended(u, c, i, key)
      {
        curr, c := Walk(curr, c, i, key);
        update, u := update[i := curr], u[i := c];
      }
      DescendedIsLastBefore(u, c, key);
    }

    /** Puts a record in order, before any record of equal key; lvl is the height randomLevel drew. */
    method Insert(key: InternalKey, value: bytes, lvl: nat)
      requires Valid() && 1 <= lvl <= maxLevel
      modifies this, nodes
      ensures Valid() && fresh(Elems(nodes) - old(Elems(nodes)))
      ensures Records() == Runs.Insert(old(Records()), Record(key, value))
    {
      var update, u, c := FindPredecessors(key);
      SplitsIsLowerBound(c, key);
      if lvl > level {
        update, u := RaiseLevel(update, u, c, lvl);
      }
      InsertAfter(update, u, c, key, value, lvl);
    }

    method InsertAfter(update: seq<SkiplistNode?>, ghost u: seq<nat>, ghost c: nat, key: InternalKey, value: bytes, lvl: nat)
      requires Valid() && 1 <= lvl <= level && lvl <= |u|
      requires Splits(c, key) && NodesAt(update, u, lvl) && LastBefore(u, c, lvl)
      modifies this, nodes
      ensures Valid() && fresh(Elems(nodes) - old(Elems(nodes)))
      ensures var s := old(Records()); Records() == s[..c] + [Record(key, value)] + s[c..]
    {
      ghost var before := nodes;
      var newNode := new SkiplistNode(key, value, lvl);
      Link(newNode, update, u, c, lvl);
      Splice(newNode, u, c, lvl);
      SplicedRecords(before, nodes, c, newNode);
    }

    static lemma SplicedRecords(nodes: seq<SkiplistNode>, ns: seq<SkiplistNode>, c: nat, newNode: SkiplistNode)
      requires Spliced(nodes, ns, c, newNode)
      ensures var s := RecordsOf(nodes); RecordsOf(ns) == s[..c] + [newNode.Rec()] + s[c..]
    {
    }

    /** The new levels start at the head, which had no links there. */
    method RaiseLevel(update0: seq<SkiplistNode?>, ghost u0: seq<nat>, ghost c: nat, lvl: nat)
      returns (update: seq<SkiplistNode?>, ghost u: seq<nat>)
      requires Valid() && level < lvl <= maxLevel && |update0| == |u0| == maxLevel
      requires NodesAt(update0, u0, level) && LastBefore(u0, c, level)
      modifies this`level
      ensures Valid() && level == lvl && |update| == |u| == maxLevel
      ensures NodesAt(update, u, lvl) && LastBefore(u, c, lvl)
    {
      update, u := update0, u0;
      for i := level to lvl
        invariant |update| == |u| == maxLevel
        invariant NodesAt(update, u, i) && LastBefore(u, c, i)
      {
        update, u := update[i := head], u[i := 0];
        assert NextTall(heights, 0, i) == |nodes|;
      }
      level := lvl;
    }

    /** Once newNode is linked in at every level, its links and everyone else's fit the list ns that contains it. */
    lemma LinkAfterSplice(newNode: SkiplistNode, u: seq<nat>, c: nat, lvl: nat, ns: seq<SkiplistNode>, h: seq<nat>, p: nat, i: nat)
      requires Shape() && lvl <= |u| && LastBefore(u, c, lvl) && Linked(newNode, u, lvl, lvl)
      requires Spliced(nodes, ns, c, newNode) && Inserted(heights, h, c, lvl)
      requires p < |ns| && i < h[p]
      ensures |ns[p].forward| == h[p] && i < |ns[p].forward| && ns[p].forward[i] == NodeAt(ns, NextTall(h, p, i))
    {
      if p <= c {
        NextOnLeft(heights, h, c, lvl, if i < lvl then u[i] else 0, p, i);
        var q := NextTall(heights, p, i);
        assert ns[p] == nodes[p] && h[p] == heights[p];
        assert ns[p].forward[i] == if i < lvl && u[i] == p then newNode else NodeAt(nodes, q);
        SplicedAt(nodes, ns, c, newNode, q);
      } else if p == c + 1 {
        NextOfNewTower(heights, h, c, lvl, u[i], i);
        var q := NextTall(heights, u[i], i);
        assert ns[p].forward[i] == NodeAt(nodes, q);
        SplicedAt(nodes, ns, c, newNode, q);
      } else {
        NextOnRight(heights, h, c, lvl, p - 1, i);
        var q := NextTall(heights, p - 1, i);
        assert ns[p] == nodes[p - 1] && h[p] == heights[p - 1];
        assert ns[p].forward[i] == NodeAt(nodes, q);
        SplicedAt(nodes, ns, c, newNode, q);
      }
    }

    lemma LinksFitAfterSplice(newNode: SkiplistNode, u: seq<nat>, c: nat, lvl: nat, ns: seq<SkiplistNode>, h: seq<nat>)
      requires Shape() && lvl <= |u| && LastBefore(u, c, lvl) && Linked(newNode, u, lvl, lvl)
      requires Spliced(nodes, ns, c, newNode) && Inserted(heights, h, c, lvl)
      ensures LinksFit(ns, h)
    {
      forall p | 0 <= p < |ns| ensures |ns[p].forward| == h[p] {
        assert p != c + 1 ==> ns[p] == nodes[if p <= c then p else p - 1];
      }
      forall p, i | 0 <= p < |ns| && 0 <= i < h[p]
        ensures ns[p].forward[i] == NodeAt(ns, NextTall(h, p, i))
      {
        LinkAfterSplice(newNode, u, c, lvl, ns, h, p, i);
      }
    }

    /** The lists of positions catch up with the links. */
    ghost method Splice(newNode: SkiplistNode, u: seq<nat>, c: nat, lvl: nat)
      requires Shape() && newNode !in nodes && 1 <= lvl <= level && lvl <= |u|
      requires LastBefore(u, c, lvl) && Splits(c, newNode.key) && Linked(newNode, u, lvl, lvl)
      modifies this`nodes, this`heights
      ensures Valid() && Spliced(old(nodes), nodes, c, newNode)
    {
      hide InOrder, LinksFit, Linked, LastBefore;
      var ns, h := nodes[..c + 1] + [newNode] + nodes[c + 1..], heights[..c + 1] + [lvl] + heights[c + 1..];
      LinksFitAfterSplice(newNode, u, c, lvl, ns, h);
      SpliceKeepsOrder(nodes, ns, c, newNode);
      nodes, heights := ns, h;
    }

    /** Every link is as in Valid, but that newNode has been spliced into the n lowest levels. */
    ghost predicate Linked(newNode: SkiplistNode, u: seq<nat>, n: nat, lvl: nat)
      requires Shape() && n <= |u|
      reads this, nodes, newNode
    {
      && |newNode.forward| == lvl >= n
      && (forall p :: 0 <= p < |nodes| ==> |nodes[p].forward| == heights[p])
      && (forall j :: 0 <= j < n ==> u[j] < |nodes| && newNode.forward[j] == NodeAt(nodes, NextTall(heights, u[j], j)))
      && (forall p, j {:trigger nodes[p].forward[j]} :: 0 <= p < |nodes| && 0 <= j < heights[p] ==>
            nodes[p].forward[j] == if j < n && u[j] == p then newNode else NodeAt(nodes, NextTall(heights, p, j)))
    }

    method LinkLevel(newNode: SkiplistNode, pred: SkiplistNode, ghost u: seq<nat>, i: nat, ghost lvl: nat)
      requires Shape() && newNode !in nodes && i < lvl <= |u|
      requires Linked(newNode, u, i, lvl)
      requires u[i] < |nodes| && pred == nodes[u[i]] && heights[u[i]] > i
      modifies nodes, newNode
      ensures Linked(newNode, u, i + 1, lvl)
    {
      newNode.forward := newNode.forward[i := pred.forward[i]];
      pred.forward := pred.forward[i := newNode];
    }

    method Link(newNode: SkiplistNode, update: seq<SkiplistNode?>, ghost u: seq<nat>, ghost c: nat, lvl: nat)
      requires Shape() && newNode !in nodes && lvl <= |u|
      requires Linked(newNode, u, 0, lvl)
      requires NodesAt(update, u, lvl) && LastBefore(u, c, lvl)
      modifies nodes, newNode
      ensures Linked(newNode, u, lvl, lvl)
    {
      for i := 0 to lvl
        invariant Linked(newNode, u, i, lvl)
      {
        LinkLevel(newNode, update[i], u, i, lvl);
      }
    }
  }

  ghost function Elems(s: seq<SkiplistNode>): set<SkiplistNode> {
    set n | n in s
  }
}
