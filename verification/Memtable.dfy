/** The memtable and its iterator, over the skiplist (internal/memtable). */
module Memtables {
  import opened Bytes
  import opened Records
  import opened Runs
  import opened Skiplists

  lemma InsertAddsSize(s: seq<Record>, r: Record)
    ensures SumSizes(Insert(s, r)) == SumSizes(s) + r.Size()
  {
    var i := LowerBound(s, r.key);
    assert s == s[..i] + s[i..];
    SumSizesConcat(s[..i], s[i..]);
    SumSizesConcat(s[..i] + [r], s[i..]);
    SumSizesConcat(s[..i], [r]);
  }

  class Memtable {
    const list: Skiplist
    const maxSize: nat
    var size: nat

    ghost predicate Valid()
      reads this, list, list.nodes
    {
      list.Valid() && size == SumSizes(list.Records())
    }

    ghost function Records(): seq<Record>
      reads list
    {
      list.Records()
    }

    ghost function Repr(): set<object>
      reads list
    {
      {this, list} + Elems(list.nodes)
    }

    constructor (maxSize: nat, slMaxLevel: nat)
      requires slMaxLevel >= 1
      ensures Valid() && Records() == [] && fresh(Repr())
      ensures this.maxSize == maxSize && list.maxLevel == slMaxLevel
    {
      list := new Skiplist(slMaxLevel);
      this.maxSize := maxSize;
      size := 0;
    }

    method Put(r: Record, lvl: nat)
      requires Valid() && 1 <= lvl <= list.maxLevel
      modifies Repr()
      ensures Valid() && fresh(Repr() - old(Repr()))
      ensures Records() == Insert(old(Records()), r)
    {
      InsertAddsSize(Records(), r);
      list.Insert(r.key, r.value, lvl);
      size := size + r.Size();
    }

    method Get(userKey: bytes, lookupKey: InternalKey) returns (value: bytes, found: bool, deleted: bool)
      requires Valid() && userKey == lookupKey.userKey
      ensures found == Find(Records(), lookupKey).Some?
      ensures deleted == (found && Find(Records(), lookupKey).value.IsTombstone())
      ensures found && !deleted ==> value == Find(Records(), lookupKey).value.value
    {
      value, found, deleted := list.Search(userKey, lookupKey);
    }

    predicate IsFull()
      reads this
    {
      size >= maxSize
    }

    method Iterator() returns (it: MemtableIterator)
      requires Valid()
      ensures fresh(it) && it.Valid() && it.list == list && it.Remaining() == Records() && it.frame <= Repr() && it !in it.frame
    {
      hide Elems, SumSizes;
      ghost var repr := Repr();
      assert allocated(repr);
      it := new MemtableIterator(list);
      assert it !in repr;
    }
  }

  class MemtableIterator {
    const list: Skiplist
    var curr: SkiplistNode?
    /** The position of curr in list.nodes, or past the end. */
    ghost var pos: nat
    /** The list and its nodes, which stay as they are while the iterator is in use. */
    ghost const frame: set<object>

    ghost predicate Valid()
      reads this, frame
    {
      && list in frame && (forall n :: n in list.nodes ==> n in frame)
      && list.Valid() && 1 <= pos <= |list.nodes| && curr == NodeAt(list.nodes, pos)
    }

    ghost function Remaining(): seq<Record>
      requires Valid()
      reads this, frame
    {
      list.Records()[pos - 1..]
    }

    constructor (list: Skiplist)
      requires list.Valid()
      ensures Valid() && this.list == list && Remaining() == list.Records()
      ensures frame == {list} + Elems(list.nodes)
    {
      this.list := list;
      frame := {list} + Elems(list.nodes);
      curr := list.head.forward[0];
      pos := 1;
    }

    predicate HasCurrent()
      reads this
    {
      curr != null
    }

    function Current(): Record
      requires HasCurrent()
      reads this
    {
      curr.Rec()
    }

    lemma CurrentIsFirst()
      requires Valid()
      ensures HasCurrent() <==> Remaining() != []
      ensures HasCurrent() ==> Current() == Remaining()[0]
    {
    }

    method Next()
      requires Valid()
      modifies this
      ensures Valid()
      ensures Remaining() == if old(Remaining()) == [] then [] else old(Remaining())[1..]
    {
      if curr == null {
        return;
      }
      assert NextTall(list.heights, pos, 0) == pos + 1;
      curr := curr.forward[0];
      pos := pos + 1;
    }

    /** Moves to the first record at or after target, wherever the iterator stood. */
    method Seek(target: InternalKey)
      requires Valid()
      modifies this
      ensures Valid()
      ensures Remaining() == list.Records()[LowerBound(list.Records(), target)..]
    {
      var before, c := list.Descend(target);
      list.SplitsIsLowerBound(c, target);
      assert NextTall(list.heights, c, 0) == c + 1;
      curr := before.forward[0];
      pos := c + 1;
    }
  }
}
