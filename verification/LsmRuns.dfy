/** Whole runs: the latest value of every key is what the writes alone would give. */
module LsmRuns {
  import opened Bytes
  import opened Records
  import opened Runs
  import opened Versions
  import opened Layers
  import opened TableSets
  import opened Lsm
  import opened LsmCompaction

  /** What an action does to the contents of the database. */
  function Effect(a: Action, contents: map<bytes, bytes>): map<bytes, bytes> {
    match a
    case Put(key, value) => if key == [] || value == [] then contents else contents[key := value]
    case Delete(key) => contents - {key}
    case _ => contents
  }

  function Fold(actions: seq<Action>): map<bytes, bytes> {
    if actions == [] then map[] else
      var n := |actions| - 1;
      Effect(actions[n], Fold(actions[..n]))
  }

  ghost predicate IsRun(states: seq<State>, actions: seq<Action>) {
    && |states| == |actions| + 1 && Init(states[0])
    && forall i :: 0 <= i < |actions| ==> Step(states[i], actions[i], states[i + 1])
  }

  function Lookup(contents: map<bytes, bytes>, key: bytes): Option<bytes> {
    if key in contents then Some(contents[key]) else None
  }

  /** The state stands for the contents. */
  ghost predicate Stands(s: State, contents: map<bytes, bytes>)
    requires |s.levels| >= 1
  {
    forall u: bytes {:trigger Latest(s, u)} :: Latest(s, u) == Lookup(contents, u)
  }

  lemma SameStands(s: State, s': State, contents: map<bytes, bytes>)
    requires |s.levels| >= 1 && |s'.levels| >= 1 && All(s') == All(s) && Stands(s, contents)
    ensures Stands(s', contents)
  {
    forall u: bytes ensures Latest(s', u) == Lookup(contents, u) {
      assert Latest(s', u) == Latest(s, u);
    }
  }

  lemma StepKeepsInv(s: State, a: Action, s': State, strict: bool)
    requires Inv(s, strict) && Step(s, a, s')
    ensures Inv(s', strict)
  {
    match a
    case Put(key, value) =>
      if key != [] && value != [] {
        WriteKeepsInv(s, key, value, TYPE_PUT, strict);
      }
    case Delete(key) => WriteKeepsInv(s, key, [], TYPE_DEL, strict);
    case Rotate => RotateKeepsInv(s, strict);
    case Flush(size) => FlushKeepsInv(s, size, strict);
    case Start(_, _, _, _, _) => StartKeepsInv(s, a, strict);
    case Finish(_, _, _, _, _) => FinishKeepsInv(s, a, strict);
  }

  /** Only writes change what the state stands for. */
  lemma StepEffect(s: State, a: Action, s': State, contents: map<bytes, bytes>, strict: bool)
    requires Inv(s, strict) && Step(s, a, s') && Stands(s, contents)
    ensures |s'.levels| >= 1 && Stands(s', Effect(a, contents))
  {
    hide Catalogued, Versioned, NumbersFresh, RunsSorted, JobStands, StackOf, Shown, CanFinish, Finished, Applied, Flushed, Written, Rotated, Started;
    StepKeepsInv(s, a, s', strict);
    match a
    case Put(key, value) =>
      if key != [] && value != [] {
        WriteStands(s, key, value, TYPE_PUT, contents, strict);
      }
    case Delete(key) => WriteStands(s, key, [], TYPE_DEL, contents, strict);
    case Rotate =>
      RotateKeepsInv(s, strict);
      SameStands(s, s', contents);
    case Flush(size) =>
      FlushKeepsInv(s, size, strict);
      SameStands(s, s', contents);
    case Start(_, _, _, _, _) =>
      StartKeepsInv(s, a, strict);
      SameStands(s, s', contents);
    case Finish(_, _, _, _, _) =>
      FinishKeepsInv(s, a, strict);
      forall u: bytes ensures Latest(s', u) == Lookup(contents, u) {
        FinishKeepsLatest(s, a, strict, u);
      }
  }

  lemma WriteStands(s: State, key: bytes, value: bytes, typ: byte, contents: map<bytes, bytes>, strict: bool)
    requires Inv(s, strict) && s.seqNum < MAX_UINT64 && Stands(s, contents) && (key == [] ==> typ == TYPE_DEL)
    ensures |Written(s, key, value, typ).levels| >= 1
    ensures Stands(Written(s, key, value, typ), if typ == TYPE_DEL then contents - {key} else contents[key := value])
  {
    forall u: bytes
      ensures Latest(Written(s, key, value, typ), u) == Lookup(if typ == TYPE_DEL then contents - {key} else contents[key := value], u)
    {
      WriteIsRead(s, key, value, typ, strict, u);
    }
  }

  lemma RunInit(states: seq<State>, actions: seq<Action>)
    requires IsRun(states, actions)
    ensures Inv(states[0], true) && Stands(states[0], map[])
  {
    InitHolds(states[0]);
  }

  /**
   * After any run of single writes, rotations, flushes and compactions, whatever their order and
   * wherever the outputs were cut, the newest version of each key is the last one written.
   */
  lemma {:induction false} EveryRun(states: seq<State>, actions: seq<Action>)
    requires IsRun(states, actions)
    ensures var s := states[|actions|]; Inv(s, true) && Stands(s, Fold(actions))
    decreases |actions|
  {
    var n := |actions|;
    if n == 0 {
      RunInit(states, actions);
    } else {
      var before := actions[..n - 1];
      assert IsRun(states[..n], before);
      EveryRun(states[..n], before);
      hide Step, Inv, Stands;
      assert Step(states[n - 1], actions[n - 1], states[n]);
      StepKeepsInv(states[n - 1], actions[n - 1], states[n], true);
      StepEffect(states[n - 1], actions[n - 1], states[n], Fold(before), true);
    }
  }
}
