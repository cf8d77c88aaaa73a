/** Group commit as a step machine: submitters, the commit channel and the committer (internal/wal/wal.go). */
module GroupCommits {
  import opened Bytes
  import opened Records
  import opened TableFormat
  import opened Wals

  /** A commitReq: the records whose encoding is its buffer. */
  datatype Request = Request(id: nat, recs: seq<Record>)

  datatype Phase = Idle | Draining | Writing | Syncing | Answering | Stopped

  datatype State = State(
    queue: seq<Request>,      // the commit channel
    batch: seq<Request>,      // what the committer has taken and not yet answered
    phase: Phase,
    file: bytes,
    synced: nat,              // how much of the file is on stable storage
    closed: bool,
    answered: seq<Request>,   // requests whose submit returns nil, in order
    sent: seq<Request>)       // every request ever put in the channel, in order

  const CHANNEL_CAPACITY: nat := 256

  datatype Action =
    | Send(req: Request)      // submit: past the closed check and into the channel
    | Receive                 // committer: first request of a batch
    | DrainMore               // committer: select finds another request waiting
    | DrainStop               // committer: select takes its default, or sees the channel closed
    | Write
    | Sync
    | Answer
    | Close
    | Stop                    // committer: channel closed and empty

  function Init(): State {
    State([], [], Idle, [], 0, false, [], [])
  }

  predicate Enabled(s: State, a: Action) {
    match a
    case Send(req) => !s.closed && |s.queue| < CHANNEL_CAPACITY && forall r :: r in req.recs ==> r.Fits()
    case Receive => s.phase == Idle && s.queue != []
    case DrainMore => s.phase == Draining && s.queue != []
    case DrainStop => s.phase == Draining && s.queue == []
    case Write => s.phase == Writing
    case Sync => s.phase == Syncing
    case Answer => s.phase == Answering
    case Close => !s.closed
    case Stop => s.phase == Idle && s.queue == [] && s.closed
  }

  function RecordsOf(reqs: seq<Request>): seq<Record> {
    if reqs == [] then [] else reqs[0].recs + RecordsOf(reqs[1..])
  }

  /** The buffers of the requests, one after another. */
  function Buffers(crc: Checksum, reqs: seq<Request>): bytes {
    if reqs == [] then [] else EncodedRecords(crc, reqs[0].recs) + Buffers(crc, reqs[1..])
  }

  function Step(crc: Checksum, s: State, a: Action): State
    requires Enabled(s, a)
  {
    match a
    case Send(req) => s.(queue := s.queue + [req], sent := s.sent + [req])
    case Receive => s.(batch := [s.queue[0]], queue := s.queue[1..], phase := Draining)
    case DrainMore => s.(batch := s.batch + [s.queue[0]], queue := s.queue[1..])
    case DrainStop => s.(phase := Writing)
    case Write => s.(file := s.file + Buffers(crc, s.batch), phase := Syncing)
    case Sync => s.(synced := |s.file|, phase := Answering)
    case Answer =>
      if s.batch == [] then s.(phase := Idle) else s.(answered := s.answered + [s.batch[0]], batch := s.batch[1..])
    case Close => s.(closed := true)
    case Stop => s.(phase := Stopped)
  }

  ghost predicate ValidRun(crc: Checksum, s: State, run: seq<Action>)
    decreases |run|
  {
    run == [] || (Enabled(s, run[0]) && ValidRun(crc, Step(crc, s, run[0]), run[1..]))
  }

  ghost function After(crc: Checksum, s: State, run: seq<Action>): State
    requires ValidRun(crc, s, run)
    decreases |run|
  {
    if run == [] then s else After(crc, Step(crc, s, run[0]), run[1..])
  }

  // ---------- the invariant ----------

  /** The requests whose buffers have been written. */
  function Written(s: State): seq<Request> {
    if s.phase == Syncing || s.phase == Answering then s.answered + s.batch else s.answered
  }

  ghost predicate Inv(crc: Checksum, s: State) {
    && s.sent == s.answered + s.batch + s.queue && |s.queue| <= CHANNEL_CAPACITY
    && (s.phase == Idle || s.phase == Stopped ==> s.batch == [])
    && s.file == Buffers(crc, Written(s))
    && s.synced == (if s.phase == Syncing then |Buffers(crc, s.answered)| else |s.file|)
    && (s.phase == Stopped ==> s.closed && s.queue == [])
    && (forall q, r :: q in s.sent && r in q.recs ==> r.Fits())
  }

  lemma {:induction false} BuffersConcat(crc: Checksum, a: seq<Request>, b: seq<Request>)
    ensures Buffers(crc, a + b) == Buffers(crc, a) + Buffers(crc, b)
  {
    if a == [] {
      assert a + b == b;
    } else {
      BuffersConcat(crc, a[1..], b);
      assert (a + b)[0] == a[0] && (a + b)[1..] == a[1..] + b;
      ConcatAssociates(EncodedRecords(crc, a[0].recs), Buffers(crc, a[1..]), Buffers(crc, b));
    }
  }

  lemma StepKeepsInv(crc: Checksum, s: State, a: Action)
    requires Inv(crc, s) && Enabled(s, a)
    ensures Inv(crc, Step(crc, s, a))
  {
    hide Buffers;
    match a
    case Send(req) =>
      Appended(s.answered + s.batch, s.queue, req);
      assert forall q :: q in s.sent + [req] ==> q in s.sent || q == req;
    case Receive =>
      FirstMoves(s.answered, s.batch, s.queue);
      assert s.batch + [s.queue[0]] == [s.queue[0]];
    case DrainMore =>
      FirstMoves(s.answered, s.batch, s.queue);
    case DrainStop =>
    case Write =>
      BuffersConcat(crc, s.answered, s.batch);
    case Sync =>
    case Answer =>
      if s.batch == [] {
        assert s.answered + [] == s.answered;
      } else {
        FirstAnswered(s.answered, s.batch);
      }
    case Close =>
    case Stop =>
  }

  lemma Appended(a: seq<Request>, q: seq<Request>, r: Request)
    ensures a + q + [r] == a + (q + [r])
  {
  }

  lemma FirstMoves(a: seq<Request>, b: seq<Request>, q: seq<Request>)
    requires q != []
    ensures a + b + q == a + (b + [q[0]]) + q[1..]
  {
    assert q == [q[0]] + q[1..];
  }

  lemma FirstAnswered(a: seq<Request>, b: seq<Request>)
    requires b != []
    ensures (a + [b[0]]) + b[1..] == a + b
  {
  }

  lemma {:induction false} RunKeepsInv(crc: Checksum, s: State, run: seq<Action>)
    requires Inv(crc, s) && ValidRun(crc, s, run)
    ensures Inv(crc, After(crc, s, run))
    decreases |run|
  {
    if run != [] {
      StepKeepsInv(crc, s, run[0]);
      RunKeepsInv(crc, Step(crc, s, run[0]), run[1..]);
    }
  }

  // ---------- what callers rely on ----------

  /**
   * In every run: the file is the buffers of a prefix of the requests in channel order, each once;
   * every answered request's buffer is within the synced part; and once the committer has
   * stopped, so that Close can return, every request ever sent has been written, synced and answered.
   */
  lemma CommitsInOrder(crc: Checksum, run: seq<Action>)
    requires ValidRun(crc, Init(), run)
    ensures var s := After(crc, Init(), run);
            && |s.queue| <= CHANNEL_CAPACITY && Written(s) <= s.sent && s.file == Buffers(crc, Written(s))
            && s.answered <= Written(s) && |Buffers(crc, s.answered)| <= s.synced <= |s.file|
            && (s.phase == Stopped ==> s.answered == s.sent && s.file == Buffers(crc, s.sent) && s.synced == |s.file|)
  {
    RunKeepsInv(crc, Init(), run);
    var s := After(crc, Init(), run);
    assert s.sent == (s.answered + s.batch) + s.queue;
    assert Written(s) == s.answered + Written(s)[|s.answered|..];
    BuffersConcat(crc, s.answered, Written(s)[|s.answered|..]);
    if s.phase == Stopped {
      assert s.answered + [] + [] == s.answered;
    }
  }

  lemma {:induction false} BuffersAreRecords(crc: Checksum, reqs: seq<Request>)
    ensures Buffers(crc, reqs) == EncodedRecords(crc, RecordsOf(reqs))
  {
    if reqs != [] {
      BuffersAreRecords(crc, reqs[1..]);
      EncodedRecordsConcat(crc, reqs[0].recs, RecordsOf(reqs[1..]));
    }
  }

  lemma {:induction false} RecordsConcat(a: seq<Request>, b: seq<Request>)
    ensures RecordsOf(a + b) == RecordsOf(a) + RecordsOf(b)
  {
    if a == [] {
      assert a + b == b;
    } else {
      RecordsConcat(a[1..], b);
      assert (a + b)[0] == a[0] && (a + b)[1..] == a[1..] + b;
      ConcatAssociates(a[0].recs, RecordsOf(a[1..]), RecordsOf(b));
    }
  }

  lemma {:induction false} RecordsFit(reqs: seq<Request>)
    requires forall q, r :: q in reqs && r in q.recs ==> r.Fits()
    ensures forall r :: r in RecordsOf(reqs) ==> r.Fits()
  {
    if reqs != [] {
      assert reqs[0] in reqs;
      RecordsFit(reqs[1..]);
    }
  }

  /**
   * Acknowledged means durable: if a crash leaves any part of the file that includes what was
   * synced, replay delivers every record of every answered request, in order, and beyond them
   * only records that were sent next.
   */
  lemma AnsweredSurvivesCrash(crc: Checksum, run: seq<Action>, n: nat)
    requires ValidRun(crc, Init(), run)
    requires var s := After(crc, Init(), run); s.synced <= n <= |s.file|
    ensures var s := After(crc, Init(), run);
            RecordsOf(s.answered) <= Replay(crc, s.file[..n]).recs <= RecordsOf(s.sent)
  {
    hide Replay, EncodedRecords;
    CommitsInOrder(crc, run);
    RunKeepsInv(crc, Init(), run);
    var s := After(crc, Init(), run);
    var done, written, sent := RecordsOf(s.answered), RecordsOf(Written(s)), RecordsOf(s.sent);
    BuffersAreRecords(crc, s.answered);
    BuffersAreRecords(crc, Written(s));
    PrefixOfRecords(s.answered, Written(s));
    PrefixOfRecords(Written(s), s.sent);
    RecordsFit(s.sent);
    assert forall r :: r in written ==> r in sent;
    PrefixReplay(crc, written, n);
    var k := CompleteFrames(crc, written, n);
    if k < |done| {
      EnoughFrames(crc, done, written, n);
    }
    assert done <= written[..k] <= written;
  }

  lemma PrefixOfRecords(a: seq<Request>, b: seq<Request>)
    requires a <= b
    ensures RecordsOf(a) <= RecordsOf(b)
  {
    assert b == a + b[|a|..];
    RecordsConcat(a, b[|a|..]);
  }

  lemma EnoughFrames(crc: Checksum, done: seq<Record>, written: seq<Record>, n: nat)
    requires done <= written && |EncodedRecords(crc, done)| <= n
    ensures |done| <= CompleteFrames(crc, written, n)
  {
    var k := CompleteFrames(crc, written, n);
    CompleteFramesFit(crc, written, n);
    if k < |done| {
      assert done == written[..k + 1] + done[k + 1..];
      EncodedRecordsConcat(crc, written[..k + 1], done[k + 1..]);
    }
  }

  // ---------- progress ----------

  predicate OfCommitter(a: Action) {
    !a.Send? && !a.Close?
  }

  /** What the committer has to do next, if anything: it never has a choice. */
  function Next(s: State): Option<Action> {
    match s.phase
    case Idle => if s.queue != [] then Some(Receive) else if s.closed then Some(Stop) else None
    case Draining => if s.queue != [] then Some(DrainMore) else Some(DrainStop)
    case Writing => Some(Write)
    case Syncing => Some(Sync)
    case Answering => Some(Answer)
    case Stopped => None
  }

  lemma NextIsOnly(s: State, a: Action)
    requires OfCommitter(a)
    ensures Enabled(s, a) <==> Next(s) == Some(a)
  {
  }

  /** The steps of the committer to an empty channel, and to its stop if the log is closed. */
  function WorkOnQueue(s: State): nat {
    (if s.queue == [] then 0 else 2 * |s.queue| + 4) + (if s.closed then 1 else 0)
  }

  function Work(s: State): nat {
    match s.phase
    case Idle => WorkOnQueue(s)
    case Draining => 2 * |s.queue| + |s.batch| + 4 + (if s.closed then 1 else 0)
    case Writing => |s.batch| + 3 + WorkOnQueue(s)
    case Syncing => |s.batch| + 2 + WorkOnQueue(s)
    case Answering => |s.batch| + 1 + WorkOnQueue(s)
    case Stopped => 0
  }

  lemma StepIsWork(crc: Checksum, s: State, a: Action)
    requires Inv(crc, s) && OfCommitter(a) && Enabled(s, a)
    ensures Work(Step(crc, s, a)) == Work(s) - 1
    ensures Step(crc, s, a).sent == s.sent && Step(crc, s, a).closed == s.closed
  {
    hide Buffers;
  }

  /** Whoever is done has written, synced and answered everything, and has stopped if the log is closed. */
  lemma WorkDone(crc: Checksum, s: State)
    requires Inv(crc, s) && Work(s) == 0
    ensures s.answered == s.sent && s.file == Buffers(crc, s.sent) && s.synced == |s.file| && (s.closed ==> s.phase == Stopped)
  {
    hide Buffers;
    assert s.answered + [] + [] == s.answered;
  }

  /**
   * The committer always gets through: left to itself in any state of any run, it can take its next
   * step until it has taken exactly Work of them, and then everything sent has been written, synced
   * and answered, and it has stopped if the log is closed.
   */
  lemma CommitterFinishes(crc: Checksum, run: seq<Action>, more: seq<Action>)
    requires ValidRun(crc, Init(), run) && ValidRun(crc, After(crc, Init(), run), more)
    requires forall a :: a in more ==> OfCommitter(a)
    ensures var s := After(crc, Init(), run);
            var t := After(crc, s, more);
            && |more| + Work(t) == Work(s) && t.sent == s.sent && t.closed == s.closed
            && (Next(t).Some? <==> |more| < Work(s)) && (Next(t).Some? ==> Enabled(t, Next(t).value))
            && (|more| == Work(s) ==> t.answered == s.sent && t.file == Buffers(crc, s.sent) && t.synced == |t.file| && (s.closed ==> t.phase == Stopped))
  {
    var s := After(crc, Init(), run);
    RunKeepsInv(crc, Init(), run);
    RunIsWork(crc, s, more);
    var t := After(crc, s, more);
    RunKeepsInv(crc, s, more);
    if Work(t) == 0 {
      WorkDone(crc, t);
    }
    if Next(t).Some? {
      NextIsOnly(t, Next(t).value);
    }
  }

  lemma {:induction false} RunIsWork(crc: Checksum, s: State, more: seq<Action>)
    requires Inv(crc, s) && ValidRun(crc, s, more) && forall a :: a in more ==> OfCommitter(a)
    ensures var t := After(crc, s, more); |more| + Work(t) == Work(s) && t.sent == s.sent && t.closed == s.closed
    decreases |more|
  {
    hide Work, Step, Enabled, Inv;
    if more != [] {
      StepIsWork(crc, s, more[0]);
      StepKeepsInv(crc, s, more[0]);
      RunIsWork(crc, Step(crc, s, more[0]), more[1..]);
    }
  }
}
