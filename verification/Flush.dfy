/** The flush loop within one process: batches of eight, acknowledgements and enqueues landing between any
    two sends, and a clock that does not go backwards. */
module Flush {
  import opened Text
  import opened Outbox
  import opened CrashSafety

  const FLUSH_BATCH := 8

  /** `batch` is what is left of the current `DueItems` result. `firsts` lists the numbers sent for the
      first time, in order; `written` is everything sent; `ticks`, `first` and `last` describe the ticks so far. */
  datatype Loop = Loop(m: Mem, batch: seq<Item>, now: int, firsts: seq<nat>, written: set<nat>,
                       ticks: nat, first: int, last: int)

  datatype Step =
    | Tick(at: int)
    | Sent(at: int, resendFrom: int)
    | SendFailed(at: int, resendFrom: int, error: string)
    | Other(op: Op, at: int)

  function Start(m: Mem, now: int): Loop { Loop(m, [], now, [], {}, 0, 0, 0) }

  /** Clock readings are positive and never decrease. An acknowledgement is below the next number. */
  predicate Can(s: Loop, step: Step) {
    match step
    case Tick(at) => s.batch == [] && s.now <= at && 0 < at
    case Sent(at, from) => s.batch != [] && s.now <= at <= from && 0 < at
    case SendFailed(at, from, _) => s.batch != [] && s.now <= at <= from && 0 < at
    case Other(op, at) =>
      && s.now <= at && 0 < at && Enabled(s.m, op) && !op.MarkAttempt?
      && (op.Enqueue? ==> op.now == at)
      && (op.Acknowledge? ==> op.upto < s.m.nextSeq)
  }

  function Attempt(s: Loop, at: int, from: int, failure: Option<string>): Loop
    requires s.batch != []
  {
    var i := s.batch[0];
    var q := i.env.seqNo;
    s.(m := MemAfter(s.m, MarkAttempt(q, at, from, failure)), batch := s.batch[1..], now := from,
       firsts := if i.lastAttempt == 0 then s.firsts + [q] else s.firsts, written := s.written + {q})
  }

  function After(s: Loop, step: Step): Loop
    requires Can(s, step)
  {
    match step
    case Tick(at) =>
      s.(batch := Due(s.m, at, FLUSH_BATCH), now := at, ticks := s.ticks + 1,
         first := if s.ticks == 0 then at else s.first, last := at)
    case Sent(at, from) => Attempt(s, at, from, None)
    case SendFailed(at, from, error) => Attempt(s, at, from, Some(error)).(batch := [])
    case Other(op, at) => s.(m := MemAfter(s.m, op), now := at)
  }

  predicate Runs(s: Loop, steps: seq<Step>)
    decreases |steps|
  {
    steps == [] || (Can(s, steps[0]) && Runs(After(s, steps[0]), steps[1..]))
  }

  function End(s: Loop, steps: seq<Step>): Loop
    requires Runs(s, steps)
    decreases |steps|
  {
    if steps == [] then s else End(After(s, steps[0]), steps[1..])
  }

  // ---------------------------------------------------------------- invariant

  predicate Unsent(m: Mem, q: nat) { q in m.items && m.items[q].lastAttempt == 0 }

  predicate InBatch(b: seq<Item>, q: nat) { exists i :: 0 <= i < |b| && b[i].env.seqNo == q }

  ghost predicate Sorted(b: seq<Item>) { forall i, j :: 0 <= i < j < |b| ==> b[i].env.seqNo < b[j].env.seqNo }

  ghost predicate AllBelow(b: seq<Item>, q: nat) { forall i :: 0 <= i < |b| ==> b[i].env.seqNo < q }

  ghost predicate Increasing(f: seq<nat>) { forall i, j :: 0 <= i < j < |f| ==> f[i] < f[j] }

  ghost predicate Beyond(f: seq<nat>, q: nat) { forall i :: 0 <= i < |f| ==> f[i] < q }

  /** A never-sent item is due as soon as it exists, lies beyond everything first sent so far, and is in the
      current batch or beyond it. */
  ghost predicate Waits(s: Loop, q: nat) {
    && q in s.m.items
    && s.m.items[q].nextAttempt <= s.now
    && Beyond(s.firsts, q)
    && (InBatch(s.batch, q) || AllBelow(s.batch, q))
  }

  ghost predicate Ordered(s: Loop) {
    && WellFormed(s.m) && s.m.ackUpto < s.m.nextSeq
    && Sorted(s.batch) && AllBelow(s.batch, s.m.nextSeq)
    && Increasing(s.firsts) && Beyond(s.firsts, s.m.nextSeq)
    && (forall i :: 0 <= i < |s.batch| && s.batch[i].lastAttempt == 0 ==> Beyond(s.firsts, s.batch[i].env.seqNo))
    && forall q :: Unsent(s.m, q) ==> Waits(s, q)
  }

  // ---------------------------------------------------------------- one step keeps it

  lemma TickKeeps(s: Loop, at: int)
    requires Ordered(s) && Can(s, Tick(at))
    ensures Ordered(After(s, Tick(at)))
  {
    var s' := After(s, Tick(at));
    DueBatch(s.m, at, FLUSH_BATCH);
    forall i | 0 <= i < |s'.batch| && s'.batch[i].lastAttempt == 0 ensures Beyond(s.firsts, s'.batch[i].env.seqNo) {
      assert Unsent(s.m, s'.batch[i].env.seqNo);
    }
    forall q | Unsent(s.m, q) ensures Waits(s', q) {
      assert Waits(s, q);
      DueCovers(s.m, at, FLUSH_BATCH, q);
    }
  }

  /** What an attempt changes in memory: at most the attempted item, which is no longer unsent. */
  lemma AttemptMem(m: Mem, q: nat, at: int, from: int, failure: Option<string>)
    requires WellFormed(m) && 0 < at
    ensures var m' := MemAfter(m, MarkAttempt(q, at, from, failure));
            && WellFormed(m') && m'.nextSeq == m.nextSeq && m'.ackUpto == m.ackUpto
            && m'.items.Keys == m.items.Keys && !Unsent(m', q)
            && forall t :: t in m.items && t != q ==> m'.items[t] == m.items[t]
  {
  }

  lemma AttemptKeeps(s: Loop, at: int, from: int, failure: Option<string>)
    requires Ordered(s) && Can(s, Sent(at, from))
    ensures Ordered(Attempt(s, at, from, failure))
  {
    var s', b := Attempt(s, at, from, failure), s.batch[0].env.seqNo;
    AttemptMem(s.m, b, at, from, failure);
    assert Sorted(s'.batch) by { assert forall i :: 0 <= i < |s'.batch| ==> s'.batch[i] == s.batch[i + 1]; }
    assert Increasing(s'.firsts) && Beyond(s'.firsts, s.m.nextSeq);
    forall i | 0 <= i < |s'.batch| && s'.batch[i].lastAttempt == 0 ensures Beyond(s'.firsts, s'.batch[i].env.seqNo) {
      assert s'.batch[i] == s.batch[i + 1];
    }
    forall q | Unsent(s'.m, q) ensures Waits(s', q) {
      assert Unsent(s.m, q) && Waits(s, q) && q != b;
      WaitsOn(s, s', q);
    }
  }

  lemma WaitsOn(s: Loop, s': Loop, q: nat)
    requires s.batch != [] && Sorted(s.batch) && s'.batch == s.batch[1..] && s.now <= s'.now
    requires q in s.m.items && q in s'.m.items && s'.m.items[q] == s.m.items[q]
    requires Waits(s, q) && q != s.batch[0].env.seqNo
    requires s'.firsts == s.firsts || s'.firsts == s.firsts + [s.batch[0].env.seqNo]
    ensures Waits(s', q)
  {
    if InBatch(s.batch, q) {
      var i :| 0 <= i < |s.batch| && s.batch[i].env.seqNo == q;
      assert s'.batch[i - 1] == s.batch[i];
    } else {
      assert AllBelow(s.batch, q);
      assert forall i :: 0 <= i < |s'.batch| ==> s'.batch[i] == s.batch[i + 1];
    }
  }

  lemma FailKeeps(s: Loop, at: int, from: int, error: string)
    requires Ordered(s) && Can(s, SendFailed(at, from, error))
    ensures Ordered(After(s, SendFailed(at, from, error)))
  {
    AttemptKeeps(s, at, from, Some(error));
    var s1 := Attempt(s, at, from, Some(error));
    forall q | Unsent(s1.m, q) ensures Waits(s1.(batch := []), q) { assert Waits(s1, q); }
  }

  /** Enqueue, acknowledge and reset leave unsent items as they are, or rewrite their payload, or add a newest one. */
  lemma OtherMem(m: Mem, op: Op, q: nat)
    requires WellFormed(m) && Enabled(m, op) && !op.MarkAttempt? && m.ackUpto < m.nextSeq
    ensures var m' := MemAfter(m, op);
            Unsent(m', q) ==>
              if q in m.items
              then Unsent(m, q) && m'.items[q].nextAttempt == m.items[q].nextAttempt
              else q == m.nextSeq && op.Enqueue? && m'.items[q].nextAttempt == op.now
  {
    match op
    case Enqueue(_, _, _, _) =>
    case Acknowledge(_) =>
    case ResetPending =>
  }

  lemma OtherKeeps(s: Loop, op: Op, at: int)
    requires Ordered(s) && Can(s, Other(op, at))
    ensures Ordered(After(s, Other(op, at)))
  {
    var s' := After(s, Other(op, at));
    OpKeepsWellFormed(s.m, op);
    OpMovesForward(s.m, op);
    forall q | Unsent(s'.m, q) ensures Waits(s', q) {
      OtherMem(s.m, op, q);
      if q in s.m.items { assert Waits(s, q); }
    }
  }

  lemma StepKeeps(s: Loop, step: Step)
    requires Ordered(s) && Can(s, step)
    ensures Ordered(After(s, step))
  {
    match step
    case Tick(at) => TickKeeps(s, at);
    case Sent(at, from) => AttemptKeeps(s, at, from, None);
    case SendFailed(at, from, error) => FailKeeps(s, at, from, error);
    case Other(op, at) => OtherKeeps(s, op, at);
  }

  /** What a process starts from: no never-sent item is scheduled in the future. */
  ghost predicate Startable(m: Mem, now: int) {
    && WellFormed(m) && m.ackUpto < m.nextSeq
    && forall q :: Unsent(m, q) ==> m.items[q].nextAttempt <= now
  }

  lemma {:induction false} RunKeeps(s: Loop, steps: seq<Step>)
    requires Ordered(s) && Runs(s, steps)
    ensures Ordered(End(s, steps))
    decreases |steps|
  {
    if steps != [] {
      StepKeeps(s, steps[0]);
      RunKeeps(After(s, steps[0]), steps[1..]);
    }
  }

  /** First attempts happen in sequence order, and never overtake a pending item: what is pending and was never
      sent lies above every number sent so far, whatever is enqueued, acknowledged or dropped in between and
      however often sessions break. */
  lemma FirstAttemptsInOrder(m: Mem, now: int, steps: seq<Step>)
    requires Startable(m, now) && Runs(Start(m, now), steps)
    ensures var s := End(Start(m, now), steps);
            Increasing(s.firsts) && forall q :: Unsent(s.m, q) ==> Beyond(s.firsts, q)
  {
    RunKeeps(Start(m, now), steps);
    var s := End(Start(m, now), steps);
    forall q | Unsent(s.m, q) ensures Beyond(s.firsts, q) { assert Waits(s, q); }
  }

  // ---------------------------------------------------------------- a restart is a valid start

  /** No never-sent record in the log is scheduled in the future. */
  ghost predicate Punctual(log: seq<Line>, now: int) {
    forall i :: i in Records(log) && i.lastAttempt == 0 ==> i.nextAttempt <= now
  }

  lemma PunctualAppend(log: seq<Line>, i: Item, now: int)
    requires Punctual(log, now) && (i.lastAttempt == 0 ==> i.nextAttempt <= now)
    ensures Punctual(log + [Record(i)], now)
  {
    var log' := log + [Record(i)];
    assert log'[..|log|] == log;
    assert forall j :: j in Records(log') ==> j == i || j in Records(log);
  }

  lemma PunctualCompact(m: Mem, now: int)
    requires forall q :: Unsent(m, q) ==> m.items[q].nextAttempt <= now
    ensures Punctual(LogOf(SortedItems(Unacked(m))), now)
  {
    var items := Unacked(m);
    RecordsOfLog(SortedItems(items));
    SortedKeysAre(items.Keys);
    ItemsAtIndex(items, SortedKeys(items.Keys));
    forall i | i in SortedItems(items) && i.lastAttempt == 0 ensures i.nextAttempt <= now {
      var k :| 0 <= k < |SortedItems(items)| && SortedItems(items)[k] == i;
      var q := SortedKeys(items.Keys)[k];
      assert q in items && Unsent(m, q);
    }
  }

  lemma PunctualLater(log: seq<Line>, now: int, at: int)
    requires Punctual(log, now) && now <= at
    ensures Punctual(log, at)
  {
  }

  lemma EnqueuePunctual(s: Loop, op: Op, at: int)
    requires Ordered(s) && Can(s, Other(op, at)) && op.Enqueue?
    ensures var i := Logged(s.m, op); i.lastAttempt == 0 ==> i.nextAttempt <= at
  {
    var q := op.target.GetOr(s.m.nextSeq);
    OtherKeeps(s, op, at);
    if Logged(s.m, op).lastAttempt == 0 {
      assert Unsent(MemAfter(s.m, op), q);
      assert Waits(After(s, Other(op, at)), q);
    }
  }

  lemma CompactPunctual(s: Loop, op: Op, at: int)
    requires Ordered(s) && Can(s, Other(op, at))
    ensures Punctual(LogOf(SortedItems(Unacked(MemAfter(s.m, op)))), at)
  {
    var m' := MemAfter(s.m, op);
    OtherKeeps(s, op, at);
    forall q | Unsent(m', q) ensures m'.items[q].nextAttempt <= at { assert Waits(After(s, Other(op, at)), q); }
    PunctualCompact(m', at);
  }

  /** Whatever a step of the loop writes, at any crash point, leaves a log the next process can start from. */
  lemma WritesStayPunctual(s: Loop, op: Op, at: int, d: Disk, k: nat)
    requires Ordered(s) && Can(s, Other(op, at)) && Punctual(d.log, s.now) && k <= |Writes(s.m, d, op)|
    ensures Punctual(DiskAfter(s.m, d, op, k).log, at)
  {
    LogAfter(s.m, d, op, k);
    PunctualLater(d.log, s.now, at);
    if op.Enqueue? {
      EnqueuePunctual(s, op, at);
      PunctualAppend(d.log, Logged(s.m, op), at);
    } else {
      CompactPunctual(s, op, at);
    }
  }

  lemma RestartIsStartable(d: Disk, now: int)
    requires Modern(d) && Punctual(d.log, now) && AckOf(0, d.meta) < MetaNext(d)
    ensures Startable(Recover("", d), now)
  {
    RecoverExactly(d);
    forall q | Unsent(Recover("", d), q) ensures Recover("", d).items[q].nextAttempt <= now {
      AbsorbItems(Stock(MetaNext(d), map[]), AckOf(0, d.meta), Records(d.log), q);
    }
  }

  // ---------------------------------------------------------------- no starvation

  /** The pending numbers below `j`. */
  function Lower(m: Mem, j: nat): set<nat> { set q | q in m.items && q < j }

  function Seqs(b: seq<Item>): set<nat> { set i | 0 <= i < |b| :: b[i].env.seqNo }

  /** `j` is pending, was never sent, and is not about to be. */
  ghost predicate Starving(s: Loop, j: nat) { Unsent(s.m, j) && !InBatch(s.batch, j) }

  /** Ticks come at most 1.2 s after each other and no send fails. */
  predicate Paced(s: Loop, step: Step) {
    match step
    case Tick(at) => s.ticks > 0 ==> at <= s.last + 1_200
    case SendFailed(_, _, _) => false
    case _ => true
  }

  predicate PacedRun(s: Loop, steps: seq<Step>)
    requires Runs(s, steps)
    decreases |steps|
  {
    steps == [] || (Paced(s, steps[0]) && PacedRun(After(s, steps[0]), steps[1..]))
  }

  /** While `j` waits, every tick takes eight numbers of `low`, none of them twice. */
  ghost predicate Progress(s: Loop, j: nat, low: set<nat>) {
    && j < s.m.nextSeq
    && Lower(s.m, j) <= low
    && s.written + Seqs(s.batch) <= low
    && |s.written + Seqs(s.batch)| == FLUSH_BATCH * s.ticks
    && (s.ticks > 0 ==> s.first <= s.last <= s.now && s.last <= s.first + 1_200 * (s.ticks - 1))
    && forall q :: q in s.written && q in s.m.items ==> s.m.items[q].nextAttempt >= s.first + RESEND_DELAY_MS
  }

  /** A number leaves the batch only by being attempted. */
  lemma LeavesSent(s: Loop, at: int, from: int, j: nat)
    requires Ordered(s) && Can(s, Sent(at, from)) && InBatch(s.batch, j)
    ensures !Starving(After(s, Sent(at, from)), j)
  {
    AttemptMem(s.m, s.batch[0].env.seqNo, at, from, None);
    var i :| 0 <= i < |s.batch| && s.batch[i].env.seqNo == j;
    if i > 0 { assert After(s, Sent(at, from)).batch[i - 1].env.seqNo == j; }
  }

  /** Once `j` has been in a batch, or attempted, or acknowledged, it never starves again. */
  lemma StarvingBefore(s: Loop, step: Step, j: nat)
    requires Ordered(s) && Can(s, step) && Paced(s, step) && Starving(After(s, step), j) && j < s.m.nextSeq
    ensures Starving(s, j)
  {
    match step
    case Tick(_) =>
    case Sent(at, from) =>
      AttemptMem(s.m, s.batch[0].env.seqNo, at, from, None);
      if InBatch(s.batch, j) { LeavesSent(s, at, from, j); }
    case Other(op, _) => OtherMem(s.m, op, j);
  }

  lemma SeqsCount(b: seq<Item>)
    requires Sorted(b)
    ensures |Seqs(b)| == |b|
  {
    if b != [] {
      var init := b[..|b| - 1];
      SeqsCount(init);
      assert Seqs(b) == Seqs(init) + {b[|b| - 1].env.seqNo};
      assert b[|b| - 1].env.seqNo !in Seqs(init);
    }
  }

  /** A tick that leaves `j` out takes a full batch below it. */
  lemma TickIsFull(s: Loop, at: int, j: nat)
    requires Ordered(s) && Can(s, Tick(at)) && Starving(s, j) && Starving(After(s, Tick(at)), j)
    ensures var b := Due(s.m, at, FLUSH_BATCH); |b| == FLUSH_BATCH && AllBelow(b, j) && |Seqs(b)| == FLUSH_BATCH
  {
    assert Waits(s, j);
    DueBatch(s.m, at, FLUSH_BATCH);
    DueCovers(s.m, at, FLUSH_BATCH, j);
    SeqsCount(Due(s.m, at, FLUSH_BATCH));
  }

  /** Nothing written since the first tick is due again while less than 90 s have passed. */
  lemma TickIsFresh(s: Loop, at: int, j: nat, low: set<nat>)
    requires Ordered(s) && Progress(s, j, low) && AllBelow(Due(s.m, at, FLUSH_BATCH), j)
    requires s.ticks > 0 ==> at < s.first + RESEND_DELAY_MS
    requires s.ticks == 0 ==> s.written == {}
    ensures Seqs(Due(s.m, at, FLUSH_BATCH)) <= low && s.written !! Seqs(Due(s.m, at, FLUSH_BATCH))
  {
    var b := Due(s.m, at, FLUSH_BATCH);
    DueBatch(s.m, at, FLUSH_BATCH);
    forall q | q in Seqs(b) ensures q in low && q !in s.written {
      assert IsDue(s.m, q, at) && q in Lower(s.m, j);
    }
  }

  lemma TickProgress(s: Loop, at: int, j: nat, low: set<nat>)
    requires Ordered(s) && Can(s, Tick(at)) && Paced(s, Tick(at))
    requires Progress(s, j, low) && |low| < 600
    requires s.ticks == 0 ==> s.written == {}
    requires Starving(s, j) && Starving(After(s, Tick(at)), j)
    ensures Progress(After(s, Tick(at)), j, low)
  {
    TickIsFull(s, at, j);
    assert Seqs(s.batch) == {} && s.written + Seqs(s.batch) == s.written;
    SubsetCard(s.written, low);
    TickIsFresh(s, at, j, low);
  }

  lemma SubsetCard(a: set<nat>, b: set<nat>)
    requires a <= b
    ensures |a| <= |b|
  {
    assert b == a + (b - a);
  }

  lemma SeqsHead(b: seq<Item>)
    requires b != []
    ensures Seqs(b) == {b[0].env.seqNo} + Seqs(b[1..])
  {
    var t := b[1..];
    forall q ensures q in Seqs(b) <==> q in {b[0].env.seqNo} + Seqs(t) {
      if q in Seqs(b) && q != b[0].env.seqNo {
        var i :| 0 <= i < |b| && b[i].env.seqNo == q;
        assert t[i - 1].env.seqNo == q;
      }
      if q in Seqs(t) {
        var i :| 0 <= i < |t| && t[i].env.seqNo == q;
        assert b[i + 1].env.seqNo == q;
      }
    }
  }

  /** A successful send defers the item by 90 s and otherwise keeps the schedule. */
  lemma SentDefers(m: Mem, b: nat, at: int, from: int, q: nat)
    requires q in m.items
    ensures var m' := MemAfter(m, MarkAttempt(b, at, from, None));
            q in m'.items && m'.items[q].nextAttempt ==
                             if q == b then from + RESEND_DELAY_MS else m.items[q].nextAttempt
  {
  }

  lemma SentProgress(s: Loop, at: int, from: int, j: nat, low: set<nat>)
    requires Ordered(s) && Can(s, Sent(at, from)) && Progress(s, j, low) && s.ticks > 0
    ensures Progress(After(s, Sent(at, from)), j, low)
  {
    var s', b := After(s, Sent(at, from)), s.batch[0].env.seqNo;
    AttemptMem(s.m, b, at, from, None);
    assert Lower(s'.m, j) == Lower(s.m, j);
    SeqsHead(s.batch);
    assert s'.written + Seqs(s'.batch) == s.written + Seqs(s.batch);
    forall q | q in s'.written && q in s'.m.items ensures s'.m.items[q].nextAttempt >= s'.first + RESEND_DELAY_MS {
      SentDefers(s.m, b, at, from, q);
    }
  }

  lemma OtherProgress(s: Loop, op: Op, at: int, j: nat, low: set<nat>)
    requires Ordered(s) && Can(s, Other(op, at)) && Progress(s, j, low)
    requires forall q :: q in s.written ==> q < s.m.nextSeq
    ensures Progress(After(s, Other(op, at)), j, low)
  {
    var s' := After(s, Other(op, at));
    OpMovesForward(s.m, op);
    forall q | q in s'.m.items && q != s.m.nextSeq
      ensures q in s.m.items && s'.m.items[q].nextAttempt == s.m.items[q].nextAttempt
    {
      OtherItem(s.m, op, q);
    }
    assert Lower(s'.m, j) <= Lower(s.m, j);
  }

  lemma OtherItem(m: Mem, op: Op, q: nat)
    requires WellFormed(m) && Enabled(m, op) && !op.MarkAttempt? && q != m.nextSeq && q in MemAfter(m, op).items
    ensures q in m.items && MemAfter(m, op).items[q].nextAttempt == m.items[q].nextAttempt
  {
    match op
    case Enqueue(_, _, _, _) =>
    case Acknowledge(_) =>
    case ResetPending =>
  }

  lemma StepProgress(s: Loop, step: Step, j: nat, low: set<nat>)
    requires Ordered(s) && Can(s, step) && Paced(s, step) && |low| < 600
    requires Progress(s, j, low) && (s.ticks == 0 ==> s.written == {} && s.batch == [])
    requires forall q :: q in low ==> q < j
    requires Starving(s, j) && Starving(After(s, step), j)
    ensures Progress(After(s, step), j, low)
  {
    match step
    case Tick(at) => TickProgress(s, at, j, low);
    case Sent(at, from) => SentProgress(s, at, from, j, low);
    case Other(op, at) => OtherProgress(s, op, at, j, low);
  }

  lemma NextGrows(s: Loop, step: Step)
    requires Ordered(s) && Can(s, step)
    ensures s.m.nextSeq <= After(s, step).m.nextSeq
  {
    if step.Other? { OpMovesForward(s.m, step.op); }
  }

  lemma {:induction false} NotStarved(s: Loop, steps: seq<Step>, j: nat, low: set<nat>)
    requires Ordered(s) && Runs(s, steps) && PacedRun(s, steps) && |low| < 600
    requires Progress(s, j, low) && (s.ticks == 0 ==> s.written == {} && s.batch == [])
    requires forall q :: q in low ==> q < j
    requires Starving(End(s, steps), j)
    ensures FLUSH_BATCH * End(s, steps).ticks <= |low|
    decreases |steps|
  {
    if steps == [] {
      SubsetCard(s.written + Seqs(s.batch), low);
    } else {
      StepKeeps(s, steps[0]);
      StarvingAll(s, steps, j);
      NextGrows(s, steps[0]);
      StarvingAll(After(s, steps[0]), steps[1..], j);
      StepProgress(s, steps[0], j, low);
      NotStarved(After(s, steps[0]), steps[1..], j, low);
    }
  }

  lemma {:induction false} StarvingAll(s: Loop, steps: seq<Step>, j: nat)
    requires Ordered(s) && Runs(s, steps) && PacedRun(s, steps) && Starving(End(s, steps), j) && j < s.m.nextSeq
    ensures Starving(s, j)
    decreases |steps|
  {
    if steps != [] {
      StepKeeps(s, steps[0]);
      NextGrows(s, steps[0]);
      StarvingAll(After(s, steps[0]), steps[1..], j);
      StarvingBefore(s, steps[0], j);
    }
  }

  /** No starvation: with r < 600 smaller numbers pending, a never-sent item still pending after r/8 + 1 whole
      flush rounds has been sent, however many items are enqueued behind it meanwhile. */
  lemma SentWithinRounds(m: Mem, now: int, steps: seq<Step>, j: nat)
    requires Startable(m, now) && Runs(Start(m, now), steps) && PacedRun(Start(m, now), steps)
    requires Unsent(m, j) && |Lower(m, j)| < 600
    requires End(Start(m, now), steps).ticks >= |Lower(m, j)| / 8 + 1
    requires End(Start(m, now), steps).batch == []
    ensures !Unsent(End(Start(m, now), steps).m, j)
  {
    var s := Start(m, now);
    assert Ordered(s);
    assert s.written + Seqs(s.batch) == {};
    if Unsent(End(s, steps).m, j) { NotStarved(s, steps, j, Lower(m, j)); }
  }
}
