/** Acknowledgement bookkeeping of one agent process: progress, stall detection and the self-heal reset. */
module AckState {
  import opened Text
  import opened Outbox
  import opened OutboxQueue

  const ACK_STALL_MS := 45_000
  const RESET_COOLDOWN_MS := 120_000
  const RESET_MIN_PENDING := 8

  /** The ack fields of the runtime beside the queue's memory. No reset yet is `None`. */
  datatype Acks = Acks(m: Mem, lastAckSeq: nat, progressAt: int, resetAt: Option<int>)

  function Consume(a: Acks, upto: nat, at: int): Acks {
    var a' := a.(m := MemAfter(a.m, Acknowledge(upto)));
    if upto > a.lastAckSeq then a'.(lastAckSeq := upto, progressAt := at) else a'
  }

  function Session(a: Acks, at: int): Acks { a.(lastAckSeq := a.m.ackUpto, progressAt := at) }

  predicate Stalled(a: Acks, at: int) {
    && |a.m.items| >= RESET_MIN_PENDING
    && at - a.progressAt >= ACK_STALL_MS
    && (a.resetAt.Some? ==> at - a.resetAt.value >= RESET_COOLDOWN_MS)
  }

  /** The self-heal reset, stamped with the reading `done`. */
  function Healed(a: Acks, done: int): Acks { Acks(MemAfter(a.m, ResetPending), a.lastAckSeq, done, Some(done)) }

  /** One self-heal check at `at`, and the reset it calls for with nothing in between. */
  function Heal(a: Acks, at: int, done: int): Acks { if Stalled(a, at) then Healed(a, done) else a }

  // ---------------------------------------------------------------- the runtime object

  class Runtime {
    const eventQueue: Queue
    var lastAckSeq: nat
    var lastAckProgressAt: int
    var lastQueueResetAt: Option<int>

    constructor (queue: Queue, now: int)
      ensures eventQueue == queue && State() == Acks(queue.Memory(), 0, now, None)
    {
      eventQueue, lastAckSeq, lastAckProgressAt, lastQueueResetAt := queue, 0, now, None;
    }

    function State(): Acks
      reads this, eventQueue
    {
      Acks(eventQueue.Memory(), lastAckSeq, lastAckProgressAt, lastQueueResetAt)
    }

    /** `consumeAck`, once the frame has been recognised. */
    method ConsumeAck(upto: nat, now: int)
      modifies this, eventQueue, eventQueue.files
      ensures State() == Consume(old(State()), upto, now)
    {
      eventQueue.Acknowledge(upto);
      if upto > lastAckSeq {
        lastAckSeq := upto;
        lastAckProgressAt := now;
      }
    }

    /** The ack fields when a session starts. */
    method StartSession(now: int)
      modifies this
      ensures State() == Session(old(State()), now)
    {
      lastAckSeq := eventQueue.ackUpto;
      lastAckProgressAt := now;
    }

    method AckProgressStalled(now: int) returns (stalled: bool)
      ensures stalled == Stalled(State(), now)
    {
      var pending := eventQueue.PendingCount();
      if pending < RESET_MIN_PENDING { return false; }
      if now - lastAckProgressAt < ACK_STALL_MS { return false; }
      match lastQueueResetAt
      case None => return true;
      case Some(t) => return now - t >= RESET_COOLDOWN_MS;
    }

    /** The reset itself, which follows a check in a critical section of its own. */
    method ApplyReset(done: int) returns (dropped: nat)
      modifies this, eventQueue, eventQueue.files
      ensures State() == Healed(old(State()), done) && dropped == |SignalsOf(old(eventQueue.items))|
    {
      dropped := eventQueue.ResetPendingForRecovery();
      lastQueueResetAt := Some(done);
      lastAckProgressAt := done;
    }

    /** One round of `periodicQueueSelfHeal` up to the snapshot, which is `SendSnapshot`. */
    method SelfHeal(now: int, done: int) returns (applied: bool)
      modifies this, eventQueue, eventQueue.files
      ensures applied == old(Stalled(State(), now)) && State() == Heal(old(State()), now, done)
    {
      applied := AckProgressStalled(now);
      if applied { var dropped := ApplyReset(done); }
    }

    /** `snapshotWouldPileUp`. */
    method SnapshotWouldPileUp() returns (skip: bool)
      ensures skip <==> |eventQueue.items| > 24 || !NoSnapshot(eventQueue.items)
    {
      var pending := eventQueue.PendingCount();
      if pending > SNAPSHOT_BACKLOG_LIMIT { return true; }
      skip := eventQueue.HasPendingSnapshot();
    }

    /** `sendSnapshot`, with the gate and the enqueue in one critical section. */
    method SendSnapshot(env: Envelope, now: int) returns (queued: bool)
      requires IsSnapshot(env)
      modifies eventQueue, eventQueue.files
      ensures queued <==> |old(eventQueue.items)| <= 24 && NoSnapshot(old(eventQueue.items))
      ensures eventQueue.Memory() == if queued then MemAfter(old(eventQueue.Memory()), Enqueue(env, "", now, None))
                                     else old(eventQueue.Memory())
    {
      var skip := SnapshotWouldPileUp();
      queued := !skip;
      if queued { var item := eventQueue.Enqueue(env, now); }
    }
  }

  // ---------------------------------------------------------------- runs of one process

  /** What a run leaves on record: progress (an acknowledgement that moved, or a session start) and resets. A
      reset was called for by a check at `checked`, when `pending` items were pending and `seen` events on
      record; at `done` it found `left` items pending. */
  datatype Event = Progress(at: int) | Reset(checked: int, pending: nat, seen: nat, done: int, left: nat)

  /** A check that found acknowledgements stalled, and whose reset is still to come. */
  datatype Look = Look(at: int, pending: nat, seen: nat)

  datatype Step =
    | ConsumeAck(upto: nat, at: int)
    | StartSession(at: int)
    | Check(at: int)
    | Apply(done: int)
    | Use(op: Op, at: int)

  datatype Process = Process(a: Acks, now: int, look: Option<Look>, trace: seq<Event>)

  /** Clock readings do not decrease; one self-heal loop runs; `Use` is what else is done to the queue. */
  predicate Can(p: Process, step: Step) {
    match step
    case ConsumeAck(_, at) => p.now <= at
    case StartSession(at) => p.now <= at
    case Check(at) => p.now <= at && p.look.None?
    case Apply(done) => p.now <= done && p.look.Some?
    case Use(op, at) => p.now <= at && Enabled(p.a.m, op) && (op.Enqueue? || op.MarkAttempt?)
  }

  function After(p: Process, step: Step): Process
    requires Can(p, step)
  {
    match step
    case ConsumeAck(upto, at) =>
      p.(a := Consume(p.a, upto, at), now := at,
         trace := if upto > p.a.lastAckSeq then p.trace + [Progress(at)] else p.trace)
    case StartSession(at) => p.(a := Session(p.a, at), now := at, trace := p.trace + [Progress(at)])
    case Check(at) =>
      p.(now := at, look := if Stalled(p.a, at) then Some(Look(at, |p.a.m.items|, |p.trace|)) else None)
    case Apply(done) =>
      var l := p.look.value;
      Process(Healed(p.a, done), done, None, p.trace + [Reset(l.at, l.pending, l.seen, done, |p.a.m.items|)])
    case Use(op, at) => p.(a := p.a.(m := MemAfter(p.a.m, op)), now := at)
  }

  predicate Runs(p: Process, steps: seq<Step>)
    decreases |steps|
  {
    steps == [] || (Can(p, steps[0]) && Runs(After(p, steps[0]), steps[1..]))
  }

  function End(p: Process, steps: seq<Step>): Process
    requires Runs(p, steps)
    decreases |steps|
  {
    if steps == [] then p else End(After(p, steps[0]), steps[1..])
  }

  function Stamp(e: Event): int { if e.Progress? then e.at else e.done }

  /** At `at`, 45 s have passed since this progress, or two minutes since this reset. */
  predicate LongAgo(e: Event, at: int) { at - Stamp(e) >= if e.Progress? then 45_000 else 120_000 }

  ghost predicate AllLongAgo(events: seq<Event>, at: int) { forall e :: e in events ==> LongAgo(e, at) }

  /** Acknowledgements that moved, or session starts, from `at` on. */
  ghost predicate AllProgress(events: seq<Event>, at: int) { forall e :: e in events ==> e.Progress? && e.at >= at }

  /** What is true of a check and everything on record since the run began. */
  ghost predicate Justified(l: Look, events: seq<Event>) {
    && l.pending >= 8 && l.seen <= |events|
    && AllLongAgo(events[..l.seen], l.at) && AllProgress(events[l.seen..], l.at)
  }

  function LookOf(e: Event): Look
    requires e.Reset?
  {
    Look(e.checked, e.pending, e.seen)
  }

  /** A reset was justified when its check looked; if no progress came since, it also was when it was done. */
  ghost predicate WellDone(before: seq<Event>, e: Event) {
    e.Reset? ==>
      Justified(LookOf(e), before) && e.checked <= e.done && (e.seen == |before| ==> e.left >= 8)
  }

  ghost predicate Spaced(trace: seq<Event>) { forall j :: 0 <= j < |trace| ==> WellDone(trace[..j], trace[j]) }

  /** The fields are at least as late as every event on record. */
  ghost predicate Late(a: Acks, trace: seq<Event>) {
    forall e :: e in trace ==>
      Stamp(e) <= a.progressAt && (e.Reset? ==> a.resetAt.Some? && e.done <= a.resetAt.value)
  }

  ghost predicate Looking(p: Process) {
    p.look.Some? ==>
      && p.look.value.at <= p.now && Justified(p.look.value, p.trace)
      && (p.look.value.seen == |p.trace| ==> |p.a.m.items| >= 8)
  }

  ghost predicate Tracked(p: Process) {
    && p.a.lastAckSeq <= p.a.m.ackUpto
    && p.a.progressAt <= p.now && (p.a.resetAt.Some? ==> p.a.resetAt.value <= p.now)
    && Late(p.a, p.trace) && Spaced(p.trace) && Looking(p)
  }

  lemma SpacedSnoc(trace: seq<Event>, e: Event)
    requires Spaced(trace) && WellDone(trace, e)
    ensures Spaced(trace + [e])
  {
    var t := trace + [e];
    forall j | 0 <= j < |t| ensures WellDone(t[..j], t[j]) {
      assert j < |trace| ==> t[..j] == trace[..j] && WellDone(trace[..j], trace[j]);
      assert t[..|trace|] == trace;
    }
  }

  /** More progress leaves a check as justified as it was. */
  lemma JustifiedSnoc(l: Look, trace: seq<Event>, at: int)
    requires Justified(l, trace) && l.at <= at
    ensures Justified(l, trace + [Progress(at)])
  {
    assert (trace + [Progress(at)])[..l.seen] == trace[..l.seen];
    assert (trace + [Progress(at)])[l.seen..] == trace[l.seen..] + [Progress(at)];
  }

  lemma UseKeepsAck(m: Mem, op: Op)
    requires Enabled(m, op) && !op.Acknowledge?
    ensures MemAfter(m, op).ackUpto == m.ackUpto
  {
  }

  lemma UseKeepsCount(m: Mem, op: Op)
    requires Enabled(m, op) && (op.Enqueue? || op.MarkAttempt?)
    ensures |MemAfter(m, op).items| >= |m.items|
  {
    var items := MemAfter(m, op).items;
    assert items.Keys == m.items.Keys + (items.Keys - m.items.Keys);
  }

  lemma ProgressKeeps(p: Process, a': Acks, at: int)
    requires Tracked(p) && p.now <= at
    requires a'.lastAckSeq <= a'.m.ackUpto && a'.progressAt == at && a'.resetAt == p.a.resetAt
    ensures Tracked(p.(a := a', now := at, trace := p.trace + [Progress(at)]))
  {
    SpacedSnoc(p.trace, Progress(at));
    if p.look.Some? { JustifiedSnoc(p.look.value, p.trace, at); }
  }

  lemma CheckKeeps(p: Process, at: int)
    requires Tracked(p) && Can(p, Check(at))
    ensures Tracked(After(p, Check(at)))
  {
    if Stalled(p.a, at) {
      assert p.trace[..|p.trace|] == p.trace && p.trace[|p.trace|..] == [];
      forall e | e in p.trace ensures LongAgo(e, at) {}
    }
  }

  lemma ApplyKeeps(p: Process, done: int)
    requires Tracked(p) && Can(p, Apply(done))
    ensures Tracked(After(p, Apply(done)))
  {
    var l := p.look.value;
    UseKeepsAck(p.a.m, ResetPending);
    SpacedSnoc(p.trace, Reset(l.at, l.pending, l.seen, done, |p.a.m.items|));
  }

  lemma StepKeeps(p: Process, step: Step)
    requires Tracked(p) && Can(p, step)
    ensures Tracked(After(p, step))
  {
    match step
    case ConsumeAck(upto, at) => if upto > p.a.lastAckSeq { ProgressKeeps(p, Consume(p.a, upto, at), at); }
    case StartSession(at) => ProgressKeeps(p, Session(p.a, at), at);
    case Check(at) => CheckKeeps(p, at);
    case Apply(done) => ApplyKeeps(p, done);
    case Use(op, _) =>
      UseKeepsAck(p.a.m, op);
      UseKeepsCount(p.a.m, op);
  }

  lemma StepMovesForward(p: Process, step: Step)
    requires Tracked(p) && Can(p, step)
    ensures After(p, step).a.lastAckSeq >= p.a.lastAckSeq && After(p, step).a.m.ackUpto >= p.a.m.ackUpto
  {
    match step
    case Use(op, _) => UseKeepsAck(p.a.m, op);
    case Apply(_) => UseKeepsAck(p.a.m, ResetPending);
    case _ =>
  }

  /** Over every run of a process, with acknowledgements and session starts anywhere between a check and its
      reset: the tracked position never passes the queue's and neither moves back; and every reset was called
      for by a check that found eight items pending, no progress for 45 s and no earlier reset for two minutes. */
  lemma {:induction false} SelfHealIsSafe(p: Process, steps: seq<Step>)
    requires Tracked(p) && Runs(p, steps)
    ensures var p' := End(p, steps);
            && p'.a.lastAckSeq <= p'.a.m.ackUpto
            && p.a.lastAckSeq <= p'.a.lastAckSeq && p.a.m.ackUpto <= p'.a.m.ackUpto
            && Spaced(p'.trace)
    decreases |steps|
  {
    if steps != [] {
      StepKeeps(p, steps[0]);
      StepMovesForward(p, steps[0]);
      SelfHealIsSafe(After(p, steps[0]), steps[1..]);
    }
  }

  /** When the reset is done, all that still holds if and only if no progress came in between: then nothing on
      record is recent for it, and eight items are still pending. */
  lemma ResetIsDueIff(trace: seq<Event>, j: nat)
    requires Spaced(trace) && j < |trace| && trace[j].Reset?
    ensures AllLongAgo(trace[..j], trace[j].checked) <==> trace[j].seen == j
    ensures trace[j].seen == j ==> AllLongAgo(trace[..j], trace[j].done) && trace[j].left >= 8
  {
    var before, e := trace[..j], trace[j];
    assert WellDone(before, e);
    if e.seen == j {
      assert before[..j] == before;
      forall x | x in before ensures LongAgo(x, e.done) { assert LongAgo(x, e.checked); }
    } else {
      assert before[e.seen] == before[e.seen..][0] && before[e.seen] in before[e.seen..];
      assert !LongAgo(before[e.seen], e.checked);
    }
  }

  lemma ThreeSteps(p: Process, a: Step, b: Step, c: Step)
    requires Can(p, a) && Can(After(p, a), b) && Can(After(After(p, a), b), c)
    ensures Runs(p, [a, b, c]) && End(p, [a, b, c]) == After(After(After(p, a), b), c)
  {
    var p1 := After(p, a);
    var p2 := After(p1, b);
    var p3 := After(p2, c);
    assert [a, b, c][1..] == [b, c] && [b, c][1..] == [c] && [c][1..] == [];
    assert Runs(p3, []) && End(p3, []) == p3;
    assert Runs(p2, [c]) && End(p2, [c]) == p3;
    assert Runs(p1, [b, c]) && End(p1, [b, c]) == p3;
  }

  lemma AckOfAll(m: Mem, upto: nat)
    requires upto > m.ackUpto && forall s :: s in m.items ==> s <= upto
    ensures MemAfter(m, Acknowledge(upto)).items == map[]
  {
    assert AfterAck(m, upto).items == map[];
  }

  /** The check and the acknowledgement of everything. */
  lemma LookThenAck(p: Process, at: int, upto: nat)
    requires p.look.None? && p.now <= at && Stalled(p.a, at) && upto > p.a.m.ackUpto >= p.a.lastAckSeq
    requires forall s :: s in p.a.m.items ==> s <= upto
    ensures Can(p, Check(at)) && Can(After(p, Check(at)), ConsumeAck(upto, at))
    ensures var p2 := After(After(p, Check(at)), ConsumeAck(upto, at));
            && p2.look == Some(Look(at, |p.a.m.items|, |p.trace|)) && p2.now == at
            && p2.trace == p.trace + [Progress(at)] && p2.a.m.items == map[]
  {
    AckOfAll(p.a.m, upto);
  }

  /** Such progress is possible: a check, an acknowledgement of everything, and a reset that finds nothing
      pending, right after the progress it was called for the lack of. */
  lemma ResetAfterAck(p: Process, at: int, upto: nat)
    requires Tracked(p) && p.look.None? && p.now <= at && Stalled(p.a, at) && upto > p.a.m.ackUpto
    requires forall s :: s in p.a.m.items ==> s <= upto
    ensures var steps := [Check(at), ConsumeAck(upto, at), Apply(at)];
            && Runs(p, steps)
            && End(p, steps).trace == p.trace + [Progress(at)] + [Reset(at, |p.a.m.items|, |p.trace|, at, 0)]
  {
    LookThenAck(p, at, upto);
    ThreeSteps(p, Check(at), ConsumeAck(upto, at), Apply(at));
  }

  lemma {:induction false} EqualStaysEqual(p: Process, steps: seq<Step>)
    requires p.a.lastAckSeq == p.a.m.ackUpto && Runs(p, steps)
    ensures End(p, steps).a.lastAckSeq == End(p, steps).a.m.ackUpto
    decreases |steps|
  {
    if steps != [] {
      match steps[0] {
        case Use(op, _) => UseKeepsAck(p.a.m, op);
        case Apply(_) => UseKeepsAck(p.a.m, ResetPending);
        case _ =>
      }
      EqualStaysEqual(After(p, steps[0]), steps[1..]);
    }
  }

  /** From its first session on a process tracks the queue's position exactly. */
  lemma TrackedExactly(p: Process, at: int, steps: seq<Step>)
    requires Can(p, StartSession(at)) && Runs(After(p, StartSession(at)), steps)
    ensures var p' := End(After(p, StartSession(at)), steps); p'.a.lastAckSeq == p'.a.m.ackUpto
  {
    EqualStaysEqual(After(p, StartSession(at)), steps);
  }

  function Start(m: Mem, now: int): Process { Process(Acks(m, 0, now, None), now, None, []) }

  /** A new process, whatever it loaded, starts tracked. */
  lemma StartIsTracked(m: Mem, now: int)
    ensures Tracked(Start(m, now))
  {
  }

  // ---------------------------------------------------------------- exactly when self-healing is called for

  ghost predicate IsStamp(trace: seq<Event>, at: int) { exists e :: e in trace && Stamp(e) == at }

  ghost predicate IsResetStamp(trace: seq<Event>, at: int) { exists e :: e in trace && e.Reset? && e.done == at }

  /** The fields hold times on record, or the start of the process. */
  ghost predicate Stamped(p: Process, start: int) {
    && start <= p.a.progressAt
    && (p.a.progressAt == start || IsStamp(p.trace, p.a.progressAt))
    && (p.a.resetAt.Some? ==> IsResetStamp(p.trace, p.a.resetAt.value))
  }

  lemma StampsStay(trace: seq<Event>, e: Event, at: int)
    ensures IsStamp(trace, at) ==> IsStamp(trace + [e], at)
    ensures IsResetStamp(trace, at) ==> IsResetStamp(trace + [e], at)
    ensures Stamp(e) == at ==> IsStamp(trace + [e], at)
    ensures e.Reset? && e.done == at ==> IsResetStamp(trace + [e], at)
  {
    assert e in trace + [e];
    if IsStamp(trace, at) {
      var x :| x in trace && Stamp(x) == at;
      assert x in trace + [e];
    }
    if IsResetStamp(trace, at) {
      var x :| x in trace && x.Reset? && x.done == at;
      assert x in trace + [e];
    }
  }

  lemma StepStamped(p: Process, step: Step, start: int)
    requires Tracked(p) && Stamped(p, start) && Can(p, step)
    ensures Stamped(After(p, step), start)
  {
    var p' := After(p, step);
    if p'.trace != p.trace {
      var e := p'.trace[|p.trace|];
      assert p'.trace == p.trace + [e];
      StampsStay(p.trace, e, p'.a.progressAt);
      if p'.a.resetAt.Some? { StampsStay(p.trace, e, p'.a.resetAt.value); }
    }
  }

  lemma {:induction false} RunStamped(p: Process, steps: seq<Step>, start: int)
    requires Tracked(p) && Stamped(p, start) && Runs(p, steps)
    ensures Tracked(End(p, steps)) && Stamped(End(p, steps), start)
    decreases |steps|
  {
    if steps != [] {
      StepKeeps(p, steps[0]);
      StepStamped(p, steps[0], start);
      RunStamped(After(p, steps[0]), steps[1..], start);
    }
  }

  /** Over every run of a process that started at `start`, a check finds acknowledgements stalled if and only if
      eight items are pending and nothing happened lately: 45 s have passed since the start, since every
      acknowledgement that moved and every session start, and two minutes since every reset. */
  lemma StallsIff(m: Mem, start: int, steps: seq<Step>, at: int)
    requires Runs(Start(m, start), steps)
    ensures var p := End(Start(m, start), steps);
            Stalled(p.a, at) <==> |p.a.m.items| >= 8 && at - start >= 45_000 && AllLongAgo(p.trace, at)
  {
    StartIsTracked(m, start);
    RunStamped(Start(m, start), steps, start);
    StalledByStamps(End(Start(m, start), steps), start, at);
  }

  lemma StalledByStamps(p: Process, start: int, at: int)
    requires Tracked(p) && Stamped(p, start)
    ensures Stalled(p.a, at) <==> |p.a.m.items| >= 8 && at - start >= 45_000 && AllLongAgo(p.trace, at)
  {
    if AllLongAgo(p.trace, at) && at - start >= 45_000 {
      if p.a.progressAt != start {
        var e :| e in p.trace && Stamp(e) == p.a.progressAt;
        assert LongAgo(e, at);
      }
      if p.a.resetAt.Some? {
        var e :| e in p.trace && e.Reset? && e.done == p.a.resetAt.value;
        assert LongAgo(e, at);
      }
    }
  }
}
