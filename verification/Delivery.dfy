/** The delivery protocol over whole runs: an agent that may crash between any two disk writes, lossy
    sessions, and a server that acknowledges only what it has received without a gap. */
module Delivery {
  import opened Text
  import opened Outbox
  import opened DurableBox

  /** The network, the server, and a history the program does not keep. `wire` holds every envelope ever
      written to a socket: any of them may arrive, at any time, any number of times, or never. `acks`
      likewise holds every acknowledgement the server ever sent. `given` is the envelope each sequence
      number went to, `issued` the envelopes `Enqueue` reported as stored, and `applied` the highest
      acknowledgement that reached the disk. */
  datatype World = World(wire: set<Envelope>, received: set<Envelope>, acks: set<nat>,
                         next: nat, given: map<nat, Envelope>, issued: set<Envelope>, applied: nat)

  /** `live` is the agent's memory, lost in a crash; `torn` records that a crash once fell inside a compaction. */
  datatype Sys = Sys(live: Option<Mem>, disk: Disk, torn: bool, w: World)

  datatype Step =
    | Do(op: Op)
    | Crash(op: Op, k: nat)
    | Restart(streamId: string)
    | Send(s: nat)
    | Receive(env: Envelope)
    | ServerAck(upto: nat)

  function Init(): Sys { Sys(None, Disk(Absent, []), false, World({}, {}, {}, 1, map[], {}, 0)) }

  // ---------------------------------------------------------------- the world on its own

  predicate Has(received: set<Envelope>, q: nat) { exists e :: e in received && e.seqNo == q }

  predicate IsPending(w: World, q: nat) { w.applied < q < w.next && q in w.given }

  function PendingOf(w: World): map<nat, Envelope> { w.given - (set q | q in w.given && !IsPending(w, q)) }

  function Give(w: World, env: Envelope): World { w.(next := w.next + 1, given := w.given[w.next := env]) }

  function Apply(w: World, upto: nat): World { if upto <= w.applied then w else w.(applied := upto) }

  /** Numbers 1 to `next` - 1 have each been given to one envelope, and everything in flight agrees. */
  ghost predicate Agreed(w: World) {
    && (forall q :: q in w.given <==> 1 <= q < w.next)
    && (forall q :: q in w.given ==> w.given[q].seqNo == q)
    && (forall e :: e in w.wire ==> e.seqNo in w.given && w.given[e.seqNo] == e)
    && (forall e :: e in w.received ==> e.seqNo in w.given && w.given[e.seqNo] == e)
    && (forall e :: e in w.issued ==> e.seqNo in w.given && w.given[e.seqNo] == e)
  }

  /** The server holds numbers 1 to `upto`. */
  ghost predicate HeldByServer(w: World, upto: nat) {
    upto < w.next && forall q :: 1 <= q <= upto && q in w.given ==> w.given[q] in w.received
  }

  /** Whatever was acknowledged has been received. */
  ghost predicate Honest(w: World) {
    HeldByServer(w, w.applied) && forall a :: a in w.acks ==> HeldByServer(w, a)
  }

  /** Nothing in the stream is disposable. */
  ghost predicate OnlyFacts(w: World) { forall q :: q in w.given ==> !IsSignal(w.given[q]) }

  ghost predicate WorldInv(w: World) { w.next >= 1 && Agreed(w) && Honest(w) }

  lemma GiveKeeps(w: World, env: Envelope)
    requires WorldInv(w) && env.seqNo == w.next
    ensures WorldInv(Give(w, env))
  {
    var w' := Give(w, env);
    assert forall a :: HeldByServer(w, a) ==> HeldByServer(w', a);
    assert forall q :: IsPending(w', q) ==> q == w.next || IsPending(w, q);
  }

  lemma ApplyKeeps(w: World, upto: nat)
    requires WorldInv(w) && upto in w.acks
    ensures WorldInv(Apply(w, upto))
  {
    var w' := Apply(w, upto);
    assert forall a :: HeldByServer(w, a) ==> HeldByServer(w', a);
    assert forall q :: IsPending(w', q) ==> IsPending(w, q);
  }

  lemma NetworkKeeps(w: World, w': World)
    requires WorldInv(w)
    requires w' == w.(wire := w'.wire, received := w'.received, issued := w'.issued)
    requires w.received <= w'.received
    requires forall e :: e in w'.wire + w'.received + w'.issued ==> e.seqNo in w.given && w.given[e.seqNo] == e
    ensures WorldInv(w')
  {
    assert forall a :: HeldByServer(w, a) ==> HeldByServer(w', a);
    assert forall e :: e in w'.wire || e in w'.received || e in w'.issued ==> e in w'.wire + w'.received + w'.issued;
    assert forall q :: IsPending(w', q) ==> IsPending(w, q);
  }

  lemma ServerAckKeeps(w: World, upto: nat)
    requires WorldInv(w) && forall q :: 1 <= q <= upto ==> Has(w.received, q)
    ensures WorldInv(w.(acks := w.acks + {upto}))
  {
    var w' := w.(acks := w.acks + {upto});
    forall q: nat | 1 <= q <= upto ensures q in w.given && w.given[q] in w.received {
      assert Has(w.received, q);
      var e :| e in w.received && e.seqNo == q;
    }
    if upto >= 1 { assert upto in w.given; }
    assert forall a :: HeldByServer(w, a) ==> HeldByServer(w', a);
    assert forall q :: IsPending(w', q) ==> IsPending(w, q);
  }

  // ---------------------------------------------------------------- the whole system

  /** What the agent asks of its queue: `emitFact` never passes a coalescing key or a signal, and
      acknowledgements come from the server. */
  ghost predicate Asks(w: World, m: Mem, op: Op) {
    && Enabled(m, op)
    && match op
       case Enqueue(env, key, _, _) =>
         key == "" && !IsSignal(env)
       case Acknowledge(upto) => upto in w.acks
       case _ => true
  }

  ghost predicate Can(s: Sys, step: Step) {
    match step
    case Do(op) => s.live.Some? && Asks(s.w, s.live.value, op)
    case Crash(op, k) => s.live.Some? && Asks(s.w, s.live.value, op) && k <= |Writes(s.live.value, s.disk, op)|
    case Restart(_) => s.live.None? && !s.disk.meta.Corrupt?
    case Send(q) => s.live.Some? && q in s.live.value.items
    case Receive(env) => env in s.w.wire
    case ServerAck(upto) => forall q :: 1 <= q <= upto ==> Has(s.w.received, q)
  }

  /** What history records once the first write of an operation is on disk. */
  function Recorded(w: World, op: Op, env: Envelope): World {
    match op
    case Enqueue(_, _, _, _) => Give(w, env)
    case Acknowledge(upto) => Apply(w, upto)
    case _ => w
  }

  ghost function After(s: Sys, step: Step): Sys
    requires Can(s, step)
  {
    match step
    case Do(op) =>
      var m := s.live.value;
      var w' := Recorded(s.w, op, EnvFor(m, op));
      Sys(Some(MemAfter(m, op)), DiskAfter(m, s.disk, op, |Writes(m, s.disk, op)|), s.torn,
          if op.Enqueue? then w'.(issued := w'.issued + {EnvFor(m, op)}) else w')
    case Crash(op, k) =>
      var m := s.live.value;
      Sys(None, DiskAfter(m, s.disk, op, k), s.torn || (Compacts(m, op) && k == 1),
          if k == 0 then s.w else Recorded(s.w, op, EnvFor(m, op)))
    case Restart(streamId) => s.(live := Some(Recover(streamId, s.disk)))
    case Send(q) => s.(w := s.w.(wire := s.w.wire + {s.live.value.items[q].env}))
    case Receive(env) => s.(w := s.w.(received := s.w.received + {env}))
    case ServerAck(upto) => s.(w := s.w.(acks := s.w.acks + {upto}))
  }

  /** The crash does not move the sequence counter back (`CrashSafety.PositionKeptIff`). */
  ghost predicate Careful(s: Sys, step: Step)
    requires Can(s, step)
  {
    step.Crash? && step.k == 1 ==> !Careless(s.live.value, s.disk, step.op)
  }

  ghost predicate Runs(s: Sys, steps: seq<Step>)
    decreases |steps|
  {
    steps == [] || (Can(s, steps[0]) && Runs(After(s, steps[0]), steps[1..]))
  }

  ghost predicate CarefulRun(s: Sys, steps: seq<Step>)
    requires Runs(s, steps)
    decreases |steps|
  {
    steps == [] || (Careful(s, steps[0]) && CarefulRun(After(s, steps[0]), steps[1..]))
  }

  ghost function End(s: Sys, steps: seq<Step>): Sys
    requires Runs(s, steps)
    decreases |steps|
  {
    if steps == [] then s else End(After(s, steps[0]), steps[1..])
  }

  // ---------------------------------------------------------------- the invariant

  /** A restart finds exactly the numbers above the last acknowledgement, with nothing missing in between. */
  ghost predicate Fits(b: Box, torn: bool, w: World) {
    b.next == w.next && b.ack <= w.applied && (!torn ==> b.ack == w.applied) && b.pend == PendingOf(w)
  }

  ghost predicate Backed(s: Sys) { Sound(s.disk) && (s.live.Some? ==> Linked(s.live.value, s.disk)) }

  ghost predicate Inv(s: Sys) {
    Backed(s) && WorldInv(s.w) && OnlyFacts(s.w) && Fits(DiskBox(s.disk), s.torn, s.w)
  }

  // ---------------------------------------------------------------- one step keeps it

  lemma FitsPut(b: Box, torn: bool, w: World, env: Envelope)
    requires Fits(b, torn, w) && Agreed(w) && w.applied < w.next && env.seqNo == w.next
    ensures Fits(Put(b, env), torn, Give(w, env))
  {
    assert PendingOf(Give(w, env)) == PendingOf(w)[w.next := env];
  }

  lemma FitsTake(b: Box, torn: bool, w: World, upto: nat)
    requires Fits(b, torn, w)
    ensures Fits(Take(b, upto), torn, Apply(w, upto))
    ensures upto > b.ack ==> Fits(HalfTake(b, upto), true, Apply(w, upto))
  {
    assert upto > b.ack ==> Above(PendingOf(w), upto) == PendingOf(Apply(w, upto));
  }

  lemma DefaultClass(env: Envelope)
    requires !IsSignal(env)
    ensures !IsSignal(WithClass(env))
  {
    assert TrimSpace(CLASS_FACT) == CLASS_FACT;
    assert ToLower(CLASS_FACT)[0] == 'f' && ToLower(CLASS_SIGNAL)[0] == 's';
  }

  /** The class and kind of the stored envelope are those of the one handed in. */
  lemma StoredKind(m: Mem, op: Op)
    requires Enabled(m, op) && op.Enqueue? && op.target.None? && !IsSignal(op.env)
    ensures var e := EnvFor(m, op);
            !IsSignal(e) && IsSnapshot(e) == IsSnapshot(op.env) && Carries(e, op.env)
  {
    DefaultClass(op.env);
  }

  /** An item in memory is the envelope its number was given to. */
  lemma LivePending(s: Sys, q: nat)
    requires Inv(s) && s.live.Some?
    ensures q in s.live.value.items <==> IsPending(s.w, q)
    ensures q in s.live.value.items ==> s.live.value.items[q].env == s.w.given[q]
  {
    LinkedBox(s.live.value, s.disk);
    EnvelopesUnder(s.live.value.items, q);
    assert Under(Envelopes(s.live.value.items), q) == Under(PendingOf(s.w), q);
  }

  /** The live agent's box, and that what it asks for is what the queue theorems allow. */
  lemma LiveBox(s: Sys)
    requires Inv(s) && s.live.Some?
    ensures BoxOf(s.live.value) == DiskBox(s.disk) && Fits(BoxOf(s.live.value), s.torn, s.w)
    ensures !Compacts(s.live.value, ResetPending)
  {
    var m := s.live.value;
    LinkedBox(m, s.disk);
    forall q: nat ensures q !in SignalsOf(m.items) {
      SignalsOfAre(m.items, q);
      LivePending(s, q);
    }
  }

  lemma AsksPlain(s: Sys, op: Op)
    requires Inv(s) && s.live.Some? && Asks(s.w, s.live.value, op)
    ensures Plain(s.live.value, op) && s.live.value.ackUpto < s.live.value.nextSeq == s.w.next
    ensures op.Acknowledge? ==> op.upto < s.w.next
  {
    LiveBox(s);
    assert TrimSpace("") == "";
    if op.Acknowledge? { assert HeldByServer(s.w, op.upto); }
  }

  /** History after an operation is still coherent, and the box it leaves still fits. */
  lemma RecordedFits(b: Box, torn: bool, w: World, op: Op, env: Envelope)
    requires Fits(b, torn, w) && WorldInv(w) && OnlyFacts(w)
    requires op.Enqueue? ==> env.seqNo == w.next && !IsSignal(env)
    requires op.Acknowledge? ==> op.upto in w.acks
    ensures var w' := Recorded(w, op, env); WorldInv(w') && OnlyFacts(w') && Fits(BoxDo(b, op, env), torn, w')
  {
    match op
    case Enqueue(_, _, _, _) =>
      assert forall q :: IsPending(w, q) ==> q in b.pend && b.pend[q] == w.given[q];
      GiveKeeps(w, env);
      FitsPut(b, torn, w, env);
    case Acknowledge(upto) =>
      ApplyKeeps(w, upto);
      FitsTake(b, torn, w, upto);
    case _ =>
  }

  lemma OpFits(s: Sys, op: Op)
    requires Inv(s) && s.live.Some? && Asks(s.w, s.live.value, op)
    ensures var m := s.live.value;
            var w' := Recorded(s.w, op, EnvFor(m, op));
            WorldInv(w') && OnlyFacts(w') && Fits(BoxDo(BoxOf(m), op, EnvFor(m, op)), s.torn, w')
  {
    AsksPlain(s, op);
    LiveBox(s);
    MemBox(s.live.value, op);
    if op.Enqueue? { StoredKind(s.live.value, op); }
    RecordedFits(BoxOf(s.live.value), s.torn, s.w, op, EnvFor(s.live.value, op));
  }

  lemma PendingSame(w: World, w': World)
    requires w'.next == w.next && w'.given == w.given && w'.applied == w.applied
    ensures PendingOf(w') == PendingOf(w)
  {
  }

  lemma Issue(b: Box, torn: bool, w: World, e: Envelope)
    requires WorldInv(w) && OnlyFacts(w) && Fits(b, torn, w) && e.seqNo in w.given && w.given[e.seqNo] == e
    ensures var w' := w.(issued := w.issued + {e}); WorldInv(w') && OnlyFacts(w') && Fits(b, torn, w')
  {
    var w' := w.(issued := w.issued + {e});
    NetworkKeeps(w, w');
    PendingSame(w, w');
  }

  lemma DoFits(s: Sys, op: Op)
    requires Inv(s) && Can(s, Do(op))
    ensures var w' := After(s, Do(op)).w;
            && WorldInv(w') && OnlyFacts(w')
            && Fits(BoxDo(BoxOf(s.live.value), op, EnvFor(s.live.value, op)), s.torn, w')
  {
    var m := s.live.value;
    OpFits(s, op);
    if op.Enqueue? {
      AsksPlain(s, op);
      MemBox(m, op);
      Issue(BoxDo(BoxOf(m), op, EnvFor(m, op)), s.torn, Recorded(s.w, op, EnvFor(m, op)), EnvFor(m, op));
    }
  }

  lemma DoKeeps(s: Sys, op: Op)
    requires Inv(s) && Can(s, Do(op))
    ensures Inv(After(s, Do(op)))
  {
    var s' := After(s, Do(op));
    AsksPlain(s, op);
    DoBox(s.live.value, s.disk, op);
    LinkedBox(s'.live.value, s'.disk);
    DoFits(s, op);
  }

  lemma CrashKeeps(s: Sys, op: Op, k: nat)
    requires Inv(s) && Can(s, Crash(op, k)) && Careful(s, Crash(op, k))
    ensures Inv(After(s, Crash(op, k)))
  {
    AsksPlain(s, op);
    OpFits(s, op);
    LiveBox(s);
    CrashBox(s.live.value, s.disk, op, k);
    if op.Acknowledge? { FitsTake(BoxOf(s.live.value), s.torn, s.w, op.upto); }
  }

  lemma RestartKeeps(s: Sys, streamId: string)
    requires Inv(s) && Can(s, Restart(streamId))
    ensures Inv(After(s, Restart(streamId)))
  {
    RestartLinked(streamId, s.disk);
  }

  lemma SendKeeps(s: Sys, q: nat)
    requires Inv(s) && Can(s, Send(q))
    ensures WorldInv(After(s, Send(q)).w)
  {
    LivePending(s, q);
    NetworkKeeps(s.w, After(s, Send(q)).w);
  }

  lemma ReceiveKeeps(s: Sys, env: Envelope)
    requires Inv(s) && Can(s, Receive(env))
    ensures WorldInv(After(s, Receive(env)).w)
  {
    NetworkKeeps(s.w, After(s, Receive(env)).w);
  }

  lemma NetworkStepKeeps(s: Sys, step: Step)
    requires Inv(s) && Can(s, step) && (step.Send? || step.Receive? || step.ServerAck?)
    ensures Inv(After(s, step))
  {
    PendingSame(s.w, After(s, step).w);
    match step
    case Send(q) => SendKeeps(s, q);
    case Receive(env) => ReceiveKeeps(s, env);
    case ServerAck(upto) => ServerAckKeeps(s.w, upto);
  }

  lemma StepKeeps(s: Sys, step: Step)
    requires Inv(s) && Can(s, step) && Careful(s, step)
    ensures Inv(After(s, step))
  {
    match step
    case Do(op) => DoKeeps(s, op);
    case Crash(op, k) => CrashKeeps(s, op, k);
    case Restart(streamId) => RestartKeeps(s, streamId);
    case _ => NetworkStepKeeps(s, step);
  }

  lemma InitHolds()
    ensures Inv(Init())
  {
    assert Recover("", Init().disk) == Fresh("");
    assert PendingOf(Init().w) == map[];
  }

  lemma {:induction false} RunKeeps(s: Sys, steps: seq<Step>)
    requires Inv(s) && Runs(s, steps) && CarefulRun(s, steps)
    ensures Inv(End(s, steps))
    decreases |steps|
  {
    if steps != [] {
      StepKeeps(s, steps[0]);
      RunKeeps(After(s, steps[0]), steps[1..]);
    }
  }

  // ---------------------------------------------------------------- what follows for whole runs

  /** Stored where the next restart finds it, and in the memory of a live agent. */
  ghost predicate StillPending(s: Sys, e: Envelope) {
    && e.seqNo in Recover("", s.disk).items && Recover("", s.disk).items[e.seqNo].env == e
    && (s.live.Some? ==> e.seqNo in s.live.value.items && s.live.value.items[e.seqNo].env == e)
  }

  lemma IssuedIsSafe(s: Sys, e: Envelope)
    requires Inv(s) && e in s.w.issued
    ensures e in s.w.received || StillPending(s, e)
  {
    if e.seqNo > s.w.applied {
      EnvelopesUnder(Recover("", s.disk).items, e.seqNo);
      assert Under(DiskBox(s.disk).pend, e.seqNo) == Under(PendingOf(s.w), e.seqNo) == Some(e);
      if s.live.Some? { LivePending(s, e.seqNo); }
    } else {
      assert HeldByServer(s.w, s.w.applied);
    }
  }

  /** At least once: after any run of operations, crashes, restarts and lossy delivery, every fact whose
      enqueue succeeded has reached the server or is still pending on disk and in memory. */
  lemma AtLeastOnce(steps: seq<Step>)
    requires Runs(Init(), steps) && CarefulRun(Init(), steps)
    ensures var s := End(Init(), steps); forall e :: e in s.w.issued ==> e in s.w.received || StillPending(s, e)
  {
    InitHolds();
    RunKeeps(Init(), steps);
    var s := End(Init(), steps);
    forall e | e in s.w.issued ensures e in s.w.received || StillPending(s, e) { IssuedIsSafe(s, e); }
  }

  lemma {:induction false} IssuedGrows(s: Sys, steps: seq<Step>)
    requires Runs(s, steps)
    ensures s.w.issued <= End(s, steps).w.issued
    decreases |steps|
  {
    if steps != [] { IssuedGrows(After(s, steps[0]), steps[1..]); }
  }

  /** The message of every completed enqueue is on record at the end. */
  lemma {:induction false} EnqueuedIsIssued(s: Sys, steps: seq<Step>, i: nat) returns (e: Envelope)
    requires Inv(s) && Runs(s, steps) && CarefulRun(s, steps)
    requires i < |steps| && steps[i].Do? && steps[i].op.Enqueue?
    ensures e in End(s, steps).w.issued && Carries(e, steps[i].op.env)
    decreases |steps|
  {
    var s' := After(s, steps[0]);
    if i == 0 {
      var op := steps[0].op;
      e := EnvFor(s.live.value, op);
      AsksPlain(s, op);
      StoredKind(s.live.value, op);
      IssuedGrows(s', steps[1..]);
    } else {
      StepKeeps(s, steps[0]);
      e := EnqueuedIsIssued(s', steps[1..], i - 1);
    }
  }

  /** At least once, as handed in: after any such run the message of every enqueue that completed, kind, class, id
      and contents, has reached the server or is still pending. */
  lemma ArrivesAsGiven(steps: seq<Step>, i: nat)
    requires Runs(Init(), steps) && CarefulRun(Init(), steps)
    requires i < |steps| && steps[i].Do? && steps[i].op.Enqueue?
    ensures var s := End(Init(), steps);
            exists e :: Carries(e, steps[i].op.env) && (e in s.w.received || StillPending(s, e))
  {
    InitHolds();
    RunKeeps(Init(), steps);
    var e := EnqueuedIsIssued(Init(), steps, i);
    IssuedIsSafe(End(Init(), steps), e);
  }

  /** Some enqueue of the run was handed this message, even if a crash cut it off. */
  ghost predicate Handed(steps: seq<Step>, e: Envelope) {
    exists i :: 0 <= i < |steps| && (steps[i].Do? || steps[i].Crash?) && steps[i].op.Enqueue?
                && Carries(e, steps[i].op.env)
  }

  lemma HandedLater(steps: seq<Step>, e: Envelope)
    requires steps != [] && Handed(steps[1..], e)
    ensures Handed(steps, e)
  {
    var i :| 0 <= i < |steps[1..]| && (steps[1..][i].Do? || steps[1..][i].Crash?) && steps[1..][i].op.Enqueue?
             && Carries(e, steps[1..][i].op.env);
    assert steps[i + 1] == steps[1..][i];
  }

  /** A step gives out at most the next number, and to the message it was handed. */
  lemma StepGives(s: Sys, step: Step, q: nat)
    requires Inv(s) && Can(s, step) && q in After(s, step).w.given && q !in s.w.given
    ensures (step.Do? || step.Crash?) && step.op.Enqueue? && Carries(After(s, step).w.given[q], step.op.env)
  {
    if step.Do? || step.Crash? {
      AsksPlain(s, step.op);
      if step.op.Enqueue? { StoredKind(s.live.value, step.op); }
    }
  }

  lemma {:induction false} GivenWasHanded(s: Sys, steps: seq<Step>, q: nat)
    requires Inv(s) && Runs(s, steps) && CarefulRun(s, steps) && q in End(s, steps).w.given && q !in s.w.given
    ensures Handed(steps, End(s, steps).w.given[q])
    decreases |steps|
  {
    var s' := After(s, steps[0]);
    StepKeeps(s, steps[0]);
    if q in s'.w.given {
      StepGives(s, steps[0], q);
      NumbersAreNeverReused(s', steps[1..]);
    } else {
      GivenWasHanded(s', steps[1..], q);
      HandedLater(steps, End(s, steps).w.given[q]);
    }
  }

  /** Nothing else arrives: whatever the server receives in such a run was handed to an enqueue of the run. */
  lemma NothingElseArrives(steps: seq<Step>, e: Envelope)
    requires Runs(Init(), steps) && CarefulRun(Init(), steps) && e in End(Init(), steps).w.received
    ensures Handed(steps, e)
  {
    InitHolds();
    RunKeeps(Init(), steps);
    assert End(Init(), steps).w.given[e.seqNo] == e;
    GivenWasHanded(Init(), steps, e.seqNo);
  }

  /** `w'` remembers every number `w` gave out. */
  ghost predicate Extends(w: World, w': World) {
    w.next <= w'.next && forall q :: q in w.given ==> q in w'.given && w'.given[q] == w.given[q]
  }

  lemma RecordedExtends(w: World, op: Op, env: Envelope)
    requires Agreed(w)
    ensures Extends(w, Recorded(w, op, env))
    ensures op.Enqueue? ==> w.next !in w.given && Recorded(w, op, env).given[w.next] == env
  {
  }

  lemma StepExtends(s: Sys, step: Step)
    requires Inv(s) && Can(s, step)
    ensures Extends(s.w, After(s, step).w)
  {
    if step.Do? || step.Crash? { RecordedExtends(s.w, step.op, EnvFor(s.live.value, step.op)); }
  }

  /** A successful enqueue is given a number nothing had before. */
  lemma EnqueueIsNew(s: Sys, op: Op)
    requires Inv(s) && Can(s, Do(op)) && op.Enqueue?
    ensures var e := EnvFor(s.live.value, op);
            e.seqNo == s.w.next && e.seqNo !in s.w.given && After(s, Do(op)).w.given[e.seqNo] == e
  {
    AsksPlain(s, op);
    MemBox(s.live.value, op);
    RecordedExtends(s.w, op, EnvFor(s.live.value, op));
  }

  /** A number, once given to an envelope, is never given to another; the counter a restart reads back
      never moves backwards. */
  lemma {:induction false} NumbersAreNeverReused(s: Sys, steps: seq<Step>)
    requires Inv(s) && Runs(s, steps) && CarefulRun(s, steps)
    ensures Extends(s.w, End(s, steps).w)
    ensures Recover("", s.disk).nextSeq == s.w.next && Recover("", End(s, steps).disk).nextSeq == End(s, steps).w.next
    decreases |steps|
  {
    if steps != [] {
      StepKeeps(s, steps[0]);
      StepExtends(s, steps[0]);
      NumbersAreNeverReused(After(s, steps[0]), steps[1..]);
    }
  }

  /** Pending numbers form one interval ending at the newest; it starts right after the acknowledged position
      unless a crash fell inside a compaction; a self-heal reset drops nothing. */
  lemma PendingIsGapFree(steps: seq<Step>)
    requires Runs(Init(), steps) && CarefulRun(Init(), steps) && End(Init(), steps).live.Some?
    ensures var s := End(Init(), steps);
            var m := s.live.value;
            && (forall q :: q in m.items <==> s.w.applied < q < m.nextSeq)
            && m.ackUpto <= s.w.applied
            && (!s.torn ==> m.ackUpto == s.w.applied)
            && MemAfter(m, ResetPending) == m
  {
    InitHolds();
    RunKeeps(Init(), steps);
    var s := End(Init(), steps);
    var m := s.live.value;
    LiveBox(s);
    ResetPend(m);
    forall q: nat ensures q in m.items <==> s.w.applied < q < m.nextSeq { LivePending(s, q); }
  }

  // ---------------------------------------------------------------- one snapshot

  ghost predicate OneSnapshot(w: World) {
    forall p, q :: (IsPending(w, p) && IsPending(w, q) && IsSnapshot(w.given[p]) && IsSnapshot(w.given[q])) ==> p == q
  }

  lemma OneSnapshotSame(w: World, w': World)
    requires w'.given == w.given && w'.next == w.next && w'.applied == w.applied
    ensures OneSnapshot(w') <==> OneSnapshot(w)
  {
    assert forall q :: IsPending(w', q) <==> IsPending(w, q);
  }

  ghost predicate NonePending(w: World) { forall q :: IsPending(w, q) ==> !IsSnapshot(w.given[q]) }

  /** A snapshot joins the queue: its enqueue completes, or a crash cuts it off after its first write. */
  predicate AddsSnapshot(step: Step) {
    match step
    case Do(op) => op.Enqueue? && IsSnapshot(op.env)
    case Crash(op, k) => k > 0 && op.Enqueue? && IsSnapshot(op.env)
    case _ => false
  }

  /** A snapshot that joins the queue finds no other there. */
  ghost predicate Alone(s: Sys, step: Step)
    requires Can(s, step)
  {
    AddsSnapshot(step) ==> NoSnapshot(s.live.value.items)
  }

  ghost predicate AloneRun(s: Sys, steps: seq<Step>)
    requires Runs(s, steps)
    decreases |steps|
  {
    steps == [] || (Alone(s, steps[0]) && AloneRun(After(s, steps[0]), steps[1..]))
  }

  /** At most one snapshot is pending in every state of the run. */
  ghost predicate OneThroughout(s: Sys, steps: seq<Step>)
    requires Runs(s, steps)
    decreases |steps|
  {
    OneSnapshot(s.w) && (steps == [] || OneThroughout(After(s, steps[0]), steps[1..]))
  }

  lemma GiveSnapshotIff(w: World, env: Envelope)
    requires WorldInv(w) && OneSnapshot(w)
    ensures OneSnapshot(Give(w, env)) <==> (IsSnapshot(env) ==> NonePending(w))
    ensures NonePending(w) && !IsSnapshot(env) ==> NonePending(Give(w, env))
  {
    var w' := Give(w, env);
    assert forall q :: IsPending(w', q) <==> q == w.next || IsPending(w, q);
    assert w'.given[w.next] == env;
    assert forall q :: IsPending(w, q) ==> q != w.next && w'.given[q] == w.given[q];
  }

  lemma FewerPending(w: World, w': World)
    requires w'.given == w.given && w'.next == w.next && w'.applied >= w.applied
    ensures OneSnapshot(w) ==> OneSnapshot(w')
    ensures NonePending(w) ==> NonePending(w')
  {
    assert forall q :: IsPending(w', q) ==> IsPending(w, q);
  }

  /** Memory and the world agree on whether a snapshot is pending. */
  lemma NoneInMemory(s: Sys)
    requires Inv(s) && s.live.Some?
    ensures NoSnapshot(s.live.value.items) <==> NonePending(s.w)
  {
    var items := s.live.value.items;
    forall q: nat
      ensures q in items <==> IsPending(s.w, q)
      ensures q in items ==> items[q].env == s.w.given[q]
    {
      LivePending(s, q);
    }
  }

  /** What an operation does to pending snapshots once its first write is on disk. */
  lemma RecordedSnapshots(s: Sys, op: Op)
    requires Inv(s) && OneSnapshot(s.w) && s.live.Some? && Asks(s.w, s.live.value, op)
    ensures var w', adds := Recorded(s.w, op, EnvFor(s.live.value, op)), op.Enqueue? && IsSnapshot(op.env);
            && (OneSnapshot(w') <==> (adds ==> NonePending(s.w)))
            && (NonePending(s.w) && !adds ==> NonePending(w'))
  {
    if op.Enqueue? {
      AsksPlain(s, op);
      MemBox(s.live.value, op);
      StoredKind(s.live.value, op);
      GiveSnapshotIff(s.w, EnvFor(s.live.value, op));
    } else {
      FewerPending(s.w, Recorded(s.w, op, EnvFor(s.live.value, op)));
    }
  }

  /** One step leaves at most one snapshot pending exactly when it adds none to another. */
  lemma StepSnapshots(s: Sys, step: Step)
    requires Inv(s) && OneSnapshot(s.w) && Can(s, step)
    ensures OneSnapshot(After(s, step).w) <==> Alone(s, step)
    ensures NonePending(s.w) && !AddsSnapshot(step) ==> NonePending(After(s, step).w)
  {
    var w' := After(s, step).w;
    if step.Do? {
      NoneInMemory(s);
      RecordedSnapshots(s, step.op);
      var r := Recorded(s.w, step.op, EnvFor(s.live.value, step.op));
      OneSnapshotSame(r, w');
      FewerPending(r, w');
    } else if step.Crash? && step.k > 0 {
      NoneInMemory(s);
      RecordedSnapshots(s, step.op);
    } else {
      FewerPending(s.w, w');
    }
  }

  /** At most one snapshot is pending throughout a run, also after crashes and restarts, if and only if every
      snapshot that joins the queue finds none there. */
  lemma {:induction false} OneSnapshotIff(s: Sys, steps: seq<Step>)
    requires Inv(s) && OneSnapshot(s.w) && Runs(s, steps) && CarefulRun(s, steps)
    ensures OneThroughout(s, steps) <==> AloneRun(s, steps)
    decreases |steps|
  {
    if steps != [] {
      StepKeeps(s, steps[0]);
      StepSnapshots(s, steps[0]);
      if OneSnapshot(After(s, steps[0]).w) { OneSnapshotIff(After(s, steps[0]), steps[1..]); }
    }
  }

  /** Senders look at the gate first and enqueue later. They do not overlap if every snapshot that joins the
      queue comes from a sender that has looked since the one before it joined: `clear` is whether the gate has
      been seen open since then. Anything but a snapshot may come in between. */
  ghost predicate SeparateRun(s: Sys, steps: seq<Step>, clear: bool)
    requires Runs(s, steps)
    decreases |steps|
  {
    steps == [] ||
    var clear' := clear || (s.live.Some? && GateOpen(s.live.value.items));
    && (AddsSnapshot(steps[0]) ==> clear')
    && SeparateRun(After(s, steps[0]), steps[1..], clear' && !AddsSnapshot(steps[0]))
  }

  lemma {:induction false} SeparateIsAlone(s: Sys, steps: seq<Step>, clear: bool)
    requires Inv(s) && OneSnapshot(s.w) && Runs(s, steps) && CarefulRun(s, steps)
    requires SeparateRun(s, steps, clear) && (clear ==> NonePending(s.w))
    ensures AloneRun(s, steps)
    decreases |steps|
  {
    if steps != [] {
      var clear' := clear || (s.live.Some? && GateOpen(s.live.value.items));
      if s.live.Some? { NoneInMemory(s); }
      StepKeeps(s, steps[0]);
      StepSnapshots(s, steps[0]);
      SeparateIsAlone(After(s, steps[0]), steps[1..], clear' && !AddsSnapshot(steps[0]));
    }
  }

  lemma {:induction false} OneAtEnd(s: Sys, steps: seq<Step>)
    requires Runs(s, steps) && OneThroughout(s, steps)
    ensures OneSnapshot(End(s, steps).w)
    decreases |steps|
  {
    if steps != [] { OneAtEnd(After(s, steps[0]), steps[1..]); }
  }

  /** If senders do not overlap between gate and enqueue, at most one snapshot is ever pending. */
  lemma AtMostOneSnapshot(steps: seq<Step>, p: nat, q: nat)
    requires Runs(Init(), steps) && CarefulRun(Init(), steps) && SeparateRun(Init(), steps, false)
    requires End(Init(), steps).live.Some?
    ensures var items := End(Init(), steps).live.value.items;
            p in items && q in items && IsSnapshot(items[p].env) && IsSnapshot(items[q].env) ==> p == q
  {
    InitHolds();
    RunKeeps(Init(), steps);
    SeparateIsAlone(Init(), steps, false);
    OneSnapshotIff(Init(), steps);
    OneAtEnd(Init(), steps);
    LivePending(End(Init(), steps), p);
    LivePending(End(Init(), steps), q);
  }

  /** A first start, and two senders that both look at the gate before either enqueues. */
  function GateRace(one: Envelope, two: Envelope, now: int): seq<Step> {
    [Restart(""), Do(Enqueue(one, "", now, None)), Do(Enqueue(two, "", now, None))]
  }

  lemma ThreeSteps(s: Sys, a: Step, b: Step, c: Step)
    requires Can(s, a) && Can(After(s, a), b) && Can(After(After(s, a), b), c)
    requires Careful(s, a) && Careful(After(s, a), b) && Careful(After(After(s, a), b), c)
    ensures Runs(s, [a, b, c]) && CarefulRun(s, [a, b, c]) && End(s, [a, b, c]) == After(After(After(s, a), b), c)
  {
    var s1 := After(s, a);
    var s2 := After(s1, b);
    var s3 := After(s2, c);
    assert [a, b, c][1..] == [b, c] && [b, c][1..] == [c] && [c][1..] == [];
    assert Runs(s3, []) && CarefulRun(s3, []) && End(s3, []) == s3;
    assert Runs(s2, [c]) && CarefulRun(s2, [c]) && End(s2, [c]) == s3;
    assert Runs(s1, [b, c]) && CarefulRun(s1, [b, c]) && End(s1, [b, c]) == s3;
  }

  lemma EnqueueAsks(s: Sys, env: Envelope, now: int)
    requires Inv(s) && s.live.Some? && !IsSignal(env)
    ensures var step := Do(Enqueue(env, "", now, None));
            && Can(s, step) && Careful(s, step) && Inv(After(s, step)) && After(s, step).live.Some?
            && (IsSnapshot(env) ==> !NoSnapshot(After(s, step).live.value.items))
  {
    var step := Do(Enqueue(env, "", now, None));
    assert TrimSpace("") == "";
    DoKeeps(s, step.op);
    StoredKind(s.live.value, step.op);
    var m' := After(s, step).live.value;
    assert s.live.value.nextSeq in m'.items && m'.items[s.live.value.nextSeq].env == EnvFor(s.live.value, step.op);
  }

  /** In any state, two senders that have both seen the gate open leave two snapshots pending. */
  lemma TwoPastTheGate(s: Sys, one: Envelope, two: Envelope, now: int)
    requires Inv(s) && OneSnapshot(s.w) && s.live.Some? && GateOpen(s.live.value.items)
    requires IsSnapshot(one) && IsSnapshot(two) && !IsSignal(one) && !IsSignal(two)
    ensures var a, b := Do(Enqueue(one, "", now, None)), Do(Enqueue(two, "", now, None));
            && Can(s, a) && Can(After(s, a), b) && Careful(s, a) && Careful(After(s, a), b)
            && !OneSnapshot(After(After(s, a), b).w)
  {
    var a, b := Do(Enqueue(one, "", now, None)), Do(Enqueue(two, "", now, None));
    EnqueueAsks(s, one, now);
    EnqueueAsks(After(s, a), two, now);
    StepSnapshots(s, a);
    StepSnapshots(After(s, a), b);
  }

  /** The gate alone is not enough: this run passes it open both times and ends with two snapshots pending. */
  lemma GateRaceQueuesTwo(one: Envelope, two: Envelope, now: int)
    requires IsSnapshot(one) && IsSnapshot(two) && !IsSignal(one) && !IsSignal(two)
    ensures var steps := GateRace(one, two, now);
            && Runs(Init(), steps) && CarefulRun(Init(), steps)
            && var start := After(Init(), steps[0]);
               && start.live.Some? && GateOpen(start.live.value.items)
               && !OneSnapshot(End(Init(), steps).w)
  {
    var steps := GateRace(one, two, now);
    InitHolds();
    assert Recover("", Init().disk) == Fresh("");
    RestartKeeps(Init(), "");
    TwoPastTheGate(After(Init(), steps[0]), one, two, now);
    ThreeSteps(Init(), steps[0], steps[1], steps[2]);
  }

  // ---------------------------------------------------------------- why crashes must be careful

  /** What a careless crash leaves: an empty log, and a counter at or below the acknowledged position. */
  lemma CarelessCrash(s: Sys, op: Op)
    requires Inv(s) && Can(s, Crash(op, 1)) && !Careful(s, Crash(op, 1))
    ensures var b := DiskBox(After(s, Crash(op, 1)).disk);
            && op.Acknowledge? && b.pend == map[] && b.ack < b.next <= op.upto
            && Sound(After(s, Crash(op, 1)).disk)
  {
    var m := s.live.value;
    AsksPlain(s, op);
    LiveBox(s);
    CarelessBox(m, s.disk, op);
    var w' := Apply(s.w, op.upto);
    FitsTake(BoxOf(m), s.torn, s.w, op.upto);
    assert m.nextSeq - 1 !in PendingOf(w');
    assert PendingOf(w') == map[];
  }

  /** An item enqueued below a position the server has already acknowledged goes with the next acknowledgement. */
  lemma EnqueuedThenAcked(m: Mem, d: Disk, env: Envelope, now: int, upto: nat)
    requires Linked(m, d) && BoxOf(m).pend == map[] && m.ackUpto < m.nextSeq <= upto
    ensures var enq, ack := Enqueue(env, "", now, None), Acknowledge(upto);
            && Enabled(m, enq)
            && var m3, d3 := MemAfter(m, enq), DiskAfter(m, d, enq, 2);
               && |Writes(m, d, enq)| == |Writes(m3, d3, ack)| == 2
               && MemAfter(m3, ack).items == map[]
               && Recover("", DiskAfter(m3, d3, ack, 2)).items == map[]
  {
    var enq, ack := Enqueue(env, "", now, None), Acknowledge(upto);
    var m3, d3 := MemAfter(m, enq), DiskAfter(m, d, enq, 2);
    forall q: nat ensures q !in m.items { EnvelopesUnder(m.items, q); }
    assert m.items == map[];
    CrashSafety.OpKeepsWellFormed(m, enq);
    CrashSafety.EnqueueWritten(m, d, enq);
    assert m3.items == map[m.nextSeq := Logged(m, enq)];
    assert AfterAck(m3, upto).items == map[];
    CrashSafety.CompactWritten(m3, d3, ack);
    var d4 := DiskAfter(m3, d3, ack, 2);
    RecoverExactly(d4);
    forall q: nat ensures q !in Recover("", d4).items {
      assert Held(Recover("", d4).items, q) == Found(d4, q) == Held(MemAfter(m3, ack).items, q);
    }
  }

  /** A careless crash and the three steps after it that lose a fact: restart, enqueue, and the acknowledgement the
      server has already sent. */
  function LosingSteps(op: Op, env: Envelope, now: int): seq<Step> {
    [Crash(op, 1), Restart(""), Do(Enqueue(env, "", now, None)), Do(op)]
  }

  lemma FourSteps(s: Sys, a: Step, b: Step, c: Step, d: Step)
    requires Can(s, a) && Can(After(s, a), b) && Can(After(After(s, a), b), c)
    requires Can(After(After(After(s, a), b), c), d)
    ensures Runs(s, [a, b, c, d]) && End(s, [a, b, c, d]) == After(After(After(After(s, a), b), c), d)
  {
    var s1 := After(s, a);
    var s2 := After(s1, b);
    var s3 := After(s2, c);
    assert [a, b, c, d][1..] == [b, c, d] && [b, c, d][1..] == [c, d] && [c, d][1..] == [d] && [d][1..] == [];
    assert Runs(After(s3, d), []) && End(After(s3, d), []) == After(s3, d);
    assert Runs(s3, [d]) && End(s3, [d]) == After(s3, d);
    assert Runs(s2, [c, d]) && End(s2, [c, d]) == After(s3, d);
    assert Runs(s1, [b, c, d]) && End(s1, [b, c, d]) == After(s3, d);
  }

  /** The first two of them: an empty queue below a position the server has acknowledged. */
  lemma AfterCareless(s: Sys, op: Op)
    requires Inv(s) && Can(s, Crash(op, 1)) && !Careful(s, Crash(op, 1))
    ensures Can(After(s, Crash(op, 1)), Restart("")) && op.Acknowledge?
    ensures var s2 := After(After(s, Crash(op, 1)), Restart(""));
            && s2.live.Some? && Linked(s2.live.value, s2.disk) && s2.w.received == s.w.received
            && op.upto in s2.w.acks && BoxOf(s2.live.value).pend == map[]
            && s2.live.value.ackUpto < s2.live.value.nextSeq <= op.upto
  {
    CarelessCrash(s, op);
    RestartLinked("", After(s, Crash(op, 1)).disk);
  }

  /** The other two: a fact is enqueued, and the old acknowledgement is applied. */
  lemma EnqueueThenAck(s: Sys, op: Op, env: Envelope, now: int)
    requires s.live.Some? && Linked(s.live.value, s.disk) && op.Acknowledge? && op.upto in s.w.acks
    requires BoxOf(s.live.value).pend == map[] && s.live.value.ackUpto < s.live.value.nextSeq <= op.upto
    requires !IsSignal(env)
    ensures var enq := Do(Enqueue(env, "", now, None));
            && Can(s, enq) && Can(After(s, enq), Do(op))
            && var s' := After(After(s, enq), Do(op));
               && s'.live.Some? && s'.live.value.items == map[] && Recover("", s'.disk).items == map[]
               && s'.w.received == s.w.received
               && exists e :: e in s'.w.issued && Carries(e, env)
  {
    var m, enq := s.live.value, Enqueue(env, "", now, None);
    EnqueuedThenAcked(m, s.disk, env, now, op.upto);
    assert TrimSpace("") == "";
    StoredKind(m, enq);
    assert EnvFor(m, enq) in After(After(s, Do(enq)), Do(op)).w.issued;
  }

  /** What all four leave: nothing pending anywhere, nothing new received, and the fact on record. */
  lemma LosingRun(s: Sys, op: Op, env: Envelope, now: int)
    requires Inv(s) && Can(s, Crash(op, 1)) && !Careful(s, Crash(op, 1)) && !IsSignal(env)
    ensures var steps := LosingSteps(op, env, now);
            Runs(s, steps) && var s' := End(s, steps);
            && s'.live.Some? && s'.live.value.items == map[] && Recover("", s'.disk).items == map[]
            && s'.w.received == s.w.received
            && exists e :: e in s'.w.issued && Carries(e, env)
  {
    AfterCareless(s, op);
    EnqueueThenAck(After(After(s, Crash(op, 1)), Restart("")), op, env, now);
    FourSteps(s, Crash(op, 1), Restart(""), Do(Enqueue(env, "", now, None)), Do(op));
  }

  /** `e` was reported as stored, has not been received, and is pending neither on disk nor in memory: what
      `AtLeastOnce` rules out. */
  ghost predicate Lost(s: Sys, e: Envelope) { e in s.w.issued && e !in s.w.received && !StillPending(s, e) }

  /** From every careless crash the run can go on to lose a fact for good: any fact whose message the server has
      not seen, enqueued after the restart. */
  lemma CarelessCrashLoses(s: Sys, op: Op, env: Envelope, now: int)
    requires Inv(s) && Can(s, Crash(op, 1)) && !Careful(s, Crash(op, 1)) && !IsSignal(env)
    requires forall r :: r in s.w.received ==> r.messageId != env.messageId
    ensures var steps := LosingSteps(op, env, now);
            Runs(s, steps)
            && exists e :: Lost(End(s, steps), e) && Carries(e, env)
  {
    LosingRun(s, op, env, now);
    var s' := End(s, LosingSteps(op, env, now));
    var e :| e in s'.w.issued && Carries(e, env);
    assert Lost(s', e);
  }

  lemma {:induction false} RunsConcat(s: Sys, a: seq<Step>, b: seq<Step>)
    requires Runs(s, a) && Runs(End(s, a), b)
    ensures Runs(s, a + b) && End(s, a + b) == End(End(s, a), b)
    decreases |a|
  {
    if a == [] {
      assert a + b == b;
    } else {
      assert (a + b)[1..] == a[1..] + b;
      RunsConcat(After(s, a[0]), a[1..], b);
    }
  }
}
