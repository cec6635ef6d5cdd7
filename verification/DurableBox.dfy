/** The queue as its users see it: the next number, the acknowledged position and the pending envelopes.
    Memory and disk are two representations of the same box, and every operation, complete or cut off by a
    crash, acts on it in one step. */
module DurableBox {
  import opened Text
  import opened Outbox
  import opened CrashSafety

  datatype Box = Box(next: nat, ack: nat, pend: map<nat, Envelope>)

  /** The envelopes of the items, under the same numbers. */
  function Envelopes(items: map<nat, Item>): map<nat, Envelope>
    decreases |items|
  {
    if items == map[] then map[]
    else
      var k := MinOf(items.Keys);
      assert |(items - {k}).Keys| < |items.Keys|;
      Envelopes(items - {k})[k := items[k].env]
  }

  function BoxOf(m: Mem): Box { Box(m.nextSeq, m.ackUpto, Envelopes(m.items)) }

  /** The box a restart would find. */
  function DiskBox(d: Disk): Box { BoxOf(Recover("", d)) }

  function Put(b: Box, env: Envelope): Box { Box(b.next + 1, b.ack, b.pend[b.next := env]) }

  function Above(pend: map<nat, Envelope>, upto: nat): map<nat, Envelope> { pend - (set s | s in pend && s <= upto) }

  function Take(b: Box, upto: nat): Box { if upto <= b.ack then b else Box(b.next, upto, Above(b.pend, upto)) }

  /** A compaction cut off after the log was replaced: the items are gone, the position has not moved. */
  function HalfTake(b: Box, upto: nat): Box { b.(pend := Above(b.pend, upto)) }

  function BoxDo(b: Box, op: Op, env: Envelope): Box {
    match op
    case Enqueue(_, _, _, _) => Put(b, env)
    case Acknowledge(upto) => Take(b, upto)
    case _ => b
  }

  /** The envelope an enqueue stores; of no meaning for other operations. */
  function EnvFor(m: Mem, op: Op): Envelope
    requires Enabled(m, op)
  {
    if op.Enqueue? then Logged(m, op).env else Envelope("", 0, "", "", "", "", 0, "")
  }

  /** Disk and memory represent the same box. */
  ghost predicate Linked(m: Mem, d: Disk) { WellFormed(m) && Describes(d, m) && Sound(d) }

  ghost predicate Sound(d: Disk) { Modern(d) && AckOf(0, d.meta) < MetaNext(d) }

  /** The operations the agent performs on a queue that holds no signals. */
  ghost predicate Plain(m: Mem, op: Op) {
    Enabled(m, op) && (op.Enqueue? ==> op.target.None?) && !Compacts(m, ResetPending)
  }

  /** A compaction with the meta file behind and the newest item going away; `CrashSafety.PositionKeptIff`
      says a crash between its two writes is exactly the one that moves the counter back. */
  ghost predicate Careless(m: Mem, d: Disk, op: Op)
    requires Enabled(m, op)
  {
    Compacts(m, op) && MetaNext(d) != m.nextSeq && m.nextSeq - 1 !in MemAfter(m, op).items
  }

  // ---------------------------------------------------------------- reading boxes item by item

  function EnvOf(f: Option<Durable>): Option<Envelope> { if f.Some? then Some(f.value.env) else None }

  function Under(pend: map<nat, Envelope>, s: nat): Option<Envelope> { if s in pend then Some(pend[s]) else None }

  lemma {:induction false} EnvelopesUnder(items: map<nat, Item>, s: nat)
    ensures Under(Envelopes(items), s) == EnvOf(Held(items, s))
    decreases |items|
  {
    if items != map[] {
      var k := MinOf(items.Keys);
      assert |(items - {k}).Keys| < |items.Keys|;
      EnvelopesUnder(items - {k}, s);
    }
  }

  lemma SamePend(a: map<nat, Envelope>, b: map<nat, Envelope>)
    requires forall s :: Under(a, s) == Under(b, s)
    ensures a == b
  {
    forall s: nat ensures s in a <==> s in b { assert Under(a, s) == Under(b, s); }
    forall s | s in a ensures a[s] == b[s] { assert Under(a, s) == Under(b, s); }
  }

  /** Items that a disk describes give the box a restart finds. */
  lemma FoundPend(d: Disk, items: map<nat, Item>)
    requires Modern(d) && forall s :: Found(d, s) == Held(items, s)
    ensures DiskBox(d).pend == Envelopes(items)
  {
    forall s: nat ensures Under(DiskBox(d).pend, s) == Under(Envelopes(items), s) {
      RecoverItem(d, s);
      EnvelopesUnder(Recover("", d).items, s);
      EnvelopesUnder(items, s);
      assert Found(d, s) == Held(items, s);
    }
    SamePend(DiskBox(d).pend, Envelopes(items));
  }

  lemma LinkedBox(m: Mem, d: Disk)
    requires Linked(m, d)
    ensures DiskBox(d) == BoxOf(m)
  {
    FoundPend(d, m.items);
    SyncedIsDescribed(m, d);
  }

  lemma RestartLinked(streamId: string, d: Disk)
    requires Sound(d)
    ensures Linked(Recover(streamId, d), d) && BoxOf(Recover(streamId, d)) == DiskBox(d)
  {
    RecoverExactly(d);
    assert Recover(streamId, d) == Recover("", d).(streamId := StreamOf(streamId, d.meta));
  }

  // ---------------------------------------------------------------- memory

  lemma EnqueuePend(m: Mem, op: Op)
    requires WellFormed(m) && Plain(m, op) && op.Enqueue?
    ensures BoxOf(MemAfter(m, op)) == Put(BoxOf(m), EnvFor(m, op)) && EnvFor(m, op).seqNo == m.nextSeq
  {
    var a, b := Envelopes(MemAfter(m, op).items), Put(BoxOf(m), EnvFor(m, op)).pend;
    forall s: nat ensures Under(a, s) == Under(b, s) {
      EnvelopesUnder(m.items, s);
      EnvelopesUnder(MemAfter(m, op).items, s);
    }
    SamePend(a, b);
  }

  lemma AckPend(m: Mem, upto: nat)
    requires WellFormed(m)
    ensures BoxOf(MemAfter(m, Acknowledge(upto))) == Take(BoxOf(m), upto)
    ensures upto > m.ackUpto ==> Envelopes(MemAfter(m, Acknowledge(upto)).items) == HalfTake(BoxOf(m), upto).pend
  {
    if upto > m.ackUpto {
      var after := AfterAck(m, upto).items;
      var a, b := Envelopes(after), Above(Envelopes(m.items), upto);
      forall s: nat ensures Under(a, s) == Under(b, s) {
        EnvelopesUnder(m.items, s);
        EnvelopesUnder(after, s);
      }
      SamePend(a, b);
    }
  }

  lemma ResetPend(m: Mem)
    requires !Compacts(m, ResetPending)
    ensures MemAfter(m, ResetPending) == m
  {
  }

  lemma AttemptPend(m: Mem, op: Op)
    requires op.MarkAttempt?
    ensures BoxOf(MemAfter(m, op)) == BoxOf(m)
  {
    var a, b := Envelopes(MemAfter(m, op).items), Envelopes(m.items);
    forall s: nat ensures Under(a, s) == Under(b, s) {
      EnvelopesUnder(m.items, s);
      EnvelopesUnder(MemAfter(m, op).items, s);
    }
    SamePend(a, b);
  }

  /** In memory an operation acts on the box. */
  lemma MemBox(m: Mem, op: Op)
    requires WellFormed(m) && Plain(m, op)
    ensures BoxOf(MemAfter(m, op)) == BoxDo(BoxOf(m), op, EnvFor(m, op))
    ensures op.Enqueue? ==> EnvFor(m, op).seqNo == m.nextSeq
  {
    match op
    case Enqueue(_, _, _, _) => EnqueuePend(m, op);
    case Acknowledge(upto) => AckPend(m, upto);
    case ResetPending => ResetPend(m);
    case MarkAttempt(_, _, _, _) => AttemptPend(m, op);
  }

  // ---------------------------------------------------------------- disk

  /** The meta file is the old one until the last write of an operation, if that writes it. */
  lemma MetaAfter(m: Mem, d: Disk, op: Op, k: nat)
    requires Enabled(m, op) && k <= |Writes(m, d, op)|
    ensures var dk := DiskAfter(m, d, op, k);
            dk.meta == if 0 < k == |Writes(m, d, op)| then MetaOf(MemAfter(m, op)) else d.meta
  {
  }

  lemma SoundAfter(m: Mem, d: Disk, op: Op, k: nat)
    requires Linked(m, d) && Enabled(m, op) && k <= |Writes(m, d, op)|
    requires MemAfter(m, op).ackUpto < MemAfter(m, op).nextSeq
    ensures Sound(DiskAfter(m, d, op, k))
  {
    MetaAfter(m, d, op, k);
  }

  /** A completed operation acts on the box, and memory and disk stay two copies of it. */
  lemma DoBox(m: Mem, d: Disk, op: Op)
    requires Linked(m, d) && Plain(m, op) && m.ackUpto < m.nextSeq
    requires op.Acknowledge? ==> op.upto < m.nextSeq
    ensures var m', d' := MemAfter(m, op), DiskAfter(m, d, op, |Writes(m, d, op)|);
            Linked(m', d') && BoxOf(m') == BoxDo(BoxOf(m), op, EnvFor(m, op))
  {
    MemBox(m, op);
    OpKeepsWellFormed(m, op);
    OpMovesForward(m, op);
    WritesDescribe(m, d, op, |Writes(m, d, op)|);
    SoundAfter(m, d, op, |Writes(m, d, op)|);
  }

  /** The box after a crash: as before until the first write, as after from then on, except that a
      compaction cut in half has not moved the position. */
  lemma CrashBox(m: Mem, d: Disk, op: Op, k: nat)
    requires Linked(m, d) && Plain(m, op) && m.ackUpto < m.nextSeq && k <= |Writes(m, d, op)|
    requires op.Acknowledge? ==> op.upto < m.nextSeq
    requires k == 1 ==> !Careless(m, d, op)
    ensures var dk, b := DiskAfter(m, d, op, k), BoxOf(m);
            && Sound(dk)
            && (k == 1 && Compacts(m, op) ==> op.Acknowledge?)
            && DiskBox(dk) == if k == 0 then b
                              else if k == 1 && Compacts(m, op) then HalfTake(b, op.upto)
                              else BoxDo(b, op, EnvFor(m, op))
  {
    var dk := DiskAfter(m, d, op, k);
    OpMovesForward(m, op);
    SoundAfter(m, d, op, k);
    if k == 0 {
      LinkedBox(m, d);
    } else if k == |Writes(m, d, op)| {
      DoBox(m, d, op);
      LinkedBox(MemAfter(m, op), dk);
    } else if op.Enqueue? {
      EnqueueAppended(m, d, op);
      OpKeepsWellFormed(m, op);
      MemBox(m, op);
      LinkedBox(MemAfter(m, op), dk);
    } else {
      HalfBox(m, d, op);
    }
  }

  lemma CompactsIsAck(m: Mem, op: Op)
    requires Plain(m, op) && Compacts(m, op)
    ensures op.Acknowledge? && m.ackUpto < op.upto
  {
  }

  /** The items a half-done compaction leaves on disk. */
  lemma HalfPend(m: Mem, d: Disk, upto: nat)
    requires Linked(m, d) && Compacts(m, Acknowledge(upto))
    ensures DiskBox(DiskAfter(m, d, Acknowledge(upto), 1)).pend == Above(BoxOf(m).pend, upto)
    ensures Modern(DiskAfter(m, d, Acknowledge(upto), 1))
  {
    CompactWritten(m, d, Acknowledge(upto));
    FoundPend(DiskAfter(m, d, Acknowledge(upto), 1), MemAfter(m, Acknowledge(upto)).items);
    AckPend(m, upto);
  }

  lemma HalfBox(m: Mem, d: Disk, op: Op)
    requires Linked(m, d) && Plain(m, op) && Compacts(m, op) && !Careless(m, d, op)
    ensures op.Acknowledge? && DiskBox(DiskAfter(m, d, op, 1)) == HalfTake(BoxOf(m), op.upto)
  {
    CompactsIsAck(m, op);
    HalfPend(m, d, op.upto);
    PositionMidCompaction(m, d, op);
  }

  lemma OnlyNewest(m: Mem, d: Disk, op: Op)
    requires Linked(m, d) && Enabled(m, op) && Careless(m, d, op) && op.Acknowledge? && m.ackUpto < op.upto < m.nextSeq
    ensures MetaNext(d) < m.nextSeq && m.nextSeq - 1 in m.items && m.nextSeq - 1 == op.upto
  {
    var newest := m.nextSeq - 1;
    assert newest in m.items && newest !in AfterAck(m, op.upto).items;
  }

  /** The careless case: the newest item is gone from the log, and the counter falls back to the one in the
      meta file. */
  lemma CarelessBox(m: Mem, d: Disk, op: Op)
    requires Linked(m, d) && Plain(m, op) && Careless(m, d, op)
    requires op.Acknowledge? ==> op.upto < m.nextSeq
    ensures var b := DiskBox(DiskAfter(m, d, op, 1));
            && op.Acknowledge? && m.ackUpto < op.upto
            && b.pend == Above(BoxOf(m).pend, op.upto)
            && b.ack == m.ackUpto && b.ack < b.next < m.nextSeq
            && m.nextSeq - 1 in m.items && m.nextSeq - 1 == op.upto
            && Sound(DiskAfter(m, d, op, 1))
  {
    CompactsIsAck(m, op);
    OnlyNewest(m, d, op);
    HalfPend(m, d, op.upto);
    PositionMidCompaction(m, d, op);
    MetaAfter(m, d, op, 1);
    RecoverNext(DiskAfter(m, d, op, 1));
  }
}
