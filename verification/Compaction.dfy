/** When the log is rewritten, over whole runs, and what a rewritten log holds. */
module Compaction {
  import opened Text
  import opened Outbox
  import opened CrashSafety

  /** The queue of one process and its files. */
  datatype Store = Store(m: Mem, d: Disk)

  function After(s: Store, op: Op): Store
    requires Enabled(s.m, op)
  {
    Store(MemAfter(s.m, op), DiskAfter(s.m, s.d, op, |Writes(s.m, s.d, op)|))
  }

  ghost predicate Runs(s: Store, ops: seq<Op>)
    decreases |ops|, 0
  {
    ops == [] || (Runs(s, ops[..|ops| - 1]) && Enabled(End(s, ops[..|ops| - 1]).m, ops[|ops| - 1]))
  }

  ghost function End(s: Store, ops: seq<Op>): Store
    requires Runs(s, ops)
    decreases |ops|, 1
  {
    if ops == [] then s else After(End(s, ops[..|ops| - 1]), ops[|ops| - 1])
  }

  /** The acknowledged position moves. */
  predicate Moves(m: Mem, op: Op) { op.Acknowledge? && op.upto > m.ackUpto }

  /** The log is replaced: besides an enqueue, only that takes two writes. */
  predicate Rewrites(s: Store, op: Op)
    requires Enabled(s.m, op)
  {
    !op.Enqueue? && |Writes(s.m, s.d, op)| == 2
  }

  /** The acknowledgements since the log was last replaced that moved the position. */
  ghost function Since(s: Store, ops: seq<Op>): nat
    requires Runs(s, ops)
  {
    if ops == [] then 0
    else
      var init, last := ops[..|ops| - 1], ops[|ops| - 1];
      if Rewrites(End(s, init), last) then 0
      else Since(s, init) + if Moves(End(s, init).m, last) then 1 else 0
  }

  /** How many files an operation writes: a new or rewritten item two, a failed attempt or an acknowledgement that
      moves the position one, unless that compacts, and a reset two if it drops anything. */
  lemma WritesMade(m: Mem, d: Disk, op: Op)
    requires Enabled(m, op)
    ensures |Writes(m, d, op)| ==
            match op
            case Enqueue(_, _, _, _) => 2
            case Acknowledge(upto) => if upto <= m.ackUpto then 0 else if Compacts(m, op) then 2 else 1
            case ResetPending => if exists s :: s in m.items && IsSignal(m.items[s].env) then 2 else 0
            case MarkAttempt(s, _, _, failure) => if s in m.items && failure.Some? then 1 else 0
  {
    if op.ResetPending? {
      forall s: nat ensures s in SignalsOf(m.items) <==> s in m.items && IsSignal(m.items[s].env) {
        SignalsOfAre(m.items, s);
      }
    }
  }

  /** The counter in memory is that number. */
  lemma {:induction false} SinceIsCounted(s: Store, ops: seq<Op>)
    requires Runs(s, ops) && s.m.acksSince == 0
    ensures End(s, ops).m.acksSince == Since(s, ops)
  {
    if ops != [] {
      var init, last := ops[..|ops| - 1], ops[|ops| - 1];
      SinceIsCounted(s, init);
      WritesMade(End(s, init).m, End(s, init).d, last);
    }
  }

  /** Over every run of a process an acknowledgement that moves the position replaces the log if and only if it
      leaves nothing pending or is the 32nd since the log was last replaced; and never are more than 31 behind. */
  lemma CompactsWhenDue(s: Store, ops: seq<Op>, upto: nat)
    requires Runs(s, ops) && s.m.acksSince == 0 && upto > End(s, ops).m.ackUpto
    ensures var now := End(s, ops);
            Rewrites(now, Acknowledge(upto)) <==>
            (forall q :: q in now.m.items ==> q <= upto) || Since(s, ops) + 1 == 32
    ensures Since(s, ops) < 32
  {
    var m := End(s, ops).m;
    SinceIsCounted(s, ops);
    SinceIsSmall(s, ops);
    WritesMade(m, End(s, ops).d, Acknowledge(upto));
    if forall q :: q in m.items ==> q <= upto {
      assert AfterAck(m, upto).items.Keys == {};
    } else {
      var q :| q in m.items && q > upto;
      assert q in AfterAck(m, upto).items.Keys;
    }
  }

  lemma {:induction false} SinceIsSmall(s: Store, ops: seq<Op>)
    requires Runs(s, ops) && s.m.acksSince == 0
    ensures Since(s, ops) < 32
  {
    if ops != [] {
      var init, last := ops[..|ops| - 1], ops[|ops| - 1];
      SinceIsSmall(s, init);
      SinceIsCounted(s, init);
      WritesMade(End(s, init).m, End(s, init).d, last);
    }
  }

  /** One record for each pending item, just as memory has it, in the order of the numbers. */
  ghost predicate Tidy(log: seq<Line>, items: map<nat, Item>) {
    && |Records(log)| == |items|
    && (forall i :: 0 <= i < |Records(log)| ==>
          Records(log)[i].env.seqNo in items && items[Records(log)[i].env.seqNo] == Records(log)[i])
    && forall i, j :: 0 <= i < j < |Records(log)| ==> Records(log)[i].env.seqNo < Records(log)[j].env.seqNo
  }

  lemma SortedIsTidy(items: map<nat, Item>)
    requires forall s :: s in items ==> items[s].env.seqNo == s
    ensures Tidy(LogOf(SortedItems(items)), items)
  {
    var ks := SortedKeys(items.Keys);
    RecordsOfLog(SortedItems(items));
    SortedKeysAre(items.Keys);
    ItemsAtIndex(items, ks);
    forall i | 0 <= i < |ks| ensures SortedItems(items)[i].env.seqNo == ks[i] { assert ks[i] in ks; }
  }

  /** After it is replaced the log holds the pending items and nothing else; any other operation leaves it, or adds
      the one record of an enqueue. */
  lemma LogStaysSmall(s: Store, op: Op)
    requires WellFormed(s.m) && Enabled(s.m, op) && (op.Enqueue? ==> s.m.ackUpto < s.m.nextSeq)
    ensures var s' := After(s, op);
            if Rewrites(s, op) then Tidy(s'.d.log, s'.m.items)
            else s'.d.log == s.d.log + if op.Enqueue? then [Record(Logged(s.m, op))] else []
  {
    WritesMade(s.m, s.d, op);
    if Rewrites(s, op) {
      OpKeepsWellFormed(s.m, op);
      assert Unacked(After(s, op).m) == After(s, op).m.items;
      SortedIsTidy(After(s, op).m.items);
    } else if !op.Enqueue? {
      assert s.d.log + [] == s.d.log;
    }
  }
}
