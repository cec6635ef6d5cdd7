/** Every queue operation is atomic for a crash between its writes, and exactly when it is not. */
module CrashSafety {
  import opened Text
  import opened Outbox

  // ---------------------------------------------------------------- what one write does to the disk

  lemma AppendFound(d: Disk, i: Item, s: nat)
    ensures var d' := d.(log := d.log + [Record(i)]);
            Found(d', s) == if s == i.env.seqNo && s > AckOf(0, d.meta) then Some(Core(i)) else Found(d, s)
  {
    var log := d.log + [Record(i)];
    assert log[..|log| - 1] == d.log;
    var src := Records(log);
    assert src[..|src| - 1] == Records(d.log);
  }

  lemma {:induction false} RecordsOfLog(items: seq<Item>)
    ensures Records(LogOf(items)) == items
  {
    if items != [] {
      var log := LogOf(items);
      assert log[..|log| - 1] == LogOf(items[..|items| - 1]);
      RecordsOfLog(items[..|items| - 1]);
    }
  }

  lemma {:induction false} ItemsAtHold(items: map<nat, Item>, ks: seq<nat>, s: nat)
    requires (forall k :: k in ks ==> k in items) && forall t :: t in items ==> items[t].env.seqNo == t
    ensures s in ks ==> items[s] in ItemsAt(items, ks)
    ensures forall i :: i in ItemsAt(items, ks) ==> i.env.seqNo in items && items[i.env.seqNo] == i
  {
    if ks != [] { ItemsAtHold(items, ks[1..], s); }
  }

  lemma SortedItemsRead(items: map<nat, Item>, s: nat)
    requires forall t :: t in items ==> items[t].env.seqNo == t
    ensures LastOf(SortedItems(items), s) == if s in items then Some(items[s]) else None
  {
    SortedKeysAre(items.Keys);
    ItemsAtHold(items, SortedKeys(items.Keys), s);
  }

  lemma RewriteFound(d: Disk, items: map<nat, Item>, s: nat)
    requires forall t :: t in items ==> items[t].env.seqNo == t
    ensures Found(d.(log := LogOf(SortedItems(items))), s)
            == if s > AckOf(0, d.meta) then Held(items, s) else None
  {
    RecordsOfLog(SortedItems(items));
    SortedItemsRead(items, s);
  }

  /** Writing the meta file of a memory whose items the log already describes. */
  lemma MetaDescribes(m: Mem, d: Disk)
    requires WellFormed(m) && Modern(d) && AckOf(0, d.meta) <= m.ackUpto
    requires forall s :: s > m.ackUpto ==> Found(d, s) == Held(m.items, s)
    ensures Describes(d.(meta := MetaOf(m)), m)
  {
    var d' := d.(meta := MetaOf(m));
    forall s: nat ensures Found(d', s) == Held(m.items, s) {
      assert s > m.ackUpto ==> Found(d, s) == Held(m.items, s);
    }
  }

  // ---------------------------------------------------------------- memory

  lemma AckKeepsWellFormed(m: Mem, upto: nat)
    requires WellFormed(m) && m.ackUpto <= upto
    ensures WellFormed(AfterAck(m, upto))
  {
  }

  lemma OpKeepsWellFormed(m: Mem, op: Op)
    requires WellFormed(m) && Enabled(m, op) && (op.Enqueue? ==> m.ackUpto < m.nextSeq)
    ensures WellFormed(MemAfter(m, op))
  {
    if op.Acknowledge? && op.upto > m.ackUpto { AckKeepsWellFormed(m, op.upto); }
  }

  lemma OpMovesForward(m: Mem, op: Op)
    requires Enabled(m, op)
    ensures MemAfter(m, op).nextSeq == if op.Enqueue? && op.target.None? then m.nextSeq + 1 else m.nextSeq
    ensures MemAfter(m, op).ackUpto == if op.Acknowledge? && op.upto > m.ackUpto then op.upto else m.ackUpto
  {
  }

  // ---------------------------------------------------------------- crash atomicity

  /** Both disks of a compaction hold exactly the items it was given. */
  lemma CompactFound(m': Mem, d: Disk, k: nat, s: nat)
    requires WellFormed(m') && Modern(d) && k < 2 && AckOf(0, d.meta) <= m'.ackUpto
    ensures Found(CompactWrites(m', d)[k], s) == Held(m'.items, s)
  {
    assert Unacked(m') == m'.items;
    RewriteFound(if k == 0 then d else d.(meta := MetaOf(m')), m'.items, s);
  }

  /** Appending the record of one inserted or rewritten item. */
  lemma AppendDescribes(m: Mem, m': Mem, d: Disk, i: Item)
    requires WellFormed(m) && Describes(d, m) && m'.ackUpto == m.ackUpto < i.env.seqNo < m'.nextSeq
    requires m'.items == m.items[i.env.seqNo := i]
    requires m'.nextSeq == m.nextSeq || m'.nextSeq == i.env.seqNo + 1 > m.nextSeq
    ensures Describes(d.(log := d.log + [Record(i)]), m')
  {
    var d' := d.(log := d.log + [Record(i)]);
    forall s: nat ensures Found(d', s) == Held(m'.items, s) {
      AppendFound(d, i, s);
      assert Found(d, s) == Held(m.items, s);
    }
  }

  /** After the append: both files together already describe the new state. */
  lemma EnqueueAppended(m: Mem, d: Disk, op: Op)
    requires WellFormed(m) && Describes(d, m) && Enabled(m, op) && op.Enqueue? && m.ackUpto < m.nextSeq
    ensures Describes(DiskAfter(m, d, op, 1), MemAfter(m, op))
  {
    AppendDescribes(m, MemAfter(m, op), d, Logged(m, op));
  }

  lemma EnqueueWritten(m: Mem, d: Disk, op: Op)
    requires WellFormed(m) && Describes(d, m) && Enabled(m, op) && op.Enqueue? && m.ackUpto < m.nextSeq
    ensures Describes(DiskAfter(m, d, op, 2), MemAfter(m, op))
  {
    EnqueueAppended(m, d, op);
    OpKeepsWellFormed(m, op);
    OpMovesForward(m, op);
    MetaDescribes(MemAfter(m, op), DiskAfter(m, d, op, 1));
  }

  /** An operation that writes nothing but the meta file. */
  lemma MetaOnlyWritten(m: Mem, d: Disk, op: Op)
    requires WellFormed(m) && Describes(d, m) && Enabled(m, op) && !op.Enqueue? && !Compacts(m, op)
    ensures |Writes(m, d, op)| <= 1
    ensures Describes(DiskAfter(m, d, op, |Writes(m, d, op)|), MemAfter(m, op))
  {
    var m' := MemAfter(m, op);
    OpKeepsWellFormed(m, op);
    OpMovesForward(m, op);
    forall s: nat ensures s > m'.ackUpto ==> Found(d, s) == Held(m'.items, s) {
      assert Found(d, s) == Held(m.items, s);
    }
    if Writes(m, d, op) != [] {
      MetaDescribes(m', d);
    } else {
      forall s: nat ensures Found(d, s) == Held(m'.items, s) { assert Found(d, s) == Held(m.items, s); }
    }
  }

  lemma CompactWritten(m: Mem, d: Disk, op: Op)
    requires WellFormed(m) && Describes(d, m) && Enabled(m, op) && Compacts(m, op)
    ensures Modern(DiskAfter(m, d, op, 1))
    ensures forall s :: Found(DiskAfter(m, d, op, 1), s) == Held(MemAfter(m, op).items, s)
    ensures Describes(DiskAfter(m, d, op, 2), MemAfter(m, op))
  {
    var m' := MemAfter(m, op);
    OpKeepsWellFormed(m, op);
    OpMovesForward(m, op);
    forall s: nat
      ensures Found(DiskAfter(m, d, op, 1), s) == Held(m'.items, s)
      ensures Found(DiskAfter(m, d, op, 2), s) == Held(m'.items, s)
    {
      CompactFound(m', d, 0, s);
      CompactFound(m', d, 1, s);
    }
  }

  /** From its first write on, the disk holds the items the operation leaves; after its last write it
      describes the whole new state. */
  lemma WritesDescribe(m: Mem, d: Disk, op: Op, k: nat)
    requires WellFormed(m) && Describes(d, m) && Enabled(m, op)
    requires op.Enqueue? ==> m.ackUpto < m.nextSeq
    requires k <= |Writes(m, d, op)|
    ensures var m', dk := MemAfter(m, op), DiskAfter(m, d, op, k);
            && Modern(dk)
            && (k == |Writes(m, d, op)| ==> Describes(dk, m'))
            && (forall s :: Found(dk, s) == Held(if k == 0 then m.items else m'.items, s))
  {
    if op.Enqueue? {
      if k == 1 { EnqueueAppended(m, d, op); } else if k == 2 { EnqueueWritten(m, d, op); }
    } else if Compacts(m, op) {
      CompactWritten(m, d, op);
    } else {
      MetaOnlyWritten(m, d, op);
    }
  }

  /** The disk holds the pending map of before the operation until its first write, and that of after it
      from then on; once the last write is done a restart resumes exactly where memory stands. */
  lemma CrashAtomic(m: Mem, d: Disk, op: Op, k: nat)
    requires WellFormed(m) && Synced(m, d) && Modern(d) && Enabled(m, op)
    requires op.Enqueue? ==> m.ackUpto < m.nextSeq
    requires k <= |Writes(m, d, op)|
    ensures Modern(DiskAfter(m, d, op, k))
    ensures SamePending(Recover("", DiskAfter(m, d, op, k)).items, if k == 0 then m.items else MemAfter(m, op).items)
    ensures k == |Writes(m, d, op)| ==> Synced(MemAfter(m, op), DiskAfter(m, d, op, k))
  {
    var m', dk := MemAfter(m, op), DiskAfter(m, d, op, k);
    SyncedIsDescribed(m, d);
    OpKeepsWellFormed(m, op);
    OpMovesForward(m, op);
    WritesDescribe(m, d, op, k);
    SyncedIsDescribed(m', dk);
    RecoverExactly(dk);
    var items := if k == 0 then m.items else m'.items;
    forall s: nat ensures Held(Recover("", dk).items, s) == Held(items, s) {
      assert Found(dk, s) == Held(items, s);
    }
  }

  // ---------------------------------------------------------------- when a crash loses the position

  /** Between the two writes of a compaction a restart resumes from the old acknowledged position. */
  lemma PositionMidCompaction(m: Mem, d: Disk, op: Op)
    requires WellFormed(m) && Describes(d, m) && Enabled(m, op) && Compacts(m, op)
    ensures var r := Recover("", DiskAfter(m, d, op, 1));
            && r.ackUpto == m.ackUpto
            && r.nextSeq <= m.nextSeq
            && (r.nextSeq == m.nextSeq <==> MetaNext(d) == m.nextSeq || m.nextSeq - 1 in MemAfter(m, op).items)
  {
    var m', d1 := MemAfter(m, op), DiskAfter(m, d, op, 1);
    OpKeepsWellFormed(m, op);
    OpMovesForward(m, op);
    CompactWritten(m, d, op);
    assert m'.nextSeq == m.nextSeq && d1.meta == d.meta;
    PositionOfItems(d1, m');
  }

  /** Where recovery resumes when the log describes the items of `m` but the meta file may be behind. */
  lemma PositionOfItems(d: Disk, m: Mem)
    requires WellFormed(m) && Modern(d) && MetaNext(d) <= m.nextSeq
    requires forall s :: Found(d, s) == Held(m.items, s)
    ensures var r := Recover("", d);
            && r.ackUpto == AckOf(0, d.meta)
            && r.nextSeq <= m.nextSeq
            && (r.nextSeq == m.nextSeq <==> MetaNext(d) == m.nextSeq || m.nextSeq - 1 in m.items)
  {
    var r := Recover("", d);
    RecoverExactly(d);
    forall s: nat ensures Held(r.items, s) == Held(m.items, s) {
      assert Found(d, s) == Held(m.items, s) && Held(r.items, s) == Found(d, s);
    }
    SameKeys(r.items, m.items);
    CounterFixed(MetaNext(d), r.nextSeq, r.items, m.nextSeq, m.items);
  }

  /** A crash moves the sequence counter back in exactly one place: after the log has been replaced and
      before the meta file follows, when the meta file was behind and the newest item is not in the new log. */
  lemma PositionKeptIff(m: Mem, d: Disk, op: Op, k: nat)
    requires WellFormed(m) && Synced(m, d) && Modern(d) && Enabled(m, op)
    requires op.Enqueue? ==> m.ackUpto < m.nextSeq
    requires k <= |Writes(m, d, op)|
    ensures Recover("", DiskAfter(m, d, op, k)).nextSeq >= m.nextSeq <==>
              !(Compacts(m, op) && k == 1) || MetaNext(d) == m.nextSeq || m.nextSeq - 1 in MemAfter(m, op).items
  {
    SyncedIsDescribed(m, d);
    OpKeepsWellFormed(m, op);
    OpMovesForward(m, op);
    if Compacts(m, op) && k == 1 {
      PositionMidCompaction(m, d, op);
    } else if k == |Writes(m, d, op)| {
      CrashAtomic(m, d, op, k);
    } else if k == 1 {
      EnqueueAppended(m, d, op);
      SyncedIsDescribed(MemAfter(m, op), DiskAfter(m, d, op, 1));
    }
  }

  // ---------------------------------------------------------------- when durability fails

  lemma AppendedIsLast(d: Disk, i: Item)
    ensures LastOf(Records(d.log + [Record(i)]), i.env.seqNo) == Some(i)
  {
    var log := d.log + [Record(i)];
    assert log[..|log| - 1] == d.log;
  }

  /** A new item in the queue of `m`: the message handed in, under the next number, due at once. */
  ghost predicate IsNew(i: Item, m: Mem, env: Envelope, key: string, now: int) {
    && Carries(i.env, env) && i.env.streamId == m.streamId && i.env.seqNo == m.nextSeq
    && i.createdAt == i.nextAttempt == now && i.retryCount == i.lastAttempt == 0 && i.lastError == ""
    && i.coalesceKey == TrimSpace(key)
  }

  lemma NewIsNew(m: Mem, env: Envelope, key: string, now: int)
    ensures IsNew(NewItem(m, env, key, now), m, env, key, now)
  {
  }

  /** A restart finds the record appended last, if its number is above the acknowledged position. */
  lemma RecoverAppended(d: Disk, i: Item, meta: MetaFile)
    requires Modern(Disk(meta, []))
    ensures var r, s := Recover("", Disk(meta, d.log + [Record(i)])).items, i.env.seqNo;
            (s in r <==> AckOf(0, meta) < s) && (s in r ==> r[s] == i)
  {
    var d' := Disk(meta, d.log + [Record(i)]);
    AppendedIsLast(d, i);
    AbsorbItems(Stock(MetaNext(d'), map[]), AckOf(0, meta), Records(d'.log), i.env.seqNo);
  }

  /** `Enqueue` reports success either way, but the item survives a restart only while the acknowledged
      position is below the number it was given; the code never compares the two. What survives is the message
      as handed in. */
  lemma EnqueueDurableIff(m: Mem, d: Disk, env: Envelope, key: string, now: int)
    requires WellFormed(m) && Synced(m, d) && Modern(d) && Enabled(m, Enqueue(env, key, now, None))
    ensures var op, s := Enqueue(env, key, now, None), m.nextSeq;
            var m', r := MemAfter(m, op), Recover("", DiskAfter(m, d, op, 2));
            && s in m'.items && IsNew(m'.items[s], m, env, key, now)
            && (s in r.items <==> m.ackUpto < s)
            && (s in r.items ==> r.items[s] == m'.items[s])
  {
    var op := Enqueue(env, key, now, None);
    RecoverAppended(d, Logged(m, op), MetaOf(MemAfter(m, op)));
    NewIsNew(m, env, key, now);
  }

  // ---------------------------------------------------------------- which stream a restart continues

  /** Every pending envelope is of the queue's own stream. */
  ghost predicate OneStream(m: Mem) { forall s :: s in m.items ==> m.items[s].env.streamId == m.streamId }

  lemma OpKeepsStream(m: Mem, op: Op)
    requires OneStream(m) && Enabled(m, op)
    ensures OneStream(MemAfter(m, op)) && MemAfter(m, op).streamId == m.streamId
  {
    match op
    case Enqueue(_, _, _, _) =>
    case Acknowledge(_) =>
    case ResetPending =>
    case MarkAttempt(_, _, _, _) =>
  }

  /** The stream a process continues that drew an id of its own: the one a meta file names, without the white space
      around it, or its own if there is none or the name is blank. */
  function Resumed(drawn: string, written: bool, named: string): string {
    if written && !Blank(named) then TrimSpace(named) else drawn
  }

  /** What a process with a new id of its own takes over from a disk that holds the items of `m`. */
  lemma StreamOfItems(d: Disk, m: Mem, drawn: string)
    requires Modern(d) && OneStream(m) && forall s :: Found(d, s) == Held(m.items, s)
    requires d.meta.Written? ==> d.meta.meta.streamId == m.streamId
    ensures OneStream(Recover(drawn, d)) <==>
            m.items.Keys == {} || Resumed(drawn, d.meta.Written?, m.streamId) == m.streamId
  {
    var r := Recover(drawn, d);
    RecoverExactly(d);
    assert r.items == Recover("", d).items && r.streamId == StreamOf(drawn, d.meta);
    forall s: nat ensures Held(r.items, s) == Held(m.items, s) {
      assert Found(d, s) == Held(m.items, s) && Held(r.items, s) == Found(d, s);
    }
    SameKeys(r.items, m.items);
    forall s | s in r.items ensures r.items[s].env.streamId == m.streamId {
      assert Held(r.items, s) == Held(m.items, s);
    }
  }

  /** The process after a crash continues the stream its pending envelopes carry, if and only if nothing is pending,
      or a meta file has been written that names it without white space around it, or the id it draws happens to be
      the old one. With such names the one bad crash is in the first enqueue of all, between its two writes. */
  lemma StreamKeptIff(m: Mem, d: Disk, op: Op, k: nat, drawn: string)
    requires WellFormed(m) && Describes(d, m) && Enabled(m, op) && OneStream(m)
    requires op.Enqueue? ==> m.ackUpto < m.nextSeq
    requires k <= |Writes(m, d, op)|
    requires d.meta.Written? ==> d.meta.meta.streamId == m.streamId
    ensures var dk := DiskAfter(m, d, op, k);
            OneStream(Recover(drawn, dk)) <==>
            || (if k == 0 then m else MemAfter(m, op)).items.Keys == {}
            || (if dk.meta.Written? && !Blank(m.streamId) then Trimmed(m.streamId) else drawn == m.streamId)
  {
    var dk := DiskAfter(m, d, op, k);
    OpKeepsStream(m, op);
    WritesDescribe(m, d, op, k);
    assert dk.meta == d.meta || dk.meta == MetaOf(MemAfter(m, op));
    StreamOfItems(dk, if k == 0 then m else MemAfter(m, op), drawn);
    TrimmedIff(m.streamId);
  }

  // ---------------------------------------------------------------- meta files of the old format

  /** What an operation does to the log, whichever of its writes it gets to. */
  lemma LogAfter(m: Mem, d: Disk, op: Op, k: nat)
    requires Enabled(m, op) && k <= |Writes(m, d, op)|
    ensures var log := DiskAfter(m, d, op, k).log;
            || log == d.log
            || (op.Enqueue? && log == d.log + [Record(Logged(m, op))])
            || (!op.Enqueue? && log == LogOf(SortedItems(Unacked(MemAfter(m, op)))))
  {
  }

  /** Items embedded in a meta file of the old format. */
  function Legacy(d: Disk): seq<Item> { if d.meta.Written? then d.meta.meta.items else [] }

  lemma RecoverKeys(streamId: string, d: Disk, s: nat)
    requires !d.meta.Corrupt?
    ensures var r := Recover(streamId, d);
            && (s in r.items <==>
                  s > AckOf(0, d.meta) && (LastOf(Records(d.log), s).Some? || LastOf(Legacy(d), s).Some?))
            && (s in r.items ==> s < r.nextSeq)
            && (s in r.items ==>
                  r.items[s] == if LastOf(Records(d.log), s).Some? then LastOf(Records(d.log), s).value
                                else LastOf(Legacy(d), s).value)
  {
    var ack, base := AckOf(0, d.meta), BaseStock(Stock(1, map[]), d.meta);
    AbsorbItems(base, ack, Records(d.log), s);
    AbsorbNext(base, ack, Records(d.log));
    if Legacy(d) != [] {
      AbsorbItems(Stock(MetaNext(d), map[]), ack, Legacy(d), s);
      AbsorbNext(Stock(MetaNext(d), map[]), ack, Legacy(d));
    }
  }

  lemma RecoverIsWellFormed(streamId: string, d: Disk)
    requires !d.meta.Corrupt?
    ensures WellFormed(Recover(streamId, d))
  {
    var ack, base := AckOf(0, d.meta), BaseStock(Stock(1, map[]), d.meta);
    var r := Recover(streamId, d);
    AbsorbNext(base, ack, Records(d.log));
    if Legacy(d) != [] { AbsorbNext(Stock(MetaNext(d), map[]), ack, Legacy(d)); }
    forall s | s in r.items ensures r.items[s].env.seqNo == s && r.ackUpto < s < r.nextSeq {
      RecoverKeys(streamId, d, s);
      AbsorbItems(base, ack, Records(d.log), s);
      if Legacy(d) != [] { AbsorbItems(Stock(MetaNext(d), map[]), ack, Legacy(d), s); }
    }
  }

  /** The log has a record of `s`. */
  predicate InLog(d: Disk, s: nat) { LastOf(Records(d.log), s).Some? }

  /** The meta file after an operation that writes anything, and what a restart then finds. */
  lemma MetaWritten(m: Mem, d: Disk, op: Op)
    requires Enabled(m, op) && Writes(m, d, op) != []
    ensures DiskAfter(m, d, op, |Writes(m, d, op)|).meta == MetaOf(MemAfter(m, op))
  {
  }

  lemma FoundByLog(streamId: string, d: Disk, s: nat)
    requires Modern(d)
    ensures s in Recover(streamId, d).items <==> s > AckOf(0, d.meta) && InLog(d, s)
  {
    RecoverKeys(streamId, d, s);
  }

  /** A compaction puts every item into the log, wherever it had been. */
  lemma CompactedInLog(m: Mem, d: Disk, op: Op, s: nat)
    requires WellFormed(m) && Enabled(m, op) && Compacts(m, op)
    ensures InLog(DiskAfter(m, d, op, 2), s) <==> s in MemAfter(m, op).items
  {
    var m' := MemAfter(m, op);
    OpKeepsWellFormed(m, op);
    assert Unacked(m') == m'.items;
    RecordsOfLog(SortedItems(m'.items));
    SortedItemsRead(m'.items, s);
  }

  /** An operation that does not compact adds at most the record it logs. */
  lemma PlainInLog(m: Mem, d: Disk, op: Op, s: nat)
    requires Enabled(m, op) && Writes(m, d, op) != [] && !Compacts(m, op)
    ensures InLog(DiskAfter(m, d, op, |Writes(m, d, op)|), s) <==>
            InLog(d, s) || (op.Enqueue? && s == Logged(m, op).env.seqNo)
  {
    if op.Enqueue? {
      var log := d.log + [Record(Logged(m, op))];
      assert log[..|log| - 1] == d.log;
      var src := Records(log);
      assert src[..|src| - 1] == Records(d.log);
    }
  }

  /** Which numbers an operation leaves in memory: those it found, without what it drops and with what it adds. */
  lemma PlainKeys(m: Mem, op: Op, s: nat)
    requires WellFormed(m) && Enabled(m, op) && !Compacts(m, op) && (op.Enqueue? ==> m.ackUpto < m.nextSeq)
    ensures s in MemAfter(m, op).items <==>
            (s in m.items && s > MemAfter(m, op).ackUpto) || (op.Enqueue? && s == Logged(m, op).env.seqNo)
  {
  }

  lemma KeptByPlain(streamId: string, d: Disk, op: Op, s: nat)
    requires !d.meta.Corrupt? && Enabled(Recover(streamId, d), op) && !Compacts(Recover(streamId, d), op)
    requires op.Enqueue? ==> Recover(streamId, d).ackUpto < Recover(streamId, d).nextSeq
    requires Writes(Recover(streamId, d), d, op) != []
    ensures var m := Recover(streamId, d);
            var dn := DiskAfter(m, d, op, |Writes(m, d, op)|);
            s in Recover(streamId, dn).items <==>
            s in MemAfter(m, op).items && (InLog(d, s) || (op.Enqueue? && s == Logged(m, op).env.seqNo))
  {
    var m := Recover(streamId, d);
    var dn := DiskAfter(m, d, op, |Writes(m, d, op)|);
    RecoverIsWellFormed(streamId, d);
    OpKeepsWellFormed(m, op);
    OpMovesForward(m, op);
    MetaWritten(m, d, op);
    FoundByLog(streamId, dn, s);
    PlainInLog(m, d, op, s);
    PlainKeys(m, op, s);
    RecoverKeys(streamId, d, s);
  }

  /** Items embedded in a meta file of the old format are read at the start and not written back. The first
      operation keeps everything pending across the next restart if and only if it leaves the meta file alone, or
      compacts, or every item it leaves pending has a record in the log, its own included. */
  lemma LegacyItemsKeptIff(streamId: string, d: Disk, op: Op)
    requires !d.meta.Corrupt? && Enabled(Recover(streamId, d), op)
    requires op.Enqueue? ==> Recover(streamId, d).ackUpto < Recover(streamId, d).nextSeq
    ensures var m := Recover(streamId, d);
            var m', n := MemAfter(m, op), |Writes(m, d, op)|;
            Recover(streamId, DiskAfter(m, d, op, n)).items.Keys == m'.items.Keys <==>
            || n == 0
            || Compacts(m, op)
            || forall s :: s in m'.items ==> InLog(d, s) || (op.Enqueue? && s == Logged(m, op).env.seqNo)
  {
    var m := Recover(streamId, d);
    var m', n := MemAfter(m, op), |Writes(m, d, op)|;
    RecoverIsWellFormed(streamId, d);
    if n == 0 {
      assert m'.items.Keys == m.items.Keys;
    } else if Compacts(m, op) {
      CompactionKeeps(streamId, d, op);
    } else {
      PlainKeeps(streamId, d, op);
    }
  }

  lemma CompactionKeeps(streamId: string, d: Disk, op: Op)
    requires !d.meta.Corrupt? && Enabled(Recover(streamId, d), op) && Compacts(Recover(streamId, d), op)
    ensures var m := Recover(streamId, d);
            Recover(streamId, DiskAfter(m, d, op, 2)).items.Keys == MemAfter(m, op).items.Keys
  {
    var m := Recover(streamId, d);
    var m', dn := MemAfter(m, op), DiskAfter(m, d, op, 2);
    RecoverIsWellFormed(streamId, d);
    OpKeepsWellFormed(m, op);
    forall s: nat ensures s in Recover(streamId, dn).items.Keys <==> s in m'.items.Keys {
      FoundByLog(streamId, dn, s);
      CompactedInLog(m, d, op, s);
    }
  }

  lemma PlainKeeps(streamId: string, d: Disk, op: Op)
    requires !d.meta.Corrupt? && Enabled(Recover(streamId, d), op) && !Compacts(Recover(streamId, d), op)
    requires op.Enqueue? ==> Recover(streamId, d).ackUpto < Recover(streamId, d).nextSeq
    requires Writes(Recover(streamId, d), d, op) != []
    ensures var m := Recover(streamId, d);
            var m', n := MemAfter(m, op), |Writes(m, d, op)|;
            Recover(streamId, DiskAfter(m, d, op, n)).items.Keys == m'.items.Keys <==>
            forall s :: s in m'.items ==> InLog(d, s) || (op.Enqueue? && s == Logged(m, op).env.seqNo)
  {
    var m := Recover(streamId, d);
    var m', kept := MemAfter(m, op), Recover(streamId, DiskAfter(m, d, op, |Writes(m, d, op)|)).items.Keys;
    forall s: nat
      ensures s in kept <==> s in m'.items.Keys && (InLog(d, s) || (op.Enqueue? && s == Logged(m, op).env.seqNo))
    {
      KeptByPlain(streamId, d, op, s);
    }
    if kept == m'.items.Keys { assert forall s :: s in m'.items ==> s in kept; }
  }
}
