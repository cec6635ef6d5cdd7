/** The queue as the program has it: an object updated in place beside two files on disk. */
module OutboxQueue {
  import opened Text
  import opened Outbox

  /** The meta file and the append log. `history` lists the disk after every write so far: a crash leaves
      one of these behind. */
  class Files {
    var meta: MetaFile
    var log: seq<Line>
    ghost var history: seq<Disk>

    constructor (meta: MetaFile, log: seq<Line>)
      ensures State() == Disk(meta, log) && history == []
    {
      this.meta, this.log := meta, log;
      history := [];
    }

    ghost function State(): Disk
      reads this
    {
      Disk(meta, log)
    }

    method WriteMeta(m: Mem)
      modifies this
      ensures State() == old(State()).(meta := MetaOf(m))
      ensures history == old(history) + [State()]
    {
      meta := MetaOf(m);
      history := history + [State()];
    }

    method AppendRecord(i: Item)
      modifies this
      ensures State() == old(State()).(log := old(log) + [Record(i)])
      ensures history == old(history) + [State()]
    {
      log := log + [Record(i)];
      history := history + [State()];
    }

    /** The finished temporary file takes the place of the log. */
    method RenameOverLog(items: seq<Item>)
      modifies this
      ensures State() == old(State()).(log := LogOf(items))
      ensures history == old(history) + [State()]
    {
      log := LogOf(items);
      history := history + [State()];
    }
  }

  lemma SignalsAreItems(items: map<nat, Item>)
    ensures SignalsOf(items) <= items.Keys
  {
    forall s | s in SignalsOf(items) ensures s in items { SignalsOfAre(items, s); }
  }

  /** One turn of the deletion loop: `s` goes if it is among the signals. */
  lemma OneLess(items: map<nat, Item>, signals: set<nat>, todo: set<nat>, s: nat)
    requires s in todo
    ensures var gone, gone' := signals - todo, signals - (todo - {s});
            && gone' == gone + (if s in signals then {s} else {})
            && |gone'| == |gone| + (if s in signals then 1 else 0)
            && items - gone' == (if s in signals then items - gone - {s} else items - gone)
  {
    var gone, gone' := signals - todo, signals - (todo - {s});
    assert gone' == gone + if s in signals then {s} else {};
  }

  /** A reset in terms of the items it drops. */
  lemma ResetIs(m: Mem, d: Disk)
    ensures SignalsOf(m.items) == {} ==>
              MemAfter(m, ResetPending) == m == AfterReset(m) && Writes(m, d, ResetPending) == []
    ensures SignalsOf(m.items) != {} ==>
              var m' := AfterReset(m).(acksSince := 0);
              MemAfter(m, ResetPending) == m' && Writes(m, d, ResetPending) == CompactWrites(m', d)
    ensures |SignalsOf(m.items)| != 0 <==> SignalsOf(m.items) != {}
  {
  }

  class Queue {
    const files: Files
    var streamId: string
    var nextSeq: nat
    var ackUpto: nat
    var items: map<nat, Item>
    var acksSince: nat

    constructor (files: Files, streamId: string)
      ensures this.files == files && Memory() == Fresh(streamId)
    {
      this.files, this.streamId := files, streamId;
      nextSeq, ackUpto, items, acksSince := 1, 0, map[], 0;
    }

    function Memory(): Mem
      reads this
    {
      Mem(streamId, nextSeq, ackUpto, items, acksSince)
    }

    /** `Load`: the meta file first, then every line of the log in order. */
    method Load() returns (ok: bool)
      modifies this
      ensures ok == !files.meta.Corrupt? && (!ok ==> Memory() == old(Memory()))
      ensures Memory() == LoadInto(old(Memory()), files.State())
    {
      if files.meta.Corrupt? { return false; }
      if files.meta.Written? { LoadMeta(files.meta.meta); }
      ghost var base := Stock(nextSeq, items);
      var log := files.log;
      for k := 0 to |log|
        invariant Stock(nextSeq, items) == Absorb(base, ackUpto, Records(log[..k]))
        invariant streamId == StreamOf(old(streamId), files.meta) && acksSince == old(acksSince)
        invariant ackUpto == AckOf(old(ackUpto), files.meta)
      {
        assert log[..k + 1][..k] == log[..k];
        if log[k].Record? {
          ghost var src := Records(log[..k + 1]);
          assert src[..|src| - 1] == Records(log[..k]);
          Take(log[k].item);
        }
      }
      assert log[..|log|] == log;
      return true;
    }

    method LoadMeta(meta: Meta)
      modifies this
      ensures streamId == StreamOf(old(streamId), Written(meta)) && ackUpto == meta.ackUpto
      ensures Stock(nextSeq, items) == BaseStock(Stock(old(nextSeq), old(items)), Written(meta))
      ensures acksSince == old(acksSince)
    {
      if !Blank(meta.streamId) { streamId := TrimSpace(meta.streamId); }
      if meta.nextSeq > 0 { nextSeq := meta.nextSeq; }
      ackUpto := meta.ackUpto;
      if |meta.items| > 0 {
        items := map[];
        ghost var base := Stock(nextSeq, map[]);
        for k := 0 to |meta.items|
          invariant Stock(nextSeq, items) == Absorb(base, ackUpto, meta.items[..k])
          invariant ackUpto == meta.ackUpto && acksSince == old(acksSince)
          invariant streamId == StreamOf(old(streamId), Written(meta))
        {
          assert meta.items[..k + 1][..k] == meta.items[..k];
          Take(meta.items[k]);
        }
        assert meta.items[..|meta.items|] == meta.items;
      }
    }

    /** One loaded item; acknowledged ones are skipped. */
    method Take(i: Item)
      modifies this`nextSeq, this`items
      ensures Stock(nextSeq, items) == Accept(Stock(old(nextSeq), old(items)), ackUpto, i)
    {
      if i.env.seqNo <= ackUpto { return; }
      items := items[i.env.seqNo := i];
      if i.env.seqNo >= nextSeq { nextSeq := i.env.seqNo + 1; }
    }

    /** `EnqueueCoalesced`: rewrite an unsent item with the same key if the map yields one, else add a new
        item; either way append it to the log and then write the meta file. `op` names what was done. */
    method EnqueueCoalesced(env: Envelope, key: string, now: int) returns (item: Item, ghost op: Op)
      modifies this, files
      ensures op.Enqueue? && op.env == env && op.key == key && op.now == now && Enabled(old(Memory()), op)
      ensures Memory() == MemAfter(old(Memory()), op) && item == Logged(old(Memory()), op)
      ensures files.history == old(files.history) + Writes(old(Memory()), old(files.State()), op)
      ensures files.State() == files.history[|files.history| - 1]
    {
      var found := FindUnsent(TrimSpace(key));
      op := Op.Enqueue(env, key, now, found);
      match found {
        case Some(s) =>
          item := Rewritten(items[s], env);
          items := items[s := item];
        case None =>
          item := NewItem(Memory(), env, key, now);
          nextSeq := nextSeq + 1;
          items := items[item.env.seqNo := item];
      }
      files.AppendRecord(item);
      files.WriteMeta(Memory());
    }

    /** `Enqueue` is the coalescing form with an empty key, which never coalesces. */
    method Enqueue(env: Envelope, now: int) returns (item: Item)
      modifies this, files
      ensures var op := Op.Enqueue(env, "", now, None);
              && Enabled(old(Memory()), op)
              && Memory() == MemAfter(old(Memory()), op) && item == Logged(old(Memory()), op)
              && files.history == old(files.history) + Writes(old(Memory()), old(files.State()), op)
              && files.State() == files.history[|files.history| - 1]
    {
      ghost var op;
      item, op := EnqueueCoalesced(env, "", now);
    }

    /** The scan over the item map for something to coalesce with. */
    method FindUnsent(key: string) returns (found: Option<nat>)
      ensures found.Some? ==> found.value in items && Coalescable(items[found.value], key)
      ensures found.None? ==> forall s :: s in items ==> !Coalescable(items[s], key)
    {
      found := None;
      if key == "" { return; }
      var todo := items.Keys;
      while todo != {}
        invariant todo <= items.Keys
        invariant forall s :: s in items && s !in todo ==> !Coalescable(items[s], key)
        decreases |todo|
      {
        var s :| s in todo;
        if items[s].coalesceKey == key && items[s].lastAttempt == 0 { return Some(s); }
        todo := todo - {s};
      }
    }

    /** `Acknowledge`: cumulative, never backwards. */
    method Acknowledge(upto: nat)
      modifies this, files
      ensures Memory() == MemAfter(old(Memory()), Op.Acknowledge(upto))
      ensures files.history == old(files.history) + Writes(old(Memory()), old(files.State()), Op.Acknowledge(upto))
      ensures files.State() ==
              DiskAfter(old(Memory()), old(files.State()), Op.Acknowledge(upto),
                        |Writes(old(Memory()), old(files.State()), Op.Acknowledge(upto))|)
    {
      if upto <= ackUpto { return; }
      ackUpto := upto;
      DropUpto(upto);
      acksSince := acksSince + 1;
      assert Memory() == AfterAck(old(Memory()), upto);
      if |items| == 0 || acksSince >= QUEUE_COMPACT_EVERY {
        CompactLocked();
      } else {
        files.WriteMeta(Memory());
      }
    }

    /** The deletion loop of `Acknowledge`. */
    method DropUpto(upto: nat)
      modifies `items
      ensures items == old(items) - (set s | s in old(items) && s <= upto)
    {
      ghost var before := items;
      ghost var gone: set<nat> := {};
      var todo := items.Keys;
      while todo != {}
        invariant todo <= before.Keys && gone == set s | s in before && s !in todo && s <= upto
        invariant items == before - gone
        decreases |todo|
      {
        var s :| s in todo;
        if s <= upto {
          items := items - {s};
          gone := gone + {s};
        }
        todo := todo - {s};
      }
      assert gone == set s | s in before && s <= upto;
    }

    /** `compactLocked`: the surviving items, sorted, replace the log; then the meta file is written. */
    method CompactLocked()
      modifies this`acksSince, files
      ensures acksSince == 0
      ensures files.history == old(files.history) + CompactWrites(Memory(), old(files.State()))
      ensures files.State() == files.history[|files.history| - 1]
    {
      var keep := Survivors();
      files.RenameOverLog(SortedItems(keep));
      acksSince := 0;
      files.WriteMeta(Memory());
    }

    /** The scan for what is not acknowledged. */
    method Survivors() returns (keep: map<nat, Item>)
      ensures keep == Unacked(Memory())
    {
      var held, ack := items, ackUpto;
      keep := map[];
      var todo := held.Keys;
      while todo != {}
        invariant todo <= held.Keys
        invariant forall s :: s in keep <==> s in held && s !in todo && held[s].env.seqNo > ack
        invariant forall s :: s in keep ==> keep[s] == held[s]
        decreases |todo|
      {
        var s :| s in todo;
        todo := todo - {s};
        if held[s].env.seqNo > ack { keep := keep[s := held[s]]; }
      }
    }

    /** `DueItems`. */
    method DueItems(limit: int, now: int) returns (batch: seq<Item>)
      ensures batch == Due(Memory(), now, limit)
    {
      var held, ack := items, ackUpto;
      var due: set<nat> := {};
      var todo := held.Keys;
      while todo != {}
        invariant todo <= held.Keys
        invariant due == set s | s in held && s !in todo && held[s].env.seqNo > ack && held[s].nextAttempt <= now
        decreases |todo|
      {
        var s :| s in todo;
        todo := todo - {s};
        if held[s].env.seqNo > ack && held[s].nextAttempt <= now { due := due + {s}; }
      }
      assert due == DueSeqs(Memory(), now);
      var ks := SortedKeys(due);
      if limit > 0 && |ks| > limit { ks := ks[..limit]; }
      assert ks == DueKeys(Memory(), now, limit);
      batch := ItemsAt(held, ks);
    }

    /** `MarkAttempt`; an item acknowledged in the meantime is left alone. */
    method MarkAttempt(s: nat, at: int, resendFrom: int, failure: Option<string>)
      modifies this, files
      ensures var op := Op.MarkAttempt(s, at, resendFrom, failure);
              && Memory() == MemAfter(old(Memory()), op)
              && files.history == old(files.history) + Writes(old(Memory()), old(files.State()), op)
              && files.State() == DiskAfter(old(Memory()), old(files.State()), op,
                                            |Writes(old(Memory()), old(files.State()), op)|)
      ensures s !in old(items) ==> Memory() == old(Memory())
    {
      if s !in items { return; }
      var i := items[s].(lastAttempt := at, retryCount := items[s].retryCount + 1);
      if failure.Some? {
        i := i.(nextAttempt := resendFrom + RetryDelay(i.retryCount), lastError := failure.value);
        items := items[s := i];
        files.WriteMeta(Memory());
      } else {
        i := i.(lastError := "", nextAttempt := resendFrom + RESEND_DELAY_MS);
        items := items[s := i];
      }
    }

    /** `ResetPendingForRecovery`: drops signals, and touches the disk only if there were any. */
    method ResetPendingForRecovery() returns (dropped: nat)
      modifies this, files
      ensures Memory() == MemAfter(old(Memory()), ResetPending)
      ensures files.history == old(files.history) + Writes(old(Memory()), old(files.State()), ResetPending)
      ensures files.State() == DiskAfter(old(Memory()), old(files.State()), ResetPending,
                                         |Writes(old(Memory()), old(files.State()), ResetPending)|)
      ensures dropped == |SignalsOf(old(items))|
    {
      ghost var m, d := Memory(), files.State();
      dropped := DropSignals();
      assert Memory() == AfterReset(m);
      ResetIs(m, d);
      if dropped != 0 {
        CompactLocked();
        assert Memory() == AfterReset(m).(acksSince := 0);
      }
    }

    /** The deletion loop of `ResetPendingForRecovery`. */
    method DropSignals() returns (dropped: nat)
      modifies `items
      ensures items == old(items) - SignalsOf(old(items))
      ensures dropped == |SignalsOf(old(items))|
    {
      ghost var before, signals := items, SignalsOf(items);
      SignalsAreItems(before);
      dropped := 0;
      var todo := items.Keys;
      while todo != {}
        invariant todo <= before.Keys
        invariant items == before - (signals - todo) && dropped == |signals - todo|
        decreases |todo|
      {
        var s :| s in todo;
        SignalsOfAre(before, s);
        assert s in items && items[s] == before[s];
        OneLess(before, signals, todo, s);
        todo := todo - {s};
        if IsSignal(items[s].env) {
          items := items - {s};
          dropped := dropped + 1;
        }
      }
      assert signals - {} == signals;
    }

    method PendingCount() returns (n: nat)
      ensures n == |items|
    {
      n := |items|;
    }

    method HasPendingSnapshot() returns (found: bool)
      ensures found <==> exists s :: s in items && items[s].env.entity == "runtime" && items[s].env.action == "snapshot"
    {
      var todo := items.Keys;
      while todo != {}
        invariant todo <= items.Keys
        invariant forall s :: s in items && s !in todo ==> !IsSnapshot(items[s].env)
        decreases |todo|
      {
        var s :| s in todo;
        todo := todo - {s};
        if IsSnapshot(items[s].env) { return true; }
      }
      return false;
    }
  }
}
