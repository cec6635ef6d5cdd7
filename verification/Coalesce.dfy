/** Coalescing enqueues: within one process life an unsent item per key, its last payload kept; a restart
    forgets what was sent. */
module Coalesce {
  import opened Text
  import opened Outbox
  import opened CrashSafety

  predicate Open(m: Mem, s: nat, key: string) { s in m.items && Coalescable(m.items[s], key) }

  ghost predicate OneUnsentPerKey(m: Mem) { forall key, s, t :: Open(m, s, key) && Open(m, t, key) ==> s == t }

  /** Every operation keeps at most one never-sent item per key, whichever item the scan happens to find. */
  lemma OneUnsentKept(m: Mem, op: Op)
    requires WellFormed(m) && OneUnsentPerKey(m) && Enabled(m, op) && (op.MarkAttempt? ==> op.at != 0)
    ensures OneUnsentPerKey(MemAfter(m, op))
  {
    var m' := MemAfter(m, op);
    forall key, s, t | Open(m', s, key) && Open(m', t, key) ensures s == t {
      OpenBefore(m, op, s, key);
      OpenBefore(m, op, t, key);
    }
  }

  /** What is open after an operation was open before, or is the item just added, under a key nothing else had. */
  lemma OpenBefore(m: Mem, op: Op, s: nat, key: string)
    requires WellFormed(m) && Enabled(m, op) && (op.MarkAttempt? ==> op.at != 0) && Open(MemAfter(m, op), s, key)
    ensures Open(m, s, key) || (s == m.nextSeq && op.Enqueue? && forall t :: t in m.items ==> !Open(m, t, key))
  {
    match op
    case Enqueue(_, _, _, _) =>
    case Acknowledge(_) =>
    case ResetPending =>
    case MarkAttempt(_, _, _, _) =>
  }

  /** An envelope already sent in this life is never rewritten. */
  lemma SentIsFrozen(m: Mem, op: Op, s: nat)
    requires WellFormed(m) && Enabled(m, op)
    requires s in m.items && m.items[s].lastAttempt != 0 && s in MemAfter(m, op).items
    ensures MemAfter(m, op).items[s].env == m.items[s].env
  {
    match op
    case Enqueue(_, _, _, _) =>
    case Acknowledge(_) =>
    case ResetPending =>
    case MarkAttempt(_, _, _, _) =>
  }

  /** The message of `env` in the place of the one before it. */
  ghost predicate IsRewrite(now: Durable, was: Item, env: Envelope) {
    && Carries(now.env, env.(entity := was.env.entity, action := was.env.action))
    && now.env.seqNo == was.env.seqNo && now.env.streamId == was.env.streamId
    && now.createdAt == was.createdAt && now.coalesceKey == was.coalesceKey
  }

  /** The last payload wins: from the first write of a coalescing enqueue on, a restart finds the new message
      under the old number, kind, creation time and place in the stream, and nothing else has changed. */
  lemma LastPayloadWins(m: Mem, d: Disk, op: Op, k: nat)
    requires WellFormed(m) && Synced(m, d) && Modern(d) && Enabled(m, op)
    requires op.Enqueue? && op.target.Some? && m.ackUpto < m.nextSeq && 1 <= k <= 2
    ensures var s, r := op.target.value, Recover("", DiskAfter(m, d, op, k)).items;
            && Held(r, s).Some? && s in m.items && IsRewrite(Held(r, s).value, m.items[s], op.env)
            && m.items[s].coalesceKey == TrimSpace(op.key)
            && forall t :: t != s ==> Held(r, t) == Held(m.items, t)
  {
    CrashAtomic(m, d, op, k);
    var r := Recover("", DiskAfter(m, d, op, k)).items;
    assert Held(r, op.target.value) == Held(MemAfter(m, op).items, op.target.value);
  }

  /** After a restart a number is open to rewriting if and only if its last record on disk says it was never
      sent, under the same key. */
  lemma ReopensIff(d: Disk, s: nat, env: Envelope, key: string, now: int)
    requires Modern(d) && s > AckOf(0, d.meta) && LastOf(Records(d.log), s).Some?
    ensures var i := LastOf(Records(d.log), s).value;
            Enabled(Recover("", d), Enqueue(env, key, now, Some(s))) <==>
            TrimSpace(key) != "" && i.coalesceKey == TrimSpace(key) && i.lastAttempt == 0
  {
    AbsorbItems(Stock(MetaNext(d), map[]), AckOf(0, d.meta), Records(d.log), s);
  }

  /** A successful send is not durable: enqueue an item under a key, send it, crash. The living process would
      never rewrite it, but the next one may, under the number the server may already have. */
  lemma RestartForgetsSends(m: Mem, d: Disk, first: Envelope, key: string, now: int, at: int, from: int,
                            second: Envelope, later: int)
    requires WellFormed(m) && Modern(d) && m.ackUpto < m.nextSeq && TrimSpace(key) != "" && at != 0
    requires Enabled(m, Enqueue(first, key, now, None))
    ensures var s, enq := m.nextSeq, Enqueue(first, key, now, None);
            var sent, again := MarkAttempt(s, at, from, None), Enqueue(second, key, later, Some(s));
            var m1, d1 := MemAfter(m, enq), DiskAfter(m, d, enq, 2);
            && Writes(m1, d1, sent) == []
            && !Enabled(MemAfter(m1, sent), again)
            && Enabled(Recover("", d1), again)
            && MemAfter(Recover("", d1), again).items[s].env.payload == second.payload
            && MemAfter(Recover("", d1), again).items[s].env.seqNo == s
  {
    var s, enq := m.nextSeq, Enqueue(first, key, now, None);
    var d1 := DiskAfter(m, d, enq, 2);
    AppendedIsLast(d, NewItem(m, first, key, now));
    ReopensIff(d1, s, second, key, later);
    RecoverItem(d1, s);
  }
}
