/** The durable send queue as values: what an operation does to memory, what it writes, and what a
    restart reads back after a crash between any two of those writes. */
module Outbox {
  import opened Text

  const QUEUE_COMPACT_EVERY := 32
  const RESEND_DELAY_MS := 90_000
  const SNAPSHOT_BACKLOG_LIMIT := 24
  // Spellings of the wire constants; the protocol package is not part of this model.
  const CLASS_FACT := "fact"
  const CLASS_SIGNAL := "signal"
  const ENTITY_RUNTIME := "runtime"
  const ACTION_SNAPSHOT := "snapshot"

  datatype Envelope = Envelope(streamId: string, seqNo: nat, entity: string, action: string, cls: string,
                               messageId: string, sentAt: int, payload: string)

  datatype Item = Item(env: Envelope, retryCount: nat, lastAttempt: int, nextAttempt: int, createdAt: int,
                       lastError: string, coalesceKey: string)

  /** The part of a queued item that must survive a restart; the retry bookkeeping need not. */
  datatype Durable = Durable(env: Envelope, createdAt: int, coalesceKey: string)

  datatype Meta = Meta(streamId: string, nextSeq: nat, ackUpto: nat, items: seq<Item>)

  datatype MetaFile = Absent | Corrupt | Written(meta: Meta)

  /** One line of the append log; blank and undecodable lines are skipped on load. */
  datatype Line = Junk | Record(item: Item)

  /** A log file that does not exist reads like an empty one. */
  datatype Disk = Disk(meta: MetaFile, log: seq<Line>)

  /** The fields of the `Queue` struct. */
  datatype Mem = Mem(streamId: string, nextSeq: nat, ackUpto: nat, items: map<nat, Item>, acksSince: nat)

  predicate IsSignal(env: Envelope) { EqualFold(TrimSpace(env.cls), CLASS_SIGNAL) }

  predicate IsSnapshot(env: Envelope) { env.entity == ENTITY_RUNTIME && env.action == ACTION_SNAPSHOT }

  predicate NoSnapshot(items: map<nat, Item>) { forall s :: s in items ==> !IsSnapshot(items[s].env) }

  /** `snapshotWouldPileUp` lets a snapshot through. */
  predicate GateOpen(items: map<nat, Item>) { |items| <= SNAPSHOT_BACKLOG_LIMIT && NoSnapshot(items) }

  function Core(i: Item): Durable { Durable(i.env, i.createdAt, i.coalesceKey) }

  /** What memory holds under `s`. */
  function Held(items: map<nat, Item>, s: nat): Option<Durable> {
    if s in items then Some(Core(items[s])) else None
  }

  /** The same pending facts, retry bookkeeping aside. */
  ghost predicate SamePending(a: map<nat, Item>, b: map<nat, Item>) { forall s :: Held(a, s) == Held(b, s) }

  // ---------------------------------------------------------------- loading

  /** What the two load passes build up: the sequence counter and the item map. */
  datatype Stock = Stock(nextSeq: nat, items: map<nat, Item>)

  function Accept(st: Stock, ack: nat, i: Item): Stock {
    var s := i.env.seqNo;
    if s <= ack then st
    else Stock(if s >= st.nextSeq then s + 1 else st.nextSeq, st.items[s := i])
  }

  function Absorb(st: Stock, ack: nat, src: seq<Item>): Stock {
    if src == [] then st else Accept(Absorb(st, ack, src[..|src| - 1]), ack, src[|src| - 1])
  }

  function Records(log: seq<Line>): seq<Item> {
    if log == [] then []
    else
      var r := Records(log[..|log| - 1]);
      if log[|log| - 1].Record? then r + [log[|log| - 1].item] else r
  }

  function StreamOf(streamId: string, f: MetaFile): string {
    if f.Written? && !Blank(f.meta.streamId) then TrimSpace(f.meta.streamId) else streamId
  }

  function BaseStock(st: Stock, f: MetaFile): Stock {
    if !f.Written? then st
    else
      var next := if f.meta.nextSeq > 0 then f.meta.nextSeq else st.nextSeq;
      if f.meta.items == [] then Stock(next, st.items)
      else Absorb(Stock(next, map[]), f.meta.ackUpto, f.meta.items)
  }

  function AckOf(ack: nat, f: MetaFile): nat { if f.Written? then f.meta.ackUpto else ack }

  /** `Load` on a queue in state `m`. An unreadable meta file stops it before anything changed. */
  function LoadInto(m: Mem, d: Disk): Mem {
    if d.meta.Corrupt? then m
    else
      var ack := AckOf(m.ackUpto, d.meta);
      var st := Absorb(BaseStock(Stock(m.nextSeq, m.items), d.meta), ack, Records(d.log));
      Mem(StreamOf(m.streamId, d.meta), st.nextSeq, ack, st.items, m.acksSince)
  }

  /** `NewQueue`. */
  function Fresh(streamId: string): Mem { Mem(streamId, 1, 0, map[], 0) }

  /** What a restarted agent finds: `NewQueue` followed by `Load`. */
  function Recover(streamId: string, d: Disk): Mem { LoadInto(Fresh(streamId), d) }

  /** The record a reader of `src` is left with for sequence number `s`. */
  function LastOf(src: seq<Item>, s: nat): (r: Option<Item>)
    ensures r.Some? ==> r.value in src && r.value.env.seqNo == s
    ensures r.None? ==> forall i :: i in src ==> i.env.seqNo != s
  {
    if src == [] then None
    else if src[|src| - 1].env.seqNo == s then Some(src[|src| - 1])
    else LastOf(src[..|src| - 1], s)
  }

  /** The load passes keep exactly the last unacknowledged record of every sequence number. */
  lemma {:induction false} AbsorbItems(st: Stock, ack: nat, src: seq<Item>, s: nat)
    ensures var r := Absorb(st, ack, src).items;
            var last := if s > ack then LastOf(src, s) else None;
            && (s in r <==> last.Some? || s in st.items)
            && (s in r ==> r[s] == if last.Some? then last.value else st.items[s])
  {
    if src != [] { AbsorbItems(st, ack, src[..|src| - 1], s); }
  }

  /** The load passes leave the counter at the larger of where it stood and one past the highest record kept. */
  lemma {:induction false} AbsorbNext(st: Stock, ack: nat, src: seq<Item>)
    ensures var r := Absorb(st, ack, src);
            && r.nextSeq >= st.nextSeq
            && (forall i :: i in src && i.env.seqNo > ack ==> i.env.seqNo < r.nextSeq)
            && (r.nextSeq == st.nextSeq || exists i :: i in src && i.env.seqNo > ack && i.env.seqNo + 1 == r.nextSeq)
  {
    if src != [] {
      var init, i := src[..|src| - 1], src[|src| - 1];
      AbsorbNext(st, ack, init);
      assert forall j :: j in src ==> j in init || j == i;
      assert forall j :: j in init ==> j in src;
      assert i in src;
    }
  }

  // ---------------------------------------------------------------- sorting by sequence number

  lemma {:induction false} MinWitness(ks: set<nat>) returns (k: nat)
    requires ks != {}
    ensures k in ks && forall j :: j in ks ==> k <= j
    decreases |ks|
  {
    k :| k in ks;
    var rest := ks - {k};
    if rest != {} {
      var k' := MinWitness(rest);
      assert forall j :: j in ks ==> j == k || j in rest;
      if k' < k { k := k'; }
    }
  }

  function MinOf(ks: set<nat>): (k: nat)
    requires ks != {}
    ensures k in ks
  {
    assert exists k :: k in ks && forall j :: j in ks ==> k <= j by { var k := MinWitness(ks); }
    var k :| k in ks && forall j :: j in ks ==> k <= j;
    k
  }

  function SortedKeys(ks: set<nat>): seq<nat>
    decreases |ks|
  {
    if ks == {} then [] else var k := MinOf(ks); [k] + SortedKeys(ks - {k})
  }

  lemma {:induction false} SortedKeysAre(ks: set<nat>)
    ensures var r := SortedKeys(ks);
            && |r| == |ks|
            && (forall k :: k in r <==> k in ks)
            && (forall i, j :: 0 <= i < j < |r| ==> r[i] < r[j])
    decreases |ks|
  {
    if ks != {} {
      var k := MinOf(ks);
      var rest := SortedKeys(ks - {k});
      SortedKeysAre(ks - {k});
      forall j | 0 <= j < |rest| ensures k < rest[j] { assert rest[j] in rest; }
    }
  }

  /** The items under the given keys, in that order. */
  function ItemsAt(items: map<nat, Item>, ks: seq<nat>): seq<Item> {
    if ks == [] then []
    else (if ks[0] in items then [items[ks[0]]] else []) + ItemsAt(items, ks[1..])
  }

  lemma {:induction false} ItemsAtIndex(items: map<nat, Item>, ks: seq<nat>)
    requires forall k :: k in ks ==> k in items
    ensures var r := ItemsAt(items, ks); |r| == |ks| && forall i :: 0 <= i < |ks| ==> r[i] == items[ks[i]]
  {
    if ks != [] {
      ItemsAtIndex(items, ks[1..]);
      forall i | 0 < i < |ks| ensures ItemsAt(items, ks)[i] == items[ks[i]] { assert ks[i] == ks[1..][i - 1]; }
    }
  }

  function SortedItems(items: map<nat, Item>): seq<Item> { ItemsAt(items, SortedKeys(items.Keys)) }

  // ---------------------------------------------------------------- operations

  /** Queue operations with the choices and clock readings the environment makes for them. `target` is
      the unsent item a coalescing enqueue happens to find. */
  datatype Op =
    | Enqueue(env: Envelope, key: string, now: int, target: Option<nat>)
    | Acknowledge(upto: nat)
    | ResetPending
    | MarkAttempt(seqNo: nat, at: int, resendFrom: int, failure: Option<string>)

  function MetaOf(m: Mem): MetaFile { Written(Meta(m.streamId, m.nextSeq, m.ackUpto, [])) }

  /** Unacknowledged items, the ones a compaction writes and a flush considers. */
  function Unacked(m: Mem): map<nat, Item> {
    m.items - (set s | s in m.items && m.items[s].env.seqNo <= m.ackUpto)
  }

  function LogOf(items: seq<Item>): seq<Line> {
    if items == [] then [] else LogOf(items[..|items| - 1]) + [Record(items[|items| - 1])]
  }

  /** An item an enqueue under `key` may rewrite: same key and never attempted. */
  predicate Coalescable(i: Item, key: string) { key != "" && i.coalesceKey == key && i.lastAttempt == 0 }

  predicate Enabled(m: Mem, op: Op) {
    match op
    case Enqueue(_, key, _, Some(s)) => s in m.items && Coalescable(m.items[s], TrimSpace(key))
    case Enqueue(_, key, _, None) => forall s :: s in m.items ==> !Coalescable(m.items[s], TrimSpace(key))
    case _ => true
  }

  function WithClass(env: Envelope): Envelope {
    if Blank(env.cls) then env.(cls := CLASS_FACT) else env
  }

  /** `e` says what `env` says; only its place in a stream is its own. */
  ghost predicate Carries(e: Envelope, env: Envelope) {
    && e.entity == env.entity && e.action == env.action && e.messageId == env.messageId
    && e.sentAt == env.sentAt && e.payload == env.payload
    && e.cls == if Blank(env.cls) then "fact" else env.cls
  }

  function NewItem(m: Mem, env: Envelope, key: string, now: int): Item {
    Item(WithClass(env).(streamId := m.streamId, seqNo := m.nextSeq), 0, 0, now, now, "", TrimSpace(key))
  }

  function Rewritten(before: Item, env: Envelope): Item {
    before.(env := before.env.(payload := env.payload, messageId := env.messageId, sentAt := env.sentAt,
                           cls := WithClass(env).cls))
  }

  function AfterAck(m: Mem, upto: nat): Mem {
    m.(ackUpto := upto, items := m.items - (set s | s in m.items && s <= upto), acksSince := m.acksSince + 1)
  }

  /** The sequence numbers of the signals among the items. */
  function SignalsOf(items: map<nat, Item>): set<nat>
    decreases |items|
  {
    if items == map[] then {}
    else
      var k := MinOf(items.Keys);
      assert |(items - {k}).Keys| < |items.Keys|;
      SignalsOf(items - {k}) + if IsSignal(items[k].env) then {k} else {}
  }

  lemma {:induction false} SignalsOfAre(items: map<nat, Item>, s: nat)
    ensures s in SignalsOf(items) <==> s in items && IsSignal(items[s].env)
    decreases |items|
  {
    if items != map[] {
      var k := MinOf(items.Keys);
      assert |(items - {k}).Keys| < |items.Keys|;
      SignalsOfAre(items - {k}, s);
    }
  }

  function AfterReset(m: Mem): Mem { m.(items := m.items - SignalsOf(m.items)) }

  function RetryDelay(retryCount: int): int {
    if retryCount <= 1 then 2_000
    else if retryCount == 2 then 5_000
    else if retryCount == 3 then 10_000
    else if retryCount == 4 then 20_000
    else 30_000
  }

  function Attempted(i: Item, at: int, resendFrom: int, failure: Option<string>): Item {
    var i' := i.(lastAttempt := at, retryCount := i.retryCount + 1);
    match failure
    case Some(e) => i'.(nextAttempt := resendFrom + RetryDelay(i'.retryCount), lastError := e)
    case None => i'.(nextAttempt := resendFrom + RESEND_DELAY_MS, lastError := "")
  }

  /** Does the operation rewrite the log? */
  predicate Compacts(m: Mem, op: Op) {
    match op
    case Acknowledge(upto) =>
      upto > m.ackUpto && (AfterAck(m, upto).items.Keys == {} || m.acksSince + 1 >= QUEUE_COMPACT_EVERY)
    case ResetPending => SignalsOf(m.items) != {}
    case _ => false
  }

  /** Memory after the operation. */
  function MemAfter(m: Mem, op: Op): Mem
    requires Enabled(m, op)
  {
    match op
    case Enqueue(env, key, now, Some(s)) => m.(items := m.items[s := Rewritten(m.items[s], env)])
    case Enqueue(env, key, now, None) =>
      m.(items := m.items[m.nextSeq := NewItem(m, env, key, now)], nextSeq := m.nextSeq + 1)
    case Acknowledge(upto) =>
      if upto <= m.ackUpto then m
      else if Compacts(m, op) then AfterAck(m, upto).(acksSince := 0)
      else AfterAck(m, upto)
    case ResetPending => if Compacts(m, op) then AfterReset(m).(acksSince := 0) else m
    case MarkAttempt(s, at, resendFrom, failure) =>
      if s !in m.items then m
      else m.(items := m.items[s := Attempted(m.items[s], at, resendFrom, failure)])
  }

  /** The self-heal reset drops exactly the items whose class is the signal class, white space and case aside. */
  lemma ResetDropsIff(m: Mem, s: nat)
    requires s in m.items
    ensures var kept := MemAfter(m, ResetPending).items;
            && (s in kept <==> !SameLetters(TrimSpace(m.items[s].env.cls), "signal"))
            && (s in kept ==> kept[s] == m.items[s])
  {
    SignalsOfAre(m.items, s);
    EqualFoldIff(TrimSpace(m.items[s].env.cls), CLASS_SIGNAL);
  }

  /** The item an enqueue logs: the one it rewrote, or the new one. */
  function Logged(m: Mem, op: Op): Item
    requires op.Enqueue? && Enabled(m, op)
  {
    MemAfter(m, op).items[op.target.GetOr(m.nextSeq)]
  }

  function AppendThenMeta(m': Mem, d: Disk, i: Item): (w: seq<Disk>)
    ensures |w| == 2
  {
    var d1 := d.(log := d.log + [Record(i)]);
    [d1, d1.(meta := MetaOf(m'))]
  }

  /** `compactLocked`: the log is replaced first, the meta file rewritten second. */
  function CompactWrites(m': Mem, d: Disk): (w: seq<Disk>)
    ensures |w| == 2
  {
    var d1 := d.(log := LogOf(SortedItems(Unacked(m'))));
    [d1, d1.(meta := MetaOf(m'))]
  }

  /** The disk after each write of the operation in turn. */
  function Writes(m: Mem, d: Disk, op: Op): seq<Disk>
    requires Enabled(m, op)
  {
    var m' := MemAfter(m, op);
    if op.Enqueue? then AppendThenMeta(m', d, Logged(m, op))
    else if Compacts(m, op) then CompactWrites(m', d)
    else if (op.Acknowledge? && op.upto > m.ackUpto) || (op.MarkAttempt? && op.seqNo in m.items && op.failure.Some?)
    then [d.(meta := MetaOf(m'))]
    else []
  }

  /** The disk a crash leaves when the operation got through `k` of its writes. */
  function DiskAfter(m: Mem, d: Disk, op: Op, k: nat): Disk
    requires Enabled(m, op) && k <= |Writes(m, d, op)|
  {
    if k == 0 then d else Writes(m, d, op)[k - 1]
  }

  // ---------------------------------------------------------------- what is due

  predicate IsDue(m: Mem, s: nat, now: int) {
    s in m.items && m.items[s].env.seqNo > m.ackUpto && m.items[s].nextAttempt <= now
  }

  function DueSeqs(m: Mem, now: int): set<nat> { set s | s in m.items && IsDue(m, s, now) }

  /** `DueItems`: the lowest due sequence numbers; a limit of zero or less means no limit. */
  function DueKeys(m: Mem, now: int, limit: int): seq<nat> {
    var ks := SortedKeys(DueSeqs(m, now));
    if 0 < limit < |ks| then ks[..limit] else ks
  }

  function Due(m: Mem, now: int, limit: int): seq<Item> { ItemsAt(m.items, DueKeys(m, now, limit)) }

  lemma DueAt(m: Mem, now: int, limit: int)
    ensures var b, ks := Due(m, now, limit), DueKeys(m, now, limit);
            |b| == |ks| && forall i :: 0 <= i < |ks| ==> ks[i] in DueSeqs(m, now) && b[i] == m.items[ks[i]]
    ensures var ks := DueKeys(m, now, limit); forall i, j :: 0 <= i < j < |ks| ==> ks[i] < ks[j]
  {
    var all, ks := SortedKeys(DueSeqs(m, now)), DueKeys(m, now, limit);
    SortedKeysAre(DueSeqs(m, now));
    forall i | 0 <= i < |ks| ensures ks[i] in DueSeqs(m, now) { assert ks[i] == all[i] && all[i] in all; }
    ItemsAtIndex(m.items, ks);
  }

  /** The batch is strictly ascending and holds only due items, as memory has them. */
  lemma DueBatch(m: Mem, now: int, limit: int)
    requires WellFormed(m)
    ensures var b := Due(m, now, limit);
            && (limit > 0 ==> |b| <= limit)
            && (forall i, j :: 0 <= i < j < |b| ==> b[i].env.seqNo < b[j].env.seqNo)
            && (forall i :: 0 <= i < |b| ==> IsDue(m, b[i].env.seqNo, now) && b[i] == m.items[b[i].env.seqNo])
  {
    var b, ks := Due(m, now, limit), DueKeys(m, now, limit);
    DueAt(m, now, limit);
    forall i | 0 <= i < |b| ensures b[i].env.seqNo == ks[i] && IsDue(m, ks[i], now) {
      assert ks[i] in DueSeqs(m, now);
    }
  }

  /** In a sorted sequence cut at a limit, what is missing is above everything kept. */
  lemma CutCovers(all: seq<nat>, limit: int, s: nat)
    requires s in all && forall i, j :: 0 <= i < j < |all| ==> all[i] < all[j]
    ensures var ks := if 0 < limit < |all| then all[..limit] else all;
            s in ks || (|ks| == limit && forall i :: 0 <= i < |ks| ==> ks[i] < s)
  {
    var k :| 0 <= k < |all| && all[k] == s;
  }

  lemma DueNumbers(m: Mem, now: int, limit: int)
    requires WellFormed(m)
    ensures var b, ks := Due(m, now, limit), DueKeys(m, now, limit);
            |b| == |ks| && forall i :: 0 <= i < |b| ==> b[i].env.seqNo == ks[i]
  {
    DueAt(m, now, limit);
  }

  /** A due item is left out only when the batch is full of smaller ones. */
  lemma DueCovers(m: Mem, now: int, limit: int, s: nat)
    requires WellFormed(m) && IsDue(m, s, now)
    ensures Covers(Due(m, now, limit), limit, s)
  {
    var b, ks := Due(m, now, limit), DueKeys(m, now, limit);
    SortedKeysAre(DueSeqs(m, now));
    CutCovers(SortedKeys(DueSeqs(m, now)), limit, s);
    DueNumbers(m, now, limit);
    if s in ks {
      var i :| 0 <= i < |ks| && ks[i] == s;
      assert b[i].env.seqNo == s;
    }
  }

  /** `s` is in the batch, or the batch is full and entirely below it. */
  ghost predicate Covers(b: seq<Item>, limit: int, s: nat) {
    || (exists i :: 0 <= i < |b| && b[i].env.seqNo == s)
    || (0 < limit == |b| && forall i :: 0 <= i < |b| ==> b[i].env.seqNo < s)
  }

  // ---------------------------------------------------------------- invariants

  /** Memory is indexed by sequence number and holds nothing acknowledged or not yet assigned. */
  ghost predicate WellFormed(m: Mem) {
    && m.nextSeq >= 1
    && forall s :: s in m.items ==> m.items[s].env.seqNo == s && m.ackUpto < s < m.nextSeq
  }

  /** The meta file has the current format, without an embedded item list. */
  ghost predicate Modern(d: Disk) { !d.meta.Corrupt? && (d.meta.Written? ==> d.meta.meta.items == []) }

  /** A restart would come back with the same position and the same pending items. */
  ghost predicate Synced(m: Mem, d: Disk) {
    var r := Recover("", d);
    r.nextSeq == m.nextSeq && r.ackUpto == m.ackUpto && SamePending(r.items, m.items)
  }

  /** The sequence counter the meta file vouches for. */
  function MetaNext(d: Disk): nat {
    if d.meta.Written? && d.meta.meta.nextSeq > 0 then d.meta.meta.nextSeq else 1
  }

  // ---------------------------------------------------------------- one sequence number at a time

  /** What the log holds for `s`, read without the load loop: its last unacknowledged record. */
  function Found(d: Disk, s: nat): Option<Durable> {
    var last := LastOf(Records(d.log), s);
    if s > AckOf(0, d.meta) && last.Some? then Some(Core(last.value)) else None
  }

  lemma RecoverItem(d: Disk, s: nat)
    requires Modern(d)
    ensures Held(Recover("", d).items, s) == Found(d, s)
    ensures s in Recover("", d).items ==> Recover("", d).items[s].env.seqNo == s
  {
    AbsorbItems(Stock(MetaNext(d), map[]), AckOf(0, d.meta), Records(d.log), s);
  }

  lemma RecoverNext(d: Disk)
    requires Modern(d)
    ensures var r := Recover("", d);
            && r.nextSeq >= MetaNext(d)
            && r.ackUpto == AckOf(0, d.meta)
            && (forall s :: s in r.items ==> s < r.nextSeq)
            && (r.nextSeq == MetaNext(d) || r.nextSeq - 1 in r.items)
  {
    var st, ack, src := Stock(MetaNext(d), map[]), AckOf(0, d.meta), Records(d.log);
    var r := Recover("", d);
    AbsorbNext(st, ack, src);
    forall s | s in r.items ensures s < r.nextSeq { AbsorbItems(st, ack, src, s); }
    if r.nextSeq != MetaNext(d) { AbsorbItems(st, ack, src, r.nextSeq - 1); }
  }

  /** Recovery described without the load loop: the pending map is the last record of each sequence number
      above the acknowledged position, and the counter is one past the highest of them or the meta value. */
  lemma RecoverExactly(d: Disk)
    requires Modern(d)
    ensures var r := Recover("", d);
            && r.ackUpto == AckOf(0, d.meta)
            && (forall s :: Held(r.items, s) == Found(d, s))
            && r.nextSeq >= MetaNext(d)
            && (r.nextSeq == MetaNext(d) || r.nextSeq - 1 in r.items)
            && WellFormed(r)
  {
    RecoverNext(d);
    forall s: nat ensures Held(Recover("", d).items, s) == Found(d, s) { RecoverItem(d, s); }
    forall s | s in Recover("", d).items ensures Recover("", d).items[s].env.seqNo == s > AckOf(0, d.meta) {
      RecoverItem(d, s);
    }
  }

  /** The disk describes `m`, item by item. */
  ghost predicate Describes(d: Disk, m: Mem) {
    && Modern(d)
    && AckOf(0, d.meta) == m.ackUpto
    && MetaNext(d) <= m.nextSeq
    && (m.nextSeq == MetaNext(d) || m.nextSeq - 1 in m.items)
    && forall s :: Found(d, s) == Held(m.items, s)
  }

  lemma SameKeys(a: map<nat, Item>, b: map<nat, Item>)
    requires SamePending(a, b)
    ensures forall s :: s in a <==> s in b
  {
    forall s: nat ensures s in a <==> s in b { assert Held(a, s) == Held(b, s); }
  }

  /** A counter that is a base value or one past the highest item is fixed by the base and the items. */
  lemma CounterFixed(base: nat, x: nat, a: map<nat, Item>, y: nat, b: map<nat, Item>)
    requires forall s :: s in a <==> s in b
    requires base <= x && (x == base || x - 1 in a) && forall s :: s in a ==> s < x
    requires base <= y && forall s :: s in b ==> s < y
    ensures x <= y
    ensures x == y <==> y == base || y - 1 in b
  {
  }

  lemma SyncedIsDescribed(m: Mem, d: Disk)
    requires WellFormed(m) && Modern(d)
    ensures Describes(d, m) ==> Synced(m, d)
    ensures Synced(m, d) ==> Describes(d, m)
  {
    var r := Recover("", d);
    RecoverExactly(d);
    if Describes(d, m) {
      forall s: nat ensures Held(r.items, s) == Held(m.items, s) { assert Found(d, s) == Held(m.items, s); }
      SameKeys(r.items, m.items);
      CounterFixed(MetaNext(d), r.nextSeq, r.items, m.nextSeq, m.items);
    }
    if Synced(m, d) {
      forall s: nat ensures Found(d, s) == Held(m.items, s) { assert Held(r.items, s) == Held(m.items, s); }
      SameKeys(r.items, m.items);
    }
  }
}
