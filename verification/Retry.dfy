/** When an attempted item is offered to the flush loop again. */
module Retry {
  import opened Text
  import opened Outbox
  import opened CrashSafety

  /** One attempt on an item: when it was made, from when the next is counted, and its error. */
  datatype Try = Try(at: int, from: int, failure: Option<string>)

  /** A number's attempts, one after the other. */
  function Tried(m: Mem, s: nat, tries: seq<Try>): Mem {
    if tries == [] then m
    else
      var last := tries[|tries| - 1];
      MemAfter(Tried(m, s, tries[..|tries| - 1]), MarkAttempt(s, last.at, last.from, last.failure))
  }

  /** What attempts leave alone, and what they count. */
  lemma {:induction false} TriesCount(m: Mem, s: nat, tries: seq<Try>)
    requires s in m.items
    ensures var m' := Tried(m, s, tries);
            && s in m'.items && m'.items[s].retryCount == m.items[s].retryCount + |tries|
            && Core(m'.items[s]) == Core(m.items[s]) && m'.ackUpto == m.ackUpto
            && m'.items.Keys == m.items.Keys && forall q :: q in m.items && q != s ==> m'.items[q] == m.items[q]
  {
    if tries != [] { TriesCount(m, s, tries[..|tries| - 1]); }
  }

  /** How long an item rests after its `n`-th attempt: 90 s if that got through, else 2, 5, 10, 20 and then always
      30 s. */
  function Rest(n: nat, failed: bool): int {
    if !failed then 90_000
    else if n == 1 then 2_000
    else if n == 2 then 5_000
    else if n == 3 then 10_000
    else if n == 4 then 20_000
    else 30_000
  }

  predicate Remembers(m: Mem, s: nat, last: Try) {
    s in m.items && m.items[s].lastAttempt == last.at && m.items[s].lastError == last.failure.GetOr("")
  }

  lemma NewIsDue(m: Mem, env: Envelope, key: string, now: int, t: int)
    requires m.ackUpto < m.nextSeq && Enabled(m, Enqueue(env, key, now, None))
    ensures var s, m' := m.nextSeq, MemAfter(m, Enqueue(env, key, now, None));
            && s in m'.items && m'.items[s].env.seqNo == s && m'.items[s].retryCount == 0 && m'.ackUpto < s
            && (s in DueSeqs(m', t) <==> t >= now)
  {
  }

  lemma LastTry(m: Mem, s: nat, last: Try, t: int)
    requires s in m.items && m.items[s].env.seqNo == s && m.ackUpto < s
    ensures var m' := MemAfter(m, MarkAttempt(s, last.at, last.from, last.failure));
            && (s in DueSeqs(m', t) <==> t >= last.from + Rest(m.items[s].retryCount + 1, last.failure.Some?))
            && Remembers(m', s, last)
  {
  }

  /** A new item is offered at once; after any attempts on it, it is offered again exactly from the moment its last
      rest is over, and its record says when the last attempt was made and how it went. */
  lemma OfferedAgainIff(m: Mem, env: Envelope, key: string, now: int, tries: seq<Try>, t: int)
    requires WellFormed(m) && m.ackUpto < m.nextSeq && Enabled(m, Enqueue(env, key, now, None))
    ensures var s, m' := m.nextSeq, MemAfter(m, Enqueue(env, key, now, None));
            if tries == [] then s in DueSeqs(m', t) <==> t >= now
            else
              var last := tries[|tries| - 1];
              && (s in DueSeqs(Tried(m', s, tries), t) <==> t >= last.from + Rest(|tries|, last.failure.Some?))
              && Remembers(Tried(m', s, tries), s, last)
  {
    var s, m' := m.nextSeq, MemAfter(m, Enqueue(env, key, now, None));
    NewIsDue(m, env, key, now, t);
    if tries != [] {
      var init, last := tries[..|tries| - 1], tries[|tries| - 1];
      TriesCount(m', s, init);
      LastTry(Tried(m', s, init), s, last, t);
    }
  }

  /** A restart forgets it all: whatever attempts were made, it finds every item as the log has it. */
  lemma RestartForgetsAttempts(m: Mem, d: Disk, op: Op, streamId: string)
    requires Describes(d, m) && op.MarkAttempt?
    ensures Recover(streamId, DiskAfter(m, d, op, |Writes(m, d, op)|)).items == Recover(streamId, d).items
  {
    var n := |Writes(m, d, op)|;
    if n > 0 {
      var d' := DiskAfter(m, d, op, n);
      forall s: nat
        ensures s in Recover(streamId, d').items <==> s in Recover(streamId, d).items
        ensures s in Recover(streamId, d).items ==> Recover(streamId, d').items[s] == Recover(streamId, d).items[s]
      {
        RecoverKeys(streamId, d, s);
        RecoverKeys(streamId, d', s);
      }
    }
  }
}
