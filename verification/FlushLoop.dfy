/** The body of `flushEventQueue`, an imperative loop over the real queue, as steps of the model in `Flush`. */
module FlushLoop {
  import opened Text
  import opened Outbox
  import opened OutboxQueue
  import opened Flush

  /** Clock readings around one socket write, and its error if it failed. */
  datatype Write = Write(at: int, resendFrom: int, failure: Option<string>)

  function StepOf(w: Write): Step {
    if w.failure.Some? then SendFailed(w.at, w.resendFrom, w.failure.value) else Sent(w.at, w.resendFrom)
  }

  /** The sends of a batch of `n` items: one per item until a write fails. */
  function SendSteps(n: nat, writes: seq<Write>): seq<Step>
    requires n <= |writes|
  {
    if n == 0 then []
    else if writes[0].failure.Some? then [StepOf(writes[0])]
    else [StepOf(writes[0])] + SendSteps(n - 1, writes[1..])
  }

  predicate AllSent(n: nat, writes: seq<Write>)
    requires n <= |writes|
  {
    n == 0 || (writes[0].failure.None? && AllSent(n - 1, writes[1..]))
  }

  /** A round sends the items of its batch in turn up to and with the first whose write fails. */
  lemma {:induction false} SentUntilFailure(n: nat, writes: seq<Write>)
    requires n <= |writes|
    ensures var sends := SendSteps(n, writes);
            && |sends| <= n
            && (forall i :: 0 <= i < |sends| ==>
                  sends[i] == match writes[i].failure
                              case None => Sent(writes[i].at, writes[i].resendFrom)
                              case Some(e) => SendFailed(writes[i].at, writes[i].resendFrom, e))
            && (forall i :: 0 <= i < |sends| - 1 ==> writes[i].failure.None?)
            && (|sends| < n ==> sends != [] && writes[|sends| - 1].failure.Some?)
    ensures AllSent(n, writes) <==> forall i :: 0 <= i < n ==> writes[i].failure.None?
  {
    if n > 0 {
      SentUntilFailure(n - 1, writes[1..]);
      assert forall i :: 0 < i < n ==> writes[i] == writes[1..][i - 1];
      assert forall i :: 0 <= i < n - 1 ==> writes[1..][i] == writes[i + 1];
    }
  }

  /** The sends left when `n` items of the batch remain, flattened onto a state. */
  lemma SendOne(s: Loop, n: nat, writes: seq<Write>)
    requires 0 < n <= |writes| && Runs(s, SendSteps(n, writes))
    ensures Can(s, StepOf(writes[0]))
    ensures writes[0].failure.Some? ==> End(s, SendSteps(n, writes)) == After(s, StepOf(writes[0]))
    ensures writes[0].failure.None? ==>
              var s' := After(s, StepOf(writes[0]));
              Runs(s', SendSteps(n - 1, writes[1..]))
              && End(s, SendSteps(n, writes)) == End(s', SendSteps(n - 1, writes[1..]))
  {
    var steps := SendSteps(n, writes);
    if writes[0].failure.Some? {
      assert steps[1..] == [];
    } else {
      assert steps[1..] == SendSteps(n - 1, writes[1..]);
    }
  }

  class Flusher {
    const queue: Queue
    /** The model state this loop is in. */
    ghost var loop: Loop

    constructor (queue: Queue, now: int)
      ensures this.queue == queue && loop == Start(queue.Memory(), now) && Valid()
    {
      this.queue := queue;
      loop := Start(queue.Memory(), now);
    }

    ghost predicate Valid()
      reads this, queue
    {
      loop.m == queue.Memory() && loop.batch == []
    }

    /** One socket write and its `MarkAttempt`. */
    method Send(item: Item, w: Write)
      requires loop.m == queue.Memory() && loop.batch != [] && item == loop.batch[0] && Can(loop, StepOf(w))
      modifies this`loop, queue, queue.files
      ensures loop == After(old(loop), StepOf(w)) && loop.m == queue.Memory()
    {
      loop := After(loop, StepOf(w));
      queue.MarkAttempt(item.env.seqNo, w.at, w.resendFrom, w.failure);
    }

    /** One tick. The readings in `at` and `writes` come from the clock and the socket; `alive` is false when
        a failed write has ended the session. */
    method Round(at: int, writes: seq<Write>) returns (alive: bool)
      requires Valid() && Can(loop, Tick(at)) && |Due(queue.Memory(), at, FLUSH_BATCH)| <= |writes|
      requires Runs(After(loop, Tick(at)), SendSteps(|Due(queue.Memory(), at, FLUSH_BATCH)|, writes))
      modifies this, queue, queue.files
      ensures Valid()
      ensures var b := Due(old(queue.Memory()), at, FLUSH_BATCH);
              && loop == End(After(old(loop), Tick(at)), SendSteps(|b|, writes))
              && alive == AllSent(|b|, writes)
    {
      var left := queue.DueItems(FLUSH_BATCH, at);
      var ws := writes;
      ghost var n := |left|;
      loop := After(loop, Tick(at));
      ghost var goal := End(loop, SendSteps(n, writes));
      while left != []
        invariant loop.m == queue.Memory() && loop.batch == left && |left| <= |ws|
        invariant Runs(loop, SendSteps(|left|, ws)) && End(loop, SendSteps(|left|, ws)) == goal
        invariant AllSent(|left|, ws) == AllSent(n, writes)
        decreases |left|
      {
        SendOne(loop, |left|, ws);
        Send(left[0], ws[0]);
        if ws[0].failure.Some? { return false; }
        left, ws := left[1..], ws[1..];
      }
      return true;
    }
  }
}
