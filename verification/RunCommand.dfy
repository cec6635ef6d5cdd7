/** `runCommand` over the real inbox and queue: each of its critical sections is one step of the machine in
    `Dispatch`. */
module RunCommand {
  import opened Text
  import opened Outbox
  import opened OutboxQueue
  import opened Inbox
  import opened Dispatch

  const ENTITY_COMMAND := "command"
  const ACTION_RESULT := "result"

  /** What goes straight onto the socket. */
  datatype Signal =
    | Progress(id: string, status: Option<Status>, error: string, logs: seq<string>, payload: string)
    | Answer(result: CommandResult)

  /** Progress with no details; `None` is the received state, which no receipt has. */
  function Bare(id: string, status: Option<Status>): Signal { Progress(id, status, "", [], "") }

  function Detailed(id: string, status: Status, r: CommandResult): Signal {
    Progress(id, Some(status), r.error, r.logs, r.payload)
  }

  /** The progress report a dashboard is to see at the end of a run. */
  function Final(c: Command, r: CommandResult): Signal {
    Progress(c.id, Some(if r.success then Succeeded else Failed), r.error, r.logs, r.payload)
  }

  /** What a command that is already known is answered with. */
  function ReplayOf(c: Command, receipt: Receipt): seq<Signal> {
    if Terminal(receipt.status) then [Answer(receipt.result), Detailed(c.id, receipt.status, receipt.result)]
    else [Bare(c.id, Some(Running))]
  }

  /** What a command that will run announces. */
  function Announced(c: Command): seq<Signal> {
    if c.id != "" && !c.streaming then [Bare(c.id, None), Bare(c.id, Some(Running))] else []
  }

  /** What the end of a run puts on the socket. */
  function Closing(c: Command, r: CommandResult): seq<Signal> {
    if c.id == "" then []
    else (if c.streaming then [Answer(r)] else []) + [Detailed(c.id, if r.success then Succeeded else Failed, r)]
  }

  /** The result fact: its message id names the command, so a resend is recognisable. */
  function ResultFact(c: Command, body: string, sentAt: int): Envelope {
    Envelope("", 0, ENTITY_COMMAND, ACTION_RESULT, CLASS_FACT, "result-" + c.id, sentAt, body)
  }

  /** The result is queued: a newest item that says what it should, and that a self-heal reset keeps. */
  ghost predicate Queued(before: Mem, after: Mem, c: Command, body: string, at: int) {
    var s := before.nextSeq;
    && s in after.items && after.nextSeq == s + 1 && after.items == before.items[s := after.items[s]]
    && IsResult(after.items[s].env, c, body, at)
    && s in MemAfter(after, ResetPending).items
  }

  predicate IsResult(e: Envelope, c: Command, body: string, at: int) {
    && e.entity == "command" && e.action == "result" && e.cls == "fact"
    && e.messageId == "result-" + c.id && e.payload == body && e.sentAt == at
  }

  lemma ResultIsQueued(m: Mem, c: Command, body: string, at: int)
    ensures var op := Enqueue(ResultFact(c, body, at), "", at, None);
            Enabled(m, op) ==> Queued(m, MemAfter(m, op), c, body, at)
  {
    var op := Enqueue(ResultFact(c, body, at), "", at, None);
    if Enabled(m, op) {
      TrimOfTrimmed("fact");
      ResetDropsIff(MemAfter(m, op), m.nextSeq);
    }
  }

  lemma Replaced(jobs: seq<Job>, j: nat, job: Job)
    requires j < |jobs|
    ensures var jobs' := jobs[j := job]; jobs'[..j] + jobs'[j + 1..] == jobs[..j] + jobs[j + 1..]
  {
  }

  /** The inbox after a whole run: the running receipt and then the final one have been put in. */
  ghost predicate Receipted(items: map<string, Receipt>, c: Command, r: CommandResult, began: int, ended: int,
                            after: map<string, Receipt>) {
    exists mid :: IsUpsert(items, RunningReceipt(c.id, began), mid) && IsUpsert(mid, ResultReceipt(r, ended), after)
  }

  class Dispatcher {
    const inbox: CommandInbox
    const queue: Queue
    const encode: CommandResult -> string
    /** The machine state the agent is in. */
    ghost var agent: Agent

    constructor (inbox: CommandInbox, queue: Queue, encode: CommandResult -> string)
      requires inbox.Valid()
      ensures this.inbox == inbox && this.queue == queue && this.encode == encode
      ensures Valid() && agent == Init().(items := inbox.items)
    {
      this.inbox, this.queue, this.encode := inbox, queue, encode;
      agent := Init().(items := inbox.items);
    }

    ghost predicate Valid()
      reads this, inbox
    {
      inbox.Valid() && agent.items == inbox.items
    }

    /** `replayIdempotentCommand`. */
    method Replay(c: Command) returns (replayed: bool, sent: seq<Signal>)
      ensures replayed == Replays(inbox.items, c)
      ensures replayed <==>
              && c.id != "" && !c.streaming && TrimSpace(c.id) in inbox.items
              && inbox.items[TrimSpace(c.id)].status in {Running, Succeeded, Failed}
      ensures sent == if replayed then ReplayOf(c, inbox.items[Key(c)]) else []
    {
      if c.id == "" || c.streaming { return false, []; }
      var receipt := inbox.Get(c.id);
      if receipt.None? { return false, []; }
      match receipt.value.status
      case Succeeded => return true, ReplayOf(c, receipt.value);
      case Failed => return true, ReplayOf(c, receipt.value);
      case Running => return true, ReplayOf(c, receipt.value);
      case Other(_) => return false, [];
    }

    /** A delivery up to the receipt check. */
    method Receive(c: Command) returns (run: bool, sent: seq<Signal>)
      requires Valid()
      modifies this`agent
      ensures Valid() && agent == After(old(agent), Deliver(c))
      ensures run == !Replays(inbox.items, c)
      ensures sent == if run then [] else ReplayOf(c, inbox.items[Key(c)])
      ensures agent.jobs == old(agent.jobs) + if run then [Passed(c)] else []
    {
      var replayed;
      replayed, sent := Replay(c);
      run := !replayed;
      agent := After(agent, Deliver(c));
    }

    /** The running mark, for a command that has an id and is not streaming. */
    method Begin(ghost job: nat, c: Command, at: int) returns (sent: seq<Signal>)
      requires Valid() && job < |agent.jobs| && agent.jobs[job] == Passed(c)
      modifies this, inbox
      ensures Valid() && Can(old(agent), Step.Begin(job, at, inbox.items))
      ensures agent == After(old(agent), Step.Begin(job, at, inbox.items)) && sent == Announced(c)
      ensures agent.jobs == old(agent.jobs)[job := Executing(c)]
    {
      sent := [];
      if c.id != "" && !c.streaming {
        sent := [Bare(c.id, None)];
        inbox.MarkRunning(c.id, at);
        sent := sent + [Bare(c.id, Some(Running))];
      }
      TrimTwice(c.id);
      agent := After(agent, Step.Begin(job, at, inbox.items));
    }

    /** The execution is over: its receipt is written, if it has one. */
    method Complete(ghost job: nat, c: Command, r: CommandResult, at: int)
      requires Valid() && job < |agent.jobs| && agent.jobs[job] == Executing(c) && r.commandId == c.id
      modifies this, inbox
      ensures Valid() && Can(old(agent), Finish(job, r, at, inbox.items))
      ensures agent == After(old(agent), Finish(job, r, at, inbox.items)) && agent.facts == old(agent.facts)
      ensures agent.jobs == if c.id == "" || c.streaming then old(agent.jobs[..job] + agent.jobs[job + 1..])
                            else old(agent.jobs)[job := Recorded(c, r)]
    {
      if c.id != "" && !c.streaming { inbox.MarkResult(r, at); }
      TrimTwice(c.id);
      agent := After(agent, Finish(job, r, at, inbox.items));
    }

    /** `emitFact` for a recorded result: one new queue item, durable before this returns. */
    method Publish(ghost job: nat, c: Command, r: CommandResult, at: int) returns (item: Item)
      requires Valid() && job < |agent.jobs| && agent.jobs[job] == Recorded(c, r)
      modifies this, queue, queue.files
      ensures Valid() && agent == After(old(agent), Step.Publish(job))
      ensures agent.jobs == old(agent.jobs[..job] + agent.jobs[job + 1..])
      ensures agent.facts == old(agent.facts) + [(Key(c), r)]
      ensures var op := Enqueue(ResultFact(c, encode(r), at), "", at, None);
              && Enabled(old(queue.Memory()), op) && queue.Memory() == MemAfter(old(queue.Memory()), op)
              && queue.files.history == old(queue.files.history)
                                        + Writes(old(queue.Memory()), old(queue.files.State()), op)
              && queue.files.State() == queue.files.history[|queue.files.history| - 1]
      ensures Queued(old(queue.Memory()), queue.Memory(), c, encode(r), at)
      ensures item.env.seqNo == old(queue.nextSeq) && queue.items == old(queue.items)[item.env.seqNo := item]
    {
      ResultIsQueued(queue.Memory(), c, encode(r), at);
      item := queue.Enqueue(ResultFact(c, encode(r), at), at);
      agent := After(agent, Step.Publish(job));
    }

    /** A result that is kept: the receipt first, the fact second. */
    method Keep(ghost job: nat, c: Command, r: CommandResult, ended: int, queued: int)
      requires Valid() && job < |agent.jobs| && agent.jobs[job] == Executing(c) && r.commandId == c.id
      requires c.id != "" && !c.streaming
      modifies this, inbox, queue, queue.files
      ensures Valid() && agent.jobs == old(agent.jobs[..job] + agent.jobs[job + 1..])
      ensures IsUpsert(old(inbox.items), ResultReceipt(r, ended), inbox.items)
      ensures var finish := Finish(job, r, ended, inbox.items);
              && Can(old(agent), finish) && Can(After(old(agent), finish), Step.Publish(job))
              && agent == After(After(old(agent), finish), Step.Publish(job))
      ensures agent.facts == old(agent.facts) + [(Key(c), r)]
      ensures Queued(old(queue.Memory()), queue.Memory(), c, encode(r), queued)
    {
      ghost var jobs := agent.jobs;
      Complete(job, c, r, ended);
      var item := Publish(job, c, r, queued);
      Replaced(jobs, job, Recorded(c, r));
    }

    /** `publishCommandResult`; only a command with an id gets here. */
    method PublishCommandResult(ghost job: nat, c: Command, r: CommandResult, ended: int, queued: int)
      returns (sent: seq<Signal>)
      requires Valid() && job < |agent.jobs| && agent.jobs[job] == Executing(c) && r.commandId == c.id && c.id != ""
      modifies this, inbox, queue, queue.files
      ensures Valid() && agent.jobs == old(agent.jobs[..job] + agent.jobs[job + 1..]) && sent == Closing(c, r)
      ensures c.streaming ==>
                && queue.Memory() == old(queue.Memory()) && agent.facts == old(agent.facts)
                && inbox.items == old(inbox.items)
      ensures !c.streaming ==>
                && IsUpsert(old(inbox.items), ResultReceipt(r, ended), inbox.items)
                && agent.facts == old(agent.facts) + [(Key(c), r)]
                && Queued(old(queue.Memory()), queue.Memory(), c, encode(r), queued)
    {
      sent := [];
      if c.streaming {
        Complete(job, c, r, ended);
        sent := [Answer(r)];
      } else {
        Keep(job, c, r, ended, queued);
      }
      sent := sent + [Detailed(c.id, if r.success then Succeeded else Failed, r)];
    }

    /** `runCommand` from end to end, whatever else is under way, if nothing else moves meanwhile. `r` is the
        outcome of the execution; `refreshes` is whether the container statuses are published afterwards. */
    method Run(c: Command, r: CommandResult, began: int, ended: int, queued: int)
      returns (ran: bool, sent: seq<Signal>, refreshes: bool)
      requires Valid() && r.commandId == c.id
      modifies this, inbox, queue, queue.files
      ensures Valid() && agent.jobs == old(agent.jobs)
      ensures ran == !Replays(old(inbox.items), c) && refreshes == (ran && r.success && c.touchesContainers)
      ensures !ran ==> sent == ReplayOf(c, old(inbox.items)[Key(c)]) && inbox.items == old(inbox.items)
      ensures ran && c.id != "" && !c.streaming ==>
                sent == [Progress(c.id, None, "", [], ""), Progress(c.id, Some(Running), "", [], ""), Final(c, r)]
      ensures ran && c.id != "" && c.streaming ==> sent == [Answer(r), Final(c, r)]
      ensures ran && c.id == "" ==> sent == []
      ensures ran && Tracked(c) ==> Receipted(old(inbox.items), c, r, began, ended, inbox.items)
      ensures ran && !Tracked(c) ==> inbox.items == old(inbox.items)
      ensures !ran || c.id == "" || c.streaming ==>
                queue.Memory() == old(queue.Memory()) && agent.facts == old(agent.facts)
      ensures ran && c.id != "" && !c.streaming ==>
                && agent.facts == old(agent.facts) + [(Key(c), r)]
                && Queued(old(queue.Memory()), queue.Memory(), c, encode(r), queued)
    {
      ghost var job := |agent.jobs|;
      ran, sent := Receive(c);
      refreshes := false;
      if ran {
        sent := Begin(job, c, began);
        if c.id != "" {
          var closing := PublishCommandResult(job, c, r, ended, queued);
          sent := sent + closing;
        } else {
          Complete(job, c, r, ended);
        }
        refreshes := r.success && c.touchesContainers;
      }
    }
  }

  /** The next delivery of a command just finished is answered from its receipt with the very result that was
      published, unless the receipt is gone by then. */
  lemma ReplayIsFaithful(items: map<string, Receipt>, c: Command, r: CommandResult, at: int,
                         after: map<string, Receipt>)
    requires Tracked(c) && r.commandId == c.id && IsUpsert(items, ResultReceipt(r, at), after) && Key(c) in after
    ensures Replays(after, c)
    ensures ReplayOf(c, after[Key(c)]) == [Answer(r), Final(c, r)]
  {
    TrimTwice(c.id);
    UpsertEntry(items, ResultReceipt(r, at), after, Key(c));
  }

  /** The next delivery of a command that still runs is told so, and nothing else. */
  lemma ReplayOfRunning(items: map<string, Receipt>, c: Command, at: int, after: map<string, Receipt>)
    requires Tracked(c) && IsUpsert(items, RunningReceipt(c.id, at), after) && Key(c) in after
    ensures Replays(after, c)
    ensures ReplayOf(c, after[Key(c)]) == [Progress(c.id, Some(Running), "", [], "")]
  {
    TrimTwice(c.id);
    UpsertEntry(items, RunningReceipt(c.id, at), after, Key(c));
  }
}
