/** Command execution over deliveries, retries and restarts: what the receipts guarantee, and what they do not. */
module Dispatch {
  import opened Text
  import opened Inbox

  /** A dashboard command; `streaming` stands for `IsStreamingCommand` of its type, `touchesContainers` for the
      types that are followed by a container refresh. */
  datatype Command = Command(id: string, streaming: bool, touchesContainers: bool)

  /** Commands that reach the inbox: not streaming, and with an id. */
  predicate Tracked(c: Command) { !Blank(c.id) && !c.streaming }

  function Key(c: Command): string { TrimSpace(c.id) }

  predicate Terminal(s: Status) { s == Succeeded || s == Failed }

  /** `replayIdempotentCommand` answers instead of running the command. */
  predicate Replays(items: map<string, Receipt>, c: Command) {
    && c.id != "" && !c.streaming && Key(c) in items
    && (Terminal(items[Key(c)].status) || items[Key(c)].status == Running)
  }

  /** One goroutine: past the receipt check but not marked running yet, executing, or finished with its receipt
      written and its result not queued yet. */
  datatype Job = Passed(cmd: Command) | Executing(cmd: Command) | Recorded(cmd: Command, result: CommandResult)

  /** `items` is both the inbox and its file. `jobs` are the goroutines. The rest is history: a count of starts,
      of evictions and of overlaps by key, every receipt written, and every result fact queued with the key it
      is for. A delivery overlaps when it passes the receipt check while another delivery of the same command
      has passed it and not been marked. */
  datatype Agent = Agent(items: map<string, Receipt>, jobs: seq<Job>, starts: multiset<string>,
                         evictions: multiset<string>, overlaps: multiset<string>, written: set<Receipt>,
                         facts: seq<(string, CommandResult)>)

  /** Each step is one critical section. `after` is the inbox an update leaves; several are possible when the
      oldest entry is not unique. */
  datatype Step =
    | Deliver(cmd: Command)
    | Begin(job: nat, at: int, after: map<string, Receipt>)
    | Finish(job: nat, result: CommandResult, at: int, after: map<string, Receipt>)
    | Publish(job: nat)
    | Restart

  function Init(): Agent { Agent(map[], [], multiset{}, multiset{}, multiset{}, {}, []) }

  predicate Hit(j: Job, k: string, passed: bool) { Tracked(j.cmd) && Key(j.cmd) == k && j.Passed? == passed }

  function One(b: bool): nat { if b then 1 else 0 }

  function Tally(jobs: seq<Job>, k: string, passed: bool): nat {
    if jobs == [] then 0
    else Tally(jobs[..|jobs| - 1], k, passed) + One(Hit(jobs[|jobs| - 1], k, passed))
  }

  /** Deliveries of `k` between the check and the mark. */
  function Passing(jobs: seq<Job>, k: string): nat { Tally(jobs, k, true) }

  /** Runs of `k` that have begun and whose result is not queued. */
  function Open(jobs: seq<Job>, k: string): nat { Tally(jobs, k, false) }

  /** Result facts queued for `k`. */
  function Published(facts: seq<(string, CommandResult)>, k: string): nat {
    if facts == [] then 0
    else Published(facts[..|facts| - 1], k) + One(facts[|facts| - 1].0 == k)
  }

  /** Persistence succeeds. */
  ghost predicate Can(a: Agent, step: Step) {
    match step
    case Deliver(_) => true
    case Begin(j, at, after) =>
      j < |a.jobs| && a.jobs[j].Passed? &&
      if Tracked(a.jobs[j].cmd) then IsUpsert(a.items, RunningReceipt(a.jobs[j].cmd.id, at), after)
      else after == a.items
    case Finish(j, r, at, after) =>
      j < |a.jobs| && a.jobs[j].Executing? && r.commandId == a.jobs[j].cmd.id &&
      if a.jobs[j].cmd.streaming then after == a.items else IsUpsert(a.items, ResultReceipt(r, at), after)
    case Publish(j) => j < |a.jobs| && a.jobs[j].Recorded?
    case Restart => true
  }

  /** Keys an inbox update made disappear. */
  function Gone(before: map<string, Receipt>, after: map<string, Receipt>, key: string): multiset<string> {
    multiset((before.Keys + {key}) - after.Keys)
  }

  function Overlap(a: Agent, c: Command): multiset<string> {
    if Tracked(c) && Passing(a.jobs, Key(c)) > 0 then multiset{Key(c)} else multiset{}
  }

  function After(a: Agent, step: Step): Agent
    requires Can(a, step)
  {
    match step
    case Deliver(c) =>
      if Replays(a.items, c) then a
      else a.(jobs := a.jobs + [Passed(c)], overlaps := a.overlaps + Overlap(a, c))
    case Begin(j, at, after) =>
      var c := a.jobs[j].cmd;
      if Tracked(c) then
        a.(items := after, jobs := a.jobs[j := Executing(c)], starts := a.starts + multiset{Key(c)},
           evictions := a.evictions + Gone(a.items, after, Key(c)), written := a.written + {RunningReceipt(c.id, at)})
      else a.(jobs := a.jobs[j := Executing(c)])
    case Finish(j, r, at, after) =>
      var c := a.jobs[j].cmd;
      if c.id == "" || c.streaming then a.(jobs := a.jobs[..j] + a.jobs[j + 1..])
      else if Blank(c.id) then a.(jobs := a.jobs[j := Recorded(c, r)])
      else
        a.(items := after, jobs := a.jobs[j := Recorded(c, r)],
           evictions := a.evictions + Gone(a.items, after, Key(c)), written := a.written + {ResultReceipt(r, at)})
    case Publish(j) =>
      a.(jobs := a.jobs[..j] + a.jobs[j + 1..], facts := a.facts + [(Key(a.jobs[j].cmd), a.jobs[j].result)])
    case Restart => a.(jobs := [])
  }

  ghost predicate Runs(a: Agent, steps: seq<Step>)
    decreases |steps|
  {
    steps == [] || (Can(a, steps[0]) && Runs(After(a, steps[0]), steps[1..]))
  }

  ghost function End(a: Agent, steps: seq<Step>): Agent
    requires Runs(a, steps)
    decreases |steps|
  {
    if steps == [] then a else End(After(a, steps[0]), steps[1..])
  }

  // ---------------------------------------------------------------- invariant

  /** A receipt written for this very command with a final status and this very result. */
  ghost predicate HasReceipt(a: Agent, r: CommandResult) {
    exists w :: w in a.written && w.commandId == TrimSpace(r.commandId) && w.result == r
                && w.status == if r.success then Succeeded else Failed
  }

  /** The counts of one key. */
  predicate Once(a: Agent, k: string) {
    && a.starts[k] + Passing(a.jobs, k)
       <= a.evictions[k] + a.overlaps[k] + One(k in a.items || Passing(a.jobs, k) > 0)
    && Published(a.facts, k) + Open(a.jobs, k) <= a.starts[k]
  }

  /** A receipt says what is known of `k`: that it runs, or a result of its own that ended that way. */
  predicate Known(k: string, r: Receipt) {
    || r.status == Running
    || (TrimSpace(r.result.commandId) == k && r.status == if r.result.success then Succeeded else Failed)
  }

  /** A finished job reports a result its receipt has. */
  ghost predicate JobBacked(a: Agent, j: Job) {
    j.Recorded? ==>
      !j.cmd.streaming && j.result.commandId == j.cmd.id && (!Blank(Key(j.cmd)) ==> HasReceipt(a, j.result))
  }

  ghost predicate FactBacked(a: Agent, f: (string, CommandResult)) {
    TrimSpace(f.1.commandId) == f.0 && (!Blank(f.0) ==> HasReceipt(a, f.1))
  }

  ghost predicate Backed(a: Agent) {
    && (forall k :: k in a.items ==> !Blank(k) && Known(k, a.items[k]))
    && (forall j :: j in a.jobs ==> JobBacked(a, j))
    && (forall f :: f in a.facts ==> FactBacked(a, f))
  }

  ghost predicate Inv(a: Agent) { Backed(a) && forall k :: !Blank(k) ==> Once(a, k) }

  // ---------------------------------------------------------------- counting

  lemma {:induction false} TallyConcat(a: seq<Job>, b: seq<Job>, k: string, passed: bool)
    ensures Tally(a + b, k, passed) == Tally(a, k, passed) + Tally(b, k, passed)
  {
    if b == [] {
      assert a + b == a;
    } else {
      assert (a + b)[..|a + b| - 1] == a + b[..|b| - 1];
      TallyConcat(a, b[..|b| - 1], k, passed);
    }
  }

  lemma TallySnoc(jobs: seq<Job>, j: Job, k: string, passed: bool)
    ensures Tally(jobs + [j], k, passed) == Tally(jobs, k, passed) + One(Hit(j, k, passed))
  {
    assert (jobs + [j])[..|jobs|] == jobs;
  }

  lemma TallySplit(jobs: seq<Job>, j: nat, k: string, passed: bool)
    requires j < |jobs|
    ensures Tally(jobs, k, passed)
            == Tally(jobs[..j], k, passed) + One(Hit(jobs[j], k, passed)) + Tally(jobs[j + 1..], k, passed)
  {
    assert jobs == (jobs[..j] + [jobs[j]]) + jobs[j + 1..];
    TallyConcat(jobs[..j] + [jobs[j]], jobs[j + 1..], k, passed);
    TallySnoc(jobs[..j], jobs[j], k, passed);
  }

  lemma TallyRemove(jobs: seq<Job>, j: nat, k: string, passed: bool)
    requires j < |jobs|
    ensures Tally(jobs[..j] + jobs[j + 1..], k, passed) + One(Hit(jobs[j], k, passed)) == Tally(jobs, k, passed)
  {
    TallySplit(jobs, j, k, passed);
    TallyConcat(jobs[..j], jobs[j + 1..], k, passed);
  }

  lemma TallyUpdate(jobs: seq<Job>, j: nat, job: Job, k: string, passed: bool)
    requires j < |jobs|
    ensures Tally(jobs[j := job], k, passed) + One(Hit(jobs[j], k, passed))
            == Tally(jobs, k, passed) + One(Hit(job, k, passed))
  {
    var jobs' := jobs[j := job];
    TallySplit(jobs, j, k, passed);
    TallySplit(jobs', j, k, passed);
    assert jobs'[..j] == jobs[..j] && jobs'[j + 1..] == jobs[j + 1..];
  }

  lemma PublishedSnoc(facts: seq<(string, CommandResult)>, f: (string, CommandResult), k: string)
    ensures Published(facts + [f], k) == Published(facts, k) + One(f.0 == k)
  {
    assert (facts + [f])[..|facts|] == facts;
  }

  /** What an update can do to the presence of one key. */
  lemma UpsertKey(items: map<string, Receipt>, next: Receipt, after: map<string, Receipt>, k: string)
    requires IsUpsert(items, next, after) && !Blank(next.commandId)
    ensures k in after ==> k in items || k == next.commandId
    ensures k in after ==> after[k] == if k == next.commandId then next else items[k]
    ensures Gone(items, after, next.commandId)[k] == One((k in items || k == next.commandId) && k !in after)
  {
  }

  /** What one step does to the counts of `k`, all but the inbox: `passing`, `open`, starts and facts. */
  datatype Counts = Counts(passing: nat, open: nat, starts: nat, facts: nat)

  function CountsOf(a: Agent, k: string): Counts {
    Counts(Passing(a.jobs, k), Open(a.jobs, k), a.starts[k], Published(a.facts, k))
  }

  lemma DeliverCounts(a: Agent, c: Command, k: string)
    requires !Replays(a.items, c)
    ensures var n := CountsOf(a, k);
            CountsOf(After(a, Deliver(c)), k) == n.(passing := n.passing + One(Tracked(c) && Key(c) == k))
  {
    TallySnoc(a.jobs, Passed(c), k, true);
    TallySnoc(a.jobs, Passed(c), k, false);
  }

  lemma BeginCounts(a: Agent, j: nat, at: int, after: map<string, Receipt>, k: string)
    requires Can(a, Begin(j, at, after))
    ensures var n, hit := CountsOf(a, k), One(Tracked(a.jobs[j].cmd) && Key(a.jobs[j].cmd) == k);
            && hit <= n.passing
            && CountsOf(After(a, Begin(j, at, after)), k)
               == n.(passing := n.passing - hit, open := n.open + hit, starts := n.starts + hit)
  {
    var job := Executing(a.jobs[j].cmd);
    TallySplit(a.jobs, j, k, true);
    TallyUpdate(a.jobs, j, job, k, true);
    TallyUpdate(a.jobs, j, job, k, false);
  }

  /** A job that stays in the same phase, or goes without having counted, leaves the tallies alone. */
  lemma FinishTally(jobs: seq<Job>, j: nat, r: CommandResult, k: string, passed: bool)
    requires j < |jobs| && jobs[j].Executing?
    ensures Tally(jobs[j := Recorded(jobs[j].cmd, r)], k, passed) == Tally(jobs, k, passed)
    ensures !Tracked(jobs[j].cmd) ==> Tally(jobs[..j] + jobs[j + 1..], k, passed) == Tally(jobs, k, passed)
  {
    TallyRemove(jobs, j, k, passed);
    TallyUpdate(jobs, j, Recorded(jobs[j].cmd, r), k, passed);
  }

  lemma FinishCounts(a: Agent, j: nat, r: CommandResult, at: int, after: map<string, Receipt>, k: string)
    requires Can(a, Finish(j, r, at, after))
    ensures CountsOf(After(a, Finish(j, r, at, after)), k) == CountsOf(a, k)
  {
    FinishTally(a.jobs, j, r, k, true);
    FinishTally(a.jobs, j, r, k, false);
    assert Blank("");
  }

  /** A job about to publish for a non-blank key counts as open for it. */
  lemma RecordedHits(j: Job, k: string)
    requires j.Recorded? && !j.cmd.streaming && !Blank(k)
    ensures Hit(j, k, false) <==> Key(j.cmd) == k
  {
    TrimTwice(j.cmd.id);
  }

  lemma PublishCounts(a: Agent, j: nat, k: string)
    requires Backed(a) && Can(a, Publish(j)) && !Blank(k)
    ensures var n, hit := CountsOf(a, k), One(Key(a.jobs[j].cmd) == k);
            hit <= n.open && CountsOf(After(a, Publish(j)), k) == n.(open := n.open - hit, facts := n.facts + hit)
  {
    assert JobBacked(a, a.jobs[j]);
    RecordedHits(a.jobs[j], k);
    TallyRemove(a.jobs, j, k, true);
    TallyRemove(a.jobs, j, k, false);
    PublishedSnoc(a.facts, (Key(a.jobs[j].cmd), a.jobs[j].result), k);
  }

  // ---------------------------------------------------------------- one step keeps it

  lemma DeliverOnce(a: Agent, c: Command, k: string)
    requires Backed(a) && Once(a, k)
    ensures Once(After(a, Deliver(c)), k)
  {
    assert k in a.items ==> Known(k, a.items[k]);
    if !Replays(a.items, c) { DeliverCounts(a, c, k); }
  }

  lemma BeginOnce(a: Agent, j: nat, at: int, after: map<string, Receipt>, k: string)
    requires Once(a, k) && Can(a, Begin(j, at, after))
    ensures Once(After(a, Begin(j, at, after)), k)
  {
    var c := a.jobs[j].cmd;
    BeginCounts(a, j, at, after, k);
    TrimTwice(c.id);
    if Tracked(c) { UpsertKey(a.items, RunningReceipt(c.id, at), after, k); }
  }

  lemma FinishOnce(a: Agent, j: nat, r: CommandResult, at: int, after: map<string, Receipt>, k: string)
    requires Once(a, k) && Can(a, Finish(j, r, at, after)) && !Blank(k)
    ensures Once(After(a, Finish(j, r, at, after)), k)
  {
    var c := a.jobs[j].cmd;
    FinishCounts(a, j, r, at, after, k);
    TrimTwice(c.id);
    if Tracked(c) { UpsertKey(a.items, ResultReceipt(r, at), after, k); }
  }

  /** New jobs and facts must be backed; the old ones stay so, because receipts are only added. */
  lemma BackedGrows(a: Agent, a': Agent)
    requires Backed(a) && a.written <= a'.written
    requires forall k :: k in a'.items ==> !Blank(k) && Known(k, a'.items[k])
    requires forall j :: j in a'.jobs && j !in a.jobs ==> JobBacked(a', j)
    requires forall f :: f in a'.facts && f !in a.facts ==> FactBacked(a', f)
    ensures Backed(a')
  {
    forall r | HasReceipt(a, r) ensures HasReceipt(a', r) {}
    forall j | j in a'.jobs ensures JobBacked(a', j) { assert j in a.jobs ==> JobBacked(a, j); }
    forall f | f in a'.facts ensures FactBacked(a', f) { assert f in a.facts ==> FactBacked(a, f); }
  }

  /** Updating the inbox with a receipt of the agent's own keeps it readable. */
  lemma UpsertKnown(items: map<string, Receipt>, next: Receipt, after: map<string, Receipt>)
    requires forall k :: k in items ==> !Blank(k) && Known(k, items[k])
    requires IsUpsert(items, next, after) && !Blank(next.commandId) && Known(next.commandId, next)
    ensures forall k :: k in after ==> !Blank(k) && Known(k, after[k])
  {
    forall k | k in after ensures !Blank(k) && Known(k, after[k]) { UpsertKey(items, next, after, k); }
  }

  /** Jobs with one of them moved on, or gone. */
  lemma JobsOf(jobs: seq<Job>, j: nat, job: Job)
    requires j < |jobs|
    ensures forall x :: x in jobs[j := job] ==> x == job || x in jobs
    ensures forall x :: x in jobs[..j] + jobs[j + 1..] ==> x in jobs
  {
  }

  lemma BeginBacked(a: Agent, j: nat, at: int, after: map<string, Receipt>)
    requires Backed(a) && Can(a, Begin(j, at, after))
    ensures Backed(After(a, Begin(j, at, after)))
  {
    var c := a.jobs[j].cmd;
    TrimTwice(c.id);
    JobsOf(a.jobs, j, Executing(c));
    if Tracked(c) { UpsertKnown(a.items, RunningReceipt(c.id, at), after); }
    BackedGrows(a, After(a, Begin(j, at, after)));
  }

  lemma FinishTrackedBacked(a: Agent, j: nat, r: CommandResult, at: int, after: map<string, Receipt>)
    requires Backed(a) && Can(a, Finish(j, r, at, after)) && Tracked(a.jobs[j].cmd)
    ensures Backed(After(a, Finish(j, r, at, after)))
  {
    var a', c := After(a, Finish(j, r, at, after)), a.jobs[j].cmd;
    TrimTwice(c.id);
    JobsOf(a.jobs, j, Recorded(c, r));
    UpsertKnown(a.items, ResultReceipt(r, at), after);
    assert ResultReceipt(r, at) in a'.written && HasReceipt(a', r);
    BackedGrows(a, a');
  }

  lemma FinishBacked(a: Agent, j: nat, r: CommandResult, at: int, after: map<string, Receipt>)
    requires Backed(a) && Can(a, Finish(j, r, at, after))
    ensures Backed(After(a, Finish(j, r, at, after)))
  {
    if Tracked(a.jobs[j].cmd) {
      FinishTrackedBacked(a, j, r, at, after);
    } else {
      TrimTwice(a.jobs[j].cmd.id);
      JobsOf(a.jobs, j, Recorded(a.jobs[j].cmd, r));
      BackedGrows(a, After(a, Finish(j, r, at, after)));
    }
  }

  lemma PublishBacked(a: Agent, j: nat)
    requires Backed(a) && Can(a, Publish(j))
    ensures Backed(After(a, Publish(j)))
  {
    var a' := After(a, Publish(j));
    assert JobBacked(a, a.jobs[j]);
    assert HasReceipt(a, a.jobs[j].result) ==> HasReceipt(a', a.jobs[j].result);
    JobsOf(a.jobs, j, a.jobs[j]);
    BackedGrows(a, a');
  }

  lemma StepBacked(a: Agent, step: Step)
    requires Backed(a) && Can(a, step)
    ensures Backed(After(a, step))
  {
    match step
    case Deliver(c) => if !Replays(a.items, c) { BackedGrows(a, After(a, Deliver(c))); }
    case Begin(j, at, after) => BeginBacked(a, j, at, after);
    case Finish(j, r, at, after) => FinishBacked(a, j, r, at, after);
    case Publish(j) => PublishBacked(a, j);
    case Restart => BackedGrows(a, After(a, Restart));
  }

  lemma StepOnce(a: Agent, step: Step, k: string)
    requires Backed(a) && Once(a, k) && Can(a, step) && !Blank(k)
    ensures Once(After(a, step), k)
  {
    match step
    case Deliver(c) => DeliverOnce(a, c, k);
    case Begin(j, at, after) => BeginOnce(a, j, at, after, k);
    case Finish(j, r, at, after) => FinishOnce(a, j, r, at, after, k);
    case Publish(j) => PublishCounts(a, j, k);
    case Restart =>
  }

  lemma StepKeeps(a: Agent, step: Step)
    requires Inv(a) && Can(a, step)
    ensures Inv(After(a, step))
  {
    StepBacked(a, step);
    forall k: string | !Blank(k) ensures Once(After(a, step), k) {
      assert Once(a, k);
      StepOnce(a, step, k);
    }
  }

  lemma {:induction false} RunKeeps(a: Agent, steps: seq<Step>)
    requires Inv(a) && Runs(a, steps)
    ensures Inv(End(a, steps))
    decreases |steps|
  {
    if steps != [] {
      StepKeeps(a, steps[0]);
      RunKeeps(After(a, steps[0]), steps[1..]);
    }
  }

  // ---------------------------------------------------------------- what follows for whole runs

  /** At most once per receipt: over any deliveries, retries and restarts, interleaved at the critical sections
      the code has, a command starts at most once more often than its receipt was evicted and its deliveries
      overlapped; it queues at most one result per start, and each queued result is one its own receipt
      recorded first. */
  lemma AtMostOnce(steps: seq<Step>, k: string)
    requires Runs(Init(), steps) && !Blank(k)
    ensures var a := End(Init(), steps);
            && a.starts[k] <= a.evictions[k] + a.overlaps[k] + 1
            && Published(a.facts, k) <= a.starts[k]
            && forall i :: 0 <= i < |a.facts| && a.facts[i].0 == k ==>
                 TrimSpace(a.facts[i].1.commandId) == k && HasReceipt(a, a.facts[i].1)
  {
    RunKeeps(Init(), steps);
    var a := End(Init(), steps);
    assert Once(a, k);
    forall i | 0 <= i < |a.facts| && a.facts[i].0 == k
      ensures TrimSpace(a.facts[i].1.commandId) == k && HasReceipt(a, a.facts[i].1)
    {
      assert FactBacked(a, a.facts[i]);
    }
  }

  /** In every state a run can reach, a delivery starts a job if and only if the command is a streaming one, has no
      id, or has no receipt under its id, white space aside. */
  lemma PassesIff(steps: seq<Step>, c: Command)
    requires Runs(Init(), steps)
    ensures var a := End(Init(), steps);
            if c.streaming || c.id == "" || TrimSpace(c.id) !in a.items
            then After(a, Deliver(c)).jobs == a.jobs + [Passed(c)]
            else After(a, Deliver(c)) == a
  {
    RunKeeps(Init(), steps);
    var a := End(Init(), steps);
    if TrimSpace(c.id) in a.items { assert Known(TrimSpace(c.id), a.items[TrimSpace(c.id)]); }
  }

  /** A receipt is a started command's. */
  predicate Earned(a: Agent, k: string) { k in a.items ==> a.starts[k] > 0 }

  lemma StepEarned(a: Agent, step: Step, k: string)
    requires Inv(a) && Earned(a, k) && Can(a, step) && !Blank(k)
    ensures Earned(After(a, step), k)
  {
    assert Once(a, k);
    match step
    case Begin(j, at, after) =>
      BeginCounts(a, j, at, after, k);
      TrimTwice(a.jobs[j].cmd.id);
      if Tracked(a.jobs[j].cmd) { UpsertKey(a.items, RunningReceipt(a.jobs[j].cmd.id, at), after, k); }
    case Finish(j, r, at, after) =>
      TallySplit(a.jobs, j, k, false);
      TrimTwice(a.jobs[j].cmd.id);
      if Tracked(a.jobs[j].cmd) { UpsertKey(a.items, ResultReceipt(r, at), after, k); }
    case _ =>
  }

  lemma {:induction false} RunEarned(a: Agent, steps: seq<Step>, k: string)
    requires Inv(a) && Earned(a, k) && Runs(a, steps) && !Blank(k)
    ensures Earned(End(a, steps), k)
    decreases |steps|
  {
    if steps != [] {
      StepKeeps(a, steps[0]);
      StepEarned(a, steps[0], k);
      RunEarned(After(a, steps[0]), steps[1..], k);
    }
  }

  /** Over every run a receipt tells the truth: its command was started, and a final status is that of a result of
      this very command. */
  lemma ReceiptsAreTrue(steps: seq<Step>, k: string)
    requires Runs(Init(), steps) && k in End(Init(), steps).items
    ensures var a := End(Init(), steps);
            && a.starts[k] > 0
            && a.items[k].status in {Running, Succeeded, Failed}
            && (a.items[k].status != Running ==>
                  && TrimSpace(a.items[k].result.commandId) == k
                  && (a.items[k].status == Succeeded <==> a.items[k].result.success))
  {
    RunKeeps(Init(), steps);
    var a := End(Init(), steps);
    assert !Blank(k) && Known(k, a.items[k]);
    RunEarned(Init(), steps, k);
  }

  // ---------------------------------------------------------------- exactly when a command runs once

  /** No restart takes a delivery that has passed the receipt check and not been marked. */
  ghost predicate Unbroken(a: Agent, steps: seq<Step>, k: string)
    requires Runs(a, steps)
    decreases |steps|
  {
    || steps == []
    || ((steps[0].Restart? ==> Passing(a.jobs, k) == 0) && Unbroken(After(a, steps[0]), steps[1..], k))
  }

  /** Without evictions and broken deliveries every start but the first comes from an overlap. */
  predicate Exact(a: Agent, k: string) {
    && a.starts[k] + Passing(a.jobs, k) == a.overlaps[k] + One(k in a.items || Passing(a.jobs, k) > 0)
    && (a.starts[k] > 0 ==> k in a.items)
    && Published(a.facts, k) + Open(a.jobs, k) <= a.starts[k]
  }

  lemma DeliverExact(a: Agent, c: Command, k: string)
    requires Backed(a) && Exact(a, k)
    ensures Exact(After(a, Deliver(c)), k)
  {
    assert k in a.items ==> Known(k, a.items[k]);
    if !Replays(a.items, c) { DeliverCounts(a, c, k); }
  }

  lemma BeginExact(a: Agent, j: nat, at: int, after: map<string, Receipt>, k: string)
    requires Exact(a, k) && Can(a, Begin(j, at, after))
    requires After(a, Begin(j, at, after)).evictions[k] == a.evictions[k]
    ensures Exact(After(a, Begin(j, at, after)), k)
  {
    var c := a.jobs[j].cmd;
    BeginCounts(a, j, at, after, k);
    TrimTwice(c.id);
    if Tracked(c) { UpsertKey(a.items, RunningReceipt(c.id, at), after, k); }
  }

  lemma FinishExact(a: Agent, j: nat, r: CommandResult, at: int, after: map<string, Receipt>, k: string)
    requires Exact(a, k) && Can(a, Finish(j, r, at, after)) && !Blank(k)
    requires After(a, Finish(j, r, at, after)).evictions[k] == a.evictions[k]
    ensures Exact(After(a, Finish(j, r, at, after)), k)
  {
    var c := a.jobs[j].cmd;
    FinishCounts(a, j, r, at, after, k);
    TallySplit(a.jobs, j, k, false);
    TrimTwice(c.id);
    if Tracked(c) { UpsertKey(a.items, ResultReceipt(r, at), after, k); }
  }

  lemma StepExact(a: Agent, step: Step, k: string)
    requires Backed(a) && Exact(a, k) && Can(a, step) && !Blank(k)
    requires After(a, step).evictions[k] == a.evictions[k] && (step.Restart? ==> Passing(a.jobs, k) == 0)
    ensures Exact(After(a, step), k)
  {
    match step
    case Deliver(c) => DeliverExact(a, c, k);
    case Begin(j, at, after) => BeginExact(a, j, at, after, k);
    case Finish(j, r, at, after) => FinishExact(a, j, r, at, after, k);
    case Publish(j) => PublishCounts(a, j, k);
    case Restart =>
  }

  lemma {:induction false} RunExact(a: Agent, steps: seq<Step>, k: string)
    requires Backed(a) && Exact(a, k) && Runs(a, steps) && Unbroken(a, steps, k) && !Blank(k)
    requires End(a, steps).evictions[k] == a.evictions[k]
    ensures Exact(End(a, steps), k)
    decreases |steps|
  {
    if steps != [] {
      StepEvictions(a, steps[0], k);
      EvictionsGrow(After(a, steps[0]), steps[1..], k);
      StepExact(a, steps[0], k);
      StepBacked(a, steps[0]);
      RunExact(After(a, steps[0]), steps[1..], k);
    }
  }

  /** Exactly once or more: in a run that evicts no receipt of `k` and breaks off no delivery of it before its
      mark, the command has started, or is bound to start, at most once if and only if no two of its deliveries
      overlapped; and each overlap costs exactly one more start. */
  lemma RunsOnceIff(steps: seq<Step>, k: string)
    requires Runs(Init(), steps) && Unbroken(Init(), steps, k) && !Blank(k)
    requires End(Init(), steps).evictions[k] == 0
    ensures var a := End(Init(), steps);
            && (a.starts[k] + Passing(a.jobs, k) <= 1 <==> a.overlaps[k] == 0)
            && (a.overlaps[k] > 0 ==> a.starts[k] + Passing(a.jobs, k) == a.overlaps[k] + 1)
  {
    RunExact(Init(), steps, k);
  }

  /** Keys that deliveries and running jobs are about. */
  ghost predicate About(a: Agent, ids: set<string>) {
    && a.items.Keys <= ids && a.evictions == multiset{}
    && forall j :: j in a.jobs ==> Key(j.cmd) in ids
  }

  lemma FitsWithoutEviction(items: map<string, Receipt>, next: Receipt, after: map<string, Receipt>, ids: set<string>)
    requires IsUpsert(items, next, after) && items.Keys + {next.commandId} <= ids && |ids| <= INBOX_CAP
    ensures after.Keys <= ids
    ensures !Blank(next.commandId) ==> Gone(items, after, next.commandId) == multiset{}
  {
    var full := items[next.commandId := next];
    assert ids == full.Keys + (ids - full.Keys);
  }

  /** The inbox and the evictions after a tracked command's update. */
  lemma UpdateFits(a: Agent, c: Command, next: Receipt, after: map<string, Receipt>, ids: set<string>)
    requires About(a, ids) && |ids| <= INBOX_CAP && Key(c) in ids && Tracked(c)
    requires next.commandId == Key(c) && IsUpsert(a.items, next, after)
    ensures after.Keys <= ids && a.evictions + Gone(a.items, after, Key(c)) == multiset{}
  {
    TrimTwice(c.id);
    FitsWithoutEviction(a.items, next, after, ids);
  }

  lemma AboutBegin(a: Agent, j: nat, at: int, after: map<string, Receipt>, ids: set<string>)
    requires About(a, ids) && Can(a, Begin(j, at, after)) && |ids| <= INBOX_CAP
    ensures About(After(a, Begin(j, at, after)), ids)
  {
    var c := a.jobs[j].cmd;
    JobsOf(a.jobs, j, Executing(c));
    if Tracked(c) { UpdateFits(a, c, RunningReceipt(c.id, at), after, ids); }
  }

  lemma AboutFinish(a: Agent, j: nat, r: CommandResult, at: int, after: map<string, Receipt>, ids: set<string>)
    requires About(a, ids) && Can(a, Finish(j, r, at, after)) && |ids| <= INBOX_CAP
    ensures About(After(a, Finish(j, r, at, after)), ids)
  {
    var c := a.jobs[j].cmd;
    JobsOf(a.jobs, j, Recorded(c, r));
    if Tracked(c) { UpdateFits(a, c, ResultReceipt(r, at), after, ids); }
  }

  lemma AboutStep(a: Agent, step: Step, ids: set<string>)
    requires About(a, ids) && Can(a, step) && |ids| <= INBOX_CAP
    requires step.Deliver? ==> Key(step.cmd) in ids
    ensures About(After(a, step), ids)
  {
    match step
    case Begin(j, at, after) => AboutBegin(a, j, at, after, ids);
    case Finish(j, r, at, after) => AboutFinish(a, j, r, at, after, ids);
    case Publish(j) => JobsOf(a.jobs, j, a.jobs[j]);
    case _ =>
  }

  lemma {:induction false} NothingEvicted(a: Agent, steps: seq<Step>, ids: set<string>)
    requires About(a, ids) && Runs(a, steps) && |ids| <= INBOX_CAP
    requires forall i :: 0 <= i < |steps| && steps[i].Deliver? ==> Key(steps[i].cmd) in ids
    ensures About(End(a, steps), ids)
    decreases |steps|
  {
    if steps != [] {
      AboutStep(a, steps[0], ids);
      NothingEvicted(After(a, steps[0]), steps[1..], ids);
    }
  }

  /** With at most 256 command ids in play nothing is evicted: a command whose deliveries never overlap runs at
      most once and queues at most one result, through every retry and restart; and if no delivery was broken
      off, only such a command. */
  lemma ExecutedOnce(steps: seq<Step>, ids: set<string>, k: string)
    requires Runs(Init(), steps) && !Blank(k) && |ids| <= 256
    requires forall i :: 0 <= i < |steps| && steps[i].Deliver? ==> Key(steps[i].cmd) in ids
    ensures var a := End(Init(), steps);
            && a.starts[k] <= 1 + a.overlaps[k]
            && (a.overlaps[k] == 0 ==> a.starts[k] <= 1 && Published(a.facts, k) <= 1)
            && (Unbroken(Init(), steps, k) ==> (a.starts[k] + Passing(a.jobs, k) <= 1 <==> a.overlaps[k] == 0))
  {
    AtMostOnce(steps, k);
    NothingEvicted(Init(), steps, ids);
    if Unbroken(Init(), steps, k) { RunsOnceIff(steps, k); }
  }

  // ---------------------------------------------------------------- a retained receipt

  lemma StepEvictions(a: Agent, step: Step, k: string)
    requires Can(a, step)
    ensures a.evictions[k] <= After(a, step).evictions[k]
  {
  }

  lemma {:induction false} EvictionsGrow(a: Agent, steps: seq<Step>, k: string)
    requires Runs(a, steps)
    ensures a.evictions[k] <= End(a, steps).evictions[k]
    decreases |steps|
  {
    if steps != [] {
      StepEvictions(a, steps[0], k);
      EvictionsGrow(After(a, steps[0]), steps[1..], k);
    }
  }

  /** The receipt of `k` is there and no delivery is about to start another run. */
  predicate Settled(a: Agent, k: string) { k in a.items && Passing(a.jobs, k) == 0 }

  /** A settled receipt as a run without eviction may change it: only from running to final, never back, and
      no new run starts. */
  predicate Progressed(a: Agent, a': Agent, k: string)
    requires k in a.items
  {
    && Settled(a', k) && a'.starts[k] == a.starts[k]
    && (Terminal(a.items[k].status) ==> Terminal(a'.items[k].status))
    && (a'.items[k].status == Running ==> a'.items[k] == a.items[k])
  }

  lemma SettledDeliver(a: Agent, c: Command, k: string)
    requires Backed(a) && Settled(a, k) && !Blank(k)
    ensures Progressed(a, After(a, Deliver(c)), k)
    ensures CountsOf(After(a, Deliver(c)), k) == CountsOf(a, k)
  {
    assert Known(k, a.items[k]);
    if !Replays(a.items, c) { DeliverCounts(a, c, k); }
  }

  lemma SettledBegin(a: Agent, j: nat, at: int, after: map<string, Receipt>, k: string)
    requires Settled(a, k) && Can(a, Begin(j, at, after))
    requires After(a, Begin(j, at, after)).evictions[k] == a.evictions[k]
    ensures Progressed(a, After(a, Begin(j, at, after)), k)
    ensures CountsOf(After(a, Begin(j, at, after)), k) == CountsOf(a, k)
  {
    var c := a.jobs[j].cmd;
    BeginCounts(a, j, at, after, k);
    TrimTwice(c.id);
    if Tracked(c) { UpsertKey(a.items, RunningReceipt(c.id, at), after, k); }
  }

  lemma SettledFinish(a: Agent, j: nat, r: CommandResult, at: int, after: map<string, Receipt>, k: string)
    requires Settled(a, k) && Can(a, Finish(j, r, at, after)) && !Blank(k)
    requires After(a, Finish(j, r, at, after)).evictions[k] == a.evictions[k]
    ensures Progressed(a, After(a, Finish(j, r, at, after)), k)
    ensures !(Tracked(a.jobs[j].cmd) && Key(a.jobs[j].cmd) == k) ==>
              After(a, Finish(j, r, at, after)).items[k] == a.items[k]
  {
    var c := a.jobs[j].cmd;
    FinishCounts(a, j, r, at, after, k);
    TrimTwice(c.id);
    if Tracked(c) { UpsertKey(a.items, ResultReceipt(r, at), after, k); }
  }

  lemma SettledStep(a: Agent, step: Step, k: string)
    requires Backed(a) && Settled(a, k) && Can(a, step) && !Blank(k)
    requires After(a, step).evictions[k] == a.evictions[k]
    ensures Progressed(a, After(a, step), k)
  {
    match step
    case Deliver(c) => SettledDeliver(a, c, k);
    case Begin(j, at, after) => SettledBegin(a, j, at, after, k);
    case Finish(j, r, at, after) => SettledFinish(a, j, r, at, after, k);
    case Publish(j) => PublishCounts(a, j, k);
    case Restart =>
  }

  /** While its receipt is not evicted a settled command stays settled over any run: a final status stays
      final, a running one is the one that was there, and no further run starts. */
  lemma {:induction false} RetainedReceipt(a: Agent, steps: seq<Step>, k: string)
    requires Backed(a) && Settled(a, k) && Runs(a, steps) && !Blank(k)
    requires End(a, steps).evictions[k] == a.evictions[k]
    ensures Progressed(a, End(a, steps), k)
    decreases |steps|
  {
    if steps != [] {
      StepEvictions(a, steps[0], k);
      EvictionsGrow(After(a, steps[0]), steps[1..], k);
      SettledStep(a, steps[0], k);
      StepBacked(a, steps[0]);
      RetainedReceipt(After(a, steps[0]), steps[1..], k);
    }
  }

  // ---------------------------------------------------------------- what a crash costs

  /** No restart falls between a start of `k` and the queueing of its result. */
  ghost predicate Lossless(a: Agent, steps: seq<Step>, k: string)
    requires Runs(a, steps)
    decreases |steps|
  {
    || steps == []
    || ((steps[0].Restart? ==> Open(a.jobs, k) == 0) && Lossless(After(a, steps[0]), steps[1..], k))
  }

  /** Runs that have started and will not report. */
  function Missing(a: Agent, k: string): int { a.starts[k] - Published(a.facts, k) - Open(a.jobs, k) }

  lemma StepMissing(a: Agent, step: Step, k: string)
    requires Backed(a) && Can(a, step) && !Blank(k)
    ensures Missing(After(a, step), k) == Missing(a, k) + if step.Restart? then Open(a.jobs, k) else 0
  {
    match step
    case Deliver(c) => if !Replays(a.items, c) { DeliverCounts(a, c, k); }
    case Begin(j, at, after) => BeginCounts(a, j, at, after, k);
    case Finish(j, r, at, after) => FinishCounts(a, j, r, at, after, k);
    case Publish(j) => PublishCounts(a, j, k);
    case Restart =>
  }

  lemma {:induction false} MissingGrows(a: Agent, steps: seq<Step>, k: string)
    requires Backed(a) && Runs(a, steps) && !Blank(k)
    ensures Missing(End(a, steps), k) >= Missing(a, k)
    ensures Missing(End(a, steps), k) == Missing(a, k) <==> Lossless(a, steps, k)
    decreases |steps|
  {
    if steps != [] {
      StepMissing(a, steps[0], k);
      StepBacked(a, steps[0]);
      MissingGrows(After(a, steps[0]), steps[1..], k);
    }
  }

  /** Every start of a command has its result fact queued, or is still on its way there, if and only if no
      restart fell between a start of it and the queueing of the result. */
  lemma ResultsKeptIff(steps: seq<Step>, k: string)
    requires Runs(Init(), steps) && !Blank(k)
    ensures var a := End(Init(), steps);
            Published(a.facts, k) + Open(a.jobs, k) == a.starts[k] <==> Lossless(Init(), steps, k)
  {
    MissingGrows(Init(), steps, k);
  }

  /** Nobody is working on `k` any more, or about to. */
  predicate Abandoned(a: Agent, k: string) { Settled(a, k) && Open(a.jobs, k) == 0 }

  predicate Unmoved(a: Agent, a': Agent, k: string) {
    && k in a.items && Abandoned(a', k) && a'.items[k] == a.items[k] && a'.starts[k] == a.starts[k]
    && Published(a'.facts, k) == Published(a.facts, k)
  }

  lemma NotOpen(jobs: seq<Job>, j: nat, k: string)
    requires j < |jobs| && Open(jobs, k) == 0
    ensures !Hit(jobs[j], k, false)
  {
    TallySplit(jobs, j, k, false);
  }

  lemma AbandonedStep(a: Agent, step: Step, k: string)
    requires Backed(a) && Can(a, step) && !Blank(k) && Abandoned(a, k)
    requires After(a, step).evictions[k] == a.evictions[k]
    ensures Unmoved(a, After(a, step), k)
  {
    match step
    case Deliver(c) => SettledDeliver(a, c, k);
    case Begin(j, at, after) => AbandonedBegin(a, j, at, after, k);
    case Finish(j, r, at, after) =>
      NotOpen(a.jobs, j, k);
      SettledFinish(a, j, r, at, after, k);
      FinishCounts(a, j, r, at, after, k);
    case Publish(j) => PublishCounts(a, j, k);
    case Restart =>
  }

  lemma AbandonedBegin(a: Agent, j: nat, at: int, after: map<string, Receipt>, k: string)
    requires Can(a, Begin(j, at, after)) && !Blank(k) && Abandoned(a, k)
    requires After(a, Begin(j, at, after)).evictions[k] == a.evictions[k]
    ensures Unmoved(a, After(a, Begin(j, at, after)), k)
  {
    var c := a.jobs[j].cmd;
    TallySplit(a.jobs, j, k, true);
    SettledBegin(a, j, at, after, k);
    TrimTwice(c.id);
    if Tracked(c) { UpsertKey(a.items, RunningReceipt(c.id, at), after, k); }
  }

  /** Once nobody works on a command and its receipt is kept, its state is final: a receipt left running by a
      crash stays running and is never run again, and a result recorded but not yet queued is never queued,
      however often the command is delivered. */
  lemma {:induction false} AbandonedForGood(a: Agent, steps: seq<Step>, k: string)
    requires Backed(a) && Runs(a, steps) && !Blank(k) && Abandoned(a, k)
    requires End(a, steps).evictions[k] == a.evictions[k]
    ensures Unmoved(a, End(a, steps), k)
    decreases |steps|
  {
    if steps != [] {
      StepEvictions(a, steps[0], k);
      EvictionsGrow(After(a, steps[0]), steps[1..], k);
      AbandonedStep(a, steps[0], k);
      StepBacked(a, steps[0]);
      AbandonedForGood(After(a, steps[0]), steps[1..], k);
    }
  }

  /** A restart abandons exactly the commands with a receipt, and takes exactly their open runs. */
  lemma RestartAbandons(a: Agent, k: string)
    requires Backed(a) && !Blank(k)
    ensures Abandoned(After(a, Restart), k) <==> k in a.items
    ensures Missing(After(a, Restart), k) == Missing(a, k) + Open(a.jobs, k)
  {
    StepMissing(a, Restart, k);
  }

  // ---------------------------------------------------------------- overlapping deliveries

  function Marked(c: Command, at: int): map<string, Receipt> { map[Key(c) := RunningReceipt(c.id, at)] }

  /** Two deliveries of one command that both pass the check before either marks it. */
  function Race(c: Command, first: int, second: int): seq<Step> {
    [Deliver(c), Deliver(c), Begin(0, first, Marked(c, first)), Begin(1, second, Marked(c, second))]
  }

  lemma FourSteps(a: Agent, s1: Step, s2: Step, s3: Step, s4: Step)
    requires Can(a, s1) && Can(After(a, s1), s2) && Can(After(After(a, s1), s2), s3)
    requires Can(After(After(After(a, s1), s2), s3), s4)
    ensures Runs(a, [s1, s2, s3, s4])
    ensures End(a, [s1, s2, s3, s4]) == After(After(After(After(a, s1), s2), s3), s4)
  {
    var a1 := After(a, s1);
    var a2 := After(a1, s2);
    var a3 := After(a2, s3);
    var a4 := After(a3, s4);
    assert [s1, s2, s3, s4][1..] == [s2, s3, s4] && [s2, s3, s4][1..] == [s3, s4] && [s3, s4][1..] == [s4];
    assert [s4][1..] == [] && Runs(a4, []) && End(a4, []) == a4;
    assert Runs(a3, [s4]) && End(a3, [s4]) == a4;
    assert Runs(a2, [s3, s4]) && End(a2, [s3, s4]) == a4;
    assert Runs(a1, [s2, s3, s4]) && End(a1, [s2, s3, s4]) == a4;
  }

  lemma MarksOnce(items: map<string, Receipt>, c: Command, at: int)
    requires Tracked(c) && items.Keys <= {Key(c)}
    ensures IsUpsert(items, RunningReceipt(c.id, at), Marked(c, at))
    ensures Gone(items, Marked(c, at), Key(c)) == multiset{}
  {
    TrimTwice(c.id);
    assert items[Key(c) := RunningReceipt(c.id, at)] == Marked(c, at);
    assert |Marked(c, at)| == |{Key(c)}| by { assert Marked(c, at).Keys == {Key(c)}; }
  }

  lemma FirstPasses(c: Command)
    requires Tracked(c)
    ensures After(Init(), Deliver(c)) == Init().(jobs := [Passed(c)])
  {
    assert Overlap(Init(), c) == multiset{};
    assert [] + [Passed(c)] == [Passed(c)];
  }

  lemma SecondPasses(c: Command)
    requires Tracked(c)
    ensures var a := Init().(jobs := [Passed(c)]);
            After(a, Deliver(c)) == Init().(jobs := [Passed(c), Passed(c)], overlaps := multiset{Key(c)})
  {
    var a := Init().(jobs := [Passed(c)]);
    TallySnoc([], Passed(c), Key(c), true);
    assert [] + [Passed(c)] == [Passed(c)];
    assert Passing(a.jobs, Key(c)) == 1;
    assert Overlap(a, c) == multiset{Key(c)};
    assert [Passed(c)] + [Passed(c)] == [Passed(c), Passed(c)];
  }

  /** The two deliveries, and then the two marks. */
  lemma BothPass(c: Command)
    requires Tracked(c)
    ensures var a := After(After(Init(), Deliver(c)), Deliver(c));
            a == Init().(jobs := [Passed(c), Passed(c)], overlaps := multiset{Key(c)})
  {
    FirstPasses(c);
    SecondPasses(c);
  }

  lemma BothBegin(c: Command, first: int, second: int)
    requires Tracked(c)
    ensures var a := Init().(jobs := [Passed(c), Passed(c)], overlaps := multiset{Key(c)});
            var one, two := Begin(0, first, Marked(c, first)), Begin(1, second, Marked(c, second));
            && Can(a, one) && Can(After(a, one), two)
            && var a' := After(After(a, one), two);
               a'.starts == multiset{Key(c), Key(c)} && a'.overlaps == multiset{Key(c)} && a'.evictions == multiset{}
  {
    MarksOnce(map[], c, first);
    MarksOnce(Marked(c, first), c, second);
  }

  /** The bound of `AtMostOnce` is met: such a race is a run from the start, overlaps once, evicts nothing, and
      starts the command twice. */
  lemma RaceRunsTwice(c: Command, first: int, second: int)
    requires Tracked(c)
    ensures var steps, k := Race(c, first, second), Key(c);
            && Runs(Init(), steps)
            && var a := End(Init(), steps); a.starts[k] == 2 && a.overlaps[k] == 1 && a.evictions[k] == 0
  {
    var steps := Race(c, first, second);
    BothPass(c);
    BothBegin(c, first, second);
    FourSteps(Init(), steps[0], steps[1], steps[2], steps[3]);
  }
}
