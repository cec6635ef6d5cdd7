/** A concrete run, from a first start, that reaches a careless crash (see `Delivery.CarelessCrashLoses`). */
module CrashRun {
  import opened Text
  import opened Outbox
  import opened DurableBox
  import opened Delivery

  /** One record is all the log holds and there is no meta file yet. */
  lemma RecoverOne(i: Item)
    requires i.env.seqNo == 1
    ensures Recover("", Disk(Absent, [Record(i)])) == Mem("", 2, 0, map[1 := i], 0)
  {
    var log := [Record(i)];
    assert log[..0] == [] && Records([]) == [];
    assert Records(log) == [i];
    var st := Stock(1, map[]);
    assert [i][..0] == [] && Absorb(st, 0, []) == st;
    assert Absorb(st, 0, [i]) == Accept(st, 0, i);
  }

  /** The first enqueue of a new installation, cut off before its meta write. */
  lemma FirstEnqueue(env: Envelope, now: int)
    ensures var m, d, op := Fresh(""), Disk(Absent, []), Enqueue(env, "", now, None);
            var i := NewItem(m, env, "", now);
            && Enabled(m, op) && EnvFor(m, op) == i.env && i.env.seqNo == 1
            && |Writes(m, d, op)| == 2 && DiskAfter(m, d, op, 1) == Disk(Absent, [Record(i)])
  {
    assert [] + [Record(NewItem(Fresh(""), env, "", now))] == [Record(NewItem(Fresh(""), env, "", now))];
  }

  /** Acknowledging that only item is a careless compaction: the meta file is still missing. */
  lemma OnlyItemIsCareless(i: Item)
    requires i.env.seqNo == 1
    ensures var m, op := Mem("", 2, 0, map[1 := i], 0), Acknowledge(1);
            Enabled(m, op) && Careless(m, Disk(Absent, [Record(i)]), op)
            && |Writes(m, Disk(Absent, [Record(i)]), op)| == 2
  {
    assert AfterAck(Mem("", 2, 0, map[1 := i], 0), 1).items.Keys == {};
  }

  /** Crash in the first enqueue after its log write; restart; send, receive, acknowledge. */
  function Prefix(env: Envelope, now: int): seq<Step> {
    [Restart(""), Crash(Enqueue(env, "", now, None), 1), Restart(""), Send(1)]
  }

  /** The first two steps: a first start, and the crash in the first enqueue. */
  lemma UpToCrash(env: Envelope, now: int)
    requires !IsSignal(env)
    ensures var s0, i := Init(), NewItem(Fresh(""), env, "", now);
            var start, crash := Restart(""), Crash(Enqueue(env, "", now, None), 1);
            && Can(s0, start) && Can(After(s0, start), crash)
            && var s2 := After(After(s0, start), crash);
               && Inv(s2) && s2.live.None? && s2.disk == Disk(Absent, [Record(i)])
               && s2.w.wire == {} && s2.w.received == {}
  {
    var s0 := Init();
    InitHolds();
    FirstEnqueue(env, now);
    assert Recover("", s0.disk) == Fresh("");
    RestartKeeps(s0, "");
    CrashKeeps(After(s0, Restart("")), Enqueue(env, "", now, None), 1);
  }

  /** The next two: a restart, and the item is sent. */
  lemma UpToSend(s: Sys, i: Item)
    requires Inv(s) && s.live.None? && s.disk == Disk(Absent, [Record(i)]) && s.w.wire == {} && i.env.seqNo == 1
    ensures Can(s, Restart("")) && Can(After(s, Restart("")), Send(1))
    ensures var s' := After(After(s, Restart("")), Send(1));
            && Inv(s') && s'.disk == s.disk && s'.live == Some(Mem("", 2, 0, map[1 := i], 0))
            && s'.w.wire == {i.env} && s'.w.received == s.w.received
  {
    RecoverOne(i);
    RestartKeeps(s, "");
    NetworkStepKeeps(After(s, Restart("")), Send(1));
  }

  lemma PrefixRuns(env: Envelope, now: int)
    requires !IsSignal(env)
    ensures Runs(Init(), Prefix(env, now))
    ensures var s, i := End(Init(), Prefix(env, now)), NewItem(Fresh(""), env, "", now);
            && Inv(s) && s.disk == Disk(Absent, [Record(i)])
            && s.live == Some(Mem("", 2, 0, map[1 := i], 0)) && s.w.wire == {i.env} && s.w.received == {}
  {
    var steps := Prefix(env, now);
    UpToCrash(env, now);
    UpToSend(After(After(Init(), steps[0]), steps[1]), NewItem(Fresh(""), env, "", now));
    FourSteps(Init(), steps[0], steps[1], steps[2], steps[3]);
  }

  /** The item is received and acknowledged, and its acknowledgement is about to be applied. */
  function Delivered(env: Envelope): seq<Step> { [Receive(env), ServerAck(1)] }

  lemma DeliveredRuns(s: Sys, i: Item)
    requires Inv(s) && s.disk == Disk(Absent, [Record(i)]) && s.live == Some(Mem("", 2, 0, map[1 := i], 0))
    requires s.w.wire == {i.env} && i.env.seqNo == 1
    ensures Runs(s, Delivered(i.env))
    ensures var s' := End(s, Delivered(i.env));
            && Inv(s') && Can(s', Crash(Acknowledge(1), 1)) && !Careful(s', Crash(Acknowledge(1), 1))
            && s'.w.received == s.w.received + {i.env}
  {
    var steps := Delivered(i.env);
    NetworkStepKeeps(s, steps[0]);
    var s1 := After(s, steps[0]);
    assert i.env in s1.w.received && Has(s1.w.received, 1);
    NetworkStepKeeps(s1, steps[1]);
    var s2 := After(s1, steps[1]);
    OnlyItemIsCareless(i);
    assert steps[1..] == [ServerAck(1)] && steps[1..][1..] == [];
    assert Runs(s2, []) && End(s2, []) == s2;
    assert Runs(s1, steps[1..]) && End(s1, steps[1..]) == s2;
  }

  /** The whole run, from a first start, in which a fact is lost: crash after the log write of the first enqueue,
      restart, delivery and acknowledgement; crash between the two writes of the compaction, restart, a second
      fact, and the old acknowledgement again. */
  function LosingRunFromStart(one: Envelope, two: Envelope, now: int): seq<Step> {
    var sent := NewItem(Fresh(""), one, "", now).env;
    Prefix(one, now) + Delivered(sent) + LosingSteps(Acknowledge(1), two, now)
  }

  lemma UpToCareless(one: Envelope, now: int)
    requires !IsSignal(one)
    ensures var e := NewItem(Fresh(""), one, "", now).env;
            var steps := Prefix(one, now) + Delivered(e);
            && Runs(Init(), steps)
            && var s := End(Init(), steps);
               && Inv(s) && Can(s, Crash(Acknowledge(1), 1)) && !Careful(s, Crash(Acknowledge(1), 1))
               && s.w.received == {e}
  {
    var i := NewItem(Fresh(""), one, "", now);
    PrefixRuns(one, now);
    DeliveredRuns(End(Init(), Prefix(one, now)), i);
    RunsConcat(Init(), Prefix(one, now), Delivered(i.env));
  }

  /** So `AtLeastOnce` needs its hypothesis: this run loses its second fact. */
  lemma AtLeastOnceCanFail(one: Envelope, two: Envelope, now: int)
    requires !IsSignal(one) && !IsSignal(two) && one.messageId != two.messageId
    ensures var steps := LosingRunFromStart(one, two, now);
            Runs(Init(), steps)
            && exists e :: Lost(End(Init(), steps), e) && Carries(e, two)
  {
    var e := NewItem(Fresh(""), one, "", now).env;
    var a, c := Prefix(one, now) + Delivered(e), LosingSteps(Acknowledge(1), two, now);
    UpToCareless(one, now);
    CarelessCrashLoses(End(Init(), a), Acknowledge(1), two, now);
    RunsConcat(Init(), a, c);
  }
}
