/** Streaming a command's output: lines are reported in batches, and none is lost, repeated or reordered. */
module Stream {
  import opened Text

  const BATCH_LINES := 15

  /** What the batching goroutine wakes up for; the closing of the line channel comes after all of them. */
  datatype Event = Line(text: string) | Tick

  /** `strings.TrimRight(line, "\r")`. */
  function StripCR(line: string): string {
    if line != "" && line[|line| - 1] == '\r' then StripCR(line[..|line| - 1]) else line
  }

  /** `left` is `line` without the carriage returns at its end. */
  ghost predicate CutsReturns(line: string, left: string) {
    && left <= line && (forall k :: |left| <= k < |line| ==> line[k] == '\r')
    && (left != "" ==> left[|left| - 1] != '\r')
  }

  lemma {:induction false} StripCRIs(line: string)
    ensures CutsReturns(line, StripCR(line))
  {
    if line != "" && line[|line| - 1] == '\r' { StripCRIs(line[..|line| - 1]); }
  }

  /** The lines of the command's output. */
  function Texts(events: seq<Event>): seq<string> {
    if events == [] then []
    else
      var last := events[|events| - 1];
      Texts(events[..|events| - 1]) + if last.Line? then [last.text] else []
  }

  /** `lines` are these texts, in order, without the carriage returns at their ends. */
  ghost predicate LinesOf(texts: seq<string>, lines: seq<string>) {
    |lines| == |texts| && forall i :: 0 <= i < |texts| ==> CutsReturns(texts[i], lines[i])
  }

  lemma {:induction false} StreamedIs(events: seq<Event>)
    ensures LinesOf(Texts(events), Streamed(events))
  {
    if events != [] {
      StreamedIs(events[..|events| - 1]);
      if events[|events| - 1].Line? { StripCRIs(events[|events| - 1].text); }
    }
  }

  /** Of a text without a carriage return at its end nothing is cut. */
  lemma NothingCut(texts: seq<string>, lines: seq<string>)
    requires LinesOf(texts, lines)
    requires forall t :: t in texts && t != "" ==> t[|t| - 1] != '\r'
    ensures lines == texts
  {
    forall i | 0 <= i < |texts| ensures lines[i] == texts[i] {
      assert texts[i] in texts && CutsReturns(texts[i], lines[i]);
    }
  }

  /** The lines that reach the channel. */
  function Streamed(events: seq<Event>): seq<string> {
    if events == [] then []
    else
      var last := events[|events| - 1];
      Streamed(events[..|events| - 1]) + if last.Line? then [StripCR(last.text)] else []
  }

  function Ticks(events: seq<Event>): nat {
    if events == [] then 0
    else Ticks(events[..|events| - 1]) + if events[|events| - 1].Tick? then 1 else 0
  }

  function Flat(batches: seq<seq<string>>): seq<string> {
    if batches == [] then [] else Flat(batches[..|batches| - 1]) + batches[|batches| - 1]
  }

  lemma FlatSnoc(batches: seq<seq<string>>, batch: seq<string>)
    ensures Flat(batches + [batch]) == Flat(batches) + batch
  {
    assert (batches + [batch])[..|batches|] == batches;
  }

  lemma EventSnoc(events: seq<Event>, e: Event)
    ensures Streamed(events + [e]) == Streamed(events) + if e.Line? then [StripCR(e.text)] else []
    ensures Ticks(events + [e]) == Ticks(events) + if e.Tick? then 1 else 0
  {
    assert (events + [e])[..|events|] == events;
  }

  /** The transcript, if there is one, has these lines more. */
  predicate Gained(before: Option<seq<string>>, after: Option<seq<string>>, lines: seq<string>) {
    if before.Some? then after.Some? && after.value == before.value + lines else after.None?
  }

  predicate Sized(batches: seq<seq<string>>) { forall b :: b in batches ==> 1 <= |b| <= 15 }

  /** What was flushed and what is pending are the streamed lines, in order, and the batches are full but for
      one a tick. */
  ghost predicate Accounted(flushed: seq<seq<string>>, pending: seq<string>, events: seq<Event>) {
    && Flat(flushed) + pending == Streamed(events)
    && |pending| < BATCH_LINES && Sized(flushed)
    && BATCH_LINES * |flushed| + |pending| <= |Streamed(events)| + BATCH_LINES * Ticks(events)
  }

  /** The batches after a flush; an empty one is not made. */
  function Flushed(flushed: seq<seq<string>>, pending: seq<string>): seq<seq<string>> {
    if pending == [] then flushed else flushed + [pending]
  }

  lemma FlushedFlat(flushed: seq<seq<string>>, pending: seq<string>)
    ensures Flat(Flushed(flushed, pending)) == Flat(flushed) + pending
    ensures Sized(flushed) && |pending| <= BATCH_LINES ==> Sized(Flushed(flushed, pending))
  {
    if pending == [] { assert Flat(flushed) + [] == Flat(flushed); } else { FlatSnoc(flushed, pending); }
  }

  lemma LineAccounted(flushed: seq<seq<string>>, pending: seq<string>, events: seq<Event>, text: string)
    requires Accounted(flushed, pending, events)
    ensures var events', pending' := events + [Line(text)], pending + [StripCR(text)];
            if |pending'| >= BATCH_LINES then Accounted(Flushed(flushed, pending'), [], events')
            else Accounted(flushed, pending', events')
  {
    var line, pending' := StripCR(text), pending + [StripCR(text)];
    EventSnoc(events, Line(text));
    assert Flat(flushed) + pending' == (Flat(flushed) + pending) + [line];
    FlushedFlat(flushed, pending');
    assert Flat(Flushed(flushed, pending')) + [] == Flat(flushed) + pending';
  }

  lemma TickAccounted(flushed: seq<seq<string>>, pending: seq<string>, events: seq<Event>)
    requires Accounted(flushed, pending, events)
    ensures Accounted(Flushed(flushed, pending), [], events + [Tick])
  {
    EventSnoc(events, Tick);
    FlushedFlat(flushed, pending);
    assert Flat(Flushed(flushed, pending)) + [] == Flat(flushed) + pending;
    assert Streamed(events) + [] == Streamed(events);
  }

  /** The batches handed over and the lines kept back. */
  datatype Stash = Stash(flushed: seq<seq<string>>, pending: seq<string>)

  function Flush(s: Stash): Stash { Stash(Flushed(s.flushed, s.pending), []) }

  function Handle(s: Stash, e: Event): Stash {
    match e
    case Line(text) =>
      var s' := s.(pending := s.pending + [StripCR(text)]);
      if |s'.pending| >= BATCH_LINES then Flush(s') else s'
    case Tick => Flush(s)
  }

  function StashOf(events: seq<Event>): Stash {
    if events == [] then Stash([], []) else Handle(StashOf(events[..|events| - 1]), events[|events| - 1])
  }

  lemma StashSnoc(events: seq<Event>, e: Event)
    ensures StashOf(events + [e]) == Handle(StashOf(events), e)
  {
    assert (events + [e])[..|events|] == events;
  }

  lemma {:induction false} StashAccounted(events: seq<Event>)
    ensures Accounted(StashOf(events).flushed, StashOf(events).pending, events)
  {
    if events != [] {
      var init, last := events[..|events| - 1], events[|events| - 1];
      var s := StashOf(init);
      StashAccounted(init);
      assert events == init + [last];
      match last
      case Line(text) => LineAccounted(s.flushed, s.pending, init, text);
      case Tick => TickAccounted(s.flushed, s.pending, init);
    }
  }

  lemma {:induction false} StashGrows(events: seq<Event>, k: nat)
    requires k <= |events|
    ensures StashOf(events[..k]).flushed <= StashOf(events).flushed
    decreases |events|
  {
    if k < |events| {
      StashGrows(events[..|events| - 1], k);
      assert events[..|events| - 1][..k] == events[..k];
    } else {
      assert events[..k] == events;
    }
  }

  /** The first `n` reports end where the lines before event `k` do. */
  ghost predicate EndsAt(reports: seq<seq<string>>, n: nat, events: seq<Event>, k: nat) {
    n <= |reports| && k <= |events| && |Flat(reports[..n])| == |Texts(events[..k])|
  }

  /** No report spans a tick. */
  ghost predicate CutAtTicks(reports: seq<seq<string>>, events: seq<Event>) {
    forall k :: 0 <= k < |events| && events[k].Tick? ==> exists n :: EndsAt(reports, n, events, k)
  }

  /** A report that is not full ends at a tick, or is the last. */
  ghost predicate FullOrCut(reports: seq<seq<string>>, events: seq<Event>) {
    forall i :: 0 <= i < |reports| - 1 && |reports[i]| < 15 ==>
      exists k :: 0 <= k < |events| && events[k].Tick? && EndsAt(reports, i + 1, events, k)
  }

  lemma TickCuts(events: seq<Event>, k: nat, reports: seq<seq<string>>)
    requires k < |events| && events[k].Tick? && StashOf(events).flushed <= reports
    ensures exists n :: EndsAt(reports, n, events, k)
  {
    TickFlushesAll(events, k);
    StashGrows(events, k + 1);
    var n := PrefixEnds(StashOf(events[..k + 1]).flushed, StashOf(events).flushed, reports, events, k);
  }

  lemma PrefixEnds(part: seq<seq<string>>, all: seq<seq<string>>, reports: seq<seq<string>>, events: seq<Event>, k: nat)
    returns (n: nat)
    requires part <= all <= reports && k <= |events| && |Flat(part)| == |Texts(events[..k])|
    ensures n == |part| && EndsAt(reports, n, events, k)
  {
    n := |part|;
    assert reports[..n] == part;
  }

  lemma TickFlushesAll(events: seq<Event>, k: nat)
    requires k < |events| && events[k].Tick?
    ensures |Flat(StashOf(events[..k + 1]).flushed)| == |Texts(events[..k])|
  {
    var before := events[..k];
    assert events[..k + 1] == before + [Tick];
    StashSnoc(before, Tick);
    StashAccounted(before);
    FlushedFlat(StashOf(before).flushed, StashOf(before).pending);
    StreamedIs(before);
  }

  /** What a single event flushes: a full batch, or whatever a tick finds. */
  lemma OneFlush(events: seq<Event>, k: nat, i: nat)
    requires k < |events| && |StashOf(events[..k]).flushed| <= i < |StashOf(events[..k + 1]).flushed|
    ensures var s := StashOf(events[..k + 1]);
            && i + 1 == |s.flushed| && s.pending == []
            && (|s.flushed[i]| >= 15 || (events[k].Tick? && |Flat(s.flushed)| == |Texts(events[..k])|))
  {
    var s := StashOf(events[..k]);
    assert events[..k + 1] == events[..k] + [events[k]];
    StashSnoc(events[..k], events[k]);
    StashAccounted(events[..k]);
    FlushedFlat(s.flushed, s.pending);
    StreamedIs(events[..k]);
  }

  /** The event that flushed a batch. */
  lemma {:induction false} FlushedWhen(events: seq<Event>, i: nat) returns (k: nat)
    requires i < |StashOf(events).flushed|
    ensures k < |events| && |StashOf(events[..k]).flushed| <= i < |StashOf(events[..k + 1]).flushed|
    decreases |events|
  {
    k := |events| - 1;
    if i < |StashOf(events[..k]).flushed| {
      var init := events[..k];
      k := FlushedWhen(init, i);
      assert init[..k] == events[..k] && init[..k + 1] == events[..k + 1];
    } else {
      assert events[..k + 1] == events;
    }
  }

  lemma ShortIsCut(events: seq<Event>, i: nat, reports: seq<seq<string>>)
    requires StashOf(events).flushed <= reports && i < |StashOf(events).flushed| && |reports[i]| < 15
    ensures exists k :: 0 <= k < |events| && events[k].Tick? && EndsAt(reports, i + 1, events, k)
  {
    var k := FlushedWhen(events, i);
    OneFlush(events, k, i);
    StashGrows(events, k + 1);
    var n := PrefixEnds(StashOf(events[..k + 1]).flushed, StashOf(events).flushed, reports, events, k);
  }

  /** So the reports of a whole run are cut at the ticks, and only there or when full. */
  lemma ReportsAreCut(events: seq<Event>)
    ensures var reports := Flush(StashOf(events)).flushed; CutAtTicks(reports, events) && FullOrCut(reports, events)
  {
    var reports := Flush(StashOf(events)).flushed;
    forall k | 0 <= k < |events| && events[k].Tick? ensures exists n :: EndsAt(reports, n, events, k) {
      TickCuts(events, k, reports);
    }
    forall i | 0 <= i < |reports| - 1 && |reports[i]| < 15
      ensures exists k :: 0 <= k < |events| && events[k].Tick? && EndsAt(reports, i + 1, events, k)
    {
      ShortIsCut(events, i, reports);
    }
  }

  lemma GainedLine(before: Option<seq<string>>, after: Option<seq<string>>, events: seq<Event>, text: string)
    requires Gained(before, after, Streamed(events))
    ensures Gained(before, if after.Some? then Some(after.value + [StripCR(text)]) else None,
                   Streamed(events + [Line(text)]))
  {
    EventSnoc(events, Line(text));
    if before.Some? {
      assert (before.value + Streamed(events)) + [StripCR(text)] == before.value + (Streamed(events) + [StripCR(text)]);
    }
  }

  lemma GainedTick(before: Option<seq<string>>, after: Option<seq<string>>, events: seq<Event>)
    requires Gained(before, after, Streamed(events))
    ensures Gained(before, after, Streamed(events + [Tick]))
  {
    EventSnoc(events, Tick);
    assert Streamed(events) + [] == Streamed(events);
  }

  class Batcher {
    /** `None` when the caller passed no transcript. */
    var transcript: Option<seq<string>>
    const reporting: bool
    var pending: seq<string>
    /** The arguments of the report callback so far. */
    var reports: seq<seq<string>>
    /** Batches handed over or, with nobody to report to, dropped. */
    ghost var flushed: seq<seq<string>>
    ghost var events: seq<Event>
    ghost const before: Option<seq<string>>

    constructor (transcript: Option<seq<string>>, reporting: bool)
      ensures this.transcript == before == transcript && this.reporting == reporting
      ensures Valid() && events == [] && pending == [] && reports == []
    {
      this.transcript, this.reporting, before := transcript, reporting, transcript;
      pending, reports, flushed, events := [], [], [], [];
    }

    /** At every step nothing is lost, repeated or reordered. */
    ghost predicate Valid()
      reads this
    {
      && Stash(flushed, pending) == StashOf(events)
      && reports == (if reporting then flushed else [])
      && Gained(before, transcript, Streamed(events))
    }

    /** The `flush` closure. */
    method Flush()
      requires reports == if reporting then flushed else []
      modifies `pending, `reports, `flushed
      ensures pending == [] && flushed == Flushed(old(flushed), old(pending))
      ensures reports == if reporting then flushed else []
    {
      if |pending| == 0 { return; }
      var batch := pending;
      pending := [];
      if reporting { reports := reports + [batch]; }
      flushed := flushed + [batch];
    }

    method OnLine(text: string)
      requires Valid()
      modifies this
      ensures Valid() && events == old(events) + [Line(text)]
      ensures Stash(flushed, pending) == Handle(old(Stash(flushed, pending)), Line(text))
    {
      StashSnoc(events, Line(text));
      GainedLine(before, transcript, events, text);
      events := events + [Line(text)];
      var line := StripCR(text);
      if transcript.Some? { transcript := Some(transcript.value + [line]); }
      pending := pending + [line];
      if |pending| >= BATCH_LINES { Flush(); }
    }

    method OnTick()
      requires Valid()
      modifies this
      ensures Valid() && events == old(events) + [Tick]
      ensures pending == [] && flushed == Flushed(old(flushed), old(pending))
    {
      StashSnoc(events, Tick);
      GainedTick(before, transcript, events);
      events := events + [Tick];
      Flush();
    }

    /** The channel is closed. */
    method OnClose()
      requires Valid()
      modifies this
      ensures pending == [] && events == old(events) && transcript == old(transcript)
      ensures flushed == Flushed(old(flushed), old(pending))
      ensures Flat(flushed) == Streamed(events) && Sized(flushed) && reports == if reporting then flushed else []
      ensures BATCH_LINES * |flushed| <= |Streamed(events)| + BATCH_LINES * (Ticks(events) + 1)
    {
      StashAccounted(events);
      FlushedFlat(flushed, pending);
      Flush();
    }
  }

  lemma FewReports(reports: nat, lines: nat, ticks: nat)
    requires BATCH_LINES * reports <= lines + BATCH_LINES * (ticks + 1)
    ensures reports <= lines / BATCH_LINES + ticks + 1
  {
  }

  /** `RunStreamingCommand` over the wake-ups of one command: the reports, one after the other, are exactly the
      lines of its output, without carriage returns at their ends; so is what the transcript gained; every report has
      1 to 15 lines, none spans a tick, and one that is not full ends at a tick or at the end; so there is at most one
      report for every 15 lines, one a tick and one at the end. */
  method RunStreamingCommand(events: seq<Event>, transcript: Option<seq<string>>, reporting: bool)
    returns (after: Option<seq<string>>, reports: seq<seq<string>>)
    ensures exists lines :: LinesOf(Texts(events), lines) && Gained(transcript, after, lines)
    ensures if reporting then LinesOf(Texts(events), Flat(reports)) && Sized(reports) else reports == []
    ensures reporting && (forall t :: t in Texts(events) && t != "" ==> t[|t| - 1] != '\r') ==>
              Flat(reports) == Texts(events)
    ensures reporting ==> CutAtTicks(reports, events) && FullOrCut(reports, events)
    ensures |reports| <= |Texts(events)| / 15 + Ticks(events) + 1
  {
    var batcher := new Batcher(transcript, reporting);
    HandleAll(batcher, events);
    batcher.OnClose();
    after, reports := batcher.transcript, batcher.reports;
    StreamedIs(events);
    ReportsAreCut(events);
    FewReports(|reports|, |Streamed(events)|, Ticks(events));
    if reporting && forall t :: t in Texts(events) && t != "" ==> t[|t| - 1] != '\r' {
      NothingCut(Texts(events), Flat(reports));
    }
  }

  lemma PrefixSnoc(events: seq<Event>, k: nat)
    requires k < |events|
    ensures events[..k + 1] == events[..k] + [events[k]]
  {
  }

  /** The select loop. */
  method HandleAll(batcher: Batcher, events: seq<Event>)
    requires batcher.Valid() && batcher.events == []
    modifies batcher
    ensures batcher.Valid() && batcher.events == events
  {
    for k := 0 to |events|
      invariant batcher.Valid() && batcher.events == events[..k]
    {
      match events[k] {
        case Line(text) => batcher.OnLine(text);
        case Tick => batcher.OnTick();
      }
      PrefixSnoc(events, k);
    }
    assert events[..|events|] == events;
  }
}
