/** `tailFileLines`: reading a log file backwards in chunks, against "the last lines of the whole file". */
module Tail {
  import opened Text

  newtype byte = x: int | 0 <= x < 256

  const LF: byte := 10
  const CR: byte := 13
  const CHUNK_SIZE := 8192
  const DEFAULT_LOG_LINES := 100
  const MAX_LOG_LINES := 10000

  // ---------------------------------------------------------------- the simple specification

  /** `strings.ReplaceAll(s, "\r\n", "\n")`. */
  function Unix(s: seq<byte>): seq<byte> {
    if s == [] then []
    else if |s| >= 2 && s[0] == CR && s[1] == LF then [LF] + Unix(s[2..])
    else [s[0]] + Unix(s[1..])
  }

  function DropLastIfEmpty(lines: seq<seq<byte>>): seq<seq<byte>> {
    if lines != [] && lines[|lines| - 1] == [] then lines[..|lines| - 1] else lines
  }

  /** The lines of a whole file: CRLF normalised, and no extra line after a final newline. */
  function LogLines(file: seq<byte>): seq<seq<byte>> { DropLastIfEmpty(Split(Unix(file), LF)) }

  /** The last `n` elements, or all of them if there are fewer. */
  function LastN<T>(s: seq<T>, n: nat): seq<T> { if |s| > n then s[|s| - n..] else s }

  function CountLF(s: seq<byte>): nat { if s == [] then 0 else (if s[0] == LF then 1 else 0) + CountLF(s[1..]) }

  // ---------------------------------------------------------------- the algorithm

  /** `tailFileLines` on the bytes of the file. */
  method TailFileLines(file: seq<byte>, limit: nat, chunk: nat := CHUNK_SIZE) returns (lines: seq<seq<byte>>)
    requires chunk > 0
    ensures var all := LogLines(file);
            && |lines| == (if |all| < limit then |all| else limit)
            && lines == all[|all| - |lines|..]
  {
    if |file| == 0 { return []; }
    var collected: seq<byte> := [];
    var offset := |file|;
    var newlines := 0;
    while offset > 0 && newlines <= limit
      invariant 0 <= offset <= |file| && collected == file[offset..] && newlines == CountLF(collected)
    {
      var readSize := chunk;
      if readSize > offset { readSize := offset; }
      offset := offset - readSize;
      var buf := file[offset..offset + readSize];
      Prepend(file, offset, readSize);
      collected := buf + collected;
      newlines := CountLF(collected);
    }
    lines := DropLastIfEmpty(Split(Unix(collected), LF));
    if |lines| > limit { lines := lines[|lines| - limit..]; }
    ReadEnough(file, offset, limit);
  }

  lemma Prepend(file: seq<byte>, offset: nat, n: nat)
    requires offset + n <= |file|
    ensures file[offset..offset + n] + file[offset + n..] == file[offset..]
  {
  }

  /** The part read so far decides the last lines. */
  lemma ReadEnough(file: seq<byte>, offset: nat, limit: nat)
    requires offset <= |file| && (offset > 0 ==> CountLF(file[offset..]) > limit)
    ensures LastN(LogLines(file), limit) == LastN(LogLines(file[offset..]), limit)
  {
    if offset > 0 {
      assert file == file[..offset] + file[offset..];
      EnoughNewlines(file[..offset], file[offset..], limit);
    } else {
      assert file[0..] == file;
    }
  }

  /** `parseLogsArgs`: the last number given, or none, and `clampLogLimit`. */
  function LogLimit(arg: Option<int>): (n: nat)
    ensures 1 <= n <= 10_000
    ensures arg.Some? && 1 <= arg.value <= 10_000 ==> n == arg.value
    ensures arg.None? || arg.value < 1 ==> n == 100
    ensures arg.Some? && arg.value > 10_000 ==> n == 10_000
  {
    if arg.None? || arg.value < 1 then DEFAULT_LOG_LINES
    else if arg.value > MAX_LOG_LINES then MAX_LOG_LINES
    else arg.value
  }

  // ---------------------------------------------------------------- splitting before normalising

  /** Without one final carriage return. */
  function Chomp(line: seq<byte>): seq<byte> {
    if line != [] && line[|line| - 1] == CR then line[..|line| - 1] else line
  }

  function ChompEach(parts: seq<seq<byte>>): seq<seq<byte>> {
    if parts == [] then [] else [Chomp(parts[0])] + ChompEach(parts[1..])
  }

  /** Every piece that a newline ended loses its carriage return; the last one does not. */
  function ChompEnded(parts: seq<seq<byte>>): (r: seq<seq<byte>>)
    ensures |r| == |parts|
  {
    if |parts| <= 1 then parts else [Chomp(parts[0])] + ChompEnded(parts[1..])
  }

  lemma ChompEndedCons(line: seq<byte>, rest: seq<seq<byte>>)
    requires rest != []
    ensures ChompEnded([line] + rest) == [Chomp(line)] + ChompEnded(rest)
  {
    assert ([line] + rest)[1..] == rest;
  }

  lemma ChompOfCons(c: byte, line: seq<byte>)
    requires line == [] ==> c != CR
    ensures Chomp([c] + line) == [c] + Chomp(line)
  {
  }

  /** One more byte, which is not a newline, in front of the first piece. */
  lemma ChompCons(c: byte, parts: seq<seq<byte>>)
    requires |parts| >= 1 && (|parts| > 1 && parts[0] == [] ==> c != CR)
    ensures ChompEnded([[c] + parts[0]] + parts[1..]) == [[c] + ChompEnded(parts)[0]] + ChompEnded(parts)[1..]
  {
    if |parts| > 1 {
      ChompEndedCons([c] + parts[0], parts[1..]);
      ChompOfCons(c, parts[0]);
    } else {
      assert parts[1..] == [];
    }
  }

  /** A carriage return and a newline in front: one more, empty, line. */
  lemma SplitCrlf(s: seq<byte>)
    ensures Split([CR, LF] + s, LF) == [[CR]] + Split(s, LF)
  {
    assert [CR, LF] + s == [CR] + [LF] + s;
    SplitAfter([CR], s, LF);
  }

  lemma UnixCrlf(s: seq<byte>)
    requires Split(Unix(s), LF) == ChompEnded(Split(s, LF))
    ensures Split(Unix([CR, LF] + s), LF) == ChompEnded(Split([CR, LF] + s, LF))
  {
    var t := [CR, LF] + s;
    assert t[2..] == s && Unix(t) == [LF] + Unix(s);
    assert ([LF] + Unix(s))[1..] == Unix(s);
    SplitCrlf(s);
    ChompEndedCons([CR], Split(s, LF));
  }

  lemma UnixLf(s: seq<byte>)
    requires Split(Unix(s), LF) == ChompEnded(Split(s, LF))
    ensures Split(Unix([LF] + s), LF) == ChompEnded(Split([LF] + s, LF))
  {
    assert ([LF] + s)[1..] == s && ([LF] + Unix(s))[1..] == Unix(s);
    assert Unix([LF] + s) == [LF] + Unix(s);
    ChompEndedCons([], Split(s, LF));
  }

  lemma UnixOther(c: byte, s: seq<byte>)
    requires Split(Unix(s), LF) == ChompEnded(Split(s, LF)) && c != LF
    requires c == CR && s != [] ==> s[0] != LF
    ensures Split(Unix([c] + s), LF) == ChompEnded(Split([c] + s, LF))
  {
    assert ([c] + s)[1..] == s && ([c] + Unix(s))[1..] == Unix(s);
    assert Unix([c] + s) == [c] + Unix(s);
    ChompCons(c, Split(s, LF));
  }

  /** Normalising and then splitting is splitting and then chomping. */
  lemma {:induction false} SplitOfUnix(s: seq<byte>)
    ensures Split(Unix(s), LF) == ChompEnded(Split(s, LF))
    decreases |s|
  {
    if s == [] {
    } else if |s| >= 2 && s[0] == CR && s[1] == LF {
      SplitOfUnix(s[2..]);
      UnixCrlf(s[2..]);
      assert s == [CR, LF] + s[2..];
    } else {
      SplitOfUnix(s[1..]);
      assert s == [s[0]] + s[1..];
      if s[0] == LF { UnixLf(s[1..]); } else { UnixOther(s[0], s[1..]); }
    }
  }

  lemma {:induction false} ChompEndedConcat(a: seq<seq<byte>>, b: seq<seq<byte>>)
    requires b != []
    ensures ChompEnded(a + b) == ChompEach(a) + ChompEnded(b)
  {
    if a == [] {
      assert a + b == b;
    } else {
      ChompEndedConcat(a[1..], b);
      ChompEndedCons(a[0], a[1..] + b);
      assert a + b == [a[0]] + (a[1..] + b);
      ConsConcat(Chomp(a[0]), ChompEach(a[1..]), ChompEnded(b));
    }
  }

  lemma ConsConcat<T>(x: T, a: seq<T>, b: seq<T>)
    ensures [x] + (a + b) == ([x] + a) + b
  {
  }

  lemma {:induction false} SplitLength(s: seq<byte>)
    ensures |Split(s, LF)| == CountLF(s) + 1
  {
    if s != [] { SplitLength(s[1..]); }
  }

  lemma LastOfConcat<T>(a: seq<T>, b: seq<T>, n: nat)
    requires |b| >= n
    ensures LastN(a + b, n) == LastN(b, n)
  {
  }

  lemma DropLastOfConcat(a: seq<seq<byte>>, b: seq<seq<byte>>)
    requires b != []
    ensures DropLastIfEmpty(a + b) == a + DropLastIfEmpty(b)
  {
    assert (a + b)[|a + b| - 1] == b[|b| - 1];
    assert (a + b)[..|a + b| - 1] == a + b[..|b| - 1];
  }

  /** Pieces from `k` on decide the last lines. */
  lemma LinesFrom(s: seq<byte>, k: nat)
    requires k < |Split(s, LF)|
    ensures LogLines(s) == ChompEach(Split(s, LF)[..k]) + DropLastIfEmpty(ChompEnded(Split(s, LF)[k..]))
  {
    var parts := Split(s, LF);
    SplitOfUnix(s);
    assert parts == parts[..k] + parts[k..];
    ChompEndedConcat(parts[..k], parts[k..]);
    DropLastOfConcat(ChompEach(parts[..k]), ChompEnded(parts[k..]));
  }

  /** Once more newlines than lines wanted have been read, what lies before them does not matter: the partial
      first line, even one cut between a carriage return and its newline, is not among the last lines. */
  lemma EnoughNewlines(before: seq<byte>, collected: seq<byte>, limit: nat)
    requires CountLF(collected) > limit
    ensures LastN(LogLines(before + collected), limit) == LastN(LogLines(collected), limit)
  {
    var p, c, all := Split(before, LF), Split(collected, LF), Split(before + collected, LF);
    SplitConcat(before, collected, LF);
    SplitLength(collected);
    assert all[|p|..] == c[1..];
    LinesFrom(before + collected, |p|);
    LinesFrom(collected, 1);
    var tail := DropLastIfEmpty(ChompEnded(c[1..]));
    LastOfConcat(ChompEach(all[..|p|]), tail, limit);
    LastOfConcat(ChompEach(c[..1]), tail, limit);
  }

  // ---------------------------------------------------------------- what the specification means

  /** A log as it is written: each line ended by a newline, after a carriage return where `crlf` says so. */
  function Written(lines: seq<seq<byte>>, crlf: seq<bool>): seq<byte>
    requires |crlf| == |lines|
  {
    if lines == [] then []
    else lines[0] + (if crlf[0] then [CR] else []) + [LF] + Written(lines[1..], crlf[1..])
  }

  /** A line that survives writing: no newline in it, and no final carriage return of its own if it is ended
      by a plain newline. */
  predicate Writable(line: seq<byte>, crlf: bool) { LF !in line && (!crlf ==> Chomp(line) == line) }

  lemma FirstLine(line: seq<byte>, rest: seq<byte>)
    requires LF !in line
    ensures LogLines(line + [LF] + rest) == [Chomp(line)] + LogLines(rest)
  {
    SplitAfter(line, rest, LF);
    SplitOfUnix(line + [LF] + rest);
    SplitOfUnix(rest);
    ChompEndedCons(line, Split(rest, LF));
    DropLastOfConcat([Chomp(line)], ChompEnded(Split(rest, LF)));
  }

  /** Reading a written log, plus an unfinished last line, gives its lines back, whatever the mix of endings. */
  lemma {:induction false} LinesOfWritten(lines: seq<seq<byte>>, crlf: seq<bool>, unfinished: seq<byte>)
    requires |crlf| == |lines| && forall i :: 0 <= i < |lines| ==> Writable(lines[i], crlf[i])
    requires LF !in unfinished
    ensures LogLines(Written(lines, crlf) + unfinished) == lines + (if unfinished == [] then [] else [unfinished])
  {
    if lines == [] {
      LinesOfUnfinished(unfinished);
      assert Written(lines, crlf) + unfinished == unfinished;
    } else {
      LinesOfWritten(lines[1..], crlf[1..], unfinished);
      WrittenFirst(lines, crlf, unfinished);
    }
  }

  lemma LinesOfUnfinished(unfinished: seq<byte>)
    requires LF !in unfinished
    ensures LogLines(unfinished) == if unfinished == [] then [] else [unfinished]
  {
    SplitClean(unfinished, LF);
    SplitOfUnix(unfinished);
  }

  lemma WrittenFirst(lines: seq<seq<byte>>, crlf: seq<bool>, unfinished: seq<byte>)
    requires |crlf| == |lines| > 0 && Writable(lines[0], crlf[0])
    ensures LogLines(Written(lines, crlf) + unfinished)
            == [lines[0]] + LogLines(Written(lines[1..], crlf[1..]) + unfinished)
  {
    var line := lines[0] + if crlf[0] then [CR] else [];
    var rest := Written(lines[1..], crlf[1..]);
    assert Written(lines, crlf) + unfinished == line + [LF] + (rest + unfinished);
    FirstLine(line, rest + unfinished);
    assert Chomp(line) == lines[0];
  }
}
