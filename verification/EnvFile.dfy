/** The project `.env`: repository settings overlaid with dashboard settings, printed and read back. */
module EnvFile {
  import opened Text

  const HEADER := "#" + HEADER_START + HEADER_MIDDLE + HEADER_END
  const HEADER_START := " Generated by Tug.sh"
  const HEADER_MIDDLE := " (Git .env + "
  const HEADER_END := "Dashboard overrides)"

  /** The first `c` in `s`, or the length if there is none. */
  function IndexOf(s: string, c: char): (i: nat)
    ensures i <= |s| && c !in s[..i] && (i < |s| ==> s[i] == c)
  {
    if s == "" || s[0] == c then 0 else IndexOf(s[1..], c) + 1
  }

  datatype Setting = Setting(key: string, value: string)

  /** One line of an env file; blank lines, comments and lines without a key say nothing. */
  function ParseLine(line: string): Option<Setting> {
    var t := TrimSpace(line);
    if t == "" || t[0] == '#' then None
    else
      var i := IndexOf(t, '=');
      if i == 0 || i == |t| then None
      else
        var key := TrimSpace(t[..i]);
        if key == "" then None else Some(Setting(key, TrimSpace(t[i + 1..])))
  }

  function Put(vars: map<string, string>, s: Option<Setting>): map<string, string> {
    if s.Some? then vars[s.value.key := s.value.value] else vars
  }

  /** Later lines win. */
  function ReadLines(lines: seq<string>): map<string, string> {
    if lines == [] then map[] else Put(ReadLines(lines[..|lines| - 1]), ParseLine(lines[|lines| - 1]))
  }

  /** The line gives `key` this value: the first equals sign ends the key, white space around either does not count,
      the key is not blank and the line not a comment. */
  ghost predicate Says(line: string, key: string, value: string) {
    exists i: nat :: SaysAt(TrimSpace(line), i, key, value)
  }

  predicate SaysAt(t: string, i: nat, key: string, value: string) {
    && i < |t| && t[i] == '=' && '=' !in t[..i] && t[0] != '#'
    && key == TrimSpace(t[..i]) != "" && value == TrimSpace(t[i + 1..])
  }

  /** The first equals sign is where the search stops. */
  lemma {:induction false} OnlyFirst(t: string, i: nat)
    requires i < |t| && t[i] == '=' && '=' !in t[..i]
    ensures IndexOf(t, '=') == i
  {
    if i > 0 {
      assert t[..i] == [t[0]] + t[1..][..i - 1];
      OnlyFirst(t[1..], i - 1);
    }
  }

  lemma ParseLineIff(line: string, key: string, value: string)
    ensures ParseLine(line) == Some(Setting(key, value)) <==> Says(line, key, value)
  {
    var t := TrimSpace(line);
    if Says(line, key, value) {
      var i: nat :| SaysAt(t, i, key, value);
      OnlyFirst(t, i);
      assert TrimSpace("") == "";
    }
    if ParseLine(line) == Some(Setting(key, value)) { assert SaysAt(t, IndexOf(t, '='), key, value); }
  }

  lemma Silent(line: string, key: string)
    requires forall v :: !Says(line, key, v)
    ensures ParseLine(line).Some? ==> ParseLine(line).value.key != key
  {
    if ParseLine(line).Some? { ParseLineIff(line, key, ParseLine(line).value.value); }
  }

  /** The last line that gives a key a value decides. */
  lemma {:induction false} LastLineWins(lines: seq<string>, i: nat, key: string, value: string)
    requires i < |lines| && Says(lines[i], key, value)
    requires forall j, v :: i < j < |lines| ==> !Says(lines[j], key, v)
    ensures key in ReadLines(lines) && ReadLines(lines)[key] == value
  {
    var n := |lines| - 1;
    ParseLineIff(lines[i], key, value);
    if i < n {
      LastLineWins(lines[..n], i, key, value);
      Silent(lines[n], key);
    }
  }

  lemma {:induction false} UnsaidIsUnset(lines: seq<string>, key: string)
    requires forall i, v :: 0 <= i < |lines| ==> !Says(lines[i], key, v)
    ensures key !in ReadLines(lines)
  {
    if lines != [] {
      var n := |lines| - 1;
      UnsaidIsUnset(lines[..n], key);
      Silent(lines[n], key);
    }
  }

  function ReadText(text: string): map<string, string> { ReadLines(Split(text, '\n')) }

  /** What a file that may be missing says. */
  function ReadFile(file: Option<string>): map<string, string> { if file.Some? then ReadText(file.value) else map[] }

  /** Lines, each with its newline. */
  function Terminated(lines: seq<string>): string {
    if lines == [] then "" else lines[0] + ['\n'] + Terminated(lines[1..])
  }

  function Entry(key: string, value: string): string { key + "=" + value }

  function Entries(order: seq<string>, vars: map<string, string>): seq<string>
    requires forall k :: k in order ==> k in vars
  {
    if order == [] then []
    else
      var init, last := order[..|order| - 1], order[|order| - 1];
      Entries(init, vars) + [Entry(last, vars[last])]
  }

  /** The file written for the settings when the map yields its keys in this order. */
  function Printed(order: seq<string>, vars: map<string, string>): string
    requires forall k :: k in order ==> k in vars
  {
    Terminated([HEADER] + Entries(order, vars))
  }

  /** Every key once. */
  ghost predicate Orders(order: seq<string>, vars: map<string, string>) {
    && (forall k :: k in order <==> k in vars)
    && forall i, j :: 0 <= i < j < |order| ==> order[i] != order[j]
  }

  // ---------------------------------------------------------------- the program

  /** `readEnvFile`. */
  method ReadEnvFile(file: Option<string>) returns (vars: map<string, string>)
    ensures vars == ReadFile(file)
  {
    vars := map[];
    if file.None? { return; }
    var lines := Split(file.value, '\n');
    for n := 0 to |lines|
      invariant vars == ReadLines(lines[..n])
    {
      assert lines[..n + 1][..n] == lines[..n];
      var trimmed := TrimSpace(lines[n]);
      if trimmed == "" || trimmed[0] == '#' { continue; }
      var separator := IndexOf(trimmed, '=');
      if separator == 0 || separator == |trimmed| { continue; }
      var key := TrimSpace(trimmed[..separator]);
      if key == "" { continue; }
      vars := vars[key := TrimSpace(trimmed[separator + 1..])];
    }
    assert lines[..|lines|] == lines;
  }

  /** The dashboard's settings replace the repository's, one by one. */
  method Override(base: map<string, string>, dashboard: map<string, string>) returns (vars: map<string, string>)
    ensures vars == base + dashboard
  {
    vars := base;
    var todo := dashboard.Keys;
    while todo != {}
      invariant todo <= dashboard.Keys
      invariant forall k :: k in vars <==> k in base || (k in dashboard && k !in todo)
      invariant forall k :: k in vars && k in dashboard && k !in todo ==> vars[k] == dashboard[k]
      invariant forall k :: k in vars && (k !in dashboard || k in todo) ==> k in base && vars[k] == base[k]
      decreases |todo|
    {
      var k :| k in todo;
      vars := vars[k := dashboard[k]];
      todo := todo - {k};
    }
    SamePointwise(vars, base + dashboard);
  }

  lemma SamePointwise(a: map<string, string>, b: map<string, string>)
    requires (forall k :: k in a <==> k in b) && forall k :: k in a ==> a[k] == b[k]
    ensures a == b
  {
  }

  /** `syncProjectEnvFile`: nothing is written when there is nothing to say. */
  method SyncProjectEnvFile(file: Option<string>, dashboard: map<string, string>)
    returns (after: Option<string>, ghost order: seq<string>)
    ensures var merged := ReadFile(file) + dashboard;
            if merged == map[] then after == file
            else Orders(order, merged) && after == Some(Printed(order, merged))
    ensures Synced(file, dashboard, after)
  {
    var vars := ReadEnvFile(file);
    vars := Override(vars, dashboard);
    if |vars| == 0 { return file, []; }
    var text;
    text, order := Print(vars);
    after := Some(text);
  }

  /** The header and one line a setting, in whatever order the map yields them. */
  method Print(vars: map<string, string>) returns (text: string, ghost order: seq<string>)
    ensures Orders(order, vars) && text == Printed(order, vars)
  {
    order := [];
    text := HEADER + "\n";
    assert Terminated([HEADER] + []) == text by { assert [HEADER][1..] == []; }
    var todo := vars.Keys;
    while todo != {}
      invariant todo <= vars.Keys
      invariant forall k :: k in order <==> k in vars && k !in todo
      invariant forall i, j :: 0 <= i < j < |order| ==> order[i] != order[j]
      invariant text == Printed(order, vars)
      decreases |todo|
    {
      var k :| k in todo;
      PrintedSnoc(order, k, vars);
      text := text + Entry(k, vars[k]) + "\n";
      todo := todo - {k};
      order := order + [k];
    }
  }

  lemma {:induction false} TerminatedSnoc(lines: seq<string>, line: string)
    ensures Terminated(lines + [line]) == Terminated(lines) + line + "\n"
  {
    if lines == [] {
      assert [line][1..] == [];
    } else {
      TerminatedSnoc(lines[1..], line);
      assert (lines + [line])[1..] == lines[1..] + [line];
    }
  }

  lemma PrintedSnoc(order: seq<string>, k: string, vars: map<string, string>)
    requires k in vars && forall x :: x in order ==> x in vars
    ensures Printed(order + [k], vars) == Printed(order, vars) + Entry(k, vars[k]) + "\n"
  {
    assert (order + [k])[..|order|] == order;
    assert [HEADER] + Entries(order + [k], vars) == ([HEADER] + Entries(order, vars)) + [Entry(k, vars[k])];
    TerminatedSnoc([HEADER] + Entries(order, vars), Entry(k, vars[k]));
  }

  // ---------------------------------------------------------------- reading back

  /** A setting that survives being printed and read. */
  predicate WellFormed(key: string, value: string) {
    && key != "" && Trimmed(key) && key[0] != '#' && '=' !in key && '\n' !in key
    && Trimmed(value) && '\n' !in value
  }

  ghost predicate AllWellFormed(vars: map<string, string>) { forall k :: k in vars ==> WellFormed(k, vars[k]) }

  lemma TrimLacks(s: string, c: char)
    requires c !in s
    ensures c !in TrimSpace(s)
  {
    var i, j := TrimIsSlice(s);
  }

  /** A trimmed key that comes first on a trimmed line starts with the line's first character. */
  lemma TrimStart(s: string)
    requires s != "" && !IsSpace(s[0])
    ensures TrimSpace(s) != "" && TrimSpace(s)[0] == s[0]
  {
    TrimRightCuts(s);
    if TrimRight(s) == "" { AllSpaceIfEmpty(s); }
  }

  lemma {:induction false} AllSpaceIfEmpty(s: string)
    requires TrimRight(s) == ""
    ensures s != "" ==> IsSpace(s[0])
  {
    if |s| > 1 {
      AllSpaceIfEmpty(s[..|s| - 1]);
      assert s[..|s| - 1][0] == s[0];
    }
  }

  /** Whatever a line says is well-formed. */
  lemma ParsedIsWellFormed(line: string)
    requires '\n' !in line
    ensures ParseLine(line).Some? ==> WellFormed(ParseLine(line).value.key, ParseLine(line).value.value)
  {
    if ParseLine(line).Some? {
      var t := TrimSpace(line);
      var i, j := TrimIsSlice(line);
      TrimLacks(line, '\n');
      ParsedKey(t, IndexOf(t, '='));
      ParsedValue(t, IndexOf(t, '=') + 1);
    }
  }

  lemma ParsedKey(t: string, i: nat)
    requires 0 < i <= |t| && Trimmed(t) && t[0] != '#' && '=' !in t[..i] && '\n' !in t
    ensures var key := TrimSpace(t[..i]); WellFormed(key, "")
  {
    var key := TrimSpace(t[..i]);
    var a, b := TrimIsSlice(t[..i]);
    TrimStart(t[..i]);
    TrimLacks(t[..i], '=');
    TrimLacks(t[..i], '\n');
  }

  lemma ParsedValue(t: string, i: nat)
    requires i <= |t| && '\n' !in t
    ensures Trimmed(TrimSpace(t[i..])) && '\n' !in TrimSpace(t[i..])
  {
    var a, b := TrimIsSlice(t[i..]);
    TrimLacks(t[i..], '\n');
  }

  lemma {:induction false} ReadLinesWellFormed(lines: seq<string>)
    requires forall l :: l in lines ==> '\n' !in l
    ensures AllWellFormed(ReadLines(lines))
  {
    if lines != [] {
      ReadLinesWellFormed(lines[..|lines| - 1]);
      ParsedIsWellFormed(lines[|lines| - 1]);
    }
  }

  /** Everything ever read from an env file is well-formed. */
  lemma ReadIsWellFormed(file: Option<string>)
    ensures AllWellFormed(ReadFile(file))
  {
    if file.Some? { ReadLinesWellFormed(Split(file.value, '\n')); }
  }

  /** A printed setting reads back. */
  lemma EntryReadsBack(key: string, value: string)
    requires WellFormed(key, value)
    ensures ParseLine(Entry(key, value)) == Some(Setting(key, value)) && '\n' !in Entry(key, value)
  {
    var t := Entry(key, value);
    assert t[0] == key[0];
    assert t[|t| - 1] == if value == "" then '=' else value[|value| - 1];
    TrimOfTrimmed(t);
    EqualsAfter(key, value);
    assert t[..|key|] == key && t[|key| + 1..] == value;
    TrimOfTrimmed(key);
    TrimOfTrimmed(value);
  }

  lemma {:induction false} EqualsAfter(key: string, value: string)
    requires '=' !in key
    ensures IndexOf(Entry(key, value), '=') == |key|
  {
    if key != "" {
      assert key[0] in key;
      assert Entry(key, value)[1..] == Entry(key[1..], value);
      EqualsAfter(key[1..], value);
    }
  }

  lemma {:induction false} SplitTerminated(lines: seq<string>)
    requires forall l :: l in lines ==> '\n' !in l
    ensures Split(Terminated(lines), '\n') == lines + [""]
  {
    if lines != [] {
      SplitTerminated(lines[1..]);
      SplitAfter(lines[0], Terminated(lines[1..]), '\n');
      assert lines == [lines[0]] + lines[1..];
    }
  }

  lemma CommentSaysNothing(line: string)
    requires line != "" && line[0] == '#'
    ensures ParseLine(line) == None
  {
    TrimStart(line);
    assert TrimLeft(line) == line;
  }

  lemma HeaderStartIsClean()
    ensures '\n' !in HEADER_START
  {
  }

  lemma HeaderMiddleIsClean()
    ensures '\n' !in HEADER_MIDDLE
  {
  }

  lemma HeaderEndIsClean()
    ensures '\n' !in HEADER_END
  {
  }

  /** The header in one piece. */
  lemma HeaderIs()
    ensures HEADER == "# Generated by Tug.sh (Git .env + Dashboard overrides)"
  {
    assert "#" + " Generated by Tug.sh" == "# Generated by Tug.sh";
    assert "# Generated by Tug.sh" + " (Git .env + " == "# Generated by Tug.sh (Git .env + ";
  }

  lemma HeaderIsOneLine()
    ensures HEADER != "" && HEADER[0] == '#' && '\n' !in HEADER
  {
    HeaderStartIsClean();
    HeaderMiddleIsClean();
    HeaderEndIsClean();
    assert '\n' !in "#";
  }

  lemma BlankSaysNothing()
    ensures ParseLine("") == None
  {
    TrimOfTrimmed("");
  }

  function Lines(order: seq<string>, vars: map<string, string>): seq<string>
    requires forall k :: k in order ==> k in vars
  {
    [HEADER] + Entries(order, vars)
  }

  lemma {:induction false} LinesAreLines(order: seq<string>, vars: map<string, string>)
    requires AllWellFormed(vars) && forall k :: k in order ==> k in vars
    ensures forall l :: l in Lines(order, vars) ==> '\n' !in l
  {
    if order == [] {
      HeaderIsOneLine();
    } else {
      var init, last := order[..|order| - 1], order[|order| - 1];
      LinesAreLines(init, vars);
      EntryReadsBack(last, vars[last]);
      assert Lines(order, vars) == Lines(init, vars) + [Entry(last, vars[last])];
    }
  }

  lemma ReadOneMore(lines: seq<string>, line: string)
    ensures ReadLines(lines + [line]) == Put(ReadLines(lines), ParseLine(line))
  {
    assert (lines + [line])[..|lines|] == lines;
  }

  /** `r` holds the settings listed so far. */
  ghost predicate Holds(r: map<string, string>, order: seq<string>, vars: map<string, string>) {
    && (forall k :: k in r <==> k in order)
    && forall k :: k in r ==> k in vars && r[k] == vars[k]
  }

  lemma HoldsOneMore(r: map<string, string>, order: seq<string>, k: string, vars: map<string, string>)
    requires Holds(r, order, vars) && k in vars
    ensures Holds(r[k := vars[k]], order + [k], vars)
  {
  }

  lemma {:induction false} LinesReadBack(order: seq<string>, vars: map<string, string>)
    requires AllWellFormed(vars) && forall k :: k in order ==> k in vars
    ensures Holds(ReadLines(Lines(order, vars)), order, vars)
  {
    if order == [] {
      HeaderIsOneLine();
      CommentSaysNothing(HEADER);
      ReadOneMore([], HEADER);
      assert Lines(order, vars) == [] + [HEADER];
    } else {
      var init, last := order[..|order| - 1], order[|order| - 1];
      LinesReadBack(init, vars);
      LastReadsBack(init, last, vars);
      assert order == init + [last];
    }
  }

  lemma LastReadsBack(init: seq<string>, last: string, vars: map<string, string>)
    requires AllWellFormed(vars) && last in vars && forall k :: k in init ==> k in vars
    requires Holds(ReadLines(Lines(init, vars)), init, vars)
    ensures Holds(ReadLines(Lines(init + [last], vars)), init + [last], vars)
  {
    EntryReadsBack(last, vars[last]);
    ReadOneMore(Lines(init, vars), Entry(last, vars[last]));
    HoldsOneMore(ReadLines(Lines(init, vars)), init, last, vars);
    assert (init + [last])[..|init|] == init;
    assert Lines(init + [last], vars) == Lines(init, vars) + [Entry(last, vars[last])];
  }

  lemma PrintedReadsBack(order: seq<string>, vars: map<string, string>)
    requires Orders(order, vars) && AllWellFormed(vars)
    ensures ReadText(Printed(order, vars)) == vars
  {
    LinesAreLines(order, vars);
    SplitTerminated(Lines(order, vars));
    BlankSaysNothing();
    ReadOneMore(Lines(order, vars), "");
    LinesReadBack(order, vars);
    SamePointwise(ReadText(Printed(order, vars)), vars);
  }

  /** Printing and reading back: in whatever order the map yields its keys, the settings come back exactly if
      and only if every one is well-formed. */
  lemma ReadsBackIff(order: seq<string>, vars: map<string, string>)
    requires Orders(order, vars)
    ensures ReadText(Printed(order, vars)) == vars <==> AllWellFormed(vars)
  {
    if AllWellFormed(vars) { PrintedReadsBack(order, vars); }
    if ReadText(Printed(order, vars)) == vars { ReadIsWellFormed(Some(Printed(order, vars))); }
  }

  lemma MergedWellFormed(base: map<string, string>, dashboard: map<string, string>)
    requires AllWellFormed(base)
    ensures AllWellFormed(base + dashboard) <==> AllWellFormed(dashboard)
  {
    if AllWellFormed(base + dashboard) {
      forall k | k in dashboard ensures WellFormed(k, dashboard[k]) { assert (base + dashboard)[k] == dashboard[k]; }
    }
  }

  /** Is `after` a possible result of a sync? */
  ghost predicate Synced(file: Option<string>, dashboard: map<string, string>, after: Option<string>) {
    var merged := ReadFile(file) + dashboard;
    if merged == map[] then after == file
    else exists order :: Orders(order, merged) && after == Some(Printed(order, merged))
  }

  /** After a sync the file says exactly what the repository and the dashboard say together, the dashboard
      winning, if and only if the dashboard's settings are well-formed. */
  lemma SyncSaysBothIff(file: Option<string>, dashboard: map<string, string>, after: Option<string>)
    requires Synced(file, dashboard, after)
    ensures ReadFile(after) == ReadFile(file) + dashboard <==> AllWellFormed(dashboard)
  {
    var merged := ReadFile(file) + dashboard;
    ReadIsWellFormed(file);
    MergedWellFormed(ReadFile(file), dashboard);
    if merged != map[] {
      var order :| Orders(order, merged) && after == Some(Printed(order, merged));
      ReadsBackIff(order, merged);
    } else {
      assert forall k :: k in dashboard ==> k in merged;
    }
  }

  /** A second sync with the same dashboard changes nothing the file says. */
  lemma SecondSyncIsNoOp(file: Option<string>, dashboard: map<string, string>, once: Option<string>,
                         twice: Option<string>)
    requires Synced(file, dashboard, once) && Synced(once, dashboard, twice) && AllWellFormed(dashboard)
    ensures ReadFile(twice) == ReadFile(once)
  {
    SyncSaysBothIff(file, dashboard, once);
    SyncSaysBothIff(once, dashboard, twice);
    assert (ReadFile(file) + dashboard) + dashboard == ReadFile(file) + dashboard;
  }
}
