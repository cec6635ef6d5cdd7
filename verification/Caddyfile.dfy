/** The proxy configuration: what `renderConfig` prints reads back as the route list it was printed from. */
module Caddyfile {
  import opened Text
  import opened Routes

  // ---------------------------------------------------------------- numbers

  function Digit(n: nat): char
    requires n < 10
  {
    ('0' as int + n) as char
  }

  function Digits(n: nat): string { if n < 10 then [Digit(n)] else Digits(n / 10) + [Digit(n % 10)] }

  /** `%d`. */
  function Itoa(n: int): string { if n < 0 then "-" + Digits(-n) else Digits(n) }

  function Value(s: string): Option<int> {
    if s == "" then None
    else
      var c, init := s[|s| - 1], s[..|s| - 1];
      if !('0' <= c <= '9') then None
      else
        var d := c as int - '0' as int;
        if init == "" then Some(d) else match Value(init) case None => None case Some(v) => Some(10 * v + d)
  }

  function ParseInt(s: string): Option<int> {
    if s != "" && s[0] == '-' then match Value(s[1..]) case None => None case Some(v) => Some(-v)
    else match Value(s) case None => None case Some(v) => Some(v)
  }

  /** A character of a printed number. */
  predicate Numeral(c: char) { c == '-' || '0' <= c <= '9' }

  lemma {:induction false} DigitsRoundTrip(n: nat)
    ensures Digits(n) != "" && Digits(n)[0] != '-' && Value(Digits(n)) == Some(n)
    ensures forall c :: c in Digits(n) ==> Numeral(c)
  {
    if n >= 10 {
      DigitsRoundTrip(n / 10);
      var s := Digits(n);
      assert s[..|s| - 1] == Digits(n / 10);
    }
  }

  lemma NegativeParses(s: string, v: int)
    requires Value(s) == Some(v)
    ensures ParseInt("-" + s) == Some(-v)
  {
    assert ("-" + s)[1..] == s;
  }

  lemma PositiveParses(s: string, v: int)
    requires s != "" && s[0] != '-' && Value(s) == Some(v)
    ensures ParseInt(s) == Some(v)
  {
  }

  lemma ItoaRoundTrip(n: int)
    ensures ParseInt(Itoa(n)) == Some(n)
  {
    if n < 0 {
      DigitsRoundTrip(-n);
      NegativeParses(Digits(-n), -n);
    } else {
      DigitsRoundTrip(n);
      PositiveParses(Digits(n), n);
    }
  }

  lemma ItoaIsNumeral(n: int)
    ensures Itoa(n) != "" && forall c :: c in Itoa(n) ==> Numeral(c)
  {
    DigitsRoundTrip(if n < 0 then -n else n);
  }

  // ---------------------------------------------------------------- printing

  const OPENING := " {\n"
  const PROXY := "\treverse_proxy "
  const CLOSING := "\n}\n\n"
  const RESPOND := "\trespond "
  const MESSAGE := "\"tug-router " + "is " + "running\" " + "200\n"

  function Upstream(r: Route): string { TrimSpace(r.target) + ":" + Itoa(r.port) }

  function Block(r: Route): string { TrimSpace(r.domain) + OPENING + PROXY + Upstream(r) + CLOSING }

  function Blocks(routes: seq<Route>): string {
    if routes == [] then "" else Block(routes[0]) + Blocks(routes[1..])
  }

  function Default(httpPort: int): string { ":" + Itoa(httpPort) + OPENING + RESPOND + MESSAGE + "}\n" }

  method WriteBlock(text: string, domain: string, target: string, port: string) returns (text': string)
    ensures text' == text + (domain + OPENING + PROXY + (target + ":" + port) + CLOSING)
  {
    text' := text + domain;
    text' := text' + OPENING;
    text' := text' + PROXY;
    text' := text' + target;
    text' := text' + (":" + port);
    text' := text' + CLOSING;
  }

  /** `renderConfig`: one block a route, or a page that says the router is up. */
  method RenderConfig(routes: seq<Route>, httpPort: int) returns (text: string)
    ensures text == if routes == [] then Default(httpPort) else Blocks(routes)
  {
    if |routes| == 0 {
      text := ":" + Itoa(httpPort) + OPENING;
      text := text + RESPOND + MESSAGE;
      text := text + "}\n";
      return;
    }
    text := "";
    for k := 0 to |routes|
      invariant text + Blocks(routes[k..]) == Blocks(routes)
    {
      BlocksNext(text, routes[k..]);
      assert routes[k..][1..] == routes[k + 1..];
      text := WriteBlock(text, TrimSpace(routes[k].domain), TrimSpace(routes[k].target), Itoa(routes[k].port));
    }
    assert text + Blocks([]) == text;
  }

  lemma BlocksNext(text: string, routes: seq<Route>)
    requires routes != []
    ensures text + Blocks(routes) == (text + Block(routes[0])) + Blocks(routes[1..])
  {
  }

  // ---------------------------------------------------------------- reading

  function WordLength(s: string): (n: nat)
    ensures n <= |s|
  {
    if s == "" || IsSpace(s[0]) then 0 else 1 + WordLength(s[1..])
  }

  /** The words of a text. */
  function Fields(s: string): seq<string>
    decreases |s|
  {
    if s == "" then []
    else if IsSpace(s[0]) then Fields(s[1..])
    else
      var n := WordLength(s);
      [s[..n]] + Fields(s[n..])
  }

  /** What the configuration says: which domain goes where. */
  datatype Entry = Entry(domain: string, target: string, port: int)

  /** Where the last colon is. */
  function LastColon(s: string): (n: nat)
    ensures n <= |s| && (n < |s| ==> s[n] == ':')
  {
    if s == "" then 0
    else if s[|s| - 1] == ':' then |s| - 1
    else
      var n := LastColon(s[..|s| - 1]);
      if n == |s| - 1 then |s| else n
  }

  /** Characters a Caddyfile gives a meaning of their own somewhere in a word. */
  predicate Special(c: char) { c in {'{', '}', '"', '`', '#', '\\', ',', '$'} }

  /** A word that stands for itself. */
  predicate Literal(w: string) { forall c :: c in w ==> !Special(c) }

  function ParseUpstream(domain: string, upstream: string): Option<Entry> {
    var n := LastColon(upstream);
    if n == |upstream| || !Literal(domain) || !Literal(upstream) then None
    else match ParseInt(upstream[n + 1..])
      case None => None
      case Some(port) => Some(Entry(domain, upstream[..n], port))
  }

  /** Where the first closing brace is. */
  function Closing(ws: seq<string>): (n: nat)
    ensures n <= |ws|
  {
    if ws == [] || ws[0] == "}" then 0 else 1 + Closing(ws[1..])
  }

  /** Two kinds of site: `address { reverse_proxy target:port }` is an entry, `address { respond ... }` is not. */
  function ParseWords(ws: seq<string>): Option<seq<Entry>>
    decreases |ws|
  {
    if ws == [] then Some([])
    else if |ws| < 5 || ws[1] != "{" then None
    else if ws[2] == "reverse_proxy" then
      if ws[4] != "}" then None
      else match ParseUpstream(ws[0], ws[3])
        case None => None
        case Some(e) =>
          match ParseWords(ws[5..])
          case None => None
          case Some(rest) => Some([e] + rest)
    else if ws[2] == "respond" && Closing(ws) < |ws| then ParseWords(ws[Closing(ws) + 1..])
    else None
  }

  function Parse(text: string): Option<seq<Entry>> { ParseWords(Fields(text)) }

  // ---------------------------------------------------------------- round trip

  predicate Spaceless(s: string) { forall c :: c in s ==> !IsSpace(c) }

  predicate Word(s: string) { s != "" && Spaceless(s) }

  function EntryOf(r: Route): Entry { Entry(TrimSpace(r.domain), TrimSpace(r.target), r.port) }

  function EntriesOf(routes: seq<Route>): seq<Entry> {
    if routes == [] then [] else [EntryOf(routes[0])] + EntriesOf(routes[1..])
  }

  /** A route that prints as one readable block. */
  predicate Printable(r: Route) {
    var d, t := TrimSpace(r.domain), TrimSpace(r.target);
    d != "" && Spaceless(d) && Literal(d) && Spaceless(t) && Literal(t)
  }

  lemma {:induction false} WordEnds(w: string, rest: string)
    requires Spaceless(w) && (rest != "" ==> IsSpace(rest[0]))
    ensures WordLength(w + rest) == |w|
  {
    if w == "" {
      assert w + rest == rest;
    } else {
      assert w[0] in w;
      assert (w + rest)[1..] == w[1..] + rest;
      WordEnds(w[1..], rest);
    }
  }

  lemma FieldsWord(w: string, rest: string)
    requires Word(w) && (rest != "" ==> IsSpace(rest[0]))
    ensures Fields(w + rest) == [w] + Fields(rest)
  {
    assert w[0] in w;
    WordEnds(w, rest);
    assert (w + rest)[..|w|] == w && (w + rest)[|w|..] == rest;
  }

  lemma {:induction false} FieldsSpace(gap: string, rest: string)
    requires forall c :: c in gap ==> IsSpace(c)
    ensures Fields(gap + rest) == Fields(rest)
  {
    if gap == "" {
      assert gap + rest == rest;
    } else {
      assert gap[0] in gap;
      assert (gap + rest)[1..] == gap[1..] + rest;
      FieldsSpace(gap[1..], rest);
    }
  }

  /** A word, the space after it, and the rest. */
  lemma FieldsStep(w: string, gap: string, rest: string)
    requires Word(w) && gap != "" && (forall c :: c in gap ==> IsSpace(c))
    ensures Fields(w + gap + rest) == [w] + Fields(rest)
  {
    assert gap[0] in gap && (gap + rest)[0] == gap[0];
    assert w + gap + rest == w + (gap + rest);
    FieldsWord(w, gap + rest);
    FieldsSpace(gap, rest);
  }

  /** A word and the white space after it. */
  datatype Token = Token(word: string, gap: string)

  ghost predicate Good(t: Token) { Word(t.word) && t.gap != "" && forall c :: c in t.gap ==> IsSpace(c) }

  lemma ThreeTokens(a: Token, b: Token, c: Token, rest: string)
    requires Good(a) && Good(b) && Good(c)
    ensures Fields(a.word + a.gap + (b.word + b.gap + (c.word + c.gap + rest)))
            == [a.word, b.word, c.word] + Fields(rest)
  {
    FieldsStep(c.word, c.gap, rest);
    FieldsStep(b.word, b.gap, c.word + c.gap + rest);
    FieldsStep(a.word, a.gap, b.word + b.gap + (c.word + c.gap + rest));
  }

  lemma FiveTokens(a: Token, b: Token, c: Token, d: Token, e: Token, rest: string)
    requires Good(a) && Good(b) && Good(c) && Good(d) && Good(e)
    ensures Fields(a.word + a.gap + (b.word + b.gap + (c.word + c.gap + (d.word + d.gap + (e.word + e.gap + rest)))))
            == [a.word, b.word, c.word, d.word, e.word] + Fields(rest)
  {
    FieldsStep(e.word, e.gap, rest);
    FieldsStep(d.word, d.gap, e.word + e.gap + rest);
    ThreeTokens(a, b, c, d.word + d.gap + (e.word + e.gap + rest));
  }

  lemma UpstreamIsWord(r: Route)
    requires Spaceless(TrimSpace(r.target))
    ensures Word(Upstream(r))
  {
    ItoaIsNumeral(r.port);
    assert !IsSpace(':') && forall c :: Numeral(c) ==> !IsSpace(c);
  }

  lemma VisibleIsWord(s: string)
    requires s != "" && forall c :: c in s ==> '!' <= c <= '~'
    ensures Word(s)
  {
  }

  function WordsOf(r: Route): seq<string> { [TrimSpace(r.domain), "{", "reverse_proxy", Upstream(r), "}"] }

  function AllWords(routes: seq<Route>): seq<string> {
    if routes == [] then [] else WordsOf(routes[0]) + AllWords(routes[1..])
  }

  /** The layout of a block, cut at its words. */
  lemma Layout(d: string, u: string, rest: string)
    ensures d + OPENING + PROXY + u + CLOSING + rest
            == d + " " + ("{" + "\n\t" + ("reverse_proxy" + " " + (u + "\n" + ("}" + "\n\n" + rest))))
  {
    assert OPENING == " " + "{" + "\n" && PROXY == "\t" + "reverse_proxy" + " " && CLOSING == "\n" + "}" + "\n\n";
  }

  lemma FieldsOfBlock(r: Route, rest: string)
    requires Printable(r)
    ensures Fields(Block(r) + rest) == WordsOf(r) + Fields(rest)
  {
    var d, u := TrimSpace(r.domain), Upstream(r);
    UpstreamIsWord(r);
    VisibleIsWord("{");
    VisibleIsWord("}");
    VisibleIsWord("reverse_proxy");
    Layout(d, u, rest);
    FiveTokens(Token(d, " "), Token("{", "\n\t"), Token("reverse_proxy", " "), Token(u, "\n"),
               Token("}", "\n\n"), rest);
  }

  lemma {:induction false} FieldsOfBlocks(routes: seq<Route>)
    requires forall r :: r in routes ==> Printable(r)
    ensures Fields(Blocks(routes)) == AllWords(routes)
  {
    if routes != [] {
      assert routes[0] in routes;
      FieldsOfBlock(routes[0], Blocks(routes[1..]));
      FieldsOfBlocks(routes[1..]);
    }
  }

  lemma {:induction false} LastColonIs(a: string, b: string)
    requires ':' !in b
    ensures LastColon(a + ":" + b) == |a|
  {
    var s := a + ":" + b;
    if b != "" {
      assert s[|s| - 1] == b[|b| - 1] && b[|b| - 1] in b;
      assert s[..|s| - 1] == a + ":" + b[..|b| - 1];
      LastColonIs(a, b[..|b| - 1]);
    }
  }

  lemma NumeralsAreLiteral(s: string)
    requires forall c :: c in s ==> Numeral(c) || c == ':'
    ensures Literal(s)
  {
  }

  lemma UpstreamIsLiteral(r: Route)
    requires Literal(TrimSpace(r.target))
    ensures Literal(Upstream(r))
  {
    ItoaIsNumeral(r.port);
    NumeralsAreLiteral(":" + Itoa(r.port));
    assert Upstream(r) == TrimSpace(r.target) + (":" + Itoa(r.port));
  }

  lemma UpstreamParses(r: Route)
    requires Printable(r)
    ensures ParseUpstream(TrimSpace(r.domain), Upstream(r)) == Some(EntryOf(r))
  {
    ItoaIsNumeral(r.port);
    ItoaRoundTrip(r.port);
    UpstreamIsLiteral(r);
    assert !Numeral(':');
    LastColonIs(TrimSpace(r.target), Itoa(r.port));
    var n := |TrimSpace(r.target)|;
    assert Upstream(r)[..n] == TrimSpace(r.target) && Upstream(r)[n + 1..] == Itoa(r.port);
  }

  /** One block's words in front. */
  lemma ParseBlock(r: Route, rest: seq<string>)
    requires Printable(r)
    ensures ParseWords(WordsOf(r) + rest) ==
            match ParseWords(rest) case None => None case Some(es) => Some([EntryOf(r)] + es)
  {
    UpstreamParses(r);
    var ws := WordsOf(r) + rest;
    assert ws[5..] == rest;
    assert ws[0] == TrimSpace(r.domain) && ws[1] == "{" && ws[2] == "reverse_proxy";
    assert ws[3] == Upstream(r) && ws[4] == "}";
  }

  lemma {:induction false} ParseAllWords(routes: seq<Route>)
    requires forall r :: r in routes ==> Printable(r)
    ensures ParseWords(AllWords(routes)) == Some(EntriesOf(routes))
  {
    if routes != [] {
      assert routes[0] in routes;
      ParseAllWords(routes[1..]);
      ParseBlock(routes[0], AllWords(routes[1..]));
    }
  }

  lemma {:induction false} FieldsAreWords(s: string)
    ensures forall w :: w in Fields(s) ==> Word(w)
    decreases |s|
  {
    if s != "" {
      if IsSpace(s[0]) {
        FieldsAreWords(s[1..]);
      } else {
        WordIsSpaceless(s);
        FieldsAreWords(s[WordLength(s)..]);
      }
    }
  }

  lemma {:induction false} WordIsSpaceless(s: string)
    ensures Spaceless(s[..WordLength(s)])
  {
    if s != "" && !IsSpace(s[0]) {
      WordIsSpaceless(s[1..]);
      assert s[..WordLength(s)] == [s[0]] + s[1..][..WordLength(s[1..])];
    }
  }

  /** An entry made of literal words. */
  predicate Sound(e: Entry) { Word(e.domain) && Literal(e.domain) && Spaceless(e.target) && Literal(e.target) }

  lemma UpstreamIsSound(domain: string, upstream: string)
    requires Word(domain) && Word(upstream) && ParseUpstream(domain, upstream).Some?
    ensures Sound(ParseUpstream(domain, upstream).value)
  {
    var target := upstream[..LastColon(upstream)];
    assert forall c :: c in target ==> c in upstream;
  }

  /** Entries that were read consist of literal words. */
  lemma {:induction false} ParsedAreSound(ws: seq<string>)
    requires ParseWords(ws).Some? && forall w :: w in ws ==> Word(w)
    ensures forall e :: e in ParseWords(ws).value ==> Sound(e)
    decreases |ws|
  {
    if ws != [] {
      if ws[2] == "reverse_proxy" {
        assert ws[0] in ws && ws[3] in ws;
        UpstreamIsSound(ws[0], ws[3]);
        ParsedAreSound(ws[5..]);
      } else {
        ParsedAreSound(ws[Closing(ws) + 1..]);
      }
    }
  }

  lemma {:induction false} EntriesCover(routes: seq<Route>)
    ensures |EntriesOf(routes)| == |routes|
    ensures forall r :: r in routes ==> EntryOf(r) in EntriesOf(routes)
  {
    if routes != [] {
      EntriesCover(routes[1..]);
      assert routes == [routes[0]] + routes[1..];
    }
  }

  /** The printed configuration reads back as exactly the routes it was printed from, in order, if and only if
      every domain is a word, no target has white space in it, and neither has a character with a meaning of its
      own. */
  lemma ReadsBackIff(routes: seq<Route>)
    ensures Parse(Blocks(routes)) == Some(EntriesOf(routes)) <==> forall r :: r in routes ==> Printable(r)
  {
    if forall r :: r in routes ==> Printable(r) {
      FieldsOfBlocks(routes);
      ParseAllWords(routes);
    }
    if Parse(Blocks(routes)) == Some(EntriesOf(routes)) { OnlyWordsReadBack(routes, Blocks(routes)); }
  }

  lemma OnlyWordsReadBack(routes: seq<Route>, text: string)
    requires ParseWords(Fields(text)) == Some(EntriesOf(routes))
    ensures forall r :: r in routes ==> Printable(r)
  {
    EntriesCover(routes);
    FieldsAreWords(text);
    ParsedAreSound(Fields(text));
    forall r | r in routes ensures Printable(r) { assert EntryOf(r) in EntriesOf(routes) && Sound(EntryOf(r)); }
  }

  lemma DefaultLayout(p: string)
    ensures p + OPENING + RESPOND + MESSAGE + "}\n"
            == p + " " + ("{" + "\n\t" + ("respond" + " " + (MESSAGE + "}\n")))
  {
    assert OPENING == " " + "{" + "\n" && RESPOND == "\t" + "respond" + " ";
  }

  lemma MessageLayout()
    ensures MESSAGE + "}\n" == "\"tug-router" + " " + ("is" + " " + ("running\"" + " " + ("200" + "\n" + ("}" + "\n"))))
  {
    assert "\"tug-router " == "\"tug-router" + " " && "is " == "is" + " " && "running\" " == "running\"" + " ";
    assert "200\n" == "200" + "\n" && "}\n" == "}" + "\n";
  }

  lemma MessageWords()
    ensures Fields(MESSAGE + "}\n") == ["\"tug-router", "is", "running\"", "200", "}"]
  {
    MessageLayout();
    VisibleIsWord("\"tug-router");
    VisibleIsWord("is");
    VisibleIsWord("running\"");
    VisibleIsWord("200");
    VisibleIsWord("}");
    assert "}" + "\n" + "" == "}" + "\n";
    FiveTokens(Token("\"tug-router", " "), Token("is", " "), Token("running\"", " "), Token("200", "\n"),
               Token("}", "\n"), "");
  }

  lemma DefaultWords(httpPort: int)
    ensures Fields(Default(httpPort))
            == [":" + Itoa(httpPort), "{", "respond"] + ["\"tug-router", "is", "running\"", "200", "}"]
  {
    var p := ":" + Itoa(httpPort);
    PortIsWord(httpPort);
    VisibleIsWord("{");
    VisibleIsWord("respond");
    DefaultLayout(p);
    MessageWords();
    ThreeTokens(Token(p, " "), Token("{", "\n\t"), Token("respond", " "), MESSAGE + "}\n");
  }

  lemma PortIsWord(port: int)
    ensures Word(":" + Itoa(port))
  {
    ItoaIsNumeral(port);
    assert !IsSpace(':') && forall c :: Numeral(c) ==> !IsSpace(c);
  }

  lemma ClosingIs(a: seq<string>)
    requires "}" !in a
    ensures Closing(a + ["}"]) == |a|
  {
    if a != [] {
      assert (a + ["}"])[1..] == a[1..] + ["}"];
      ClosingIs(a[1..]);
    }
  }

  /** Without routes the configuration reads back as no entries, and answers on the port with a message. */
  lemma EmptyReadsBack(httpPort: int)
    ensures Parse(Default(httpPort)) == Some([])
    ensures var ws := Fields(Default(httpPort));
            && |ws| == 8 && ws[0] == ":" + Itoa(httpPort)
            && ws[1..] == ["{", "respond", "\"tug-router", "is", "running\"", "200", "}"]
  {
    DefaultWords(httpPort);
    var ws := Fields(Default(httpPort));
    var open := [":" + Itoa(httpPort), "{", "respond", "\"tug-router", "is", "running\"", "200"];
    assert ws == open + ["}"];
    assert (":" + Itoa(httpPort))[0] == ':' && "}"[0] == '}';
    assert |"{"| == 1 && "{"[0] == '{' && |"respond"| == 7 && |"is"| == 2 && |"200"| == 3;
    assert |"\"tug-router"| == 11 && |"running\""| == 8;
    ClosingIs(open);
    assert |ws| == 8 && ws[1] == "{" && ws[2] == "respond" && |"reverse_proxy"| == 13;
    assert Closing(ws) == 7 && ws[8..] == [];
    assert ParseWords(ws) == ParseWords(ws[7 + 1..]);
  }
}
