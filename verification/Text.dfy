/** The parts of Go's `strings` package the agent leans on: trimming, splitting, joining, case folding. */
module Text {

  datatype Option<+T> = None | Some(value: T) {
    function GetOr(default: T): T { if Some? then value else default }
  }

  /** `unicode.IsSpace`, the whole White_Space set. */
  predicate IsSpace(c: char) {
    || '\t' <= c <= '\r' || c == ' ' || c == '\U{0085}' || c == '\U{00A0}' || c == '\U{1680}'
    || '\U{2000}' <= c <= '\U{200A}' || c == '\U{2028}' || c == '\U{2029}'
    || c == '\U{202F}' || c == '\U{205F}' || c == '\U{3000}'
  }

  /** Code by code. */
  lemma SpacesAre(c: char)
    ensures IsSpace(c) <==> c as int in {9, 10, 11, 12, 13, 32, 0x85, 0xA0, 0x1680, 0x2000, 0x2001, 0x2002, 0x2003,
                                         0x2004, 0x2005, 0x2006, 0x2007, 0x2008, 0x2009, 0x200A, 0x2028, 0x2029,
                                         0x202F, 0x205F, 0x3000}
  {
  }

  function TrimLeft(s: string): string { if s != "" && IsSpace(s[0]) then TrimLeft(s[1..]) else s }

  function TrimRight(s: string): string {
    if s != "" && IsSpace(s[|s| - 1]) then TrimRight(s[..|s| - 1]) else s
  }

  /** `strings.TrimSpace`. */
  function TrimSpace(s: string): string { TrimRight(TrimLeft(s)) }

  predicate Blank(s: string) { TrimSpace(s) == "" }

  /** No white space at either end. */
  predicate Trimmed(s: string) { s == "" || (!IsSpace(s[0]) && !IsSpace(s[|s| - 1])) }

  lemma {:induction false} TrimLeftCuts(s: string)
    ensures var r := TrimLeft(s); |r| <= |s| && r == s[|s| - |r|..] && (r != "" ==> !IsSpace(r[0]))
  {
    if s != "" && IsSpace(s[0]) { TrimLeftCuts(s[1..]); }
  }

  lemma {:induction false} TrimRightCuts(s: string)
    ensures var r := TrimRight(s); |r| <= |s| && r == s[..|r|] && (r != "" ==> !IsSpace(r[|r| - 1]))
  {
    if s != "" && IsSpace(s[|s| - 1]) { TrimRightCuts(s[..|s| - 1]); }
  }

  /** Trimming leaves a stretch of the input with no white space at either end. */
  lemma TrimIsSlice(s: string) returns (i: nat, j: nat)
    ensures i <= j <= |s| && TrimSpace(s) == s[i..j] && i == |s| - |TrimLeft(s)|
    ensures Trimmed(TrimSpace(s))
  {
    var l := TrimLeft(s);
    TrimLeftCuts(s);
    TrimRightCuts(l);
    i := |s| - |l|;
    j := i + |TrimRight(l)|;
    assert l[..|TrimRight(l)|] == s[i..j];
  }

  lemma {:induction false} TrimLeftTakesSpace(s: string, k: nat)
    requires k < |s| - |TrimLeft(s)|
    ensures IsSpace(s[k])
  {
    if k > 0 { TrimLeftTakesSpace(s[1..], k - 1); }
  }

  lemma {:induction false} TrimRightTakesSpace(s: string, k: nat)
    requires |TrimRight(s)| <= k < |s|
    ensures IsSpace(s[k])
  {
    if k < |s| - 1 { TrimRightTakesSpace(s[..|s| - 1], k); }
  }

  /** And everything it takes off is white space. */
  lemma TrimTakesSpace(s: string) returns (i: nat, j: nat)
    ensures i <= j <= |s| && TrimSpace(s) == s[i..j] && Trimmed(TrimSpace(s))
    ensures forall k :: 0 <= k < i || j <= k < |s| ==> IsSpace(s[k])
  {
    i, j := TrimIsSlice(s);
    forall k | 0 <= k < i || j <= k < |s| ensures IsSpace(s[k]) { TrimEnds(s, i, j, k); }
  }

  lemma TrimEnds(s: string, i: nat, j: nat, k: nat)
    requires i == |s| - |TrimLeft(s)| && j == i + |TrimSpace(s)| && k < |s| && (k < i || j <= k)
    ensures IsSpace(s[k])
  {
    TrimLeftCuts(s);
    if k < i { TrimLeftTakesSpace(s, k); } else { TrimRightTakesSpace(TrimLeft(s), k - i); }
  }

  lemma TrimOfTrimmed(s: string)
    requires Trimmed(s)
    ensures TrimSpace(s) == s
  {
  }

  lemma TrimmedIff(s: string)
    ensures Trimmed(s) <==> TrimSpace(s) == s
  {
    if Trimmed(s) { TrimOfTrimmed(s); } else { var i, j := TrimIsSlice(s); }
  }

  lemma TrimTwice(s: string)
    ensures TrimSpace(TrimSpace(s)) == TrimSpace(s)
  {
    var i, j := TrimIsSlice(s);
    TrimOfTrimmed(TrimSpace(s));
  }

  function LowerChar(c: char): char {
    if 'A' <= c <= 'Z' then (c as int - 'A' as int + 'a' as int) as char else c
  }

  /** `strings.ToLower` on ASCII. */
  function ToLower(s: string): string { if s == "" then "" else [LowerChar(s[0])] + ToLower(s[1..]) }

  /** `strings.EqualFold` on ASCII. */
  predicate EqualFold(a: string, b: string) { ToLower(a) == ToLower(b) }

  /** The same letter, or one in upper and the other in lower case. */
  predicate SameLetter(a: char, b: char) {
    a == b || ('A' <= a <= 'Z' && b as int == a as int + 32) || ('A' <= b <= 'Z' && a as int == b as int + 32)
  }

  lemma LowerSame(a: char, b: char)
    ensures LowerChar(a) == LowerChar(b) <==> SameLetter(a, b)
  {
  }

  predicate SameLetters(a: string, b: string) { |a| == |b| && forall i :: 0 <= i < |a| ==> SameLetter(a[i], b[i]) }

  lemma SameLettersCons(a: string, b: string)
    requires a != "" && b != ""
    ensures SameLetters(a, b) <==> SameLetter(a[0], b[0]) && SameLetters(a[1..], b[1..])
  {
    if SameLetter(a[0], b[0]) && SameLetters(a[1..], b[1..]) {
      forall i | 0 < i < |a| ensures SameLetter(a[i], b[i]) { assert a[i] == a[1..][i - 1] && b[i] == b[1..][i - 1]; }
    }
  }

  /** Letter by letter. */
  lemma {:induction false} EqualFoldIff(a: string, b: string)
    ensures EqualFold(a, b) <==> SameLetters(a, b)
  {
    if a != "" && b != "" {
      EqualFoldIff(a[1..], b[1..]);
      SameLettersCons(a, b);
      LowerSame(a[0], b[0]);
      assert ToLower(a)[0] == LowerChar(a[0]) && ToLower(b)[0] == LowerChar(b[0]);
      assert ToLower(a)[1..] == ToLower(a[1..]) && ToLower(b)[1..] == ToLower(b[1..]);
    }
  }

  /** `part` is `whole` with some elements left out. */
  predicate Subsequence<T(==)>(part: seq<T>, whole: seq<T>) {
    if part == [] then true
    else if whole == [] then false
    else
      || (part[|part| - 1] == whole[|whole| - 1] && Subsequence(part[..|part| - 1], whole[..|whole| - 1]))
      || Subsequence(part, whole[..|whole| - 1])
  }

  lemma SubsequenceSkip<T>(part: seq<T>, whole: seq<T>)
    requires whole != [] && Subsequence(part, whole[..|whole| - 1])
    ensures Subsequence(part, whole)
  {
  }

  lemma SubsequenceTake<T>(part: seq<T>, whole: seq<T>)
    requires whole != [] && Subsequence(part, whole[..|whole| - 1])
    ensures Subsequence(part + [whole[|whole| - 1]], whole)
  {
    assert (part + [whole[|whole| - 1]])[..|part|] == part;
  }

  /** `strings.Split` for a one-element separator. */
  function Split<T(==)>(s: seq<T>, c: T): (r: seq<seq<T>>)
    ensures |r| >= 1
    ensures forall p :: p in r ==> c !in p
  {
    if s == [] then [[]]
    else
      var r := Split(s[1..], c);
      if s[0] == c then [[]] + r else [[s[0]] + r[0]] + r[1..]
  }

  /** The pieces put back together with the separator between them. */
  function Join<T>(parts: seq<seq<T>>, c: T): seq<T>
    requires |parts| >= 1
  {
    if |parts| == 1 then parts[0] else parts[0] + [c] + Join(parts[1..], c)
  }

  lemma {:induction false} SplitClean<T>(s: seq<T>, c: T)
    requires c !in s
    ensures Split(s, c) == [s]
  {
    if s != [] {
      SplitClean(s[1..], c);
      assert [s[0]] + s[1..] == s;
    }
  }

  /** Two piece lists joined at the seam: the last piece of one and the first of the other become one. */
  function Glue<T>(l: seq<seq<T>>, r: seq<seq<T>>): (g: seq<seq<T>>)
    requires |l| >= 1 && |r| >= 1
    ensures |g| == |l| + |r| - 1
  {
    l[..|l| - 1] + [l[|l| - 1] + r[0]] + r[1..]
  }

  lemma GlueCons<T>(p: seq<T>, l: seq<seq<T>>, r: seq<seq<T>>)
    requires |l| >= 1 && |r| >= 1
    ensures Glue([p] + l, r) == [p] + Glue(l, r)
  {
    assert ([p] + l)[..|l|] == [p] + l[..|l| - 1];
  }

  lemma GlueHead<T>(x: T, l: seq<seq<T>>, r: seq<seq<T>>)
    requires |l| >= 1 && |r| >= 1
    ensures Glue([[x] + l[0]] + l[1..], r) == [[x] + Glue(l, r)[0]] + Glue(l, r)[1..]
  {
    if |l| == 1 {
      assert ([x] + l[0]) + r[0] == [x] + (l[0] + r[0]);
    } else {
      GlueCons([x] + l[0], l[1..], r);
      GlueCons(l[0], l[1..], r);
      assert [l[0]] + l[1..] == l;
    }
  }

  /** Splitting a concatenation glues the piece before the seam to the piece after it. */
  lemma {:induction false} SplitConcat<T>(a: seq<T>, b: seq<T>, c: T)
    ensures Split(a + b, c) == Glue(Split(a, c), Split(b, c))
  {
    var r := Split(b, c);
    if a == [] {
      assert a + b == b;
      assert [] + r[0] == r[0];
      assert [r[0]] + r[1..] == r;
    } else {
      SplitConcat(a[1..], b, c);
      assert (a + b)[1..] == a[1..] + b;
      if a[0] == c {
        GlueCons([], Split(a[1..], c), r);
      } else {
        GlueHead(a[0], Split(a[1..], c), r);
      }
    }
  }

  /** Splitting right after a separator. */
  lemma SplitAfter<T>(a: seq<T>, b: seq<T>, c: T)
    requires c !in a
    ensures Split(a + [c] + b, c) == [a] + Split(b, c)
  {
    SplitClean(a, c);
    SplitConcat(a, [c] + b, c);
    assert a + [c] + b == a + ([c] + b);
    assert ([c] + b)[1..] == b;
    assert a + [] == a;
  }

  lemma {:induction false} SplitOfJoin<T>(parts: seq<seq<T>>, c: T)
    requires |parts| >= 1
    requires forall p :: p in parts ==> c !in p
    ensures Split(Join(parts, c), c) == parts
  {
    if |parts| == 1 {
      SplitClean(parts[0], c);
    } else {
      SplitOfJoin(parts[1..], c);
      SplitAfter(parts[0], Join(parts[1..], c), c);
    }
  }
}
