/** `ResolvePath`: lexical confinement of dashboard paths to the sandbox root. */
module Paths {
  import opened Text

  /** A component that stays where it is put. */
  predicate IsName(c: string) { c != "" && c != "." && c != ".." && '/' !in c }

  ghost predicate Names(cs: seq<string>) { forall c :: c in cs ==> IsName(c) }

  // ---------------------------------------------------------------- the path library

  /** One component applied to the components so far; above a rooted path's top there is nothing. */
  function Enter(stack: seq<string>, c: string, rooted: bool): seq<string> {
    if c == "" || c == "." then stack
    else if c != ".." then stack + [c]
    else if stack != [] && stack[|stack| - 1] != ".." then stack[..|stack| - 1]
    else if rooted then stack
    else stack + [".."]
  }

  function Walk(stack: seq<string>, cs: seq<string>, rooted: bool): seq<string> {
    if cs == [] then stack else Enter(Walk(stack, cs[..|cs| - 1], rooted), cs[|cs| - 1], rooted)
  }

  /** Components with slashes between them. */
  function Slashed(cs: seq<string>): string { if cs == [] then "" else Join(cs, '/') }

  predicate Rooted(path: string) { path != "" && path[0] == '/' }

  /** `filepath.Clean`. */
  function Clean(path: string): string {
    var cs := Walk([], Split(path, '/'), Rooted(path));
    if Rooted(path) then "/" + Slashed(cs)
    else if cs == [] then "."
    else Slashed(cs)
  }

  /** `filepath.Join` of two non-empty paths. */
  function JoinPaths(a: string, b: string): string { Clean(a + "/" + b) }

  function Common(a: seq<string>, b: seq<string>): (n: nat)
    ensures n <= |a| && n <= |b| && a[..n] == b[..n]
    ensures n < |a| && n < |b| ==> a[n] != b[n]
  {
    if a == [] || b == [] || a[0] != b[0] then 0 else Common(a[1..], b[1..]) + 1
  }

  function Ups(n: nat): (r: seq<string>)
    ensures |r| == n && forall c :: c in r ==> c == ".."
  {
    if n == 0 then [] else [".."] + Ups(n - 1)
  }

  /** Up past what is not shared, then down. */
  function RelParts(base: seq<string>, target: seq<string>): seq<string> {
    var n := Common(base, target);
    Ups(|base| - n) + target[n..]
  }

  /** The components of a cleaned path. */
  function Components(path: string): seq<string> { Walk([], Split(path, '/'), Rooted(path)) }

  /** `filepath.Rel`; there is no answer between a rooted and an unrooted path, or up out of a `..`. A target that
      is the current directory counts as one component. */
  function Rel(base: string, target: string): Option<string> {
    var b, t := Components(base), Components(target);
    var t' := if t == [] && !Rooted(target) then ["."] else t;
    var n := Common(b, t');
    if Rooted(base) != Rooted(target) then None
    else if b == t then Some(".")
    else if n < |b| && b[n] == ".." then None
    else Some(Slashed(RelParts(b, t')))
  }

  // ---------------------------------------------------------------- the sandbox

  function Root(dataDir: string): string { JoinPaths(dataDir, "apps") }

  predicate HasPrefix(s: string, prefix: string) { |prefix| <= |s| && s[..|prefix|] == prefix }

  /** What is joined to the root: absolute-style paths count from the root as well. */
  function Relative(input: string): string { FromRoot(Clean(input)) }

  function FromRoot(clean: string): string {
    if clean == "/" || clean == "." then "."
    else if HasPrefix(clean, "/") then clean[1..]
    else clean
  }

  /** The prefix check on a relative path. */
  predicate Climbs(s: string) { s == ".." || HasPrefix(s, "../") }

  /** `ResolvePath`; `None` is a sandbox violation, or no relative path. */
  function ResolvePath(root: string, input: string): Option<string> {
    var target := JoinPaths(root, Relative(input));
    match Rel(root, target)
    case None => None
    case Some(relative) => if Climbs(relative) then None else Some(target)
  }

  // ---------------------------------------------------------------- strings and components

  /** A slash between two paths is a seam between their components. */
  lemma SplitSeam(a: string, b: string)
    ensures Split(a + "/" + b, '/') == Split(a, '/') + Split(b, '/')
  {
    var l, r := Split(a, '/'), Split(b, '/');
    assert ("/" + b)[1..] == b;
    assert Split("/" + b, '/') == [""] + r;
    SplitConcat(a, "/" + b, '/');
    assert a + "/" + b == a + ("/" + b);
    assert l[|l| - 1] + "" == l[|l| - 1];
    assert l == l[..|l| - 1] + [l[|l| - 1]];
  }

  predicate Unslashed(cs: seq<string>) { forall c :: c in cs ==> '/' !in c }

  lemma SplitSlashed(cs: seq<string>)
    requires cs != [] && Unslashed(cs)
    ensures Split(Slashed(cs), '/') == cs
  {
    SplitOfJoin(cs, '/');
  }

  lemma ClimbsFirst(s: string)
    requires Climbs(s)
    ensures Split(s, '/')[0] == ".."
  {
    SplitClean("..", '/');
    if s != ".." {
      assert s == ".." + "/" + s[3..];
      SplitSeam("..", s[3..]);
    }
  }

  /** Is the first component of a joined path `..`? The prefix check asks exactly that. */
  lemma ClimbsIff(cs: seq<string>)
    requires cs != [] && Unslashed(cs)
    ensures Climbs(Slashed(cs)) <==> cs[0] == ".."
  {
    SplitSlashed(cs);
    if Climbs(Slashed(cs)) {
      ClimbsFirst(Slashed(cs));
    } else if cs[0] == ".." {
      JoinStart(cs);
    }
  }

  lemma JoinStart(cs: seq<string>)
    requires cs != [] && cs[0] == ".."
    ensures Climbs(Slashed(cs))
  {
    if |cs| > 1 {
      var s := ".." + ['/'] + Join(cs[1..], '/');
      assert Slashed(cs) == s;
      assert s[..3] == "../";
    }
  }

  /** A joined path that does not start with an empty component does not start with a slash. */
  lemma SlashedStart(cs: seq<string>)
    requires cs != [] && Unslashed(cs) && cs[0] != ""
    ensures Slashed(cs) != "" && Slashed(cs)[0] != '/'
  {
    assert cs[0][0] in cs[0];
    assert Slashed(cs)[0] == cs[0][0];
  }

  // ---------------------------------------------------------------- walking

  lemma {:induction false} WalkConcat(stack: seq<string>, a: seq<string>, b: seq<string>, rooted: bool)
    ensures Walk(stack, a + b, rooted) == Walk(Walk(stack, a, rooted), b, rooted)
  {
    if b == [] {
      assert a + b == a;
    } else {
      assert (a + b)[..|a + b| - 1] == a + b[..|b| - 1];
      WalkConcat(stack, a, b[..|b| - 1], rooted);
    }
  }

  lemma {:induction false} WalkNames(stack: seq<string>, cs: seq<string>, rooted: bool)
    requires Names(cs)
    ensures Walk(stack, cs, rooted) == stack + cs
  {
    if cs != [] {
      WalkNames(stack, cs[..|cs| - 1], rooted);
      assert IsName(cs[|cs| - 1]);
      assert cs == cs[..|cs| - 1] + [cs[|cs| - 1]];
    }
  }

  ghost predicate Solid(cs: seq<string>) { forall c :: c in cs ==> c != "" && c != "." && '/' !in c }

  /** The components of a clean path: `..` only at the front, and nowhere in a rooted one. */
  ghost predicate Normal(cs: seq<string>, rooted: bool) {
    Solid(cs) && forall i :: 0 <= i < |cs| && cs[i] == ".." ==> !rooted && (i > 0 ==> cs[i - 1] == "..")
  }

  lemma EnterNormal(cs: seq<string>, c: string, rooted: bool)
    requires Normal(cs, rooted) && '/' !in c
    ensures Normal(Enter(cs, c, rooted), rooted)
  {
    assert '/' !in "..";
    var r := Enter(cs, c, rooted);
    forall x | x in r ensures x != "" && x != "." && '/' !in x { assert x in cs || x == c || x == ".."; }
  }

  lemma {:induction false} WalkNormal(stack: seq<string>, cs: seq<string>, rooted: bool)
    requires Normal(stack, rooted) && Unslashed(cs)
    ensures Normal(Walk(stack, cs, rooted), rooted)
  {
    if cs != [] {
      WalkNormal(stack, cs[..|cs| - 1], rooted);
      EnterNormal(Walk(stack, cs[..|cs| - 1], rooted), cs[|cs| - 1], rooted);
    }
  }

  /** Walking a clean path from nowhere rebuilds it. */
  lemma {:induction false} WalkOfNormal(cs: seq<string>, rooted: bool)
    requires Normal(cs, rooted)
    ensures Walk([], cs, rooted) == cs
  {
    if cs != [] {
      var init := cs[..|cs| - 1];
      assert Normal(init, rooted) by { assert forall c :: c in init ==> c in cs; }
      WalkOfNormal(init, rooted);
      assert cs[|cs| - 1] in cs && cs == init + [cs[|cs| - 1]];
    }
  }

  /** Entering one more component of a path before or after normalising it comes to the same place. */
  lemma EnterThenWalk(stack: seq<string>, w: seq<string>, c: string, rooted: bool)
    requires Solid(w)
    ensures Walk(stack, Enter(w, c, false), rooted) == Enter(Walk(stack, w, rooted), c, rooted)
  {
    var here := Walk(stack, w, rooted);
    if c == "" || c == "." {
    } else if c == ".." && w != [] && w[|w| - 1] != ".." {
      var last := w[|w| - 1];
      assert last in w && here == Walk(stack, w[..|w| - 1], rooted) + [last];
    } else {
      assert (w + [c])[..|w|] == w;
    }
  }

  /** Normalising a relative path does not change where it leads, from any place. */
  lemma {:induction false} NormalLeadsSame(stack: seq<string>, cs: seq<string>, rooted: bool)
    requires Unslashed(cs)
    ensures Walk(stack, Walk([], cs, false), rooted) == Walk(stack, cs, rooted)
  {
    if cs != [] {
      var init := cs[..|cs| - 1];
      NormalLeadsSame(stack, init, rooted);
      WalkNormal([], init, false);
      EnterThenWalk(stack, Walk([], init, false), cs[|cs| - 1], rooted);
    }
  }

  /** A climb at the front of `place` is never undone by walking on. */
  ghost predicate KeepsClimbs(place: seq<string>, t: seq<string>) {
    forall i :: 0 <= i < |place| && place[i] == ".." ==> i < |t| && t[i] == ".."
  }

  lemma {:induction false} WalkKeepsClimbs(place: seq<string>, cs: seq<string>, rooted: bool)
    ensures KeepsClimbs(place, Walk(place, cs, rooted))
  {
    if cs != [] { WalkKeepsClimbs(place, cs[..|cs| - 1], rooted); }
  }

  // ---------------------------------------------------------------- confinement

  /** A sandbox root: clean, and ending in a name unless it is the top. */
  ghost predicate Anchored(place: seq<string>, rooted: bool) {
    Normal(place, rooted) && (place == [] ==> rooted) && (place != [] ==> IsName(place[|place| - 1]))
  }

  function PathOf(cs: seq<string>, rooted: bool): string {
    if rooted then "/" + Slashed(cs) else if cs == [] then "." else Slashed(cs)
  }

  /** Where an input leads from `place`: an absolute-style path below it, a relative one from it. */
  function Destination(place: seq<string>, rooted: bool, input: string): seq<string> {
    if Rooted(input) then place + Walk([], Split(input, '/'), true) else Walk(place, Split(input, '/'), rooted)
  }

  lemma DotLeadsNowhere(place: seq<string>, rooted: bool)
    ensures Walk(place, Split(".", '/'), rooted) == place
  {
    SplitClean(".", '/');
    assert Walk(place, [], rooted) == place;
  }

  /** A joined path of solid components looks like neither the root nor the current directory. */
  lemma SolidLooks(w: seq<string>)
    requires w != [] && Solid(w)
    ensures Split(Slashed(w), '/') == w
    ensures Slashed(w) != "" && Slashed(w)[0] != '/' && Slashed(w) != "."
  {
    assert w[0] in w;
    SlashedStart(w);
    SplitSlashed(w);
    SplitClean(".", '/');
  }

  lemma RootedNormalIsNames(w: seq<string>)
    requires Normal(w, true)
    ensures Names(w)
  {
    forall c | c in w ensures IsName(c) {
      var i :| 0 <= i < |w| && w[i] == c;
    }
  }

  lemma RootedIs(input: string)
    requires Rooted(input)
    ensures var w := Components(input); Names(w) && Relative(input) == if w == [] then "." else Slashed(w)
  {
    var w := Components(input);
    WalkNormal([], Split(input, '/'), true);
    RootedNormalIsNames(w);
    if w != [] {
      SolidLooks(w);
      assert Clean(input)[1..] == Slashed(w);
    }
  }

  lemma SolidFromRoot(w: seq<string>)
    requires w != [] && Solid(w)
    ensures FromRoot(Slashed(w)) == Slashed(w)
  {
    SolidLooks(w);
  }

  lemma RelativeIs(input: string)
    requires !Rooted(input)
    ensures var w := Components(input); Solid(w) && Relative(input) == if w == [] then "." else Slashed(w)
  {
    var w := Components(input);
    WalkNormal([], Split(input, '/'), false);
    if w != [] { SolidFromRoot(w); }
  }

  lemma NamesAreSolid(cs: seq<string>)
    requires Names(cs)
    ensures Solid(cs) && Unslashed(cs)
  {
    forall c | c in cs ensures c != "" && c != "." && '/' !in c { assert IsName(c); }
  }

  /** The cleaned input leads where the input does. */
  lemma InputLeads(place: seq<string>, rooted: bool, input: string)
    ensures Walk(place, Split(Relative(input), '/'), rooted) == Destination(place, rooted, input)
  {
    var w := Components(input);
    if Rooted(input) {
      RootedIs(input);
      WalkNames(place, w, rooted);
      NamesAreSolid(w);
    } else {
      RelativeIs(input);
      NormalLeadsSame(place, Split(input, '/'), rooted);
    }
    if w == [] { DotLeadsNowhere(place, rooted); } else { SolidLooks(w); }
  }

  lemma SplitRooted(cs: seq<string>)
    requires Unslashed(cs)
    ensures Split("/" + Slashed(cs), '/') == [""] + if cs == [] then [""] else cs
  {
    SplitSeam("", Slashed(cs));
    assert "" + "/" + Slashed(cs) == "/" + Slashed(cs);
    if cs != [] { SplitSlashed(cs); }
  }

  lemma WalkBlank(cs: seq<string>, rooted: bool)
    ensures Walk([], [""] + cs, rooted) == Walk([], cs, rooted)
  {
    WalkConcat([], [""], cs, rooted);
    assert Walk([], [], rooted) == [] && Walk([], [""], rooted) == Enter([], "", rooted);
  }

  /** A clean path is rooted as it says, and its components are those it was joined from. */
  lemma ComponentsOf(cs: seq<string>, rooted: bool)
    requires Normal(cs, rooted)
    ensures Rooted(PathOf(cs, rooted)) == rooted && Components(PathOf(cs, rooted)) == cs && PathOf(cs, rooted) != ""
  {
    WalkOfNormal(cs, rooted);
    if rooted {
      SplitRooted(cs);
      WalkBlank(if cs == [] then [""] else cs, true);
      WalkBlank([], true);
    } else if cs == [] {
      DotLeadsNowhere([], false);
    } else {
      SolidLooks(cs);
    }
  }

  lemma RootedAppend(a: string, b: string)
    requires a != ""
    ensures Rooted(a + "/" + b) == Rooted(a)
  {
  }

  lemma TargetIs(place: seq<string>, rooted: bool, input: string)
    requires Normal(place, rooted)
    ensures var t := Destination(place, rooted, input);
            Normal(t, rooted) && JoinPaths(PathOf(place, rooted), Relative(input)) == PathOf(t, rooted)
  {
    var root, x := PathOf(place, rooted), Relative(input);
    ComponentsOf(place, rooted);
    RootedAppend(root, x);
    SplitSeam(root, x);
    WalkConcat([], Split(root, '/'), Split(x, '/'), rooted);
    InputLeads(place, rooted, input);
    WalkNormal(place, Split(x, '/'), rooted);
  }

  /** The relative path starts with a climb exactly when the target is not the base or below it. */
  lemma ClimbsUnlessBelow(base: seq<string>, t: seq<string>)
    requires Common(base, t) < |t| && Common(base, t) == |base| ==> t[|base|] != ".."
    ensures var cs := RelParts(base, t); (cs != [] && cs[0] == "..") <==> !(base <= t)
  {
    var n, cs := Common(base, t), RelParts(base, t);
    if n < |base| {
      assert cs[0] == Ups(|base| - n)[0];
      assert n < |t| ==> base[n] != t[n];
    } else {
      assert cs == t[n..];
    }
  }

  lemma RelUnslashed(base: seq<string>, t: seq<string>)
    requires Unslashed(t)
    ensures Unslashed(RelParts(base, t))
  {
    assert '/' !in "..";
    forall c | c in RelParts(base, t) ensures '/' !in c { assert c in t || c == ".."; }
  }

  /** Below an anchored base there is no climb. */
  lemma NoClimbBelow(base: seq<string>, t: seq<string>, rooted: bool)
    requires Anchored(base, rooted) && Normal(t, rooted) && base <= t
    ensures Names(t[|base|..])
  {
    NoClimbAt(base, t, rooted, |t|);
  }

  lemma {:induction false} NoClimbAt(base: seq<string>, t: seq<string>, rooted: bool, n: nat)
    requires Anchored(base, rooted) && Normal(t, rooted) && base <= t && |base| <= n <= |t|
    ensures Names(t[|base|..n])
    decreases n
  {
    if n > |base| {
      NoClimbAt(base, t, rooted, n - 1);
      assert t[|base|..n] == t[|base|..n - 1] + [t[n - 1]];
      assert t[n - 1] in t;
      if n - 1 > |base| {
        assert t[n - 2] in t[|base|..n - 1];
      } else {
        assert base != [] ==> t[n - 2] == base[|base| - 1];
      }
    }
  }

  /** What `Rel` makes of a destination. */
  lemma RelOf(base: seq<string>, t: seq<string>, rooted: bool)
    requires Anchored(base, rooted) && Normal(t, rooted) && KeepsClimbs(base, t)
    ensures var r := Rel(PathOf(base, rooted), PathOf(t, rooted)); r.Some? && (Climbs(r.value) <==> !(base <= t))
  {
    ComponentsOf(base, rooted);
    ComponentsOf(t, rooted);
    var t' := if t == [] && !rooted then ["."] else t;
    if base != t {
      if base <= t { NoClimbBelow(base, t, rooted); }
      RelPartsOf(base, t', rooted);
    }
  }

  lemma RelPartsOf(base: seq<string>, t: seq<string>, rooted: bool)
    requires Unslashed(t) && base != t
    requires base <= t ==> t[|base|] != ".."
    ensures Climbs(Slashed(RelParts(base, t))) <==> !(base <= t)
  {
    var n, cs := Common(base, t), RelParts(base, t);
    ClimbsUnlessBelow(base, t);
    RelUnslashed(base, t);
    assert cs != [] by { if n == |base| { assert base == t[..n]; } }
    ClimbsIff(cs);
  }

  /** Confinement, exactly: an input is accepted if and only if it leads to the root or below it, component by
      component, and then it resolves to just that place, below the root only through names. */
  lemma ResolvesIff(place: seq<string>, rooted: bool, input: string)
    requires Anchored(place, rooted)
    ensures var t := Destination(place, rooted, input);
            && (place <= t ==> Names(t[|place|..]))
            && ResolvePath(PathOf(place, rooted), input) == if place <= t then Some(PathOf(t, rooted)) else None
  {
    var t := Destination(place, rooted, input);
    TargetIs(place, rooted, input);
    DestinationKeeps(place, rooted, input);
    RelOf(place, t, rooted);
    if place <= t { NoClimbBelow(place, t, rooted); }
  }

  lemma DestinationKeeps(place: seq<string>, rooted: bool, input: string)
    ensures KeepsClimbs(place, Destination(place, rooted, input))
  {
    WalkKeepsClimbs(place, Split(input, '/'), rooted);
  }

  /** The sandbox root under any data directory, absolute or relative, is anchored and ends in `apps`. */
  lemma RootIsClean(dataDir: string) returns (place: seq<string>)
    requires dataDir != ""
    ensures Anchored(place, Rooted(dataDir)) && Root(dataDir) == PathOf(place, Rooted(dataDir))
    ensures place == Components(dataDir) + ["apps"]
  {
    var cs := Split(dataDir, '/');
    SplitSeam(dataDir, "apps");
    SplitClean("apps", '/');
    assert (cs + ["apps"])[..|cs|] == cs;
    RootedAppend(dataDir, "apps");
    place := Walk([], cs + ["apps"], Rooted(dataDir));
    WalkNormal([], cs + ["apps"], Rooted(dataDir));
    assert place == Walk([], cs, Rooted(dataDir)) + ["apps"];
  }

  /** The sandbox as it is set up: what an accepted input resolves to lies in `apps` under the data directory, at the
      place the input leads to from there, and below it only through names; any other input is turned down. */
  lemma StaysInSandbox(dataDir: string, input: string)
    requires dataDir != ""
    ensures var apps, rooted, r := Components(dataDir) + ["apps"], Rooted(dataDir), ResolvePath(Root(dataDir), input);
            var t := Destination(apps, rooted, input);
            && (r.Some? <==> apps <= t)
            && (r.Some? ==> Rooted(r.value) == rooted && Components(r.value) == t && Names(t[|apps|..]))
  {
    var place := RootIsClean(dataDir);
    var t := Destination(place, Rooted(dataDir), input);
    ResolvesIff(place, Rooted(dataDir), input);
    TargetIs(place, Rooted(dataDir), input);
    ComponentsOf(t, Rooted(dataDir));
  }

  /** Absolute-style inputs are always accepted: `..` cannot climb above what they take for the top. */
  lemma AbsoluteIsAccepted(place: seq<string>, rooted: bool, input: string)
    requires Anchored(place, rooted) && Rooted(input)
    ensures ResolvePath(PathOf(place, rooted), input).Some?
  {
    ResolvesIff(place, rooted, input);
  }

  lemma WalkOne(stack: seq<string>, c: string, rooted: bool)
    ensures Walk(stack, [c], rooted) == Enter(stack, c, rooted)
  {
    assert Walk(stack, [], rooted) == stack;
  }

  lemma NameLeads(place: seq<string>, rooted: bool, name: string)
    requires IsName(name)
    ensures Destination(place, rooted, name) == place + [name]
  {
    SplitClean(name, '/');
    WalkOne(place, name, rooted);
    assert name[0] in name;
  }

  lemma ClimbLeads(place: seq<string>, rooted: bool, name: string)
    requires place != [] && IsName(place[|place| - 1]) && IsName(name)
    ensures Destination(place, rooted, "../" + name) == place[..|place| - 1] + [name]
  {
    SplitClean(name, '/');
    SplitClean("..", '/');
    SplitSeam("..", name);
    assert ".." + "/" + name == "../" + name;
    WalkConcat(place, [".."], [name], rooted);
    WalkOne(place, "..", rooted);
    WalkOne(place[..|place| - 1], name, rooted);
  }

  lemma DetourLeads(place: seq<string>, rooted: bool, name: string)
    requires place != [] && IsName(place[|place| - 1]) && IsName(name)
    ensures Destination(place, rooted, "../" + place[|place| - 1] + "/" + name) == place + [name]
  {
    var last := place[|place| - 1];
    ClimbLeads(place, rooted, last);
    SplitSeam("../" + last, name);
    SplitClean(name, '/');
    WalkConcat(place, Split("../" + last, '/'), [name], rooted);
    assert place == place[..|place| - 1] + [last];
    WalkOne(place, name, rooted);
  }

  /** A name that merely starts with two dots is an ordinary name. */
  lemma NameIsAccepted(place: seq<string>, rooted: bool, name: string)
    requires Anchored(place, rooted) && IsName(name)
    ensures ResolvePath(PathOf(place, rooted), name) == Some(PathOf(place + [name], rooted))
  {
    NameLeads(place, rooted, name);
    ResolvesIff(place, rooted, name);
  }

  /** Leaving the root and coming back is staying in it. */
  lemma DetourIsAccepted(place: seq<string>, rooted: bool, name: string)
    requires Anchored(place, rooted) && place != [] && IsName(name)
    ensures ResolvePath(PathOf(place, rooted), "../" + place[|place| - 1] + "/" + name)
            == ResolvePath(PathOf(place, rooted), name)
  {
    NameIsAccepted(place, rooted, name);
    DetourLeads(place, rooted, name);
    ResolvesIff(place, rooted, "../" + place[|place| - 1] + "/" + name);
  }

  /** A sibling of the root is accepted exactly when it is the root itself. */
  lemma SiblingIsRejected(place: seq<string>, rooted: bool, name: string)
    requires Anchored(place, rooted) && place != [] && IsName(name)
    ensures ResolvePath(PathOf(place, rooted), "../" + name).Some? <==> name == place[|place| - 1]
  {
    ClimbLeads(place, rooted, name);
    ResolvesIff(place, rooted, "../" + name);
    LastDecides(place, name);
  }

  lemma LastDecides<T>(s: seq<T>, x: T)
    requires s != []
    ensures s <= s[..|s| - 1] + [x] <==> x == s[|s| - 1]
  {
    var t := s[..|s| - 1] + [x];
    if x == s[|s| - 1] { assert t == s; } else { assert t[|s| - 1] != s[|s| - 1]; }
  }
}
