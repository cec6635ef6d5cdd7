/** The router's domain table: who may take a domain over, over any sequence of changes. */
module Routes {
  import opened Text

  datatype Route = Route(domain: string, target: string, port: int, containerId: string)

  datatype Request = Request(domain: string, containerId: string, containerName: string, port: int)

  /** The route a request asks for. */
  function Desired(r: Request): Route {
    Route(ToLower(TrimSpace(r.domain)), TrimSpace(r.containerName), r.port, TrimSpace(r.containerId))
  }

  /** The domain of the request, case aside, goes to its container and port. */
  predicate IsGrant(r: Route, request: Request) {
    && SameLetters(r.domain, TrimSpace(request.domain)) && r.port == request.port
    && r.target == TrimSpace(request.containerName) && r.containerId == TrimSpace(request.containerId)
  }

  predicate SameContainer(existing: Route, desired: Route) {
    var id := TrimSpace(existing.containerId);
    || (id != "" && desired.containerId != "" && id == desired.containerId)
    || EqualFold(TrimSpace(existing.target), desired.target)
  }

  /** `i` is the first entry for the domain. */
  predicate FirstFor(routes: seq<Route>, domain: string, i: nat) {
    && i < |routes| && EqualFold(routes[i].domain, domain)
    && forall j :: 0 <= j < i ==> !EqualFold(routes[j].domain, domain)
  }

  predicate Free(routes: seq<Route>, domain: string) { forall r :: r in routes ==> !EqualFold(r.domain, domain) }

  /** What `upsertRoute` may answer: append to a free domain, replace the owner's own route, or refuse. */
  ghost predicate IsUpsert(routes: seq<Route>, desired: Route, after: seq<Route>, ok: bool) {
    || (ok && Free(routes, desired.domain) && after == routes + [desired])
    || exists i: nat :: FirstFor(routes, desired.domain, i) && ok == SameContainer(routes[i], desired)
                   && after == if ok then routes[i := desired] else routes
  }

  predicate Matches(r: Route, trimmed: string) { EqualFold(TrimSpace(r.domain), trimmed) }

  function Without(routes: seq<Route>, trimmed: string): seq<Route> {
    if routes == [] then []
    else Without(routes[..|routes| - 1], trimmed) +
         if Matches(routes[|routes| - 1], trimmed) then [] else [routes[|routes| - 1]]
  }

  ghost predicate NoneMatches(routes: seq<Route>, trimmed: string) { forall r :: r in routes ==> !Matches(r, trimmed) }

  lemma NoneMatchesSnoc(init: seq<Route>, last: Route, trimmed: string)
    ensures NoneMatches(init + [last], trimmed) <==> NoneMatches(init, trimmed) && !Matches(last, trimmed)
  {
    assert last in init + [last];
  }

  lemma {:induction false} WithoutLength(routes: seq<Route>, trimmed: string)
    ensures |Without(routes, trimmed)| <= |routes|
    ensures |Without(routes, trimmed)| == |routes| <==> NoneMatches(routes, trimmed)
  {
    if routes != [] {
      var init, last := routes[..|routes| - 1], routes[|routes| - 1];
      WithoutLength(init, trimmed);
      NoneMatchesSnoc(init, last, trimmed);
      assert routes == init + [last];
    }
  }

  lemma {:induction false} WithoutInOrder(routes: seq<Route>, trimmed: string)
    ensures Subsequence(Without(routes, trimmed), routes)
  {
    if routes != [] {
      var init, last := routes[..|routes| - 1], routes[|routes| - 1];
      WithoutInOrder(init, trimmed);
      if Matches(last, trimmed) {
        assert Without(routes, trimmed) == Without(init, trimmed);
        SubsequenceSkip(Without(init, trimmed), routes);
      } else {
        assert Without(routes, trimmed) == Without(init, trimmed) + [last];
        SubsequenceTake(Without(init, trimmed), routes);
      }
    }
  }

  class Router {
    /** The persisted route list. */
    var routes: seq<Route>

    constructor ()
      ensures routes == []
    {
      routes := [];
    }

    /** `ConfigureRoute` up to the persisted list; it is written before the proxy is told. */
    method ConfigureRoute(request: Request) returns (ok: bool)
      modifies this
      ensures IsUpsert(old(routes), Desired(request), routes, ok)
      ensures ok ==> exists r :: r in routes && IsGrant(r, request)
      ensures !ok ==> routes == old(routes)
    {
      DesiredIsGrant(request);
      ok := UpsertRoute(Desired(request));
      if ok { assert Desired(request) in routes; }
    }

    method UpsertRoute(desired: Route) returns (ok: bool)
      modifies this
      ensures IsUpsert(old(routes), desired, routes, ok)
    {
      for index := 0 to |routes|
        invariant routes == old(routes)
        invariant forall j :: 0 <= j < index ==> !EqualFold(routes[j].domain, desired.domain)
      {
        if EqualFold(routes[index].domain, desired.domain) {
          var existingId, existingName := TrimSpace(routes[index].containerId), TrimSpace(routes[index].target);
          var sameById := existingId != "" && desired.containerId != "" && existingId == desired.containerId;
          var sameByName := EqualFold(existingName, desired.target);
          assert FirstFor(routes, desired.domain, index);
          if !sameById && !sameByName { return false; }
          routes := routes[index := desired];
          return true;
        }
      }
      routes := routes + [desired];
      return true;
    }

    method DeleteRoute(domain: string) returns (ok: bool)
      modifies this
      ensures ok <==> !Blank(domain) && exists r :: r in old(routes) && Matches(r, TrimSpace(domain))
      ensures routes == if ok then Without(old(routes), TrimSpace(domain)) else old(routes)
      ensures ok ==> Subsequence(routes, old(routes))
    {
      var trimmed := TrimSpace(domain);
      if trimmed == "" { return false; }
      var remaining: seq<Route> := [];
      for k := 0 to |routes|
        invariant routes == old(routes) && remaining == Without(routes[..k], trimmed)
      {
        assert routes[..k + 1][..k] == routes[..k];
        if !Matches(routes[k], trimmed) { remaining := remaining + [routes[k]]; }
      }
      assert routes[..|routes|] == routes;
      WithoutLength(routes, trimmed);
      WithoutInOrder(routes, trimmed);
      if |remaining| == |routes| { return false; }
      routes := remaining;
      return true;
    }
  }

  // ---------------------------------------------------------------- runs

  datatype Op = Configure(request: Request) | Delete(domain: string)

  /** One request served on the table. */
  ghost predicate Serves(routes: seq<Route>, op: Op, after: seq<Route>) {
    match op
    case Configure(request) => exists ok :: IsUpsert(routes, Desired(request), after, ok)
    case Delete(domain) => after == if Blank(domain) then routes else Without(routes, TrimSpace(domain))
  }

  /** No two domains are equal, whatever the case. */
  ghost predicate Distinct(routes: seq<Route>) {
    forall i, j :: 0 <= i < j < |routes| ==> !EqualFold(routes[i].domain, routes[j].domain)
  }

  /** Domains are trimmed and in lower case. */
  ghost predicate AllCanonical(routes: seq<Route>) { forall r :: r in routes ==> Canonical(r.domain) }

  predicate Canonical(domain: string) { Trimmed(domain) && ToLower(domain) == domain }

  lemma {:induction false} LowerTwice(s: string)
    ensures ToLower(ToLower(s)) == ToLower(s) && |ToLower(s)| == |s|
    ensures forall i :: 0 <= i < |s| ==> ToLower(s)[i] == LowerChar(s[i])
  {
    if s != "" { LowerTwice(s[1..]); }
  }

  lemma DesiredIsGrant(request: Request)
    ensures IsGrant(Desired(request), request)
  {
    LowerTwice(TrimSpace(request.domain));
    EqualFoldIff(Desired(request).domain, TrimSpace(request.domain));
  }

  lemma LowerKeepsSpace(c: char)
    ensures IsSpace(LowerChar(c)) <==> IsSpace(c)
  {
  }

  lemma DesiredIsCanonical(r: Request)
    ensures Canonical(Desired(r).domain)
  {
    var d := TrimSpace(r.domain);
    var i, j := TrimIsSlice(r.domain);
    LowerTwice(d);
    if d != "" {
      LowerKeepsSpace(d[0]);
      LowerKeepsSpace(d[|d| - 1]);
    }
  }

  lemma {:induction false} WithoutIs(routes: seq<Route>, trimmed: string, r: Route)
    ensures r in Without(routes, trimmed) <==> r in routes && !Matches(r, trimmed)
  {
    if routes != [] {
      WithoutIs(routes[..|routes| - 1], trimmed, r);
      assert routes == routes[..|routes| - 1] + [routes[|routes| - 1]];
    }
  }

  lemma AppendIsDistinct(routes: seq<Route>, desired: Route)
    requires Distinct(routes) && Free(routes, desired.domain)
    ensures Distinct(routes + [desired])
  {
    forall i | 0 <= i < |routes| ensures !EqualFold(routes[i].domain, desired.domain) { assert routes[i] in routes; }
  }

  lemma InitIsDistinct(routes: seq<Route>)
    requires Distinct(routes) && routes != []
    ensures Distinct(routes[..|routes| - 1]) && Free(routes[..|routes| - 1], routes[|routes| - 1].domain)
  {
  }

  lemma {:induction false} WithoutIsDistinct(routes: seq<Route>, trimmed: string)
    requires Distinct(routes)
    ensures Distinct(Without(routes, trimmed))
  {
    if routes != [] {
      var init, last := routes[..|routes| - 1], routes[|routes| - 1];
      InitIsDistinct(routes);
      WithoutIsDistinct(init, trimmed);
      forall r | r in Without(init, trimmed) ensures r in init { WithoutIs(init, trimmed, r); }
      AppendIsDistinct(Without(init, trimmed), last);
    }
  }

  lemma ReplaceIsDistinct(routes: seq<Route>, desired: Route, k: nat)
    requires Distinct(routes) && FirstFor(routes, desired.domain, k)
    ensures Distinct(routes[k := desired])
  {
    var after := routes[k := desired];
    forall i, j | 0 <= i < j < |after| ensures !EqualFold(after[i].domain, after[j].domain) {
      assert !EqualFold(routes[i].domain, routes[j].domain);
    }
  }

  lemma UpsertIsDistinct(routes: seq<Route>, desired: Route, after: seq<Route>, ok: bool)
    requires Distinct(routes) && IsUpsert(routes, desired, after, ok)
    ensures Distinct(after)
  {
    if ok {
      if Free(routes, desired.domain) && after == routes + [desired] {
        AppendIsDistinct(routes, desired);
      } else {
        var k: nat :| FirstFor(routes, desired.domain, k) && after == routes[k := desired];
        ReplaceIsDistinct(routes, desired, k);
      }
    }
  }

  /** Every request keeps domains distinct, and canonical if they were. */
  lemma ServesTidily(routes: seq<Route>, op: Op, after: seq<Route>)
    requires Distinct(routes) && Serves(routes, op, after)
    ensures Distinct(after)
    ensures AllCanonical(routes) ==> AllCanonical(after)
  {
    match op
    case Configure(request) =>
      DesiredIsCanonical(request);
      var ok :| IsUpsert(routes, Desired(request), after, ok);
      UpsertIsDistinct(routes, Desired(request), after, ok);
      forall r | r in after && AllCanonical(routes) ensures Canonical(r.domain) {
        assert r in routes || r == Desired(request);
      }
    case Delete(domain) =>
      if !Blank(domain) {
        WithoutIsDistinct(routes, TrimSpace(domain));
        forall r | r in after && AllCanonical(routes) ensures Canonical(r.domain) {
          WithoutIs(routes, TrimSpace(domain), r);
        }
      }
  }

  /** A run: the table before each request and after the last. It may start from a table that an earlier
      version left. */
  ghost predicate Run(tables: seq<seq<Route>>, ops: seq<Op>) {
    |tables| == |ops| + 1 && forall i :: 0 <= i < |ops| ==> Serves(tables[i], ops[i], tables[i + 1])
  }

  lemma StepTidily(tables: seq<seq<Route>>, ops: seq<Op>, k: nat)
    requires Run(tables, ops) && k < |ops| && Distinct(tables[k])
    ensures Distinct(tables[k + 1]) && (AllCanonical(tables[k]) ==> AllCanonical(tables[k + 1]))
  {
    ServesTidily(tables[k], ops[k], tables[k + 1]);
  }

  /** Over any sequence of requests domains stay pairwise distinct ignoring case, on any table on which they
      were at first; and on a table that started empty, or with trimmed lower-case domains, all are. */
  lemma {:induction false} DomainsStayDistinct(tables: seq<seq<Route>>, ops: seq<Op>, k: nat)
    requires Run(tables, ops) && Distinct(tables[0]) && k <= |ops|
    ensures Distinct(tables[k])
    ensures AllCanonical(tables[0]) ==> AllCanonical(tables[k])
  {
    if k > 0 {
      DomainsStayDistinct(tables, ops, k - 1);
      StepTidily(tables, ops, k - 1);
    }
  }

  // ---------------------------------------------------------------- the table as a map from domains

  /** Where domains are distinct a domain has one route. */
  lemma OneOwner(routes: seq<Route>, r: Route, s: Route)
    requires Distinct(routes) && r in routes && s in routes && EqualFold(r.domain, s.domain)
    ensures r == s
  {
    var i :| 0 <= i < |routes| && routes[i] == r;
    var j :| 0 <= j < |routes| && routes[j] == s;
  }

  /** A configured domain belongs to the request exactly if it was granted, and every other domain is as it was. */
  lemma ConfigureIsOneDomain(routes: seq<Route>, desired: Route, after: seq<Route>, ok: bool, r: Route)
    requires Distinct(routes) && IsUpsert(routes, desired, after, ok)
    ensures ok ==> desired in after
    ensures !ok ==> after == routes
    ensures !EqualFold(r.domain, desired.domain) ==> (r in after <==> r in routes)
    ensures ok && EqualFold(r.domain, desired.domain) && r in after ==> r == desired
  {
    if ok && !Free(routes, desired.domain) {
      var i: nat :| FirstFor(routes, desired.domain, i) && after == routes[i := desired];
      assert after[i] == desired;
      forall j | 0 <= j < |routes| && j != i
        ensures after[j] == routes[j] && !EqualFold(routes[j].domain, desired.domain)
      {
        if j > i { assert !EqualFold(routes[i].domain, routes[j].domain); }
      }
    }
  }

  /** A container with this name and id is the owner's: the names are the same, whatever the case, or it has an id and
      that is the same. */
  predicate Shares(owner: Route, name: string, id: string) {
    SameLetters(TrimSpace(owner.target), name) || (!Blank(owner.containerId) && TrimSpace(owner.containerId) == id)
  }

  lemma SharesIff(owner: Route, desired: Route)
    ensures SameContainer(owner, desired) <==> Shares(owner, desired.target, desired.containerId)
  {
    EqualFoldIff(TrimSpace(owner.target), desired.target);
  }

  /** A request for an owned domain is granted if and only if it names the owner's container, by name or by an id
      that both have; then the domain is the request's, and otherwise nothing changes. */
  lemma GrantedIff(routes: seq<Route>, a: Route, request: Request, after: seq<Route>, ok: bool)
    requires Distinct(routes) && a in routes && SameLetters(a.domain, TrimSpace(request.domain))
    requires IsUpsert(routes, Desired(request), after, ok)
    ensures ok <==> Shares(a, TrimSpace(request.containerName), TrimSpace(request.containerId))
    ensures ok ==> exists r :: r in after && IsGrant(r, request)
    ensures !ok ==> after == routes
  {
    DesiredIsGrant(request);
    LowerTwice(TrimSpace(request.domain));
    EqualFoldIff(a.domain, TrimSpace(request.domain));
    SharesIff(a, Desired(request));
    ConfigureIsOneDomain(routes, Desired(request), after, ok, a);
    Refused(routes, Desired(request), after, ok);
    if !ok {
      var r :| r in routes && EqualFold(r.domain, Desired(request).domain) && !SameContainer(r, Desired(request));
      OneOwner(routes, a, r);
    }
  }

  /** A grant is refused exactly when the domain's route is another container's. */
  lemma RefusedIff(routes: seq<Route>, desired: Route, after: seq<Route>, ok: bool)
    requires Distinct(routes) && IsUpsert(routes, desired, after, ok)
    ensures !ok <==>
            exists r :: r in routes && EqualFold(r.domain, desired.domain)
                        && !Shares(r, desired.target, desired.containerId)
  {
    Refused(routes, desired, after, ok);
    forall r | r in routes
      ensures SameContainer(r, desired) <==> Shares(r, desired.target, desired.containerId)
    {
      SharesIff(r, desired);
    }
  }

  lemma Refused(routes: seq<Route>, desired: Route, after: seq<Route>, ok: bool)
    requires Distinct(routes) && IsUpsert(routes, desired, after, ok)
    ensures !ok <==> exists r :: r in routes && EqualFold(r.domain, desired.domain) && !SameContainer(r, desired)
  {
    if !Free(routes, desired.domain) {
      var i: nat :| FirstFor(routes, desired.domain, i) && ok == SameContainer(routes[i], desired);
      forall r | r in routes && EqualFold(r.domain, desired.domain) ensures r == routes[i] {
        OneOwner(routes, r, routes[i]);
      }
    }
  }

  /** Deleting takes away the routes of that domain, white space around it aside, and no other; a blank domain is
      refused. */
  lemma DeleteIsOneDomain(routes: seq<Route>, domain: string, after: seq<Route>, r: Route)
    requires Serves(routes, Delete(domain), after)
    ensures r in after <==> r in routes && (Blank(domain) || !EqualFold(TrimSpace(r.domain), TrimSpace(domain)))
    ensures Canonical(r.domain) ==> TrimSpace(r.domain) == r.domain
  {
    if !Blank(domain) { WithoutIs(routes, TrimSpace(domain), r); }
    if Canonical(r.domain) { TrimOfTrimmed(r.domain); }
  }

  /** A route can be deleted at all if and only if its domain is not blank, on any table. */
  lemma DeletableIff(routes: seq<Route>, r: Route)
    requires r in routes
    ensures (exists domain :: !Blank(domain) && r !in Without(routes, TrimSpace(domain))) <==> !Blank(r.domain)
  {
    if !Blank(r.domain) {
      WithoutIs(routes, TrimSpace(r.domain), r);
      assert !Blank(r.domain) && r !in Without(routes, TrimSpace(r.domain));
    } else {
      forall domain: string | !Blank(domain) ensures r in Without(routes, TrimSpace(domain)) {
        WithoutIs(routes, TrimSpace(domain), r);
        LowerTwice(TrimSpace(domain));
      }
    }
  }

  /** The route that cannot be: a request with a domain of white space, which the importer lets through, is
      granted on a table without one, and no deletion ever removes what it adds. */
  lemma BlankDomainCannotBeDeleted(routes: seq<Route>, request: Request, domain: string, after: seq<Route>)
    requires Free(routes, "") && Blank(request.domain)
    requires Serves(routes + [Desired(request)], Delete(domain), after)
    ensures Serves(routes, Configure(request), routes + [Desired(request)])
    ensures Desired(request).domain == "" && Desired(request) in after
  {
    var r := Desired(request);
    assert IsUpsert(routes, r, routes + [r], true);
    DesiredIsCanonical(request);
    DeletableIff(routes + [r], r);
  }

  // ---------------------------------------------------------------- ownership over a run

  /** What one request can do to a domain: nothing, a handover within one container, taking it when free, or
      giving it up. */
  lemma HandoverWithinContainer(routes: seq<Route>, op: Op, after: seq<Route>, r: Route, s: Route)
    requires Distinct(routes) && Serves(routes, op, after)
    requires r in routes && s in after && EqualFold(r.domain, s.domain)
    ensures s == r || Shares(r, s.target, s.containerId)
  {
    match op
    case Configure(request) =>
      var d := Desired(request);
      var ok :| IsUpsert(routes, d, after, ok);
      if s in routes {
        OneOwner(routes, r, s);
      } else {
        ConfigureIsOneDomain(routes, d, after, ok, s);
        Refused(routes, d, after, ok);
        SharesIff(r, s);
      }
    case Delete(domain) =>
      if !Blank(domain) { WithoutIs(routes, TrimSpace(domain), s); }
      OneOwner(routes, r, s);
  }

  /** A chain of owners, each sharing its container's id or name with the next. */
  ghost predicate Chain(owners: seq<Route>) {
    forall i :: 0 <= i < |owners| - 1 ==>
                  || owners[i + 1] == owners[i]
                  || Shares(owners[i], owners[i + 1].target, owners[i + 1].containerId)
  }

  /** As long as a domain is never given up, its owners over a run, from any point on, form a chain. */
  lemma OwnersAreAChain(tables: seq<seq<Route>>, ops: seq<Op>, domain: string, from: nat, owners: seq<Route>)
    requires Run(tables, ops) && Distinct(tables[0]) && from + |owners| <= |tables|
    requires forall i :: 0 <= i < |owners| ==> owners[i] in tables[from + i] && EqualFold(owners[i].domain, domain)
    ensures Chain(owners)
  {
    forall i | 0 <= i < |owners| - 1
      ensures owners[i + 1] == owners[i] || Shares(owners[i], owners[i + 1].target, owners[i + 1].containerId)
    {
      OneHandover(tables, ops, from + i, owners[i], owners[i + 1]);
    }
  }

  lemma OneHandover(tables: seq<seq<Route>>, ops: seq<Op>, k: nat, r: Route, s: Route)
    requires Run(tables, ops) && Distinct(tables[0]) && k < |ops|
    requires r in tables[k] && s in tables[k + 1] && EqualFold(r.domain, s.domain)
    ensures s == r || Shares(r, s.target, s.containerId)
  {
    DomainsStayDistinct(tables, ops, k);
    HandoverWithinContainer(tables[k], ops[k], tables[k + 1], r, s);
  }

  // ---------------------------------------------------------------- takeover in several requests

  /** `request` is granted right after `via` was. */
  ghost predicate GrantedVia(routes: seq<Route>, via: Request, request: Request) {
    exists mid, after :: IsUpsert(routes, Desired(via), mid, true) && IsUpsert(mid, Desired(request), after, true)
  }

  /** The owner's own container is granted its domain. */
  lemma OwnerIsGranted(routes: seq<Route>, a: Route, desired: Route) returns (after: seq<Route>)
    requires Distinct(routes) && a in routes && EqualFold(a.domain, desired.domain) && SameContainer(a, desired)
    ensures IsUpsert(routes, desired, after, true) && desired in after && Distinct(after)
  {
    var i: nat :| i < |routes| && routes[i] == a;
    after := routes[i := desired];
    forall j | 0 <= j < i ensures !EqualFold(routes[j].domain, desired.domain) {
      assert !EqualFold(routes[j].domain, routes[i].domain);
    }
    assert FirstFor(routes, desired.domain, i);
    ReplaceIsDistinct(routes, desired, i);
    assert after[i] == desired;
  }

  /** A request that asks for exactly a given route. */
  function RequestFor(r: Route): Request { Request(r.domain, r.containerId, r.target, r.port) }

  lemma RequestForIsDesired(domain: string, target: string, port: int, containerId: string)
    requires Canonical(domain) && TrimSpace(target) == target && TrimSpace(containerId) == containerId
    ensures Desired(RequestFor(Route(domain, target, port, containerId))) == Route(domain, target, port, containerId)
  {
    TrimOfTrimmed(domain);
  }

  /** A middle request with the id of one and the name of the other. */
  lemma MiddleRequest(routes: seq<Route>, a: Route, request: Request)
    requires Distinct(routes) && a in routes && EqualFold(a.domain, Desired(request).domain)
    requires TrimSpace(a.containerId) != "" || Desired(request).containerId != ""
    ensures exists via :: GrantedVia(routes, via, request)
  {
    var c := Desired(request);
    var id := TrimSpace(a.containerId);
    var b := if id != "" then Route(c.domain, c.target, c.port, id)
             else Route(c.domain, TrimSpace(a.target), c.port, c.containerId);
    DesiredIsCanonical(request);
    TrimTwice(request.containerName);
    TrimTwice(request.containerId);
    TrimTwice(a.containerId);
    TrimTwice(a.target);
    RequestForIsDesired(b.domain, b.target, b.port, b.containerId);
    var mid := OwnerIsGranted(routes, a, b);
    var after := OwnerIsGranted(mid, b, c);
    assert GrantedVia(routes, RequestFor(b), request);
  }

  /** Without ids on both sides a middle request has to share both names, so they are one. */
  lemma NoIdsNoMiddle(a: Route, b: Route, c: Route)
    requires SameContainer(a, b) && SameContainer(b, c) && TrimSpace(b.target) == b.target
    requires TrimSpace(a.containerId) == "" && c.containerId == ""
    ensures SameContainer(a, c)
  {
  }

  lemma ViaSharesBoth(routes: seq<Route>, a: Route, via: Request, request: Request)
    requires Distinct(routes) && a in routes && EqualFold(a.domain, Desired(request).domain)
    requires GrantedVia(routes, via, request)
    ensures SameContainer(a, Desired(request)) || TrimSpace(a.containerId) != "" || Desired(request).containerId != ""
  {
    var b, c := Desired(via), Desired(request);
    var mid, after :| IsUpsert(routes, b, mid, true) && IsUpsert(mid, c, after, true);
    UpsertIsDistinct(routes, b, mid, true);
    ConfigureIsOneDomain(routes, b, mid, true, a);
    Refused(routes, b, mid, true);
    Refused(mid, c, after, true);
    TrimTwice(via.containerName);
    if EqualFold(a.domain, b.domain) && TrimSpace(a.containerId) == "" && c.containerId == "" {
      NoIdsNoMiddle(a, b, c);
    }
  }

  /** A request for an owned domain can be granted in two steps, the first by some other request, if and only if
      it can be granted at once or either side carries a container id: then a request with the id of one and the
      name of the other goes between them. */
  lemma TakeoverInTwoIff(routes: seq<Route>, a: Route, request: Request)
    requires Distinct(routes) && a in routes && EqualFold(a.domain, Desired(request).domain)
    ensures (exists via :: GrantedVia(routes, via, request)) <==>
            || Shares(a, TrimSpace(request.containerName), TrimSpace(request.containerId))
            || !Blank(a.containerId) || !Blank(request.containerId)
  {
    SharesIff(a, Desired(request));
    if exists via :: GrantedVia(routes, via, request) {
      var via :| GrantedVia(routes, via, request);
      ViaSharesBoth(routes, a, via, request);
    }
    if SameContainer(a, Desired(request)) {
      var mid := OwnerIsGranted(routes, a, Desired(request));
      TrimTwice(request.containerName);
      var after := OwnerIsGranted(mid, Desired(request), Desired(request));
      assert GrantedVia(routes, request, request);
    } else if TrimSpace(a.containerId) != "" || Desired(request).containerId != "" {
      MiddleRequest(routes, a, request);
    }
  }

  ghost predicate Grants(routes: seq<Route>, request: Request, after: seq<Route>) {
    IsUpsert(routes, Desired(request), after, true)
  }

  /** Requests served one after the other, all of them granted. */
  ghost predicate AllGranted(tables: seq<seq<Route>>, requests: seq<Request>) {
    && |tables| == |requests| + 1
    && forall i :: 0 <= i < |requests| ==> Grants(tables[i], requests[i], tables[i + 1])
  }

  /** `request` is granted right after `n` others were. */
  ghost predicate GrantedAfter(routes: seq<Route>, n: nat, request: Request) {
    exists tables, requests :: AllGranted(tables, requests)
                               && |requests| == n + 1 && requests[n] == request && tables[0] == routes
  }

  lemma GrantedOnly(routes: seq<Route>, request: Request, after: seq<Route>)
    requires Grants(routes, request, after)
    ensures GrantedAfter(routes, 0, request)
  {
    assert AllGranted([routes, after], [request]);
  }

  lemma OneMoreGranted(routes: seq<Route>, via: Request, tables: seq<seq<Route>>, requests: seq<Request>)
    requires AllGranted(tables, requests) && Grants(routes, via, tables[0])
    ensures AllGranted([routes] + tables, [via] + requests)
  {
    var tables', requests' := [routes] + tables, [via] + requests;
    forall i | 0 <= i < |requests'| ensures Grants(tables'[i], requests'[i], tables'[i + 1]) {
      if i > 0 {
        assert tables'[i] == tables[i - 1] && tables'[i + 1] == tables[i] && requests'[i] == requests[i - 1];
        assert Grants(tables[i - 1], requests[i - 1], tables[i - 1 + 1]);
      }
    }
  }

  lemma GrantedFirst(routes: seq<Route>, via: Request, mid: seq<Route>, n: nat, request: Request)
    requires Grants(routes, via, mid) && GrantedAfter(mid, n, request)
    ensures GrantedAfter(routes, n + 1, request)
  {
    var tables, requests :| AllGranted(tables, requests)
                            && |requests| == n + 1 && requests[n] == request && tables[0] == mid;
    OneMoreGranted(routes, via, tables, requests);
    assert ([via] + requests)[n + 1] == request;
  }

  lemma GrantedAfterOne(routes: seq<Route>, request: Request)
    ensures GrantedAfter(routes, 1, request) <==> exists via :: GrantedVia(routes, via, request)
  {
    if GrantedAfter(routes, 1, request) {
      var tables, requests :| AllGranted(tables, requests)
                              && |requests| == 2 && requests[1] == request && tables[0] == routes;
      assert Grants(tables[0], requests[0], tables[1]) && Grants(tables[1], requests[1], tables[2]);
      assert GrantedVia(routes, requests[0], request);
    }
    if exists via :: GrantedVia(routes, via, request) {
      var via :| GrantedVia(routes, via, request);
      var mid, after :| IsUpsert(routes, Desired(via), mid, true) && IsUpsert(mid, Desired(request), after, true);
      GrantedOnly(mid, request, after);
      GrantedFirst(routes, via, mid, 0, request);
    }
  }

  lemma GrantedAtOnceIff(routes: seq<Route>, a: Route, request: Request)
    requires Distinct(routes) && a in routes && EqualFold(a.domain, Desired(request).domain)
    ensures GrantedAfter(routes, 0, request) <==> SameContainer(a, Desired(request))
  {
    if GrantedAfter(routes, 0, request) {
      var tables, requests :| AllGranted(tables, requests)
                              && |requests| == 1 && requests[0] == request && tables[0] == routes;
      assert Grants(tables[0], requests[0], tables[1]);
      Refused(routes, Desired(request), tables[1], true);
    }
    if SameContainer(a, Desired(request)) {
      var after := OwnerIsGranted(routes, a, Desired(request));
      GrantedOnly(routes, request, after);
    }
  }

  /** The owner's domain under the owner's name, now with a container id. */
  lemma OwnerGetsId(routes: seq<Route>, a: Route, request: Request) returns (via: Request, mid: seq<Route>)
    requires Distinct(routes) && a in routes && EqualFold(a.domain, Desired(request).domain)
    ensures IsUpsert(routes, Desired(via), mid, true) && Distinct(mid) && Desired(via) in mid
    ensures EqualFold(Desired(via).domain, Desired(request).domain) && TrimSpace(Desired(via).containerId) != ""
  {
    var c := Desired(request);
    var b := Route(c.domain, TrimSpace(a.target), c.port, "x");
    DesiredIsCanonical(request);
    TrimTwice(a.target);
    assert Trimmed("x");
    TrimOfTrimmed("x");
    RequestForIsDesired(b.domain, b.target, b.port, b.containerId);
    via := RequestFor(b);
    mid := OwnerIsGranted(routes, a, b);
  }

  lemma GrantedThird(routes: seq<Route>, a: Route, request: Request)
    requires Distinct(routes) && a in routes && EqualFold(a.domain, Desired(request).domain)
    requires TrimSpace(a.containerId) != ""
    ensures GrantedAfter(routes, 1, request)
  {
    TakeoverInTwoIff(routes, a, request);
    GrantedAfterOne(routes, request);
  }

  lemma {:induction false} GrantedInTheEnd(routes: seq<Route>, a: Route, request: Request, k: nat)
    requires Distinct(routes) && a in routes && EqualFold(a.domain, Desired(request).domain)
    ensures GrantedAfter(routes, k + 2, request)
    decreases k
  {
    var via, mid := OwnerGetsId(routes, a, request);
    if k == 0 { GrantedThird(mid, Desired(via), request); } else { GrantedInTheEnd(mid, Desired(via), request, k - 1); }
    GrantedFirst(routes, via, mid, k + 1, request);
  }

  /** How many requests it takes to get an owned domain: one if and only if the container is the owner's by id or
      name; two if and only if that holds or either side carries a container id; three or more always. */
  lemma TakeoverIff(routes: seq<Route>, a: Route, request: Request, n: nat)
    requires Distinct(routes) && a in routes && EqualFold(a.domain, Desired(request).domain)
    ensures GrantedAfter(routes, n, request) <==>
            || Shares(a, TrimSpace(request.containerName), TrimSpace(request.containerId))
            || (n >= 1 && (!Blank(a.containerId) || !Blank(request.containerId)))
            || n >= 2
  {
    SharesIff(a, Desired(request));
    if n == 0 {
      GrantedAtOnceIff(routes, a, request);
    } else if n == 1 {
      GrantedAfterOne(routes, request);
      TakeoverInTwoIff(routes, a, request);
    } else {
      GrantedInTheEnd(routes, a, request, n - 2);
    }
  }
}
