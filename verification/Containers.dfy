/** Container status reports: the cache that suppresses repeated deltas, and when a refresh sends deltas at all. */
module Containers {
  import opened Text

  datatype Container = Container(id: string, name: string, status: string, image: string, ports: string, app: string)

  function Id(c: Container): string { TrimSpace(c.id) }

  function Fields(c: Container): seq<string> {
    [TrimSpace(c.status), TrimSpace(c.name), TrimSpace(c.image), TrimSpace(c.ports), TrimSpace(c.app)]
  }

  /** What counts as the observable state of a container. */
  function StateKey(c: Container): string { Join(Fields(c), '|') }

  predicate Unchanged(cache: map<string, string>, c: Container) { Id(c) in cache && cache[Id(c)] == StateKey(c) }

  predicate Reports(cache: map<string, string>, c: Container) { Id(c) != "" && !Unchanged(cache, c) }

  /** The cache after one container was looked at; a delta that cannot be sent is forgotten. */
  function Seen(cache: map<string, string>, c: Container, sends: bool): map<string, string> {
    if !Reports(cache, c) then cache else if sends then cache[Id(c) := StateKey(c)] else cache - {Id(c)}
  }

  function SeenAll(cache: map<string, string>, list: seq<Container>, sends: seq<bool>): map<string, string>
    requires |sends| == |list|
  {
    if list == [] then cache
    else Seen(SeenAll(cache, list[..|list| - 1], sends[..|list| - 1]), list[|list| - 1], sends[|list| - 1])
  }

  /** The containers a delta reached the dashboard for. */
  function Told(cache: map<string, string>, list: seq<Container>, sends: seq<bool>): seq<Container>
    requires |sends| == |list|
  {
    if list == [] then []
    else
      var n := |list| - 1;
      Told(cache, list[..n], sends[..n]) +
      if sends[n] && Reports(SeenAll(cache, list[..n], sends[..n]), list[n]) then [list[n]] else []
  }

  function Ids(list: seq<Container>): set<string> {
    if list == [] then {} else Ids(list[..|list| - 1]) + {Id(list[|list| - 1])}
  }

  /** Is every listed container in the cache? Only then does a refresh send deltas. */
  predicate AllKnown(cache: map<string, string>, list: seq<Container>) { forall c :: c in list ==> Id(c) in cache }

  function Refreshed(cache: map<string, string>, list: seq<Container>, sends: seq<bool>): map<string, string>
    requires |sends| == |list|
  {
    if !AllKnown(cache, list) then cache
    else
      var seen := SeenAll(cache, list, sends);
      seen - (seen.Keys - Ids(list))
  }

  lemma {:induction false} ToldInOrder(cache: map<string, string>, list: seq<Container>, sends: seq<bool>)
    requires |sends| == |list|
    ensures Subsequence(Told(cache, list, sends), list)
  {
    if list != [] {
      var n := |list| - 1;
      var told := Told(cache, list[..n], sends[..n]);
      ToldInOrder(cache, list[..n], sends[..n]);
      if sends[n] && Reports(SeenAll(cache, list[..n], sends[..n]), list[n]) {
        SubsequenceTake(told, list);
      } else {
        assert Told(cache, list, sends) == told;
        SubsequenceSkip(told, list);
      }
    }
  }

  class Deltas {
    var lastContainerDeltaState: map<string, string>

    constructor ()
      ensures lastContainerDeltaState == map[]
    {
      lastContainerDeltaState := map[];
    }

    /** `publishContainerDelta`; `sends` is whether the socket takes the delta. */
    method PublishContainerDelta(c: Container, sends: bool) returns (sent: bool)
      modifies this
      ensures lastContainerDeltaState == Seen(old(lastContainerDeltaState), c, sends)
      ensures sent == (sends && Reports(old(lastContainerDeltaState), c))
    {
      var containerId := TrimSpace(c.id);
      if containerId == "" { return false; }
      var changed := ContainerStateChanged(containerId, c);
      if !changed { return false; }
      if !sends { lastContainerDeltaState := lastContainerDeltaState - {containerId}; }
      return sends;
    }

    method ContainerStateChanged(containerId: string, c: Container) returns (changed: bool)
      requires containerId == Id(c)
      modifies this
      ensures changed == !Unchanged(old(lastContainerDeltaState), c)
      ensures lastContainerDeltaState ==
              if changed then old(lastContainerDeltaState)[containerId := StateKey(c)] else old(lastContainerDeltaState)
    {
      var stateKey := StateKey(c);
      if containerId in lastContainerDeltaState && lastContainerDeltaState[containerId] == stateKey { return false; }
      lastContainerDeltaState := lastContainerDeltaState[containerId := stateKey];
      return true;
    }

    /** `publishAllContainerStatuses` on a container list: a snapshot if any container is new, deltas otherwise. */
    method PublishAllContainerStatuses(list: seq<Container>, sends: seq<bool>)
      returns (snapshot: bool, told: seq<Container>)
      requires |sends| == |list|
      modifies this
      ensures snapshot <==> exists c :: c in list && TrimSpace(c.id) !in old(lastContainerDeltaState)
      ensures lastContainerDeltaState == Refreshed(old(lastContainerDeltaState), list, sends)
      ensures told == if snapshot then [] else Told(old(lastContainerDeltaState), list, sends)
      ensures Subsequence(told, list)
    {
      ToldInOrder(lastContainerDeltaState, list, sends);
      snapshot := HasNew(list);
      told := [];
      if snapshot { return; }
      var activeIds;
      told, activeIds := PublishEach(list, sends);
      ForgetMissingContainers(activeIds);
    }

    /** The scan for a container that is not in the cache. */
    method HasNew(list: seq<Container>) returns (hasNew: bool)
      ensures hasNew <==> exists c :: c in list && TrimSpace(c.id) !in lastContainerDeltaState
    {
      for k := 0 to |list|
        invariant forall j :: 0 <= j < k ==> Id(list[j]) in lastContainerDeltaState
      {
        if TrimSpace(list[k].id) !in lastContainerDeltaState {
          assert list[k] in list;
          return true;
        }
      }
      return false;
    }

    method PublishEach(list: seq<Container>, sends: seq<bool>) returns (told: seq<Container>, activeIds: set<string>)
      requires |sends| == |list|
      modifies this
      ensures lastContainerDeltaState == SeenAll(old(lastContainerDeltaState), list, sends)
      ensures told == Told(old(lastContainerDeltaState), list, sends) && activeIds == Ids(list)
    {
      told, activeIds := [], {};
      for k := 0 to |list|
        invariant lastContainerDeltaState == SeenAll(old(lastContainerDeltaState), list[..k], sends[..k])
        invariant told == Told(old(lastContainerDeltaState), list[..k], sends[..k]) && activeIds == Ids(list[..k])
      {
        assert list[..k + 1][..k] == list[..k] && sends[..k + 1][..k] == sends[..k];
        activeIds := activeIds + {TrimSpace(list[k].id)};
        var sent := PublishContainerDelta(list[k], sends[k]);
        if sent { told := told + [list[k]]; }
      }
      assert list[..|list|] == list && sends[..|list|] == sends;
    }

    method ForgetMissingContainers(activeIds: set<string>)
      modifies this
      ensures lastContainerDeltaState == old(lastContainerDeltaState) - (old(lastContainerDeltaState).Keys - activeIds)
    {
      ghost var before := lastContainerDeltaState;
      ghost var gone: set<string> := {};
      var todo := lastContainerDeltaState.Keys;
      while todo != {}
        invariant todo <= before.Keys && gone == before.Keys - activeIds - todo
        invariant lastContainerDeltaState == before - gone
        decreases |todo|
      {
        var id :| id in todo;
        todo := todo - {id};
        if id !in activeIds {
          lastContainerDeltaState := lastContainerDeltaState - {id};
          gone := gone + {id};
        }
      }
      assert gone == before.Keys - activeIds;
    }

    /** `publishContainerStatus`: the first listed container with the id, after an action on it. */
    method PublishContainerStatus(list: seq<Container>, containerId: string, sends: bool)
      modifies this
      ensures lastContainerDeltaState == Acted(old(lastContainerDeltaState), list, containerId, sends)
    {
      if TrimSpace(containerId) == "" { return; }
      for k := 0 to |list|
        invariant lastContainerDeltaState == old(lastContainerDeltaState)
        invariant Acted(lastContainerDeltaState, list, containerId, sends)
                  == Acted(lastContainerDeltaState, list[k..], containerId, sends)
      {
        assert list[k..][1..] == list[k + 1..];
        if TrimSpace(list[k].id) == TrimSpace(containerId) {
          var sent := PublishContainerDelta(list[k], sends);
          return;
        }
      }
    }
  }

  function Acted(cache: map<string, string>, list: seq<Container>, containerId: string, sends: bool)
    : map<string, string>
  {
    if Blank(containerId) || list == [] then cache
    else if Id(list[0]) == TrimSpace(containerId) then Seen(cache, list[0], sends)
    else Acted(cache, list[1..], containerId, sends)
  }

  /** `c`, looked at under `id`, has its state in the cache unless the socket turned it down; nothing else changed. */
  predicate Seeded(cache: map<string, string>, after: map<string, string>, id: string, c: Container, sends: bool) {
    && (id in after <==> sends || (id in cache && cache[id] == StateKey(c)))
    && (id in after ==> after[id] == StateKey(c))
    && after - {id} == cache - {id}
  }

  lemma SeenSeeds(cache: map<string, string>, c: Container, sends: bool)
    requires Id(c) != ""
    ensures Seeded(cache, Seen(cache, c, sends), Id(c), c, sends)
  {
  }

  /** What an action on a container leaves in the cache, if a listed one has its id: the state of the first such if
      the socket takes it or it had been reported already, nothing if not; and every other entry as it was. */
  lemma {:induction false} ActionSeeds(cache: map<string, string>, list: seq<Container>, containerId: string,
                                       sends: bool, i: nat)
    requires i < |list| && TrimSpace(list[i].id) == TrimSpace(containerId) != ""
    requires forall j :: 0 <= j < i ==> TrimSpace(list[j].id) != TrimSpace(containerId)
    ensures Seeded(cache, Acted(cache, list, containerId, sends), TrimSpace(containerId), list[i], sends)
  {
    if i == 0 {
      SeenSeeds(cache, list[0], sends);
    } else {
      assert list[1..][i - 1] == list[i] && forall j :: 0 <= j < i - 1 ==> list[1..][j] == list[j + 1];
      ActionSeeds(cache, list[1..], containerId, sends, i - 1);
    }
  }

  // ---------------------------------------------------------------- what a state key distinguishes

  /** No bar in a field the container listing fills itself. The app label is free text. */
  predicate NoBar(c: Container) {
    '|' !in TrimSpace(c.status) && '|' !in TrimSpace(c.name) && '|' !in TrimSpace(c.image) && '|' !in TrimSpace(c.ports)
  }

  /** The same state, white space aside. */
  predicate SameState(a: Container, b: Container) {
    && TrimSpace(a.status) == TrimSpace(b.status) && TrimSpace(a.name) == TrimSpace(b.name)
    && TrimSpace(a.image) == TrimSpace(b.image) && TrimSpace(a.ports) == TrimSpace(b.ports)
    && TrimSpace(a.app) == TrimSpace(b.app)
  }

  lemma JoinCons(first: string, rest: seq<string>)
    requires rest != []
    ensures Join([first] + rest, '|') == first + ['|'] + Join(rest, '|')
  {
    assert ([first] + rest)[1..] == rest;
  }

  /** Two joined lists that agree agree on their first pieces, if those have no bar, and on the rest. */
  lemma CancelFirst(a: string, xs: seq<string>, b: string, ys: seq<string>)
    requires xs != [] && ys != [] && '|' !in a && '|' !in b
    requires Join([a] + xs, '|') == Join([b] + ys, '|')
    ensures a == b && Join(xs, '|') == Join(ys, '|')
  {
    var s, t := Join(xs, '|'), Join(ys, '|');
    JoinCons(a, xs);
    JoinCons(b, ys);
    SplitAfter(a, s, '|');
    SplitAfter(b, t, '|');
    assert a == Split(a + ['|'] + s, '|')[0] == Split(b + ['|'] + t, '|')[0] == b;
    assert (a + ['|'] + s)[|a| + 1..] == s && (b + ['|'] + t)[|b| + 1..] == t;
  }

  /** Five joined fields, the last of them free, are told apart by the key. */
  lemma CancelFive(x: seq<string>, y: seq<string>)
    requires |x| == |y| == 5 && Join(x, '|') == Join(y, '|')
    requires forall i :: 0 <= i < 4 ==> '|' !in x[i] && '|' !in y[i]
    ensures x == y
  {
    CancelAt(x, y, 0);
    CancelAt(x, y, 1);
    CancelAt(x, y, 2);
    CancelAt(x, y, 3);
    assert x[4..] == [x[4]] && y[4..] == [y[4]];
    assert Join([x[4]], '|') == x[4] && Join([y[4]], '|') == y[4];
  }

  lemma CancelAt(x: seq<string>, y: seq<string>, i: nat)
    requires |x| == |y| == 5 && i < 4 && '|' !in x[i] && '|' !in y[i]
    requires Join(x[i..], '|') == Join(y[i..], '|')
    ensures x[i] == y[i] && Join(x[i + 1..], '|') == Join(y[i + 1..], '|')
  {
    assert x[i..] == [x[i]] + x[i + 1..] && y[i..] == [y[i]] + y[i + 1..];
    CancelFirst(x[i], x[i + 1..], y[i], y[i + 1..]);
  }

  /** The key tells containers apart exactly by their trimmed fields, whatever the app label. */
  lemma StateKeyIsFaithful(a: Container, b: Container)
    requires NoBar(a) && NoBar(b)
    ensures StateKey(a) == StateKey(b) <==> SameState(a, b)
  {
    var x, y := Fields(a), Fields(b);
    if Join(x, '|') == Join(y, '|') {
      assert x[0..] == x && y[0..] == y;
      forall i | 0 <= i < 4 ensures '|' !in x[i] && '|' !in y[i] {}
      CancelFive(x, y);
    }
  }

  // ---------------------------------------------------------------- runs

  datatype Step =
    | Refresh(list: seq<Container>, sends: seq<bool>)
    | Action(list: seq<Container>, containerId: string, gets: bool)

  predicate Can(step: Step) { step.Refresh? ==> |step.sends| == |step.list| }

  function After(cache: map<string, string>, step: Step): map<string, string>
    requires Can(step)
  {
    match step
    case Refresh(list, sends) => Refreshed(cache, list, sends)
    case Action(list, containerId, gets) => Acted(cache, list, containerId, gets)
  }

  predicate AllCan(steps: seq<Step>) { forall s :: s in steps ==> Can(s) }

  function End(cache: map<string, string>, steps: seq<Step>): map<string, string>
    requires AllCan(steps)
  {
    if steps == [] then cache else After(End(cache, steps[..|steps| - 1]), steps[|steps| - 1])
  }

  /** The containers acted on in a run. */
  function ActedOn(steps: seq<Step>): set<string> {
    if steps == [] then {}
    else
      var last := steps[|steps| - 1];
      ActedOn(steps[..|steps| - 1]) + if last.Action? then {TrimSpace(last.containerId)} else {}
  }

  lemma {:induction false} SeenAllAdds(cache: map<string, string>, list: seq<Container>, sends: seq<bool>)
    requires |sends| == |list| && AllKnown(cache, list)
    ensures SeenAll(cache, list, sends).Keys <= cache.Keys
  {
    if list != [] {
      var n := |list| - 1;
      assert list[n] in list;
      SeenAllAdds(cache, list[..n], sends[..n]);
    }
  }

  /** A refresh never puts a container into the cache that was not there. */
  lemma RefreshAddsNothing(cache: map<string, string>, list: seq<Container>, sends: seq<bool>)
    requires |sends| == |list|
    ensures Refreshed(cache, list, sends).Keys <= cache.Keys
  {
    if AllKnown(cache, list) { SeenAllAdds(cache, list, sends); }
  }

  lemma {:induction false} ActedAdds(cache: map<string, string>, list: seq<Container>, containerId: string, sends: bool)
    ensures Acted(cache, list, containerId, sends).Keys <= cache.Keys + {TrimSpace(containerId)}
  {
    if list != [] { ActedAdds(cache, list[1..], containerId, sends); }
  }

  /** Over every run the cache knows only containers that an action was taken on. */
  lemma {:induction false} OnlyActionsSeed(cache: map<string, string>, steps: seq<Step>)
    requires AllCan(steps)
    ensures End(cache, steps).Keys <= cache.Keys + ActedOn(steps)
  {
    if steps != [] {
      var init, last := steps[..|steps| - 1], steps[|steps| - 1];
      assert last in steps;
      OnlyActionsSeed(cache, init);
      match last
      case Refresh(list, sends) => RefreshAddsNothing(End(cache, init), list, sends);
      case Action(list, containerId, gets) => ActedAdds(End(cache, init), list, containerId, gets);
    }
  }

  /** So the periodic refresh of a new agent sends no delta, however often it runs and whatever changes, as long
      as one listed container has not been acted on: every time it asks for a snapshot instead. */
  lemma RefreshAloneSendsNoDelta(steps: seq<Step>, list: seq<Container>, c: Container)
    requires AllCan(steps) && c in list && Id(c) !in ActedOn(steps)
    ensures !AllKnown(End(map[], steps), list)
  {
    OnlyActionsSeed(map[], steps);
  }

  ghost predicate DistinctIds(list: seq<Container>) {
    forall i, j :: 0 <= i < j < |list| ==> Id(list[i]) != Id(list[j])
  }

  /** Looking at other containers leaves an entry alone. */
  lemma {:induction false} SeenOthers(cache: map<string, string>, list: seq<Container>, sends: seq<bool>, id: string)
    requires |sends| == |list| && forall c :: c in list ==> Id(c) != id
    ensures id in SeenAll(cache, list, sends) <==> id in cache
    ensures id in cache ==> SeenAll(cache, list, sends)[id] == cache[id]
  {
    if list != [] {
      var n := |list| - 1;
      assert list[n] in list;
      SeenOthers(cache, list[..n], sends[..n], id);
    }
  }

  lemma InitIds(list: seq<Container>)
    requires list != [] && DistinctIds(list)
    ensures DistinctIds(list[..|list| - 1])
    ensures forall c :: c in list[..|list| - 1] ==> Id(c) != Id(list[|list| - 1]) && c in list
  {
  }

  /** What looking at a known container leaves of its entry: nothing if its delta was due and not taken, its
      listed state otherwise. */
  ghost predicate LeftAs(seen: map<string, string>, c: Container, kept: bool) {
    (Id(c) in seen <==> kept) && (Id(c) in seen && Id(c) != "" ==> seen[Id(c)] == StateKey(c))
  }

  lemma SeenIsLeft(cache: map<string, string>, before: map<string, string>, c: Container, sends: bool)
    requires Id(c) in cache && Id(c) in before && before[Id(c)] == cache[Id(c)]
    ensures LeftAs(Seen(before, c, sends), c, !(Reports(cache, c) && !sends))
  {
  }

  lemma {:induction false} SeenOne(cache: map<string, string>, list: seq<Container>, sends: seq<bool>, i: nat)
    requires |sends| == |list| && i < |list| && AllKnown(cache, list) && DistinctIds(list)
    ensures LeftAs(SeenAll(cache, list, sends), list[i], !(Reports(cache, list[i]) && !sends[i]))
    decreases |list|
  {
    var n := |list| - 1;
    InitIds(list);
    assert list[n] in list;
    var before := SeenAll(cache, list[..n], sends[..n]);
    if i == n {
      SeenOthers(cache, list[..n], sends[..n], Id(list[n]));
      SeenIsLeft(cache, before, list[n], sends[n]);
    } else {
      SeenOne(cache, list[..n], sends[..n], i);
      LeftByOthers(before, list[n], sends[n], list[i], !(Reports(cache, list[i]) && !sends[i]));
    }
  }

  lemma LeftByOthers(before: map<string, string>, last: Container, sends: bool, c: Container, kept: bool)
    requires LeftAs(before, c, kept) && Id(last) != Id(c)
    ensures LeftAs(Seen(before, last, sends), c, kept)
  {
  }

  lemma {:induction false} IdsAre(list: seq<Container>)
    ensures forall c :: c in list ==> Id(c) in Ids(list)
  {
    if list != [] {
      IdsAre(list[..|list| - 1]);
      assert list == list[..|list| - 1] + [list[|list| - 1]];
    }
  }

  lemma ToldSnoc(cache: map<string, string>, list: seq<Container>, sends: seq<bool>, c: Container)
    requires |sends| == |list| > 0
    ensures var n := |list| - 1;
            c in Told(cache, list, sends) <==>
            || c in Told(cache, list[..n], sends[..n])
            || (c == list[n] && sends[n] && Reports(SeenAll(cache, list[..n], sends[..n]), list[n]))
  {
  }

  lemma {:induction false} ToldOfOthers(cache: map<string, string>, list: seq<Container>, sends: seq<bool>,
                                        c: Container)
    requires |sends| == |list| && forall x :: x in list ==> Id(x) != Id(c)
    ensures c !in Told(cache, list, sends)
  {
    if list != [] {
      assert list[|list| - 1] in list;
      ToldSnoc(cache, list, sends, c);
      ToldOfOthers(cache, list[..|list| - 1], sends[..|list| - 1], c);
    }
  }

  lemma ToldLast(cache: map<string, string>, list: seq<Container>, sends: seq<bool>)
    requires |sends| == |list| > 0
    requires forall c :: c in list[..|list| - 1] ==> Id(c) != Id(list[|list| - 1])
    ensures var n := |list| - 1; list[n] in Told(cache, list, sends) <==> sends[n] && Reports(cache, list[n])
  {
    var n := |list| - 1;
    ToldSnoc(cache, list, sends, list[n]);
    SeenOthers(cache, list[..n], sends[..n], Id(list[n]));
    ToldOfOthers(cache, list[..n], sends[..n], list[n]);
  }

  lemma ToldEarlier(cache: map<string, string>, list: seq<Container>, sends: seq<bool>, c: Container)
    requires |sends| == |list| > 0 && Id(c) != Id(list[|list| - 1])
    ensures var n := |list| - 1; c in Told(cache, list, sends) <==> c in Told(cache, list[..n], sends[..n])
  {
    ToldSnoc(cache, list, sends, c);
  }

  lemma {:induction false} ToldOne(cache: map<string, string>, list: seq<Container>, sends: seq<bool>, i: nat)
    requires |sends| == |list| && i < |list| && DistinctIds(list)
    ensures list[i] in Told(cache, list, sends) <==> sends[i] && Reports(cache, list[i])
    decreases |list|
  {
    InitIds(list);
    if i == |list| - 1 {
      ToldLast(cache, list, sends);
    } else {
      ToldOne(cache, list[..|list| - 1], sends[..|list| - 1], i);
      ToldEarlier(cache, list, sends, list[i]);
    }
  }

  /** In a refresh that sends deltas one goes out for a container if and only if it has an id, its state is not the
      last one reported, and the socket takes it. */
  lemma DeltaGoesOutIff(cache: map<string, string>, list: seq<Container>, sends: seq<bool>, i: nat, last: Container)
    requires |sends| == |list| && i < |list| && AllKnown(cache, list) && DistinctIds(list)
    requires Id(list[i]) in cache && cache[Id(list[i])] == StateKey(last) && NoBar(last) && NoBar(list[i])
    ensures list[i] in Told(cache, list, sends) <==>
            sends[i] && TrimSpace(list[i].id) != "" && !SameState(list[i], last)
  {
    ToldOne(cache, list, sends, i);
    StateKeyIsFaithful(list[i], last);
  }

  lemma {:induction false} IdsAreListed(list: seq<Container>, id: string)
    requires id in Ids(list)
    ensures exists c :: c in list && Id(c) == id
  {
    var n := |list| - 1;
    if id == Id(list[n]) {
      assert list[n] in list;
    } else {
      IdsAreListed(list[..n], id);
      var c :| c in list[..n] && Id(c) == id;
      assert c in list;
    }
  }

  /** A refresh that sends deltas forgets every container that is not listed, any other changes nothing. */
  lemma UnlistedAreForgotten(cache: map<string, string>, list: seq<Container>, sends: seq<bool>, id: string)
    requires |sends| == |list|
    ensures if exists c :: c in list && TrimSpace(c.id) !in cache then Refreshed(cache, list, sends) == cache
            else id in Refreshed(cache, list, sends) ==> exists c :: c in list && TrimSpace(c.id) == id
  {
    if AllKnown(cache, list) && id in Refreshed(cache, list, sends) {
      IdsAreListed(list, id);
      var c :| c in list && Id(c) == id;
      assert TrimSpace(c.id) == id;
    }
  }

  /** After a whole refresh a listed container is still known if and only if its state had not changed or the
      socket took its delta. */
  lemma StillKnownIff(cache: map<string, string>, list: seq<Container>, sends: seq<bool>, i: nat)
    requires |sends| == |list| && i < |list| && AllKnown(cache, list) && DistinctIds(list)
    ensures Id(list[i]) in Refreshed(cache, list, sends) <==> !(Reports(cache, list[i]) && !sends[i])
  {
    SeenOne(cache, list, sends, i);
    IdsAre(list);
    assert list[i] in list;
  }

  /** A delta that could not be sent, anywhere in a refresh, is not retried as a delta: the next refresh that
      lists the container finds it unknown, so it sends no delta at all and asks for a snapshot. */
  lemma FailedDeltaIsNotRetried(cache: map<string, string>, list: seq<Container>, sends: seq<bool>, i: nat,
                                next: seq<Container>)
    requires |sends| == |list| && i < |list| && AllKnown(cache, list) && DistinctIds(list)
    requires Reports(cache, list[i]) && !sends[i]
    requires exists c :: c in next && Id(c) == Id(list[i])
    ensures !AllKnown(Refreshed(cache, list, sends), next)
  {
    StillKnownIff(cache, list, sends, i);
  }

  // ---------------------------------------------------------------- the cache is truthful

  /** The state keys of the last deltas the socket took, by container, after it took these. */
  function Picture(told: map<string, string>, sent: seq<Container>): map<string, string> {
    if sent == [] then told
    else
      var last := sent[|sent| - 1];
      Picture(told, sent[..|sent| - 1])[Id(last) := StateKey(last)]
  }

  /** The cache claims only what was handed to the socket. */
  ghost predicate Truthful(cache: map<string, string>, told: map<string, string>) {
    forall id :: id in cache ==> id in told && told[id] == cache[id]
  }

  lemma PictureSnoc(told: map<string, string>, sent: seq<Container>, c: Container)
    ensures Picture(told, sent + [c]) == Picture(told, sent)[Id(c) := StateKey(c)]
  {
    assert (sent + [c])[..|sent|] == sent;
  }

  lemma SeenIsTruthful(cache: map<string, string>, told: map<string, string>, c: Container, sends: bool)
    requires Truthful(cache, told)
    ensures Truthful(Seen(cache, c, sends), if sends && Reports(cache, c) then told[Id(c) := StateKey(c)] else told)
  {
  }

  lemma {:induction false} SeenAllIsTruthful(cache: map<string, string>, told: map<string, string>,
                                             list: seq<Container>, sends: seq<bool>)
    requires |sends| == |list| && Truthful(cache, told)
    ensures Truthful(SeenAll(cache, list, sends), Picture(told, Told(cache, list, sends)))
  {
    if list != [] {
      var n := |list| - 1;
      var before, sent := SeenAll(cache, list[..n], sends[..n]), Told(cache, list[..n], sends[..n]);
      SeenAllIsTruthful(cache, told, list[..n], sends[..n]);
      PictureSnoc(told, sent, list[n]);
      SeenIsTruthful(before, Picture(told, sent), list[n], sends[n]);
      if !(sends[n] && Reports(before, list[n])) { assert Told(cache, list, sends) == sent; }
    }
  }

  /** What an action hands to the socket. */
  function ToldByAction(cache: map<string, string>, list: seq<Container>, containerId: string, gets: bool)
    : seq<Container>
  {
    if Blank(containerId) || list == [] then []
    else if Id(list[0]) == TrimSpace(containerId) then if gets && Reports(cache, list[0]) then [list[0]] else []
    else ToldByAction(cache, list[1..], containerId, gets)
  }

  function ToldBy(cache: map<string, string>, step: Step): seq<Container>
    requires Can(step)
  {
    match step
    case Refresh(list, sends) => if AllKnown(cache, list) then Told(cache, list, sends) else []
    case Action(list, containerId, gets) => ToldByAction(cache, list, containerId, gets)
  }

  /** Everything a run handed to the socket, as a picture. */
  function Handed(cache: map<string, string>, told: map<string, string>, steps: seq<Step>): map<string, string>
    requires AllCan(steps)
  {
    if steps == [] then told
    else
      var init, last := steps[..|steps| - 1], steps[|steps| - 1];
      Picture(Handed(cache, told, init), ToldBy(End(cache, init), last))
  }

  lemma {:induction false} ActedIsTruthful(cache: map<string, string>, told: map<string, string>,
                                           list: seq<Container>, containerId: string, gets: bool)
    requires Truthful(cache, told)
    ensures Truthful(Acted(cache, list, containerId, gets),
                     Picture(told, ToldByAction(cache, list, containerId, gets)))
  {
    if !Blank(containerId) && list != [] {
      if Id(list[0]) == TrimSpace(containerId) {
        SeenIsTruthful(cache, told, list[0], gets);
        PictureSnoc(told, [], list[0]);
        assert [] + [list[0]] == [list[0]];
      } else {
        ActedIsTruthful(cache, told, list[1..], containerId, gets);
      }
    }
  }

  /** Over every run of refreshes and actions the cache claims only states that were handed to the socket last,
      whichever deltas the socket takes. */
  lemma {:induction false} CacheStaysTruthful(cache: map<string, string>, told: map<string, string>, steps: seq<Step>)
    requires AllCan(steps) && Truthful(cache, told)
    ensures Truthful(End(cache, steps), Handed(cache, told, steps))
  {
    if steps != [] {
      var init, last := steps[..|steps| - 1], steps[|steps| - 1];
      assert last in steps;
      CacheStaysTruthful(cache, told, init);
      match last
      case Refresh(list, sends) =>
        if AllKnown(End(cache, init), list) {
          SeenAllIsTruthful(End(cache, init), Handed(cache, told, init), list, sends);
        }
      case Action(list, containerId, gets) =>
        ActedIsTruthful(End(cache, init), Handed(cache, told, init), list, containerId, gets);
    }
  }

  /** After a refresh whose deltas all got through, the cache has the listed state of every container. */
  lemma {:induction false} CompleteRefresh(cache: map<string, string>, list: seq<Container>, sends: seq<bool>,
                                           c: Container)
    requires |sends| == |list| && (forall i :: 0 <= i < |sends| ==> sends[i])
    requires c in list && Id(c) != "" && DistinctIds(list)
    ensures Id(c) in SeenAll(cache, list, sends) && SeenAll(cache, list, sends)[Id(c)] == StateKey(c)
  {
    var n := |list| - 1;
    if c != list[n] {
      assert list == list[..n] + [list[n]];
      CompleteRefresh(cache, list[..n], sends[..n], c);
      var i :| 0 <= i < n && list[i] == c;
      assert Id(c) != Id(list[n]);
    }
  }
}
