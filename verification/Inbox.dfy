/** The command inbox: a bounded, persisted cache of command receipts that refines an unbounded log of them. */
module Inbox {
  import opened Text

  const INBOX_CAP := 256

  datatype CommandResult = CommandResult(commandId: string, success: bool, error: string, logs: seq<string>,
                                         payload: string)

  /** `Other` is whatever else a file might hold. */
  datatype Status = Running | Succeeded | Failed | Other(text: string)

  datatype Receipt = Receipt(commandId: string, status: Status, result: CommandResult, updatedAt: int)

  const NO_RESULT := CommandResult("", false, "", [], "")

  function RunningReceipt(id: string, at: int): Receipt { Receipt(TrimSpace(id), Running, NO_RESULT, at) }

  function ResultReceipt(r: CommandResult, at: int): Receipt {
    Receipt(TrimSpace(r.commandId), if r.success then Succeeded else Failed, r, at)
  }

  /** `o` is an oldest entry. */
  ghost predicate Oldest(items: map<string, Receipt>, o: string) {
    o in items && forall id :: id in items ==> items[o].updatedAt <= items[id].updatedAt
  }

  /** `upsert`: which of several equally old entries goes depends on the map's iteration order. */
  ghost predicate IsUpsert(items: map<string, Receipt>, next: Receipt, items': map<string, Receipt>) {
    if Blank(next.commandId) then items' == items
    else
      var full := items[next.commandId := next];
      if |full| <= INBOX_CAP then items' == full
      else exists o :: Oldest(full, o) && items' == full - {o}
  }

  // ---------------------------------------------------------------- the file

  /** `load`: later entries win, blank ids are skipped. */
  function Loaded(file: seq<Receipt>): map<string, Receipt> {
    if file == [] then map[]
    else
      var r := file[|file| - 1];
      var rest := Loaded(file[..|file| - 1]);
      if Blank(r.commandId) then rest else rest[r.commandId := r]
  }

  ghost predicate WellKeyed(items: map<string, Receipt>) {
    forall id :: id in items ==> items[id].commandId == id && !Blank(id)
  }

  /** The file lists the items, each at least once, in some order. */
  ghost predicate Lists(file: seq<Receipt>, items: map<string, Receipt>) {
    && (forall r :: r in file ==> r.commandId in items && items[r.commandId] == r)
    && (forall id :: id in items ==> items[id] in file)
  }

  lemma {:induction false} LoadedAt(file: seq<Receipt>, id: string)
    ensures id in Loaded(file) ==> !Blank(id) && Loaded(file)[id] in file && Loaded(file)[id].commandId == id
    ensures !Blank(id) && id !in Loaded(file) ==> forall r :: r in file ==> r.commandId != id
  {
    if file != [] { LoadedAt(file[..|file| - 1], id); }
  }

  /** Writing the inbox out in any order and loading it again gives it back. */
  lemma ReloadIsIdentity(file: seq<Receipt>, items: map<string, Receipt>)
    requires WellKeyed(items) && Lists(file, items)
    ensures Loaded(file) == items
  {
    forall id: string ensures (id in Loaded(file) <==> id in items) && (id in items ==> Loaded(file)[id] == items[id]) {
      LoadedAt(file, id);
    }
  }

  lemma AddOne(items: map<string, Receipt>, next: Receipt)
    ensures |items| <= |items[next.commandId := next]| <= |items| + 1
  {
    assert items[next.commandId := next].Keys == items.Keys + {next.commandId};
  }

  lemma RemoveOne(items: map<string, Receipt>, o: string)
    requires o in items
    ensures |items - {o}| == |items| - 1
  {
    assert items.Keys == (items - {o}).Keys + {o};
  }

  /** What an update leaves under each id: its own receipt, or what was there. */
  lemma UpsertEntry(items: map<string, Receipt>, next: Receipt, after: map<string, Receipt>, k: string)
    requires IsUpsert(items, next, after)
    ensures Blank(next.commandId) ==> after == items
    ensures !Blank(next.commandId) && k in after ==>
              (k in items || k == next.commandId) && after[k] == if k == next.commandId then next else items[k]
  {
  }

  // ---------------------------------------------------------------- the object

  class CommandInbox {
    var items: map<string, Receipt>
    /** The inbox file; `None` before it is first written. */
    var file: Option<seq<Receipt>>

    ghost predicate Valid()
      reads this
    {
      WellKeyed(items) && (file.Some? ==> Loaded(file.value) == items) && (file.None? ==> items == map[])
    }

    /** `newCommandInbox` on the file an earlier process left. */
    constructor (file: Option<seq<Receipt>>)
      ensures this.file == file && items == if file.Some? then Loaded(file.value) else map[]
      ensures Valid()
    {
      this.file := file;
      items := map[];
      new;
      if file.Some? { LoadFile(file.value); }
    }

    method LoadFile(list: seq<Receipt>)
      requires items == map[]
      modifies `items
      ensures items == Loaded(list) && WellKeyed(items)
    {
      for k := 0 to |list|
        invariant items == Loaded(list[..k])
      {
        assert list[..k + 1][..k] == list[..k];
        if !Blank(list[k].commandId) { items := items[list[k].commandId := list[k]]; }
      }
      assert list[..|list|] == list;
      forall id | id in items ensures items[id].commandId == id && !Blank(id) { LoadedAt(list, id); }
    }

    method Get(id: string) returns (r: Option<Receipt>)
      ensures r == if TrimSpace(id) in items then Some(items[TrimSpace(id)]) else None
    {
      var key := TrimSpace(id);
      if key in items { r := Some(items[key]); } else { r := None; }
    }

    method MarkRunning(id: string, at: int)
      requires Valid()
      modifies this
      ensures Valid() && IsUpsert(old(items), RunningReceipt(id, at), items)
      ensures var k := TrimSpace(id);
              if k == "" then items == old(items)
              else k in items ==> items[k].commandId == k && items[k].status == Running && items[k].updatedAt == at
    {
      TrimTwice(id);
      Upsert(RunningReceipt(id, at));
    }

    method MarkResult(r: CommandResult, at: int)
      requires Valid()
      modifies this
      ensures Valid() && IsUpsert(old(items), ResultReceipt(r, at), items)
      ensures var k := TrimSpace(r.commandId);
              if k == "" then items == old(items)
              else k in items ==>
                     && items[k].commandId == k && items[k].result == r && items[k].updatedAt == at
                     && items[k].status == if r.success then Succeeded else Failed
    {
      TrimTwice(r.commandId);
      Upsert(ResultReceipt(r, at));
    }

    /** `upsert`, with the scan for the oldest entry. */
    method Upsert(next: Receipt)
      requires Valid()
      modifies this
      ensures Valid() && IsUpsert(old(items), next, items)
      ensures |old(items)| <= 256 ==> |items| <= 256
    {
      if Blank(next.commandId) { return; }
      items := items[next.commandId := next];
      AddOne(old(items), next);
      if |items| > INBOX_CAP {
        var o := FindOldest();
        RemoveOne(items, o);
        items := items - {o};
      }
      Persist();
    }

    method FindOldest() returns (o: string)
      requires |items| > 0 && WellKeyed(items)
      ensures Oldest(items, o)
    {
      o := "";
      var at := 0;
      var todo := items.Keys;
      assert todo != {};
      while todo != {}
        invariant todo <= items.Keys
        invariant o == "" ==> todo == items.Keys
        invariant o != "" ==> o in items && at == items[o].updatedAt
        invariant o != "" ==> forall id :: id in items && id !in todo ==> at <= items[id].updatedAt
        decreases |todo|
      {
        var id :| id in todo;
        assert id != "" by { assert !Blank(id) && Blank(""); }
        todo := todo - {id};
        if o == "" || items[id].updatedAt < at {
          o := id;
          at := items[id].updatedAt;
        }
      }
    }

    /** `persistLocked`: every item once, in whatever order the map yields them. */
    method Persist()
      requires WellKeyed(items)
      modifies `file
      ensures file.Some? && Loaded(file.value) == items
    {
      var list: seq<Receipt> := [];
      var todo := items.Keys;
      while todo != {}
        invariant todo <= items.Keys
        invariant forall r :: r in list ==> r.commandId in items && items[r.commandId] == r
        invariant forall id :: id in items && id !in todo ==> items[id] in list
        decreases |todo|
      {
        var id :| id in todo;
        todo := todo - {id};
        list := list + [items[id]];
      }
      ReloadIsIdentity(list, items);
      file := Some(list);
    }
  }

  // ---------------------------------------------------------------- refinement of an unbounded log

  /** The latest receipt of every id in a log of updates. */
  function Latest(log: seq<Receipt>): map<string, Receipt> { Loaded(log) }

  /** Update times never decrease; several may fall into one millisecond. */
  ghost predicate InOrder(log: seq<Receipt>) {
    forall i, j :: 0 <= i < j < |log| ==> log[i].updatedAt <= log[j].updatedAt
  }

  /** Update times strictly increase. */
  ghost predicate Rising(log: seq<Receipt>) {
    forall i, j :: 0 <= i < j < |log| ==> log[i].updatedAt < log[j].updatedAt
  }

  ghost predicate Within(items: map<string, Receipt>, all: map<string, Receipt>) {
    forall id :: id in items ==> id in all && items[id] == all[id]
  }

  /** Nothing left out is newer than anything kept. */
  ghost predicate NoneNewer(items: map<string, Receipt>, all: map<string, Receipt>) {
    forall id, gone :: id in items && gone in all && gone !in items ==> all[gone].updatedAt <= items[id].updatedAt
  }

  /** `items` are `cap` most recently updated entries of `all`, or all of them if there are no more. */
  ghost predicate MostRecent(items: map<string, Receipt>, all: map<string, Receipt>, cap: nat) {
    Within(items, all) && |items| == (if |all| < cap then |all| else cap) && NoneNewer(items, all)
  }

  ghost predicate DistinctTimes(all: map<string, Receipt>) {
    forall a, b :: a in all && b in all && a != b ==> all[a].updatedAt != all[b].updatedAt
  }

  /** That leaves no choice where the times differ. */
  lemma MostRecentIsUnique(a: map<string, Receipt>, b: map<string, Receipt>, all: map<string, Receipt>, cap: nat)
    requires MostRecent(a, all, cap) && MostRecent(b, all, cap) && DistinctTimes(all)
    ensures a == b
  {
    if a.Keys != b.Keys {
      var x := SameSizeSubsets(a.Keys, b.Keys);
      var y := SameSizeSubsets(b.Keys, a.Keys);
      ExchangeTies(a, b, all, x, y);
    }
  }

  /** What one account keeps and another does not is as old as what the other keeps instead. */
  lemma ExchangeTies(a: map<string, Receipt>, b: map<string, Receipt>, all: map<string, Receipt>, x: string, y: string)
    requires Within(a, all) && NoneNewer(a, all) && Within(b, all) && NoneNewer(b, all)
    requires x in a && x !in b && y in b && y !in a
    ensures x != y && x in all && y in all && all[x].updatedAt == all[y].updatedAt
  {
  }

  lemma SameSizeSubset(a: set<string>, b: set<string>)
    requires |a| == |b| && a <= b
    ensures a == b
  {
    assert b == a + (b - a);
  }

  /** Of two different sets of one size, each has something the other lacks. */
  lemma SameSizeSubsets(a: set<string>, b: set<string>) returns (x: string)
    requires |a| == |b| && a != b
    ensures x in a && x !in b
  {
    if a <= b { SameSizeSubset(a, b); }
    x :| x in a && x !in b;
  }

  /** `at` is no earlier than anything in the log. */
  ghost predicate NotBefore(all: map<string, Receipt>, at: int) { forall id :: id in all ==> all[id].updatedAt <= at }

  lemma KeySubset(items: map<string, Receipt>, all: map<string, Receipt>)
    requires Within(items, all)
    ensures |items| <= |all|
    ensures |items| == |all| ==> forall id :: id in all ==> id in items
  {
    assert all.Keys == items.Keys + (all.Keys - items.Keys);
  }

  lemma UpsertFits(items: map<string, Receipt>, all: map<string, Receipt>, next: Receipt)
    requires MostRecent(items, all, INBOX_CAP) && NotBefore(all, next.updatedAt)
    requires |items[next.commandId := next]| <= INBOX_CAP
    ensures MostRecent(items[next.commandId := next], all[next.commandId := next], INBOX_CAP)
  {
    KeySubset(items, all);
    AddOne(all, next);
    if |items| == INBOX_CAP { FullStays(items, all, next); }
  }

  /** A full inbox that does not grow already had the id. */
  lemma FullStays(items: map<string, Receipt>, all: map<string, Receipt>, next: Receipt)
    requires Within(items, all) && |items[next.commandId := next]| == |items|
    ensures next.commandId in items && |all[next.commandId := next]| == |all|
  {
    assert items[next.commandId := next].Keys == items.Keys + {next.commandId};
    assert all[next.commandId := next].Keys == all.Keys + {next.commandId};
  }

  /** The order after an eviction: `o` was no newer than what is kept, and neither was what had gone before. */
  lemma EvictedInOrder(items: map<string, Receipt>, all: map<string, Receipt>, next: Receipt, o: string)
    requires Within(items, all) && NoneNewer(items, all) && NotBefore(all, next.updatedAt)
    requires Oldest(items[next.commandId := next], o)
    ensures NoneNewer(items[next.commandId := next] - {o}, all[next.commandId := next])
  {
    var full, all' := items[next.commandId := next], all[next.commandId := next];
    forall id, gone | id in full - {o} && gone in all' && gone !in full - {o}
      ensures all'[gone].updatedAt <= full[id].updatedAt
    {
      if gone == o { assert full[o].updatedAt <= full[id].updatedAt; }
    }
  }

  lemma UpsertEvicts(items: map<string, Receipt>, all: map<string, Receipt>, next: Receipt, o: string)
    requires MostRecent(items, all, INBOX_CAP) && NotBefore(all, next.updatedAt)
    requires |items[next.commandId := next]| > INBOX_CAP && Oldest(items[next.commandId := next], o)
    ensures MostRecent(items[next.commandId := next] - {o}, all[next.commandId := next], INBOX_CAP)
  {
    var full := items[next.commandId := next];
    EvictedInOrder(items, all, next, o);
    AddOne(items, next);
    RemoveOne(full, o);
    KeySubset(full, all[next.commandId := next]);
  }

  /** One update keeps the inbox at the most recent entries. */
  lemma UpsertKeepsMostRecent(items: map<string, Receipt>, all: map<string, Receipt>, next: Receipt,
                              items': map<string, Receipt>)
    requires MostRecent(items, all, INBOX_CAP) && IsUpsert(items, next, items') && !Blank(next.commandId)
    requires NotBefore(all, next.updatedAt)
    ensures MostRecent(items', all[next.commandId := next], INBOX_CAP)
  {
    var full := items[next.commandId := next];
    if |full| <= INBOX_CAP {
      UpsertFits(items, all, next);
    } else {
      var o :| Oldest(full, o) && items' == full - {o};
      UpsertEvicts(items, all, next, o);
    }
  }

  lemma LatestNotBefore(log: seq<Receipt>, at: int)
    requires forall r :: r in log ==> r.updatedAt <= at
    ensures NotBefore(Latest(log), at)
  {
    forall id | id in Latest(log) ensures Latest(log)[id].updatedAt <= at { LoadedAt(log, id); }
  }

  lemma {:induction false} LatestTimes(log: seq<Receipt>)
    requires Rising(log)
    ensures DistinctTimes(Latest(log))
  {
    if log != [] {
      var init, last := log[..|log| - 1], log[|log| - 1];
      LatestTimes(init);
      forall id | id in Latest(init) ensures Latest(init)[id].updatedAt < last.updatedAt {
        LoadedAt(init, id);
        var i :| 0 <= i < |init| && init[i] == Latest(init)[id];
        assert log[i] == init[i];
      }
    }
  }

  /** Over any sequence of updates, starting empty and with reloads anywhere (they change nothing), the inbox
      holds the latest receipts of 256 most recently updated ids; among receipts of one millisecond the map's
      iteration order decides. */
  lemma {:induction false} InboxRefinesLog(log: seq<Receipt>, states: seq<map<string, Receipt>>)
    requires InOrder(log) && |states| == |log| + 1 && states[0] == map[]
    requires forall i :: 0 <= i < |log| ==> IsUpsert(states[i], log[i], states[i + 1])
    ensures MostRecent(states[|log|], Latest(log), 256)
  {
    if log != [] {
      var n := |log| - 1;
      var init := log[..n];
      InboxRefinesLog(init, states[..n + 1]);
      forall r | r in init ensures r.updatedAt <= log[n].updatedAt {
        var i :| 0 <= i < |init| && init[i] == r;
        assert log[i] == r;
      }
      LatestNotBefore(init, log[n].updatedAt);
      assert IsUpsert(states[n], log[n], states[n + 1]);
      if !Blank(log[n].commandId) { UpsertKeepsMostRecent(states[n], Latest(init), log[n], states[n + 1]); }
    }
  }

  /** If no two updates share a millisecond the inbox is determined: any other account of the most recent
      receipts describes the same map. */
  lemma InboxIsDetermined(log: seq<Receipt>, states: seq<map<string, Receipt>>, other: map<string, Receipt>)
    requires Rising(log) && |states| == |log| + 1 && states[0] == map[]
    requires forall i :: 0 <= i < |log| ==> IsUpsert(states[i], log[i], states[i + 1])
    requires MostRecent(other, Latest(log), 256)
    ensures states[|log|] == other
  {
    InboxRefinesLog(log, states);
    LatestTimes(log);
    MostRecentIsUnique(states[|log|], other, Latest(log), 256);
  }
}
