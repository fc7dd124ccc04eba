/**
  Backlog validation, the greedy batch selector and its progress: repeatedly selecting a
  batch and merging it finishes the backlog without ever overtaking a dependency.
 */
module BacklogScheduler {
  import opened Wrappers
  import opened DependencyCycles

  // ---------------------------------------------------------------- formats

  predicate IsDigit(c: char) { '0' <= c <= '9' }

  /** AK-000 style. */
  predicate IsBacklogId(s: string) {
    |s| == 6 && s[..3] == "AK-" && IsDigit(s[3]) && IsDigit(s[4]) && IsDigit(s[5])
  }

  /** P0 through P3. */
  predicate IsPriority(s: string) {
    |s| == 2 && s[0] == 'P' && '0' <= s[1] <= '3'
  }

  predicate IsAreaSlug(s: string) {
    s != "" && forall i :: 0 <= i < |s| ==> 'a' <= s[i] <= 'z' || IsDigit(s[i]) || s[i] == '-'
  }

  /** The characters `trim` removes. */
  predicate IsSpace(c: char) {
    c as int in {9, 10, 11, 12, 13, 32, 0xA0, 0x1680, 0x2028, 0x2029, 0x202F, 0x205F, 0x3000, 0xFEFF} || 0x2000 <= c as int <= 0x200A
  }

  predicate IsBlank(s: string) {
    forall i :: 0 <= i < |s| ==> IsSpace(s[i])
  }

  function StringFields(item: BacklogItem): seq<string> {
    [item.id, item.slice, item.priority, item.area, item.branch, item.pr, item.acceptance, item.security, item.nextAction]
  }

  predicate WellFormedItem(item: BacklogItem) {
    && IsBacklogId(item.id) && IsPriority(item.priority) && IsAreaSlug(item.area)
    && forall f :: 0 <= f < |StringFields(item)| ==> !IsBlank(StringFields(item)[f])
  }

  predicate WellFormedDependencies(items: seq<BacklogItem>, item: BacklogItem) {
    && (forall k :: 0 <= k < |item.dependsOn| ==> item.dependsOn[k] in Ids(items) && item.dependsOn[k] != item.id)
    && forall j, k :: 0 <= j < k < |item.dependsOn| ==> item.dependsOn[j] != item.dependsOn[k]
  }

  /** What validation promises to its callers. */
  ghost predicate ValidBacklog(items: seq<BacklogItem>) {
    && items != []
    && UniqueIds(items)
    && (forall i :: 0 <= i < |items| ==> WellFormedItem(items[i]) && WellFormedDependencies(items, items[i]))
    && Acyclic(items)
  }

  datatype BacklogError =
    | EmptyBacklog
    | MalformedItem(item: BacklogItem)
    | DuplicateId(id: string)
    | BadDependency(item: BacklogItem)
    | DependencyCycle(path: seq<string>)

  /** The reported error is really there. */
  ghost predicate Justified(items: seq<BacklogItem>, e: BacklogError) {
    match e
    case EmptyBacklog => items == []
    case MalformedItem(item) => item in items && !WellFormedItem(item)
    case DuplicateId(id) => exists i, j :: 0 <= i < j < |items| && items[i].id == items[j].id == id
    case BadDependency(item) => item in items && !WellFormedDependencies(items, item)
    case DependencyCycle(path) => IsCycle(items, path)
  }

  method ValidateDependencies(items: seq<BacklogItem>, ids: set<string>, item: BacklogItem) returns (ok: bool)
    requires ids == Ids(items)
    ensures ok <==> WellFormedDependencies(items, item)
  {
    var duplicateDeps: set<string> := {};
    for k := 0 to |item.dependsOn|
      invariant duplicateDeps == Elements(item.dependsOn[..k])
      invariant forall j :: 0 <= j < k ==> item.dependsOn[j] in ids && item.dependsOn[j] != item.id
      invariant forall i, j :: 0 <= i < j < k ==> item.dependsOn[i] != item.dependsOn[j]
    {
      var dependency := item.dependsOn[k];
      if dependency !in ids || dependency == item.id {
        return false;
      }
      if dependency in duplicateDeps {
        var j :| 0 <= j < k && item.dependsOn[..k][j] == dependency;
        assert item.dependsOn[j] == item.dependsOn[k];
        return false;
      }
      forall j | 0 <= j < k
        ensures item.dependsOn[j] != dependency
      {
        assert item.dependsOn[..k][j] == item.dependsOn[j];
      }
      duplicateDeps := duplicateDeps + {dependency};
      assert item.dependsOn[..k + 1] == item.dependsOn[..k] + [dependency];
    }
    return true;
  }

  /** Validation accepts exactly the valid backlogs, and every error it reports is justified. */
  method ValidateBacklogItems(items: seq<BacklogItem>) returns (r: Result<(), BacklogError>)
    ensures r.Ok? <==> ValidBacklog(items)
    ensures r.Err? ==> Justified(items, r.error)
  {
    hide Acyclic, IsBacklogId, IsPriority, IsAreaSlug, IsBlank, WellFormedDependencies;
    if |items| == 0 {
      return Err(EmptyBacklog);
    }
    var ids: set<string> := {};
    for i := 0 to |items|
      invariant ids == Ids(items[..i])
      invariant forall j :: 0 <= j < i ==> WellFormedItem(items[j])
      invariant UniqueIds(items[..i])
    {
      var item := items[i];
      assert item in items;
      if !IsBacklogId(item.id) {
        return Err(MalformedItem(item));
      }
      if item.id in ids {
        var other :| other in items[..i] && other.id == item.id;
        var j :| 0 <= j < i && items[..i][j] == other;
        assert items[j].id == items[i].id;
        return Err(DuplicateId(item.id));
      }
      forall j | 0 <= j < i
        ensures items[j].id != item.id
      {
        assert items[..i][j] in items[..i];
      }
      ids := ids + {item.id};
      assert items[..i + 1] == items[..i] + [item];
      if !IsPriority(item.priority) || !IsAreaSlug(item.area) {
        return Err(MalformedItem(item));
      }
      for f := 0 to |StringFields(item)|
        invariant forall g :: 0 <= g < f ==> !IsBlank(StringFields(item)[g])
      {
        if IsBlank(StringFields(item)[f]) {
          return Err(MalformedItem(item));
        }
      }
    }
    assert items[..|items|] == items;

    for i := 0 to |items|
      invariant forall j :: 0 <= j < i ==> WellFormedDependencies(items, items[j])
    {
      assert items[i] in items;
      var ok := ValidateDependencies(items, ids, items[i]);
      if !ok {
        return Err(BadDependency(items[i]));
      }
    }
    var cycles := AssertNoDependencyCycles(items);
    if cycles.Err? {
      return Err(DependencyCycle(cycles.error));
    }
    return Ok(());
  }

  // ---------------------------------------------------------------- selection

  function StatusById(items: seq<BacklogItem>): (m: map<string, Status>)
    ensures m.Keys == Ids(items)
  {
    if items == [] then map[]
    else
      var n := |items| - 1;
      assert items == items[..n] + [items[n]];
      StatusById(items[..n])[items[n].id := items[n].status]
  }

  predicate IsMerged(items: seq<BacklogItem>, id: string) {
    var status := StatusById(items);
    id in status && status[id] == Merged
  }

  predicate DependenciesMerged(items: seq<BacklogItem>, item: BacklogItem) {
    forall k :: 0 <= k < |item.dependsOn| ==> IsMerged(items, item.dependsOn[k])
  }

  predicate IsEligible(items: seq<BacklogItem>, item: BacklogItem) {
    item.status == Ready && DependenciesMerged(items, item)
  }

  function EligibleAmong(items: seq<BacklogItem>, candidates: seq<BacklogItem>): (r: seq<BacklogItem>)
    ensures forall x :: x in r <==> x in candidates && IsEligible(items, x)
  {
    if candidates == [] then []
    else (if IsEligible(items, candidates[0]) then [candidates[0]] else []) + EligibleAmong(items, candidates[1..])
  }

  function PriorityRank(priority: string): nat {
    if |priority| >= 2 && IsDigit(priority[1]) then priority[1] as int - '0' as int else 0
  }

  /** Insertion that keeps earlier items first among equals. */
  function InsertByPriority(item: BacklogItem, sorted: seq<BacklogItem>): (r: seq<BacklogItem>)
    ensures forall x :: x in r <==> x == item || x in sorted
  {
    if sorted == [] || PriorityRank(item.priority) <= PriorityRank(sorted[0].priority) then [item] + sorted
    else
      assert forall x :: x in sorted <==> x == sorted[0] || x in sorted[1..];
      [sorted[0]] + InsertByPriority(item, sorted[1..])
  }

  /** A stable sort by priority. */
  function SortByPriority(items: seq<BacklogItem>): (r: seq<BacklogItem>)
    ensures forall x :: x in r <==> x in items
  {
    if items == [] then []
    else
      assert forall x :: x in items <==> x == items[0] || x in items[1..];
      InsertByPriority(items[0], SortByPriority(items[1..]))
  }

  /** Items in the order the selector looks at them. */
  function Eligible(items: seq<BacklogItem>): (r: seq<BacklogItem>)
    ensures forall x :: x in r <==> x in items && IsEligible(items, x)
  {
    SortByPriority(EligibleAmong(items, items))
  }

  function Areas(batch: seq<BacklogItem>): set<string> {
    set item | item in batch :: item.area
  }

  /** The selection loop over the remaining eligible items. */
  function Greedy(rest: seq<BacklogItem>, maxItems: int, selected: seq<BacklogItem>): seq<BacklogItem>
    decreases |rest|
  {
    if rest == [] || |selected| >= maxItems then selected
    else if !rest[0].parallel || rest[0].area in Areas(selected) then Greedy(rest[1..], maxItems, selected)
    else Greedy(rest[1..], maxItems, selected + [rest[0]])
  }

  function Select(items: seq<BacklogItem>, maxItems: int): seq<BacklogItem> {
    var eligible := Eligible(items);
    if eligible == [] then []
    else if !eligible[0].parallel then [eligible[0]]
    else Greedy(eligible, maxItems, [])
  }

  method SelectReadyBacklogBatch(items: seq<BacklogItem>, maxItems: int) returns (batch: seq<BacklogItem>)
    ensures batch == Select(items, maxItems)
  {
    var eligible := Eligible(items);
    if |eligible| == 0 {
      return [];
    }
    var first := eligible[0];
    if !first.parallel {
      return [first];
    }
    var selected: seq<BacklogItem> := [];
    var selectedAreas: set<string> := {};
    var i := 0;
    while i < |eligible|
      invariant 0 <= i <= |eligible|
      invariant selectedAreas == Areas(selected)
      invariant Greedy(eligible[i..], maxItems, selected) == Greedy(eligible, maxItems, [])
    {
      var item := eligible[i];
      assert eligible[i..][0] == item && eligible[i..][1..] == eligible[i + 1..];
      if |selected| >= maxItems {
        break;
      }
      i := i + 1;
      if !item.parallel || item.area in selectedAreas {
        continue;
      }
      selected := selected + [item];
      selectedAreas := selectedAreas + {item.area};
    }
    return selected;
  }

  // ---------------------------------------------------------------- what a batch is

  /** No two items of the batch share an area. */
  ghost predicate DistinctAreas(batch: seq<BacklogItem>) {
    forall i, j :: 0 <= i < j < |batch| ==> batch[i].area != batch[j].area
  }

  lemma {:induction false} GreedyIsSafe(rest: seq<BacklogItem>, maxItems: int, selected: seq<BacklogItem>)
    requires DistinctAreas(selected) && forall x :: x in selected ==> x.parallel
    ensures var r := Greedy(rest, maxItems, selected);
      && selected <= r && DistinctAreas(r)
      && (forall x :: x in r ==> x.parallel && (x in selected || x in rest))
      && |r| <= (if |selected| >= maxItems then |selected| else maxItems)
      && (forall x :: x in rest && x.parallel && x !in r ==> |r| >= maxItems || x.area in Areas(r))
    decreases |rest|
  {
    if rest != [] && |selected| < maxItems {
      assert forall x :: x in rest <==> x == rest[0] || x in rest[1..];
      if !rest[0].parallel || rest[0].area in Areas(selected) {
        GreedyIsSafe(rest[1..], maxItems, selected);
        AreasGrow(selected, Greedy(rest[1..], maxItems, selected));
      } else {
        var longer := selected + [rest[0]];
        forall i | 0 <= i < |selected|
          ensures selected[i].area != rest[0].area
        {
          assert selected[i] in selected;
        }
        GreedyIsSafe(rest[1..], maxItems, longer);
        assert longer[|selected|] in Greedy(rest[1..], maxItems, longer) by {
          assert Greedy(rest[1..], maxItems, longer)[|selected|] == rest[0];
        }
      }
    }
  }

  lemma AreasGrow(a: seq<BacklogItem>, b: seq<BacklogItem>)
    requires a <= b
    ensures Areas(a) <= Areas(b)
  {
    forall area | area in Areas(a)
      ensures area in Areas(b)
    {
      var x :| x in a && x.area == area;
      var i :| 0 <= i < |a| && a[i] == x;
      assert b[i] == x;
    }
  }

  /**
    A batch is made of ready items whose dependencies are all merged. It is either one
    item, or parallel items of pairwise different areas within the limit, and then every
    eligible parallel item left out finds the batch full or its area taken.
   */
  lemma BatchIsSafe(items: seq<BacklogItem>, maxItems: int)
    ensures var batch := Select(items, maxItems);
      && (forall x :: x in batch ==> x in items && IsEligible(items, x))
      && DistinctAreas(batch)
      && (|batch| > 1 ==> |batch| <= maxItems && forall x :: x in batch ==> x.parallel)
      && (Eligible(items) != [] && Eligible(items)[0].parallel ==>
            forall x :: x in items && IsEligible(items, x) && x.parallel && x !in batch ==>
              |batch| >= maxItems || x.area in Areas(batch))
  {
    var eligible := Eligible(items);
    if eligible != [] {
      assert eligible[0] in eligible;
      if eligible[0].parallel {
        GreedyIsSafe(eligible, maxItems, []);
      }
    }
  }

  ghost predicate MoreUrgent(a: BacklogItem, b: BacklogItem) {
    PriorityRank(a.priority) <= PriorityRank(b.priority)
  }

  ghost predicate InPriorityOrder(items: seq<BacklogItem>) {
    forall i, j :: 0 <= i < j < |items| ==> MoreUrgent(items[i], items[j])
  }

  lemma {:induction false} InsertKeepsOrder(item: BacklogItem, sorted: seq<BacklogItem>)
    requires InPriorityOrder(sorted)
    ensures InPriorityOrder(InsertByPriority(item, sorted))
  {
    if sorted != [] {
      if PriorityRank(item.priority) > PriorityRank(sorted[0].priority) {
        InsertKeepsOrder(item, sorted[1..]);
        var rest := InsertByPriority(item, sorted[1..]);
        forall j | 0 <= j < |rest|
          ensures MoreUrgent(sorted[0], rest[j])
        {
          assert rest[j] in rest;
        }
      } else {
        forall j | 1 <= j < |sorted|
          ensures MoreUrgent(item, sorted[j])
        {
          assert MoreUrgent(sorted[0], sorted[j]);
        }
      }
    }
  }

  lemma {:induction false} SortIsSorted(items: seq<BacklogItem>)
    ensures InPriorityOrder(SortByPriority(items))
  {
    if items != [] {
      SortIsSorted(items[1..]);
      InsertKeepsOrder(items[0], SortByPriority(items[1..]));
    }
  }

  lemma GreedyTakesFirst(eligible: seq<BacklogItem>, maxItems: int)
    requires eligible != [] && eligible[0].parallel && maxItems >= 1
    ensures Greedy(eligible, maxItems, []) != [] && Greedy(eligible, maxItems, [])[0] == eligible[0]
  {
    assert Areas([]) == {};
    assert [] + [eligible[0]] == [eligible[0]];
    GreedyIsSafe(eligible[1..], maxItems, [eligible[0]]);
  }

  /** With room for one item, a batch exists when an item is eligible, and starts with a most urgent one. */
  lemma BatchStartsWithMostUrgent(items: seq<BacklogItem>, maxItems: int)
    requires maxItems >= 1
    ensures Select(items, maxItems) == [] <==> forall x :: x in items ==> !IsEligible(items, x)
    ensures Select(items, maxItems) != [] ==>
      forall x :: x in items && IsEligible(items, x) ==> MoreUrgent(Select(items, maxItems)[0], x)
  {
    hide IsEligible, Greedy;
    var eligible := Eligible(items);
    SortIsSorted(EligibleAmong(items, items));
    if eligible != [] {
      assert eligible[0] in eligible;
      if eligible[0].parallel {
        GreedyTakesFirst(eligible, maxItems);
      }
      forall x | x in items && IsEligible(items, x)
        ensures MoreUrgent(eligible[0], x)
      {
        var j :| 0 <= j < |eligible| && eligible[j] == x;
        assert j > 0 ==> MoreUrgent(eligible[0], eligible[j]);
      }
    }
  }

  // ---------------------------------------------------------------- progress

  function MarkMerged(items: seq<BacklogItem>, batch: seq<BacklogItem>): (r: seq<BacklogItem>)
    ensures |r| == |items|
    ensures forall i :: 0 <= i < |items| ==>
      r[i] == if items[i] in batch then items[i].(status := Merged) else items[i]
  {
    seq(|items|, i requires 0 <= i < |items| => if items[i] in batch then items[i].(status := Merged) else items[i])
  }

  /** Select a batch and merge it. */
  function Round(items: seq<BacklogItem>, maxItems: int): seq<BacklogItem> {
    MarkMerged(items, Select(items, maxItems))
  }

  function Rounds(items: seq<BacklogItem>, maxItems: int, n: nat): (r: seq<BacklogItem>)
    ensures |r| == |items|
    decreases n
  {
    if n == 0 then items else Rounds(Round(items, maxItems), maxItems, n - 1)
  }

  ghost predicate ReadyOrMerged(items: seq<BacklogItem>) {
    forall i :: 0 <= i < |items| ==> items[i].status == Ready || items[i].status == Merged
  }

  function Unmerged(items: seq<BacklogItem>): nat {
    if items == [] then 0 else (if items[0].status == Merged then 0 else 1) + Unmerged(items[1..])
  }

  /** The parts of validity that scheduling needs and keeps. */
  ghost predicate Schedulable(items: seq<BacklogItem>) {
    && UniqueIds(items)
    && (forall i, k :: 0 <= i < |items| && 0 <= k < |items[i].dependsOn| ==> items[i].dependsOn[k] in Ids(items))
    && Acyclic(items)
    && ReadyOrMerged(items)
  }

  lemma {:induction false} StatusOfItem(items: seq<BacklogItem>, i: nat)
    requires UniqueIds(items) && i < |items|
    ensures items[i].id in Ids(items) && StatusById(items)[items[i].id] == items[i].status
    decreases |items|
  {
    var n := |items| - 1;
    assert items == items[..n] + [items[n]];
    assert items[i] in items;
    if i < n {
      assert items[i].id != items[n].id;
      StatusOfItem(items[..n], i);
    }
  }

  /** An unmerged item that is not eligible waits for another unmerged item. */
  lemma WaitsForUnmerged(items: seq<BacklogItem>, i: nat) returns (j: nat)
    requires Schedulable(items) && i < |items| && items[i].status == Ready && !IsEligible(items, items[i])
    ensures j < |items| && items[j].status == Ready && DependsOn(items, items[i].id, items[j].id)
  {
    var k :| 0 <= k < |items[i].dependsOn| && !IsMerged(items, items[i].dependsOn[k]);
    var d := items[i].dependsOn[k];
    var item :| item in items && item.id == d;
    j :| 0 <= j < |items| && items[j] == item;
    StatusOfItem(items, j);
    assert items[i] in items;
  }

  /** If nothing is eligible, dependencies can be followed for any number of steps. */
  lemma {:induction false} EndlessChain(items: seq<BacklogItem>, i: nat, n: nat) returns (path: seq<string>)
    requires Schedulable(items) && i < |items| && items[i].status == Ready
    requires forall x :: x in items ==> !IsEligible(items, x)
    ensures |path| == n + 1 && path[0] == items[i].id && IsChain(items, path)
    ensures forall k :: 0 <= k < |path| ==> path[k] in Ids(items)
    decreases n
  {
    hide IsEligible;
    assert items[i] in items;
    path := [items[i].id];
    if n > 0 {
      var j := WaitsForUnmerged(items, i);
      var rest := EndlessChain(items, j, n - 1);
      path := path + rest;
      forall k | 0 <= k < |path| - 1
        ensures DependsOn(items, path[k], path[k + 1])
      {
        assert k > 0 ==> DependsOn(items, rest[k - 1], rest[k]);
      }
    }
  }

  lemma {:induction false} DistinctFit(path: seq<string>, ids: set<string>)
    requires forall k :: 0 <= k < |path| ==> path[k] in ids
    requires forall j, k :: 0 <= j < k < |path| ==> path[j] != path[k]
    ensures |path| <= |ids|
    decreases |path|
  {
    if path != [] {
      DistinctFit(path[1..], ids - {path[0]});
    }
  }

  /** A chain longer than the backlog repeats an item and so contains a cycle. */
  lemma LongChainHasCycle(items: seq<BacklogItem>, path: seq<string>)
    requires IsChain(items, path) && |path| > |Ids(items)|
    requires forall k :: 0 <= k < |path| ==> path[k] in Ids(items)
    ensures !Acyclic(items)
  {
    if forall j, k :: 0 <= j < k < |path| ==> path[j] != path[k] {
      DistinctFit(path, Ids(items));
    }
    var j, k :| 0 <= j < k < |path| && path[j] == path[k];
    var cycle := path[j..k + 1];
    forall i | 0 <= i < |cycle| - 1
      ensures DependsOn(items, cycle[i], cycle[i + 1])
    {
      assert DependsOn(items, path[j + i], path[j + i + 1]);
    }
    assert IsCycle(items, cycle);
  }

  /** A schedulable backlog with unmerged items always has an eligible one. */
  lemma SomethingIsEligible(items: seq<BacklogItem>, i: nat)
    requires Schedulable(items) && i < |items| && items[i].status == Ready
    ensures exists x :: x in items && IsEligible(items, x)
  {
    hide IsEligible;
    if forall x :: x in items ==> !IsEligible(items, x) {
      var path := EndlessChain(items, i, |Ids(items)|);
      LongChainHasCycle(items, path);
    }
  }

  /** Two backlogs with the same ids and dependencies, row by row. */
  ghost predicate SameGraph(a: seq<BacklogItem>, b: seq<BacklogItem>) {
    |a| == |b| && forall i :: 0 <= i < |a| ==> a[i].id == b[i].id && a[i].dependsOn == b[i].dependsOn
  }

  lemma SameGraphIds(a: seq<BacklogItem>, b: seq<BacklogItem>)
    requires SameGraph(a, b)
    ensures Ids(a) <= Ids(b)
  {
    forall id | id in Ids(a)
      ensures id in Ids(b)
    {
      var x :| x in a && x.id == id;
      var i :| 0 <= i < |a| && a[i] == x;
      assert b[i] in b && b[i].id == id;
    }
  }

  lemma SameGraphEdge(a: seq<BacklogItem>, b: seq<BacklogItem>, from: string, to: string)
    requires SameGraph(a, b) && DependsOn(a, from, to)
    ensures DependsOn(b, from, to)
  {
    SameGraphIds(a, b);
    var x :| x in a && x.id == from && to in x.dependsOn;
    var i :| 0 <= i < |a| && a[i] == x;
    assert b[i] in b && b[i].id == from && to in b[i].dependsOn;
  }

  lemma SameGraphCycle(a: seq<BacklogItem>, b: seq<BacklogItem>, path: seq<string>)
    requires SameGraph(a, b) && IsCycle(a, path)
    ensures IsCycle(b, path)
  {
    forall i | 0 <= i < |path| - 1
      ensures DependsOn(b, path[i], path[i + 1])
    {
      assert DependsOn(a, path[i], path[i + 1]);
      SameGraphEdge(a, b, path[i], path[i + 1]);
    }
  }

  lemma MarkKeepsSchedulable(items: seq<BacklogItem>, batch: seq<BacklogItem>)
    requires Schedulable(items)
    ensures Schedulable(MarkMerged(items, batch))
  {
    hide IsCycle;
    var marked := MarkMerged(items, batch);
    assert SameGraph(marked, items) && SameGraph(items, marked);
    SameGraphIds(items, marked);
    forall path
      ensures !IsCycle(marked, path)
    {
      if IsCycle(marked, path) {
        SameGraphCycle(marked, items, path);
      }
    }
  }

  lemma {:induction false} MarkCounts(items: seq<BacklogItem>, batch: seq<BacklogItem>)
    ensures Unmerged(MarkMerged(items, batch)) <= Unmerged(items)
    ensures (exists x :: x in items && x in batch && x.status != Merged) ==>
      Unmerged(MarkMerged(items, batch)) < Unmerged(items)
  {
    if items != [] {
      assert MarkMerged(items, batch)[1..] == MarkMerged(items[1..], batch);
      MarkCounts(items[1..], batch);
    }
  }

  lemma {:induction false} UnmergedCounts(items: seq<BacklogItem>)
    ensures Unmerged(items) == 0 <==> forall i :: 0 <= i < |items| ==> items[i].status == Merged
  {
    if items != [] {
      UnmergedCounts(items[1..]);
      if forall i :: 0 <= i < |items| ==> items[i].status == Merged {
        assert forall i :: 0 <= i < |items[1..]| ==> items[1..][i].status == Merged;
      }
      if forall i :: 0 <= i < |items[1..]| ==> items[1..][i].status == Merged {
        assert forall i :: 1 <= i < |items| ==> items[i] == items[1..][i - 1];
      }
    }
  }

  lemma RoundMakesProgress(items: seq<BacklogItem>, maxItems: int)
    requires Schedulable(items) && maxItems >= 1 && Unmerged(items) > 0
    ensures Unmerged(Round(items, maxItems)) < Unmerged(items)
  {
    hide IsEligible, Select, Unmerged, DependenciesMerged;
    UnmergedCounts(items);
    var i :| 0 <= i < |items| && items[i].status != Merged;
    SomethingIsEligible(items, i);
    BatchStartsWithMostUrgent(items, maxItems);
    BatchIsSafe(items, maxItems);
    var batch := Select(items, maxItems);
    assert batch[0] in batch;
    EligibleIsReady(items, batch[0]);
    MarkCounts(items, batch);
  }

  lemma EligibleIsReady(items: seq<BacklogItem>, x: BacklogItem)
    requires IsEligible(items, x)
    ensures x.status == Ready && DependenciesMerged(items, x)
  {
  }

  /**
    Progress: a valid backlog whose items are all ready or merged is completely merged
    after at most as many rounds as it has unmerged items.
   */
  lemma {:induction false} EverythingGetsMerged(items: seq<BacklogItem>, maxItems: int, n: nat)
    requires Schedulable(items) && maxItems >= 1 && n >= Unmerged(items)
    ensures forall i :: 0 <= i < |Rounds(items, maxItems, n)| ==> Rounds(items, maxItems, n)[i].status == Merged
    ensures |Rounds(items, maxItems, n)| == |items|
    decreases n
  {
    UnmergedCounts(items);
    if n > 0 {
      MarkKeepsSchedulable(items, Select(items, maxItems));
      if Unmerged(items) > 0 {
        RoundMakesProgress(items, maxItems);
      } else {
        MarkCounts(items, Select(items, maxItems));
      }
      EverythingGetsMerged(Round(items, maxItems), maxItems, n - 1);
    }
  }

  lemma ValidIsSchedulable(items: seq<BacklogItem>)
    requires ValidBacklog(items) && ReadyOrMerged(items)
    ensures Schedulable(items)
  {
  }

  /** No round merges an item before its dependencies. */
  lemma MergedAfterDependencies(items: seq<BacklogItem>, maxItems: int, i: nat)
    requires i < |items| && items[i].status != Merged && Round(items, maxItems)[i].status == Merged
    ensures items[i].status == Ready && DependenciesMerged(items, items[i])
  {
    hide IsEligible, Select;
    BatchIsSafe(items, maxItems);
    EligibleIsReady(items, items[i]);
  }

  /** Round `m` merges item `i`, which is ready before it and has all its dependencies merged. */
  ghost predicate MergesNext(items: seq<BacklogItem>, maxItems: int, n: nat, i: nat, m: nat)
    requires i < |items|
  {
    && m < n
    && Rounds(items, maxItems, m)[i].status == Ready
    && DependenciesMerged(Rounds(items, maxItems, m), Rounds(items, maxItems, m)[i])
    && Rounds(items, maxItems, m + 1)[i].status == Merged
  }

  /** Over any number of rounds, an item is merged by a round that starts with its dependencies merged. */
  lemma {:induction false} DependenciesNeverOvertaken(items: seq<BacklogItem>, maxItems: int, n: nat, i: nat)
    requires i < |items| && items[i].status != Merged && Rounds(items, maxItems, n)[i].status == Merged
    ensures exists m: nat :: MergesNext(items, maxItems, n, i, m)
    decreases n
  {
    hide DependenciesMerged, Select;
    var next := Round(items, maxItems);
    if next[i].status == Merged {
      MergedAfterDependencies(items, maxItems, i);
      assert Rounds(items, maxItems, 1) == Rounds(next, maxItems, 0) == next;
      assert MergesNext(items, maxItems, n, i, 0);
    } else {
      DependenciesNeverOvertaken(next, maxItems, n - 1, i);
      var m: nat :| MergesNext(next, maxItems, n - 1, i, m);
      assert Rounds(items, maxItems, m + 1) == Rounds(next, maxItems, m);
      assert Rounds(items, maxItems, m + 2) == Rounds(next, maxItems, m + 1);
      assert MergesNext(items, maxItems, n, i, m + 1);
    }
  }
}
