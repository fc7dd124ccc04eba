/**
  The backlog's dependency graph: a depth-first cycle check that keeps a set of items being
  visited and a set of finished items, and reports the cycle it runs into.
 */
module DependencyCycles {
  import opened Wrappers

  datatype Status = Ready | InProgress | InReview | Blocked | Merged

  datatype BacklogItem = BacklogItem(
    id: string,
    slice: string,
    status: Status,
    priority: string,
    dependsOn: seq<string>,
    parallel: bool,
    area: string,
    branch: string,
    pr: string,
    acceptance: string,
    security: string,
    nextAction: string)

  ghost predicate UniqueIds(items: seq<BacklogItem>) {
    forall i, j :: 0 <= i < j < |items| ==> items[i].id != items[j].id
  }

  function Ids(items: seq<BacklogItem>): set<string> {
    set item | item in items :: item.id
  }

  /** `a` lists `b` as a dependency and both are in the backlog. */
  ghost predicate DependsOn(items: seq<BacklogItem>, a: string, b: string) {
    b in Ids(items) && exists item :: item in items && item.id == a && b in item.dependsOn
  }

  ghost predicate IsChain(items: seq<BacklogItem>, path: seq<string>) {
    forall i :: 0 <= i < |path| - 1 ==> DependsOn(items, path[i], path[i + 1])
  }

  /** A nonempty dependency path from an item back to itself. */
  ghost predicate IsCycle(items: seq<BacklogItem>, path: seq<string>) {
    |path| >= 2 && path[0] == path[|path| - 1] && IsChain(items, path)
  }

  ghost predicate Acyclic(items: seq<BacklogItem>) {
    forall path :: !IsCycle(items, path)
  }

  function Elements(path: seq<string>): set<string> {
    set id | id in path
  }

  // ---------------------------------------------------------------- finishing order

  /** Items in an order in which dependencies come before the items that need them. */
  ghost predicate Topological(items: seq<BacklogItem>, order: seq<string>) {
    forall i, d :: 0 <= i < |order| && DependsOn(items, order[i], d) ==> d in order[..i]
  }

  function FirstIndex(order: seq<string>, id: string): (r: nat)
    requires id in order
    ensures r < |order| && order[r] == id && forall k :: 0 <= k < r ==> order[k] != id
  {
    if order[0] == id then 0 else 1 + FirstIndex(order[1..], id)
  }

  lemma DependencyHasSmallerIndex(items: seq<BacklogItem>, order: seq<string>, a: string, b: string)
    requires Topological(items, order) && a in order && DependsOn(items, a, b)
    ensures b in order && FirstIndex(order, b) < FirstIndex(order, a)
  {
    var i := FirstIndex(order, a);
    var k :| 0 <= k < i && order[..i][k] == b;
  }

  lemma {:induction false} ChainDescends(items: seq<BacklogItem>, order: seq<string>, path: seq<string>)
    requires Topological(items, order) && |path| >= 1 && path[0] in order && IsChain(items, path)
    ensures path[|path| - 1] in order
    ensures |path| >= 2 ==> FirstIndex(order, path[|path| - 1]) < FirstIndex(order, path[0])
    decreases |path|
  {
    if |path| >= 2 {
      assert DependsOn(items, path[0], path[1]);
      DependencyHasSmallerIndex(items, order, path[0], path[1]);
      forall i | 0 <= i < |path[1..]| - 1
        ensures DependsOn(items, path[1..][i], path[1..][i + 1])
      {
        assert DependsOn(items, path[i + 1], path[i + 2]);
      }
      ChainDescends(items, order, path[1..]);
    }
  }

  lemma ChainStartsInBacklog(items: seq<BacklogItem>, path: seq<string>)
    requires |path| >= 2 && IsChain(items, path)
    ensures path[0] in Ids(items)
  {
    assert DependsOn(items, path[0], path[1]);
    var item :| item in items && item.id == path[0] && path[1] in item.dependsOn;
  }

  /** A topological order of the whole backlog rules out every cycle. */
  lemma TopologicalIsAcyclic(items: seq<BacklogItem>, order: seq<string>)
    requires Topological(items, order) && forall id :: id in Ids(items) ==> id in order
    ensures Acyclic(items)
  {
    forall path | IsCycle(items, path)
      ensures false
    {
      ChainStartsInBacklog(items, path);
      ChainDescends(items, order, path);
    }
  }

  // ---------------------------------------------------------------- the check

  class CycleCheck {
    const items: seq<BacklogItem>
    const byId: map<string, BacklogItem>
    var visiting: set<string>
    var visited: set<string>
    ghost var order: seq<string>

    ghost predicate Valid()
      reads this
    {
      && UniqueIds(items)
      && byId.Keys == Ids(items)
      && (forall id :: id in byId ==> byId[id] in items && byId[id].id == id)
      && visiting <= Ids(items)
      && (forall id :: id in visited <==> id in order)
      && (forall id :: id in order ==> id in Ids(items))
      && visiting !! visited
      && Topological(items, order)
    }

    constructor (items: seq<BacklogItem>)
      requires UniqueIds(items)
      ensures Valid() && this.items == items && visiting == {} && visited == {}
    {
      this.items := items;
      byId := map item | item in items :: item.id := item;
      visiting, visited, order := {}, {}, [];
      new;
      assert byId.Keys == Ids(items);
      forall id | id in byId
        ensures byId[id] in items && byId[id].id == id
      {
      }
    }

    lemma ItemOf(item: BacklogItem, id: string)
      requires UniqueIds(items) && item in items && id in Ids(items)
      ensures DependsOn(items, item.id, id) <==> id in item.dependsOn
    {
      if DependsOn(items, item.id, id) {
        var other :| other in items && other.id == item.id && id in other.dependsOn;
        var i :| 0 <= i < |items| && items[i] == item;
        var j :| 0 <= j < |items| && items[j] == other;
        assert i == j;
      }
    }

    /**
      Depth-first visit. On return the item is finished and its dependencies were finished
      before it; on an error the path from the repeated item is a real cycle.
     */
    method Visit(item: BacklogItem, path: seq<string>) returns (r: Result<(), seq<string>>)
      requires Valid() && item in items
      requires path != [] && path[|path| - 1] == item.id && IsChain(items, path)
      requires visiting == Elements(path[..|path| - 1])
      modifies this`visiting, this`visited, this`order
      ensures r.Ok? ==> Valid() && visiting == old(visiting) && old(visited) + {item.id} <= visited
      ensures r.Err? ==> IsCycle(items, r.error)
      decreases Ids(items) - visiting
    {
      hide Topological, UniqueIds, DependsOn, IsChain, IsCycle, FirstIndex;
      if item.id in visiting {
        CycleOnPath(path, item.id);
        return Err(path[FirstIndex(path, item.id)..]);
      }

      if item.id in visited {
        return Ok(());
      }

      visiting := visiting + {item.id};
      assert path == path[..|path| - 1] + [item.id];

      for k := 0 to |item.dependsOn|
        invariant Valid() && visiting == old(visiting) + {item.id} && old(visited) <= visited
        invariant visiting == Elements(path)
        invariant forall j :: 0 <= j < k && item.dependsOn[j] in Ids(items) ==> item.dependsOn[j] in visited
      {
        var dependency := item.dependsOn[k];
        if dependency in byId {
          ItemOf(item, dependency);
          ExtendChain(path, dependency);
          var inner := Visit(byId[dependency], path + [dependency]);
          if inner.Err? {
            return inner;
          }
        }
      }

      visiting := visiting - {item.id};
      Finish(item);
      visited := visited + {item.id};
      order := order + [item.id];
      r := Ok(());
    }

    lemma ExtendChain(path: seq<string>, id: string)
      requires path != [] && IsChain(items, path) && DependsOn(items, path[|path| - 1], id)
      ensures IsChain(items, path + [id]) && (path + [id])[..|path|] == path
    {
      var longer := path + [id];
      forall i | 0 <= i < |longer| - 1
        ensures DependsOn(items, longer[i], longer[i + 1])
      {
        if i < |path| - 1 {
          assert DependsOn(items, path[i], path[i + 1]);
        }
      }
    }

    /** A path that comes back to one of its items ends in a cycle. */
    lemma CycleOnPath(path: seq<string>, id: string)
      requires path != [] && path[|path| - 1] == id && id in path[..|path| - 1] && IsChain(items, path)
      ensures IsCycle(items, path[FirstIndex(path, id)..])
    {
      hide DependsOn;
      var k :| 0 <= k < |path| - 1 && path[..|path| - 1][k] == id;
      var start := FirstIndex(path, id);
      var cycle := path[start..];
      forall i | 0 <= i < |cycle| - 1
        ensures DependsOn(items, cycle[i], cycle[i + 1])
      {
        var at := start + i;
        assert DependsOn(items, path[at], path[at + 1]);
      }
    }

    /** Finishing an item whose dependencies are all finished keeps the order topological. */
    lemma Finish(item: BacklogItem)
      requires UniqueIds(items) && item in items && Topological(items, order)
      requires forall id :: id in visited <==> id in order
      requires forall j :: 0 <= j < |item.dependsOn| && item.dependsOn[j] in Ids(items) ==> item.dependsOn[j] in visited
      ensures Topological(items, order + [item.id])
    {
      var longer := order + [item.id];
      forall i, d | 0 <= i < |longer| && DependsOn(items, longer[i], d)
        ensures d in longer[..i]
      {
        if i < |order| {
          assert d in order[..i];
          assert longer[..i] == order[..i];
        } else {
          ItemOf(item, d);
          assert longer[..i] == order;
        }
      }
    }
  }

  /** The check accepts exactly the acyclic graphs, and what it reports is a cycle. */
  method AssertNoDependencyCycles(items: seq<BacklogItem>) returns (r: Result<(), seq<string>>)
    requires UniqueIds(items)
    ensures r.Ok? <==> Acyclic(items)
    ensures r.Err? ==> IsCycle(items, r.error)
  {
    var check := new CycleCheck(items);
    for i := 0 to |items|
      invariant fresh(check) && check.items == items && check.Valid() && check.visiting == {}
      invariant forall j :: 0 <= j < i ==> items[j].id in check.visited
    {
      var visit := check.Visit(items[i], [items[i].id]);
      if visit.Err? {
        return visit;
      }
    }
    TopologicalIsAcyclic(items, check.order);
    return Ok(());
  }
}
