/**
  Which items a batch holds and in what order: the eligible items by priority and, among
  equals, in backlog order; of these the batch is the first fit.
 */
module BatchOrder {
  import opened DependencyCycles
  import opened BacklogScheduler

  // ---------------------------------------------------------------- the order of the eligible items

  /** Item `a` of the backlog is looked at before item `b`. */
  predicate Earlier(items: seq<BacklogItem>, a: nat, b: nat)
    requires a < |items| && b < |items|
  {
    var x, y := PriorityRank(items[a].priority), PriorityRank(items[b].priority);
    x < y || (x == y && a < b)
  }

  /** `at` are the places of the items `sorted` in the backlog, all from `n` on, and in order. */
  ghost predicate Places(items: seq<BacklogItem>, n: nat, sorted: seq<BacklogItem>, at: seq<nat>) {
    && |at| == |sorted|
    && (forall i :: 0 <= i < |at| ==> n <= at[i] < |items| && items[at[i]] == sorted[i])
    && forall i, j :: 0 <= i < j < |at| ==> Earlier(items, at[i], at[j])
  }

  lemma PlaceInFront(items: seq<BacklogItem>, n: nat, sorted: seq<BacklogItem>, at: seq<nat>)
    requires n < |items| && Places(items, n + 1, sorted, at)
    requires sorted == [] || PriorityRank(items[n].priority) <= PriorityRank(sorted[0].priority)
    ensures Places(items, n, [items[n]] + sorted, [n] + at)
  {
    hide PriorityRank;
    var more := [n] + at;
    forall j | 1 <= j < |more|
      ensures Earlier(items, n, more[j])
    {
      assert more[j] == at[j - 1];
      if j > 1 {
        assert Earlier(items, at[0], at[j - 1]);
      }
    }
  }

  lemma {:induction false} InsertPlace(items: seq<BacklogItem>, n: nat, sorted: seq<BacklogItem>, at: seq<nat>) returns (more: seq<nat>)
    requires n < |items| && Places(items, n + 1, sorted, at)
    ensures Places(items, n, InsertByPriority(items[n], sorted), more)
    ensures forall a :: a in more <==> a == n || a in at
  {
    hide PriorityRank;
    if sorted == [] || PriorityRank(items[n].priority) <= PriorityRank(sorted[0].priority) {
      more := [n] + at;
      PlaceInFront(items, n, sorted, at);
    } else {
      var rest := InsertPlace(items, n, sorted[1..], at[1..]);
      more := [at[0]] + rest;
      forall j | 1 <= j < |more|
        ensures Earlier(items, at[0], more[j])
      {
        assert more[j] in rest;
        if more[j] != n {
          var k :| 0 <= k < |at[1..]| && at[1..][k] == more[j];
          assert Earlier(items, at[0], at[k + 1]);
        }
      }
      assert forall a :: a in at <==> a == at[0] || a in at[1..];
    }
  }

  ghost predicate HoldsEligible(items: seq<BacklogItem>, at: seq<nat>) {
    forall a :: a in at <==> 0 <= a < |items| && IsEligible(items, items[a])
  }

  lemma {:induction false} EligiblePlaces(items: seq<BacklogItem>, n: nat) returns (at: seq<nat>)
    requires n <= |items|
    ensures Places(items, n, SortByPriority(EligibleAmong(items, items[n..])), at)
    ensures forall a :: a in at <==> n <= a < |items| && IsEligible(items, items[a])
    decreases |items| - n
  {
    hide IsEligible;
    if n == |items| {
      at := [];
    } else {
      assert items[n..][0] == items[n] && items[n..][1..] == items[n + 1..];
      var rest := EligiblePlaces(items, n + 1);
      if IsEligible(items, items[n]) {
        var tail := EligibleAmong(items, items[n + 1..]);
        assert EligibleAmong(items, items[n..]) == [items[n]] + tail;
        assert ([items[n]] + tail)[1..] == tail;
        at := InsertPlace(items, n, SortByPriority(tail), rest);
      } else {
        assert EligibleAmong(items, items[n..]) == EligibleAmong(items, items[n + 1..]);
        at := rest;
      }
    }
  }

  /** The selector looks at exactly the eligible items, each once, by priority and then in backlog order. */
  lemma EligibleInOrder(items: seq<BacklogItem>)
    ensures exists at :: Places(items, 0, Eligible(items), at) && HoldsEligible(items, at)
  {
    hide Places;
    assert items[0..] == items;
    var at := EligiblePlaces(items, 0);
    assert HoldsEligible(items, at);
  }

  /** The ranks of the four priorities, P0 first. */
  lemma RankFollowsPriority(a: string, b: string)
    requires IsPriority(a) && IsPriority(b)
    ensures PriorityRank(a) < 4
    ensures PriorityRank(a) < PriorityRank(b) <==> a[1] < b[1]
    ensures PriorityRank(a) == PriorityRank(b) <==> a == b
  {
    assert a == [a[0], a[1]] && b == [b[0], b[1]];
  }

  // ---------------------------------------------------------------- first fit

  function Shift(at: seq<nat>): (r: seq<nat>)
    ensures |r| == |at| && forall i :: 0 <= i < |at| ==> r[i] == at[i] + 1
  {
    seq(|at|, i requires 0 <= i < |at| => at[i] + 1)
  }

  /** Place 0, and what is taken of the rest. */
  function AndFirst(later: seq<nat>): (r: seq<nat>)
    ensures |r| == |later| + 1 && r[0] == 0
    ensures forall i :: 0 < i < |r| ==> r[i] == later[i - 1] + 1
  {
    [0] + Shift(later)
  }

  function Pick(items: seq<BacklogItem>, at: seq<nat>): (r: seq<BacklogItem>)
    requires forall i :: 0 <= i < |at| ==> at[i] < |items|
    ensures |r| == |at| && forall i :: 0 <= i < |at| ==> r[i] == items[at[i]]
  {
    seq(|at|, i requires 0 <= i < |at| => items[at[i]])
  }

  ghost predicate Increasing(at: seq<nat>, below: nat) {
    && (forall i :: 0 <= i < |at| ==> at[i] < below)
    && forall i, j :: 0 <= i < j < |at| ==> at[i] < at[j]
  }

  /** Everything that is taken lies before place `k`. */
  predicate AllBefore(at: seq<nat>, k: nat) {
    forall i :: 0 <= i < |at| ==> at[i] < k
  }

  /** Something taken before place `k` has the area of the item there. */
  predicate AreaTaken(rest: seq<BacklogItem>, at: seq<nat>, k: nat)
    requires k < |rest| && forall i :: 0 <= i < |at| ==> at[i] < |rest|
  {
    exists i :: 0 <= i < |at| && at[i] < k && rest[at[i]].area == rest[k].area
  }

  /** With `selected` already taken, the item at place `k` is parallel, its area is free and there is room for it. */
  predicate Fits(rest: seq<BacklogItem>, maxItems: int, selected: seq<BacklogItem>, at: seq<nat>, k: nat)
    requires k < |rest| && forall i :: 0 <= i < |at| ==> at[i] < |rest|
  {
    && rest[k].parallel && rest[k].area !in Areas(selected) && !AreaTaken(rest, at, k)
    && !(|selected| + |at| >= maxItems && AllBefore(at, k))
  }

  /** An item is taken exactly when it fits. */
  ghost predicate FirstFit(rest: seq<BacklogItem>, maxItems: int, selected: seq<BacklogItem>, at: seq<nat>) {
    && Increasing(at, |rest|)
    && forall k :: 0 <= k < |rest| ==> (k in at <==> Fits(rest, maxItems, selected, at, k))
  }

  lemma SkipFitsAt(rest: seq<BacklogItem>, maxItems: int, selected: seq<BacklogItem>, later: seq<nat>, k: nat)
    requires 1 <= k < |rest| && Increasing(later, |rest| - 1)
    ensures Fits(rest, maxItems, selected, Shift(later), k) <==> Fits(rest[1..], maxItems, selected, later, k - 1)
  {
    var at := Shift(later);
    hide Areas;
    assert AreaTaken(rest, at, k) <==> AreaTaken(rest[1..], later, k - 1) by {
      forall i | 0 <= i < |at|
        ensures (at[i] < k <==> later[i] < k - 1) && rest[at[i]] == rest[1..][later[i]]
      {
      }
    }
  }

  lemma SkipFits(rest: seq<BacklogItem>, maxItems: int, selected: seq<BacklogItem>, later: seq<nat>)
    requires rest != [] && |selected| < maxItems
    requires !rest[0].parallel || rest[0].area in Areas(selected)
    requires FirstFit(rest[1..], maxItems, selected, later)
    ensures FirstFit(rest, maxItems, selected, Shift(later)) && Increasing(Shift(later), |rest|)
  {
    var at := Shift(later);
    assert 0 !in at;
    assert !Fits(rest, maxItems, selected, at, 0);
    hide Fits, Areas;
    forall k | 1 <= k < |rest|
      ensures k in at <==> Fits(rest, maxItems, selected, at, k)
    {
      ShiftMembers(later, k - 1);
      SkipFitsAt(rest, maxItems, selected, later, k);
    }
  }

  lemma ShiftMembers(at: seq<nat>, k: nat)
    ensures k + 1 in Shift(at) <==> k in at
  {
    if k in at {
      var i :| 0 <= i < |at| && at[i] == k;
      assert Shift(at)[i] == k + 1;
    }
  }

  lemma TakeFitsAt(rest: seq<BacklogItem>, maxItems: int, selected: seq<BacklogItem>, later: seq<nat>, k: nat)
    requires 1 <= k < |rest| && Increasing(later, |rest| - 1)
    ensures Fits(rest, maxItems, selected, AndFirst(later), k) <==> Fits(rest[1..], maxItems, selected + [rest[0]], later, k - 1)
  {
    AreasOfOneMore(selected, rest[0]);
    TakenAfterFirst(rest, later, k);
    AllBeforeAfterFirst(later, k);
    hide Areas, AreaTaken, AllBefore, Increasing;
  }

  lemma TakeFits(rest: seq<BacklogItem>, maxItems: int, selected: seq<BacklogItem>, later: seq<nat>)
    requires rest != [] && |selected| < maxItems
    requires rest[0].parallel && rest[0].area !in Areas(selected)
    requires FirstFit(rest[1..], maxItems, selected + [rest[0]], later)
    ensures FirstFit(rest, maxItems, selected, AndFirst(later)) && Increasing(AndFirst(later), |rest|)
  {
    var at := AndFirst(later);
    hide AndFirst;
    assert Increasing(at, |rest|);
    assert !AreaTaken(rest, at, 0) && !AllBefore(at, 0);
    assert at[0] in at && Fits(rest, maxItems, selected, at, 0);
    hide Fits, Areas, AreaTaken, AllBefore;
    forall k | 1 <= k < |rest|
      ensures k in at <==> Fits(rest, maxItems, selected, at, k)
    {
      FirstMembers(later, k - 1);
      TakeFitsAt(rest, maxItems, selected, later, k);
    }
  }

  lemma TakenAfterFirst(rest: seq<BacklogItem>, later: seq<nat>, k: nat)
    requires 1 <= k < |rest| && Increasing(later, |rest| - 1)
    ensures AreaTaken(rest, AndFirst(later), k) <==> AreaTaken(rest[1..], later, k - 1) || rest[k].area == rest[0].area
  {
    var at := AndFirst(later);
    hide AndFirst;
    if AreaTaken(rest, at, k) {
      var i :| 0 <= i < |at| && at[i] < k && rest[at[i]].area == rest[k].area;
      if i > 0 {
        assert at[i] == later[i - 1] + 1;
        assert rest[1..][later[i - 1]].area == rest[1..][k - 1].area;
      }
    }
    if AreaTaken(rest[1..], later, k - 1) {
      var i :| 0 <= i < |later| && later[i] < k - 1 && rest[1..][later[i]].area == rest[1..][k - 1].area;
      assert at[i + 1] == later[i] + 1;
    }
  }

  lemma AllBeforeAfterFirst(later: seq<nat>, k: nat)
    requires 1 <= k
    ensures AllBefore(AndFirst(later), k) <==> AllBefore(later, k - 1)
  {
    var at := AndFirst(later);
    hide AndFirst;
    if AllBefore(at, k) {
      forall i | 0 <= i < |later|
        ensures later[i] < k - 1
      {
        assert at[i + 1] < k;
      }
    }
  }

  lemma FirstMembers(later: seq<nat>, k: nat)
    ensures k + 1 in AndFirst(later) <==> k in later
  {
    var at := AndFirst(later);
    hide AndFirst;
    if k in later {
      var i :| 0 <= i < |later| && later[i] == k;
      assert at[i + 1] == k + 1;
    }
  }

  lemma AreasOfOneMore(selected: seq<BacklogItem>, x: BacklogItem)
    ensures Areas(selected + [x]) == Areas(selected) + {x.area}
  {
    assert forall y :: y in selected + [x] <==> y in selected || y == x;
  }

  lemma NothingFits(rest: seq<BacklogItem>, maxItems: int, selected: seq<BacklogItem>)
    ensures rest == [] || |selected| >= maxItems ==> FirstFit(rest, maxItems, selected, [])
  {
  }

  lemma PickShifted(rest: seq<BacklogItem>, later: seq<nat>)
    requires rest != [] && forall i :: 0 <= i < |later| ==> later[i] < |rest| - 1
    ensures Pick(rest, Shift(later)) == Pick(rest[1..], later)
  {
  }

  lemma PickFirst(rest: seq<BacklogItem>, later: seq<nat>)
    requires rest != [] && forall i :: 0 <= i < |later| ==> later[i] < |rest| - 1
    ensures Pick(rest, AndFirst(later)) == [rest[0]] + Pick(rest[1..], later)
  {
    hide AndFirst;
  }

  /** What the selection loop adds is the first fit. */
  lemma {:induction false} GreedyIsFirstFit(rest: seq<BacklogItem>, maxItems: int, selected: seq<BacklogItem>) returns (at: seq<nat>)
    ensures Increasing(at, |rest|) && FirstFit(rest, maxItems, selected, at)
    ensures Greedy(rest, maxItems, selected) == selected + Pick(rest, at)
    decreases |rest|
  {
    NothingFits(rest, maxItems, selected);
    hide FirstFit, Shift, AndFirst, Areas;
    if rest == [] || |selected| >= maxItems {
      at := [];
    } else if !rest[0].parallel || rest[0].area in Areas(selected) {
      var later := GreedyIsFirstFit(rest[1..], maxItems, selected);
      SkipFits(rest, maxItems, selected, later);
      at := Shift(later);
      PickShifted(rest, later);
    } else {
      var later := GreedyIsFirstFit(rest[1..], maxItems, selected + [rest[0]]);
      TakeFits(rest, maxItems, selected, later);
      at := AndFirst(later);
      PickFirst(rest, later);
    }
  }

  /**
    What a batch is, exactly: nothing without an eligible item, the first item alone when it
    may not run beside others, and otherwise the first fit among the eligible items, in their
    order: each parallel item whose area nothing before it took, as long as there is room.
   */
  lemma BatchIsFirstFit(items: seq<BacklogItem>, maxItems: int)
    ensures var eligible := Eligible(items);
      if eligible == [] then Select(items, maxItems) == []
      else if !eligible[0].parallel then Select(items, maxItems) == [eligible[0]]
      else exists at :: FirstFit(eligible, maxItems, [], at) && Select(items, maxItems) == Pick(eligible, at)
  {
    hide Greedy, Eligible, FirstFit;
    var eligible := Eligible(items);
    if eligible != [] && eligible[0].parallel {
      var at := GreedyIsFirstFit(eligible, maxItems, []);
      assert [] + Pick(eligible, at) == Pick(eligible, at);
    }
  }
}
