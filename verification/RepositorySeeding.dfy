/**
  The record collections of a repository: when a restart may use them in place of the
  snapshot's, and how a repository found empty is filled, one record at a time.
 */
module RepositorySeeding {
  import opened Wrappers

  datatype Collection =
    | Subjects | Resources | Relationships | NativeGrants
    | DiscoveryRuns | ReadinessReports | ProvisioningPlans | ProvisioningJobs | DriftFindings
    | Campaigns | GovernanceFindings | ExceptionRequests | ReconciliationRuns | Decisions
    | OtherCollection(name: string)

  /** `key` is the decision id of a decision, the id of anything else. */
  datatype Item = Item(key: string, body: string)

  type Records = map<Collection, seq<Item>>

  function Items(m: Records, c: Collection): seq<Item> {
    if c in m then m[c] else []
  }

  predicate HasKey(items: seq<Item>, key: string) {
    exists i :: 0 <= i < |items| && items[i].key == key
  }

  predicate ContainsAllByKey(persisted: seq<Item>, seeded: seq<Item>) {
    forall i :: 0 <= i < |seeded| ==> HasKey(persisted, seeded[i].key)
  }

  predicate HasPersistedRecords(persisted: Records, group: seq<Collection>) {
    exists c :: c in group && Items(persisted, c) != []
  }

  predicate ShouldUsePersisted(persisted: Records, base: Records, group: seq<Collection>) {
    HasPersistedRecords(persisted, group) && forall c :: c in group ==> ContainsAllByKey(Items(persisted, c), Items(base, c))
  }

  // ---------------------------------------------------------------- filling an empty repository

  datatype Write = Write(collection: Collection, item: Item)

  function UpsertItem(items: seq<Item>, item: Item): (r: seq<Item>)
    ensures forall key :: HasKey(r, key) <==> HasKey(items, key) || key == item.key
  {
    if items == [] then
      assert [item][0].key == item.key;
      [item]
    else if items[0].key == item.key then
      var r := [item] + items[1..];
      assert forall key :: HasKey(r, key) <==> HasKey(items, key) || key == item.key by {
        assert r[0].key == items[0].key && forall i :: 1 <= i < |r| ==> r[i] == items[i];
      }
      r
    else
      var rest := UpsertItem(items[1..], item);
      var r := [items[0]] + rest;
      assert forall key :: HasKey(r, key) <==> HasKey(items, key) || key == item.key by {
        assert forall key :: HasKey(r, key) <==> key == items[0].key || HasKey(rest, key) by {
          ConsHasKey(items[0], rest);
        }
        assert items == [items[0]] + items[1..];
        ConsHasKey(items[0], items[1..]);
      }
      r
  }

  lemma ConsHasKey(head: Item, tail: seq<Item>)
    ensures forall key :: HasKey([head] + tail, key) <==> key == head.key || HasKey(tail, key)
  {
    var all := [head] + tail;
    forall key
      ensures HasKey(all, key) <==> key == head.key || HasKey(tail, key)
    {
      assert all[0] == head;
      if HasKey(tail, key) {
        var i :| 0 <= i < |tail| && tail[i].key == key;
        assert all[i + 1].key == key;
      }
    }
  }

  function Upsert(repository: Records, w: Write): Records {
    repository[w.collection := UpsertItem(Items(repository, w.collection), w.item)]
  }

  function Apply(repository: Records, ws: seq<Write>): Records {
    if ws == [] then repository else Upsert(Apply(repository, ws[..|ws| - 1]), ws[|ws| - 1])
  }

  function WritesOfCollection(c: Collection, items: seq<Item>): (r: seq<Write>)
    ensures |r| == |items| && forall i :: 0 <= i < |r| ==> r[i] == Write(c, items[i])
  {
    seq(|items|, i requires 0 <= i < |items| => Write(c, items[i]))
  }

  /** The writes of the first `n` collections of a group. */
  function WritesUpTo(seed: Records, group: seq<Collection>, n: nat): seq<Write>
    requires n <= |group|
  {
    if n == 0 then [] else WritesUpTo(seed, group, n - 1) + WritesOfCollection(group[n - 1], Items(seed, group[n - 1]))
  }

  function WritesOf(seed: Records, group: seq<Collection>): seq<Write> {
    WritesUpTo(seed, group, |group|)
  }

  lemma {:induction false} WritesArePrefix(seed: Records, group: seq<Collection>, n: nat, m: nat)
    requires n <= m <= |group|
    ensures WritesUpTo(seed, group, n) <= WritesUpTo(seed, group, m)
    decreases m
  {
    if n < m {
      WritesArePrefix(seed, group, n, m - 1);
    }
  }

  lemma {:induction false} ApplyConcat(repository: Records, a: seq<Write>, b: seq<Write>)
    ensures Apply(repository, a + b) == Apply(Apply(repository, a), b)
    decreases |b|
  {
    hide Upsert;
    if b == [] {
      assert a + b == a;
    } else {
      var ab := a + b;
      assert ab[..|ab| - 1] == a + b[..|b| - 1];
      ApplyConcat(repository, a, b[..|b| - 1]);
    }
  }

  lemma PrefixOfPrefix(all: seq<Write>, done: seq<Write>, own: seq<Write>, written: nat)
    requires done + own <= all && written <= |own|
    ensures |done| + written <= |all| && all[..|done| + written] == done + own[..written]
  {
    assert all[..|done| + |own|] == done + own;
  }

  lemma OneMoreWrite(repository: Records, ws: seq<Write>, n: nat)
    requires n < |ws|
    ensures Apply(repository, ws[..n + 1]) == Upsert(Apply(repository, ws[..n]), ws[n])
  {
    assert ws[..n + 1][..n] == ws[..n];
  }

  /** Writes one collection; the write after `room` others throws and ends it. */
  method SeedCollection(repository: Records, c: Collection, items: seq<Item>, room: nat) returns (r: Records, written: nat)
    ensures written == (if room < |items| then room else |items|)
    ensures r == Apply(repository, WritesOfCollection(c, items)[..written])
  {
    ghost var ws := WritesOfCollection(c, items);
    r, written := repository, 0;
    assert Apply(repository, ws[..0]) == repository;
    hide Apply, Upsert;
    while written < |items|
      invariant 0 <= written <= |items| && written <= room
      invariant r == Apply(repository, ws[..written])
    {
      if written == room {
        return;
      }
      OneMoreWrite(repository, ws, written);
      r := Upsert(r, Write(c, items[written]));
      written := written + 1;
    }
  }

  /** The first `c` collections were written, `total` writes in all. */
  ghost predicate Filled(repository: Records, seed: Records, group: seq<Collection>, c: nat, total: nat, r: Records)
    requires c <= |group|
  {
    total == |WritesUpTo(seed, group, c)| && r == Apply(repository, WritesUpTo(seed, group, c))
  }

  /** Exactly the first `n` writes took place, and there are more. */
  ghost predicate Stopped(repository: Records, seed: Records, group: seq<Collection>, n: nat, r: Records) {
    n < |WritesOf(seed, group)| && r == Apply(repository, WritesOf(seed, group)[..n])
  }

  lemma AfterCollection(repository: Records, before: Records, r: Records, seed: Records, group: seq<Collection>, c: nat, total: nat, written: nat)
    requires c < |group| && written <= |Items(seed, group[c])| && Filled(repository, seed, group, c, total, before)
    requires r == Apply(before, WritesOfCollection(group[c], Items(seed, group[c]))[..written])
    ensures written < |Items(seed, group[c])| ==> Stopped(repository, seed, group, total + written, r)
    ensures written == |Items(seed, group[c])| ==> Filled(repository, seed, group, c + 1, total + written, r)
  {
    hide Apply;
    var done, own := WritesUpTo(seed, group, c), WritesOfCollection(group[c], Items(seed, group[c]));
    WritesArePrefix(seed, group, c + 1, |group|);
    ApplyConcat(repository, done, own[..written]);
    PrefixOfPrefix(WritesOf(seed, group), done, own, written);
    if written < |own| {
      PrefixOfPrefix(WritesOf(seed, group), done, own, |own|);
    } else {
      assert own[..written] == own;
    }
  }

  /** Fills collection `c` after the ones before it; write number `failAt` throws and ends it. */
  method SeedNextCollection(ghost repository: Records, before: Records, seed: Records, group: seq<Collection>, c: nat, total: nat, failAt: nat)
    returns (r: Records, total': nat, threw: bool)
    requires c < |group| && total <= failAt && Filled(repository, seed, group, c, total, before)
    ensures total' <= failAt
    ensures if threw then Stopped(repository, seed, group, failAt, r) else Filled(repository, seed, group, c + 1, total', r)
  {
    hide *;
    var items := Items(seed, group[c]);
    var written: nat;
    r, written := SeedCollection(before, group[c], items, failAt - total);
    AfterCollection(repository, before, r, seed, group, c, total, written);
    total', threw := total + written, written < |items|;
  }

  /** Fills a repository collection by collection; write number `failAt` throws and ends it. */
  method SeedRepository(repository: Records, seed: Records, group: seq<Collection>, failAt: nat)
    returns (r: Records, total: nat, threw: bool)
    ensures if threw then Stopped(repository, seed, group, failAt, r)
            else total <= failAt && Filled(repository, seed, group, |group|, total, r)
  {
    r, total, threw := repository, 0, false;
    var c := 0;
    while c < |group|
      invariant 0 <= c <= |group|
      invariant !threw && total <= failAt && Filled(repository, seed, group, c, total, r)
    {
      hide *;
      r, total, threw := SeedNextCollection(repository, r, seed, group, c, total, failAt);
      if threw {
        return;
      }
      c := c + 1;
    }
  }

  predicate Writes(ws: seq<Write>, c: Collection, key: string) {
    exists i :: 0 <= i < |ws| && ws[i].collection == c && ws[i].item.key == key
  }

  lemma OneMoreWritten(ws: seq<Write>, c: Collection, key: string)
    requires ws != []
    ensures var last := ws[|ws| - 1];
      Writes(ws, c, key) <==> Writes(ws[..|ws| - 1], c, key) || (last.collection == c && last.item.key == key)
  {
    if Writes(ws[..|ws| - 1], c, key) {
      var i :| 0 <= i < |ws| - 1 && ws[..|ws| - 1][i].collection == c && ws[..|ws| - 1][i].item.key == key;
      assert ws[i].collection == c && ws[i].item.key == key;
    }
  }

  lemma {:induction false} KeysAfterWrites(repository: Records, ws: seq<Write>, c: Collection, key: string)
    ensures HasKey(Items(Apply(repository, ws), c), key) <==> HasKey(Items(repository, c), key) || Writes(ws, c, key)
  {
    hide HasKey;
    if ws != [] {
      KeysAfterWrites(repository, ws[..|ws| - 1], c, key);
      OneMoreWritten(ws, c, key);
      hide Writes;
      var before, last := Apply(repository, ws[..|ws| - 1]), ws[|ws| - 1];
      assert HasKey(UpsertItem(Items(before, last.collection), last.item), key) <==>
        (HasKey(Items(before, last.collection), key) || key == last.item.key);
    }
  }

  function LookUp(items: seq<Item>, key: string): Option<Item> {
    if items == [] then None else if items[0].key == key then Some(items[0]) else LookUp(items[1..], key)
  }

  lemma {:induction false} LookUpAfterUpsert(items: seq<Item>, item: Item, key: string)
    ensures LookUp(UpsertItem(items, item), key) == if key == item.key then Some(item) else LookUp(items, key)
  {
    hide HasKey;
    if items != [] {
      LookUpAfterUpsert(items[1..], item, key);
    }
  }

  /** The last item written under a key of a collection. */
  function LastWritten(ws: seq<Write>, c: Collection, key: string): Option<Item> {
    if ws == [] then None
    else
      var last := ws[|ws| - 1];
      if last.collection == c && last.item.key == key then Some(last.item) else LastWritten(ws[..|ws| - 1], c, key)
  }

  /** After any writes a key holds the last item written under it, or what it held before. */
  lemma {:induction false} RecordsAfterWrites(repository: Records, ws: seq<Write>, c: Collection, key: string)
    ensures LookUp(Items(Apply(repository, ws), c), key) ==
      OrElse(LastWritten(ws, c, key), LookUp(Items(repository, c), key))
  {
    if ws != [] {
      var before, last := Apply(repository, ws[..|ws| - 1]), ws[|ws| - 1];
      RecordsAfterWrites(repository, ws[..|ws| - 1], c, key);
      LookUpAfterUpsert(Items(before, c), last.item, key);
      hide LookUp, UpsertItem;
    }
  }

  lemma {:induction false} WritesOfSeed(seed: Records, group: seq<Collection>, n: nat, c: Collection, i: nat)
    requires n <= |group| && c in group[..n] && i < |Items(seed, c)|
    ensures Writes(WritesUpTo(seed, group, n), c, Items(seed, c)[i].key)
  {
    var before, own := WritesUpTo(seed, group, n - 1), WritesOfCollection(group[n - 1], Items(seed, group[n - 1]));
    var all := WritesUpTo(seed, group, n);
    if group[n - 1] == c {
      assert all[|before| + i] == own[i] == Write(c, Items(seed, c)[i]);
    } else {
      WritesOfSeed(seed, group, n - 1, c, i);
      var j :| 0 <= j < |before| && before[j].collection == c && before[j].item.key == Items(seed, c)[i].key;
      assert all[j] == before[j];
    }
  }

  /** A repository that was filled completely is the one the next restart uses, for the same snapshot. */
  lemma FilledRepositoryIsUsed(repository: Records, seed: Records, group: seq<Collection>)
    requires HasPersistedRecords(seed, group)
    ensures ShouldUsePersisted(Apply(repository, WritesOf(seed, group)), seed, group)
  {
    hide WritesUpTo, Apply, Writes;
    var r := Apply(repository, WritesOf(seed, group));
    assert group[..|group|] == group;
    forall c | c in group
      ensures ContainsAllByKey(Items(r, c), Items(seed, c))
    {
      forall i | 0 <= i < |Items(seed, c)|
        ensures HasKey(Items(r, c), Items(seed, c)[i].key)
      {
        WritesOfSeed(seed, group, |group|, c, i);
        KeysAfterWrites(repository, WritesOf(seed, group), c, Items(seed, c)[i].key);
      }
    }
    var c :| c in group && Items(seed, c) != [];
    assert HasKey(Items(r, c), Items(seed, c)[0].key);
  }

  ghost predicate UniqueKeys(seed: Records) {
    forall c, i, j :: 0 <= i < j < |Items(seed, c)| ==> Items(seed, c)[i].key != Items(seed, c)[j].key
  }

  lemma {:induction false} UpsertNew(items: seq<Item>, item: Item)
    requires forall i :: 0 <= i < |items| ==> items[i].key != item.key
    ensures UpsertItem(items, item) == items + [item]
  {
    if items != [] {
      UpsertNew(items[1..], item);
      assert items == [items[0]] + items[1..];
    }
  }

  lemma OneMoreCopied(before: Records, c: Collection, items: seq<Item>, n: nat, d: Collection)
    requires n < |items| && Items(before, c) == items[..n]
    requires forall i, j :: 0 <= i < j < |items| ==> items[i].key != items[j].key
    ensures Items(Upsert(before, Write(c, items[n])), d) == if d == c then items[..n + 1] else Items(before, d)
  {
    UpsertNew(items[..n], items[n]);
    assert items[..n + 1] == items[..n] + [items[n]];
    hide UpsertItem;
  }

  /** Writing a collection whose keys are distinct into an empty one copies it. */
  lemma {:induction false} CollectionIsCopied(repository: Records, c: Collection, items: seq<Item>, n: nat, d: Collection)
    requires n <= |items| && Items(repository, c) == []
    requires forall i, j :: 0 <= i < j < |items| ==> items[i].key != items[j].key
    ensures Items(Apply(repository, WritesOfCollection(c, items)[..n]), d) == if d == c then items[..n] else Items(repository, d)
  {
    var ws := WritesOfCollection(c, items);
    if n == 0 {
      assert ws[..0] == [] && items[..0] == [];
    } else {
      hide Apply, Upsert, Items;
      CollectionIsCopied(repository, c, items, n - 1, c);
      CollectionIsCopied(repository, c, items, n - 1, d);
      OneMoreWrite(repository, ws, n - 1);
      OneMoreCopied(Apply(repository, ws[..n - 1]), c, items, n - 1, d);
    }
  }

  lemma WholeCollectionIsCopied(repository: Records, seed: Records, c: Collection, d: Collection)
    requires UniqueKeys(seed) && Items(repository, c) == []
    ensures Items(Apply(repository, WritesOfCollection(c, Items(seed, c))), d) == Items(if d == c then seed else repository, d)
  {
    hide Apply, Items;
    var ws, items := WritesOfCollection(c, Items(seed, c)), Items(seed, c);
    assert ws[..|ws|] == ws && items[..|items|] == items;
    CollectionIsCopied(repository, c, items, |items|, d);
  }

  lemma {:induction false} CollectionsAreCopied(repository: Records, seed: Records, group: seq<Collection>, n: nat, c: Collection)
    requires n <= |group| && UniqueKeys(seed) && !HasPersistedRecords(repository, group)
    requires forall i, j :: 0 <= i < j < |group| ==> group[i] != group[j]
    ensures Items(Apply(repository, WritesUpTo(seed, group, n)), c) == Items(if c in group[..n] then seed else repository, c)
  {
    hide Items, Upsert, UniqueKeys;
    if n > 0 {
      var own, before := group[n - 1], WritesUpTo(seed, group, n - 1);
      assert own in group && own !in group[..n - 1];
      assert group[..n] == group[..n - 1] + [own];
      CollectionsAreCopied(repository, seed, group, n - 1, c);
      CollectionsAreCopied(repository, seed, group, n - 1, own);
      ApplyConcat(repository, before, WritesOfCollection(own, Items(seed, own)));
      WholeCollectionIsCopied(Apply(repository, before), seed, own, c);
      hide Apply;
    }
  }

  /** A repository filled completely holds exactly the snapshot's collections of the group, in their order, and what it held of others. */
  lemma FillingCopiesSnapshot(repository: Records, seed: Records, group: seq<Collection>, c: Collection)
    requires UniqueKeys(seed) && !HasPersistedRecords(repository, group)
    requires forall i, j :: 0 <= i < j < |group| ==> group[i] != group[j]
    ensures Items(Apply(repository, WritesOf(seed, group)), c) == Items(if c in group then seed else repository, c)
  {
    assert group[..|group|] == group;
    CollectionsAreCopied(repository, seed, group, |group|, c);
  }

  predicate SameTarget(x: Write, y: Write) {
    x.collection == y.collection && x.item.key == y.item.key
  }

  lemma DistinctTargetsTogether(before: seq<Write>, own: seq<Write>)
    requires forall i, j :: 0 <= i < j < |before| ==> !SameTarget(before[i], before[j])
    requires forall i, j :: 0 <= i < j < |own| ==> !SameTarget(own[i], own[j])
    requires forall i, j :: 0 <= i < |before| && 0 <= j < |own| ==> !SameTarget(before[i], own[j])
    ensures forall i, j :: 0 <= i < j < |before + own| ==> !SameTarget((before + own)[i], (before + own)[j])
  {
    hide SameTarget;
  }

  lemma {:induction false} WritesAreDistinct(seed: Records, group: seq<Collection>, n: nat)
    requires n <= |group| && UniqueKeys(seed) && forall i, j :: 0 <= i < j < |group| ==> group[i] != group[j]
    ensures var ws := WritesUpTo(seed, group, n);
      && (forall w :: w in ws ==> w.collection in group[..n] && w.item in Items(seed, w.collection))
      && (forall i, j :: 0 <= i < j < |ws| ==> !SameTarget(ws[i], ws[j]))
  {
    if n > 0 {
      WritesAreDistinct(seed, group, n - 1);
      var before, own := WritesUpTo(seed, group, n - 1), WritesOfCollection(group[n - 1], Items(seed, group[n - 1]));
      forall i, j | 0 <= i < |before| && 0 <= j < |own|
        ensures !SameTarget(before[i], own[j])
      {
        assert before[i] in before && own[j].collection == group[n - 1];
      }
      DistinctTargetsTogether(before, own);
    }
  }

  /**
    A filling that stopped in the middle leaves a repository that the next restart from the same
    snapshot neither uses, since records of the snapshot are missing, nor fills again, since it
    is not empty. Only what the running program writes later can still complete it.
   */
  lemma PartialFillingIsStuck(repository: Records, seed: Records, group: seq<Collection>, n: nat)
    requires UniqueKeys(seed) && forall i, j :: 0 <= i < j < |group| ==> group[i] != group[j]
    requires !HasPersistedRecords(repository, group) && 0 < n < |WritesOf(seed, group)|
    ensures var r := Apply(repository, WritesOf(seed, group)[..n]);
      HasPersistedRecords(r, group) && !ShouldUsePersisted(r, seed, group)
  {
    WritesAreDistinct(seed, group, |group|);
    assert group[..|group|] == group;
    var all := WritesOf(seed, group);
    var r := Apply(repository, all[..n]);
    hide WritesUpTo, Apply, UniqueKeys;
    var first, missing := all[0], all[n];
    assert all[..n][0] == first;
    assert Writes(all[..n], first.collection, first.item.key);
    KeysAfterWrites(repository, all[..n], first.collection, first.item.key);
    assert first in all && missing in all;
    KeysAfterWrites(repository, all[..n], missing.collection, missing.item.key);
    assert !Writes(all[..n], missing.collection, missing.item.key) by {
      forall i | 0 <= i < n
        ensures !(all[..n][i].collection == missing.collection && all[..n][i].item.key == missing.item.key)
      {
        assert !SameTarget(all[i], all[n]);
      }
    }
  }

  lemma {:induction false} NothingToWrite(seed: Records, group: seq<Collection>, n: nat)
    requires n <= |group| && forall i :: 0 <= i < |group| ==> |Items(seed, group[i])| == 0
    ensures |WritesUpTo(seed, group, n)| == 0
  {
    hide Items;
    if n > 0 {
      NothingToWrite(seed, group, n - 1);
    }
  }

  lemma SomethingWritten(seed: Records, group: seq<Collection>)
    requires WritesOf(seed, group) != []
    ensures HasPersistedRecords(seed, group)
  {
    if !HasPersistedRecords(seed, group) {
      assert forall i :: 0 <= i < |group| ==> group[i] in group;
      NothingToWrite(seed, group, |group|);
    }
  }
}
