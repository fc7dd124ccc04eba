/**
  Merging Microsoft Graph delta changes into a cached collection, and what the merge means:
  set and delete on a map from object id to record.
 */
module GraphDelta {
  import opened Wrappers

  /** A directory object. `removed` is the `@removed` marker; the other properties are opaque. */
  datatype Record = Record(id: Option<string>, removed: bool, attributes: map<string, string>)

  /** An absent id and an empty id are both falsy. */
  predicate HasId(r: Record) {
    r.id.Some? && r.id.value != ""
  }

  predicate IsGraphTombstone(r: Record) {
    r.removed
  }

  /** A tombstone laid over the record it deletes: its own properties win, the others stay. */
  function Spread(previous: Record, change: Record): Record {
    change.(attributes := previous.attributes + change.attributes)
  }

  // ---------------------------------------------------------------- insertion-ordered map by id

  /** Map entries in insertion order: records with pairwise distinct ids. */
  ghost predicate IsEntries(entries: seq<Record>) {
    && (forall i :: 0 <= i < |entries| ==> HasId(entries[i]))
    && forall i, j :: 0 <= i < j < |entries| ==> entries[i].id != entries[j].id
  }

  function Find(entries: seq<Record>, id: Option<string>): (r: Option<Record>)
    ensures r.Some? ==> r.value in entries && r.value.id == id
    ensures r.None? ==> forall e :: e in entries ==> e.id != id
  {
    if entries == [] then None
    else if entries[0].id == id then Some(entries[0])
    else Find(entries[1..], id)
  }

  function Put(entries: seq<Record>, r: Record): seq<Record> {
    if entries == [] then [r]
    else if entries[0].id == r.id then [r] + entries[1..]
    else [entries[0]] + Put(entries[1..], r)
  }

  /** The cached records by id: those without an id are skipped, and the last one of an id wins. */
  function IndexFrom(entries: seq<Record>, values: seq<Record>): seq<Record>
    decreases |values|
  {
    if values == [] then entries
    else IndexFrom(if HasId(values[0]) then Put(entries, values[0]) else entries, values[1..])
  }

  function Anonymous(values: seq<Record>): seq<Record> {
    if values == [] then []
    else (if HasId(values[0]) then [] else [values[0]]) + Anonymous(values[1..])
  }

  function Merged(previous: Option<Record>, change: Record): Record {
    if IsGraphTombstone(change) && previous.Some? then Spread(previous.value, change) else change
  }

  function MergeAll(entries: seq<Record>, changes: seq<Record>): seq<Record>
    decreases |changes|
  {
    if changes == [] then entries
    else
      var c := changes[0];
      MergeAll(if HasId(c) then Put(entries, Merged(Find(entries, c.id), c)) else entries, changes[1..])
  }

  function Identified(values: seq<Record>): seq<Record> {
    IndexFrom([], values)
  }

  /** What applying changes computes: records without an id first, then the entries. */
  function Apply(cached: seq<Record>, changes: seq<Record>): seq<Record> {
    Anonymous(cached) + Anonymous(changes) + MergeAll(Identified(cached), changes)
  }

  lemma AnonymousConcat(a: seq<Record>, b: seq<Record>)
    ensures Anonymous(a + b) == Anonymous(a) + Anonymous(b)
  {
    if a == [] {
      assert a + b == b;
    } else {
      assert (a + b)[1..] == a[1..] + b;
      AnonymousConcat(a[1..], b);
    }
  }

  lemma MergeAllConcat(entries: seq<Record>, x: seq<Record>, y: seq<Record>)
    ensures MergeAll(entries, x + y) == MergeAll(MergeAll(entries, x), y)
    decreases |x|
  {
    if x == [] {
      assert x + y == y;
    } else {
      assert (x + y)[1..] == x[1..] + y;
      var c := x[0];
      MergeAllConcat(if HasId(c) then Put(entries, Merged(Find(entries, c.id), c)) else entries, x[1..], y);
    }
  }

  lemma IndexFromConcat(entries: seq<Record>, x: seq<Record>, y: seq<Record>)
    ensures IndexFrom(entries, x + y) == IndexFrom(IndexFrom(entries, x), y)
    decreases |x|
  {
    if x == [] {
      assert x + y == y;
    } else {
      assert (x + y)[1..] == x[1..] + y;
      IndexFromConcat(if HasId(x[0]) then Put(entries, x[0]) else entries, x[1..], y);
    }
  }

  /** The merge loop over a cached collection. */
  method ApplyGraphDeltaChanges(cachedValues: seq<Record>, changes: seq<Record>) returns (values: seq<Record>)
    ensures values == Apply(cachedValues, changes)
  {
    var byId: seq<Record> := [];
    var anonymousValues: seq<Record> := [];
    for i := 0 to |cachedValues|
      invariant byId == IndexFrom([], cachedValues[..i])
      invariant anonymousValues == Anonymous(cachedValues[..i])
    {
      var value := cachedValues[i];
      assert cachedValues[..i + 1] == cachedValues[..i] + [value];
      IndexFromConcat([], cachedValues[..i], [value]);
      AnonymousConcat(cachedValues[..i], [value]);
      if HasId(value) {
        byId := Put(byId, value);
      } else {
        anonymousValues := anonymousValues + [value];
      }
    }
    assert cachedValues[..|cachedValues|] == cachedValues;

    for i := 0 to |changes|
      invariant byId == MergeAll(Identified(cachedValues), changes[..i])
      invariant anonymousValues == Anonymous(cachedValues) + Anonymous(changes[..i])
    {
      var change := changes[i];
      assert changes[..i + 1] == changes[..i] + [change];
      MergeAllConcat(Identified(cachedValues), changes[..i], [change]);
      AnonymousConcat(changes[..i], [change]);
      if !HasId(change) {
        anonymousValues := anonymousValues + [change];
        continue;
      }
      var previous := Find(byId, change.id);
      byId := Put(byId, if IsGraphTombstone(change) && previous.Some? then Spread(previous.value, change) else change);
    }
    assert changes[..|changes|] == changes;
    values := anonymousValues + byId;
  }

  // ---------------------------------------------------------------- entries

  ghost function Ids(values: seq<Record>): set<Option<string>> {
    set i | 0 <= i < |values| && HasId(values[i]) :: values[i].id
  }

  lemma {:induction false} PutFind(entries: seq<Record>, r: Record, id: Option<string>)
    ensures Find(Put(entries, r), id) == if id == r.id then Some(r) else Find(entries, id)
  {
    if entries != [] && entries[0].id != r.id {
      PutFind(entries[1..], r, id);
    }
  }

  lemma {:induction false} PutIds(entries: seq<Record>, r: Record)
    requires HasId(r)
    ensures Ids(Put(entries, r)) == Ids(entries) + {r.id}
  {
    if entries == [] {
      IdsCons(r, []);
    } else {
      assert entries == [entries[0]] + entries[1..];
      IdsCons(entries[0], entries[1..]);
      if entries[0].id == r.id {
        IdsCons(r, entries[1..]);
      } else {
        PutIds(entries[1..], r);
        IdsCons(entries[0], Put(entries[1..], r));
      }
    }
  }

  function IdsOf(entries: seq<Record>): (r: seq<Option<string>>)
    ensures |r| == |entries| && forall i :: 0 <= i < |entries| ==> r[i] == entries[i].id
  {
    if entries == [] then [] else [entries[0].id] + IdsOf(entries[1..])
  }

  /** Added at the end, unless it is there. */
  function AddNew<T(==)>(ids: seq<T>, id: T): seq<T> {
    if id in ids then ids else ids + [id]
  }

  lemma AddNewCons<T>(head: T, ids: seq<T>, id: T)
    ensures AddNew([head] + ids, id) == if head == id then [head] + ids else [head] + AddNew(ids, id)
  {
    assert ([head] + ids)[0] == head;
    assert [head] + (ids + [id]) == [head] + ids + [id];
    if id in ids {
      var i :| 0 <= i < |ids| && ids[i] == id;
      assert ([head] + ids)[i + 1] == id;
    }
  }

  lemma {:induction false} PutIdsOf(entries: seq<Record>, r: Record)
    ensures IdsOf(Put(entries, r)) == AddNew(IdsOf(entries), r.id)
  {
    if entries != [] {
      AddNewCons(entries[0].id, IdsOf(entries[1..]), r.id);
      PutIdsOf(entries[1..], r);
      hide AddNew;
    }
  }

  lemma PutKeepsOrder(entries: seq<Record>, r: Record)
    requires IsEntries(entries) && HasId(r)
    ensures IsEntries(Put(entries, r))
    ensures |Put(entries, r)| == if r.id in Ids(entries) then |entries| else |entries| + 1
    ensures forall i :: 0 <= i < |entries| ==> Put(entries, r)[i].id == entries[i].id
  {
    PutIdsOf(entries, r);
    hide Put, IdsOf, HasId;
    var ids, after := IdsOf(entries), Put(entries, r);
    assert r.id in Ids(entries) <==> r.id in ids by {
      forall i | 0 <= i < |entries|
        ensures HasId(entries[i]) && ids[i] == entries[i].id
      {
      }
    }
    hide Ids;
    SameIdHasId(entries, r);
    forall i | 0 <= i < |after|
      ensures after[i].id == if i < |entries| then ids[i] else r.id
    {
      assert IdsOf(after)[i] == after[i].id;
    }
  }

  lemma SameIdHasId(entries: seq<Record>, r: Record)
    requires HasId(r) && forall i :: 0 <= i < |entries| ==> HasId(entries[i])
    ensures forall x: Record, i :: 0 <= i < |entries| && x.id == entries[i].id ==> HasId(x)
    ensures forall x: Record :: x.id == r.id ==> HasId(x)
  {
  }

  lemma PutEntries(entries: seq<Record>, r: Record)
    requires IsEntries(entries) && HasId(r)
    ensures IsEntries(Put(entries, r))
    ensures Ids(Put(entries, r)) == Ids(entries) + {r.id}
    ensures |Put(entries, r)| == if r.id in Ids(entries) then |entries| else |entries| + 1
    ensures forall i :: 0 <= i < |entries| ==> Put(entries, r)[i].id == entries[i].id
    ensures forall id :: Find(Put(entries, r), id) == if id == r.id then Some(r) else Find(entries, id)
  {
    PutIds(entries, r);
    PutKeepsOrder(entries, r);
    forall id
      ensures Find(Put(entries, r), id) == if id == r.id then Some(r) else Find(entries, id)
    {
      PutFind(entries, r, id);
    }
  }

  lemma IdsCons(r: Record, rest: seq<Record>)
    ensures Ids([r] + rest) == (if HasId(r) then {r.id} else {}) + Ids(rest)
  {
    var all := [r] + rest;
    forall id | id in Ids(rest)
      ensures id in Ids(all)
    {
      var i :| 0 <= i < |rest| && HasId(rest[i]) && rest[i].id == id;
      assert all[i + 1] == rest[i];
    }
    if HasId(r) {
      assert all[0] == r;
    }
  }

  lemma {:induction false} MergeAllEntries(entries: seq<Record>, changes: seq<Record>)
    requires IsEntries(entries)
    ensures IsEntries(MergeAll(entries, changes))
    ensures Ids(MergeAll(entries, changes)) == Ids(entries) + Ids(changes)
    ensures |MergeAll(entries, changes)| >= |entries|
    ensures forall i :: 0 <= i < |entries| ==> MergeAll(entries, changes)[i].id == entries[i].id
    ensures Ids(changes) <= Ids(entries) ==> |MergeAll(entries, changes)| == |entries|
    decreases |changes|
  {
    if changes != [] {
      var c := changes[0];
      assert changes == [c] + changes[1..];
      IdsCons(c, changes[1..]);
      if HasId(c) {
        var r := Merged(Find(entries, c.id), c);
        PutEntries(entries, r);
        MergeAllEntries(Put(entries, r), changes[1..]);
      } else {
        MergeAllEntries(entries, changes[1..]);
      }
    }
  }

  lemma {:induction false} IndexFromEntries(entries: seq<Record>, values: seq<Record>)
    requires IsEntries(entries)
    ensures IsEntries(IndexFrom(entries, values))
    ensures Ids(IndexFrom(entries, values)) == Ids(entries) + Ids(values)
    decreases |values|
  {
    if values != [] {
      assert values == [values[0]] + values[1..];
      IdsCons(values[0], values[1..]);
      if HasId(values[0]) {
        PutEntries(entries, values[0]);
        IndexFromEntries(Put(entries, values[0]), values[1..]);
      } else {
        IndexFromEntries(entries, values[1..]);
      }
    }
  }

  lemma {:induction false} PutNew(entries: seq<Record>, r: Record)
    requires forall e :: e in entries ==> e.id != r.id
    ensures Put(entries, r) == entries + [r]
  {
    if entries != [] {
      PutNew(entries[1..], r);
    }
  }

  /** Indexing entries gives them back in the same order. */
  lemma {:induction false} IndexOfEntries(done: seq<Record>, todo: seq<Record>)
    requires IsEntries(done + todo)
    ensures IndexFrom(done, todo) == done + todo
    decreases |todo|
  {
    if todo != [] {
      var all := done + todo;
      assert all[|done|] == todo[0];
      forall e | e in done
        ensures e.id != todo[0].id
      {
        var i :| 0 <= i < |done| && done[i] == e;
        assert all[i] == e;
      }
      PutNew(done, todo[0]);
      assert (done + [todo[0]]) + todo[1..] == all;
      IndexOfEntries(done + [todo[0]], todo[1..]);
    }
  }

  lemma {:induction false} IndexSkipsAnonymous(entries: seq<Record>, values: seq<Record>)
    requires forall v :: v in values ==> !HasId(v)
    ensures IndexFrom(entries, values) == entries
    ensures Anonymous(values) == values
    decreases |values|
  {
    if values != [] {
      IndexSkipsAnonymous(entries, values[1..]);
    }
  }

  lemma {:induction false} AnonymousHaveNoId(values: seq<Record>)
    ensures forall v :: v in Anonymous(values) ==> !HasId(v)
  {
    if values != [] {
      AnonymousHaveNoId(values[1..]);
    }
  }

  lemma {:induction false} AnonymousOfEntries(entries: seq<Record>)
    requires forall e :: e in entries ==> HasId(e)
    ensures Anonymous(entries) == []
  {
    if entries != [] {
      AnonymousOfEntries(entries[1..]);
    }
  }

  /** An applied collection splits back into its two parts. */
  lemma ApplyParts(cached: seq<Record>, changes: seq<Record>)
    ensures Anonymous(Apply(cached, changes)) == Anonymous(cached) + Anonymous(changes)
    ensures Identified(Apply(cached, changes)) == MergeAll(Identified(cached), changes)
    ensures IsEntries(Identified(cached)) && IsEntries(MergeAll(Identified(cached), changes))
  {
    IndexFromEntries([], cached);
    MergeAllEntries(Identified(cached), changes);
    AnonymousHaveNoId(cached);
    AnonymousHaveNoId(changes);
    SplitParts(Anonymous(cached) + Anonymous(changes), MergeAll(Identified(cached), changes));
  }

  lemma SplitParts(anonymous: seq<Record>, entries: seq<Record>)
    requires IsEntries(entries) && forall v :: v in anonymous ==> !HasId(v)
    ensures Anonymous(anonymous + entries) == anonymous
    ensures Identified(anonymous + entries) == entries
  {
    IndexSkipsAnonymous([], anonymous);
    IndexFromConcat([], anonymous, entries);
    assert [] + entries == entries;
    IndexOfEntries([], entries);
    AnonymousConcat(anonymous, entries);
    AnonymousOfEntries(entries);
  }

  // ---------------------------------------------------------------- main results

  /** Applying `x` and then `y` is applying `x` followed by `y`: same records, same order. */
  lemma ApplyIsAnAction(cached: seq<Record>, x: seq<Record>, y: seq<Record>)
    ensures Apply(Apply(cached, x), y) == Apply(cached, x + y)
  {
    ApplyParts(cached, x);
    MergeAllConcat(Identified(cached), x, y);
    AnonymousConcat(x, y);
    hide Anonymous, Identified, MergeAll;
    assert Anonymous(cached) + (Anonymous(x) + Anonymous(y)) == Anonymous(cached) + Anonymous(x) + Anonymous(y);
  }

  /** No id ever disappears and none is invented. */
  lemma ApplyKeepsIds(cached: seq<Record>, changes: seq<Record>)
    ensures Ids(Identified(Apply(cached, changes))) == Ids(cached) + Ids(changes)
  {
    ApplyParts(cached, changes);
    IndexFromEntries([], cached);
    MergeAllEntries(Identified(cached), changes);
    assert Ids([]) == {};
  }

  /** The changes to one id, and what they make of its record. */
  function ValueAfter(previous: Option<Record>, id: Option<string>, changes: seq<Record>): Option<Record>
    decreases |changes|
  {
    if changes == [] then previous
    else if HasId(changes[0]) && changes[0].id == id then
      ValueAfter(Some(Merged(previous, changes[0])), id, changes[1..])
    else ValueAfter(previous, id, changes[1..])
  }

  lemma {:induction false} FindAfterMerge(entries: seq<Record>, changes: seq<Record>, id: Option<string>)
    requires IsEntries(entries)
    ensures Find(MergeAll(entries, changes), id) == ValueAfter(Find(entries, id), id, changes)
    decreases |changes|
  {
    if changes != [] {
      var c := changes[0];
      if HasId(c) {
        var r := Merged(Find(entries, c.id), c);
        PutEntries(entries, r);
        FindAfterMerge(Put(entries, r), changes[1..], id);
      } else {
        FindAfterMerge(entries, changes[1..], id);
      }
    }
  }

  /** What a batch does to the record of one id, whatever that record was. */
  datatype Effect =
    | Keep
    | Replace(r: Record)
    | Patch(r: Record)

  function Act(e: Effect, previous: Option<Record>): Option<Record> {
    match e
    case Keep => previous
    case Replace(r) => Some(r)
    case Patch(r) => Some(if previous.Some? then Spread(previous.value, r) else r)
  }

  function Then(e: Effect, change: Record): Effect {
    if !IsGraphTombstone(change) then Replace(change)
    else
      match e
      case Keep => Patch(change)
      case Replace(r) => Replace(Spread(r, change))
      case Patch(r) => Patch(Spread(r, change))
  }

  function EffectFrom(e: Effect, id: Option<string>, changes: seq<Record>): Effect
    decreases |changes|
  {
    if changes == [] then e
    else EffectFrom(if HasId(changes[0]) && changes[0].id == id then Then(e, changes[0]) else e, id, changes[1..])
  }

  lemma {:induction false} EffectIsValue(e: Effect, previous: Option<Record>, id: Option<string>, changes: seq<Record>)
    ensures Act(EffectFrom(e, id, changes), previous) == ValueAfter(Act(e, previous), id, changes)
    decreases |changes|
  {
    if changes != [] {
      var c := changes[0];
      if HasId(c) && c.id == id {
        ThenIsMerged(e, previous, c);
        EffectIsValue(Then(e, c), previous, id, changes[1..]);
      } else {
        EffectIsValue(e, previous, id, changes[1..]);
      }
    }
  }

  lemma ThenIsMerged(e: Effect, previous: Option<Record>, change: Record)
    ensures Act(Then(e, change), previous) == Some(Merged(Act(e, previous), change))
  {
    if e.Patch? && previous.Some? && IsGraphTombstone(change) {
      var p := previous.value.attributes;
      assert p + (e.r.attributes + change.attributes) == (p + e.r.attributes) + change.attributes;
    }
  }

  lemma ActTwice(e: Effect, previous: Option<Record>)
    ensures Act(e, Act(e, previous)) == Act(e, previous)
  {
    if e.Patch? {
      var a := e.r.attributes;
      assert a + a == a;
      if previous.Some? {
        var p := previous.value.attributes;
        assert (p + a) + a == p + a;
      }
    }
  }

  lemma {:induction false} FindAt(entries: seq<Record>, i: nat)
    requires IsEntries(entries) && i < |entries|
    ensures Find(entries, entries[i].id) == Some(entries[i])
  {
    if i > 0 {
      assert entries[0].id != entries[i].id;
      FindAt(entries[1..], i - 1);
    }
  }

  /** Re-applying a batch changes nothing in the records that have an id. */
  lemma ReapplyIsIdentity(cached: seq<Record>, changes: seq<Record>)
    ensures Identified(Apply(Apply(cached, changes), changes)) == Identified(Apply(cached, changes))
  {
    var start := Identified(cached);
    var once := MergeAll(start, changes);
    var twice := MergeAll(once, changes);
    ApplyParts(cached, changes);
    ApplyParts(Apply(cached, changes), changes);
    MergeAllEntries(start, changes);
    MergeAllEntries(once, changes);
    forall i | 0 <= i < |once|
      ensures once[i] == twice[i]
    {
      var id := once[i].id;
      FindAt(once, i);
      FindAt(twice, i);
      FindAfterMerge(start, changes, id);
      FindAfterMerge(once, changes, id);
      EffectIsValue(Keep, Find(start, id), id, changes);
      EffectIsValue(Keep, Find(once, id), id, changes);
      ActTwice(EffectFrom(Keep, id, changes), Find(start, id));
    }
  }

  /**
    What one change makes of the record with its id. A tombstone keeps the properties of the
    record it deletes that it does not carry itself; any other change replaces the record. No
    other id changes.
   */
  lemma ChangeOfOneRecord(cached: seq<Record>, change: Record, id: Option<string>)
    requires HasId(change)
    ensures var before, after := Find(Identified(cached), id), Find(Identified(Apply(cached, [change])), id);
      if id != change.id then after == before
      else
        && after.Some? && after.value.id == change.id && after.value.removed == change.removed
        && forall name :: PropertyOf(after, name) ==
             if name in change.attributes || !change.removed then PropertyOf(Some(change), name) else PropertyOf(before, name)
  {
    ApplyParts(cached, [change]);
    FindAfterMerge(Identified(cached), [change], id);
    assert [change][1..] == [];
  }

  function PropertyOf(r: Option<Record>, name: string): Option<string> {
    if r.Some? && name in r.value.attributes then Some(r.value.attributes[name]) else None
  }

  /** The ids of `values` that are not yet among `ids`, each where it is first seen. */
  function FirstSeen(ids: seq<Option<string>>, values: seq<Record>): seq<Option<string>>
    decreases |values|
  {
    if values == [] then ids
    else FirstSeen(if HasId(values[0]) then AddNew(ids, values[0].id) else ids, values[1..])
  }

  lemma {:induction false} IndexIdsOf(entries: seq<Record>, values: seq<Record>)
    ensures IdsOf(IndexFrom(entries, values)) == FirstSeen(IdsOf(entries), values)
    decreases |values|
  {
    if values != [] {
      PutIdsOf(entries, values[0]);
      IndexIdsOf(if HasId(values[0]) then Put(entries, values[0]) else entries, values[1..]);
    }
  }

  lemma {:induction false} MergeIdsOf(entries: seq<Record>, changes: seq<Record>)
    ensures IdsOf(MergeAll(entries, changes)) == FirstSeen(IdsOf(entries), changes)
    decreases |changes|
  {
    if changes != [] {
      var c := changes[0];
      var r := Merged(Find(entries, c.id), c);
      assert r.id == c.id;
      PutIdsOf(entries, r);
      MergeIdsOf(if HasId(c) then Put(entries, r) else entries, changes[1..]);
    }
  }

  /** Applying changes keeps the order: the records without an id first, cached ones before new ones, then one record per id where it was first seen. */
  lemma ApplyKeepsOrder(cached: seq<Record>, changes: seq<Record>)
    ensures var r := Apply(cached, changes);
      var n := |Anonymous(cached)| + |Anonymous(changes)|;
      && n <= |r| && r[..n] == Anonymous(cached) + Anonymous(changes)
      && IdsOf(r[n..]) == FirstSeen(FirstSeen([], cached), changes)
      && forall i :: 0 <= i < |r| ==> (HasId(r[i]) <==> n <= i)
  {
    var entries := MergeAll(Identified(cached), changes);
    ApplyParts(cached, changes);
    IndexIdsOf([], cached);
    MergeIdsOf(Identified(cached), changes);
    AnonymousHaveNoId(cached);
    AnonymousHaveNoId(changes);
    assert IdsOf([]) == [];
    hide Anonymous, MergeAll, Identified, FirstSeen;
    var anonymous := Anonymous(cached) + Anonymous(changes);
    var r := Apply(cached, changes);
    assert r == anonymous + entries;
    forall i | 0 <= i < |r|
      ensures HasId(r[i]) <==> |anonymous| <= i
    {
      if i < |anonymous| {
        assert r[i] in anonymous;
      }
    }
  }

  // ---------------------------------------------------------------- the live directory

  /** The objects that exist, by id. */
  type Directory = map<string, Record>

  function ReplayOne(m: Directory, r: Record): Directory {
    if !HasId(r) then m
    else if IsGraphTombstone(r) then m - {r.id.value}
    else m[r.id.value := r]
  }

  /** Plain set and delete, one record at a time. */
  function Replay(m: Directory, values: seq<Record>): Directory
    decreases |values|
  {
    if values == [] then m else Replay(ReplayOne(m, values[0]), values[1..])
  }

  function Live(values: seq<Record>): Directory {
    Replay(map[], values)
  }

  lemma ReplayConcat(m: Directory, x: seq<Record>, y: seq<Record>)
    ensures Replay(m, x + y) == Replay(Replay(m, x), y)
    decreases |x|
  {
    if x == [] {
      assert x + y == y;
    } else {
      assert (x + y)[1..] == x[1..] + y;
      ReplayConcat(ReplayOne(m, x[0]), x[1..], y);
    }
  }

  /** The entries that are not tombstones are exactly the directory. */
  ghost predicate Shows(entries: seq<Record>, m: Directory) {
    forall id: string ::
      var r := Find(entries, Some(id));
      (id in m <==> r.Some? && !r.value.removed) && (id in m ==> m[id] == r.value)
  }

  lemma ShowsPut(entries: seq<Record>, m: Directory, r: Record, stored: Record)
    requires IsEntries(entries) && Shows(entries, m) && HasId(r)
    requires stored == r || (r.removed && stored.removed && stored.id == r.id)
    ensures Shows(Put(entries, stored), ReplayOne(m, r))
  {
    PutEntries(entries, stored);
    var id := r.id.value;
    assert r.id == Some(id);
    forall k: string
      ensures Find(Put(entries, stored), Some(k)) == if k == id then Some(stored) else Find(entries, Some(k))
    {
    }
  }

  lemma {:induction false} ShowsIndex(entries: seq<Record>, m: Directory, values: seq<Record>)
    requires IsEntries(entries) && Shows(entries, m)
    ensures Shows(IndexFrom(entries, values), Replay(m, values))
    decreases |values|
  {
    if values != [] {
      var v := values[0];
      if HasId(v) {
        PutEntries(entries, v);
        ShowsPut(entries, m, v, v);
        ShowsIndex(Put(entries, v), ReplayOne(m, v), values[1..]);
      } else {
        ShowsIndex(entries, m, values[1..]);
      }
    }
  }

  lemma {:induction false} ShowsMerge(entries: seq<Record>, m: Directory, changes: seq<Record>)
    requires IsEntries(entries) && Shows(entries, m)
    ensures Shows(MergeAll(entries, changes), Replay(m, changes))
    decreases |changes|
  {
    if changes != [] {
      var c := changes[0];
      if HasId(c) {
        var r := Merged(Find(entries, c.id), c);
        PutEntries(entries, r);
        ShowsPut(entries, m, c, r);
        ShowsMerge(Put(entries, r), ReplayOne(m, c), changes[1..]);
      } else {
        ShowsMerge(entries, m, changes[1..]);
      }
    }
  }

  /** The live part of a merged collection is plain set and delete on the live part of the cache. */
  lemma LiveOfApply(cached: seq<Record>, changes: seq<Record>)
    ensures Live(Apply(cached, changes)) == Replay(Live(cached), changes)
  {
    var entries := MergeAll(Identified(cached), changes);
    ApplyParts(cached, changes);
    assert Shows([], map[]);
    ShowsIndex([], map[], cached);
    ShowsMerge(Identified(cached), Live(cached), changes);
    ShowsIndex([], map[], Apply(cached, changes));
    var a, b := Live(Apply(cached, changes)), Replay(Live(cached), changes);
    assert Shows(entries, a) && Shows(entries, b);
    assert forall id :: id in a <==> id in b;
  }
}
