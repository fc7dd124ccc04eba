/**
  A table of records by id in insertion order, looked up by idempotency key: the way plans
  and jobs are stored.
 */
module IdempotencyTable {
  import opened Wrappers

  datatype Row<+T> = Row(id: string, key: Option<string>, record: T)

  type Table<+T> = seq<Row<T>>

  /** One row per id, and no two rows with the same key. */
  ghost predicate WellFormed<T>(t: Table<T>) {
    forall i, j :: 0 <= i < j < |t| ==> t[i].id != t[j].id && (t[i].key.Some? ==> t[i].key != t[j].key)
  }

  function FindById<T>(t: Table<T>, id: string): (r: Option<Row<T>>)
    ensures r.Some? ==> r.value in t && r.value.id == id
    ensures r.None? ==> forall x :: x in t ==> x.id != id
  {
    if t == [] then None else if t[0].id == id then Some(t[0]) else FindById(t[1..], id)
  }

  /** The first row with the key. */
  function FindByKey<T>(t: Table<T>, key: string): (r: Option<Row<T>>)
    ensures r.Some? ==> r.value in t && r.value.key == Some(key)
    ensures r.None? ==> forall x :: x in t ==> x.key != Some(key)
  {
    if t == [] then None else if t[0].key == Some(key) then Some(t[0]) else FindByKey(t[1..], key)
  }

  /** Map set: replaces the row with the same id in place, or adds a row at the end. */
  function Put<T>(t: Table<T>, row: Row<T>): (r: Table<T>)
    ensures forall x :: x in r ==> x == row || x in t
    ensures row in r
  {
    if t == [] then [row]
    else if t[0].id == row.id then
      assert t == [t[0]] + t[1..];
      [row] + t[1..]
    else
      assert t == [t[0]] + t[1..];
      [t[0]] + Put(t[1..], row)
  }

  lemma {:induction false} FindByIdAfterPut<T>(t: Table<T>, row: Row<T>, id: string)
    ensures FindById(Put(t, row), id) == if id == row.id then Some(row) else FindById(t, id)
  {
    if t != [] && t[0].id != row.id {
      FindByIdAfterPut(t[1..], row, id);
    }
  }

  /** A row may be stored when its key is new or belongs to the row it replaces. */
  ghost predicate MayStore<T>(t: Table<T>, row: Row<T>) {
    row.key.Some? ==> forall x :: x in t && x.key == row.key ==> x.id == row.id
  }

  lemma {:induction false} PutKeepsWellFormed<T>(t: Table<T>, row: Row<T>)
    requires WellFormed(t) && MayStore(t, row)
    ensures WellFormed(Put(t, row))
  {
    if t != [] {
      assert t == [t[0]] + t[1..];
      if t[0].id == row.id {
        forall j | 1 <= j < |t|
          ensures t[j].id != row.id && (row.key.Some? ==> t[j].key != row.key)
        {
          assert t[j] in t;
        }
      } else {
        PutKeepsWellFormed(t[1..], row);
        var rest := Put(t[1..], row);
        forall j | 0 <= j < |rest|
          ensures rest[j].id != t[0].id && (t[0].key.Some? ==> rest[j].key != t[0].key)
        {
          assert rest[j] == row || rest[j] in t[1..];
          assert t[0] in t;
        }
      }
    }
  }

  /**
    What a key finds after a row was stored: the row itself under its own key, nothing when
    the row took over the id the key used to find, and otherwise what it found before.
   */
  lemma {:induction false} FindByKeyAfterPut<T>(t: Table<T>, row: Row<T>, key: string)
    requires WellFormed(t) && MayStore(t, row)
    ensures FindByKey(Put(t, row), key) ==
      if row.key == Some(key) then Some(row)
      else if FindByKey(t, key).Some? && FindByKey(t, key).value.id == row.id then None
      else FindByKey(t, key)
  {
    if t != [] {
      HeadIsUnique(t);
      assert MayStore(t[1..], row);
      hide WellFormed, MayStore;
      if t[0].id != row.id {
        FindByKeyAfterPut(t[1..], row, key);
      }
    }
  }

  lemma HeadIsUnique<T>(t: Table<T>)
    requires WellFormed(t) && t != []
    ensures WellFormed(t[1..]) && t[0] in t && forall x :: x in t[1..] ==> x in t
    ensures forall x :: x in t[1..] ==> x.id != t[0].id && (t[0].key.Some? ==> x.key != t[0].key)
  {
    forall x | x in t[1..]
      ensures x in t && x.id != t[0].id && (t[0].key.Some? ==> x.key != t[0].key)
    {
      var j :| 0 <= j < |t[1..]| && t[1..][j] == x;
      assert t[j + 1] == x;
    }
  }
}
