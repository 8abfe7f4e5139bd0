/**
 * The item table behind `ItemsRepository`, as Room keeps it: rows keyed by
 * an auto-generated primary key.  The DAO itself is not part of this model;
 * insertion follows Room's `autoGenerate` rule (an id of 0 means "assign
 * one") with the conflict strategy IGNORE, and update is Room's `@Update`
 * (overwrite the row with the same key, nothing when there is none).
 * The store is generic so that both item schemas of the app can use it.
 */
module Repository {
  import opened Wrappers

  function Max(a: int, b: int): int {
    if a < b then b else a
  }

  /** The rows after `@Update` of `row`, whose primary key is `id`. */
  function Updated<T>(rows: map<int, T>, id: int, row: T): (r: map<int, T>)
    ensures r.Keys == rows.Keys
    ensures id in rows ==> r[id] == row
    ensures forall k | k in rows && k != id :: r[k] == rows[k]
  {
    if id in rows then rows[id := row] else rows
  }

  class Store<T(!new)> {
    /** The primary key of a row, and the row with its key replaced. */
    const idOf: T -> int
    const withId: (T, int) -> T
    var rows: map<int, T>
    /** The largest key ever assigned (SQLite's `sqlite_sequence` entry). */
    var lastId: int

    ghost predicate Valid()
      reads this
    {
      && (forall t, k :: idOf(withId(t, k)) == k)
      && lastId >= 0
      && forall k | k in rows :: k != 0 && k <= lastId && idOf(rows[k]) == k
    }

    constructor (idOf: T -> int, withId: (T, int) -> T)
      requires forall t, k :: idOf(withId(t, k)) == k
      ensures Valid() && this.idOf == idOf && this.withId == withId
      ensures rows == map[] && lastId == 0
    {
      this.idOf := idOf;
      this.withId := withId;
      rows := map[];
      lastId := 0;
    }

    /** The table after inserting `item` into `rows0` whose sequence was `last0`. */
    ghost predicate Inserted(rows0: map<int, T>, last0: int, item: T)
      reads this
    {
      var id := idOf(item);
      if id == 0 then lastId == last0 + 1 && rows == rows0[lastId := withId(item, lastId)]
      else if id in rows0 then rows == rows0 && lastId == last0
      else rows == rows0[id := item] && lastId == Max(last0, id)
    }

    /** `insertItem`: a row with id 0 gets a fresh, positive, never used key;
        a row with a key of its own is stored under it unless that key is taken. */
    method Insert(item: T) returns (rowId: int)
      requires Valid()
      modifies this
      ensures Valid() && Inserted(old(rows), old(lastId), item)
      ensures idOf(item) == 0 ==> rowId > 0 && rowId !in old(rows) && rowId in rows && rows[rowId] == withId(item, rowId)
      ensures idOf(item) != 0 ==> rowId == if idOf(item) in old(rows) then -1 else idOf(item)
    {
      var id := idOf(item);
      if id == 0 {
        lastId := lastId + 1;
        rowId := lastId;
        rows := rows[rowId := withId(item, rowId)];
      } else if id in rows {
        rowId := -1;
      } else {
        rowId := id;
        rows := rows[id := item];
        lastId := Max(lastId, id);
      }
    }

    /** `updateItem`: a full overwrite of the row with the same key. */
    method Update(item: T)
      requires Valid()
      modifies this`rows
      ensures Valid() && rows == Updated(old(rows), idOf(item), item)
    {
      rows := Updated(rows, idOf(item), item);
    }

    /** One emission of `getItemStream(id)`: the row, or null. */
    method Get(id: int) returns (r: Option<T>)
      ensures r.Some? <==> id in rows
      ensures r.Some? ==> r.value == rows[id]
    {
      r := if id in rows then Some(rows[id]) else None;
    }
  }
}
