/**
 * The hosted database, seen from the application: a table is a sequence of rows, each with a
 * surrogate id and a server-assigned creation time. What the database answers (a refusal, the id
 * it assigns, the time it stamps) is not decided here: it is passed in as a parameter.
 */
module Store {
  import opened Wrappers
  import opened Seqs

  /** A stored row: its id, its `created_at` as a server timestamp, and its other columns. */
  datatype Row<R> = Row(id: string, createdAt: int, fields: R)

  /** An error object returned by the database client (`error.code`, `error.message`). */
  datatype StoreError = StoreError(code: string, message: string)

  /** `rows.map(r => r.id === id ? patched(r) : r)` */
  function UpdateWhereId<R>(rows: seq<Row<R>>, id: string, patch: R -> R): (r: seq<Row<R>>)
    ensures |r| == |rows|
    ensures forall k :: 0 <= k < |rows| ==>
      r[k] == if rows[k].id == id then rows[k].(fields := patch(rows[k].fields)) else rows[k]
  {
    Map(rows, (row: Row<R>) => if row.id == id then row.(fields := patch(row.fields)) else row)
  }

  function IdIsNot<R>(id: string): Row<R> -> bool {
    (row: Row<R>) => row.id != id
  }

  /** `delete().eq('id', id)` */
  function DeleteWhereId<R>(rows: seq<Row<R>>, id: string): (r: seq<Row<R>>)
    ensures forall k :: 0 <= k < |r| ==> r[k].id != id && r[k] in rows
    ensures forall k :: 0 <= k < |rows| && rows[k].id != id ==> rows[k] in r
  {
    Filter(rows, IdIsNot(id))
  }

  class Table<R> {
    var rows: seq<Row<R>>

    constructor (initial: seq<Row<R>>)
      ensures rows == initial
    {
      rows := initial;
    }

    /** `insert(fields).select()`: the new row is appended, unless the database refuses it. */
    method Insert(fields: R, newId: string, now: int, refusal: Option<StoreError>)
      returns (r: Result<Row<R>, StoreError>)
      modifies this
      ensures refusal.Some? ==> r == Err(refusal.value) && rows == old(rows)
      ensures refusal.None? ==> r == Ok(Row(newId, now, fields)) && rows == old(rows) + [r.value]
    {
      if refusal.Some? {
        r := Err(refusal.value);
      } else {
        r := Ok(Row(newId, now, fields));
        rows := rows + [r.value];
      }
    }

    /** `update(patch).eq('id', id)`: `error` is `null` exactly when the update was applied. */
    method Update(id: string, patch: R -> R, refusal: Option<StoreError>) returns (error: Option<StoreError>)
      modifies this
      ensures error == refusal
      ensures rows == if refusal.Some? then old(rows) else UpdateWhereId(old(rows), id, patch)
    {
      error := refusal;
      if refusal.None? {
        rows := UpdateWhereId(rows, id, patch);
      }
    }

    /** `delete().eq('id', id)` */
    method Delete(id: string, refusal: Option<StoreError>) returns (error: Option<StoreError>)
      modifies this
      ensures error == refusal
      ensures rows == if refusal.Some? then old(rows) else DeleteWhereId(old(rows), id)
    {
      error := refusal;
      if refusal.None? {
        rows := DeleteWhereId(rows, id);
      }
    }
  }
}
