/**
 * The persistence layer as the triage code sees it: a table that appends a
 * row and hands back the stored record, or fails, and that lists its most
 * recent records. The backend's queries (`insert`, `select('*')`,
 * `order('created_at', desc=True)`, `limit`) are not modelled; the table is
 * a sequence of records in creation order.
 */
module Store {
  import opened Wrappers

  /** A JSON value, as carried by the free-form `patient_info` object. */
  datatype Json =
    | Null
    | Bool(b: bool)
    | Number(n: int)
    | Str(s: string)
    | Array(items: seq<Json>)
    | Object(fields: map<string, Json>)

  type PatientInfo = map<string, Json>

  /** A stored row with the identifier the store assigned to it. */
  datatype Record<R> = Record(id: nat, row: R)

  /** The first `limit` records of `rows`, newest (last appended) first. */
  function NewestFirst<R>(rows: seq<Record<R>>, limit: nat): (r: seq<Record<R>>)
    ensures |r| == if limit < |rows| then limit else |rows|
    ensures forall i :: 0 <= i < |r| ==> r[i] == rows[|rows| - 1 - i]
    decreases limit
  {
    if limit == 0 || rows == [] then []
    else [rows[|rows| - 1]] + NewestFirst(rows[..|rows| - 1], limit - 1)
  }

  /** After an append, the new record heads every non-empty listing. */
  lemma {:induction false} NewestFirstAfterAppend<R>(rows: seq<Record<R>>, rec: Record<R>, limit: nat)
    requires limit >= 1
    ensures NewestFirst(rows + [rec], limit) == [rec] + NewestFirst(rows, limit - 1)
  {
    assert (rows + [rec])[..|rows|] == rows;
  }

  /** A table of the store: `rows` in creation order, and whether the store currently fails. */
  class Table<R> {
    var rows: seq<Record<R>>
    var failing: bool

    /** Identifiers are assigned in creation order, so they are unique. */
    ghost predicate Valid()
      reads this
    {
      forall i :: 0 <= i < |rows| ==> rows[i].id == i
    }

    constructor (failing: bool)
      ensures Valid() && rows == [] && this.failing == failing
    {
      rows := [];
      this.failing := failing;
    }

    /** `table.insert(row).execute()`: the stored record, or `None` when the store fails. */
    method Insert(row: R) returns (stored: Option<Record<R>>)
      requires Valid()
      modifies this`rows
      ensures Valid()
      ensures old(failing) ==> stored == None && rows == old(rows)
      ensures !old(failing) ==>
                stored == Some(Record(|old(rows)|, row)) && rows == old(rows) + [stored.value]
    {
      if failing {
        stored := None;
      } else {
        var rec := Record(|rows|, row);
        rows := rows + [rec];
        stored := Some(rec);
      }
    }

    /**
     * `get_recent_*_records(limit)`: the `limit` newest records, newest
     * first; an empty list when the store fails.
     */
    function Recent(limit: nat): (r: seq<Record<R>>)
      reads this
      ensures failing ==> r == []
      ensures !failing ==> |r| == (if limit < |rows| then limit else |rows|)
      ensures !failing ==> forall i :: 0 <= i < |r| ==> r[i] == rows[|rows| - 1 - i]
      ensures |r| <= limit
    {
      if failing then [] else NewestFirst(rows, limit)
    }
  }
}
