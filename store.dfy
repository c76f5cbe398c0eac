/**
  The target table, reached through the shared database handle. Only what the
  inserter relies on is modelled: one bulk insert (`insert_many(...).execute()`
  inside `db_proxy.atomic()`) that commits the whole batch or, when the store
  raises, rolls back and commits nothing.
 */
module Store {
  import opened Rows

  class Table<V> {
    /** Every batch committed so far, one entry per successful bulk insert. */
    var batches: seq<seq<Row<V>>>

    constructor ()
      ensures batches == []
    {
      batches := [];
    }

    /** One bulk insert in one atomic scope. Whether the store accepts it
        (constraint violations, lost connections, rows of different shapes)
        is not under the inserter's control, so the outcome is left open. */
    method InsertMany(rows: seq<Row<V>>) returns (ok: bool)
      modifies this
      ensures ok ==> batches == old(batches) + [rows]
      ensures !ok ==> batches == old(batches)
    {
      ok := *;
      if ok {
        batches := batches + [rows];
      }
    }
  }

  /** All committed rows, batch after batch, in commit order. */
  function Flatten<V>(batches: seq<seq<Row<V>>>): (committed: seq<Row<V>>)
  {
    if batches == [] then [] else Flatten(batches[..|batches| - 1]) + batches[|batches| - 1]
  }

  /** Committing one more batch adds exactly its rows, at the end. */
  lemma FlattenAppend<V>(batches: seq<seq<Row<V>>>, batch: seq<Row<V>>)
    ensures Flatten(batches + [batch]) == Flatten(batches) + batch
  {
    assert (batches + [batch])[..|batches|] == batches;
  }
}
