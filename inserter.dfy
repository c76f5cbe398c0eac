/**
  `BatchInserter`: buffers rows for one table, flushes them in one atomic bulk
  insert once the buffer reaches the batch size, and optionally pads the batch
  to a uniform field set first.

  A raised exception is modelled by an `ok == false` result. The ghost fields
  `submitted` (every row ever passed to `Insert`) and `base` (how many batches
  the table held when the inserter was made) carry the guarantee that
  no row is lost or committed twice: the rows committed since `base`,
  followed by the buffer, are the submitted rows, each one possibly padded.
 */
module Inserter {
  import opened Rows
  import opened Store

  /** `stored` holds the rows of `orig`, same count and order; when padding is
      on, each may have gained NULL fields, otherwise each is unchanged. */
  ghost predicate Delivered<V>(orig: seq<Row<V>>, stored: seq<Row<V>>, pad: bool)
  {
    && |orig| == |stored|
    && forall i :: 0 <= i < |orig| ==>
         if pad then Extends(orig[i], stored[i]) else stored[i] == orig[i]
  }

  /** The first pass of `_pad_data`: the union of the field names of all rows. */
  method CollectFieldNames<V>(rows: seq<Row<V>>) returns (fieldNames: set<Field>)
    ensures fieldNames == KeyUnion(rows)
    ensures forall k :: k in fieldNames <==> exists i :: 0 <= i < |rows| && k in rows[i]
  {
    fieldNames := {};
    for n := 0 to |rows|
      invariant fieldNames == KeyUnion(rows[..n])
    {
      assert rows[..n + 1][..n] == rows[..n];
      fieldNames := fieldNames + rows[n].Keys;
    }
    assert rows[..|rows|] == rows;
    forall k
      ensures k in fieldNames <==> exists i :: 0 <= i < |rows| && k in rows[i]
    {
      KeyUnionMembership(rows, k);
    }
  }

  class BatchInserter<V> {
    /** The pending rows, in submission order. */
    var rows: seq<Row<V>>
    /** The target table (the model type the rows are inserted into). */
    const table: Table<V>
    /** The flush threshold; not validated, as in models.py. */
    const batchSize: int
    /** Whether rows are padded to a uniform field set before each flush. */
    const padData: bool

    ghost var submitted: seq<Row<V>>
    ghost const base: nat

    ghost predicate Valid()
      reads this, table
    {
      && base <= |table.batches|
      && Delivered(submitted, Committed() + rows, padData)
    }

    /** Rows this inserter has committed to the table, in commit order. */
    ghost function Committed(): seq<Row<V>>
      reads this, table
      requires base <= |table.batches|
    {
      Flatten(table.batches[base..])
    }

    /** The batch a flush sends: the buffer, padded when padding is on. */
    ghost function Prepared(pending: seq<Row<V>>): seq<Row<V>>
    {
      if padData then PadAll(pending) else pending
    }

    constructor (table: Table<V>, batchSize: int, fillMissingFields: bool := false)
      ensures Valid()
      ensures rows == [] && submitted == []
      ensures this.table == table && this.batchSize == batchSize && padData == fillMissingFields
      ensures base == |table.batches|
    {
      rows := [];
      this.table := table;
      this.batchSize := batchSize;
      padData := fillMissingFields;
      submitted := [];
      base := |table.batches|;
    }

    /** Appends `row`; once the buffer holds `batchSize` rows or more, flushes. */
    method Insert(row: Row<V>) returns (ok: bool)
      requires Valid()
      modifies this, table
      ensures Valid()
      ensures submitted == old(submitted) + [row]
      ensures |old(rows)| + 1 < batchSize ==>
        ok && rows == old(rows) + [row] && table.batches == old(table.batches)
      ensures |old(rows)| + 1 >= batchSize && ok ==>
        rows == [] && table.batches == old(table.batches) + [Prepared(old(rows) + [row])]
      ensures |old(rows)| + 1 >= batchSize && !ok ==>
        rows == Prepared(old(rows) + [row]) && table.batches == old(table.batches)
      ensures ok && 1 <= batchSize && |old(rows)| < batchSize ==> |rows| < batchSize
    {
      rows := rows + [row];
      submitted := submitted + [row];
      assert Committed() + rows == (Committed() + old(rows)) + [row];
      ok := true;
      if |rows| >= batchSize {
        ok := Flush();
      }
    }

    /** Sends the whole buffer (padded first when padding is on) in one bulk
        insert, and empties the buffer only if that insert succeeded. There is
        no check for an empty buffer: an empty batch is sent too. */
    method Flush() returns (ok: bool)
      requires Valid()
      modifies this, table
      ensures Valid()
      ensures submitted == old(submitted)
      ensures ok ==> rows == [] && table.batches == old(table.batches) + [Prepared(old(rows))]
      ensures !ok ==> rows == Prepared(old(rows)) && table.batches == old(table.batches)
    {
      if padData {
        ghost var committed := Committed();
        PadData();
        DeliveredAfterPadding(submitted, committed, old(rows));
      }
      ghost var before := table.batches;
      ok := table.InsertMany(rows);
      if ok {
        FlattenAppend(before[base..], rows);
        assert table.batches[base..] == before[base..] + [rows];
        rows := [];
      }
    }

    /** `_pad_data` on the buffer: the union of all field names, then every
        row replaced, in place, by the NULL template overlaid with that row. */
    method PadData()
      modifies this`rows
      ensures rows == PadAll(old(rows))
    {
      var fieldNames := CollectFieldNames(rows);
      var i := 0;
      while i < |rows|
        invariant 0 <= i <= |rows| == |old(rows)|
        invariant forall j :: 0 <= j < i ==> rows[j] == Pad(old(rows)[j], fieldNames)
        invariant forall j :: i <= j < |rows| ==> rows[j] == old(rows)[j]
      {
        rows := rows[i := Pad(rows[i], fieldNames)];
        i := i + 1;
      }
    }
  }

  /** Padding the buffer keeps every submitted row delivered. */
  lemma DeliveredAfterPadding<V>(orig: seq<Row<V>>, committed: seq<Row<V>>, pending: seq<Row<V>>)
    requires Delivered(orig, committed + pending, true)
    ensures Delivered(orig, committed + PadAll(pending), true)
  {
    PadAllKeepsRows(pending);
    forall i | 0 <= i < |orig|
      ensures Extends(orig[i], (committed + PadAll(pending))[i])
    {
      if i >= |committed| {
        var j := i - |committed|;
        assert (committed + pending)[i] == pending[j];
        ExtendsTransitive(orig[i], pending[j], PadAll(pending)[j]);
      } else {
        assert (committed + pending)[i] == committed[i];
      }
    }
  }

  /** The rows committed by the inserter followed by its buffer are the rows
      submitted to it, none lost, none repeated, in order: exactly those rows
      without padding, and those rows with NULL fields added with padding. */
  lemma {:induction false} NothingLostOrDuplicated<V>(ins: BatchInserter<V>)
    requires ins.Valid()
    ensures |ins.Committed() + ins.rows| == |ins.submitted|
    ensures !ins.padData ==> ins.Committed() + ins.rows == ins.submitted
    ensures ins.padData ==> forall i :: 0 <= i < |ins.submitted| ==>
      Extends(ins.submitted[i], (ins.Committed() + ins.rows)[i])
  {
  }
}
