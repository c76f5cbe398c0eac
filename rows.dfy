/**
  Rows handed to the batch inserter, and the field-padding normalisation
  (`_pad_data`) that makes a heterogeneous batch uniform before a bulk insert.

  A row maps field names to values; `None` is the NULL marker that padding
  writes into fields a row lacks (a caller may also pass `None` explicitly).
 */
module Rows {

  datatype Option<+T> = None | Some(value: T)

  type Field = string

  /** A row: field name to value, or to `None` (SQL NULL). */
  type Row<V> = map<Field, Option<V>>

  /** The union of the field names of all rows, built left to right as the
      first loop of `_pad_data` builds `field_names`. */
  function KeyUnion<V>(rows: seq<Row<V>>): (fields: set<Field>)
  {
    if rows == [] then {} else KeyUnion(rows[..|rows| - 1]) + rows[|rows| - 1].Keys
  }

  /** The all-NULL template `default_data`: every field of `fields` maps to `None`. */
  function NullRow<V>(fields: set<Field>): (r: Row<V>)
  {
    map k | k in fields :: None
  }

  /** A copy of the template overlaid with the row's own entries (`dict.update`
      keeps the row's value wherever both have the field). */
  function Pad<V>(row: Row<V>, fields: set<Field>): (padded: Row<V>)
  {
    NullRow(fields) + row
  }

  /** A padded row has the template's fields and the row's own; the row's
      values win, and every field only the template has is NULL. */
  lemma PadFields<V>(row: Row<V>, fields: set<Field>)
    ensures Pad(row, fields).Keys == fields + row.Keys
    ensures forall k :: k in row ==> Pad(row, fields)[k] == row[k]
    ensures forall k :: k in fields && k !in row ==> Pad(row, fields)[k] == None
  {
  }

  /** The batch after `_pad_data`: every row padded against the union of the
      field names of the whole batch. */
  function PadAll<V>(rows: seq<Row<V>>): (padded: seq<Row<V>>)
  {
    seq(|rows|, i requires 0 <= i < |rows| => Pad(rows[i], KeyUnion(rows)))
  }

  /** `got` is `orig` with zero or more extra fields, all NULL: the relation
      between a row as submitted and the row after any number of paddings. */
  ghost predicate Extends<V>(orig: Row<V>, got: Row<V>)
  {
    && orig.Keys <= got.Keys
    && (forall k :: k in orig ==> got[k] == orig[k])
    && (forall k :: k in got && k !in orig ==> got[k] == None)
  }

  /** All rows share one field set. */
  ghost predicate Uniform<V>(rows: seq<Row<V>>)
  {
    forall i, j :: 0 <= i < |rows| && 0 <= j < |rows| ==> rows[i].Keys == rows[j].Keys
  }

  /** A field is in the union exactly when some row of the batch has it. */
  lemma {:induction false} KeyUnionMembership<V>(rows: seq<Row<V>>, k: Field)
    ensures k in KeyUnion(rows) <==> exists i :: 0 <= i < |rows| && k in rows[i]
  {
    if rows != [] {
      var init := rows[..|rows| - 1];
      KeyUnionMembership(init, k);
      if k in KeyUnion(rows) && k !in rows[|rows| - 1] {
        var i :| 0 <= i < |init| && k in init[i];
        assert rows[i] == init[i];
      }
      if exists i :: 0 <= i < |rows| && k in rows[i] {
        var i :| 0 <= i < |rows| && k in rows[i];
        if i < |init| {
          assert init[i] == rows[i];
        }
      }
    }
  }

  /** Every row's fields are part of the union. */
  lemma {:induction false} KeyUnionCovers<V>(rows: seq<Row<V>>, i: int)
    requires 0 <= i < |rows|
    ensures rows[i].Keys <= KeyUnion(rows)
  {
    forall k | k in rows[i]
      ensures k in KeyUnion(rows)
    {
      KeyUnionMembership(rows, k);
    }
  }

  /** Padding keeps the number and the order of the rows: row `i` of the
      result is row `i` of the input, padded. */
  lemma PadAllKeepsRows<V>(rows: seq<Row<V>>)
    ensures |PadAll(rows)| == |rows|
    ensures forall i :: 0 <= i < |rows| ==> Extends(rows[i], PadAll(rows)[i])
  {
    forall i | 0 <= i < |rows|
      ensures Extends(rows[i], PadAll(rows)[i])
    {
      KeyUnionCovers(rows, i);
    }
  }

  /** After padding, every row's field set is the union of the field sets of
      all rows of the batch (a field seen only in the last row still reaches
      the first). */
  lemma PaddedKeysAreUnion<V>(rows: seq<Row<V>>)
    ensures forall i, k :: 0 <= i < |rows| ==>
      (k in PadAll(rows)[i] <==> exists j :: 0 <= j < |rows| && k in rows[j])
  {
    forall i, k | 0 <= i < |rows|
      ensures k in PadAll(rows)[i] <==> exists j :: 0 <= j < |rows| && k in rows[j]
    {
      KeyUnionCovers(rows, i);
      KeyUnionMembership(rows, k);
    }
  }

  /** Padding never changes a value the row already had. */
  lemma PaddedKeepsValues<V>(rows: seq<Row<V>>)
    ensures forall i, k :: 0 <= i < |rows| && k in rows[i] ==>
      k in PadAll(rows)[i] && PadAll(rows)[i][k] == rows[i][k]
  {
  }

  /** A field a row lacked but another row of the batch has becomes NULL. */
  lemma PaddedMissingIsNull<V>(rows: seq<Row<V>>)
    ensures forall i, j, k :: 0 <= i < |rows| && 0 <= j < |rows| && k in rows[j] && k !in rows[i] ==>
      k in PadAll(rows)[i] && PadAll(rows)[i][k] == None
  {
    forall i, j, k | 0 <= i < |rows| && 0 <= j < |rows| && k in rows[j] && k !in rows[i]
      ensures k in PadAll(rows)[i] && PadAll(rows)[i][k] == None
    {
      KeyUnionMembership(rows, k);
    }
  }

  /** A batch whose rows already share one field set is left unchanged. */
  lemma UniformUnchanged<V>(rows: seq<Row<V>>)
    requires Uniform(rows)
    ensures PadAll(rows) == rows
  {
    forall i | 0 <= i < |rows|
      ensures PadAll(rows)[i] == rows[i]
    {
      forall k | k in KeyUnion(rows)
        ensures k in rows[i]
      {
        KeyUnionMembership(rows, k);
      }
      assert PadAll(rows)[i].Keys == rows[i].Keys;
    }
  }

  /** Padded batches are uniform, so padding twice is padding once. */
  lemma PadAllIdempotent<V>(rows: seq<Row<V>>)
    ensures Uniform(PadAll(rows))
    ensures PadAll(PadAll(rows)) == PadAll(rows)
  {
    forall i | 0 <= i < |rows|
      ensures PadAll(rows)[i].Keys == KeyUnion(rows)
    {
      KeyUnionCovers(rows, i);
    }
    UniformUnchanged(PadAll(rows));
  }

  /** Padding a row that already extends `orig` still extends `orig`. */
  lemma ExtendsTransitive<V>(a: Row<V>, b: Row<V>, c: Row<V>)
    requires Extends(a, b) && Extends(b, c)
    ensures Extends(a, c)
  {
  }
}
