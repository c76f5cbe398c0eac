# BatchInserter: buffered, padded, atomic bulk inserts

This project models `BatchInserter` from `models.py` of the package-picker data
fetcher. The inserter collects rows for one table in an in-memory buffer. A row
is a dictionary from field name to value. Once the buffer holds `batch_size`
rows, the inserter flushes. A flush optionally pads the rows to one common field
set (`fill_missing_fields`). It then sends the whole buffer in one
`insert_many` inside one `atomic()` scope, and empties the buffer only after
that call returns.

Files:

- `rows.dfy` (module `Rows`): rows as `map<Field, Option<V>>`, with `None` as
  NULL. Also the padding transform as functions (`KeyUnion`, `NullRow`, `Pad`,
  `PadAll`) and its properties as lemmas.
- `store.dfy` (module `Store`): the target table. It has a log of committed
  batches and one all-or-nothing `InsertMany` whose outcome is left open.
- `inserter.dfy` (module `Inserter`): the class `BatchInserter` with the fields
  `rows`, `table`, `batchSize` and `padData`, and its methods `Insert`, `Flush`
  and `PadData`. `PadData` uses the first-pass method `CollectFieldNames`.
  - The ghost fields `submitted` and `base` state the no-loss guarantee in
    `Valid()`. The rows committed since the inserter was made, followed by the
    buffer, are the submitted rows, in order. Each of them may have gained
    NULL fields when padding is on.
- `session.dfy` (module `Session`): the documented usage: insert every row,
  then flush. It also proves the batch-count arithmetic and the worked
  examples: three padded rows, an explicit flush of four rows, and a retry
  after a failed flush.

A Python exception out of `insert`/`flush` is an `ok == false` result.
Whether the store accepts a bulk insert is decided outside the inserter. The
model leaves it to `Table.InsertMany`, which either appends the batch to the
table's log or leaves the log unchanged.

In two places the code does less than a reader might expect, and the model does what the code does:

- The constructor does not validate `batch_size` (models.py:37-40). With a
  batch size of zero or less, every `Insert` flushes.
- `flush` has no empty-buffer check (models.py:52-57). Flushing an empty buffer
  still issues one bulk insert, and on success it commits an empty batch. It is
  not a no-op.

## Model

| member | source | states |
|---|---|---|
| `Rows.KeyUnionMembership` | models.py:66-69 | a field is in the collected union exactly when some row of the batch has it |
| `Rows.KeyUnionCovers` | models.py:67-69 | every row's field set is contained in the union |
| `Rows.PadFields` | models.py:71-77 | a row overlaid on the all-NULL template has the template's fields plus its own; the row's own values win, and every field only the template has is NULL |
| `Rows.PadAllKeepsRows` | models.py:74-78 | padding keeps the number and order of rows; row i of the result extends row i of the input with NULL fields only |
| `Rows.PaddedKeysAreUnion` | models.py:67-78 | after padding, every row's field set is the union of the field sets of all rows of the batch |
| `Rows.PaddedKeepsValues` | models.py:76-77 | every field a row had keeps its original value after padding (`update` overrides the NULL default) |
| `Rows.PaddedMissingIsNull` | models.py:71-77 | a field a row lacked but another row has maps to NULL after padding |
| `Rows.UniformUnchanged` | models.py:72-78 | a batch whose rows already share one field set is left unchanged |
| `Rows.PadAllIdempotent` | models.py:59-78 | a padded batch is uniform, and padding it again changes nothing |
| `Rows.ExtendsTransitive` | models.py:53-54 | helper: NULL-extension of rows is transitive; `DeliveredAfterPadding` uses it so that re-padding the buffer on a retried flush still keeps the submitted values |
| `Store.Table.InsertMany` | models.py:55-56 | one atomic bulk insert: on success the whole batch is appended to the table as one batch; on failure nothing is committed |
| `Store.FlattenAppend` | models.py:55-56 | helper about the table's log of committed batches: flattening the log after one more batch gives the earlier rows followed by exactly that batch's rows; `Flush` uses it to keep the no-loss invariant |
| `Inserter.CollectFieldNames` | models.py:66-69 | the first loop returns the union of the field names of all rows, and a field is in it exactly when some row has it |
| `Inserter.BatchInserter.constructor` | models.py:30-40 | the buffer starts empty; table, batch size and padding flag are stored unvalidated; the padding flag defaults to off |
| `Inserter.BatchInserter.Insert` | models.py:42-50 | appends the row; below the threshold nothing else changes; at or above it, flushes the buffer with the row, with the flush's success and failure outcomes; a successful insert from a buffer shorter than a positive batch size leaves it shorter than the batch size; the no-loss invariant is kept |
| `Inserter.BatchInserter.Flush` | models.py:52-57 | on success exactly the buffered rows (padded when padding is on) are committed, in order, as one batch, and the buffer is empty; on failure nothing is committed and the buffer holds the same rows (padded when padding is on) |
| `Inserter.BatchInserter.PadData` | models.py:59-78 | the buffer is replaced in place, row by row, by its padded version |
| `Inserter.DeliveredAfterPadding` | models.py:53-54 | helper step of the no-loss invariant proof for `Flush`: padding the pending rows keeps every submitted row in its position, extended only by NULL fields |
| `Inserter.NothingLostOrDuplicated` | models.py:48-57 | unfolds the class invariant `Valid()`: committed rows followed by buffered rows are the submitted rows, same count and order, equal without padding and extended by NULL fields with padding; it holds at every call boundary because the constructor, `Insert` and `Flush` all ensure `Valid()` |
| `Session.InsertAll` | models.py:21-26 | inserting N rows from an empty buffer with batch size B >= 1 either stops at a failed flush or commits N / B batches and leaves N mod B rows buffered, all N rows submitted |
| `Session.NextCount` | models.py:48-50 | helper: the quotient/remainder step that `InsertAll` matches to `Insert`'s two threshold cases: one more row either completes a batch (remainder back to 0, one more flush) or grows the remainder by one |
| `Session.PaddingExample` | models.py:59-78 | rows {a: 1}, {a: 2, b: 5}, {a: 3} pad to {a: 1, b: NULL}, {a: 2, b: 5}, {a: 3, b: NULL} |

## Left out

- The peewee table classes (`ProxyModel` to `ViewpointSection`) are not part of this model. They are declarative schema with no logic.
- `init_database` and `create_tables` are not part of this model. They read a credentials file, pick a database driver and call into the ORM.
- hello.py is not part of this model. It is a Flask route, a query and a template.
- The internals of `db_proxy.atomic()` and `insert_many(...).execute()` are foreign library code. They are modelled only as an all-or-nothing bulk insert whose success is not determined by the inserter. The store's rule for rejecting rows of different shapes, and what it does with an empty batch, are not modelled.
- Store.Table.InsertMany: does not model which error is raised or how the transaction is rolled back; a failure is only "nothing committed".
- Aliasing of row dictionaries: `insert` buffers the caller's own dictionary object. A caller that mutates it before the flush would change the buffered row. The model buffers row values.
- Dictionary key order of padded rows is not modelled. Rows are maps.
- Concurrency of several inserters sharing the process-wide database handle is not modelled. Each inserter is assumed to be the only writer of its table between its own calls, which is what `Valid()` states.
