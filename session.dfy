/**
  A bulk-loading session as the class documentation prescribes it: insert
  every row, then flush explicitly to save the remainder.
 */
module Session {
  import opened Rows
  import opened Store
  import opened Inserter

  /** A nonzero multiple of a positive `b` is at least `b` away from zero. */
  lemma {:induction false} MultipleAwayFromZero(b: int, x: int)
    requires b >= 1
    ensures x >= 1 ==> b * x >= b
    ensures x <= -1 ==> b * x <= -b
    decreases if x < 0 then -x else x
  {
    if x > 1 {
      MultipleAwayFromZero(b, x - 1);
      assert b * x == b * (x - 1) + b;
    } else if x < -1 {
      MultipleAwayFromZero(b, x + 1);
      assert b * x == b * (x + 1) - b;
    }
  }

  /** The quotient and remainder of `n` by `b` are the only such pair. */
  lemma DivModUnique(n: int, b: int, q: int, r: int)
    requires b >= 1 && 0 <= r < b && n == b * q + r
    ensures n / b == q && n % b == r
  {
    var q', r' := n / b, n % b;
    assert b * (q - q') == r' - r;
    MultipleAwayFromZero(b, q - q');
  }

  /** One more row either completes a batch or grows the remainder by one. */
  lemma NextCount(n: nat, b: int)
    requires b >= 1
    ensures n % b + 1 >= b ==> (n + 1) % b == 0 && (n + 1) / b == n / b + 1
    ensures n % b + 1 < b ==> (n + 1) % b == n % b + 1 && (n + 1) / b == n / b
  {
    var q, r := n / b, n % b;
    if r + 1 >= b {
      DivModUnique(n + 1, b, q + 1, 0);
    } else {
      DivModUnique(n + 1, b, q, r + 1);
    }
  }

  /** Inserts every row of `input` in order, stopping at the first failed
      flush. Starting from an empty buffer, N successful inserts leave
      N / batchSize automatic flushes committed and N % batchSize rows pending. */
  method InsertAll<V>(ins: BatchInserter<V>, input: seq<Row<V>>) returns (ok: bool)
    requires ins.Valid() && ins.rows == [] && ins.batchSize >= 1
    modifies ins, ins.table
    ensures ins.Valid()
    ensures old(ins.submitted) <= ins.submitted <= old(ins.submitted) + input
    ensures ok ==> ins.submitted == old(ins.submitted) + input
    ensures ok ==> |ins.rows| == |input| % ins.batchSize
    ensures ok ==> |ins.table.batches| == old(|ins.table.batches|) + |input| / ins.batchSize
  {
    ok := true;
    var i := 0;
    while i < |input|
      invariant 0 <= i <= |input|
      invariant ins.Valid()
      invariant ins.submitted == old(ins.submitted) + input[..i]
      invariant |ins.rows| == i % ins.batchSize
      invariant |ins.table.batches| == old(|ins.table.batches|) + i / ins.batchSize
    {
      NextCount(i, ins.batchSize);
      ok := ins.Insert(input[i]);
      assert input[..i + 1] == input[..i] + [input[i]];
      if !ok {
        return;
      }
      i := i + 1;
    }
    assert input[..i] == input;
  }

  /** Rows {a: 1}, {a: 2, b: 5} and {a: 3} pad to {a: 1, b: NULL},
      {a: 2, b: 5} and {a: 3, b: NULL}. */
  lemma PaddingExample()
    ensures PadAll<int>([map["a" := Some(1)], map["a" := Some(2), "b" := Some(5)], map["a" := Some(3)]])
         == [map["a" := Some(1), "b" := None], map["a" := Some(2), "b" := Some(5)], map["a" := Some(3), "b" := None]]
  {
    var r1: Row<int> := map["a" := Some(1)];
    var r2: Row<int> := map["a" := Some(2), "b" := Some(5)];
    var r3: Row<int> := map["a" := Some(3)];
    var batch := [r1, r2, r3];
    assert batch[..2] == [r1, r2] && [r1, r2][..1] == [r1] && [r1][..0] == [];
    assert r1.Keys == {"a"} && r2.Keys == {"a", "b"} && r3.Keys == {"a"};
    assert KeyUnion([r1]) == {"a"};
    assert KeyUnion([r1, r2]) == {"a", "b"};
    assert KeyUnion(batch) == {"a", "b"};
    assert PadAll(batch)[0] == map["a" := Some(1), "b" := None];
    assert PadAll(batch)[1] == r2;
    assert PadAll(batch)[2] == map["a" := Some(3), "b" := None];
  }

  /** Three heterogeneous rows with batch size 3 and padding on: the third
      insert flushes one batch in which every row has fields a and b. */
  method PaddedBatchOfThree()
  {
    var t := new Table<int>();
    var ins := new BatchInserter(t, 3, true);
    var r1: Row<int> := map["a" := Some(1)];
    var r2: Row<int> := map["a" := Some(2), "b" := Some(5)];
    var r3: Row<int> := map["a" := Some(3)];
    var ok1 := ins.Insert(r1);
    var ok2 := ins.Insert(r2);
    assert ins.rows == [r1, r2] && t.batches == [];
    var ok3 := ins.Insert(r3);
    assert ok1 && ok2;
    if ok3 {
      assert [r1, r2] + [r3] == [r1, r2, r3];
      PaddingExample();
      assert t.batches == [[map["a" := Some(1), "b" := None],
                            map["a" := Some(2), "b" := Some(5)],
                            map["a" := Some(3), "b" := None]]];
      assert ins.rows == [];
    }
  }

  /** Four rows below a batch size of ten stay buffered until an explicit
      flush sends them as one bulk insert. */
  method ExplicitFlushOfFour(rs: seq<Row<int>>)
    requires |rs| == 4
  {
    var t := new Table<int>();
    var ins := new BatchInserter(t, 10, false);
    var ok := InsertAll(ins, rs);
    if ok {
      assert t.batches == [] && ins.Committed() == [];
      assert ins.submitted == rs;
      NothingLostOrDuplicated(ins);
      assert ins.rows == rs;
      ok := ins.Flush();
      if ok {
        assert ins.rows == [];
        assert t.batches == [rs];
      }
    }
  }

  /** A flush that fails keeps the (padded) rows; flushing again once the
      store accepts commits them exactly once, in order. */
  method RetryAfterFailure(ins: BatchInserter<int>)
    requires ins.Valid() && ins.padData
    modifies ins, ins.table
  {
    ghost var pending := ins.rows;
    ghost var before := ins.table.batches;
    var ok := ins.Flush();
    if !ok {
      assert ins.rows == PadAll(pending);
      ok := ins.Flush();
      if ok {
        PadAllIdempotent(pending);
        assert ins.table.batches == before + [PadAll(pending)];
      }
    }
  }
}
