/** Where interning can go wrong: a rolled-back write that had created a name. */
module Interning {
  import opened Buckets
  import opened Rollup
  import opened Tables
  import opened HistoryStore
  import opened History

  const FAILED := [Point("a", Finite(1.0))]
  const NEXT := [Point("b", Finite(2.0)), Point("a", Finite(3.0))]

  lemma FailedWrite()
    ensures AbortStep(EMPTY_DB, FAILED, EMPTY_DB.(ids := map["a" := 1]))
  {
    assert FAILED[0] in FAILED;
    assert FiniteNames(FAILED) == {"a"};
    assert Interned(map[], map[], {"a"}, map["a" := 1], map["a" := 1]);
  }

  lemma NextNames()
    ensures FiniteNames(NEXT) == {"a", "b"}
    ensures Interned(map[], map["a" := 1], {"a", "b"}, map["b" := 1], map["a" := 1, "b" := 1])
  {
    assert NEXT[0] in NEXT && NEXT[1] in NEXT;
  }

  lemma NextStamps(ids: map<string, int>)
    requires ids == map["a" := 1, "b" := 1]
    ensures FiniteNames(NEXT) <= ids.Keys
    ensures Stamped(map[], 15, NEXT, ids) == map[Key(RAW, 15, 1) := RawRow(3.0)]
  {
    NextNames();
    var one := NEXT[..1];
    assert one == [Point("b", Finite(2.0))] && one[..0] == [];
    NamesOfFront(NEXT);
    NamesOfFront(one);
    assert Stamped(map[], 15, one, ids) == map[Key(RAW, 15, 1) := RawRow(2.0)];
  }

  /** The memo is filled before the commit and survives a rollback. After one write that rolled
      back, a later batch can be stored so that a query for "b" returns the reading of "a": the
      memo still maps "a" to an id the table has since given to "b". */
  lemma RolledBackNameIsMisread() returns (a: Db, b: Db)
    ensures AbortStep(EMPTY_DB, FAILED, a) && Stale(a) == {"a"}
    ensures WriteStep(a, 15, NEXT, b)
    ensures Rows(b, "b").raw == map[15 := RawRow(3.0)] && LastReading(NEXT, "b") == Some(2.0)
  {
    a := EMPTY_DB.(ids := map["a" := 1]);
    b := Db(map[Key(RAW, 15, 1) := RawRow(3.0)], map["b" := 1], map["a" := 1, "b" := 1], None);
    FailedWrite();
    NextNames();
    NextStamps(b.ids);
    Misread(b.samples);
    assert NEXT[..1] == [Point("b", Finite(2.0))];
  }

  lemma Misread(samples: Samples)
    requires samples == map[Key(RAW, 15, 1) := RawRow(3.0)]
    ensures ColumnOf(samples, RAW, 1) == map[15 := RawRow(3.0)]
  {
    ColumnsEqual(ColumnOf(samples, RAW, 1), map[15 := RawRow(3.0)]);
  }
}
