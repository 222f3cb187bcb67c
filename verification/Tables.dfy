/** The statements the compactor runs, over the `samples` table and over one metric's share of it. */
module Tables {
  import opened Buckets
  import opened Rollup

  /** Primary key of `samples`. */
  datatype Key = Key(res: int, ts: int, mid: int)

  type Samples = map<Key, Row>

  /** The timestamps at which metric `mid` has a row of resolution `res`. */
  function Stamps(samples: Samples, res: int, mid: int): (ts: set<int>)
    ensures forall t :: t in ts <==> Key(res, t, mid) in samples
  {
    var ts := set q | q in samples && q.res == res && q.mid == mid :: q.ts;
    assert forall t :: Key(res, t, mid) in samples ==> Key(res, t, mid).ts in ts;
    ts
  }

  /** The rows of metric `mid` at resolution `res`, by timestamp. */
  function ColumnOf(samples: Samples, res: int, mid: int): Column {
    map t | t in Stamps(samples, res, mid) :: samples[Key(res, t, mid)]
  }

  /** The selected rows of one group: those of bucket `b` at or after the lower bound. */
  function GroupTotal(src: Column, lo: int, b: int, width: int): Total {
    Fold(src, Max(lo, b), b + width)
  }

  /** `INSERT OR REPLACE ... SELECT to, (ts/to)*to, mid, ... WHERE res = from AND ts >= lo
      GROUP BY mid, ts/to`. */
  function RollUp(samples: Samples, from: int, to: int, lo: int): Samples
    requires to > 0
  {
    samples + map q | q in samples && q.res == from && q.ts >= lo ::
                Key(to, Bucket(q.ts, to), q.mid) := GroupRow(samples, from, to, lo, q)
  }

  function GroupRow(samples: Samples, from: int, to: int, lo: int, q: Key): Row
    requires to > 0
    requires q in samples && q.res == from && q.ts >= lo
  {
    var total := GroupTotal(ColumnOf(samples, from, q.mid), lo, Bucket(q.ts, to), to);
    assert q == Key(from, q.ts, q.mid) && q.ts in ColumnOf(samples, from, q.mid);
    assert total.Total?;
    Summary(total)
  }

  /** `DELETE FROM samples WHERE res = res AND ts < cut`. */
  function Prune(samples: Samples, res: int, cut: int): Samples {
    map q | q in samples && !(q.res == res && q.ts < cut) :: samples[q]
  }

  // ---- the same statements seen by a single metric ----

  function RollUpColumn(src: Column, dst: Column, width: int, lo: int): (r: Column)
    requires width > 0
  {
    dst + map t | t in src && t >= lo :: Bucket(t, width) := GroupRowAt(src, width, lo, t)
  }

  function GroupRowAt(src: Column, width: int, lo: int, t: int): Row
    requires width > 0 && t in src && t >= lo
  {
    assert GroupTotal(src, lo, Bucket(t, width), width).Total?;
    Summary(GroupTotal(src, lo, Bucket(t, width), width))
  }

  function PruneColumn(col: Column, cut: int): Column {
    map t | t in col && t >= cut :: col[t]
  }

  /** What a rollup leaves at every timestamp of the target tier. */
  lemma RollUpColumnAt(src: Column, dst: Column, width: int, lo: int, b: int)
    requires width > 0
    ensures
      var r := RollUpColumn(src, dst, width, lo);
      var total := GroupTotal(src, lo, b, width);
      if Aligned(b, width) && total.Total?
      then b in r && r[b] == Summary(total)
      else (b in r <==> b in dst) && (b in dst ==> r[b] == dst[b])
  {
    var total := GroupTotal(src, lo, b, width);
    if Aligned(b, width) && total.Total? {
      var t :| Max(lo, b) <= t < b + width && t in src;
      BucketUnique(t, b, width);
    } else {
      assert forall t :: t in src && t >= lo ==> Bucket(t, width) != b;
    }
  }

  /** The same, for every row of the table. */
  lemma RollUpAt(samples: Samples, from: int, to: int, lo: int, k: Key)
    requires to > 0
    ensures
      var r := RollUp(samples, from, to, lo);
      var total := GroupTotal(ColumnOf(samples, from, k.mid), lo, k.ts, to);
      if k.res == to && Aligned(k.ts, to) && total.Total?
      then k in r && r[k] == Summary(total)
      else (k in r <==> k in samples) && (k in samples ==> r[k] == samples[k])
  {
    var src := ColumnOf(samples, from, k.mid);
    var total := GroupTotal(src, lo, k.ts, to);
    if k.res == to && Aligned(k.ts, to) && total.Total? {
      var t :| Max(lo, k.ts) <= t < k.ts + to && t in src;
      BucketUnique(t, k.ts, to);
      var q := Key(from, t, k.mid);
      assert q in samples && Key(to, Bucket(q.ts, to), q.mid) == k;
    } else {
      forall q | q in samples && q.res == from && q.ts >= lo
        ensures Key(to, Bucket(q.ts, to), q.mid) != k
      {
        assert q == Key(from, q.ts, q.mid);
        assert q.mid == k.mid ==> q.ts in src;
      }
    }
  }

  ghost predicate SameAt(a: Column, b: Column, t: int) {
    (t in a <==> t in b) && (t in a ==> a[t] == b[t])
  }

  lemma ColumnsEqual(a: Column, b: Column)
    requires forall t :: SameAt(a, b, t)
    ensures a == b
  {
    forall t
      ensures (t in a <==> t in b) && (t in a ==> a[t] == b[t])
    {
      assert SameAt(a, b, t);
    }
  }

  lemma RollUpSameAt(samples: Samples, from: int, to: int, lo: int, mid: int, b: int)
    requires to > 0 && from != to
    ensures SameAt(ColumnOf(RollUp(samples, from, to, lo), to, mid),
                   RollUpColumn(ColumnOf(samples, from, mid), ColumnOf(samples, to, mid), to, lo), b)
  {
    var k := Key(to, b, mid);
    RollUpAt(samples, from, to, lo, k);
    RollUpColumnAt(ColumnOf(samples, from, mid), ColumnOf(samples, to, mid), to, lo, b);
  }

  lemma RollUpOtherAt(samples: Samples, from: int, to: int, lo: int, res: int, mid: int, t: int)
    requires to > 0 && res != to
    ensures SameAt(ColumnOf(RollUp(samples, from, to, lo), res, mid), ColumnOf(samples, res, mid), t)
  {
    RollUpAt(samples, from, to, lo, Key(res, t, mid));
  }

  /** A rollup over the table is, for each metric, a rollup over its own columns. */
  lemma RollUpColumnOf(samples: Samples, from: int, to: int, lo: int, mid: int)
    requires to > 0 && from != to
    ensures ColumnOf(RollUp(samples, from, to, lo), to, mid)
         == RollUpColumn(ColumnOf(samples, from, mid), ColumnOf(samples, to, mid), to, lo)
  {
    var got := ColumnOf(RollUp(samples, from, to, lo), to, mid);
    var want := RollUpColumn(ColumnOf(samples, from, mid), ColumnOf(samples, to, mid), to, lo);
    forall b
      ensures SameAt(got, want, b)
    {
      RollUpSameAt(samples, from, to, lo, mid, b);
    }
    ColumnsEqual(got, want);
  }

  lemma RollUpOtherColumn(samples: Samples, from: int, to: int, lo: int, res: int, mid: int)
    requires to > 0 && res != to
    ensures ColumnOf(RollUp(samples, from, to, lo), res, mid) == ColumnOf(samples, res, mid)
  {
    var got, want := ColumnOf(RollUp(samples, from, to, lo), res, mid), ColumnOf(samples, res, mid);
    forall t
      ensures SameAt(got, want, t)
    {
      RollUpOtherAt(samples, from, to, lo, res, mid, t);
    }
    ColumnsEqual(got, want);
  }

  lemma PruneColumnOf(samples: Samples, res: int, cut: int, mid: int)
    ensures ColumnOf(Prune(samples, res, cut), res, mid) == PruneColumn(ColumnOf(samples, res, mid), cut)
  {
    var got, want := ColumnOf(Prune(samples, res, cut), res, mid), PruneColumn(ColumnOf(samples, res, mid), cut);
    assert forall t :: SameAt(got, want, t);
    ColumnsEqual(got, want);
  }

  lemma PruneOtherColumn(samples: Samples, res: int, cut: int, other: int, mid: int)
    requires other != res
    ensures ColumnOf(Prune(samples, res, cut), other, mid) == ColumnOf(samples, other, mid)
  {
    var got, want := ColumnOf(Prune(samples, res, cut), other, mid), ColumnOf(samples, other, mid);
    assert forall t :: SameAt(got, want, t);
    ColumnsEqual(got, want);
  }

  lemma InsertColumnOf(samples: Samples, k: Key, row: Row)
    ensures ColumnOf(samples[k := row], k.res, k.mid) == ColumnOf(samples, k.res, k.mid)[k.ts := row]
  {
    var got, want := ColumnOf(samples[k := row], k.res, k.mid), ColumnOf(samples, k.res, k.mid)[k.ts := row];
    assert k == Key(k.res, k.ts, k.mid);
    assert forall t :: SameAt(got, want, t);
    ColumnsEqual(got, want);
  }

  lemma InsertOtherColumn(samples: Samples, k: Key, row: Row, res: int, mid: int)
    requires k.res != res || k.mid != mid
    ensures ColumnOf(samples[k := row], res, mid) == ColumnOf(samples, res, mid)
  {
    var got, want := ColumnOf(samples[k := row], res, mid), ColumnOf(samples, res, mid);
    assert forall t :: SameAt(got, want, t);
    ColumnsEqual(got, want);
  }
}
