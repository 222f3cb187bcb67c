/** What is stored and shown, said of the readings themselves: the last value written for a name at a
    timestamp, and the plain number, sum, least and greatest of the readings in a bucket. */
module PlainReadings {
  import opened Buckets
  import opened Rollup
  import opened Tables
  import opened HistoryStore
  import opened History
  import opened Exactness
  import opened Shape
  import opened SeriesApi

  // ---- the last value written ----

  ghost predicate Reads(p: Point, name: string) {
    p.name == name && p.value.Finite?
  }

  /** Point `j` is the batch's last finite reading of the name, and its value is `v`. */
  ghost predicate IsLast(points: seq<Point>, name: string, v: real, j: int) {
    && 0 <= j < |points| && Reads(points[j], name) && points[j].value.v == v
    && forall k :: j < k < |points| ==> !Reads(points[k], name)
  }

  ghost predicate LastOf(points: seq<Point>, name: string, v: real) {
    exists j :: IsLast(points, name, v, j)
  }

  ghost predicate HasReading(points: seq<Point>, name: string) {
    exists j :: 0 <= j < |points| && Reads(points[j], name)
  }

  lemma {:induction false} LastReadingIs(points: seq<Point>, name: string)
    ensures forall v :: LastReading(points, name) == Some(v) <==> LastOf(points, name, v)
    ensures LastReading(points, name).Some? <==> HasReading(points, name)
    decreases |points|
  {
    if points != [] {
      var n := |points| - 1;
      LastReadingIs(points[..n], name);
      if Reads(points[n], name) {
        assert IsLast(points, name, points[n].value.v, n);
      } else {
        forall v
          ensures LastOf(points, name, v) <==> LastOf(points[..n], name, v)
        {
          if LastOf(points, name, v) {
            var j :| IsLast(points, name, v, j);
            assert IsLast(points[..n], name, v, j);
          }
          if LastOf(points[..n], name, v) {
            var j :| IsLast(points[..n], name, v, j);
            assert IsLast(points, name, v, j);
          }
        }
        if HasReading(points[..n], name) {
          var j :| 0 <= j < n && Reads(points[..n][j], name);
          assert Reads(points[j], name);
        }
      }
    }
  }

  /** A raw row that stands for the single value `v`. */
  ghost predicate Single(row: Row, v: real) {
    row.avg == v && row.min == v && row.max == v && row.n == 1
  }

  /** A committed write that keeps to a name's own id leaves, at its timestamp, one raw row holding the
      batch's last finite value for the name; without one, and at every other timestamp, the name's raw
      rows are as they were. */
  lemma WriteStoresValue(a: Db, ts: int, points: seq<Point>, b: Db, name: string)
    requires WriteStep(a, ts, points, b) && OwnId(a, points, b, name)
    ensures forall v :: LastOf(points, name, v) ==>
              && name in b.metric && Key(15, ts, b.metric[name]) in b.samples
              && Single(b.samples[Key(15, ts, b.metric[name])], v)
    ensures forall t :: t != ts || !HasReading(points, name) ==> SameAt(Rows(b, name).raw, Rows(a, name).raw, t)
  {
    OwnWriteRows(a, ts, points, b, name);
    LastReadingIs(points, name);
    LastReadingOfNamed(points, name);
    PostedValue(Rows(a, name).raw, ts, LastReading(points, name));
    if LastReading(points, name).Some? {
      RawRowOf(b.samples, b.metric[name], ts);
    }
  }

  lemma PostedValue(raw: Column, ts: int, reading: Option<real>)
    ensures reading.Some? ==> ts in Posted(raw, ts, reading) && Single(Posted(raw, ts, reading)[ts], reading.value)
    ensures forall t :: t != ts || reading.None? ==> SameAt(Posted(raw, ts, reading), raw, t)
  {
  }

  lemma RawRowOf(samples: Samples, mid: int, ts: int)
    requires ts in TrackOf(samples, mid).raw
    ensures Key(15, ts, mid) in samples && TrackOf(samples, mid).raw[ts] == samples[Key(15, ts, mid)]
  {
  }

  /** Event `i` is the last committed write that carried a finite reading of the name stamped `t`, and the
      last of those in its batch was `v`. */
  ghost predicate LastWriteAt(events: seq<Event>, name: string, t: int, v: real, i: int) {
    && 0 <= i < |events| && events[i].Write? && events[i].ts == t && LastOf(events[i].points, name, v)
    && forall k :: i < k < |events| ==> !Rewrites(events[k], name, t)
  }

  ghost predicate Rewrites(e: Event, name: string, t: int) {
    e.Write? && e.ts == t && HasReading(e.points, name)
  }

  ghost predicate WrittenLast(events: seq<Event>, name: string, t: int, v: real) {
    exists i :: LastWriteAt(events, name, t, v, i)
  }

  lemma LastRewrites(events: seq<Event>, name: string, t: int, v: real, i: int)
    requires LastWriteAt(events, name, t, v, i)
    ensures Rewrites(events[i], name, t)
  {
    var j :| IsLast(events[i].points, name, v, j);
    assert Reads(events[i].points[j], name);
  }

  lemma WrittenLastFront(events: seq<Event>, name: string, t: int, v: real)
    requires events != [] && !Rewrites(events[|events| - 1], name, t)
    ensures WrittenLast(events, name, t, v) <==> WrittenLast(events[..|events| - 1], name, t, v)
  {
    var n := |events| - 1;
    if WrittenLast(events, name, t, v) {
      var i :| LastWriteAt(events, name, t, v, i);
      LastRewrites(events, name, t, v, i);
      assert LastWriteAt(events[..n], name, t, v, i);
    }
    if WrittenLast(events[..n], name, t, v) {
      var i :| LastWriteAt(events[..n], name, t, v, i);
      assert LastWriteAt(events, name, t, v, i);
    }
  }

  lemma WrittenNow(events: seq<Event>, name: string, t: int, v: real)
    requires events != [] && Rewrites(events[|events| - 1], name, t)
    ensures WrittenLast(events, name, t, v) <==> LastOf(events[|events| - 1].points, name, v)
  {
    var n := |events| - 1;
    if WrittenLast(events, name, t, v) {
      var i :| LastWriteAt(events, name, t, v, i);
      assert i == n;
    }
    if LastOf(events[n].points, name, v) {
      assert LastWriteAt(events, name, t, v, n);
    }
  }

  /** The ledger's raw rows are exactly the last values written. */
  lemma {:induction false} BookRawIs(events: seq<Event>, name: string, t: int)
    ensures
      var raw := BookOf(events, name).raw;
      && (t in raw ==> Single(raw[t], raw[t].avg))
      && forall v :: WrittenLast(events, name, t, v) <==> t in raw && raw[t].avg == v
    decreases |events|
  {
    if events != [] {
      var n := |events| - 1;
      var e := events[n];
      BookRawIs(events[..n], name, t);
      if Rewrites(e, name, t) {
        LastReadingIs(e.points, name);
        forall v
          ensures WrittenLast(events, name, t, v) <==> LastOf(e.points, name, v)
        {
          WrittenNow(events, name, t, v);
        }
      } else {
        if e.Write? {
          LastReadingIs(e.points, name);
        }
        forall v
          ensures WrittenLast(events, name, t, v) <==> WrittenLast(events[..n], name, t, v)
        {
          WrittenLastFront(events, name, t, v);
        }
      }
    }
  }

  /** Every raw point a query returns for a name carries, in all three columns, the value of the last finite
      reading written for that name at that timestamp. */
  lemma RawPointIsLast(states: seq<Db>, events: seq<Event>, metric: string, from: int, to: int, limit: nat,
                       out: Columns, i: nat)
    requires Run(states, events) && Orderly(events) && SoundFor(states, events, metric)
    requires Answers(Rows(states[|events|], metric).Tier(15), from, to, limit, out) && i < |out.t|
    ensures WrittenLast(events, metric, out.t[i], out.avg[i]) && out.min[i] == out.avg[i] == out.max[i]
  {
    EveryReplyIsOwn(states, events, metric, 15, from, to, limit, out);
    assert FromBook(BookOf(events, metric).Tier(15), out, i);
    BookRawIs(events, metric, out.t[i]);
  }

  /** The readings of a name: timestamp to the last value written. */
  function Readings(events: seq<Event>, name: string): map<int, real> {
    map t | t in BookOf(events, name).raw :: BookOf(events, name).raw[t].avg
  }

  lemma ReadingsAre(events: seq<Event>, name: string, t: int, v: real)
    ensures t in Readings(events, name) && Readings(events, name)[t] == v <==> WrittenLast(events, name, t, v)
  {
    BookRawIs(events, name, t);
  }

  // ---- plain sums ----

  /** The plain sum of the readings stamped in [lo, hi). */
  function Sum(readings: map<int, real>, lo: int, hi: int): real
    decreases hi - lo
  {
    if hi <= lo then 0.0 else Sum(readings, lo, hi - 1) + if hi - 1 in readings then readings[hi - 1] else 0.0
  }

  /** The sum of avg*n over the rows stamped in [lo, hi). */
  function Weighted(col: Column, lo: int, hi: int): real
    decreases hi - lo
  {
    if hi <= lo then 0.0
    else Weighted(col, lo, hi - 1) + if hi - 1 in col then col[hi - 1].avg * col[hi - 1].n as real else 0.0
  }

  /** The sum of n over those rows. */
  function CountOf(col: Column, lo: int, hi: int): int
    decreases hi - lo
  {
    if hi <= lo then 0 else CountOf(col, lo, hi - 1) + if hi - 1 in col then col[hi - 1].n else 0
  }

  lemma {:induction false} FoldSums(col: Column, lo: int, hi: int)
    ensures Fold(col, lo, hi).Nothing? ==> Weighted(col, lo, hi) == 0.0 && CountOf(col, lo, hi) == 0
    ensures Fold(col, lo, hi).Total? ==>
              Fold(col, lo, hi).sum == Weighted(col, lo, hi) && Fold(col, lo, hi).n == CountOf(col, lo, hi)
    decreases hi - lo
  {
    if lo < hi {
      FoldSums(col, lo, hi - 1);
    }
  }

  /** The row's count is the sum of the counts, and its average times that the sum of average times count,
      over the rows stamped in [lo, hi). */
  ghost predicate Averages(row: Row, col: Column, lo: int, hi: int) {
    row.n == CountOf(col, lo, hi) && row.avg * row.n as real == Weighted(col, lo, hi)
  }

  lemma SummaryAverages(row: Row, total: Total, src: Column, lo: int, hi: int)
    requires total == Fold(src, lo, hi) && total.Total? && row == Summary(total)
    ensures Averages(row, src, lo, hi)
  {
    FoldSums(src, lo, hi);
    WeighSummary(total);
  }

  lemma GroupAverages(row: Row, samples: Samples, from: int, to: int, lo: int, k: Key, t: int)
    requires to > 0 && Max(lo, k.ts) <= t < k.ts + to && Key(from, t, k.mid) in samples
    requires
      var total := GroupTotal(ColumnOf(samples, from, k.mid), lo, k.ts, to);
      total.Total? ==> row == Summary(total)
    ensures GroupTotal(ColumnOf(samples, from, k.mid), lo, k.ts, to).Total?
    ensures Averages(row, ColumnOf(samples, from, k.mid), Max(lo, k.ts), k.ts + to)
  {
    var src := ColumnOf(samples, from, k.mid);
    assert t in src;
    SummaryAverages(row, GroupTotal(src, lo, k.ts, to), src, Max(lo, k.ts), k.ts + to);
  }

  /** What a rollup statement writes for a bucket with a selected row in it. */
  lemma RolledAverage(samples: Samples, from: int, to: int, lo: int, k: Key, t: int)
    requires to > 0 && k.res == to && Aligned(k.ts, to)
    requires Max(lo, k.ts) <= t < k.ts + to && Key(from, t, k.mid) in samples
    ensures k in RollUp(samples, from, to, lo)
    ensures Averages(RollUp(samples, from, to, lo)[k], ColumnOf(samples, from, k.mid), Max(lo, k.ts), k.ts + to)
  {
    var r := RollUp(samples, from, to, lo);
    RollUpAt(samples, from, to, lo, k);
    GroupAverages(if k in r then r[k] else RawRow(0.0), samples, from, to, lo, k, t);
  }

  lemma {:induction false} RawSums(raw: Column, readings: map<int, real>, lo: int, hi: int)
    requires forall t :: t in raw <==> t in readings
    requires forall t :: t in raw ==> Single(raw[t], readings[t])
    ensures Weighted(raw, lo, hi) == Sum(readings, lo, hi)
    decreases hi - lo
  {
    if lo < hi {
      RawSums(raw, readings, lo, hi - 1);
    }
  }

  // ---- what is shown ----

  ghost function Within(readings: map<int, real>, lo: int, hi: int): set<int> {
    set t | t in readings && lo <= t < hi
  }

  /** The row holds the number, mean, least and greatest of the readings of its bucket. */
  ghost predicate PlainRow(row: Row, readings: map<int, real>, lo: int, hi: int) {
    && row.n == |Within(readings, lo, hi)|
    && row.avg * row.n as real == Sum(readings, lo, hi)
    && (forall t :: t in readings && lo <= t < hi ==> row.min <= readings[t] <= row.max)
    && (exists t :: t in readings && lo <= t < hi && readings[t] == row.min)
    && (exists t :: t in readings && lo <= t < hi && readings[t] == row.max)
  }

  lemma SummaryIsPlain(row: Row, total: Total, raw: Column, readings: map<int, real>, lo: int, hi: int)
    requires forall t :: t in raw <==> t in readings
    requires forall t :: t in raw ==> Single(raw[t], readings[t])
    requires total == Fold(raw, lo, hi) && total.Total? && row == Summary(total)
    ensures PlainRow(row, readings, lo, hi)
  {
    FoldSums(raw, lo, hi);
    RawSums(raw, readings, lo, hi);
    FoldCounts(raw, lo, hi);
    FoldExtremes(raw, lo, hi);
    WeighSummary(total);
    assert Covered(raw, lo, hi) == Within(readings, lo, hi);
  }

  lemma ReadingsSingle(events: seq<Event>, name: string)
    ensures
      var raw, readings := BookOf(events, name).raw, Readings(events, name);
      forall t :: t in raw ==> Single(raw[t], readings[t])
  {
    var raw := BookOf(events, name).raw;
    forall t | t in raw
      ensures Single(raw[t], raw[t].avg)
    {
      BookRawIs(events, name, t);
    }
  }

  ghost predicate HasAny(readings: map<int, real>, lo: int, hi: int) {
    exists t :: t in readings && lo <= t < hi
  }

  /** At `b` the tier shows a row exactly if `b` starts a retained bucket with a reading in it, and then
      the row is the plain summary of those readings. */
  ghost predicate PlainAt(tier: Column, readings: map<int, real>, width: int, cut: int, b: int)
    requires width > 0
  {
    && (b in tier <==> b % width == 0 && cut <= b && HasAny(readings, b, b + width))
    && (b in tier ==> PlainRow(tier[b], readings, b, b + width))
  }

  ghost predicate PlainTier(tier: Column, readings: map<int, real>, width: int, cut: int)
    requires width > 0
  {
    forall b :: PlainAt(tier, readings, width, cut, b)
  }

  lemma SomeReading(raw: Column, readings: map<int, real>, lo: int, hi: int)
    requires forall t :: t in raw <==> t in readings
    ensures Fold(raw, lo, hi).Total? <==> HasAny(readings, lo, hi)
  {
  }

  lemma ExpectedAtIsPlain(raw: Column, readings: map<int, real>, width: int, cut: int, b: int)
    requires width > 0
    requires forall t :: t in raw <==> t in readings
    requires forall t :: t in raw ==> Single(raw[t], readings[t])
    ensures PlainAt(Expected(raw, width, cut), readings, width, cut, b)
  {
    var tier := Expected(raw, width, cut);
    var total := Fold(raw, b, b + width);
    ExpectedRow(raw, width, cut, b, total);
    PlainOf(tier, total, raw, readings, width, cut, b);
  }

  lemma PlainOf(tier: Column, total: Total, raw: Column, readings: map<int, real>, width: int, cut: int, b: int)
    requires width > 0 && total == Fold(raw, b, b + width)
    requires forall t :: t in raw <==> t in readings
    requires forall t :: t in raw ==> Single(raw[t], readings[t])
    requires b in tier <==> b % width == 0 && cut <= b && total.Total?
    requires b in tier ==> tier[b] == Summary(total)
    ensures PlainAt(tier, readings, width, cut, b)
  {
    SomeReading(raw, readings, b, b + width);
    if b in tier {
      SummaryIsPlain(tier[b], total, raw, readings, b, b + width);
    }
  }

  lemma ExpectedRow(raw: Column, width: int, cut: int, b: int, total: Total)
    requires width > 0 && total == Fold(raw, b, b + width)
    ensures b in Expected(raw, width, cut) <==> b % width == 0 && cut <= b && total.Total?
    ensures b in Expected(raw, width, cut) ==> Expected(raw, width, cut)[b] == Summary(total)
  {
    ExpectedAt(raw, width, cut, b);
  }

  lemma ExpectedIsPlain(raw: Column, readings: map<int, real>, width: int, cut: int)
    requires width > 0
    requires forall t :: t in raw <==> t in readings
    requires forall t :: t in raw ==> Single(raw[t], readings[t])
    ensures PlainTier(Expected(raw, width, cut), readings, width, cut)
  {
    forall b
      ensures PlainAt(Expected(raw, width, cut), readings, width, cut, b)
    {
      ExpectedAtIsPlain(raw, readings, width, cut, b);
    }
  }

  /** End to end, in plain terms. Over every run at the cadence, after a compaction at `now`: the raw points
      are the readings of the last 172,800 seconds; a five-minute row is there exactly for each bucket of
      the last 2,592,000 seconds with a reading ever recorded, and an hour row for each of the last
      15,552,000; each holds the number, mean, least and greatest of those readings. */
  lemma ShownIsPlain(states: seq<Db>, events: seq<Event>, name: string, gap: int, lag: int, now: int)
    requires Run(states, events) && Orderly(events) && SoundFor(states, events, name)
    requires Cadence(events, name, gap, lag) && gap + lag <= 301
    requires events != [] && events[|events| - 1] == Compact(now)
    ensures
      var shown, readings := Rows(states[|events|], name), Readings(events, name);
      && (forall t :: t in shown.raw <==> t in readings && now - 172_800 <= t)
      && (forall t :: t in shown.raw ==> Single(shown.raw[t], readings[t]))
      && PlainTier(shown.five, readings, 300, now - 2_592_000)
      && PlainTier(shown.hour, readings, 3600, now - 15_552_000)
  {
    var raw, readings := BookOf(events, name).raw, Readings(events, name);
    TiersShowHistory(states, events, name, gap, lag);
    ReadingsSingle(events, name);
    ExpectedIsPlain(raw, readings, 300, now - 2_592_000);
    ExpectedIsPlain(raw, readings, 3600, now - 15_552_000);
  }
}
