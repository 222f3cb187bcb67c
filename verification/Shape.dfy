/** What every row looks like in every reachable state. */
module Shape {
  import opened Buckets
  import opened Rollup
  import opened Tables
  import opened HistoryStore
  import opened History

  ghost predicate Ordered(row: Row) {
    row.min <= row.avg <= row.max
  }

  ghost predicate IsRaw(row: Row) {
    row.min == row.avg == row.max && row.n == 1
  }

  /** The readings a total weighs lie between its extremes. */
  ghost predicate Balanced(t: Total) {
    t.Total? ==> t.min * t.n as real <= t.sum <= t.max * t.n as real
  }

  lemma ScaleUp(a: real, b: real, n: real)
    requires a <= b && 0.0 <= n
    ensures a * n <= b * n
  {
  }

  lemma JoinBalanced(a: Total, b: Total)
    requires Balanced(a) && Balanced(b)
    ensures Balanced(Join(a, b))
  {
    if a.Total? && b.Total? {
      var lo, hi := Least(a.min, b.min), Greatest(a.max, b.max);
      ScaleUp(lo, a.min, a.n as real);
      ScaleUp(lo, b.min, b.n as real);
      ScaleUp(a.max, hi, a.n as real);
      ScaleUp(b.max, hi, b.n as real);
      assert lo * (a.n + b.n) as real == lo * a.n as real + lo * b.n as real;
      assert hi * (a.n + b.n) as real == hi * a.n as real + hi * b.n as real;
    }
  }

  lemma WeighBalanced(row: Row)
    requires Ordered(row)
    ensures Balanced(Weigh(row))
  {
    ScaleUp(row.min, row.avg, row.n as real);
    ScaleUp(row.avg, row.max, row.n as real);
  }

  lemma SummaryOrdered(t: Total)
    requires t.Total? && Balanced(t)
    ensures Ordered(Summary(t))
  {
    var n, avg := t.n as real, t.sum / t.n as real;
    assert avg * n == t.sum;
    if avg < t.min {
      assert (t.min - avg) * n > 0.0;
    }
    if t.max < avg {
      assert (avg - t.max) * n > 0.0;
    }
  }

  ghost predicate AllOrdered(col: Column) {
    forall t :: t in col ==> Ordered(col[t])
  }

  lemma {:induction false} FoldBalanced(col: Column, lo: int, hi: int)
    requires AllOrdered(col)
    ensures Balanced(Fold(col, lo, hi))
    decreases hi - lo
  {
    if lo < hi {
      FoldBalanced(col, lo, hi - 1);
      if hi - 1 in col {
        WeighBalanced(col[hi - 1]);
      }
      JoinBalanced(Fold(col, lo, hi - 1), At(col, hi - 1));
    }
  }

  /** A total's extremes bound every row it covers, and each is attained by one of them. */
  lemma {:induction false} FoldExtremes(col: Column, lo: int, hi: int)
    ensures forall t :: lo <= t < hi && t in col ==>
              Fold(col, lo, hi).Total? && Fold(col, lo, hi).min <= col[t].min && col[t].max <= Fold(col, lo, hi).max
    ensures Fold(col, lo, hi).Total? ==>
              && (exists t :: lo <= t < hi && t in col && col[t].min == Fold(col, lo, hi).min)
              && (exists t :: lo <= t < hi && t in col && col[t].max == Fold(col, lo, hi).max)
    decreases hi - lo
  {
    if lo < hi {
      FoldExtremes(col, lo, hi - 1);
    }
  }

  /** The timestamps a fold over [lo, hi) covers. */
  ghost function Covered(col: Column, lo: int, hi: int): set<int> {
    set t | t in col && lo <= t < hi
  }

  lemma CoveredStep(col: Column, lo: int, hi: int)
    requires lo < hi
    ensures |Covered(col, lo, hi)| == |Covered(col, lo, hi - 1)| + if hi - 1 in col then 1 else 0
  {
    var less := Covered(col, lo, hi - 1);
    assert Covered(col, lo, hi) == less + if hi - 1 in col then {hi - 1} else {};
    assert hi - 1 !in less;
  }

  /** Over raw rows a total's count is their number. */
  lemma {:induction false} FoldCounts(col: Column, lo: int, hi: int)
    requires forall t :: t in col ==> col[t].n == 1
    ensures |Covered(col, lo, hi)| == match Fold(col, lo, hi) case Nothing => 0 case Total(_, _, _, n) => n
    decreases hi - lo
  {
    if lo < hi {
      FoldCounts(col, lo, hi - 1);
      CoveredStep(col, lo, hi);
    } else {
      NoElement(Covered(col, lo, hi));
    }
  }

  /** Raw rows are single readings; rolled-up rows sit on bucket boundaries with their average
      between their extremes (that a count is at least one is part of the row type). */
  ghost predicate WellShaped(t: Track) {
    && (forall ts :: ts in t.raw ==> IsRaw(t.raw[ts]))
    && AllOrdered(t.five) && (forall ts :: ts in t.five ==> Aligned(ts, FIVE_MIN))
    && AllOrdered(t.hour) && (forall ts :: ts in t.hour ==> Aligned(ts, HOUR))
  }

  /** Every timestamp of every tier lies in [0, hi]. */
  ghost predicate Within(t: Track, hi: int) {
    && (forall ts :: ts in t.raw ==> 0 <= ts <= hi)
    && (forall ts :: ts in t.five ==> 0 <= ts <= hi)
    && (forall ts :: ts in t.hour ==> 0 <= ts <= hi)
  }

  lemma GroupOrdered(src: Column, lo: int, b: int, width: int)
    requires AllOrdered(src) && GroupTotal(src, lo, b, width).Total?
    ensures Ordered(Summary(GroupTotal(src, lo, b, width)))
  {
    FoldBalanced(src, Max(lo, b), b + width);
    SummaryOrdered(GroupTotal(src, lo, b, width));
  }

  lemma RollUpShapeAt(src: Column, dst: Column, width: int, lo: int, b: int)
    requires width > 0 && b in RollUpColumn(src, dst, width, lo)
    requires AllOrdered(src) && AllOrdered(dst) && forall t :: t in dst ==> Aligned(t, width)
    ensures Aligned(b, width) && Ordered(RollUpColumn(src, dst, width, lo)[b])
  {
    RollUpColumnAt(src, dst, width, lo, b);
    if GroupTotal(src, lo, b, width).Total? {
      GroupOrdered(src, lo, b, width);
    }
  }

  lemma RollUpShape(src: Column, dst: Column, width: int, lo: int)
    requires width > 0
    requires AllOrdered(src) && AllOrdered(dst) && forall t :: t in dst ==> Aligned(t, width)
    ensures AllOrdered(RollUpColumn(src, dst, width, lo))
    ensures forall t :: t in RollUpColumn(src, dst, width, lo) ==> Aligned(t, width)
  {
    var r := RollUpColumn(src, dst, width, lo);
    forall b | b in r
      ensures Aligned(b, width) && Ordered(r[b])
    {
      RollUpShapeAt(src, dst, width, lo, b);
    }
  }

  lemma NonNegative(b: int, width: int)
    requires width > 0 && Aligned(b, width) && 0 < b + width
    ensures 0 <= b
  {
    assert Aligned(0, width);
    if b < 0 {
      BoundariesApart(b, 0, width);
    }
  }

  lemma RollUpWithin(src: Column, dst: Column, width: int, lo: int, hi: int)
    requires width > 0
    requires forall t :: t in src ==> 0 <= t <= hi
    requires forall t :: t in dst ==> 0 <= t <= hi
    ensures forall t :: t in RollUpColumn(src, dst, width, lo) ==> 0 <= t <= hi
  {
    forall b | b in RollUpColumn(src, dst, width, lo)
      ensures 0 <= b <= hi
    {
      RollUpColumnAt(src, dst, width, lo, b);
      if Aligned(b, width) && GroupTotal(src, lo, b, width).Total? {
        var t :| Max(lo, b) <= t < b + width && t in src;
        NonNegative(b, width);
      }
    }
  }

  lemma RolledShape(t: Track, last: Option<int>, now: int)
    requires WellShaped(t)
    ensures WellShaped(RolledTrack(t, last, now))
  {
    RollUpShape(t.raw, t.five, FIVE_MIN, Lo5(last, now));
    RollUpShape(RolledTrack(t, last, now).five, t.hour, HOUR, Lo60(last, now));
  }

  lemma RolledWithin(t: Track, last: Option<int>, now: int, hi: int)
    requires Within(t, hi)
    ensures Within(RolledTrack(t, last, now), hi)
  {
    RollUpWithin(t.raw, t.five, FIVE_MIN, Lo5(last, now), hi);
    RollUpWithin(RolledTrack(t, last, now).five, t.hour, HOUR, Lo60(last, now), hi);
  }

  lemma TrimmedShape(t: Track, now: int)
    requires WellShaped(t)
    ensures WellShaped(TrimmedTrack(t, now))
  {
  }

  /** Every event keeps the shape and the range of the rows under an id. */
  lemma TrackKeepsShape(t: Track, e: Event, last: Option<int>, ids: map<string, int>, mid: int, hi: int)
    requires WellShaped(t) && Within(t, hi) && (e.Write? ==> e.ts <= hi)
    ensures WellShaped(TrackAfter(t, e, last, ids, mid)) && Within(TrackAfter(t, e, last, ids, mid), hi)
  {
    if e.Compact? {
      RolledShape(t, last, e.now);
      RolledWithin(t, last, e.now, hi);
      TrimmedShape(RolledTrack(t, last, e.now), e.now);
    }
  }

  ghost predicate WrittenBy(events: seq<Event>, hi: int) {
    forall i :: 0 <= i < |events| && events[i].Write? ==> events[i].ts <= hi
  }

  /** In every reachable state, whatever the memo holds and in whatever order compactions ran, the rows
      under every id are well shaped and lie between 0 and the latest write. */
  lemma {:induction false} TracksWellShaped(states: seq<Db>, events: seq<Event>, mid: int, hi: int)
    requires Run(states, events) && WrittenBy(events, hi)
    ensures WellShaped(TrackOf(states[|events|].samples, mid)) && Within(TrackOf(states[|events|].samples, mid), hi)
    decreases |events|
  {
    if events != [] {
      var n := |events| - 1;
      RunFront(states, events);
      assert forall i :: 0 <= i < n ==> events[..n][i] == events[i];
      TracksWellShaped(states[..n + 1], events[..n], mid, hi);
      TrackMoves(states[n], events[n], states[n + 1], mid);
      TrackKeepsShape(TrackOf(states[n].samples, mid), events[n], states[n].last, states[n + 1].ids, mid, hi);
    } else {
      NoRowsUnder(states[0].samples, mid);
    }
  }

  lemma {:induction false} WrittenBySome(events: seq<Event>) returns (hi: int)
    ensures WrittenBy(events, hi)
    decreases |events|
  {
    if events == [] {
      hi := 0;
    } else {
      var n := |events| - 1;
      hi := WrittenBySome(events[..n]);
      assert forall i :: 0 <= i < n ==> events[..n][i] == events[i];
      if events[n].Write? {
        hi := Max(hi, events[n].ts);
      }
    }
  }

  /** In every reachable state every row the store shows is well shaped. */
  lemma RowsWellShaped(states: seq<Db>, events: seq<Event>, name: string)
    requires Run(states, events)
    ensures WellShaped(Rows(states[|events|], name))
  {
    var hi := WrittenBySome(events);
    var db := states[|events|];
    if name in db.metric {
      TracksWellShaped(states, events, db.metric[name], hi);
    }
  }

  lemma RowsWithin(states: seq<Db>, events: seq<Event>, name: string, hi: int)
    requires Run(states, events) && WrittenBy(events, hi)
    ensures Within(Rows(states[|events|], name), hi)
  {
    var db := states[|events|];
    if name in db.metric {
      TracksWellShaped(states, events, db.metric[name], hi);
    }
  }
}
