/** How many rows a metric can hold, and why an automatic query is never cut short. */
module Capacity {
  import opened Buckets
  import opened Rollup
  import opened HistoryStore
  import opened History
  import opened Shape

  /** At most `k` boundaries fit in a span of `k` widths. */
  lemma {:induction false} Pigeonhole(s: set<int>, lo: int, hi: int, width: int, k: nat)
    requires width > 0 && hi <= lo + k * width
    requires forall t :: t in s ==> Aligned(t, width) && lo <= t < hi
    ensures |s| <= k
    decreases k
  {
    if k == 0 {
      assert forall t :: t !in s;
      NoElement(s);
    } else {
      Distribute(k, 1, width);
      var edge := hi - width;
      var top, rest := set t | t in s && edge <= t, set t | t in s && t < edge;
      assert s == top + rest;
      Pigeonhole(rest, lo, edge, width, k - 1);
      forall a, b | a in top && b in top
        ensures a == b
      {
        if a < b {
          BoundariesApart(a, b, width);
        } else if b < a {
          BoundariesApart(b, a, width);
        }
      }
      AtMostOne(top);
    }
  }

  lemma AtMostOne(s: set<int>)
    requires forall a, b :: a in s && b in s ==> a == b
    ensures |s| <= 1
  {
    if s != {} {
      HasElement(s);
      var a :| a in s;
      forall b
        ensures b !in s - {a}
      {
        assert b in s ==> b == a;
      }
      NoElement(s - {a});
      assert |s| == |s - {a}| + 1;
    }
  }

  lemma ColumnSize(col: Column, lo: int, hi: int, width: int, k: nat)
    requires width > 0 && hi < lo + k * width
    requires forall t :: t in col ==> Aligned(t, width) && lo <= t <= hi
    ensures |col| <= k
  {
    Pigeonhole(col.Keys, lo, hi + 1, width, k);
    assert |col| == |col.Keys|;
  }

  /** After a compaction at `now`, with no reading from the future, every metric holds at most 48 hours
      of seconds, 30 days of five-minute buckets and 180 days of hours. */
  lemma BoundedStorage(states: seq<Db>, events: seq<Event>, mid: int, now: int)
    requires Run(states, events) && events != [] && events[|events| - 1] == Compact(now) && WrittenBy(events, now)
    ensures
      var t := TrackOf(states[|events|].samples, mid);
      |t.raw| <= 172_801 && |t.five| <= 8_641 && |t.hour| <= 4_321
  {
    var n := |events| - 1;
    var t := TrackOf(states[|events|].samples, mid);
    RunFront(states, events);
    TrackMoves(states[n], events[n], states[n + 1], mid);
    TracksWellShaped(states, events, mid, now);
    ColumnSize(t.raw, now - RAW_RETENTION, now, 1, 172_801);
    ColumnSize(t.five, now - FIVE_MIN_RETENTION, now, FIVE_MIN, 8_641);
    ColumnSize(t.hour, now - HOUR_RETENTION, now, HOUR, 4_321);
  }

  /** The same for what a name shows. */
  lemma BoundedRows(states: seq<Db>, events: seq<Event>, name: string, now: int)
    requires Run(states, events) && events != [] && events[|events| - 1] == Compact(now) && WrittenBy(events, now)
    ensures
      var t := Rows(states[|events|], name);
      |t.raw| <= 172_801 && |t.five| <= 8_641 && |t.hour| <= 4_321
  {
    var db := states[|events|];
    if name in db.metric {
      BoundedStorage(states, events, db.metric[name], now);
    }
  }

  // ---- the hour tier between compactions ----

  /** Hour rows appear only at a compaction and outlive the next one only inside the retention. */
  ghost predicate HoursRetained(t: Track, last: Option<int>) {
    if last.None? then t.hour == map[] else forall ts :: ts in t.hour ==> last.value - HOUR_RETENTION <= ts
  }

  lemma {:induction false} HoursStayRetained(states: seq<Db>, events: seq<Event>, mid: int)
    requires Run(states, events)
    ensures HoursRetained(TrackOf(states[|events|].samples, mid), LastCompaction(events))
    decreases |events|
  {
    if events != [] {
      var n := |events| - 1;
      RunFront(states, events);
      HoursStayRetained(states[..n + 1], events[..n], mid);
      TrackMoves(states[n], events[n], states[n + 1], mid);
    } else {
      NoRowsUnder(states[0].samples, mid);
    }
  }

  // ---- queries ----

  const MAX_POINTS := 20_000

  lemma {:induction false} DistinctSize(ts: seq<int>)
    requires forall i, j :: 0 <= i < j < |ts| ==> ts[i] < ts[j]
    ensures |set t | t in ts| == |ts|
    decreases |ts|
  {
    if ts != [] {
      var front, last := ts[..|ts| - 1], ts[|ts| - 1];
      DistinctSize(front);
      assert ts == front + [last];
      assert (set t | t in ts) == (set t | t in front) + {last};
      assert last !in front;
    }
  }

  /** An answer that had room for every matching row holds exactly the matching rows. */
  lemma CompleteAnswer(col: Column, from: int, to: int, limit: nat, out: Columns)
    requires Answers(col, from, to, limit, out) && |Matching(col, from, to)| <= limit
    ensures forall t :: t in out.t <==> t in col && from <= t <= to
  {
    var got := set t | t in out.t;
    DistinctSize(out.t);
    forall i | 0 <= i < |out.t|
      ensures out.t[i] in Matching(col, from, to)
    {
      assert Copies(col, Matching(col, from, to), out, i);
    }
    assert got <= Matching(col, from, to);
    SubsetOfSameSize(got, Matching(col, from, to));
    assert forall t :: t in out.t <==> t in got;
    assert forall t :: t in Matching(col, from, to) <==> t in got;
  }

  lemma SubsetOfSameSize(a: set<int>, b: set<int>)
    requires a <= b && |a| == |b|
    ensures a == b
  {
    var extra := b - a;
    assert |b| == |a| + |extra| by {
      assert b == a + extra;
    }
    if extra != {} {
      HasElement(extra);
    }
  }

  /** When the resolution is picked from the span, the matching rows fit under the cap: at most
      3,601 raw rows, 289 five-minute rows, or as many hours as the retention leaves. */
  lemma AutomaticFits(states: seq<Db>, events: seq<Event>, name: string, from: int, to: int)
    requires Run(states, events)
    requires LastCompaction(events).Some? ==> WrittenBy(events, LastCompaction(events).value + 300)
    requires from <= to
    ensures |Matching(Rows(states[|events|], name).Tier(PickRes(to - from)), from, to)| <= MAX_POINTS
  {
    var t := Rows(states[|events|], name);
    RowsWellShaped(states, events, name);
    if to - from <= 3600 {
      Pigeonhole(Matching(t.raw, from, to), from, to + 1, 1, 3601);
    } else if to - from <= 86_400 {
      Pigeonhole(Matching(t.five, from, to), from, to + 1, FIVE_MIN, 289);
    } else {
      HoursFit(states, events, name, from, to);
    }
  }

  lemma HoursFit(states: seq<Db>, events: seq<Event>, name: string, from: int, to: int)
    requires Run(states, events)
    requires LastCompaction(events).Some? ==> WrittenBy(events, LastCompaction(events).value + 300)
    ensures |Matching(Rows(states[|events|], name).hour, from, to)| <= 4_321
  {
    var db, last := states[|events|], LastCompaction(events);
    var hour := Rows(db, name).hour;
    RowsWellShaped(states, events, name);
    if name in db.metric {
      HoursStayRetained(states, events, db.metric[name]);
    }
    if last.Some? {
      RowsWithin(states, events, name, last.value + 300);
      Pigeonhole(Matching(hour, from, to), last.value - HOUR_RETENTION, last.value + 301, HOUR, 4_321);
    } else {
      NoElement(Matching(hour, from, to));
    }
  }
}
