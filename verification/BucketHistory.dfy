/** Bucket by bucket, with no cadence: which readings a row is the aggregate of, when that is all of
    them, and exactly what a first compaction may find. */
module BucketHistory {
  import opened Buckets
  import opened Rollup
  import opened Tables
  import opened HistoryStore
  import opened History
  import opened Exactness
  import opened Shape

  /** The readings at the last compaction whose lower bound reached the five-minute bucket `b`. */
  function ReadingsSeen(events: seq<Event>, name: string, b: int): Column
    decreases |events|
  {
    if events == [] then map[]
    else
      var front, e := events[..|events| - 1], events[|events| - 1];
      if e.Compact? && Lo5(LastCompaction(front), e.now) <= b then BookOf(front, name).raw
      else ReadingsSeen(front, name, b)
  }

  /** The five-minute rows at the last compaction whose lower bound reached the hour `h`. */
  function FivesSeen(events: seq<Event>, name: string, h: int): Column
    decreases |events|
  {
    if events == [] then map[]
    else
      var front, e := events[..|events| - 1], events[|events| - 1];
      if e.Compact? && Lo60(LastCompaction(front), e.now) <= h then BookOf(events, name).five
      else FivesSeen(front, name, h)
  }

  lemma RowAfter(src: Column, dst: Column, seen: Column, width: int, lo: int, b: int)
    requires width > 0 && Aligned(lo, width)
    requires SummarisesAt(dst, seen, width, b) && GrewFrom(src, seen)
    ensures SummarisesAt(Recomputed(src, dst, width, lo), if lo <= b then src else seen, width, b)
  {
    RecomputedAt(src, dst, width, lo, b);
    if Aligned(b, width) && lo <= b && b in dst {
      GrownTotals(src, seen, width, b);
    }
  }

  /** A five-minute row is the aggregate of the readings seen, and there is one exactly if there were any. */
  lemma {:induction false} FiveRow(events: seq<Event>, name: string, b: int)
    ensures SummarisesAt(BookOf(events, name).five, ReadingsSeen(events, name, b), FIVE_MIN, b)
    ensures GrewFrom(BookOf(events, name).raw, ReadingsSeen(events, name, b))
    decreases |events|
  {
    if events != [] {
      var front, e := events[..|events| - 1], events[|events| - 1];
      FiveRow(front, name, b);
      if e.Compact? {
        var u := BookOf(front, name);
        RowAfter(u.raw, u.five, ReadingsSeen(front, name, b), FIVE_MIN, Lo5(LastCompaction(front), e.now), b);
      }
    }
  }

  lemma FivesGrow(u: Track, last: Option<int>, now: int)
    ensures GrewFrom(Recorded(u, last, now).five, u.five)
  {
    forall t | t in u.five
      ensures t in Recorded(u, last, now).five
    {
      RecomputedAt(u.raw, u.five, FIVE_MIN, Lo5(last, now), t);
    }
  }

  /** An hour row is the aggregate of the five-minute rows seen. */
  lemma {:induction false} HourRow(events: seq<Event>, name: string, h: int)
    ensures SummarisesAt(BookOf(events, name).hour, FivesSeen(events, name, h), HOUR, h)
    ensures GrewFrom(BookOf(events, name).five, FivesSeen(events, name, h))
    decreases |events|
  {
    if events != [] {
      var front, e := events[..|events| - 1], events[|events| - 1];
      HourRow(front, name, h);
      if e.Compact? {
        var u, last := BookOf(front, name), LastCompaction(front);
        FivesGrow(u, last, e.now);
        RowAfter(Recorded(u, last, e.now).five, u.hour, FivesSeen(front, name, h), HOUR, Lo60(last, e.now), h);
      }
    }
  }

  /** A row that aggregates one set of readings aggregates another if and only if their totals agree. */
  lemma SameRow(dst: Column, seen: Column, all: Column, width: int, b: int)
    requires width > 0 && Aligned(b, width) && SummarisesAt(dst, seen, width, b)
    ensures SummarisesAt(dst, all, width, b) <==> BucketTotal(seen, b, width) == BucketTotal(all, b, width)
  {
    var s, a := BucketTotal(seen, b, width), BucketTotal(all, b, width);
    if s.Total? {
      WeighSummary(s);
    }
    if a.Total? {
      WeighSummary(a);
    }
  }

  /** Over every list of events, at any cadence: a five-minute row is the aggregate of all readings of its
      bucket if and only if those have the same total as the ones seen by the last compaction that reached
      the bucket. */
  lemma FiveExactIffSeen(events: seq<Event>, name: string, b: int)
    requires Aligned(b, FIVE_MIN)
    ensures
      var u := BookOf(events, name);
      SummarisesAt(u.five, u.raw, FIVE_MIN, b)
      <==> BucketTotal(ReadingsSeen(events, name, b), b, FIVE_MIN) == BucketTotal(u.raw, b, FIVE_MIN)
  {
    var u := BookOf(events, name);
    FiveRow(events, name, b);
    SameRow(u.five, ReadingsSeen(events, name, b), u.raw, FIVE_MIN, b);
  }

  /** The same for an hour row, through the five-minute rows it was made from. */
  lemma HourExactIffSeen(events: seq<Event>, name: string, h: int)
    requires Aligned(h, HOUR)
    ensures
      var u := BookOf(events, name);
      SummarisesAt(u.hour, u.raw, HOUR, h)
      <==> BucketTotal(FivesSeen(events, name, h), h, HOUR) == BucketTotal(u.raw, h, HOUR)
  {
    var u := BookOf(events, name);
    HourRow(events, name, h);
    SameRow(u.hour, FivesSeen(events, name, h), u.raw, HOUR, h);
  }

  /** No reading of the bucket changed between the two. */
  ghost predicate Unchanged(all: Column, seen: Column, b: int, width: int) {
    forall t :: b <= t < b + width ==> SameAt(all, seen, t)
  }

  /** So a row is right whenever nothing in its bucket changed since it was last reached, as after a long
      downtime, */
  lemma UnchangedIsExact(events: seq<Event>, name: string, b: int)
    requires Aligned(b, FIVE_MIN) && Unchanged(BookOf(events, name).raw, ReadingsSeen(events, name, b), b, FIVE_MIN)
    ensures SummarisesAt(BookOf(events, name).five, BookOf(events, name).raw, FIVE_MIN, b)
  {
    SameTotals(BookOf(events, name).raw, ReadingsSeen(events, name, b), FIVE_MIN, b);
    FiveExactIffSeen(events, name, b);
  }

  lemma {:induction false} RawCounts(events: seq<Event>, name: string)
    ensures forall t :: t in BookOf(events, name).raw ==> BookOf(events, name).raw[t].n == 1
    decreases |events|
  {
    if events != [] {
      RawCounts(events[..|events| - 1], name);
    }
  }

  lemma {:induction false} SeenIsRaw(events: seq<Event>, name: string, b: int)
    ensures forall t :: t in ReadingsSeen(events, name, b) ==> ReadingsSeen(events, name, b)[t].n == 1
    decreases |events|
  {
    if events != [] {
      RawCounts(events[..|events| - 1], name);
      SeenIsRaw(events[..|events| - 1], name, b);
    }
  }

  lemma MoreRows(all: Column, seen: Column, lo: int, hi: int, t: int)
    requires GrewFrom(all, seen) && lo <= t < hi && t in all && t !in seen
    ensures |Covered(seen, lo, hi)| < |Covered(all, lo, hi)|
  {
    var more, less := Covered(all, lo, hi), Covered(seen, lo, hi);
    assert less <= more - {t};
    assert more - {t} == less + (more - {t} - less);
    assert |more - {t}| == |more| - 1;
  }

  /** and wrong whenever a reading was added to its bucket since. */
  lemma AddedIsInexact(events: seq<Event>, name: string, b: int, t: int)
    requires Aligned(b, FIVE_MIN) && b <= t < b + FIVE_MIN
    requires t in BookOf(events, name).raw && t !in ReadingsSeen(events, name, b)
    ensures !SummarisesAt(BookOf(events, name).five, BookOf(events, name).raw, FIVE_MIN, b)
  {
    var all, seen := BookOf(events, name).raw, ReadingsSeen(events, name, b);
    FiveRow(events, name, b);
    RawCounts(events, name);
    SeenIsRaw(events, name, b);
    FoldCounts(all, b, b + FIVE_MIN);
    FoldCounts(seen, b, b + FIVE_MIN);
    MoreRows(all, seen, b, b + FIVE_MIN, t);
    FiveExactIffSeen(events, name, b);
  }

  /** What the store shows: right after a compaction a retained five-minute bucket is shown as the
      aggregate of all its readings if and only if those the compactions saw have their total. */
  lemma ShownIffSeen(states: seq<Db>, events: seq<Event>, name: string, b: int)
    requires Run(states, events) && Orderly(events) && SoundFor(states, events, name)
    requires events != [] && events[|events| - 1].Compact?
    requires Aligned(b, FIVE_MIN) && events[|events| - 1].now - FIVE_MIN_RETENTION <= b
    ensures
      var raw, now := BookOf(events, name).raw, events[|events| - 1].now;
      SameAt(Rows(states[|events|], name).five, HistoryTrack(raw, now).five, b)
      <==> BucketTotal(ReadingsSeen(events, name, b), b, FIVE_MIN) == BucketTotal(raw, b, FIVE_MIN)
  {
    var u, now := BookOf(events, name), events[|events| - 1].now;
    AfterCompaction(states, events, name);
    FiveExactIffSeen(events, name, b);
    ExpectedAt(u.raw, FIVE_MIN, now - FIVE_MIN_RETENTION, b);
  }

  // ---- the first compaction ----

  lemma FirstReaches(u: Track, now: int)
    requires u.five == map[] && u.hour == map[]
    requires (forall t :: t in u.raw ==> 0 <= t) && Reachable(u.raw, now)
    ensures TrimmedTrack(Recorded(u, None, now), now) == HistoryTrack(u.raw, now)
  {
    var from := now - HOUR_RETENTION;
    forall t | !SameAt(u.raw, map[], t) && Lives(from, t)
      ensures Lo5(None, now) <= Bucket(t, FIVE_MIN) && Lo60(None, now) <= Bucket(t, HOUR)
    {
      FirstBoundsReach(now, t);
    }
    EmptySummarises(from);
    RecordedExact(u, map[], None, now, from);
    ExactTrack(Recorded(u, None, now), now, from);
  }

  lemma EmptySummarises(from: int)
    ensures SummarisesFrom(map[], map[], FIVE_MIN, from) && SummarisesFrom(map[], map[], HOUR, from)
  {
  }

  /** A reading below the first lower bound, in an hour still retained, is missing from that hour. */
  lemma FirstMisses(u: Track, now: int, t: int)
    requires u.five == map[] && u.hour == map[] && t in u.raw && 0 <= t
    requires Bucket(t, FIVE_MIN) < now - RAW_RETENTION && now - HOUR_RETENTION <= Bucket(t, HOUR)
    ensures TrimmedTrack(Recorded(u, None, now), now) != HistoryTrack(u.raw, now)
  {
    var h, lo := Bucket(t, HOUR), Lo5(None, now);
    var five := Recomputed(u.raw, map[], FIVE_MIN, lo);
    HourMisses(u.raw, five, lo, h, t);
    RecomputedAt(five, map[], HOUR, Lo60(None, now), h);
    ExpectedAt(u.raw, HOUR, now - HOUR_RETENTION, h);
    if BucketTotal(five, h, HOUR).Total? {
      WeighSummary(BucketTotal(five, h, HOUR));
    }
    WeighSummary(BucketTotal(u.raw, h, HOUR));
    assert !SameAt(TrimmedTrack(Recorded(u, None, now), now).hour, HistoryTrack(u.raw, now).hour, h);
  }

  lemma HourMisses(raw: Column, five: Column, lo: int, h: int, t: int)
    requires five == Recomputed(raw, map[], FIVE_MIN, lo) && Aligned(lo, FIVE_MIN) && Aligned(h, HOUR)
    requires t in raw && h <= t < h + HOUR && Bucket(t, FIVE_MIN) < lo
    ensures BucketTotal(raw, h, HOUR).Total? && BucketTotal(five, h, HOUR) != BucketTotal(raw, h, HOUR)
  {
    HourIsTwelve(h);
    BoundariesApart(Bucket(t, FIVE_MIN), lo, FIVE_MIN);
    StretchMisses(raw, five, lo, h, h + HOUR, if lo <= h + HOUR then lo else h + HOUR, t);
  }

  lemma StretchMisses(raw: Column, five: Column, lo: int, from: int, to: int, mid: int, t: int)
    requires five == Recomputed(raw, map[], FIVE_MIN, lo) && Aligned(lo, FIVE_MIN)
    requires t in raw && from <= t < mid <= to && mid <= lo && (mid == lo || mid == to)
    requires Aligned(mid, FIVE_MIN) && Aligned(to, FIVE_MIN)
    ensures Fold(raw, from, to).Total? && Fold(five, from, to) != Fold(raw, from, to)
  {
    NothingBelow(raw, five, lo, from, mid);
    SameAbove(raw, five, lo, mid, to);
    FoldSplit(five, from, mid, to);
    FoldSplit(raw, from, mid, to);
    FoldHas(raw, from, mid, t);
    JoinMore(Fold(raw, from, mid), Fold(raw, mid, to));
  }

  lemma FoldHas(col: Column, lo: int, hi: int, t: int)
    requires t in col && lo <= t < hi
    ensures Fold(col, lo, hi).Total?
  {
  }

  lemma JoinMore(a: Total, b: Total)
    requires a.Total?
    ensures Join(a, b).Total? && Join(a, b) != b
  {
  }

  lemma SameAbove(raw: Column, five: Column, lo: int, mid: int, hi: int)
    requires five == Recomputed(raw, map[], FIVE_MIN, lo) && Aligned(lo, FIVE_MIN)
    requires mid <= hi && (mid == lo || mid == hi) && Aligned(mid, FIVE_MIN) && Aligned(hi, FIVE_MIN)
    ensures Fold(five, mid, hi) == Fold(raw, mid, hi)
  {
    forall b | mid <= b < hi
      ensures SummarisesAt(five, raw, FIVE_MIN, b)
    {
      RecomputedAt(raw, map[], FIVE_MIN, lo, b);
    }
    TwoLevel(five, raw, FIVE_MIN, mid, hi);
  }

  lemma NothingBelow(raw: Column, five: Column, lo: int, h: int, mid: int)
    requires five == Recomputed(raw, map[], FIVE_MIN, lo) && Aligned(lo, FIVE_MIN) && mid <= lo
    ensures Fold(five, h, mid).Nothing?
  {
    forall b | h <= b < mid
      ensures b !in five
    {
      RecomputedAt(raw, map[], FIVE_MIN, lo, b);
    }
  }

  /** The exact condition of a first compaction: the store then shows the whole history if and only if each
      reading's five-minute bucket starts inside the raw retention or its hour is already past the hour
      retention. */
  lemma FirstCompactionIff(states: seq<Db>, events: seq<Event>, name: string, now: int)
    requires Run(states, events) && Orderly(events) && SoundFor(states, events, name)
    requires events != [] && events[|events| - 1] == Compact(now) && LastCompaction(events[..|events| - 1]).None?
    ensures
      var raw := BookOf(events, name).raw;
      Rows(states[|events|], name) == HistoryTrack(raw, now) <==> Reachable(raw, now)
  {
    var front := events[..|events| - 1];
    var u := BookOf(front, name);
    AfterCompaction(states, events, name);
    NothingFrozen(front, name);
    RawNonNegative(front, name);
    if Reachable(u.raw, now) {
      FirstReaches(u, now);
    } else {
      var t :| t in u.raw && !(now - RAW_RETENTION <= Bucket(t, FIVE_MIN) || Bucket(t, HOUR) < now - HOUR_RETENTION);
      FirstMisses(u, now, t);
    }
  }
}
