/** When the rolled-up tiers equal the aggregate of everything ever recorded. */
module Exactness {
  import opened Buckets
  import opened Rollup
  import opened Tables
  import opened HistoryStore
  import opened History

  /** The tier a store with unlimited memory would show: for each bucket starting at or after the
      cut, the aggregate of every reading in it. A function of the readings and the cut alone. */
  function Expected(readings: Column, width: int, cut: int): Column
    requires width > 0
  {
    map t | t in readings && Bucket(t, width) >= cut :: Bucket(t, width) := WholeBucketRow(readings, width, t)
  }

  lemma ExpectedAt(readings: Column, width: int, cut: int, b: int)
    requires width > 0
    ensures
      var e := Expected(readings, width, cut);
      var total := BucketTotal(readings, b, width);
      if Aligned(b, width) && cut <= b && total.Total?
      then b in e && e[b] == Summary(total)
      else b !in e
  {
    var total := BucketTotal(readings, b, width);
    if Aligned(b, width) && cut <= b && total.Total? {
      var t :| b <= t < b + width && t in readings;
      BucketUnique(t, b, width);
    } else {
      assert forall t :: t in readings && Bucket(t, width) >= cut ==> Bucket(t, width) != b;
    }
  }

  lemma SummaryIsExpected(dst: Column, readings: Column, width: int, cut: int, from: int)
    requires (width == FIVE_MIN || width == HOUR) && SummarisesFrom(dst, readings, width, from)
    requires from <= cut - (HOUR - width)
    ensures PruneColumn(dst, cut) == Expected(readings, width, cut)
  {
    forall b
      ensures SameAt(PruneColumn(dst, cut), Expected(readings, width, cut), b)
    {
      ExpectedAt(readings, width, cut, b);
      if cut <= b {
        if Aligned(b, width) {
          LivesFrom(b, width, cut, from);
        }
        assert SummarisesAt(dst, readings, width, b);
      }
    }
    ColumnsEqual(PruneColumn(dst, cut), Expected(readings, width, cut));
  }

  /** A five-minute bucket ends no later than its hour. */
  lemma HourHolds(b: int)
    requires Aligned(b, FIVE_MIN)
    ensures b + FIVE_MIN <= Bucket(b, HOUR) + HOUR
  {
    HourIsTwelve(Bucket(b, HOUR));
    BoundariesApart(b, Bucket(b, HOUR) + HOUR, FIVE_MIN);
  }

  /** A bucket at or after a tier's cut belongs to an hour that starts no earlier than so much before. */
  lemma LivesFrom(b: int, width: int, cut: int, from: int)
    requires width == FIVE_MIN || width == HOUR
    requires Aligned(b, width) && cut <= b && from <= cut - (HOUR - width)
    ensures Lives(from, b)
  {
    if width == FIVE_MIN {
      HourHolds(b);
    } else {
      BucketUnique(b, b, HOUR);
    }
  }

  // ---- what a compaction reaches ----

  /** The readings as they stood at the last compaction. */
  function Frozen(events: seq<Event>, name: string): Column
    decreases |events|
  {
    if events == [] then map[]
    else if events[|events| - 1].Compact? then BookOf(events, name).raw
    else Frozen(events[..|events| - 1], name)
  }

  /** The hour of `t` starts at or after `from`. */
  ghost predicate Lives(from: int, t: int) {
    from <= Bucket(t, HOUR)
  }

  /** `dst` is the `width` tier of the readings in `src`, as far as hours from `from` on go. */
  ghost predicate SummarisesFrom(dst: Column, src: Column, width: int, from: int)
    requires width > 0
  {
    forall b :: (Aligned(b, width) ==> Lives(from, b)) ==> SummarisesAt(dst, src, width, b)
  }

  /** Readings of those hours in buckets below the bound did not change since the last compaction. */
  ghost predicate Settled(readings: Column, before: Column, width: int, lo: int, from: int)
    requires width > 0
  {
    forall t :: Lives(from, t) && Bucket(t, width) < lo ==> SameAt(readings, before, t)
  }

  ghost predicate GrewFrom(readings: Column, before: Column) {
    forall t :: t in before ==> t in readings
  }

  lemma SameTotals(readings: Column, before: Column, width: int, b: int)
    requires forall t :: b <= t < b + width ==> SameAt(readings, before, t)
    ensures BucketTotal(readings, b, width) == BucketTotal(before, b, width)
  {
    forall t | b <= t < b + width
      ensures At(readings, t) == At(before, t)
    {
      assert SameAt(readings, before, t);
    }
    FoldCongruent(readings, before, b, b + width);
  }

  lemma GrownTotals(readings: Column, before: Column, width: int, b: int)
    requires GrewFrom(readings, before) && BucketTotal(before, b, width).Total?
    ensures BucketTotal(readings, b, width).Total?
  {
    var t :| b <= t < b + width && t in before;
    assert t in readings;
  }

  /** A rollup makes a bucket exact again if it reaches it, or if nothing in it changed. */
  lemma RecomputedExactAt(src: Column, dst: Column, readings: Column, before: Column, width: int, lo: int, b: int)
    requires width > 0 && Aligned(lo, width)
    requires Aligned(b, width) ==> BucketTotal(src, b, width) == BucketTotal(readings, b, width)
    requires SummarisesAt(dst, before, width, b) && GrewFrom(readings, before)
    requires Aligned(b, width) && b < lo ==> forall t :: b <= t < b + width ==> SameAt(readings, before, t)
    ensures SummarisesAt(Recomputed(src, dst, width, lo), readings, width, b)
  {
    RecomputedAt(src, dst, width, lo, b);
    if Aligned(b, width) {
      if lo <= b {
        if b in dst {
          GrownTotals(readings, before, width, b);
        }
      } else {
        SameTotals(readings, before, width, b);
      }
    }
  }

  lemma SameHour(b: int, t: int, width: int)
    requires width == FIVE_MIN || width == HOUR
    requires Aligned(b, width) && b <= t < b + width
    ensures Bucket(t, HOUR) == Bucket(b, HOUR)
  {
    if width == FIVE_MIN {
      HourHolds(b);
      BucketUnique(t, Bucket(b, HOUR), HOUR);
    } else {
      BucketUnique(b, b, HOUR);
      BucketUnique(t, b, HOUR);
    }
  }

  lemma SettledAt(readings: Column, before: Column, width: int, lo: int, from: int, b: int)
    requires width == FIVE_MIN || width == HOUR
    requires Settled(readings, before, width, lo, from) && Aligned(b, width) && Lives(from, b) && b < lo
    ensures forall t :: b <= t < b + width ==> SameAt(readings, before, t)
  {
    forall t | b <= t < b + width
      ensures SameAt(readings, before, t)
    {
      SameHour(b, t, width);
      BucketUnique(t, b, width);
    }
  }

  lemma RecomputedExact(src: Column, dst: Column, readings: Column, before: Column, width: int, lo: int, from: int)
    requires (width == FIVE_MIN || width == HOUR) && Aligned(lo, width)
    requires forall b :: Aligned(b, width) && Lives(from, b) ==>
                           BucketTotal(src, b, width) == BucketTotal(readings, b, width)
    requires SummarisesFrom(dst, before, width, from)
    requires GrewFrom(readings, before) && Settled(readings, before, width, lo, from)
    ensures SummarisesFrom(Recomputed(src, dst, width, lo), readings, width, from)
  {
    forall b | Aligned(b, width) ==> Lives(from, b)
      ensures SummarisesAt(Recomputed(src, dst, width, lo), readings, width, b)
    {
      assert SummarisesAt(dst, before, width, b);
      if Aligned(b, width) && b < lo {
        SettledAt(readings, before, width, lo, from, b);
      }
      RecomputedExactAt(src, dst, readings, before, width, lo, b);
    }
  }

  lemma HoursFollow(five: Column, raw: Column, from: int, h: int)
    requires SummarisesFrom(five, raw, FIVE_MIN, from) && Aligned(h, HOUR) && Lives(from, h)
    ensures BucketTotal(five, h, HOUR) == BucketTotal(raw, h, HOUR)
  {
    forall t | h <= t < h + HOUR
      ensures SummarisesAt(five, raw, FIVE_MIN, t)
    {
      SameHour(h, t, HOUR);
    }
    HourFromFiveMinutes(five, raw, h);
  }

  /** One compaction keeps both tiers exact if both lower bounds reach every changed bucket. */
  lemma RecordedExact(u: Track, before: Column, last: Option<int>, now: int, from: int)
    requires SummarisesFrom(u.five, before, FIVE_MIN, from) && SummarisesFrom(u.hour, before, HOUR, from)
    requires GrewFrom(u.raw, before)
    requires Settled(u.raw, before, FIVE_MIN, Lo5(last, now), from)
    requires Settled(u.raw, before, HOUR, Lo60(last, now), from)
    ensures SummarisesFrom(Recorded(u, last, now).five, u.raw, FIVE_MIN, from)
    ensures SummarisesFrom(Recorded(u, last, now).hour, u.raw, HOUR, from)
  {
    RecomputedExact(u.raw, u.five, u.raw, before, FIVE_MIN, Lo5(last, now), from);
    var five := Recomputed(u.raw, u.five, FIVE_MIN, Lo5(last, now));
    forall h | Aligned(h, HOUR) && Lives(from, h)
      ensures BucketTotal(five, h, HOUR) == BucketTotal(u.raw, h, HOUR)
    {
      HoursFollow(five, u.raw, from, h);
    }
    RecomputedExact(five, u.hour, u.raw, before, HOUR, Lo60(last, now), from);
  }

  /** Every compaction of the run reached every bucket of `name` that changed since the one before. */
  ghost predicate Reached(events: seq<Event>, name: string, from: int)
    decreases |events|
  {
    events == [] ||
    var front, e := events[..|events| - 1], events[|events| - 1];
    var raw, before := BookOf(front, name).raw, Frozen(front, name);
    && Reached(front, name, from)
    && (e.Compact? ==>
          && Settled(raw, before, FIVE_MIN, Lo5(LastCompaction(front), e.now), from)
          && Settled(raw, before, HOUR, Lo60(LastCompaction(front), e.now), from))
  }

  lemma {:induction false} BookExact(events: seq<Event>, name: string, from: int)
    requires Reached(events, name, from)
    ensures GrewFrom(BookOf(events, name).raw, Frozen(events, name))
    ensures SummarisesFrom(BookOf(events, name).five, Frozen(events, name), FIVE_MIN, from)
    ensures SummarisesFrom(BookOf(events, name).hour, Frozen(events, name), HOUR, from)
    decreases |events|
  {
    if events != [] {
      var front, e := events[..|events| - 1], events[|events| - 1];
      BookExact(front, name, from);
      if e.Compact? {
        RecordedExact(BookOf(front, name), Frozen(front, name), LastCompaction(front), e.now, from);
      }
    }
  }

  // ---- cadence ----

  /** Consecutive compactions are at most `gap` seconds apart and a reading written after a
      compaction is at most `lag` seconds older than it. */
  ghost predicate Paced(events: seq<Event>, gap: int, lag: int)
    decreases |events|
  {
    events == [] ||
    var front, e := events[..|events| - 1], events[|events| - 1];
    var last := LastCompaction(front);
    && Paced(front, gap, lag)
    && (e.Write? && last.Some? ==> last.value - lag <= e.ts)
    && (e.Compact? && last.Some? ==> e.now <= last.value + gap)
  }

  /** What a first compaction at `now` may find: each reading's five-minute bucket starts inside the raw
      retention, or its hour is already past the hour retention. */
  ghost predicate Reachable(raw: Column, now: int) {
    forall t :: t in raw ==> now - RAW_RETENTION <= Bucket(t, FIVE_MIN) || Bucket(t, HOUR) < now - HOUR_RETENTION
  }

  /** The first compaction finds only such readings of `name`. */
  ghost predicate Opening(events: seq<Event>, name: string)
    decreases |events|
  {
    events == [] ||
    var front, e := events[..|events| - 1], events[|events| - 1];
    && Opening(front, name)
    && (e.Compact? && LastCompaction(front).None? ==> Reachable(BookOf(front, name).raw, e.now))
  }

  ghost predicate Cadence(events: seq<Event>, name: string, gap: int, lag: int) {
    Paced(events, gap, lag) && Opening(events, name)
  }

  function FirstCompaction(events: seq<Event>): Option<int>
    decreases |events|
  {
    if events == [] then None
    else
      var front, e := events[..|events| - 1], events[|events| - 1];
      if FirstCompaction(front).Some? then FirstCompaction(front)
      else if e.Compact? then Some(e.now)
      else None
  }

  lemma {:induction false} FirstIsEarliest(events: seq<Event>)
    requires Orderly(events)
    ensures FirstCompaction(events).Some? <==> LastCompaction(events).Some?
    ensures FirstCompaction(events).Some? ==> FirstCompaction(events).value <= LastCompaction(events).value
    decreases |events|
  {
    if events != [] {
      OrderlyFront(events);
      FirstIsEarliest(events[..|events| - 1]);
    }
  }

  lemma {:induction false} RawNonNegative(events: seq<Event>, name: string)
    ensures forall t :: t in BookOf(events, name).raw ==> 0 <= t
    decreases |events|
  {
    if events != [] {
      RawNonNegative(events[..|events| - 1], name);
    }
  }

  /** A reading that changed since the last compaction was written since, under the cadence. */
  lemma {:induction false} ChangedIsRecent(events: seq<Event>, name: string, gap: int, lag: int, t: int)
    requires Paced(events, gap, lag)
    requires !SameAt(BookOf(events, name).raw, Frozen(events, name), t)
    ensures 0 <= t
    ensures LastCompaction(events).Some? ==> LastCompaction(events).value - lag <= t
    ensures LastCompaction(events).None? ==> t in BookOf(events, name).raw
    decreases |events|
  {
    if events != [] {
      var n := |events| - 1;
      var front, e := events[..n], events[n];
      if e.Write? && e.ts == t {
        if LastCompaction(front).None? {
          NothingFrozen(events, name);
        }
      } else if e.Compact? {
      } else {
        ChangedIsRecent(front, name, gap, lag, t);
      }
    }
  }

  lemma {:induction false} NothingFrozen(events: seq<Event>, name: string)
    requires LastCompaction(events).None?
    ensures Frozen(events, name) == map[] && FirstCompaction(events).None?
    ensures BookOf(events, name).five == map[] && BookOf(events, name).hour == map[]
    decreases |events|
  {
    if events != [] {
      NothingFrozen(events[..|events| - 1], name);
    }
  }

  /** The arithmetic of the cadence: 301 is what the 600-second look-back leaves after a bucket. */
  lemma BoundsReach(last: int, now: int, gap: int, lag: int, t: int)
    requires gap + lag <= 301 && now <= last + gap && 0 <= t && last - lag <= t
    ensures Lo5(Some(last), now) <= Bucket(t, FIVE_MIN)
    ensures Lo60(Some(last), now) <= Bucket(t, HOUR)
  {
    NonNegativeBucket(t, FIVE_MIN);
    NonNegativeBucket(t, HOUR);
  }

  lemma FirstBoundsReach(now: int, t: int)
    requires 0 <= t && now - RAW_RETENTION <= Bucket(t, FIVE_MIN)
    ensures Lo5(None, now) <= Bucket(t, FIVE_MIN)
    ensures Lo60(None, now) <= Bucket(t, HOUR)
  {
    NonNegativeBucket(t, FIVE_MIN);
    NonNegativeBucket(t, HOUR);
  }

  lemma NonNegativeBucket(t: int, width: int)
    requires 0 <= t && width > 0
    ensures 0 <= Bucket(t, width)
  {
    assert Aligned(0, width);
    if Bucket(t, width) < 0 {
      BoundariesApart(Bucket(t, width), 0, width);
    }
  }

  lemma {:induction false} CadenceReaches(events: seq<Event>, name: string, gap: int, lag: int, from: int)
    requires Cadence(events, name, gap, lag) && gap + lag <= 301
    requires FirstCompaction(events).Some? ==> from == FirstCompaction(events).value - HOUR_RETENTION
    ensures Reached(events, name, from)
    decreases |events|
  {
    if events != [] {
      var front, e := events[..|events| - 1], events[|events| - 1];
      CadenceReaches(front, name, gap, lag, from);
      if e.Compact? {
        var last := LastCompaction(front);
        var raw, before := BookOf(front, name).raw, Frozen(front, name);
        if last.None? {
          NothingFrozen(front, name);
        }
        forall t | !SameAt(raw, before, t) && Lives(from, t)
          ensures Lo5(last, e.now) <= Bucket(t, FIVE_MIN) && Lo60(last, e.now) <= Bucket(t, HOUR)
        {
          ChangedIsRecent(front, name, gap, lag, t);
          if last.Some? {
            BoundsReach(last.value, e.now, gap, lag, t);
          } else {
            FirstBoundsReach(e.now, t);
          }
        }
      }
    }
  }

  // ---- end to end ----

  /** Right after a compaction the store shows exactly the retained part of each book. */
  lemma {:induction false} AfterCompaction(states: seq<Db>, events: seq<Event>, name: string)
    requires Run(states, events) && Orderly(events) && SoundFor(states, events, name)
    requires events != [] && events[|events| - 1].Compact?
    ensures Rows(states[|events|], name) == TrimmedTrack(BookOf(events, name), events[|events| - 1].now)
  {
    var n := |events| - 1;
    RunFront(states, events);
    SoundForFront(states, events, name);
    OrderlyFront(events);
    StoreRefinesLedger(states[..n + 1], events[..n], name);
    CompactionShows(states[n], events[n].now, BookOf(events[..n], name), name);
  }

  lemma CompactionShows(a: Db, now: int, u: Track, name: string)
    requires Faithful(Rows(a, name), u, a.last) && (a.last.None? || a.last.value <= now)
    ensures Rows(Compacted(a, now), name) == TrimmedTrack(Recorded(u, a.last, now), now)
  {
    CompactRows(a, now, name);
    CompactFaithful(Rows(a, name), u, a.last, now);
    RetainedTrack(RolledTrack(Rows(a, name), a.last, now), Recorded(u, a.last, now), now);
  }

  lemma RetainedTrack(t: Track, u: Track, now: int)
    requires Faithful(TrimmedTrack(t, now), u, Some(now))
    ensures TrimmedTrack(t, now) == TrimmedTrack(u, now)
  {
    RetainedEqual(t.raw, u.raw, now - RAW_RETENTION);
    RetainedEqual(t.five, u.five, now - FIVE_MIN_RETENTION);
    RetainedEqual(t.hour, u.hour, now - HOUR_RETENTION);
  }

  lemma RetainedEqual(kept: Column, full: Column, cut: int)
    requires Agrees(PruneColumn(kept, cut), full, Some(cut))
    ensures PruneColumn(kept, cut) == PruneColumn(full, cut)
  {
    forall t
      ensures SameAt(PruneColumn(kept, cut), PruneColumn(full, cut), t)
    {
      assert AgreesAt(PruneColumn(kept, cut), full, Some(cut), t);
    }
    ColumnsEqual(PruneColumn(kept, cut), PruneColumn(full, cut));
  }

  /** What unlimited memory would show at `now`, given only the readings ever recorded. */
  function HistoryTrack(readings: Column, now: int): Track {
    Track(PruneColumn(readings, now - RAW_RETENTION),
          Expected(readings, FIVE_MIN, now - FIVE_MIN_RETENTION),
          Expected(readings, HOUR, now - HOUR_RETENTION))
  }

  /** Over every run at the cadence, after each compaction the retained tiers are exact, including
      the contribution of raw rows pruned long before. */
  lemma TiersShowHistory(states: seq<Db>, events: seq<Event>, name: string, gap: int, lag: int)
    requires Run(states, events) && Orderly(events) && SoundFor(states, events, name)
    requires Cadence(events, name, gap, lag) && gap + lag <= 301
    requires events != [] && events[|events| - 1].Compact?
    ensures Rows(states[|events|], name) == HistoryTrack(BookOf(events, name).raw, events[|events| - 1].now)
  {
    FirstIsEarliest(events);
    var from := FirstCompaction(events).value - HOUR_RETENTION;
    AfterCompaction(states, events, name);
    CadenceReaches(events, name, gap, lag, from);
    BookExact(events, name, from);
    ExactTrack(BookOf(events, name), events[|events| - 1].now, from);
  }

  lemma ExactTrack(u: Track, now: int, from: int)
    requires SummarisesFrom(u.five, u.raw, FIVE_MIN, from) && SummarisesFrom(u.hour, u.raw, HOUR, from)
    requires from <= now - HOUR_RETENTION
    ensures TrimmedTrack(u, now) == HistoryTrack(u.raw, now)
  {
    SummaryIsExpected(u.five, u.raw, FIVE_MIN, now - FIVE_MIN_RETENTION, from);
    SummaryIsExpected(u.hour, u.raw, HOUR, now - HOUR_RETENTION, from);
  }

  // ---- prune safety ----

  /** What the rollups of a compaction at `now` read from `t` is what they would read from `u`. */
  ghost predicate ReadsWhole(t: Track, u: Track, last: Option<int>, now: int, b: int) {
    && (Aligned(b, FIVE_MIN) ==>
          GroupTotal(t.raw, Lo5(last, now), b, FIVE_MIN)
          == if Lo5(last, now) <= b then BucketTotal(u.raw, b, FIVE_MIN) else Nothing)
    && (Aligned(b, HOUR) ==>
          GroupTotal(RolledTrack(t, last, now).five, Lo60(last, now), b, HOUR)
          == if Lo60(last, now) <= b then BucketTotal(Recorded(u, last, now).five, b, HOUR) else Nothing)
  }

  lemma FaithfulReadsWhole(t: Track, u: Track, last: Option<int>, now: int, b: int)
    requires Faithful(t, u, last) && (last.None? || last.value <= now)
    ensures ReadsWhole(t, u, last, now, b)
  {
    RollUpFaithful(t, u, last, now);
    if Aligned(b, FIVE_MIN) {
      SeenTotals(t.raw, u.raw, Cut(last, RAW), FIVE_MIN, Lo5(last, now), b);
    }
    if Aligned(b, HOUR) {
      SeenTotals(RolledTrack(t, last, now).five, Recorded(u, last, now).five, Cut(last, FIVE_MIN), HOUR,
          Lo60(last, now), b);
    }
  }

  /** Prune safety, with no assumption but the order of compaction times: for every id, whatever bucket
      a compaction rewrites, it aggregates the same rows as a store that never pruned anything, and a
      bucket below the bound it does not touch at all. */
  lemma CompactionSeesWholeBuckets(states: seq<Db>, events: seq<Event>, mid: int, now: int, b: int)
    requires Run(states, events) && Orderly(events)
    requires LastCompaction(events).None? || LastCompaction(events).value <= now
    ensures states[|events|].last == LastCompaction(events)
    ensures ReadsWhole(TrackOf(states[|events|].samples, mid), IdBookOf(states, events, mid), LastCompaction(events),
            now, b)
  {
    MarkIs(states, events);
    IdsRefineBooks(states, events, mid);
    FaithfulReadsWhole(TrackOf(states[|events|].samples, mid), IdBookOf(states, events, mid), LastCompaction(events),
        now, b);
  }

  /** The same by name, against the name's own book, where the writes kept to the name's own id. */
  lemma CompactionSeesWholeBook(states: seq<Db>, events: seq<Event>, name: string, now: int, b: int)
    requires Run(states, events) && Orderly(events) && SoundFor(states, events, name)
    requires LastCompaction(events).None? || LastCompaction(events).value <= now
    ensures ReadsWhole(Rows(states[|events|], name), BookOf(events, name), LastCompaction(events), now, b)
  {
    StoreRefinesLedger(states, events, name);
    FaithfulReadsWhole(Rows(states[|events|], name), BookOf(events, name), LastCompaction(events), now, b);
  }
}
