/** The hour tier against the five-minute tier. It needs a far looser cadence than the 301 seconds
    the five-minute tier needs against the raw readings: a gap of at most 3900, whatever the lag. */
module HourTier {
  import opened Buckets
  import opened Rollup
  import opened Tables
  import opened HistoryStore
  import opened History
  import opened Exactness
  import opened CadenceBound

  /** A compaction changes five-minute rows only from its lower bound on. */
  lemma FiveChanges(u: Track, last: Option<int>, now: int, b: int)
    requires !SameAt(Recorded(u, last, now).five, u.five, b)
    ensures Lo5(last, now) <= b && Aligned(b, FIVE_MIN)
  {
    RecomputedAt(u.raw, u.five, FIVE_MIN, Lo5(last, now), b);
  }

  lemma FiveGrows(u: Track, last: Option<int>, now: int)
    ensures GrewFrom(Recorded(u, last, now).five, u.five)
  {
    forall t | t in u.five
      ensures t in Recorded(u, last, now).five
    {
      RecomputedAt(u.raw, u.five, FIVE_MIN, Lo5(last, now), t);
    }
  }

  /** The arithmetic: whatever the five-minute rollup rewrites, the hour rollup of the same
      compaction reaches, because a bucket starts at most 3300 seconds into its hour. */
  lemma HourBoundReaches(last: Option<int>, now: int, gap: int, b: int)
    requires gap <= 3900 && Aligned(b, FIVE_MIN) && Lo5(last, now) <= b
    requires last.Some? ==> now <= last.value + gap
    ensures Lo60(last, now) <= Bucket(b, HOUR)
  {
    var h := Bucket(b, HOUR);
    NonNegativeBucket(b, HOUR);
    HourIsTwelve(h);
    BoundariesApart(b, h + HOUR, FIVE_MIN);
  }

  /** One compaction keeps the hour tier the exact aggregate of the five-minute tier. */
  lemma HourFollowsOnce(u: Track, last: Option<int>, now: int, gap: int)
    requires Summarises(u.hour, u.five, HOUR) && gap <= 3900
    requires last.Some? ==> now <= last.value + gap
    ensures Summarises(Recorded(u, last, now).hour, Recorded(u, last, now).five, HOUR)
  {
    var five := Recorded(u, last, now).five;
    FiveGrows(u, last, now);
    forall b | Bucket(b, HOUR) < Lo60(last, now)
      ensures SameAt(five, u.five, b)
    {
      if !SameAt(five, u.five, b) {
        FiveChanges(u, last, now, b);
        HourBoundReaches(last, now, gap, b);
      }
    }
    forall h
      ensures SummarisesAt(Recorded(u, last, now).hour, five, HOUR, h)
    {
      assert SummarisesAt(u.hour, u.five, HOUR, h);
      if Aligned(h, HOUR) && h < Lo60(last, now) {
        forall t | h <= t < h + HOUR
          ensures SameAt(five, u.five, t)
        {
          BucketUnique(t, h, HOUR);
        }
      }
      RecomputedExactAt(five, u.hour, five, u.five, HOUR, Lo60(last, now), h);
    }
  }

  /** At a gap of at most 3900 the hour tier of a book is, after every event, the exact aggregate of
      its five-minute tier, whether or not that tier reached every reading. */
  lemma {:induction false} HourFollowsFive(events: seq<Event>, name: string, gap: int, lag: int)
    requires Paced(events, gap, lag) && gap <= 3900
    ensures Summarises(BookOf(events, name).hour, BookOf(events, name).five, HOUR)
    decreases |events|
  {
    if events != [] {
      var front, e := events[..|events| - 1], events[|events| - 1];
      HourFollowsFive(front, name, gap, lag);
      if e.Compact? {
        HourFollowsOnce(BookOf(front, name), LastCompaction(front), e.now, gap);
      }
    } else {
      EmptyFollows();
    }
  }

  lemma EmptyFollows()
    ensures Summarises(NO_ROWS.hour, NO_ROWS.five, HOUR)
  {
  }

  /** What the store shows: after a compaction at that cadence, the retained hours are the aggregate
      of every five-minute row the book ever held. */
  lemma HoursShowFive(states: seq<Db>, events: seq<Event>, name: string, gap: int, lag: int)
    requires Run(states, events) && Orderly(events) && SoundFor(states, events, name)
    requires Paced(events, gap, lag) && gap <= 3900
    requires events != [] && events[|events| - 1].Compact?
    ensures Rows(states[|events|], name).hour
         == Expected(BookOf(events, name).five, HOUR, events[|events| - 1].now - HOUR_RETENTION)
  {
    AfterCompaction(states, events, name);
    HourFollowsFive(events, name, gap, lag);
    var cut := events[|events| - 1].now - HOUR_RETENTION;
    SummaryIsExpected(BookOf(events, name).hour, BookOf(events, name).five, HOUR, cut, cut);
  }

  // ---- the bound is exact ----

  /** After a compaction the store shows, in its retained hours, the aggregate of the name's
      five-minute book. */
  ghost predicate FollowsAfter(states: seq<Db>, events: seq<Event>, name: string)
    requires |states| == |events| + 1
  {
    events != [] && events[|events| - 1].Compact? ==>
      Rows(states[|events|], name).hour
      == Expected(BookOf(events, name).five, HOUR, events[|events| - 1].now - HOUR_RETENTION)
  }

  /** In every run at this gap and lag. */
  ghost predicate AlwaysFollows(gap: int, lag: int) {
    forall states, events, name ::
      Run(states, events) && Orderly(events) && SoundFor(states, events, name) && Paced(events, gap, lag) ==>
        FollowsAfter(states, events, name)
  }

  /** A reading in the last bucket of the hour, rolled up 3901 seconds after the mark. */
  const LATE := [Compact(3300), Write(3300, [READING]), Compact(7201)]

  lemma LatePrefixes()
    ensures LastCompaction(LATE[..1]) == Some(3300) && LastCompaction(LATE[..2]) == Some(3300)
    ensures BookOf(LATE[..2], "m") == NO_ROWS.(raw := map[3300 := RawRow(1.0)])
  {
    assert LATE[..2][..1] == LATE[..1] && LATE[..1][..0] == [] && [READING][..0] == [];
    assert BookOf(LATE[..1], "m") == NO_ROWS;
    assert LastReading([READING], "m") == Some(1.0);
  }

  lemma LatePaced(gap: int, lag: int)
    requires 3901 <= gap && 0 <= lag
    ensures Orderly(LATE) && Paced(LATE, gap, lag)
  {
    LatePrefixes();
    assert LATE[..2][..1] == LATE[..1] && LATE[..1][..0] == [];
    assert Paced(LATE[..1], gap, lag);
    assert Paced(LATE[..2], gap, lag);
  }

  /** In the book the five-minute row is written, its hour is not. */
  lemma LateBook()
    ensures 3300 in BookOf(LATE, "m").five && 0 !in BookOf(LATE, "m").hour
  {
    var u := BookOf(LATE[..2], "m");
    LatePrefixes();
    LateBounds();
    assert BookOf(LATE, "m") == Recorded(u, Some(3300), 7201);
    assert 3300 in u.raw;
    RecomputedAt(u.raw, u.five, FIVE_MIN, 3300, 3300);
    RecomputedAt(Recorded(u, Some(3300), 7201).five, u.hour, HOUR, 3600, 0);
  }

  /** A run of the store after which the five-minute row at 3300 is shown and its hour is missing. */
  lemma LateHourIsMissing() returns (states: seq<Db>)
    ensures Run(states, LATE) && Orderly(LATE) && SoundFor(states, LATE, "m")
    ensures 3300 in Rows(states[3], "m").five && 0 !in Rows(states[3], "m").hour
    ensures !FollowsAfter(states, LATE, "m")
  {
    states := CompactWriteCompact(3300, 3300, 7201);
    LateBook();
    LateOrderly();
    AfterCompaction(states, LATE, "m");
    LateExpected(BookOf(LATE, "m").five);
  }

  lemma LateOrderly()
    ensures Orderly(LATE)
  {
  }

  lemma LateExpected(five: Column)
    requires 3300 in five
    ensures 0 in Expected(five, HOUR, 7201 - HOUR_RETENTION)
  {
    assert BucketTotal(five, 0, HOUR).Total?;
    LateBounds();
    ExpectedAt(five, HOUR, 7201 - HOUR_RETENTION, 0);
  }

  lemma LateBounds()
    ensures Lo5(Some(3300), 7201) == 3300 && Lo60(Some(3300), 7201) == 3600
    ensures Aligned(3300, FIVE_MIN) && Aligned(3600, HOUR) && Aligned(0, HOUR)
  {
  }

  /** Over every run of the store at a gap and lag the hour tier is the exact aggregate of the
      five-minute tier if and only if the gap is at most 3900. */
  lemma FollowsIffGap(gap: int, lag: nat)
    ensures AlwaysFollows(gap, lag) <==> gap <= 3900
  {
    if gap <= 3900 {
      forall states, events: seq<Event>, name |
        Run(states, events) && Orderly(events) && SoundFor(states, events, name) && Paced(events, gap, lag)
        ensures FollowsAfter(states, events, name)
      {
        if events != [] && events[|events| - 1].Compact? {
          HoursShowFive(states, events, name, gap, lag);
        }
      }
    } else {
      LatePaced(gap, lag);
      var states := LateHourIsMissing();
    }
  }
}
