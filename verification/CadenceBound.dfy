/** The cadence bound is exact: 301 works for every run, 302 already loses a reading. */
module CadenceBound {
  import opened Buckets
  import opened Rollup
  import opened Tables
  import opened HistoryStore
  import opened History
  import opened Exactness

  ghost predicate ExactAfter(states: seq<Db>, events: seq<Event>, name: string)
    requires |states| == |events| + 1
  {
    events != [] && events[|events| - 1].Compact? ==>
      Rows(states[|events|], name) == HistoryTrack(BookOf(events, name).raw, events[|events| - 1].now)
  }

  /** Every run at this gap and lag shows its whole history after every compaction. */
  ghost predicate AlwaysExact(gap: int, lag: int) {
    forall states, events, name ::
      Run(states, events) && Orderly(events) && SoundFor(states, events, name) && Cadence(events, name, gap, lag) ==>
        ExactAfter(states, events, name)
  }

  const READING := Point("m", Finite(1.0))

  /** Compaction at `299 + lag`, then a reading stamped 299, then a compaction 302 - lag later. */
  function LosingRun(lag: int): seq<Event> {
    [Compact(299 + lag), Write(299, [READING]), Compact(601)]
  }

  function Compacted0(now: int): Db {
    Db(map[], map[], map[], Some(now))
  }

  function Written(ts: nat, now: int): Db {
    Db(map[Key(RAW, ts, 1) := RawRow(1.0)], map["m" := 1], map["m" := 1], Some(now))
  }

  lemma EmptyCompaction(now: int)
    ensures Compacted(EMPTY_DB, now) == Compacted0(now)
  {
    assert RolledUp(map[], None, now) == map[];
    assert Trimmed(map[], now) == map[];
  }

  lemma OneName()
    ensures FiniteNames([READING]) == {"m"}
    ensures Interned(map[], map[], {"m"}, map["m" := 1], map["m" := 1])
  {
    assert READING in [READING];
  }

  lemma OneStamp(ts: nat)
    ensures FiniteNames([READING]) <= (map["m" := 1]).Keys
    ensures Stamped(map[], ts, [READING], map["m" := 1]) == map[Key(RAW, ts, 1) := RawRow(1.0)]
  {
    OneName();
    assert [READING][..0] == [];
  }

  lemma LosingWrite(ts: nat, now: int)
    ensures WriteStep(Compacted0(now), ts, [READING], Written(ts, now))
    ensures OwnId(Compacted0(now), [READING], Written(ts, now), "m")
  {
    OneName();
    OneStamp(ts);
  }

  lemma ThreeSteps(b: Db, c: Db, d: Db, x: Event, y: Event, z: Event) returns (states: seq<Db>)
    requires Step(EMPTY_DB, x, b) && Step(b, y, c) && Step(c, z, d)
    ensures Run(states, [x, y, z]) && states == [EMPTY_DB, b, c, d]
  {
    states := [EMPTY_DB, b, c, d];
    forall i | 0 <= i < 3
      ensures Step(states[i], [x, y, z][i], states[i + 1])
    {
      if i == 0 {
      } else if i == 1 {
      } else {
        assert i == 2;
      }
    }
  }

  /** A compaction of an empty store, one write, another compaction. */
  lemma CompactWriteCompact(now: int, ts: nat, later: int) returns (states: seq<Db>)
    ensures Run(states, [Compact(now), Write(ts, [READING]), Compact(later)])
    ensures SoundFor(states, [Compact(now), Write(ts, [READING]), Compact(later)], "m")
  {
    var b, c := Compacted0(now), Written(ts, now);
    var x, y, z := Compact(now), Write(ts, [READING]), Compact(later);
    LosingWrite(ts, now);
    EmptyCompaction(now);
    assert Step(EMPTY_DB, x, b) && Step(b, y, c);
    states := ThreeSteps(b, c, Compacted(c, later), x, y, z);
  }

  lemma LosingPrefixes(lag: int)
    ensures
      var e := LosingRun(lag);
      && BookOf(e[..1], "m") == NO_ROWS
      && LastCompaction(e[..1]) == Some(299 + lag) && LastCompaction(e[..2]) == Some(299 + lag)
      && BookOf(e[..2], "m") == NO_ROWS.(raw := map[299 := RawRow(1.0)])
  {
    var e := LosingRun(lag);
    assert e[..2][..1] == e[..1] && e[..1][..0] == [] && [READING][..0] == [];
    assert BookOf(e[..1], "m") == NO_ROWS;
    assert LastReading([READING], "m") == Some(1.0);
  }

  lemma LosingBook(lag: int)
    requires 0 <= lag <= 302
    ensures 299 in BookOf(LosingRun(lag), "m").raw && 0 !in BookOf(LosingRun(lag), "m").five
  {
    var posted := BookOf(LosingRun(lag)[..2], "m");
    LosingPrefixes(lag);
    assert 1 <= Lo5(Some(299 + lag), 601);
    RecomputedAt(posted.raw, posted.five, FIVE_MIN, Lo5(Some(299 + lag), 601), 0);
  }

  lemma LosingIsOrderly(lag: int)
    requires lag <= 302
    ensures Orderly(LosingRun(lag)) && forall i :: 0 <= i < 3 ==> !LosingRun(lag)[i].Abort?
  {
  }

  /** The reading is in the history but in no five-minute bucket the store shows. */
  lemma LosingRunIsInexact(lag: int) returns (states: seq<Db>)
    requires 0 <= lag <= 302
    ensures Run(states, LosingRun(lag)) && Orderly(LosingRun(lag)) && SoundFor(states, LosingRun(lag), "m")
    ensures !ExactAfter(states, LosingRun(lag), "m")
  {
    states := CompactWriteCompact(299 + lag, 299, 601);
    LosingIsOrderly(lag);
    LosingBook(lag);
    AfterCompaction(states, LosingRun(lag), "m");
    MissingBucket(BookOf(LosingRun(lag), "m"));
  }

  lemma MissingBucket(u: Track)
    requires 299 in u.raw && 0 !in u.five
    ensures TrimmedTrack(u, 601) != HistoryTrack(u.raw, 601)
  {
    assert BucketTotal(u.raw, 0, FIVE_MIN).Total?;
    assert Aligned(0, FIVE_MIN);
    ExpectedAt(u.raw, FIVE_MIN, 601 - FIVE_MIN_RETENTION, 0);
    assert 0 in HistoryTrack(u.raw, 601).five && 0 !in TrimmedTrack(u, 601).five;
  }

  lemma LosingCadence(gap: int, lag: int, l: int)
    requires 0 <= l <= lag && 302 - l <= gap
    ensures Cadence(LosingRun(l), "m", gap, lag)
  {
    var e := LosingRun(l);
    assert e[..2][..1] == e[..1] && e[..1][..0] == [];
    assert LastCompaction(e[..1]) == Some(299 + l) && LastCompaction(e[..2]) == Some(299 + l);
    assert Paced(e[..1], gap, lag) && Opening(e[..1], "m");
    assert Paced(e[..2], gap, lag) && Opening(e[..2], "m");
  }

  /** Exactness of every run at a given gap and lag holds if and only if they sum to at most 301. */
  lemma ExactIffCadence(gap: nat, lag: nat)
    ensures AlwaysExact(gap, lag) <==> gap + lag <= 301
  {
    if gap + lag <= 301 {
      forall states, events: seq<Event>, name |
        Run(states, events) && Orderly(events) && SoundFor(states, events, name) && Cadence(events, name, gap, lag)
        ensures ExactAfter(states, events, name)
      {
        if events != [] && events[|events| - 1].Compact? {
          TiersShowHistory(states, events, name, gap, lag);
        }
      }
    } else {
      var l := Min(lag, 302);
      var states := LosingRunIsInexact(l);
      LosingCadence(gap, lag, l);
    }
  }
}
