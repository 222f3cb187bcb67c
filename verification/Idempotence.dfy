/** Compacting twice at the same instant leaves the database as compacting once does. */
module Idempotence {
  import opened Buckets
  import opened Rollup
  import opened Tables
  import opened HistoryStore
  import opened History

  /** Both lower bounds of the second pass are at or above those of the first. */
  lemma BoundsRise(last: Option<int>, now: int)
    ensures Lo5(last, now) <= Lo5(Some(now), now)
    ensures Lo60(last, now) <= Lo60(Some(now), now)
  {
  }

  ghost predicate SameFrom(a: Column, b: Column, lo: int) {
    forall t :: lo <= t ==> SameAt(a, b, t)
  }

  lemma SameTotals(a: Column, b: Column, width: int, lo: int, lo': int, start: int)
    requires width > 0 && lo <= lo' <= start && SameFrom(a, b, lo')
    ensures GroupTotal(a, lo', start, width) == GroupTotal(b, lo, start, width)
  {
    forall t | start <= t < start + width
      ensures At(a, t) == At(b, t)
    {
      assert SameAt(a, b, t);
    }
    FoldCongruent(a, b, start, start + width);
  }

  lemma RollUpAgainAt(src: Column, dst: Column, src': Column, dst': Column, width: int, lo: int, lo': int, b: int)
    requires width > 0 && Aligned(lo', width) && lo <= lo'
    requires SameFrom(src', src, lo') && SameFrom(dst', RollUpColumn(src, dst, width, lo), lo')
    ensures SameAt(RollUpColumn(src', dst', width, lo'), dst', b)
  {
    RollUpColumnAt(src', dst', width, lo', b);
    if Aligned(b, width) && lo' <= b {
      SameTotals(src', src, width, lo, lo', b);
      RollUpColumnAt(src, dst, width, lo, b);
      assert SameAt(dst', RollUpColumn(src, dst, width, lo), b);
    } else if Aligned(b, width) {
      BoundariesApart(b, lo', width);
      assert GroupTotal(src', lo', b, width).Nothing?;
    }
  }

  /** Rolling up the same rows again, from a higher boundary, changes nothing. */
  lemma RollUpAgain(src: Column, dst: Column, src': Column, dst': Column, width: int, lo: int, lo': int)
    requires width > 0 && Aligned(lo', width) && lo <= lo'
    requires SameFrom(src', src, lo') && SameFrom(dst', RollUpColumn(src, dst, width, lo), lo')
    ensures RollUpColumn(src', dst', width, lo') == dst'
  {
    forall b
      ensures SameAt(RollUpColumn(src', dst', width, lo'), dst', b)
    {
      RollUpAgainAt(src, dst, src', dst', width, lo, lo', b);
    }
    ColumnsEqual(RollUpColumn(src', dst', width, lo'), dst');
  }

  lemma PruneSame(col: Column, cut: int, from: int)
    requires cut <= from
    ensures SameFrom(PruneColumn(col, cut), col, from)
  {
  }

  lemma PruneTwice(col: Column, cut: int)
    ensures PruneColumn(PruneColumn(col, cut), cut) == PruneColumn(col, cut)
  {
  }

  lemma RolledAgain(t: Track, last: Option<int>, now: int)
    ensures RolledTrack(CompactedTrack(t, last, now), Some(now), now) == CompactedTrack(t, last, now)
  {
    var rolled := RolledTrack(t, last, now);
    var done := TrimmedTrack(rolled, now);
    BoundsRise(last, now);
    PruneSame(rolled.raw, now - RAW_RETENTION, Lo5(Some(now), now));
    PruneSame(rolled.five, now - FIVE_MIN_RETENTION, Lo5(Some(now), now));
    RollUpAgain(t.raw, t.five, done.raw, done.five, FIVE_MIN, Lo5(last, now), Lo5(Some(now), now));
    PruneSame(rolled.five, now - FIVE_MIN_RETENTION, Lo60(Some(now), now));
    PruneSame(rolled.hour, now - HOUR_RETENTION, Lo60(Some(now), now));
    RollUpAgain(rolled.five, t.hour, done.five, done.hour, HOUR, Lo60(last, now), Lo60(Some(now), now));
  }

  lemma TrimmedAgain(t: Track, now: int)
    ensures TrimmedTrack(TrimmedTrack(t, now), now) == TrimmedTrack(t, now)
  {
    PruneTwice(t.raw, now - RAW_RETENTION);
    PruneTwice(t.five, now - FIVE_MIN_RETENTION);
    PruneTwice(t.hour, now - HOUR_RETENTION);
  }

  lemma TrackTwice(t: Track, last: Option<int>, now: int)
    ensures CompactedTrack(CompactedTrack(t, last, now), Some(now), now) == CompactedTrack(t, last, now)
  {
    RolledAgain(t, last, now);
    TrimmedAgain(RolledTrack(t, last, now), now);
  }

  /** Rows outside the three tiers, if any, are left alone. */
  lemma StrangersStay(samples: Samples, last: Option<int>, now: int, q: Key)
    requires !IsValidRes(q.res)
    ensures
      var after := Trimmed(RolledUp(samples, last, now), now);
      (q in after <==> q in samples) && (q in after ==> after[q] == samples[q])
  {
    var five := RollUp(samples, RAW, FIVE_MIN, Lo5(last, now));
    RollUpAt(samples, RAW, FIVE_MIN, Lo5(last, now), q);
    RollUpAt(five, FIVE_MIN, HOUR, Lo60(last, now), q);
  }

  lemma ColumnRow(samples: Samples, q: Key)
    ensures q in samples <==> q.ts in ColumnOf(samples, q.res, q.mid)
    ensures q in samples ==> ColumnOf(samples, q.res, q.mid)[q.ts] == samples[q]
  {
    assert q == Key(q.res, q.ts, q.mid);
  }

  ghost predicate SameRow(a: Samples, b: Samples, q: Key) {
    (q in a <==> q in b) && (q in a ==> a[q] == b[q])
  }

  lemma SamplesEqual(a: Samples, b: Samples)
    requires forall q :: SameRow(a, b, q)
    ensures a == b
  {
    forall q
      ensures (q in a <==> q in b) && (q in a ==> a[q] == b[q])
    {
      assert SameRow(a, b, q);
    }
  }

  lemma SameTrackSameRow(a: Samples, b: Samples, q: Key)
    requires IsValidRes(q.res) && TrackOf(a, q.mid) == TrackOf(b, q.mid)
    ensures SameRow(a, b, q)
  {
    ColumnRow(a, q);
    ColumnRow(b, q);
    assert TrackOf(a, q.mid).Tier(q.res) == TrackOf(b, q.mid).Tier(q.res);
  }

  lemma RowTwice(a: Db, now: int, q: Key)
    ensures SameRow(Compacted(Compacted(a, now), now).samples, Compacted(a, now).samples, q)
  {
    var b := Compacted(a, now);
    if IsValidRes(q.res) {
      CompactedTrackOf(a, now, q.mid);
      CompactedTrackOf(b, now, q.mid);
      TrackTwice(TrackOf(a.samples, q.mid), a.last, now);
      SameTrackSameRow(Compacted(b, now).samples, b.samples, q);
    } else {
      StrangersStay(b.samples, b.last, now, q);
    }
  }

  lemma LiveTwice(metric: map<string, int>, samples: Samples)
    ensures LiveNames(LiveNames(metric, samples), samples) == LiveNames(metric, samples)
  {
  }

  /** From every state whatever, the whole database is a fixed point of compaction at `now` once
      it has been compacted at `now`: rows, names, memo and mark. */
  lemma CompactTwice(a: Db, now: int)
    ensures Compacted(Compacted(a, now), now) == Compacted(a, now)
  {
    var b := Compacted(a, now);
    SamplesTwice(a, now);
    LiveTwice(a.metric, b.samples);
  }

  lemma SamplesTwice(a: Db, now: int)
    ensures Compacted(Compacted(a, now), now).samples == Compacted(a, now).samples
  {
    forall q
      ensures SameRow(Compacted(Compacted(a, now), now).samples, Compacted(a, now).samples, q)
    {
      RowTwice(a, now, q);
    }
    SamplesEqual(Compacted(Compacted(a, now), now).samples, Compacted(a, now).samples);
  }
}
