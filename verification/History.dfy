/** Runs of the store against a plain ledger: one book per metric name, no ids, no memo, nothing
    ever pruned. */
module History {
  import opened Buckets
  import opened Rollup
  import opened Tables
  import opened HistoryStore

  /** One metric's share of the table. */
  datatype Track = Track(raw: Column, five: Column, hour: Column) {
    function Tier(res: int): Column
      requires IsValidRes(res)
    {
      if res == RAW then raw else if res == FIVE_MIN then five else hour
    }
  }

  const NO_ROWS := Track(map[], map[], map[])
  const EMPTY_DB := Db(map[], map[], map[], None)

  datatype Event =
    | Write(ts: nat, points: seq<Point>)
    | Abort(points: seq<Point>)
    | Compact(now: int)
    | Restart

  ghost predicate Step(a: Db, e: Event, b: Db) {
    match e
    case Write(ts, points) => WriteStep(a, ts, points, b)
    case Abort(points) => AbortStep(a, points, b)
    case Compact(now) => b == Compacted(a, now)
    case Restart => b == a.(ids := map[])
  }

  ghost predicate Run(states: seq<Db>, events: seq<Event>) {
    && |states| == |events| + 1
    && states[0] == EMPTY_DB
    && forall i :: 0 <= i < |events| ==> Step(states[i], events[i], states[i + 1])
  }

  /** Compaction times never go back. */
  ghost predicate Orderly(events: seq<Event>) {
    forall i, j :: 0 <= i < j < |events| && events[i].Compact? && events[j].Compact? ==>
                     events[i].now <= events[j].now
  }

  /** Names the memo answers although the table has no row for them. */
  function Stale(db: Db): set<string> {
    db.ids.Keys - db.metric.Keys
  }

  /** No committed write used a memo entry without a table row. */
  ghost predicate SoundWrites(states: seq<Db>, events: seq<Event>)
    requires |states| == |events| + 1
  {
    forall i :: 0 <= i < |events| && events[i].Write? ==> FiniteNames(events[i].points) !! Stale(states[i])
  }

  /** The write kept to the name's own id: the name, if it was written, has a table row; no other
      written name resolves to its id; and an id it was given now had no rows before. */
  ghost predicate OwnId(a: Db, points: seq<Point>, b: Db, name: string) {
    && (name in FiniteNames(points) ==> name in b.metric && name in b.ids && b.ids[name] == b.metric[name])
    && (name in b.metric ==>
          forall m :: m in FiniteNames(points) && m != name && m in b.ids ==> b.ids[m] != b.metric[name])
    && (name in b.metric && name !in a.metric ==> forall q :: q in a.samples ==> q.mid != b.metric[name])
  }

  /** Every committed write kept to the name's own id, whatever became of other names. */
  ghost predicate SoundFor(states: seq<Db>, events: seq<Event>, name: string)
    requires |states| == |events| + 1
  {
    forall i :: 0 <= i < |events| && events[i].Write? ==> OwnId(states[i], events[i].points, states[i + 1], name)
  }

  /** Writes that rolled back had resolved only names the table already held. */
  ghost predicate CleanAborts(states: seq<Db>, events: seq<Event>)
    requires |states| == |events| + 1
  {
    forall i :: 0 <= i < |events| && events[i].Abort? ==> FiniteNames(events[i].points) <= states[i].metric.Keys
  }

  function TrackOf(samples: Samples, mid: int): Track {
    Track(ColumnOf(samples, RAW, mid), ColumnOf(samples, FIVE_MIN, mid), ColumnOf(samples, HOUR, mid))
  }

  /** Everything the store can show for a name. */
  function Rows(db: Db, name: string): Track {
    if name in db.metric then TrackOf(db.samples, db.metric[name]) else NO_ROWS
  }

  // ---- the ledger ----

  function LastReading(points: seq<Point>, name: string): Option<real>
    decreases |points|
  {
    if points == [] then None
    else
      var p := points[|points| - 1];
      if p.name == name && p.value.Finite? then Some(p.value.v)
      else LastReading(points[..|points| - 1], name)
  }

  /** The last finite reading that `ids` files under `mid`. */
  function ReadingFor(points: seq<Point>, ids: map<string, int>, mid: int): Option<real>
    decreases |points|
  {
    if points == [] then None
    else
      var p := points[|points| - 1];
      if p.value.Finite? && p.name in ids && ids[p.name] == mid then Some(p.value.v)
      else ReadingFor(points[..|points| - 1], ids, mid)
  }

  function Posted(raw: Column, ts: int, reading: Option<real>): Column {
    if reading.Some? then raw[ts := RawRow(reading.value)] else raw
  }

  /** Rewrite, from the whole of `src`, every bucket that has a row at or after `lo`. */
  function Recomputed(src: Column, dst: Column, width: int, lo: int): Column
    requires width > 0
  {
    dst + map t | t in src && t >= lo :: Bucket(t, width) := WholeBucketRow(src, width, t)
  }

  function WholeBucketRow(src: Column, width: int, t: int): Row
    requires width > 0 && t in src
  {
    assert BucketTotal(src, Bucket(t, width), width).Total?;
    Summary(BucketTotal(src, Bucket(t, width), width))
  }

  function Recorded(u: Track, last: Option<int>, now: int): Track {
    var five := Recomputed(u.raw, u.five, FIVE_MIN, Lo5(last, now));
    Track(u.raw, five, Recomputed(five, u.hour, HOUR, Lo60(last, now)))
  }

  function LastCompaction(events: seq<Event>): Option<int>
    decreases |events|
  {
    if events == [] then None
    else
      var e := events[|events| - 1];
      if e.Compact? then Some(e.now) else LastCompaction(events[..|events| - 1])
  }

  /** The book of `name`: every finite reading ever committed, last write per timestamp, with both
      rollups recomputed at each compaction and nothing removed. */
  function BookOf(events: seq<Event>, name: string): Track
    decreases |events|
  {
    if events == [] then NO_ROWS
    else
      var front := events[..|events| - 1];
      Booked(BookOf(front, name), events[|events| - 1], LastCompaction(front), name)
  }

  function Booked(u: Track, e: Event, last: Option<int>, name: string): Track {
    match e
    case Write(ts, points) => u.(raw := Posted(u.raw, ts, LastReading(points, name)))
    case Compact(now) => Recorded(u, last, now)
    case Abort(_) => u
    case Restart => u
  }

  /** The book of an id: every finite reading ever filed under it, by whatever names, with both
      rollups recomputed at each compaction and nothing removed. */
  function IdBookOf(states: seq<Db>, events: seq<Event>, mid: int): Track
    requires |states| == |events| + 1
    decreases |events|
  {
    if events == [] then NO_ROWS
    else
      var n := |events| - 1;
      IdBooked(IdBookOf(states[..n + 1], events[..n], mid), events[n], states[n].last, states[n + 1].ids, mid)
  }

  function IdBooked(u: Track, e: Event, last: Option<int>, ids: map<string, int>, mid: int): Track {
    match e
    case Write(ts, points) => u.(raw := Posted(u.raw, ts, ReadingFor(points, ids, mid)))
    case Compact(now) => Recorded(u, last, now)
    case Abort(_) => u
    case Restart => u
  }

  // ---- one compaction, one metric ----

  function CompactedTrack(t: Track, last: Option<int>, now: int): Track {
    TrimmedTrack(RolledTrack(t, last, now), now)
  }

  function RolledTrack(t: Track, last: Option<int>, now: int): Track {
    var five := RollUpColumn(t.raw, t.five, FIVE_MIN, Lo5(last, now));
    Track(t.raw, five, RollUpColumn(five, t.hour, HOUR, Lo60(last, now)))
  }

  function TrimmedTrack(t: Track, now: int): Track {
    Track(PruneColumn(t.raw, now - RAW_RETENTION),
          PruneColumn(t.five, now - FIVE_MIN_RETENTION),
          PruneColumn(t.hour, now - HOUR_RETENTION))
  }

  lemma CompactedTrackOf(a: Db, now: int, mid: int)
    ensures TrackOf(Compacted(a, now).samples, mid) == CompactedTrack(TrackOf(a.samples, mid), a.last, now)
  {
    var s0 := a.samples;
    var s1 := RollUp(s0, RAW, FIVE_MIN, Lo5(a.last, now));
    var s2 := RollUp(s1, FIVE_MIN, HOUR, Lo60(a.last, now));
    RollUpColumnOf(s0, RAW, FIVE_MIN, Lo5(a.last, now), mid);
    RollUpOtherColumn(s0, RAW, FIVE_MIN, Lo5(a.last, now), RAW, mid);
    RollUpOtherColumn(s0, RAW, FIVE_MIN, Lo5(a.last, now), HOUR, mid);
    RollUpColumnOf(s1, FIVE_MIN, HOUR, Lo60(a.last, now), mid);
    RollUpOtherColumn(s1, FIVE_MIN, HOUR, Lo60(a.last, now), RAW, mid);
    RollUpOtherColumn(s1, FIVE_MIN, HOUR, Lo60(a.last, now), FIVE_MIN, mid);
    TrimmedTrackOf(s2, now, mid);
  }

  lemma TrimmedTrackOf(s: Samples, now: int, mid: int)
    ensures
      TrackOf(Trimmed(s, now), mid) == TrimmedTrack(TrackOf(s, mid), now)
  {
    var s1 := Prune(s, RAW, now - RAW_RETENTION);
    var s2 := Prune(s1, FIVE_MIN, now - FIVE_MIN_RETENTION);
    PruneColumnOf(s, RAW, now - RAW_RETENTION, mid);
    PruneOtherColumn(s, RAW, now - RAW_RETENTION, FIVE_MIN, mid);
    PruneOtherColumn(s, RAW, now - RAW_RETENTION, HOUR, mid);
    PruneColumnOf(s1, FIVE_MIN, now - FIVE_MIN_RETENTION, mid);
    PruneOtherColumn(s1, FIVE_MIN, now - FIVE_MIN_RETENTION, RAW, mid);
    PruneOtherColumn(s1, FIVE_MIN, now - FIVE_MIN_RETENTION, HOUR, mid);
    PruneColumnOf(s2, HOUR, now - HOUR_RETENTION, mid);
    PruneOtherColumn(s2, HOUR, now - HOUR_RETENTION, RAW, mid);
    PruneOtherColumn(s2, HOUR, now - HOUR_RETENTION, FIVE_MIN, mid);
  }

  // ---- interning ----

  ghost predicate Injective(m: map<string, int>) {
    forall a, b :: a in m && b in m && m[a] == m[b] ==> a == b
  }

  /** Names and ids are in bijection and every row belongs to a named metric and lies in a tier. */
  ghost predicate TablesCoherent(db: Db) {
    && Injective(db.metric)
    && forall q :: q in db.samples ==> q.mid in db.metric.Values && IsValidRes(q.res)
  }

  /** The tables are coherent and the memo contradicts them nowhere; it may be stale, that is, still
      hold names that a rollback took out of the table. */
  ghost predicate Coherent(db: Db) {
    TablesCoherent(db) && MemoAgrees(db.metric, db.ids)
  }

  ghost predicate MemoAgrees(metric: map<string, int>, ids: map<string, int>) {
    forall m :: m in ids && m in metric ==> ids[m] == metric[m]
  }

  lemma {:induction false} StampedKeys(samples: Samples, ts: int, points: seq<Point>, ids: map<string, int>, q: Key)
    requires FiniteNames(points) <= ids.Keys
    requires q in Stamped(samples, ts, points, ids) && q !in samples
    ensures q.res == RAW && q.ts == ts
    ensures exists m :: m in FiniteNames(points) && q.mid == ids[m]
    decreases |points|
  {
    if points != [] {
      NamesOfFront(points);
      var front, p := points[..|points| - 1], points[|points| - 1];
      if p.value.Finite? && q == Key(RAW, ts, ids[p.name]) {
        assert p.name in FiniteNames(points);
      } else {
        StampedKeys(samples, ts, front, ids, q);
      }
    }
  }

  /** A batch posts to every id the last finite reading filed under it. */
  lemma {:induction false} StampedFor(samples: Samples, ts: int, points: seq<Point>, ids: map<string, int>, mid: int)
    requires FiniteNames(points) <= ids.Keys
    ensures
      var t := TrackOf(samples, mid);
      TrackOf(Stamped(samples, ts, points, ids), mid) == t.(raw := Posted(t.raw, ts, ReadingFor(points, ids, mid)))
    decreases |points|
  {
    if points != [] {
      NamesOfFront(points);
      var front, p := points[..|points| - 1], points[|points| - 1];
      StampedFor(samples, ts, front, ids, mid);
      if p.value.Finite? {
        assert p.name in FiniteNames(points);
        StampOne(Stamped(samples, ts, front, ids), ts, ids[p.name], p.value.v, mid);
        PostedTwice(ColumnOf(samples, RAW, mid), ts, ReadingFor(front, ids, mid), p.value.v);
      }
    }
  }

  lemma {:induction false} ReadingForName(points: seq<Point>, ids: map<string, int>, name: string, mid: int)
    requires FiniteNames(points) <= ids.Keys
    requires forall m :: m in FiniteNames(points) ==> (ids[m] == mid <==> m == name)
    ensures ReadingFor(points, ids, mid) == LastReading(points, name)
    decreases |points|
  {
    if points != [] {
      NamesOfFront(points);
      var p := points[|points| - 1];
      ReadingForName(points[..|points| - 1], ids, name, mid);
      if p.value.Finite? {
        assert p.name in FiniteNames(points);
      }
    }
  }

  lemma PostedTwice(raw: Column, ts: int, earlier: Option<real>, v: real)
    ensures Posted(Posted(raw, ts, earlier), ts, Some(v)) == Posted(raw, ts, Some(v))
  {
  }

  lemma StampOne(samples: Samples, ts: int, id: int, v: real, mid: int)
    ensures
      var t := TrackOf(samples, mid);
      var after := TrackOf(samples[Key(RAW, ts, id) := RawRow(v)], mid);
      after == if id == mid then t.(raw := t.raw[ts := RawRow(v)]) else t
  {
    var k := Key(RAW, ts, id);
    if id == mid {
      InsertColumnOf(samples, k, RawRow(v));
    } else {
      InsertOtherColumn(samples, k, RawRow(v), RAW, mid);
    }
    InsertOtherColumn(samples, k, RawRow(v), FIVE_MIN, mid);
    InsertOtherColumn(samples, k, RawRow(v), HOUR, mid);
  }

  lemma LastReadingOfNamed(points: seq<Point>, name: string)
    ensures LastReading(points, name).Some? <==> name in FiniteNames(points)
    decreases |points|
  {
    if points != [] {
      NamesOfFront(points);
      LastReadingOfNamed(points[..|points| - 1], name);
    }
  }

  lemma WriteKeepsCoherence(a: Db, ts: int, points: seq<Point>, b: Db)
    requires Coherent(a) && WriteStep(a, ts, points, b) && FiniteNames(points) !! Stale(a)
    ensures Coherent(b)
  {
    forall q | q in b.samples
      ensures q.mid in b.metric.Values && IsValidRes(q.res)
    {
      if q in a.samples {
        var m :| m in a.metric && a.metric[m] == q.mid;
        assert m in b.metric && b.metric[m] == q.mid;
      } else {
        StampedKeys(a.samples, ts, points, b.ids, q);
        var m :| m in FiniteNames(points) && q.mid == b.ids[m];
        assert m in b.metric && b.metric[m] == q.mid;
      }
    }
    forall x, y | x in b.metric && y in b.metric && b.metric[x] == b.metric[y]
      ensures x == y
    {
      assert x in a.metric ==> b.metric[x] in a.metric.Values;
      assert y in a.metric ==> b.metric[y] in a.metric.Values;
    }
  }

  /** The write put the name's last finite reading into its rows and changed no other of them. */
  ghost predicate PostedTo(a: Db, ts: int, points: seq<Point>, b: Db, name: string) {
    Rows(b, name) == Rows(a, name).(raw := Posted(Rows(a, name).raw, ts, LastReading(points, name)))
  }

  /** A committed write that keeps to a name's own id posts exactly that name's reading to its rows. */
  lemma OwnWriteRows(a: Db, ts: int, points: seq<Point>, b: Db, name: string)
    requires WriteStep(a, ts, points, b) && OwnId(a, points, b, name)
    ensures PostedTo(a, ts, points, b, name)
  {
    if name in b.metric {
      StampedFor(a.samples, ts, points, b.ids, b.metric[name]);
      ReadingForName(points, b.ids, name, b.metric[name]);
      if name !in a.metric {
        NoRowsUnder(a.samples, b.metric[name]);
      }
    } else {
      LastReadingOfNamed(points, name);
    }
  }

  /** A write that uses no stale memo entry keeps to every name's own id. */
  lemma SoundWriteOwns(a: Db, ts: int, points: seq<Point>, b: Db, name: string)
    requires Coherent(a) && WriteStep(a, ts, points, b) && FiniteNames(points) !! Stale(a)
    ensures Coherent(b) && OwnId(a, points, b, name)
  {
    WriteKeepsCoherence(a, ts, points, b);
    if name in b.metric && name !in a.metric {
      assert b.metric[name] !in a.metric.Values;
    }
  }

  /** A committed write posts to each named book and leaves every other name's rows alone, even
      when it creates a metric under an id that an earlier, collected metric once had. */
  lemma WriteRows(a: Db, ts: int, points: seq<Point>, b: Db, name: string)
    requires Coherent(a) && WriteStep(a, ts, points, b) && FiniteNames(points) !! Stale(a)
    ensures Coherent(b)
    ensures PostedTo(a, ts, points, b, name)
  {
    SoundWriteOwns(a, ts, points, b, name);
    OwnWriteRows(a, ts, points, b, name);
  }

  lemma NoRowsUnder(samples: Samples, mid: int)
    requires forall q :: q in samples ==> q.mid != mid
    ensures TrackOf(samples, mid) == NO_ROWS
  {
    assert forall res: int, t: int :: Key(res, t, mid) in samples ==> Key(res, t, mid).mid != mid;
    ColumnsEqual(ColumnOf(samples, RAW, mid), map[]);
    ColumnsEqual(ColumnOf(samples, FIVE_MIN, mid), map[]);
    ColumnsEqual(ColumnOf(samples, HOUR, mid), map[]);
  }

  lemma RollUpMids(samples: Samples, from: int, to: int, lo: int, q: Key)
    requires IsValidRes(to) && q in RollUp(samples, from, to, lo)
    requires forall k :: k in samples ==> IsValidRes(k.res)
    ensures IsValidRes(q.res) && exists k :: k in samples && k.mid == q.mid
  {
    if q in samples {
    } else {
      var k :| k in samples && k.res == from && k.ts >= lo && q == Key(to, Bucket(k.ts, to), k.mid);
    }
  }

  lemma RolledUpMids(samples: Samples, last: Option<int>, now: int, q: Key)
    requires q in RolledUp(samples, last, now)
    requires forall k :: k in samples ==> IsValidRes(k.res)
    ensures IsValidRes(q.res) && exists k :: k in samples && k.mid == q.mid
  {
    var five := RollUp(samples, RAW, FIVE_MIN, Lo5(last, now));
    forall k | k in five
      ensures IsValidRes(k.res) && exists j :: j in samples && j.mid == k.mid
    {
      RollUpMids(samples, RAW, FIVE_MIN, Lo5(last, now), k);
    }
    RollUpMids(five, FIVE_MIN, HOUR, Lo60(last, now), q);
  }

  /** A compaction restores coherence from any memo, even one a rolled-back write had spoilt. */
  lemma CompactKeepsCoherence(a: Db, now: int)
    requires TablesCoherent(a)
    ensures Coherent(Compacted(a, now))
  {
    var b := Compacted(a, now);
    forall q | q in b.samples
      ensures q.mid in b.metric.Values && IsValidRes(q.res)
    {
      RolledUpMids(a.samples, a.last, now, q);
      var k :| k in a.samples && k.mid == q.mid;
      var m :| m in a.metric && a.metric[m] == k.mid;
      assert m in b.metric && b.metric[m] == q.mid;
    }
  }

  /** Dropping ownerless names takes nothing from any name's rows, in any state whatever. */
  lemma CompactRows(a: Db, now: int, name: string)
    ensures Rows(Compacted(a, now), name) == CompactedTrack(Rows(a, name), a.last, now)
  {
    if name in a.metric {
      CompactedTrackOf(a, now, a.metric[name]);
      if name !in Compacted(a, now).metric {
        NoRowsUnder(Compacted(a, now).samples, a.metric[name]);
      }
    } else {
      EmptyStaysEmpty(a.last, now);
    }
  }

  /** A compaction keeps exactly the names that own a row after it, each with its id. */
  lemma OwnerlessGo(a: Db, now: int, name: string)
    ensures
      var b := Compacted(a, now);
      && (name in b.metric <==> name in a.metric && exists q :: q in b.samples && q.mid == a.metric[name])
      && (name in b.metric ==> b.metric[name] == a.metric[name])
  {
  }

  lemma EmptyStaysEmpty(last: Option<int>, now: int)
    ensures CompactedTrack(NO_ROWS, last, now) == NO_ROWS
  {
  }

  // ---- agreement with the ledger ----

  function Cut(last: Option<int>, res: int): Option<int>
    requires IsValidRes(res)
  {
    if last.None? then None else Some(last.value - Retention(res))
  }

  ghost predicate AgreesAt(kept: Column, full: Column, cut: Option<int>, t: int) {
    && (t in kept ==> t in full && full[t] == kept[t])
    && (t in full && (cut.None? || cut.value <= t) ==> t in kept)
  }

  /** `kept` holds only rows of `full`, and all of those from the cut on. */
  ghost predicate Agrees(kept: Column, full: Column, cut: Option<int>) {
    forall t :: AgreesAt(kept, full, cut, t)
  }

  ghost predicate Faithful(t: Track, u: Track, last: Option<int>) {
    && Agrees(t.raw, u.raw, Cut(last, RAW))
    && Agrees(t.five, u.five, Cut(last, FIVE_MIN))
    && Agrees(t.hour, u.hour, Cut(last, HOUR))
  }

  lemma RecomputedAt(src: Column, dst: Column, width: int, lo: int, b: int)
    requires width > 0 && Aligned(lo, width)
    ensures
      var r := Recomputed(src, dst, width, lo);
      var total := BucketTotal(src, b, width);
      if Aligned(b, width) && lo <= b && total.Total?
      then b in r && r[b] == Summary(total)
      else (b in r <==> b in dst) && (b in dst ==> r[b] == dst[b])
  {
    var total := BucketTotal(src, b, width);
    if Aligned(b, width) && lo <= b && total.Total? {
      var t :| b <= t < b + width && t in src;
      BucketUnique(t, b, width);
    } else {
      forall t | t in src && t >= lo
        ensures Bucket(t, width) != b
      {
        if Bucket(t, width) < lo {
          BoundariesApart(Bucket(t, width), lo, width);
        }
      }
    }
  }

  lemma SeenTotals(src: Column, full: Column, cut: Option<int>, width: int, lo: int, b: int)
    requires width > 0 && Aligned(lo, width) && Aligned(b, width)
    requires Agrees(src, full, cut) && (cut.None? || cut.value <= lo)
    ensures GroupTotal(src, lo, b, width) == if lo <= b then BucketTotal(full, b, width) else Nothing
  {
    if lo <= b {
      forall t | b <= t < b + width
        ensures At(src, t) == At(full, t)
      {
        assert AgreesAt(src, full, cut, t);
      }
      FoldCongruent(src, full, b, b + width);
    } else {
      BoundariesApart(b, lo, width);
    }
  }

  /** The heart of prune safety: a rollup whose lower bound is a bucket boundary at or above the
      cut of the tier below sees whole buckets, so it writes what the ledger writes. */
  lemma RollUpAgrees(src: Column, fullSrc: Column, srcCut: Option<int>,
                     dst: Column, fullDst: Column, dstCut: Option<int>, width: int, lo: int)
    requires width > 0 && Aligned(lo, width)
    requires srcCut.None? || srcCut.value <= lo
    requires Agrees(src, fullSrc, srcCut) && Agrees(dst, fullDst, dstCut)
    ensures Agrees(RollUpColumn(src, dst, width, lo), Recomputed(fullSrc, fullDst, width, lo), dstCut)
  {
    forall b
      ensures AgreesAt(RollUpColumn(src, dst, width, lo), Recomputed(fullSrc, fullDst, width, lo), dstCut, b)
    {
      assert AgreesAt(dst, fullDst, dstCut, b);
      RollUpColumnAt(src, dst, width, lo, b);
      RecomputedAt(fullSrc, fullDst, width, lo, b);
      if Aligned(b, width) {
        SeenTotals(src, fullSrc, srcCut, width, lo, b);
      }
    }
  }

  lemma PruneAgrees(kept: Column, full: Column, was: Option<int>, cut: int)
    requires Agrees(kept, full, was) && (was.None? || was.value <= cut)
    ensures Agrees(PruneColumn(kept, cut), full, Some(cut))
  {
    forall t
      ensures AgreesAt(PruneColumn(kept, cut), full, Some(cut), t)
    {
      assert AgreesAt(kept, full, was, t);
    }
  }

  lemma RollUpFaithful(t: Track, u: Track, last: Option<int>, now: int)
    requires Faithful(t, u, last) && (last.None? || last.value <= now)
    ensures Faithful(RolledTrack(t, last, now), Recorded(u, last, now), last)
  {
    var lo5, lo60 := Lo5(last, now), Lo60(last, now);
    RollUpAgrees(t.raw, u.raw, Cut(last, RAW), t.five, u.five, Cut(last, FIVE_MIN), FIVE_MIN, lo5);
    var five, fullFive := RollUpColumn(t.raw, t.five, FIVE_MIN, lo5), Recomputed(u.raw, u.five, FIVE_MIN, lo5);
    RollUpAgrees(five, fullFive, Cut(last, FIVE_MIN), t.hour, u.hour, Cut(last, HOUR), HOUR, lo60);
  }

  lemma TrimFaithful(t: Track, u: Track, last: Option<int>, now: int)
    requires Faithful(t, u, last) && (last.None? || last.value <= now)
    ensures Faithful(TrimmedTrack(t, now), u, Some(now))
  {
    PruneAgrees(t.raw, u.raw, Cut(last, RAW), now - RAW_RETENTION);
    PruneAgrees(t.five, u.five, Cut(last, FIVE_MIN), now - FIVE_MIN_RETENTION);
    PruneAgrees(t.hour, u.hour, Cut(last, HOUR), now - HOUR_RETENTION);
  }

  lemma CompactFaithful(t: Track, u: Track, last: Option<int>, now: int)
    requires Faithful(t, u, last) && (last.None? || last.value <= now)
    ensures Faithful(CompactedTrack(t, last, now), Recorded(u, last, now), Some(now))
  {
    RollUpFaithful(t, u, last, now);
    TrimFaithful(RolledTrack(t, last, now), Recorded(u, last, now), last, now);
  }

  lemma PostAgrees(kept: Column, full: Column, cut: Option<int>, ts: int, reading: Option<real>)
    requires Agrees(kept, full, cut)
    ensures Agrees(Posted(kept, ts, reading), Posted(full, ts, reading), cut)
  {
    forall t
      ensures AgreesAt(Posted(kept, ts, reading), Posted(full, ts, reading), cut, t)
    {
      assert AgreesAt(kept, full, cut, t);
    }
  }

  lemma {:induction false} LastCompactionIs(events: seq<Event>)
    requires LastCompaction(events).Some?
    ensures exists i :: 0 <= i < |events| && events[i] == Compact(LastCompaction(events).value)
    decreases |events|
  {
    var n := |events| - 1;
    if events[n].Compact? {
      assert events[n] == Compact(LastCompaction(events).value);
    } else {
      LastCompactionIs(events[..n]);
      var i :| 0 <= i < n && events[..n][i] == Compact(LastCompaction(events[..n]).value);
      assert events[i] == Compact(LastCompaction(events).value);
    }
  }

  lemma OrderlyFront(events: seq<Event>)
    requires events != [] && Orderly(events)
    ensures
      var front, e := events[..|events| - 1], events[|events| - 1];
      Orderly(front) && (e.Compact? && LastCompaction(front).Some? ==> LastCompaction(front).value <= e.now)
  {
    var n := |events| - 1;
    var front := events[..n];
    assert forall i :: 0 <= i < n ==> front[i] == events[i];
    if events[n].Compact? && LastCompaction(front).Some? {
      LastCompactionIs(front);
    }
  }

  lemma RunFront(states: seq<Db>, events: seq<Event>)
    requires events != [] && Run(states, events)
    ensures Run(states[..|events|], events[..|events| - 1])
    ensures Step(states[|events| - 1], events[|events| - 1], states[|events|])
  {
    var n := |events| - 1;
    var s, e := states[..n + 1], events[..n];
    assert forall i :: 0 <= i < n ==> e[i] == events[i];
    assert forall i :: 0 <= i <= n ==> s[i] == states[i];
  }

  lemma SoundForFront(states: seq<Db>, events: seq<Event>, name: string)
    requires events != [] && |states| == |events| + 1 && SoundFor(states, events, name)
    ensures SoundFor(states[..|events|], events[..|events| - 1], name)
  {
    var n := |events| - 1;
    var s, e := states[..n + 1], events[..n];
    assert forall i :: 0 <= i < n ==> e[i] == events[i] && s[i + 1] == states[i + 1];
    assert forall i :: 0 <= i <= n ==> s[i] == states[i];
  }

  lemma {:induction false} MarkIs(states: seq<Db>, events: seq<Event>)
    requires Run(states, events)
    ensures states[|events|].last == LastCompaction(events)
    decreases |events|
  {
    if events != [] {
      RunFront(states, events);
      MarkIs(states[..|events|], events[..|events| - 1]);
    }
  }

  /** Over every run in which the writes kept to this name's own id, whatever happened to other names
      and however ids were handed out, reused or not: what the store shows for the name is the
      ledger's book, minus only rows older than the tier's retention at the last compaction. */
  lemma {:induction false} StoreRefinesLedger(states: seq<Db>, events: seq<Event>, name: string)
    requires Run(states, events) && Orderly(events) && SoundFor(states, events, name)
    ensures states[|events|].last == LastCompaction(events)
    ensures Faithful(Rows(states[|events|], name), BookOf(events, name), LastCompaction(events))
    decreases |events|
  {
    MarkIs(states, events);
    if events != [] {
      var n := |events| - 1;
      RunFront(states, events);
      OrderlyFront(events);
      SoundForFront(states, events, name);
      StoreRefinesLedger(states[..n + 1], events[..n], name);
      StepRefines(states[n], events[n], states[n + 1], BookOf(events[..n], name), name);
    }
  }

  lemma StepRefines(a: Db, e: Event, b: Db, u: Track, name: string)
    requires Step(a, e, b) && Faithful(Rows(a, name), u, a.last)
    requires e.Write? ==> OwnId(a, e.points, b, name)
    requires e.Compact? && a.last.Some? ==> a.last.value <= e.now
    ensures b.last == if e.Compact? then Some(e.now) else a.last
    ensures Faithful(Rows(b, name), Booked(u, e, a.last, name), b.last)
  {
    match e
    case Write(ts, points) =>
      OwnWriteRows(a, ts, points, b, name);
      PostAgrees(Rows(a, name).raw, u.raw, Cut(a.last, RAW), ts, LastReading(points, name));
    case Abort(points) =>
    case Compact(now) =>
      CompactRows(a, now, name);
      CompactFaithful(Rows(a, name), u, a.last, now);
    case Restart =>
  }

  // ---- every id, with no hypothesis on the memo ----

  function TrackAfter(t: Track, e: Event, last: Option<int>, ids: map<string, int>, mid: int): Track {
    match e
    case Write(ts, points) => t.(raw := Posted(t.raw, ts, ReadingFor(points, ids, mid)))
    case Compact(now) => CompactedTrack(t, last, now)
    case Abort(_) => t
    case Restart => t
  }

  /** What one event does to the rows under an id, named or not. */
  lemma TrackMoves(a: Db, e: Event, b: Db, mid: int)
    requires Step(a, e, b)
    ensures TrackOf(b.samples, mid) == TrackAfter(TrackOf(a.samples, mid), e, a.last, b.ids, mid)
  {
    match e
    case Write(ts, points) => StampedFor(a.samples, ts, points, b.ids, mid);
    case Abort(_) =>
    case Compact(now) => CompactedTrackOf(a, now, mid);
    case Restart =>
  }

  /** Over every run, with any rollbacks and any memo: the rows under each id are those of the id's
      own book, minus only rows past their retention. */
  lemma {:induction false} IdsRefineBooks(states: seq<Db>, events: seq<Event>, mid: int)
    requires Run(states, events) && Orderly(events)
    ensures Faithful(TrackOf(states[|events|].samples, mid), IdBookOf(states, events, mid), LastCompaction(events))
    decreases |events|
  {
    if events != [] {
      var n := |events| - 1;
      RunFront(states, events);
      OrderlyFront(events);
      IdsRefineBooks(states[..n + 1], events[..n], mid);
      MarkIs(states[..n + 1], events[..n]);
      MarkIs(states, events);
      IdBookStep(states, events, mid);
      IdsRefineNext(states[n], events[n], states[n + 1], IdBookOf(states[..n + 1], events[..n], mid), mid);
    } else {
      NoRowsUnder(states[0].samples, mid);
      NothingAgrees();
    }
  }

  lemma NothingAgrees()
    ensures Faithful(NO_ROWS, NO_ROWS, None)
  {
  }

  lemma IdsRefineNext(a: Db, e: Event, b: Db, u: Track, mid: int)
    requires Step(a, e, b) && Faithful(TrackOf(a.samples, mid), u, a.last)
    requires e.Compact? && a.last.Some? ==> a.last.value <= e.now
    ensures b.last == MarkAfter(e, a.last)
    ensures Faithful(TrackOf(b.samples, mid), IdBooked(u, e, a.last, b.ids, mid), MarkAfter(e, a.last))
  {
    TrackMoves(a, e, b, mid);
    IdStepRefines(TrackOf(a.samples, mid), u, e, a.last, b.ids, mid);
  }

  lemma IdStepRefines(t: Track, u: Track, e: Event, last: Option<int>, ids: map<string, int>, mid: int)
    requires Faithful(t, u, last)
    requires e.Compact? && last.Some? ==> last.value <= e.now
    ensures Faithful(TrackAfter(t, e, last, ids, mid), IdBooked(u, e, last, ids, mid), MarkAfter(e, last))
  {
    if e.Write? {
      PostAgrees(t.raw, u.raw, Cut(last, RAW), e.ts, ReadingFor(e.points, ids, mid));
    } else if e.Compact? {
      CompactFaithful(t, u, last, e.now);
    }
  }

  lemma IdBookStep(states: seq<Db>, events: seq<Event>, mid: int)
    requires events != [] && |states| == |events| + 1
    ensures
      var n := |events| - 1;
      IdBookOf(states, events, mid)
      == IdBooked(IdBookOf(states[..n + 1], events[..n], mid), events[n], states[n].last, states[n + 1].ids, mid)
  {
  }

  function MarkAfter(e: Event, last: Option<int>): Option<int> {
    if e.Compact? then Some(e.now) else last
  }

  // ---- rollbacks ----

  /** A rolled-back write leaves the tables and every row as they were and adds to the stale names
      exactly those it resolved that the table did not hold; so the memo stays inside the table if
      and only if it held them all. */
  lemma AbortCoherence(a: Db, points: seq<Point>, b: Db)
    requires Coherent(a) && AbortStep(a, points, b)
    ensures Coherent(b)
    ensures Stale(b) == Stale(a) + (FiniteNames(points) - a.metric.Keys)
    ensures Extends(a.ids, a.metric) ==> (Extends(b.ids, b.metric) <==> FiniteNames(points) <= a.metric.Keys)
  {
    var metric :| Interned(a.metric, a.ids, FiniteNames(points), metric, b.ids);
    MemoCoherence(a.metric, a.ids, FiniteNames(points), metric, b.ids);
    SameTables(a, b);
  }

  lemma SameTables(a: Db, b: Db)
    requires TablesCoherent(a) && b.samples == a.samples && b.metric == a.metric
    ensures TablesCoherent(b)
  {
  }

  lemma MemoCoherence(metric: map<string, int>, ids: map<string, int>, names: set<string>,
                      metric': map<string, int>, ids': map<string, int>)
    requires MemoAgrees(metric, ids) && Interned(metric, ids, names, metric', ids')
    ensures MemoAgrees(metric, ids')
    ensures ids'.Keys - metric.Keys == (ids.Keys - metric.Keys) + (names - metric.Keys)
    ensures Extends(ids, metric) ==> (Extends(ids', metric) <==> names <= metric.Keys)
  {
    if Extends(ids', metric) {
      assert forall m :: m in names ==> m in ids';
    }
  }
}
