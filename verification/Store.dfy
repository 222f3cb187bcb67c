/** The embedded history store: interned metric names, raw writes, compaction and range queries. */
module HistoryStore {
  import opened Buckets
  import opened Rollup
  import opened Tables

  /** A 64-bit float as the writer sees it. */
  datatype Reading = Finite(v: real) | NonFinite

  datatype Point = Point(name: string, value: Reading)

  /** The three tables plus the in-process name memo. `last` is the `last_compact` mark. */
  datatype Db = Db(samples: Samples, metric: map<string, int>, ids: map<string, int>, last: Option<int>)

  /** Columnar query result. */
  datatype Columns = Columns(t: seq<int>, avg: seq<real>, min: seq<real>, max: seq<real>)

  /** The names a batch resolves: readings that are not finite are skipped before that. */
  function FiniteNames(points: seq<Point>): set<string> {
    set p | p in points && p.value.Finite? :: p.name
  }

  ghost predicate Extends(a: map<string, int>, b: map<string, int>) {
    forall m :: m in a ==> m in b && b[m] == a[m]
  }

  /** Resolving `names` turns (metric, ids) into (metric', ids'): a memoised name is answered from
      the memo alone, any other name gets its table row, with an id no current row uses. */
  ghost predicate Interned(metric: map<string, int>, ids: map<string, int>, names: set<string>,
                           metric': map<string, int>, ids': map<string, int>)
  {
    && Extends(metric, metric')
    && Extends(ids, ids')
    && ids'.Keys == ids.Keys + names
    && metric'.Keys == metric.Keys + (names - ids.Keys)
    && (forall m :: m in names && m !in ids ==> ids'[m] == metric'[m])
    && (forall m :: m in metric' && m !in metric ==> metric'[m] !in metric.Values)
    && (forall m, k :: m in metric' && m !in metric && k in metric' && metric'[k] == metric'[m] ==> k == m)
  }

  /** The raw rows a batch leaves at `ts`: the last finite reading for an id wins. */
  function Stamped(samples: Samples, ts: int, points: seq<Point>, ids: map<string, int>): Samples
    requires FiniteNames(points) <= ids.Keys
    decreases |points|
  {
    if points == [] then samples
    else
      var front, p := points[..|points| - 1], points[|points| - 1];
      NamesOfFront(points);
      var prior := Stamped(samples, ts, front, ids);
      if p.value.Finite? then prior[Key(RAW, ts, ids[p.name]) := RawRow(p.value.v)] else prior
  }

  lemma NamesOfFront(points: seq<Point>)
    requires points != []
    ensures
      var front, p := points[..|points| - 1], points[|points| - 1];
      FiniteNames(points) == FiniteNames(front) + if p.value.Finite? then {p.name} else {}
  {
    var front, p := points[..|points| - 1], points[|points| - 1];
    assert points == front + [p];
    assert forall q :: q in points <==> q in front || q == p;
  }

  lemma {:induction false} StampedStable(samples: Samples, ts: int, points: seq<Point>, ids: map<string, int>,
                                         more: map<string, int>)
    requires FiniteNames(points) <= ids.Keys && Extends(ids, more)
    ensures FiniteNames(points) <= more.Keys
    ensures Stamped(samples, ts, points, ids) == Stamped(samples, ts, points, more)
    decreases |points|
  {
    if points != [] {
      NamesOfFront(points);
      StampedStable(samples, ts, points[..|points| - 1], ids, more);
    }
  }

  lemma NextPoint(points: seq<Point>, i: nat)
    requires i < |points|
    ensures FiniteNames(points[..i + 1])
         == FiniteNames(points[..i]) + if points[i].value.Finite? then {points[i].name} else {}
  {
    assert points[..i + 1][..i] == points[..i];
    NamesOfFront(points[..i + 1]);
  }

  lemma StampedMore(samples: Samples, ts: int, points: seq<Point>, i: nat, ids: map<string, int>,
                    more: map<string, int>)
    requires i < |points| && points[i].value.Finite? && points[i].name in more
    requires FiniteNames(points[..i]) <= ids.Keys && Extends(ids, more)
    ensures FiniteNames(points[..i + 1]) <= more.Keys
    ensures Stamped(samples, ts, points[..i + 1], more)
         == Stamped(samples, ts, points[..i], ids)[Key(RAW, ts, more[points[i].name]) := RawRow(points[i].value.v)]
  {
    NextPoint(points, i);
    StampedStable(samples, ts, points[..i], ids, more);
    assert points[..i + 1][..i] == points[..i];
  }

  lemma StampedSkip(samples: Samples, ts: int, points: seq<Point>, i: nat, ids: map<string, int>)
    requires i < |points| && !points[i].value.Finite? && FiniteNames(points[..i]) <= ids.Keys
    ensures FiniteNames(points[..i + 1]) <= ids.Keys
    ensures Stamped(samples, ts, points[..i + 1], ids) == Stamped(samples, ts, points[..i], ids)
  {
    NextPoint(points, i);
    assert points[..i + 1][..i] == points[..i];
  }

  /** A write that commits. */
  ghost predicate WriteStep(a: Db, ts: int, points: seq<Point>, b: Db) {
    && Interned(a.metric, a.ids, FiniteNames(points), b.metric, b.ids)
    && b.samples == Stamped(a.samples, ts, points, b.ids)
    && b.last == a.last
  }

  /** A write that fails after resolving the names of `points`: the tables roll back, the memo does not. */
  ghost predicate AbortStep(a: Db, points: seq<Point>, b: Db) {
    && b.samples == a.samples && b.metric == a.metric && b.last == a.last
    && exists metric :: Interned(a.metric, a.ids, FiniteNames(points), metric, b.ids)
  }

  /** Metric rows that still own a sample. */
  function LiveNames(metric: map<string, int>, samples: Samples): map<string, int> {
    map m | m in metric && (exists q :: q in samples && q.mid == metric[m]) :: metric[m]
  }

  /** The two rollups of a compaction, five minutes first. */
  function RolledUp(samples: Samples, last: Option<int>, now: int): Samples {
    RollUp(RollUp(samples, RAW, FIVE_MIN, Lo5(last, now)), FIVE_MIN, HOUR, Lo60(last, now))
  }

  /** The three deletes of a compaction, each tier at its own retention. */
  function Trimmed(samples: Samples, now: int): Samples {
    Prune(Prune(Prune(samples, RAW, now - RAW_RETENTION), FIVE_MIN, now - FIVE_MIN_RETENTION),
          HOUR, now - HOUR_RETENTION)
  }

  /** A row that is left is inside its tier's retention, and a raw row inside it is left as it was. */
  ghost predicate KeptRow(samples: Samples, last: Option<int>, now: int, q: Key) {
    var after := Trimmed(RolledUp(samples, last, now), now);
    && (q in after && IsValidRes(q.res) ==> now - Retention(q.res) <= q.ts)
    && (q in samples && q.res == RAW && now - RAW_RETENTION <= q.ts ==> q in after && after[q] == samples[q])
  }

  lemma CompactionKeeps(samples: Samples, last: Option<int>, now: int, q: Key)
    ensures KeptRow(samples, last, now, q)
  {
    var five := RollUp(samples, RAW, FIVE_MIN, Lo5(last, now));
    RollUpAt(samples, RAW, FIVE_MIN, Lo5(last, now), q);
    RollUpAt(five, FIVE_MIN, HOUR, Lo60(last, now), q);
  }

  /** A compaction that commits. */
  function Compacted(a: Db, now: int): Db {
    var kept := Trimmed(RolledUp(a.samples, a.last, now), now);
    Db(kept, LiveNames(a.metric, kept), map[], Some(now))
  }

  /** The timestamps a range query selects. */
  function Matching(col: Column, from: int, to: int): set<int> {
    set t | t in col && from <= t <= to
  }

  /** `ORDER BY ts LIMIT limit`: the earliest matching rows, in time order, as parallel columns. */
  ghost predicate Answers(col: Column, from: int, to: int, limit: nat, out: Columns) {
    && |out.t| == |out.avg| == |out.min| == |out.max| == Min(limit, |Matching(col, from, to)|)
    && (forall i, j :: 0 <= i < j < |out.t| ==> out.t[i] < out.t[j])
    && (forall i :: 0 <= i < |out.t| ==> Copies(col, Matching(col, from, to), out, i))
    && (forall t, i :: t in Matching(col, from, to) && t !in out.t && 0 <= i < |out.t| ==> out.t[i] < t)
  }

  class Store {
    var samples: Samples
    var metric: map<string, int>
    var ids: map<string, int>
    var lastCompact: Option<int>

    ghost function State(): Db
      reads this
    {
      Db(samples, metric, ids, lastCompact)
    }

    /** Open a database file: its tables come from disk, the memo starts empty. */
    constructor Open(samples: Samples, metric: map<string, int>, lastCompact: Option<int>)
      ensures State() == Db(samples, metric, map[], lastCompact)
    {
      this.samples := samples;
      this.metric := metric;
      this.ids := map[];
      this.lastCompact := lastCompact;
    }

    /** A rowid no metric uses; after garbage collection it may be one used before. */
    method FreshId() returns (id: int)
      ensures id !in metric.Values
    {
      id := 1;
      var rest := metric.Values;
      while rest != {}
        invariant rest <= metric.Values
        invariant forall v :: v in metric.Values && v !in rest ==> v < id
        decreases |rest|
      {
        HasElement(rest);
        var v :| v in rest;
        if id <= v {
          id := v + 1;
        }
        rest := rest - {v};
      }
    }

    /** Resolve (and create) a metric id, memoised. */
    method MetricId(name: string) returns (id: int)
      modifies this`metric, this`ids
      ensures Interned(old(metric), old(ids), {name}, metric, ids)
      ensures name in ids && id == ids[name]
    {
      if name in ids {
        return ids[name];
      }
      if name !in metric {
        var unused := FreshId();
        metric := metric[name := unused];
      }
      id := metric[name];
      ids := ids[name := id];
    }

    /** Append one raw sample per metric at `ts`. With `fault == Some(k)` a statement (or the
        commit) fails once the first `k` points have been handled. */
    method TryWrite(ts: nat, points: seq<Point>, fault: Option<nat>) returns (ok: bool)
      modifies this`samples, this`metric, this`ids
      ensures ok <==> fault.None?
      ensures ok ==> WriteStep(old(State()), ts, points, State())
      ensures !ok ==> AbortStep(old(State()), points[..Min(fault.value, |points|)], State())
    {
      var samples0, metric0 := samples, metric;
      var n := if fault.Some? then Min(fault.value, |points|) else |points|;
      for i := 0 to n
        invariant Interned(metric0, old(ids), FiniteNames(points[..i]), metric, ids)
        invariant samples == Stamped(samples0, ts, points[..i], ids)
      {
        ghost var metric1, ids1 := metric, ids;
        NextPoint(points, i);
        if points[i].value.Finite? {
          var mid := MetricId(points[i].name);
          samples := samples[Key(RAW, ts, mid) := RawRow(points[i].value.v)];
          InternedTwice(metric0, old(ids), FiniteNames(points[..i]), metric1, ids1, points[i].name, metric, ids);
          StampedMore(samples0, ts, points, i, ids1, ids);
        } else {
          StampedSkip(samples0, ts, points, i, ids);
        }
      }
      if fault.Some? {
        samples, metric := samples0, metric0;
        return false;
      }
      assert points[..n] == points;
      return true;
    }

    /** The statements of the compaction transaction that touch `samples`. */
    method RewriteSamples(now: int)
      modifies this`samples
      ensures samples == Trimmed(RolledUp(old(samples), lastCompact, now), now)
    {
      var rawCut, fmCut, hrCut := now - RAW_RETENTION, now - FIVE_MIN_RETENTION, now - HOUR_RETENTION;
      var lo5, lo60 := Lo5(lastCompact, now), Lo60(lastCompact, now);
      samples := RollUp(samples, RAW, FIVE_MIN, lo5);
      samples := RollUp(samples, FIVE_MIN, HOUR, lo60);
      samples := Prune(samples, RAW, rawCut);
      samples := Prune(samples, FIVE_MIN, fmCut);
      samples := Prune(samples, HOUR, hrCut);
    }

    /** Roll raw to five minutes to one hour, prune each tier, drop ownerless names, all in one
        transaction; a failure anywhere rolls everything back and keeps the memo. */
    method TryCompact(now: int, fault: bool) returns (ok: bool)
      modifies this
      ensures ok == !fault
      ensures State() == if ok then Compacted(old(State()), now) else old(State())
    {
      var samples0, metric0, last0 := samples, metric, lastCompact;
      RewriteSamples(now);
      metric := LiveNames(metric, samples);
      lastCompact := Some(now);
      if fault {
        samples, metric, lastCompact := samples0, metric0, last0;
        return false;
      }
      ids := map[];
      return true;
    }

    /** Points of a metric in [from, to] at one resolution, at most `limit` of them. */
    method Series(name: string, from: int, to: int, res: int, limit: nat) returns (out: Columns)
      ensures name !in metric ==> out == Columns([], [], [], [])
      ensures name in metric ==> Answers(ColumnOf(samples, res, metric[name]), from, to, limit, out)
    {
      out := Columns([], [], [], []);
      if name !in metric {
        return;
      }
      var col := ColumnOf(samples, res, metric[name]);
      var rest := Matching(col, from, to);
      while rest != {} && |out.t| < limit
        invariant |out.t| <= limit
        invariant Picked(col, Matching(col, from, to), rest, out)
        decreases |rest|
      {
        var t := Earliest(rest);
        PickedMore(col, Matching(col, from, to), rest, out, t);
        out := Extended(out, t, col[t]);
        rest := rest - {t};
      }
    }
  }

  function Extended(out: Columns, t: int, row: Row): Columns {
    Columns(out.t + [t], out.avg + [row.avg], out.min + [row.min], out.max + [row.max])
  }

  /** `out` lists, in order, the rows of `all` that are not in `rest`, all of them before `rest`. */
  ghost predicate Picked(col: Column, all: set<int>, rest: set<int>, out: Columns) {
    && rest <= all <= col.Keys
    && |out.t| == |out.avg| == |out.min| == |out.max| == |all| - |rest|
    && (forall t :: t in all ==> t in rest || t in out.t)
    && (forall t, i :: t in rest && 0 <= i < |out.t| ==> out.t[i] < t)
    && (forall i, j :: 0 <= i < j < |out.t| ==> out.t[i] < out.t[j])
    && (forall i :: 0 <= i < |out.t| ==> Copies(col, all, out, i))
  }

  ghost predicate Copies(col: Column, all: set<int>, out: Columns, i: int)
    requires 0 <= i < |out.t| == |out.avg| == |out.min| == |out.max|
  {
    var t := out.t[i];
    t in all && t in col && col[t].avg == out.avg[i] && col[t].min == out.min[i] && col[t].max == out.max[i]
  }

  lemma PickedMore(col: Column, all: set<int>, rest: set<int>, out: Columns, t: int)
    requires Picked(col, all, rest, out) && t in rest && forall u :: u in rest ==> t <= u
    ensures Picked(col, all, rest - {t}, Extended(out, t, col[t]))
  {
    var more := Extended(out, t, col[t]);
    forall i | 0 <= i < |more.t|
      ensures Copies(col, all, more, i)
    {
      if i < |out.t| {
        assert Copies(col, all, out, i);
      }
    }
    forall u | u in all
      ensures u in rest - {t} || u in more.t
    {
      if u == t {
        assert more.t[|out.t|] == t;
      } else if u !in rest {
        assert u in out.t;
      }
    }
  }

  lemma NoElement<T>(s: set<T>)
    requires forall t :: t !in s
    ensures s == {}
  {
  }

  lemma HasElement(s: set<int>)
    requires s != {}
    ensures exists t :: t in s
  {
    if forall t :: t !in s {
      NoElement(s);
    }
  }

  method Earliest(s: set<int>) returns (m: int)
    requires s != {}
    ensures m in s && forall t :: t in s ==> m <= t
  {
    HasElement(s);
    m :| m in s;
    var rest := s - {m};
    while rest != {}
      invariant rest <= s && m in s
      invariant forall t :: t in s && t !in rest ==> m <= t
      decreases |rest|
    {
      HasElement(rest);
      var t :| t in rest;
      if t < m {
        m := t;
      }
      rest := rest - {t};
    }
  }

  /** Resolving one more name after a batch is resolving the larger batch. */
  lemma InternedTwice(metric: map<string, int>, ids: map<string, int>, names: set<string>,
                      metric1: map<string, int>, ids1: map<string, int>, name: string,
                      metric2: map<string, int>, ids2: map<string, int>)
    requires Interned(metric, ids, names, metric1, ids1)
    requires Interned(metric1, ids1, {name}, metric2, ids2)
    ensures Interned(metric, ids, names + {name}, metric2, ids2)
  {
    assert forall k :: k in metric ==> k in metric1 && metric1[k] == metric[k];
  }
}
