/** The `/api/series` handler and the constant-time comparison. */
module SeriesApi {
  import opened Buckets
  import opened Rollup
  import opened Tables
  import opened HistoryStore
  import opened History
  import opened Shape
  import opened Capacity

  const I64_MAX := 0x7FFF_FFFF_FFFF_FFFF
  const I64_MIN := -0x8000_0000_0000_0000

  predicate IsI64(x: int) {
    I64_MIN <= x <= I64_MAX
  }

  function SaturatingSub(a: int, b: int): int {
    if a - b > I64_MAX then I64_MAX else if a - b < I64_MIN then I64_MIN else a - b
  }

  datatype Reply = BadRange | BadResolution | Reply(res: int, columns: Columns)

  method Series(store: Store, metric: string, from: int, to: int, res: Option<int>) returns (r: Reply)
    requires IsI64(from) && IsI64(to)
    ensures r.BadRange? <==> to < from
    ensures r.BadResolution? <==> from <= to && res.Some? && res.value != 15 && res.value != 300 && res.value != 3600
    ensures r.Reply? && res.Some? ==> r.res == res.value
    ensures r.Reply? && res.None? ==>
              && r.res == PickRes(to - from)
              && (r.res == 15 <==> to - from <= 3600)
              && (r.res == 300 <==> 3600 < to - from <= 86_400)
              && (r.res == 3600 <==> 86_400 < to - from)
    ensures r.Reply? ==>
              && |r.columns.t| <= 20_000
              && (metric !in store.metric ==> r.columns == Columns([], [], [], []))
              && (metric in store.metric ==>
                    Answers(ColumnOf(store.samples, r.res, store.metric[metric]), from, to, 20_000, r.columns))
  {
    if to < from {
      return BadRange;
    }
    var span := SaturatingSub(to, from);
    var chosen;
    if res.None? {
      chosen := PickRes(span);
    } else if IsValidRes(res.value) {
      chosen := res.value;
    } else {
      return BadResolution;
    }
    var columns := store.Series(metric, from, to, chosen, MAX_POINTS);
    return Reply(chosen, columns);
  }

  /** The picked tier never gets finer as the span grows. */
  lemma PickCoarsens(span: int, longer: int)
    requires span <= longer
    ensures PickRes(span) <= PickRes(longer)
  {
  }

  /** Point `i` of the reply is a row of the book. */
  ghost predicate FromBook(book: Column, out: Columns, i: int)
    requires 0 <= i < |out.t| == |out.avg| == |out.min| == |out.max|
  {
    var t := out.t[i];
    t in book && book[t].avg == out.avg[i] && book[t].min == out.min[i] && book[t].max == out.max[i]
  }

  /** At any resolution and under any row limit, every point returned for a name is that name's own,
      with the ledger's values: never a point of a metric that held the same id before. */
  lemma EveryReplyIsOwn(states: seq<Db>, events: seq<Event>, metric: string, res: int, from: int, to: int, limit: nat,
                        out: Columns)
    requires Run(states, events) && Orderly(events) && SoundFor(states, events, metric) && IsValidRes(res)
    requires Answers(Rows(states[|events|], metric).Tier(res), from, to, limit, out)
    ensures forall i :: 0 <= i < |out.t| ==> FromBook(BookOf(events, metric).Tier(res), out, i)
  {
    StoreRefinesLedger(states, events, metric);
    OwnRows(Rows(states[|events|], metric).Tier(res), BookOf(events, metric).Tier(res),
            Cut(LastCompaction(events), res), from, to, limit, out);
  }

  ghost predicate Retained(cut: Option<int>, t: int) {
    cut.None? || cut.value <= t
  }

  /** A reply to a query without a resolution lists every retained row of the range at the chosen
      resolution, in time order, with the ledger's values; the row cap never bites. */
  lemma AutomaticReplyIsComplete(states: seq<Db>, events: seq<Event>, metric: string, from: int, to: int, out: Columns)
    requires Run(states, events) && Orderly(events) && SoundFor(states, events, metric)
    requires LastCompaction(events).Some? ==> WrittenBy(events, LastCompaction(events).value + 300)
    requires from <= to
    requires Answers(Rows(states[|events|], metric).Tier(PickRes(to - from)), from, to, MAX_POINTS, out)
    ensures
      var res := PickRes(to - from);
      var kept, book := Rows(states[|events|], metric).Tier(res), BookOf(events, metric).Tier(res);
      var cut := Cut(LastCompaction(events), res);
      && (forall t :: t in out.t <==> t in kept && from <= t <= to)
      && (forall t :: t in book && from <= t <= to && Retained(cut, t) ==> t in out.t)
      && (forall i :: 0 <= i < |out.t| ==> FromBook(book, out, i))
  {
    var res := PickRes(to - from);
    var kept, book := Rows(states[|events|], metric).Tier(res), BookOf(events, metric).Tier(res);
    AutomaticFits(states, events, metric, from, to);
    CompleteAnswer(kept, from, to, MAX_POINTS, out);
    StoreRefinesLedger(states, events, metric);
    OwnRows(kept, book, Cut(LastCompaction(events), res), from, to, MAX_POINTS, out);
  }

  /** Every returned point is the book's own. */
  lemma OwnRows(kept: Column, book: Column, cut: Option<int>, from: int, to: int, limit: nat, out: Columns)
    requires Agrees(kept, book, cut) && Answers(kept, from, to, limit, out)
    ensures forall i :: 0 <= i < |out.t| ==> FromBook(book, out, i)
    ensures forall t :: t in book && Retained(cut, t) ==> t in kept
  {
    assert forall t :: t in kept || t in book ==> AgreesAt(kept, book, cut, t);
    forall i | 0 <= i < |out.t|
      ensures FromBook(book, out, i)
    {
      assert Copies(kept, Matching(kept, from, to), out, i);
    }
  }

  /** The comparison accumulates the differing bits of every byte pair before it decides. */
  method CtEq(a: seq<bv8>, b: seq<bv8>) returns (eq: bool)
    ensures eq <==> a == b
  {
    if |a| != |b| {
      return false;
    }
    var diff: bv8 := 0;
    for i := 0 to |a|
      invariant diff == 0 <==> a[..i] == b[..i]
    {
      OrXor(diff, a[i], b[i]);
      assert a[..i + 1] == a[..i] + [a[i]] && b[..i + 1] == b[..i] + [b[i]];
      diff := diff | (a[i] ^ b[i]);
    }
    assert a[..|a|] == a && b[..|b|] == b;
    return diff == 0;
  }

  lemma OrXor(diff: bv8, x: bv8, y: bv8)
    ensures diff | (x ^ y) == 0 <==> diff == 0 && x == y
  {
  }
}
