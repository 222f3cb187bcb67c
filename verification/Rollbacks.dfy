/** What rolled-back writes do to later ones, and exactly which runs the memo serves faithfully. */
module Rollbacks {
  import opened Buckets
  import opened HistoryStore
  import opened History

  /** How the stale names move: only a rollback adds any, a commit keeps them, and a compaction or a
      restart clears them. */
  lemma StaleStep(a: Db, e: Event, b: Db)
    requires Step(a, e, b)
    ensures Stale(b) == match e
                        case Write(_, _) => Stale(a)
                        case Abort(points) => Stale(a) + (FiniteNames(points) - a.metric.Keys)
                        case Compact(_) => {}
                        case Restart => {}
  {
  }

  /** Runs whose rollbacks were clean keep the whole memo inside the table at every step, so their
      writes are sound. */
  lemma {:induction false} CleanRunsAreSound(states: seq<Db>, events: seq<Event>)
    requires Run(states, events) && CleanAborts(states, events)
    ensures SoundWrites(states, events)
    ensures forall i :: 0 <= i <= |events| ==> Stale(states[i]) == {}
    decreases |events|
  {
    if events != [] {
      var n := |events| - 1;
      var s, e := states[..n + 1], events[..n];
      assert forall i :: 0 <= i < n ==> e[i] == events[i];
      assert forall i :: 0 <= i <= n ==> s[i] == states[i];
      CleanRunsAreSound(s, e);
      StaleStep(states[n], events[n], states[n + 1]);
    }
  }

  /** A write that finds a stale name in the memo loses that name's reading. */
  lemma StaleReadingIsLost(a: Db, ts: int, points: seq<Point>, b: Db, name: string)
    requires Coherent(a) && WriteStep(a, ts, points, b)
    requires name in FiniteNames(points) && name in Stale(a)
    ensures Rows(b, name) == NO_ROWS && LastReading(points, name).Some?
  {
    LastReadingOfNamed(points, name);
  }

  ghost predicate PostsAll(a: Db, ts: int, points: seq<Point>, b: Db) {
    forall name :: PostedTo(a, ts, points, b, name)
  }

  /** A committed write posts to every name's rows if and only if it used no stale memo entry. */
  lemma WritePostsIffSound(a: Db, ts: int, points: seq<Point>, b: Db)
    requires Coherent(a) && WriteStep(a, ts, points, b)
    ensures PostsAll(a, ts, points, b) <==> FiniteNames(points) !! Stale(a)
  {
    if FiniteNames(points) !! Stale(a) {
      forall name
        ensures PostedTo(a, ts, points, b, name)
      {
        WriteRows(a, ts, points, b, name);
      }
    } else {
      var name :| name in FiniteNames(points) && name in Stale(a);
      StaleReadingIsLost(a, ts, points, b, name);
      assert ts in Posted(Rows(a, name).raw, ts, LastReading(points, name));
      assert !PostedTo(a, ts, points, b, name);
    }
  }

  // ---- whole runs ----

  lemma SoundFront(states: seq<Db>, events: seq<Event>)
    requires events != [] && |states| == |events| + 1 && SoundWrites(states, events)
    ensures SoundWrites(states[..|events|], events[..|events| - 1])
  {
    var n := |events| - 1;
    var s, e := states[..n + 1], events[..n];
    assert forall i :: 0 <= i < n ==> e[i] == events[i];
    assert forall i :: 0 <= i <= n ==> s[i] == states[i];
  }

  /** Over every run whose writes used no stale memo entry: names and ids are in bijection, every row
      has a metric row, and the memo contradicts the table nowhere. */
  lemma {:induction false} AlwaysCoherent(states: seq<Db>, events: seq<Event>)
    requires Run(states, events) && SoundWrites(states, events)
    ensures Coherent(states[|events|])
    decreases |events|
  {
    if events != [] {
      var n := |events| - 1;
      RunFront(states, events);
      SoundFront(states, events);
      AlwaysCoherent(states[..n + 1], events[..n]);
      StepCoherent(states[n], events[n], states[n + 1]);
    }
  }

  lemma StepCoherent(a: Db, e: Event, b: Db)
    requires Coherent(a) && Step(a, e, b)
    requires e.Write? ==> FiniteNames(e.points) !! Stale(a)
    ensures Coherent(b)
  {
    match e
    case Write(ts, points) => WriteKeepsCoherence(a, ts, points, b);
    case Abort(points) => AbortCoherence(a, points, b);
    case Compact(now) => CompactKeepsCoherence(a, now);
    case Restart =>
  }

  /** In such a run every write keeps to every name's own id. */
  lemma {:induction false} SoundForEach(states: seq<Db>, events: seq<Event>, name: string)
    requires Run(states, events) && SoundWrites(states, events)
    ensures SoundFor(states, events, name)
    decreases |events|
  {
    if events != [] {
      var n := |events| - 1;
      var s, e := states[..n + 1], events[..n];
      RunFront(states, events);
      SoundFront(states, events);
      SoundForEach(s, e, name);
      AlwaysCoherent(s, e);
      if events[n].Write? {
        SoundWriteOwns(states[n], events[n].ts, events[n].points, states[n + 1], name);
      }
      SoundForMore(states, events, name);
    }
  }

  lemma SoundForMore(states: seq<Db>, events: seq<Event>, name: string)
    requires events != [] && |states| == |events| + 1
    requires SoundFor(states[..|events|], events[..|events| - 1], name)
    requires
      var n := |events| - 1;
      events[n].Write? ==> OwnId(states[n], events[n].points, states[n + 1], name)
    ensures SoundFor(states, events, name)
  {
    var n := |events| - 1;
    var s, e := states[..n + 1], events[..n];
    forall i | 0 <= i < |events| && events[i].Write?
      ensures OwnId(states[i], events[i].points, states[i + 1], name)
    {
      if i < n {
        assert s[i] == states[i] && s[i + 1] == states[i + 1] && e[i] == events[i];
      }
    }
  }

  /** Every committed write of the run put its readings into the rows of the names they came under,
      and changed nobody else's. */
  ghost predicate WritesPost(states: seq<Db>, events: seq<Event>)
    requires |states| == |events| + 1
  {
    forall i {:trigger PostsAt(states, events, i)} :: 0 <= i < |events| ==> PostsAt(states, events, i)
  }

  ghost predicate PostsAt(states: seq<Db>, events: seq<Event>, i: int)
    requires 0 <= i < |events| == |states| - 1
  {
    events[i].Write? ==> PostsAll(states[i], events[i].ts, events[i].points, states[i + 1])
  }

  ghost predicate SoundAt(states: seq<Db>, events: seq<Event>, i: int)
    requires 0 <= i < |events| == |states| - 1
  {
    events[i].Write? ==> FiniteNames(events[i].points) !! Stale(states[i])
  }

  lemma SoundEach(states: seq<Db>, events: seq<Event>)
    requires |states| == |events| + 1
    ensures SoundWrites(states, events) <==> forall i :: 0 <= i < |events| ==> SoundAt(states, events, i)
  {
    if forall i :: 0 <= i < |events| ==> SoundAt(states, events, i) {
      forall i | 0 <= i < |events| && events[i].Write?
        ensures FiniteNames(events[i].points) !! Stale(states[i])
      {
        assert SoundAt(states, events, i);
      }
    }
  }

  lemma Prefix(states: seq<Db>, events: seq<Event>, n: nat)
    requires Run(states, events) && n <= |events|
    requires forall i :: 0 <= i < n ==> SoundAt(states, events, i)
    ensures Run(states[..n + 1], events[..n]) && SoundWrites(states[..n + 1], events[..n])
  {
    var s, e := states[..n + 1], events[..n];
    assert forall i :: 0 <= i < n ==> e[i] == events[i];
    assert forall i :: 0 <= i <= n ==> s[i] == states[i];
    forall i | 0 <= i < n
      ensures SoundAt(s, e, i)
    {
      assert SoundAt(states, events, i);
    }
    SoundEach(s, e);
  }

  lemma PostsIffSoundAt(states: seq<Db>, events: seq<Event>, n: nat)
    requires Run(states, events) && n < |events|
    requires forall i :: 0 <= i < n ==> SoundAt(states, events, i)
    ensures PostsAt(states, events, n) <==> SoundAt(states, events, n)
  {
    Prefix(states, events, n);
    AlwaysCoherent(states[..n + 1], events[..n]);
    if events[n].Write? {
      assert Step(states[n], events[n], states[n + 1]);
      WritePostsIffSound(states[n], events[n].ts, events[n].points, states[n + 1]);
    }
  }

  lemma {:induction false} SoundSoFar(states: seq<Db>, events: seq<Event>, n: nat)
    requires Run(states, events) && WritesPost(states, events) && n <= |events|
    ensures forall i :: 0 <= i < n ==> SoundAt(states, events, i)
    decreases n
  {
    if n > 0 {
      SoundSoFar(states, events, n - 1);
      assert PostsAt(states, events, n - 1);
      PostsIffSoundAt(states, events, n - 1);
    }
  }

  /** Over every run: all writes post faithfully if and only if none used a stale memo entry. */
  lemma PostsIffSound(states: seq<Db>, events: seq<Event>)
    requires Run(states, events)
    ensures WritesPost(states, events) <==> SoundWrites(states, events)
  {
    SoundEach(states, events);
    if WritesPost(states, events) {
      SoundSoFar(states, events, |events|);
    }
    if SoundWrites(states, events) {
      forall i | 0 <= i < |events|
        ensures PostsAt(states, events, i)
      {
        assert forall j :: 0 <= j < i ==> SoundAt(states, events, j);
        PostsIffSoundAt(states, events, i);
      }
    }
  }

  // ---- the exact condition of the refinement ----

  /** No write is older than the raw retention at the compaction before it. */
  ghost predicate Retained(events: seq<Event>) {
    forall i :: 0 <= i < |events| && events[i].Write? ==> RetainedAt(events, i)
  }

  ghost predicate RetainedAt(events: seq<Event>, i: int)
    requires 0 <= i < |events| && events[i].Write?
  {
    var cut := Cut(LastCompaction(events[..i]), RAW);
    cut.None? || cut.value <= events[i].ts
  }

  /** After every event, each name shows rows of its own book only, and all of those inside the
      retention. */
  ghost predicate ShowsBooks(states: seq<Db>, events: seq<Event>)
    requires |states| == |events| + 1
  {
    forall i, name {:trigger ShowsAt(states, events, i, name)} :: 0 <= i <= |events|
        ==> ShowsAt(states, events, i, name)
  }

  ghost predicate ShowsAt(states: seq<Db>, events: seq<Event>, i: int, name: string)
    requires 0 <= i <= |events| == |states| - 1
  {
    Faithful(Rows(states[i], name), BookOf(events[..i], name), LastCompaction(events[..i]))
  }

  lemma OrderlyPrefix(events: seq<Event>, n: nat)
    requires Orderly(events) && n <= |events|
    ensures Orderly(events[..n])
  {
    assert forall i :: 0 <= i < n ==> events[..n][i] == events[i];
  }

  lemma UnsoundShows(states: seq<Db>, events: seq<Event>, n: nat)
    requires Run(states, events) && n < |events| && ShowsBooks(states, events)
    requires events[n].Write? ==> RetainedAt(events, n)
    requires forall i :: 0 <= i < n ==> SoundAt(states, events, i)
    ensures SoundAt(states, events, n)
  {
    if !SoundAt(states, events, n) {
      var ts, points := events[n].ts, events[n].points;
      var name :| name in FiniteNames(points) && name in Stale(states[n]);
      Prefix(states, events, n);
      AlwaysCoherent(states[..n + 1], events[..n]);
      assert Step(states[n], events[n], states[n + 1]);
      StaleReadingIsLost(states[n], ts, points, states[n + 1], name);
      assert ShowsAt(states, events, n + 1, name);
      assert events[..n + 1][..n] == events[..n];
      LostRow(BookOf(events[..n], name), LastCompaction(events[..n]), ts, LastReading(points, name));
    }
  }

  lemma LostRow(u: Track, last: Option<int>, ts: int, reading: Option<real>)
    requires reading.Some? && (Cut(last, RAW).None? || Cut(last, RAW).value <= ts)
    ensures !Faithful(NO_ROWS, u.(raw := Posted(u.raw, ts, reading)), last)
  {
    assert !AgreesAt(map[], Posted(u.raw, ts, reading), Cut(last, RAW), ts);
  }

  lemma {:induction false} ShowsMeansSound(states: seq<Db>, events: seq<Event>, n: nat)
    requires Run(states, events) && ShowsBooks(states, events) && Retained(events) && n <= |events|
    ensures forall i :: 0 <= i < n ==> SoundAt(states, events, i)
    decreases n
  {
    if n > 0 {
      ShowsMeansSound(states, events, n - 1);
      UnsoundShows(states, events, n - 1);
    }
  }

  /** The exact condition of the refinement. Over every run whose writes are not already past their
      retention, every name shows exactly its own retained rows throughout if and only if no
      committed write used a memo entry without a table row. */
  lemma ShowsBooksIffSound(states: seq<Db>, events: seq<Event>)
    requires Run(states, events) && Orderly(events) && Retained(events)
    ensures ShowsBooks(states, events) <==> SoundWrites(states, events)
  {
    SoundEach(states, events);
    if ShowsBooks(states, events) {
      ShowsMeansSound(states, events, |events|);
    }
    if SoundWrites(states, events) {
      forall i, name | 0 <= i <= |events|
        ensures ShowsAt(states, events, i, name)
      {
        assert forall j :: 0 <= j < i ==> SoundAt(states, events, j);
        Prefix(states, events, i);
        OrderlyPrefix(events, i);
        SoundForEach(states[..i + 1], events[..i], name);
        StoreRefinesLedger(states[..i + 1], events[..i], name);
      }
    }
  }
}
