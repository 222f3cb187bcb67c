/** Expiring entries under a cap: pending ceremonies and live sessions. */
module Ceremonies {
  import opened Buckets

  type Token = seq<bv8>

  datatype Pending<S> = Pending(state: S, exp: int)

  type Book<S> = map<Token, Pending<S>>

  /** The sign-in code's clock counts nanoseconds; this many make a second. */
  const NANOS := 1_000_000_000
  const SESSION_TTL := 60 * 60 * 12 * NANOS
  const CEREMONY_TTL := 300 * NANOS
  const MAX_CEREMONIES := 1024
  const MAX_SESSIONS := 1024

  /** The entries that have not expired at `now`; expiry is absolute and exclusive. */
  function Live<S>(m: Book<S>, now: int): Book<S> {
    map k | k in m && m[k].exp > now :: m[k]
  }

  ghost predicate Within<S>(a: Book<S>, b: Book<S>) {
    forall k :: k in a ==> k in b && a[k] == b[k]
  }

  /** `kept` is what a cap of `room` leaves of `live`: as many entries as fit, none of which expires
      before an evicted one. */
  ghost predicate Evicted<S>(live: Book<S>, room: nat, kept: Book<S>) {
    && Within(kept, live)
    && |kept| == Min(|live|, room)
    && forall e, k :: e in live && e !in kept && k in kept ==> live[e].exp <= kept[k].exp
  }

  /** Inserting a new entry at `now` drops the expired, evicts the soonest to expire while the map
      is full, and adds the entry. */
  ghost predicate Inserted<S>(m: Book<S>, key: Token, p: Pending<S>, now: int, cap: nat, r: Book<S>) {
    && 0 < cap
    && key in r && r[key] == p
    && Evicted(Live(m, now), cap - 1, r - {key})
  }

  lemma NoKey<S>(m: Book<S>)
    requires forall k :: k !in m
    ensures m == map[]
  {
  }

  /** The entry that expires first. */
  method Oldest<S>(m: Book<S>) returns (oldest: Token)
    requires m != map[]
    ensures oldest in m && forall k :: k in m ==> m[oldest].exp <= m[k].exp
  {
    if forall k :: k !in m {
      NoKey(m);
    }
    oldest :| oldest in m;
    var rest := m.Keys - {oldest};
    while rest != {}
      invariant rest <= m.Keys && oldest in m
      invariant forall k :: k in m && k !in rest ==> m[oldest].exp <= m[k].exp
      decreases |rest|
    {
      if forall k :: k !in rest {
        NoToken(rest);
      }
      var k :| k in rest;
      if m[k].exp < m[oldest].exp {
        oldest := k;
      }
      rest := rest - {k};
    }
  }

  lemma NoToken(s: set<Token>)
    requires forall k :: k !in s
    ensures s == {}
  {
  }

  /** Insert a ceremony, evicting the oldest if the map is full. */
  method InsertCapped<S>(book: Book<S>, key: Token, p: Pending<S>, now: int) returns (m: Book<S>)
    requires key !in book
    ensures Inserted(book, key, p, now, MAX_CEREMONIES, m)
    ensures |m| <= MAX_CEREMONIES
  {
    m := Live(book, now);
    ghost var live := m;
    while |m| >= MAX_CEREMONIES
      invariant Evicted(live, |m|, m)
      invariant |m| >= Min(|live|, MAX_CEREMONIES - 1)
      decreases |m|
    {
      var oldest := Oldest(m);
      ghost var before := m;
      m := m - {oldest};
      assert |m| == |before| - 1 by {
        assert before == m[oldest := before[oldest]];
      }
    }
    ghost var kept := m;
    m := m[key := p];
    assert m - {key} == kept;
  }

  // ---- flood survival ----

  /** Entries that outlive an entry expiring at `exp`. */
  ghost function Younger<S>(m: Book<S>, exp: int): set<Token> {
    set k | k in m && m[k].exp > exp
  }

  /** A sequence of starts, all later than the first. Between two starts other entries may disappear
      (redeemed, swept), but the first start's entry is not taken. */
  ghost predicate Flood<S>(before: seq<Book<S>>, keys: seq<Token>, states: seq<S>, times: seq<int>,
                           after: seq<Book<S>>) {
    && |before| == |keys| == |states| == |times| == |after| > 0
    && (forall k :: k in before[0] ==> before[0][k].exp < times[0] + CEREMONY_TTL)
    && forall i {:trigger FloodedAt(before, keys, states, times, after, i)} :: 0 <= i < |keys| ==>
         FloodedAt(before, keys, states, times, after, i)
  }

  ghost predicate FloodedAt<S>(before: seq<Book<S>>, keys: seq<Token>, states: seq<S>, times: seq<int>,
                               after: seq<Book<S>>, i: int)
    requires |before| == |keys| == |states| == |times| == |after| && 0 <= i < |keys|
  {
    && FloodStart(before[i], keys[i], states[i], times[i], after[i])
    && (0 < i ==>
          && times[0] < times[i]
          && Within(before[i], after[i - 1])
          && (keys[0] in after[i - 1] ==> keys[0] in before[i]))
  }

  ghost predicate FloodStart<S>(before: Book<S>, key: Token, state: S, time: int, after: Book<S>) {
    key !in before && Inserted(before, key, Pending(state, time + CEREMONY_TTL), time, MAX_CEREMONIES, after)
  }

  /** The first entry is present, at most `j` entries outlive it and none ties with it. */
  ghost predicate Surviving<S>(m: Book<S>, key: Token, p: Pending<S>, j: nat) {
    && key in m && m[key] == p
    && |Younger(m, p.exp)| <= j
    && forall k :: k in m && k != key ==> m[k].exp != p.exp
  }

  lemma SmallerSet(a: set<Token>, b: set<Token>)
    requires a <= b
    ensures |a| <= |b|
  {
    assert b == a + (b - a);
  }

  lemma SurvivesRemoval<S>(m: Book<S>, less: Book<S>, key: Token, p: Pending<S>, j: nat)
    requires Surviving(m, key, p, j) && Within(less, m) && key in less
    ensures Surviving(less, key, p, j)
  {
    SmallerSet(Younger(less, p.exp), Younger(m, p.exp));
  }

  lemma InsertedFrom<S>(m: Book<S>, key: Token, p: Pending<S>, now: int, cap: nat, r: Book<S>)
    requires Inserted(m, key, p, now, cap, r)
    ensures forall k :: k in r && k != key ==> k in m && r[k] == m[k] && m[k].exp > now
  {
    assert forall k :: k in r && k != key ==> k in r - {key};
  }

  lemma EmptyIfZero(s: set<Token>)
    requires |s| == 0
    ensures s == {}
  {
  }

  lemma NothingEvicted<S>(live: Book<S>, kept: Book<S>)
    requires Within(kept, live) && |kept| == |live|
    ensures kept.Keys == live.Keys
  {
    assert kept.Keys <= live.Keys;
    assert live.Keys == kept.Keys + (live.Keys - kept.Keys);
    assert |live| == |live.Keys| && |kept| == |kept.Keys|;
    EmptyIfZero(live.Keys - kept.Keys);
  }

  lemma NotEvicted<S>(live: Book<S>, kept: Book<S>, room: nat, key: Token, exp: int)
    requires Evicted(live, room, kept) && key in live && live[key].exp == exp
    requires |Younger(live, exp)| < room
    requires forall k :: k in live && k != key ==> live[k].exp != exp
    ensures key in kept
  {
    if key !in kept {
      assert kept.Keys <= Younger(live, exp);
      SmallerSet(kept.Keys, Younger(live, exp));
      assert |kept| == |kept.Keys|;
      NothingEvicted(live, kept);
    }
  }

  /** One more start cannot evict an entry that at most 1022 others outlive. */
  lemma SurvivesStart<S>(m: Book<S>, key: Token, p: Pending<S>, j: nat, other: Token, q: Pending<S>, now: int,
                         r: Book<S>)
    requires Surviving(m, key, p, j) && j <= MAX_CEREMONIES - 2
    requires other !in m && p.exp < q.exp && now < p.exp
    requires Inserted(m, other, q, now, MAX_CEREMONIES, r)
    ensures Surviving(r, key, p, j + 1)
  {
    SmallerSet(Younger(Live(m, now), p.exp), Younger(m, p.exp));
    NotEvicted(Live(m, now), r - {other}, MAX_CEREMONIES - 1, key, p.exp);
    InsertedFrom(m, other, q, now, MAX_CEREMONIES, r);
    YoungerGrows(m, other, q, r, p.exp);
  }

  lemma YoungerGrows<S>(m: Book<S>, other: Token, q: Pending<S>, r: Book<S>, exp: int)
    requires forall k :: k in r && k != other ==> k in m && r[k] == m[k]
    ensures |Younger(r, exp)| <= |Younger(m, exp)| + 1
  {
    assert Younger(r, exp) <= Younger(m, exp) + {other};
    SmallerSet(Younger(r, exp), Younger(m, exp) + {other});
  }

  lemma FloodAt<S>(before: seq<Book<S>>, keys: seq<Token>, states: seq<S>, times: seq<int>, after: seq<Book<S>>, j: nat)
    requires Flood(before, keys, states, times, after) && j < |keys|
    ensures FloodStart(before[j], keys[j], states[j], times[j], after[j])
    ensures 0 < j ==> times[0] < times[j] && Within(before[j], after[j - 1])
    ensures 0 < j && keys[0] in after[j - 1] ==> keys[0] in before[j]
  {
    assert FloodedAt(before, keys, states, times, after, j);
  }

  lemma FirstSurvives<S>(m: Book<S>, key: Token, state: S, time: int, r: Book<S>)
    requires FloodStart(m, key, state, time, r)
    requires forall k :: k in m ==> m[k].exp < time + CEREMONY_TTL
    ensures Surviving(r, key, Pending(state, time + CEREMONY_TTL), 0)
  {
    InsertedFrom(m, key, Pending(state, time + CEREMONY_TTL), time, MAX_CEREMONIES, r);
    NoToken(Younger(r, time + CEREMONY_TTL));
  }

  lemma NextSurvives<S>(prev: Book<S>, m: Book<S>, key: Token, p: Pending<S>, j: nat, other: Token, state: S, time: int,
                        r: Book<S>)
    requires Surviving(prev, key, p, j) && Within(m, prev) && key in m && j <= MAX_CEREMONIES - 2
    requires FloodStart(m, other, state, time, r) && time < p.exp < time + CEREMONY_TTL
    ensures Surviving(r, key, p, j + 1)
  {
    SurvivesRemoval(prev, m, key, p, j);
    SurvivesStart(m, key, p, j, other, Pending(state, time + CEREMONY_TTL), time, r);
  }

  /** A ceremony stays in the map until its time to live runs out through any 1023 later starts. */
  lemma {:induction false} FloodSurvival<S>(before: seq<Book<S>>, keys: seq<Token>, states: seq<S>, times: seq<int>,
                                            after: seq<Book<S>>, j: nat)
    requires Flood(before, keys, states, times, after)
    requires j < |keys| && j <= MAX_CEREMONIES - 1
    requires forall i :: 0 <= i <= j ==> times[i] < times[0] + CEREMONY_TTL
    ensures Surviving(after[j], keys[0], Pending(states[0], times[0] + CEREMONY_TTL), j)
    decreases j
  {
    var p := Pending(states[0], times[0] + CEREMONY_TTL);
    FloodAt(before, keys, states, times, after, j);
    if j == 0 {
      FirstSurvives(before[0], keys[0], states[0], times[0], after[0]);
    } else {
      FloodSurvival(before, keys, states, times, after, j - 1);
      NextSurvives(after[j - 1], before[j], keys[0], p, j - 1, keys[j], states[j], times[j], after[j]);
    }
  }

  // ---- the bound is exact ----

  lemma LiveYounger<S>(m: Book<S>, now: int, exp: int)
    requires now < exp
    ensures Younger(Live(m, now), exp) == Younger(m, exp)
  {
  }

  /** An entry that 1023 others outlive is evicted by one more start. */
  lemma EvictedByStart<S>(m: Book<S>, key: Token, p: Pending<S>, other: Token, q: Pending<S>, now: int, r: Book<S>)
    requires key in m && m[key] == p && now < p.exp && MAX_CEREMONIES - 1 <= |Younger(m, p.exp)|
    requires other != key && Inserted(m, other, q, now, MAX_CEREMONIES, r)
    ensures key !in r
  {
    var live, kept := Live(m, now), r - {other};
    LiveYounger(m, now, p.exp);
    if key in kept {
      forall k | k in Younger(m, p.exp) + {key}
        ensures k in kept.Keys
      {
        assert k in live;
      }
      assert key !in Younger(m, p.exp);
      SmallerSet(Younger(m, p.exp) + {key}, kept.Keys);
    }
  }

  /** Nothing is redeemed or swept between the starts, and no later start draws the first one's id. */
  ghost predicate Undisturbed<S>(before: seq<Book<S>>, keys: seq<Token>, after: seq<Book<S>>)
    requires |before| == |keys| == |after|
  {
    forall i {:trigger CalmAt(before, keys, after, i)} :: 0 < i < |keys| ==> CalmAt(before, keys, after, i)
  }

  ghost predicate CalmAt<S>(before: seq<Book<S>>, keys: seq<Token>, after: seq<Book<S>>, i: int)
    requires |before| == |keys| == |after| && 0 < i < |keys|
  {
    before[i] == after[i - 1] && keys[i] != keys[0]
  }

  /** A start that leaves the entry in place adds exactly one entry that outlives it. */
  lemma YoungerExact<S>(m: Book<S>, key: Token, p: Pending<S>, other: Token, q: Pending<S>, now: int, r: Book<S>)
    requires key in m && m[key] == p && now < p.exp < q.exp && other !in m
    requires Inserted(m, other, q, now, MAX_CEREMONIES, r) && key in r && key != other
    ensures |Younger(r, p.exp)| == |Younger(m, p.exp)| + 1
  {
    var live, kept := Live(m, now), r - {other};
    LiveYounger(m, now, p.exp);
    InsertedFrom(m, other, q, now, MAX_CEREMONIES, r);
    assert key in live && key in kept;
    forall k | k in Younger(m, p.exp)
      ensures k in Younger(r, p.exp)
    {
      assert k in live;
    }
    assert Younger(r, p.exp) == Younger(m, p.exp) + {other};
    assert other !in Younger(m, p.exp);
  }

  lemma {:induction false} FloodCounts<S>(before: seq<Book<S>>, keys: seq<Token>, states: seq<S>, times: seq<int>,
                                          after: seq<Book<S>>, j: nat)
    requires Flood(before, keys, states, times, after) && Undisturbed(before, keys, after)
    requires j < |keys| && j <= MAX_CEREMONIES - 1
    requires forall i :: 0 <= i <= j ==> times[i] < times[0] + CEREMONY_TTL
    ensures Surviving(after[j], keys[0], Pending(states[0], times[0] + CEREMONY_TTL), j)
    ensures |Younger(after[j], times[0] + CEREMONY_TTL)| == j
    decreases j
  {
    FloodSurvival(before, keys, states, times, after, j);
    if j > 0 {
      FloodCounts(before, keys, states, times, after, j - 1);
      var p := Pending(states[0], times[0] + CEREMONY_TTL);
      FloodAt(before, keys, states, times, after, j);
      UndisturbedAt(before, keys, after, j);
      NextCounts(before[j], keys[0], p, j - 1, keys[j], states[j], times[j], after[j]);
    }
  }

  lemma NextCounts<S>(m: Book<S>, key: Token, p: Pending<S>, j: nat, other: Token, state: S, time: int, r: Book<S>)
    requires Surviving(m, key, p, j) && |Younger(m, p.exp)| == j && key in r && key != other
    requires FloodStart(m, other, state, time, r) && time < p.exp < time + CEREMONY_TTL
    ensures |Younger(r, p.exp)| == j + 1
  {
    YoungerExact(m, key, p, other, Pending(state, time + CEREMONY_TTL), time, r);
  }

  lemma NextEvicts<S>(prev: Book<S>, m: Book<S>, key: Token, p: Pending<S>, other: Token, state: S, time: int,
                      r: Book<S>)
    requires m == prev && Surviving(prev, key, p, MAX_CEREMONIES - 1) && |Younger(prev, p.exp)| == MAX_CEREMONIES - 1
    requires FloodStart(m, other, state, time, r) && time < p.exp && key != other
    ensures key !in r
  {
    EvictedByStart(m, key, p, other, Pending(state, time + CEREMONY_TTL), time, r);
  }

  lemma StaysGone<S>(prev: Book<S>, m: Book<S>, key: Token, other: Token, state: S, time: int, r: Book<S>)
    requires m == prev && key !in prev && FloodStart(m, other, state, time, r) && key != other
    ensures key !in r
  {
    InsertedFrom(m, other, Pending(state, time + CEREMONY_TTL), time, MAX_CEREMONIES, r);
  }

  lemma UndisturbedAt<S>(before: seq<Book<S>>, keys: seq<Token>, after: seq<Book<S>>, j: nat)
    requires |before| == |keys| == |after| && Undisturbed(before, keys, after) && 0 < j < |keys|
    ensures before[j] == after[j - 1] && keys[j] != keys[0]
  {
    assert CalmAt(before, keys, after, j);
  }

  lemma FloodFull<S>(before: seq<Book<S>>, keys: seq<Token>, states: seq<S>, times: seq<int>, after: seq<Book<S>>,
                     n: nat)
    requires Flood(before, keys, states, times, after) && Undisturbed(before, keys, after)
    requires n == MAX_CEREMONIES && n < |keys|
    requires forall i :: 0 <= i <= n ==> times[i] < times[0] + CEREMONY_TTL
    ensures keys[0] !in after[n]
  {
    var p := Pending(states[0], times[0] + CEREMONY_TTL);
    FloodAt(before, keys, states, times, after, n);
    UndisturbedAt(before, keys, after, n);
    FloodCounts(before, keys, states, times, after, n - 1);
    NextEvicts(after[n - 1], before[n], keys[0], p, keys[n], states[n], times[n], after[n]);
  }

  lemma {:induction false} FloodGone<S>(before: seq<Book<S>>, keys: seq<Token>, states: seq<S>, times: seq<int>,
                                        after: seq<Book<S>>, j: nat)
    requires Flood(before, keys, states, times, after) && Undisturbed(before, keys, after)
    requires MAX_CEREMONIES <= j < |keys|
    requires forall i :: 0 <= i <= MAX_CEREMONIES ==> times[i] < times[0] + CEREMONY_TTL
    ensures keys[0] !in after[j]
    decreases j
  {
    if j == MAX_CEREMONIES {
      FloodFull(before, keys, states, times, after, j);
      return;
    }
    FloodGone(before, keys, states, times, after, j - 1);
    FloodStaysGone(before, keys, states, times, after, j);
  }

  lemma FloodStaysGone<S>(before: seq<Book<S>>, keys: seq<Token>, states: seq<S>, times: seq<int>,
                          after: seq<Book<S>>, j: nat)
    requires Flood(before, keys, states, times, after) && Undisturbed(before, keys, after)
    requires 0 < j < |keys| && keys[0] !in after[j - 1]
    ensures keys[0] !in after[j]
  {
    FloodAt(before, keys, states, times, after, j);
    UndisturbedAt(before, keys, after, j);
    StaysGone(after[j - 1], before[j], keys[0], keys[j], states[j], times[j], after[j]);
  }

  /** Under a flood in which nothing else leaves the map, a ceremony still inside its time to live is
      there after `j` later starts if and only if `j` is at most 1023. */
  lemma FloodBound<S>(before: seq<Book<S>>, keys: seq<Token>, states: seq<S>, times: seq<int>, after: seq<Book<S>>,
                      j: nat)
    requires Flood(before, keys, states, times, after) && Undisturbed(before, keys, after)
    requires j < |keys| && forall i :: 0 <= i <= j ==> times[i] < times[0] + CEREMONY_TTL
    ensures keys[0] in after[j] <==> j <= 1023
  {
    if j <= MAX_CEREMONIES - 1 {
      FloodSurvival(before, keys, states, times, after, j);
    } else {
      FloodGone(before, keys, states, times, after, j);
    }
  }
}
