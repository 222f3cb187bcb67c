/** A concrete flood of one start per nanosecond that fills the map and then evicts its first entry. */
module FullFlood {
  import opened Ceremonies

  /** An id for each number. */
  function Unary(n: nat): Token {
    seq(n, _ => 1)
  }

  /** The map after the first `n` starts, with none evicted. */
  function Filled(n: nat): Book<()>
    decreases n
  {
    if n == 0 then map[] else Filled(n - 1)[Unary(n - 1) := Pending((), n - 1 + CEREMONY_TTL)]
  }

  lemma UnaryDistinct(i: nat, j: nat)
    ensures Unary(i) == Unary(j) <==> i == j
  {
    assert |Unary(i)| == i && |Unary(j)| == j;
  }

  ghost predicate IsStart(k: Token, p: Pending<()>, n: nat) {
    |k| < n && k == Unary(|k|) && p == Pending((), |k| + CEREMONY_TTL)
  }

  lemma {:induction false} FilledIs(n: nat)
    ensures forall k :: k in Filled(n) ==> IsStart(k, Filled(n)[k], n)
    ensures |Filled(n)| == n && Unary(n) !in Filled(n) && (0 < n ==> Unary(0) in Filled(n))
    decreases n
  {
    UnaryDistinct(n, n);
    if n > 0 {
      FilledIs(n - 1);
      UnaryDistinct(n - 1, n - 1);
    }
  }

  /** Up to 1024 entries a start evicts nothing. */
  lemma Fits(i: nat)
    requires i < MAX_CEREMONIES
    ensures FloodStart(Filled(i), Unary(i), (), i, Filled(i + 1))
  {
    FilledIs(i);
    assert Live(Filled(i), i) == Filled(i);
    assert Filled(i + 1) - {Unary(i)} == Filled(i);
  }

  /** Taking the first entry out of a full map leaves room for one, and is the right eviction. */
  lemma FirstGoes(n: nat, kept: Book<()>)
    requires 0 < n && kept == Filled(n) - {Unary(0)}
    ensures Evicted(Filled(n), n - 1, kept)
  {
    FilledIs(n);
    assert Filled(n) == kept[Unary(0) := Filled(n)[Unary(0)]];
    forall e, k | e in Filled(n) && e !in kept && k in kept
      ensures Filled(n)[e].exp <= kept[k].exp
    {
      assert e == Unary(0) && IsStart(k, Filled(n)[k], n) && IsStart(e, Filled(n)[e], n);
    }
  }

  lemma NothingExpired(n: nat, now: int)
    requires now < CEREMONY_TTL
    ensures Live(Filled(n), now) == Filled(n)
  {
    FilledIs(n);
    forall k | k in Filled(n)
      ensures Filled(n)[k].exp > now
    {
      assert IsStart(k, Filled(n)[k], n);
    }
  }

  lemma WithoutTwo(n: nat)
    requires 0 < n
    ensures Filled(n + 1) - {Unary(0)} - {Unary(n)} == Filled(n) - {Unary(0)}
    ensures Unary(n) in Filled(n + 1) - {Unary(0)}
    ensures (Filled(n + 1) - {Unary(0)})[Unary(n)] == Pending((), n + CEREMONY_TTL)
  {
    FilledIs(n);
    UnaryDistinct(0, n);
  }

  /** With the map full, the next start evicts the first entry. */
  lemma Overflows(n: nat)
    requires n == MAX_CEREMONIES
    ensures FloodStart(Filled(n), Unary(n), (), n, Filled(n + 1) - {Unary(0)})
  {
    FilledIs(n);
    NothingExpired(n, n);
    WithoutTwo(n);
    FirstGoes(n, Filled(n) - {Unary(0)});
  }

  function After(i: nat): Book<()> {
    if i < MAX_CEREMONIES then Filled(i + 1) else Filled(i + 1) - {Unary(0)}
  }

  lemma Starts(i: nat)
    requires i <= MAX_CEREMONIES
    ensures FloodStart(Filled(i), Unary(i), (), i, After(i))
  {
    if i < MAX_CEREMONIES {
      Fits(i);
    } else {
      Overflows(i);
    }
  }

  lemma StartAt(m: Book<()>, key: Token, state: (), time: int, r: Book<()>, i: nat)
    requires i <= MAX_CEREMONIES && m == Filled(i) && key == Unary(i) && state == () && time == i && r == After(i)
    ensures FloodStart(m, key, state, time, r)
  {
    Starts(i);
  }

  lemma Follows(m: Book<()>, prev: Book<()>, first: Token, key: Token, i: nat)
    requires 0 < i <= MAX_CEREMONIES && m == Filled(i) && prev == After(i - 1) && first == Unary(0) && key == Unary(i)
    ensures m == prev && Within(m, prev) && key != first
  {
    UnaryDistinct(i, 0);
  }

  /** `n` starts, one per nanosecond. */
  ghost predicate OnePerNano(before: seq<Book<()>>, keys: seq<Token>, states: seq<()>, times: seq<int>,
                             after: seq<Book<()>>, n: nat) {
    && |before| == |keys| == |states| == |times| == |after| == n
    && forall i: nat :: i < n ==> IsAt(before, keys, states, times, after, i)
  }

  ghost predicate IsAt(before: seq<Book<()>>, keys: seq<Token>, states: seq<()>, times: seq<int>, after: seq<Book<()>>,
                       i: nat)
    requires i < |before| && i < |keys| && i < |states| && i < |times| && i < |after|
  {
    before[i] == Filled(i) && keys[i] == Unary(i) && states[i] == () && times[i] == i && after[i] == After(i)
  }

  lemma IsFlood(before: seq<Book<()>>, keys: seq<Token>, states: seq<()>, times: seq<int>, after: seq<Book<()>>, n: nat)
    requires OnePerNano(before, keys, states, times, after, n) && 0 < n <= MAX_CEREMONIES + 1
    ensures Flood(before, keys, states, times, after) && Undisturbed(before, keys, after)
    ensures forall i :: 0 <= i < n ==> times[i] < times[0] + CEREMONY_TTL
  {
    assert IsAt(before, keys, states, times, after, 0);
    forall i | 0 <= i < n
      ensures FloodedAt(before, keys, states, times, after, i)
    {
      assert IsAt(before, keys, states, times, after, i);
      StartAt(before[i], keys[i], states[i], times[i], after[i], i);
      if 0 < i {
        assert IsAt(before, keys, states, times, after, i - 1);
        Follows(before[i], after[i - 1], keys[0], keys[i], i);
      }
    }
    forall i | 0 < i < n
      ensures CalmAt(before, keys, after, i)
    {
      assert IsAt(before, keys, states, times, after, i) && IsAt(before, keys, states, times, after, i - 1);
      Follows(before[i], after[i - 1], keys[0], keys[i], i);
    }
    forall i | 0 <= i < n
      ensures times[i] < times[0] + CEREMONY_TTL
    {
      assert IsAt(before, keys, states, times, after, i);
    }
  }

  /** The bound is met and exact: 1025 starts inside one time to live, of which the 1023 after the first
      leave it in the map and the next one evicts it. */
  lemma FillsTheMap()
    returns (before: seq<Book<()>>, keys: seq<Token>, states: seq<()>, times: seq<int>, after: seq<Book<()>>)
    ensures Flood(before, keys, states, times, after) && Undisturbed(before, keys, after)
    ensures |keys| == MAX_CEREMONIES + 1
    ensures forall i :: 0 <= i < |times| ==> times[i] < times[0] + CEREMONY_TTL
    ensures keys[0] in after[MAX_CEREMONIES - 1] && keys[0] !in after[MAX_CEREMONIES]
  {
    var n: nat := MAX_CEREMONIES + 1;
    before, after := seq(n, i requires 0 <= i => Filled(i)), seq(n, i requires 0 <= i => After(i));
    keys, states, times := seq(n, i requires 0 <= i => Unary(i)), seq(n, _ => ()), seq(n, i => i);
    IsFlood(before, keys, states, times, after, n);
    FloodBound(before, keys, states, times, after, n - 2);
    FloodBound(before, keys, states, times, after, n - 1);
  }
}
