/** Exactly when a bootstrap call can still succeed after the account has a saved credential. */
module Claims {
  import opened Buckets
  import opened Ceremonies
  import opened Auth
  import opened Interleaving
  import opened Granularity

  /** A bootstrap call has pushed its credential and not yet saved it. */
  ghost predicate Claimable(s: Shared) {
    exists c :: c in s.calls && Claims(s.calls[c])
  }

  ghost predicate Claims(p: Phase) {
    p.Pushed? && p.mode == Bootstrap
  }

  /** With a credential saved and no such call, no section claims or makes one claimable. */
  lemma NoClaimNext(s: Shared, x: Section, t: Shared)
    requires CountExact(s) && Durable(s) && !Claimable(s) && Act(s, x, t)
    ensures t.claims == s.claims && !Claimable(t)
  {
    if x.Push? && s.calls[x.call].mode == Bootstrap {
      LateBootstrapRefused(s, x.call, x.session, x.cred, t);
    }
    forall c | c in t.calls
      ensures !Claims(t.calls[c])
    {
      assert c in s.calls ==> !Claims(s.calls[c]);
    }
  }

  lemma {:induction false} NoClaimEver(s: Shared, acts: seq<Section>, t: Shared)
    requires CountExact(s) && Durable(s) && !Claimable(s) && Leads(s, acts, t)
    ensures t.claims == s.claims
    decreases |acts|
  {
    if acts != [] {
      var mid :| Act(s, acts[0], mid) && Leads(mid, acts[1..], t);
      SectionKeeps(s, acts[0], mid);
      NoClaimNext(s, acts[0], mid);
      NoClaimEver(mid, acts[1..], t);
    }
  }

  /** Once a credential is saved, some continuation claims the account if and only if a bootstrap
      call has pushed and not yet saved. Ceremonies parked before, or inserted after, play no part. */
  lemma LateClaimIff(s: Shared)
    requires CountExact(s) && Durable(s)
    ensures (exists acts, t :: Leads(s, acts, t) && s.claims < t.claims) <==> Claimable(s)
  {
    if Claimable(s) {
      var c :| c in s.calls && Claims(s.calls[c]);
      var t := s.(calls := s.calls[c := Saved(Bootstrap)], successes := s.successes + 1, claims := s.claims + 1);
      assert Act(s, Persist(c, true), t);
      LeadsOne(s, Persist(c, true), t);
      assert Leads(s, [Persist(c, true)], t) && s.claims < t.claims;
    } else {
      forall acts, t | Leads(s, acts, t)
        ensures t.claims == s.claims
      {
        NoClaimEver(s, acts, t);
      }
    }
  }

  // ---- runs in which every sign-in comes after a saved credential ----

  /** No sign-in issues a session while no credential has been saved. */
  ghost predicate DurableSignIns(states: seq<Shared>, acts: seq<Section>)
    requires |states| == |acts| + 1
  {
    forall i :: 0 <= i < |acts| && acts[i].SignIn? ==> Durable(states[i])
  }

  ghost predicate SavedPhase(p: Phase) {
    p.Saved? || p.Cleared? || p.Sealed?
  }

  /** Nobody has a session before a credential is saved, and a call that is claiming is alone. */
  ghost predicate Quiet(s: Shared) {
    && (s.sessions != {} ==> Durable(s))
    && (forall c :: c in s.calls && SavedPhase(s.calls[c]) ==> 0 < s.successes)
    && (forall c :: c in Claiming(s.calls) ==> !Durable(s) && Undecided(s.calls) == {c})
  }

  lemma QuietPushed(s: Shared, c: CallId, session: Option<Token>, cred: CredId, t: Shared)
    requires CountExact(s) && Quiet(s) && Act(s, Push(c, session, cred), t) && t.calls[c].Pushed?
    ensures Quiet(t)
  {
    UndecidedMore(s.calls, c, t.calls[c]);
    StillClaiming(s.calls, c, t.calls[c], t.calls);
    if s.calls[c].mode == Bootstrap {
      EmptyStoreMeansNobody(s);
    } else {
      assert Durable(s);
      assert Claiming(s.calls) == {};
    }
  }

  lemma QuietPush(s: Shared, c: CallId, session: Option<Token>, cred: CredId, t: Shared)
    requires CountExact(s) && Quiet(s) && Act(s, Push(c, session, cred), t)
    ensures Quiet(t)
  {
    if t.calls[c].Pushed? {
      QuietPushed(s, c, session, cred, t);
    } else {
      QuietMove(s, c, Finished, t);
    }
  }

  lemma StillClaiming(calls: map<CallId, Phase>, c: CallId, p: Phase, after: map<CallId, Phase>)
    requires after == calls[c := p]
    ensures Claiming(after) <= Claiming(calls) + {c}
    ensures c in Claiming(after) <==> (p.Pushed? || p.Failed?) && p.mode == Bootstrap
  {
    forall d | d in Claiming(after)
      ensures d == c || d in Claiming(calls)
    {
      assert d != c ==> after[d] == calls[d];
    }
  }

  lemma QuietPersist(s: Shared, c: CallId, ok: bool, t: Shared)
    requires CountExact(s) && Quiet(s) && Act(s, Persist(c, ok), t)
    ensures Quiet(t)
  {
    assert c in Undecided(s.calls);
    UndecidedLess(s.calls, c, t.calls[c]);
    StillClaiming(s.calls, c, t.calls[c], t.calls);
    assert s.calls[c].mode == Bootstrap <==> c in Claiming(s.calls);
  }

  lemma QuietPop(s: Shared, c: CallId, t: Shared)
    requires CountExact(s) && Quiet(s) && Act(s, Pop(c), t)
    ensures Quiet(t)
  {
    assert c in Undecided(s.calls);
    UndecidedLess(s.calls, c, Finished);
    StillClaiming(s.calls, c, Finished, t.calls);
  }

  /** A section that moves one decided call on. */
  lemma QuietMove(s: Shared, c: CallId, p: Phase, t: Shared)
    requires Quiet(s) && c !in Undecided(s.calls) && !p.Pushed? && !p.Failed?
    requires t.calls == s.calls[c := p] && t.base == s.base && t.successes == s.successes
    requires SavedPhase(p) ==> 0 < s.successes
    requires t.sessions != {} ==> Durable(s)
    ensures Quiet(t)
  {
    UndecidedMore(s.calls, c, p);
    StillClaiming(s.calls, c, p, t.calls);
  }

  lemma QuietKeeps(s: Shared, x: Section, t: Shared)
    requires CountExact(s) && Quiet(s) && Act(s, x, t) && (x.SignIn? ==> Durable(s))
    ensures Quiet(t)
  {
    match x
    case Park(_, _) =>
    case Evict(_) =>
    case Offer(_) =>
    case Withdraw(_) =>
    case Expire(_) =>
    case Take(c, rid) => QuietMove(s, c, Taken(s.reg[rid]), t);
    case Push(c, session, cred) => QuietPush(s, c, session, cred, t);
    case Persist(c, ok) => QuietPersist(s, c, ok, t);
    case Pop(c) => QuietPop(s, c, t);
    case Clear(c) => QuietMove(s, c, Cleared, t);
    case Seal(c) => QuietMove(s, c, Sealed, t);
    case Issue(c, _) => QuietMove(s, c, Finished, t);
    case Verify(c, _, _) => QuietMove(s, c, Verified, t);
    case SignIn(c, _) => QuietMove(s, c, Finished, t);
  }

  lemma {:induction false} AlwaysQuiet(states: seq<Shared>, acts: seq<Section>, i: nat)
    requires Run(states, acts) && DurableSignIns(states, acts) && i <= |acts|
    ensures Quiet(states[i])
    decreases i
  {
    if i == 0 {
      assert Undecided(states[0].calls) == {};
    } else {
      AlwaysQuiet(states, acts, i - 1);
      AlwaysCountExact(states, acts, i - 1);
      assert Acted(states, acts, i - 1);
      QuietKeeps(states[i - 1], acts[i - 1], states[i]);
    }
  }

  /** In such a run, after the first saved credential no bootstrap call ever succeeds. */
  lemma {:induction false} NoLateClaim(states: seq<Shared>, acts: seq<Section>, i: nat, j: nat)
    requires Run(states, acts) && DurableSignIns(states, acts) && i <= j <= |acts| && Durable(states[i])
    ensures states[j].claims == states[i].claims
    decreases j
  {
    if i < j {
      NoLateClaim(states, acts, i, j - 1);
      NeverEmptyAgain(states, acts, i, j - 1);
      AlwaysQuiet(states, acts, j - 1);
      AlwaysCountExact(states, acts, j - 1);
      assert Acted(states, acts, j - 1);
      QuietClaimsNothing(states[j - 1], acts[j - 1], states[j]);
    }
  }

  lemma NoneClaiming(s: Shared)
    requires Quiet(s) && Durable(s)
    ensures !Claimable(s)
  {
    forall c | c in s.calls
      ensures !Claims(s.calls[c])
    {
      assert c !in Claiming(s.calls);
    }
  }

  lemma QuietClaimsNothing(s: Shared, x: Section, t: Shared)
    requires CountExact(s) && Quiet(s) && Durable(s) && Act(s, x, t)
    ensures t.claims == s.claims
  {
    NoneClaiming(s);
    NoClaimNext(s, x, t);
  }

  // ---- a late claim ----

  const FIRST: Token := [1]
  const SECOND: Token := [2]
  const COOKIE: Token := [3]

  /** A process on an empty data directory. */
  function Empty(code: Token): Shared {
    Shared([], map[], map[], {}, Some(code), map[], 0, 0, 0)
  }

  /** The owner's bootstrap call pushes; before it is saved the owner signs in with the pushed key. */
  lemma SignedInEarly(code: Token) returns (acts: seq<Section>, s: Shared)
    ensures Leads(Empty(code), acts, s)
    ensures s.passkeys == [7] && COOKIE in s.sessions && s.base == s.successes == s.claims == 0
    ensures s.calls.Keys == {0, 2} && s.calls[0] == Pushed(Bootstrap, 7) && s.calls[2].Finished?
    ensures s.bootstrap == Some(code)
  {
    var s0 := Empty(code);
    var parked := s0.(reg := s0.reg[FIRST := Bootstrap]);
    LeadsOne(s0, Park(FIRST, Bootstrap), parked);
    var push, pushed := PushedSections(parked, 0, FIRST, Bootstrap, None, 7);
    assert pushed.passkeys == [7];
    LeadsOn(s0, [Park(FIRST, Bootstrap)], parked, push, pushed);
    var login;
    login, s := SignInSections(pushed, 2, FIRST, 7, COOKIE);
    LeadsOn(s0, [Park(FIRST, Bootstrap)] + push, pushed, login, s);
    acts := [Park(FIRST, Bootstrap)] + push + login;
  }

  /** Then another device is enrolled from that session, and saved. */
  lemma SavedFirst(s: Shared) returns (acts: seq<Section>, t: Shared)
    requires s.passkeys == [7] && COOKIE in s.sessions && s.base == s.successes == s.claims == 0
    requires s.calls.Keys == {0, 2} && s.calls[0] == Pushed(Bootstrap, 7)
    ensures Leads(s, acts, t)
    ensures t.base == 0 && t.successes == 1 && t.claims == 0 && 0 in t.calls && t.calls[0] == Pushed(Bootstrap, 7)
  {
    var parked := s.(reg := s.reg[SECOND := AddDevice]);
    LeadsOne(s, Park(SECOND, AddDevice), parked);
    var push, pushed := PushedSections(parked, 1, SECOND, AddDevice, Some(COOKIE), 8);
    LeadsOn(s, [Park(SECOND, AddDevice)], parked, push, pushed);
    t := pushed.(calls := pushed.calls[1 := Saved(AddDevice)], successes := 1);
    LeadsOne(pushed, Persist(1, true), t);
    LeadsOn(s, [Park(SECOND, AddDevice)] + push, pushed, [Persist(1, true)], t);
    acts := [Park(SECOND, AddDevice)] + push + [Persist(1, true)];
  }

  /** A run in which a bootstrap call succeeds after another call already has. */
  lemma LateClaim(code: Token) returns (states: seq<Shared>, acts: seq<Section>, i: nat)
    ensures Run(states, acts) && i < |acts|
    ensures Durable(states[i]) && states[i].claims == 0 && states[|acts|].claims == 1
  {
    var early, s := SignedInEarly(code);
    var late, t := SavedFirst(s);
    LeadsOn(Empty(code), early, s, late, t);
    i := |early + late|;
    states := LeadsIsPath(Empty(code), early + late, t);
    var claimed := t.(calls := t.calls[0 := Saved(Bootstrap)], successes := t.successes + 1, claims := t.claims + 1);
    states := RunThen(states, early + late, Persist(0, true), claimed);
    acts := early + late + [Persist(0, true)];
  }

  lemma RunThen(states: seq<Shared>, acts: seq<Section>, x: Section, t: Shared) returns (more: seq<Shared>)
    requires Run(states, acts) && Act(states[|acts|], x, t)
    ensures more == states + [t] && Run(more, acts + [x])
  {
    more := states + [t];
    forall i | 0 <= i < |acts| + 1
      ensures Acted(more, acts + [x], i)
    {
      if i < |acts| {
        assert Acted(states, acts, i);
      }
    }
  }
}
