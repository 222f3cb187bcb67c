/** The startup code over the lock sections: exactly when it is there although somebody is enrolled. */
module StartupCode {
  import opened Buckets
  import opened Ceremonies
  import opened Auth
  import opened Interleaving
  import opened Granularity
  import opened Claims

  /** A bootstrap call that has saved its credential and not yet sealed the code. */
  ghost predicate Closing(p: Phase) {
    p == Saved(Bootstrap) || p.Cleared?
  }

  ghost predicate SomeClosing(s: Shared) {
    exists c :: c in s.calls && Closing(s.calls[c])
  }

  /** A start hands out a code exactly if it loads no credential. */
  ghost predicate StartsWithCode(s: Shared) {
    s.bootstrap.Some? <==> s.passkeys == []
  }

  ghost predicate CodeTracked(s: Shared) {
    && (s.bootstrap.Some? <==> s.base == 0 && (s.claims == 0 || SomeClosing(s)))
    && (forall c :: c in s.calls && Closing(s.calls[c]) ==> s.claims == 1 && s.base == 0)
    && (forall c, d :: c in s.calls && d in s.calls && Closing(s.calls[c]) && Closing(s.calls[d]) ==> c == d)
    && (Claiming(s.calls) != {} ==> s.base == 0)
  }

  /** Calls that are not closing before or after a section leave the closing ones as they were. */
  lemma OtherClosing(s: Shared, c: CallId, p: Phase, t: Shared)
    requires t.calls == s.calls[c := p]
    ensures forall d :: d != c ==> (d in t.calls && Closing(t.calls[d]) <==> d in s.calls && Closing(s.calls[d]))
  {
  }

  /** A section that moves a call which neither is nor becomes closing or claiming. */
  lemma TrackedMove(s: Shared, c: CallId, p: Phase, t: Shared)
    requires CodeTracked(s) && t.calls == s.calls[c := p]
    requires c in s.calls ==> !Closing(s.calls[c])
    requires !Closing(p) && ((p.Pushed? || p.Failed?) && p.mode == Bootstrap ==> s.base == 0)
    requires t.base == s.base && t.claims == s.claims && t.bootstrap == s.bootstrap
    ensures CodeTracked(t)
  {
    OtherClosing(s, c, p, t);
    StillClaiming(s.calls, c, p, t.calls);
    if SomeClosing(s) {
      var d :| d in s.calls && Closing(s.calls[d]);
      assert d in t.calls && Closing(t.calls[d]);
    }
  }

  lemma TrackedPush(s: Shared, c: CallId, session: Option<Token>, cred: CredId, t: Shared)
    requires CountExact(s) && CodeTracked(s) && Act(s, Push(c, session, cred), t)
    ensures CodeTracked(t)
  {
    if t.calls[c].Pushed? && s.calls[c].mode == Bootstrap {
      EmptyStoreMeansNobody(s);
    }
    TrackedMove(s, c, t.calls[c], t);
  }

  lemma TrackedPersist(s: Shared, c: CallId, ok: bool, t: Shared)
    requires CountExact(s) && CodeTracked(s) && Act(s, Persist(c, ok), t)
    ensures CodeTracked(t)
  {
    assert c in Undecided(s.calls);
    assert s.calls[c].mode == Bootstrap ==> c in Claiming(s.calls);
    if ok && s.calls[c].mode == Bootstrap {
      assert s.claims == 0 && s.base == 0;
      OtherClosing(s, c, Saved(Bootstrap), t);
      StillClaiming(s.calls, c, Saved(Bootstrap), t.calls);
      assert Closing(t.calls[c]);
    } else {
      TrackedMove(s, c, t.calls[c], t);
    }
  }

  lemma TrackedClear(s: Shared, c: CallId, t: Shared)
    requires CodeTracked(s) && Act(s, Clear(c), t)
    ensures CodeTracked(t)
  {
    OtherClosing(s, c, Cleared, t);
    StillClaiming(s.calls, c, Cleared, t.calls);
    assert Closing(s.calls[c]) && Closing(t.calls[c]);
  }

  lemma TrackedSeal(s: Shared, c: CallId, t: Shared)
    requires CodeTracked(s) && Act(s, Seal(c), t)
    ensures CodeTracked(t)
  {
    OtherClosing(s, c, Sealed, t);
    StillClaiming(s.calls, c, Sealed, t.calls);
    assert Closing(s.calls[c]);
  }

  lemma TrackedKeeps(s: Shared, x: Section, t: Shared)
    requires CountExact(s) && CodeTracked(s) && Act(s, x, t)
    ensures CodeTracked(t)
  {
    match x
    case Park(_, _) =>
    case Evict(_) =>
    case Offer(_) =>
    case Withdraw(_) =>
    case Expire(_) =>
    case Take(c, rid) => TrackedMove(s, c, Taken(s.reg[rid]), t);
    case Push(c, session, cred) => TrackedPush(s, c, session, cred, t);
    case Persist(c, ok) => TrackedPersist(s, c, ok, t);
    case Pop(c) => TrackedMove(s, c, Finished, t);
    case Clear(c) => TrackedClear(s, c, t);
    case Seal(c) => TrackedSeal(s, c, t);
    case Issue(c, _) => TrackedIssue(s, c, t);
    case Verify(c, _, _) => TrackedMove(s, c, Verified, t);
    case SignIn(c, _) => TrackedMove(s, c, Finished, t);
  }

  lemma TrackedIssue(s: Shared, c: CallId, t: Shared)
    requires CodeTracked(s) && c in s.calls && (s.calls[c] == Saved(AddDevice) || s.calls[c].Sealed?)
    requires t.calls == s.calls[c := Finished] && t.base == s.base && t.claims == s.claims && t.bootstrap == s.bootstrap
    ensures CodeTracked(t)
  {
    TrackedMove(s, c, Finished, t);
  }

  lemma {:induction false} AlwaysTracked(states: seq<Shared>, acts: seq<Section>, i: nat)
    requires Run(states, acts) && StartsWithCode(states[0]) && i <= |acts|
    ensures CodeTracked(states[i])
    decreases i
  {
    if i > 0 {
      AlwaysTracked(states, acts, i - 1);
      AlwaysCountExact(states, acts, i - 1);
      assert Acted(states, acts, i - 1);
      TrackedKeeps(states[i - 1], acts[i - 1], states[i]);
    }
  }

  /** The exact condition over every interleaving. Somebody is enrolled although the code is there if
      and only if the process started without credentials, has one now, and either no bootstrap call has
      succeeded or the one that has is still closing. Nobody enrolled always means the code is there. */
  lemma CodeWhileEnrolled(states: seq<Shared>, acts: seq<Section>, i: nat)
    requires Run(states, acts) && StartsWithCode(states[0]) && i <= |acts|
    ensures
      var s := states[i];
      && (s.passkeys == [] ==> s.bootstrap.Some?)
      && (s.bootstrap.Some? && s.passkeys != []
          <==> s.base == 0 && s.passkeys != [] && (s.claims == 0 || SomeClosing(s)))
  {
    AlwaysTracked(states, acts, i);
    AlwaysCountExact(states, acts, i);
  }

  /** No call has pushed without deciding or saved without closing. */
  ghost predicate Settled(s: Shared) {
    Undecided(s.calls) == {} && !SomeClosing(s)
  }

  /** Between calls the code is there exactly while nobody is enrolled, unless devices have been saved
      and no bootstrap call ever was. */
  lemma CodeIffNobodyEnrolled(states: seq<Shared>, acts: seq<Section>, i: nat)
    requires Run(states, acts) && StartsWithCode(states[0]) && i <= |acts| && Settled(states[i])
    ensures
      var s := states[i];
      (s.bootstrap.Some? <==> s.passkeys == []) <==> !(s.base == 0 && 0 < s.successes && s.claims == 0)
  {
    AlwaysTracked(states, acts, i);
    AlwaysCountExact(states, acts, i);
    NoneUndecided(states[i]);
  }

  lemma NoneUndecided(s: Shared)
    requires CountExact(s) && Undecided(s.calls) == {}
    ensures |s.passkeys| == s.base + s.successes
  {
  }

  // ---- runs in which every sign-in comes after a saved credential ----

  /** The first credential saved was the bootstrap's, and only a saved credential lets a device be
      added. */
  ghost predicate ClaimFirst(s: Shared) {
    && (s.base == 0 && 0 < s.successes ==> s.claims == 1)
    && forall c :: c in Undecided(s.calls) && s.calls[c].mode == AddDevice ==> Durable(s)
  }

  lemma ClaimFirstKeeps(s: Shared, x: Section, t: Shared)
    requires CountExact(s) && Quiet(s) && ClaimFirst(s) && Act(s, x, t)
    ensures ClaimFirst(t)
  {
    SectionKeeps(s, x, t);
    if x.Persist? {
      assert x.call in Undecided(s.calls);
    }
    forall c | c in Undecided(t.calls) && t.calls[c].mode == AddDevice
      ensures Durable(t)
    {
      if c in Undecided(s.calls) && s.calls[c].mode == AddDevice {
        assert Durable(s);
      } else {
        assert x.Push? && x.call == c;
      }
    }
  }

  lemma {:induction false} AlwaysClaimFirst(states: seq<Shared>, acts: seq<Section>, i: nat)
    requires Run(states, acts) && DurableSignIns(states, acts) && i <= |acts|
    ensures ClaimFirst(states[i])
    decreases i
  {
    if i == 0 {
      assert Undecided(states[0].calls) == {};
    } else {
      AlwaysClaimFirst(states, acts, i - 1);
      AlwaysQuiet(states, acts, i - 1);
      AlwaysCountExact(states, acts, i - 1);
      assert Acted(states, acts, i - 1);
      ClaimFirstKeeps(states[i - 1], acts[i - 1], states[i]);
    }
  }

  /** In such a run the code is there, between calls, exactly while nobody is enrolled. */
  lemma QuietCode(states: seq<Shared>, acts: seq<Section>, i: nat)
    requires Run(states, acts) && StartsWithCode(states[0]) && DurableSignIns(states, acts)
    requires i <= |acts| && Settled(states[i])
    ensures states[i].bootstrap.Some? <==> states[i].passkeys == []
  {
    AlwaysClaimFirst(states, acts, i);
    CodeIffNobodyEnrolled(states, acts, i);
  }

  // ---- a code that outlives an enrolment ----

  const NEXT: Token := [4]

  /** After the early sign-in the bootstrap's save fails and is taken back; the session is left. */
  lemma FailedClaim(s: Shared) returns (acts: seq<Section>, t: Shared)
    requires s.passkeys == [7] && 0 in s.calls && s.calls[0] == Pushed(Bootstrap, 7)
    ensures Leads(s, acts, t) && t == s.(passkeys := [], calls := t.calls)
    ensures t.calls.Keys == s.calls.Keys && t.calls[0].Finished?
    ensures forall c :: c in s.calls && c != 0 ==> t.calls[c] == s.calls[c]
  {
    var failed := s.(calls := s.calls[0 := Failed(Bootstrap, 7)]);
    t := failed.(passkeys := [], calls := failed.calls[0 := Finished]);
    LeadsOne(s, Persist(0, false), failed);
    assert [7][..0] == [];
    LeadsThen(s, [Persist(0, false)], failed, Pop(0), t);
    acts := [Persist(0, false)] + [Pop(0)];
  }

  /** Then a device is added from that session. */
  lemma DeviceFirst(s: Shared) returns (acts: seq<Section>, t: Shared)
    requires s.passkeys == [] && COOKIE in s.sessions && 1 !in s.calls && s.base == s.successes == s.claims == 0
    requires forall c :: c in s.calls ==> s.calls[c].Finished?
    ensures Leads(s, acts, t)
    ensures t.passkeys == [8] && t.bootstrap == s.bootstrap && t.base == t.claims == 0 && t.successes == 1
    ensures forall c :: c in t.calls ==> t.calls[c].Finished?
  {
    var parked := s.(reg := s.reg[SECOND := AddDevice]);
    LeadsOne(s, Park(SECOND, AddDevice), parked);
    var more;
    more, t := SavedSections(parked, 1, SECOND, AddDevice, Some(COOKIE), 8, NEXT);
    LeadsOn(s, [Park(SECOND, AddDevice)], parked, more, t);
    acts := [Park(SECOND, AddDevice)] + more;
  }

  /** A run that ends between calls with a saved credential and the startup code still there: the
      credential goes back to a sign-in with a key whose own enrolment failed. The code is of no more
      use, as every bootstrap push is refused from then on. */
  lemma CodeOutlivesEnrolment(code: Token) returns (states: seq<Shared>, acts: seq<Section>)
    ensures Run(states, acts) && StartsWithCode(states[0])
    ensures
      var s := states[|acts|];
      s.passkeys == [8] && s.bootstrap == Some(code) && s.successes == 1 && s.claims == 0 && Settled(s)
  {
    var early, s := SignedInEarly(code);
    var fail, t := FailedClaim(s);
    var add, u := DeviceFirst(t);
    LeadsOn(Empty(code), early, s, fail, t);
    LeadsOn(Empty(code), early + fail, t, add, u);
    acts := early + fail + add;
    states := LeadsIsPath(Empty(code), acts, u);
    AllFinished(u);
  }

  lemma AllFinished(s: Shared)
    requires forall c :: c in s.calls ==> s.calls[c].Finished?
    ensures Settled(s)
  {
    assert forall c :: c !in Undecided(s.calls);
  }
}
