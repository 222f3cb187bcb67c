/** Every whole handler is one of the interleavings of its lock sections. */
module Granularity {
  import opened Buckets
  import opened Ceremonies
  import opened Auth
  import opened AuthRuns
  import opened Interleaving

  /** `shown` has every entry of the table that has not expired. */
  ghost predicate Holds<S>(shown: map<Token, S>, m: Book<S>, now: int) {
    forall k :: k in m && m[k].exp > now ==> k in shown && shown[k] == m[k].state
  }

  /** The section state `s` covers the process `a` at `now`: the same credentials and code, and at
      least the ceremonies and sessions that have not expired. */
  ghost predicate Covers(s: Shared, a: State, now: int) {
    && s.passkeys == CredList(a.store.passkeys) && s.bootstrap == a.bootstrap
    && Holds(s.reg, a.reg, now) && Holds(s.logins, a.auth, now)
    && (forall t :: t in a.sessions && a.sessions[t].exp > now ==> t in s.sessions)
  }

  /** The first section of a redemption that names a current ceremony. */
  function TakenBy(s: Shared, call: CallId, rid: Token, mode: RegMode): Shared {
    s.(reg := s.reg - {rid}, calls := s.calls[call := Taken(mode)])
  }

  /** A call that was refused, or that saved its credential, or that took it back, has ended. */
  ghost predicate Ended(s: Shared, call: CallId) {
    call in s.calls ==> s.calls[call].Finished?
  }

  /** Refused while the store was locked: the session had gone, or somebody enrolled first, or the
      credential is known. */
  lemma RefusedSections(s: Shared, call: CallId, rid: Token, mode: RegMode, session: Option<Token>, cred: CredId,
                        gone: bool)
    returns (acts: seq<Section>, t: Shared)
    requires call !in s.calls && rid in s.reg && s.reg[rid] == mode
    requires gone ==> session.Some? && mode == AddDevice
    requires gone || session.None? || mode == Bootstrap || cred in s.passkeys
    requires !gone && mode == Bootstrap ==> s.passkeys != []
    ensures Leads(s, acts, t) && Ended(t, call)
    ensures t.passkeys == s.passkeys && t.bootstrap == s.bootstrap && t.successes == s.successes
    ensures t.logins == s.logins
    ensures t.reg == s.reg - {rid} && t.sessions == if gone then s.sessions - {session.value} else s.sessions
  {
    var taken := TakenBy(s, call, rid, mode);
    var before := if gone then taken.(sessions := taken.sessions - {session.value}) else taken;
    t := before.(calls := before.calls[call := Finished]);
    assert Leads(s, [], s);
    LeadsThen(s, [], s, Take(call, rid), taken);
    acts := [] + [Take(call, rid)];
    if gone {
      LeadsThen(s, acts, taken, Expire(session.value), before);
      acts := acts + [Expire(session.value)];
    }
    LeadsThen(s, acts, before, Push(call, session, cred), t);
    acts := acts + [Push(call, session, cred)];
  }

  lemma PushedSections(s: Shared, call: CallId, rid: Token, mode: RegMode, session: Option<Token>, cred: CredId)
    returns (acts: seq<Section>, t: Shared)
    requires call !in s.calls && rid in s.reg && s.reg[rid] == mode
    requires Allowed(s, mode, session) && cred !in s.passkeys
    ensures Leads(s, acts, t)
    ensures t == s.(reg := s.reg - {rid}, passkeys := s.passkeys + [cred], calls := s.calls[call := Pushed(mode, cred)])
  {
    var taken := TakenBy(s, call, rid, mode);
    t := taken.(passkeys := s.passkeys + [cred], calls := taken.calls[call := Pushed(mode, cred)]);
    assert t.calls == s.calls[call := Pushed(mode, cred)];
    assert Leads(s, [], s);
    LeadsThen(s, [], s, Take(call, rid), taken);
    LeadsThen(s, [] + [Take(call, rid)], taken, Push(call, session, cred), t);
    acts := [] + [Take(call, rid)] + [Push(call, session, cred)];
  }

  lemma UnsavedSections(s: Shared, call: CallId, rid: Token, mode: RegMode, session: Option<Token>, cred: CredId)
    returns (acts: seq<Section>, t: Shared)
    requires call !in s.calls && rid in s.reg && s.reg[rid] == mode
    requires Allowed(s, mode, session) && cred !in s.passkeys
    ensures Leads(s, acts, t) && Ended(t, call)
    ensures t.passkeys == s.passkeys && t.bootstrap == s.bootstrap && t.successes == s.successes
    ensures t.logins == s.logins
    ensures t.reg == s.reg - {rid} && t.sessions == s.sessions
  {
    var pushed;
    acts, pushed := PushedSections(s, call, rid, mode, session, cred);
    var failed := pushed.(calls := pushed.calls[call := Failed(mode, cred)]);
    t := failed.(passkeys := s.passkeys, calls := failed.calls[call := Finished]);
    assert failed.passkeys[..|failed.passkeys| - 1] == s.passkeys;
    LeadsThen(s, acts, pushed, Persist(call, false), failed);
    LeadsThen(s, acts + [Persist(call, false)], failed, Pop(call), t);
    acts := acts + [Persist(call, false)] + [Pop(call)];
  }

  /** After a save: a bootstrap clears the parked ceremonies and seals the code; then it signs in. */
  lemma ClosingSections(s: Shared, call: CallId, mode: RegMode, token: Token) returns (acts: seq<Section>, t: Shared)
    requires call in s.calls && s.calls[call] == Saved(mode)
    ensures Leads(s, acts, t)
    ensures t == s.(bootstrap := if mode == Bootstrap then None else s.bootstrap,
                    reg := if mode == Bootstrap then map[] else s.reg,
                    sessions := s.sessions + {token}, calls := t.calls)
    ensures Ended(t, call) && t.calls.Keys == s.calls.Keys
    ensures forall c :: c in s.calls && c != call ==> t.calls[c] == s.calls[c]
  {
    var sealed := s;
    acts := [];
    assert Leads(s, [], s);
    if mode == Bootstrap {
      var cleared := s.(reg := map[], calls := s.calls[call := Cleared]);
      sealed := cleared.(bootstrap := None, calls := cleared.calls[call := Sealed]);
      LeadsOne(s, Clear(call), cleared);
      LeadsThen(s, [Clear(call)], cleared, Seal(call), sealed);
      acts := [Clear(call)] + [Seal(call)];
    }
    t := sealed.(sessions := s.sessions + {token}, calls := sealed.calls[call := Finished]);
    LeadsThen(s, acts, sealed, Issue(call, token), t);
    acts := acts + [Issue(call, token)];
  }

  lemma SavedSections(s: Shared, call: CallId, rid: Token, mode: RegMode, session: Option<Token>, cred: CredId,
                      token: Token)
    returns (acts: seq<Section>, t: Shared)
    requires call !in s.calls && rid in s.reg && s.reg[rid] == mode
    requires Allowed(s, mode, session) && cred !in s.passkeys
    ensures Leads(s, acts, t) && Ended(t, call)
    ensures t.passkeys == s.passkeys + [cred] && t.successes == s.successes + 1
    ensures t.calls.Keys == s.calls.Keys + {call} && forall c :: c in s.calls ==> t.calls[c] == s.calls[c]
    ensures t.base == s.base && t.claims == s.claims + if mode == Bootstrap then 1 else 0
    ensures t.bootstrap == if mode == Bootstrap then None else s.bootstrap
    ensures t.logins == s.logins
    ensures t.reg == (if mode == Bootstrap then map[] else s.reg - {rid}) && t.sessions == s.sessions + {token}
  {
    var push, pushed := PushedSections(s, call, rid, mode, session, cred);
    var saved := pushed.(calls := pushed.calls[call := Saved(mode)], successes := pushed.successes + 1,
                         claims := pushed.claims + if mode == Bootstrap then 1 else 0);
    LeadsThen(s, push, pushed, Persist(call, true), saved);
    var close;
    close, t := ClosingSections(saved, call, mode, token);
    LeadsOn(s, push + [Persist(call, true)], saved, close, t);
    acts := push + [Persist(call, true)] + close;
  }

  /** A login that is verified and signs in. */
  lemma SignInSections(s: Shared, call: CallId, aid: Token, cred: CredId, token: Token)
    returns (acts: seq<Section>, t: Shared)
    requires call !in s.calls && cred in s.passkeys
    ensures Leads(s, acts, t) && Ended(t, call)
    ensures t == s.(logins := s.logins[aid := SetOf(s.passkeys)] - {aid}, sessions := s.sessions + {token},
            calls := t.calls)
    ensures t.calls.Keys == s.calls.Keys + {call} && forall c :: c in s.calls ==> t.calls[c] == s.calls[c]
  {
    var offered := s.(logins := s.logins[aid := SetOf(s.passkeys)]);
    LeadsOne(s, Offer(aid), offered);
    var more;
    more, t := VerifiedSections(offered, call, aid, cred, token);
    LeadsOn(s, [Offer(aid)], offered, more, t);
    acts := [Offer(aid)] + more;
  }

  lemma VerifiedSections(s: Shared, call: CallId, aid: Token, cred: CredId, token: Token)
    returns (acts: seq<Section>, t: Shared)
    requires call !in s.calls && aid in s.logins && cred in s.logins[aid]
    ensures Leads(s, acts, t) && Ended(t, call)
    ensures t == s.(logins := s.logins - {aid}, sessions := s.sessions + {token}, calls := t.calls)
    ensures t.calls.Keys == s.calls.Keys + {call} && forall c :: c in s.calls ==> t.calls[c] == s.calls[c]
  {
    var verified := s.(logins := s.logins - {aid}, calls := s.calls[call := Verified]);
    t := verified.(sessions := s.sessions + {token}, calls := verified.calls[call := Finished]);
    LeadsOne(s, Verify(call, aid, cred), verified);
    LeadsOne(verified, SignIn(call, token), t);
    LeadsOn(s, [Verify(call, aid, cred)], verified, [SignIn(call, token)], t);
    acts := [Verify(call, aid, cred)] + [SignIn(call, token)];
  }

  lemma KnownCred(c: Credentials, cred: CredId)
    ensures cred in CredList(c.passkeys) <==> cred in CredIds(c)
  {
    CredIdsAre(c);
  }

  /** Whatever one redemption does to the process, its sections do to the section state, with the
      same outcome. */
  lemma FinishIsSections(a: State, now: int, rid: Option<Token>, session: Option<Token>, verdict: Option<Passkey>,
                         fault: Option<nat>, token: Token, b: State, reply: FinishReply, s: Shared, call: CallId)
    returns (acts: seq<Section>, t: Shared)
    requires RegisterFinish(a, now, rid, session, verdict, fault, token, b, reply)
    requires Covers(s, a, now) && call !in s.calls
    ensures Leads(s, acts, t) && Covers(t, b, now) && Ended(t, call)
    ensures t.successes == s.successes + if reply.Granted? then 1 else 0
  {
    if rid.None? || Redeemed(a.reg, rid, now).None? || verdict.None? {
      acts, t := [], s;
      EarlyCovers(s, a, now, rid, session, verdict, fault, token, b, reply);
    } else {
      var mode, cred := Redeemed(a.reg, rid, now).value, verdict.value.cred;
      KnownCred(a.store, cred);
      var refusal := FinishRefusal(a, now, rid, session, verdict);
      if refusal.Some? {
        var gone := refusal.value == Forbidden && mode == AddDevice && session.Some?;
        acts, t := RefusedSections(s, call, rid.value, mode, session, cred, gone);
        RefusedCovers(s, a, now, rid, session, verdict, fault, token, b, reply, t);
      } else {
        acts, t := AdmittedSections(a, now, rid, session, verdict, fault, token, b, reply, s, call);
      }
    }
  }

  lemma AdmittedSections(a: State, now: int, rid: Option<Token>, session: Option<Token>, verdict: Option<Passkey>,
                         fault: Option<nat>, token: Token, b: State, reply: FinishReply, s: Shared, call: CallId)
    returns (acts: seq<Section>, t: Shared)
    requires RegisterFinish(a, now, rid, session, verdict, fault, token, b, reply)
    requires FinishRefusal(a, now, rid, session, verdict).None?
    requires Covers(s, a, now) && call !in s.calls
    ensures Leads(s, acts, t) && Covers(t, b, now) && Ended(t, call)
    ensures t.successes == s.successes + if reply.Granted? then 1 else 0
  {
    var mode, cred := Redeemed(a.reg, rid, now).value, verdict.value.cred;
    KnownCred(a.store, cred);
    assert Allowed(s, mode, session);
    if Reached(fault) < PERSIST_STEPS {
      acts, t := UnsavedSections(s, call, rid.value, mode, session, cred);
      UnsavedCovers(s, a, now, rid, b, t);
    } else {
      acts, t := SavedSections(s, call, rid.value, mode, session, cred, token);
      SavedCovers(s, a, now, rid, mode, verdict.value, token, b, t);
    }
  }

  lemma UnsavedCovers(s: Shared, a: State, now: int, rid: Option<Token>, b: State, t: Shared)
    requires Covers(s, a, now) && rid.Some? && b == a.(reg := Without(a.reg, rid), files := b.files)
    requires t.passkeys == s.passkeys && t.bootstrap == s.bootstrap && t.logins == s.logins
    requires t.reg == s.reg - {rid.value} && t.sessions == s.sessions
    ensures Covers(t, b, now)
  {
  }

  lemma SavedCovers(s: Shared, a: State, now: int, rid: Option<Token>, mode: RegMode, passkey: Passkey, token: Token,
                    b: State, t: Shared)
    requires EnrolledState(a, now, rid, mode, passkey, token, b) && Covers(s, a, now) && rid.Some?
    requires t.passkeys == s.passkeys + [passkey.cred] && t.sessions == s.sessions + {token}
    requires t.bootstrap == if mode == Bootstrap then None else s.bootstrap
    requires t.logins == s.logins
    requires t.reg == if mode == Bootstrap then map[] else s.reg - {rid.value}
    ensures Covers(t, b, now)
  {
    PushList(a.store, passkey);
    InsertedFrom(a.sessions, token, Pending((), now + SESSION_TTL), now, MAX_SESSIONS, b.sessions);
  }

  lemma EarlyCovers(s: Shared, a: State, now: int, rid: Option<Token>, session: Option<Token>, verdict: Option<Passkey>,
                    fault: Option<nat>, token: Token, b: State, reply: FinishReply)
    requires RegisterFinish(a, now, rid, session, verdict, fault, token, b, reply) && Covers(s, a, now)
    requires rid.None? || Redeemed(a.reg, rid, now).None? || verdict.None?
    ensures Covers(s, b, now) && !reply.Granted?
  {
  }

  lemma RefusedCovers(s: Shared, a: State, now: int, rid: Option<Token>, session: Option<Token>,
                      verdict: Option<Passkey>,
                      fault: Option<nat>, token: Token, b: State, reply: FinishReply, t: Shared)
    requires RegisterFinish(a, now, rid, session, verdict, fault, token, b, reply) && Covers(s, a, now)
    requires rid.Some? && Redeemed(a.reg, rid, now).Some? && verdict.Some?
    requires FinishRefusal(a, now, rid, session, verdict).Some?
    requires t.passkeys == s.passkeys && t.bootstrap == s.bootstrap && t.reg == s.reg - {rid.value}
    requires t.logins == s.logins
    requires
      var gone := reply == Forbidden && Redeemed(a.reg, rid, now) == Some(AddDevice) && session.Some?;
      t.sessions == if gone then s.sessions - {session.value} else s.sessions
    ensures Covers(t, b, now) && !reply.Granted?
  {
  }

  // ---- the other handlers ----

  lemma HoldsInserted<S>(shown: map<Token, S>, m: Book<S>, key: Token, p: Pending<S>, at: int, cap: nat, r: Book<S>,
                         now: int)
    requires Holds(shown, m, now) && Inserted(m, key, p, at, cap, r)
    ensures Holds(shown[key := p.state], r, now)
  {
    InsertedFrom(m, key, p, at, cap, r);
  }

  lemma StartIsSections(a: State, now: int, session: Option<Token>, code: Token, user: UserId, rid: Token,
                        library: bool,
                        b: State, reply: StartReply, s: Shared)
    returns (acts: seq<Section>, t: Shared)
    requires RegisterStart(a, now, session, code, user, rid, library, b, reply) && Covers(s, a, now)
    ensures Leads(s, acts, t) && Covers(t, b, now) && t.successes == s.successes && t.calls == s.calls
  {
    acts, t := [], s;
    if StartRefusal(a, now, session, code, library).None? {
      t := s.(reg := s.reg[rid := StartMode(a)]);
      acts := [Park(rid, StartMode(a))];
      LeadsOne(s, Park(rid, StartMode(a)), t);
      HoldsInserted(s.reg, a.reg, rid, Pending(StartMode(a), now + CEREMONY_TTL), now, MAX_CEREMONIES, b.reg, now);
    }
  }

  lemma SameSet(c: Credentials)
    ensures SetOf(CredList(c.passkeys)) == CredIds(c)
  {
    CredIdsAre(c);
  }

  lemma LoginStartIsSections(a: State, now: int, aid: Token, library: bool, b: State, reply: StartReply, s: Shared)
    returns (acts: seq<Section>, t: Shared)
    requires LoginStart(a, now, aid, library, b, reply) && Covers(s, a, now)
    ensures Leads(s, acts, t) && Covers(t, b, now) && t.successes == s.successes && t.calls == s.calls
  {
    acts, t := [], s;
    if reply.CeremonyStarted? {
      SameSet(a.store);
      assert |CredList(a.store.passkeys)| == |a.store.passkeys|;
      t := s.(logins := s.logins[aid := SetOf(s.passkeys)]);
      acts := [Offer(aid)];
      LeadsOne(s, Offer(aid), t);
      HoldsInserted(s.logins, a.auth, aid, Pending(CredIds(a.store), now + CEREMONY_TTL), now, MAX_CEREMONIES, b.auth,
          now);
    }
  }

  /** Whatever one login does to the process, its sections do to the section state. */
  lemma LoginIsSections(a: State, now: int, aid: Option<Token>, verdict: Option<Passkey>, fault: Option<nat>,
                        token: Token,
                        b: State, reply: FinishReply, s: Shared, call: CallId)
    returns (acts: seq<Section>, t: Shared)
    requires LoginFinish(a, now, aid, verdict, fault, token, b, reply)
    requires Covers(s, a, now) && call !in s.calls
    ensures Leads(s, acts, t) && Covers(t, b, now) && Ended(t, call) && t.successes == s.successes
  {
    if LoginRefusal(a, now, aid, verdict).Some? {
      acts, t := [], s;
    } else {
      acts, t := VerifiedSections(s, call, aid.value, verdict.value.cred, token);
      LoginCovers(s, a, now, aid, verdict.value, fault, token, b, t);
    }
  }

  lemma LoginCovers(s: Shared, a: State, now: int, aid: Option<Token>, used: Passkey, fault: Option<nat>, token: Token,
                    b: State, t: Shared)
    requires LoggedInState(a, now, aid, used, fault, token, b) && Covers(s, a, now) && aid.Some?
    requires t.passkeys == s.passkeys && t.bootstrap == s.bootstrap && t.reg == s.reg
    requires t.logins == s.logins - {aid.value} && t.sessions == s.sessions + {token}
    ensures Covers(t, b, now)
  {
    UpdateList(a.store, used);
    InsertedFrom(a.sessions, token, Pending((), now + SESSION_TTL), now, MAX_SESSIONS, b.sessions);
  }

  lemma QuietIsSections(a: State, e: Event, b: State, reply: Reply, s: Shared)
    requires e.Check? || e.SignOut? || e.SweepAt?
    requires Step(a, e, b, reply) && Covers(s, a, e.now)
    ensures Leads(s, [], s) && Covers(s, b, e.now)
  {
  }

  /** A process that has just started is a fresh section state. */
  lemma StartIsFresh(files: Files, code: Token, b: State, now: int) returns (s: Shared)
    requires Started(files, code) == Some(b) && Distinct(CredList(b.store.passkeys))
    ensures Fresh(s) && Covers(s, b, now) && (s.bootstrap.Some? <==> s.passkeys == [])
  {
    var creds := CredList(b.store.passkeys);
    assert |creds| == |b.store.passkeys|;
    s := Shared(creds, map[], map[], {}, b.bootstrap, map[], |creds|, 0, 0);
  }

  lemma CoversLater(s: Shared, a: State, now: int, later: int)
    requires Covers(s, a, now) && now <= later
    ensures Covers(s, a, later)
  {
  }

  /** Every handler, and every sweep, is some sequence of lock sections; so whatever holds over all
      interleavings of sections holds over all sequences of handlers. */
  lemma StepIsSections(a: State, e: Event, b: State, reply: Reply, s: Shared, now: int, call: CallId)
    returns (acts: seq<Section>, t: Shared)
    requires Step(a, e, b, reply) && !e.Restart? && !e.CrashInFinish? && !e.CrashInLogin?
    requires Covers(s, a, now) && now <= e.now && call !in s.calls
    ensures Leads(s, acts, t) && Covers(t, b, e.now)
    ensures t.successes == s.successes + if e.RegFinish? && reply.finish.Granted? then 1 else 0
  {
    CoversLater(s, a, now, e.now);
    match e
    case RegStart(at, session, code, user, rid, library) =>
      acts, t := StartIsSections(a, at, session, code, user, rid, library, b, reply.start, s);
    case RegFinish(at, rid, session, verdict, fault, token) =>
      acts, t := FinishIsSections(a, at, rid, session, verdict, fault, token, b, reply.finish, s, call);
    case LogStart(at, aid, library) =>
      acts, t := LoginStartIsSections(a, at, aid, library, b, reply.start, s);
    case LogFinish(at, aid, verdict, fault, token) =>
      acts, t := LoginIsSections(a, at, aid, verdict, fault, token, b, reply.finish, s, call);
    case _ =>
      acts, t := [], s;
      QuietIsSections(a, e, b, reply, s);
  }
}
