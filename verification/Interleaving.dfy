/** Enrolments and sign-ins at the granularity of their lock sections: any number of calls,
    interleaved in any way, with persists that fail at will. */
module Interleaving {
  import opened Buckets
  import opened Ceremonies
  import opened Auth

  type CallId = nat

  /** Where a call stands between two lock sections. */
  datatype Phase =
    | Taken(mode: RegMode)
    | Pushed(mode: RegMode, cred: CredId)
    | Failed(mode: RegMode, cred: CredId)
    | Saved(mode: RegMode)
    | Cleared
    | Sealed
    | Verified
    | Finished

  /** Shared state. A pending login remembers the credentials offered to it. `base` counts the
      credentials found on disk at the start, `successes` the persists that succeeded since, `claims`
      those of bootstrap calls. */
  datatype Shared = Shared(passkeys: seq<CredId>, reg: map<Token, RegMode>, logins: map<Token, set<CredId>>,
                           sessions: set<Token>, bootstrap: Option<Token>, calls: map<CallId, Phase>,
                           base: nat, successes: nat, claims: nat)

  /** One lock section. A start parks a registration of any mode or offers a login; ceremonies are
      evicted or swept and sessions expire or sign out at any time. `Take` to `Issue` are the
      sections of a redemption, `Verify` and `SignIn` those of a login: the first takes the ceremony
      and verifies it, the second issues the session. */
  datatype Section =
    | Park(rid: Token, mode: RegMode)
    | Evict(rid: Token)
    | Offer(aid: Token)
    | Withdraw(aid: Token)
    | Expire(token: Token)
    | Take(call: CallId, rid: Token)
    | Push(call: CallId, session: Option<Token>, cred: CredId)
    | Persist(call: CallId, ok: bool)
    | Pop(call: CallId)
    | Clear(call: CallId)
    | Seal(call: CallId)
    | Issue(call: CallId, token: Token)
    | Verify(call: CallId, aid: Token, cred: CredId)
    | SignIn(call: CallId, token: Token)

  function SetOf(passkeys: seq<CredId>): set<CredId> {
    set c | c in passkeys
  }

  ghost predicate Allowed(s: Shared, mode: RegMode, session: Option<Token>) {
    match mode
    case Bootstrap => s.passkeys == []
    case AddDevice => session.Some? && session.value in s.sessions
  }

  ghost predicate Act(s: Shared, x: Section, t: Shared) {
    match x
    case Park(rid, mode) => t == s.(reg := s.reg[rid := mode])
    case Evict(rid) => t == s.(reg := s.reg - {rid})
    case Offer(aid) => s.passkeys != [] && t == s.(logins := s.logins[aid := SetOf(s.passkeys)])
    case Withdraw(aid) => t == s.(logins := s.logins - {aid})
    case Expire(token) => t == s.(sessions := s.sessions - {token})
    case Take(c, rid) =>
      c !in s.calls && rid in s.reg && t == s.(reg := s.reg - {rid}, calls := s.calls[c := Taken(s.reg[rid])])
    case Push(c, session, cred) =>
      && c in s.calls && s.calls[c].Taken?
      && t == if Allowed(s, s.calls[c].mode, session) && cred !in s.passkeys
              then s.(passkeys := s.passkeys + [cred], calls := s.calls[c := Pushed(s.calls[c].mode, cred)])
              else s.(calls := s.calls[c := Finished])
    case Persist(c, ok) =>
      && c in s.calls && s.calls[c].Pushed?
      && t == if ok
              then s.(calls := s.calls[c := Saved(s.calls[c].mode)], successes := s.successes + 1,
                      claims := s.claims + if s.calls[c].mode == Bootstrap then 1 else 0)
              else s.(calls := s.calls[c := Failed(s.calls[c].mode, s.calls[c].cred)])
    case Pop(c) =>
      && c in s.calls && s.calls[c].Failed?
      && t == s.(passkeys := if s.passkeys == [] then [] else s.passkeys[..|s.passkeys| - 1],
                 calls := s.calls[c := Finished])
    case Clear(c) =>
      && c in s.calls && s.calls[c] == Saved(Bootstrap)
      && t == s.(reg := map[], calls := s.calls[c := Cleared])
    case Seal(c) =>
      && c in s.calls && s.calls[c].Cleared?
      && t == s.(bootstrap := None, calls := s.calls[c := Sealed])
    case Issue(c, token) =>
      && c in s.calls && (s.calls[c] == Saved(AddDevice) || s.calls[c].Sealed?)
      && t == s.(sessions := s.sessions + {token}, calls := s.calls[c := Finished])
    case Verify(c, aid, cred) =>
      && c !in s.calls && aid in s.logins && cred in s.logins[aid]
      && t == s.(logins := s.logins - {aid}, calls := s.calls[c := Verified])
    case SignIn(c, token) =>
      && c in s.calls && s.calls[c].Verified?
      && t == s.(sessions := s.sessions + {token}, calls := s.calls[c := Finished])
  }

  /** Calls that pushed a credential and have neither saved it nor taken it back. */
  ghost function Undecided(calls: map<CallId, Phase>): set<CallId> {
    set c | c in calls && (calls[c].Pushed? || calls[c].Failed?)
  }

  /** Undecided calls that mean to claim the account. */
  ghost function Claiming(calls: map<CallId, Phase>): set<CallId> {
    set c | c in Undecided(calls) && calls[c].mode == Bootstrap
  }

  ghost predicate DistinctCreds(passkeys: seq<CredId>) {
    forall i, j :: 0 <= i < j < |passkeys| ==> passkeys[i] != passkeys[j]
  }

  /** A process that has just started. */
  ghost predicate Fresh(s: Shared) {
    && s.calls == map[] && s.reg == map[] && s.logins == map[] && s.sessions == {}
    && s.successes == 0 && s.claims == 0
    && s.base == |s.passkeys| && DistinctCreds(s.passkeys)
  }

  ghost predicate Durable(s: Shared) {
    0 < s.base + s.successes
  }

  /** The credential count is what was there, plus successes, plus pushes still undecided; at most
      one call is claiming, and none once a claim has succeeded. */
  ghost predicate CountExact(s: Shared) {
    && |s.passkeys| == s.base + s.successes + |Undecided(s.calls)|
    && DistinctCreds(s.passkeys)
    && (forall c, d :: c in Claiming(s.calls) && d in Claiming(s.calls) ==> c == d)
    && s.claims <= 1
    && (s.claims == 1 ==> 0 < s.successes && Claiming(s.calls) == {})
  }

  lemma UndecidedMore(calls: map<CallId, Phase>, c: CallId, p: Phase)
    requires c !in Undecided(calls)
    ensures Undecided(calls[c := p]) == Undecided(calls) + if p.Pushed? || p.Failed? then {c} else {}
    ensures |Undecided(calls[c := p])| == |Undecided(calls)| + if p.Pushed? || p.Failed? then 1 else 0
  {
    assert Undecided(calls[c := p]) == Undecided(calls) + if p.Pushed? || p.Failed? then {c} else {};
  }

  lemma UndecidedLess(calls: map<CallId, Phase>, c: CallId, p: Phase)
    requires c in Undecided(calls)
    ensures Undecided(calls[c := p]) == if p.Pushed? || p.Failed? then Undecided(calls) else Undecided(calls) - {c}
    ensures |Undecided(calls[c := p])| == |Undecided(calls)| - if p.Pushed? || p.Failed? then 0 else 1
  {
    assert Undecided(calls[c := p]) == if p.Pushed? || p.Failed? then Undecided(calls) else Undecided(calls) - {c};
  }

  /** A call that starts to claim must be the only one; any other move adds no claim. */
  lemma ClaimingMoves(calls: map<CallId, Phase>, c: CallId, p: Phase, after: map<CallId, Phase>)
    requires after == calls[c := p]
    requires forall d, e :: d in Claiming(calls) && e in Claiming(calls) ==> d == e
    requires (p.Pushed? || p.Failed?) && p.mode == Bootstrap ==> Claiming(calls) <= {c}
    ensures forall d, e :: d in Claiming(after) && e in Claiming(after) ==> d == e
    ensures !((p.Pushed? || p.Failed?) && p.mode == Bootstrap) ==> Claiming(after) == Claiming(calls) - {c}
  {
    forall d | d in Claiming(after)
      ensures d == c || d in Claiming(calls)
    {
      assert d != c ==> after[d] == calls[d];
    }
    if !((p.Pushed? || p.Failed?) && p.mode == Bootstrap) {
      assert c !in Claiming(after);
      assert forall d :: d in Claiming(calls) - {c} ==> after[d] == calls[d];
    } else {
      assert forall d :: d in Claiming(after) ==> d == c;
    }
  }

  lemma EmptyStoreMeansNobody(s: Shared)
    requires CountExact(s) && s.passkeys == []
    ensures !Durable(s) && Undecided(s.calls) == {} && Claiming(s.calls) == {}
  {
  }

  lemma PushedKeeps(s: Shared, c: CallId, session: Option<Token>, cred: CredId, t: Shared)
    requires CountExact(s) && c !in Undecided(s.calls) && c in s.calls && s.calls[c].Taken?
    requires Allowed(s, s.calls[c].mode, session) && cred !in s.passkeys
    requires t == s.(passkeys := s.passkeys + [cred], calls := s.calls[c := Pushed(s.calls[c].mode, cred)])
    ensures CountExact(t)
  {
    UndecidedMore(s.calls, c, Pushed(s.calls[c].mode, cred));
    if s.calls[c].mode == Bootstrap {
      EmptyStoreMeansNobody(s);
    } else if s.claims == 1 {
      assert Claiming(s.calls) == {};
    }
    ClaimingMoves(s.calls, c, Pushed(s.calls[c].mode, cred), t.calls);
  }

  lemma PushKeeps(s: Shared, c: CallId, session: Option<Token>, cred: CredId, t: Shared)
    requires CountExact(s) && Act(s, Push(c, session, cred), t)
    ensures CountExact(t)
  {
    if Allowed(s, s.calls[c].mode, session) && cred !in s.passkeys {
      PushedKeeps(s, c, session, cred, t);
    } else {
      MoveKeeps(s, c, Finished, t);
    }
  }

  lemma PersistKeeps(s: Shared, c: CallId, ok: bool, t: Shared)
    requires CountExact(s) && Act(s, Persist(c, ok), t)
    ensures CountExact(t)
  {
    var p := s.calls[c];
    assert c in Undecided(s.calls);
    assert p.mode == Bootstrap ==> c in Claiming(s.calls);
    UndecidedLess(s.calls, c, if ok then Saved(p.mode) else Failed(p.mode, p.cred));
    ClaimingMoves(s.calls, c, if ok then Saved(p.mode) else Failed(p.mode, p.cred), t.calls);
  }

  lemma PopKeeps(s: Shared, c: CallId, t: Shared)
    requires CountExact(s) && Act(s, Pop(c), t)
    ensures CountExact(t) && |t.passkeys| == |s.passkeys| - 1
    ensures s.passkeys != [] && t.passkeys == s.passkeys[..|s.passkeys| - 1]
  {
    assert c in Undecided(s.calls);
    UndecidedLess(s.calls, c, Finished);
    ClaimingMoves(s.calls, c, Finished, t.calls);
  }

  /** A section that neither pushes, decides nor pops. */
  lemma MoveKeeps(s: Shared, c: CallId, p: Phase, t: Shared)
    requires CountExact(s) && c !in Undecided(s.calls) && !p.Pushed? && !p.Failed?
    requires t.passkeys == s.passkeys && t.calls == s.calls[c := p]
    requires t.base == s.base && t.successes == s.successes && t.claims == s.claims
    ensures CountExact(t)
  {
    UndecidedMore(s.calls, c, p);
    ClaimingMoves(s.calls, c, p, t.calls);
  }

  lemma SectionKeeps(s: Shared, x: Section, t: Shared)
    requires CountExact(s) && Act(s, x, t)
    ensures CountExact(t)
    ensures t.base == s.base && s.successes <= t.successes && s.claims <= t.claims
  {
    match x
    case Park(_, _) =>
    case Evict(_) =>
    case Offer(_) =>
    case Withdraw(_) =>
    case Expire(_) =>
    case Take(c, rid) => MoveKeeps(s, c, Taken(s.reg[rid]), t);
    case Push(c, session, cred) => PushKeeps(s, c, session, cred, t);
    case Persist(c, ok) => PersistKeeps(s, c, ok, t);
    case Pop(c) => PopKeeps(s, c, t);
    case Clear(c) => MoveKeeps(s, c, Cleared, t);
    case Seal(c) => MoveKeeps(s, c, Sealed, t);
    case Issue(c, token) => MoveKeeps(s, c, Finished, t);
    case Verify(c, _, _) => MoveKeeps(s, c, Verified, t);
    case SignIn(c, _) => MoveKeeps(s, c, Finished, t);
  }

  // ---- runs ----

  ghost predicate Run(states: seq<Shared>, acts: seq<Section>) {
    && |states| == |acts| + 1 && Fresh(states[0])
    && forall i {:trigger Acted(states, acts, i)} :: 0 <= i < |acts| ==> Acted(states, acts, i)
  }

  ghost predicate Acted(states: seq<Shared>, acts: seq<Section>, i: int)
    requires 0 <= i < |acts| == |states| - 1
  {
    Act(states[i], acts[i], states[i + 1])
  }

  /** Over every interleaving the count is exact. */
  lemma {:induction false} AlwaysCountExact(states: seq<Shared>, acts: seq<Section>, i: nat)
    requires Run(states, acts) && i <= |acts|
    ensures CountExact(states[i])
    decreases i
  {
    if i == 0 {
      assert Undecided(states[0].calls) == {};
    } else {
      AlwaysCountExact(states, acts, i - 1);
      assert Acted(states, acts, i - 1);
      SectionKeeps(states[i - 1], acts[i - 1], states[i]);
    }
  }

  lemma {:induction false} SuccessesGrow(states: seq<Shared>, acts: seq<Section>, i: nat, j: nat)
    requires Run(states, acts) && i <= j <= |acts|
    ensures states[j].base == states[i].base && states[i].successes <= states[j].successes
    ensures states[i].claims <= states[j].claims
    decreases j
  {
    if i < j {
      SuccessesGrow(states, acts, i, j - 1);
      AlwaysCountExact(states, acts, j - 1);
      assert Acted(states, acts, j - 1);
      SectionKeeps(states[j - 1], acts[j - 1], states[j]);
    }
  }

  /** Once a credential is enrolled, from disk or by a success, the store is never empty again. */
  lemma NeverEmptyAgain(states: seq<Shared>, acts: seq<Section>, i: nat, j: nat)
    requires Run(states, acts) && i <= j <= |acts| && Durable(states[i])
    ensures states[j].passkeys != [] && Durable(states[j])
  {
    SuccessesGrow(states, acts, i, j);
    AlwaysCountExact(states, acts, j);
  }

  /** So no bootstrap call that has yet to push gets past the re-check, whether its ceremony was
      parked before the claim, cleared or not, or inserted after the clear. */
  lemma LateBootstrapRefused(s: Shared, c: CallId, session: Option<Token>, cred: CredId, t: Shared)
    requires CountExact(s) && Durable(s) && Act(s, Push(c, session, cred), t) && s.calls[c].mode == Bootstrap
    ensures t == s.(calls := s.calls[c := Finished])
  {
  }

  /** At most one bootstrap call ever succeeds, sign-ins with an unsaved credential or not. */
  lemma ClaimedOnce(states: seq<Shared>, acts: seq<Section>)
    requires Run(states, acts)
    ensures states[|acts|].claims <= 1
  {
    AlwaysCountExact(states, acts, |acts|);
  }

  // ---- sections in sequence ----

  /** `acts` lead from `s` to `t`. */
  ghost predicate Leads(s: Shared, acts: seq<Section>, t: Shared)
    decreases |acts|
  {
    if acts == [] then s == t
    else exists mid :: Act(s, acts[0], mid) && Leads(mid, acts[1..], t)
  }

  lemma LeadsFirst(s: Shared, x: Section, mid: Shared, acts: seq<Section>, t: Shared)
    requires Act(s, x, mid) && Leads(mid, acts, t)
    ensures Leads(s, [x] + acts, t)
  {
    assert ([x] + acts)[1..] == acts;
  }

  lemma {:induction false} LeadsThen(s: Shared, acts: seq<Section>, mid: Shared, x: Section, t: Shared)
    requires Leads(s, acts, mid) && Act(mid, x, t)
    ensures Leads(s, acts + [x], t)
    decreases |acts|
  {
    if acts == [] {
      assert [x][1..] == [];
      assert Leads(t, [], t);
      assert acts + [x] == [x];
    } else {
      var next :| Act(s, acts[0], next) && Leads(next, acts[1..], mid);
      LeadsThen(next, acts[1..], mid, x, t);
      LeadsFirst(s, acts[0], next, acts[1..] + [x], t);
      assert acts + [x] == [acts[0]] + (acts[1..] + [x]);
    }
  }

  lemma {:induction false} LeadsOn(s: Shared, acts: seq<Section>, mid: Shared, more: seq<Section>, t: Shared)
    requires Leads(s, acts, mid) && Leads(mid, more, t)
    ensures Leads(s, acts + more, t)
    decreases |more|
  {
    if more == [] {
      assert acts + more == acts;
    } else {
      var next :| Act(mid, more[0], next) && Leads(next, more[1..], t);
      LeadsThen(s, acts, mid, more[0], next);
      LeadsOn(s, acts + [more[0]], next, more[1..], t);
      assert acts + [more[0]] + more[1..] == acts + more;
    }
  }

  lemma LeadsOne(s: Shared, x: Section, t: Shared)
    requires Act(s, x, t)
    ensures Leads(s, [x], t)
  {
    assert [x][1..] == [];
    assert Leads(t, [x][1..], t);
  }

  /** Along any sections the count stays exact and successes only grow. */
  lemma {:induction false} LeadsCountExact(s: Shared, acts: seq<Section>, t: Shared)
    requires CountExact(s) && Leads(s, acts, t)
    ensures CountExact(t) && t.base == s.base && s.successes <= t.successes
    decreases |acts|
  {
    if acts != [] {
      var mid :| Act(s, acts[0], mid) && Leads(mid, acts[1..], t);
      SectionKeeps(s, acts[0], mid);
      LeadsCountExact(mid, acts[1..], t);
    }
  }

  /** Sections that start in a fresh process are a run. */
  lemma {:induction false} LeadsIsPath(s: Shared, acts: seq<Section>, t: Shared) returns (states: seq<Shared>)
    requires Leads(s, acts, t)
    ensures |states| == |acts| + 1 && states[0] == s && states[|acts|] == t
    ensures forall i {:trigger Acted(states, acts, i)} :: 0 <= i < |acts| ==> Acted(states, acts, i)
    decreases |acts|
  {
    if acts == [] {
      states := [s];
    } else {
      var mid :| Act(s, acts[0], mid) && Leads(mid, acts[1..], t);
      var rest := LeadsIsPath(mid, acts[1..], t);
      states := [s] + rest;
      forall i | 0 <= i < |acts|
        ensures Acted(states, acts, i)
      {
        if i > 0 {
          assert Acted(rest, acts[1..], i - 1);
        }
      }
    }
  }
}
