/** Where credentials and sessions come from over a whole run, and that enrolments last. */
module Lineage {
  import opened Buckets
  import opened Ceremonies
  import opened Auth
  import opened AuthRuns

  /** Who can be authorised, and by whom; `giver` is `None` for the startup code. */
  datatype Actor = Credential(id: CredId) | Browser(token: Token)

  datatype Grant = Grant(to: Actor, giver: Option<Actor>, at: int)

  /** A run starts on a data directory without credentials. */
  ghost predicate Run(states: seq<State>, events: seq<Event>, replies: seq<Reply>) {
    && |states| == |events| + 1 && |replies| == |events|
    && (exists tmp: Content, code: Token :: Started(Files(Absent, tmp), code) == Some(states[0]))
    && forall i {:trigger Stepped(states, events, replies, i)} :: 0 <= i < |events|
        ==> Stepped(states, events, replies, i)
  }

  ghost predicate Stepped(states: seq<State>, events: seq<Event>, replies: seq<Reply>, i: int)
    requires 0 <= i < |events| == |replies| == |states| - 1
  {
    Step(states[i], events[i], states[i + 1], replies[i])
  }

  lemma RunFront(states: seq<State>, events: seq<Event>, replies: seq<Reply>)
    requires events != [] && Run(states, events, replies)
    ensures Run(states[..|events|], events[..|events| - 1], replies[..|events| - 1])
    ensures Step(states[|events| - 1], events[|events| - 1], states[|events|], replies[|events| - 1])
  {
    var n := |events| - 1;
    var s, e, r := states[..n + 1], events[..n], replies[..n];
    assert s[0] == states[0];
    assert Stepped(states, events, replies, n);
    forall i | 0 <= i < n
      ensures Stepped(s, e, r, i)
    {
      assert Stepped(states, events, replies, i);
      assert s[i] == states[i] && s[i + 1] == states[i + 1] && e[i] == events[i] && r[i] == replies[i];
    }
  }

  lemma {:induction false} AlwaysConsistent(states: seq<State>, events: seq<Event>, replies: seq<Reply>, i: nat)
    requires Run(states, events, replies) && i <= |events|
    ensures Consistent(states[i])
    decreases i
  {
    if i == 0 {
      var tmp: Content, code: Token :| Started(Files(Absent, tmp), code) == Some(states[0]);
      StartConsistent(Files(Absent, tmp), code);
    } else {
      AlwaysConsistent(states, events, replies, i - 1);
      assert Stepped(states, events, replies, i - 1);
      StepKeeps(states[i - 1], events[i - 1], states[i], replies[i - 1]);
    }
  }

  // ---- durability ----

  lemma {:induction false} CredentialsLast(states: seq<State>, events: seq<Event>, replies: seq<Reply>, i: nat, j: nat)
    requires Run(states, events, replies) && i <= j <= |events|
    ensures CredIds(states[i].store) <= CredIds(states[j].store)
    decreases j
  {
    if i < j {
      CredentialsLast(states, events, replies, i, j - 1);
      AlwaysConsistent(states, events, replies, j - 1);
      assert Stepped(states, events, replies, j - 1);
      StepKeeps(states[j - 1], events[j - 1], states[j], replies[j - 1]);
    }
  }

  /** Once a redemption has reported success, its credential is enrolled in every later state,
      through any crashes and restarts, and no later start hands out a code. */
  lemma EnrolmentLasts(states: seq<State>, events: seq<Event>, replies: seq<Reply>, i: nat, j: nat)
    requires Run(states, events, replies) && i < j <= |events|
    requires events[i].RegFinish? && replies[i].ToFinish? && replies[i].finish.Granted?
    ensures events[i].verdict.Some? && events[i].verdict.value.cred in CredIds(states[j].store)
    ensures states[j].store.passkeys != [] && states[j].bootstrap.None?
  {
    RunEnrols(states, events, replies, i);
    CredentialsLast(states, events, replies, i + 1, j);
    AlwaysConsistent(states, events, replies, j);
    NoCredsMeansEmpty(states[j].store);
  }

  lemma RunEnrols(states: seq<State>, events: seq<Event>, replies: seq<Reply>, i: nat)
    requires Run(states, events, replies) && i < |events|
    requires events[i].RegFinish? && replies[i].ToFinish? && replies[i].finish.Granted?
    ensures events[i].verdict.Some? && events[i].verdict.value.cred in CredIds(states[i + 1].store)
  {
    AlwaysConsistent(states, events, replies, i);
    assert Stepped(states, events, replies, i);
    RegFinishKeeps(states[i], events[i], states[i + 1], replies[i]);
    PushList(states[i].store, events[i].verdict.value);
  }

  // ---- lineage ----

  function Authoriser(mode: RegMode, session: Option<Token>): Option<Actor> {
    if mode == AddDevice && session.Some? then Some(Browser(session.value)) else None
  }

  /** The authorisations one event hands out. */
  ghost function Grants(a: State, e: Event, reply: Reply): seq<Grant> {
    match e
    case RegFinish(now, rid, session, verdict, _, token) =>
      if reply.ToFinish? && reply.finish.Granted? && Redeemed(a.reg, rid, now).Some? && verdict.Some? then
        [Grant(Credential(verdict.value.cred), Authoriser(Redeemed(a.reg, rid, now).value, session), now),
         Grant(Browser(token), Some(Credential(verdict.value.cred)), now)]
      else []
    case CrashInFinish(now, rid, session, verdict, at, _) =>
      if at >= PERSIST_STEPS && ToEnrol(a, now, rid, session, verdict).Some? then
        [Grant(Credential(verdict.value.cred), Authoriser(Redeemed(a.reg, rid, now).value, session), now)]
      else []
    case LogFinish(now, _, verdict, _, token) =>
      if reply.ToFinish? && reply.finish.Granted? && verdict.Some? then
        [Grant(Browser(token), Some(Credential(verdict.value.cred)), now)]
      else []
    case _ => []
  }

  ghost function LogOf(states: seq<State>, events: seq<Event>, replies: seq<Reply>): seq<Grant>
    requires |states| == |events| + 1 && |replies| == |events|
    decreases |events|
  {
    if events == [] then []
    else
      var n := |events| - 1;
      LogOf(states[..n + 1], events[..n], replies[..n]) + Grants(states[n], events[n], replies[n])
  }

  ghost predicate Has(log: seq<Grant>, who: Actor) {
    exists i :: 0 <= i < |log| && log[i].to == who
  }

  /** One root, first; every other authorisation was given by somebody authorised before. */
  ghost predicate Rooted(log: seq<Grant>) {
    forall i :: 0 <= i < |log| ==>
      if log[i].giver.None? then i == 0 else Has(log[..i], log[i].giver.value)
  }

  ghost predicate Traced(a: State, log: seq<Grant>) {
    && Rooted(log)
    && (log == [] <==> a.store.passkeys == [])
    && (forall c :: c in CredIds(a.store) ==> Has(log, Credential(c)))
    && (forall t :: t in a.sessions ==> Has(log, Browser(t)))
  }

  lemma HasMore(log: seq<Grant>, more: seq<Grant>, who: Actor)
    requires Has(log, who)
    ensures Has(log + more, who)
  {
    var i :| 0 <= i < |log| && log[i].to == who;
    assert (log + more)[i] == log[i];
  }

  lemma HasLast(log: seq<Grant>, g: Grant)
    ensures Has(log + [g], g.to)
  {
    assert (log + [g])[|log|] == g;
  }

  lemma RootedMore(log: seq<Grant>, g: Grant)
    requires Rooted(log)
    requires if g.giver.None? then log == [] else Has(log, g.giver.value)
    ensures Rooted(log + [g])
  {
    var all := log + [g];
    forall i | 0 <= i < |all|
      ensures if all[i].giver.None? then i == 0 else Has(all[..i], all[i].giver.value)
    {
      if i < |log| {
        assert all[..i] == log[..i];
      } else {
        assert all[..i] == log;
      }
    }
  }

  /** Same people, possibly fewer sessions: the log still accounts for everybody. */
  lemma TracedLess(a: State, b: State, log: seq<Grant>)
    requires Traced(a, log) && CredIds(b.store) == CredIds(a.store)
    requires b.store.passkeys == [] <==> a.store.passkeys == []
    requires b.sessions.Keys <= a.sessions.Keys
    ensures Traced(b, log)
  {
  }

  /** One more authorisation, given by somebody the log knows or by the code into an empty store. */
  lemma TracedMore(a: State, b: State, log: seq<Grant>, g: Grant)
    requires Traced(a, log)
    requires if g.giver.None? then a.store.passkeys == [] else Has(log, g.giver.value)
    requires b.store.passkeys != []
    requires CredIds(b.store) <= CredIds(a.store) + if g.to.Credential? then {g.to.id} else {}
    requires b.sessions.Keys <= a.sessions.Keys + if g.to.Browser? then {g.to.token} else {}
    ensures Traced(b, log + [g])
  {
    RootedMore(log, g);
    HasLast(log, g);
    forall who | Has(log, who)
      ensures Has(log + [g], who)
    {
      HasMore(log, [g], who);
    }
  }

  lemma KeysAfterInsert(m: Book<()>, key: Token, p: Pending<()>, now: int, r: Book<()>)
    requires Inserted(m, key, p, now, MAX_SESSIONS, r)
    ensures r.Keys <= m.Keys + {key}
  {
    InsertedFrom(m, key, p, now, MAX_SESSIONS, r);
  }

  /** An enrolment authorises the credential, and through it the session that comes with it. */
  lemma EnrolTraced(a: State, b: State, log: seq<Grant>, cred: CredId, giver: Option<Actor>, token: Token, now: int)
    requires Traced(a, log)
    requires if giver.None? then a.store.passkeys == [] else Has(log, giver.value)
    requires b.store.passkeys != [] && CredIds(b.store) <= CredIds(a.store) + {cred}
    requires b.sessions.Keys <= a.sessions.Keys + {token}
    ensures Traced(b, log + [Grant(Credential(cred), giver, now), Grant(Browser(token), Some(Credential(cred)), now)])
  {
    var g, h := Grant(Credential(cred), giver, now), Grant(Browser(token), Some(Credential(cred)), now);
    var mid := a.(store := b.store);
    TracedMore(a, mid, log, g);
    HasLast(log, g);
    TracedMore(mid, b, log + [g], h);
    assert log + [g] + [h] == log + [g, h];
  }

  lemma RegFinishTraced(a: State, e: Event, b: State, reply: Reply, log: seq<Grant>)
    requires e.RegFinish? && Consistent(a) && Traced(a, log) && Step(a, e, b, reply)
    ensures Traced(b, log + Grants(a, e, reply))
  {
    RegFinishKeeps(a, e, b, reply);
    if reply.finish.Granted? {
      var giver := Authoriser(Redeemed(a.reg, e.rid, e.now).value, e.session);
      PushList(a.store, e.verdict.value);
      KeysAfterInsert(a.sessions, e.drawn, Pending((), e.now + SESSION_TTL), e.now, b.sessions);
      EnrolTraced(a, b, log, e.verdict.value.cred, giver, e.drawn, e.now);
    } else {
      RefusalTraced(a, e, b, reply, log);
    }
  }

  lemma RefusalTraced(a: State, e: Event, b: State, reply: Reply, log: seq<Grant>)
    requires e.RegFinish? && Consistent(a) && Traced(a, log) && Step(a, e, b, reply) && !reply.finish.Granted?
    ensures Traced(b, log + Grants(a, e, reply))
  {
    RegFinishKeeps(a, e, b, reply);
    TracedLess(a, b, log);
    assert log + Grants(a, e, reply) == log;
  }

  lemma LogFinishTraced(a: State, e: Event, b: State, reply: Reply, log: seq<Grant>)
    requires e.LogFinish? && Consistent(a) && Traced(a, log) && Step(a, e, b, reply)
    ensures Traced(b, log + Grants(a, e, reply))
  {
    LogFinishKeeps(a, e, b, reply);
    if reply.finish.Granted? {
      KeysAfterInsert(a.sessions, e.drawn, Pending((), e.now + SESSION_TTL), e.now, b.sessions);
      SignInTraced(a, b, log, e.verdict.value.cred, e.drawn, e.now);
    } else {
      TracedLess(a, b, log);
      assert log + Grants(a, e, reply) == log;
    }
  }

  /** A sign-in authorises its session through an enrolled credential. */
  lemma SignInTraced(a: State, b: State, log: seq<Grant>, cred: CredId, token: Token, now: int)
    requires Traced(a, log) && cred in CredIds(a.store)
    requires CredIds(b.store) == CredIds(a.store) && b.sessions.Keys <= a.sessions.Keys + {token}
    ensures Traced(b, log + [Grant(Browser(token), Some(Credential(cred)), now)])
  {
    NoCredsMeansEmpty(b.store);
    TracedMore(a, b, log, Grant(Browser(token), Some(Credential(cred)), now));
  }

  lemma CrashTraced(a: State, e: Event, b: State, reply: Reply, log: seq<Grant>)
    requires e.Restart? || e.CrashInFinish? || e.CrashInLogin?
    requires Consistent(a) && Traced(a, log) && Step(a, e, b, reply)
    ensures Traced(b, log + Grants(a, e, reply))
  {
    if e.CrashInFinish? && e.at >= PERSIST_STEPS && ToEnrol(a, e.now, e.rid, e.session, e.verdict).Some? {
      SavedCrashTraced(a, e, b, reply, log);
    } else {
      CrashWithoutSave(a, e, b, reply);
      TracedLess(a, b, log);
      assert log + Grants(a, e, reply) == log;
    }
  }

  /** Dying between the rename and the reply: the credential is enrolled, and accounted for. */
  lemma SavedCrashTraced(a: State, e: Event, b: State, reply: Reply, log: seq<Grant>)
    requires e.CrashInFinish? && e.at >= PERSIST_STEPS && ToEnrol(a, e.now, e.rid, e.session, e.verdict).Some?
    requires Consistent(a) && Traced(a, log) && Step(a, e, b, reply)
    ensures Traced(b, log + Grants(a, e, reply))
  {
    var g := Grant(Credential(e.verdict.value.cred), Authoriser(Redeemed(a.reg, e.rid, e.now).value, e.session), e.now);
    AdmittedMode(a, e.now, e.rid, e.session, e.verdict);
    PushList(a.store, e.verdict.value);
    SavedCrash(a, e, b, reply);
    TracedMore(a, b, log, g);
    assert Grants(a, e, reply) == [g];
  }

  lemma SavedCrash(a: State, e: Event, b: State, reply: Reply)
    requires e.CrashInFinish? && e.at >= PERSIST_STEPS && ToEnrol(a, e.now, e.rid, e.session, e.verdict).Some?
    requires Step(a, e, b, reply)
    ensures b.store == With(a.store, e.verdict.value) && b.sessions == map[]
  {
  }

  lemma CrashWithoutSave(a: State, e: Event, b: State, reply: Reply)
    requires e.Restart? || e.CrashInFinish? || e.CrashInLogin?
    requires e.CrashInFinish? ==> e.at < PERSIST_STEPS || ToEnrol(a, e.now, e.rid, e.session, e.verdict).None?
    requires Consistent(a) && Step(a, e, b, reply)
    ensures CredIds(b.store) == CredIds(a.store) && b.sessions == map[]
    ensures b.store.passkeys == [] <==> a.store.passkeys == []
  {
    CrashStepKeeps(a, e, b, reply);
    if e.CrashInFinish? {
      var c := ToEnrol(a, e.now, e.rid, e.session, e.verdict);
      if c.Some? {
        SaveIsAtomic(a.files, c.value, e.at);
      }
      CredsOfList(b.store, a.store);
    }
    NoCredsMeansEmpty(a.store);
    NoCredsMeansEmpty(b.store);
  }

  lemma NoCredsMeansEmpty(c: Credentials)
    ensures CredIds(c) == {} <==> c.passkeys == []
  {
    if c.passkeys != [] {
      assert c.passkeys[0] in c.passkeys && c.passkeys[0].cred in CredIds(c);
    }
  }

  lemma QuietTraced(a: State, e: Event, b: State, reply: Reply, log: seq<Grant>)
    requires e.RegStart? || e.LogStart? || e.Check? || e.SignOut? || e.SweepAt?
    requires Consistent(a) && Traced(a, log) && Step(a, e, b, reply)
    ensures Traced(b, log + Grants(a, e, reply))
  {
    QuietStep(a, e, b, reply);
    assert log + Grants(a, e, reply) == log;
    TracedLess(a, b, log);
  }

  lemma QuietStep(a: State, e: Event, b: State, reply: Reply)
    requires e.RegStart? || e.LogStart? || e.Check? || e.SignOut? || e.SweepAt?
    requires Consistent(a) && Step(a, e, b, reply)
    ensures b.store.passkeys == a.store.passkeys && b.sessions.Keys <= a.sessions.Keys
    ensures CredIds(b.store) == CredIds(a.store)
  {
    match e
    case RegStart(now, session, code, user, id, library) =>
      StartKeeps(a, now, session, code, user, id, library, b, reply.start);
    case LogStart(now, id, library) =>
      LoginStartKeeps(a, now, id, library, b, reply.start);
    case _ =>
      QuietKeeps(a, e, b, reply);
  }

  lemma StepTraced(a: State, e: Event, b: State, reply: Reply, log: seq<Grant>)
    requires Consistent(a) && Traced(a, log) && Step(a, e, b, reply)
    ensures Traced(b, log + Grants(a, e, reply))
  {
    if e.RegFinish? {
      RegFinishTraced(a, e, b, reply, log);
    } else if e.LogFinish? {
      LogFinishTraced(a, e, b, reply, log);
    } else if e.Restart? || e.CrashInFinish? || e.CrashInLogin? {
      CrashTraced(a, e, b, reply, log);
    } else {
      QuietTraced(a, e, b, reply, log);
    }
  }

  /** In every run, with crashes and restarts anywhere, every enrolled credential and every session
      the server holds stands in one log that has a single root: the first redemption of a startup
      code, made while the store was empty. */
  lemma {:induction false} OneLineage(states: seq<State>, events: seq<Event>, replies: seq<Reply>)
    requires Run(states, events, replies)
    ensures Traced(states[|events|], LogOf(states, events, replies))
    decreases |events|
  {
    AlwaysConsistent(states, events, replies, 0);
    if events != [] {
      var n := |events| - 1;
      RunFront(states, events, replies);
      OneLineage(states[..n + 1], events[..n], replies[..n]);
      AlwaysConsistent(states, events, replies, n);
      StepTraced(states[n], events[n], states[n + 1], replies[n], LogOf(states[..n + 1], events[..n], replies[..n]));
    } else {
      var tmp: Content, code: Token :| Started(Files(Absent, tmp), code) == Some(states[0]);
      NoCredsMeansEmpty(states[0].store);
    }
  }

  /** By the code into an empty store through a bootstrap ceremony, by a session valid at that
      instant, or by an enrolled credential. */
  ghost predicate Legitimate(a: State, e: Event, b: State, g: Grant) {
    match g.giver
    case None => a.store.passkeys == [] && (e.RegFinish? || e.CrashInFinish?)
        && Redeemed(a.reg, e.rid, e.now) == Some(Bootstrap)
    case Some(Browser(t)) => SignedIn(a, Some(t), g.at)
    case Some(Credential(c)) => c in CredIds(b.store)
  }

  lemma EnrolmentLegitimate(a: State, e: Event, b: State, g: Grant)
    requires e.RegFinish? || e.CrashInFinish?
    requires Consistent(a) && FinishRefusal(a, e.now, e.rid, e.session, e.verdict).None?
    requires g == Grant(Credential(e.verdict.value.cred), Authoriser(Redeemed(a.reg, e.rid, e.now).value, e.session),
             e.now)
    ensures Legitimate(a, e, b, g)
  {
    AdmittedMode(a, e.now, e.rid, e.session, e.verdict);
  }

  /** Each authorisation was legitimate when given. */
  lemma GrantsAreLegitimate(a: State, e: Event, b: State, reply: Reply, g: Grant)
    requires Consistent(a) && Step(a, e, b, reply) && g in Grants(a, e, reply)
    ensures Legitimate(a, e, b, g)
  {
    match e
    case RegFinish(_, _, _, _, _, _) =>
      RegFinishKeeps(a, e, b, reply);
      PushList(a.store, e.verdict.value);
      if g.to.Credential? {
        EnrolmentLegitimate(a, e, b, g);
      }
    case LogFinish(_, _, _, _, _) =>
      LogFinishKeeps(a, e, b, reply);
    case CrashInFinish(_, _, _, _, _, _) =>
      EnrolmentLegitimate(a, e, b, g);
    case _ =>
  }

  /** Indices of a chain of authorisations from entry `chain[0]` back to the root. */
  ghost predicate Chain(log: seq<Grant>, chain: seq<nat>) {
    && chain != []
    && (forall k :: 0 <= k < |chain| ==> chain[k] < |log|)
    && chain[|chain| - 1] == 0 && log[0].giver.None?
    && forall k :: 0 <= k < |chain| - 1 ==> chain[k + 1] < chain[k] && log[chain[k]].giver == Some(log[chain[k + 1]].to)
  }

  /** Every authorisation descends from the root by a finite chain. */
  lemma {:induction false} ChainToRoot(log: seq<Grant>, i: nat) returns (chain: seq<nat>)
    requires Rooted(log) && i < |log|
    ensures Chain(log, chain) && chain[0] == i
    decreases i
  {
    if log[i].giver.None? {
      chain := [i];
    } else {
      assert Has(log[..i], log[i].giver.value);
      var j :| 0 <= j < i && log[..i][j].to == log[i].giver.value;
      var rest := ChainToRoot(log, j);
      chain := [i] + rest;
      assert forall k :: 0 < k < |chain| ==> chain[k] == rest[k - 1];
    }
  }
}
