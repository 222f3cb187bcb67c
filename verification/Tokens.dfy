/** Random ids over a run: what redeeming, signing out and expiry make permanent. */
module Tokens {
  import opened Buckets
  import opened Ceremonies
  import opened Auth
  import opened AuthRuns
  import opened Lineage

  /** The random id an event draws, whether or not it ends up in a table. */
  function Drawn(e: Event): set<Token> {
    if e.RegStart? || e.RegFinish? || e.LogStart? || e.LogFinish? then {e.drawn} else {}
  }

  function DrawnBy(events: seq<Event>): set<Token> {
    set i, t | 0 <= i < |events| && t in Drawn(events[i]) :: t
  }

  /** No id is drawn twice. */
  ghost predicate FreshIds(events: seq<Event>) {
    forall i, j, t :: 0 <= i < j < |events| && t in Drawn(events[i]) ==> t !in Drawn(events[j])
  }

  /** Entries of `after` are entries of `before`, or new under a drawn id. */
  ghost predicate Grows<S>(before: Book<S>, after: Book<S>, drawn: set<Token>) {
    forall k :: k in after && k !in drawn ==> k in before && after[k] == before[k]
  }

  lemma GrowsByInsert<S>(m: Book<S>, key: Token, p: Pending<S>, now: int, cap: nat, r: Book<S>)
    requires Inserted(m, key, p, now, cap, r)
    ensures Grows(m, r, {key})
  {
    InsertedFrom(m, key, p, now, cap, r);
  }

  lemma StartGrows(a: State, now: int, session: Option<Token>, code: Token, user: UserId, id: Token, library: bool,
                   b: State, reply: StartReply)
    requires RegisterStart(a, now, session, code, user, id, library, b, reply)
    ensures Grows(a.reg, b.reg, {id}) && b.auth == a.auth && Grows(a.sessions, b.sessions, {})
  {
    if StartRefusal(a, now, session, code, library).None? {
      GrowsByInsert(a.reg, id, Pending(StartMode(a), now + CEREMONY_TTL), now, MAX_CEREMONIES, b.reg);
    }
  }

  lemma FinishGrows(a: State, now: int, rid: Option<Token>, session: Option<Token>, verdict: Option<Passkey>,
                    fault: Option<nat>, token: Token, b: State, reply: FinishReply)
    requires RegisterFinish(a, now, rid, session, verdict, fault, token, b, reply)
    ensures Grows(a.reg, b.reg, {}) && b.auth == a.auth && Grows(a.sessions, b.sessions, {token})
    ensures rid.Some? ==> rid.value !in b.reg
  {
    if FinishRefusal(a, now, rid, session, verdict).None? && Reached(fault) == PERSIST_STEPS {
      GrowsByInsert(a.sessions, token, Pending((), now + SESSION_TTL), now, MAX_SESSIONS, b.sessions);
    }
  }

  lemma LoginStartGrows(a: State, now: int, id: Token, library: bool, b: State, reply: StartReply)
    requires LoginStart(a, now, id, library, b, reply)
    ensures b.reg == a.reg && Grows(a.auth, b.auth, {id}) && b.sessions == a.sessions
  {
    if reply.CeremonyStarted? {
      GrowsByInsert(a.auth, id, Pending(CredIds(a.store), now + CEREMONY_TTL), now, MAX_CEREMONIES, b.auth);
    }
  }

  lemma LoginGrows(a: State, now: int, aid: Option<Token>, verdict: Option<Passkey>, fault: Option<nat>, token: Token,
                   b: State, reply: FinishReply)
    requires LoginFinish(a, now, aid, verdict, fault, token, b, reply)
    ensures b.reg == a.reg && Grows(a.auth, b.auth, {}) && Grows(a.sessions, b.sessions, {token})
    ensures aid.Some? ==> aid.value !in b.auth
  {
    if LoginRefusal(a, now, aid, verdict).None? {
      GrowsByInsert(a.sessions, token, Pending((), now + SESSION_TTL), now, MAX_SESSIONS, b.sessions);
    }
  }

  lemma OtherGrows(a: State, e: Event, b: State, reply: Reply)
    requires Step(a, e, b, reply) && Drawn(e) == {}
    ensures Grows(a.reg, b.reg, {}) && Grows(a.auth, b.auth, {}) && Grows(a.sessions, b.sessions, {})
  {
    match e
    case Check(_, _) =>
    case SignOut(_, _) =>
    case SweepAt(_) =>
    case Restart(_, _) =>
    case CrashInFinish(_, _, _, _, _, _) =>
    case CrashInLogin(_, _, _, _, _) =>
  }

  /** Tables only gain entries under the id the event drew; entries they keep are unchanged. */
  lemma StepGrows(a: State, e: Event, b: State, reply: Reply)
    requires Step(a, e, b, reply)
    ensures Grows(a.reg, b.reg, Drawn(e)) && Grows(a.auth, b.auth, Drawn(e)) && Grows(a.sessions, b.sessions, Drawn(e))
  {
    match e
    case RegStart(now, session, code, user, id, library) =>
      StartGrows(a, now, session, code, user, id, library, b, reply.start);
    case RegFinish(now, rid, session, verdict, fault, token) =>
      FinishGrows(a, now, rid, session, verdict, fault, token, b, reply.finish);
    case LogStart(now, id, library) =>
      LoginStartGrows(a, now, id, library, b, reply.start);
    case LogFinish(now, aid, verdict, fault, token) =>
      LoginGrows(a, now, aid, verdict, fault, token, b, reply.finish);
    case _ =>
      OtherGrows(a, e, b, reply);
  }

  lemma NotDrawnAgain(events: seq<Event>, i: nat, j: nat, t: Token)
    requires FreshIds(events) && i <= j < |events| && t in DrawnBy(events[..i])
    ensures t !in Drawn(events[j])
  {
    var k :| 0 <= k < i && t in Drawn(events[..i][k]);
    assert events[..i][k] == events[k];
  }

  /** An id that was drawn and is in no table will never be in a table again. */
  lemma {:induction false} GoneForGood(states: seq<State>, events: seq<Event>, replies: seq<Reply>, i: nat, j: nat,
                                       t: Token)
    requires Run(states, events, replies) && FreshIds(events) && i <= j <= |events|
    requires t in DrawnBy(events[..i])
    ensures t !in states[i].reg ==> t !in states[j].reg
    ensures t !in states[i].auth ==> t !in states[j].auth
    ensures t !in states[i].sessions ==> t !in states[j].sessions
    decreases j
  {
    if i < j {
      GoneForGood(states, events, replies, i, j - 1, t);
      NotDrawnAgain(events, i, j - 1, t);
      RunGrows(states, events, replies, j - 1);
    }
  }

  lemma RunGrows(states: seq<State>, events: seq<Event>, replies: seq<Reply>, j: nat)
    requires Run(states, events, replies) && j < |events|
    ensures Grows(states[j].reg, states[j + 1].reg, Drawn(events[j]))
    ensures Grows(states[j].auth, states[j + 1].auth, Drawn(events[j]))
    ensures Grows(states[j].sessions, states[j + 1].sessions, Drawn(events[j]))
  {
    assert Stepped(states, events, replies, j);
    StepGrows(states[j], events[j], states[j + 1], replies[j]);
  }

  /** A registration that was presented once, with whatever outcome, is refused ever after. */
  lemma RedeemedOnce(states: seq<State>, events: seq<Event>, replies: seq<Reply>, i: nat, j: nat, rid: Token)
    requires Run(states, events, replies) && FreshIds(events) && i < j < |events|
    requires events[i].RegFinish? && events[i].rid == Some(rid) && rid in DrawnBy(events[..i])
    requires events[j].RegFinish? && events[j].rid == Some(rid)
    ensures replies[j] == ToFinish(CeremonyExpired)
  {
    assert Stepped(states, events, replies, i);
    RegTaken(states[i], events[i], states[i + 1], replies[i]);
    DrawnLonger(events, i, i + 1, rid);
    GoneForGood(states, events, replies, i + 1, j, rid);
    assert Stepped(states, events, replies, j);
  }

  lemma RegTaken(a: State, e: Event, b: State, reply: Reply)
    requires e.RegFinish? && e.rid.Some? && Step(a, e, b, reply)
    ensures e.rid.value !in b.reg
  {
    FinishGrows(a, e.now, e.rid, e.session, e.verdict, e.fault, e.drawn, b, reply.finish);
  }

  lemma LoginTaken(a: State, e: Event, b: State, reply: Reply)
    requires e.LogFinish? && e.aid.Some? && Step(a, e, b, reply)
    ensures e.aid.value !in b.auth
  {
    LoginGrows(a, e.now, e.aid, e.verdict, e.fault, e.drawn, b, reply.finish);
  }

  lemma DrawnLonger(events: seq<Event>, i: nat, j: nat, t: Token)
    requires i <= j <= |events| && t in DrawnBy(events[..i])
    ensures t in DrawnBy(events[..j])
  {
    var k :| 0 <= k < i && t in Drawn(events[..i][k]);
    assert events[..j][k] == events[..i][k];
  }

  /** A login that was presented once is refused ever after. */
  lemma LoginRedeemedOnce(states: seq<State>, events: seq<Event>, replies: seq<Reply>, i: nat, j: nat, aid: Token)
    requires Run(states, events, replies) && FreshIds(events) && i < j < |events|
    requires events[i].LogFinish? && events[i].aid == Some(aid) && aid in DrawnBy(events[..i])
    requires events[j].LogFinish? && events[j].aid == Some(aid)
    ensures replies[j] == ToFinish(CeremonyExpired)
  {
    assert Stepped(states, events, replies, i);
    LoginTaken(states[i], events[i], states[i + 1], replies[i]);
    DrawnLonger(events, i, i + 1, aid);
    GoneForGood(states, events, replies, i + 1, j, aid);
    assert Stepped(states, events, replies, j);
  }

  /** A signed-out session is never accepted again. */
  lemma SignedOutForGood(states: seq<State>, events: seq<Event>, replies: seq<Reply>, i: nat, j: nat, t: Token,
                         now: int)
    requires Run(states, events, replies) && FreshIds(events) && i < j <= |events|
    requires events[i].SignOut? && events[i].session == Some(t) && t in DrawnBy(events[..i])
    ensures !SignedIn(states[j], Some(t), now)
  {
    assert Stepped(states, events, replies, i);
    DrawnLonger(events, i, i + 1, t);
    GoneForGood(states, events, replies, i + 1, j, t);
  }

  lemma IssuedByFinish(a: State, now: int, rid: Option<Token>, session: Option<Token>, verdict: Option<Passkey>,
                       fault: Option<nat>, token: Token, b: State, t: Token)
    requires RegisterFinish(a, now, rid, session, verdict, fault, token, b, Granted(t))
    ensures t == token && t in b.sessions && b.sessions[t].exp == now + SESSION_TTL
  {
    assert FinishRefusal(a, now, rid, session, verdict).None? && Reached(fault) == PERSIST_STEPS;
  }

  lemma IssuedByLogin(a: State, now: int, aid: Option<Token>, verdict: Option<Passkey>, fault: Option<nat>,
                      token: Token, b: State, t: Token)
    requires LoginFinish(a, now, aid, verdict, fault, token, b, Granted(t))
    ensures t == token && t in b.sessions && b.sessions[t].exp == now + SESSION_TTL
  {
    assert LoginRefusal(a, now, aid, verdict).None?;
  }

  lemma IssuedFor(a: State, e: Event, b: State, reply: Reply, t: Token)
    requires (e.RegFinish? || e.LogFinish?) && Step(a, e, b, reply) && reply == ToFinish(Granted(t))
    ensures t == e.drawn && t in b.sessions && b.sessions[t].exp == e.now + SESSION_TTL
  {
    if e.RegFinish? {
      IssuedByFinish(a, e.now, e.rid, e.session, e.verdict, e.fault, e.drawn, b, t);
    } else {
      IssuedByLogin(a, e.now, e.aid, e.verdict, e.fault, e.drawn, b, t);
    }
  }

  lemma RunIssues(states: seq<State>, events: seq<Event>, replies: seq<Reply>, i: nat, t: Token)
    requires Run(states, events, replies) && i < |events|
    requires (events[i].RegFinish? || events[i].LogFinish?) && replies[i] == ToFinish(Granted(t))
    ensures t in Drawn(events[i]) && t in states[i + 1].sessions
    ensures states[i + 1].sessions[t].exp == events[i].now + SESSION_TTL
  {
    assert Stepped(states, events, replies, i);
    IssuedFor(states[i], events[i], states[i + 1], replies[i], t);
  }

  lemma RunKeepsSession(states: seq<State>, events: seq<Event>, replies: seq<Reply>, j: nat, t: Token)
    requires Run(states, events, replies) && j < |events| && t !in Drawn(events[j])
    ensures t in states[j + 1].sessions ==>
              t in states[j].sessions && states[j + 1].sessions[t] == states[j].sessions[t]
  {
    RunGrows(states, events, replies, j);
  }

  /** A session keeps the expiry it was issued with, twelve hours on, for as long as it is held, so
      it is never accepted at or after that instant. */
  lemma {:induction false} SessionLifetime(states: seq<State>, events: seq<Event>, replies: seq<Reply>, i: nat,
                                           j: nat, t: Token, now: int)
    requires Run(states, events, replies) && FreshIds(events) && i < j <= |events|
    requires events[i].RegFinish? || events[i].LogFinish?
    requires replies[i] == ToFinish(Granted(t))
    ensures t in states[j].sessions ==> states[j].sessions[t].exp == events[i].now + SESSION_TTL
    ensures events[i].now + SESSION_TTL <= now ==> !SignedIn(states[j], Some(t), now)
    decreases j
  {
    RunIssues(states, events, replies, i, t);
    if i + 1 < j {
      SessionLifetime(states, events, replies, i, j - 1, t, now);
      RunKeepsSession(states, events, replies, j - 1, t);
    }
  }

  /** A pending bootstrap ceremony was started by somebody who presented the startup code while
      nobody was enrolled. */
  lemma {:induction false} BootstrapHadCode(states: seq<State>, events: seq<Event>, replies: seq<Reply>, i: nat,
                                            rid: Token) returns (k: nat)
    requires Run(states, events, replies) && i <= |events|
    requires rid in states[i].reg && states[i].reg[rid].state == Bootstrap
    ensures k < i && events[k].RegStart? && events[k].drawn == rid
    ensures states[k].store.passkeys == [] && states[k].bootstrap == Some(events[k].code)
    decreases i
  {
    if i == 0 {
      assert false;
    } else {
      var a, e, b, r := states[i - 1], events[i - 1], states[i], replies[i - 1];
      assert Stepped(states, events, replies, i - 1);
      StepGrows(a, e, b, r);
      if rid in Drawn(e) && e.RegStart? && r.start.CeremonyStarted? {
        k := i - 1;
      } else {
        UndrawnStays(a, e, b, r, rid);
        k := BootstrapHadCode(states, events, replies, i - 1, rid);
      }
    }
  }

  lemma UndrawnStays(a: State, e: Event, b: State, reply: Reply, rid: Token)
    requires Step(a, e, b, reply) && rid in b.reg
    requires !(rid in Drawn(e) && e.RegStart? && reply.start.CeremonyStarted?)
    ensures rid in a.reg && a.reg[rid] == b.reg[rid]
  {
    StepGrows(a, e, b, reply);
  }

  // ---- every authorisation in the log ----

  /** Each entry of the log was handed out by some event of the run. */
  lemma {:induction false} GrantOrigin(states: seq<State>, events: seq<Event>, replies: seq<Reply>,
                                       i: nat) returns (k: nat)
    requires Run(states, events, replies) && i < |LogOf(states, events, replies)|
    ensures k < |events| && LogOf(states, events, replies)[i] in Grants(states[k], events[k], replies[k])
    decreases |events|
  {
    var n := |events| - 1;
    RunFront(states, events, replies);
    var front := LogOf(states[..n + 1], events[..n], replies[..n]);
    if i < |front| {
      k := GrantOrigin(states[..n + 1], events[..n], replies[..n], i);
      assert states[..n + 1][k] == states[k] && events[..n][k] == events[k] && replies[..n][k] == replies[k];
    } else {
      k := n;
    }
  }

  /** In every run, every authorisation in the log was legitimate at the event that gave it, and the
      root redeems the very ceremony whose start presented the startup code while nobody was
      enrolled. */
  lemma {:induction false} EveryGrantIsLegitimate(states: seq<State>, events: seq<Event>, replies: seq<Reply>,
                                                  i: nat) returns (k: nat)
    requires Run(states, events, replies) && i < |LogOf(states, events, replies)|
    ensures k < |events| && LogOf(states, events, replies)[i] in Grants(states[k], events[k], replies[k])
    ensures Legitimate(states[k], events[k], states[k + 1], LogOf(states, events, replies)[i])
    ensures LogOf(states, events, replies)[i].giver.None? ==>
              exists m: nat :: m < k && PresentsCode(states[m], events[m]) && Redeems(events[k], events[m])
  {
    k := GrantOrigin(states, events, replies, i);
    AlwaysConsistent(states, events, replies, k);
    assert Stepped(states, events, replies, k);
    var g := LogOf(states, events, replies)[i];
    GrantsAreLegitimate(states[k], events[k], states[k + 1], replies[k], g);
    if g.giver.None? {
      var m := BootstrapHadCode(states, events, replies, k, events[k].rid.value);
      assert PresentsCode(states[m], events[m]) && Redeems(events[k], events[m]);
    }
  }

  /** `finish` presents the ceremony that `start` drew. */
  ghost predicate Redeems(finish: Event, start: Event) {
    (finish.RegFinish? || finish.CrashInFinish?) && start.RegStart? && finish.rid == Some(start.drawn)
  }

  ghost predicate PresentsCode(a: State, e: Event) {
    e.RegStart? && a.store.passkeys == [] && a.bootstrap == Some(e.code)
  }
}
