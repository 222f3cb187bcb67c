/** Sweeping expired entries, at any moments, changes no reply. */
module Sweeping {
  import opened Buckets
  import opened Ceremonies
  import opened Auth
  import opened AuthRuns
  import opened Tokens

  /** The two processes differ at most in entries that have expired by `now`. */
  ghost predicate Same(a: State, b: State, now: int) {
    && a.store == b.store && a.bootstrap == b.bootstrap && a.files == b.files
    && Live(a.reg, now) == Live(b.reg, now)
    && Live(a.auth, now) == Live(b.auth, now)
    && Live(a.sessions, now) == Live(b.sessions, now)
  }

  lemma LiveLater<S>(a: Book<S>, b: Book<S>, now: int, later: int)
    requires Live(a, now) == Live(b, now) && now <= later
    ensures Live(a, later) == Live(b, later)
  {
    assert Live(a, later) == Live(Live(a, now), later);
    assert Live(b, later) == Live(Live(b, now), later);
  }

  lemma SameLater(a: State, b: State, now: int, later: int)
    requires Same(a, b, now) && now <= later
    ensures Same(a, b, later)
  {
    LiveLater(a.reg, b.reg, now, later);
    LiveLater(a.auth, b.auth, now, later);
    LiveLater(a.sessions, b.sessions, now, later);
  }

  lemma LiveTwice<S>(m: Book<S>, now: int)
    ensures Live(Live(m, now), now) == Live(m, now)
  {
  }

  lemma SweptSame(a: State, b: State, now: int)
    requires Same(a, b, now)
    ensures Same(Swept(a, now), b, now) && Same(a, Swept(b, now), now) && Same(Swept(a, now), Swept(b, now), now)
  {
    LiveTwice(a.reg, now);
    LiveTwice(a.auth, now);
    LiveTwice(a.sessions, now);
    LiveTwice(b.reg, now);
    LiveTwice(b.auth, now);
    LiveTwice(b.sessions, now);
  }

  lemma LiveWithout<S>(m: Book<S>, id: Option<Token>, now: int)
    ensures Live(Without(m, id), now) == Without(Live(m, now), id)
  {
  }

  lemma LiveChecked(m: Book<()>, session: Option<Token>, now: int)
    ensures Live(Checked(m, session, now), now) == Live(m, now)
  {
  }

  lemma SameRedeemed<S>(a: Book<S>, b: Book<S>, id: Option<Token>, now: int)
    requires Live(a, now) == Live(b, now)
    ensures Redeemed(a, id, now) == Redeemed(b, id, now)
  {
    if id.Some? {
      assert id.value in Live(a, now) <==> id.value in Live(b, now);
    }
  }

  lemma SameSignedIn(a: State, b: State, session: Option<Token>, now: int)
    requires Same(a, b, now)
    ensures SignedIn(a, session, now) <==> SignedIn(b, session, now)
  {
    if session.Some? {
      assert session.value in Live(a.sessions, now) <==> session.value in Live(b.sessions, now);
    }
  }

  /** The id an event draws is in none of `b`'s tables. */
  ghost predicate FreshFor(b: State, e: Event) {
    Drawn(e) !! b.reg.Keys && Drawn(e) !! b.auth.Keys && Drawn(e) !! b.sessions.Keys
  }

  lemma SameStartRefusal(a: State, b: State, now: int, session: Option<Token>, code: Token, library: bool)
    requires Same(a, b, now)
    ensures StartRefusal(a, now, session, code, library) == StartRefusal(b, now, session, code, library)
  {
    SameSignedIn(a, b, session, now);
  }

  lemma MirrorStart(a: State, now: int, session: Option<Token>, code: Token, user: UserId, id: Token, library: bool,
                    a': State, reply: StartReply, b: State) returns (b': State)
    requires Same(a, b, now) && RegisterStart(a, now, session, code, user, id, library, a', reply)
    ensures RegisterStart(b, now, session, code, user, id, library, b', reply) && Same(a', b', now)
  {
    SameStartRefusal(a, b, now, session, code, library);
    LiveChecked(a.sessions, session, now);
    LiveChecked(b.sessions, session, now);
    b' := b.(sessions := Checked(b.sessions, session, now));
    if StartRefusal(a, now, session, code, library).None? {
      b' := b'.(store := a'.store, reg := a'.reg);
    }
  }

  lemma MirrorLoginStart(a: State, now: int, id: Token, library: bool, a': State, reply: StartReply,
                         b: State) returns (b': State)
    requires Same(a, b, now) && LoginStart(a, now, id, library, a', reply)
    ensures LoginStart(b, now, id, library, b', reply) && Same(a', b', now)
  {
    b' := if reply.CeremonyStarted? then b.(auth := a'.auth) else b;
  }

  lemma SameFinishRefusal(a: State, b: State, now: int, rid: Option<Token>, session: Option<Token>,
                          verdict: Option<Passkey>)
    requires Same(a, b, now)
    ensures FinishRefusal(a, now, rid, session, verdict) == FinishRefusal(b, now, rid, session, verdict)
    ensures Redeemed(a.reg, rid, now) == Redeemed(b.reg, rid, now)
  {
    SameRedeemed(a.reg, b.reg, rid, now);
    SameSignedIn(a, b, session, now);
  }

  lemma MirrorEnrolled(a: State, now: int, rid: Option<Token>, mode: RegMode, p: Passkey, token: Token, a': State,
                       b: State) returns (b': State)
    requires Same(a, b, now) && EnrolledState(a, now, rid, mode, p, token, a')
    ensures EnrolledState(b, now, rid, mode, p, token, b') && Same(a', b', now)
  {
    LiveWithout(a.reg, rid, now);
    LiveWithout(b.reg, rid, now);
    b' := a'.(reg := if mode == Bootstrap then map[] else Without(b.reg, rid), auth := b.auth);
  }

  lemma MirrorTaken(a: State, b: State, now: int, rid: Option<Token>, session: Option<Token>, refusal: FinishReply,
                    files: Files)
    requires Same(a, b, now)
    ensures
      Same(a.(reg := Without(a.reg, rid), sessions := SessionsAfter(a, now, rid, session, refusal), files := files),
           b.(reg := Without(b.reg, rid), sessions := SessionsAfter(b, now, rid, session, refusal), files := files),
           now)
  {
    SameRedeemed(a.reg, b.reg, rid, now);
    LiveWithout(a.reg, rid, now);
    LiveWithout(b.reg, rid, now);
    LiveChecked(a.sessions, session, now);
    LiveChecked(b.sessions, session, now);
  }

  lemma MirrorFinish(a: State, now: int, rid: Option<Token>, session: Option<Token>, verdict: Option<Passkey>,
                     fault: Option<nat>, token: Token, a': State, reply: FinishReply, b: State) returns (b': State)
    requires Same(a, b, now) && RegisterFinish(a, now, rid, session, verdict, fault, token, a', reply)
    ensures RegisterFinish(b, now, rid, session, verdict, fault, token, b', reply) && Same(a', b', now)
  {
    SameFinishRefusal(a, b, now, rid, session, verdict);
    var refusal := FinishRefusal(a, now, rid, session, verdict);
    if refusal.Some? {
      MirrorTaken(a, b, now, rid, session, refusal.value, a.files);
      b' := b.(reg := Without(b.reg, rid), sessions := SessionsAfter(b, now, rid, session, refusal.value));
    } else if Reached(fault) < PERSIST_STEPS {
      MirrorTaken(a, b, now, rid, session, NotSaved, a'.files);
      b' := b.(reg := Without(b.reg, rid), files := a'.files);
    } else {
      b' := MirrorEnrolled(a, now, rid, Redeemed(a.reg, rid, now).value, verdict.value, token, a', b);
    }
  }

  lemma MirrorLoggedIn(a: State, now: int, aid: Option<Token>, used: Passkey, fault: Option<nat>, token: Token,
                       a': State, b: State) returns (b': State)
    requires Same(a, b, now) && LoggedInState(a, now, aid, used, fault, token, a')
    ensures LoggedInState(b, now, aid, used, fault, token, b') && Same(a', b', now)
  {
    LiveWithout(a.auth, aid, now);
    LiveWithout(b.auth, aid, now);
    b' := a'.(reg := b.reg, auth := Without(b.auth, aid));
  }

  lemma SameLoginRefusal(a: State, b: State, now: int, aid: Option<Token>, verdict: Option<Passkey>)
    requires Same(a, b, now)
    ensures LoginRefusal(a, now, aid, verdict) == LoginRefusal(b, now, aid, verdict)
  {
    SameRedeemed(a.auth, b.auth, aid, now);
  }

  lemma MirrorNoLogin(a: State, now: int, aid: Option<Token>, b: State)
    requires Same(a, b, now)
    ensures Same(a.(auth := Without(a.auth, aid)), b.(auth := Without(b.auth, aid)), now)
  {
    LiveWithout(a.auth, aid, now);
    LiveWithout(b.auth, aid, now);
  }

  lemma MirrorLogin(a: State, now: int, aid: Option<Token>, verdict: Option<Passkey>, fault: Option<nat>, token: Token,
                    a': State, reply: FinishReply, b: State) returns (b': State)
    requires Same(a, b, now) && LoginFinish(a, now, aid, verdict, fault, token, a', reply)
    ensures LoginFinish(b, now, aid, verdict, fault, token, b', reply) && Same(a', b', now)
  {
    SameLoginRefusal(a, b, now, aid, verdict);
    if LoginRefusal(a, now, aid, verdict).None? {
      b' := MirrorLoggedIn(a, now, aid, verdict.value, fault, token, a', b);
    } else {
      MirrorNoLogin(a, now, aid, b);
      b' := b.(auth := Without(b.auth, aid));
    }
  }

  lemma MirrorOther(a: State, e: Event, a': State, reply: Reply, b: State, now: int) returns (b': State)
    requires e.Check? || e.SignOut? || e.SweepAt? || e.Restart? || e.CrashInFinish? || e.CrashInLogin?
    requires Same(a, b, now) && e.now == now && Step(a, e, a', reply)
    ensures Step(b, e, b', reply) && Same(a', b', now)
  {
    match e
    case Check(_, session) =>
      SameSignedIn(a, b, session, now);
      LiveChecked(a.sessions, session, now);
      LiveChecked(b.sessions, session, now);
      b' := b.(sessions := Checked(b.sessions, session, now));
    case SignOut(_, session) =>
      LiveWithout(a.sessions, session, now);
      LiveWithout(b.sessions, session, now);
      b' := LoggedOut(b, session);
    case SweepAt(_) =>
      SweptSame(a, b, now);
      b' := Swept(b, now);
    case Restart(_, _) =>
      b' := a';
    case CrashInFinish(_, rid, session, _, _, _) =>
      SameRedeemed(a.reg, b.reg, rid, now);
      SameSignedIn(a, b, session, now);
      b' := a';
    case CrashInLogin(_, aid, _, _, _) =>
      SameRedeemed(a.auth, b.auth, aid, now);
      b' := a';
  }

  /** Processes that agree on everything unexpired give the same reply to every event and still agree
      afterwards, evictions at capacity included. */
  lemma Mirror(a: State, e: Event, a': State, reply: Reply, b: State, now: int) returns (b': State)
    requires Same(a, b, now) && now <= e.now && Step(a, e, a', reply) && FreshFor(b, e)
    ensures Step(b, e, b', reply) && Same(a', b', e.now)
  {
    SameLater(a, b, now, e.now);
    match e
    case RegStart(t, session, code, user, id, library) =>
      b' := MirrorStart(a, t, session, code, user, id, library, a', reply.start, b);
    case RegFinish(t, rid, session, verdict, fault, token) =>
      b' := MirrorFinish(a, t, rid, session, verdict, fault, token, a', reply.finish, b);
    case LogStart(t, id, library) =>
      b' := MirrorLoginStart(a, t, id, library, a', reply.start, b);
    case LogFinish(t, aid, verdict, fault, token) =>
      b' := MirrorLogin(a, t, aid, verdict, fault, token, a', reply.finish, b);
    case _ =>
      b' := MirrorOther(a, e, a', reply, b, e.now);
  }

  // ---- whole runs ----

  /** `events` played from `a` get `replies` and end in `b`. */
  ghost predicate Plays(a: State, events: seq<Event>, replies: seq<Reply>, b: State)
    decreases |events|
  {
    if events == [] then replies == [] && b == a
    else
      && replies != []
      && exists mid :: Step(a, events[0], mid, replies[0]) && Plays(mid, events[1..], replies[1..], b)
  }

  /** The clock does not go back. */
  ghost predicate Ticking(events: seq<Event>, now: int)
    decreases |events|
  {
    events == [] || (now <= events[0].now && Ticking(events[1..], events[0].now))
  }

  /** The events that are not sweeps, and the replies to them. */
  function Calls(events: seq<Event>): seq<Event>
    decreases |events|
  {
    if events == [] then []
    else if events[0].SweepAt? then Calls(events[1..])
    else [events[0]] + Calls(events[1..])
  }

  function Heard(events: seq<Event>, replies: seq<Reply>): seq<Reply>
    requires |events| == |replies|
    decreases |events|
  {
    if events == [] then []
    else if events[0].SweepAt? then Heard(events[1..], replies[1..])
    else [replies[0]] + Heard(events[1..], replies[1..])
  }

  lemma {:induction false} PlaysLength(a: State, events: seq<Event>, replies: seq<Reply>, b: State)
    requires Plays(a, events, replies, b)
    ensures |replies| == |events|
    decreases |events|
  {
    if events != [] {
      var mid :| Step(a, events[0], mid, replies[0]) && Plays(mid, events[1..], replies[1..], b);
      PlaysLength(mid, events[1..], replies[1..], b);
    }
  }

  /** No event draws an id that is in use or that another event draws. */
  ghost predicate Unused(b: State, events: seq<Event>) {
    FreshIds(events) && forall i :: 0 <= i < |events| ==> FreshFor(b, events[i])
  }

  lemma UnusedAfter(b: State, e: Event, b': State, reply: Reply, rest: seq<Event>)
    requires Unused(b, [e] + rest) && Step(b, e, b', reply)
    ensures Unused(b', rest)
  {
    var all := [e] + rest;
    StepGrows(b, e, b', reply);
    forall i, j, t | 0 <= i < j < |rest| && t in Drawn(rest[i])
      ensures t !in Drawn(rest[j])
    {
      assert rest[i] == all[i + 1] && rest[j] == all[j + 1];
    }
    forall i | 0 <= i < |rest|
      ensures FreshFor(b', rest[i])
    {
      assert all[0] == e && rest[i] == all[i + 1];
      assert FreshFor(b, rest[i]);
      assert forall t :: t in Drawn(e) ==> t !in Drawn(rest[i]);
    }
  }

  lemma PlaysCons(a: State, e: Event, mid: State, reply: Reply, events: seq<Event>, replies: seq<Reply>, b: State)
    requires Step(a, e, mid, reply) && Plays(mid, events, replies, b)
    ensures Plays(a, [e] + events, [reply] + replies, b)
  {
    assert ([e] + events)[1..] == events && ([reply] + replies)[1..] == replies;
  }

  /** The right-hand process is swept. */
  lemma SweepRight(a: State, b: State, other: seq<Event>, now: int, since: int) returns (mid: State)
    requires other != [] && other[0].SweepAt? && Ticking(other, since)
    requires Same(a, b, Max(now, since)) && Unused(b, other)
    ensures Step(b, other[0], mid, Silent) && Ticking(other[1..], other[0].now)
    ensures Same(a, mid, Max(now, other[0].now)) && Unused(mid, other[1..])
    ensures Calls(other[1..]) == Calls(other)
  {
    var t := other[0].now;
    mid := Swept(b, t);
    SameLater(a, b, Max(now, since), Max(now, t));
    SweptEarlier(a, b, t, Max(now, t));
    assert other == [other[0]] + other[1..];
    UnusedAfter(b, other[0], mid, Silent, other[1..]);
  }

  /** The left-hand process is swept. */
  lemma SweepLeft(a: State, b: State, events: seq<Event>, replies: seq<Reply>, a': State, now: int, since: int)
    returns (mid: State)
    requires events != [] && events[0].SweepAt? && Ticking(events, now) && |replies| == |events|
    requires Plays(a, events, replies, a') && Same(a, b, Max(now, since))
    ensures Plays(mid, events[1..], replies[1..], a') && Ticking(events[1..], events[0].now)
    ensures Same(mid, b, Max(events[0].now, since))
    ensures Calls(events[1..]) == Calls(events) && Heard(events[1..], replies[1..]) == Heard(events, replies)
  {
    var t := events[0].now;
    mid :| Step(a, events[0], mid, replies[0]) && Plays(mid, events[1..], replies[1..], a');
    SameLater(a, b, Max(now, since), Max(t, since));
    SweptEarlierLeft(a, b, t, Max(t, since));
  }

  /** Both get the same call. */
  lemma BothCalled(a: State, b: State, events: seq<Event>, replies: seq<Reply>, a': State, other: seq<Event>, now: int,
                   since: int)
    returns (mid: State, next: State)
    requires events != [] && !events[0].SweepAt? && Ticking(events, now) && |replies| == |events|
    requires other == [] || !other[0].SweepAt?
    requires Ticking(other, since) && Calls(other) == Calls(events)
    requires Plays(a, events, replies, a') && Same(a, b, Max(now, since)) && Unused(b, other)
    ensures other != [] && other[0] == events[0] && Step(b, other[0], next, replies[0])
    ensures Plays(mid, events[1..], replies[1..], a') && Same(mid, next, events[0].now) && Unused(next, other[1..])
    ensures Ticking(events[1..], events[0].now) && Ticking(other[1..], events[0].now)
    ensures Calls(other[1..]) == Calls(events[1..])
  {
    var e := events[0];
    HeadCall(events, other);
    mid :| Step(a, e, mid, replies[0]) && Plays(mid, events[1..], replies[1..], a');
    assert FreshFor(b, other[0]);
    next := Mirror(a, e, mid, replies[0], b, Max(now, since));
    assert other == [e] + other[1..];
    UnusedAfter(b, e, next, replies[0], other[1..]);
  }

  /** Put a first event in front of what was played and heard. */
  lemma PlaysMore(b: State, other: seq<Event>, mid: State, reply: Reply, rest: seq<Reply>, b': State)
    requires other != [] && Step(b, other[0], mid, reply)
    requires Plays(mid, other[1..], rest, b') && |rest| == |other| - 1
    ensures Plays(b, other, [reply] + rest, b')
    ensures Heard(other, [reply] + rest) == (if other[0].SweepAt? then [] else [reply]) + Heard(other[1..], rest)
  {
    assert other == [other[0]] + other[1..];
    PlaysCons(b, other[0], mid, reply, other[1..], rest, b');
    assert ([reply] + rest)[1..] == rest;
  }

  /** Two processes that agree on everything unexpired give the same replies to the same calls, no
      matter when either of them is swept. In particular a process that is never swept and one that
      is swept at any moments cannot be told apart. */
  lemma {:induction false} SweepingIsUnobservable(a: State, events: seq<Event>, replies: seq<Reply>, a': State,
                                                  now: int, b: State, other: seq<Event>, since: int)
    returns (replies': seq<Reply>, b': State)
    requires Plays(a, events, replies, a') && Ticking(events, now) && |replies| == |events|
    requires Ticking(other, since) && Calls(other) == Calls(events)
    requires Same(a, b, Max(now, since)) && Unused(b, other)
    ensures Plays(b, other, replies', b') && |replies'| == |other|
    ensures Heard(other, replies') == Heard(events, replies)
    decreases |events| + |other|
  {
    if other != [] && other[0].SweepAt? {
      var mid := SweepRight(a, b, other, now, since);
      var rest;
      rest, b' := SweepingIsUnobservable(a, events, replies, a', now, mid, other[1..], other[0].now);
      replies' := [Silent] + rest;
      PlaysMore(b, other, mid, Silent, rest, b');
    } else if events != [] && events[0].SweepAt? {
      var mid := SweepLeft(a, b, events, replies, a', now, since);
      replies', b' := SweepingIsUnobservable(mid, events[1..], replies[1..], a', events[0].now, b, other, since);
    } else if events != [] {
      var t := events[0].now;
      var mid, next := BothCalled(a, b, events, replies, a', other, now, since);
      var rest;
      rest, b' := SweepingIsUnobservable(mid, events[1..], replies[1..], a', t, next, other[1..], t);
      replies' := [replies[0]] + rest;
      PlaysMore(b, other, next, replies[0], rest, b');
    } else {
      HeadNone(other);
      replies', b' := [], b;
    }
  }

  lemma HeadCall(events: seq<Event>, other: seq<Event>)
    requires events != [] && !events[0].SweepAt? && Calls(other) == Calls(events)
    requires other == [] || !other[0].SweepAt?
    ensures other != [] && other[0] == events[0] && Calls(other[1..]) == Calls(events[1..])
  {
    assert Calls(events) == [events[0]] + Calls(events[1..]);
    assert Calls(events)[0] == events[0] && Calls(events)[1..] == Calls(events[1..]);
    if other != [] {
      assert Calls(other) == [other[0]] + Calls(other[1..]);
      assert Calls(other)[0] == other[0] && Calls(other)[1..] == Calls(other[1..]);
    }
  }

  lemma HeadNone(other: seq<Event>)
    requires Calls(other) == [] && (other == [] || !other[0].SweepAt?)
    ensures other == []
  {
  }

  lemma LiveEarlier<S>(m: Book<S>, t: int, now: int)
    requires t <= now
    ensures Live(Live(m, t), now) == Live(m, now)
  {
  }

  lemma SweptEarlier(a: State, b: State, t: int, now: int)
    requires Same(a, b, now) && t <= now
    ensures Same(a, Swept(b, t), now)
  {
    LiveEarlier(b.reg, t, now);
    LiveEarlier(b.auth, t, now);
    LiveEarlier(b.sessions, t, now);
  }

  lemma SweptEarlierLeft(a: State, b: State, t: int, now: int)
    requires Same(a, b, now) && t <= now
    ensures Same(Swept(a, t), b, now)
  {
    SweptEarlier(b, a, t, now);
  }
}
