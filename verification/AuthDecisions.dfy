/** What the sign-in handlers decide and leave behind, said of the fields themselves: when a ceremony
    starts, when one is granted, what is stored then, and how long a session stays good. */
module AuthDecisions {
  import opened Buckets
  import opened Ceremonies
  import opened Auth
  import opened AuthRuns
  import opened Lineage
  import opened Tokens

  /** The presented session is in the table and expires after `now`. */
  ghost predicate Held(a: State, session: Option<Token>, now: int) {
    session.Some? && session.value in a.sessions && now < a.sessions[session.value].exp
  }

  ghost predicate Enrols(a: State, cred: CredId) {
    exists i :: 0 <= i < |a.store.passkeys| && a.store.passkeys[i].cred == cred
  }

  // ---- starts ----

  /** A start reads a missing file as nobody enrolled, refuses a torn one, and otherwise holds just what
      the file holds; it hands out the given code exactly if nobody is enrolled, and every table is empty. */
  lemma StartLoads(files: Files, code: Token)
    ensures Started(files, code).None? <==> files.main == Torn
    ensures Started(files, code).Some? ==>
              var s := Started(files, code).value;
              && (files.main.Absent? ==> s.store.passkeys == [] && s.store.userId.None?)
              && (files.main.Whole? ==> s.store == files.main.store)
              && s.bootstrap == (if s.store.passkeys == [] then Some(code) else None)
              && s.reg == map[] && s.auth == map[] && s.sessions == map[] && s.files == files
  {
  }

  /** When a registration starts, and why not. */
  lemma RegistrationStarts(a: State, now: int, session: Option<Token>, code: Token, user: UserId, id: Token,
                           library: bool, b: State, reply: StartReply)
    requires RegisterStart(a, now, session, code, user, id, library, b, reply)
    ensures reply.CeremonyStarted? <==>
              && library
              && ((a.store.passkeys == [] && a.bootstrap == Some(code))
                  || (a.store.passkeys != [] && Held(a, session, now)))
    ensures reply == AdminExists <==> a.store.passkeys != [] && !Held(a, session, now)
    ensures reply == EnrolmentClosed <==> a.store.passkeys == [] && a.bootstrap.None?
    ensures reply == CodeRequired <==> a.store.passkeys == [] && a.bootstrap.Some? && a.bootstrap.value != code
  {
  }

  /** A started registration is the one entry added, for 300 seconds, to enrol a first credential or to add
      a device; the user id drawn is kept if none was stored, and only then. */
  lemma StartedRegistration(a: State, now: int, session: Option<Token>, code: Token, user: UserId, id: Token,
                            library: bool, b: State, reply: StartReply)
    requires RegisterStart(a, now, session, code, user, id, library, b, reply)
    ensures b.store.passkeys == a.store.passkeys && b.bootstrap == a.bootstrap && b.files == a.files && b.auth == a.auth
    ensures !reply.CeremonyStarted? ==> b.reg == a.reg && b.store == a.store
    ensures reply.CeremonyStarted? ==>
              && reply.id == id && id in b.reg && b.reg[id].exp == now + 300_000_000_000
              && (b.reg[id].state == AddDevice <==> a.store.passkeys != [])
              && b.store.userId == (if a.store.userId.Some? then a.store.userId else Some(user))
  {
  }

  /** When a login starts: it offers every enrolled credential, for 300 seconds. */
  lemma LoginStarts(a: State, now: int, id: Token, library: bool, b: State, reply: StartReply)
    requires LoginStart(a, now, id, library, b, reply)
    ensures reply.CeremonyStarted? <==> a.store.passkeys != [] && library
    ensures reply == NoAccount <==> a.store.passkeys == []
    ensures b.store == a.store && b.sessions == a.sessions && b.reg == a.reg && b.files == a.files
    ensures reply.CeremonyStarted? ==>
              && reply.id == id && id in b.auth && b.auth[id].exp == now + 300_000_000_000
              && forall c :: c in b.auth[id].state <==> Enrols(a, c)
  {
    CredsEnrolled(a);
  }

  lemma CredsEnrolled(a: State)
    ensures forall c :: c in CredIds(a.store) <==> Enrols(a, c)
  {
    forall c | Enrols(a, c)
      ensures c in CredIds(a.store)
    {
      var i :| 0 <= i < |a.store.passkeys| && a.store.passkeys[i].cred == c;
      assert a.store.passkeys[i] in a.store.passkeys;
    }
  }

  // ---- redemptions ----

  /** The presented ceremony is in the table and expires after `now`. */
  ghost predicate Current<S>(m: Book<S>, id: Option<Token>, now: int) {
    id.Some? && id.value in m && now < m[id.value].exp
  }

  ghost predicate Saves(fault: Option<nat>) {
    fault.None? || 4 <= fault.value
  }

  /** When a redemption is granted, and why not. */
  lemma RedemptionGranted(a: State, now: int, rid: Option<Token>, session: Option<Token>, verdict: Option<Passkey>,
                          fault: Option<nat>, token: Token, b: State, reply: FinishReply)
    requires RegisterFinish(a, now, rid, session, verdict, fault, token, b, reply)
    ensures reply.Granted? <==>
              && Current(a.reg, rid, now) && verdict.Some? && !Enrols(a, verdict.value.cred) && Saves(fault)
              && (a.reg[rid.value].state == Bootstrap ==> a.store.passkeys == [])
              && (a.reg[rid.value].state == AddDevice ==> Held(a, session, now))
    ensures reply == NoCeremony <==> rid.None?
    ensures reply == CeremonyExpired <==> rid.Some? && !Current(a.reg, rid, now)
    ensures reply == Rejected <==> Current(a.reg, rid, now) && verdict.None?
    ensures reply == Forbidden <==>
              && Current(a.reg, rid, now) && verdict.Some?
              && (if a.reg[rid.value].state == Bootstrap then a.store.passkeys != [] else !Held(a, session, now))
  {
    CredsEnrolled(a);
  }

  /** A granted redemption adds the verdict as the last credential, in memory and in the main file, and holds
      the session it reports for twelve hours; any other leaves both lists alone. */
  lemma GrantedRedemption(a: State, now: int, rid: Option<Token>, session: Option<Token>, verdict: Option<Passkey>,
                          fault: Option<nat>, token: Token, b: State, reply: FinishReply)
    requires RegisterFinish(a, now, rid, session, verdict, fault, token, b, reply)
    ensures reply.Granted? ==>
              && verdict.Some? && b.store.passkeys == a.store.passkeys + [verdict.value]
              && b.store.userId == a.store.userId
              && b.files.main == Whole(b.store)
              && token in b.sessions && b.sessions[token].exp == now + 43_200_000_000_000
    ensures !reply.Granted? ==> b.store == a.store && b.files.main == a.files.main && b.bootstrap == a.bootstrap
    ensures rid.Some? ==> rid.value !in b.reg
  {
  }

  /** When a login is granted, and why not. */
  lemma LoginGranted(a: State, now: int, aid: Option<Token>, verdict: Option<Passkey>, fault: Option<nat>, token: Token,
                     b: State, reply: FinishReply)
    requires LoginFinish(a, now, aid, verdict, fault, token, b, reply)
    ensures reply.Granted? <==>
              Current(a.auth, aid, now) && verdict.Some? && verdict.value.cred in a.auth[aid.value].state
    ensures reply == NoCeremony <==> aid.None?
    ensures reply == CeremonyExpired <==> aid.Some? && !Current(a.auth, aid, now)
  {
  }

  /** `after` is `before` with the used credential's passkey replaced wherever it is, and nothing else. */
  ghost predicate Replaced(before: seq<Passkey>, used: Passkey, after: seq<Passkey>) {
    && |after| == |before|
    && forall i :: 0 <= i < |before| ==> after[i] == if before[i].cred == used.cred then used else before[i]
  }

  /** A granted login stores the passkey the library returned, with its counter, over the one that signed and
      changes no other; unless the save failed the main file then holds the same list. */
  lemma GrantedLogin(a: State, now: int, aid: Option<Token>, verdict: Option<Passkey>, fault: Option<nat>, token: Token,
                     b: State, reply: FinishReply)
    requires LoginFinish(a, now, aid, verdict, fault, token, b, reply)
    ensures reply.Granted? ==>
              && verdict.Some? && Replaced(a.store.passkeys, verdict.value, b.store.passkeys)
              && b.store.userId == a.store.userId
              && b.files.main == (if Saves(fault) then Whole(b.store) else a.files.main)
              && token in b.sessions && b.sessions[token].exp == now + 43_200_000_000_000
    ensures !reply.Granted? ==> b.store == a.store && b.files == a.files && b.sessions == a.sessions
    ensures aid.Some? ==> aid.value !in b.auth
  {
  }

  // ---- a stored counter lasts ----

  ghost predicate Has(passkeys: seq<Passkey>, p: Passkey) {
    exists i :: 0 <= i < |passkeys| && passkeys[i] == p
  }

  /** Memory and the main file both hold `p`. */
  ghost predicate Stored(a: State, p: Passkey) {
    Has(a.store.passkeys, p) && a.files.main.Whole? && Has(a.files.main.store.passkeys, p)
  }

  /** The event presents a login signed with the credential. */
  ghost predicate SignsWith(e: Event, cred: CredId) {
    (e.LogFinish? || e.CrashInLogin?) && e.verdict.Some? && e.verdict.value.cred == cred
  }

  lemma ReplacedHas(before: seq<Passkey>, used: Passkey, after: seq<Passkey>, p: Passkey)
    requires Replaced(before, used, after) && Has(before, p) && p.cred != used.cred
    ensures Has(after, p)
  {
    var i :| 0 <= i < |before| && before[i] == p;
    assert after[i] == p;
  }

  lemma PushedHas(before: seq<Passkey>, q: Passkey, p: Passkey)
    requires Has(before, p)
    ensures Has(before + [q], p)
  {
    var i :| 0 <= i < |before| && before[i] == p;
    assert (before + [q])[i] == p;
  }

  lemma LoginStays(a: State, now: int, aid: Option<Token>, verdict: Option<Passkey>, fault: Option<nat>, token: Token,
                   b: State, reply: FinishReply, p: Passkey)
    requires LoginFinish(a, now, aid, verdict, fault, token, b, reply) && Stored(a, p)
    requires verdict.Some? ==> verdict.value.cred != p.cred
    ensures Stored(b, p)
  {
    GrantedLogin(a, now, aid, verdict, fault, token, b, reply);
    if reply.Granted? {
      ReplacedHas(a.store.passkeys, verdict.value, b.store.passkeys, p);
    }
  }

  lemma RedemptionStays(a: State, now: int, rid: Option<Token>, session: Option<Token>, verdict: Option<Passkey>,
                        fault: Option<nat>, token: Token, b: State, reply: FinishReply, p: Passkey)
    requires RegisterFinish(a, now, rid, session, verdict, fault, token, b, reply) && Stored(a, p)
    ensures Stored(b, p)
  {
    GrantedRedemption(a, now, rid, session, verdict, fault, token, b, reply);
    if reply.Granted? {
      PushedHas(a.store.passkeys, verdict.value, p);
    }
  }

  /** A start from a file that holds `p`, or from one a save of a list with `p` left behind. */
  lemma RestartStays(files: Files, c: Option<Credentials>, at: nat, code: Token, b: State, p: Passkey)
    requires files.main.Whole? && Has(files.main.store.passkeys, p)
    requires c.Some? ==> Has(c.value.passkeys, p)
    requires Started(FilesAt(files, c, at), code) == Some(b)
    ensures Stored(b, p)
  {
  }

  lemma CrashStays(a: State, e: Event, b: State, reply: Reply, p: Passkey)
    requires e.Restart? || e.CrashInFinish? || e.CrashInLogin?
    requires Step(a, e, b, reply) && Stored(a, p) && !SignsWith(e, p.cred)
    ensures Stored(b, p)
  {
    match e
    case Restart(_, code) =>
      RestartStays(a.files, None, 0, code, b, p);
    case CrashInFinish(now, rid, session, verdict, at, code) =>
      var c := ToEnrol(a, now, rid, session, verdict);
      if c.Some? {
        PushedHas(a.store.passkeys, verdict.value, p);
      }
      RestartStays(a.files, c, at, code, b, p);
    case CrashInLogin(now, aid, verdict, at, code) =>
      var c := ToCount(a, now, aid, verdict);
      if c.Some? {
        ReplacedHas(a.store.passkeys, verdict.value, c.value.passkeys, p);
      }
      RestartStays(a.files, c, at, code, b, p);
  }

  lemma StepStays(a: State, e: Event, b: State, reply: Reply, p: Passkey)
    requires Step(a, e, b, reply) && Stored(a, p) && !SignsWith(e, p.cred)
    ensures Stored(b, p)
  {
    match e
    case RegStart(now, session, code, user, id, library) =>
      StartedRegistration(a, now, session, code, user, id, library, b, reply.start);
    case RegFinish(now, rid, session, verdict, fault, token) =>
      RedemptionStays(a, now, rid, session, verdict, fault, token, b, reply.finish, p);
    case LogStart(now, id, library) =>
      LoginStarts(a, now, id, library, b, reply.start);
    case LogFinish(now, aid, verdict, fault, token) =>
      LoginStays(a, now, aid, verdict, fault, token, b, reply.finish, p);
    case Check(_, _) =>
    case SignOut(_, _) =>
    case SweepAt(_) =>
    case Restart(_, _) => CrashStays(a, e, b, reply, p);
    case CrashInFinish(_, _, _, _, _, _) => CrashStays(a, e, b, reply, p);
    case CrashInLogin(_, _, _, _, _) => CrashStays(a, e, b, reply, p);
  }

  /** After a login that was granted and saved, memory and disk hold the passkey it presented, counter
      included, in every later state, through crashes and restarts anywhere, until that credential signs
      again. */
  lemma {:induction false} CounterLasts(states: seq<State>, events: seq<Event>, replies: seq<Reply>, i: nat, j: nat)
    requires Run(states, events, replies) && i < j <= |events|
    requires events[i].LogFinish? && replies[i].ToFinish? && replies[i].finish.Granted? && Saves(events[i].fault)
    requires events[i].verdict.Some?
    requires forall k :: i < k < j ==> !SignsWith(events[k], events[i].verdict.value.cred)
    ensures Stored(states[j], events[i].verdict.value)
    decreases j
  {
    var p := events[i].verdict.value;
    if j == i + 1 {
      AlwaysConsistent(states, events, replies, i);
      assert Stepped(states, events, replies, i);
      LoginStores(states[i], events[i], states[i + 1], replies[i]);
    } else {
      CounterLasts(states, events, replies, i, j - 1);
      assert Stepped(states, events, replies, j - 1);
      StepStays(states[j - 1], events[j - 1], states[j], replies[j - 1], p);
    }
  }

  lemma LoginStores(a: State, e: Event, b: State, reply: Reply)
    requires Consistent(a) && Step(a, e, b, reply)
    requires e.LogFinish? && reply.finish.Granted? && Saves(e.fault) && e.verdict.Some?
    ensures Stored(b, e.verdict.value)
  {
    LogFinishKeeps(a, e, b, reply);
    GrantedLogin(a, e.now, e.aid, e.verdict, e.fault, e.drawn, b, reply.finish);
    CredsEnrolled(a);
    var i :| 0 <= i < |a.store.passkeys| && a.store.passkeys[i].cred == e.verdict.value.cred;
    assert b.store.passkeys[i] == e.verdict.value;
  }

  // ---- signing out and sweeping ----

  /** Signing out takes the presented session and no other, with its expiry, and touches nothing else. */
  lemma SignOutIsExact(a: State, session: Option<Token>)
    ensures
      var b := LoggedOut(a, session);
      && (forall t :: t in b.sessions <==> t in a.sessions && session != Some(t))
      && (forall t :: t in b.sessions ==> b.sessions[t] == a.sessions[t])
      && b.store == a.store && b.reg == a.reg && b.auth == a.auth && b.bootstrap == a.bootstrap && b.files == a.files
  {
  }

  /** Exactly the entries that expire after `now` are left, as they were. */
  ghost predicate Unexpired<S>(before: Book<S>, now: int, after: Book<S>) {
    && (forall k :: k in after <==> k in before && now < before[k].exp)
    && forall k :: k in after ==> after[k] == before[k]
  }

  lemma SweepIsExact(a: State, now: int)
    ensures
      var b := Swept(a, now);
      && Unexpired(a.reg, now, b.reg) && Unexpired(a.auth, now, b.auth) && Unexpired(a.sessions, now, b.sessions)
      && b.store == a.store && b.bootstrap == a.bootstrap && b.files == a.files
  {
  }

  // ---- how long a session stays good ----

  ghost predicate Crashes(e: Event) {
    e.Restart? || e.CrashInFinish? || e.CrashInLogin?
  }

  /** The event issues a session while the table is full of sessions that have not expired. */
  ghost predicate Crowds(a: State, e: Event, reply: Reply) {
    && (e.RegFinish? || e.LogFinish?) && reply.ToFinish? && reply.finish.Granted?
    && 1024 <= |Live(a.sessions, e.now)|
  }

  lemma RoomKeeps(m: Book<()>, key: Token, p: Pending<()>, now: int, r: Book<()>, t: Token)
    requires Inserted(m, key, p, now, MAX_SESSIONS, r) && |Live(m, now)| < 1024
    requires t in m && now < m[t].exp && t != key
    ensures t in r && r[t] == m[t]
  {
    NothingEvicted(Live(m, now), r - {key});
    assert t in Live(m, now);
  }

  lemma RedemptionKeepsSession(a: State, now: int, rid: Option<Token>, session: Option<Token>, verdict: Option<Passkey>,
                               fault: Option<nat>, token: Token, b: State, reply: FinishReply, t: Token)
    requires RegisterFinish(a, now, rid, session, verdict, fault, token, b, reply) && token !in a.sessions
    requires t in a.sessions && now < a.sessions[t].exp && (reply.Granted? ==> |Live(a.sessions, now)| < 1024)
    ensures t in b.sessions && b.sessions[t] == a.sessions[t]
  {
    if FinishRefusal(a, now, rid, session, verdict).None? && Reached(fault) == PERSIST_STEPS {
      RoomKeeps(a.sessions, token, Pending((), now + SESSION_TTL), now, b.sessions, t);
    }
  }

  lemma LoginKeepsSession(a: State, now: int, aid: Option<Token>, verdict: Option<Passkey>, fault: Option<nat>,
                          token: Token, b: State, reply: FinishReply, t: Token)
    requires LoginFinish(a, now, aid, verdict, fault, token, b, reply) && token !in a.sessions
    requires t in a.sessions && now < a.sessions[t].exp && (reply.Granted? ==> |Live(a.sessions, now)| < 1024)
    ensures t in b.sessions && b.sessions[t] == a.sessions[t]
  {
    if LoginRefusal(a, now, aid, verdict).None? {
      RoomKeeps(a.sessions, token, Pending((), now + SESSION_TTL), now, b.sessions, t);
    }
  }

  /** No event but its own sign-out, a restart or an issue into a full table takes an unexpired session. */
  lemma StepKeepsSession(a: State, e: Event, b: State, reply: Reply, t: Token)
    requires Step(a, e, b, reply) && t in a.sessions && e.now < a.sessions[t].exp
    requires !Crashes(e) && !Crowds(a, e, reply) && !(e.SignOut? && e.session == Some(t))
    ensures t in b.sessions && b.sessions[t] == a.sessions[t]
  {
    match e
    case RegStart(now, session, code, user, id, library) =>
    case RegFinish(now, rid, session, verdict, fault, token) =>
      RedemptionKeepsSession(a, now, rid, session, verdict, fault, token, b, reply.finish, t);
    case LogStart(now, id, library) =>
    case LogFinish(now, aid, verdict, fault, token) =>
      LoginKeepsSession(a, now, aid, verdict, fault, token, b, reply.finish, t);
    case Check(_, _) =>
    case SignOut(_, session) =>
    case SweepAt(now) =>
  }

  /** Nothing at `k` takes the session: the process lives on, the clock is inside its twelve hours, nobody
      signs it out and nobody is issued another into a full table. */
  ghost predicate Undisturbed(states: seq<State>, events: seq<Event>, replies: seq<Reply>, k: int, t: Token, until: int)
    requires 0 <= k < |events| == |replies| == |states| - 1
  {
    && !Crashes(events[k]) && !Crowds(states[k], events[k], replies[k]) && events[k].now < until
    && !(events[k].SignOut? && events[k].session == Some(t))
  }

  /** A session that was issued is accepted for exactly twelve hours: held undisturbed until then, it is
      good at an instant if and only if that is less than 43,200 seconds after the issue. */
  lemma {:induction false} SessionIsGood(states: seq<State>, events: seq<Event>, replies: seq<Reply>, i: nat, j: nat,
                                         t: Token, until: int, now: int)
    requires Run(states, events, replies) && i < j <= |events|
    requires (events[i].RegFinish? || events[i].LogFinish?) && replies[i] == ToFinish(Granted(t))
    requires until == events[i].now + 43_200_000_000_000
    requires forall k {:trigger Undisturbed(states, events, replies, k, t, until)} :: i < k < j ==>
               Undisturbed(states, events, replies, k, t, until)
    ensures t in states[j].sessions && states[j].sessions[t].exp == until
    ensures Held(states[j], Some(t), now) <==> now < until
    decreases j
  {
    if j == i + 1 {
      assert Stepped(states, events, replies, i);
      Issued(states[i], events[i], states[i + 1], replies[i], t);
    } else {
      SessionIsGood(states, events, replies, i, j - 1, t, until, now);
      UndisturbedKeeps(states, events, replies, j - 1, t, until);
    }
  }

  lemma UndisturbedKeeps(states: seq<State>, events: seq<Event>, replies: seq<Reply>, k: nat, t: Token, until: int)
    requires Run(states, events, replies) && k < |events| && Undisturbed(states, events, replies, k, t, until)
    requires t in states[k].sessions && states[k].sessions[t].exp == until
    ensures t in states[k + 1].sessions && states[k + 1].sessions[t].exp == until
  {
    assert Stepped(states, events, replies, k);
    StepKeepsSession(states[k], events[k], states[k + 1], replies[k], t);
  }

  lemma Issued(a: State, e: Event, b: State, reply: Reply, t: Token)
    requires Step(a, e, b, reply) && (e.RegFinish? || e.LogFinish?) && reply == ToFinish(Granted(t))
    ensures t in b.sessions && b.sessions[t].exp == e.now + 43_200_000_000_000
  {
    if e.RegFinish? {
      GrantedRedemption(a, e.now, e.rid, e.session, e.verdict, e.fault, e.drawn, b, reply.finish);
      DrawnIsGranted(a, e.now, e.rid, e.session, e.verdict, e.fault, e.drawn, b, t);
    } else {
      GrantedLogin(a, e.now, e.aid, e.verdict, e.fault, e.drawn, b, reply.finish);
    }
  }

  lemma DrawnIsGranted(a: State, now: int, rid: Option<Token>, session: Option<Token>, verdict: Option<Passkey>,
                       fault: Option<nat>, token: Token, b: State, t: Token)
    requires RegisterFinish(a, now, rid, session, verdict, fault, token, b, Granted(t))
    ensures t == token
  {
  }

  /** In every state of every run each table holds at most 1024 entries. */
  lemma TablesStaySmall(states: seq<State>, events: seq<Event>, replies: seq<Reply>, i: nat)
    requires Run(states, events, replies) && i <= |events|
    ensures |states[i].sessions| <= 1024 && |states[i].reg| <= 1024 && |states[i].auth| <= 1024
  {
    AlwaysConsistent(states, events, replies, i);
  }

  // ---- how long a ceremony stays redeemable ----

  lemma CeremonyFits<S>(m: Book<S>, key: Token, p: Pending<S>, now: int, r: Book<S>, t: Token)
    requires Inserted(m, key, p, now, MAX_CEREMONIES, r) && |Live(m, now)| < 1024
    requires t in m && now < m[t].exp && t != key
    ensures t in r && r[t] == m[t]
  {
    NothingEvicted(Live(m, now), r - {key});
    assert t in Live(m, now);
  }

  lemma StartKeepsRegistration(a: State, now: int, session: Option<Token>, code: Token, user: UserId, id: Token,
                               library: bool, b: State, reply: StartReply, t: Token)
    requires RegisterStart(a, now, session, code, user, id, library, b, reply) && id !in a.reg
    requires t in a.reg && now < a.reg[t].exp && |Live(a.reg, now)| < 1024
    ensures t in b.reg && b.reg[t] == a.reg[t]
  {
    if StartRefusal(a, now, session, code, library).None? {
      CeremonyFits(a.reg, id, Pending(StartMode(a), now + CEREMONY_TTL), now, b.reg, t);
    }
  }

  lemma FinishKeepsRegistration(a: State, now: int, rid: Option<Token>, session: Option<Token>,
                                verdict: Option<Passkey>, fault: Option<nat>, token: Token, b: State,
                                reply: FinishReply, t: Token)
    requires RegisterFinish(a, now, rid, session, verdict, fault, token, b, reply) && t in a.reg && rid != Some(t)
    requires !(reply.Granted? && rid.Some? && rid.value in a.reg && a.reg[rid.value].state == Bootstrap)
    ensures t in b.reg && b.reg[t] == a.reg[t]
  {
  }

  lemma LoginStartKeepsLogin(a: State, now: int, id: Token, library: bool, b: State, reply: StartReply, t: Token)
    requires LoginStart(a, now, id, library, b, reply) && id !in a.auth
    requires t in a.auth && now < a.auth[t].exp && |Live(a.auth, now)| < 1024
    ensures t in b.auth && b.auth[t] == a.auth[t]
  {
    if reply.CeremonyStarted? {
      CeremonyFits(a.auth, id, Pending(CredIds(a.store), now + CEREMONY_TTL), now, b.auth, t);
    }
  }

  lemma LoginKeepsLogin(a: State, now: int, aid: Option<Token>, verdict: Option<Passkey>, fault: Option<nat>,
                        token: Token, b: State, reply: FinishReply, t: Token)
    requires LoginFinish(a, now, aid, verdict, fault, token, b, reply) && t in a.auth && aid != Some(t)
    ensures t in b.auth && b.auth[t] == a.auth[t]
  {
  }

  /** No event but its own redemption, a granted bootstrap, a restart or a start into a full table takes an
      unexpired registration. */
  lemma StepKeepsRegistration(a: State, e: Event, b: State, reply: Reply, t: Token)
    requires Step(a, e, b, reply) && t in a.reg && e.now < a.reg[t].exp
    requires !Crashes(e) && !(e.RegFinish? && e.rid == Some(t)) && (e.RegStart? ==> |Live(a.reg, e.now)| < 1024)
    requires !(e.RegFinish? && reply.finish.Granted? && e.rid.Some? && e.rid.value in a.reg
               && a.reg[e.rid.value].state == Bootstrap)
    ensures t in b.reg && b.reg[t] == a.reg[t]
  {
    if e.RegStart? {
      StartKeepsRegistration(a, e.now, e.session, e.code, e.user, e.drawn, e.library, b, reply.start, t);
    } else if e.RegFinish? {
      FinishKeepsRegistration(a, e.now, e.rid, e.session, e.verdict, e.fault, e.drawn, b, reply.finish, t);
    } else if e.LogStart? {
      LoginStarts(a, e.now, e.drawn, e.library, b, reply.start);
    } else if e.LogFinish? {
      LoginGrows(a, e.now, e.aid, e.verdict, e.fault, e.drawn, b, reply.finish);
    } else {
      OtherTables(a, e, b, reply);
    }
  }

  /** No event but its own redemption, a restart or a start into a full table takes an unexpired login. */
  lemma StepKeepsLogin(a: State, e: Event, b: State, reply: Reply, t: Token)
    requires Step(a, e, b, reply) && t in a.auth && e.now < a.auth[t].exp
    requires !Crashes(e) && !(e.LogFinish? && e.aid == Some(t)) && (e.LogStart? ==> |Live(a.auth, e.now)| < 1024)
    ensures t in b.auth && b.auth[t] == a.auth[t]
  {
    if e.RegStart? {
      StartGrows(a, e.now, e.session, e.code, e.user, e.drawn, e.library, b, reply.start);
    } else if e.RegFinish? {
      FinishGrows(a, e.now, e.rid, e.session, e.verdict, e.fault, e.drawn, b, reply.finish);
    } else if e.LogStart? {
      LoginStartKeepsLogin(a, e.now, e.drawn, e.library, b, reply.start, t);
    } else if e.LogFinish? {
      LoginKeepsLogin(a, e.now, e.aid, e.verdict, e.fault, e.drawn, b, reply.finish, t);
    } else {
      OtherTables(a, e, b, reply);
    }
  }

  lemma OtherTables(a: State, e: Event, b: State, reply: Reply)
    requires e.Check? || e.SignOut? || e.SweepAt?
    requires Step(a, e, b, reply)
    ensures forall t :: t in a.reg && e.now < a.reg[t].exp ==> t in b.reg && b.reg[t] == a.reg[t]
    ensures forall t :: t in a.auth && e.now < a.auth[t].exp ==> t in b.auth && b.auth[t] == a.auth[t]
  {
    match e
    case Check(_, _) =>
    case SignOut(_, _) =>
    case SweepAt(_) =>
  }
}
