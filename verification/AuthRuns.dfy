/** Runs of whole handlers with crashes and restarts: what every state keeps, durability of an
    enrolment, and where every credential and session comes from. */
module AuthRuns {
  import opened Buckets
  import opened Ceremonies
  import opened Auth

  datatype Event =
    | RegStart(now: int, session: Option<Token>, code: Token, user: UserId, drawn: Token, library: bool)
    | RegFinish(now: int, rid: Option<Token>, session: Option<Token>, verdict: Option<Passkey>, fault: Option<nat>,
                drawn: Token)
    | LogStart(now: int, drawn: Token, library: bool)
    | LogFinish(now: int, aid: Option<Token>, verdict: Option<Passkey>, fault: Option<nat>, drawn: Token)
    | Check(now: int, session: Option<Token>)
    | SignOut(now: int, session: Option<Token>)
    | SweepAt(now: int)
    | Restart(now: int, code: Token)
    | CrashInFinish(now: int, rid: Option<Token>, session: Option<Token>, verdict: Option<Passkey>, at: nat,
                    code: Token)
    | CrashInLogin(now: int, aid: Option<Token>, verdict: Option<Passkey>, at: nat, code: Token)

  datatype Reply = ToStart(start: StartReply) | ToFinish(finish: FinishReply) | Valid(ok: bool) | Silent

  /** The store a redemption is about to persist, if it gets that far. */
  ghost function ToEnrol(a: State, now: int, rid: Option<Token>, session: Option<Token>,
                         verdict: Option<Passkey>): Option<Credentials> {
    if FinishRefusal(a, now, rid, session, verdict).None? then Some(With(a.store, verdict.value)) else None
  }

  ghost function ToCount(a: State, now: int, aid: Option<Token>, verdict: Option<Passkey>): Option<Credentials> {
    if LoginRefusal(a, now, aid, verdict).None? then Some(Counted(a.store, verdict.value)) else None
  }

  /** The files a process leaves if it dies after `at` steps of saving `c`. */
  function FilesAt(f: Files, c: Option<Credentials>, at: nat): Files {
    if c.None? then f else Persisted(f, c.value, Min(at, PERSIST_STEPS))
  }

  /** One event. Ids drawn at random are not in use; a start after a crash succeeds. */
  ghost predicate Step(a: State, e: Event, b: State, reply: Reply) {
    match e
    case RegStart(now, session, code, user, rid, library) =>
      rid !in a.reg && reply.ToStart? && RegisterStart(a, now, session, code, user, rid, library, b, reply.start)
    case RegFinish(now, rid, session, verdict, fault, token) =>
      && token !in a.sessions && reply.ToFinish?
      && RegisterFinish(a, now, rid, session, verdict, fault, token, b, reply.finish)
    case LogStart(now, aid, library) =>
      aid !in a.auth && reply.ToStart? && LoginStart(a, now, aid, library, b, reply.start)
    case LogFinish(now, aid, verdict, fault, token) =>
      token !in a.sessions && reply.ToFinish? && LoginFinish(a, now, aid, verdict, fault, token, b, reply.finish)
    case Check(now, session) =>
      b == a.(sessions := Checked(a.sessions, session, now)) && reply == Valid(SignedIn(a, session, now))
    case SignOut(_, session) =>
      b == LoggedOut(a, session) && reply == Silent
    case SweepAt(now) =>
      b == Swept(a, now) && reply == Silent
    case Restart(_, code) =>
      Started(a.files, code) == Some(b) && reply == Silent
    case CrashInFinish(now, rid, session, verdict, at, code) =>
      Started(FilesAt(a.files, ToEnrol(a, now, rid, session, verdict), at), code) == Some(b) && reply == Silent
    case CrashInLogin(now, aid, verdict, at, code) =>
      Started(FilesAt(a.files, ToCount(a, now, aid, verdict), at), code) == Some(b) && reply == Silent
  }

  // ---- what every state keeps ----

  function CredList(passkeys: seq<Passkey>): seq<CredId> {
    seq(|passkeys|, i requires 0 <= i < |passkeys| => passkeys[i].cred)
  }

  ghost predicate Distinct(ids: seq<CredId>) {
    forall i, j :: 0 <= i < j < |ids| ==> ids[i] != ids[j]
  }

  /** The code exists exactly while nobody is enrolled, no bootstrap ceremony is pending once
      somebody is, credentials are distinct, memory and disk hold the same credentials, pending
      logins offer only enrolled credentials, nobody is signed in before an enrolment, and no
      table exceeds its cap. */
  ghost predicate Consistent(a: State) {
    && (a.bootstrap.Some? <==> a.store.passkeys == [])
    && (a.store.passkeys != [] ==> forall r :: r in a.reg ==> a.reg[r].state != Bootstrap)
    && Distinct(CredList(a.store.passkeys))
    && Load(a.files.main).Some?
    && CredList(Load(a.files.main).value.passkeys) == CredList(a.store.passkeys)
    && (forall l :: l in a.auth ==> a.auth[l].state <= CredIds(a.store))
    && (a.store.passkeys == [] ==> a.sessions == map[])
    && |a.reg| <= MAX_CEREMONIES && |a.auth| <= MAX_CEREMONIES && |a.sessions| <= MAX_SESSIONS
  }

  lemma CredsOfList(c: Credentials, d: Credentials)
    requires CredList(c.passkeys) == CredList(d.passkeys)
    ensures CredIds(c) == CredIds(d)
    ensures c.passkeys == [] <==> d.passkeys == []
  {
    CredIdsAre(c);
    CredIdsAre(d);
    assert |CredList(c.passkeys)| == |c.passkeys| && |CredList(d.passkeys)| == |d.passkeys|;
  }

  lemma CredIdsAre(c: Credentials)
    ensures forall x :: x in CredIds(c) <==> x in CredList(c.passkeys)
  {
    forall x | x in CredIds(c)
      ensures x in CredList(c.passkeys)
    {
      var i :| 0 <= i < |c.passkeys| && c.passkeys[i].cred == x;
      assert CredList(c.passkeys)[i] == x;
    }
    forall x | x in CredList(c.passkeys)
      ensures x in CredIds(c)
    {
      var i :| 0 <= i < |c.passkeys| && CredList(c.passkeys)[i] == x;
      assert c.passkeys[i] in c.passkeys;
    }
  }

  lemma InsertedSize<S>(m: Book<S>, key: Token, p: Pending<S>, now: int, cap: nat, r: Book<S>)
    requires Inserted(m, key, p, now, cap, r)
    ensures |r| <= cap
  {
    RemoveSize(r, key);
  }

  lemma WithoutSize<S>(m: Book<S>, id: Option<Token>)
    ensures |Without(m, id)| <= |m|
  {
    SmallerSet(Without(m, id).Keys, m.Keys);
    assert |Without(m, id)| == |Without(m, id).Keys| && |m| == |m.Keys|;
  }

  lemma CheckedSize(sessions: Book<()>, session: Option<Token>, now: int)
    ensures |Checked(sessions, session, now)| <= |sessions|
  {
    WithoutSize(sessions, session);
  }

  lemma StartKeeps(a: State, now: int, session: Option<Token>, code: Token, user: UserId, id: Token, library: bool,
                   b: State, reply: StartReply)
    requires Consistent(a) && RegisterStart(a, now, session, code, user, id, library, b, reply)
    ensures Consistent(b)
    ensures b.store.passkeys == a.store.passkeys && b.sessions.Keys <= a.sessions.Keys
  {
    CheckedSize(a.sessions, session, now);
    if StartRefusal(a, now, session, code, library).None? {
      InsertedSize(a.reg, id, Pending(StartMode(a), now + CEREMONY_TTL), now, MAX_CEREMONIES, b.reg);
      InsertedFrom(a.reg, id, Pending(StartMode(a), now + CEREMONY_TTL), now, MAX_CEREMONIES, b.reg);
    }
  }

  lemma LoginStartKeeps(a: State, now: int, id: Token, library: bool, b: State, reply: StartReply)
    requires Consistent(a) && LoginStart(a, now, id, library, b, reply)
    ensures Consistent(b)
    ensures b.store == a.store && b.sessions == a.sessions
  {
    if reply.CeremonyStarted? {
      InsertedSize(a.auth, id, Pending(CredIds(a.store), now + CEREMONY_TTL), now, MAX_CEREMONIES, b.auth);
      InsertedFrom(a.auth, id, Pending(CredIds(a.store), now + CEREMONY_TTL), now, MAX_CEREMONIES, b.auth);
    }
  }

  lemma PushList(c: Credentials, p: Passkey)
    ensures CredList(c.passkeys + [p]) == CredList(c.passkeys) + [p.cred]
    ensures CredIds(With(c, p)) == CredIds(c) + {p.cred}
    ensures p.cred !in CredIds(c) && Distinct(CredList(c.passkeys)) ==> Distinct(CredList(c.passkeys + [p]))
  {
    CredIdsAre(c);
    var after := c.passkeys + [p];
    assert forall q :: q in after <==> q in c.passkeys || q == p;
  }

  lemma UpdateList(c: Credentials, used: Passkey)
    ensures CredList(Updated(c.passkeys, used)) == CredList(c.passkeys)
    ensures CredIds(Counted(c, used)) == CredIds(c)
  {
    CredsOfList(Counted(c, used), c);
  }

  /** What a state that keeps the enrolled set and only loses pending entries must still show. */
  lemma LesserConsistent(a: State, b: State)
    requires Consistent(a)
    requires CredList(b.store.passkeys) == CredList(a.store.passkeys) && b.bootstrap == a.bootstrap
    requires Load(b.files.main).Some? && CredList(Load(b.files.main).value.passkeys) == CredList(a.store.passkeys)
    requires Within(b.reg, a.reg) && Within(b.auth, a.auth)
    requires |b.reg| <= |a.reg| && |b.auth| <= |a.auth| && |b.sessions| <= MAX_SESSIONS
    requires a.store.passkeys == [] ==> b.sessions == map[]
    ensures Consistent(b)
  {
    CredsOfList(a.store, b.store);
  }

  lemma GrownConsistent(a: State, b: State, p: Passkey)
    requires Consistent(a) && b.store == With(a.store, p) && p.cred !in CredIds(a.store)
    requires b.files.main == Whole(b.store) && b.bootstrap.None? && b.auth == a.auth
    requires forall r :: r in b.reg ==> b.reg[r].state != Bootstrap
    requires |b.reg| <= MAX_CEREMONIES && |b.sessions| <= MAX_SESSIONS
    ensures Consistent(b)
  {
    PushList(a.store, p);
    assert b.store.passkeys != [];
  }

  lemma EnrolledKeeps(a: State, now: int, rid: Option<Token>, mode: RegMode, p: Passkey, token: Token, b: State)
    requires Consistent(a) && EnrolledState(a, now, rid, mode, p, token, b)
    requires p.cred !in CredIds(a.store) && (mode == Bootstrap <==> a.store.passkeys == [])
    ensures Consistent(b)
  {
    WithoutSize(a.reg, rid);
    SaveIsAtomic(a.files, With(a.store, p), PERSIST_STEPS);
    InsertedSize(a.sessions, token, Pending((), now + SESSION_TTL), now, MAX_SESSIONS, b.sessions);
    GrownConsistent(a, b, p);
  }

  /** A redemption that goes through was a bootstrap exactly if nobody was enrolled. */
  lemma AdmittedMode(a: State, now: int, rid: Option<Token>, session: Option<Token>, verdict: Option<Passkey>)
    requires Consistent(a) && FinishRefusal(a, now, rid, session, verdict).None?
    ensures Redeemed(a.reg, rid, now).Some? && verdict.Some? && verdict.value.cred !in CredIds(a.store)
    ensures Redeemed(a.reg, rid, now) == Some(Bootstrap) <==> a.store.passkeys == []
    ensures a.store.passkeys != [] ==> SignedIn(a, session, now)
  {
  }

  /** A redemption either enrols and saves the credential, or leaves memory and the main file alone. */
  lemma FinishKeeps(a: State, now: int, rid: Option<Token>, session: Option<Token>, verdict: Option<Passkey>,
                    fault: Option<nat>, token: Token, b: State, reply: FinishReply)
    requires Consistent(a) && RegisterFinish(a, now, rid, session, verdict, fault, token, b, reply)
    ensures Consistent(b)
    ensures reply.Granted? ==>
              && FinishRefusal(a, now, rid, session, verdict).None?
              && EnrolledState(a, now, rid, Redeemed(a.reg, rid, now).value, verdict.value, token, b)
    ensures !reply.Granted? ==> b.store == a.store && b.files.main == a.files.main && b.sessions.Keys <= a.sessions.Keys
  {
    if FinishRefusal(a, now, rid, session, verdict).None? {
      AdmittedMode(a, now, rid, session, verdict);
      if Reached(fault) == PERSIST_STEPS {
        EnrolledKeeps(a, now, rid, Redeemed(a.reg, rid, now).value, verdict.value, token, b);
      } else {
        SaveIsAtomic(a.files, With(a.store, verdict.value), Reached(fault));
        TakenKeeps(a, rid, a.sessions, Persisted(a.files, With(a.store, verdict.value), Reached(fault)));
      }
    } else {
      CheckedSize(a.sessions, session, now);
      TakenKeeps(a, rid, b.sessions, a.files);
    }
  }

  /** Taking a ceremony out, dropping sessions or touching the temporary file changes nothing that matters. */
  lemma TakenKeeps(a: State, rid: Option<Token>, sessions: Book<()>, files: Files)
    requires Consistent(a) && files.main == a.files.main
    requires sessions.Keys <= a.sessions.Keys && |sessions| <= |a.sessions|
    ensures Consistent(a.(reg := Without(a.reg, rid), sessions := sessions, files := files))
  {
    WithoutSize(a.reg, rid);
    if a.store.passkeys == [] {
      NoKey(sessions);
    }
    LesserConsistent(a, a.(reg := Without(a.reg, rid), sessions := sessions, files := files));
  }

  lemma RegFinishKeeps(a: State, e: Event, b: State, reply: Reply)
    requires e.RegFinish? && Consistent(a) && Step(a, e, b, reply)
    ensures Consistent(b)
    ensures reply.finish.Granted? ==>
              && FinishRefusal(a, e.now, e.rid, e.session, e.verdict).None?
              && EnrolledState(a, e.now, e.rid, Redeemed(a.reg, e.rid, e.now).value, e.verdict.value, e.drawn, b)
    ensures !reply.finish.Granted? ==>
              b.store == a.store && b.files.main == a.files.main && b.sessions.Keys <= a.sessions.Keys
  {
    FinishKeeps(a, e.now, e.rid, e.session, e.verdict, e.fault, e.drawn, b, reply.finish);
  }

  lemma LoggedInKeeps(a: State, now: int, aid: Option<Token>, used: Passkey, fault: Option<nat>, token: Token, b: State)
    requires Consistent(a) && a.store.passkeys != [] && LoggedInState(a, now, aid, used, fault, token, b)
    ensures Consistent(b) && CredIds(b.store) == CredIds(a.store)
  {
    WithoutSize(a.auth, aid);
    UpdateList(a.store, used);
    InsertedSize(a.sessions, token, Pending((), now + SESSION_TTL), now, MAX_SESSIONS, b.sessions);
    SaveIsAtomic(a.files, Counted(a.store, used), Reached(fault));
    LesserConsistent(a, b);
  }

  lemma LoginKeeps(a: State, now: int, aid: Option<Token>, verdict: Option<Passkey>, fault: Option<nat>, token: Token,
                   b: State, reply: FinishReply)
    requires Consistent(a) && LoginFinish(a, now, aid, verdict, fault, token, b, reply)
    ensures Consistent(b) && CredIds(b.store) == CredIds(a.store)
    ensures reply.Granted? ==>
              && LoginRefusal(a, now, aid, verdict).None? && verdict.value.cred in CredIds(a.store)
              && LoggedInState(a, now, aid, verdict.value, fault, token, b)
    ensures !reply.Granted? ==> b == a.(auth := Without(a.auth, aid))
  {
    WithoutSize(a.auth, aid);
    if LoginRefusal(a, now, aid, verdict).None? {
      assert verdict.value.cred in CredIds(a.store);
      LoggedInKeeps(a, now, aid, verdict.value, fault, token, b);
    } else {
      LesserConsistent(a, b);
    }
  }

  lemma LogFinishKeeps(a: State, e: Event, b: State, reply: Reply)
    requires e.LogFinish? && Consistent(a) && Step(a, e, b, reply)
    ensures Consistent(b) && CredIds(b.store) == CredIds(a.store)
    ensures reply.finish.Granted? ==>
              && LoginRefusal(a, e.now, e.aid, e.verdict).None? && e.verdict.value.cred in CredIds(a.store)
              && LoggedInState(a, e.now, e.aid, e.verdict.value, e.fault, e.drawn, b)
    ensures !reply.finish.Granted? ==> b == a.(auth := Without(a.auth, e.aid))
  {
    LoginKeeps(a, e.now, e.aid, e.verdict, e.fault, e.drawn, b, reply.finish);
  }

  /** A start from files that hold credentials `c`. */
  lemma StartConsistent(files: Files, code: Token)
    requires Load(files.main).Some? && Distinct(CredList(Load(files.main).value.passkeys))
    ensures Started(files, code).Some? && Consistent(Started(files, code).value)
  {
  }

  /** Crash anywhere in a save: the main file is the complete old store or the complete new one. */
  lemma SaveIsAtomic(f: Files, c: Credentials, at: nat)
    requires at <= PERSIST_STEPS
    ensures Persisted(f, c, at).main == if at == PERSIST_STEPS then Whole(c) else f.main
  {
  }

  lemma CrashKeeps(a: State, c: Option<Credentials>, at: nat, code: Token)
    requires Consistent(a)
    requires c.Some? ==> Distinct(CredList(c.value.passkeys))
    ensures
      var files := FilesAt(a.files, c, at);
      && Started(files, code).Some?
      && Consistent(Started(files, code).value)
      && (Started(files, code).value.store == Load(a.files.main).value || Some(Started(files, code).value.store) == c)
  {
    if c.Some? {
      SaveIsAtomic(a.files, c.value, Min(at, PERSIST_STEPS));
    }
    StartConsistent(FilesAt(a.files, c, at), code);
  }

  /** Dying at any point of any handler, the next start succeeds and is consistent again. */
  lemma CrashStepKeeps(a: State, e: Event, b: State, reply: Reply)
    requires e.Restart? || e.CrashInFinish? || e.CrashInLogin?
    requires Consistent(a) && Step(a, e, b, reply)
    ensures Consistent(b)
    ensures CredIds(a.store) <= CredIds(b.store)
    ensures !e.CrashInFinish? ==> CredIds(b.store) == CredIds(a.store)
    ensures e.CrashInFinish? && CredIds(b.store) != CredIds(a.store) ==>
              ToEnrol(a, e.now, e.rid, e.session, e.verdict) == Some(b.store)
  {
    CredsOfList(Load(a.files.main).value, a.store);
    match e
    case Restart(_, code) =>
      CrashKeeps(a, None, 0, code);
    case CrashInFinish(now, rid, session, verdict, at, code) =>
      var c := ToEnrol(a, now, rid, session, verdict);
      if c.Some? {
        PushList(a.store, verdict.value);
      }
      CrashKeeps(a, c, at, code);
    case CrashInLogin(now, aid, verdict, at, code) =>
      var c := ToCount(a, now, aid, verdict);
      if c.Some? {
        UpdateList(a.store, verdict.value);
      }
      CrashKeeps(a, c, at, code);
  }

  lemma QuietKeeps(a: State, e: Event, b: State, reply: Reply)
    requires e.Check? || e.SignOut? || e.SweepAt?
    requires Consistent(a) && Step(a, e, b, reply)
    ensures Consistent(b) && b.store == a.store && b.sessions.Keys <= a.sessions.Keys
  {
    match e
    case Check(now, session) => CheckedSize(a.sessions, session, now);
    case SignOut(_, session) => WithoutSize(a.sessions, session);
    case SweepAt(now) =>
      LiveSize(a.reg, now);
      LiveSize(a.auth, now);
      LiveSize(a.sessions, now);
  }

  /** Every handler and every crash keeps the state consistent and loses no credential. */
  lemma StepKeeps(a: State, e: Event, b: State, reply: Reply)
    requires Consistent(a) && Step(a, e, b, reply)
    ensures Consistent(b)
    ensures CredIds(a.store) <= CredIds(b.store)
  {
    match e
    case RegStart(now, session, code, user, id, library) =>
      StartKeeps(a, now, session, code, user, id, library, b, reply.start);
    case RegFinish(_, _, _, _, _, _) =>
      RegFinishKeeps(a, e, b, reply);
      if reply.finish.Granted? {
        PushList(a.store, e.verdict.value);
      }
    case LogStart(now, id, library) => LoginStartKeeps(a, now, id, library, b, reply.start);
    case LogFinish(_, _, _, _, _) => LogFinishKeeps(a, e, b, reply);
    case Check(_, _) => QuietKeeps(a, e, b, reply);
    case SignOut(_, _) => QuietKeeps(a, e, b, reply);
    case SweepAt(_) => QuietKeeps(a, e, b, reply);
    case Restart(_, _) => CrashStepKeeps(a, e, b, reply);
    case CrashInFinish(_, _, _, _, _, _) => CrashStepKeeps(a, e, b, reply);
    case CrashInLogin(_, _, _, _, _) => CrashStepKeeps(a, e, b, reply);
  }
}
