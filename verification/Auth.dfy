/** The passkey ceremonies and browser sessions, one handler at a time. */
module Auth {
  import opened Buckets
  import opened Ceremonies
  import opened SeriesApi

  type CredId = nat
  type UserId = nat

  datatype Passkey = Passkey(cred: CredId, counter: nat)

  /** The persisted credential store. */
  datatype Credentials = Credentials(userId: Option<UserId>, passkeys: seq<Passkey>)

  /** What a pending registration was authorised to do when it started. */
  datatype RegMode = Bootstrap | AddDevice

  /** A file as a restart finds it. */
  datatype Content = Absent | Torn | Whole(store: Credentials)

  /** `auth.json` and the temporary file next to it. */
  datatype Files = Files(main: Content, tmp: Content)

  /** Everything the process holds, and its files. A pending login remembers the credentials that
      were enrolled when it started. */
  datatype State = State(store: Credentials, reg: Book<RegMode>, auth: Book<set<CredId>>,
                         sessions: Book<()>, bootstrap: Option<Token>, files: Files)

  const NO_CREDENTIALS := Credentials(None, [])

  function CredIds(s: Credentials): set<CredId> {
    set p | p in s.passkeys :: p.cred
  }

  // ---- durable storage ----

  /** The files after so many steps of a persist: temporary created and truncated, partly written,
      written and synced, renamed over the main file. */
  function Persisted(f: Files, c: Credentials, steps: nat): Files {
    if steps == 0 then f
    else if steps < 3 then f.(tmp := Torn)
    else if steps == 3 then f.(tmp := Whole(c))
    else Files(Whole(c), Absent)
  }

  const PERSIST_STEPS := 4

  /** What a start reads: no file is an empty store, an unreadable file stops the start. */
  function Load(main: Content): Option<Credentials> {
    match main
    case Absent => Some(NO_CREDENTIALS)
    case Torn => None
    case Whole(c) => Some(c)
  }

  /** The process a start builds, or none if the credentials are unreadable. */
  function Started(files: Files, code: Token): Option<State> {
    var loaded := Load(files.main);
    if loaded.None? then None
    else
      var bootstrap := if loaded.value.passkeys == [] then Some(code) else None;
      Some(State(loaded.value, map[], map[], map[], bootstrap, files))
  }

  // ---- the session check ----

  ghost predicate SignedIn(a: State, session: Option<Token>, now: int) {
    session.Some? && session.value in a.sessions && a.sessions[session.value].exp > now
  }

  /** The check itself drops the presented session if it has expired. */
  function Checked(sessions: Book<()>, session: Option<Token>, now: int): Book<()> {
    if session.Some? && session.value in sessions && sessions[session.value].exp <= now
    then sessions - {session.value}
    else sessions
  }

  // ---- handlers ----

  datatype StartReply =
    AdminExists | EnrolmentClosed | CodeRequired | LibraryError | NoAccount | CeremonyStarted(id: Token)

  datatype FinishReply =
    NoCeremony | CeremonyExpired | Rejected | Forbidden | Duplicate | NotSaved | Granted(session: Token)

  /** Why a registration may not start, if so. */
  ghost function StartRefusal(a: State, now: int, session: Option<Token>, code: Token,
                              library: bool): Option<StartReply> {
    var enrolled := a.store.passkeys != [];
    if enrolled && !SignedIn(a, session, now) then Some(AdminExists)
    else if !enrolled && a.bootstrap.None? then Some(EnrolmentClosed)
    else if !enrolled && code != a.bootstrap.value then Some(CodeRequired)
    else if !library then Some(LibraryError)
    else None
  }

  function StartMode(a: State): RegMode {
    if a.store.passkeys != [] then AddDevice else Bootstrap
  }

  /** Start of a registration: `id` is the new ceremony, `user` the id drawn if none is stored. */
  ghost predicate RegisterStart(a: State, now: int, session: Option<Token>, code: Token, user: UserId, id: Token,
                                library: bool, b: State, reply: StartReply)
  {
    var checked := a.(sessions := Checked(a.sessions, session, now));
    var refusal := StartRefusal(a, now, session, code, library);
    if refusal.Some? then
      b == checked && reply == refusal.value
    else
      var known := if a.store.userId.Some? then a.store.userId else Some(user);
      && reply == CeremonyStarted(id)
      && b == checked.(store := a.store.(userId := known), reg := b.reg)
      && Inserted(a.reg, id, Pending(StartMode(a), now + CEREMONY_TTL), now, MAX_CEREMONIES, b.reg)
  }

  /** What a pending entry was for, if `id` names one that is still current. */
  function Redeemed<S>(m: Book<S>, id: Option<Token>, now: int): Option<S> {
    if id.Some? && id.value in m && m[id.value].exp > now then Some(m[id.value].state) else None
  }

  function Without<S>(m: Book<S>, id: Option<Token>): Book<S> {
    if id.Some? then m - {id.value} else m
  }

  ghost predicate MayEnrol(a: State, mode: RegMode, session: Option<Token>, now: int) {
    match mode
    case Bootstrap => a.store.passkeys == []
    case AddDevice => SignedIn(a, session, now)
  }

  /** Why a credential may not be enrolled by a redeemed ceremony, if so. */
  ghost function EnrolRefusal(a: State, mode: RegMode, session: Option<Token>, passkey: Passkey,
                              now: int): Option<FinishReply> {
    if !MayEnrol(a, mode, session, now) then Some(Forbidden)
    else if passkey.cred in CredIds(a.store) then Some(Duplicate)
    else None
  }

  /** Why a registration may not be redeemed, if so; `verdict` is the library's answer. */
  ghost function FinishRefusal(a: State, now: int, rid: Option<Token>, session: Option<Token>,
                               verdict: Option<Passkey>): Option<FinishReply> {
    var mode := Redeemed(a.reg, rid, now);
    if rid.None? then Some(NoCeremony)
    else if mode.None? then Some(CeremonyExpired)
    else if verdict.None? then Some(Rejected)
    else EnrolRefusal(a, mode.value, session, verdict.value, now)
  }

  function With(c: Credentials, p: Passkey): Credentials {
    c.(passkeys := c.passkeys + [p])
  }

  function Popped(c: Credentials): Credentials
    requires c.passkeys != []
  {
    c.(passkeys := c.passkeys[..|c.passkeys| - 1])
  }

  /** Taking back the last push restores the list. */
  lemma PushPop(c: Credentials, p: Passkey)
    ensures Popped(With(c, p)) == c
  {
    assert (c.passkeys + [p])[..|c.passkeys|] == c.passkeys;
  }

  /** The state after an enrolment was saved; `token` is the new session. */
  ghost predicate EnrolledState(a: State, now: int, rid: Option<Token>, mode: RegMode, passkey: Passkey, token: Token,
                                b: State) {
    && b.store == With(a.store, passkey)
    && b.reg == (if mode == Bootstrap then map[] else Without(a.reg, rid))
    && b.auth == a.auth
    && b.bootstrap == (if mode == Bootstrap then None else a.bootstrap)
    && b.files == Persisted(a.files, With(a.store, passkey), PERSIST_STEPS)
    && Inserted(a.sessions, token, Pending((), now + SESSION_TTL), now, MAX_SESSIONS, b.sessions)
  }

  /** The session table after a refusal: the re-check of an add-device ceremony drops an expired
      session. */
  ghost function SessionsAfter(a: State, now: int, rid: Option<Token>, session: Option<Token>,
                               refusal: FinishReply): Book<()> {
    if refusal == Forbidden && Redeemed(a.reg, rid, now) == Some(AddDevice)
    then Checked(a.sessions, session, now)
    else a.sessions
  }

  /** Redemption of a registration. `fault` is the step at which the persist fails, if it does. */
  ghost predicate RegisterFinish(a: State, now: int, rid: Option<Token>, session: Option<Token>,
                                 verdict: Option<Passkey>,
                                 fault: Option<nat>, token: Token, b: State, reply: FinishReply)
  {
    var taken := a.(reg := Without(a.reg, rid));
    var refusal := FinishRefusal(a, now, rid, session, verdict);
    if refusal.Some? then
      b == taken.(sessions := SessionsAfter(a, now, rid, session, refusal.value)) && reply == refusal.value
    else if fault.Some? && fault.value < PERSIST_STEPS then
      && b == taken.(files := Persisted(a.files, With(a.store, verdict.value), fault.value))
      && reply == NotSaved
    else
      && EnrolledState(a, now, rid, Redeemed(a.reg, rid, now).value, verdict.value, token, b)
      && reply == Granted(token)
  }

  /** What follows the library's acceptance, from a state in which the ceremony is already taken. */
  ghost predicate EnrolStep(a: State, mode: RegMode, session: Option<Token>, passkey: Passkey, fault: Option<nat>,
                            token: Token, now: int, b: State, reply: FinishReply)
  {
    var refusal := EnrolRefusal(a, mode, session, passkey, now);
    if refusal.Some? then
      && reply == refusal.value
      && b == a.(sessions := if refusal.value == Forbidden && mode == AddDevice
                             then Checked(a.sessions, session, now)
                             else a.sessions)
    else
      SaveStep(a.(store := With(a.store, passkey)), mode, fault, token, now, b, reply)
  }

  /** After the push, in a state whose last credential is the new one: save and sign in, or take the
      push back. */
  ghost predicate SaveStep(a: State, mode: RegMode, fault: Option<nat>, token: Token, now: int, b: State,
                           reply: FinishReply)
    requires a.store.passkeys != []
  {
    if Reached(fault) < PERSIST_STEPS then
      reply == NotSaved && b == a.(store := Popped(a.store), files := Persisted(a.files, a.store, Reached(fault)))
    else
      && reply == Granted(token)
      && b.store == a.store && b.auth == a.auth
      && b.reg == (if mode == Bootstrap then map[] else a.reg)
      && b.bootstrap == (if mode == Bootstrap then None else a.bootstrap)
      && b.files == Persisted(a.files, a.store, PERSIST_STEPS)
      && Inserted(a.sessions, token, Pending((), now + SESSION_TTL), now, MAX_SESSIONS, b.sessions)
  }

  lemma EnrolTaken(a: State, taken: State, now: int, rid: Option<Token>, mode: RegMode, session: Option<Token>,
                   verdict: Option<Passkey>, fault: Option<nat>, token: Token, b: State, reply: FinishReply)
    requires taken == a.(reg := Without(a.reg, rid)) && rid.Some? && Redeemed(a.reg, rid, now) == Some(mode)
             && verdict.Some?
    requires EnrolStep(taken, mode, session, verdict.value, fault, token, now, b, reply)
    ensures RegisterFinish(a, now, rid, session, verdict, fault, token, b, reply)
  {
    SameRefusal(a, taken, now, rid, mode, session, verdict);
    if FinishRefusal(a, now, rid, session, verdict).None? {
      SavedTaken(a, taken, now, rid, mode, verdict.value, fault, token, b, reply);
    }
  }

  lemma SameRefusal(a: State, taken: State, now: int, rid: Option<Token>, mode: RegMode, session: Option<Token>,
                    verdict: Option<Passkey>)
    requires taken == a.(reg := Without(a.reg, rid)) && rid.Some? && Redeemed(a.reg, rid, now) == Some(mode)
             && verdict.Some?
    ensures FinishRefusal(a, now, rid, session, verdict) == EnrolRefusal(taken, mode, session, verdict.value, now)
  {
  }

  lemma SavedTaken(a: State, taken: State, now: int, rid: Option<Token>, mode: RegMode, passkey: Passkey,
                   fault: Option<nat>, token: Token, b: State, reply: FinishReply)
    requires taken == a.(reg := Without(a.reg, rid))
    requires SaveStep(taken.(store := With(a.store, passkey)), mode, fault, token, now, b, reply)
    ensures if Reached(fault) == PERSIST_STEPS
            then EnrolledState(a, now, rid, mode, passkey, token, b) && reply == Granted(token)
            else b == taken.(files := Persisted(a.files, With(a.store, passkey), Reached(fault))) && reply == NotSaved
  {
    PushPop(a.store, passkey);
  }

  /** A redemption refused before the store is looked at only takes the ceremony. */
  lemma RefusedEarly(a: State, now: int, rid: Option<Token>, session: Option<Token>, verdict: Option<Passkey>,
                     fault: Option<nat>, token: Token, b: State)
    requires b == a.(reg := Without(a.reg, rid))
    requires rid.None? || Redeemed(a.reg, rid, now).None? || verdict.None?
    ensures FinishRefusal(a, now, rid, session, verdict).Some?
    ensures RegisterFinish(a, now, rid, session, verdict, fault, token, b,
                           FinishRefusal(a, now, rid, session, verdict).value)
  {
  }

  ghost predicate LoginStart(a: State, now: int, id: Token, library: bool, b: State, reply: StartReply) {
    if a.store.passkeys == [] then
      b == a && reply == NoAccount
    else if !library then
      b == a && reply == LibraryError
    else
      && reply == CeremonyStarted(id)
      && b == a.(auth := b.auth)
      && Inserted(a.auth, id, Pending(CredIds(a.store), now + CEREMONY_TTL), now, MAX_CEREMONIES, b.auth)
  }

  function Updated(passkeys: seq<Passkey>, used: Passkey): seq<Passkey>
  {
    seq(|passkeys|, i requires 0 <= i < |passkeys| => if passkeys[i].cred == used.cred then used else passkeys[i])
  }

  function Counted(c: Credentials, used: Passkey): Credentials {
    c.(passkeys := Updated(c.passkeys, used))
  }

  /** Why a login may not be redeemed, if so. The library accepts only credentials the ceremony
      started with. */
  ghost function LoginRefusal(a: State, now: int, aid: Option<Token>, verdict: Option<Passkey>): Option<FinishReply> {
    var offered := Redeemed(a.auth, aid, now);
    if aid.None? then Some(NoCeremony)
    else if offered.None? then Some(CeremonyExpired)
    else if verdict.None? || verdict.value.cred !in offered.value then Some(Rejected)
    else None
  }

  function Reached(fault: Option<nat>): nat {
    if fault.Some? && fault.value < PERSIST_STEPS then fault.value else PERSIST_STEPS
  }

  ghost predicate LoggedInState(a: State, now: int, aid: Option<Token>, used: Passkey, fault: Option<nat>,
                                token: Token, b: State) {
    && b.store == Counted(a.store, used)
    && b.reg == a.reg && b.auth == Without(a.auth, aid) && b.bootstrap == a.bootstrap
    && b.files == Persisted(a.files, Counted(a.store, used), Reached(fault))
    && Inserted(a.sessions, token, Pending((), now + SESSION_TTL), now, MAX_SESSIONS, b.sessions)
  }

  /** Redemption of a login; a counter that could not be saved does not block the sign-in. */
  ghost predicate LoginFinish(a: State, now: int, aid: Option<Token>, verdict: Option<Passkey>,
                              fault: Option<nat>, token: Token, b: State, reply: FinishReply)
  {
    var refusal := LoginRefusal(a, now, aid, verdict);
    if refusal.Some? then
      b == a.(auth := Without(a.auth, aid)) && reply == refusal.value
    else
      LoggedInState(a, now, aid, verdict.value, fault, token, b) && reply == Granted(token)
  }

  function LoggedOut(a: State, session: Option<Token>): State {
    a.(sessions := Without(a.sessions, session))
  }

  function Swept(a: State, now: int): State {
    a.(reg := Live(a.reg, now), auth := Live(a.auth, now), sessions := Live(a.sessions, now))
  }

  class AuthState {
    var store: Credentials
    var reg: Book<RegMode>
    var auth: Book<set<CredId>>
    var sessions: Book<()>
    var bootstrap: Option<Token>
    var files: Files

    ghost function Snapshot(): State
      reads this
    {
      State(store, reg, auth, sessions, bootstrap, files)
    }

    /** Build from the data directory; an unreadable file refuses to start (`Started` is `None`). */
    constructor New(files: Files, code: Token)
      requires Load(files.main).Some?
      ensures Started(files, code) == Some(Snapshot())
    {
      this.files := files;
      this.store := Load(files.main).value;
      this.reg := map[];
      this.auth := map[];
      this.sessions := map[];
      this.bootstrap := if Load(files.main).value.passkeys == [] then Some(code) else None;
    }

    /** Write the store: temporary file, sync, rename. `fault` is the step that fails. */
    method Persist(fault: Option<nat>) returns (ok: bool)
      modifies this`files
      ensures ok <==> fault.None? || PERSIST_STEPS <= fault.value
      ensures files == Persisted(old(files), store, if ok then PERSIST_STEPS else fault.value)
    {
      var before := files;
      if fault == Some(0) {
        return false;
      }
      files := files.(tmp := Torn);
      if fault == Some(1) || fault == Some(2) {
        return false;
      }
      files := files.(tmp := Whole(store));
      if fault == Some(3) {
        return false;
      }
      files := Files(Whole(store), Absent);
      return true;
    }

    method SessionValid(session: Option<Token>, now: int) returns (valid: bool)
      modifies this`sessions
      ensures valid <==> old(SignedIn(Snapshot(), session, now))
      ensures sessions == Checked(old(sessions), session, now)
    {
      if session.None? || session.value !in sessions {
        return false;
      }
      if sessions[session.value].exp > now {
        return true;
      }
      sessions := sessions - {session.value};
      return false;
    }

    /** Issue a session: drop the expired, then the soonest to expire if the table is still full. */
    method NewSession(token: Token, now: int)
      requires token !in sessions && |sessions| <= MAX_SESSIONS
      modifies this`sessions
      ensures Inserted(old(sessions), token, Pending((), now + SESSION_TTL), now, MAX_SESSIONS, sessions)
      ensures |sessions| <= MAX_SESSIONS
    {
      LiveSize(sessions, now);
      sessions := Live(sessions, now);
      if |sessions| >= MAX_SESSIONS {
        var oldest := Oldest(sessions);
        RemoveSize(sessions, oldest);
        sessions := sessions - {oldest};
      }
      ghost var kept := sessions;
      sessions := sessions[token := Pending((), now + SESSION_TTL)];
      assert sessions - {token} == kept;
    }

    method StartRegistration(now: int, session: Option<Token>, code: Token, user: UserId, rid: Token, library: bool)
      returns (reply: StartReply)
      requires rid !in reg
      modifies this`sessions, this`store, this`reg
      ensures RegisterStart(old(Snapshot()), now, session, code, user, rid, library, Snapshot(), reply)
    {
      var signedIn := SessionValid(session, now);
      var mode;
      if store.passkeys == [] {
        mode := Bootstrap;
      } else if signedIn {
        mode := AddDevice;
      } else {
        return AdminExists;
      }
      if mode == Bootstrap {
        if bootstrap.None? {
          return EnrolmentClosed;
        }
        var matches := CtEq(code, bootstrap.value);
        if !matches {
          return CodeRequired;
        }
      }
      if !library {
        return LibraryError;
      }
      if store.userId.None? {
        store := store.(userId := Some(user));
      }
      reg := InsertCapped(reg, rid, Pending(mode, now + CEREMONY_TTL), now);
      return CeremonyStarted(rid);
    }

    /** Take a ceremony out of the table; it can be redeemed at most once whatever follows. */
    method TakeRegistration(rid: Token, now: int) returns (mode: Option<RegMode>)
      modifies this`reg
      ensures mode == Redeemed(old(reg), Some(rid), now)
      ensures reg == Without(old(reg), Some(rid))
    {
      if rid !in reg {
        assert reg == reg - {rid};
        return None;
      }
      var pending := reg[rid];
      reg := reg - {rid};
      return if pending.exp <= now then None else Some(pending.state);
    }

    /** The re-check under the store lock, and the push. */
    method PushCredential(mode: RegMode, session: Option<Token>, passkey: Passkey, now: int)
      returns (refusal: Option<FinishReply>)
      modifies this`store, this`sessions
      ensures refusal == old(EnrolRefusal(Snapshot(), mode, session, passkey, now))
      ensures store == if refusal.Some? then old(store) else With(old(store), passkey)
      ensures sessions == if refusal == Some(Forbidden) && mode == AddDevice
                          then Checked(old(sessions), session, now)
                          else old(sessions)
    {
      var allowed := store.passkeys == [];
      if mode == AddDevice {
        allowed := SessionValid(session, now);
      }
      if !allowed {
        return Some(Forbidden);
      }
      var known := Enrolled(store.passkeys, passkey.cred);
      if known {
        return Some(Duplicate);
      }
      store := store.(passkeys := store.passkeys + [passkey]);
      return None;
    }

    /** After the push: save, or take the push back; then close the bootstrap and sign in. */
    method SaveEnrolment(mode: RegMode, fault: Option<nat>, token: Token, now: int) returns (reply: FinishReply)
      requires store.passkeys != [] && token !in sessions && |sessions| <= MAX_SESSIONS
      modifies this
      ensures SaveStep(old(Snapshot()), mode, fault, token, now, Snapshot(), reply)
    {
      var saved := Persist(fault);
      if !saved {
        store := Popped(store);
        return NotSaved;
      }
      if mode == Bootstrap {
        reg := map[];
        bootstrap := None;
      }
      NewSession(token, now);
      return Granted(token);
    }

    /** Everything after the library accepted the new credential. */
    method Enrol(mode: RegMode, session: Option<Token>, passkey: Passkey, fault: Option<nat>, token: Token, now: int)
      returns (reply: FinishReply)
      requires token !in sessions && |sessions| <= MAX_SESSIONS
      modifies this
      ensures EnrolStep(old(Snapshot()), mode, session, passkey, fault, token, now, Snapshot(), reply)
    {
      var refusal := PushCredential(mode, session, passkey, now);
      if refusal.Some? {
        return refusal.value;
      }
      reply := SaveEnrolment(mode, fault, token, now);
    }

    method FinishRegistration(now: int, rid: Option<Token>, session: Option<Token>, verdict: Option<Passkey>,
                              fault: Option<nat>, token: Token)
      returns (reply: FinishReply)
      requires token !in sessions && |sessions| <= MAX_SESSIONS
      modifies this
      ensures RegisterFinish(old(Snapshot()), now, rid, session, verdict, fault, token, Snapshot(), reply)
    {
      ghost var a := Snapshot();
      if rid.None? {
        RefusedEarly(a, now, rid, session, verdict, fault, token, Snapshot());
        return NoCeremony;
      }
      var mode := TakeRegistration(rid.value, now);
      if mode.None? || verdict.None? {
        RefusedEarly(a, now, rid, session, verdict, fault, token, Snapshot());
        return if mode.None? then CeremonyExpired else Rejected;
      }
      ghost var taken := Snapshot();
      reply := Enrol(mode.value, session, verdict.value, fault, token, now);
      EnrolTaken(a, taken, now, rid, mode.value, session, verdict, fault, token, Snapshot(), reply);
    }

    method BeginLogin(now: int, aid: Token, library: bool) returns (reply: StartReply)
      requires aid !in auth
      modifies this`auth
      ensures LoginStart(old(Snapshot()), now, aid, library, Snapshot(), reply)
    {
      if store.passkeys == [] {
        return NoAccount;
      }
      if !library {
        return LibraryError;
      }
      auth := InsertCapped(auth, aid, Pending(CredIds(store), now + CEREMONY_TTL), now);
      return CeremonyStarted(aid);
    }

    method TakeLogin(aid: Token, now: int) returns (offered: Option<set<CredId>>)
      modifies this`auth
      ensures offered == Redeemed(old(auth), Some(aid), now)
      ensures auth == Without(old(auth), Some(aid))
    {
      if aid !in auth {
        assert auth == auth - {aid};
        return None;
      }
      var pending := auth[aid];
      auth := auth - {aid};
      return if pending.exp <= now then None else Some(pending.state);
    }

    /** Advance the signature counter of the credential that signed. */
    method UpdateCounters(used: Passkey)
      modifies this`store
      ensures store == Counted(old(store), used)
    {
      var passkeys := store.passkeys;
      for i := 0 to |passkeys|
        invariant |passkeys| == |old(store.passkeys)|
        invariant forall j :: i <= j < |passkeys| ==> passkeys[j] == old(store.passkeys)[j]
        invariant forall j :: 0 <= j < i ==> passkeys[j] == Updated(old(store.passkeys), used)[j]
      {
        if passkeys[i].cred == used.cred {
          passkeys := passkeys[i := used];
        }
      }
      store := store.(passkeys := passkeys);
    }

    method FinishLogin(now: int, aid: Option<Token>, verdict: Option<Passkey>, fault: Option<nat>, token: Token)
      returns (reply: FinishReply)
      requires token !in sessions && |sessions| <= MAX_SESSIONS
      modifies this
      ensures LoginFinish(old(Snapshot()), now, aid, verdict, fault, token, Snapshot(), reply)
    {
      if aid.None? {
        return NoCeremony;
      }
      var offered := TakeLogin(aid.value, now);
      if offered.None? {
        return CeremonyExpired;
      }
      if verdict.None? || verdict.value.cred !in offered.value {
        return Rejected;
      }
      UpdateCounters(verdict.value);
      var saved := Persist(fault);
      NewSession(token, now);
      return Granted(token);
    }

    method Logout(session: Option<Token>)
      modifies this`sessions
      ensures Snapshot() == LoggedOut(old(Snapshot()), session)
    {
      if session.Some? {
        sessions := sessions - {session.value};
      }
    }

    method Sweep(now: int)
      modifies this`reg, this`auth, this`sessions
      ensures Snapshot() == Swept(old(Snapshot()), now)
    {
      reg := Live(reg, now);
      auth := Live(auth, now);
      sessions := Live(sessions, now);
    }
  }

  method Enrolled(passkeys: seq<Passkey>, cred: CredId) returns (found: bool)
    ensures found <==> exists p :: p in passkeys && p.cred == cred
  {
    for i := 0 to |passkeys|
      invariant forall j :: 0 <= j < i ==> passkeys[j].cred != cred
    {
      if passkeys[i].cred == cred {
        return true;
      }
    }
    return false;
  }

  lemma LiveSize<S>(m: Book<S>, now: int)
    ensures |Live(m, now)| <= |m|
  {
    SmallerSet(Live(m, now).Keys, m.Keys);
    assert |Live(m, now)| == |Live(m, now).Keys| && |m| == |m.Keys|;
  }

  lemma RemoveSize<S>(m: Book<S>, key: Token)
    requires key in m
    ensures |m - {key}| == |m| - 1
  {
    assert m == (m - {key})[key := m[key]];
  }
}
