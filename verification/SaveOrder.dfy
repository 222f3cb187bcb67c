/** Enrolments and sign-ins down to the disk, across restarts. A save writes the credentials as they
    were when it read them, not as they are when its rename lands, so a late rename can install an old
    list. */
module SaveOrder {
  import opened Buckets
  import opened Ceremonies
  import opened Auth
  import opened Interleaving
  import RollbackIdentity

  /** The process, the list under the main path, what each call in the middle of a save has read, and
      the calls that have begun one. */
  datatype Process = Process(now: Shared, disk: seq<CredId>, read: map<CallId, seq<CredId>>, tried: set<CallId>)

  /** A lock section; the snapshot a save takes under the store lock; the rename or the failure of a
      sign-in's save, which changes nothing else; and a restart. The rename or failure of an enrolment's
      save is its section `Persist`. */
  datatype Move =
    | Section(x: Section)
    | Read(call: CallId)
    | Land(call: CallId)
    | Drop(call: CallId)
    | Restart(code: Token)

  /** What a start makes of the file. */
  function Booted(disk: seq<CredId>, code: Token): Process {
    var bootstrap := if disk == [] then Some(code) else None;
    Process(Shared(disk, map[], map[], {}, bootstrap, map[], |disk|, 0, 0), disk, map[], {})
  }

  /** A save ends only once it has read; a sign-in issues its session only after its save. */
  ghost predicate Ready(p: Process, x: Section) {
    && (x.Persist? ==> x.call in p.read)
    && (x.SignIn? ==> x.call in p.tried && x.call !in p.read)
  }

  ghost predicate Step(p: Process, m: Move, q: Process) {
    match m
    case Section(x) =>
      && Ready(p, x) && Act(p.now, x, q.now)
      && q.disk == (if x.Persist? && x.ok then p.read[x.call] else p.disk)
      && q.read == (if x.Persist? then p.read - {x.call} else p.read)
      && q.tried == p.tried
    case Read(c) =>
      && c in p.now.calls && (p.now.calls[c].Pushed? || p.now.calls[c].Verified?) && c !in p.tried
      && q == p.(read := p.read[c := p.now.passkeys], tried := p.tried + {c})
    case Land(c) =>
      && c in p.now.calls && p.now.calls[c].Verified? && c in p.read
      && q == p.(disk := p.read[c], read := p.read - {c})
    case Drop(c) =>
      && c in p.now.calls && p.now.calls[c].Verified? && c in p.read
      && q == p.(read := p.read - {c})
    case Restart(code) => q == Booted(p.disk, code)
  }

  ghost predicate Leads(p: Process, moves: seq<Move>, q: Process)
    decreases |moves|
  {
    if moves == [] then p == q
    else exists mid :: Step(p, moves[0], mid) && Leads(mid, moves[1..], q)
  }

  /** What every reachable process satisfies: the count is exact, no list repeats a credential, and only
      calls in the middle of their one save hold a list. */
  ghost predicate Sane(p: Process) {
    && CountExact(p.now) && DistinctCreds(p.disk)
    && (forall c :: c in p.read ==> ReadingCall(p, c))
    && (forall c :: c in p.tried ==> TriedCall(p, c))
  }

  ghost predicate ReadingCall(p: Process, c: CallId) {
    && c in p.read && DistinctCreds(p.read[c]) && c in p.tried
    && c in p.now.calls && (p.now.calls[c].Pushed? || p.now.calls[c].Verified?)
  }

  ghost predicate TriedCall(p: Process, c: CallId) {
    c in p.now.calls && !p.now.calls[c].Taken? && (p.now.calls[c].Pushed? ==> c in p.read)
  }

  lemma BootedSane(disk: seq<CredId>, code: Token)
    requires DistinctCreds(disk)
    ensures Sane(Booted(disk, code)) && Fresh(Booted(disk, code).now)
  {
    var s := Booted(disk, code).now;
    assert Undecided(s.calls) == {} && Claiming(s.calls) == {};
  }

  /** What a section does to a call. */
  lemma CallMoves(s: Shared, x: Section, t: Shared, c: CallId)
    requires Act(s, x, t) && c in s.calls
    ensures c in t.calls
    ensures t.calls[c] != s.calls[c] ==> !s.calls[c].Finished? && !t.calls[c].Taken? && !t.calls[c].Verified?
    ensures t.calls[c].Pushed? && !s.calls[c].Pushed? ==> s.calls[c].Taken?
    ensures s.calls[c].Pushed? && !t.calls[c].Pushed? ==> x.Persist? && x.call == c
    ensures s.calls[c].Verified? && !t.calls[c].Verified? ==> x.SignIn? && x.call == c
    ensures x.Persist? && x.call == c ==> s.calls[c].Pushed? && !t.calls[c].Pushed?
  {
  }

  lemma SectionSane(p: Process, x: Section, q: Process)
    requires Sane(p) && Step(p, Section(x), q)
    ensures Sane(q)
  {
    SectionKeeps(p.now, x, q.now);
    if x.Persist? {
      assert ReadingCall(p, x.call);
    }
    forall c | c in q.read
      ensures ReadingCall(q, c)
    {
      assert ReadingCall(p, c);
      CallMoves(p.now, x, q.now, c);
    }
    forall c | c in q.tried
      ensures TriedCall(q, c)
    {
      assert TriedCall(p, c);
      CallMoves(p.now, x, q.now, c);
    }
  }

  lemma OtherSane(p: Process, m: Move, q: Process)
    requires Sane(p) && Step(p, m, q) && (m.Read? || m.Land? || m.Drop?)
    ensures Sane(q)
  {
    if m.Land? {
      assert ReadingCall(p, m.call);
    }
    forall c | c in q.read
      ensures ReadingCall(q, c)
    {
      if c in p.read {
        assert ReadingCall(p, c);
      }
    }
    forall c | c in q.tried
      ensures TriedCall(q, c)
    {
      if c in p.tried {
        assert TriedCall(p, c);
      }
    }
  }

  lemma SaneKeeps(p: Process, m: Move, q: Process)
    requires Sane(p) && Step(p, m, q)
    ensures Sane(q)
  {
    match m
    case Section(x) => SectionSane(p, x, q);
    case Read(_) => OtherSane(p, m, q);
    case Land(_) => OtherSane(p, m, q);
    case Drop(_) => OtherSane(p, m, q);
    case Restart(code) => BootedSane(p.disk, code);
  }

  // ---- staying on disk ----

  /** `cred` is on disk and on every list a save in progress has read. */
  ghost predicate OnLists(p: Process, cred: CredId) {
    cred in p.disk && forall c :: c in p.read ==> cred in p.read[c]
  }

  /** `cred` stands at `n` in memory, among the first as many credentials as were loaded or have been
      saved; what stands above those may still be taken back. */
  ghost predicate Settled(p: Process, cred: CredId, n: int) {
    0 <= n < |p.now.passkeys| && p.now.passkeys[n] == cred && n < p.now.base + p.now.successes
  }

  ghost predicate Kept(p: Process, cred: CredId) {
    OnLists(p, cred) && exists n :: Settled(p, cred, n)
  }

  lemma SectionSettled(p: Process, x: Section, q: Process, cred: CredId, n: int)
    requires Sane(p) && Settled(p, cred, n) && Step(p, Section(x), q)
    ensures Settled(q, cred, n)
  {
    SectionKeeps(p.now, x, q.now);
    RollbackIdentity.Moves(p.now, x, q.now);
  }

  lemma BootedSettled(disk: seq<CredId>, code: Token, cred: CredId) returns (n: int)
    requires cred in disk
    ensures Settled(Booted(disk, code), cred, n)
  {
    n :| 0 <= n < |disk| && disk[n] == cred;
  }

  lemma OnListsKeeps(p: Process, m: Move, q: Process, cred: CredId)
    requires OnLists(p, cred) && cred in p.now.passkeys && Step(p, m, q)
    ensures OnLists(q, cred)
  {
  }

  lemma KeptKeeps(p: Process, m: Move, q: Process, cred: CredId)
    requires Sane(p) && Kept(p, cred) && Step(p, m, q)
    ensures Kept(q, cred)
  {
    var n :| Settled(p, cred, n);
    OnListsKeeps(p, m, q, cred);
    if m.Section? {
      SectionSettled(p, m.x, q, cred, n);
    } else if m.Restart? {
      var k := BootedSettled(p.disk, m.code, cred);
    } else {
      assert Settled(q, cred, n);
    }
  }

  lemma {:induction false} KeptStays(p: Process, moves: seq<Move>, q: Process, cred: CredId)
    requires Sane(p) && Kept(p, cred) && Leads(p, moves, q)
    ensures cred in q.disk
    decreases |moves|
  {
    if moves != [] {
      var mid :| Step(p, moves[0], mid) && Leads(mid, moves[1..], q);
      SaneKeeps(p, moves[0], mid);
      KeptKeeps(p, moves[0], mid, cred);
      KeptStays(mid, moves[1..], q, cred);
    }
  }

  // ---- moves in sequence ----

  lemma LeadsNowhere(p: Process)
    ensures Leads(p, [], p)
  {
  }

  lemma LeadsFirst(p: Process, m: Move, mid: Process, moves: seq<Move>, q: Process)
    requires Step(p, m, mid) && Leads(mid, moves, q)
    ensures Leads(p, [m] + moves, q)
  {
    assert ([m] + moves)[1..] == moves;
  }

  lemma LeadsOne(p: Process, m: Move, q: Process)
    requires Step(p, m, q)
    ensures Leads(p, [m], q)
  {
    LeadsNowhere(q);
    LeadsFirst(p, m, q, [], q);
    assert [m] + [] == [m];
  }

  lemma {:induction false} LeadsOn(p: Process, moves: seq<Move>, mid: Process, more: seq<Move>, q: Process)
    requires Leads(p, moves, mid) && Leads(mid, more, q)
    ensures Leads(p, moves + more, q)
    decreases |moves|
  {
    if moves == [] {
      assert moves + more == more;
    } else {
      var next :| Step(p, moves[0], next) && Leads(next, moves[1..], mid);
      LeadsOn(next, moves[1..], mid, more, q);
      LeadsFirst(p, moves[0], next, moves[1..] + more, q);
      assert moves + more == [moves[0]] + (moves[1..] + more);
    }
  }

  lemma LeadsThen(p: Process, moves: seq<Move>, mid: Process, m: Move, q: Process)
    requires Leads(p, moves, mid) && Step(mid, m, q)
    ensures Leads(p, moves + [m], q)
  {
    LeadsOne(mid, m, q);
    LeadsOn(p, moves, mid, [m], q);
  }

  // ---- losing it ----

  lemma {:induction false} Above(s: set<nat>) returns (n: nat)
    ensures n !in s && forall x :: x in s ==> x < n
    decreases |s|
  {
    n := 0;
    if s != {} {
      var x :| x in s;
      var m := Above(s - {x});
      n := if m <= x then x + 1 else m;
      assert forall y :: y in s ==> y == x || y in s - {x};
    }
  }

  const RID: Token := [9]

  /** A sign-in that has been verified and has read the list. */
  lemma SignInReads(p: Process, c: CallId, cred: CredId) returns (moves: seq<Move>, q: Process)
    requires c !in p.now.calls && c !in p.tried && cred in p.now.passkeys
    ensures Leads(p, moves, q) && c in q.now.calls && q.now.calls[c].Verified? && c in q.tried
    ensures q.read == p.read[c := p.now.passkeys] && q.disk == p.disk && q.tried == p.tried + {c}
    ensures q.now == p.now.(logins := q.now.logins, calls := p.now.calls[c := Verified])
  {
    var offered := p.now.(logins := p.now.logins[RID := SetOf(p.now.passkeys)]);
    var verified := offered.(logins := offered.logins - {RID}, calls := offered.calls[c := Verified]);
    assert Act(p.now, Offer(RID), offered);
    assert Act(offered, Verify(c, RID, cred), verified);
    LeadsOne(p, Section(Offer(RID)), p.(now := offered));
    LeadsThen(p, [Section(Offer(RID))], p.(now := offered), Section(Verify(c, RID, cred)), p.(now := verified));
    q := p.(now := verified, read := p.read[c := p.now.passkeys], tried := p.tried + {c});
    moves := [Section(Offer(RID))] + [Section(Verify(c, RID, cred))];
    LeadsThen(p, moves, p.(now := verified), Read(c), q);
    moves := moves + [Read(c)];
  }

  /** Not in memory, where somebody is: the next sign-in's save leaves it out. */
  lemma LostBySignIn(p: Process, cred: CredId) returns (moves: seq<Move>, q: Process)
    requires Sane(p) && cred !in p.now.passkeys && p.now.passkeys != []
    ensures Leads(p, moves, q) && cred !in q.disk
  {
    var c := FreshCall(p);
    var mid;
    moves, mid := SignInReads(p, c, p.now.passkeys[0]);
    q := mid.(disk := p.now.passkeys, read := mid.read - {c});
    LeadsThen(p, moves, mid, Land(c), q);
    moves := moves + [Land(c)];
  }

  lemma FreshCall(p: Process) returns (c: CallId)
    requires Sane(p)
    ensures c !in p.now.calls && c !in p.tried && c !in p.read
  {
    c := Above(p.now.calls.Keys);
    forall d | d in p.tried
      ensures d in p.now.calls
    {
      assert TriedCall(p, d);
    }
    forall d | d in p.read
      ensures d in p.now.calls
    {
      assert ReadingCall(p, d);
    }
  }

  /** Memory empty: the next bootstrap's save leaves it out. */
  lemma LostByClaim(p: Process, cred: CredId) returns (moves: seq<Move>, q: Process)
    requires Sane(p) && p.now.passkeys == []
    ensures Leads(p, moves, q) && cred !in q.disk
  {
    var c := FreshCall(p);
    var other := cred + 1;
    var parked := p.now.(reg := p.now.reg[RID := Bootstrap]);
    var taken := parked.(reg := parked.reg - {RID}, calls := parked.calls[c := Taken(Bootstrap)]);
    var pushed := taken.(passkeys := taken.passkeys + [other], calls := taken.calls[c := Pushed(Bootstrap, other)]);
    assert Act(p.now, Park(RID, Bootstrap), parked) && Act(parked, Take(c, RID), taken);
    assert Act(taken, Push(c, None, other), pushed);
    LeadsOne(p, Section(Park(RID, Bootstrap)), p.(now := parked));
    LeadsThen(p, [Section(Park(RID, Bootstrap))], p.(now := parked), Section(Take(c, RID)), p.(now := taken));
    moves := [Section(Park(RID, Bootstrap))] + [Section(Take(c, RID))];
    LeadsThen(p, moves, p.(now := taken), Section(Push(c, None, other)), p.(now := pushed));
    moves := moves + [Section(Push(c, None, other))];
    var more;
    more, q := SavesList(p.(now := pushed), c);
    LeadsOn(p, moves, p.(now := pushed), more, q);
    moves := moves + more;
    assert pushed.passkeys == [other];
  }

  /** An enrolment reads and lands: the disk is then what is in memory. */
  lemma SavesList(p: Process, c: CallId) returns (moves: seq<Move>, q: Process)
    requires c in p.now.calls && p.now.calls[c].Pushed? && c !in p.tried
    ensures Leads(p, moves, q) && q.disk == p.now.passkeys && q.now.passkeys == p.now.passkeys
    ensures c in q.now.calls && q.now.calls[c] == Saved(p.now.calls[c].mode)
    ensures forall d :: d in p.now.calls && d != c ==> d in q.now.calls && q.now.calls[d] == p.now.calls[d]
    ensures forall d :: d in p.read && d != c ==> d in q.read && q.read[d] == p.read[d]
  {
    var mode := p.now.calls[c].mode;
    var read := p.(read := p.read[c := p.now.passkeys], tried := p.tried + {c});
    var saved := p.now.(calls := p.now.calls[c := Saved(mode)], successes := p.now.successes + 1,
                        claims := p.now.claims + if mode == Bootstrap then 1 else 0);
    q := Process(saved, p.now.passkeys, read.read - {c}, read.tried);
    LeadsOne(p, Read(c), read);
    LeadsThen(p, [Read(c)], read, Section(Persist(c, true)), q);
    moves := [Read(c)] + [Section(Persist(c, true))];
  }

  lemma SomeUndecided(calls: map<CallId, Phase>) returns (c: CallId)
    requires 0 < |Undecided(calls)|
    ensures c in calls && (calls[c].Pushed? || calls[c].Failed?)
  {
    if forall d :: d !in Undecided(calls) {
      NobodyUndecided(calls);
    }
    c :| c in Undecided(calls);
  }

  lemma NobodyUndecided(calls: map<CallId, Phase>)
    requires forall d :: d !in Undecided(calls)
    ensures |Undecided(calls)| == 0
  {
    assert Undecided(calls) == {};
  }

  /** An undecided enrolment fails and takes the last credential off the list. */
  lemma RollBack(p: Process, c: CallId) returns (moves: seq<Move>, q: Process)
    requires Sane(p) && c in p.now.calls && (p.now.calls[c].Pushed? || p.now.calls[c].Failed?)
    ensures Leads(p, moves, q) && Sane(q)
    ensures p.now.passkeys != [] && q.now.passkeys == p.now.passkeys[..|p.now.passkeys| - 1]
    ensures q.now.base == p.now.base && q.now.successes == p.now.successes
  {
    var mid;
    moves, mid := FailSave(p, c);
    var list := mid.now.passkeys;
    var popped := mid.now.(passkeys := if list == [] then [] else list[..|list| - 1],
                           calls := mid.now.calls[c := Finished]);
    q := mid.(now := popped);
    assert Act(mid.now, Pop(c), popped);
    PopKeeps(mid.now, c, popped);
    SaneKeeps(mid, Section(Pop(c)), q);
    LeadsThen(p, moves, mid, Section(Pop(c)), q);
    moves := moves + [Section(Pop(c))];
  }

  lemma FailSave(p: Process, c: CallId) returns (moves: seq<Move>, q: Process)
    requires Sane(p) && c in p.now.calls && (p.now.calls[c].Pushed? || p.now.calls[c].Failed?)
    ensures Leads(p, moves, q) && Sane(q) && c in q.now.calls && q.now.calls[c].Failed?
    ensures q.now.passkeys == p.now.passkeys && q.now.base == p.now.base && q.now.successes == p.now.successes
  {
    LeadsNowhere(p);
    moves, q := [], p;
    if p.now.calls[c].Pushed? {
      if c !in p.tried {
        q := p.(read := p.read[c := p.now.passkeys], tried := p.tried + {c});
        SaneKeeps(p, Read(c), q);
        LeadsOne(p, Read(c), q);
        moves := [Read(c)];
      } else {
        assert TriedCall(p, c);
      }
      var read := q;
      var failed := read.now.(calls := read.now.calls[c := Failed(read.now.calls[c].mode, read.now.calls[c].cred)]);
      q := Process(failed, read.disk, read.read - {c}, read.tried);
      SaneKeeps(read, Section(Persist(c, false)), q);
      LeadsThen(p, moves, read, Section(Persist(c, false)), q);
      moves := moves + [Section(Persist(c, false))];
    }
  }

  /** Above as many credentials as were loaded or saved: if the undecided enrolments fail, it goes. */
  lemma {:induction false} LostByRollbacks(p: Process, cred: CredId, n: nat) returns (moves: seq<Move>, q: Process)
    requires Sane(p) && n < |p.now.passkeys| && p.now.passkeys[n] == cred && p.now.base + p.now.successes <= n
    ensures Leads(p, moves, q) && cred !in q.disk
    decreases |p.now.passkeys| - n
  {
    var c := SomeUndecided(p.now.calls);
    var mid;
    moves, mid := RollBack(p, c);
    var rest;
    if n == |p.now.passkeys| - 1 {
      assert cred !in mid.now.passkeys;
      rest, q := LostFromMemory(mid, cred);
    } else {
      rest, q := LostByRollbacks(mid, cred, n);
    }
    LeadsOn(p, moves, mid, rest, q);
    moves := moves + rest;
  }

  lemma LostFromMemory(p: Process, cred: CredId) returns (moves: seq<Move>, q: Process)
    requires Sane(p) && cred !in p.now.passkeys
    ensures Leads(p, moves, q) && cred !in q.disk
  {
    if p.now.passkeys == [] {
      moves, q := LostByClaim(p, cred);
    } else {
      moves, q := LostBySignIn(p, cred);
    }
  }

  /** An older list lands. */
  lemma LostByLanding(p: Process, cred: CredId, c: CallId) returns (moves: seq<Move>, q: Process)
    requires Sane(p) && c in p.read && cred !in p.read[c]
    ensures Leads(p, moves, q) && cred !in q.disk
  {
    assert ReadingCall(p, c);
    if p.now.calls[c].Verified? {
      q := p.(disk := p.read[c], read := p.read - {c});
      LeadsOne(p, Land(c), q);
      moves := [Land(c)];
    } else {
      var mode := p.now.calls[c].mode;
      var saved := p.now.(calls := p.now.calls[c := Saved(mode)], successes := p.now.successes + 1,
                          claims := p.now.claims + if mode == Bootstrap then 1 else 0);
      q := Process(saved, p.read[c], p.read - {c}, p.tried);
      LeadsOne(p, Section(Persist(c, true)), q);
      moves := [Section(Persist(c, true))];
    }
  }

  lemma Lost(p: Process, cred: CredId) returns (moves: seq<Move>, q: Process)
    requires Sane(p) && !Kept(p, cred)
    ensures Leads(p, moves, q) && cred !in q.disk
  {
    if cred !in p.disk {
      LeadsNowhere(p);
      moves, q := [], p;
    } else if c :| c in p.read && cred !in p.read[c] {
      moves, q := LostByLanding(p, cred, c);
    } else if cred !in p.now.passkeys {
      moves, q := LostFromMemory(p, cred);
    } else {
      var n :| 0 <= n < |p.now.passkeys| && p.now.passkeys[n] == cred;
      assert !Settled(p, cred, n);
      moves, q := LostByRollbacks(p, cred, n);
    }
  }

  /** Through every continuation of sections, saves and restarts, the credential is on disk. */
  ghost predicate NeverLost(p: Process, cred: CredId) {
    forall moves, q :: Leads(p, moves, q) ==> cred in q.disk
  }

  /** The exact condition: a credential survives every continuation and every restart if and only if it
      is on disk, on every list a save in progress has read, and in memory among the first as many
      credentials as were loaded or have been saved. */
  lemma NeverLostIffKept(p: Process, cred: CredId)
    requires Sane(p)
    ensures NeverLost(p, cred) <==> Kept(p, cred)
  {
    if Kept(p, cred) {
      forall moves, q | Leads(p, moves, q)
        ensures cred in q.disk
      {
        KeptStays(p, moves, q, cred);
      }
    } else {
      var moves, q := Lost(p, cred);
    }
  }

  // ---- the usable case ----

  ghost predicate Path(states: seq<Process>, moves: seq<Move>) {
    && |states| == |moves| + 1
    && forall i {:trigger Moved(states, moves, i)} :: 0 <= i < |moves| ==> Moved(states, moves, i)
  }

  ghost predicate Moved(states: seq<Process>, moves: seq<Move>, i: int)
    requires 0 <= i < |moves| == |states| - 1
  {
    Step(states[i], moves[i], states[i + 1])
  }

  /** From the push at `i` until `k`, no other call is undecided and no other save has read. */
  ghost predicate Alone(states: seq<Process>, c: CallId, i: nat, k: nat)
    requires i <= k < |states|
  {
    forall j {:trigger OnlyCall(states[j], c)} :: i < j <= k ==> OnlyCall(states[j], c)
  }

  ghost predicate OnlyCall(p: Process, c: CallId) {
    Undecided(p.now.calls) == {c} && p.read.Keys <= {c}
  }

  /** The list is `list` and the call's save, if it has read, has read just that. */
  ghost predicate Holds(p: Process, c: CallId, list: seq<CredId>) {
    p.now.passkeys == list && (c in p.read ==> p.read[c] == list)
  }

  lemma AloneStep(p: Process, m: Move, q: Process, c: CallId, list: seq<CredId>)
    requires Step(p, m, q) && OnlyCall(p, c) && OnlyCall(q, c) && Holds(p, c, list)
    ensures Holds(q, c, list) && q.now.base == p.now.base && q.now.successes == p.now.successes
  {
    match m
    case Section(x) =>
      RollbackIdentity.AloneStep(p.now, x, q.now, c);
      if x.Persist? {
        assert x.call in Undecided(p.now.calls);
      }
    case Read(_) =>
    case Land(_) =>
    case Drop(_) =>
    case Restart(code) =>
      assert c in Undecided(q.now.calls);
  }

  lemma {:induction false} SaneAlong(states: seq<Process>, moves: seq<Move>, i: nat, k: nat)
    requires Path(states, moves) && i <= k <= |moves| && Sane(states[i])
    ensures Sane(states[k])
    decreases k
  {
    if i < k {
      SaneAlong(states, moves, i, k - 1);
      assert Moved(states, moves, k - 1);
      SaneKeeps(states[k - 1], moves[k - 1], states[k]);
    }
  }

  lemma {:induction false} AloneHolds(states: seq<Process>, moves: seq<Move>, c: CallId, list: seq<CredId>,
                                      i: nat, k: nat)
    requires Path(states, moves) && i < k <= |moves| && Alone(states, c, i, k) && Holds(states[i + 1], c, list)
    ensures Holds(states[k], c, list)
    ensures states[k].now.base == states[i + 1].now.base && states[k].now.successes == states[i + 1].now.successes
    decreases k
  {
    if i + 1 < k {
      AloneHolds(states, moves, c, list, i, k - 1);
      assert Moved(states, moves, k - 1) && OnlyCall(states[k - 1], c) && OnlyCall(states[k], c);
      AloneStep(states[k - 1], moves[k - 1], states[k], c, list);
    }
  }

  lemma PushHolds(p: Process, c: CallId, session: Option<Token>, cred: CredId, q: Process)
    requires Sane(p) && Step(p, Section(Push(c, session, cred)), q) && OnlyCall(q, c)
    requires q.now.passkeys == p.now.passkeys + [cred]
    ensures Holds(q, c, q.now.passkeys) && |q.now.passkeys| == q.now.base + q.now.successes + 1
  {
    SectionSane(p, Push(c, session, cred), q);
    if c in p.read {
      assert ReadingCall(p, c);
    }
  }

  lemma PersistKept(p: Process, c: CallId, list: seq<CredId>, cred: CredId, q: Process)
    requires Sane(p) && Step(p, Section(Persist(c, true)), q) && OnlyCall(p, c) && Holds(p, c, list)
    requires |list| == p.now.base + p.now.successes + 1 && list[|list| - 1] == cred
    ensures Kept(q, cred)
  {
    assert Settled(q, cred, |list| - 1);
  }

  /** The usable case: an enrolment whose save lands lasts for ever if, from its push to its rename, no
      other enrolment was undecided and no other save held a list. */
  lemma LoneEnrolmentLasts(states: seq<Process>, moves: seq<Move>, c: CallId, session: Option<Token>, cred: CredId,
                           i: nat, k: nat)
    requires Path(states, moves) && i < k < |moves| && Sane(states[i])
    requires moves[i] == Section(Push(c, session, cred)) && moves[k] == Section(Persist(c, true))
    requires states[i + 1].now.passkeys == states[i].now.passkeys + [cred] && Alone(states, c, i, k)
    ensures NeverLost(states[k + 1], cred)
  {
    var list := states[i + 1].now.passkeys;
    assert Moved(states, moves, i) && Moved(states, moves, k);
    assert OnlyCall(states[i + 1], c) && OnlyCall(states[k], c);
    PushHolds(states[i], c, session, cred, states[i + 1]);
    AloneHolds(states, moves, c, list, i, k);
    SaneAlong(states, moves, i, k);
    SaneAlong(states, moves, i, k + 1);
    PersistKept(states[k], c, list, cred, states[k + 1]);
    NeverLostIffKept(states[k + 1], cred);
  }

  // ---- a reported credential that is lost ----

  const COOKIE: Token := [3]

  /** The owner signs in, and the sign-in's save lands. */
  lemma OwnerSignsIn(p: Process, c: CallId) returns (moves: seq<Move>, q: Process)
    requires p.now.passkeys == p.disk == [7] && c !in p.now.calls && c !in p.tried && c !in p.read
    ensures Leads(p, moves, q) && q.now.passkeys == q.disk == [7] && COOKIE in q.now.sessions
    ensures q.read == p.read && q.tried == p.tried + {c} && q.now.calls == p.now.calls[c := Finished]
  {
    var mid;
    moves, mid := SignInReads(p, c, 7);
    var landed := mid.(disk := [7], read := mid.read - {c});
    assert landed.read == p.read;
    LeadsThen(p, moves, mid, Land(c), landed);
    moves := moves + [Land(c)];
    q := landed.(now := landed.now.(sessions := landed.now.sessions + {COOKIE},
                                    calls := landed.now.calls[c := Finished]));
    assert Act(landed.now, SignIn(c, COOKIE), q.now);
    LeadsThen(p, moves, landed, Section(SignIn(c, COOKIE)), q);
    moves := moves + [Section(SignIn(c, COOKIE))];
    assert q.now.calls == p.now.calls[c := Finished];
  }

  /** A device is added, saved and about to be reported. */
  lemma DeviceAdded(p: Process, c: CallId, cred: CredId) returns (moves: seq<Move>, q: Process)
    requires c !in p.now.calls && c !in p.tried && COOKIE in p.now.sessions && cred !in p.now.passkeys
    ensures Leads(p, moves, q) && q.disk == p.now.passkeys + [cred]
    ensures c in q.now.calls && q.now.calls[c] == Saved(AddDevice)
    ensures forall d :: d in p.now.calls && d != c ==> d in q.now.calls && q.now.calls[d] == p.now.calls[d]
    ensures forall d :: d in p.read && d != c ==> d in q.read && q.read[d] == p.read[d]
  {
    var parked := p.now.(reg := p.now.reg[RID := AddDevice]);
    var taken := parked.(reg := parked.reg - {RID}, calls := parked.calls[c := Taken(AddDevice)]);
    var pushed := taken.(passkeys := taken.passkeys + [cred], calls := taken.calls[c := Pushed(AddDevice, cred)]);
    assert Act(p.now, Park(RID, AddDevice), parked) && Act(parked, Take(c, RID), taken);
    assert Act(taken, Push(c, Some(COOKIE), cred), pushed);
    LeadsOne(p, Section(Park(RID, AddDevice)), p.(now := parked));
    LeadsThen(p, [Section(Park(RID, AddDevice))], p.(now := parked), Section(Take(c, RID)), p.(now := taken));
    moves := [Section(Park(RID, AddDevice))] + [Section(Take(c, RID))];
    LeadsThen(p, moves, p.(now := taken), Section(Push(c, Some(COOKIE), cred)), p.(now := pushed));
    moves := moves + [Section(Push(c, Some(COOKIE), cred))];
    var more;
    more, q := SavesList(p.(now := pushed), c);
    LeadsOn(p, moves, p.(now := pushed), more, q);
    moves := moves + more;
  }

  /** From a start with credential 7: a sign-in reads the list; the owner signs in as well and adds credential
      8, whose enrolment is saved and reported; then the first sign-in's rename lands. After a restart 8
      is gone. */
  lemma ReportedIsLost(code: Token) returns (first: seq<Move>, saved: Process, rest: seq<Move>, q: Process)
    ensures Leads(Booted([7], code), first, saved) && 8 in saved.disk
    ensures 1 in saved.now.calls && saved.now.calls[1] == Saved(AddDevice)
    ensures Leads(saved, rest, q) && q.disk == [7] && q.now.passkeys == [7]
  {
    var p := Booted([7], code);
    var reading, signed;
    first, reading := SignInReads(p, 0, 7);
    var more;
    more, signed := OwnerSignsIn(reading, 2);
    LeadsOn(p, first, reading, more, signed);
    first := first + more;
    more, saved := DeviceAdded(signed, 1, 8);
    LeadsOn(p, first, signed, more, saved);
    first := first + more;
    var landed := saved.(disk := [7], read := saved.read - {0});
    LeadsOne(saved, Land(0), landed);
    q := Booted([7], code);
    LeadsThen(saved, [Land(0)], landed, Restart(code), q);
    rest := [Land(0)] + [Restart(code)];
  }
}
