/** Whose credential a rollback takes: the list of credentials as a stack over a run. */
module RollbackIdentity {
  import opened Buckets
  import opened Ceremonies
  import opened Auth
  import opened Interleaving
  import opened Granularity
  import opened Claims

  /** Section `i` put `cred` on the list. */
  ghost predicate Pushes(states: seq<Shared>, acts: seq<Section>, i: int, cred: CredId)
    requires 0 <= i < |acts| == |states| - 1
  {
    acts[i].Push? && acts[i].cred == cred && states[i + 1].passkeys == states[i].passkeys + [cred]
  }

  /** Credentials pushed less credentials popped by the sections from `i` up to `j`. */
  ghost function Net(states: seq<Shared>, acts: seq<Section>, i: nat, j: nat): int
    requires i <= j <= |acts| == |states| - 1
    decreases j
  {
    if i == j then 0
    else
      Net(states, acts, i, j - 1)
      + if acts[j - 1].Pop? then -1
        else if acts[j - 1].Push? && states[j].passkeys != states[j - 1].passkeys then 1
        else 0
  }

  /** How one section moves the list. */
  lemma Moves(s: Shared, x: Section, t: Shared)
    requires CountExact(s) && Act(s, x, t)
    ensures if x.Pop? then s.passkeys != [] && t.passkeys == s.passkeys[..|s.passkeys| - 1]
            else t.passkeys == s.passkeys || (x.Push? && x.cred !in s.passkeys && t.passkeys == s.passkeys + [x.cred])
  {
    if x.Pop? {
      PopKeeps(s, x.call, t);
    }
  }

  lemma RunMoves(states: seq<Shared>, acts: seq<Section>, i: nat)
    requires Run(states, acts) && i < |acts|
    ensures CountExact(states[i]) && CountExact(states[i + 1])
    ensures
      var before, after := states[i].passkeys, states[i + 1].passkeys;
      if acts[i].Pop? then before != [] && after == before[..|before| - 1]
      else after == before || Pushes(states, acts, i, if acts[i].Push? then acts[i].cred else 0)
    ensures acts[i].Push? && states[i + 1].passkeys != states[i].passkeys ==> acts[i].cred !in states[i].passkeys
  {
    AlwaysCountExact(states, acts, i);
    AlwaysCountExact(states, acts, i + 1);
    assert Acted(states, acts, i);
    Moves(states[i], acts[i], states[i + 1]);
  }

  lemma {:induction false} HeightIsNet(states: seq<Shared>, acts: seq<Section>, i: nat, j: nat)
    requires Run(states, acts) && i <= j <= |acts|
    ensures |states[j].passkeys| == |states[i].passkeys| + Net(states, acts, i, j)
    decreases j
  {
    if i < j {
      HeightIsNet(states, acts, i, j - 1);
      RunMoves(states, acts, j - 1);
    }
  }

  /** From `i` to `j` the pops never outnumber the pushes. */
  ghost predicate Kept(states: seq<Shared>, acts: seq<Section>, i: nat, j: nat)
    requires i <= j <= |acts| == |states| - 1
  {
    forall m: nat :: i <= m <= j ==> 0 <= Net(states, acts, i, m)
  }

  /** What is on the list stays in its place for as long as that holds. */
  lemma {:induction false} StackPrefix(states: seq<Shared>, acts: seq<Section>, i: nat, j: nat)
    requires Run(states, acts) && i <= j <= |acts| && Kept(states, acts, i, j)
    ensures |states[i].passkeys| <= |states[j].passkeys|
    ensures states[j].passkeys[..|states[i].passkeys|] == states[i].passkeys
    decreases j
  {
    HeightIsNet(states, acts, i, j);
    assert 0 <= Net(states, acts, i, j);
    if i < j {
      KeptShorter(states, acts, i, j, j - 1);
      StackPrefix(states, acts, i, j - 1);
      RunMoves(states, acts, j - 1);
    }
  }

  lemma KeptShorter(states: seq<Shared>, acts: seq<Section>, i: nat, j: nat, k: nat)
    requires i <= k <= j <= |acts| == |states| - 1 && Kept(states, acts, i, j)
    ensures Kept(states, acts, i, k)
  {
  }

  lemma KeptLonger(states: seq<Shared>, acts: seq<Section>, i: nat, j: nat)
    requires i < j <= |acts| == |states| - 1 && Kept(states, acts, i, j - 1) && 0 <= Net(states, acts, i, j)
    ensures Kept(states, acts, i, j)
  {
    forall m: nat | i <= m <= j
      ensures 0 <= Net(states, acts, i, m)
    {
      if m < j {
        assert Kept(states, acts, i, j - 1);
      }
    }
  }

  /** `cred` was on the list when the process started and its place was never popped. */
  ghost predicate FromStart(states: seq<Shared>, acts: seq<Section>, cred: CredId, j: nat)
    requires j <= |acts| == |states| - 1
  {
    exists p :: 0 <= p < |states[0].passkeys| && states[0].passkeys[p] == cred && Above(states, p, j)
  }

  /** The list was longer than `p` at every moment up to `j`. */
  ghost predicate Above(states: seq<Shared>, p: int, j: nat)
    requires j < |states|
  {
    forall m :: 0 <= m <= j ==> p < |states[m].passkeys|
  }

  lemma {:induction false} AboveStays(states: seq<Shared>, acts: seq<Section>, p: nat, j: nat)
    requires Run(states, acts) && j <= |acts| && Above(states, p, j)
    ensures p < |states[0].passkeys| && p < |states[j].passkeys| && states[j].passkeys[p] == states[0].passkeys[p]
    decreases j
  {
    if j > 0 {
      AboveStays(states, acts, p, j - 1);
      RunMoves(states, acts, j - 1);
    }
  }

  /** Some push of `cred` has since never been undone. */
  ghost predicate PushKept(states: seq<Shared>, acts: seq<Section>, cred: CredId, j: nat)
    requires j <= |acts| == |states| - 1
  {
    exists i: nat :: PushKeptAt(states, acts, cred, i, j)
  }

  ghost predicate PushKeptAt(states: seq<Shared>, acts: seq<Section>, cred: CredId, i: nat, j: nat)
    requires j <= |acts| == |states| - 1
  {
    i < j && Pushes(states, acts, i, cred) && Kept(states, acts, i + 1, j)
  }

  lemma KeptIsEnrolled(states: seq<Shared>, acts: seq<Section>, cred: CredId, j: nat)
    requires Run(states, acts) && j <= |acts|
    requires FromStart(states, acts, cred, j) || PushKept(states, acts, cred, j)
    ensures cred in states[j].passkeys
  {
    if FromStart(states, acts, cred, j) {
      var p :| 0 <= p < |states[0].passkeys| && states[0].passkeys[p] == cred && Above(states, p, j);
      AboveStays(states, acts, p, j);
    } else {
      var i: nat :| PushKeptAt(states, acts, cred, i, j);
      StackPrefix(states, acts, i + 1, j);
      var n := |states[i].passkeys|;
      assert states[i + 1].passkeys[n] == cred;
      assert states[j].passkeys[..n + 1][n] == cred;
    }
  }

  lemma {:induction false} EnrolledIsKept(states: seq<Shared>, acts: seq<Section>, cred: CredId, j: nat)
    requires Run(states, acts) && j <= |acts| && cred in states[j].passkeys
    ensures FromStart(states, acts, cred, j) || PushKept(states, acts, cred, j)
    decreases j
  {
    if j == 0 {
      var p :| 0 <= p < |states[0].passkeys| && states[0].passkeys[p] == cred;
      assert Above(states, p, 0);
    } else {
      RunMoves(states, acts, j - 1);
      if Pushes(states, acts, j - 1, cred) {
        assert Kept(states, acts, j, j);
        assert PushKeptAt(states, acts, cred, j - 1, j);
      } else {
        EnrolledIsKept(states, acts, cred, j - 1);
        StillKept(states, acts, cred, j);
      }
    }
  }

  lemma StillKept(states: seq<Shared>, acts: seq<Section>, cred: CredId, j: nat)
    requires Run(states, acts) && 0 < j <= |acts| && cred in states[j].passkeys
    requires FromStart(states, acts, cred, j - 1) || PushKept(states, acts, cred, j - 1)
    ensures FromStart(states, acts, cred, j) || PushKept(states, acts, cred, j)
  {
    RunMoves(states, acts, j - 1);
    if FromStart(states, acts, cred, j - 1) {
      var p :| 0 <= p < |states[0].passkeys| && states[0].passkeys[p] == cred && Above(states, p, j - 1);
      AboveStays(states, acts, p, j - 1);
      PlaceStays(states[j - 1].passkeys, states[j].passkeys, p);
      assert Above(states, p, j);
    } else {
      var i: nat :| PushKeptAt(states, acts, cred, i, j - 1);
      StillKeptAt(states, acts, cred, i, j);
    }
  }

  lemma StillKeptAt(states: seq<Shared>, acts: seq<Section>, cred: CredId, i: nat, j: nat)
    requires Run(states, acts) && 0 < j <= |acts| && cred in states[j].passkeys
    requires PushKeptAt(states, acts, cred, i, j - 1)
    ensures PushKeptAt(states, acts, cred, i, j)
  {
    var n := |states[i].passkeys|;
    RunMoves(states, acts, j - 1);
    StackPrefix(states, acts, i + 1, j - 1);
    assert states[i + 1].passkeys[n] == cred;
    assert states[j - 1].passkeys[..n + 1][n] == cred;
    PlaceStays(states[j - 1].passkeys, states[j].passkeys, n);
    HeightIsNet(states, acts, i + 1, j);
    KeptLonger(states, acts, i + 1, j);
  }

  /** In a list without repetitions, an element that survives a pop was not the last. */
  lemma PlaceStays(a: seq<CredId>, b: seq<CredId>, p: nat)
    requires DistinctCreds(a) && p < |a| && a[p] in b
    requires b == a || (|a| < |b|) || b == a[..|a| - 1]
    ensures p < |b|
  {
  }

  /** A credential is enrolled at a moment of a run if and only if it was there at the start or pushed
      since, and from then on the pops never reached its place. */
  lemma EnrolledIffKept(states: seq<Shared>, acts: seq<Section>, cred: CredId, j: nat)
    requires Run(states, acts) && j <= |acts|
    ensures cred in states[j].passkeys <==> FromStart(states, acts, cred, j) || PushKept(states, acts, cred, j)
  {
    if cred in states[j].passkeys {
      EnrolledIsKept(states, acts, cred, j);
    }
    if FromStart(states, acts, cred, j) || PushKept(states, acts, cred, j) {
      KeptIsEnrolled(states, acts, cred, j);
    }
  }

  /** Over every run: a call that pushed at `i` and rolls back at `k` gets its own credential off the
      list if and only if, at some moment from its push to its own pop included, the pops since the
      push outnumber the pushes. Otherwise the failed credential stays and another one went. */
  lemma RollbackOutcome(states: seq<Shared>, acts: seq<Section>, cred: CredId, i: nat, k: nat)
    requires Run(states, acts) && i < k < |acts|
    requires Pushes(states, acts, i, cred) && acts[k] == Pop(acts[i].call)
    requires forall j :: i < j < k ==> !Pushes(states, acts, j, cred)
    ensures cred !in states[k + 1].passkeys <==> !Kept(states, acts, i + 1, k + 1)
  {
    EnrolledIffKept(states, acts, cred, k + 1);
    if Kept(states, acts, i + 1, k + 1) {
      assert PushKeptAt(states, acts, cred, i, k + 1);
    } else {
      RunMoves(states, acts, i);
      assert !FromStart(states, acts, cred, k + 1) by {
        if FromStart(states, acts, cred, k + 1) {
          var p :| 0 <= p < |states[0].passkeys| && states[0].passkeys[p] == cred && Above(states, p, k + 1);
          assert Above(states, p, i);
          KeptIsEnrolled(states, acts, cred, i);
        }
      }
      if PushKept(states, acts, cred, k + 1) {
        var h: nat :| PushKeptAt(states, acts, cred, h, k + 1);
        EarlierPush(states, acts, cred, h, i, k);
      }
    }
  }

  /** A push of `cred` cannot have been kept while `cred` was pushed again. */
  lemma EarlierPush(states: seq<Shared>, acts: seq<Section>, cred: CredId, h: nat, i: nat, k: nat)
    requires Run(states, acts) && i <= k < |acts| && Pushes(states, acts, i, cred)
    requires PushKeptAt(states, acts, cred, h, k + 1)
    ensures i <= h
  {
    if h < i {
      RunMoves(states, acts, i);
      KeptShorter(states, acts, h + 1, k + 1, i);
      assert PushKeptAt(states, acts, cred, h, i);
      KeptIsEnrolled(states, acts, cred, i);
    }
  }

  /** One pop takes the call's own credential exactly when that is the newest on the list. */
  lemma RollbackTakesOwn(s: Shared, c: CallId, t: Shared)
    requires CountExact(s) && Act(s, Pop(c), t) && s.calls[c].cred in s.passkeys
    ensures s.calls[c].cred !in t.passkeys <==> s.calls[c].cred == s.passkeys[|s.passkeys| - 1]
  {
    PopKeeps(s, c, t);
    var n := |s.passkeys| - 1;
    assert s.passkeys == t.passkeys + [s.passkeys[n]];
    forall i | 0 <= i < n
      ensures t.passkeys[i] != s.passkeys[n]
    {
      assert t.passkeys[i] == s.passkeys[i];
    }
  }

  /** From a push at `i` until `k`, no other call is undecided. */
  ghost predicate Alone(states: seq<Shared>, c: CallId, i: nat, k: nat)
    requires i <= k < |states|
  {
    forall j :: i < j <= k ==> Undecided(states[j].calls) == {c}
  }

  lemma {:induction false} AloneKeeps(states: seq<Shared>, acts: seq<Section>, c: CallId, i: nat, k: nat)
    requires Run(states, acts) && i < k <= |acts| && Alone(states, c, i, k)
    ensures states[k].passkeys == states[i + 1].passkeys
    decreases k
  {
    if i + 1 < k {
      AloneKeeps(states, acts, c, i, k - 1);
      assert Acted(states, acts, k - 1);
      AloneStep(states[k - 1], acts[k - 1], states[k], c);
    }
  }

  lemma PushIsUndecided(s: Shared, c: CallId, session: Option<Token>, cred: CredId, t: Shared)
    requires Act(s, Push(c, session, cred), t)
    ensures c !in Undecided(s.calls)
    ensures t.passkeys != s.passkeys ==> c in Undecided(t.calls)
  {
  }

  lemma PopIsDecided(s: Shared, c: CallId, t: Shared)
    requires Act(s, Pop(c), t)
    ensures c in Undecided(s.calls) && c !in Undecided(t.calls)
  {
  }

  lemma AloneStep(s: Shared, x: Section, t: Shared, c: CallId)
    requires Act(s, x, t) && Undecided(s.calls) == {c} && Undecided(t.calls) == {c}
    ensures t.passkeys == s.passkeys
  {
    if x.Push? {
      PushIsUndecided(s, x.call, x.session, x.cred, t);
    } else if x.Pop? {
      PopIsDecided(s, x.call, t);
    }
  }

  /** The usable case: with no other call undecided meanwhile, a rollback is exact. It restores the
      list the call found, so it takes nobody else's credential. */
  lemma LoneRollbackIsExact(states: seq<Shared>, acts: seq<Section>, cred: CredId, i: nat, k: nat)
    requires Run(states, acts) && i < k < |acts|
    requires Pushes(states, acts, i, cred) && acts[k] == Pop(acts[i].call)
    requires Alone(states, acts[i].call, i, k)
    ensures states[k + 1].passkeys == states[i].passkeys
  {
    AloneKeeps(states, acts, acts[i].call, i, k);
    RunMoves(states, acts, k);
  }

  // ---- a rollback that takes another call's credential ----

  /** The owner claims the account and starts adding two devices at once. */
  lemma TwoDevices(code: Token) returns (acts: seq<Section>, s: Shared)
    ensures Leads(Empty(code), acts, s)
    ensures s.passkeys == [7, 8, 9] && 1 in s.calls && 2 in s.calls
    ensures s.calls[1] == Pushed(AddDevice, 8) && s.calls[2] == Pushed(AddDevice, 9)
  {
    var s0 := Empty(code);
    var parked := s0.(reg := s0.reg[FIRST := Bootstrap]);
    LeadsOne(s0, Park(FIRST, Bootstrap), parked);
    var claim, claimed := SavedSections(parked, 0, FIRST, Bootstrap, None, 7, COOKIE);
    LeadsOn(s0, [Park(FIRST, Bootstrap)], parked, claim, claimed);
    assert claimed.passkeys == [7] && claimed.calls.Keys == {0};
    var more;
    more, s := TwoPushes(claimed);
    acts := [Park(FIRST, Bootstrap)] + claim + more;
    LeadsOn(s0, [Park(FIRST, Bootstrap)] + claim, claimed, more, s);
  }

  lemma TwoPushes(s: Shared) returns (acts: seq<Section>, t: Shared)
    requires s.passkeys == [7] && COOKIE in s.sessions && 1 !in s.calls && 2 !in s.calls
    ensures Leads(s, acts, t)
    ensures t.passkeys == [7, 8, 9] && 1 in t.calls && 2 in t.calls
    ensures t.calls[1] == Pushed(AddDevice, 8) && t.calls[2] == Pushed(AddDevice, 9)
  {
    var one := s.(reg := s.reg[FIRST := AddDevice]);
    var two := one.(reg := one.reg[SECOND := AddDevice]);
    LeadsOne(s, Park(FIRST, AddDevice), one);
    LeadsThen(s, [Park(FIRST, AddDevice)], one, Park(SECOND, AddDevice), two);
    acts := [Park(FIRST, AddDevice)] + [Park(SECOND, AddDevice)];
    var push, mid := PushedSections(two, 1, FIRST, AddDevice, Some(COOKIE), 8);
    LeadsOn(s, acts, two, push, mid);
    acts := acts + push;
    push, t := PushedSections(mid, 2, SECOND, AddDevice, Some(COOKIE), 9);
    LeadsOn(s, acts, mid, push, t);
    acts := acts + push;
  }

  /** A run in which call 2 enrols and saves credential 9 and call 1 fails to save credential 8, and
      at the end 9 is gone from the list and 8 is on it. */
  lemma RollbackTakesAnothers(code: Token) returns (states: seq<Shared>, acts: seq<Section>, m: nat)
    ensures Run(states, acts) && m + 3 == |acts|
    ensures 1 in states[m].calls && states[m].calls[1] == Pushed(AddDevice, 8)
    ensures 2 in states[m].calls && states[m].calls[2] == Pushed(AddDevice, 9)
    ensures acts[m..] == [Persist(2, true), Persist(1, false), Pop(1)]
    ensures 2 in states[m + 3].calls && states[m + 3].calls[2] == Saved(AddDevice)
    ensures states[m + 3].passkeys == [7, 8]
  {
    var s: Shared;
    acts, s := TwoDevices(code);
    m := |acts|;
    states := LeadsIsPath(Empty(code), acts, s);
    var saved := s.(calls := s.calls[2 := Saved(AddDevice)], successes := s.successes + 1);
    var failed := saved.(calls := saved.calls[1 := Failed(AddDevice, 8)]);
    var popped := failed.(passkeys := [7, 8], calls := failed.calls[1 := Finished]);
    assert [7, 8, 9][..2] == [7, 8];
    var s1 := RunThen(states, acts, Persist(2, true), saved);
    var a1 := acts + [Persist(2, true)];
    var s2 := RunThen(s1, a1, Persist(1, false), failed);
    var a2 := a1 + [Persist(1, false)];
    var s3 := RunThen(s2, a2, Pop(1), popped);
    assert s3[m] == states[m] && s3[m + 3] == popped;
    assert (a2 + [Pop(1)])[m..] == [Persist(2, true), Persist(1, false), Pop(1)];
    states, acts := s3, a2 + [Pop(1)];
  }
}
