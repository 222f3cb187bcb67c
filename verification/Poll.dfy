/** The dashboard's live loop: one self-scheduling chain of status requests. */
module Poll {
  import opened Buckets

  datatype Snapshot = Snapshot(ts: int, body: int)

  /** How a status request ends. `Failed` covers a network error, an abort by the request timeout,
      a bad status and an unreadable body. */
  datatype Answer = Unauthorized | Failed | Received(data: Option<Snapshot>)

  const CADENCE := 5000.0
  const SLOWEST := 20000.0

  /** The script's variables, plus what was last rendered and what the browser holds: timers not yet
      fired, requests not yet settled, whether the tab is hidden and whether the page was told to
      navigate away; `delay` is what the current timer was set to. */
  datatype Page = Page(timer: Option<nat>, inflight: bool, backoff: real, lastTs: Option<int>, latest: Option<Snapshot>,
                       shown: Option<Snapshot>, timers: set<nat>, nextTimer: nat, requests: nat, hidden: bool,
                       left: bool, delay: real)

  /** Before the script's first statement runs. */
  function Blank(hidden: bool): Page {
    Page(None, false, CADENCE, None, None, None, {}, 0, 0, hidden, false, 0.0)
  }

  /** `clearTimeout(timer)`; a handle that already fired is harmless. */
  function Cleared(p: Page): Page {
    if p.timer.Some? then p.(timers := p.timers - {p.timer.value}) else p
  }

  function Scheduled(p: Page, delay: real): Page {
    var c := Cleared(p);
    c.(timer := Some(c.nextTimer), timers := c.timers + {c.nextTimer}, nextTimer := c.nextTimer + 1, delay := delay)
  }

  function Polled(p: Page): Page {
    if p.inflight then p else p.(inflight := true, requests := p.requests + 1)
  }

  function Slower(backoff: real): real {
    if backoff * 1.6 <= SLOWEST then backoff * 1.6 else SLOWEST
  }

  /** The request settles: the `try`, `catch` and `finally` of `poll` and the rendering after them. */
  function Settled(p: Page, r: Answer): Page
    requires 0 < p.requests
  {
    var a := p.(inflight := false, requests := p.requests - 1);
    var b := match r
      case Unauthorized => a.(left := true)
      case Failed => a.(backoff := Slower(p.backoff))
      case Received(_) => a.(backoff := CADENCE);
    var c := if !r.Unauthorized? && !p.hidden then Scheduled(b, b.backoff) else b;
    if !r.Received? then c
    else if r.data.None? then c.(latest := None)
    else if c.lastTs == Some(r.data.value.ts) then c.(latest := r.data)
    else c.(latest := r.data, lastTs := Some(r.data.value.ts), shown := r.data)
  }

  datatype Event = Fire(id: nat) | Settle(answer: Answer) | Hide | Show

  /** A timer fires only if it was set and not cleared, a request settles only if there is one, and
      visibility changes alternate. */
  ghost predicate Step(p: Page, e: Event, q: Page) {
    match e
    case Fire(id) => id in p.timers && q == Polled(p.(timers := p.timers - {id}))
    case Settle(answer) => 0 < p.requests && q == Settled(p, answer)
    case Hide => !p.hidden && q == Cleared(p.(hidden := true))
    case Show => p.hidden && q == Scheduled(p.(hidden := false), 0.0)
  }

  ghost predicate Run(pages: seq<Page>, events: seq<Event>) {
    && |pages| == |events| + 1
    && (exists hidden :: pages[0] == Polled(Blank(hidden)))
    && forall i :: 0 <= i < |events| ==> Step(pages[i], events[i], pages[i + 1])
  }

  /** The chain is single and alive: every timer that can still fire is the current handle, the
      in-flight flag counts the requests, and a visible page that was not sent to the sign-in has a
      timer or a request to carry on with. */
  ghost predicate OneChain(p: Page) {
    && (forall id :: id in p.timers ==> p.timer == Some(id) && id < p.nextTimer)
    && p.requests == (if p.inflight then 1 else 0)
    && (p.hidden ==> p.timers == {})
    && (!p.hidden && !p.left ==> p.timers != {} || p.inflight)
    && CADENCE <= p.backoff <= SLOWEST
  }

  lemma ScheduleKeeps(p: Page, delay: real)
    requires forall id :: id in p.timers ==> p.timer == Some(id) && id < p.nextTimer
    ensures Scheduled(p, delay).timers == {p.nextTimer} && Scheduled(p, delay).timer == Some(p.nextTimer)
    ensures Scheduled(p, delay).nextTimer == p.nextTimer + 1 && Scheduled(p, delay).delay == delay
  {
  }

  lemma SettleKeeps(p: Page, r: Answer)
    requires OneChain(p) && 0 < p.requests
    ensures OneChain(Settled(p, r))
  {
    var b := p.(inflight := false, requests := p.requests - 1);
    ScheduleKeeps(b, Settled(p, r).backoff);
    assert p.inflight;
  }

  lemma StepKeeps(p: Page, e: Event, q: Page)
    requires OneChain(p) && Step(p, e, q)
    ensures OneChain(q)
  {
    match e
    case Fire(id) =>
    case Settle(answer) => SettleKeeps(p, answer);
    case Hide =>
    case Show => ScheduleKeeps(p.(hidden := false), 0.0);
  }

  lemma AtMostOneTimer(p: Page)
    requires OneChain(p)
    ensures |p.timers| <= 1 && p.requests <= 1
  {
    if p.timer.Some? {
      var only := {p.timer.value};
      assert p.timers <= only;
      assert only == p.timers + (only - p.timers);
    } else {
      forall id
        ensures id !in p.timers
      {
      }
      NoTimer(p.timers);
    }
  }

  lemma NoTimer(timers: set<nat>)
    requires forall id :: id !in timers
    ensures timers == {}
  {
  }

  /** Over every interleaving of timer fires, answers, hides and shows: at most one timer pending,
      at most one request in flight, and the chain never dies while the page is visible. */
  lemma {:induction false} NeverTwoNeverNone(pages: seq<Page>, events: seq<Event>, i: nat)
    requires Run(pages, events) && i <= |events|
    ensures |pages[i].timers| <= 1 && pages[i].requests <= 1
    ensures !pages[i].hidden && !pages[i].left ==> pages[i].timers != {} || pages[i].requests == 1
    ensures OneChain(pages[i])
    decreases i
  {
    if i > 0 {
      NeverTwoNeverNone(pages, events, i - 1);
      StepKeeps(pages[i - 1], events[i - 1], pages[i]);
    }
    AtMostOneTimer(pages[i]);
  }

  /** What the last good answer carried. */
  ghost function LastReceived(events: seq<Event>): Option<Snapshot>
    decreases |events|
  {
    if events == [] then None
    else
      var e := events[|events| - 1];
      if e.Settle? && e.answer.Received? then e.answer.data else LastReceived(events[..|events| - 1])
  }

  /** The last snapshot received whose timestamp differs from that of the snapshot before it; answers
      that carry none do not count. */
  ghost function LastNew(events: seq<Event>): Option<Snapshot>
    decreases |events|
  {
    if events == [] then None
    else
      var e, before := events[|events| - 1], LastNew(events[..|events| - 1]);
      if e.Settle? && e.answer.Received? && e.answer.data.Some?
          && (before.None? || before.value.ts != e.answer.data.value.ts)
      then e.answer.data
      else before
  }

  function Stamp(d: Option<Snapshot>): Option<int> {
    if d.None? then None else Some(d.value.ts)
  }

  /** One event's effect on what is latest and what is rendered. */
  lemma RenderStep(p: Page, e: Event, q: Page)
    requires Step(p, e, q)
    ensures if e.Settle? && e.answer.Received? then
              var d := e.answer.data;
              && q.latest == d
              && (if d.Some? && p.lastTs != Stamp(d)
                  then q.shown == d && q.lastTs == Stamp(d)
                  else q.shown == p.shown && q.lastTs == p.lastTs)
            else
              q.latest == p.latest && q.shown == p.shown && q.lastTs == p.lastTs
  {
  }

  /** In every run the script's latest snapshot is the one the last good answer carried, and what it
      has rendered is the last new one: a null body and a repeated timestamp render nothing. */
  lemma {:induction false} ShowsLastReceived(pages: seq<Page>, events: seq<Event>)
    requires Run(pages, events)
    ensures pages[|events|].latest == LastReceived(events)
    ensures pages[|events|].shown == LastNew(events)
    ensures pages[|events|].lastTs == Stamp(LastNew(events))
    ensures LastReceived(events).Some? ==>
              LastNew(events).Some? && LastNew(events).value.ts == LastReceived(events).value.ts
    decreases |events|
  {
    if events != [] {
      var n := |events| - 1;
      var front, less := events[..n], pages[..n + 1];
      assert less[0] == pages[0];
      forall i | 0 <= i < n
        ensures Step(less[i], front[i], less[i + 1])
      {
        assert less[i] == pages[i] && less[i + 1] == pages[i + 1] && front[i] == events[i];
      }
      ShowsLastReceived(less, front);
      assert Step(pages[n], events[n], pages[n + 1]);
      RenderStep(pages[n], events[n], pages[n + 1]);
    }
  }

  ghost predicate Carried(events: seq<Event>, i: int, d: Snapshot)
    requires 0 <= i < |events|
  {
    events[i] == Settle(Received(Some(d)))
  }

  /** The server gives one body per collection timestamp. */
  ghost predicate OneBody(events: seq<Event>) {
    forall i, j, d: Snapshot, e: Snapshot ::
      (0 <= i < |events| && 0 <= j < |events| && Carried(events, i, d) && Carried(events, j, e) && d.ts == e.ts) ==>
        d == e
  }

  lemma {:induction false} WasCarried(events: seq<Event>, d: Snapshot)
    requires LastReceived(events) == Some(d) || LastNew(events) == Some(d)
    ensures exists i :: 0 <= i < |events| && Carried(events, i, d)
    decreases |events|
  {
    var n := |events| - 1;
    if !Carried(events, n, d) {
      WasCarried(events[..n], d);
      var i :| 0 <= i < n && Carried(events[..n], i, d);
      assert Carried(events, i, d);
    }
  }

  /** Then what is rendered is exactly the latest snapshot whenever there is one; only a null body
      leaves an older rendering in place. */
  lemma RenderedIsLatest(pages: seq<Page>, events: seq<Event>)
    requires Run(pages, events) && OneBody(events)
    ensures pages[|events|].latest.Some? ==> pages[|events|].shown == pages[|events|].latest
  {
    ShowsLastReceived(pages, events);
    if LastReceived(events).Some? {
      WasCarried(events, LastReceived(events).value);
      WasCarried(events, LastNew(events).value);
    }
  }

  // ---- back-off ----

  function Power(k: nat): real {
    if k == 0 then 1.0 else 1.6 * Power(k - 1)
  }

  /** The wait after `k` failures in a row: 5000 milliseconds times 1.6 to the `k`, at most 20,000. */
  function Ramp(k: nat): real {
    if 5000.0 * Power(k) <= 20000.0 then 5000.0 * Power(k) else 20000.0
  }

  /** How many requests failed since the last good answer. */
  function FailuresSince(events: seq<Event>): nat
    decreases |events|
  {
    if events == [] then 0
    else
      var e, before := events[|events| - 1], FailuresSince(events[..|events| - 1]);
      if e.Settle? && e.answer.Received? then 0
      else if e.Settle? && e.answer.Failed? then before + 1
      else before
  }

  lemma RampStep(k: nat)
    ensures Slower(Ramp(k)) == Ramp(k + 1)
  {
    assert Power(k + 1) == 1.6 * Power(k);
  }

  lemma BackoffStep(p: Page, e: Event, q: Page)
    requires Step(p, e, q)
    ensures q.backoff == if e.Settle? && e.answer.Received? then 5000.0
                         else if e.Settle? && e.answer.Failed? then Slower(p.backoff)
                         else p.backoff
  {
  }

  lemma RunFront(pages: seq<Page>, events: seq<Event>)
    requires events != [] && Run(pages, events)
    ensures Run(pages[..|events|], events[..|events| - 1])
    ensures Step(pages[|events| - 1], events[|events| - 1], pages[|events|])
  {
    var n := |events| - 1;
    var front, less := events[..n], pages[..n + 1];
    assert less[0] == pages[0];
    forall i | 0 <= i < n
      ensures Step(less[i], front[i], less[i + 1])
    {
      assert less[i] == pages[i] && less[i + 1] == pages[i + 1] && front[i] == events[i];
    }
  }

  /** In every run the back-off is the base after a good answer and grows with the failures since. */
  lemma {:induction false} BackoffIs(pages: seq<Page>, events: seq<Event>)
    requires Run(pages, events)
    ensures pages[|events|].backoff == Ramp(FailuresSince(events))
    decreases |events|
  {
    if events != [] {
      var n := |events| - 1;
      RunFront(pages, events);
      BackoffIs(pages[..n + 1], events[..n]);
      BackoffStep(pages[n], events[n], pages[n + 1]);
      RampStep(FailuresSince(events[..n]));
    }
  }

  /** A timer is set only when a visible page gets an answer other than a 401, for the back-off, or is shown,
      for at once; the page is sent away by a 401 and by nothing else. */
  lemma TimerStep(p: Page, e: Event, q: Page)
    requires OneChain(p) && Step(p, e, q)
    ensures e.Show? || (e.Settle? && !e.answer.Unauthorized? && !p.hidden) ==>
              q.timers == {p.nextTimer} && q.delay == (if e.Show? then 0.0 else q.backoff)
    ensures !(e.Show? || (e.Settle? && !e.answer.Unauthorized? && !p.hidden)) ==>
              q.timers <= p.timers && q.timer == p.timer && q.delay == p.delay
    ensures q.left <==> p.left || (e.Settle? && e.answer.Unauthorized?)
    ensures e.Fire? ==> q.timers == {} && q.requests == 1
  {
    match e
    case Fire(id) =>
      assert forall k :: k in p.timers ==> k == id;
      NoTimer(q.timers);
    case Settle(answer) => ScheduleKeeps(p.(inflight := false, requests := p.requests - 1), q.backoff);
    case Hide =>
    case Show => ScheduleKeeps(p.(hidden := false), 0.0);
  }

  /** The script itself, with the browser's timers and requests as fields. */
  class Dashboard {
    var timer: Option<nat>
    var inflight: bool
    var backoff: real
    var lastTs: Option<int>
    var latest: Option<Snapshot>
    var shown: Option<Snapshot>
    var timers: set<nat>
    var nextTimer: nat
    var requests: nat
    var hidden: bool
    var left: bool
    var delay: real

    ghost function State(): Page
      reads this
    {
      Page(timer, inflight, backoff, lastTs, latest, shown, timers, nextTimer, requests, hidden, left, delay)
    }

    constructor Load(hidden: bool)
      ensures State() == Polled(Blank(hidden))
    {
      this.timer, this.inflight, this.backoff, this.lastTs, this.latest := None, false, CADENCE, None, None;
      this.shown, this.delay := None, 0.0;
      this.timers, this.nextTimer, this.requests, this.hidden, this.left := {}, 0, 0, hidden, false;
      new;
      Poll();
    }

    method ClearTimer()
      modifies this`timers
      ensures State() == Cleared(old(State()))
    {
      if timer.Some? {
        timers := timers - {timer.value};
      }
    }

    method Schedule(ms: real)
      modifies this`timer, this`timers, this`nextTimer, this`delay
      ensures State() == Scheduled(old(State()), ms)
      ensures old(forall id :: id in timers ==> timer == Some(id)) ==>
                timer == Some(old(nextTimer)) && timers == {old(nextTimer)}
    {
      ClearTimer();
      timer := Some(nextTimer);
      timers := timers + {nextTimer};
      nextTimer := nextTimer + 1;
      delay := ms;
    }

    /** `poll` up to its first await. */
    method Poll()
      modifies this`inflight, this`requests
      ensures State() == Polled(old(State()))
    {
      if inflight {
        return;
      }
      inflight := true;
      requests := requests + 1;
    }

    /** `poll` from the answer on. */
    method OnAnswer(r: Answer)
      requires 0 < requests
      modifies this
      ensures State() == Settled(old(State()), r)
    {
      requests := requests - 1;
      var ok, gone := false, false;
      match r {
        case Unauthorized => gone := true; left := true;
        case Failed => backoff := Slower(backoff);
        case Received(_) => ok := true; backoff := CADENCE;
      }
      inflight := false;
      if !gone && !hidden {
        Schedule(backoff);
      }
      if ok {
        if r.data.None? {
          latest := None;
        } else if lastTs != Some(r.data.value.ts) {
          lastTs := Some(r.data.value.ts);
          latest := r.data;
          shown := r.data;
        } else {
          latest := r.data;
        }
      }
    }

    method OnTimer(id: nat)
      requires id in timers
      modifies this`timers, this`inflight, this`requests
      ensures Step(old(State()), Fire(id), State())
    {
      timers := timers - {id};
      Poll();
    }

    method OnVisibilityChange(nowHidden: bool)
      requires hidden != nowHidden
      modifies this`hidden, this`timer, this`timers, this`nextTimer, this`delay
      ensures Step(old(State()), if nowHidden then Hide else Show, State())
    {
      hidden := nowHidden;
      if hidden {
        ClearTimer();
      } else {
        Schedule(0.0);
      }
    }
  }
}
