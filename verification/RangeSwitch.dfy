/** The dashboard's range tabs: which response may fill the chart. */
module RangeSwitch {
  datatype Mode = Live | Hour | SixHours | Day | Week

  type Series = seq<real>

  /** What the chart draws: the live rings, or the series the call numbered `call` fetched for `mode`. */
  datatype Drawn = Nothing | LiveRings | Fetched(call: nat, mode: Mode, series: Series)

  /** How a range request ends; an aborted request may still have been answered before the abort. */
  datatype Outcome = Answered(series: Series) | Aborted | Unavailable

  /** The script's variables and the calls still waiting for their responses. `caption` is the mode the
      heading names. */
  datatype Chart = Chart(rangeSeq: nat, mode: Mode, caption: Mode, drawn: Drawn, waiting: map<nat, Mode>)

  const OPENED := Chart(0, Live, Live, Nothing, map[])

  /** A click on a tab, or the periodic refresh, up to the first await. */
  function Set(c: Chart, mode: Mode): Chart {
    var number := c.rangeSeq + 1;
    if mode == Live then
      c.(rangeSeq := number, mode := mode, caption := mode, drawn := LiveRings)
    else
      c.(rangeSeq := number, mode := mode, caption := mode, waiting := c.waiting[number := mode])
  }

  /** The rest of call `call` once both its responses settled. */
  function Resumed(c: Chart, call: nat, outcome: Outcome): Chart
    requires call in c.waiting
  {
    var mode := c.waiting[call];
    var d := c.(waiting := c.waiting - {call});
    match outcome
    case Aborted => d
    case Unavailable => if call == c.rangeSeq then d.(caption := mode) else d
    case Answered(series) =>
      if call != c.rangeSeq || c.mode != mode then d
      else d.(drawn := Fetched(call, mode, series), caption := mode)
  }

  datatype Event = Click(mode: Mode) | Refresh | Tick | Resume(call: nat, outcome: Outcome)

  /** The refresh repeats the current mode unless it is live; a live tick redraws the rings. */
  ghost predicate Step(c: Chart, e: Event, d: Chart) {
    match e
    case Click(mode) => d == Set(c, mode)
    case Refresh => c.mode != Live && d == Set(c, c.mode)
    case Tick => d == if c.mode == Live then c.(drawn := LiveRings) else c
    case Resume(call, outcome) => call in c.waiting && d == Resumed(c, call, outcome)
  }

  ghost predicate Run(charts: seq<Chart>, events: seq<Event>) {
    && |charts| == |events| + 1 && charts[0] == OPENED
    && forall i :: 0 <= i < |events| ==> Step(charts[i], events[i], charts[i + 1])
  }

  /** No call is from the future, the newest call is for the current mode, a series drawn by the
      newest call is of the current mode, and the caption names the current mode. */
  ghost predicate InOrder(c: Chart) {
    && (forall k :: k in c.waiting ==> 0 < k <= c.rangeSeq)
    && (c.rangeSeq in c.waiting ==> c.waiting[c.rangeSeq] == c.mode)
    && (c.drawn.Fetched? ==> c.drawn.call <= c.rangeSeq)
    && (c.drawn.Fetched? && c.drawn.call == c.rangeSeq ==> c.drawn.mode == c.mode && c.rangeSeq !in c.waiting)
    && c.caption == c.mode
  }

  lemma StepKeeps(c: Chart, e: Event, d: Chart)
    requires InOrder(c) && Step(c, e, d)
    ensures InOrder(d) && c.rangeSeq <= d.rangeSeq
  {
  }

  lemma {:induction false} AlwaysInOrder(charts: seq<Chart>, events: seq<Event>, i: nat)
    requires Run(charts, events) && i <= |events|
    ensures InOrder(charts[i])
    decreases i
  {
    if i > 0 {
      AlwaysInOrder(charts, events, i - 1);
      StepKeeps(charts[i - 1], events[i - 1], charts[i]);
    }
  }

  lemma {:induction false} SequenceGrows(charts: seq<Chart>, events: seq<Event>, i: nat, j: nat)
    requires Run(charts, events) && i <= j <= |events|
    ensures charts[i].rangeSeq <= charts[j].rangeSeq
    decreases j
  {
    if i < j {
      SequenceGrows(charts, events, i, j - 1);
      AlwaysInOrder(charts, events, j - 1);
      StepKeeps(charts[j - 1], events[j - 1], charts[j]);
    }
  }

  /** A series is installed exactly when it answers the most recent call, and then it is of the mode
      the tabs and the caption show. */
  lemma OnlyTheNewestInstalls(charts: seq<Chart>, events: seq<Event>, i: nat)
    requires Run(charts, events) && i < |events| && events[i].Resume? && events[i].outcome.Answered?
    ensures
      var c, d := charts[i], charts[i + 1];
      if events[i].call == c.rangeSeq
      then d.drawn == Fetched(events[i].call, d.mode, events[i].outcome.series) && d.caption == d.mode
      else d.drawn == c.drawn && d.caption == c.caption
  {
    AlwaysInOrder(charts, events, i);
    assert Step(charts[i], events[i], charts[i + 1]);
  }

  /** Whatever order responses arrive in, a later install comes from a later call. */
  lemma InstallsNeverGoBack(charts: seq<Chart>, events: seq<Event>, i: nat, j: nat)
    requires Run(charts, events) && i < j < |events|
    requires events[i].Resume? && events[i].outcome.Answered? && events[i].call == charts[i].rangeSeq
    requires events[j].Resume? && events[j].outcome.Answered? && events[j].call == charts[j].rangeSeq
    ensures events[i].call < events[j].call
  {
    assert Step(charts[i], events[i], charts[i + 1]);
    assert Step(charts[j], events[j], charts[j + 1]);
    SequenceGrows(charts, events, i, j);
    if events[i].call == events[j].call {
      SpentCall(charts, events, i + 1, j, events[i].call);
    }
  }

  /** A call that has resumed waits no more. */
  lemma {:induction false} SpentCall(charts: seq<Chart>, events: seq<Event>, i: nat, j: nat, call: nat)
    requires Run(charts, events) && i <= j <= |events|
    requires call !in charts[i].waiting && call <= charts[i].rangeSeq
    ensures call !in charts[j].waiting
    decreases j
  {
    if i < j {
      SpentCall(charts, events, i, j - 1, call);
      SequenceGrows(charts, events, i, j - 1);
      assert Step(charts[j - 1], events[j - 1], charts[j]);
    }
  }

  // ---- what a click does ----

  /** A click or a refresh makes the newest call for its mode; a live one draws at once, any other waits and
      leaves the drawing, and no other call is touched. A response ends just its own call. */
  lemma SwitchStep(c: Chart, e: Event, d: Chart)
    requires InOrder(c) && Step(c, e, d)
    ensures e.Click? ==> d.mode == e.mode
    ensures !e.Click? ==> d.mode == c.mode
    ensures d.rangeSeq == c.rangeSeq + if e.Click? || e.Refresh? then 1 else 0
    ensures (e.Click? || e.Refresh?) && d.mode == Live ==> d.drawn == LiveRings && d.waiting == c.waiting
    ensures (e.Click? || e.Refresh?) && d.mode != Live ==>
              && d.drawn == c.drawn && d.rangeSeq in d.waiting && d.waiting[d.rangeSeq] == d.mode
              && d.waiting - {d.rangeSeq} == c.waiting
    ensures e.Resume? ==> d.waiting == c.waiting - {e.call}
    ensures e.Tick? ==> d.waiting == c.waiting
  {
    if (e.Click? || e.Refresh?) && d.mode != Live {
      assert d.rangeSeq !in c.waiting;
      assert d.waiting - {d.rangeSeq} == c.waiting;
    }
  }

  function LastClick(events: seq<Event>): Mode
    decreases |events|
  {
    if events == [] then Live
    else if events[|events| - 1].Click? then events[|events| - 1].mode
    else LastClick(events[..|events| - 1])
  }

  function Calls(events: seq<Event>): nat
    decreases |events|
  {
    if events == [] then 0
    else
      var e := events[|events| - 1];
      Calls(events[..|events| - 1]) + if e.Click? || e.Refresh? then 1 else 0
  }

  /** In every run the tabs and the caption show the last click, and the calls are numbered one by one. */
  lemma {:induction false} ShowsLastClick(charts: seq<Chart>, events: seq<Event>)
    requires Run(charts, events)
    ensures charts[|events|].mode == charts[|events|].caption == LastClick(events)
    ensures charts[|events|].rangeSeq == Calls(events)
    decreases |events|
  {
    AlwaysInOrder(charts, events, |events|);
    if events != [] {
      var n := |events| - 1;
      var less, front := charts[..n + 1], events[..n];
      forall i | 0 <= i < n
        ensures Step(less[i], front[i], less[i + 1])
      {
        assert less[i] == charts[i] && less[i + 1] == charts[i + 1] && front[i] == events[i];
      }
      ShowsLastClick(less, front);
      AlwaysInOrder(charts, events, n);
      assert Step(charts[n], events[n], charts[n + 1]);
      SwitchStep(charts[n], events[n], charts[n + 1]);
    }
  }

  // ---- when the chart is of the caption's mode ----

  /** The event draws: a live click or tick, or the newest call's answer. */
  ghost predicate Draws(c: Chart, e: Event) {
    match e
    case Click(mode) => mode == Live
    case Refresh => false
    case Tick => c.mode == Live
    case Resume(call, outcome) => outcome.Answered? && call == c.rangeSeq
  }

  /** The mode of what is drawn. */
  function DrawnMode(c: Chart): set<Mode> {
    match c.drawn
    case Nothing => {}
    case LiveRings => {Live}
    case Fetched(_, mode, _) => {mode}
  }

  ghost predicate Matches(c: Chart) {
    c.caption in DrawnMode(c)
  }

  /** One event: a drawing one leaves a chart of the caption's mode, any other leaves the drawing as
      it was, under the mode of the click if it was one. */
  lemma MatchStep(c: Chart, e: Event, d: Chart)
    requires InOrder(c) && Step(c, e, d)
    ensures if Draws(c, e) then Matches(d) else d.drawn == c.drawn && (Matches(d) <==> d.mode in DrawnMode(c))
  {
    StepKeeps(c, e, d);
  }

  /** Event `i` drew, under the mode current at `n`, and nothing has drawn since. */
  ghost predicate LastDrawnAs(charts: seq<Chart>, events: seq<Event>, i: nat, n: nat)
    requires n <= |events| == |charts| - 1
  {
    && i < n && Draws(charts[i], events[i]) && charts[i + 1].mode == charts[n].mode
    && forall k :: i < k < n ==> !Draws(charts[k], events[k])
  }

  lemma {:induction false} DrawnSince(charts: seq<Chart>, events: seq<Event>, i: nat, n: nat)
    requires Run(charts, events) && i < n <= |events| && Draws(charts[i], events[i])
    requires forall k :: i < k < n ==> !Draws(charts[k], events[k])
    ensures DrawnMode(charts[n]) == {charts[i + 1].mode}
    decreases n
  {
    AlwaysInOrder(charts, events, n - 1);
    assert Step(charts[n - 1], events[n - 1], charts[n]);
    MatchStep(charts[n - 1], events[n - 1], charts[n]);
    AlwaysInOrder(charts, events, n);
    if i + 1 < n {
      DrawnSince(charts, events, i, n - 1);
    }
  }

  lemma {:induction false} NeverDrawn(charts: seq<Chart>, events: seq<Event>, n: nat)
    requires Run(charts, events) && n <= |events|
    requires forall k :: 0 <= k < n ==> !Draws(charts[k], events[k])
    ensures charts[n].drawn == Nothing
    decreases n
  {
    if n > 0 {
      NeverDrawn(charts, events, n - 1);
      AlwaysInOrder(charts, events, n - 1);
      assert Step(charts[n - 1], events[n - 1], charts[n]);
      MatchStep(charts[n - 1], events[n - 1], charts[n]);
    }
  }

  lemma {:induction false} LastDraw(charts: seq<Chart>, events: seq<Event>, n: nat) returns (i: int)
    requires n <= |events| == |charts| - 1
    ensures -1 <= i < n && (0 <= i ==> Draws(charts[i], events[i]))
    ensures forall k :: i < k < n ==> !Draws(charts[k], events[k])
    decreases n
  {
    if n == 0 {
      i := -1;
    } else if Draws(charts[n - 1], events[n - 1]) {
      i := n - 1;
    } else {
      i := LastDraw(charts, events, n - 1);
    }
  }

  /** Exactly when the chart is of the mode its caption names: the last event that drew did so under
      that mode. So after a click the old chart stands under the new caption until its own call
      answers, and for good if that call fails. */
  lemma MatchesIffDrawn(charts: seq<Chart>, events: seq<Event>, n: nat)
    requires Run(charts, events) && n <= |events|
    ensures Matches(charts[n]) <==> exists i: nat :: LastDrawnAs(charts, events, i, n)
  {
    AlwaysInOrder(charts, events, n);
    var last := LastDraw(charts, events, n);
    if last < 0 {
      NeverDrawn(charts, events, n);
    } else {
      DrawnSince(charts, events, last, n);
      if Matches(charts[n]) {
        assert LastDrawnAs(charts, events, last, n);
      }
      forall i: nat | LastDrawnAs(charts, events, i, n)
        ensures i == last
      {
      }
    }
  }

  class Tabs {
    var rangeSeq: nat
    var mode: Mode
    var caption: Mode
    var drawn: Drawn
    var waiting: map<nat, Mode>

    ghost function State(): Chart
      reads this
    {
      Chart(rangeSeq, mode, caption, drawn, waiting)
    }

    constructor ()
      ensures State() == OPENED
    {
      rangeSeq, mode, caption, drawn, waiting := 0, Live, Live, Nothing, map[];
    }

    method SetRange(wanted: Mode)
      modifies this
      ensures State() == Set(old(State()), wanted)
      ensures old(InOrder(State())) ==> InOrder(State()) && forall k :: k in old(waiting) ==> k < rangeSeq
    {
      rangeSeq := rangeSeq + 1;
      mode := wanted;
      caption := wanted;
      if wanted == Live {
        drawn := LiveRings;
        return;
      }
      waiting := waiting[rangeSeq := wanted];
    }

    method Resume(call: nat, outcome: Outcome)
      requires call in waiting
      modifies this`waiting, this`drawn, this`caption
      ensures State() == Resumed(old(State()), call, outcome)
      ensures old(InOrder(State())) ==> InOrder(State())
      ensures old(InOrder(State())) && drawn != old(drawn) ==> call == rangeSeq && Matches(State())
    {
      var wanted := waiting[call];
      waiting := waiting - {call};
      match outcome {
        case Aborted =>
        case Unavailable =>
          if call == rangeSeq {
            caption := wanted;
          }
        case Answered(series) =>
          if call != rangeSeq || mode != wanted {
            return;
          }
          drawn := Fetched(call, wanted, series);
          caption := wanted;
      }
    }
  }
}
