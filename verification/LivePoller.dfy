/**
 The admin page's refresh: ask at once, then every poll interval while the tab is
 visible and someone is using it. The browser's timers and clock are the other
 half of the state, so that a forgotten timer would show.
 */
module LivePoller {
  import opened Wrappers

  datatype PollState = Polling | Hidden | Paused

  /** The poller's own fields, the browser's live timers (handle to deadline), and what it asked and reported. */
  datatype PollerState = PollerState(
    timer: Option<nat>,
    lastInputAt: int,
    current: PollState,
    stopped: bool,
    live: map<nat, int>,
    nextHandle: nat,
    loads: seq<int>,
    states: seq<PollState>)

  datatype Event =
    | Start(now: int, visible: bool)
    | Stop(now: int)
    | Input(now: int)
    | Resume(now: int, visible: bool)
    | VisibilityChanged(now: int, visible: bool)
    | TimerFires(now: int, visible: bool, handle: nat)

  // ---- What each call does to the state ----

  function Cleared(s: PollerState): PollerState {
    s.(timer := None, live := if s.timer.Some? then s.live - {s.timer.value} else s.live)
  }

  function Scheduled(s: PollerState, now: int, pollMs: int): PollerState {
    var c := Cleared(s);
    c.(timer := Some(c.nextHandle), live := c.live[c.nextHandle := now + pollMs], nextHandle := c.nextHandle + 1)
  }

  function Set(s: PollerState, p: PollState): PollerState {
    if s.current == p then s else s.(current := p, states := s.states + [p])
  }

  function Loaded(s: PollerState, now: int): PollerState {
    s.(loads := s.loads + [now])
  }

  function Ran(s: PollerState, now: int, pollMs: int): PollerState {
    Scheduled(Loaded(Set(s, Polling), now), now, pollMs)
  }

  function RanIfVisible(s: PollerState, now: int, visible: bool, pollMs: int): PollerState {
    if visible then Ran(s.(lastInputAt := now), now, pollMs) else Set(s.(lastInputAt := now), Hidden)
  }

  function OnVisibility(s: PollerState, now: int, visible: bool, pollMs: int): PollerState {
    if s.stopped then s
    else if !visible then if s.current.Polling? then Set(Cleared(s), Hidden) else s
    else if !s.current.Hidden? then s
    else Ran(s.(lastInputAt := now), now, pollMs)
  }

  function Ticked(s: PollerState, now: int, visible: bool, pollMs: int, idleMs: int): PollerState {
    var t := s.(timer := None);
    if t.stopped || !t.current.Polling? then t
    else if !visible then Set(t, Hidden)
    else if now - t.lastInputAt >= idleMs then Set(t, Paused)
    else Scheduled(Loaded(t, now), now, pollMs)
  }

  function Next(s: PollerState, ev: Event, pollMs: int, idleMs: int): PollerState {
    match ev
    case Start(now, visible) => RanIfVisible(s.(stopped := false), now, visible, pollMs)
    case Stop(now) => Cleared(s.(stopped := true))
    case Input(now) => s.(lastInputAt := now)
    case Resume(now, visible) => if s.stopped then s else RanIfVisible(s, now, visible, pollMs)
    case VisibilityChanged(now, visible) => OnVisibility(s, now, visible, pollMs)
    case TimerFires(now, visible, handle) => Ticked(s.(live := s.live - {handle}), now, visible, pollMs, idleMs)
  }

  // ---- The class ----

  class Browser {
    var live: map<nat, int>
    var nextHandle: nat

    constructor ()
      ensures live == map[] && nextHandle == 0
    {
      live, nextHandle := map[], 0;
    }

    method SetTimeout(deadline: int) returns (handle: nat)
      modifies this
      ensures handle == old(nextHandle) && nextHandle == handle + 1 && live == old(live)[handle := deadline]
    {
      handle := nextHandle;
      live, nextHandle := live[handle := deadline], nextHandle + 1;
    }

    method ClearTimeout(handle: nat)
      modifies this`live
      ensures live == old(live) - {handle}
    {
      live := live - {handle};
    }
  }

  class Poller {
    var timer: Option<nat>
    var lastInputAt: int
    var current: PollState
    var stopped: bool
    var loads: seq<int>
    var states: seq<PollState>
    const browser: Browser
    const pollMs: int
    const idleMs: int

    ghost function State(): PollerState
      reads this, browser
    {
      PollerState(timer, lastInputAt, current, stopped, browser.live, browser.nextHandle, loads, states)
    }

    constructor (browser: Browser, pollMs: int, idleMs: int)
      ensures this.browser == browser && this.pollMs == pollMs && this.idleMs == idleMs
      ensures State() == PollerState(None, 0, Polling, true, browser.live, browser.nextHandle, [], [])
    {
      this.browser, this.pollMs, this.idleMs := browser, pollMs, idleMs;
      timer, lastInputAt, current, stopped, loads, states := None, 0, Polling, true, [], [];
    }

    method Clear()
      modifies this`timer, browser
      ensures State() == Cleared(old(State()))
    {
      if timer.Some? {
        browser.ClearTimeout(timer.value);
      }
      timer := None;
    }

    method Schedule(now: int)
      modifies this`timer, browser
      ensures State() == Scheduled(old(State()), now, pollMs)
    {
      Clear();
      var handle := browser.SetTimeout(now + pollMs);
      timer := Some(handle);
    }

    method SetState(p: PollState)
      modifies this`current, this`states
      ensures State() == Set(old(State()), p)
    {
      if p == current {
        return;
      }
      current := p;
      states := states + [p];
    }

    method RunNow(now: int)
      modifies this, browser
      ensures State() == Ran(old(State()), now, pollMs)
    {
      SetState(Polling);
      loads := loads + [now];
      Schedule(now);
    }

    method StartPolling(now: int, visible: bool)
      modifies this, browser
      ensures State() == Next(old(State()), Start(now, visible), pollMs, idleMs)
      ensures !stopped && lastInputAt == now && loads == (if visible then old(loads) + [now] else old(loads))
      ensures current == if visible then Polling else Hidden
    {
      stopped := false;
      lastInputAt := now;
      if !visible {
        SetState(Hidden);
        return;
      }
      RunNow(now);
    }

    method StopPolling(now: int)
      modifies this, browser
      ensures State() == Next(old(State()), Stop(now), pollMs, idleMs)
    {
      stopped := true;
      Clear();
    }

    method NoteInput(now: int)
      modifies this`lastInputAt
      ensures State() == Next(old(State()), Input(now), pollMs, idleMs)
    {
      lastInputAt := now;
    }

    method ResumePolling(now: int, visible: bool)
      modifies this, browser
      ensures State() == Next(old(State()), Resume(now, visible), pollMs, idleMs)
      ensures !old(stopped) ==> loads == (if visible then old(loads) + [now] else old(loads))
      ensures !old(stopped) ==> current == if visible then Polling else Hidden
    {
      if stopped {
        return;
      }
      lastInputAt := now;
      if !visible {
        SetState(Hidden);
        return;
      }
      RunNow(now);
    }

    method NoteVisibility(now: int, visible: bool)
      modifies this, browser
      ensures State() == Next(old(State()), VisibilityChanged(now, visible), pollMs, idleMs)
    {
      if stopped {
        return;
      }
      if !visible {
        if current.Polling? {
          Clear();
          SetState(Hidden);
        }
        return;
      }
      if !current.Hidden? {
        return;
      }
      lastInputAt := now;
      RunNow(now);
    }

    method Tick(now: int, visible: bool)
      modifies this, browser
      ensures State() == Ticked(old(State()), now, visible, pollMs, idleMs)
    {
      timer := None;
      if stopped || !current.Polling? {
        return;
      }
      if !visible {
        SetState(Hidden);
        return;
      }
      if now - lastInputAt >= idleMs {
        SetState(Paused);
        return;
      }
      loads := loads + [now];
      Schedule(now);
    }

    /** The browser takes a due timer off its list and calls the poller back. */
    method Fire(now: int, visible: bool, handle: nat)
      modifies this, browser
      ensures State() == Next(old(State()), TimerFires(now, visible, handle), pollMs, idleMs)
    {
      browser.ClearTimeout(handle);
      Tick(now, visible);
    }
  }

  // ---- Runs ----

  predicate Due(s: PollerState, ev: Event) {
    ev.TimerFires? ==> ev.handle in s.live && s.live[ev.handle] <= ev.now
  }

  /** A page's life: the clock never goes back, and a timer fires only when it is live and due. */
  ghost predicate Run(ss: seq<PollerState>, evs: seq<Event>, pollMs: int, idleMs: int) {
    && |ss| == |evs| + 1
    && ss[0] == PollerState(None, 0, Polling, true, map[], 0, [], [])
    && (forall i :: 0 <= i < |evs| ==> Due(ss[i], evs[i]) && ss[i + 1] == Next(ss[i], evs[i], pollMs, idleMs))
    && (forall i, j :: 0 <= i <= j < |evs| ==> evs[i].now <= evs[j].now)
  }

  predicate Inv(s: PollerState) {
    && s.live.Keys == (if s.timer.Some? then {s.timer.value} else {})
    && (s.timer.Some? ==> s.timer.value < s.nextHandle)
    && (s.stopped ==> s.timer.None?)
    && (!s.stopped && s.current.Polling? ==> s.timer.Some?)
  }

  lemma NextKeepsInv(s: PollerState, ev: Event, pollMs: int, idleMs: int)
    requires Inv(s) && Due(s, ev)
    ensures Inv(Next(s, ev, pollMs, idleMs))
  {
    var t := Next(s, ev, pollMs, idleMs);
    if s.timer.Some? {
      assert (s.live - {s.timer.value}).Keys == {};
    }
  }

  /**
   On every run at most one timer is live, and it is the one the poller knows; none
   is left after a stop; and while it says it is polling, the next ask is scheduled.
   */
  lemma {:induction false} OneTimerAtMost(ss: seq<PollerState>, evs: seq<Event>, pollMs: int, idleMs: int, i: nat)
    requires Run(ss, evs, pollMs, idleMs) && i < |ss|
    ensures Inv(ss[i]) && |ss[i].live| <= 1
    ensures ss[i].stopped ==> ss[i].live == map[]
    ensures !ss[i].stopped && ss[i].current.Polling? ==> |ss[i].live| == 1
  {
    if i > 0 {
      OneTimerAtMost(ss, evs, pollMs, idleMs, i - 1);
      NextKeepsInv(ss[i - 1], evs[i - 1], pollMs, idleMs);
    }
    assert |ss[i].live| == |ss[i].live.Keys|;
    if ss[i].timer.Some? { assert |{ss[i].timer.value}| == 1; }
  }

  /** After a stop nothing is asked until the next start. */
  lemma {:induction false} NothingAskedAfterStop(ss: seq<PollerState>, evs: seq<Event>, pollMs: int, idleMs: int, i: nat, j: nat)
    requires Run(ss, evs, pollMs, idleMs) && i <= j < |ss| && ss[i].stopped
    requires forall k :: i <= k < j ==> !evs[k].Start?
    ensures ss[j].stopped && ss[j].loads == ss[i].loads
    decreases j
  {
    if i < j {
      NothingAskedAfterStop(ss, evs, pollMs, idleMs, i, j - 1);
      OneTimerAtMost(ss, evs, pollMs, idleMs, j - 1);
    }
  }

  /** Paused is left only by Resume or Start, and nothing is asked while it lasts. */
  lemma {:induction false} PausedUntilResumed(ss: seq<PollerState>, evs: seq<Event>, pollMs: int, idleMs: int, i: nat, j: nat)
    requires Run(ss, evs, pollMs, idleMs) && i <= j < |ss| && ss[i].current.Paused?
    requires forall k :: i <= k < j ==> !evs[k].Start? && !evs[k].Resume?
    ensures ss[j].current.Paused? && ss[j].loads == ss[i].loads
    decreases j
  {
    if i < j {
      PausedUntilResumed(ss, evs, pollMs, idleMs, i, j - 1);
    }
  }

  // ---- An unattended tab falls silent ----

  /** The event counts as someone being there: it moves the last input to now. */
  predicate Renews(s: PollerState, ev: Event) {
    || ev.Input? || ev.Start?
    || (ev.Resume? && !s.stopped)
    || (ev.VisibilityChanged? && ev.visible && !s.stopped && s.current.Hidden?)
  }

  /** What holds `k` asks after the last input at `since`: each ask came a full interval after the one before. */
  predicate Unattended(s: PollerState, since: int, k: nat, pollMs: int, idleMs: int) {
    && s.lastInputAt == since && k <= |s.loads|
    && (k > 0 ==> since + (k - 1) * pollMs <= s.loads[|s.loads| - 1] < since + idleMs)
    && (k > 0 && s.timer.Some? && s.timer.value in s.live ==> s.live[s.timer.value] == s.loads[|s.loads| - 1] + pollMs)
  }

  lemma UnattendedStep(s: PollerState, ev: Event, since: int, k: nat, pollMs: int, idleMs: int) returns (m: nat)
    requires Inv(s) && Due(s, ev) && !Renews(s, ev) && pollMs > 0 && since <= ev.now
    requires k <= |s.loads| && Unattended(s, since, k, pollMs, idleMs)
    ensures var t := Next(s, ev, pollMs, idleMs);
            && |t.loads| == |s.loads| + m - k && k <= m <= |t.loads| && Unattended(t, since, m, pollMs, idleMs)
  {
    var t := Next(s, ev, pollMs, idleMs);
    m := k + |t.loads| - |s.loads|;
    if m > k {
      assert ev.TimerFires? && s.timer == Some(ev.handle);
      assert t.loads[|t.loads| - 1] == ev.now && m == k + 1;
      if k > 0 {
        assert k * pollMs == (k - 1) * pollMs + pollMs;
      }
    }
  }

  lemma {:induction false} UnattendedRun(ss: seq<PollerState>, evs: seq<Event>, pollMs: int, idleMs: int, i: nat, j: nat)
    returns (k: nat)
    requires Run(ss, evs, pollMs, idleMs) && i < j < |ss| && pollMs > 0
    requires Renews(ss[i], evs[i])
    requires forall n :: i < n < j ==> !Renews(ss[n], evs[n])
    ensures k <= |ss[j].loads| && k == |ss[j].loads| - |ss[i + 1].loads| && Unattended(ss[j], evs[i].now, k, pollMs, idleMs)
    decreases j
  {
    if j == i + 1 {
      k := 0;
    } else {
      var before := UnattendedRun(ss, evs, pollMs, idleMs, i, j - 1);
      OneTimerAtMost(ss, evs, pollMs, idleMs, j - 1);
      k := UnattendedStep(ss[j - 1], evs[j - 1], evs[i].now, before, pollMs, idleMs);
    }
  }

  /**
   After the last input, however long the page stays open, the timer asks at most
   idleMs / pollMs more times, rounded up.
   */
  lemma UnattendedTabFallsSilent(ss: seq<PollerState>, evs: seq<Event>, pollMs: int, idleMs: int, i: nat, j: nat)
    requires Run(ss, evs, pollMs, idleMs) && i < j < |ss| && pollMs > 0 && idleMs >= 0
    requires Renews(ss[i], evs[i])
    requires forall n :: i < n < j ==> !Renews(ss[n], evs[n])
    ensures |ss[j].loads| - |ss[i + 1].loads| <= (idleMs + pollMs - 1) / pollMs
  {
    var k := UnattendedRun(ss, evs, pollMs, idleMs, i, j);
    if k > 0 {
      assert (k - 1) * pollMs < idleMs;
      RoundedUp(k, pollMs, idleMs);
    }
  }

  lemma MulMonotone(a: int, b: int, p: int)
    requires a <= b && p >= 0
    ensures a * p <= b * p
  {
  }

  lemma RoundedUp(k: nat, pollMs: int, idleMs: int)
    requires k > 0 && pollMs > 0 && (k - 1) * pollMs < idleMs
    ensures k <= (idleMs + pollMs - 1) / pollMs
  {
    var q := (idleMs + pollMs - 1) / pollMs;
    assert (k - 1) * pollMs == k * pollMs - pollMs;
    assert idleMs + pollMs - 1 < q * pollMs + pollMs;
    if q + 1 <= k {
      MulMonotone(q + 1, k, pollMs);
    }
  }

  // ---- While someone is there, it keeps asking ----

  /** What an ask leaves: one more load, at `now`, and the one live timer due an interval later. */
  predicate Asked(s: PollerState, t: PollerState, now: int, pollMs: int) {
    && t.loads == s.loads + [now] && t.current.Polling? && !t.stopped
    && t.timer.Some? && t.live == map[t.timer.value := now + pollMs]
  }

  /** A start, or a resume of one not stopped, asks at once when the tab is visible, and says hidden when it is not. */
  lemma StartAsksAtOnce(ss: seq<PollerState>, evs: seq<Event>, pollMs: int, idleMs: int, i: nat)
    requires Run(ss, evs, pollMs, idleMs) && i < |evs|
    requires evs[i].Start? || (evs[i].Resume? && !ss[i].stopped)
    ensures evs[i].visible ==> Asked(ss[i], ss[i + 1], evs[i].now, pollMs)
    ensures !evs[i].visible ==> ss[i + 1].current.Hidden? && !ss[i + 1].stopped && ss[i + 1].loads == ss[i].loads
  {
    OneTimerAtMost(ss, evs, pollMs, idleMs, i);
  }

  /** A hidden tab that comes back asks once; one that goes hidden while polling loses its timer and says so. */
  lemma ComingBackAsksOnce(ss: seq<PollerState>, evs: seq<Event>, pollMs: int, idleMs: int, i: nat)
    requires Run(ss, evs, pollMs, idleMs) && i < |evs| && evs[i].VisibilityChanged? && !ss[i].stopped
    ensures evs[i].visible && ss[i].current.Hidden? ==> Asked(ss[i], ss[i + 1], evs[i].now, pollMs)
    ensures evs[i].visible && !ss[i].current.Hidden? ==> ss[i + 1] == ss[i]
    ensures !evs[i].visible && ss[i].current.Polling? ==>
              ss[i + 1].current.Hidden? && ss[i + 1].live == map[] && ss[i + 1].loads == ss[i].loads
    ensures !evs[i].visible && !ss[i].current.Polling? ==> ss[i + 1] == ss[i]
  {
    OneTimerAtMost(ss, evs, pollMs, idleMs, i);
  }

  /** A due timer asks exactly when the tab is visible and the last input is less than `idleMs` ago; otherwise it says why not. */
  lemma FiringAsksIffAttended(ss: seq<PollerState>, evs: seq<Event>, pollMs: int, idleMs: int, i: nat)
    requires Run(ss, evs, pollMs, idleMs) && i < |evs| && evs[i].TimerFires? && !ss[i].stopped && ss[i].current.Polling?
    ensures evs[i].visible && evs[i].now - ss[i].lastInputAt < idleMs ==> Asked(ss[i], ss[i + 1], evs[i].now, pollMs)
    ensures !(evs[i].visible && evs[i].now - ss[i].lastInputAt < idleMs) ==>
              && ss[i + 1].loads == ss[i].loads && ss[i + 1].live == map[]
              && ss[i + 1].current == if evs[i].visible then Paused else Hidden
  {
    OneTimerAtMost(ss, evs, pollMs, idleMs, i);
  }

  /** Whenever it is polling it has asked, and its one timer is due an interval after the last ask. */
  predicate OnSchedule(s: PollerState, pollMs: int) {
    && s.loads != [] && s.timer.Some?
    && s.live == map[s.timer.value := s.loads[|s.loads| - 1] + pollMs]
  }

  lemma NextOnSchedule(s: PollerState, ev: Event, pollMs: int, idleMs: int)
    requires Inv(s) && Due(s, ev) && (!s.stopped && s.current.Polling? ==> OnSchedule(s, pollMs))
    ensures var t := Next(s, ev, pollMs, idleMs);
            !t.stopped && t.current.Polling? ==> OnSchedule(t, pollMs)
  {
  }

  lemma {:induction false} PollingIsOnSchedule(ss: seq<PollerState>, evs: seq<Event>, pollMs: int, idleMs: int, i: nat)
    requires Run(ss, evs, pollMs, idleMs) && i < |ss| && !ss[i].stopped && ss[i].current.Polling?
    ensures OnSchedule(ss[i], pollMs)
  {
    if i > 0 {
      OneTimerAtMost(ss, evs, pollMs, idleMs, i - 1);
      if !ss[i - 1].stopped && ss[i - 1].current.Polling? {
        PollingIsOnSchedule(ss, evs, pollMs, idleMs, i - 1);
      }
      NextOnSchedule(ss[i - 1], evs[i - 1], pollMs, idleMs);
    }
  }

  /** No event of the run comes more than `late` after a live timer was due. */
  ghost predicate Prompt(ss: seq<PollerState>, evs: seq<Event>, late: int) {
    forall i, h :: 0 <= i < |evs| && i < |ss| && h in ss[i].live ==> evs[i].now <= ss[i].live[h] + late
  }

  /** Neither stopped, hidden nor left alone: from `i` to `j` the poller is told to go on polling. */
  ghost predicate Attended(ss: seq<PollerState>, evs: seq<Event>, idleMs: int, i: nat, j: nat)
    requires i <= j < |ss| && |ss| == |evs| + 1
  {
    forall k :: i <= k < j ==>
      && !evs[k].Stop?
      && (evs[k].Start? || evs[k].Resume? || evs[k].VisibilityChanged? || evs[k].TimerFires? ==> evs[k].visible)
      && (evs[k].TimerFires? ==> evs[k].now - ss[k].lastInputAt < idleMs)
  }

  lemma {:induction false} AttendedKeepsPolling(ss: seq<PollerState>, evs: seq<Event>, pollMs: int, idleMs: int, i: nat, j: nat)
    requires Run(ss, evs, pollMs, idleMs) && i <= j < |ss| && Attended(ss, evs, idleMs, i, j)
    requires !ss[i].stopped && ss[i].current.Polling?
    ensures !ss[j].stopped && ss[j].current.Polling? && ss[i].loads <= ss[j].loads
    decreases j
  {
    if i < j {
      AttendedKeepsPolling(ss, evs, pollMs, idleMs, i, j - 1);
    }
  }

  lemma AsksAtMostOnce(ss: seq<PollerState>, evs: seq<Event>, pollMs: int, idleMs: int, i: nat)
    requires Run(ss, evs, pollMs, idleMs) && i < |evs|
    ensures ss[i + 1].loads == ss[i].loads || ss[i + 1].loads == ss[i].loads + [evs[i].now]
  {
  }

  /**
   While the page is attended its asks never stop: at every event the last ask is at most
   an interval ago, and no two consecutive asks are further apart, give or take how late
   the browser is with its timers.
   */
  lemma {:induction false} AttendedKeepsAsking(ss: seq<PollerState>, evs: seq<Event>, pollMs: int, idleMs: int,
        late: int, i: nat, j: nat)
    requires Run(ss, evs, pollMs, idleMs) && i <= j < |ss| && Attended(ss, evs, idleMs, i, j) && Prompt(ss, evs, late)
    requires !ss[i].stopped && ss[i].current.Polling?
    ensures ss[i].loads != [] && ss[i].loads <= ss[j].loads
    ensures j < |evs| ==> evs[j].now <= ss[j].loads[|ss[j].loads| - 1] + pollMs + late
    ensures forall n :: |ss[i].loads| <= n < |ss[j].loads| ==> ss[j].loads[n] <= ss[j].loads[n - 1] + pollMs + late
    decreases j
  {
    PollingIsOnSchedule(ss, evs, pollMs, idleMs, i);
    AttendedKeepsPolling(ss, evs, pollMs, idleMs, i, j);
    PollingIsOnSchedule(ss, evs, pollMs, idleMs, j);
    assert ss[j].timer.value in ss[j].live;
    if i < j {
      AttendedKeepsAsking(ss, evs, pollMs, idleMs, late, i, j - 1);
      AsksAtMostOnce(ss, evs, pollMs, idleMs, j - 1);
    }
  }

  /** Input moves the last input to now and does nothing else, paused or not. */
  lemma InputOnlyCounts(ss: seq<PollerState>, evs: seq<Event>, pollMs: int, idleMs: int, i: nat)
    requires Run(ss, evs, pollMs, idleMs) && i < |evs| && evs[i].Input?
    ensures ss[i + 1] == ss[i].(lastInputAt := evs[i].now)
  {
  }
}
