/**
 The beat director over whole runs: frames arriving, time passing, timers firing
 in any order, and the component being torn down.
 */
module DirectorRuns {
  import opened Wrappers
  import opened CombatLog
  import opened CombatBeats
  import opened BeatTimers
  import opened BeatSequencer

  /** The director's tracker, and the timers of whichever sequencer it holds. */
  datatype DirectorState = DirectorState(tracker: BeatTracker, timers: SeqState)

  datatype DirectorEvent =
    | Arrives(log: seq<LogEvent>, opts: FrameOptions)
    | Elapses(until: real)
    | Fires(handle: nat)
    | TornDown

  predicate CanHappen(d: DirectorState, ev: DirectorEvent) {
    match ev
    case Elapses(t) => Enabled(d.timers, Wait(t))
    case Fires(h) => Enabled(d.timers, Fire(h))
    case _ => true
  }

  ghost function After(d: DirectorState, ev: DirectorEvent): DirectorState
    requires CanHappen(d, ev)
  {
    match ev
    case Arrives(log, opts) =>
      var plan := PlanOf(d.tracker, log, opts);
      DirectorState(plan.tracker, FrameTimers(d.timers, plan))
    case Elapses(t) => d.(timers := Next(d.timers, Wait(t)))
    case Fires(h) => d.(timers := Next(d.timers, Fire(h)))
    case TornDown => d.(timers := Next(d.timers, Dispose))
  }

  ghost predicate Step(d: DirectorState, ev: DirectorEvent, next: DirectorState) {
    CanHappen(d, ev) && After(d, ev) == next
  }

  ghost predicate DirectorRun(ds: seq<DirectorState>, evs: seq<DirectorEvent>) {
    && |ds| == |evs| + 1
    && ds[0] == DirectorState(EMPTY_TRACKER, INITIAL)
    && (forall i :: 0 <= i < |evs| ==> Step(ds[i], evs[i], ds[i + 1]))
  }

  /** A frame that primes, or the component's end: the only things that take cues back. */
  ghost predicate TakesBack(d: DirectorState, ev: DirectorEvent) {
    ev.TornDown? || (ev.Arrives? && PlanOf(d.tracker, ev.log, ev.opts).primed)
  }

  /** What the sequencer sees of one event of the director. */
  ghost function Seen(d: DirectorState, ev: DirectorEvent): seq<Event> {
    match ev
    case Arrives(log, opts) =>
      var plan := PlanOf(d.tracker, log, opts);
      (if plan.primed then [Dispose] else []) + [Play(plan.cues)]
    case Elapses(t) => [Wait(t)]
    case Fires(h) => [Fire(h)]
    case TornDown => [Dispose]
  }

  lemma OneMoreEvent(ss: seq<SeqState>, es: seq<Event>, d: DirectorState, ev: DirectorEvent)
      returns (ts: seq<SeqState>, fs: seq<Event>)
    requires Run(ss, es) && ss[|es|] == d.timers && CanHappen(d, ev)
    ensures Run(ts, fs) && fs == es + Seen(d, ev) && ts[|fs|] == After(d, ev).timers
  {
    ts, fs := ss, es;
    if ev.Arrives? {
      var plan := PlanOf(d.tracker, ev.log, ev.opts);
      if plan.primed {
        RunOneMore(ts, fs, Dispose);
        ts, fs := ts + [Next(d.timers, Dispose)], fs + [Dispose];
      }
      RunOneMore(ts, fs, Play(plan.cues));
      ts, fs := ts + [Next(ts[|fs|], Play(plan.cues))], fs + [Play(plan.cues)];
    } else {
      var e := Seen(d, ev)[0];
      RunOneMore(ts, fs, e);
      ts, fs := ts + [Next(d.timers, e)], fs + [e];
    }
  }

  /** Every run of the director is a run of the sequencer's timers. */
  lemma {:induction false} DirectorRunIsTimerRun(ds: seq<DirectorState>, evs: seq<DirectorEvent>, n: nat)
      returns (ss: seq<SeqState>, es: seq<Event>)
    requires DirectorRun(ds, evs) && n <= |evs|
    ensures Run(ss, es) && ss[|es|] == ds[n].timers
  {
    if n == 0 {
      ss, es := [INITIAL], [];
    } else {
      var ts, fs := DirectorRunIsTimerRun(ds, evs, n - 1);
      assert Step(ds[n - 1], evs[n - 1], ds[n - 1 + 1]);
      ss, es := OneMoreEvent(ts, fs, ds[n - 1], evs[n - 1]);
    }
  }

  /**
   Over every run of the director: a cue played is waiting for its time, or was cued
   once and on time, or was taken back; and no text comes down before the latest
   hide time of the labelled cues then played for its step.
   */
  lemma DirectorCuesFireOnce(ds: seq<DirectorState>, evs: seq<DirectorEvent>, n: nat, h: nat)
    requires DirectorRun(ds, evs) && n <= |evs| && h in ds[n].timers.played
    ensures var s := ds[n].timers;
            var p := s.played[h];
            var live := h in s.timers && s.timers[h] == CueTimer(p.start + p.cue.atMs, p.cue);
            var fired := exists i :: 0 <= i < |s.cued| && s.cued[i].handle == h;
            && (live || fired || h in s.cancelled)
            && !(live && fired) && !(live && h in s.cancelled) && !(fired && h in s.cancelled)
            && (forall i, j :: 0 <= i < j < |s.cued| ==> !(s.cued[i].handle == h && s.cued[j].handle == h))
            && (forall c <- s.cued :: c.handle == h ==> p.start + p.cue.atMs <= c.at)
            && (forall c <- s.hidden :: h in c.live && p.cue.text.Some? && p.cue.key.stepSeq == c.stepSeq ==>
                  p.start + p.cue.hideAtMs <= c.at)
  {
    var ss, es := DirectorRunIsTimerRun(ds, evs, n);
    EveryCueFiresOnce(ss, es, |es|, h);
    NeverHiddenEarly(ss, es, |es|);
  }

  lemma StepCancels(d: DirectorState, ev: DirectorEvent, next: DirectorState)
    requires Step(d, ev, next) && !TakesBack(d, ev)
    ensures next.timers.cancelled == d.timers.cancelled
  {
    if ev.Arrives? { PlayAllCancelsNothing(d.timers, PlanOf(d.tracker, ev.log, ev.opts).cues); }
  }

  ghost predicate NoneTakesBack(ds: seq<DirectorState>, evs: seq<DirectorEvent>, m: nat, n: nat)
    requires n <= |evs| < |ds|
  {
    forall k :: m <= k < n ==> !TakesBack(ds[k], evs[k])
  }

  lemma {:induction false} SameThroughout(ds: seq<DirectorState>, m: nat, n: nat)
    requires m <= n < |ds|
    requires forall k :: m <= k < n ==> ds[k].timers.cancelled == ds[k + 1].timers.cancelled
    ensures ds[n].timers.cancelled == ds[m].timers.cancelled
    decreases n
  {
    if m < n { SameThroughout(ds, m, n - 1); }
  }

  lemma CancelledStep(ds: seq<DirectorState>, evs: seq<DirectorEvent>, m: nat, n: nat, k: nat)
    requires DirectorRun(ds, evs) && m <= k < n <= |evs| && NoneTakesBack(ds, evs, m, n)
    ensures ds[k].timers.cancelled == ds[k + 1].timers.cancelled
  {
    StepCancels(ds[k], evs[k], ds[k + 1]);
  }

  lemma CancelledStays(ds: seq<DirectorState>, evs: seq<DirectorEvent>, m: nat, n: nat)
    requires DirectorRun(ds, evs) && m <= n <= |evs| && NoneTakesBack(ds, evs, m, n)
    ensures ds[n].timers.cancelled == ds[m].timers.cancelled
  {
    forall k | m <= k < n ensures ds[k].timers.cancelled == ds[k + 1].timers.cancelled {
      CancelledStep(ds, evs, m, n, k);
    }
    SameThroughout(ds, m, n);
  }

  /** A cue is lost only to a frame that primes or to the component's end: without either since it was played, it fires or still waits. */
  lemma CueLostOnlyToAPrime(ds: seq<DirectorState>, evs: seq<DirectorEvent>, m: nat, n: nat, h: nat)
    requires DirectorRun(ds, evs) && m <= n <= |evs| && h in ds[n].timers.played && h !in ds[m].timers.cancelled
    requires NoneTakesBack(ds, evs, m, n)
    ensures h in ds[n].timers.timers || exists i :: 0 <= i < |ds[n].timers.cued| && ds[n].timers.cued[i].handle == h
  {
    CancelledStays(ds, evs, m, n);
    DirectorCuesFireOnce(ds, evs, n, h);
  }
}
