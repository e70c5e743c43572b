/**
 The beat runtime: the sequencer that plays schedules on timers, and the
 director that folds each frame into the tracker and plays its cues.
 */
module BeatSequencer {
  import opened Wrappers
  import opened CombatLog
  import opened CombatBeats
  import opened BeatTimers

  /** The timer queue and its clock. */
  class EventLoop {
    var now: real
    var nextHandle: nat
    var timers: map<nat, Timer>

    constructor ()
      ensures now == 0.0 && nextHandle == 0 && timers == map[]
    {
      now, nextHandle, timers := 0.0, 0, map[];
    }

    method SetTimeout(timer: Timer) returns (handle: nat)
      modifies this
      ensures handle == old(nextHandle) && nextHandle == handle + 1
      ensures timers == old(timers)[handle := timer] && now == old(now)
    {
      handle := nextHandle;
      nextHandle := nextHandle + 1;
      timers := timers[handle := timer];
    }

    method ClearTimeout(handle: nat)
      modifies this`timers
      ensures timers == old(timers) - {handle}
    {
      timers := timers - {handle};
    }
  }

  /** What the shell is told: each call is recorded. */
  class BeatHandlers {
    ghost var cued: seq<Cueing>
    ghost var hidden: seq<Hiding>
    ghost var resets: nat

    constructor ()
      ensures cued == [] && hidden == [] && resets == 0
    {
      cued, hidden, resets := [], [], 0;
    }

    method OnCue(cue: ScheduledCue, ghost call: Cueing)
      modifies this`cued
      ensures cued == old(cued) + [call]
    {
      cued := cued + [call];
    }

    method OnHide(stepSeq: nat, ghost call: Hiding)
      modifies this`hidden
      ensures hidden == old(hidden) + [call]
    {
      hidden := hidden + [call];
    }

    method OnReset()
      modifies this`resets
      ensures resets == old(resets) + 1
    {
      resets := resets + 1;
    }
  }

  class BeatSequencer {
    const loop: EventLoop
    const handlers: BeatHandlers
    var cueTimers: set<nat>
    var hideTimers: map<nat, HideRec>

    ghost var played: map<nat, PlayedCue>
    ghost var cancelled: set<nat>
    ghost var since: nat

    /** The timer state machine's view of this object. */
    ghost function State(): SeqState
      reads this, loop, handlers
    {
      SeqState(loop.now, loop.nextHandle, loop.timers, cueTimers, hideTimers, played, cancelled, since,
               handlers.cued, handlers.hidden)
    }

    constructor (loop: EventLoop, handlers: BeatHandlers, ghost played: map<nat, PlayedCue>,
        ghost cancelled: set<nat>, ghost since: nat)
      ensures this.loop == loop && this.handlers == handlers
      ensures cueTimers == {} && hideTimers == map[]
      ensures this.played == played && this.cancelled == cancelled && this.since == since
    {
      this.loop, this.handlers := loop, handlers;
      cueTimers, hideTimers := {}, map[];
      this.played, this.cancelled, this.since := played, cancelled, since;
    }

    method Play(cues: seq<ScheduledCue>)
      modifies this, loop
      ensures State() == PlayAll(old(State()), cues)
    {
      var start := loop.now;
      for i := 0 to |cues|
        invariant State() == PlayAll(old(State()), cues[..i])
        invariant loop.now == start
      {
        assert cues[..i + 1][..i] == cues[..i];
        PlayCue(start, cues[i]);
      }
      assert cues[..|cues|] == cues;
    }

    /** One turn of play's loop. */
    method PlayCue(start: real, cue: ScheduledCue)
      requires start == loop.now
      modifies this, loop
      ensures State() == PlayOne(old(State()), cue) && loop.now == start
    {
      var handle := loop.SetTimeout(CueTimer(loop.now + cue.atMs, cue));
      cueTimers := cueTimers + {handle};
      played := played[handle := PlayedCue(cue, start)];
      if cue.text.None? {
        return;
      }
      var step := cue.key.stepSeq;
      var at := start + cue.hideAtMs;
      if step in hideTimers && hideTimers[step].at >= at {
        return;
      }
      if step in hideTimers {
        loop.ClearTimeout(hideTimers[step].handle);
      }
      var hideHandle := loop.SetTimeout(HideTimer(loop.now + cue.hideAtMs, step));
      hideTimers := hideTimers[step := HideRec(hideHandle, at)];
    }

    /** The event loop fires cue timer `h`: the handler runs while the cue still counts as pending. */
    method CueFires(h: nat)
      requires h in loop.timers && loop.timers[h].CueTimer? && loop.timers[h].deadline <= loop.now
      modifies this, loop, handlers
      ensures State() == FireCue(old(State()), h)
    {
      var cue := loop.timers[h].cue;
      var step := cue.key.stepSeq;
      ghost var due := if step in hideTimers then Some(hideTimers[step].at) else None;
      loop.timers := loop.timers - {h};
      handlers.OnCue(cue, Cueing(h, loop.now, |cueTimers|, due));
      cueTimers := cueTimers - {h};
    }

    /** The event loop fires hide timer `h`. */
    method HideFires(h: nat)
      requires h in loop.timers && loop.timers[h].HideTimer? && loop.timers[h].deadline <= loop.now
      modifies this, loop, handlers
      ensures State() == FireHide(old(State()), h)
    {
      var step := loop.timers[h].stepSeq;
      ghost var live := Live(State());
      loop.timers := loop.timers - {h};
      hideTimers := hideTimers - {step};
      handlers.OnHide(step, Hiding(step, loop.now, live));
    }

    method Pending() returns (n: nat)
      ensures n == |cueTimers|
    {
      n := |cueTimers|;
    }

    method Dispose()
      modifies this, loop
      ensures State() == DisposeAll(old(State()))
    {
      var rest := cueTimers;
      while rest != {}
        invariant rest <= cueTimers && unchanged(this)
        invariant loop.timers == old(loop.timers) - (cueTimers - rest)
        invariant loop.now == old(loop.now) && loop.nextHandle == old(loop.nextHandle)
      {
        var h :| h in rest;
        rest := rest - {h};
        loop.ClearTimeout(h);
      }
      var steps := hideTimers.Keys;
      while steps != {}
        invariant steps <= hideTimers.Keys && unchanged(this)
        invariant loop.timers
               == old(loop.timers) - cueTimers - (set step <- hideTimers.Keys - steps :: hideTimers[step].handle)
        invariant loop.now == old(loop.now) && loop.nextHandle == old(loop.nextHandle)
      {
        var step :| step in steps;
        steps := steps - {step};
        loop.ClearTimeout(hideTimers[step].handle);
      }
      cancelled := cancelled + cueTimers;
      since := loop.nextHandle;
      cueTimers, hideTimers := {}, map[];
    }
  }

  // ---- The director ----

  /** The timer state after one frame: a priming frame first cancels everything pending. */
  ghost function FrameTimers(s: SeqState, plan: FramePlan): SeqState {
    PlayAll(if plan.primed then DisposeAll(s) else s, plan.cues)
  }

  class BeatDirector {
    const loop: EventLoop
    const handlers: BeatHandlers
    var tracker: BeatTracker
    var sequencer: BeatSequencer

    ghost predicate Valid()
      reads this, sequencer
    {
      sequencer.loop == loop && sequencer.handlers == handlers
    }

    constructor (loop: EventLoop, handlers: BeatHandlers)
      ensures Valid() && fresh(sequencer) && this.loop == loop && this.handlers == handlers
      ensures tracker == EMPTY_TRACKER
      ensures sequencer.cueTimers == {} && sequencer.hideTimers == map[]
    {
      this.loop, this.handlers := loop, handlers;
      tracker := EMPTY_TRACKER;
      sequencer := new BeatSequencer(loop, handlers, map[], {}, 0);
    }

    method OnFrame(log: seq<LogEvent>, opts: FrameOptions) returns (plan: FramePlan)
      requires Valid()
      modifies this, sequencer, loop, handlers
      ensures Valid() && (sequencer == old(sequencer) || fresh(sequencer))
      ensures plan == PlanOf(old(tracker), log, opts) && tracker == plan.tracker
      ensures sequencer.State() == FrameTimers(old(sequencer.State()), plan)
      ensures handlers.resets == old(handlers.resets) + (if plan.primed then 1 else 0)
    {
      plan := PlanFrame(tracker, log, opts);
      tracker := plan.tracker;
      if plan.primed {
        sequencer.Dispose();
        sequencer := new BeatSequencer(loop, handlers, sequencer.played, sequencer.cancelled, sequencer.since);
        handlers.OnReset();
      }
      sequencer.Play(plan.cues);
    }

    method Pending() returns (n: nat)
      requires Valid()
      ensures n == |sequencer.cueTimers|
    {
      n := sequencer.Pending();
    }

    method Dispose()
      requires Valid()
      modifies sequencer, loop
      ensures sequencer.State() == DisposeAll(old(sequencer.State()))
    {
      sequencer.Dispose();
    }
  }

  /** A priming frame cues nothing and leaves no timer: no stale label can flash. */
  lemma PrimeCancelsEverything(s: SeqState, prev: BeatTracker, log: seq<LogEvent>, opts: FrameOptions)
    requires Inv(s) && PlanOf(prev, log, opts).primed
    ensures PlanOf(prev, log, opts).cues == []
    ensures FrameTimers(s, PlanOf(prev, log, opts)).timers == map[]
    ensures FrameTimers(s, PlanOf(prev, log, opts)).cued == s.cued
  {
    var t := TrackOf(prev, log, opts.reprime);
    assert SeqNos(t.added) == {};
    NoNewKeys(log, |log|);
    assert BeatsOf(t.tracker.cued, log, {}) == [];
    DisposeKeeps(s);
  }

  /**
   A frame is a play of a schedule that holds every text after its cue (after a
   disposal, when it primes); and a frame that does not prime cancels nothing.
   */
  lemma FrameIsPlay(s: SeqState, prev: BeatTracker, log: seq<LogEvent>, opts: FrameOptions)
    requires Inv(s)
    ensures var plan := PlanOf(prev, log, opts);
            && Enabled(s, Dispose) && Enabled(s, Play(plan.cues))
            && FrameTimers(s, plan) == Next(if plan.primed then Next(s, Dispose) else s, Play(plan.cues))
            && HoldsAfter(plan.cues)
            && (!plan.primed ==> FrameTimers(s, plan).cancelled == s.cancelled)
  {
    var plan := PlanOf(prev, log, opts);
    var t := TrackOf(prev, log, opts.reprime);
    var beats := BeatsOf(t.tracker.cued, log, SeqNos(t.added));
    PlayAllCancelsNothing(s, plan.cues);
    forall c <- plan.cues
      ensures c.atMs < c.hideAtMs
    {
      HidesTogetherAfterTheLast(beats, log, opts, c);
    }
  }
}
