/**
 The timer state behind the beat sequencer, as a state machine over an event
 loop with an explicit clock. Every timer the sequencer sets is an entry of
 `timers`, keyed by its handle. `played`, `cancelled`, `cued` and `hidden` are
 the record of what was asked for and what happened.
 */
module BeatTimers {
  import opened Wrappers
  import opened CombatBeats

  datatype Timer =
    | CueTimer(deadline: real, cue: ScheduledCue)
    | HideTimer(deadline: real, stepSeq: nat)

  /** A step's one hide timer, and when it is due. */
  datatype HideRec = HideRec(handle: nat, at: real)

  datatype PlayedCue = PlayedCue(cue: ScheduledCue, start: real)

  /** One onCue call: how many cues counted as pending during it, and when its step's text is due to come down. */
  datatype Cueing = Cueing(handle: nat, at: real, pending: nat, hideDue: Option<real>)

  /** One onHide call, with the cues played since the last disposal. */
  datatype Hiding = Hiding(stepSeq: nat, at: real, live: set<nat>)

  datatype SeqState = SeqState(
    now: real,
    nextHandle: nat,
    timers: map<nat, Timer>,
    cueTimers: set<nat>,
    hideTimers: map<nat, HideRec>,
    played: map<nat, PlayedCue>,
    cancelled: set<nat>,
    since: nat,
    cued: seq<Cueing>,
    hidden: seq<Hiding>)

  const INITIAL := SeqState(0.0, 0, map[], {}, map[], map[], {}, 0, [], [])

  function HideAt(p: PlayedCue): real {
    p.start + p.cue.hideAtMs
  }

  // ---- The sequencer's operations ----

  /** `setTimeout` for a cue: a fresh handle and a timer due `atMs` from now. */
  function SetCue(s: SeqState, cue: ScheduledCue): SeqState {
    s.(nextHandle := s.nextHandle + 1,
       timers := s.timers[s.nextHandle := CueTimer(s.now + cue.atMs, cue)],
       cueTimers := s.cueTimers + {s.nextHandle},
       played := s.played[s.nextHandle := PlayedCue(cue, s.now)])
  }

  /** A labelled cue pushes its step's hide time out, and never pulls it in. */
  function PushHide(s: SeqState, cue: ScheduledCue): SeqState {
    var step := cue.key.stepSeq;
    var at := s.now + cue.hideAtMs;
    if cue.text.None? then s
    else if step in s.hideTimers && s.hideTimers[step].at >= at then s
    else
      var timers := if step in s.hideTimers then s.timers - {s.hideTimers[step].handle} else s.timers;
      s.(nextHandle := s.nextHandle + 1,
         timers := timers[s.nextHandle := HideTimer(at, step)],
         hideTimers := s.hideTimers[step := HideRec(s.nextHandle, at)])
  }

  function PlayOne(s: SeqState, cue: ScheduledCue): SeqState {
    PushHide(SetCue(s, cue), cue)
  }

  function PlayAll(s: SeqState, cues: seq<ScheduledCue>): SeqState {
    if cues == [] then s else PlayOne(PlayAll(s, cues[..|cues| - 1]), cues[|cues| - 1])
  }

  /** A cue timer fires: the cue still counts as pending while its handler runs. */
  function FireCue(s: SeqState, h: nat): SeqState
    requires h in s.timers && s.timers[h].CueTimer?
  {
    var step := s.timers[h].cue.key.stepSeq;
    var due := if step in s.hideTimers then Some(s.hideTimers[step].at) else None;
    s.(timers := s.timers - {h},
       cueTimers := s.cueTimers - {h},
       cued := s.cued + [Cueing(h, s.now, |s.cueTimers|, due)])
  }

  function FireHide(s: SeqState, h: nat): SeqState
    requires h in s.timers && s.timers[h].HideTimer?
  {
    var step := s.timers[h].stepSeq;
    s.(timers := s.timers - {h},
       hideTimers := s.hideTimers - {step},
       hidden := s.hidden + [Hiding(step, s.now, Live(s))])
  }

  /** The cues played since the last disposal. */
  function Live(s: SeqState): set<nat> {
    set h <- s.played | h >= s.since
  }

  function HideHandles(s: SeqState): set<nat> {
    set step <- s.hideTimers :: s.hideTimers[step].handle
  }

  function DisposeAll(s: SeqState): SeqState {
    s.(timers := s.timers - s.cueTimers - HideHandles(s),
       cueTimers := {},
       hideTimers := map[],
       cancelled := s.cancelled + s.cueTimers,
       since := s.nextHandle)
  }

  // ---- Runs ----

  datatype Event =
    | Play(cues: seq<ScheduledCue>)
    | Wait(until: real)
    | Fire(handle: nat)
    | Dispose

  predicate Enabled(s: SeqState, ev: Event) {
    match ev
    case Wait(t) => s.now <= t
    case Fire(h) => h in s.timers && s.timers[h].deadline <= s.now
    case _ => true
  }

  function Next(s: SeqState, ev: Event): SeqState
    requires Enabled(s, ev)
  {
    match ev
    case Play(cues) => PlayAll(s, cues)
    case Wait(t) => s.(now := t)
    case Fire(h) => if s.timers[h].CueTimer? then FireCue(s, h) else FireHide(s, h)
    case Dispose => DisposeAll(s)
  }

  /** Any interleaving of plays, waits, timer firings in any order, and disposals. */
  ghost predicate Run(ss: seq<SeqState>, evs: seq<Event>) {
    && |ss| == |evs| + 1
    && ss[0] == INITIAL
    && (forall i :: 0 <= i < |evs| ==> Enabled(ss[i], evs[i]) && Next(ss[i], evs[i]) == ss[i + 1])
  }

  // ---- The invariant ----

  /** The hide timers and the per-step records are one to one: each step has at most one. */
  ghost predicate HidesMatch(timers: map<nat, Timer>, hideTimers: map<nat, HideRec>) {
    && (forall step <- hideTimers :: hideTimers[step].handle in timers
          && timers[hideTimers[step].handle] == HideTimer(hideTimers[step].at, step))
    && (forall h <- timers :: timers[h].HideTimer? ==>
          timers[h].stepSeq in hideTimers && hideTimers[timers[h].stepSeq].handle == h)
  }

  /** The cue timers are the tracked handles, each with the deadline its cue was played with. */
  ghost predicate CuesMatch(timers: map<nat, Timer>, cueTimers: set<nat>, played: map<nat, PlayedCue>) {
    && (forall h :: h in cueTimers <==> h in timers && timers[h].CueTimer?)
    && (forall h <- cueTimers :: h in played && timers[h] == CueTimer(played[h].start + played[h].cue.atMs, played[h].cue))
  }

  /** Every timer belongs to the sequencer, and each step has at most one hide timer. */
  ghost predicate TimersOk(s: SeqState) {
    && (forall h <- s.timers :: h < s.nextHandle)
    && (forall h <- s.played :: h < s.nextHandle)
    && CuesMatch(s.timers, s.cueTimers, s.played)
    && HidesMatch(s.timers, s.hideTimers)
  }

  function CuedHandles(cued: seq<Cueing>): set<nat> {
    set c <- cued :: c.handle
  }

  /** Every cue played is exactly one of: waiting on its live timer, cued once, cancelled. */
  ghost predicate Partitioned(played: set<nat>, waiting: set<nat>, cued: set<nat>, cancelled: set<nat>) {
    played == waiting + cued + cancelled && waiting !! cued && waiting !! cancelled && cancelled !! cued
  }

  /** No cue is cued twice, none early, and each counts as pending during its own call. */
  ghost predicate CuedOnTime(played: map<nat, PlayedCue>, cued: seq<Cueing>) {
    && (forall i, j :: 0 <= i < j < |cued| ==> cued[i].handle != cued[j].handle)
    && (forall c <- cued :: c.pending >= 1 && c.handle in played
          && played[c.handle].start + played[c.handle].cue.atMs <= c.at)
  }

  ghost predicate CuesOk(s: SeqState) {
    Partitioned(s.played.Keys, s.cueTimers, CuedHandles(s.cued), s.cancelled) && CuedOnTime(s.played, s.cued)
  }

  /** A labelled cue is covered by its step's hide timer, or its hide time has passed. */
  ghost predicate CoveredBy(s: SeqState, h: nat)
    requires h in s.played
  {
    var step := s.played[h].cue.key.stepSeq;
    (step in s.hideTimers && HideAt(s.played[h]) <= s.hideTimers[step].at) || HideAt(s.played[h]) <= s.now
  }

  ghost predicate HidesOk(s: SeqState) {
    && (forall h <- s.played :: s.played[h].cue.text.Some? && h >= s.since ==> CoveredBy(s, h))
    && (forall c <- s.hidden :: HiddenInTime(s, c))
  }

  /** The text of a step came down no sooner than every cue then played for it asked. */
  ghost predicate HiddenInTime(s: SeqState, c: Hiding) {
    forall h <- c.live ::
      h in s.played && (s.played[h].cue.text.Some? && s.played[h].cue.key.stepSeq == c.stepSeq ==> HideAt(s.played[h]) <= c.at)
  }

  ghost predicate Inv(s: SeqState) {
    TimersOk(s) && CuesOk(s) && HidesOk(s)
  }

  // ---- Each operation keeps it ----

  lemma SetCueKeeps(s: SeqState, cue: ScheduledCue)
    requires TimersOk(s) && CuesOk(s)
    ensures TimersOk(SetCue(s, cue)) && CuesOk(SetCue(s, cue))
  {
  }

  /** Replacing a step's hide timer leaves it exactly one. */
  lemma SetHideMatches(timers: map<nat, Timer>, hideTimers: map<nat, HideRec>, step: nat, h: nat, at: real)
    requires HidesMatch(timers, hideTimers) && h !in timers
    ensures var rest := if step in hideTimers then timers - {hideTimers[step].handle} else timers;
            HidesMatch(rest[h := HideTimer(at, step)], hideTimers[step := HideRec(h, at)])
  {
  }

  lemma PushHideKeeps(s: SeqState, cue: ScheduledCue)
    requires TimersOk(s) && CuesOk(s)
    ensures TimersOk(PushHide(s, cue)) && CuesOk(PushHide(s, cue))
  {
    if s.nextHandle !in s.timers {
      SetHideMatches(s.timers, s.hideTimers, cue.key.stepSeq, s.nextHandle, s.now + cue.hideAtMs);
    }
  }

  /** Hide times are only ever pushed out. */
  lemma PushHideCovers(s: SeqState, cue: ScheduledCue)
    ensures var t := PushHide(s, cue);
            && (forall step <- s.hideTimers :: step in t.hideTimers && s.hideTimers[step].at <= t.hideTimers[step].at)
            && (cue.text.Some? ==>
                  cue.key.stepSeq in t.hideTimers && s.now + cue.hideAtMs <= t.hideTimers[cue.key.stepSeq].at)
  {
  }

  /** Pushing hide times out, and playing covered cues, keeps every text covered. */
  lemma HidesMonotone(s: SeqState, t: SeqState)
    requires HidesOk(s) && s.since == t.since && s.now <= t.now && s.hidden == t.hidden
    requires forall step <- s.hideTimers :: step in t.hideTimers && s.hideTimers[step].at <= t.hideTimers[step].at
    requires forall h <- s.played :: h in t.played && t.played[h] == s.played[h]
    requires forall h <- t.played :: h in s.played || (t.played[h].cue.text.Some? ==> CoveredBy(t, h))
    ensures HidesOk(t)
  {
    forall h <- t.played | t.played[h].cue.text.Some? && h >= t.since
      ensures CoveredBy(t, h)
    {
      if h in s.played {
        assert CoveredBy(s, h);
      }
    }
    forall c <- t.hidden
      ensures HiddenInTime(t, c)
    {
      assert HiddenInTime(s, c);
    }
  }

  lemma PlayOneKeeps(s: SeqState, cue: ScheduledCue)
    requires Inv(s)
    ensures Inv(PlayOne(s, cue))
  {
    SetCueKeeps(s, cue);
    PushHideKeeps(SetCue(s, cue), cue);
    PushHideCovers(SetCue(s, cue), cue);
    HidesMonotone(s, PlayOne(s, cue));
  }

  lemma {:induction false} PlayAllKeeps(s: SeqState, cues: seq<ScheduledCue>)
    requires Inv(s)
    ensures Inv(PlayAll(s, cues))
  {
    if cues != [] {
      PlayAllKeeps(s, cues[..|cues| - 1]);
      PlayOneKeeps(PlayAll(s, cues[..|cues| - 1]), cues[|cues| - 1]);
    }
  }

  lemma CuedAppend(played: map<nat, PlayedCue>, cued: seq<Cueing>, c: Cueing)
    requires CuedOnTime(played, cued) && c.handle !in CuedHandles(cued) && c.pending >= 1
    requires c.handle in played && played[c.handle].start + played[c.handle].cue.atMs <= c.at
    ensures CuedHandles(cued + [c]) == CuedHandles(cued) + {c.handle}
    ensures CuedOnTime(played, cued + [c])
  {
    assert (cued + [c])[|cued|] == c;
    assert forall x :: x in cued + [c] <==> x in cued || x == c;
    assert forall i :: 0 <= i < |cued| ==> cued[i] in cued && cued[i].handle in CuedHandles(cued);
  }

  lemma FireCueTimers(s: SeqState, h: nat)
    requires TimersOk(s) && h in s.timers && s.timers[h].CueTimer?
    ensures TimersOk(FireCue(s, h))
  {
  }

  lemma PartitionMove(played: set<nat>, waiting: set<nat>, cued: set<nat>, cancelled: set<nat>, h: nat)
    requires Partitioned(played, waiting, cued, cancelled) && h in waiting
    ensures Partitioned(played, waiting - {h}, cued + {h}, cancelled)
    ensures |waiting| >= 1 && h !in cued
  {
    assert waiting == (waiting - {h}) + {h};
  }

  lemma FireCueCues(s: SeqState, h: nat)
    requires TimersOk(s) && CuesOk(s) && h in s.timers && s.timers[h].CueTimer? && s.timers[h].deadline <= s.now
    ensures CuesOk(FireCue(s, h))
  {
    var t := FireCue(s, h);
    var c := t.cued[|s.cued|];
    assert t.cued == s.cued + [c] && c.handle == h && c.at == s.now && c.pending == |s.cueTimers|;
    PartitionMove(s.played.Keys, s.cueTimers, CuedHandles(s.cued), s.cancelled, h);
    CuedAppend(s.played, s.cued, c);
  }

  lemma FireCueKeeps(s: SeqState, h: nat)
    requires Inv(s) && h in s.timers && s.timers[h].CueTimer? && s.timers[h].deadline <= s.now
    ensures Inv(FireCue(s, h))
  {
    FireCueTimers(s, h);
    FireCueCues(s, h);
    HidesMonotone(s, FireCue(s, h));
  }

  lemma FireHideKeeps(s: SeqState, h: nat)
    requires Inv(s) && h in s.timers && s.timers[h].HideTimer? && s.timers[h].deadline <= s.now
    ensures Inv(FireHide(s, h))
  {
    var t := FireHide(s, h);
    forall x <- t.played | t.played[x].cue.text.Some? && x >= t.since
      ensures CoveredBy(t, x)
      ensures t.played[x].cue.key.stepSeq == s.timers[h].stepSeq ==> HideAt(t.played[x]) <= t.now
    {
      assert CoveredBy(s, x);
    }
    forall c <- t.hidden
      ensures HiddenInTime(t, c)
    {
      if c in s.hidden {
        assert HiddenInTime(s, c);
      }
    }
  }

  lemma DisposeKeeps(s: SeqState)
    requires Inv(s)
    ensures Inv(DisposeAll(s))
    ensures DisposeAll(s).timers == map[]
  {
    var t := DisposeAll(s);
    forall h <- s.timers
      ensures h in s.cueTimers || h in HideHandles(s)
    {
      if s.timers[h].HideTimer? {
        assert s.hideTimers[s.timers[h].stepSeq].handle == h;
      }
    }
    assert t.timers == map[];
    forall c <- t.hidden
      ensures HiddenInTime(t, c)
    {
      assert HiddenInTime(s, c);
    }
  }

  lemma NextKeeps(s: SeqState, ev: Event)
    requires Inv(s) && Enabled(s, ev)
    ensures Inv(Next(s, ev))
  {
    match ev
    case Play(cues) => PlayAllKeeps(s, cues);
    case Wait(t) => HidesMonotone(s, s.(now := t));
    case Fire(h) =>
      if s.timers[h].CueTimer? {
        FireCueKeeps(s, h);
      } else {
        FireHideKeeps(s, h);
      }
    case Dispose => DisposeKeeps(s);
  }

  lemma {:induction false} RunKeepsInv(ss: seq<SeqState>, evs: seq<Event>, n: nat)
    requires Run(ss, evs) && n <= |evs|
    ensures Inv(ss[n])
  {
    if n > 0 {
      RunKeepsInv(ss, evs, n - 1);
      NextKeeps(ss[n - 1], evs[n - 1]);
      assert Next(ss[n - 1], evs[n - 1]) == ss[n - 1 + 1];
    }
  }

  lemma RunOneMore(ss: seq<SeqState>, evs: seq<Event>, ev: Event)
    requires Run(ss, evs) && Enabled(ss[|evs|], ev)
    ensures Run(ss + [Next(ss[|evs|], ev)], evs + [ev])
  {
    var ts, es := ss + [Next(ss[|evs|], ev)], evs + [ev];
    forall i | 0 <= i < |es| ensures Enabled(ts[i], es[i]) && Next(ts[i], es[i]) == ts[i + 1] {
      if i < |evs| { assert Next(ss[i], evs[i]) == ss[i + 1]; }
    }
  }

  /** No timer is ever stuck: every run goes on with the firing of any timer it has left waiting. */
  lemma LiveTimersCanFire(ss: seq<SeqState>, evs: seq<Event>, h: nat) returns (ts: seq<SeqState>, es: seq<Event>)
    requires Run(ss, evs) && h in ss[|evs|].timers
    ensures Run(ts, es) && ss <= ts && evs <= es && h !in ts[|es|].timers
    ensures ss[|evs|].timers[h].CueTimer? ==> exists c <- ts[|es|].cued :: c.handle == h
  {
    var s := ss[|evs|];
    var due := if s.now < s.timers[h].deadline then s.timers[h].deadline else s.now;
    RunOneMore(ss, evs, Wait(due));
    var mid, midEvs := ss + [s.(now := due)], evs + [Wait(due)];
    RunOneMore(mid, midEvs, Fire(h));
    var after := Next(s.(now := due), Fire(h));
    ts, es := mid + [after], midEvs + [Fire(h)];
    if s.timers[h].CueTimer? {
      assert after.cued[|after.cued| - 1].handle == h;
    }
  }

  lemma {:induction false} OnlyDisposeCancels(ss: seq<SeqState>, evs: seq<Event>, n: nat)
    requires Run(ss, evs) && n <= |evs| && (forall i :: 0 <= i < n ==> !evs[i].Dispose?)
    ensures ss[n].cancelled == {}
  {
    if n > 0 {
      OnlyDisposeCancels(ss, evs, n - 1);
      assert Next(ss[n - 1], evs[n - 1]) == ss[n - 1 + 1];
      match evs[n - 1]
      case Play(cues) => PlayAllCancelsNothing(ss[n - 1], cues);
      case _ =>
    }
  }

  lemma {:induction false} PlayAllCancelsNothing(s: SeqState, cues: seq<ScheduledCue>)
    ensures PlayAll(s, cues).cancelled == s.cancelled
    ensures PlayAll(s, cues).cued == s.cued && PlayAll(s, cues).now == s.now
  {
    if cues != [] {
      PlayAllCancelsNothing(s, cues[..|cues| - 1]);
    }
  }

  /**
   Under any interleaving, every cue played is in exactly one of three states:
   its timer is live with the deadline it was played with, or its handler ran
   exactly once, not before that deadline, or a disposal cancelled it.
   */
  lemma EveryCueFiresOnce(ss: seq<SeqState>, evs: seq<Event>, n: nat, h: nat)
    requires Run(ss, evs) && n <= |evs| && h in ss[n].played
    ensures var s := ss[n];
            var p := s.played[h];
            var live := h in s.timers && s.timers[h] == CueTimer(p.start + p.cue.atMs, p.cue);
            var fired := exists i :: 0 <= i < |s.cued| && s.cued[i].handle == h;
            && (live || fired || h in s.cancelled)
            && !(live && fired) && !(live && h in s.cancelled) && !(fired && h in s.cancelled)
            && (forall i, j :: 0 <= i < j < |s.cued| ==> !(s.cued[i].handle == h && s.cued[j].handle == h))
            && (forall c <- s.cued :: c.handle == h ==> p.start + p.cue.atMs <= c.at && c.pending >= 1)
  {
    RunKeepsInv(ss, evs, n);
    var s := ss[n];
    assert forall i :: 0 <= i < |s.cued| ==> s.cued[i] in s.cued && s.cued[i].handle in CuedHandles(s.cued);
    if h in CuedHandles(s.cued) {
      var c :| c in s.cued && c.handle == h;
    }
  }

  /** No handle is both a cue's and a hide's. */
  ghost predicate HandlesApart(s: SeqState) {
    forall h <- s.timers :: h in s.played ==> s.timers[h].CueTimer?
  }

  lemma {:induction false} PlayAllKeepsApart(s: SeqState, cues: seq<ScheduledCue>)
    requires Inv(s) && HandlesApart(s)
    ensures HandlesApart(PlayAll(s, cues))
  {
    if cues != [] {
      PlayAllKeepsApart(s, cues[..|cues| - 1]);
      PlayAllKeeps(s, cues[..|cues| - 1]);
    }
  }

  lemma {:induction false} RunKeepsApart(ss: seq<SeqState>, evs: seq<Event>, n: nat)
    requires Run(ss, evs) && n <= |evs|
    ensures HandlesApart(ss[n])
  {
    if n > 0 {
      RunKeepsApart(ss, evs, n - 1);
      RunKeepsInv(ss, evs, n - 1);
      assert Next(ss[n - 1], evs[n - 1]) == ss[n - 1 + 1];
      match evs[n - 1]
      case Play(cues) => PlayAllKeepsApart(ss[n - 1], cues);
      case _ =>
    }
  }

  /** With no disposal, a cue played has been cued exactly when its own timer is gone, whatever other timers wait. */
  lemma NoCueIsDropped(ss: seq<SeqState>, evs: seq<Event>, n: nat, h: nat)
    requires Run(ss, evs) && n <= |evs| && (forall i :: 0 <= i < n ==> !evs[i].Dispose?)
    requires h in ss[n].played
    ensures h !in ss[n].timers <==> exists c <- ss[n].cued :: c.handle == h
  {
    RunKeepsInv(ss, evs, n);
    RunKeepsApart(ss, evs, n);
    OnlyDisposeCancels(ss, evs, n);
    assert h in ss[n].timers <==> h in ss[n].cueTimers;
    if h in CuedHandles(ss[n].cued) { var c :| c in ss[n].cued && c.handle == h; }
  }

  predicate SameStepHides(a: Timer, b: Timer) {
    a.HideTimer? && b.HideTimer? && a.stepSeq == b.stepSeq
  }

  /**
   Each step has at most one hide timer, and its text never comes down before
   the latest hide time of any labelled cue played for it since the last disposal.
   */
  lemma NeverHiddenEarly(ss: seq<SeqState>, evs: seq<Event>, n: nat)
    requires Run(ss, evs) && n <= |evs|
    ensures var s := ss[n];
            && (forall x, y :: x in s.timers && y in s.timers && SameStepHides(s.timers[x], s.timers[y]) ==> x == y)
            && (forall c <- s.hidden, h <- c.live :: h in s.played
                  && (s.played[h].cue.text.Some? && s.played[h].cue.key.stepSeq == c.stepSeq ==>
                        s.played[h].start + s.played[h].cue.hideAtMs <= c.at))
  {
    RunKeepsInv(ss, evs, n);
    forall c <- ss[n].hidden
      ensures HiddenInTime(ss[n], c)
    {
    }
  }

  // ---- Timers that fire in deadline order ----

  /** The browser's order: no timer fires while an earlier deadline is still waiting. */
  ghost predicate InOrder(s: SeqState, ev: Event) {
    ev.Fire? && ev.handle in s.timers ==> forall x <- s.timers :: s.timers[ev.handle].deadline <= s.timers[x].deadline
  }

  /** Every cue comes down some time after it plays, as every schedule has it. */
  ghost predicate HoldsAfter(cues: seq<ScheduledCue>) {
    forall c <- cues :: c.atMs < c.hideAtMs
  }

  /** A labelled cue still to play has its step's hide timer waiting, due no sooner than it asked. */
  ghost predicate TextWillHide(s: SeqState) {
    && (forall h <- s.cueTimers :: h in s.played && (s.played[h].cue.text.Some? ==> HideWaits(s, s.played[h])))
    && (forall h <- s.played :: s.played[h].cue.atMs < s.played[h].cue.hideAtMs)
    && (forall c <- s.cued :: c.handle in s.played && (s.played[c.handle].cue.text.Some? ==>
          c.hideDue.Some? && HideAt(s.played[c.handle]) <= c.hideDue.value))
  }

  ghost predicate HideWaits(s: SeqState, p: PlayedCue) {
    var step := p.cue.key.stepSeq;
    step in s.hideTimers && HideAt(p) <= s.hideTimers[step].at
  }

  lemma PlayOneWillHide(s: SeqState, cue: ScheduledCue)
    requires Inv(s) && TextWillHide(s) && cue.atMs < cue.hideAtMs
    ensures TextWillHide(PlayOne(s, cue))
  {
    var m, t := SetCue(s, cue), PlayOne(s, cue);
    PushHideCovers(m, cue);
    forall h <- t.cueTimers
      ensures h in t.played && (t.played[h].cue.text.Some? ==> HideWaits(t, t.played[h]))
    {
      if h in s.cueTimers {
        assert HideWaits(s, s.played[h]) || s.played[h].cue.text.None?;
      }
    }
  }

  lemma {:induction false} PlayAllWillHide(s: SeqState, cues: seq<ScheduledCue>)
    requires Inv(s) && TextWillHide(s) && HoldsAfter(cues)
    ensures TextWillHide(PlayAll(s, cues))
  {
    if cues != [] {
      PlayAllWillHide(s, cues[..|cues| - 1]);
      PlayAllKeeps(s, cues[..|cues| - 1]);
      assert cues[|cues| - 1] in cues;
      PlayOneWillHide(PlayAll(s, cues[..|cues| - 1]), cues[|cues| - 1]);
    }
  }

  lemma FireHideWillHide(s: SeqState, h: nat)
    requires Inv(s) && TextWillHide(s) && h in s.timers && s.timers[h].HideTimer?
    requires InOrder(s, Fire(h))
    ensures TextWillHide(FireHide(s, h))
  {
    var step := s.timers[h].stepSeq;
    forall x <- s.cueTimers | s.played[x].cue.text.Some?
      ensures HideWaits(FireHide(s, h), s.played[x])
    {
      assert HideWaits(s, s.played[x]);
      assert s.timers[h].deadline <= s.timers[x].deadline;
    }
  }

  lemma {:induction false} OrderedRunWillHide(ss: seq<SeqState>, evs: seq<Event>, n: nat)
    requires Run(ss, evs) && n <= |evs|
    requires forall i :: 0 <= i < n ==> InOrder(ss[i], evs[i]) && (evs[i].Play? ==> HoldsAfter(evs[i].cues))
    ensures TextWillHide(ss[n])
  {
    if n > 0 {
      var s := ss[n - 1];
      OrderedRunWillHide(ss, evs, n - 1);
      RunKeepsInv(ss, evs, n - 1);
      assert Next(s, evs[n - 1]) == ss[n - 1 + 1];
      assert InOrder(s, evs[n - 1]);
      match evs[n - 1]
      case Play(cues) => PlayAllWillHide(s, cues);
      case Wait(t) => assert forall p :: HideWaits(s, p) <==> HideWaits(s.(now := t), p);
      case Fire(h) =>
        if s.timers[h].CueTimer? {
          FireCueWillHide(s, h);
        } else {
          FireHideWillHide(s, h);
        }
      case Dispose =>
    }
  }

  lemma FireCueWillHide(s: SeqState, h: nat)
    requires Inv(s) && TextWillHide(s) && h in s.timers && s.timers[h].CueTimer?
    ensures TextWillHide(FireCue(s, h))
  {
    var t := FireCue(s, h);
    assert h in s.cueTimers;
    assert s.timers[h].cue == s.played[h].cue;
    forall x <- t.cueTimers
      ensures x in t.played && (t.played[x].cue.text.Some? ==> HideWaits(t, t.played[x]))
    {
      assert s.played[x].cue.text.Some? ==> HideWaits(s, s.played[x]);
    }
  }

  /**
   With timers firing in deadline order, a text never goes up without its way
   down: whenever a labelled cue is shown, its step's hide timer is waiting,
   due no sooner than that cue's own hide time.
   */
  lemma ShownTextIsAlwaysHidden(ss: seq<SeqState>, evs: seq<Event>, n: nat, c: Cueing)
    requires Run(ss, evs) && n <= |evs| && c in ss[n].cued
    requires forall i :: 0 <= i < n ==> InOrder(ss[i], evs[i]) && (evs[i].Play? ==> HoldsAfter(evs[i].cues))
    ensures c.handle in ss[n].played
    ensures ss[n].played[c.handle].cue.text.Some? ==>
              c.hideDue.Some? && c.hideDue.value >= ss[n].played[c.handle].start + ss[n].played[c.handle].cue.hideAtMs
  {
    OrderedRunWillHide(ss, evs, n);
  }

  // ---- What a play sets going ----

  lemma PlayOneSets(s: SeqState, cue: ScheduledCue)
    requires TimersOk(s) && CuesOk(s)
    ensures var t := PlayOne(s, cue);
            && TimersOk(t) && CuesOk(t) && s.nextHandle < t.nextHandle && t.now == s.now
            && t.played == s.played[s.nextHandle := PlayedCue(cue, s.now)]
            && s.nextHandle in t.timers && t.timers[s.nextHandle] == CueTimer(s.now + cue.atMs, cue)
            && (forall h <- s.timers :: s.timers[h].CueTimer? ==> h in t.timers && t.timers[h] == s.timers[h])
  {
    SetCueKeeps(s, cue);
    PushHideKeeps(SetCue(s, cue), cue);
  }

  /** The cue waits on timer `h`, due its time after the play at `start`. */
  predicate WaitsOn(t: SeqState, start: real, cue: ScheduledCue, h: nat) {
    && h in t.timers && t.timers[h] == CueTimer(start + cue.atMs, cue)
    && h in t.played && t.played[h] == PlayedCue(cue, start)
  }

  /** Every cue waits on a timer of its own, handed out since `s`. */
  predicate AllWait(s: SeqState, t: SeqState, cues: seq<ScheduledCue>, hs: seq<nat>) {
    && |hs| == |cues| && t.now == s.now && s.nextHandle <= t.nextHandle
    && (forall i :: 0 <= i < |hs| ==> s.nextHandle <= hs[i] < t.nextHandle && WaitsOn(t, s.now, cues[i], hs[i]))
    && (forall i, j :: 0 <= i < j < |hs| ==> hs[i] < hs[j])
  }

  /** No cue's timer is taken away, and no cue is played but these. */
  predicate OnlyAdds(s: SeqState, t: SeqState, hs: seq<nat>) {
    && (forall h <- s.timers :: s.timers[h].CueTimer? ==> h in t.timers && t.timers[h] == s.timers[h])
    && (forall h <- t.played :: h in s.played || h in hs)
  }

  lemma OneMoreWaits(s: SeqState, t: SeqState, cues: seq<ScheduledCue>, hs: seq<nat>, cue: ScheduledCue)
    requires TimersOk(t) && CuesOk(t) && AllWait(s, t, cues, hs)
    ensures AllWait(s, PlayOne(t, cue), cues + [cue], hs + [t.nextHandle])
  {
    PlayOneSets(t, cue);
    var u, all, handles := PlayOne(t, cue), cues + [cue], hs + [t.nextHandle];
    forall i | 0 <= i < |handles| ensures s.nextHandle <= handles[i] < u.nextHandle && WaitsOn(u, s.now, all[i], handles[i]) {
      if i < |hs| {
        assert WaitsOn(t, s.now, cues[i], hs[i]);
      }
    }
  }

  /** A play sets a fresh timer for every cue, in order, and takes no cue's timer away. */
  lemma {:induction false} PlaySetsEveryCue(s: SeqState, cues: seq<ScheduledCue>) returns (hs: seq<nat>)
    requires TimersOk(s) && CuesOk(s)
    ensures TimersOk(PlayAll(s, cues)) && CuesOk(PlayAll(s, cues))
    ensures AllWait(s, PlayAll(s, cues), cues, hs) && OnlyAdds(s, PlayAll(s, cues), hs)
  {
    if cues == [] {
      hs := [];
    } else {
      var rest, last := cues[..|cues| - 1], cues[|cues| - 1];
      assert cues == rest + [last];
      var before := PlaySetsEveryCue(s, rest);
      PlayOneSets(PlayAll(s, rest), last);
      OneMoreWaits(s, PlayAll(s, rest), rest, before, last);
      hs := before + [PlayAll(s, rest).nextHandle];
    }
  }

  /** A firing tells the handler, and nothing else does: a cue's timer its own cue, a hide timer its own step. */
  lemma FiringTellsTheHandler(ss: seq<SeqState>, evs: seq<Event>, i: nat)
    requires Run(ss, evs) && i < |evs|
    ensures evs[i].Fire? && ss[i].timers[evs[i].handle].CueTimer? ==>
              && |ss[i + 1].cued| == |ss[i].cued| + 1 && ss[i].cued <= ss[i + 1].cued && ss[i + 1].hidden == ss[i].hidden
              && ss[i + 1].cued[|ss[i].cued|].handle == evs[i].handle && ss[i + 1].cued[|ss[i].cued|].at == ss[i].now
    ensures evs[i].Fire? && ss[i].timers[evs[i].handle].HideTimer? ==>
              && |ss[i + 1].hidden| == |ss[i].hidden| + 1 && ss[i].hidden <= ss[i + 1].hidden && ss[i + 1].cued == ss[i].cued
              && ss[i + 1].hidden[|ss[i].hidden|].stepSeq == ss[i].timers[evs[i].handle].stepSeq
              && ss[i + 1].hidden[|ss[i].hidden|].at == ss[i].now
    ensures !evs[i].Fire? ==> ss[i + 1].cued == ss[i].cued && ss[i + 1].hidden == ss[i].hidden
  {
    assert Enabled(ss[i], evs[i]) && Next(ss[i], evs[i]) == ss[i + 1];
    if evs[i].Play? {
      PlayAllCancelsNothing(ss[i], evs[i].cues);
      PlayAllHidesNothing(ss[i], evs[i].cues);
    }
  }

  lemma {:induction false} PlayAllHidesNothing(s: SeqState, cues: seq<ScheduledCue>)
    ensures PlayAll(s, cues).hidden == s.hidden
  {
    if cues != [] {
      PlayAllHidesNothing(s, cues[..|cues| - 1]);
    }
  }

  // ---- Nor is a text held up too long ----

  /** Cue `h`, played since the last disposal, asks that `step`'s text come down at `at`. */
  ghost predicate Asks(s: SeqState, h: nat, step: nat, at: real) {
    && h in s.played && h >= s.since && s.played[h].cue.text.Some?
    && s.played[h].cue.key.stepSeq == step && HideAt(s.played[h]) == at
  }

  /** Every hide timer is due when one of the cues played for its step asked. */
  ghost predicate DueAsAsked(s: SeqState) {
    && s.since <= s.nextHandle
    && forall step <- s.hideTimers :: exists h :: Asks(s, h, step, s.hideTimers[step].at)
  }

  lemma PlayOneDueAsAsked(s: SeqState, cue: ScheduledCue)
    requires Inv(s) && DueAsAsked(s)
    ensures DueAsAsked(PlayOne(s, cue))
  {
    var t := PlayOne(s, cue);
    forall step <- t.hideTimers ensures exists h :: Asks(t, h, step, t.hideTimers[step].at) {
      if step in s.hideTimers && t.hideTimers[step] == s.hideTimers[step] {
        var h :| Asks(s, h, step, s.hideTimers[step].at);
        assert Asks(t, h, step, t.hideTimers[step].at);
      } else {
        assert Asks(t, s.nextHandle, step, t.hideTimers[step].at);
      }
    }
  }

  lemma {:induction false} PlayAllDueAsAsked(s: SeqState, cues: seq<ScheduledCue>)
    requires Inv(s) && DueAsAsked(s)
    ensures DueAsAsked(PlayAll(s, cues))
  {
    if cues != [] {
      PlayAllKeeps(s, cues[..|cues| - 1]);
      PlayAllDueAsAsked(s, cues[..|cues| - 1]);
      PlayOneDueAsAsked(PlayAll(s, cues[..|cues| - 1]), cues[|cues| - 1]);
    }
  }

  lemma SameHidesDueAsAsked(s: SeqState, t: SeqState)
    requires DueAsAsked(s) && t.since == s.since && t.played == s.played && t.nextHandle == s.nextHandle
    requires forall step <- t.hideTimers :: step in s.hideTimers && t.hideTimers[step] == s.hideTimers[step]
    ensures DueAsAsked(t)
  {
    forall step <- t.hideTimers ensures exists h :: Asks(t, h, step, t.hideTimers[step].at) {
      var h :| Asks(s, h, step, s.hideTimers[step].at);
      assert Asks(t, h, step, t.hideTimers[step].at);
    }
  }

  /**
   In every reachable state a step's hide timer is due at the latest when the last of the
   labelled cues played for it asked, since it is due exactly when one of them did.
   */
  lemma {:induction false} HideIsDueAsAsked(ss: seq<SeqState>, evs: seq<Event>, n: nat)
    requires Run(ss, evs) && n <= |evs|
    ensures DueAsAsked(ss[n])
  {
    if n > 0 {
      HideIsDueAsAsked(ss, evs, n - 1);
      RunKeepsInv(ss, evs, n - 1);
      assert Enabled(ss[n - 1], evs[n - 1]) && Next(ss[n - 1], evs[n - 1]) == ss[n - 1 + 1];
      match evs[n - 1]
      case Play(cues) => PlayAllDueAsAsked(ss[n - 1], cues);
      case Dispose =>
      case _ => SameHidesDueAsAsked(ss[n - 1], ss[n]);
    }
  }
}
