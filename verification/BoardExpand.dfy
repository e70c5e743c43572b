/**
 A seat's board drawn larger over the table: hovering an avatar opens a peek,
 clicking pins it. One reducer over ten events and the one timer it asks for.
 */
module BoardExpand {
  import opened Wrappers

  datatype Expanded = Expanded(seatID: string, pinned: bool)

  datatype TimerKind = OpenTimer | CloseTimer

  datatype ExpandTimer = ExpandTimer(kind: TimerKind, ms: int, seqNo: nat)

  datatype ExpandState = ExpandState(
    expanded: Option<Expanded>,
    overAvatar: Option<string>,
    overOverlay: bool,
    pendingSeat: Option<string>,
    consumed: Option<string>,
    timer: Option<ExpandTimer>,
    seqNo: nat)

  datatype ExpandEvent =
    | AvatarEnter(seatID: string, openDelayMs: int)
    | AvatarLeave(seatID: string)
    | AvatarPress(seatID: string)
    | AvatarClick(seatID: string)
    | OverlayEnter
    | OverlayLeave
    | PinToggle
    | Expand(seatID: string)
    | Escape
    | Elapsed(seqNo: nat)

  const PEEK_CLOSE_GRACE_MS := 250

  function InitialState(): ExpandState {
    ExpandState(None, None, false, None, None, None, 0)
  }

  function Schedule(s: ExpandState, kind: TimerKind, ms: int): ExpandState {
    s.(seqNo := s.seqNo + 1, timer := Some(ExpandTimer(kind, ms, s.seqNo + 1)))
  }

  function CancelAny(s: ExpandState): ExpandState {
    s.(timer := None)
  }

  function Cancel(s: ExpandState, kind: TimerKind): ExpandState {
    if s.timer.Some? && s.timer.value.kind == kind then s.(timer := None) else s
  }

  predicate PeekHeld(s: ExpandState) {
    s.overOverlay || (s.expanded.Some? && s.overAvatar == Some(s.expanded.value.seatID))
  }

  function SettlePeek(s: ExpandState): ExpandState {
    if s.expanded.None? || s.expanded.value.pinned || PeekHeld(s) then Cancel(s, CloseTimer)
    else if s.timer.Some? && s.timer.value.kind.CloseTimer? then s
    else Schedule(s, CloseTimer, PEEK_CLOSE_GRACE_MS)
  }

  function Close(s: ExpandState): ExpandState {
    s.(expanded := None, overOverlay := false, pendingSeat := None, timer := None,
       consumed := if s.overAvatar.Some? then s.overAvatar else s.consumed)
  }

  predicate Pinned(s: ExpandState) {
    s.expanded.Some? && s.expanded.value.pinned
  }

  predicate Peeking(s: ExpandState) {
    s.expanded.Some? && !s.expanded.value.pinned
  }

  function OnEnter(s: ExpandState, seatID: string, openDelayMs: int): ExpandState {
    var next := s.(overAvatar := Some(seatID));
    if next.expanded.Some? && next.expanded.value.seatID == seatID then SettlePeek(next.(pendingSeat := None))
    else if Pinned(next) || next.consumed == Some(seatID) then next
    else Schedule(next.(pendingSeat := Some(seatID)), OpenTimer, openDelayMs)
  }

  function OnLeave(s: ExpandState, seatID: string): ExpandState {
    var here := Some(seatID);
    if s.overAvatar != here && s.pendingSeat != here && s.consumed != here then s
    else
      var moved := s.(overAvatar := if s.overAvatar == here then None else s.overAvatar,
                      consumed := if s.consumed == here then None else s.consumed);
      SettlePeek(if moved.pendingSeat == here then Cancel(moved.(pendingSeat := None), OpenTimer) else moved)
  }

  function OnElapsed(s: ExpandState, seqNo: nat): ExpandState {
    if s.timer.None? || s.timer.value.seqNo != seqNo then s
    else
      var next := s.(timer := None);
      if s.timer.value.kind.OpenTimer? then
        if next.pendingSeat.None? || next.pendingSeat.value == "" || Pinned(next) then next.(pendingSeat := None)
        else next.(pendingSeat := None, expanded := Some(Expanded(next.pendingSeat.value, false)))
      else if Peeking(next) && !PeekHeld(next) then Close(next)
      else next
  }

  function ReduceExpand(s: ExpandState, ev: ExpandEvent): ExpandState {
    match ev
    case AvatarEnter(seatID, openDelayMs) => OnEnter(s, seatID, openDelayMs)
    case AvatarLeave(seatID) => OnLeave(s, seatID)
    case AvatarPress(seatID) =>
      var next := s.(consumed := Some(seatID));
      if next.pendingSeat.Some? then Cancel(next.(pendingSeat := None), OpenTimer) else next
    case AvatarClick(seatID) =>
      if s.expanded == Some(Expanded(seatID, true)) then Close(s).(consumed := Some(seatID))
      else CancelAny(s).(expanded := Some(Expanded(seatID, true)), pendingSeat := None, consumed := Some(seatID))
    case OverlayEnter => SettlePeek(s.(overOverlay := true))
    case OverlayLeave => SettlePeek(s.(overOverlay := false))
    case PinToggle =>
      if s.expanded.None? then s
      else if s.expanded.value.pinned then Close(s)
      else CancelAny(s).(expanded := Some(s.expanded.value.(pinned := true)), pendingSeat := None)
    case Expand(seatID) => CancelAny(s).(expanded := Some(Expanded(seatID, true)), pendingSeat := None)
    case Escape => if s.expanded.Some? then Close(s) else s
    case Elapsed(seqNo) => OnElapsed(s, seqNo)
  }

  // ---- Runs ----

  /** `ss` is the states a board goes through on `evs`, from where it opens. */
  ghost predicate Run(ss: seq<ExpandState>, evs: seq<ExpandEvent>) {
    && |ss| == |evs| + 1 && ss[0] == InitialState()
    && forall i :: 0 <= i < |evs| ==> ss[i + 1] == ReduceExpand(ss[i], evs[i])
  }

  /** What holds in every state, whatever order the events come in. */
  predicate Sound(s: ExpandState) {
    && (s.timer.Some? ==> s.timer.value.seqNo <= s.seqNo)
    && (s.pendingSeat.Some? ==> s.consumed != s.pendingSeat && !Pinned(s))
  }

  lemma SoundStep(s: ExpandState, ev: ExpandEvent)
    requires Sound(s)
    ensures Sound(ReduceExpand(s, ev))
  {
  }

  /**
   Every state of every run: a pending peek is never the consumed avatar and never
   coexists with a pin, and no timer's number is beyond the last one handed out.
   */
  lemma {:induction false} EveryRunIsSound(ss: seq<ExpandState>, evs: seq<ExpandEvent>, i: nat)
    requires Run(ss, evs) && i < |ss|
    ensures Sound(ss[i])
  {
    if i > 0 {
      EveryRunIsSound(ss, evs, i - 1);
      SoundStep(ss[i - 1], evs[i - 1]);
    }
  }

  /** A step keeps the timer, drops it, or starts one with a number never used before. */
  lemma TimerStep(s: ExpandState, ev: ExpandEvent)
    requires Sound(s)
    ensures var t := ReduceExpand(s, ev);
            && s.seqNo <= t.seqNo
            && (t.timer == s.timer || t.timer.None? || t.timer.value.seqNo == s.seqNo + 1 == t.seqNo)
  {
  }

  lemma {:induction false} DeadStaysDead(ss: seq<ExpandState>, evs: seq<ExpandEvent>, t: ExpandTimer, j: nat, m: nat)
    requires Run(ss, evs) && j <= m < |ss|
    requires t.seqNo <= ss[j].seqNo && (ss[j].timer.None? || ss[j].timer.value.seqNo != t.seqNo)
    ensures t.seqNo <= ss[m].seqNo && (ss[m].timer.None? || ss[m].timer.value.seqNo != t.seqNo)
    ensures ReduceExpand(ss[m], Elapsed(t.seqNo)) == ss[m]
    decreases m
  {
    if j < m {
      DeadStaysDead(ss, evs, t, j, m - 1);
      EveryRunIsSound(ss, evs, m - 1);
      TimerStep(ss[m - 1], evs[m - 1]);
    }
  }

  lemma {:induction false} SeqNoGrows(ss: seq<ExpandState>, evs: seq<ExpandEvent>, i: nat, j: nat)
    requires Run(ss, evs) && i <= j < |ss|
    ensures ss[i].seqNo <= ss[j].seqNo
    decreases j
  {
    if i < j {
      SeqNoGrows(ss, evs, i, j - 1);
      EveryRunIsSound(ss, evs, j - 1);
      TimerStep(ss[j - 1], evs[j - 1]);
    }
  }

  /** What a step does to a timer that is, or will be, numbered `n`: a number already handed out is never given again. */
  lemma NumberIsNotReused(s: ExpandState, ev: ExpandEvent, n: nat)
    requires Sound(s) && n <= s.seqNo
    ensures var t := ReduceExpand(s, ev).timer;
            t.Some? && t.value.seqNo == n ==> t == s.timer
  {
    TimerStep(s, ev);
  }

  /** While a number is still the state's, it is the same timer all along. */
  lemma {:induction false} SameNumberSameTimer(ss: seq<ExpandState>, evs: seq<ExpandEvent>, i: nat, j: nat)
    requires Run(ss, evs) && i <= j < |ss| && ss[i].timer.Some? && ss[j].timer.Some?
    requires ss[i].timer.value.seqNo == ss[j].timer.value.seqNo
    ensures ss[i].timer == ss[j].timer
    decreases j
  {
    if i < j {
      var n := ss[i].timer.value.seqNo;
      EveryRunIsSound(ss, evs, i);
      EveryRunIsSound(ss, evs, j - 1);
      SeqNoGrows(ss, evs, i, j - 1);
      assert ss[j - 1 + 1] == ReduceExpand(ss[j - 1], evs[j - 1]);
      NumberIsNotReused(ss[j - 1], evs[j - 1], n);
      SameNumberSameTimer(ss, evs, i, j - 1);
    }
  }

  /**
   Once a timer has been cancelled, replaced or has fired, its firing changes
   nothing for the rest of the run: no later timer carries its number.
   */
  lemma StaleTimersChangeNothing(ss: seq<ExpandState>, evs: seq<ExpandEvent>, i: nat, j: nat, m: nat)
    requires Run(ss, evs) && i <= j <= m < |ss| && ss[i].timer.Some? && ss[j].timer != ss[i].timer
    ensures ReduceExpand(ss[m], Elapsed(ss[i].timer.value.seqNo)) == ss[m]
  {
    EveryRunIsSound(ss, evs, i);
    SeqNoGrows(ss, evs, i, j);
    if ss[j].timer.Some? && ss[j].timer.value.seqNo == ss[i].timer.value.seqNo {
      SameNumberSameTimer(ss, evs, i, j);
    }
    DeadStaysDead(ss, evs, ss[i].timer.value, j, m);
  }

  // ---- Pins ----

  /** The pointer moving, a press, or a timer: everything but a click, a button or Escape. */
  predicate Passive(ev: ExpandEvent) {
    ev.AvatarEnter? || ev.AvatarLeave? || ev.AvatarPress? || ev.OverlayEnter? || ev.OverlayLeave? || ev.Elapsed?
  }

  /** No pointer movement and no timer ever closes or replaces a pinned overlay. */
  lemma {:induction false} PinOutlastsPointer(ss: seq<ExpandState>, evs: seq<ExpandEvent>, i: nat, j: nat)
    requires Run(ss, evs) && i <= j < |ss| && Pinned(ss[i])
    requires forall k :: i <= k < j ==> Passive(evs[k])
    ensures ss[j].expanded == ss[i].expanded
    decreases j
  {
    if i < j {
      PinOutlastsPointer(ss, evs, i, j - 1);
      assert Passive(evs[j - 1]);
    }
  }

  // ---- A used-up hover ----

  /** The pointer stays with `seat`: only it is entered, pressed or clicked, and it is not left. */
  predicate StaysWith(ev: ExpandEvent, seat: string) {
    match ev
    case AvatarEnter(id, _) => id == seat
    case AvatarPress(id) => id == seat
    case AvatarClick(id) => id == seat
    case AvatarLeave(id) => id != seat
    case _ => true
  }

  predicate UsedUp(s: ExpandState, seat: string) {
    && s.consumed == Some(seat) && s.pendingSeat != Some(seat)
    && (s.overAvatar.None? || s.overAvatar == Some(seat))
    && s.expanded != Some(Expanded(seat, false))
  }

  lemma UsedUpStep(s: ExpandState, ev: ExpandEvent, seat: string)
    requires UsedUp(s, seat) && StaysWith(ev, seat)
    ensures UsedUp(ReduceExpand(s, ev), seat)
  {
  }

  /** A press uses the hover up: until the pointer leaves that avatar, it opens no peek of it. */
  lemma {:induction false} ConsumedHoverOpensNothing(ss: seq<ExpandState>, evs: seq<ExpandEvent>, seat: string, i: nat, j: nat)
    requires Run(ss, evs) && i <= j < |ss| && UsedUp(ss[i], seat)
    requires forall k :: i <= k < j ==> StaysWith(evs[k], seat)
    ensures ss[j].expanded != Some(Expanded(seat, false)) && ss[j].pendingSeat != Some(seat) && ss[j].consumed == Some(seat)
    ensures UsedUp(ss[j], seat)
    decreases j
  {
    if i < j {
      ConsumedHoverOpensNothing(ss, evs, seat, i, j - 1);
      UsedUpStep(ss[j - 1], evs[j - 1], seat);
    }
  }

  // ---- A peek nobody holds goes away ----

  /** The browser's order: one avatar is left before another is entered. */
  predicate LeavesFirst(s: ExpandState, ev: ExpandEvent) {
    ev.AvatarEnter? ==> s.overAvatar.None?
  }

  /** Nobody is over an avatar or the overlay. */
  predicate PointerAway(s: ExpandState) {
    s.overAvatar.None? && !s.overOverlay
  }

  predicate TimerIs(s: ExpandState, kind: TimerKind) {
    s.timer.Some? && s.timer.value.kind == kind
  }

  predicate Settled(s: ExpandState) {
    && (s.pendingSeat.Some? ==> s.overAvatar == s.pendingSeat)
    && (TimerIs(s, OpenTimer) ==> s.pendingSeat.Some?)
    && (Peeking(s) && PointerAway(s) ==> TimerIs(s, CloseTimer))
  }

  /**
   The one kind of event that unsettles: entering an avatar while another's peek is
   pending, when the entered one's hover is used up, or its own overlay is open beside a
   live open timer.
   */
  predicate Strands(s: ExpandState, ev: ExpandEvent) {
    && ev.AvatarEnter? && s.pendingSeat.Some?
    && (if s.expanded.Some? && s.expanded.value.seatID == ev.seatID then TimerIs(s, OpenTimer)
        else s.consumed == Some(ev.seatID))
  }

  /** From a settled state, the next is settled if and only if the event is not a stranding enter. */
  lemma SettledIffNotStranded(s: ExpandState, ev: ExpandEvent)
    requires Sound(s) && Settled(s)
    ensures Settled(ReduceExpand(s, ev)) <==> !Strands(s, ev)
  {
  }

  /** A browser that leaves one avatar before it enters another makes no stranding enter. */
  lemma LeavingFirstStrandsNothing(s: ExpandState, ev: ExpandEvent)
    requires Settled(s) && LeavesFirst(s, ev)
    ensures !Strands(s, ev)
  {
  }

  /** Every state of a run is settled if and only if none of its events is a stranding enter. */
  lemma {:induction false} RunSettledIffNothingStrands(ss: seq<ExpandState>, evs: seq<ExpandEvent>, n: nat)
    requires Run(ss, evs) && n <= |evs|
    ensures (forall i :: 0 <= i <= n ==> Settled(ss[i])) <==> (forall k :: 0 <= k < n ==> !Strands(ss[k], evs[k]))
  {
    if n > 0 {
      RunSettledIffNothingStrands(ss, evs, n - 1);
      EveryRunIsSound(ss, evs, n - 1);
      if Settled(ss[n - 1]) { SettledIffNotStranded(ss[n - 1], evs[n - 1]); }
      assert ss[n - 1 + 1] == ReduceExpand(ss[n - 1], evs[n - 1]);
    }
  }

  /**
   On every run with no stranding enter, a peek with the pointer over neither an avatar
   nor the overlay has a live close timer whose firing closes it; an open timer has a
   seat to open, and that seat is the avatar under the pointer.
   */
  lemma UnheldPeekCloses(ss: seq<ExpandState>, evs: seq<ExpandEvent>, i: nat)
    requires Run(ss, evs) && i < |ss|
    requires forall k :: 0 <= k < i ==> !Strands(ss[k], evs[k])
    ensures var s := ss[i];
            && (Peeking(s) && PointerAway(s) ==>
                  s.timer.Some? && ReduceExpand(s, Elapsed(s.timer.value.seqNo)).expanded.None?)
            && (TimerIs(s, OpenTimer) ==> s.pendingSeat.Some?)
            && (s.pendingSeat.Some? ==> s.pendingSeat == s.overAvatar)
  {
    RunSettledIffNothingStrands(ss, evs, i);
  }

  /** A peek that stays open: nobody is over it or an avatar, and no timer will close it. */
  predicate Stuck(s: ExpandState) {
    Peeking(s) && PointerAway(s) && s.timer.None?
  }

  /**
   What a stranding enter of a used-up avatar does: once that avatar is left and the
   pending timer fires, the pending seat's peek is stuck open if and only if no other
   peek was open to take the timer over.
   */
  lemma StrandedPeekSticks(s: ExpandState, b: string, delay: int)
    requires Sound(s) && Settled(s) && TimerIs(s, OpenTimer) && !s.overOverlay && s.pendingSeat != Some("")
    requires s.consumed == Some(b) && s.pendingSeat != Some(b) && (s.expanded.Some? ==> s.expanded.value.seatID != b)
    ensures Strands(s, AvatarEnter(b, delay))
    ensures var left := ReduceExpand(ReduceExpand(s, AvatarEnter(b, delay)), AvatarLeave(b));
            var fired := ReduceExpand(left, Elapsed(s.timer.value.seqNo));
            && (Stuck(fired) <==> s.expanded.None?)
            && (s.expanded.None? ==> fired.expanded == Some(Expanded(s.pendingSeat.value, false)))
  {
  }

  /** Such a state is reached, so a peek can be stuck: press b, rest on a, and brush b on the way out. */
  lemma EnteringBeforeLeavingSticks() returns (ss: seq<ExpandState>, evs: seq<ExpandEvent>)
    ensures Run(ss, evs) && Stuck(ss[|ss| - 1])
  {
    evs := [AvatarPress("b"), AvatarEnter("a", 400), AvatarEnter("b", 400), AvatarLeave("b"), Elapsed(1)];
    var s1 := ReduceExpand(InitialState(), evs[0]);
    var s2 := ReduceExpand(s1, evs[1]);
    var s3 := ReduceExpand(s2, evs[2]);
    var s4 := ReduceExpand(s3, evs[3]);
    ss := [InitialState(), s1, s2, s3, s4, ReduceExpand(s4, evs[4])];
    assert s4.timer == Some(ExpandTimer(OpenTimer, 400, 1));
  }

  // ---- A pending seat and the one timer ----

  /** A seat waiting to be peeked has the open timer that will peek it. */
  predicate Armed(s: ExpandState) {
    s.pendingSeat.Some? ==> TimerIs(s, OpenTimer)
  }

  /**
   The events that hand the one timer to an older peek's grace: the pointer stops
   holding that peek, by leaving the overlay or an avatar, while another seat is pending.
   */
  predicate TakesTimer(s: ExpandState, ev: ExpandEvent) {
    && s.pendingSeat.Some? && Peeking(s)
    && match ev
       case OverlayLeave => s.overAvatar != Some(s.expanded.value.seatID)
       case AvatarLeave(x) =>
         && Some(x) != s.pendingSeat && (s.overAvatar == Some(x) || s.consumed == Some(x)) && !s.overOverlay
         && (s.overAvatar == Some(x) || s.overAvatar != Some(s.expanded.value.seatID))
       case _ => false
  }

  /** Whatever order the events come in: an armed state stays armed if and only if the event does not take the timer. */
  lemma ArmedIffTimerKept(s: ExpandState, ev: ExpandEvent)
    requires Sound(s) && Armed(s)
    ensures Armed(ReduceExpand(s, ev)) <==> !TakesTimer(s, ev)
  {
  }

  /** Every pending seat of a run has its open timer if and only if no event of the run takes the timer. */
  lemma {:induction false} RunArmedIffTimerKept(ss: seq<ExpandState>, evs: seq<ExpandEvent>, n: nat)
    requires Run(ss, evs) && n <= |evs|
    ensures (forall i :: 0 <= i <= n ==> Armed(ss[i])) <==> (forall k :: 0 <= k < n ==> !TakesTimer(ss[k], evs[k]))
  {
    if n > 0 {
      RunArmedIffTimerKept(ss, evs, n - 1);
      EveryRunIsSound(ss, evs, n - 1);
      if Armed(ss[n - 1]) { ArmedIffTimerKept(ss[n - 1], evs[n - 1]); }
      assert ss[n - 1 + 1] == ReduceExpand(ss[n - 1], evs[n - 1]);
    }
  }

  /** In the browser's order only two events take it: leaving the overlay, or leaving a used-up avatar the pointer is not on. */
  lemma TimerTakersInOrder(s: ExpandState, ev: ExpandEvent)
    requires Sound(s) && Settled(s) && s.pendingSeat.Some?
    ensures TakesTimer(s, ev) <==>
              && Peeking(s) && s.pendingSeat != Some(s.expanded.value.seatID)
              && (|| ev.OverlayLeave?
                  || (ev.AvatarLeave? && s.consumed == Some(ev.seatID) && s.overAvatar != Some(ev.seatID) && !s.overOverlay))
  {
  }

  /** What it costs: once the grace has run out, the older peek is gone and the pending hover is used up, unopened. */
  lemma TakenTimerUsesUpTheHover(s: ExpandState, ev: ExpandEvent)
    requires Sound(s) && Settled(s) && Armed(s) && TakesTimer(s, ev)
    ensures var t := ReduceExpand(s, ev);
            && t.pendingSeat == s.pendingSeat && TimerIs(t, CloseTimer)
            && var fired := ReduceExpand(t, Elapsed(t.timer.value.seqNo));
               fired.expanded.None? && fired.pendingSeat.None? && fired.consumed == s.pendingSeat && fired.timer.None?
  {
  }

  /** A run in the browser's order in which that happens: from a's overlay onto avatar b, then out of the overlay. */
  lemma PendingCanLoseItsTimer() returns (ss: seq<ExpandState>, evs: seq<ExpandEvent>)
    ensures Run(ss, evs) && (forall k :: 0 <= k < |evs| ==> LeavesFirst(ss[k], evs[k]))
    ensures !Armed(ss[|ss| - 1])
  {
    evs := [AvatarEnter("a", 400), Elapsed(1), OverlayEnter, AvatarLeave("a"), AvatarEnter("b", 400), OverlayLeave];
    var s1 := ReduceExpand(InitialState(), evs[0]);
    var s2 := ReduceExpand(s1, evs[1]);
    var s3 := ReduceExpand(s2, evs[2]);
    var s4 := ReduceExpand(s3, evs[3]);
    var s5 := ReduceExpand(s4, evs[4]);
    ss := [InitialState(), s1, s2, s3, s4, s5, ReduceExpand(s5, evs[5])];
    assert s2.expanded == Some(Expanded("a", false));
    assert s5.pendingSeat == Some("b") && s5.overOverlay;
  }

  // ---- What the player's own actions do ----

  /** Resting on an avatar that is not used up, with nothing pinned, opens its peek after the delay. */
  lemma UndisturbedHoverPeeks(s: ExpandState, seat: string, delay: int)
    requires !Pinned(s) && s.consumed != Some(seat) && seat != ""
    requires s.expanded.None? || s.expanded.value.seatID != seat
    ensures var over := ReduceExpand(s, AvatarEnter(seat, delay));
            && over.expanded == s.expanded && over.timer == Some(ExpandTimer(OpenTimer, delay, s.seqNo + 1))
            && var open := ReduceExpand(over, Elapsed(s.seqNo + 1));
               open.expanded == Some(Expanded(seat, false)) && PeekHeld(open) && open.timer.None?
  {
  }

  /** A click pins the avatar's own seat, whatever was open, and the next click on it closes it with the hover used up. */
  lemma ClickPinsThenCloses(s: ExpandState, seat: string)
    requires s.expanded != Some(Expanded(seat, true))
    ensures var once := ReduceExpand(s, AvatarClick(seat));
            var twice := ReduceExpand(once, AvatarClick(seat));
            && once.expanded == Some(Expanded(seat, true)) && once.timer.None? && once.pendingSeat.None?
            && twice.expanded.None? && twice.timer.None? && !twice.overOverlay
            && once.consumed == Some(seat) && twice.consumed == Some(seat)
  {
  }

  /** The pin button turns a peek into a pin of the same seat, and a pin into nothing, as Escape does to either. */
  lemma PinButtonAndEscape(s: ExpandState)
    requires s.expanded.Some?
    ensures var t := ReduceExpand(s, PinToggle);
            && (Peeking(s) ==> t.expanded == Some(Expanded(s.expanded.value.seatID, true)))
            && (Pinned(s) ==> t == ReduceExpand(s, Escape))
    ensures var t := ReduceExpand(s, Escape);
            && t.expanded.None? && t.timer.None? && (s.overAvatar.Some? ==> UsedUp(t, s.overAvatar.value))
  {
  }

  /** The expand button pins its seat whatever was open or under way, and leaves the hover as it was. */
  lemma ExpandPins(s: ExpandState, seat: string)
    ensures var t := ReduceExpand(s, Expand(seat));
            && t.expanded == Some(Expanded(seat, true)) && t.pendingSeat.None? && t.timer.None?
            && t.consumed == s.consumed && t.overAvatar == s.overAvatar && t.overOverlay == s.overOverlay
            && ReduceExpand(t, Escape).expanded.None?
  {
  }

  /** A press stops the avatar's peek from opening and leaves whatever is open; leaving the avatar makes its hover good again. */
  lemma PressUsesUpTheHover(s: ExpandState, seat: string, delay: int)
    requires Sound(s) && Armed(s) && (TimerIs(s, OpenTimer) ==> s.pendingSeat.Some?)
    ensures var t := ReduceExpand(s, AvatarPress(seat));
            && t.consumed == Some(seat) && t.pendingSeat.None? && t.expanded == s.expanded && !TimerIs(t, OpenTimer)
            && (TimerIs(s, CloseTimer) ==> t.timer == s.timer)
            && var left := ReduceExpand(t, AvatarLeave(seat));
               && left.consumed.None? && left.expanded == s.expanded
               && (!Pinned(s) && seat != "" && (s.expanded.Some? ==> s.expanded.value.seatID != seat) ==>
                     ReduceExpand(left, AvatarEnter(seat, delay)).pendingSeat == Some(seat))
  {
  }

  /** A peek let go of gets the grace, and one held again before it runs out stays. */
  lemma HeldAgainStays(s: ExpandState, seat: string, delay: int)
    requires s.expanded == Some(Expanded(seat, false)) && s.overAvatar == Some(seat) && !s.overOverlay && s.timer.None?
    ensures var left := ReduceExpand(s, AvatarLeave(seat));
            && left.expanded == s.expanded && left.timer == Some(ExpandTimer(CloseTimer, PEEK_CLOSE_GRACE_MS, s.seqNo + 1))
            && ReduceExpand(left, Elapsed(s.seqNo + 1)).expanded.None?
            && (forall back :: back in {ReduceExpand(left, OverlayEnter), ReduceExpand(left, AvatarEnter(seat, delay))} ==>
                  && back.expanded == s.expanded && back.timer.None? && PeekHeld(back)
                  && ReduceExpand(back, Elapsed(s.seqNo + 1)) == back)
  {
  }

  /** The pointer in the overlay holds its peek, and leaving it there starts the grace. */
  lemma OverlayHolds(s: ExpandState)
    requires Peeking(s) && s.overAvatar.None? && s.timer.None?
    ensures var over := ReduceExpand(s, OverlayEnter);
            && over.expanded == s.expanded && over.timer.None? && over.overOverlay
            && var left := ReduceExpand(over, OverlayLeave);
               && left.expanded == s.expanded && TimerIs(left, CloseTimer) && !left.overOverlay
               && ReduceExpand(left, Elapsed(left.timer.value.seqNo)).expanded.None?
  {
  }

  /** With nothing open, Escape and the pin button do nothing. */
  lemma NothingOpenNothingDone(s: ExpandState)
    requires s.expanded.None?
    ensures ReduceExpand(s, Escape) == s && ReduceExpand(s, PinToggle) == s
  {
  }

  // ---- Placement ----

  datatype Box = Box(left: real, top: real, width: real, height: real)

  datatype Side = LeftSide | RightSide

  datatype Span = Span(left: real, width: real, side: Side, top: Option<real>)

  datatype PlacementOptions = PlacementOptions(
    boardWidth: real, leftClear: real, gap: real, maxWidth: real, edge: real, below: bool)

  function Max(a: real, b: real): real { if a < b then b else a }

  function Min(a: real, b: real): real { if b < a then b else a }

  function LeftEdge(opts: PlacementOptions): real { opts.edge + Max(0.0, opts.leftClear) }

  function RightEdge(opts: PlacementOptions): real { opts.boardWidth - opts.edge }

  function PlaceOverlay(avatar: Box, opts: PlacementOptions): Span {
    if opts.below then
      var top := avatar.top + avatar.height + opts.gap;
      var leftW := Min(opts.maxWidth, Max(0.0, avatar.left + avatar.width - LeftEdge(opts)));
      var rightW := Min(opts.maxWidth, Max(0.0, RightEdge(opts) - avatar.left));
      if leftW >= rightW then Span(avatar.left + avatar.width - leftW, leftW, LeftSide, Some(top))
      else Span(avatar.left, rightW, RightSide, Some(top))
    else
      var leftW := Min(opts.maxWidth, Max(0.0, avatar.left - opts.gap - LeftEdge(opts)));
      var rightW := Min(opts.maxWidth, Max(0.0, RightEdge(opts) - (avatar.left + avatar.width + opts.gap)));
      if leftW >= rightW then Span(avatar.left - opts.gap - leftW, leftW, LeftSide, None)
      else Span(avatar.left + avatar.width + opts.gap, rightW, RightSide, None)
  }

  /** An overlay this wide fits beside the avatar, on one side or the other. */
  predicate FitsBeside(avatar: Box, opts: PlacementOptions, w: real) {
    || LeftEdge(opts) <= avatar.left - opts.gap - w
    || avatar.left + avatar.width + opts.gap + w <= RightEdge(opts)
  }

  /** An overlay this wide fits below the avatar, lined up with one of its sides. */
  predicate FitsBelow(avatar: Box, opts: PlacementOptions, w: real) {
    || LeftEdge(opts) <= avatar.left + avatar.width - w
    || avatar.left + w <= RightEdge(opts)
  }

  /** Below the avatar the overlay lines up with a side of it, and nothing wider fits. */
  lemma LinedUpBelow(avatar: Box, opts: PlacementOptions)
    requires opts.below && opts.maxWidth >= 0.0
    ensures var p := PlaceOverlay(avatar, opts);
            && (if p.side.LeftSide? then p.left + p.width == avatar.left + avatar.width else p.left == avatar.left)
            && (forall w :: 0.0 <= w <= opts.maxWidth && FitsBelow(avatar, opts, w) ==> w <= p.width)
  {
  }

  /**
   The overlay keeps the gap's distance from the avatar, beside it or below it; it
   stays inside the board's edge on its side; and beside the avatar nothing wider fits.
   */
  lemma NeverOverTheAvatar(avatar: Box, opts: PlacementOptions)
    requires opts.gap >= 0.0 && opts.maxWidth >= 0.0 && avatar.width >= 0.0 && avatar.height >= 0.0
    ensures var p := PlaceOverlay(avatar, opts);
            && 0.0 <= p.width <= opts.maxWidth && (p.top.Some? <==> opts.below)
            && (if p.top.Some? then p.top.value == avatar.top + avatar.height + opts.gap
                else p.left + p.width == avatar.left - opts.gap || p.left == avatar.left + avatar.width + opts.gap)
            && (p.width > 0.0 && p.side.LeftSide? ==> LeftEdge(opts) <= p.left)
            && (p.width > 0.0 && p.side.RightSide? ==> p.left + p.width <= RightEdge(opts))
            && (!opts.below ==> forall w :: 0.0 <= w <= opts.maxWidth && FitsBeside(avatar, opts, w) ==> w <= p.width)
  {
  }
}
