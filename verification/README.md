# Models of the combat client and the cost ledger

A Dafny model of the hand-written state machines of the game client (combat
beats, blocker declaration, damage division, the expanded board, strike
planning, staged attacks, the admin poller, cast labels, the bug-report draft)
and of the token-usage ledger that several people publish on one git branch.
Code that loops or updates state is a method or a class here, proved against a
specification; the claims the code makes about whole runs are lemmas about that
specification.

| file | models |
|---|---|
| `CombatLog`, `CombatArrows`, `CombatNames` | the game log, which combat an entry is in, combat arrows; the same told from the entries alone |
| `CombatBeats`, `CombatBeatKeys`, `CombatBeatRuns` | new log entries folded into beats with a bounded memory; which beat an entry is in, told from the entries alone; runs of frames with undo |
| `CombatBeatMemory` | what the bounded memory forgets, against one that never does |
| `BeatTimers`, `BeatSequencer`, `DirectorRuns` | cues on timers, against a browser that fires any due timer at any time; the two classes; whole lives of the director |
| `BlockPick`, `BlockClicks`, `BlockRuns` | picking blockers and taking blocks back; what each click does, told from the cards; the server's judgement of each message; runs of clicks |
| `DamageAssignment`, `DamageGroups`, `DamageAnswers` | dividing combat damage; the token-group stepper; the answer, and the server's check of it |
| `BoardExpand` | the peek and pin reducer with its one timer, and the overlay's placement |
| `ClaudeUsage`, `LedgerMerge` | the deduplicating scan and the day-by-day merge |
| `LedgerPublish`, `LedgerPush` | everyone's publishing on one branch as a state machine; one publisher's retry loop |
| `CombatStrikes`, `StrikePlans` | which creatures lunge and what shakes when damage lands; the same told from the beat's entries |
| `LivePoller` | the admin page's polling class |
| `AttackStage` | the staged-attack list and the attackers' selection |
| `CastLineLabels` | unique button names |
| `BugReportDraft` | object-URL ownership |
| `Sums`, `Sequences`, `Wrappers` | sums over finite maps, sequences without repetition, the option type |

`dafny verify dfyconfig.toml` checks the whole project.

## Findings

What the code does where its comments promise more, each with the exact condition:

- `stepGroup` says a press down undoes the press up before it. On the members'
  amounts it does if and only if no member after the one the plus goes to holds
  anything (`DamageGroups.MinusUndoesPlus`). It can fail with a member of unknown
  lethal before a known one (`UnknownFirstIsNotUndone`), and with every lethal known
  when a member was given a point on its own card (`LonePointIsTakenBack`). A
  point the plus took out of the trample bucket is not put back in it.
- The sheet can hold back a split the server takes: its figure is at least 1 for every
  blocker, where the server needs nothing of one that has left or already carries
  lethal damage. It holds back exactly the splits that send damage over and give such
  a blocker nothing (`DamageAnswers.OfferedIffTaken`, `SheetHoldsBack`).
- A combat step's label can be announced twice though nothing of it was undone: the
  tracker remembers eight steps, and after an undo past all of them the log can grow
  again inside one it forgot. That is the only way eight steps differ from all
  (`CombatBeatMemory.EightStepsActUnbounded`, `NineStepsForgetTheFirst`).
- `distinctCastLabels` says no two buttons ever share a name. They can when an
  unshared label already reads like a numbered one, as A, A and A #1 do, and only
  then (`CastLineLabels.DifferentIffNoClash`, `TwoButtonsCanShareAName`).
- `releaseSends` takes blocks back by removing creatures and declaring the kept
  blocks again, so it is exact if and only if the server still allows those
  (`BlockRuns.ReleaseIsExact`). Its minimum is counted on the frame it is clicked on:
  two blocks taken back on one frame can leave an attacker with too few
  (`BlockRuns.RunStaysLegalIff`, `TwoTakenBackLeaveOne`).
- The scan's request and output totals do not depend on the order of files and
  lines. Which record of a response is kept does, and with it the day and the input
  counts, unless the records with its largest output agree
  (`ClaudeUsage.OrderFreeIffMaximaAgree`).
- A published day is lost exactly when a push is taken whose file does not cover its
  person's days then on the branch (`LedgerPublish.DayIsLostIff`). Two machines of one
  person get there because a retry rebuilds the tree but not the merge
  (`TwoMachinesLoseADay`); one machine alone does when reading the published copy
  fails and the push then works (`FailedReadLosesADay`).
- A pending peek keeps its open timer unless the pointer lets go of an older peek of
  another seat; then the one timer goes to that peek's grace and the hover is used up
  (`BoardExpand.ArmedIffTimerKept`, `PendingCanLoseItsTimer`).
- A pointer that enters a used-up avatar while another seat is pending can leave a
  peek open with no timer (`BoardExpand.SettledIffNotStranded`, `StrandedPeekSticks`,
  `EnteringBeforeLeavingSticks`).

## Model

| member | source | states |
|---|---|---|
| `CombatLog.HighestSeq` | client/src/lib/combatBeats.ts:170-176 | The highest sequence number of any log; for an ordered log that is its last entry's (`TopIsLast`) |
| `CombatLog.TopOfPrefix` | client/src/lib/combatBeats.ts:178-216 | In a longer ordered log the entries of a prefix are exactly those up to the prefix's highest number, so "above the watermark" and "appended since" are the same thing |
| `CombatArrows.CombatKeyer` | client/src/lib/combatBeats.ts:389-419 | The recorded step entries name, after each, the combat then open |
| `CombatArrows.KeyOfIsCombatAt` | client/src/lib/combatBeats.ts:389-419 | The lookup by entry finds the combat that was open just before that entry |
| `CombatArrows.SameCombat` | client/src/lib/combatBeats.ts:360-419 | Two combats of one turn are never mixed: an earlier entry is in a later entry's combat exactly when it came after the step that opened it |
| `CombatArrows.BlocksOfIsLatest` | client/src/lib/combatBeats.ts:440-451 | A block on record is the latest block entry of that blocker in that combat |
| `CombatArrows.ArrowRefsFor` | client/src/lib/combatBeats.ts:430-470 | The cached double loop finds the arrows of `ArrowRefs`, the entry-by-entry definition |
| `CombatArrows.ArrowsAreDistinct` | client/src/lib/combatBeats.ts:430-470 | Every damage entry that names an arrow has it cued, no arrow is cued twice, and none is cued that no entry names |
| `CombatArrows.BlockArrowIsThisCombats` | client/src/lib/combatBeats.ts:421-470 | A block arrow is a block declared in the damage's own combat, and the last its blocker made there |
| `CombatNames.CombatIsTheOneOpen` | client/src/lib/combatBeats.ts:360-419 | On the entries of the log: an entry is in the combat a step opened exactly when every step since goes on with that combat, where a step opens one when it begins combat or the step before it is of another turn, of no combat or an end of combat |
| `CombatNames.ArrowIs` | client/src/lib/combatBeats.ts:421-470 | On the entries: a damage entry's arrow runs to the seat it hit, or along whichever block stands between the two cards in that combat, the last its blocker made; otherwise there is none |
| `CombatNames.BeatArrowsAreItsHits` | client/src/lib/combatBeats.ts:327-330 | A beat's arrows are those of its own hits, each once |
| `CombatBeats.Track` | client/src/lib/combatBeats.ts:178-216 | The tracking loop prunes a rewound memory to exactly the records whose first cued entry is still in the log |
| `CombatBeats.GroupBeats` | client/src/lib/combatBeats.ts:263-325 | The grouping loop, with its current beat and index, builds for each combat step and tag exactly the new damage of that key and the entries that follow it |
| `CombatBeats.KeysInFacts` | client/src/lib/combatBeats.ts:263-325 | Each step and tag opens one beat, and a key has a beat exactly when it has new damage |
| `CombatBeats.FinishBeats` | client/src/lib/combatBeats.ts:327-344 | The second pass gives each beat its arrows and its pause and records its first damage entry |
| `CombatBeats.PruneCued` | client/src/lib/combatBeats.ts:345-347 | The pruning loop drops smallest step keys until eight are left |
| `CombatBeats.SplitBeats` | client/src/lib/combatBeats.ts:263-349 | The whole split: the beats of the new entries, and the tracker that remembers them |
| `CombatBeats.Schedule` | client/src/lib/combatBeats.ts:523-556 | The scheduling loops give each cue the hide time of its step's last cue |
| `CombatBeats.CuesDoNotOverlap` | client/src/lib/combatBeats.ts:60-83 | A beat that waits starts after the one before it has finished its effect, and, with combat motion, its strike, at any animation speed |
| `CombatBeats.HidesTogetherAfterTheLast` | client/src/lib/combatBeats.ts:552-554 | All cues of a step in a frame come down together, exactly the hold time after the last of them |
| `CombatBeats.PlanFrame` | client/src/lib/combatBeats.ts:576-591 | Track, split and schedule composed |
| `CombatBeatKeys.HitsOfBeat` | client/src/lib/combatBeats.ts:275-325 | On the entries of the log: a beat holds exactly the new combat damage of its tag in the unbroken stretch of damage steps its number starts; a stretch starts at a first-strike damage step, or at a regular one whose step before is no damage step, and goes on over regular ones |
| `CombatBeatKeys.EveryHitHasABeat` | client/src/lib/combatBeats.ts:289-325 | Every new combat damage entry of such a stretch is in a beat |
| `CombatBeatKeys.BeatsShareAStepIff` | client/src/lib/combatBeats.ts:281-289 | Two hits are in beats of one step if and only if every step entry between them is a regular damage step |
| `CombatBeatKeys.EntriesOfBeat` | client/src/lib/combatBeats.ts:291-325 | Besides its hits a beat holds exactly the new entries whose last new hit, with no step entry since, is one of them |
| `CombatBeatKeys.BeatsInOrder` | client/src/lib/combatBeats.ts:273-325 | Beats come in the order of their first hits, and each beat's hits in log order (`BeatInOrder`) |
| `CombatBeatKeys.WaitsIff` | client/src/lib/combatBeats.ts:331-337 | A beat waits exactly when it is regular and new and a new first-strike hit of its stretch stands before its first hit |
| `CombatBeatKeys.LabelledIff` | client/src/lib/combatBeats.ts:245-257 | A beat is labelled exactly when its first hit carries a tag, and a continuation exactly when the tracker has its step and tag on record |
| `CombatBeatKeys.EveryBeatIsCued` | client/src/lib/combatBeats.ts:534-556 | Every beat that is labelled, or strikes, has its cue: late exactly when it waits, with its own entries and arrows, and with its text exactly when it is labelled and new |
| `CombatBeatKeys.CueKeysAreApart` | client/src/lib/combatBeats.ts:534-556 | No step and tag is cued twice in a frame, and nothing is cued that is no such beat |
| `CombatBeatKeys.SpeedScales` | client/src/lib/combatBeats.ts:60-118 | A pause or an effect goes with the animation speed, and a speed that is not a positive number counts as the usual one |
| `CombatBeatKeys.PrimesIff` | client/src/lib/combatBeats.ts:178-190 | A frame primes exactly when the tracker starts or is told to start over, and then cues nothing |
| `CombatBeatRuns.PruneKeepsNewest` | client/src/lib/combatBeats.ts:345-347 | Pruning keeps exactly the records above a floor, unchanged, and eight of them whenever it dropped any |
| `CombatBeatRuns.TrackerInvariant` | client/src/lib/combatBeats.ts:178-216 | After every frame of every run, undos and re-primes included: the watermark is the top of that frame's log, and every record has its step before its first cued entry, which is in the log under that very key |
| `CombatBeatRuns.HandledOnceSinceRewind` | client/src/lib/combatBeats.ts:178-216 | An entry that came into the log and is still there was handled in exactly one frame since it last came back |
| `CombatBeatRuns.HandledTwiceNeedsRewind` | client/src/lib/combatBeats.ts:178-216 | An entry number handled in two frames was rewound past just before the second |
| `CombatBeatRuns.DamageIsCuedExactlyOnce` | client/src/lib/combatBeats.ts:263-325 | However a growing log is cut into frames after the priming one, the damage cued for a step and tag is exactly the log's damage of that step and tag since then, each entry once, in log order |
| `CombatBeatRuns.CutsAgree` | client/src/lib/combatBeats.ts:263-325 | Two ways of cutting the same growth put every damage entry in the same beat |
| `CombatBeatMemory.EightStepsActUnbounded` | client/src/lib/combatBeats.ts:327-349 | Over any run, undos and re-primes included, the eight remembered steps give frame for frame the beats and continuation flags of a memory that never forgets, if and only if no beat is of a step that was pruned while the entry that first cued it is still in the log |
| `CombatBeatMemory.ForgottenIsAnnounced` | client/src/lib/combatBeats.ts:327-344 | Where that fails, the beat is announced as new though the unbounded memory continues it |
| `CombatBeatMemory.NineStepsForgetTheFirst` | client/src/lib/combatBeats.ts:345-347 | The failing input: nine damage steps, an undo back to the first one's hit, and a second hit in it |
| `CombatBeatMemory.ForgottenNeedsEmptied` | client/src/lib/combatBeats.ts:345-347 | A forgotten step's beat comes only after the memory was emptied, which only an undo past every remembered entry or a re-prime does (`OnlyUndoEmpties`) |
| `CombatBeatMemory.LabelRepeatsIff` | client/src/lib/combatBeats.ts:327-349 | A step's tag announced as new is announced as new again at its next new beat if and only if, in between, its first entry was undone or the tracker started over, or the step was pruned |
| `CombatBeatMemory.GrowingActsUnbounded` | client/src/lib/combatBeats.ts:345-347 | On a log that only grows every frame cues exactly what the unbounded memory would |
| `CombatBeatMemory.LabelRepeatsOnlyAfterUndo` | client/src/lib/combatBeats.ts:327-344 | Whatever else is cued in between, a repeat means that the entry that first cued the tag was undone, or its step was pruned and the entry still stands |
| `CombatBeatMemory.AnnouncedOnce` | client/src/lib/combatBeats.ts:327-344 | On a growing log each step's tag is announced as a new beat at most once |
| `CombatBeatRuns.WindowSplitsAlike` | client/src/lib/combatBeats.ts:263-325 | A frame that carries only the end of the log splits its new entries as the whole log would, as long as the window still shows which damage step the first of them is in |
| `BeatTimers.EveryCueFiresOnce` | client/src/lib/combatBeats.ts:849-892 | Over any interleaving of plays, firings and disposals, a cue played is waiting, or has fired once and on time, or was cancelled by a disposal; never two of these |
| `BeatTimers.PlaySetsEveryCue` | client/src/lib/combatBeats.ts:849-866 | A play sets a fresh timer for every cue, due its own time from then, and takes no cue's timer away |
| `BeatTimers.FiringTellsTheHandler` | client/src/lib/combatBeats.ts:852-875 | A cue's timer has its own cue handled and a hide timer its own step, and nothing else calls the handlers |
| `BeatTimers.HideIsDueAsAsked` | client/src/lib/combatBeats.ts:867-877 | In every reachable state a step's hide timer is due exactly when one of the labelled cues played for it asked, so never later than the last of them |
| `BeatTimers.NoCueIsDropped` | client/src/lib/combatBeats.ts:849-892 | Without a disposal, a cue has been cued exactly when its own timer is gone, whatever other timers wait |
| `BeatTimers.NeverHiddenEarly` | client/src/lib/combatBeats.ts:867-877 | Each step has at most one hide timer, and its text never comes down before the latest hide deadline of any labelled cue played for it |
| `BeatTimers.ShownTextIsAlwaysHidden` | client/src/lib/combatBeats.ts:867-877 | When timers fire in deadline order, text that has been shown always has a hide still to come |
| `BeatTimers.LiveTimersCanFire` | client/src/lib/combatBeats.ts:849-892 | No timer is ever stuck: every run goes on with the firing of any timer it has left, and a cue's firing is recorded |
| `BeatTimers.RunKeepsInv` | client/src/lib/combatBeats.ts:840-892 | The timer maps and the browser's live timers agree after every event |
| `BeatSequencer.BeatSequencer.Play` | client/src/lib/combatBeats.ts:849-878 | The loop over cues sets the timers of `PlayAll`, the machine the run theorems are about |
| `BeatSequencer.BeatSequencer.PlayCue` | client/src/lib/combatBeats.ts:852-876 | One cue: its timer, and the hide of its step pushed out but never pulled in |
| `BeatSequencer.BeatSequencer.CueFires` | client/src/lib/combatBeats.ts:852-864 | A cue's timer calls the handler and only then stops counting as pending |
| `BeatSequencer.BeatSequencer.HideFires` | client/src/lib/combatBeats.ts:872-875 | A hide timer forgets its step and calls the handler |
| `BeatSequencer.BeatSequencer.Dispose` | client/src/lib/combatBeats.ts:886-891 | Disposing clears every timer of this sequencer |
| `BeatSequencer.BeatDirector.OnFrame` | client/src/lib/combatBeats.ts:909-919 | A frame's plan is folded into the tracker; one that primes swaps in a fresh sequencer first |
| `BeatSequencer.PrimeCancelsEverything` | client/src/lib/combatBeats.ts:894-919 | A frame that primes cancels every pending cue and hide and plays none of its own |
| `BeatSequencer.FrameIsPlay` | client/src/lib/combatBeats.ts:909-919 | A frame that does not prime only adds cues |
| `DirectorRuns.DirectorRunIsTimerRun` | client/src/lib/combatBeats.ts:901-928 | Every run of the director, frames, waits, firings and its end in any order, is a run of the sequencer's timers |
| `DirectorRuns.DirectorCuesFireOnce` | client/src/lib/combatBeats.ts:894-928 | So over such a run every cue waits, fired once and on time, or was taken back, and no text comes down early |
| `DirectorRuns.CueLostOnlyToAPrime` | client/src/lib/combatBeats.ts:894-919 | A cue is lost only to a frame that primes or to the component's end |
| `BlockPick.BlockTargets` | client/src/lib/blockPick.ts:136-157 | The filled map is, for each attacker of the viewer, what a click on it would do |
| `BlockClicks.TargetIs` | client/src/lib/blockPick.ts:136-157 | On the cards: it lists exactly the creatures that attack the viewer, with take back, block, a group of the minimum, or the server's first reason against |
| `BlockClicks.ClickDeclares` | client/src/lib/blockPick.ts:277-293 | A click on an attacker the selected creature does not block and is not refused sends exactly that one declaration, and keeps the selection exactly while the creature has room for another |
| `BlockClicks.DeclaredIsHeld` | server/internal/game/block_declaration.go:50-90 | On a server that accepts it the block is held, with every other block of a creature that may make several |
| `BlockClicks.ClickTakesBack` | client/src/lib/blockPick.ts:282-286 | A click on an attacker it blocks sends its removal, after which the server does not hold that block, whatever it held |
| `BlockClicks.ClickStartsGroup` | client/src/lib/blockPick.ts:294-301 | A click on an attacker that only takes more blockers starts a group on it and sends nothing |
| `BlockClicks.ClickIsRefused` | client/src/lib/blockPick.ts:302-303 | Any other refused click changes nothing, sends nothing and says the server's reason |
| `BlockClicks.OtherClicksDoNothing` | client/src/lib/blockPick.ts:277-281 | A click with nothing selected, or on a card that does not attack the viewer, does nothing |
| `BlockClicks.ClickSelects` | client/src/lib/blockPick.ts:231-235 | With no group, a click on one's own creature selects it if it takes part, lets it go if it was selected, and else does nothing |
| `BlockClicks.ClickJoins` | client/src/lib/blockPick.ts:246-270 | A creature that may join a group joins it at the end, and the one that completes it sends the whole group |
| `BlockClicks.ClickLeaves` | client/src/lib/blockPick.ts:248-254 | A member clicked again leaves the group, and the last to leave ends it |
| `BlockClicks.ClickDropsGroup` | client/src/lib/blockPick.ts:272-274 | A creature that cannot join drops the group and is selected itself if it takes part |
| `BlockClicks.ButtonTakesAllBack` | client/src/lib/blockPick.ts:309-315 | The dock's button takes back every block of the selected creature, whatever the server holds |
| `BlockClicks.TwoClicksBlock` | client/src/lib/blockPick.ts:239-293 | Two clicks, on a creature and on an attacker it may block, declare that block and nothing else |
| `BlockClicks.GestureBlocksWithGroup` | client/src/lib/blockPick.ts:239-301 | For an attacker that takes n blockers: a creature, the attacker and the n - 1 others, clicked one by one, declare all n in one message and nothing before |
| `BlockClicks.FrameKeepsTheLive` | client/src/lib/blockPick.ts:322-336 | A new frame keeps the selection exactly if it still takes part, and the group exactly while its attacker attacks and some of it takes part, less the rest |
| `BlockPick.ReleaseSends` | client/src/lib/blockPick.ts:196-229 | The nested loops that grow `dropped` and `kept` compute the set and lists of `DroppedPairs` and `Kept`, which look at each attacker once and in no order |
| `BlockPick.DroppedAreStarved` | client/src/lib/blockPick.ts:196-215 | A pair is dropped exactly when it was asked for or sits on an attacker the request would leave under its minimum |
| `BlockRuns.ReleaseDrops` | client/src/lib/blockPick.ts:190-229 | Every pair asked for is gone; a touched attacker with a minimum keeps none or at least that many of the viewer's blockers; an untouched one keeps all; one not starved loses only what was asked |
| `BlockRuns.ReleaseIsExact` | client/src/lib/blockPick.ts:196-229 | Applied in order on the server, the messages leave exactly the old blocks minus the dropped ones if and only if the server still allows the blocks put back |
| `BlockRuns.DeclareKeepsLegal` | server/internal/game/block_declaration.go:50-90 | The server's all-or-nothing count check keeps a legal declaration legal |
| `BlockRuns.ReleaseKeepsLegal` | client/src/lib/blockPick.ts:186-229 | From a legal declaration whose blocks are still allowed a release is exact and leaves a legal one |
| `BlockRuns.ClickKeepsLegal` | client/src/lib/blockPick.ts:239-316 | Whatever one click sends, a legal declaration stays legal (rule 509.1b of the Magic Comprehensive Rules) |
| `BlockRuns.ClickKeepsPick` | client/src/lib/blockPick.ts:239-316 | After every click a selection and a group never coexist, and a group holds at least one and fewer than its attacker's need of different blockers |
| `BlockRuns.LiveKeepsPick` | client/src/lib/blockPick.ts:322-336 | A new frame keeps the pick so, and only takes creatures out |
| `BlockRuns.GroupSendsWhole` | client/src/lib/blockPick.ts:239-270 | A completed group is one declaration of exactly its need of different creatures, all on its attacker; nothing is sent before |
| `BlockRuns.EveryRunKeepsPick` | client/src/lib/blockPick.ts:239-336 | The pick stays so over every run of clicks and frames, however late the frames |
| `BlockRuns.SendKeepsLegalIff` | client/src/lib/blockPick.ts:196-316 | Made on any frame, what a click sends keeps a legal declaration legal if and only if its removals leave no attacker with some but too few blockers that is not counted again |
| `BlockRuns.RunStaysLegalIff` | client/src/lib/blockPick.ts:239-336 | The declaration is legal throughout a run of clicks, on frames however late, if and only if no click's removals do that |
| `BlockRuns.EveryRunStaysLegal` | client/src/lib/blockPick.ts:186-336 | So it is legal throughout when blocks are only taken back on a frame that shows them |
| `BlockRuns.TwoTakenBackLeaveOne` | client/src/lib/blockPick.ts:186-229 | The failing input: two of three blocks on an attacker that takes at least two, taken back on one frame |
| `DamageAssignment.InitialShares` | client/src/lib/damageAssignment.ts:48-58 | The prefilling loops take the last suggestion for each blocker, clipped at 0, and the bucket only with somewhere to put it |
| `DamageAssignment.OpensOnTheSuggestion` | client/src/lib/damageAssignment.ts:48-58 | The prompt opens with each blocker at its last suggestion or 0, never below 0, and with something over to the player only where that is allowed |
| `DamageAssignment.PressMovesOnePoint` | client/src/lib/damageAssignment.ts:91-110 | A plus takes one point from the unassigned damage while there is any and else from the bucket, a minus gives one back to the unassigned, and nothing else moves |
| `DamageAssignment.AssignedTotalOf` | client/src/lib/damageAssignment.ts:71-75 | The loop's total is the sum over all blockers plus the bucket |
| `DamageAssignment.TicksNeverOverdraw` | client/src/lib/damageAssignment.ts:91-149 | However the steppers are pressed no share goes negative, the blockers stay the same, and the total never exceeds the larger of the power and where it began |
| `DamageAssignment.EverySplitReachable` | client/src/lib/damageAssignment.ts:91-149 | From any split every other split over the same blockers within the power is reached by ticks |
| `DamageGroups.PlusCounts` | client/src/lib/damageAssignment.ts:112-143 | A plus on a group adds one to its members' total exactly when there is a point to take, and keeps the split lethal-first |
| `DamageGroups.MinusCounts` | client/src/lib/damageAssignment.ts:112-143 | A minus takes one off exactly when the members hold any, and keeps the split lethal-first |
| `DamageGroups.SameTotalSameSplit` | client/src/lib/damageAssignment.ts:112-143 | Two lethal-first splits of one total are the same split: the group is a counter |
| `DamageGroups.FillIsLethalFirst` | client/src/lib/damageAssignment.ts:112-123 | The fill of a count gives each member its lethal in order and the rest to the last |
| `DamageGroups.GroupIsACounter` | client/src/lib/damageAssignment.ts:112-143 | From members at 0, any presses on the group's card mixed with presses elsewhere leave the members at the fill of their own total |
| `DamageGroups.MinusUndoesPlus` | client/src/lib/damageAssignment.ts:112-143 | In any state with a point to take, a minus undoes the plus before it on every share if and only if no member after the one the plus goes to holds anything; the bucket is restored with it exactly when the point came from the unassigned damage |
| `DamageGroups.UndoWorksIffKnownFirst` | client/src/lib/damageAssignment.ts:131-143 | From members at 0, over presses on the group's card and on anything but its members alone, a minus always undoes the plus before it if and only if no member of unknown lethal stands before one whose lethal is known and positive |
| `DamageGroups.UnknownFirstIsNotUndone` | client/src/lib/damageAssignment.ts:135-140 | The failing family from 0: the plus goes to the unknown member and the minus to a later one |
| `DamageGroups.LonePointIsTakenBack` | client/src/lib/damageAssignment.ts:91-143 | A failing input with every lethal known: a point given to the second member on its own card, then plus and minus on the group's |
| `DamageAnswers.SentSplitSumsToPower` | client/src/lib/damageAssignment.ts:193-215 | A split that may be sent, with blockers left, is sent in the prompt's order as amounts that sum to the attacker's power |
| `DamageAnswers.OfferedIffTaken` | client/src/lib/damageAssignment.ts:161-204 | "Deal damage" is offered exactly for the splits the server takes, less those that send damage over, other than as "as though it weren't blocked", while a blocker that needs nothing is given nothing; the prompt's figure is the server's need, and at least 1 |
| `DamageAnswers.OfferedIsTaken` | client/src/lib/damageAssignment.ts:161-204 | Whatever is offered within the permission for the bucket is taken |
| `DamageAnswers.SheetHoldsBack` | server/internal/legal/choices.go:2371-2376 | The input the sheet holds back: figure 1 for a blocker that has left, where the server needs 0 |
| `DamageAnswers.BucketNeedsPermission` | server/internal/game/pending_choice.go:3602-3604 | Without trample or "as though it weren't blocked" the server refuses whatever is in the bucket, while the offer itself does not depend on the permission |
| `DamageAnswers.AllToPlayerIsTaken` | client/src/lib/damageAssignment.ts:60-69 | "As though it weren't blocked" is always offered and always taken |
| `DamageAnswers.CoveringIsTaken` | server/internal/legal/choices.go:2389-2475 | The server's own suggestion, when the power covers the figures and no need exceeds its figure, passes the server's check and sums to the power |
| `DamageAnswers.AutoAssignIsTaken` | client/src/lib/damageAssignment.ts:219-239 | A prompt the client answers by itself gets that suggestion, and the server takes it |
| `DamageAnswers.AnswersUnaskedIff` | client/src/lib/damageAssignment.ts:219-239 | A prompt is answered unasked exactly when that is on, the suggestion covers every blocker and spends the power, and "as though it weren't blocked" is not on offer; and then with the opening split |
| `BoardExpand.EveryRunIsSound` | client/src/lib/boardExpand.ts:102-217 | Every state of every run: a pending peek is never the consumed avatar, never coexists with a pin, and no timer's number is beyond the last handed out |
| `BoardExpand.StaleTimersChangeNothing` | client/src/lib/boardExpand.ts:11-15 | Once a timer has been cancelled, replaced or has fired, its firing changes nothing for the rest of the run |
| `BoardExpand.SameNumberSameTimer` | client/src/lib/boardExpand.ts:102-105 | While a number is the state's, it is the same timer all along |
| `BoardExpand.PinOutlastsPointer` | client/src/lib/boardExpand.ts:117-125 | No pointer movement, press or timer ever closes or replaces a pinned overlay |
| `BoardExpand.ConsumedHoverOpensNothing` | client/src/lib/boardExpand.ts:47-52 | A used-up hover opens no peek of its avatar until the pointer leaves it, on any run |
| `BoardExpand.SettledIffNotStranded` | client/src/lib/boardExpand.ts:112-217 | From a settled state (a peek nobody holds has a live close timer, an open timer has its seat, the one under the pointer) the next is settled if and only if the event is not a stranding enter: an avatar entered while another seat is pending, when its hover is used up or its own overlay is open beside an open timer |
| `BoardExpand.RunSettledIffNothingStrands` | client/src/lib/boardExpand.ts:112-217 | A run is settled throughout if and only if none of its events is a stranding enter |
| `BoardExpand.LeavingFirstStrandsNothing` | client/src/lib/boardExpand.ts:143-170 | A browser that leaves one avatar before it enters another makes no stranding enter |
| `BoardExpand.UnheldPeekCloses` | client/src/lib/boardExpand.ts:112-217 | On every run without a stranding enter, a peek nobody holds has a live close timer whose firing closes it |
| `BoardExpand.StrandedPeekSticks` | client/src/lib/boardExpand.ts:143-170 | What a stranding enter of a used-up avatar does: leave it, let the open timer fire, and the pending seat's peek is stuck open if and only if no other peek was open |
| `BoardExpand.EnteringBeforeLeavingSticks` | client/src/lib/boardExpand.ts:143-152 | Such a state is reached by a run |
| `BoardExpand.ArmedIffTimerKept` | client/src/lib/boardExpand.ts:112-170 | In any order of events, a pending seat keeps its open timer if and only if the event does not make the pointer let go of an older peek of another seat |
| `BoardExpand.RunArmedIffTimerKept` | client/src/lib/boardExpand.ts:112-170 | Every pending seat of a run has its open timer if and only if no event of it does |
| `BoardExpand.TimerTakersInOrder` | client/src/lib/boardExpand.ts:112-170 | In the browser's order that is only leaving the overlay, or leaving a used-up avatar the pointer is not on |
| `BoardExpand.TakenTimerUsesUpTheHover` | client/src/lib/boardExpand.ts:117-141 | What it costs: when the grace runs out the older peek closes and the pending hover is used up, unopened |
| `BoardExpand.PendingCanLoseItsTimer` | client/src/lib/boardExpand.ts:117-125 | A run in the browser's order that does it: off one avatar's overlay onto another's avatar, then out of the overlay |
| `BoardExpand.UndisturbedHoverPeeks` | client/src/lib/boardExpand.ts:143-152 | Resting on an avatar that is not used up opens its peek after the delay, held |
| `BoardExpand.ClickPinsThenCloses` | client/src/lib/boardExpand.ts:172-183 | A click pins the avatar's seat whatever was open; the next click on it closes it with the hover used up |
| `BoardExpand.PinButtonAndEscape` | client/src/lib/boardExpand.ts:188-201 | The pin button pins a peek's own seat and closes a pin as Escape does; Escape uses up the hover under the pointer |
| `BoardExpand.ExpandPins` | client/src/lib/boardExpand.ts:194-199 | The expand button pins its seat from any state, leaves no pending seat and no timer, and leaves the hover as it was |
| `BoardExpand.PressUsesUpTheHover` | client/src/lib/boardExpand.ts:143-175 | A press stops the avatar's peek from opening and leaves what is open; once the avatar is left, its hover opens a peek again |
| `BoardExpand.HeldAgainStays` | client/src/lib/boardExpand.ts:107-125 | A peek let go of gets the grace and closes when it runs out, and one held again before that stays open |
| `BoardExpand.OverlayHolds` | client/src/lib/boardExpand.ts:107-125 | The pointer in the overlay holds its peek, and leaving it there starts the grace |
| `BoardExpand.LinedUpBelow` | client/src/lib/boardExpand.ts:276-305 | Below the avatar the overlay lines up with a side of it, and nothing wider fits |
| `BoardExpand.NeverOverTheAvatar` | client/src/lib/boardExpand.ts:276-305 | The overlay keeps the gap's distance from the avatar, stays inside the board's edge on its side, and beside the avatar nothing wider fits |
| `ClaudeUsage.Collect` | scripts/cost/claude_usage.py:70-117 | The nested loops keep, entry by entry, what `SeenOf` says; on the lines (`KeptFrom`): every response of a readable answer of the repository with usage by a real model is kept, and no other, each with all that one of its lines of largest output reports |
| `ClaudeUsage.KeepsTheMaximum` | scripts/cost/claude_usage.py:112-117 | One record is kept for every response key, and it reports that key's largest output |
| `ClaudeUsage.OrderKeepsOutputs` | scripts/cost/claude_usage.py:112-117 | In any order of entries the same responses are kept, each with the same output |
| `ClaudeUsage.OrderFreeIffMaximaAgree` | scripts/cost/claude_usage.py:115-117 | The whole of what is kept is independent of the order if and only if the records with a response's largest output agree |
| `ClaudeUsage.Tally` | scripts/cost/claude_usage.py:119-132 | The bucketing loop gives every day and bucket that has a record, and no other, the sums over exactly its records |
| `ClaudeUsage.TallyIsUnique` | scripts/cost/claude_usage.py:119-132 | That table is one value, whatever order the records were added in |
| `ClaudeUsage.TallyConserves` | scripts/cost/claude_usage.py:119-132 | Every column of the table sums to the records' own total |
| `ClaudeUsage.Scan` | scripts/cost/claude_usage.py:67-132 | A scan's table is that of such records: its requests are the distinct responses, its output the sum of each response's largest, and every column sums to the records' own |
| `ClaudeUsage.TablesAgree` | scripts/cost/claude_usage.py:67-132 | Any two tables of the same lines have the same requests and output in all |
| `ClaudeUsage.ColumnsAre` | scripts/cost/claude_usage.py:119-132 | Each count of a day and bucket is the sum of that very count over its records |
| `ClaudeUsage.BucketTells` | scripts/cost/claude_usage.py:120-124 | A bucket's name tells the model, whether the request was long and whether it was fast, and nothing else |
| `ClaudeUsage.ScanOrderKeepsTotals` | scripts/cost/claude_usage.py:71-78 | Reading the files in another order gives the same request and output totals |
| `LedgerMerge.Merge` | scripts/cost/claude_usage.py:135-148 | The merging loop is `MergeOf`: a day's copy with at least as many requests wins |
| `LedgerMerge.MergeCoversBoth` | scripts/cost/claude_usage.py:135-148 | A merge has every day of both sides with at least as many requests as either, each day whole from one of them |
| `LedgerMerge.ScanWinsTies` | scripts/cost/claude_usage.py:142-147 | Of two different copies of a day the scan's is kept exactly when it has at least as many requests |
| `LedgerMerge.MergesKeepTheFullest` | scripts/cost/claude_usage.py:135-148 | Over any number of merges no day disappears, and each is held in the fullest copy that ever went in |
| `LedgerMerge.UpdatedCovers` | scripts/cost/claude_usage.py:263-268 | What a person pushes covers their local ledger, the published copy and the scan |
| `LedgerMerge.UpdatedPrefers` | scripts/cost/claude_usage.py:263-268 | Of three copies of a day the scan's wins ties over both, and the published one over the local |
| `LedgerPublish.NamesAreInjective` | scripts/cost/claude_usage.py:205 | Different people have different files |
| `LedgerPublish.BuildTree` | scripts/cost/claude_usage.py:213-225 | The listing loops replace or add the one file in `usage` and keep every other entry |
| `LedgerPublish.FastForwardIsParentTip` | scripts/cost/claude_usage.py:232-239 | In any state a run can reach, git's fast-forward rule takes a push exactly when its commit was built on the present tip |
| `LedgerPublish.TipHoldsLastPublished` | scripts/cost/claude_usage.py:199-240 | However any number of publishers' fetches, builds, pushes, refusals and retries interleave, the tip holds for each person exactly the file they last pushed, and every other entry as found |
| `LedgerPublish.UninterruptedPublishLands` | scripts/cost/claude_usage.py:206-236 | A publisher nobody moves in between gets its file onto the branch, as the one change made there |
| `LedgerPublish.BeginSetsOut` | scripts/cost/claude_usage.py:259-275 | A run keeps what it merged locally and sets out to push exactly that, with three attempts |
| `LedgerPublish.RefusedPushIsRetried` | scripts/cost/claude_usage.py:206-240 | A refused push with an attempt left is tried again with the same file on the tip that beat it, and undisturbed it lands; with none left the branch stays as it was |
| `LedgerPublish.LandingKeepsDaysIff` | scripts/cost/claude_usage.py:206-236 | A push that is taken loses no published day and no request of one if and only if its file covers its person's days then on the branch |
| `LedgerPublish.DayIsLostIff` | scripts/cost/claude_usage.py:191-240 | Over any run, with any number of machines to a person and reads that work or fail, a step loses a published day exactly when it is such a push whose file does not cover them |
| `LedgerPublish.UnreadPublishLosesIff` | scripts/cost/claude_usage.py:191-199 | When the published copy cannot be read but the push works, days are lost if and only if the local ledger and the scan do not have them |
| `LedgerPublish.FailedReadLosesADay` | scripts/cost/claude_usage.py:191-199 | One machine, alone, loses a published day that way |
| `LedgerPublish.NothingPublishedIsLost` | scripts/cost/claude_usage.py:263-268 | With one machine to a person, each having read the published copy, no published day ever leaves the branch and no day's request count goes down |
| `LedgerPublish.TwoMachinesLoseADay` | scripts/cost/claude_usage.py:206-239 | With two machines of one person a day can be lost, even though both read first: a retry rebuilds the tree but not the merge |
| `LedgerPush.Push` | scripts/cost/claude_usage.py:199-240 | The retry loop: every attempt before the last was lost to a rival or a failed fetch; a push that lands put the one file into the tip's own tree; one that gives up changed nothing |
| `CombatStrikes.StrikesFor` | client/src/lib/combatStrikes.ts:122-240 | The loops over entries, damage, sources and targets compute `PlanOf`, stated on the beat's hits |
| `CombatStrikes.Collect` | client/src/lib/combatStrikes.ts:162-188 | The collecting loop keeps for each source its side and targets in order, and who hit each card |
| `CombatStrikes.EachMovesOnce` | client/src/lib/combatStrikes.ts:190-231 | At most twelve creatures move, each once; below the cap every creature that has a lunge makes it |
| `CombatStrikes.EveryHitShownOnce` | client/src/lib/combatStrikes.ts:230-239 | Every target hit is shown exactly once, as one shake or as its mover's flash, and nothing that was not hit is |
| `CombatStrikes.FlashIsBeingHit` | client/src/lib/combatStrikes.ts:191-212 | A mover flashes exactly when it was hit, dies exactly when the beat moved it off the battlefield, and both make the hit lethal |
| `CombatStrikes.MovingBlockerWasNotHitBack` | client/src/lib/combatStrikes.ts:216-227 | A blocker that moves was hit by nothing it hit, and aims at all it hit |
| `CombatStrikes.BlockerHitBackBraces` | client/src/lib/combatStrikes.ts:216-218 | A blocker whose target hit it stays and shakes where it stands |
| `StrikePlans.MoverIsOnItsSide` | client/src/lib/combatStrikes.ts:105-160 | On the entries: a mover attacks exactly when the player of its first damage entry is the one of the last step entry before it; where either seat is unknown, exactly when it has no block entry in that combat |
| `StrikePlans.MovesIff` | client/src/lib/combatStrikes.ts:190-231 | On the entries, below the cap: a creature that hit something moves if and only if it attacks or nothing it hit hit it back |
| `StrikePlans.BlockerHitBackShakes` | client/src/lib/combatStrikes.ts:216-239 | On the entries: a blocker that something it hit hit back never moves, and shakes |
| `StrikePlans.AimIs` | client/src/lib/combatStrikes.ts:194-227 | On the entries: what a mover aims at and what goes through, its own blockers being those whose last block of this combat is of it |
| `StrikePlans.MoverDiesIff` | client/src/lib/combatStrikes.ts:133-142 | On the entries: a mover dies exactly when the beat moves it off the battlefield, and flashes exactly when it was struck |
| `StrikePlans.ShakeIsLethalIff` | client/src/lib/combatStrikes.ts:133-142 | On the entries: a shake is lethal exactly when the beat moves the card off the battlefield, or eliminates the player other than by a concession |
| `StrikePlans.EverythingStruckIsShown` | client/src/lib/combatStrikes.ts:230-239 | On the entries: everything struck shakes or is the mover that flashes, never both |
| `StrikePlans.FirstHittersMoveFirst` | client/src/lib/combatStrikes.ts:190-231 | Who hits first moves first, and the cap takes the first twelve |
| `CombatStrikes.AimAndThroughPartition` | client/src/lib/combatStrikes.ts:194-213 | An attacker that hit its own blockers aims at exactly those, and the rest goes through: between them everything, nothing twice |
| `CombatStrikes.UnblockedAim` | client/src/lib/combatStrikes.ts:198-202 | Any other attacker aims at the cards it hit, or else at the seats |
| `CombatStrikes.OwnBlockersAreThisCombats` | client/src/lib/combatStrikes.ts:144-152 | The blocks used are those of the damage's own combat, the latest of each blocker |
| `LivePoller.OneTimerAtMost` | client/src/lib/adminViews.ts:798-906 | On every run at most one timer is live, the one the poller knows; none is left after a stop; and while it says it is polling the next ask is scheduled |
| `LivePoller.NothingAskedAfterStop` | client/src/lib/adminViews.ts:832-836 | After a stop nothing is asked until the next start |
| `LivePoller.PausedUntilResumed` | client/src/lib/adminViews.ts:843-868 | Paused is left only by Resume or Start, and nothing is asked while it lasts |
| `LivePoller.UnattendedTabFallsSilent` | client/src/lib/adminViews.ts:876-889 | After the last input the timer asks at most idleMs / pollMs more times, rounded up, however long the page stays open |
| `LivePoller.StartAsksAtOnce` | client/src/lib/adminViews.ts:821-852 | A start, or a resume of one not stopped, asks at once on a visible tab and leaves one timer, due an interval later; on a hidden one it asks nothing and says hidden |
| `LivePoller.ComingBackAsksOnce` | client/src/lib/adminViews.ts:854-868 | A hidden tab that comes back asks once, and one that goes hidden while polling loses its timer |
| `LivePoller.FiringAsksIffAttended` | client/src/lib/adminViews.ts:876-889 | A due timer asks, and sets the next, exactly when the tab is visible and the last input is recent; otherwise it says hidden or paused |
| `LivePoller.InputOnlyCounts` | client/src/lib/adminViews.ts:838-841 | Input moves the last input to now and does nothing else; it never un-pauses |
| `LivePoller.PollingIsOnSchedule` | client/src/lib/adminViews.ts:870-894 | On every run, whenever it is polling its one timer is due an interval after its last ask |
| `LivePoller.AttendedKeepsAsking` | client/src/lib/adminViews.ts:789-797 | While the page is attended the asks never stop: the last is never more than an interval ago, nor two in a row further apart, give or take how late the browser's timers are |
| `LivePoller.Poller.StartPolling` | client/src/lib/adminViews.ts:821-830 | Start asks at once when visible, and says hidden when not |
| `LivePoller.Poller.StopPolling` | client/src/lib/adminViews.ts:832-836 | Stop cancels the schedule |
| `LivePoller.Poller.ResumePolling` | client/src/lib/adminViews.ts:843-852 | Resume asks now and polls again, unless stopped |
| `LivePoller.Poller.NoteVisibility` | client/src/lib/adminViews.ts:854-868 | A tab that goes hidden stops, and one that comes back asks once |
| `LivePoller.Poller.Tick` | client/src/lib/adminViews.ts:876-889 | A due timer asks and schedules the next, or goes hidden or paused |
| `AttackStage.WithoutIsRemoval` | client/src/lib/attackStage.ts:36-39 | Unstaging takes exactly those creatures out of the map; the rest keep their aim and their order |
| `AttackStage.StageAtSetsAim` | client/src/lib/attackStage.ts:41-57 | The last aim wins, everything else stays in its order, and an open exert question stages nothing |
| `AttackStage.StageManyAddsAims` | client/src/lib/attackStage.ts:59-72 | A group's aims are added to the map and the creatures it does not name keep their order; each attacker is still staged once exactly when the group's entries name each once |
| `AttackStage.PruneKeepsTheLiving` | client/src/lib/attackStage.ts:130-141 | Pruning keeps exactly the aims of creatures that can still attack, in their order |
| `AttackStage.GroupPickerSeed` | client/src/lib/attackStage.ts:83-98 | The picker opens with those staged at the defender first, then the group, each once and nothing else |
| `AttackStage.KeptIsBesideThePick` | client/src/lib/attackStage.ts:100-119 | What is kept never repeats a chosen creature, and loses no creature aimed elsewhere unless it was chosen |
| `AttackStage.StageRefinesMap` | client/src/lib/attackStage.ts:31-141 | Over any sequence of edits no attacker is staged twice, and the list is the map edited the same way |
| `AttackStage.OthersKeepTheirOrder` | client/src/lib/attackStage.ts:36-72 | Over any edits, two creatures that stay staged and are not aimed again keep their order |
| `AttackStage.StageSelectionAt` | client/src/lib/attackSelect.ts:65-93 | A target click splits the selection: those that may attack are staged there, the rest stay selected in order; it stages nothing exactly when the primary may attack and its exert question is open |
| `AttackStage.LeftAreTheOthers` | client/src/lib/attackSelect.ts:79-92 | What stays selected is exactly those that may not attack there, in the order they were selected |
| `AttackStage.DropTakesOneOut` | client/src/lib/attackSelect.ts:47-63 | Dropping a creature from a selection takes out that one alone |
| `CastLineLabels.DistinctCastLabels` | client/src/lib/castLineLabels.ts:48-80 | The counting maps compute `FinalLabels` of the qualified labels |
| `CastLineLabels.DifferentIffNoClash` | client/src/lib/castLineLabels.ts:71-79 | Two buttons never share a name if and only if no unshared label reads like a numbered one |
| `CastLineLabels.NoTwoButtonsShareAName` | client/src/lib/castLineLabels.ts:45-80 | As long as no label arrives already numbered, all names differ |
| `CastLineLabels.TwoButtonsCanShareAName` | client/src/lib/castLineLabels.ts:71-79 | The failing input: labels A, A and A #1 |
| `CastLineLabels.NumberedIsInjective` | client/src/lib/castLineLabels.ts:78 | A numbered label tells both what was numbered and the number |
| `CastLineLabels.OwnLabelIsKept` | client/src/lib/castLineLabels.ts:45-60 | Every name starts with the server's own label, and an unshared one is that label exactly unless a qualified line now reads the same |
| `CastLineLabels.QualifiedIff` | client/src/lib/castLineLabels.ts:55-69 | A line gets its targets' notes exactly when another line shares its label and one of its cards is a token or another named player's |
| `CastLineLabels.NoteIs` | client/src/lib/castLineLabels.ts:30-66 | What each card's note says |
| `CastLineLabels.JoinedMore` | client/src/lib/castLineLabels.ts:68 | The notes stand in the targets' order, with a dash for a card that has none |
| `CastLineLabels.FinalIs` | client/src/lib/castLineLabels.ts:71-79 | A label alone of its kind is kept, and one of several gets its place among them, in decimal (`DecimalReadsBack`) |
| `BugReportDraft.BugReportDraft.SetImages` | client/src/lib/bugReportDraft.svelte.ts:82-95 | The two loops revoke the URLs of the files that left and mint one for each that came, and line the previews up |
| `BugReportDraft.BugReportDraft.Dispose` | client/src/lib/bugReportDraft.svelte.ts:97-104 | Disposing revokes every URL the draft holds |
| `BugReportDraft.UrlsAreTheImages` | client/src/lib/bugReportDraft.svelte.ts:21-24 | Over any life of a tab: the live URLs are exactly those of the attached files, one each; every other URL was revoked once and no live one ever; and the previews line up |
| `BugReportDraft.KeptFilesKeepTheirUrl` | client/src/lib/bugReportDraft.svelte.ts:72-95 | A file that stays attached keeps its URL, however the others come and go |
| `BugReportDraft.SettingReplacesThePictures` | client/src/lib/bugReportDraft.svelte.ts:82-95 | Setting the pictures leaves exactly those, each with its preview in its place, and revokes each that left once |

## Left out

- Arrow geometry, ghosts, cue anchors and the arrow cache (`combatBeats.ts:609-823`): drawing.
- Cue summaries and other text built from a beat: one branch each.
- Strike geometry, timing and the crumble's shards (`combatStrikes.ts:255-570`): square roots, trigonometry and a hash; the plan of who moves is modelled.
- `setBlocker` and `setTrample`, the sheet's number fields: they may exceed the power by design.
- The notice, undo and grace records around an auto-assigned prompt: dock copy and a store.
- `liveExpanded` and the layout tick of the expanded board: a filter and a counter.
- `joinsSelection`, `soleTarget` and `stagedParams`: one expression each.
- Prices, summaries and printing of the usage script: arithmetic for display.
- ClaudeUsage.Scan: takes each line already parsed: JSON, the substring filters on file names and the pricing table are not modelled.
- A missing log is the empty log, and log sequence numbers start at 1; an entry's optional identifiers are empty strings where the code tests both the same way.
- Combat keys and arrow identifiers are datatype values where the code builds strings.
- BeatTimers.ShownTextIsAlwaysHidden: assumes timers fire in deadline order, as browsers do; the other timer theorems do not.
- BlockRuns.EveryRunStaysLegal: a frame that shows the blocks also shows the server's minimums and blocks it still allows; any other frame is covered by `RunStaysLegalIff`.
- DamageAnswers.OfferedIffTaken: figures and needs are one reading of the server's board; damage held or marked between the prompt and the answer is not modelled.
- LedgerPublish.NothingPublishedIsLost: one machine to a person, each of whose reads worked; every other run is covered by `DayIsLostIff`.
- LedgerPush.Push: rivals land between fetch and push only, and git's own failures other than a refused push end the script as in the code.
- Whole-combat limits on the number of blockers, menace granted mid-declaration, and every other rule the server judges per pair: parameters of `Rules`.
- Reactive stores, components and the fetch layer.
