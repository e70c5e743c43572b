/**
 Which combat an entry is in and which arrow it names, told from the entries of the log
 alone, and what a beat's arrows are.
 */
module CombatNames {
  import opened Wrappers
  import opened CombatLog
  import opened CombatArrows
  import opened CombatBeats
  import opened CombatBeatRuns
  import opened CombatBeatKeys

  predicate IsPhaseStep(s: StepName) {
    || s.BeginCombat? || s.DeclareAttackers? || s.DeclareBlockers?
    || s.FirstStrikeDamage? || s.CombatDamage? || s.EndCombat?
  }

  /** The step at `o` opens a combat: it begins one, or the step before it is not of the combat that goes on. */
  ghost predicate OpensCombat(log: seq<LogEvent>, o: nat)
    requires o < |log|
  {
    && log[o].kind.Step? && IsPhaseStep(log[o].kind.step)
    && (log[o].kind.step.BeginCombat?
        || forall p :: 0 <= p < o && log[p].kind.Step? && NoStepBetween(log, p, o) ==>
             log[p].turn != log[o].turn || !IsPhaseStep(log[p].kind.step) || log[p].kind.step.EndCombat?)
  }

  /** The combat opened at `o` is still on before the entry at `i`. */
  ghost predicate InCombat(log: seq<LogEvent>, o: nat, i: nat)
    requires i <= |log|
  {
    && o < i && OpensCombat(log, o)
    && forall m :: o < m < i && log[m].kind.Step? ==> IsPhaseStep(log[m].kind.step) && !OpensCombat(log, m)
  }

  lemma {:induction false} LastStepIs(log: seq<LogEvent>, n: nat, p: nat)
    requires n <= |log| && p < n && log[p].kind.Step? && NoStepBetween(log, p, n)
    ensures LastStep(log, n) == Some(log[p])
  {
    if p < n - 1 {
      LastStepIs(log, n - 1, p);
    }
  }

  lemma {:induction false} LastStepAt(log: seq<LogEvent>, n: nat) returns (p: nat)
    requires n <= |log| && LastStep(log, n).Some?
    ensures p < n && log[p].kind.Step? && NoStepBetween(log, p, n) && LastStep(log, n) == Some(log[p])
  {
    if log[n - 1].kind.Step? {
      p := n - 1;
    } else {
      p := LastStepAt(log, n - 1);
    }
  }

  lemma OpensIff(log: seq<LogEvent>, o: nat)
    requires o < |log| && log[o].kind.Step?
    ensures Opens(LastStep(log, o), log[o]) <==> OpensCombat(log, o)
  {
    if LastStep(log, o).Some? {
      var p := LastStepAt(log, o);
    }
    forall p | 0 <= p < o && log[p].kind.Step? && NoStepBetween(log, p, o) ensures LastStep(log, o) == Some(log[p]) {
      LastStepIs(log, o, p);
    }
  }

  lemma {:induction false} OpenIsInCombat(log: seq<LogEvent>, n: nat) returns (o: nat)
    requires Ordered(log) && n <= |log| && OpenCombat(log, n) != 0
    ensures InCombat(log, o, n) && OpenCombat(log, n) == log[o].seqNo
  {
    var e := log[n - 1];
    if e.kind.Step? {
      OpensIff(log, n - 1);
    }
    if e.kind.Step? && OpensCombat(log, n - 1) {
      o := n - 1;
    } else {
      o := OpenIsInCombat(log, n - 1);
    }
  }

  lemma {:induction false} InCombatIsOpen(log: seq<LogEvent>, o: nat, n: nat)
    requires Ordered(log) && n <= |log| && InCombat(log, o, n)
    ensures OpenCombat(log, n) == log[o].seqNo
    decreases n
  {
    if log[n - 1].kind.Step? {
      OpensIff(log, n - 1);
    }
    if o < n - 1 {
      InCombatIsOpen(log, o, n - 1);
    }
  }

  /** An entry is in the combat a step opened exactly when every step since goes on with that combat; in none, it is of its turn. */
  lemma CombatIsTheOneOpen(log: seq<LogEvent>, i: nat)
    requires Ordered(log) && i < |log|
    ensures forall o :: 0 <= o < i ==> (CombatAt(log, i) == Combat(log[o].seqNo) <==> InCombat(log, o, i))
    ensures (forall o :: 0 <= o < i ==> !InCombat(log, o, i)) <==> CombatAt(log, i) == Turn(log[i].turn)
  {
    if OpenCombat(log, i) != 0 {
      var p := OpenIsInCombat(log, i);
    }
    forall o | 0 <= o < i && InCombat(log, o, i) ensures OpenCombat(log, i) == log[o].seqNo {
      InCombatIsOpen(log, o, i);
    }
  }

  // ---- Arrows ----

  predicate IsBlockEntry(e: LogEvent) {
    e.kind.Block? && e.cardId != "" && e.target != ""
  }

  /** In the combat of the entry at `i`, the last block entry of `blocker` names `attacker`. */
  ghost predicate Blocked(log: seq<LogEvent>, i: nat, blocker: string, attacker: string)
    requires i < |log|
  {
    exists j :: 0 <= j < |log| && LastBlock(log, i, j, blocker) && log[j].target == attacker
  }

  ghost predicate LastBlock(log: seq<LogEvent>, i: nat, j: nat, blocker: string)
    requires i < |log| && j < |log|
  {
    && IsBlockEntry(log[j]) && log[j].cardId == blocker && CombatAt(log, j) == CombatAt(log, i)
    && forall m :: j < m < |log| && IsBlockEntry(log[m]) && log[m].cardId == blocker ==> CombatAt(log, m) != CombatAt(log, i)
  }

  lemma {:induction false} LatestIsRecorded(log: seq<LogEvent>, n: nat, combat: CombatKey, j: nat)
    requires Ordered(log) && n <= |log| && j < n && IsBlockEntry(log[j]) && CombatAt(log, j) == combat
    requires forall m :: j < m < n && IsBlockEntry(log[m]) && log[m].cardId == log[j].cardId ==> CombatAt(log, m) != combat
    ensures log[j].cardId in BlocksOf(log, n, combat) && BlocksOf(log, n, combat)[log[j].cardId] == log[j].target
  {
    KeyOfIsCombatAt(log, |log|, n - 1);
    if j < n - 1 {
      LatestIsRecorded(log, n - 1, combat, j);
    }
  }

  lemma BlocksAre(log: seq<LogEvent>, i: nat, x: string, y: string)
    requires Ordered(log) && i < |log|
    ensures var m := BlocksOf(log, |log|, CombatAt(log, i));
            x in m && m[x] == y <==> Blocked(log, i, x, y)
  {
    var m := BlocksOf(log, |log|, CombatAt(log, i));
    if x in m {
      BlockersAreNamed(log, |log|, CombatAt(log, i));
      BlockedAreNamed(log, |log|, CombatAt(log, i));
      var j := BlocksOfIsLatest(log, |log|, CombatAt(log, i), x);
      assert LastBlock(log, i, j, x);
    }
    if Blocked(log, i, x, y) {
      var j :| 0 <= j < |log| && LastBlock(log, i, j, x) && log[j].target == y;
      LatestIsRecorded(log, |log|, CombatAt(log, i), j);
    }
  }

  lemma {:induction false} BlockedAreNamed(log: seq<LogEvent>, n: nat, combat: CombatKey)
    requires n <= |log|
    ensures forall b <- BlocksOf(log, n, combat) :: BlocksOf(log, n, combat)[b] != ""
  {
    if n > 0 {
      BlockedAreNamed(log, n - 1, combat);
    }
  }

  /**
   The arrow of a damage entry: to the seat it hit, or along the block between the two
   cards in that combat, whichever of them blocked the other; otherwise none.
   */
  lemma ArrowIs(log: seq<LogEvent>, i: nat)
    requires Ordered(log) && i < |log|
    ensures var d, arrow := log[i], ArrowOf(log, log[i]);
            if d.cardId == "" then arrow == None
            else if d.targetSeat.Some? then arrow == Some(AttackArrow(d.cardId, d.targetSeat.value))
            else if Blocked(log, i, d.target, d.cardId) then arrow == Some(BlockArrow(d.target, d.cardId))
            else if Blocked(log, i, d.cardId, d.target) then arrow == Some(BlockArrow(d.cardId, d.target))
            else arrow == None
  {
    KeyOfIsCombatAt(log, |log|, i);
    BlocksAre(log, i, log[i].target, log[i].cardId);
    BlocksAre(log, i, log[i].cardId, log[i].target);
  }

  /** A beat's arrows are those of its own hits, each once. */
  lemma BeatArrowsAreItsHits(cued: Cued, log: seq<LogEvent>, F: set<nat>, b: Beat)
    requires b in BeatsOf(cued, log, F)
    ensures forall i, j :: 0 <= i < j < |b.arrows| ==> !SameArrow(b.arrows[i], b.arrows[j])
    ensures forall r <- b.arrows :: exists d <- b.damage :: ArrowOf(log, d) == Some(r)
    ensures forall d <- b.damage :: ArrowOf(log, d).Some? ==> exists r <- b.arrows :: SameArrow(r, ArrowOf(log, d).value)
  {
    BeatsFacts(cued, log, F);
    assert b.arrows == ArrowRefs(log, b.damage);
    ArrowsAreDistinct(log, b.damage);
  }
}
