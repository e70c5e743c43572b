/**
 Which combat a log entry happened in, and which combat arrow a damage entry
 travelled along, both read from the log alone.
 */
module CombatArrows {
  import opened Wrappers
  import opened CombatLog

  /** A combat is named by its opening step entry; an entry in no combat falls back to its turn. */
  datatype CombatKey = Combat(openedAt: nat) | Turn(turn: nat)

  predicate IsCombatStep(s: StepName) {
    !s.OtherStep?
  }

  /** Whether step entry `e` opens a combat, given the step entry before it. */
  predicate Opens(prev: Option<LogEvent>, e: LogEvent)
    requires e.kind.Step? && (prev.Some? ==> prev.value.kind.Step?)
  {
    && IsCombatStep(e.kind.step)
    && (|| e.kind.step.BeginCombat?
        || prev.None?
        || prev.value.turn != e.turn
        || !IsCombatStep(prev.value.kind.step)
        || prev.value.kind.step.EndCombat?)
  }

  /** The last step entry among the first `n` entries. */
  function LastStep(log: seq<LogEvent>, n: nat): (r: Option<LogEvent>)
    requires n <= |log|
    ensures r.Some? ==> r.value.kind.Step? && r.value in log[..n]
  {
    if n == 0 then None
    else if log[n - 1].kind.Step? then Some(log[n - 1])
    else LastStep(log, n - 1)
  }

  /** The opening step of the combat the first `n` entries leave open, 0 for none. */
  function OpenCombat(log: seq<LogEvent>, n: nat): nat
    requires n <= |log|
  {
    if n == 0 then 0
    else
      var e := log[n - 1];
      if !e.kind.Step? then OpenCombat(log, n - 1)
      else if !IsCombatStep(e.kind.step) then 0
      else if Opens(LastStep(log, n - 1), e) then e.seqNo
      else OpenCombat(log, n - 1)
  }

  /** The combat of the entry at index `i`. */
  function CombatAt(log: seq<LogEvent>, i: nat): CombatKey
    requires i < |log|
  {
    if OpenCombat(log, i) != 0 then Combat(OpenCombat(log, i)) else Turn(log[i].turn)
  }

  /** One recorded step entry: its number, and the combat open after it. */
  datatype Opening = Opening(seqNo: nat, key: nat)

  /** The lookup `combatKeyer` returns: the last recorded step before `e` decides. */
  function KeyOf(opens: seq<Opening>, e: LogEvent): CombatKey {
    if opens == [] then Turn(e.turn)
    else if opens[|opens| - 1].seqNo < e.seqNo then
      if opens[|opens| - 1].key != 0 then Combat(opens[|opens| - 1].key) else Turn(e.turn)
    else KeyOf(opens[..|opens| - 1], e)
  }

  /** Every step entry among the first `n`, with the combat open after it. */
  function Openings(log: seq<LogEvent>, n: nat): seq<Opening>
    requires n <= |log|
  {
    if n == 0 then []
    else if log[n - 1].kind.Step? then Openings(log, n - 1) + [Opening(log[n - 1].seqNo, OpenCombat(log, n))]
    else Openings(log, n - 1)
  }

  method CombatKeyer(log: seq<LogEvent>) returns (opens: seq<Opening>)
    ensures opens == Openings(log, |log|)
  {
    opens := [];
    var current := 0;
    var prev: Option<LogEvent> := None;
    for i := 0 to |log|
      invariant opens == Openings(log, i)
      invariant current == OpenCombat(log, i)
      invariant prev == LastStep(log, i)
    {
      var e := log[i];
      if e.kind.Step? {
        if !IsCombatStep(e.kind.step) {
          current := 0;
        } else if Opens(prev, e) {
          current := e.seqNo;
        }
        opens := opens + [Opening(e.seqNo, current)];
        prev := Some(e);
      }
    }
  }

  /** The lookup finds the combat open just before the entry. */
  lemma {:induction false} KeyOfIsCombatAt(log: seq<LogEvent>, n: nat, i: nat)
    requires Ordered(log) && i < |log| && i <= n <= |log|
    ensures KeyOf(Openings(log, n), log[i]) == CombatAt(log, i)
    decreases n
  {
    if n > i {
      KeyOfIsCombatAt(log, n - 1, i);
      if log[n - 1].kind.Step? {
        assert Openings(log, n)[..|Openings(log, n)| - 1] == Openings(log, n - 1);
      }
    } else {
      KeyOfPrefix(log, i, log[i]);
    }
  }

  /** For an entry later than all `n` recorded ones, the last recorded step decides. */
  lemma {:induction false} KeyOfPrefix(log: seq<LogEvent>, n: nat, e: LogEvent)
    requires Ordered(log) && n <= |log| && (forall j :: 0 <= j < n ==> log[j].seqNo < e.seqNo)
    ensures KeyOf(Openings(log, n), e)
         == if OpenCombat(log, n) != 0 then Combat(OpenCombat(log, n)) else Turn(e.turn)
  {
    if n > 0 {
      KeyOfPrefix(log, n - 1, e);
      if log[n - 1].kind.Step? {
        assert |Openings(log, n)| > 0;
      } else if Openings(log, n) == [] {
        NoStepNoCombat(log, n);
      }
    }
  }

  lemma {:induction false} NoStepNoCombat(log: seq<LogEvent>, n: nat)
    requires n <= |log| && Openings(log, n) == []
    ensures OpenCombat(log, n) == 0
  {
    if n > 0 {
      NoStepNoCombat(log, n - 1);
    }
  }

  /** An open combat was opened by an earlier step entry, and nothing since has opened or left one. */
  lemma {:induction false} OpenCombatSince(log: seq<LogEvent>, n: nat) returns (o: nat)
    requires Ordered(log) && n <= |log| && OpenCombat(log, n) != 0
    ensures o < n && log[o].kind.Step? && log[o].seqNo == OpenCombat(log, n)
    ensures IsCombatStep(log[o].kind.step) && Opens(LastStep(log, o), log[o])
    ensures forall m :: o < m <= n ==> OpenCombat(log, m) == OpenCombat(log, n)
  {
    var e := log[n - 1];
    if e.kind.Step? && Opens(LastStep(log, n - 1), e) {
      o := n - 1;
    } else {
      o := OpenCombatSince(log, n - 1);
    }
  }

  /**
   Two combats of one turn are never mixed: when the later of two entries is in
   a combat, the earlier one is in the same combat exactly when it came after
   the step entry that opened it.
   */
  lemma SameCombat(log: seq<LogEvent>, i: nat, j: nat)
    requires Ordered(log) && i < j < |log| && CombatAt(log, j).Combat?
    ensures CombatAt(log, i) == CombatAt(log, j) <==> CombatAt(log, j).openedAt < log[i].seqNo
  {
    var o := OpenCombatSince(log, j);
    if OpenCombat(log, i) != 0 {
      var p := OpenCombatSince(log, i);
    }
  }

  // ---- Block entries of one combat ----

  /** Blocker to attacker, over the first `n` entries of one combat; a later entry wins. */
  function BlocksOf(log: seq<LogEvent>, n: nat, combat: CombatKey): (m: map<string, string>)
    requires n <= |log|
  {
    if n == 0 then map[]
    else
      var e := log[n - 1];
      var m := BlocksOf(log, n - 1, combat);
      if e.kind.Block? && KeyOf(Openings(log, |log|), e) == combat && e.cardId != "" && e.target != ""
      then m[e.cardId := e.target]
      else m
  }

  method BlocksOn(log: seq<LogEvent>, opens: seq<Opening>, combat: CombatKey) returns (m: map<string, string>)
    requires opens == Openings(log, |log|)
    ensures m == BlocksOf(log, |log|, combat)
  {
    m := map[];
    for i := 0 to |log|
      invariant m == BlocksOf(log, i, combat)
    {
      var e := log[i];
      if e.kind.Block? && KeyOf(opens, e) == combat && e.cardId != "" && e.target != "" {
        m := m[e.cardId := e.target];
      }
    }
  }

  /** A recorded block is the latest block entry that names the blocker in that combat. */
  lemma {:induction false} BlocksOfIsLatest(log: seq<LogEvent>, n: nat, combat: CombatKey, b: string) returns (i: nat)
    requires Ordered(log) && n <= |log| && b in BlocksOf(log, n, combat)
    ensures i < n && log[i].kind.Block? && log[i].cardId == b && log[i].target == BlocksOf(log, n, combat)[b]
    ensures CombatAt(log, i) == combat
    ensures forall j :: i < j < n && log[j].kind.Block? && log[j].cardId == b && log[j].target != ""
              ==> CombatAt(log, j) != combat
  {
    var e := log[n - 1];
    KeyOfIsCombatAt(log, |log|, n - 1);
    BlockersAreNamed(log, n, combat);
    if e.kind.Block? && CombatAt(log, n - 1) == combat && e.cardId == b && e.target != "" && b != "" {
      i := n - 1;
    } else {
      i := BlocksOfIsLatest(log, n - 1, combat, b);
    }
  }

  lemma {:induction false} BlockersAreNamed(log: seq<LogEvent>, n: nat, combat: CombatKey)
    requires n <= |log|
    ensures "" !in BlocksOf(log, n, combat)
  {
    if n > 0 {
      BlockersAreNamed(log, n - 1, combat);
    }
  }

  // ---- Arrows ----

  /** An attack arrow is named after its attacker, a block arrow after its blocker. */
  datatype ArrowRef =
    | AttackArrow(fromCard: string, toSeat: nat)
    | BlockArrow(fromCard: string, toCard: string)

  predicate SameArrow(a: ArrowRef, b: ArrowRef) {
    a.AttackArrow? == b.AttackArrow? && a.fromCard == b.fromCard
  }

  /** The arrow one damage entry travelled along, if the log names one. */
  function ArrowOf(log: seq<LogEvent>, d: LogEvent): Option<ArrowRef> {
    if d.cardId == "" then None
    else if d.targetSeat.Some? then Some(AttackArrow(d.cardId, d.targetSeat.value))
    else if d.target == "" then None
    else
      var blocks := BlocksOf(log, |log|, KeyOf(Openings(log, |log|), d));
      if d.target in blocks && blocks[d.target] == d.cardId then Some(BlockArrow(d.target, d.cardId))
      else if d.cardId in blocks && blocks[d.cardId] == d.target then Some(BlockArrow(d.cardId, d.target))
      else None
  }

  function AddArrow(out: seq<ArrowRef>, a: Option<ArrowRef>): seq<ArrowRef> {
    if a.None? || (exists r <- out :: SameArrow(r, a.value)) then out else out + [a.value]
  }

  function ArrowRefs(log: seq<LogEvent>, damage: seq<LogEvent>): seq<ArrowRef> {
    if damage == [] then []
    else AddArrow(ArrowRefs(log, damage[..|damage| - 1]), ArrowOf(log, damage[|damage| - 1]))
  }

  method ArrowRefsFor(damage: seq<LogEvent>, log: seq<LogEvent>) returns (out: seq<ArrowRef>)
    ensures out == ArrowRefs(log, damage)
  {
    out := [];
    var opens := CombatKeyer(log);
    var blocksByCombat: map<CombatKey, map<string, string>> := map[];
    for i := 0 to |damage|
      invariant out == ArrowRefs(log, damage[..i])
      invariant forall k <- blocksByCombat :: blocksByCombat[k] == BlocksOf(log, |log|, k)
    {
      var d := damage[i];
      assert damage[..i + 1][..i] == damage[..i];
      if d.cardId == "" {
        continue;
      }
      if d.targetSeat.Some? {
        out := AddArrow(out, Some(AttackArrow(d.cardId, d.targetSeat.value)));
        continue;
      }
      if d.target == "" {
        continue;
      }
      var combat := KeyOf(opens, d);
      if combat !in blocksByCombat {
        var m := BlocksOn(log, opens, combat);
        blocksByCombat := blocksByCombat[combat := m];
      }
      var blocks := blocksByCombat[combat];
      if d.target in blocks && blocks[d.target] == d.cardId {
        out := AddArrow(out, Some(BlockArrow(d.target, d.cardId)));
      } else if d.cardId in blocks && blocks[d.cardId] == d.target {
        out := AddArrow(out, Some(BlockArrow(d.cardId, d.target)));
      }
    }
    assert damage[..|damage|] == damage;
  }

  /** Each arrow is cued once, and every damage entry that names an arrow has it cued. */
  lemma {:induction false} ArrowsAreDistinct(log: seq<LogEvent>, damage: seq<LogEvent>)
    ensures var out := ArrowRefs(log, damage);
            && (forall i, j :: 0 <= i < j < |out| ==> !SameArrow(out[i], out[j]))
            && (forall d <- damage :: ArrowOf(log, d).Some? ==>
                  exists r <- out :: SameArrow(r, ArrowOf(log, d).value))
            && (forall r <- out :: exists d <- damage :: ArrowOf(log, d) == Some(r))
  {
    if damage != [] {
      var n := |damage| - 1;
      var before, out := ArrowRefs(log, damage[..n]), ArrowRefs(log, damage);
      ArrowsAreDistinct(log, damage[..n]);
      assert damage == damage[..n] + [damage[n]];
      assert before <= out;
      forall d <- damage | ArrowOf(log, d).Some?
        ensures exists r <- out :: SameArrow(r, ArrowOf(log, d).value)
      {
        if r :| r in before && SameArrow(r, ArrowOf(log, d).value) {
          assert r in out;
        } else {
          assert out == before + [ArrowOf(log, d).value];
          assert ArrowOf(log, d).value in out;
        }
      }
    }
  }

  /**
   A block arrow drawn for the damage entry at index `i` is a block declared in
   that same combat, and the last one its blocker made there.
   */
  lemma BlockArrowIsThisCombats(log: seq<LogEvent>, i: nat) returns (b: nat)
    requires Ordered(log) && i < |log| && ArrowOf(log, log[i]).Some? && ArrowOf(log, log[i]).value.BlockArrow?
    ensures b < |log| && log[b].kind.Block? && CombatAt(log, b) == CombatAt(log, i)
    ensures ArrowOf(log, log[i]).value == BlockArrow(log[b].cardId, log[b].target)
    ensures {log[b].cardId, log[b].target} == {log[i].cardId, log[i].target}
    ensures forall j :: b < j < |log| && log[j].kind.Block? && log[j].cardId == log[b].cardId && log[j].target != ""
              ==> CombatAt(log, j) != CombatAt(log, i)
  {
    KeyOfIsCombatAt(log, |log|, i);
    var arrow := ArrowOf(log, log[i]).value;
    b := BlocksOfIsLatest(log, |log|, CombatAt(log, i), arrow.fromCard);
  }
}
