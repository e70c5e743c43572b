/**
 Dividing combat damage (CR 510.1c, 702.19b): the steppers that move points
 between blockers, a trample bucket and the unassigned pool, and the answer
 they are sent as.
 */
module DamageAssignment {
  import opened Wrappers
  import opened Sums

  datatype DamageShares = DamageShares(amounts: map<string, int>, trample: int)

  datatype Assignment = Assignment(blockerID: string, amount: int)

  datatype Suggested = Suggested(assignments: seq<Assignment>, trampleToPlayer: int)

  datatype DamageFrame = DamageFrame(
    blockerIDs: seq<string>,
    attackerPower: int,
    allowTrample: bool,
    asThoughUnblocked: bool,
    lethal: seq<int>,
    coversLethal: bool,
    suggested: Option<Suggested>)

  datatype DamageAnswer = DamageAnswer(assignments: seq<Assignment>, trampleToPlayer: int)

  datatype Press = Plus | Minus

  ghost function AssignedTotal(s: DamageShares): int {
    s.trample + Sum(s.amounts)
  }

  method AssignedTotalOf(s: DamageShares) returns (n: int)
    ensures n == AssignedTotal(s)
  {
    n := s.trample;
    var rest := s.amounts;
    while rest != map[]
      invariant n + Sum(rest) == AssignedTotal(s)
      decreases |rest|
    {
      var id :| id in rest;
      SumLess(rest, id);
      n := n + rest[id];
      rest := rest - {id};
    }
  }

  // ---- Opening the prompt ----

  function Clip(n: int): int {
    if n < 0 then 0 else n
  }

  /** The amount the last of the suggestions for `id` gives it, 0 for none. */
  function LastSuggested(assignments: seq<Assignment>, id: string): int {
    if assignments == [] then 0
    else
      var a := assignments[|assignments| - 1];
      if a.blockerID == id then Clip(a.amount) else LastSuggested(assignments[..|assignments| - 1], id)
  }

  function InitialOf(frame: DamageFrame): DamageShares {
    var toPlayer := frame.allowTrample || frame.asThoughUnblocked;
    if frame.suggested.None? then DamageShares(map id <- frame.blockerIDs :: 0, 0)
    else
      var s := frame.suggested.value;
      DamageShares(map id <- frame.blockerIDs :: LastSuggested(s.assignments, id),
                   if toPlayer then Clip(s.trampleToPlayer) else 0)
  }

  method InitialShares(frame: DamageFrame) returns (r: DamageShares)
    ensures r == InitialOf(frame)
  {
    var amounts: map<string, int> := map[];
    for i := 0 to |frame.blockerIDs|
      invariant amounts == map id <- frame.blockerIDs[..i] :: 0
    {
      amounts := amounts[frame.blockerIDs[i] := 0];
    }
    if frame.suggested.None? {
      return DamageShares(amounts, 0);
    }
    var s := frame.suggested.value;
    for i := 0 to |s.assignments|
      invariant amounts == map id <- frame.blockerIDs :: LastSuggested(s.assignments[..i], id)
    {
      assert s.assignments[..i + 1][..i] == s.assignments[..i];
      var a := s.assignments[i];
      if a.blockerID in amounts {
        amounts := amounts[a.blockerID := Clip(a.amount)];
      }
    }
    assert s.assignments[..|s.assignments|] == s.assignments;
    var toPlayer := frame.allowTrample || frame.asThoughUnblocked;
    r := DamageShares(amounts, if toPlayer then Clip(s.trampleToPlayer) else 0);
  }

  // ---- The steppers ----

  /** A plus draws on the pool, and on the bucket once the pool is empty; a minus always gives back to the pool. */
  ghost function StepBlocker(s: DamageShares, id: string, press: Press, power: int): DamageShares {
    if id !in s.amounts then s
    else
      var cur := s.amounts[id];
      if press.Minus? then
        if cur <= 0 then s else s.(amounts := s.amounts[id := cur - 1])
      else if AssignedTotal(s) < power then s.(amounts := s.amounts[id := cur + 1])
      else if s.trample > 0 then DamageShares(s.amounts[id := cur + 1], s.trample - 1)
      else s
  }

  ghost function StepTrample(s: DamageShares, press: Press, power: int): DamageShares {
    if press.Minus? then if s.trample > 0 then s.(trample := s.trample - 1) else s
    else if AssignedTotal(s) < power then s.(trample := s.trample + 1)
    else s
  }

  function MembersOf(ids: seq<string>, amounts: map<string, int>): seq<string> {
    if ids == [] then []
    else
      var rest := MembersOf(ids[1..], amounts);
      if ids[0] in amounts then [ids[0]] + rest else rest
  }

  /** The first member whose known lethal is not yet assigned. */
  function FirstShort(members: seq<string>, amounts: map<string, int>, lethal: map<string, int>): Option<string> {
    if members == [] then None
    else if members[0] in lethal && members[0] in amounts && amounts[members[0]] < lethal[members[0]] then Some(members[0])
    else FirstShort(members[1..], amounts, lethal)
  }

  /** The first member with no known lethal and nothing assigned. */
  function FirstUnknown(members: seq<string>, amounts: map<string, int>, lethal: map<string, int>): Option<string> {
    if members == [] then None
    else if members[0] !in lethal && members[0] in amounts && amounts[members[0]] == 0 then Some(members[0])
    else FirstUnknown(members[1..], amounts, lethal)
  }

  function LastWithAny(members: seq<string>, amounts: map<string, int>): Option<string> {
    if members == [] then None
    else if members[|members| - 1] in amounts && amounts[members[|members| - 1]] > 0 then Some(members[|members| - 1])
    else LastWithAny(members[..|members| - 1], amounts)
  }

  function PickUp(members: seq<string>, amounts: map<string, int>, lethal: map<string, int>): string
    requires members != []
  {
    var short := FirstShort(members, amounts, lethal);
    var unknown := FirstUnknown(members, amounts, lethal);
    if short.Some? then short.value else if unknown.Some? then unknown.value else members[|members| - 1]
  }

  ghost function StepGroup(s: DamageShares, ids: seq<string>, press: Press, power: int, lethal: map<string, int>): DamageShares {
    var members := MembersOf(ids, s.amounts);
    if members == [] then s
    else if press.Plus? then StepBlocker(s, PickUp(members, s.amounts, lethal), Plus, power)
    else if LastWithAny(members, s.amounts).None? then s
    else StepBlocker(s, LastWithAny(members, s.amounts).value, Minus, power)
  }

  // ---- Ticks never overdraw ----

  datatype Tick =
    | TickBlocker(id: string, press: Press)
    | TickTrample(press: Press)
    | TickGroup(ids: seq<string>, press: Press, lethal: map<string, int>)

  ghost function ApplyTick(s: DamageShares, t: Tick, power: int): DamageShares {
    match t
    case TickBlocker(id, press) => StepBlocker(s, id, press, power)
    case TickTrample(press) => StepTrample(s, press, power)
    case TickGroup(ids, press, lethal) => StepGroup(s, ids, press, power, lethal)
  }

  ghost function ApplyTicks(s: DamageShares, ticks: seq<Tick>, power: int): DamageShares {
    if ticks == [] then s else ApplyTick(ApplyTicks(s, ticks[..|ticks| - 1], power), ticks[|ticks| - 1], power)
  }

  ghost predicate NonNegative(s: DamageShares) {
    s.trample >= 0 && forall id <- s.amounts :: s.amounts[id] >= 0
  }

  lemma StepBlockerBounds(s: DamageShares, id: string, press: Press, power: int)
    requires NonNegative(s)
    ensures var t := StepBlocker(s, id, press, power);
            && NonNegative(t) && t.amounts.Keys == s.amounts.Keys
            && (AssignedTotal(t) <= power || AssignedTotal(t) <= AssignedTotal(s))
            && AssignedTotal(s) - 1 <= AssignedTotal(t) <= AssignedTotal(s) + 1
  {
    if id in s.amounts {
      SumSet(s.amounts, id, s.amounts[id] + 1);
      SumSet(s.amounts, id, s.amounts[id] - 1);
    }
  }

  lemma TickBounds(s: DamageShares, t: Tick, power: int)
    requires NonNegative(s)
    ensures var after := ApplyTick(s, t, power);
            && NonNegative(after) && after.amounts.Keys == s.amounts.Keys
            && (AssignedTotal(after) <= power || AssignedTotal(after) <= AssignedTotal(s))
  {
    match t
    case TickBlocker(id, press) => StepBlockerBounds(s, id, press, power);
    case TickTrample(press) =>
    case TickGroup(ids, press, lethal) =>
      var members := MembersOf(ids, s.amounts);
      if members != [] {
        StepBlockerBounds(s, PickUp(members, s.amounts, lethal), Plus, power);
        if LastWithAny(members, s.amounts).Some? {
          StepBlockerBounds(s, LastWithAny(members, s.amounts).value, Minus, power);
        }
      }
  }

  /**
   However the steppers are pressed, no share goes negative, the blockers stay
   the same, and the total never exceeds the larger of the power and where it began.
   */
  lemma {:induction false} TicksNeverOverdraw(s: DamageShares, ticks: seq<Tick>, power: int)
    requires NonNegative(s)
    ensures var after := ApplyTicks(s, ticks, power);
            && NonNegative(after) && after.amounts.Keys == s.amounts.Keys
            && (AssignedTotal(after) <= power || AssignedTotal(after) <= AssignedTotal(s))
  {
    if ticks != [] {
      TicksNeverOverdraw(s, ticks[..|ticks| - 1], power);
      TickBounds(ApplyTicks(s, ticks[..|ticks| - 1], power), ticks[|ticks| - 1], power);
    }
  }

  // ---- Every split can be reached ----

  lemma {:induction false} ApplyTicksConcat(s: DamageShares, a: seq<Tick>, b: seq<Tick>, power: int)
    ensures ApplyTicks(s, a + b, power) == ApplyTicks(ApplyTicks(s, a, power), b, power)
  {
    if b == [] {
      assert a + b == a;
    } else {
      assert (a + b)[..|a + b| - 1] == a + b[..|b| - 1];
      ApplyTicksConcat(s, a, b[..|b| - 1], power);
    }
  }

  function Zeroed(s: DamageShares): DamageShares {
    DamageShares(map id <- s.amounts :: 0, 0)
  }

  lemma {:induction false} AllDown(s: DamageShares, power: int) returns (ticks: seq<Tick>)
    requires NonNegative(s)
    ensures ApplyTicks(s, ticks, power) == Zeroed(s)
    decreases AssignedTotal(s)
  {
    SumNonNegative(s.amounts);
    if s.trample > 0 {
      var rest := AllDown(s.(trample := s.trample - 1), power);
      ticks := [TickTrample(Minus)] + rest;
      TickFirst(s, TickTrample(Minus), rest, power);
    } else if id :| id in s.amounts && s.amounts[id] > 0 {
      SumSet(s.amounts, id, s.amounts[id] - 1);
      var next := s.(amounts := s.amounts[id := s.amounts[id] - 1]);
      var rest := AllDown(next, power);
      ticks := [TickBlocker(id, Minus)] + rest;
      TickFirst(s, TickBlocker(id, Minus), rest, power);
      assert Zeroed(next) == Zeroed(s);
    } else {
      ticks := [];
      assert s.amounts == Zeroed(s).amounts;
    }
  }

  lemma TickFirst(s: DamageShares, t: Tick, rest: seq<Tick>, power: int)
    ensures ApplyTicks(s, [t] + rest, power) == ApplyTicks(ApplyTick(s, t, power), rest, power)
  {
    ApplyTicksConcat(s, [t], rest, power);
    assert [t][..0] == [];
  }

  lemma {:induction false} AllUp(t: DamageShares, power: int) returns (ticks: seq<Tick>)
    requires NonNegative(t) && AssignedTotal(t) <= power
    ensures ApplyTicks(Zeroed(t), ticks, power) == t
    decreases AssignedTotal(t)
  {
    SumNonNegative(t.amounts);
    if t.trample > 0 {
      var before := AllUp(t.(trample := t.trample - 1), power);
      ticks := before + [TickTrample(Plus)];
      assert ticks[..|before|] == before;
    } else if id :| id in t.amounts && t.amounts[id] > 0 {
      SumSet(t.amounts, id, t.amounts[id] - 1);
      var prev := t.(amounts := t.amounts[id := t.amounts[id] - 1]);
      assert Zeroed(prev) == Zeroed(t);
      var before := AllUp(prev, power);
      ticks := before + [TickBlocker(id, Plus)];
      assert ticks[..|before|] == before;
      assert prev.amounts[id := t.amounts[id]] == t.amounts;
    } else {
      ticks := [];
      assert t.amounts == Zeroed(t).amounts;
    }
  }

  /** From any split, every other split over the same blockers within the power is reachable by ticks. */
  lemma EverySplitReachable(s: DamageShares, t: DamageShares, power: int) returns (ticks: seq<Tick>)
    requires NonNegative(s) && NonNegative(t) && s.amounts.Keys == t.amounts.Keys && AssignedTotal(t) <= power
    ensures ApplyTicks(s, ticks, power) == t
  {
    var down := AllDown(s, power);
    var up := AllUp(t, power);
    ticks := down + up;
    ApplyTicksConcat(s, down, up, power);
    assert Zeroed(s) == Zeroed(t);
  }

  // ---- One press, and the opening split ----

  /**
   A plus on a blocker gives it one point, from the unassigned damage while there is any and
   else from the bucket; a minus gives one back to the unassigned; nothing else moves.
   */
  lemma PressMovesOnePoint(s: DamageShares, id: string, power: int)
    requires NonNegative(s) && id in s.amounts
    ensures var t := StepBlocker(s, id, Plus, power);
            && (forall other <- s.amounts :: other in t.amounts && (other != id ==> t.amounts[other] == s.amounts[other]))
            && t.amounts.Keys == s.amounts.Keys
            && (AssignedTotal(s) < power ==>
                  t.amounts[id] == s.amounts[id] + 1 && t.trample == s.trample && AssignedTotal(t) == AssignedTotal(s) + 1)
            && (AssignedTotal(s) >= power && s.trample > 0 ==>
                  t.amounts[id] == s.amounts[id] + 1 && t.trample == s.trample - 1 && AssignedTotal(t) == AssignedTotal(s))
            && (AssignedTotal(s) >= power && s.trample == 0 ==> t == s)
    ensures var t := StepBlocker(s, id, Minus, power);
            && t.trample == s.trample && t.amounts.Keys == s.amounts.Keys
            && (forall other <- s.amounts :: other in t.amounts && (other != id ==> t.amounts[other] == s.amounts[other]))
            && (s.amounts[id] > 0 ==> t.amounts[id] == s.amounts[id] - 1 && AssignedTotal(t) == AssignedTotal(s) - 1)
            && (s.amounts[id] == 0 ==> t == s)
  {
    SumSet(s.amounts, id, s.amounts[id] + 1);
    SumSet(s.amounts, id, s.amounts[id] - 1);
  }

  /** The last suggestion for a blocker, if there is one. */
  predicate SuggestedLast(assignments: seq<Assignment>, id: string, k: nat) {
    k < |assignments| && assignments[k].blockerID == id && forall m :: k < m < |assignments| ==> assignments[m].blockerID != id
  }

  lemma {:induction false} LastSuggestedIs(assignments: seq<Assignment>, id: string, k: nat)
    requires SuggestedLast(assignments, id, k)
    ensures LastSuggested(assignments, id) == if assignments[k].amount > 0 then assignments[k].amount else 0
  {
    if k < |assignments| - 1 {
      LastSuggestedIs(assignments[..|assignments| - 1], id, k);
    }
  }

  lemma {:induction false} NeverSuggested(assignments: seq<Assignment>, id: string)
    requires forall a <- assignments :: a.blockerID != id
    ensures LastSuggested(assignments, id) == 0
  {
    if assignments != [] {
      NeverSuggested(assignments[..|assignments| - 1], id);
    }
  }

  /** The prompt opens on the server's suggestion, never below 0, with nothing over to the player unless that is allowed. */
  lemma OpensOnTheSuggestion(frame: DamageFrame)
    ensures InitialOf(frame).amounts.Keys == set id <- frame.blockerIDs
    ensures NonNegative(InitialOf(frame))
    ensures forall id, k: nat :: id in frame.blockerIDs && frame.suggested.Some? && SuggestedLast(frame.suggested.value.assignments, id, k) ==>
              var n := frame.suggested.value.assignments[k].amount;
              InitialOf(frame).amounts[id] == if n > 0 then n else 0
    ensures forall id <- frame.blockerIDs ::
              (frame.suggested.None? || forall a <- frame.suggested.value.assignments :: a.blockerID != id) ==>
                InitialOf(frame).amounts[id] == 0
    ensures InitialOf(frame).trample > 0 ==> (frame.allowTrample || frame.asThoughUnblocked) && frame.suggested.Some?
    ensures frame.suggested.Some? && (frame.allowTrample || frame.asThoughUnblocked) && frame.suggested.value.trampleToPlayer >= 0 ==>
              InitialOf(frame).trample == frame.suggested.value.trampleToPlayer
  {
    if frame.suggested.Some? {
      forall id | id in frame.blockerIDs ensures LastSuggested(frame.suggested.value.assignments, id) >= 0 {
        NotBelowZero(frame.suggested.value.assignments, id);
      }
      forall id, k: nat | SuggestedLast(frame.suggested.value.assignments, id, k)
        ensures LastSuggested(frame.suggested.value.assignments, id)
             == if frame.suggested.value.assignments[k].amount > 0 then frame.suggested.value.assignments[k].amount else 0
      {
        LastSuggestedIs(frame.suggested.value.assignments, id, k);
      }
      forall id | forall a <- frame.suggested.value.assignments :: a.blockerID != id
        ensures LastSuggested(frame.suggested.value.assignments, id) == 0
      {
        NeverSuggested(frame.suggested.value.assignments, id);
      }
    }
  }

  lemma {:induction false} NotBelowZero(assignments: seq<Assignment>, id: string)
    ensures LastSuggested(assignments, id) >= 0
  {
    if assignments != [] {
      NotBelowZero(assignments[..|assignments| - 1], id);
    }
  }
}
