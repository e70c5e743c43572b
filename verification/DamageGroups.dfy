/**
 The stepper on a token group's card: one press stands for one point on one
 member. It claims to be a counter, the members always holding the lethal-first
 split of their own total.
 */
module DamageGroups {
  import opened Sequences
  import opened Wrappers
  import opened Sums
  import opened DamageAssignment

  /** What a member takes before the next one gets any: its lethal, or one point when that is not known. */
  function Threshold(id: string, lethal: map<string, int>): int {
    if id in lethal then Clip(lethal[id]) else 1
  }

  function Thresholds(members: seq<string>, lethal: map<string, int>): seq<int> {
    seq(|members|, i requires 0 <= i < |members| => Threshold(members[i], lethal))
  }

  function Shares(members: seq<string>, amounts: map<string, int>): (r: seq<int>)
    requires forall id <- members :: id in amounts
    ensures |r| == |members| && forall i :: 0 <= i < |r| ==> r[i] == amounts[members[i]]
  {
    seq(|members|, i requires 0 <= i < |members| => amounts[members[i]])
  }

  function Total(a: seq<int>): int {
    if a == [] then 0 else a[0] + Total(a[1..])
  }

  /** Nobody but the last goes over its threshold, and nobody has any before all ahead of it are at theirs. */
  predicate LethalFirst(ts: seq<int>, a: seq<int>)
    requires |ts| == |a|
  {
    && (forall i :: 0 <= i < |a| ==> 0 <= a[i])
    && (forall i :: 0 <= i < |a| - 1 ==> a[i] <= ts[i])
    && (forall i, j :: 0 <= i < j < |a| && 0 < a[j] ==> ts[i] <= a[i])
  }

  /** The split of `n` points the counter stands for. */
  function Fill(ts: seq<int>, n: nat): (r: seq<int>)
    requires forall i :: 0 <= i < |ts| ==> 0 <= ts[i]
    ensures |r| == |ts|
  {
    if ts == [] then []
    else if |ts| == 1 then [n]
    else
      var here := if ts[0] < n then ts[0] else n;
      [here] + Fill(ts[1..], n - here)
  }

  lemma LethalFirstCons(ts: seq<int>, here: int, rest: seq<int>)
    requires |ts| == |rest| + 1 && rest != [] && LethalFirst(ts[1..], rest)
    requires 0 <= here <= ts[0] && (here < ts[0] ==> forall i :: 0 <= i < |rest| ==> rest[i] == 0)
    ensures LethalFirst(ts, [here] + rest)
  {
    var a := [here] + rest;
    assert forall i :: 1 <= i < |a| ==> a[i] == rest[i - 1] && ts[i] == ts[1..][i - 1];
  }

  lemma {:induction false} FillTotal(ts: seq<int>, n: nat)
    requires forall i :: 0 <= i < |ts| ==> 0 <= ts[i]
    ensures ts != [] ==> Total(Fill(ts, n)) == n
  {
    if |ts| == 1 {
      assert Fill(ts, n)[1..] == [];
    } else if |ts| > 1 {
      var here := if ts[0] < n then ts[0] else n;
      FillTotal(ts[1..], n - here);
      assert Fill(ts, n)[1..] == Fill(ts[1..], n - here);
    }
  }

  lemma {:induction false} FillNothing(ts: seq<int>)
    requires forall i :: 0 <= i < |ts| ==> 0 <= ts[i]
    ensures forall i :: 0 <= i < |ts| ==> Fill(ts, 0)[i] == 0
  {
    if |ts| > 1 {
      FillNothing(ts[1..]);
      assert Fill(ts, 0) == [0] + Fill(ts[1..], 0);
    }
  }

  lemma {:induction false} FillIsLethalFirst(ts: seq<int>, n: nat)
    requires forall i :: 0 <= i < |ts| ==> 0 <= ts[i]
    ensures LethalFirst(ts, Fill(ts, n))
  {
    if |ts| > 1 {
      var here := if ts[0] < n then ts[0] else n;
      FillIsLethalFirst(ts[1..], n - here);
      if here < ts[0] { FillNothing(ts[1..]); }
      LethalFirstCons(ts, here, Fill(ts[1..], n - here));
      assert Fill(ts, n) == [here] + Fill(ts[1..], n - here);
    }
  }

  lemma {:induction false} AllZero(a: seq<int>)
    requires forall i :: 0 <= i < |a| ==> a[i] == 0
    ensures Total(a) == 0
  {
    if a != [] { AllZero(a[1..]); }
  }

  lemma {:induction false} TotalNonNegative(a: seq<int>)
    requires forall i :: 0 <= i < |a| ==> 0 <= a[i]
    ensures 0 <= Total(a)
    ensures Total(a) == 0 ==> forall i :: 0 <= i < |a| ==> a[i] == 0
  {
    if a != [] {
      TotalNonNegative(a[1..]);
      assert forall i :: 1 <= i < |a| ==> a[i] == a[1..][i - 1];
    }
  }

  lemma {:induction false} TotalSet(a: seq<int>, k: nat, v: int)
    requires k < |a|
    ensures Total(a[k := v]) == Total(a) - a[k] + v
  {
    var b := a[k := v];
    if k == 0 {
      assert b[1..] == a[1..];
    } else {
      TotalSet(a[1..], k - 1, v);
      assert b[1..] == a[1..][k - 1 := v];
    }
  }

  lemma ShortHeadHoldsAll(ts: seq<int>, a: seq<int>)
    requires |ts| == |a| > 0 && LethalFirst(ts, a) && a[0] < ts[0]
    ensures Total(a) == a[0]
  {
    forall i | 0 <= i < |a[1..]| ensures a[1..][i] == 0 { assert a[1..][i] == a[i + 1]; }
    AllZero(a[1..]);
  }

  lemma TailLethalFirst(ts: seq<int>, a: seq<int>)
    requires |ts| == |a| > 0 && LethalFirst(ts, a)
    ensures LethalFirst(ts[1..], a[1..])
    ensures Total(a) >= a[0]
  {
    TotalNonNegative(a[1..]);
  }

  /** The total decides the split: two lethal-first splits of the same total are the same split. */
  lemma {:induction false} SameTotalSameSplit(ts: seq<int>, a: seq<int>, b: seq<int>)
    requires |ts| == |a| == |b| && LethalFirst(ts, a) && LethalFirst(ts, b)
    requires Total(a) == Total(b)
    ensures a == b
  {
    if |ts| == 1 {
      assert a[1..] == [] && b[1..] == [];
    } else if |ts| > 1 {
      TailLethalFirst(ts, a);
      TailLethalFirst(ts, b);
      if a[0] < ts[0] { ShortHeadHoldsAll(ts, a); }
      if b[0] < ts[0] { ShortHeadHoldsAll(ts, b); }
      SameTotalSameSplit(ts[1..], a[1..], b[1..]);
      assert a == [a[0]] + a[1..] && b == [b[0]] + b[1..];
    }
  }

  // ---- Which member a press picks ----

  /** No member whose lethal is unknown stands before one whose lethal is known and positive. */
  predicate KnownFirst(members: seq<string>, lethal: map<string, int>) {
    forall i, j :: 0 <= i < j < |members| && members[i] !in lethal && members[j] in lethal ==> lethal[members[j]] <= 0
  }

  predicate IsShort(id: string, amounts: map<string, int>, lethal: map<string, int>) {
    id in lethal && id in amounts && amounts[id] < lethal[id]
  }

  predicate IsBare(id: string, amounts: map<string, int>, lethal: map<string, int>) {
    id !in lethal && id in amounts && amounts[id] == 0
  }

  lemma {:induction false} FirstShortAt(members: seq<string>, amounts: map<string, int>, lethal: map<string, int>) returns (i: nat)
    ensures i <= |members| && forall j :: 0 <= j < i ==> !IsShort(members[j], amounts, lethal)
    ensures i < |members| ==> FirstShort(members, amounts, lethal) == Some(members[i]) && IsShort(members[i], amounts, lethal)
    ensures i == |members| ==> FirstShort(members, amounts, lethal).None?
  {
    if members == [] || IsShort(members[0], amounts, lethal) {
      i := 0;
    } else {
      var k := FirstShortAt(members[1..], amounts, lethal);
      i := k + 1;
      assert forall j :: 1 <= j < i ==> members[j] == members[1..][j - 1];
    }
  }

  lemma {:induction false} FirstUnknownAt(members: seq<string>, amounts: map<string, int>, lethal: map<string, int>) returns (i: nat)
    ensures i <= |members| && forall j :: 0 <= j < i ==> !IsBare(members[j], amounts, lethal)
    ensures i < |members| ==> FirstUnknown(members, amounts, lethal) == Some(members[i]) && IsBare(members[i], amounts, lethal)
    ensures i == |members| ==> FirstUnknown(members, amounts, lethal).None?
  {
    if members == [] || IsBare(members[0], amounts, lethal) {
      i := 0;
    } else {
      var k := FirstUnknownAt(members[1..], amounts, lethal);
      i := k + 1;
      assert forall j :: 1 <= j < i ==> members[j] == members[1..][j - 1];
    }
  }

  lemma {:induction false} LastWithAnyAt(members: seq<string>, amounts: map<string, int>) returns (i: int)
    requires forall id <- members :: id in amounts
    ensures -1 <= i < |members| && forall j :: i < j < |members| ==> amounts[members[j]] <= 0
    ensures i >= 0 ==> LastWithAny(members, amounts) == Some(members[i]) && amounts[members[i]] > 0
    ensures i == -1 ==> LastWithAny(members, amounts).None?
  {
    if members == [] {
      i := -1;
    } else if amounts[members[|members| - 1]] > 0 {
      i := |members| - 1;
    } else {
      i := LastWithAnyAt(members[..|members| - 1], amounts);
    }
  }

  /** With the unknown ones last, a plus goes to the first member below its threshold, else to the last member. */
  lemma PickUpAt(members: seq<string>, amounts: map<string, int>, lethal: map<string, int>) returns (k: nat)
    requires members != [] && KnownFirst(members, lethal)
    requires forall id <- members :: id in amounts && 0 <= amounts[id]
    ensures k < |members| && PickUp(members, amounts, lethal) == members[k]
    ensures forall j :: 0 <= j < k ==> Threshold(members[j], lethal) <= amounts[members[j]]
    ensures k < |members| - 1 ==> amounts[members[k]] < Threshold(members[k], lethal)
  {
    var i := FirstShortAt(members, amounts, lethal);
    var u := FirstUnknownAt(members, amounts, lethal);
    k := if i < |members| then i else if u < |members| then u else |members| - 1;
    forall j | 0 <= j < k ensures Threshold(members[j], lethal) <= amounts[members[j]] {
      assert !IsShort(members[j], amounts, lethal);
      if i == |members| { assert !IsBare(members[j], amounts, lethal); }
    }
  }

  // ---- One press ----

  lemma {:induction false} MembersFacts(ids: seq<string>, amounts: map<string, int>)
    ensures forall id :: id in MembersOf(ids, amounts) <==> id in ids && id in amounts
    ensures Distinct(ids) ==> Distinct(MembersOf(ids, amounts))
  {
    if ids != [] {
      MembersFacts(ids[1..], amounts);
      if Distinct(ids) {
        assert Distinct(ids[1..]);
        assert ids[0] !in ids[1..];
      }
    }
  }

  lemma {:induction false} MembersByKeys(ids: seq<string>, a: map<string, int>, b: map<string, int>)
    requires a.Keys == b.Keys
    ensures MembersOf(ids, a) == MembersOf(ids, b)
  {
    if ids != [] { MembersByKeys(ids[1..], a, b); }
  }

  lemma ShareSet(members: seq<string>, amounts: map<string, int>, k: nat, v: int)
    requires Distinct(members) && k < |members| && forall id <- members :: id in amounts
    ensures Shares(members, amounts[members[k] := v]) == Shares(members, amounts)[k := v]
  {
  }

  /** The group's members hold the lethal-first split of their own total. */
  ghost predicate Filled(s: DamageShares, ids: seq<string>, lethal: map<string, int>) {
    var members := MembersOf(ids, s.amounts);
    && (forall id <- members :: id in s.amounts)
    && LethalFirst(Thresholds(members, lethal), Shares(members, s.amounts))
  }

  ghost function Held(s: DamageShares, ids: seq<string>): int {
    var members := MembersOf(ids, s.amounts);
    MembersFacts(ids, s.amounts);
    Total(Shares(members, s.amounts))
  }

  lemma RaiseFirstBelow(ts: seq<int>, a: seq<int>, k: nat)
    requires k < |a| == |ts| && LethalFirst(ts, a)
    requires forall j :: 0 <= j < k ==> ts[j] <= a[j]
    requires k < |a| - 1 ==> a[k] < ts[k]
    ensures LethalFirst(ts, a[k := a[k] + 1])
    ensures Total(a[k := a[k] + 1]) == Total(a) + 1
  {
    TotalSet(a, k, a[k] + 1);
    forall j | k < j < |a| ensures a[j] == 0 {
      assert a[k] < ts[k];
    }
  }

  /** Writing one member's share changes that one place of the members' split. */
  lemma WriteShare(s: DamageShares, t: DamageShares, ids: seq<string>, k: nat, v: int)
    requires Distinct(ids) && k < |MembersOf(ids, s.amounts)|
    requires t.amounts == s.amounts[MembersOf(ids, s.amounts)[k] := v]
    requires forall id <- MembersOf(ids, s.amounts) :: id in s.amounts
    ensures var members := MembersOf(ids, s.amounts);
            && MembersOf(ids, t.amounts) == members && (forall id <- members :: id in t.amounts)
            && Shares(members, t.amounts) == Shares(members, s.amounts)[k := v]
            && Held(t, ids) == Total(Shares(members, s.amounts)[k := v])
  {
    MembersFacts(ids, s.amounts);
    assert MembersOf(ids, s.amounts)[k] in s.amounts;
    MembersByKeys(ids, s.amounts, t.amounts);
    ShareSet(MembersOf(ids, s.amounts), s.amounts, k, v);
  }

  lemma PlusEffect(s: DamageShares, ids: seq<string>, power: int, lethal: map<string, int>)
    requires MembersOf(ids, s.amounts) != []
    ensures var t := StepGroup(s, ids, Plus, power, lethal);
            var pick := PickUp(MembersOf(ids, s.amounts), s.amounts, lethal);
            if pick in s.amounts && (AssignedTotal(s) < power || s.trample > 0) then t.amounts == s.amounts[pick := s.amounts[pick] + 1]
            else t == s
  {
  }

  /** A plus adds one to the members' total exactly when there is a point to take, and keeps them lethal-first. */
  lemma PlusCounts(s: DamageShares, ids: seq<string>, power: int, lethal: map<string, int>)
    requires NonNegative(s) && Distinct(ids) && KnownFirst(MembersOf(ids, s.amounts), lethal)
    requires MembersOf(ids, s.amounts) != [] && Filled(s, ids, lethal)
    ensures Filled(StepGroup(s, ids, Plus, power, lethal), ids, lethal)
    ensures Held(StepGroup(s, ids, Plus, power, lethal), ids)
         == Held(s, ids) + (if AssignedTotal(s) < power || s.trample > 0 then 1 else 0)
  {
    PlusEffect(s, ids, power, lethal);
    var members := MembersOf(ids, s.amounts);
    var t := StepGroup(s, ids, Plus, power, lethal);
    if AssignedTotal(s) < power || s.trample > 0 {
      PlusAt(s, t, ids, lethal);
    } else {
      assert t == s;
    }
  }

  lemma PlusAt(s: DamageShares, t: DamageShares, ids: seq<string>, lethal: map<string, int>)
    requires NonNegative(s) && Distinct(ids) && KnownFirst(MembersOf(ids, s.amounts), lethal)
    requires MembersOf(ids, s.amounts) != [] && Filled(s, ids, lethal)
    requires var pick := PickUp(MembersOf(ids, s.amounts), s.amounts, lethal);
             pick in s.amounts ==> t.amounts == s.amounts[pick := s.amounts[pick] + 1]
    ensures Filled(t, ids, lethal)
    ensures Held(t, ids) == Held(s, ids) + 1
  {
    var members := MembersOf(ids, s.amounts);
    var k := PickUpAt(members, s.amounts, lethal);
    assert members[k] in s.amounts;
    WriteShare(s, t, ids, k, s.amounts[members[k]] + 1);
    RaiseFirstBelow(Thresholds(members, lethal), Shares(members, s.amounts), k);
  }

  lemma LowerLast(ts: seq<int>, a: seq<int>, k: nat)
    requires k < |a| == |ts| && LethalFirst(ts, a) && a[k] > 0
    requires forall j :: k < j < |a| ==> a[j] <= 0
    ensures LethalFirst(ts, a[k := a[k] - 1])
    ensures Total(a[k := a[k] - 1]) == Total(a) - 1 && Total(a) > 0
  {
    TotalSet(a, k, a[k] - 1);
    TotalNonNegative(a[k := a[k] - 1]);
  }

  lemma MinusEffect(s: DamageShares, ids: seq<string>, power: int, lethal: map<string, int>)
    requires MembersOf(ids, s.amounts) != []
    ensures var t := StepGroup(s, ids, Minus, power, lethal);
            var last := LastWithAny(MembersOf(ids, s.amounts), s.amounts);
            && t.trample == s.trample
            && if last.Some? && last.value in s.amounts && s.amounts[last.value] > 0
               then t.amounts == s.amounts[last.value := s.amounts[last.value] - 1]
               else t == s
  {
  }

  /** A minus takes one off the members' total exactly when they hold any, and keeps them lethal-first. */
  lemma MinusCounts(s: DamageShares, ids: seq<string>, power: int, lethal: map<string, int>)
    requires NonNegative(s) && Distinct(ids) && Filled(s, ids, lethal)
    ensures Filled(StepGroup(s, ids, Minus, power, lethal), ids, lethal)
    ensures StepGroup(s, ids, Minus, power, lethal).trample == s.trample
    ensures Held(StepGroup(s, ids, Minus, power, lethal), ids) == (if Held(s, ids) > 0 then Held(s, ids) - 1 else 0)
  {
    var members := MembersOf(ids, s.amounts);
    if members != [] {
      MinusEffect(s, ids, power, lethal);
      var k := LastWithAnyAt(members, s.amounts);
      var t := StepGroup(s, ids, Minus, power, lethal);
      if k >= 0 {
        WriteShare(s, t, ids, k, s.amounts[members[k]] - 1);
        LowerLast(Thresholds(members, lethal), Shares(members, s.amounts), k);
      } else {
        AllZero(Shares(members, s.amounts));
      }
    }
  }

  // ---- Whole runs ----

  /** A tick that is a press on this group's card, or that leaves its members alone. */
  predicate GroupTick(t: Tick, ids: seq<string>, lethal: map<string, int>) {
    match t
    case TickGroup(group, _, figures) => group == ids && figures == lethal
    case TickBlocker(id, _) => id !in ids
    case TickTrample(_) => true
  }

  lemma {:induction false} OthersKeepShares(s: DamageShares, t: DamageShares, ids: seq<string>)
    requires s.amounts.Keys == t.amounts.Keys && forall id <- ids :: id in s.amounts ==> t.amounts[id] == s.amounts[id]
    ensures MembersOf(ids, t.amounts) == MembersOf(ids, s.amounts)
    ensures forall id <- MembersOf(ids, s.amounts) :: id in s.amounts && id in t.amounts
    ensures Shares(MembersOf(ids, s.amounts), t.amounts) == Shares(MembersOf(ids, s.amounts), s.amounts)
  {
    MembersFacts(ids, s.amounts);
    MembersByKeys(ids, s.amounts, t.amounts);
  }

  lemma TickKeepsFilled(s: DamageShares, t: Tick, ids: seq<string>, power: int, lethal: map<string, int>)
    requires NonNegative(s) && Distinct(ids) && KnownFirst(MembersOf(ids, s.amounts), lethal)
    requires Filled(s, ids, lethal) && GroupTick(t, ids, lethal)
    ensures var after := ApplyTick(s, t, power);
            MembersOf(ids, after.amounts) == MembersOf(ids, s.amounts) && Filled(after, ids, lethal)
  {
    var after := ApplyTick(s, t, power);
    TickBounds(s, t, power);
    MembersByKeys(ids, s.amounts, after.amounts);
    match t {
      case TickBlocker(id, press) => { OthersKeepShares(s, after, ids); }
      case TickTrample(press) => { OthersKeepShares(s, after, ids); }
      case TickGroup(_, press, _) => {
        if MembersOf(ids, s.amounts) == [] {
        } else if press.Plus? {
          PlusCounts(s, ids, power, lethal);
        } else {
          MinusCounts(s, ids, power, lethal);
        }
      }
    }
  }

  lemma {:induction false} RunKeepsFilled(s: DamageShares, ticks: seq<Tick>, ids: seq<string>, power: int, lethal: map<string, int>)
    requires NonNegative(s) && Distinct(ids) && KnownFirst(MembersOf(ids, s.amounts), lethal)
    requires forall id <- ids :: id in s.amounts ==> s.amounts[id] == 0
    requires forall t <- ticks :: GroupTick(t, ids, lethal)
    ensures var after := ApplyTicks(s, ticks, power);
            MembersOf(ids, after.amounts) == MembersOf(ids, s.amounts) && Filled(after, ids, lethal)
  {
    if ticks == [] {
      MembersFacts(ids, s.amounts);
    } else {
      var before := ApplyTicks(s, ticks[..|ticks| - 1], power);
      TicksNeverOverdraw(s, ticks[..|ticks| - 1], power);
      RunKeepsFilled(s, ticks[..|ticks| - 1], ids, power, lethal);
      TickKeepsFilled(before, ticks[|ticks| - 1], ids, power, lethal);
    }
  }

  lemma LethalFirstIsFill(ts: seq<int>, a: seq<int>)
    requires |ts| == |a| && LethalFirst(ts, a) && forall i :: 0 <= i < |ts| ==> 0 <= ts[i]
    ensures Total(a) >= 0 && a == Fill(ts, Total(a))
  {
    TotalNonNegative(a);
    FillIsLethalFirst(ts, Total(a));
    FillTotal(ts, Total(a));
    if ts != [] { SameTotalSameSplit(ts, a, Fill(ts, Total(a))); }
  }

  /**
   From members at 0, any run of presses on the group's card, mixed with presses
   elsewhere, leaves the members at the fill of their own total.
   */
  lemma GroupIsACounter(s: DamageShares, ticks: seq<Tick>, ids: seq<string>, power: int, lethal: map<string, int>)
    requires NonNegative(s) && Distinct(ids) && KnownFirst(MembersOf(ids, s.amounts), lethal)
    requires forall id <- ids :: id in s.amounts ==> s.amounts[id] == 0
    requires forall t <- ticks :: GroupTick(t, ids, lethal)
    ensures var after, members := ApplyTicks(s, ticks, power), MembersOf(ids, s.amounts);
            && NonNegative(after) && MembersOf(ids, after.amounts) == members && Filled(after, ids, lethal)
            && Held(after, ids) >= 0
            && Shares(members, after.amounts) == Fill(Thresholds(members, lethal), Held(after, ids))
  {
    var members := MembersOf(ids, s.amounts);
    var after := ApplyTicks(s, ticks, power);
    TicksNeverOverdraw(s, ticks, power);
    RunKeepsFilled(s, ticks, ids, power, lethal);
    LethalFirstIsFill(Thresholds(members, lethal), Shares(members, after.amounts));
  }

  // ---- When a minus undoes the plus before it ----

  ghost predicate HasRoom(s: DamageShares, power: int) {
    AssignedTotal(s) < power || s.trample > 0
  }

  ghost predicate Undone(s: DamageShares, ids: seq<string>, power: int, lethal: map<string, int>) {
    StepGroup(StepGroup(s, ids, Plus, power, lethal), ids, Minus, power, lethal).amounts == s.amounts
  }

  /** No member after the one the next plus goes to holds anything. */
  predicate NothingAfterPick(members: seq<string>, amounts: map<string, int>, lethal: map<string, int>)
    requires members != [] && forall id <- members :: id in amounts
  {
    forall i, j :: 0 <= i < j < |members| && members[i] == PickUp(members, amounts, lethal) ==> amounts[members[j]] == 0
  }

  lemma PickIsMember(members: seq<string>, amounts: map<string, int>, lethal: map<string, int>) returns (k: nat)
    requires members != []
    ensures k < |members| && PickUp(members, amounts, lethal) == members[k]
  {
    var i := FirstShortAt(members, amounts, lethal);
    var u := FirstUnknownAt(members, amounts, lethal);
    k := if i < |members| then i else if u < |members| then u else |members| - 1;
  }

  /** After a plus on member `k`, the minus goes to the last member that holds anything: `k` itself or a later one. */
  lemma MinusAfterPlus(s: DamageShares, up: DamageShares, ids: seq<string>, k: nat) returns (last: nat)
    requires NonNegative(s) && Distinct(ids) && k < |MembersOf(ids, s.amounts)|
    requires forall id <- MembersOf(ids, s.amounts) :: id in s.amounts
    requires var pick := MembersOf(ids, s.amounts)[k]; up.amounts == s.amounts[pick := s.amounts[pick] + 1]
    ensures var members := MembersOf(ids, s.amounts);
            && MembersOf(ids, up.amounts) == members
            && k <= last < |members| && LastWithAny(members, up.amounts) == Some(members[last])
            && (last == k <==> forall j :: k < j < |members| ==> s.amounts[members[j]] == 0)
  {
    var members := MembersOf(ids, s.amounts);
    MembersFacts(ids, s.amounts);
    MembersByKeys(ids, s.amounts, up.amounts);
    var i := LastWithAnyAt(members, up.amounts);
    assert forall j :: 0 <= j < |members| && j != k ==> up.amounts[members[j]] == s.amounts[members[j]];
    last := i;
  }

  lemma MinusRestores(amounts: map<string, int>, members: seq<string>, k: nat, last: nat, up: map<string, int>, down: map<string, int>)
    requires Distinct(members) && k <= last < |members| && forall id <- members :: id in amounts
    requires up == amounts[members[k] := amounts[members[k]] + 1]
    requires up[members[last]] > 0 ==> down == up[members[last] := up[members[last]] - 1]
    requires up[members[last]] > 0
    ensures down == amounts <==> last == k
  {
    if last != k {
      assert members[last] != members[k];
      assert down[members[k]] == amounts[members[k]] + 1;
    }
  }

  lemma MinusFromUp(s: DamageShares, up: DamageShares, ids: seq<string>, power: int, lethal: map<string, int>, k: nat)
      returns (last: nat)
    requires NonNegative(s) && Distinct(ids) && k < |MembersOf(ids, s.amounts)|
    requires forall id <- MembersOf(ids, s.amounts) :: id in s.amounts
    requires var pick := MembersOf(ids, s.amounts)[k]; up.amounts == s.amounts[pick := s.amounts[pick] + 1]
    ensures var members, down := MembersOf(ids, s.amounts), StepGroup(up, ids, Minus, power, lethal);
            && k <= last < |members| && down.trample == up.trample
            && (last == k <==> forall j :: k < j < |members| ==> s.amounts[members[j]] == 0)
            && (down.amounts == s.amounts <==> last == k)
  {
    var members := MembersOf(ids, s.amounts);
    MembersFacts(ids, s.amounts);
    last := MinusAfterPlus(s, up, ids, k);
    LastHolds(members, up.amounts, last);
    MinusEffect(up, ids, power, lethal);
    MinusRestores(s.amounts, members, k, last, up.amounts, StepGroup(up, ids, Minus, power, lethal).amounts);
  }

  lemma LastHolds(members: seq<string>, amounts: map<string, int>, last: nat)
    requires last < |members| && LastWithAny(members, amounts) == Some(members[last])
    requires forall id <- members :: id in amounts
    ensures amounts[members[last]] > 0
  {
    var i := LastWithAnyAt(members, amounts);
  }

  lemma PlusFrom(s: DamageShares, ids: seq<string>, power: int, lethal: map<string, int>) returns (k: nat, up: DamageShares)
    requires MembersOf(ids, s.amounts) != [] && HasRoom(s, power)
    requires forall id <- MembersOf(ids, s.amounts) :: id in s.amounts
    ensures up == StepGroup(s, ids, Plus, power, lethal) && k < |MembersOf(ids, s.amounts)|
    ensures var pick := MembersOf(ids, s.amounts)[k];
            && PickUp(MembersOf(ids, s.amounts), s.amounts, lethal) == pick
            && up.amounts == s.amounts[pick := s.amounts[pick] + 1]
            && up.trample == if AssignedTotal(s) < power then s.trample else s.trample - 1
  {
    var members := MembersOf(ids, s.amounts);
    k := PickIsMember(members, s.amounts, lethal);
    up := StepGroup(s, ids, Plus, power, lethal);
    PlusEffect(s, ids, power, lethal);
    PlusTrample(s, ids, power, lethal);
    assert s.amounts[members[k] := s.amounts[members[k]] + 1][members[k]] != s.amounts[members[k]];
  }

  /**
   As long as there is a point to take, a minus undoes the plus before it on every
   share if and only if no member after the one the plus goes to holds anything;
   the bucket is restored with it exactly when the point came from the unassigned damage.
   */
  lemma MinusUndoesPlus(s: DamageShares, ids: seq<string>, power: int, lethal: map<string, int>)
    requires NonNegative(s) && Distinct(ids) && MembersOf(ids, s.amounts) != [] && HasRoom(s, power)
    ensures forall id <- MembersOf(ids, s.amounts) :: id in s.amounts
    ensures Undone(s, ids, power, lethal) <==> NothingAfterPick(MembersOf(ids, s.amounts), s.amounts, lethal)
    ensures var down := StepGroup(StepGroup(s, ids, Plus, power, lethal), ids, Minus, power, lethal);
            down == s <==> NothingAfterPick(MembersOf(ids, s.amounts), s.amounts, lethal) && AssignedTotal(s) < power
  {
    var members := MembersOf(ids, s.amounts);
    MembersFacts(ids, s.amounts);
    var k, up := PlusFrom(s, ids, power, lethal);
    var last := MinusFromUp(s, up, ids, power, lethal, k);
    assert forall i :: 0 <= i < |members| && members[i] == members[k] ==> i == k;
  }

  /** A lethal-first split whose known members come first is one of those: nothing is held after the next pick. */
  lemma FilledHoldsNothingAfterPick(s: DamageShares, ids: seq<string>, lethal: map<string, int>)
    requires NonNegative(s) && Distinct(ids) && KnownFirst(MembersOf(ids, s.amounts), lethal)
    requires MembersOf(ids, s.amounts) != [] && Filled(s, ids, lethal)
    ensures NothingAfterPick(MembersOf(ids, s.amounts), s.amounts, lethal)
  {
    var members := MembersOf(ids, s.amounts);
    MembersFacts(ids, s.amounts);
    var k := PickUpAt(members, s.amounts, lethal);
    var ts, a := Thresholds(members, lethal), Shares(members, s.amounts);
    forall i, j | 0 <= i < j < |members| && members[i] == members[k] ensures s.amounts[members[j]] == 0 {
      assert i == k;
      assert a[k] < ts[k];
      assert a[j] == s.amounts[members[j]];
    }
  }

  lemma PlusTrample(s: DamageShares, ids: seq<string>, power: int, lethal: map<string, int>)
    requires MembersOf(ids, s.amounts) != []
    ensures var up := StepGroup(s, ids, Plus, power, lethal);
            up == s || up.trample == if AssignedTotal(s) < power then s.trample else s.trample - 1
  {
  }

  // ---- When a minus always undoes a plus ----

  /** After every run of this group's presses, a minus undoes the plus before it. */
  ghost predicate UndoAlwaysWorks(s: DamageShares, ids: seq<string>, lethal: map<string, int>) {
    forall ticks: seq<Tick>, power: int ::
      (AllGroupTicks(ticks, ids, lethal) && HasRoom(ApplyTicks(s, ticks, power), power))
      ==> Undone(ApplyTicks(s, ticks, power), ids, power, lethal)
  }

  predicate AllGroupTicks(ticks: seq<Tick>, ids: seq<string>, lethal: map<string, int>) {
    forall t <- ticks :: GroupTick(t, ids, lethal)
  }

  /** How many points the members with a known lethal are short of it. */
  function ShortBy(members: seq<string>, amounts: map<string, int>, lethal: map<string, int>): (r: nat)
  {
    if members == [] then 0
    else
      var id := members[0];
      (if IsShort(id, amounts, lethal) then lethal[id] - amounts[id] else 0) + ShortBy(members[1..], amounts, lethal)
  }

  lemma {:induction false} ShortByOthers(members: seq<string>, a: map<string, int>, b: map<string, int>, lethal: map<string, int>)
    requires a.Keys == b.Keys && forall id <- members :: id in a ==> a[id] == b[id]
    ensures ShortBy(members, a, lethal) == ShortBy(members, b, lethal)
  {
    if members != [] { ShortByOthers(members[1..], a, b, lethal); }
  }

  lemma {:induction false} OneLessShort(members: seq<string>, amounts: map<string, int>, lethal: map<string, int>, k: nat)
    requires Distinct(members) && k < |members| && IsShort(members[k], amounts, lethal)
    ensures ShortBy(members, amounts[members[k] := amounts[members[k]] + 1], lethal) == ShortBy(members, amounts, lethal) - 1
  {
    var next := amounts[members[k] := amounts[members[k]] + 1];
    assert Distinct(members[1..]);
    if k == 0 {
      ShortByOthers(members[1..], amounts, next, lethal);
    } else {
      OneLessShort(members[1..], amounts, lethal, k - 1);
    }
  }

  /** Every member with a known lethal has it, the others still have nothing, and there is a point left. */
  ghost predicate KnownDone(s: DamageShares, members: seq<string>, lethal: map<string, int>, power: int) {
    && AssignedTotal(s) < power
    && forall id <- members ::
         id in s.amounts && !IsShort(id, s.amounts, lethal) && (id !in lethal ==> s.amounts[id] == 0)
  }

  lemma {:induction false} PressUntilKnownDone(s: DamageShares, ids: seq<string>, lethal: map<string, int>, power: int) returns (ticks: seq<Tick>)
    requires NonNegative(s) && Distinct(ids) && MembersOf(ids, s.amounts) != []
    requires AssignedTotal(s) + ShortBy(MembersOf(ids, s.amounts), s.amounts, lethal) < power
    requires forall id <- MembersOf(ids, s.amounts) :: id in s.amounts && (id !in lethal ==> s.amounts[id] == 0)
    ensures forall t <- ticks :: GroupTick(t, ids, lethal)
    ensures KnownDone(ApplyTicks(s, ticks, power), MembersOf(ids, s.amounts), lethal, power)
    decreases ShortBy(MembersOf(ids, s.amounts), s.amounts, lethal)
  {
    var members := MembersOf(ids, s.amounts);
    MembersFacts(ids, s.amounts);
    var k := FirstShortAt(members, s.amounts, lethal);
    if k == |members| {
      ticks := [];
    } else {
      var press := TickGroup(ids, Plus, lethal);
      var next := ApplyTick(s, press, power);
      assert next == s.(amounts := s.amounts[members[k] := s.amounts[members[k]] + 1]);
      SumSet(s.amounts, members[k], s.amounts[members[k]] + 1);
      OneLessShort(members, s.amounts, lethal, k);
      MembersByKeys(ids, s.amounts, next.amounts);
      var rest := PressUntilKnownDone(next, ids, lethal, power);
      ticks := [press] + rest;
      TickFirst(s, press, rest, power);
    }
  }

  lemma UnknownGetsThePlus(s: DamageShares, ids: seq<string>, lethal: map<string, int>, power: int, i: nat) returns (u: nat)
    requires var members := MembersOf(ids, s.amounts);
             i < |members| && members[i] !in lethal && KnownDone(s, members, lethal, power)
    ensures u <= i && s.amounts[MembersOf(ids, s.amounts)[u]] == 0
    ensures StepGroup(s, ids, Plus, power, lethal).amounts == s.amounts[MembersOf(ids, s.amounts)[u] := 1]
  {
    var members := MembersOf(ids, s.amounts);
    var known := FirstShortAt(members, s.amounts, lethal);
    u := FirstUnknownAt(members, s.amounts, lethal);
    assert IsBare(members[i], s.amounts, lethal);
    PlusEffect(s, ids, power, lethal);
  }

  /** With an unknown member before a known one, the plus goes to the unknown and the minus to a later member. */
  lemma UnknownFirstIsNotUndone(s: DamageShares, ids: seq<string>, lethal: map<string, int>, power: int, i: nat, j: nat)
    requires var members := MembersOf(ids, s.amounts);
             && i < j < |members| && members[i] !in lethal && members[j] in lethal && lethal[members[j]] > 0
             && Distinct(ids) && KnownDone(s, members, lethal, power)
    ensures !Undone(s, ids, power, lethal)
  {
    var members := MembersOf(ids, s.amounts);
    MembersFacts(ids, s.amounts);
    var u := UnknownGetsThePlus(s, ids, lethal, power, i);
    var up := StepGroup(s, ids, Plus, power, lethal);
    assert !IsShort(members[j], s.amounts, lethal);
    MembersByKeys(ids, s.amounts, up.amounts);
    var k := LastWithAnyAt(members, up.amounts);
    assert k >= j > u;
    assert StepGroup(up, ids, Minus, power, lethal).amounts[members[u]] == 1;
  }

  /**
   From members at 0, over every run that presses the group's card and leaves its
   members' own cards alone: a minus always undoes the plus before it if and only if
   the known members come first. `MinusUndoesPlus` is the condition in any one state.
   */
  lemma UndoWorksIffKnownFirst(s: DamageShares, ids: seq<string>, lethal: map<string, int>)
    requires NonNegative(s) && Distinct(ids) && MembersOf(ids, s.amounts) != []
    requires forall id <- ids :: id in s.amounts ==> s.amounts[id] == 0
    ensures UndoAlwaysWorks(s, ids, lethal) <==> KnownFirst(MembersOf(ids, s.amounts), lethal)
  {
    var members := MembersOf(ids, s.amounts);
    MembersFacts(ids, s.amounts);
    if KnownFirst(members, lethal) {
      forall ticks: seq<Tick>, power: int
        | AllGroupTicks(ticks, ids, lethal) && HasRoom(ApplyTicks(s, ticks, power), power)
        ensures Undone(ApplyTicks(s, ticks, power), ids, power, lethal)
      {
        GroupIsACounter(s, ticks, ids, power, lethal);
        FilledHoldsNothingAfterPick(ApplyTicks(s, ticks, power), ids, lethal);
        MinusUndoesPlus(ApplyTicks(s, ticks, power), ids, power, lethal);
      }
    } else {
      var i, j :| 0 <= i < j < |members| && members[i] !in lethal && members[j] in lethal && lethal[members[j]] > 0;
      var power := AssignedTotal(s) + ShortBy(members, s.amounts, lethal) + 1;
      var ticks := PressUntilKnownDone(s, ids, lethal, power);
      var after := ApplyTicks(s, ticks, power);
      TicksNeverOverdraw(s, ticks, power);
      MembersByKeys(ids, s.amounts, after.amounts);
      UnknownFirstIsNotUndone(after, ids, lethal, power, i, j);
      assert HasRoom(after, power);
    }
  }

  /**
   Known members alone do not make a minus undo a plus: with a point given to the
   second member on its own card, the plus goes to the first and the minus to the second.
   */
  lemma LonePointIsTakenBack() returns (s: DamageShares, ticks: seq<Tick>, lethal: map<string, int>)
    ensures s == DamageShares(map["a" := 0, "b" := 0], 0)
    ensures var ids, after := ["a", "b"], ApplyTicks(s, ticks, 4);
            && ticks == [TickBlocker("b", Plus)] && KnownFirst(ids, lethal) && lethal.Keys == {"a", "b"}
            && HasRoom(after, 4) && !Undone(after, ids, 4, lethal)
            && var down := StepGroup(StepGroup(after, ids, Plus, 4, lethal), ids, Minus, 4, lethal);
               down.amounts == map["a" := 1, "b" := 0]
  {
    s, ticks, lethal := DamageShares(map["a" := 0, "b" := 0], 0), [TickBlocker("b", Plus)], map["a" := 2, "b" := 2];
    var after := DamageShares(map["a" := 0, "b" := 1], 0);
    SumOfTwo(0, 0);
    SumOfTwo(0, 1);
    assert ticks[..0] == [];
    assert ApplyTicks(s, ticks, 4) == after;
    var up := DamageShares(map["a" := 1, "b" := 1], 0);
    GroupOfTwo(after.amounts);
    GroupOfTwo(up.amounts);
    assert FirstShort(["a", "b"], after.amounts, lethal) == Some("a");
    assert StepGroup(after, ["a", "b"], Plus, 4, lethal) == up;
    assert LastWithAny(["a", "b"], up.amounts) == Some("b");
    assert StepGroup(up, ["a", "b"], Minus, 4, lethal).amounts == map["a" := 1, "b" := 0];
  }

  lemma SumOfTwo(x: int, y: int)
    ensures Sum(map["a" := x, "b" := y]) == x + y
  {
    var m := map["a" := x, "b" := y];
    SumLess(m, "a");
    SumLess(m - {"a"}, "b");
    assert m - {"a"} - {"b"} == map[];
  }

  lemma GroupOfTwo(amounts: map<string, int>)
    requires amounts.Keys == {"a", "b"}
    ensures MembersOf(["a", "b"], amounts) == ["a", "b"]
  {
    assert ["a", "b"][1..] == ["b"] && ["b"][1..] == [];
    assert MembersOf([], amounts) == [] && MembersOf(["b"], amounts) == ["b"];
  }
}
