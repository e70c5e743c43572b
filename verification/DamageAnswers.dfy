/**
 When a split may be sent, what it is sent as, and what the server's
 ResolveDamageAssignment does with it. The client decides on the lethal figures
 the prompt came with; the server decides on its own board.
 */
module DamageAnswers {
  import opened Sequences
  import opened Wrappers
  import opened Sums
  import opened DamageAssignment

  function IndexOf(ids: seq<string>, id: string): Option<nat> {
    if ids == [] then None
    else if ids[0] == id then Some(0)
    else
      var rest := IndexOf(ids[1..], id);
      if rest.Some? then Some(rest.value + 1) else None
  }

  function LethalOf(frame: DamageFrame, id: string): Option<int> {
    var i := IndexOf(frame.blockerIDs, id);
    if i.Some? && i.value < |frame.lethal| then Some(frame.lethal[i.value]) else None
  }

  function AmountOf(s: DamageShares, id: string): int {
    if id in s.amounts then s.amounts[id] else 0
  }

  predicate HasBlockerDamage(s: DamageShares) {
    exists id <- s.amounts :: s.amounts[id] > 0
  }

  predicate ShortOfLethal(frame: DamageFrame, s: DamageShares, id: string) {
    LethalOf(frame, id).Some? && AmountOf(s, id) < LethalOf(frame, id).value
  }

  function Keep(frame: DamageFrame, s: DamageShares, ids: seq<string>): seq<string> {
    if ids == [] then []
    else if ShortOfLethal(frame, s, ids[0]) then [ids[0]] + Keep(frame, s, ids[1..])
    else Keep(frame, s, ids[1..])
  }

  function TrampleShort(frame: DamageFrame, s: DamageShares): seq<string> {
    if s.trample <= 0 || (frame.asThoughUnblocked && !HasBlockerDamage(s)) then []
    else Keep(frame, s, frame.blockerIDs)
  }

  predicate UnblockedMixed(frame: DamageFrame, s: DamageShares) {
    frame.asThoughUnblocked && !frame.allowTrample && s.trample > 0 && HasBlockerDamage(s)
  }

  ghost predicate CanDealDamage(frame: DamageFrame, s: DamageShares) {
    || (frame.asThoughUnblocked && frame.blockerIDs == [] && AssignedTotal(s) == 0)
    || (AssignedTotal(s) == frame.attackerPower && TrampleShort(frame, s) == [] && !UnblockedMixed(frame, s))
  }

  function EntriesFor(ids: seq<string>, s: DamageShares): seq<Assignment> {
    seq(|ids|, i requires 0 <= i < |ids| => Assignment(ids[i], AmountOf(s, ids[i])))
  }

  function ToAnswer(frame: DamageFrame, s: DamageShares): DamageAnswer {
    DamageAnswer(EntriesFor(frame.blockerIDs, s), s.trample)
  }

  /** The answer sent unasked for a prompt that is the viewer's to answer, or none when it must be asked. */
  ghost function AutoAssignAnswer(frame: DamageFrame, enabled: bool): Option<DamageAnswer> {
    if !enabled || !frame.coversLethal || frame.suggested.None? || frame.asThoughUnblocked then None
    else if AssignedTotal(InitialOf(frame)) != frame.attackerPower then None
    else Some(ToAnswer(frame, InitialOf(frame)))
  }

  // ---- The server's side ----

  function AnswerTotal(assignments: seq<Assignment>): int {
    if assignments == [] then 0 else assignments[0].amount + AnswerTotal(assignments[1..])
  }

  function Named(assignments: seq<Assignment>): seq<string> {
    seq(|assignments|, i requires 0 <= i < |assignments| => assignments[i].blockerID)
  }

  predicate NeedsMet(needs: map<string, int>, entries: seq<Assignment>) {
    forall e <- entries :: e.blockerID in needs ==> needs[e.blockerID] <= e.amount
  }

  /** What each named blocker must be given before damage tramples over, on the server's own board. */
  predicate ServerTakes(frame: DamageFrame, needs: map<string, int>, answer: DamageAnswer) {
    var entries := answer.assignments;
    var asUnblocked := frame.asThoughUnblocked && answer.trampleToPlayer == frame.attackerPower
                       && forall e <- entries :: e.amount == 0;
    var total := answer.trampleToPlayer + AnswerTotal(entries);
    var declined := frame.asThoughUnblocked && frame.blockerIDs == [] && total == 0;
    && multiset(Named(entries)) == multiset(frame.blockerIDs)
    && (forall e <- entries :: e.amount >= 0)
    && answer.trampleToPlayer >= 0
    && (answer.trampleToPlayer > 0 ==> frame.allowTrample || asUnblocked)
    && (total == frame.attackerPower || declined)
    && (answer.trampleToPlayer > 0 && !asUnblocked ==> NeedsMet(needs, entries))
  }

  // ---- The split and its answer agree ----

  ghost predicate KeysAre(ids: seq<string>, s: DamageShares) {
    Distinct(ids) && forall id :: id in s.amounts <==> id in ids
  }

  ghost predicate Matches(frame: DamageFrame, s: DamageShares) {
    KeysAre(frame.blockerIDs, s)
  }

  lemma KeysOfTail(ids: seq<string>, s: DamageShares)
    requires ids != [] && KeysAre(ids, s)
    ensures KeysAre(ids[1..], s.(amounts := s.amounts - {ids[0]}))
    ensures EntriesFor(ids, s)[1..] == EntriesFor(ids[1..], s.(amounts := s.amounts - {ids[0]}))
  {
    forall id | id in ids && id != ids[0] ensures id in ids[1..] {
      var i :| 0 <= i < |ids| && ids[i] == id;
      assert ids[1..][i - 1] == id;
    }
  }

  lemma {:induction false} EntriesSum(ids: seq<string>, s: DamageShares)
    requires KeysAre(ids, s)
    ensures AnswerTotal(EntriesFor(ids, s)) == Sum(s.amounts)
  {
    if ids == [] {
      assert s.amounts == map[];
    } else {
      assert ids[0] in s.amounts;
      SumLess(s.amounts, ids[0]);
      KeysOfTail(ids, s);
      EntriesSum(ids[1..], s.(amounts := s.amounts - {ids[0]}));
    }
  }

  lemma AnswerTotalIsSum(frame: DamageFrame, s: DamageShares)
    requires Matches(frame, s)
    ensures AnswerTotal(ToAnswer(frame, s).assignments) == Sum(s.amounts)
  {
    EntriesSum(frame.blockerIDs, s);
  }

  /** A split that may be sent, with blockers left to divide among, is sent as amounts that sum to the attacker's power. */
  lemma SentSplitSumsToPower(frame: DamageFrame, s: DamageShares)
    requires Matches(frame, s) && frame.blockerIDs != [] && CanDealDamage(frame, s)
    ensures var answer := ToAnswer(frame, s);
            && answer.trampleToPlayer + AnswerTotal(answer.assignments) == frame.attackerPower
            && Named(answer.assignments) == frame.blockerIDs
            && forall i :: 0 <= i < |answer.assignments| ==>
                 answer.assignments[i].amount == s.amounts[frame.blockerIDs[i]]
  {
    AnswerTotalIsSum(frame, s);
    assert forall i :: 0 <= i < |frame.blockerIDs| ==> frame.blockerIDs[i] in s.amounts;
  }

  lemma {:induction false} IndexOfIs(ids: seq<string>, i: nat)
    requires Distinct(ids) && i < |ids|
    ensures IndexOf(ids, ids[i]) == Some(i)
  {
    if i > 0 {
      assert Distinct(ids[1..]);
      IndexOfIs(ids[1..], i - 1);
    }
  }

  lemma {:induction false} KeepIsEmptyIff(frame: DamageFrame, s: DamageShares, ids: seq<string>)
    ensures Keep(frame, s, ids) == [] <==> forall id <- ids :: !ShortOfLethal(frame, s, id)
  {
    if ids != [] { KeepIsEmptyIff(frame, s, ids[1..]); }
  }

  /**
   How the server's prompt and its later judgement are related: the prompt shows at
   least 1 for every blocker, while nothing is needed of one that has left or already
   carries lethal damage.
   */
  predicate FiguresHold(frame: DamageFrame, needs: map<string, int>) {
    && |frame.lethal| == |frame.blockerIDs|
    && forall i :: 0 <= i < |frame.lethal| ==>
         && frame.blockerIDs[i] in needs && needs[frame.blockerIDs[i]] >= 0
         && frame.lethal[i] == (if needs[frame.blockerIDs[i]] > 1 then needs[frame.blockerIDs[i]] else 1)
  }

  /** No blocker needs more than the prompt shows for it. */
  predicate FiguresCover(frame: DamageFrame, needs: map<string, int>) {
    && |frame.lethal| == |frame.blockerIDs|
    && forall i :: 0 <= i < |frame.lethal| ==>
         frame.blockerIDs[i] in needs && needs[frame.blockerIDs[i]] <= frame.lethal[i]
  }

  lemma EntriesOf(frame: DamageFrame, s: DamageShares)
    requires Matches(frame, s) && NonNegative(s)
    ensures var entries := ToAnswer(frame, s).assignments;
            && Named(entries) == frame.blockerIDs
            && (forall e <- entries :: e.blockerID in s.amounts && e.amount == s.amounts[e.blockerID] && e.amount >= 0)
            && ((forall e <- entries :: e.amount == 0) <==> !HasBlockerDamage(s))
  {
    var entries := ToAnswer(frame, s).assignments;
    assert forall i :: 0 <= i < |frame.blockerIDs| ==> frame.blockerIDs[i] in s.amounts;
    if forall e <- entries :: e.amount == 0 {
      forall id | id in s.amounts ensures s.amounts[id] <= 0 {
        var i :| 0 <= i < |frame.blockerIDs| && frame.blockerIDs[i] == id;
        assert entries[i] in entries;
      }
    }
  }

  /** A blocker nothing is needed of is given nothing. */
  predicate Spared(s: DamageShares, needs: map<string, int>) {
    exists id <- s.amounts :: id in needs && needs[id] == 0 && s.amounts[id] == 0
  }

  lemma ShortAt(frame: DamageFrame, s: DamageShares, needs: map<string, int>, i: nat)
    requires Matches(frame, s) && FiguresHold(frame, needs) && i < |frame.blockerIDs|
    ensures frame.blockerIDs[i] in s.amounts && frame.blockerIDs[i] in needs
    ensures var id := frame.blockerIDs[i];
            ShortOfLethal(frame, s, id) <==> s.amounts[id] < needs[id] || (needs[id] == 0 && s.amounts[id] <= 0)
  {
    assert frame.blockerIDs[i] in frame.blockerIDs;
    IndexOfIs(frame.blockerIDs, i);
  }

  /** The sheet sees no blocker short exactly when every need is met and no blocker that needs nothing is given nothing. */
  lemma NoneShortIff(frame: DamageFrame, s: DamageShares, needs: map<string, int>)
    requires Matches(frame, s) && NonNegative(s) && FiguresHold(frame, needs)
    ensures Keep(frame, s, frame.blockerIDs) == []
       <==> NeedsMet(needs, ToAnswer(frame, s).assignments) && !Spared(s, needs)
  {
    var ids, entries := frame.blockerIDs, ToAnswer(frame, s).assignments;
    KeepIsEmptyIff(frame, s, ids);
    forall i | 0 <= i < |ids| ensures ids[i] in s.amounts && ids[i] in needs && entries[i] == Assignment(ids[i], s.amounts[ids[i]])
      ensures ShortOfLethal(frame, s, ids[i]) <==> s.amounts[ids[i]] < needs[ids[i]] || (needs[ids[i]] == 0 && s.amounts[ids[i]] <= 0)
    {
      ShortAt(frame, s, needs, i);
    }
    if Keep(frame, s, ids) == [] {
      forall id | id in s.amounts ensures !(id in needs && needs[id] == 0 && s.amounts[id] == 0) {
        var i :| 0 <= i < |ids| && ids[i] == id;
      }
    } else if NeedsMet(needs, entries) {
      var id :| id in ids && ShortOfLethal(frame, s, id);
      var i :| 0 <= i < |ids| && ids[i] == id;
      assert entries[i] in entries;
    }
  }

  lemma NoDamageNoSum(s: DamageShares)
    requires NonNegative(s) && !HasBlockerDamage(s)
    ensures Sum(s.amounts) == 0
  {
    SumZero(s.amounts);
  }

  /** Damage goes over that is not the whole power "as though it weren't blocked". */
  predicate GoesOver(frame: DamageFrame, s: DamageShares) {
    s.trample > 0 && !(frame.asThoughUnblocked && !HasBlockerDamage(s))
  }

  /** The bucket is used only where there is trample, or "as though it weren't blocked". */
  predicate BucketAllowed(frame: DamageFrame, s: DamageShares) {
    s.trample > 0 ==> frame.allowTrample || frame.asThoughUnblocked
  }

  /**
   What the sheet offers against what the server takes, on the server's own figures:
   "Deal damage" is offered exactly for the splits the server takes, less those that
   send damage over while a blocker that needs nothing is given nothing.
   */
  lemma OfferedIffTaken(frame: DamageFrame, s: DamageShares, needs: map<string, int>)
    requires Matches(frame, s) && NonNegative(s) && FiguresHold(frame, needs) && BucketAllowed(frame, s)
    ensures CanDealDamage(frame, s)
       <==> ServerTakes(frame, needs, ToAnswer(frame, s)) && !(GoesOver(frame, s) && Spared(s, needs))
  {
    EntriesOf(frame, s);
    AnswerTotalIsSum(frame, s);
    NoneShortIff(frame, s, needs);
    SumNonNegative(s.amounts);
    if !HasBlockerDamage(s) { NoDamageNoSum(s); }
  }

  /** Whatever is offered is taken; the sheet only ever errs by holding back. */
  lemma OfferedIsTaken(frame: DamageFrame, s: DamageShares, needs: map<string, int>)
    requires Matches(frame, s) && NonNegative(s) && FiguresHold(frame, needs) && BucketAllowed(frame, s)
    requires CanDealDamage(frame, s)
    ensures ServerTakes(frame, needs, ToAnswer(frame, s))
  {
    OfferedIffTaken(frame, s, needs);
  }

  /** A trampler of power 3 whose one blocker has left: the server would take 3 over, and the sheet holds it back for 1 on the blocker. */
  lemma SheetHoldsBack() returns (frame: DamageFrame, s: DamageShares, needs: map<string, int>)
    ensures frame == DamageFrame(["b"], 3, true, false, [1], true, None) && s == DamageShares(map["b" := 0], 3) && needs == map["b" := 0]
    ensures Matches(frame, s) && FiguresHold(frame, needs)
    ensures ServerTakes(frame, needs, ToAnswer(frame, s)) && !CanDealDamage(frame, s)
  {
    frame, s, needs := DamageFrame(["b"], 3, true, false, [1], true, None), DamageShares(map["b" := 0], 3), map["b" := 0];
    EntriesOf(frame, s);
    AnswerTotalIsSum(frame, s);
    SumZero(s.amounts);
    assert s.amounts["b"] == 0 && Spared(s, needs);
    OfferedIffTaken(frame, s, needs);
  }

  /** The permission is the server's to check: without it the sheet's own test offers a filled bucket as any other, and the server refuses it. */
  lemma BucketNeedsPermission(frame: DamageFrame, s: DamageShares, needs: map<string, int>)
    requires Matches(frame, s) && NonNegative(s) && FiguresHold(frame, needs) && !BucketAllowed(frame, s)
    ensures !ServerTakes(frame, needs, ToAnswer(frame, s))
    ensures CanDealDamage(frame, s) <==> CanDealDamage(frame.(allowTrample := true), s)
    ensures CanDealDamage(frame, s) <==>
              && AssignedTotal(s) == frame.attackerPower
              && NeedsMet(needs, ToAnswer(frame, s).assignments) && !Spared(s, needs)
  {
    var allowed := frame.(allowTrample := true);
    NoneShortIff(frame, s, needs);
    NoneShortIff(allowed, s, needs);
    assert ToAnswer(allowed, s) == ToAnswer(frame, s);
  }

  /** "As though it weren't blocked": nothing on any blocker, the whole power on what is attacked. */
  function AssignAllToPlayer(frame: DamageFrame): DamageShares {
    DamageShares(map id <- frame.blockerIDs :: 0, frame.attackerPower)
  }

  /** That answer is always offered and always taken, whatever the blockers need. */
  lemma AllToPlayerIsTaken(frame: DamageFrame, needs: map<string, int>)
    requires frame.asThoughUnblocked && frame.attackerPower >= 0 && Distinct(frame.blockerIDs)
    ensures CanDealDamage(frame, AssignAllToPlayer(frame))
    ensures ServerTakes(frame, needs, ToAnswer(frame, AssignAllToPlayer(frame)))
  {
    var s := AssignAllToPlayer(frame);
    SumZero(s.amounts);
    EntriesOf(frame, s);
    AnswerTotalIsSum(frame, s);
  }

  // ---- Auto-assign ----

  function LethalTotal(lethal: seq<int>): int {
    if lethal == [] then 0 else lethal[0] + LethalTotal(lethal[1..])
  }

  /** The server's suggestion when the power covers lethal for all: lethal each, the rest over or on the last. */
  function CoveringAmount(frame: DamageFrame, over: bool, i: nat): int
    requires i < |frame.lethal|
  {
    frame.lethal[i] + (if !over && i == |frame.lethal| - 1 then frame.attackerPower - LethalTotal(frame.lethal) else 0)
  }

  function CoveringSplit(frame: DamageFrame, over: bool): Suggested
    requires |frame.lethal| == |frame.blockerIDs|
  {
    Suggested(seq(|frame.blockerIDs|, i requires 0 <= i < |frame.blockerIDs| =>
                Assignment(frame.blockerIDs[i], CoveringAmount(frame, over, i))),
              if over then frame.attackerPower - LethalTotal(frame.lethal) else 0)
  }

  lemma {:induction false} LastSuggestedIs(assignments: seq<Assignment>, i: nat)
    requires i < |assignments| && Distinct(Named(assignments)) && assignments[i].amount >= 0
    ensures LastSuggested(assignments, assignments[i].blockerID) == assignments[i].amount
  {
    var n := |assignments|;
    if i < n - 1 {
      assert Named(assignments)[i] != Named(assignments)[n - 1];
      assert Named(assignments[..n - 1]) == Named(assignments)[..n - 1];
      LastSuggestedIs(assignments[..n - 1], i);
    }
  }

  lemma {:induction false} CoveringTotal(entries: seq<Assignment>, lethal: seq<int>, rest: int)
    requires |entries| == |lethal| > 0
    requires forall i :: 0 <= i < |lethal| ==> entries[i].amount == lethal[i] + (if i == |lethal| - 1 then rest else 0)
    ensures AnswerTotal(entries) == LethalTotal(lethal) + rest
  {
    if |lethal| > 1 {
      CoveringTotal(entries[1..], lethal[1..], rest);
    } else {
      assert entries[1..] == [] && lethal[1..] == [];
    }
  }

  lemma SuggestedIsSent(frame: DamageFrame, over: bool)
    requires Distinct(frame.blockerIDs) && |frame.lethal| == |frame.blockerIDs| && (over ==> frame.allowTrample)
    requires forall i :: 0 <= i < |frame.lethal| ==> 0 <= frame.lethal[i]
    requires LethalTotal(frame.lethal) <= frame.attackerPower
    requires frame.suggested == Some(CoveringSplit(frame, over))
    ensures var s, sent := InitialOf(frame), CoveringSplit(frame, over);
            ToAnswer(frame, s) == DamageAnswer(sent.assignments, sent.trampleToPlayer)
  {
    var s, sent := InitialOf(frame), CoveringSplit(frame, over);
    assert Named(sent.assignments) == frame.blockerIDs;
    forall i | 0 <= i < |frame.blockerIDs| ensures AmountOf(s, frame.blockerIDs[i]) == sent.assignments[i].amount {
      LastSuggestedIs(sent.assignments, i);
    }
    assert ToAnswer(frame, s).assignments == sent.assignments;
  }

  lemma CoveringIsTaken(frame: DamageFrame, needs: map<string, int>, over: bool)
    requires frame.blockerIDs != [] && FiguresCover(frame, needs) && (over ==> frame.allowTrample)
    requires forall i :: 0 <= i < |frame.lethal| ==> 0 <= frame.lethal[i]
    requires LethalTotal(frame.lethal) <= frame.attackerPower
    ensures var sent := CoveringSplit(frame, over);
            && ServerTakes(frame, needs, DamageAnswer(sent.assignments, sent.trampleToPlayer))
            && sent.trampleToPlayer + AnswerTotal(sent.assignments) == frame.attackerPower
  {
    var sent := CoveringSplit(frame, over);
    forall e | e in sent.assignments ensures over ==> e.blockerID in needs && needs[e.blockerID] <= e.amount {
      var i :| 0 <= i < |sent.assignments| && sent.assignments[i] == e;
    }
    CoveringTotal(sent.assignments, frame.lethal, if over then 0 else frame.attackerPower - LethalTotal(frame.lethal));
    assert Named(sent.assignments) == frame.blockerIDs;
  }

  /**
   A prompt the client answers by itself gets the suggested split, and the server takes it.
   `over` is whether the leftover tramples over, as the server's canonical split decides it.
   */
  lemma AutoAssignIsTaken(frame: DamageFrame, needs: map<string, int>, over: bool)
    requires Distinct(frame.blockerIDs) && frame.blockerIDs != [] && FiguresCover(frame, needs)
    requires frame.coversLethal && !frame.asThoughUnblocked && (over ==> frame.allowTrample)
    requires forall i :: 0 <= i < |frame.lethal| ==> 0 <= frame.lethal[i]
    requires LethalTotal(frame.lethal) <= frame.attackerPower
    requires frame.suggested == Some(CoveringSplit(frame, over))
    ensures var answer := AutoAssignAnswer(frame, true);
            && answer == Some(DamageAnswer(CoveringSplit(frame, over).assignments, CoveringSplit(frame, over).trampleToPlayer))
            && ServerTakes(frame, needs, answer.value)
  {
    SuggestedIsSent(frame, over);
    AnswerTotalIsSum(frame, InitialOf(frame));
    CoveringIsTaken(frame, needs, over);
  }

  /**
   A prompt is answered unasked exactly when that is switched on, the suggestion covers every
   blocker and spends the whole power, and "as though it weren't blocked" is not on offer;
   and then with the split the prompt would have opened on.
   */
  lemma AnswersUnaskedIff(frame: DamageFrame, enabled: bool)
    ensures AutoAssignAnswer(frame, enabled).Some? <==>
              && enabled && frame.coversLethal && frame.suggested.Some? && !frame.asThoughUnblocked
              && AssignedTotal(InitialOf(frame)) == frame.attackerPower
    ensures AutoAssignAnswer(frame, enabled).Some? ==>
              var answer := AutoAssignAnswer(frame, enabled).value;
              && |answer.assignments| == |frame.blockerIDs|
              && (forall i :: 0 <= i < |frame.blockerIDs| ==>
                    && answer.assignments[i].blockerID == frame.blockerIDs[i]
                    && frame.blockerIDs[i] in InitialOf(frame).amounts
                    && answer.assignments[i].amount == InitialOf(frame).amounts[frame.blockerIDs[i]])
              && answer.trampleToPlayer == InitialOf(frame).trample
  {
    OpensOnTheSuggestion(frame);
  }
}
