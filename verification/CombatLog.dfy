/**
 The part of the public game log that the combat cues read: `step` entries,
 `damage` entries with their combat tag, `block` entries, and the deaths and
 eliminations that follow damage.
 */
module CombatLog {
  import opened Wrappers

  /** Which of a combat's two damage moments an entry belongs to. */
  datatype BeatTag = FirstStrike | Regular

  /** The step names the combat code distinguishes. */
  datatype StepName =
    | BeginCombat
    | DeclareAttackers
    | DeclareBlockers
    | FirstStrikeDamage
    | CombatDamage
    | EndCombat
    | OtherStep(name: string)

  datatype Kind =
    | Step(step: StepName)
    | Damage(combat: bool, combatStep: Option<BeatTag>)
    | Block
    | Zone(oldZone: string)
    | Eliminated(cause: string)
    | Other

  /** `cardId` and `target` are "" when the wire omits them; the code tests both for being non-empty. */
  datatype LogEvent = LogEvent(
    seqNo: nat,
    turn: nat,
    seat: int,
    kind: Kind,
    cardId: string,
    target: string,
    targetSeat: Option<nat>)

  /** Entries are appended in sequence-number order, counted from 1. */
  ghost predicate Ordered(log: seq<LogEvent>) {
    && (forall i :: 0 <= i < |log| ==> 0 < log[i].seqNo)
    && (forall i, j :: 0 <= i < j < |log| ==> log[i].seqNo < log[j].seqNo)
  }

  /** The highest sequence number in a log, 0 for an empty one. */
  function Top(log: seq<LogEvent>): nat {
    if log == [] then 0
    else
      var rest := Top(log[..|log| - 1]);
      var last := log[|log| - 1].seqNo;
      if last > rest then last else rest
  }

  /** An ordered log's highest sequence number is its last entry's. */
  lemma {:induction false} TopIsLast(log: seq<LogEvent>)
    requires Ordered(log)
    ensures log == [] ==> Top(log) == 0
    ensures log != [] ==> Top(log) == log[|log| - 1].seqNo
  {
    if log != [] {
      TopIsLast(log[..|log| - 1]);
    }
  }

  /** A shorter prefix of an ordered log has a strictly lower highest sequence number. */
  lemma TopOfPrefix(a: seq<LogEvent>, b: seq<LogEvent>)
    requires Ordered(b) && a <= b
    ensures Ordered(a)
    ensures |a| < |b| ==> Top(a) < Top(b)
    ensures forall i :: 0 <= i < |b| ==> (i < |a| <==> b[i].seqNo <= Top(a))
  {
    assert forall i :: 0 <= i < |a| ==> a[i] == b[i];
    assert Ordered(a);
    TopIsLast(a);
    TopIsLast(b);
  }

  method HighestSeq(log: seq<LogEvent>) returns (top: nat)
    ensures top == Top(log)
    ensures forall e <- log :: e.seqNo <= top
    ensures top == 0 || exists e <- log :: e.seqNo == top
  {
    top := 0;
    for i := 0 to |log|
      invariant top == Top(log[..i])
      invariant forall j :: 0 <= j < i ==> log[j].seqNo <= top
      invariant top == 0 || exists j :: 0 <= j < i && log[j].seqNo == top
    {
      assert log[..i + 1][..i] == log[..i];
      if log[i].seqNo > top {
        top := log[i].seqNo;
      }
    }
    assert log[..|log|] == log;
  }
}
