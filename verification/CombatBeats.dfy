/**
 The combat beats of one frame: which log entries are new, how the new ones
 group into beats, and what the tracker remembers of the beats it cued.

 The grouping is specified per entry: a combat damage entry's key is the step
 that keys its combat together with its tag, read from the log alone. The
 loops of the source are methods proved against that.
 */
module CombatBeats {
  import opened Wrappers
  import opened CombatLog
  import opened CombatArrows

  const CUED_STEPS_KEPT := 8

  /** Per damage step, each beat already cued and the number of the entry that first cued it. */
  type Cued = map<nat, map<BeatTag, nat>>

  datatype BeatTracker = BeatTracker(primed: bool, maxSeq: nat, cued: Cued)

  const EMPTY_TRACKER := BeatTracker(false, 0, map[])

  datatype TrackResult = TrackResult(tracker: BeatTracker, added: seq<LogEvent>, primed: bool, rewound: bool)

  // ---- Tracking: which entries are new ----

  function Above(log: seq<LogEvent>, lo: nat): seq<LogEvent> {
    if log == [] then []
    else
      var rest := Above(log[..|log| - 1], lo);
      if log[|log| - 1].seqNo > lo then rest + [log[|log| - 1]] else rest
  }

  function KeptBeats(beats: map<BeatTag, nat>, top: nat): map<BeatTag, nat> {
    map t | t in beats && beats[t] <= top :: beats[t]
  }

  /** What survives a rewind to `top`: the beats whose first cued entry is still in the log. */
  function KeptCued(cued: Cued, top: nat): Cued {
    map s | s in cued && s <= top && KeptBeats(cued[s], top) != map[] :: KeptBeats(cued[s], top)
  }

  function TrackOf(prev: BeatTracker, log: seq<LogEvent>, reprime: bool): TrackResult {
    var top := Top(log);
    if !prev.primed || reprime then
      TrackResult(BeatTracker(true, top, map[]), [], true, false)
    else if top < prev.maxSeq then
      TrackResult(BeatTracker(true, top, KeptCued(prev.cued, top)), [], false, true)
    else
      TrackResult(BeatTracker(true, top, prev.cued), Above(log, prev.maxSeq), false, false)
  }

  method Track(prev: BeatTracker, log: seq<LogEvent>, reprime: bool) returns (r: TrackResult)
    ensures r == TrackOf(prev, log, reprime)
  {
    var top := HighestSeq(log);
    if !prev.primed || reprime {
      return TrackResult(BeatTracker(true, top, map[]), [], true, false);
    }
    if top < prev.maxSeq {
      var cued: Cued := map[];
      var rest := prev.cued.Keys;
      while rest != {}
        invariant rest <= prev.cued.Keys
        invariant cued == map s | s in KeptCued(prev.cued, top) && s !in rest :: KeptCued(prev.cued, top)[s]
      {
        var stepSeq :| stepSeq in rest;
        rest := rest - {stepSeq};
        if stepSeq > top {
          continue;
        }
        var kept := KeptBeats(prev.cued[stepSeq], top);
        if |kept| > 0 {
          cued := cued[stepSeq := kept];
        }
      }
      return TrackResult(BeatTracker(true, top, cued), [], false, true);
    }
    var added := [];
    for i := 0 to |log|
      invariant added == Above(log[..i], prev.maxSeq)
    {
      assert log[..i + 1][..i] == log[..i];
      if log[i].seqNo > prev.maxSeq {
        added := added + [log[i]];
      }
    }
    assert log[..|log|] == log;
    return TrackResult(BeatTracker(true, top, prev.cued), added, false, false);
  }

  // ---- Beats: grouping new entries ----

  /** A beat is keyed by its combat's first damage step and its tag. */
  datatype BeatKey = BeatKey(stepSeq: nat, tag: BeatTag)

  datatype Beat = Beat(
    labelled: bool,
    key: BeatKey,
    entries: seq<LogEvent>,
    damage: seq<LogEvent>,
    arrows: seq<ArrowRef>,
    continuation: bool,
    pauseBefore: bool)

  datatype Join = Join(tag: BeatTag, labelled: bool)

  /** The beat a combat damage entry joins; untagged combat damage joins an unlabelled regular one. */
  function CombatBeatOf(e: LogEvent): Option<Join> {
    if !e.kind.Damage? || !e.kind.combat then None
    else match e.kind.combatStep
      case None => Some(Join(Regular, false))
      case Some(tag) => Some(Join(tag, true))
  }

  /** The damage step that keys the combat the first `n` entries leave in progress. */
  function Context(log: seq<LogEvent>, n: nat): Option<nat>
    requires n <= |log|
  {
    if n == 0 then None
    else
      var e := log[n - 1];
      if !e.kind.Step? then Context(log, n - 1)
      else match e.kind.step
        case FirstStrikeDamage => Some(e.seqNo)
        case CombatDamage => if Context(log, n - 1).Some? then Context(log, n - 1) else Some(e.seqNo)
        case _ => None
  }

  /** The beat key of the entry at index `i`: combat damage inside a combat damage step has one. */
  function KeyAt(log: seq<LogEvent>, i: nat): Option<BeatKey>
    requires i < |log|
  {
    var joins := CombatBeatOf(log[i]);
    if joins.Some? && Context(log, i).Some? then Some(BeatKey(Context(log, i).value, joins.value.tag)) else None
  }

  /** The entries among the first `n` and in `F` that carry key `k`, in log order. */
  function DamageIn(log: seq<LogEvent>, n: nat, F: set<nat>, k: BeatKey): seq<LogEvent>
    requires n <= |log|
  {
    if n == 0 then []
    else if log[n - 1].seqNo in F && KeyAt(log, n - 1) == Some(k) then DamageIn(log, n - 1, F, k) + [log[n - 1]]
    else DamageIn(log, n - 1, F, k)
  }

  /** The key of the nearest new damage entry since the last step entry. */
  function Current(log: seq<LogEvent>, n: nat, F: set<nat>): Option<BeatKey>
    requires n <= |log|
  {
    if n == 0 || log[n - 1].kind.Step? then None
    else if log[n - 1].seqNo in F && KeyAt(log, n - 1).Some? then KeyAt(log, n - 1)
    else Current(log, n - 1, F)
  }

  /** Every new member of beat `k`: its damage, and the new entries that follow it. */
  function MembersIn(log: seq<LogEvent>, n: nat, F: set<nat>, k: BeatKey): seq<LogEvent>
    requires n <= |log|
  {
    if n == 0 then []
    else if !log[n - 1].kind.Step? && log[n - 1].seqNo in F && Context(log, n - 1).Some? && Current(log, n, F) == Some(k)
    then MembersIn(log, n - 1, F, k) + [log[n - 1]]
    else MembersIn(log, n - 1, F, k)
  }

  /** The keys of the new damage entries, in order of first appearance. */
  function KeysIn(log: seq<LogEvent>, n: nat, F: set<nat>): seq<BeatKey>
    requires n <= |log|
  {
    if n == 0 then []
    else
      var keys := KeysIn(log, n - 1, F);
      if log[n - 1].seqNo in F && KeyAt(log, n - 1).Some? && KeyAt(log, n - 1).value !in keys
      then keys + [KeyAt(log, n - 1).value]
      else keys
  }

  function Lookup(cued: Cued, k: BeatKey): Option<nat> {
    if k.stepSeq in cued && k.tag in cued[k.stepSeq] then Some(cued[k.stepSeq][k.tag]) else None
  }

  /** Beat `k` after the first pass over the first `n` entries. */
  function RawBeat(cued: Cued, log: seq<LogEvent>, n: nat, F: set<nat>, k: BeatKey): Beat
    requires n <= |log|
  {
    var damage := DamageIn(log, n, F, k);
    var labelled := damage != [] && CombatBeatOf(damage[0]).Some? && CombatBeatOf(damage[0]).value.labelled;
    Beat(labelled, k, MembersIn(log, n, F, k), damage, [], Lookup(cued, k).Some?, false)
  }

  /** A new regular beat waits when a first-strike beat of its combat began before it in the same frame. */
  predicate Pauses(cued: Cued, log: seq<LogEvent>, F: set<nat>, k: BeatKey) {
    var first := DamageIn(log, |log|, F, BeatKey(k.stepSeq, FirstStrike));
    var own := DamageIn(log, |log|, F, k);
    k.tag.Regular? && Lookup(cued, k).None? && first != [] && own != [] && first[0].seqNo < own[0].seqNo
  }

  function BeatOf(cued: Cued, log: seq<LogEvent>, F: set<nat>, k: BeatKey): Beat {
    var raw := RawBeat(cued, log, |log|, F, k);
    raw.(arrows := ArrowRefs(log, raw.damage), pauseBefore := Pauses(cued, log, F, k))
  }

  function BeatsOf(cued: Cued, log: seq<LogEvent>, F: set<nat>): seq<Beat> {
    var keys := KeysIn(log, |log|, F);
    seq(|keys|, i requires 0 <= i < |keys| => BeatOf(cued, log, F, keys[i]))
  }

  /** A new beat is recorded with its first damage entry; a continuation already is. */
  function RecordOne(cued: Cued, b: Beat): Cued {
    if b.continuation || b.damage == [] then cued
    else
      var m := if b.key.stepSeq in cued then cued[b.key.stepSeq] else map[];
      cued[b.key.stepSeq := m[b.key.tag := b.damage[0].seqNo]]
  }

  /** What the tracker holds once the frame's beats are recorded. */
  function Record(cued: Cued, beats: seq<Beat>): Cued {
    if beats == [] then cued else RecordOne(Record(cued, beats[..|beats| - 1]), beats[|beats| - 1])
  }

  lemma {:induction false} MinKeyExists(keys: set<nat>) returns (k: nat)
    requires keys != {}
    ensures k in keys && forall j <- keys :: k <= j
  {
    var first :| first in keys;
    k := first;
    if keys != {first} {
      var other := MinKeyExists(keys - {first});
      k := if other < first then other else first;
      assert forall j <- keys :: j == first || j in keys - {first};
    }
  }

  ghost function MinKey(keys: set<nat>): (k: nat)
    requires keys != {}
    ensures k in keys && forall j <- keys :: k <= j
  {
    assert exists k :: k in keys && forall j <- keys :: k <= j by {
      var k := MinKeyExists(keys);
    }
    var k :| k in keys && forall j <- keys :: k <= j;
    k
  }

  /** The tracker forgets the oldest steps until at most eight are left. */
  ghost function Prune(m: Cued): Cued
    decreases |m|
  {
    if |m| <= CUED_STEPS_KEPT then m else Prune(m - {MinKey(m.Keys)})
  }

  ghost function SplitTracker(prev: BeatTracker, beats: seq<Beat>): BeatTracker {
    if beats == [] then prev else prev.(cued := Prune(Record(prev.cued, beats)))
  }

  function SeqNos(added: seq<LogEvent>): set<nat> {
    set e <- added :: e.seqNo
  }

  // ---- The loops of splitBeats ----

  lemma {:induction false} KeysInFacts(log: seq<LogEvent>, n: nat, F: set<nat>)
    requires n <= |log|
    ensures forall i, j :: 0 <= i < j < |KeysIn(log, n, F)| ==> KeysIn(log, n, F)[i] != KeysIn(log, n, F)[j]
    ensures forall k :: k in KeysIn(log, n, F) <==> DamageIn(log, n, F, k) != []
    ensures Current(log, n, F).Some? ==> Current(log, n, F).value in KeysIn(log, n, F)
  {
    if n > 0 {
      KeysInFacts(log, n - 1, F);
      var keys := KeysIn(log, n, F);
      assert forall k :: k in keys <==>
        (k in KeysIn(log, n - 1, F) || (log[n - 1].seqNo in F && KeyAt(log, n - 1) == Some(k)));
    }
  }

  /** What the entry at index `n` does to a beat. */
  function Stepped(b: Beat, log: seq<LogEvent>, n: nat, F: set<nat>): Beat
    requires n < |log|
  {
    var e := log[n];
    if e.kind.Step? || e.seqNo !in F || Context(log, n).None? then b
    else if CombatBeatOf(e).None? then
      if Current(log, n, F) == Some(b.key) then b.(entries := b.entries + [e]) else b
    else if KeyAt(log, n) == Some(b.key) then
      b.(labelled := if b.damage == [] then CombatBeatOf(e).value.labelled else b.labelled,
         entries := b.entries + [e],
         damage := b.damage + [e])
    else b
  }

  function Grouped(cued: Cued, log: seq<LogEvent>, n: nat, F: set<nat>): seq<Beat>
    requires n <= |log|
  {
    var keys := KeysIn(log, n, F);
    seq(|keys|, i requires 0 <= i < |keys| => RawBeat(cued, log, n, F, keys[i]))
  }

  lemma GroupedStep(cued: Cued, log: seq<LogEvent>, n: nat, F: set<nat>)
    requires n < |log|
    ensures var before, after := Grouped(cued, log, n, F), Grouped(cued, log, n + 1, F);
            && |before| <= |after| <= |before| + 1
            && (forall i :: 0 <= i < |before| ==> after[i] == Stepped(before[i], log, n, F))
            && (|after| > |before| ==>
                  && KeyAt(log, n).Some?
                  && after[|before|] == Stepped(RawBeat(cued, log, n, F, KeyAt(log, n).value), log, n, F))
  {
  }

  /** A beat with no members yet, as the loop creates it. */
  function NewBeat(cued: Cued, k: BeatKey, labelled: bool): Beat {
    Beat(labelled, k, [], [], [], Lookup(cued, k).Some?, false)
  }

  lemma {:induction false} NoDamageNoMembers(log: seq<LogEvent>, n: nat, F: set<nat>, k: BeatKey)
    requires n <= |log| && DamageIn(log, n, F, k) == []
    ensures MembersIn(log, n, F, k) == [] && Current(log, n, F) != Some(k)
  {
    if n > 0 {
      NoDamageNoMembers(log, n - 1, F, k);
    }
  }

  /** An entry that joins no beat leaves the beats alone. */
  lemma QuietStep(cued: Cued, log: seq<LogEvent>, n: nat, F: set<nat>)
    requires n < |log|
    requires || log[n].kind.Step? || log[n].seqNo !in F || Context(log, n).None?
             || (CombatBeatOf(log[n]).None? && Current(log, n, F).None?)
    ensures KeysIn(log, n + 1, F) == KeysIn(log, n, F)
    ensures Grouped(cued, log, n + 1, F) == Grouped(cued, log, n, F)
  {
    GroupedStep(cued, log, n, F);
  }

  /** A follower joins the current beat. */
  lemma FollowStep(cued: Cued, log: seq<LogEvent>, n: nat, F: set<nat>, i: nat)
    requires n < |log| && i < |KeysIn(log, n, F)|
    requires !log[n].kind.Step? && log[n].seqNo in F && Context(log, n).Some? && CombatBeatOf(log[n]).None?
    requires Current(log, n, F) == Some(KeysIn(log, n, F)[i])
    ensures KeysIn(log, n + 1, F) == KeysIn(log, n, F)
    ensures var before := Grouped(cued, log, n, F);
            Grouped(cued, log, n + 1, F) == before[i := before[i].(entries := before[i].entries + [log[n]])]
  {
    KeysInFacts(log, n, F);
    GroupedStep(cued, log, n, F);
  }

  /** A damage entry joins the beat of its key. */
  lemma JoinStep(cued: Cued, log: seq<LogEvent>, n: nat, F: set<nat>, i: nat)
    requires n < |log| && i < |KeysIn(log, n, F)|
    requires log[n].seqNo in F && KeyAt(log, n) == Some(KeysIn(log, n, F)[i])
    ensures KeysIn(log, n + 1, F) == KeysIn(log, n, F)
    ensures var before := Grouped(cued, log, n, F);
            Grouped(cued, log, n + 1, F)
            == before[i := before[i].(entries := before[i].entries + [log[n]], damage := before[i].damage + [log[n]])]
  {
    KeysInFacts(log, n, F);
    GroupedStep(cued, log, n, F);
  }

  /** A damage entry whose key is new opens a beat. */
  lemma OpenStep(cued: Cued, log: seq<LogEvent>, n: nat, F: set<nat>)
    requires n < |log| && log[n].seqNo in F && KeyAt(log, n).Some? && KeyAt(log, n).value !in KeysIn(log, n, F)
    ensures KeysIn(log, n + 1, F) == KeysIn(log, n, F) + [KeyAt(log, n).value]
    ensures Grouped(cued, log, n + 1, F)
         == Grouped(cued, log, n, F)
            + [NewBeat(cued, KeyAt(log, n).value, CombatBeatOf(log[n]).value.labelled).(entries := [log[n]], damage := [log[n]])]
  {
    KeysInFacts(log, n, F);
    var k := KeyAt(log, n).value;
    NoDamageNoMembers(log, n, F, k);
    GroupedStep(cued, log, n, F);
    assert RawBeat(cued, log, n, F, k) == NewBeat(cued, k, false);
    assert [] + [log[n]] == [log[n]];
    assert forall i :: 0 <= i < |KeysIn(log, n, F)| ==> Grouped(cued, log, n, F)[i].key != k;
  }

  ghost predicate Indexes(byKey: map<BeatKey, nat>, keys: seq<BeatKey>) {
    && (forall k :: k in byKey <==> k in keys)
    && (forall k <- byKey :: byKey[k] < |keys| && keys[byKey[k]] == k)
  }

  /** The first pass: grouping. */
  method GroupBeats(prev: BeatTracker, log: seq<LogEvent>, F: set<nat>)
      returns (beats: seq<Beat>, byKey: map<BeatKey, nat>)
    ensures beats == Grouped(prev.cued, log, |log|, F)
    ensures Indexes(byKey, KeysIn(log, |log|, F))
  {
    beats, byKey := [], map[];
    var damageStepSeq: Option<nat> := None;
    var current: Option<nat> := None;
    for n := 0 to |log|
      invariant damageStepSeq == Context(log, n)
      invariant beats == Grouped(prev.cued, log, n, F)
      invariant Indexes(byKey, KeysIn(log, n, F))
      invariant current.Some? == Current(log, n, F).Some?
      invariant current.Some? ==> current.value < |beats| && beats[current.value].key == Current(log, n, F).value
    {
      var e := log[n];
      if e.kind.Step? {
        QuietStep(prev.cued, log, n, F);
        match e.kind.step {
          case FirstStrikeDamage => damageStepSeq := Some(e.seqNo);
          case CombatDamage => damageStepSeq := if damageStepSeq.Some? then damageStepSeq else Some(e.seqNo);
          case _ => damageStepSeq := None;
        }
        current := None;
        continue;
      }
      if e.seqNo !in F || damageStepSeq.None? {
        QuietStep(prev.cued, log, n, F);
        continue;
      }
      var joins := CombatBeatOf(e);
      if joins.None? {
        if current.Some? {
          var i := current.value;
          FollowStep(prev.cued, log, n, F, i);
          beats := beats[i := beats[i].(entries := beats[i].entries + [e])];
        } else {
          QuietStep(prev.cued, log, n, F);
        }
        continue;
      }
      var key := BeatKey(damageStepSeq.value, joins.value.tag);
      if key !in byKey {
        OpenStep(prev.cued, log, n, F);
        byKey := byKey[key := |beats|];
        beats := beats + [NewBeat(prev.cued, key, joins.value.labelled)];
      } else {
        JoinStep(prev.cued, log, n, F, byKey[key]);
      }
      var i := byKey[key];
      beats := beats[i := beats[i].(entries := beats[i].entries + [e], damage := beats[i].damage + [e])];
      current := Some(i);
    }
  }

  lemma {:induction false} NoNewKeys(log: seq<LogEvent>, n: nat)
    requires n <= |log|
    ensures KeysIn(log, n, {}) == []
  {
    if n > 0 {
      NoNewKeys(log, n - 1);
    }
  }

  method OldestStep(cued: Cued) returns (k: nat)
    requires cued != map[]
    ensures k == MinKey(cued.Keys)
  {
    var rest := cued.Keys;
    k :| k in rest;
    rest := rest - {k};
    while rest != {}
      invariant rest <= cued.Keys && k in cued.Keys
      invariant forall j <- cued.Keys :: j in rest || k <= j
    {
      var j :| j in rest;
      rest := rest - {j};
      if j < k {
        k := j;
      }
    }
  }

  lemma RecordLast(cued: Cued, beats: seq<Beat>, b: Beat)
    ensures Record(cued, beats + [b]) == RecordOne(Record(cued, beats), b)
  {
    assert (beats + [b])[..|beats|] == beats;
  }

  /** A beat with its arrows and its pause. */
  ghost function Finished(cued: Cued, log: seq<LogEvent>, F: set<nat>, b: Beat): Beat {
    b.(arrows := ArrowRefs(log, b.damage), pauseBefore := Pauses(cued, log, F, b.key))
  }

  method FinishBeat(ghost cued: Cued, log: seq<LogEvent>, ghost F: set<nat>, raw: seq<Beat>, byKey: map<BeatKey, nat>, i: nat)
      returns (b: Beat)
    requires raw == Grouped(cued, log, |log|, F) && i < |raw|
    requires Indexes(byKey, KeysIn(log, |log|, F))
    ensures b == Finished(cued, log, F, raw[i])
  {
    var arrows := ArrowRefsFor(raw[i].damage, log);
    var pause := FirstCameBefore(cued, log, F, raw, byKey, i);
    b := raw[i].(arrows := arrows, pauseBefore := pause);
  }

  ghost predicate AllFinished(cued: Cued, log: seq<LogEvent>, F: set<nat>, raw: seq<Beat>, beats: seq<Beat>) {
    |beats| <= |raw| && forall i :: 0 <= i < |beats| ==> beats[i] == Finished(cued, log, F, raw[i])
  }

  lemma OneMoreFinished(cued: Cued, log: seq<LogEvent>, F: set<nat>, raw: seq<Beat>, beats: seq<Beat>, b: Beat)
    requires AllFinished(cued, log, F, raw, beats) && |beats| < |raw| && b == Finished(cued, log, F, raw[|beats|])
    ensures AllFinished(cued, log, F, raw, beats + [b])
    ensures Record(cued, beats + [b]) == RecordOne(Record(cued, beats), b)
  {
    RecordLast(cued, beats, b);
  }

  /** The second pass: arrows, the pause, and what the tracker records. */
  method FinishBeats(prev: BeatTracker, log: seq<LogEvent>, ghost F: set<nat>, raw: seq<Beat>, byKey: map<BeatKey, nat>)
      returns (beats: seq<Beat>, cued: Cued)
    requires raw == Grouped(prev.cued, log, |log|, F)
    requires Indexes(byKey, KeysIn(log, |log|, F))
    ensures |beats| == |raw| && AllFinished(prev.cued, log, F, raw, beats)
    ensures cued == Record(prev.cued, beats)
  {
    beats, cued := [], prev.cued;
    for i := 0 to |raw|
      invariant |beats| == i && AllFinished(prev.cued, log, F, raw, beats)
      invariant cued == Record(prev.cued, beats)
    {
      var b := FinishBeat(prev.cued, log, F, raw, byKey, i);
      OneMoreFinished(prev.cued, log, F, raw, beats, b);
      cued := RecordOne(cued, b);
      beats := beats + [b];
    }
  }

  lemma FinishedBeats(cued: Cued, log: seq<LogEvent>, F: set<nat>, beats: seq<Beat>)
    requires var raw := Grouped(cued, log, |log|, F);
      |beats| == |raw| && AllFinished(cued, log, F, raw, beats)
    ensures beats == BeatsOf(cued, log, F)
  {
  }

  method FirstCameBefore(ghost cued: Cued, ghost log: seq<LogEvent>, ghost F: set<nat>, raw: seq<Beat>,
        byKey: map<BeatKey, nat>, i: nat)
      returns (pause: bool)
    requires raw == Grouped(cued, log, |log|, F) && i < |raw|
    requires Indexes(byKey, KeysIn(log, |log|, F))
    ensures pause == Pauses(cued, log, F, raw[i].key)
  {
    var b := raw[i];
    pause := false;
    KeysInFacts(log, |log|, F);
    assert raw[i] == RawBeat(cued, log, |log|, F, KeysIn(log, |log|, F)[i]);
    if b.key.tag.Regular? && !b.continuation {
      var firstKey := BeatKey(b.key.stepSeq, FirstStrike);
      if firstKey in byKey {
        var first := raw[byKey[firstKey]];
        assert first == RawBeat(cued, log, |log|, F, firstKey);
        pause := first.damage[0].seqNo < b.damage[0].seqNo;
      }
    }
  }

  method PruneCued(full: Cued) returns (cued: Cued)
    ensures cued == Prune(full)
  {
    cued := full;
    while |cued| > CUED_STEPS_KEPT
      invariant Prune(cued) == Prune(full)
      decreases |cued|
    {
      var oldest := OldestStep(cued);
      cued := cued - {oldest};
    }
  }

  /** splitBeats: the frame's beats, and the tracker that remembers them. */
  method SplitBeats(prev: BeatTracker, log: seq<LogEvent>, added: seq<LogEvent>)
      returns (tracker: BeatTracker, beats: seq<Beat>)
    ensures beats == BeatsOf(prev.cued, log, SeqNos(added))
    ensures tracker == SplitTracker(prev, beats)
  {
    if |added| == 0 {
      assert SeqNos(added) == {};
      NoNewKeys(log, |log|);
      return prev, [];
    }
    var raw, byKey := GroupBeats(prev, log, SeqNos(added));
    if |raw| == 0 {
      return prev, raw;
    }
    var cued;
    beats, cued := FinishBeats(prev, log, SeqNos(added), raw, byKey);
    FinishedBeats(prev.cued, log, SeqNos(added), beats);
    cued := PruneCued(cued);
    tracker := prev.(cued := cued);
  }

  // ---- Schedule ----

  datatype BeatMode = Full | Still

  /** `animations.speed`: a number, or something that is not finite. */
  datatype Speed = Finite(value: real) | NotFinite

  const BEAT_PAUSE_MS := 400.0
  const STRIKE_MS := 500.0
  const BEAT_STRIKE_PAUSE_MS := STRIKE_MS + 60.0
  const BEAT_EFFECT_MS := 360.0
  const BEAT_CUE_HOLD_MS := 1800.0

  function ScaledMs(baseMs: real, speed: Speed): real {
    baseMs * (if speed.Finite? && speed.value > 0.0 then speed.value else 1.0)
  }

  function BeatPauseMs(combatMotion: bool, speed: Speed): real {
    ScaledMs(if combatMotion then BEAT_STRIKE_PAUSE_MS else BEAT_PAUSE_MS, speed)
  }

  function BeatLabel(tag: BeatTag): string {
    match tag
    case FirstStrike => "First strike"
    case Regular => "Regular damage"
  }

  datatype FrameOptions = FrameOptions(mode: BeatMode, speed: Speed, reprime: bool, combatMotion: bool, now: real)

  datatype ScheduledCue = ScheduledCue(
    atMs: real,
    frameAt: real,
    log: seq<LogEvent>,
    key: BeatKey,
    text: Option<string>,
    entries: seq<LogEvent>,
    arrows: seq<ArrowRef>,
    motion: bool,
    effectMs: real,
    strikes: bool,
    labelled: bool,
    hideAtMs: real)

  function CueOf(b: Beat, log: seq<LogEvent>, opts: FrameOptions): ScheduledCue {
    ScheduledCue(
      if b.pauseBefore then BeatPauseMs(opts.combatMotion, opts.speed) else 0.0,
      opts.now,
      log,
      b.key,
      if b.continuation || !b.labelled then None else Some(BeatLabel(b.key.tag)),
      b.entries,
      b.arrows,
      b.labelled && opts.mode.Full?,
      ScaledMs(BEAT_EFFECT_MS, opts.speed),
      opts.combatMotion,
      b.labelled,
      0.0)
  }

  function Cues(beats: seq<Beat>, log: seq<LogEvent>, opts: FrameOptions): seq<ScheduledCue> {
    if beats == [] then []
    else
      var before := Cues(beats[..|beats| - 1], log, opts);
      var b := beats[|beats| - 1];
      if b.labelled || opts.combatMotion then before + [CueOf(b, log, opts)] else before
  }

  /** The latest moment any cue of `step` plays. */
  function LastAt(cues: seq<ScheduledCue>, step: nat): real {
    if cues == [] then 0.0
    else
      var before := LastAt(cues[..|cues| - 1], step);
      var c := cues[|cues| - 1];
      if c.key.stepSeq == step && c.atMs > before then c.atMs else before
  }

  function ScheduleOf(beats: seq<Beat>, log: seq<LogEvent>, opts: FrameOptions): seq<ScheduledCue> {
    var cues := Cues(beats, log, opts);
    seq(|cues|, i requires 0 <= i < |cues| =>
      cues[i].(hideAtMs := LastAt(cues, cues[i].key.stepSeq) + BEAT_CUE_HOLD_MS))
  }

  method CuesFor(beats: seq<Beat>, log: seq<LogEvent>, opts: FrameOptions) returns (cues: seq<ScheduledCue>)
    ensures cues == Cues(beats, log, opts)
  {
    cues := [];
    for i := 0 to |beats|
      invariant cues == Cues(beats[..i], log, opts)
    {
      assert beats[..i + 1][..i] == beats[..i];
      if beats[i].labelled || opts.combatMotion {
        cues := cues + [CueOf(beats[i], log, opts)];
      }
    }
    assert beats[..|beats|] == beats;
  }

  method LastTimes(cues: seq<ScheduledCue>) returns (lastAt: map<nat, real>)
    ensures forall s :: (if s in lastAt then lastAt[s] else 0.0) == LastAt(cues, s)
  {
    lastAt := map[];
    for i := 0 to |cues|
      invariant forall s :: (if s in lastAt then lastAt[s] else 0.0) == LastAt(cues[..i], s)
    {
      var c := cues[i];
      assert cues[..i + 1][..i] == cues[..i];
      var before := if c.key.stepSeq in lastAt then lastAt[c.key.stepSeq] else 0.0;
      lastAt := lastAt[c.key.stepSeq := if c.atMs > before then c.atMs else before];
    }
    assert cues[..|cues|] == cues;
  }

  method Schedule(beats: seq<Beat>, log: seq<LogEvent>, opts: FrameOptions) returns (cues: seq<ScheduledCue>)
    ensures cues == ScheduleOf(beats, log, opts)
  {
    var unhidden := CuesFor(beats, log, opts);
    var lastAt := LastTimes(unhidden);
    cues := unhidden;
    for i := 0 to |cues|
      invariant |cues| == |unhidden|
      invariant forall j :: i <= j < |cues| ==> cues[j] == unhidden[j]
      invariant forall j :: 0 <= j < i ==>
        cues[j] == unhidden[j].(hideAtMs := LastAt(unhidden, unhidden[j].key.stepSeq) + BEAT_CUE_HOLD_MS)
    {
      var step := cues[i].key.stepSeq;
      var last := if step in lastAt then lastAt[step] else 0.0;
      cues := cues[i := cues[i].(hideAtMs := last + BEAT_CUE_HOLD_MS)];
    }
  }

  lemma {:induction false} LastAtIsMax(cues: seq<ScheduledCue>, step: nat)
    ensures forall c <- cues :: c.key.stepSeq == step ==> c.atMs <= LastAt(cues, step)
    ensures LastAt(cues, step) == 0.0 || exists c <- cues :: c.key.stepSeq == step && c.atMs == LastAt(cues, step)
  {
    if cues != [] {
      var rest := cues[..|cues| - 1];
      LastAtIsMax(rest, step);
      assert cues == rest + [cues[|cues| - 1]];
      if LastAt(cues, step) != 0.0 && LastAt(cues, step) == LastAt(rest, step) {
        var c :| c in rest && c.key.stepSeq == step && c.atMs == LastAt(rest, step);
        assert c in cues;
      }
    }
  }

  lemma {:induction false} CuesComeFromBeats(beats: seq<Beat>, log: seq<LogEvent>, opts: FrameOptions)
    ensures forall c <- Cues(beats, log, opts) ::
              exists b <- beats :: (b.labelled || opts.combatMotion) && c == CueOf(b, log, opts)
    ensures forall b <- beats :: b.labelled || opts.combatMotion ==> CueOf(b, log, opts) in Cues(beats, log, opts)
  {
    if beats != [] {
      CuesComeFromBeats(beats[..|beats| - 1], log, opts);
      assert beats == beats[..|beats| - 1] + [beats[|beats| - 1]];
    }
  }

  lemma ScaledLess(a: real, b: real, speed: Speed)
    requires a < b
    ensures ScaledMs(a, speed) < ScaledMs(b, speed)
  {
    var s := if speed.Finite? && speed.value > 0.0 then speed.value else 1.0;
    assert (b - a) * s > 0.0;
    assert (b - a) * s == b * s - a * s;
  }

  lemma CueTimes(beats: seq<Beat>, log: seq<LogEvent>, opts: FrameOptions)
    ensures forall c <- ScheduleOf(beats, log, opts) ::
              && (c.atMs == 0.0 || c.atMs == BeatPauseMs(opts.combatMotion, opts.speed))
              && c.effectMs == ScaledMs(BEAT_EFFECT_MS, opts.speed)
  {
    var raw, cues := Cues(beats, log, opts), ScheduleOf(beats, log, opts);
    CuesComeFromBeats(beats, log, opts);
    forall c <- cues
      ensures c.atMs == 0.0 || c.atMs == BeatPauseMs(opts.combatMotion, opts.speed)
      ensures c.effectMs == ScaledMs(BEAT_EFFECT_MS, opts.speed)
    {
      var i :| 0 <= i < |cues| && cues[i] == c;
      assert raw[i] in raw;
    }
  }

  /**
   Cues never overlap within a frame: one that waits starts only after an
   earlier one's arrow effect, and with combat motion its whole strike, is over.
   */
  lemma CuesDoNotOverlap(beats: seq<Beat>, log: seq<LogEvent>, opts: FrameOptions, c: ScheduledCue, d: ScheduledCue)
    requires c in ScheduleOf(beats, log, opts) && d in ScheduleOf(beats, log, opts) && c.atMs < d.atMs
    ensures c.atMs + c.effectMs < d.atMs
    ensures opts.combatMotion ==> c.atMs + ScaledMs(STRIKE_MS, opts.speed) < d.atMs
  {
    CueTimes(beats, log, opts);
    ScaledLess(0.0, BEAT_PAUSE_MS, opts.speed);
    ScaledLess(BEAT_EFFECT_MS, BEAT_PAUSE_MS, opts.speed);
    ScaledLess(BEAT_EFFECT_MS, BEAT_STRIKE_PAUSE_MS, opts.speed);
    ScaledLess(STRIKE_MS, BEAT_STRIKE_PAUSE_MS, opts.speed);
    ScaledLess(0.0, BEAT_STRIKE_PAUSE_MS, opts.speed);
  }

  /**
   The text cues of one step in a frame come down together, and exactly the
   hold after the last of them has played.
   */
  lemma HidesTogetherAfterTheLast(beats: seq<Beat>, log: seq<LogEvent>, opts: FrameOptions, c: ScheduledCue)
    requires c in ScheduleOf(beats, log, opts)
    ensures 0.0 <= c.atMs
    ensures forall d <- ScheduleOf(beats, log, opts) :: d.key.stepSeq == c.key.stepSeq ==>
              d.hideAtMs == c.hideAtMs && d.atMs + BEAT_CUE_HOLD_MS <= c.hideAtMs
    ensures exists d <- ScheduleOf(beats, log, opts) ::
              d.key.stepSeq == c.key.stepSeq && c.hideAtMs == d.atMs + BEAT_CUE_HOLD_MS
  {
    var raw, cues := Cues(beats, log, opts), ScheduleOf(beats, log, opts);
    var step := c.key.stepSeq;
    CueTimes(beats, log, opts);
    ScaledLess(0.0, BEAT_PAUSE_MS, opts.speed);
    ScaledLess(0.0, BEAT_STRIKE_PAUSE_MS, opts.speed);
    LastAtIsMax(raw, step);
    forall d <- cues | d.key.stepSeq == step
      ensures d.hideAtMs == c.hideAtMs && d.atMs <= LastAt(raw, step)
    {
      var i :| 0 <= i < |cues| && cues[i] == d;
      assert raw[i] in raw;
    }
    if LastAt(raw, step) != 0.0 {
      var r :| r in raw && r.key.stepSeq == step && r.atMs == LastAt(raw, step);
      var i :| 0 <= i < |raw| && raw[i] == r;
      assert cues[i] in cues && c.hideAtMs == cues[i].atMs + BEAT_CUE_HOLD_MS;
    }
  }

  // ---- The whole per-frame pipeline ----

  datatype FramePlan = FramePlan(tracker: BeatTracker, cues: seq<ScheduledCue>, primed: bool)

  ghost function PlanOf(prev: BeatTracker, log: seq<LogEvent>, opts: FrameOptions): FramePlan {
    var t := TrackOf(prev, log, opts.reprime);
    var beats := BeatsOf(t.tracker.cued, log, SeqNos(t.added));
    FramePlan(SplitTracker(t.tracker, beats), ScheduleOf(beats, log, opts), t.primed)
  }

  method PlanFrame(prev: BeatTracker, log: seq<LogEvent>, opts: FrameOptions) returns (plan: FramePlan)
    ensures plan == PlanOf(prev, log, opts)
  {
    var t := Track(prev, log, opts.reprime);
    var tracker, beats := SplitBeats(t.tracker, log, t.added);
    var cues := Schedule(beats, log, opts);
    plan := FramePlan(tracker, cues, t.primed);
  }
}
