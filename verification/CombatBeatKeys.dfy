/**
 Which beat an entry is in, when a beat waits, and what its cue says, told from the
 entries of the log alone.
 */
module CombatBeatKeys {
  import opened Wrappers
  import opened CombatLog
  import opened CombatBeats
  import opened CombatBeatRuns

  predicate IsDamageStep(e: LogEvent) {
    e.kind.Step? && (e.kind.step.FirstStrikeDamage? || e.kind.step.CombatDamage?)
  }

  predicate IsCombatHit(e: LogEvent) {
    e.kind.Damage? && e.kind.combat
  }

  /** Untagged combat damage is regular. */
  function TagOf(e: LogEvent): BeatTag
    requires IsCombatHit(e)
  {
    if e.kind.combatStep == Some(FirstStrike) then FirstStrike else Regular
  }

  /** No step entry stands after `a` and before `b`. */
  predicate NoStepBetween(log: seq<LogEvent>, a: int, b: nat)
    requires -1 <= a && b <= |log|
  {
    forall m :: a < m < b ==> !log[m].kind.Step?
  }

  /** Every step entry after `a` and before `b` is a regular damage step. */
  predicate OnlyRegularBetween(log: seq<LogEvent>, a: nat, b: nat)
    requires b <= |log|
  {
    forall m :: a < m < b && log[m].kind.Step? ==> log[m].kind.step.CombatDamage?
  }

  /** The step before `s`, if there is one, is no damage step. */
  ghost predicate AfterOtherStep(log: seq<LogEvent>, s: nat)
    requires s <= |log|
  {
    forall p :: 0 <= p < s && log[p].kind.Step? && NoStepBetween(log, p, s) ==> !IsDamageStep(log[p])
  }

  /** A stretch of damage steps starts at a first-strike one, or at a regular one that follows no damage step. */
  ghost predicate StartsStretch(log: seq<LogEvent>, s: nat)
    requires s < |log|
  {
    log[s].kind.Step? && (log[s].kind.step.FirstStrikeDamage? || (log[s].kind.step.CombatDamage? && AfterOtherStep(log, s)))
  }

  /** The entry at `i` is in the stretch of damage steps that starts at `s`. */
  ghost predicate InStretch(log: seq<LogEvent>, s: nat, i: nat)
    requires i <= |log|
  {
    s < i && StartsStretch(log, s) && OnlyRegularBetween(log, s, i)
  }

  // ---- The loop's context is that stretch ----

  /** Without a context, the last step before `n` is no damage step. */
  lemma {:induction false} NoContext(log: seq<LogEvent>, n: nat)
    requires n <= |log| && Context(log, n).None?
    ensures AfterOtherStep(log, n)
  {
    if n > 0 {
      if log[n - 1].kind.Step? {
        assert forall p :: 0 <= p < n && NoStepBetween(log, p, n) && log[p].kind.Step? ==> p == n - 1;
      } else {
        NoContext(log, n - 1);
        forall p | 0 <= p < n && log[p].kind.Step? && NoStepBetween(log, p, n) ensures !IsDamageStep(log[p]) {
          assert NoStepBetween(log, p, n - 1);
        }
      }
    }
  }

  lemma {:induction false} ContextIsStretch(log: seq<LogEvent>, n: nat) returns (s: nat)
    requires n <= |log| && Context(log, n).Some?
    ensures InStretch(log, s, n) && Context(log, n) == Some(log[s].seqNo)
  {
    var e := log[n - 1];
    if e.kind.Step? && (e.kind.step.FirstStrikeDamage? || Context(log, n - 1).None?) {
      s := n - 1;
      if Context(log, n - 1).None? {
        NoContext(log, n - 1);
      }
    } else {
      s := ContextIsStretch(log, n - 1);
    }
  }

  lemma {:induction false} StretchIsContext(log: seq<LogEvent>, s: nat, n: nat)
    requires n <= |log| && InStretch(log, s, n)
    ensures Context(log, n) == Some(log[s].seqNo)
    decreases n
  {
    if n == s + 1 {
      if log[s].kind.step.CombatDamage? && Context(log, s).Some? {
        var t := ContextIsStretch(log, s);
        var p := LastStepBefore(log, t, s);
      }
    } else {
      StretchIsContext(log, s, n - 1);
    }
  }

  /** A stretch that reaches `s` has a damage step as the last step before `s`. */
  lemma {:induction false} LastStepBefore(log: seq<LogEvent>, t: nat, s: nat) returns (p: nat)
    requires s <= |log| && InStretch(log, t, s)
    ensures p < s && log[p].kind.Step? && NoStepBetween(log, p, s) && IsDamageStep(log[p])
    decreases s
  {
    if log[s - 1].kind.Step? {
      p := s - 1;
    } else {
      p := LastStepBefore(log, t, s - 1);
    }
  }

  /** An entry is in one stretch at most. */
  lemma OneStretch(log: seq<LogEvent>, s: nat, t: nat, i: nat)
    requires Ordered(log) && i <= |log| && InStretch(log, s, i) && InStretch(log, t, i)
    ensures s == t
  {
    StretchIsContext(log, s, i);
    StretchIsContext(log, t, i);
  }

  // ---- Which beat an entry is in ----

  /** The entry at `i` is a hit of `k`'s tag, in the stretch that starts at the step numbered as `k` says. */
  ghost predicate IsHitOf(log: seq<LogEvent>, i: nat, k: BeatKey)
    requires i < |log|
  {
    && IsCombatHit(log[i]) && TagOf(log[i]) == k.tag
    && exists s :: 0 <= s < i && InStretch(log, s, i) && log[s].seqNo == k.stepSeq
  }

  lemma KeyedIsHit(log: seq<LogEvent>, i: nat, k: BeatKey)
    requires i < |log| && KeyAt(log, i) == Some(k)
    ensures IsHitOf(log, i, k)
  {
    var s := ContextIsStretch(log, i);
  }

  lemma HitIsKeyed(log: seq<LogEvent>, i: nat, k: BeatKey)
    requires i < |log| && IsHitOf(log, i, k)
    ensures KeyAt(log, i) == Some(k)
  {
    var s :| 0 <= s < i && InStretch(log, s, i) && log[s].seqNo == k.stepSeq;
    StretchIsContext(log, s, i);
    assert CombatBeatOf(log[i]).value.tag == TagOf(log[i]);
  }

  /** A beat holds exactly the new hits of its tag in the stretch of damage steps its number starts. */
  lemma HitsOfBeat(cued: Cued, log: seq<LogEvent>, F: set<nat>, i: nat, b: Beat)
    requires Ordered(log) && i < |log| && b in BeatsOf(cued, log, F)
    ensures log[i] in b.damage <==> log[i].seqNo in F && IsHitOf(log, i, b.key)
  {
    BeatsFacts(cued, log, F);
    DamageInHas(log, |log|, F, b.key, log[i]);
    if log[i] in b.damage {
      var j :| 0 <= j < |log| && log[j] == log[i] && KeyAt(log, j) == Some(b.key);
      KeyedIsHit(log, i, b.key);
    }
    if IsHitOf(log, i, b.key) {
      HitIsKeyed(log, i, b.key);
    }
  }

  /** Every new hit of a stretch is in a beat. */
  lemma EveryHitHasABeat(cued: Cued, log: seq<LogEvent>, F: set<nat>, i: nat, k: BeatKey) returns (b: Beat)
    requires i < |log| && log[i].seqNo in F && IsHitOf(log, i, k)
    ensures b in BeatsOf(cued, log, F) && b.key == k && log[i] in b.damage
  {
    HitIsKeyed(log, i, k);
    BeatsFacts(cued, log, F);
    assert NewUnder(log, |log|, F, k, log[i]);
    DamageInHas(log, |log|, F, k, log[i]);
    b := BeatOf(cued, log, F, k);
  }

  /** Two hits are of one step if and only if only regular damage steps stand between them. */
  lemma OneStepIffUnbroken(log: seq<LogEvent>, i: nat, j: nat, k: BeatKey, l: BeatKey)
    requires Ordered(log) && i < j < |log| && IsHitOf(log, i, k) && IsHitOf(log, j, l)
    ensures k.stepSeq == l.stepSeq <==> OnlyRegularBetween(log, i, j)
  {
    var s :| 0 <= s < i && InStretch(log, s, i) && log[s].seqNo == k.stepSeq;
    var t :| 0 <= t < j && InStretch(log, t, j) && log[t].seqNo == l.stepSeq;
    if OnlyRegularBetween(log, i, j) {
      StretchGoesOn(log, s, i, j);
      OneStretch(log, s, t, j);
    }
    if k.stepSeq == l.stepSeq {
      assert s == t;
    }
  }

  lemma StretchGoesOn(log: seq<LogEvent>, s: nat, i: nat, j: nat)
    requires i < j < |log| && InStretch(log, s, i) && OnlyRegularBetween(log, i, j) && !log[i].kind.Step?
    ensures InStretch(log, s, j)
  {
  }

  /** So two hits are in beats of one step exactly when no other step, and no new first-strike step, stands between them. */
  lemma BeatsShareAStepIff(cued: Cued, log: seq<LogEvent>, F: set<nat>, i: nat, j: nat, b: Beat, c: Beat)
    requires Ordered(log) && i < j < |log| && b in BeatsOf(cued, log, F) && c in BeatsOf(cued, log, F)
    requires log[i] in b.damage && log[j] in c.damage
    ensures b.key.stepSeq == c.key.stepSeq <==> OnlyRegularBetween(log, i, j)
  {
    HitsOfBeat(cued, log, F, i, b);
    HitsOfBeat(cued, log, F, j, c);
    OneStepIffUnbroken(log, i, j, b.key, c.key);
  }

  // ---- The order of hits and beats ----

  /** In log order, each once. */
  predicate InOrder(es: seq<LogEvent>) {
    forall i, j :: 0 <= i < j < |es| ==> es[i].seqNo < es[j].seqNo
  }

  lemma {:induction false} DamageInOrder(log: seq<LogEvent>, n: nat, F: set<nat>, k: BeatKey)
    requires Ordered(log) && n <= |log|
    ensures InOrder(DamageIn(log, n, F, k))
    ensures forall e <- DamageIn(log, n, F, k) :: e in log[..n]
  {
    if n > 0 {
      DamageInOrder(log, n - 1, F, k);
      assert log[..n] == log[..n - 1] + [log[n - 1]];
      assert forall e <- log[..n - 1] :: e.seqNo < log[n - 1].seqNo;
    }
  }

  /** A beat's damage is in log order. */
  lemma BeatInOrder(cued: Cued, log: seq<LogEvent>, F: set<nat>, b: Beat)
    requires Ordered(log) && b in BeatsOf(cued, log, F)
    ensures InOrder(b.damage) && b.damage != []
  {
    BeatsFacts(cued, log, F);
    DamageInOrder(log, |log|, F, b.key);
  }

  // ---- When a beat waits ----

  /** A new first-strike hit of the beat's stretch stands before the beat's first hit. */
  ghost predicate FirstStrikeCameFirst(log: seq<LogEvent>, F: set<nat>, b: Beat)
    requires b.damage != []
  {
    exists i :: 0 <= i < |log| && log[i].seqNo in F && IsHitOf(log, i, BeatKey(b.key.stepSeq, FirstStrike))
      && log[i].seqNo < b.damage[0].seqNo
  }

  lemma FirstCame(log: seq<LogEvent>, F: set<nat>, k: BeatKey, lim: nat)
    requires Ordered(log)
    ensures (DamageIn(log, |log|, F, k) != [] && DamageIn(log, |log|, F, k)[0].seqNo < lim) <==>
              exists i :: 0 <= i < |log| && log[i].seqNo in F && IsHitOf(log, i, k) && log[i].seqNo < lim
  {
    var first := DamageIn(log, |log|, F, k);
    DamageInOrder(log, |log|, F, k);
    if first != [] && first[0].seqNo < lim {
      DamageInHas(log, |log|, F, k, first[0]);
      var i :| 0 <= i < |log| && log[i] == first[0] && log[i].seqNo in F && KeyAt(log, i) == Some(k);
      KeyedIsHit(log, i, k);
    }
    if i :| 0 <= i < |log| && log[i].seqNo in F && IsHitOf(log, i, k) && log[i].seqNo < lim {
      HitIsKeyed(log, i, k);
      assert NewUnder(log, |log|, F, k, log[i]);
      DamageInHas(log, |log|, F, k, log[i]);
    }
  }

  /** A regular beat waits exactly when it is new and its combat's first-strike damage came before it in the frame. */
  lemma WaitsIff(cued: Cued, log: seq<LogEvent>, F: set<nat>, b: Beat)
    requires Ordered(log) && b in BeatsOf(cued, log, F)
    ensures b.damage != []
    ensures b.pauseBefore <==> b.key.tag.Regular? && !b.continuation && FirstStrikeCameFirst(log, F, b)
  {
    BeatsFacts(cued, log, F);
    FirstCame(log, F, BeatKey(b.key.stepSeq, FirstStrike), b.damage[0].seqNo);
  }

  // ---- What else a beat holds ----

  /** Neither a step entry nor a new combat hit. */
  predicate Plain(log: seq<LogEvent>, F: set<nat>, m: nat)
    requires m < |log|
  {
    !log[m].kind.Step? && !(log[m].seqNo in F && IsCombatHit(log[m]))
  }

  /** The new hit at `h` is the last new hit up to `i`, with no step entry since. */
  ghost predicate Leads(log: seq<LogEvent>, F: set<nat>, h: nat, i: nat, k: BeatKey)
    requires i < |log|
  {
    && h <= i && log[h].seqNo in F && IsHitOf(log, h, k)
    && forall m :: h < m <= i ==> Plain(log, F, m)
  }

  /** The stretch of the leading hit reaches everything it leads. */
  lemma LedHasContext(log: seq<LogEvent>, F: set<nat>, h: nat, i: nat, k: BeatKey)
    requires i < |log| && Leads(log, F, h, i, k)
    ensures Context(log, i) == Some(k.stepSeq) && Context(log, i + 1) == Some(k.stepSeq)
  {
    var s :| 0 <= s < h && InStretch(log, s, h) && log[s].seqNo == k.stepSeq;
    forall m | s < m < i + 1 && log[m].kind.Step? ensures log[m].kind.step.CombatDamage? {
      assert h < m ==> Plain(log, F, m);
    }
    StretchIsContext(log, s, i + 1);
    StretchIsContext(log, s, i);
  }

  lemma {:induction false} CurrentIsLed(log: seq<LogEvent>, i: nat, F: set<nat>) returns (h: nat)
    requires i < |log| && Current(log, i + 1, F).Some?
    ensures h <= i && Leads(log, F, h, i, Current(log, i + 1, F).value)
  {
    if log[i].seqNo in F && KeyAt(log, i).Some? {
      h := i;
      KeyedIsHit(log, i, KeyAt(log, i).value);
    } else {
      h := CurrentIsLed(log, i - 1, F);
      LedHasContext(log, F, h, i - 1, Current(log, i, F).value);
      assert Plain(log, F, i);
    }
  }

  lemma {:induction false} LedIsCurrent(log: seq<LogEvent>, F: set<nat>, h: nat, i: nat, k: BeatKey)
    requires i < |log| && Leads(log, F, h, i, k)
    ensures Current(log, i + 1, F) == Some(k)
    decreases i
  {
    if h == i {
      HitIsKeyed(log, h, k);
    } else {
      LedIsCurrent(log, F, h, i - 1, k);
      assert Plain(log, F, i);
    }
  }

  ghost predicate MemberAt(log: seq<LogEvent>, i: nat, F: set<nat>, k: BeatKey)
    requires i < |log|
  {
    !log[i].kind.Step? && log[i].seqNo in F && Context(log, i).Some? && Current(log, i + 1, F) == Some(k)
  }

  lemma {:induction false} MembersAre(log: seq<LogEvent>, n: nat, F: set<nat>, k: BeatKey, e: LogEvent)
    requires n <= |log|
    ensures e in MembersIn(log, n, F, k) <==> exists i :: 0 <= i < n && log[i] == e && MemberAt(log, i, F, k)
  {
    if n > 0 {
      MembersAre(log, n - 1, F, k, e);
      assert log[n - 1] == e && MemberAt(log, n - 1, F, k) ==> e in MembersIn(log, n, F, k);
    }
  }

  lemma MemberIsLed(log: seq<LogEvent>, i: nat, F: set<nat>, k: BeatKey)
    requires i < |log|
    ensures MemberAt(log, i, F, k) <==> log[i].seqNo in F && exists h: nat :: Leads(log, F, h, i, k)
  {
    if MemberAt(log, i, F, k) {
      var h := CurrentIsLed(log, i, F);
    }
    if h: nat :| Leads(log, F, h, i, k) {
      LedIsCurrent(log, F, h, i, k);
      LedHasContext(log, F, h, i, k);
    }
  }

  /**
   Besides its hits a beat holds the new entries that follow them: an entry is in the
   beat of the last new hit at or before it, as long as no step entry came in between.
   */
  lemma EntriesOfBeat(cued: Cued, log: seq<LogEvent>, F: set<nat>, i: nat, b: Beat)
    requires Ordered(log) && i < |log| && b in BeatsOf(cued, log, F)
    ensures log[i] in b.entries <==> log[i].seqNo in F && exists h: nat :: Leads(log, F, h, i, b.key)
  {
    BeatsFacts(cued, log, F);
    MembersAre(log, |log|, F, b.key, log[i]);
    MemberIsLed(log, i, F, b.key);
    if log[i] in b.entries {
      var j :| 0 <= j < |log| && log[j] == log[i] && MemberAt(log, j, F, b.key);
      assert i == j;
    }
  }

  /** The first hit of a key that has one stays the first when another entry is added. */
  lemma FirstStays(log: seq<LogEvent>, n: nat, F: set<nat>, k: BeatKey)
    requires Ordered(log) && 0 < n <= |log| && DamageIn(log, n - 1, F, k) != []
    ensures DamageIn(log, n, F, k) != [] && DamageIn(log, n, F, k)[0] == DamageIn(log, n - 1, F, k)[0]
    ensures DamageIn(log, n, F, k)[0].seqNo < log[n - 1].seqNo
  {
    DamageInOrder(log, n - 1, F, k);
    assert DamageIn(log, n - 1, F, k)[0] in log[..n - 1];
  }

  ghost predicate KeysOrdered(log: seq<LogEvent>, n: nat, F: set<nat>, keys: seq<BeatKey>)
    requires n <= |log|
  {
    && (forall i :: 0 <= i < |keys| ==> DamageIn(log, n, F, keys[i]) != [])
    && (forall i, j :: 0 <= i < j < |keys| ==>
          DamageIn(log, n, F, keys[i])[0].seqNo < DamageIn(log, n, F, keys[j])[0].seqNo)
  }

  lemma {:induction false} KeysInOrder(log: seq<LogEvent>, n: nat, F: set<nat>)
    requires Ordered(log) && n <= |log|
    ensures KeysOrdered(log, n, F, KeysIn(log, n, F))
  {
    if n > 0 {
      KeysInOrder(log, n - 1, F);
      KeysInFacts(log, n - 1, F);
      var before := KeysIn(log, n - 1, F);
      forall i | 0 <= i < |before|
        ensures DamageIn(log, n, F, before[i]) != [] && DamageIn(log, n, F, before[i])[0] == DamageIn(log, n - 1, F, before[i])[0]
        ensures DamageIn(log, n, F, before[i])[0].seqNo < log[n - 1].seqNo
      {
        FirstStays(log, n, F, before[i]);
      }
      var keys := KeysIn(log, n, F);
      if keys != before {
        assert keys == before + [keys[|before|]];
        NewKeyIsLast(log, n, F, keys[|before|]);
      }
    }
  }

  lemma NewKeyIsLast(log: seq<LogEvent>, n: nat, F: set<nat>, k: BeatKey)
    requires 0 < n <= |log| && log[n - 1].seqNo in F && KeyAt(log, n - 1) == Some(k) && k !in KeysIn(log, n - 1, F)
    ensures DamageIn(log, n, F, k) == [log[n - 1]]
  {
    KeysInFacts(log, n - 1, F);
    assert [] + [log[n - 1]] == [log[n - 1]];
  }

  /** The beats of a frame are in the order of their first hits. */
  lemma BeatsInOrder(cued: Cued, log: seq<LogEvent>, F: set<nat>, i: nat, j: nat)
    requires Ordered(log) && i < j < |BeatsOf(cued, log, F)|
    ensures var beats := BeatsOf(cued, log, F);
            && beats[i].damage != [] && beats[j].damage != []
            && beats[i].damage[0].seqNo < beats[j].damage[0].seqNo
  {
    KeysInOrder(log, |log|, F);
  }

  // ---- What a beat's cue says ----

  /** A beat is labelled exactly when its first hit carries a tag, and new exactly when the tracker has no record of it. */
  lemma LabelledIff(cued: Cued, log: seq<LogEvent>, F: set<nat>, b: Beat)
    requires Ordered(log) && b in BeatsOf(cued, log, F)
    ensures b.damage != [] && (b.labelled <==> b.damage[0].kind.Damage? && b.damage[0].kind.combatStep.Some?)
    ensures b.continuation <==> b.key.stepSeq in cued && b.key.tag in cued[b.key.stepSeq]
  {
    BeatsFacts(cued, log, F);
    DamageInHas(log, |log|, F, b.key, b.damage[0]);
    var i :| 0 <= i < |log| && log[i] == b.damage[0] && KeyAt(log, i) == Some(b.key);
    KeyedIsHit(log, i, b.key);
  }

  /**
   Every beat that is labelled, or strikes, has one cue: at once or after the pause if it
   waits, with its own entries and arrows, and with its text exactly when it is labelled and new.
   */
  lemma EveryBeatIsCued(beats: seq<Beat>, log: seq<LogEvent>, opts: FrameOptions, b: Beat)
    requires b in beats && (b.labelled || opts.combatMotion)
    ensures exists c <- ScheduleOf(beats, log, opts) ::
              && c.key == b.key && c.entries == b.entries && c.arrows == b.arrows && c.log == log && c.frameAt == opts.now
              && (c.atMs > 0.0 <==> b.pauseBefore)
              && (c.text.Some? <==> b.labelled && !b.continuation)
              && (c.text.Some? ==> c.text.value == if b.key.tag.FirstStrike? then "First strike" else "Regular damage")
              && c.labelled == b.labelled && c.strikes == opts.combatMotion && (c.motion <==> b.labelled && opts.mode.Full?)
  {
    CuesComeFromBeats(beats, log, opts);
    ScaledLess(0.0, BEAT_PAUSE_MS, opts.speed);
    ScaledLess(0.0, BEAT_STRIKE_PAUSE_MS, opts.speed);
    var raw := Cues(beats, log, opts);
    var i :| 0 <= i < |raw| && raw[i] == CueOf(b, log, opts);
    assert ScheduleOf(beats, log, opts)[i] in ScheduleOf(beats, log, opts);
  }

  /** And every cue is the cue of such a beat: with one beat to a key, no key is cued twice in a frame. */
  lemma {:induction false} CueKeysAreApart(beats: seq<Beat>, log: seq<LogEvent>, opts: FrameOptions)
    requires forall i, j :: 0 <= i < j < |beats| ==> beats[i].key != beats[j].key
    ensures var cues := Cues(beats, log, opts);
            && (forall i, j :: 0 <= i < j < |cues| ==> cues[i].key != cues[j].key)
            && (forall c <- cues :: exists b <- beats :: b.key == c.key && (b.labelled || opts.combatMotion))
  {
    CuesComeFromBeats(beats, log, opts);
    if beats != [] {
      var rest, last := beats[..|beats| - 1], beats[|beats| - 1];
      CueKeysAreApart(rest, log, opts);
      assert beats == rest + [last];
      assert forall b <- rest :: b.key != last.key;
    }
  }

  /** A frame primes when the tracker starts or is told to start over, and then it cues nothing. */
  lemma PrimesIff(prev: BeatTracker, log: seq<LogEvent>, opts: FrameOptions)
    ensures PlanOf(prev, log, opts).primed <==> !prev.primed || opts.reprime
    ensures PlanOf(prev, log, opts).primed ==> PlanOf(prev, log, opts).cues == []
    ensures PlanOf(prev, log, opts).tracker.primed
  {
    var t := TrackOf(prev, log, opts.reprime);
    if t.primed {
      assert SeqNos(t.added) == {};
      NoNewKeys(log, |log|);
    }
  }

  /** Every time of a cue but the text's hold goes with the animation speed, and a speed that is none counts as the usual one. */
  lemma SpeedScales(baseMs: real, v: real, combatMotion: bool)
    ensures v > 0.0 ==> ScaledMs(baseMs, Finite(v)) == v * ScaledMs(baseMs, Finite(1.0))
    ensures v > 0.0 ==> BeatPauseMs(combatMotion, Finite(v)) == v * BeatPauseMs(combatMotion, Finite(1.0))
    ensures ScaledMs(baseMs, Finite(1.0)) == ScaledMs(baseMs, NotFinite) == baseMs
    ensures v <= 0.0 ==> ScaledMs(baseMs, Finite(v)) == baseMs
    ensures BeatPauseMs(true, NotFinite) == STRIKE_MS + 60.0 && BeatPauseMs(false, NotFinite) == BEAT_PAUSE_MS
  {
  }
}
