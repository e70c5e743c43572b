/**
 The beat pipeline over whole runs of frames. A run's frames each extend or
 truncate the log of the frame before (an undo truncates it), or re-prime.
 */
module CombatBeatRuns {
  import opened Wrappers
  import opened CombatLog
  import opened CombatBeats

  datatype Frame = Frame(log: seq<LogEvent>, reprime: bool)

  ghost predicate RunOk(frames: seq<Frame>) {
    && (forall i :: 0 <= i < |frames| ==> Ordered(frames[i].log))
    && (forall i :: 0 < i < |frames| && !frames[i].reprime ==>
          frames[i - 1].log <= frames[i].log || frames[i].log <= frames[i - 1].log)
  }

  /** One frame folded into the tracker; with `bounded` off it never forgets a step. */
  ghost function FrameTracker(prev: BeatTracker, f: Frame, bounded: bool): BeatTracker {
    var t := TrackOf(prev, f.log, f.reprime);
    var beats := BeatsOf(t.tracker.cued, f.log, SeqNos(t.added));
    if bounded then SplitTracker(t.tracker, beats) else t.tracker.(cued := Record(t.tracker.cued, beats))
  }

  ghost predicate FrameStep(prev: BeatTracker, f: Frame, bounded: bool, next: BeatTracker) {
    next == FrameTracker(prev, f, bounded)
  }

  /** A run: `ts[i]` is the tracker before frame `i`, and the last one the tracker after them all. */
  ghost predicate Run(frames: seq<Frame>, ts: seq<BeatTracker>, bounded: bool) {
    && RunOk(frames)
    && |ts| == |frames| + 1
    && ts[0] == EMPTY_TRACKER
    && (forall i :: 0 <= i < |frames| ==> FrameStep(ts[i], frames[i], bounded, ts[i + 1]))
  }

  ghost function TrackFrame(prev: BeatTracker, f: Frame): TrackResult {
    TrackOf(prev, f.log, f.reprime)
  }

  /** The beats a frame cues. */
  ghost function FrameBeats(prev: BeatTracker, f: Frame): seq<Beat> {
    var t := TrackFrame(prev, f);
    BeatsOf(t.tracker.cued, f.log, SeqNos(t.added))
  }

  // ---- The log alone decides keys ----

  lemma {:induction false} ContextPrefix(a: seq<LogEvent>, b: seq<LogEvent>, n: nat)
    requires a <= b && n <= |a|
    ensures Context(a, n) == Context(b, n)
  {
    if n > 0 {
      ContextPrefix(a, b, n - 1);
    }
  }

  lemma KeyAtPrefix(a: seq<LogEvent>, b: seq<LogEvent>, i: nat)
    requires a <= b && i < |a|
    ensures KeyAt(a, i) == KeyAt(b, i)
  {
    ContextPrefix(a, b, i);
  }

  /** A context is an earlier step entry's number. */
  lemma {:induction false} ContextIsEarlier(log: seq<LogEvent>, n: nat)
    requires Ordered(log) && n <= |log| && Context(log, n).Some?
    ensures exists j :: 0 <= j < n && log[j].seqNo == Context(log, n).value
  {
    if !log[n - 1].kind.Step? || Context(log, n) == Context(log, n - 1) {
      ContextIsEarlier(log, n - 1);
    }
  }

  lemma KeyIsEarlier(log: seq<LogEvent>, i: nat)
    requires Ordered(log) && i < |log| && KeyAt(log, i).Some?
    ensures 0 < KeyAt(log, i).value.stepSeq < log[i].seqNo
  {
    ContextIsEarlier(log, i);
  }

  /** Along the log, the step that keys the combat never goes back. */
  lemma {:induction false} ContextMonotone(log: seq<LogEvent>, a: nat, b: nat)
    requires Ordered(log) && a <= b <= |log| && Context(log, a).Some? && Context(log, b).Some?
    ensures Context(log, a).value <= Context(log, b).value
    decreases b
  {
    if a < b {
      var e := log[b - 1];
      ContextIsEarlier(log, a);
      if Context(log, b) == Context(log, b - 1) {
        ContextMonotone(log, a, b - 1);
      }
    }
  }

  // ---- New entries ----

  lemma {:induction false} AboveFacts(log: seq<LogEvent>, lo: nat)
    ensures forall e :: e in Above(log, lo) <==> e in log && e.seqNo > lo
  {
    if log != [] {
      AboveFacts(log[..|log| - 1], lo);
      assert log == log[..|log| - 1] + [log[|log| - 1]];
    }
  }

  /** The new entries of a frame, as a set of numbers. */
  lemma AddedSeqNos(log: seq<LogEvent>, lo: nat)
    ensures forall i :: 0 <= i < |log| ==> (log[i].seqNo in SeqNos(Above(log, lo)) <==> log[i].seqNo > lo)
  {
    AboveFacts(log, lo);
    forall i | 0 <= i < |log|
      ensures log[i].seqNo in SeqNos(Above(log, lo)) <==> log[i].seqNo > lo
    {
      if log[i].seqNo > lo {
        assert log[i] in Above(log, lo);
      }
    }
  }

  ghost predicate NewUnder(log: seq<LogEvent>, n: nat, F: set<nat>, k: BeatKey, e: LogEvent)
    requires n <= |log|
  {
    exists i :: 0 <= i < n && log[i] == e && e.seqNo in F && KeyAt(log, i) == Some(k)
  }

  /** A beat's damage are exactly the new entries of its key. */
  lemma {:induction false} DamageInHas(log: seq<LogEvent>, n: nat, F: set<nat>, k: BeatKey, e: LogEvent)
    requires n <= |log|
    ensures e in DamageIn(log, n, F, k) <==> NewUnder(log, n, F, k, e)
  {
    if n > 0 {
      DamageInHas(log, n - 1, F, k, e);
      if i :| 0 <= i < n && log[i] == e && e.seqNo in F && KeyAt(log, i) == Some(k) {
        assert i < n - 1 ==> NewUnder(log, n - 1, F, k, e);
      }
    }
  }

  /** The frame's beats: one per key, in `KeysIn` order, each with some damage. */
  lemma BeatsFacts(cued: Cued, log: seq<LogEvent>, F: set<nat>)
    ensures var beats := BeatsOf(cued, log, F);
            && (forall i, j :: 0 <= i < j < |beats| ==> beats[i].key != beats[j].key)
            && (forall b <- beats :: b == BeatOf(cued, log, F, b.key) && b.damage != [])
            && (forall k :: DamageIn(log, |log|, F, k) != [] ==> BeatOf(cued, log, F, k) in beats)
  {
    var keys, beats := KeysIn(log, |log|, F), BeatsOf(cued, log, F);
    KeysInFacts(log, |log|, F);
    assert forall i :: 0 <= i < |beats| ==> beats[i].key == keys[i] && keys[i] in keys;
    forall k | DamageIn(log, |log|, F, k) != []
      ensures BeatOf(cued, log, F, k) in beats
    {
      var i :| 0 <= i < |keys| && keys[i] == k;
      assert beats[i] == BeatOf(cued, log, F, k);
    }
  }

  // ---- What is remembered ----

  lemma LookupRecordOne(cued: Cued, b: Beat, k: BeatKey)
    ensures Lookup(RecordOne(cued, b), k)
         == if !b.continuation && b.damage != [] && b.key == k then Some(b.damage[0].seqNo) else Lookup(cued, k)
  {
  }

  /** What is recorded under `k` after the beats: their own record if one of them is `k`'s first, else what was there. */
  lemma {:induction false} LookupRecordAt(cued: Cued, beats: seq<Beat>, k: BeatKey)
    requires forall b <- beats :: b.damage != [] && b.continuation == Lookup(cued, b.key).Some?
    ensures Lookup(cued, k).Some? || (forall b <- beats :: b.key != k) ==> Lookup(Record(cued, beats), k) == Lookup(cued, k)
    ensures Lookup(cued, k).None? ==> forall b <- beats :: b.key == k ==> Lookup(Record(cued, beats), k).Some?
  {
    if beats != [] {
      var rest, last := beats[..|beats| - 1], beats[|beats| - 1];
      assert beats == rest + [last];
      LookupRecordAt(cued, rest, k);
      LookupRecordOne(Record(cued, rest), last, k);
    }
  }

  lemma {:induction false} LookupFirst(cued: Cued, beats: seq<Beat>, b: Beat)
    requires forall i, j :: 0 <= i < j < |beats| ==> beats[i].key != beats[j].key
    requires forall x <- beats :: x.damage != [] && x.continuation == Lookup(cued, x.key).Some?
    requires b in beats && !b.continuation
    ensures Lookup(Record(cued, beats), b.key) == Some(b.damage[0].seqNo)
  {
    var rest, last := beats[..|beats| - 1], beats[|beats| - 1];
    assert beats == rest + [last];
    LookupRecordOne(Record(cued, rest), last, b.key);
    if last != b {
      LookupFirst(cued, rest, b);
      var i :| 0 <= i < |rest| && rest[i] == b;
      assert beats[i].key != beats[|beats| - 1].key;
    }
  }

  lemma LookupRecord(cued: Cued, beats: seq<Beat>, k: BeatKey)
    requires forall i, j :: 0 <= i < j < |beats| ==> beats[i].key != beats[j].key
    requires forall b <- beats :: b.damage != [] && b.continuation == Lookup(cued, b.key).Some?
    ensures Lookup(cued, k).Some? ==> Lookup(Record(cued, beats), k) == Lookup(cued, k)
    ensures forall b <- beats :: b.key == k && !b.continuation ==>
              Lookup(Record(cued, beats), k) == Some(b.damage[0].seqNo)
    ensures Lookup(cued, k).None? && (forall b <- beats :: b.key != k) ==> Lookup(Record(cued, beats), k).None?
  {
    LookupRecordAt(cued, beats, k);
    forall b | b in beats && b.key == k && !b.continuation
      ensures Lookup(Record(cued, beats), k) == Some(b.damage[0].seqNo)
    {
      LookupFirst(cued, beats, b);
    }
  }

  /** The largest step key pruning drops, 0 when it drops none. */
  ghost function PruneFloor(m: Cued): nat
    decreases |m|
  {
    if |m| <= CUED_STEPS_KEPT then 0
    else
      var oldest := MinKey(m.Keys);
      var higher := PruneFloor(m - {oldest});
      if higher == 0 then oldest else higher
  }

  /** Only the largest step keys survive pruning; if any was dropped, eight are left. */
  lemma {:induction false} PruneKeepsNewest(m: Cued)
    requires 0 !in m
    ensures forall s :: s in Prune(m) <==> s in m && s > PruneFloor(m)
    ensures forall s <- Prune(m) :: Prune(m)[s] == m[s]
    ensures PruneFloor(m) == 0 || (PruneFloor(m) in m && |Prune(m)| == CUED_STEPS_KEPT)
    ensures PruneFloor(m) == 0 <==> |m| <= CUED_STEPS_KEPT
    decreases |m|
  {
    if |m| > CUED_STEPS_KEPT {
      var oldest := MinKey(m.Keys);
      var rest := m - {oldest};
      PruneKeepsNewest(rest);
      assert rest.Keys == m.Keys - {oldest};
    }
  }

  lemma {:induction false} RecordNonEmpty(cued: Cued, beats: seq<Beat>)
    requires forall s <- cued :: cued[s] != map[]
    ensures forall s <- Record(cued, beats) :: Record(cued, beats)[s] != map[]
    ensures cued.Keys <= Record(cued, beats).Keys
  {
    if beats != [] {
      var rest, b := beats[..|beats| - 1], beats[|beats| - 1];
      RecordNonEmpty(cued, rest);
      var m := if b.key.stepSeq in Record(cued, rest) then Record(cued, rest)[b.key.stepSeq] else map[];
      if !b.continuation && b.damage != [] {
        assert b.key.tag in m[b.key.tag := b.damage[0].seqNo];
      }
    }
  }

  // ---- The tracker's invariant ----

  /** Entry number `f` is in the log, and carries key `k`. */
  ghost predicate CuedBy(log: seq<LogEvent>, k: BeatKey, f: nat) {
    exists i :: 0 <= i < |log| && log[i].seqNo == f && KeyAt(log, i) == Some(k)
  }

  /**
   The watermark is the top of the last frame's log, and every record names an
   entry that is still in that log, with the recorded key.
   */
  ghost predicate Sound(t: BeatTracker, log: seq<LogEvent>) {
    && t.primed
    && t.maxSeq == Top(log)
    && (forall s <- t.cued :: t.cued[s] != map[])
    && (forall k :: Lookup(t.cued, k).Some? ==> CuedBy(log, k, Lookup(t.cued, k).value))
  }

  lemma SoundBounds(t: BeatTracker, log: seq<LogEvent>)
    requires Ordered(log) && Sound(t, log)
    ensures forall k :: Lookup(t.cued, k).Some? ==> 0 < k.stepSeq < Lookup(t.cued, k).value <= t.maxSeq
    ensures 0 !in t.cued
  {
    forall k | Lookup(t.cued, k).Some?
      ensures 0 < k.stepSeq < Lookup(t.cued, k).value <= t.maxSeq
    {
      var i :| 0 <= i < |log| && log[i].seqNo == Lookup(t.cued, k).value && KeyAt(log, i) == Some(k);
      KeyIsEarlier(log, i);
      TopOfPrefix(log, log);
    }
    forall s <- t.cued
      ensures 0 < s
    {
      var tag :| tag in t.cued[s];
      assert Lookup(t.cued, BeatKey(s, tag)).Some?;
    }
  }

  lemma CuedByPrefix(a: seq<LogEvent>, b: seq<LogEvent>, k: BeatKey, f: nat)
    requires Ordered(b) && a <= b
    ensures CuedBy(a, k, f) ==> CuedBy(b, k, f)
    ensures CuedBy(b, k, f) && f <= Top(a) ==> CuedBy(a, k, f)
  {
    TopOfPrefix(a, b);
    if i :| 0 <= i < |a| && a[i].seqNo == f && KeyAt(a, i) == Some(k) {
      KeyAtPrefix(a, b, i);
      assert b[i].seqNo == f;
    }
    if CuedBy(b, k, f) && f <= Top(a) {
      var i :| 0 <= i < |b| && b[i].seqNo == f && KeyAt(b, i) == Some(k);
      KeyAtPrefix(a, b, i);
      assert a[i].seqNo == f;
    }
  }

  lemma LookupKept(cued: Cued, top: nat, k: BeatKey)
    ensures Lookup(KeptCued(cued, top), k)
         == if Lookup(cued, k).Some? && Lookup(cued, k).value <= top && k.stepSeq <= top then Lookup(cued, k) else None
  {
    if Lookup(cued, k).Some? && Lookup(cued, k).value <= top {
      assert k.tag in KeptBeats(cued[k.stepSeq], top);
    }
  }

  lemma GrowSound(t: BeatTracker, a: seq<LogEvent>, b: seq<LogEvent>)
    requires Ordered(a) && Ordered(b) && t.primed && Sound(t, a) && a <= b
    ensures TrackOf(t, b, false).tracker == t.(maxSeq := Top(b)) && Sound(TrackOf(t, b, false).tracker, b)
  {
    TopOfPrefix(a, b);
    if |a| == |b| { assert a == b; }
    forall k | Lookup(t.cued, k).Some?
      ensures CuedBy(b, k, Lookup(t.cued, k).value)
    {
      CuedByPrefix(a, b, k, Lookup(t.cued, k).value);
    }
  }

  lemma RewindSound(t: BeatTracker, a: seq<LogEvent>, b: seq<LogEvent>)
    requires Ordered(a) && Ordered(b) && t.primed && Sound(t, a) && b <= a && Top(b) < Top(a)
    ensures TrackOf(t, b, false).tracker == t.(maxSeq := Top(b), cued := KeptCued(t.cued, Top(b)))
    ensures TrackOf(t, b, false).added == [] && Sound(TrackOf(t, b, false).tracker, b)
    ensures forall k :: Lookup(KeptCued(t.cued, Top(b)), k)
              == if Lookup(t.cued, k).Some? && Lookup(t.cued, k).value <= Top(b) then Lookup(t.cued, k) else None
  {
    SoundBounds(t, a);
    forall k
      ensures Lookup(KeptCued(t.cued, Top(b)), k)
           == if Lookup(t.cued, k).Some? && Lookup(t.cued, k).value <= Top(b) then Lookup(t.cued, k) else None
      ensures Lookup(KeptCued(t.cued, Top(b)), k).Some? ==> CuedBy(b, k, Lookup(KeptCued(t.cued, Top(b)), k).value)
    {
      LookupKept(t.cued, Top(b), k);
      if Lookup(t.cued, k).Some? { CuedByPrefix(b, a, k, Lookup(t.cued, k).value); }
    }
  }

  lemma SameTopSameLog(a: seq<LogEvent>, b: seq<LogEvent>)
    requires Ordered(a) && Ordered(b) && b <= a && Top(a) <= Top(b)
    ensures a == b
  {
    TopOfPrefix(b, a);
    TopIsLast(a);
    TopIsLast(b);
    if |b| > 0 { assert a[|b| - 1] == b[|b| - 1]; }
    assert |b| == |a|;
  }

  /** One frame's tracking keeps the invariant; a surviving record is an old one. */
  lemma TrackSound(t: BeatTracker, a: seq<LogEvent>, b: seq<LogEvent>, reprime: bool)
    requires Ordered(a) && Ordered(b)
    requires t.primed ==> Sound(t, a)
    requires t.primed && !reprime ==> a <= b || b <= a
    ensures var r := TrackOf(t, b, reprime);
            && Sound(r.tracker, b)
            && (r.added != [] ==> t.primed && !reprime && a <= b && r.tracker.cued == t.cued)
            && (forall k :: Lookup(r.tracker.cued, k).Some? ==> Lookup(r.tracker.cued, k) == Lookup(t.cued, k))
            && (t.primed && !reprime ==> forall k ::
                  Lookup(t.cued, k).Some? && Lookup(t.cued, k).value <= Top(b) ==>
                    Lookup(r.tracker.cued, k) == Lookup(t.cued, k))
  {
    if t.primed && !reprime {
      if a <= b {
        GrowSound(t, a, b);
      } else if Top(b) < Top(a) {
        RewindSound(t, a, b);
      } else {
        SameTopSameLog(a, b);
      }
    }
  }

  lemma RecordCuedBy(t: BeatTracker, log: seq<LogEvent>, F: set<nat>, k: BeatKey)
    requires Sound(t, log) && Lookup(Record(t.cued, BeatsOf(t.cued, log, F)), k).Some?
    ensures CuedBy(log, k, Lookup(Record(t.cued, BeatsOf(t.cued, log, F)), k).value)
  {
    var beats := BeatsOf(t.cued, log, F);
    BeatsFacts(t.cued, log, F);
    LookupRecord(t.cued, beats, k);
    if Lookup(t.cued, k).None? {
      var b :| b in beats && b.key == k;
      DamageInHas(log, |log|, F, k, b.damage[0]);
    }
  }

  /** Recording a frame's beats keeps the invariant, with or without pruning. */
  lemma RecordSound(t: BeatTracker, log: seq<LogEvent>, F: set<nat>)
    requires Ordered(log) && Sound(t, log)
    ensures var beats := BeatsOf(t.cued, log, F);
            && Sound(t.(cued := Record(t.cued, beats)), log)
            && Sound(SplitTracker(t, beats), log)
  {
    var beats := BeatsOf(t.cued, log, F);
    var after := t.(cued := Record(t.cued, beats));
    RecordNonEmpty(t.cued, beats);
    forall k | Lookup(after.cued, k).Some?
      ensures CuedBy(log, k, Lookup(after.cued, k).value)
    {
      RecordCuedBy(t, log, F, k);
    }
    SoundBounds(after, log);
    PruneKeepsNewest(after.cued);
    assert forall k :: Lookup(Prune(after.cued), k).Some? ==> Lookup(Prune(after.cued), k) == Lookup(after.cued, k);
  }

  /**
   On every run, after every frame: the watermark is the top of the frame's
   log, and every cued record has its step before its first cued entry, which
   is in the log under that key.
   */
  lemma {:induction false} TrackerInvariant(frames: seq<Frame>, ts: seq<BeatTracker>, bounded: bool, n: nat)
    requires Run(frames, ts, bounded) && 0 < n <= |frames|
    ensures Sound(ts[n], frames[n - 1].log)
    ensures Sound(TrackFrame(ts[n - 1], frames[n - 1]).tracker, frames[n - 1].log)
    ensures forall k :: Lookup(ts[n].cued, k).Some? ==> 0 < k.stepSeq < Lookup(ts[n].cued, k).value <= ts[n].maxSeq
  {
    var log := frames[n - 1].log;
    if n > 1 {
      TrackerInvariant(frames, ts, bounded, n - 1);
      TrackSound(ts[n - 1], frames[n - 2].log, log, frames[n - 1].reprime);
    } else {
      TrackSound(ts[0], log, log, frames[0].reprime);
    }
    assert FrameStep(ts[n - 1], frames[n - 1], bounded, ts[n - 1 + 1]);
    var r := TrackFrame(ts[n - 1], frames[n - 1]);
    RecordSound(r.tracker, log, SeqNos(r.added));
    SoundBounds(ts[n], log);
  }

  // ---- Each entry is handled exactly once ----

  /** New in frame `l`, by the logs alone: above the last frame's top, unless the frame re-primes. */
  ghost predicate IsNew(frames: seq<Frame>, l: nat, e: LogEvent)
    requires l < |frames|
  {
    0 < l && !frames[l].reprime && e in frames[l].log && e.seqNo > Top(frames[l - 1].log)
  }

  /** The pipeline's watermark finds exactly the entries that are new. */
  lemma AddedIsNew(frames: seq<Frame>, ts: seq<BeatTracker>, bounded: bool, l: nat, e: LogEvent)
    requires Run(frames, ts, bounded) && l < |frames|
    ensures e in TrackFrame(ts[l], frames[l]).added <==> IsNew(frames, l, e)
  {
    if l > 0 {
      TrackerInvariant(frames, ts, bounded, l);
      AboveFacts(frames[l].log, ts[l].maxSeq);
      TopOfPrefix(frames[l].log, frames[l].log);
    }
  }

  lemma {:induction false} NewSinceRewind(frames: seq<Frame>, i: nat, j: nat, e: LogEvent) returns (l: nat)
    requires RunOk(frames) && i < j < |frames|
    requires forall m :: i < m <= j ==> !frames[m].reprime
    requires e in frames[j].log && Top(frames[i].log) < e.seqNo
    ensures i < l <= j && IsNew(frames, l, e)
    ensures forall m :: l <= m <= j ==> e in frames[m].log && Top(frames[m].log) >= e.seqNo
    decreases j
  {
    TopOfPrefix(frames[j].log, frames[j].log);
    if Top(frames[j - 1].log) < e.seqNo {
      l := j;
    } else {
      StillThere(frames[j - 1].log, frames[j].log, e);
      l := NewSinceRewind(frames, i, j - 1, e);
    }
  }

  lemma StillThere(a: seq<LogEvent>, b: seq<LogEvent>, e: LogEvent)
    requires Ordered(a) && Ordered(b) && (a <= b || b <= a) && e in b && e.seqNo <= Top(a)
    ensures e in a
  {
    var x :| 0 <= x < |b| && b[x] == e;
    if a <= b {
      TopOfPrefix(a, b);
    }
    assert a[x] == e;
  }

  /**
   An entry that was not yet in the log after frame `i` and is in it after
   frame `j` was handled in exactly one frame `l` since it last came back: no
   frame from `l` on has rewound past it, and none after `l` handles it again.
   */
  lemma HandledOnceSinceRewind(frames: seq<Frame>, ts: seq<BeatTracker>, i: nat, j: nat, e: LogEvent)
      returns (l: nat)
    requires Run(frames, ts, true) && i < j < |frames|
    requires forall m :: i < m <= j ==> !frames[m].reprime
    requires e in frames[j].log && Top(frames[i].log) < e.seqNo
    ensures i < l <= j && e in TrackFrame(ts[l], frames[l]).added
    ensures forall m :: l <= m <= j ==> e in frames[m].log
    ensures forall m :: l < m <= j ==> e !in TrackFrame(ts[m], frames[m]).added
  {
    l := NewSinceRewind(frames, i, j, e);
    AddedIsNew(frames, ts, true, l, e);
    forall m | l < m <= j
      ensures e !in TrackFrame(ts[m], frames[m]).added
    {
      AddedIsNew(frames, ts, true, m, e);
      assert Top(frames[m - 1].log) >= e.seqNo;
    }
  }

  /** An entry number handled in two frames was rewound past just before the second. */
  lemma HandledTwiceNeedsRewind(frames: seq<Frame>, ts: seq<BeatTracker>, i: nat, j: nat, e: LogEvent, e': LogEvent)
    requires Run(frames, ts, true) && i < j < |frames| && e.seqNo == e'.seqNo
    requires e in TrackFrame(ts[i], frames[i]).added && e' in TrackFrame(ts[j], frames[j]).added
    ensures i < j - 1 && Top(frames[j - 1].log) < e.seqNo <= Top(frames[i].log)
  {
    AddedIsNew(frames, ts, true, j, e');
    AddedIsNew(frames, ts, true, i, e);
    TopOfPrefix(frames[i].log, frames[i].log);
  }

  // ---- However the log is cut, the damage lands in the same beats ----

  /** Each frame after the first only adds to the log, and none re-primes. */
  ghost predicate Growing(frames: seq<Frame>) {
    && RunOk(frames)
    && (forall i :: 0 < i < |frames| ==> !frames[i].reprime && frames[i - 1].log <= frames[i].log)
  }

  /** The damage a list of beats holds for key `k`. */
  function DamageOf(beats: seq<Beat>, k: BeatKey): seq<LogEvent> {
    if beats == [] then []
    else
      var before := DamageOf(beats[..|beats| - 1], k);
      if beats[|beats| - 1].key == k then before + beats[|beats| - 1].damage else before
  }

  /** The damage of key `k` over all beats of the first `n` frames, in the order it was cued. */
  ghost function DamageSoFar(frames: seq<Frame>, ts: seq<BeatTracker>, n: nat, k: BeatKey): seq<LogEvent>
    requires n <= |frames| <= |ts|
  {
    if n == 0 then []
    else DamageSoFar(frames, ts, n - 1, k) + DamageOf(FrameBeats(ts[n - 1], frames[n - 1]), k)
  }

  /** Every entry of the log above `lo` that carries key `k`, in log order. */
  function KeyedAbove(log: seq<LogEvent>, lo: nat, k: BeatKey): seq<LogEvent> {
    DamageIn(log, |log|, SeqNos(Above(log, lo)), k)
  }

  lemma {:induction false} DamageOfOne(beats: seq<Beat>, k: BeatKey)
    requires forall i, j :: 0 <= i < j < |beats| ==> beats[i].key != beats[j].key
    ensures forall b <- beats :: b.key == k ==> DamageOf(beats, k) == b.damage
    ensures (forall b <- beats :: b.key != k) ==> DamageOf(beats, k) == []
  {
    if beats != [] {
      var rest, last := beats[..|beats| - 1], beats[|beats| - 1];
      DamageOfOne(rest, k);
      assert beats == rest + [last];
      assert forall b <- rest :: b.key != last.key;
    }
  }

  /** At most one beat of a frame has key `k`, and it holds the new entries of that key. */
  lemma FrameDamage(cued: Cued, log: seq<LogEvent>, F: set<nat>, k: BeatKey)
    ensures DamageOf(BeatsOf(cued, log, F), k) == DamageIn(log, |log|, F, k)
  {
    var beats := BeatsOf(cued, log, F);
    BeatsFacts(cued, log, F);
    DamageOfOne(beats, k);
    if DamageIn(log, |log|, F, k) != [] {
      assert BeatOf(cued, log, F, k) in beats;
    }
  }

  lemma {:induction false} DamageInAgree(a: seq<LogEvent>, b: seq<LogEvent>, n: nat, F: set<nat>, G: set<nat>, k: BeatKey)
    requires a <= b && n <= |a|
    requires forall i :: 0 <= i < n ==> (a[i].seqNo in F <==> a[i].seqNo in G)
    ensures DamageIn(a, n, F, k) == DamageIn(b, n, G, k)
  {
    if n > 0 {
      DamageInAgree(a, b, n - 1, F, G, k);
      KeyAtPrefix(a, b, n - 1);
    }
  }

  lemma {:induction false} DamageInEmpty(log: seq<LogEvent>, n: nat, F: set<nat>, k: BeatKey)
    requires n <= |log| && (forall i :: 0 <= i < n ==> log[i].seqNo !in F)
    ensures DamageIn(log, n, F, k) == []
  {
    if n > 0 {
      DamageInEmpty(log, n - 1, F, k);
    }
  }

  /** The damage among the entries of `F` is that among the first `|a|` entries, then that among the later ones. */
  lemma {:induction false} DamageInSplitBy(a: seq<LogEvent>, b: seq<LogEvent>, n: nat,
        early: set<nat>, F: set<nat>, late: set<nat>, k: BeatKey)
    requires a <= b && |a| <= n <= |b|
    requires forall i :: 0 <= i < |a| ==> (a[i].seqNo in early <==> a[i].seqNo in F) && b[i].seqNo !in late
    requires forall i :: |a| <= i < |b| ==> (b[i].seqNo in F <==> b[i].seqNo in late)
    ensures DamageIn(b, n, F, k) == DamageIn(a, |a|, early, k) + DamageIn(b, n, late, k)
    decreases n
  {
    if n == |a| {
      DamageInAgree(a, b, n, early, F, k);
      DamageInEmpty(b, n, late, k);
    } else {
      DamageInSplitBy(a, b, n - 1, early, F, late, k);
    }
  }

  lemma DamageInSplit(a: seq<LogEvent>, b: seq<LogEvent>, n: nat, lo: nat, k: BeatKey)
    requires Ordered(b) && a <= b && |a| <= n <= |b| && lo <= Top(a)
    ensures DamageIn(b, n, SeqNos(Above(b, lo)), k)
         == DamageIn(a, |a|, SeqNos(Above(a, lo)), k) + DamageIn(b, n, SeqNos(Above(b, Top(a))), k)
  {
    TopOfPrefix(a, b);
    AddedSeqNos(a, lo);
    AddedSeqNos(b, lo);
    AddedSeqNos(b, Top(a));
    assert forall i :: 0 <= i < |a| ==> a[i] == b[i];
    DamageInSplitBy(a, b, n, SeqNos(Above(a, lo)), SeqNos(Above(b, lo)), SeqNos(Above(b, Top(a))), k);
  }

  lemma {:induction false} TopGrows(frames: seq<Frame>, i: nat, j: nat)
    requires Growing(frames) && i <= j < |frames|
    ensures frames[i].log <= frames[j].log && Top(frames[i].log) <= Top(frames[j].log)
    decreases j
  {
    if i < j {
      TopGrows(frames, i, j - 1);
      TopOfPrefix(frames[i].log, frames[j].log);
      if |frames[i].log| == |frames[j].log| {
        assert frames[i].log == frames[j].log;
      }
    }
  }

  /**
   However a growing log is cut into frames after the priming one: over all
   beats of a combat step and tag, the damage cued is exactly the log's damage
   entries of that step and tag since the priming frame, each once, in log order.
   */
  lemma {:induction false} DamageIsCuedExactlyOnce(frames: seq<Frame>, ts: seq<BeatTracker>, n: nat, k: BeatKey)
    requires Growing(frames) && Run(frames, ts, true) && 0 < n <= |frames|
    ensures DamageSoFar(frames, ts, n, k) == KeyedAbove(frames[n - 1].log, Top(frames[0].log), k)
  {
    var log := frames[n - 1].log;
    var lo := Top(frames[0].log);
    var t := TrackFrame(ts[n - 1], frames[n - 1]);
    FrameDamage(t.tracker.cued, log, SeqNos(t.added), k);
    if n == 1 {
      assert SeqNos(t.added) == {};
      DamageInEmpty(log, |log|, {}, k);
      AddedSeqNos(log, lo);
      TopOfPrefix(log, log);
      DamageInEmpty(log, |log|, SeqNos(Above(log, lo)), k);
    } else {
      DamageIsCuedExactlyOnce(frames, ts, n - 1, k);
      TrackerInvariant(frames, ts, true, n - 1);
      TopGrows(frames, 0, n - 2);
      TopGrows(frames, n - 2, n - 1);
      DamageInSplit(frames[n - 2].log, log, |log|, lo, k);
    }
  }

  /** Two ways of cutting the same growth put every damage entry in the same beat. */
  lemma CutsAgree(frames: seq<Frame>, ts: seq<BeatTracker>, other: seq<Frame>, us: seq<BeatTracker>, k: BeatKey)
    requires Growing(frames) && Run(frames, ts, true) && Growing(other) && Run(other, us, true)
    requires frames != [] && other != []
    requires frames[0].log == other[0].log && frames[|frames| - 1].log == other[|other| - 1].log
    ensures DamageSoFar(frames, ts, |frames|, k) == DamageSoFar(other, us, |other|, k)
  {
    DamageIsCuedExactlyOnce(frames, ts, |frames|, k);
    DamageIsCuedExactlyOnce(other, us, |other|, k);
  }

  // ---- Which steps a frame's new damage can be of ----

  /**
   A forgotten step is re-entered only by undoing every remembered one: a
   remembered step is at or before the step of any entry that is new.
   */
  lemma RememberedIsBelow(frames: seq<Frame>, ts: seq<BeatTracker>, i: nat, x: nat, s: nat)
    requires Run(frames, ts, true) && 0 < i < |frames| && x < |frames[i].log|
    requires IsNew(frames, i, frames[i].log[x]) && KeyAt(frames[i].log, x).Some? && s in ts[i].cued
    ensures s <= KeyAt(frames[i].log, x).value.stepSeq
    ensures exists tag :: Lookup(ts[i].cued, BeatKey(s, tag)).Some?
  {
    var a, b := frames[i - 1].log, frames[i].log;
    TrackerInvariant(frames, ts, true, i);
    var tag :| tag in ts[i].cued[s];
    var k := BeatKey(s, tag);
    assert Lookup(ts[i].cued, k).Some?;
    if |b| <= |a| {
      TopOfPrefix(b, a);
    }
    CuedByPrefix(a, b, k, Lookup(ts[i].cued, k).value);
    var y :| 0 <= y < |b| && b[y].seqNo == Lookup(ts[i].cued, k).value && KeyAt(b, y) == Some(k);
    TopOfPrefix(a, a);
    ContextMonotone(b, y, x);
  }

  lemma NumberedIsAdded(prev: BeatTracker, f: Frame, x: nat)
    requires Ordered(f.log) && x < |f.log| && f.log[x].seqNo in SeqNos(TrackFrame(prev, f).added)
    ensures f.log[x] in TrackFrame(prev, f).added
  {
    var e :| e in TrackFrame(prev, f).added && e.seqNo == f.log[x].seqNo;
    AboveFacts(f.log, prev.maxSeq);
  }

  /** A cued beat's first damage entry is a new entry of the log with the beat's key. */
  lemma FirstOf(prev: BeatTracker, f: Frame, b: Beat) returns (x: nat)
    requires Ordered(f.log) && b in FrameBeats(prev, f)
    ensures b.damage != [] && x < |f.log| && f.log[x] == b.damage[0] && KeyAt(f.log, x) == Some(b.key)
    ensures f.log[x] in TrackFrame(prev, f).added && 0 < b.key.stepSeq
  {
    var r := TrackFrame(prev, f);
    var F := SeqNos(r.added);
    BeatsFacts(r.tracker.cued, f.log, F);
    assert b == BeatOf(r.tracker.cued, f.log, F, b.key);
    DamageInHas(f.log, |f.log|, F, b.key, b.damage[0]);
    x :| 0 <= x < |f.log| && f.log[x] == b.damage[0] && f.log[x].seqNo in F && KeyAt(f.log, x) == Some(b.key);
    KeyIsEarlier(f.log, x);
    NumberedIsAdded(prev, f, x);
  }

  /** Every list of frames has its run. */
  lemma {:induction false} RunExists(frames: seq<Frame>, bounded: bool) returns (ts: seq<BeatTracker>)
    requires RunOk(frames)
    ensures Run(frames, ts, bounded)
  {
    if frames == [] {
      ts := [EMPTY_TRACKER];
    } else {
      var n := |frames| - 1;
      var us := RunExists(frames[..n], bounded);
      ts := us + [FrameTracker(us[n], frames[n], bounded)];
      forall i | 0 <= i < |frames|
        ensures FrameStep(ts[i], frames[i], bounded, ts[i + 1])
      {
        if i < n {
          assert FrameStep(us[i], frames[..n][i], bounded, us[i + 1]);
        }
      }
    }
  }

  // ---- The 200-entry window ----

  lemma {:induction false} WindowKeeps(log: seq<LogEvent>, d: nat, start: nat, n: nat, F: set<nat>, k: BeatKey)
    requires d <= start <= n <= |log|
    requires Context(log, start) == Context(log[d..], start - d)
    requires forall i :: 0 <= i < start ==> log[i].seqNo !in F
    ensures Context(log, n) == Context(log[d..], n - d)
    ensures Current(log, n, F) == Current(log[d..], n - d, F)
    ensures DamageIn(log, n, F, k) == DamageIn(log[d..], n - d, F, k)
    ensures MembersIn(log, n, F, k) == MembersIn(log[d..], n - d, F, k)
    ensures KeysIn(log, n, F) == KeysIn(log[d..], n - d, F)
    decreases n
  {
    if n == start {
      NothingNew(log, n, F, k);
      NothingNew(log[d..], n - d, F, k);
    } else {
      WindowKeeps(log, d, start, n - 1, F, k);
      assert log[d..][n - d - 1] == log[n - 1];
    }
  }

  lemma {:induction false} NothingNew(log: seq<LogEvent>, n: nat, F: set<nat>, k: BeatKey)
    requires n <= |log| && (forall i :: 0 <= i < n ==> log[i].seqNo !in F)
    ensures Current(log, n, F).None? && DamageIn(log, n, F, k) == [] && MembersIn(log, n, F, k) == []
    ensures KeysIn(log, n, F) == []
  {
    if n > 0 {
      NothingNew(log, n - 1, F, k);
    }
  }

  /** The same beat but for its arrows, which are drawn from whatever block entries the log shows. */
  ghost predicate SameButArrows(a: Beat, b: Beat) {
    a == b.(arrows := a.arrows)
  }

  lemma WindowBeat(cued: Cued, log: seq<LogEvent>, d: nat, start: nat, F: set<nat>, k: BeatKey)
    requires d <= start <= |log| && Context(log, start) == Context(log[d..], start - d)
    requires forall i :: 0 <= i < start ==> log[i].seqNo !in F
    ensures SameButArrows(BeatOf(cued, log, F, k), BeatOf(cued, log[d..], F, k))
  {
    WindowKeeps(log, d, start, |log|, F, k);
    WindowKeeps(log, d, start, |log|, F, BeatKey(k.stepSeq, FirstStrike));
  }

  lemma WindowKeys(log: seq<LogEvent>, d: nat, start: nat, F: set<nat>)
    requires d <= start <= |log| && Context(log, start) == Context(log[d..], start - d)
    requires forall i :: 0 <= i < start ==> log[i].seqNo !in F
    ensures KeysIn(log, |log|, F) == KeysIn(log[d..], |log[d..]|, F)
  {
    WindowKeeps(log, d, start, |log|, F, BeatKey(0, Regular));
  }

  /**
   A frame that carries only the log from `d` on splits its new entries as the
   whole log would, as long as the window still shows which damage step the
   first new entry is in.
   */
  lemma WindowSplitsAlike(cued: Cued, log: seq<LogEvent>, d: nat, start: nat, F: set<nat>)
    requires d <= start <= |log| && Context(log, start) == Context(log[d..], start - d)
    requires forall i :: 0 <= i < start ==> log[i].seqNo !in F
    ensures var whole, window := BeatsOf(cued, log, F), BeatsOf(cued, log[d..], F);
            && |whole| == |window|
            && (forall i :: 0 <= i < |whole| ==> SameButArrows(whole[i], window[i]))
  {
    var keys := KeysIn(log, |log|, F);
    WindowKeys(log, d, start, F);
    forall i | 0 <= i < |keys|
      ensures SameButArrows(BeatOf(cued, log, F, keys[i]), BeatOf(cued, log[d..], F, keys[i]))
    {
      WindowBeat(cued, log, d, start, F, keys[i]);
    }
  }
}
