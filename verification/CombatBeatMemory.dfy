/**
 What the tracker's memory of eight steps forgets, against one that never does: when
 the two cue the same beats, and when a label is announced again.
 */
module CombatBeatMemory {
  import opened Wrappers
  import opened CombatLog
  import opened CombatBeats
  import opened CombatBeatRuns

  /** What the tracker holds in a frame once its beats are recorded, before any step is pruned. */
  ghost function Recorded(prev: BeatTracker, f: Frame): Cued {
    Record(TrackFrame(prev, f).tracker.cued, FrameBeats(prev, f))
  }

  /** The frame takes the entry numbered `e` out of the log, or starts over. */
  predicate Undoes(f: Frame, e: nat) {
    f.reprime || Top(f.log) < e
  }

  /** Frame `m` prunes the record of `k`. */
  ghost predicate Prunes(frames: seq<Frame>, ts: seq<BeatTracker>, m: nat, k: BeatKey)
    requires m < |frames| && |ts| == |frames| + 1
  {
    Lookup(Recorded(ts[m], frames[m]), k).Some? && Lookup(ts[m + 1].cued, k).None?
  }

  /** The first entry of `k` as frame `m` has it on record. */
  ghost function FirstEntry(frames: seq<Frame>, ts: seq<BeatTracker>, m: nat, k: BeatKey): nat
    requires m < |frames| && |ts| == |frames| + 1 && Prunes(frames, ts, m, k)
  {
    Lookup(Recorded(ts[m], frames[m]), k).value
  }

  /** No frame after `m` and before `n` undoes entry `e`. */
  ghost predicate Stands(frames: seq<Frame>, m: nat, n: nat, e: nat)
    requires n <= |frames|
  {
    forall x :: m < x < n ==> !Undoes(frames[x], e)
  }

  /** Before frame `n`, the record of `k` was pruned though its first entry still stands. */
  ghost predicate GoneBefore(frames: seq<Frame>, ts: seq<BeatTracker>, n: nat, k: BeatKey)
    requires n <= |frames| && |ts| == |frames| + 1
  {
    exists m :: 0 <= m < n && Prunes(frames, ts, m, k) && Stands(frames, m, n, FirstEntry(frames, ts, m, k))
  }

  /** Frame `i` finds the record of `k` pruned, and its first entry still in the log. */
  ghost predicate ForgottenAt(frames: seq<Frame>, ts: seq<BeatTracker>, i: nat, k: BeatKey)
    requires i < |frames| && |ts| == |frames| + 1
  {
    exists m :: 0 <= m < i && Prunes(frames, ts, m, k) && Stands(frames, m, i + 1, FirstEntry(frames, ts, m, k))
  }

  // ---- One frame of one tracker ----

  /** Tracking keeps a record exactly as long as its entry is not undone, and adds none. */
  lemma TrackLookup(frames: seq<Frame>, ts: seq<BeatTracker>, bounded: bool, n: nat, k: BeatKey)
    requires Run(frames, ts, bounded) && n < |frames|
    ensures Lookup(TrackFrame(ts[n], frames[n]).tracker.cued, k)
         == if Lookup(ts[n].cued, k).Some? && !Undoes(frames[n], Lookup(ts[n].cued, k).value) then Lookup(ts[n].cued, k) else None
  {
    if n > 0 {
      TrackerInvariant(frames, ts, bounded, n);
      TrackSound(ts[n], frames[n - 1].log, frames[n].log, frames[n].reprime);
      SoundBounds(TrackFrame(ts[n], frames[n]).tracker, frames[n].log);
    }
  }

  /** Recording adds exactly the frame's new beats, each under its first damage entry. */
  lemma RecordedLookup(prev: BeatTracker, f: Frame, k: BeatKey)
    ensures Lookup(TrackFrame(prev, f).tracker.cued, k).Some? ==> Lookup(Recorded(prev, f), k) == Lookup(TrackFrame(prev, f).tracker.cued, k)
    ensures (forall b <- FrameBeats(prev, f) :: b.key == k ==> b.continuation) ==>
              Lookup(Recorded(prev, f), k) == Lookup(TrackFrame(prev, f).tracker.cued, k)
    ensures forall b <- FrameBeats(prev, f) :: b.key == k ==>
              && b.damage != [] && b.continuation == Lookup(TrackFrame(prev, f).tracker.cued, k).Some?
              && (!b.continuation ==> Lookup(Recorded(prev, f), k) == Some(b.damage[0].seqNo))
  {
    var r := TrackFrame(prev, f);
    BeatsFacts(r.tracker.cued, f.log, SeqNos(r.added));
    LookupRecord(r.tracker.cued, FrameBeats(prev, f), k);
  }

  /** Every remembered step is later than `step`. */
  predicate AllAbove(cued: Cued, step: nat) {
    forall s <- cued :: step < s
  }

  /** Pruning drops records whole steps at a time, and changes none it keeps. */
  lemma PrunedLookup(frames: seq<Frame>, ts: seq<BeatTracker>, n: nat, k: BeatKey)
    requires Run(frames, ts, true) && n < |frames|
    ensures 0 !in Recorded(ts[n], frames[n])
    ensures Lookup(ts[n + 1].cued, k).Some? ==> Lookup(ts[n + 1].cued, k) == Lookup(Recorded(ts[n], frames[n]), k)
    ensures Prunes(frames, ts, n, k) ==> AllAbove(ts[n + 1].cued, k.stepSeq) && ts[n + 1].cued != map[]
  {
    var r := TrackFrame(ts[n], frames[n]);
    TrackerInvariant(frames, ts, true, n + 1);
    RecordSound(r.tracker, frames[n].log, SeqNos(r.added));
    SoundBounds(r.tracker.(cued := Recorded(ts[n], frames[n])), frames[n].log);
    PruneKeepsNewest(Recorded(ts[n], frames[n]));
    assert FrameStep(ts[n], frames[n], true, ts[n + 1]);
  }

  // ---- When a label is announced again ----

  /** Nothing since frame `i` has undone entry `e` or pruned `k`, up to frame `n`. */
  ghost predicate Untouched(frames: seq<Frame>, ts: seq<BeatTracker>, i: nat, n: nat, k: BeatKey, e: nat)
    requires i < n <= |frames| && |ts| == |frames| + 1
  {
    Stands(frames, i, n, e) && forall m :: i <= m < n ==> !Prunes(frames, ts, m, k)
  }

  /** Frame `m` cues no new beat of `k`. */
  ghost predicate NothingNewOf(frames: seq<Frame>, ts: seq<BeatTracker>, m: nat, k: BeatKey)
    requires m < |frames| && |ts| == |frames| + 1
  {
    forall b <- FrameBeats(ts[m], frames[m]) :: b.key == k ==> b.continuation
  }

  /** A frame's effect on one record: kept unless undone, then set by a new beat, then dropped if pruned. */
  lemma FrameLookup(frames: seq<Frame>, ts: seq<BeatTracker>, n: nat, k: BeatKey)
    requires Run(frames, ts, true) && n < |frames|
    ensures var was, now := Lookup(ts[n].cued, k), Lookup(ts[n + 1].cued, k);
            && (was.Some? && !Undoes(frames[n], was.value) && !Prunes(frames, ts, n, k) ==> now == was)
            && (NothingNewOf(frames, ts, n, k) && (was.None? || Undoes(frames[n], was.value)) ==> now.None?)
            && (Prunes(frames, ts, n, k) ==> now.None?)
  {
    TrackLookup(frames, ts, true, n, k);
    RecordedLookup(ts[n], frames[n], k);
    PrunedLookup(frames, ts, n, k);
  }

  lemma LastsOneMore(frames: seq<Frame>, ts: seq<BeatTracker>, n: nat, k: BeatKey, e: nat)
    requires Run(frames, ts, true) && n < |frames| && Lookup(ts[n].cued, k) == Some(e)
    requires !Undoes(frames[n], e) && !Prunes(frames, ts, n, k)
    ensures Lookup(ts[n + 1].cued, k) == Some(e)
  {
    FrameLookup(frames, ts, n, k);
  }

  /** A record made in frame `i` lasts as long as nothing undoes its entry or prunes it. */
  lemma {:induction false} RecordLasts(frames: seq<Frame>, ts: seq<BeatTracker>, i: nat, n: nat, k: BeatKey, e: nat)
    requires Run(frames, ts, true) && i < n <= |frames|
    requires Lookup(Recorded(ts[i], frames[i]), k) == Some(e) && Untouched(frames, ts, i, n, k, e)
    ensures Lookup(ts[n].cued, k) == Some(e)
    decreases n
  {
    if i == n - 1 {
      RecordGoesOn(frames, ts, i, k, e);
    } else {
      UntouchedGrows(frames, ts, i, n - 1, k, e);
      RecordLasts(frames, ts, i, n - 1, k, e);
      LastsOneMore(frames, ts, n - 1, k, e);
    }
  }

  /** Frame by frame, the record of `k` stays as it is or goes. */
  ghost predicate Fading(ts: seq<BeatTracker>, i: nat, n: nat, k: BeatKey)
    requires n < |ts|
  {
    forall m {:trigger ts[m]} :: i < m < n ==> Fades(ts[m], ts[m + 1], k)
  }

  ghost predicate Fades(t: BeatTracker, next: BeatTracker, k: BeatKey) {
    Lookup(next.cued, k) == Lookup(t.cued, k) || Lookup(next.cued, k).None?
  }

  lemma {:induction false} FadedStaysFaded(ts: seq<BeatTracker>, i: nat, p: nat, n: nat, k: BeatKey)
    requires i < p <= n < |ts| && Fading(ts, i, n, k)
    ensures Lookup(ts[n].cued, k) == Lookup(ts[p].cued, k) || Lookup(ts[n].cued, k).None?
    decreases n
  {
    if p < n {
      FadedStaysFaded(ts, i, p, n - 1, k);
      assert Fades(ts[n - 1], ts[n - 1 + 1], k);
    }
  }

  /** Nothing frames `i` and `n` apart cue of `k` is new. */
  ghost predicate QuietBetween(frames: seq<Frame>, ts: seq<BeatTracker>, i: nat, n: nat, k: BeatKey)
    requires n <= |frames| && |ts| == |frames| + 1
  {
    forall m :: i < m < n ==> NothingNewOf(frames, ts, m, k)
  }

  lemma QuietFades(frames: seq<Frame>, ts: seq<BeatTracker>, i: nat, n: nat, k: BeatKey)
    requires Run(frames, ts, true) && n <= |frames| && QuietBetween(frames, ts, i, n, k)
    ensures Fading(ts, i, n, k)
  {
    forall m {:trigger ts[m]} | i < m < n ensures Fades(ts[m], ts[m + 1], k) {
      QuietFrame(frames, ts, m, k);
    }
  }

  lemma QuietFrame(frames: seq<Frame>, ts: seq<BeatTracker>, m: nat, k: BeatKey)
    requires Run(frames, ts, true) && m < |frames| && NothingNewOf(frames, ts, m, k)
    ensures Fades(ts[m], ts[m + 1], k)
    ensures Lookup(ts[m].cued, k).Some? && Undoes(frames[m], Lookup(ts[m].cued, k).value) ==> Lookup(ts[m + 1].cued, k).None?
  {
    TrackLookup(frames, ts, true, m, k);
    RecordedLookup(ts[m], frames[m], k);
    PrunedLookup(frames, ts, m, k);
  }

  lemma LostAt(frames: seq<Frame>, ts: seq<BeatTracker>, i: nat, n: nat, k: BeatKey, e: nat) returns (p: nat)
    requires Run(frames, ts, true) && i < n <= |frames| && QuietBetween(frames, ts, i, n, k) && Fading(ts, i, n, k)
    requires Lookup(Recorded(ts[i], frames[i]), k) == Some(e) && !Untouched(frames, ts, i, n, k, e)
    ensures i < p <= n && Lookup(ts[p].cued, k).None?
  {
    if m :| i <= m < n && Prunes(frames, ts, m, k) {
      p := m + 1;
    } else {
      var x :| i < x < n && Undoes(frames[x], e);
      PrunedLookup(frames, ts, i, k);
      FadedStaysFaded(ts, i, i + 1, x, k);
      QuietFrame(frames, ts, x, k);
      p := x + 1;
    }
  }

  /** Once lost, and with nothing new to record, it stays lost. */
  lemma RecordIsLost(frames: seq<Frame>, ts: seq<BeatTracker>, i: nat, n: nat, k: BeatKey, e: nat)
    requires Run(frames, ts, true) && i < n <= |frames| && QuietBetween(frames, ts, i, n, k)
    requires Lookup(Recorded(ts[i], frames[i]), k) == Some(e) && !Untouched(frames, ts, i, n, k, e)
    ensures Lookup(ts[n].cued, k).None?
  {
    QuietFades(frames, ts, i, n, k);
    var p := LostAt(frames, ts, i, n, k, e);
    FadedStaysFaded(ts, i, p, n, k);
  }

  lemma UntouchedGrows(frames: seq<Frame>, ts: seq<BeatTracker>, i: nat, n: nat, k: BeatKey, e: nat)
    requires i < n < |frames| && |ts| == |frames| + 1
    ensures Untouched(frames, ts, i, n + 1, k, e) <==>
              Untouched(frames, ts, i, n, k, e) && !Undoes(frames[n], e) && !Prunes(frames, ts, n, k)
  {
  }

  lemma RecordAtFrame(frames: seq<Frame>, ts: seq<BeatTracker>, i: nat, j: nat, k: BeatKey, e: nat)
    requires Run(frames, ts, true) && i < j < |frames| && QuietBetween(frames, ts, i, j, k)
    requires Lookup(Recorded(ts[i], frames[i]), k) == Some(e)
    ensures Lookup(TrackFrame(ts[j], frames[j]).tracker.cued, k).Some?
       <==> Untouched(frames, ts, i, j, k, e) && !Undoes(frames[j], e)
  {
    if Untouched(frames, ts, i, j, k, e) {
      RecordLasts(frames, ts, i, j, k, e);
    } else {
      RecordIsLost(frames, ts, i, j, k, e);
    }
    TrackLookup(frames, ts, true, j, k);
  }

  /**
   A combat step's tag, announced as a new beat in frame `i`, is announced as new again
   in its next new beat if and only if, in between, its first entry was undone or the
   tracker started over, or the step was pruned from its memory.
   */
  lemma LabelRepeatsIff(frames: seq<Frame>, ts: seq<BeatTracker>, i: nat, j: nat, b: Beat, again: Beat)
    requires Run(frames, ts, true) && i < j < |frames|
    requires b in FrameBeats(ts[i], frames[i]) && !b.continuation
    requires again in FrameBeats(ts[j], frames[j]) && again.key == b.key
    requires QuietBetween(frames, ts, i, j, b.key)
    ensures b.damage != []
    ensures !again.continuation <==>
              || (exists x :: i < x <= j && Undoes(frames[x], b.damage[0].seqNo))
              || (exists m :: i <= m < j && Prunes(frames, ts, m, b.key))
  {
    RecordedLookup(ts[i], frames[i], b.key);
    RecordedLookup(ts[j], frames[j], b.key);
    RecordAtFrame(frames, ts, i, j, b.key, b.damage[0].seqNo);
    UntouchedMeans(frames, ts, i, j, b.key, b.damage[0].seqNo);
  }

  lemma UntouchedMeans(frames: seq<Frame>, ts: seq<BeatTracker>, i: nat, j: nat, k: BeatKey, e: nat)
    requires i < j < |frames| && |ts| == |frames| + 1
    ensures Untouched(frames, ts, i, j, k, e) && !Undoes(frames[j], e) <==>
              && (forall x :: i < x <= j ==> !Undoes(frames[x], e))
              && (forall m :: i <= m < j ==> !Prunes(frames, ts, m, k))
  {
  }

  /** Without either in between, it is a continuation, whatever else was cued. */
  lemma LabelRepeatsOnlyAfterUndo(frames: seq<Frame>, ts: seq<BeatTracker>, i: nat, j: nat, b: Beat, again: Beat)
    requires Run(frames, ts, true) && i < j < |frames|
    requires b in FrameBeats(ts[i], frames[i]) && !b.continuation
    requires again in FrameBeats(ts[j], frames[j]) && again.key == b.key && !again.continuation
    ensures b.damage != []
    ensures (exists x :: i < x <= j && Undoes(frames[x], b.damage[0].seqNo)) || ForgottenAt(frames, ts, j, b.key)
  {
    RecordedLookup(ts[i], frames[i], b.key);
    var e := b.damage[0].seqNo;
    TrackLookup(frames, ts, true, j, b.key);
    RecordedLookup(ts[j], frames[j], b.key);
    if forall x :: i < x <= j ==> !Undoes(frames[x], e) {
      var m := GoneWasPruned(frames, ts, i, j, b.key, e);
      assert Stands(frames, m, j + 1, e);
    }
  }

  lemma {:induction false} FirstHit(hits: seq<bool>, i: nat) returns (m: nat)
    requires exists y :: i <= y < |hits| && hits[y]
    ensures i <= m < |hits| && hits[m] && forall y :: i <= y < m ==> !hits[y]
    decreases |hits| - i
  {
    if hits[i] {
      m := i;
    } else {
      m := FirstHit(hits, i + 1);
    }
  }

  lemma GoneNeedsPrune(frames: seq<Frame>, ts: seq<BeatTracker>, i: nat, j: nat, k: BeatKey, e: nat) returns (m: nat)
    requires Run(frames, ts, true) && i < j <= |frames| && Stands(frames, i, j, e)
    requires Lookup(Recorded(ts[i], frames[i]), k) == Some(e) && Lookup(ts[j].cued, k) != Some(e)
    ensures i <= m < j && Prunes(frames, ts, m, k) && forall y :: i <= y < m ==> !Prunes(frames, ts, y, k)
  {
    if Untouched(frames, ts, i, j, k, e) {
      RecordLasts(frames, ts, i, j, k, e);
    }
    var hits := seq(j, y requires 0 <= y < j => Prunes(frames, ts, y, k));
    var y :| i <= y < j && Prunes(frames, ts, y, k);
    assert hits[y];
    m := FirstHit(hits, i);
    forall x | i <= x < m ensures !Prunes(frames, ts, x, k) {
      assert !hits[x];
    }
  }

  /** A record that is gone though its entry stands was pruned. */
  lemma GoneWasPruned(frames: seq<Frame>, ts: seq<BeatTracker>, i: nat, j: nat, k: BeatKey, e: nat) returns (m: nat)
    requires Run(frames, ts, true) && i < j <= |frames| && Stands(frames, i, j, e)
    requires Lookup(Recorded(ts[i], frames[i]), k) == Some(e) && Lookup(ts[j].cued, k) != Some(e)
    ensures i <= m < j && Prunes(frames, ts, m, k) && FirstEntry(frames, ts, m, k) == e
  {
    m := GoneNeedsPrune(frames, ts, i, j, k, e);
    if i < m {
      assert Untouched(frames, ts, i, m, k, e);
      RecordLasts(frames, ts, i, m, k, e);
      NextRecorded(frames, ts, m, k, e);
    }
  }

  lemma RecordGoesOn(frames: seq<Frame>, ts: seq<BeatTracker>, i: nat, k: BeatKey, e: nat)
    requires Run(frames, ts, true) && i < |frames| && Lookup(Recorded(ts[i], frames[i]), k) == Some(e) && !Prunes(frames, ts, i, k)
    ensures Lookup(ts[i + 1].cued, k) == Some(e)
  {
    PrunedLookup(frames, ts, i, k);
  }

  lemma NextRecorded(frames: seq<Frame>, ts: seq<BeatTracker>, i: nat, k: BeatKey, e: nat)
    requires Run(frames, ts, true) && i < |frames| && Lookup(ts[i].cued, k) == Some(e) && !Undoes(frames[i], e)
    ensures Lookup(Recorded(ts[i], frames[i]), k) == Some(e)
  {
    TrackLookup(frames, ts, true, i, k);
    RecordedLookup(ts[i], frames[i], k);
  }

  // ---- When eight steps are as good as all ----

  /** The bounded memory holds nothing the unbounded one does not, and both have seen the same log. */
  ghost predicate Within(t: BeatTracker, u: BeatTracker) {
    && t.primed == u.primed && t.maxSeq == u.maxSeq
    && forall k :: Lookup(t.cued, k).Some? ==> Lookup(u.cued, k) == Lookup(t.cued, k)
  }

  ghost predicate Missing(t: BeatTracker, u: BeatTracker, k: BeatKey) {
    Lookup(t.cued, k).None? && Lookup(u.cued, k).Some?
  }

  lemma SameTracking(t: BeatTracker, u: BeatTracker, f: Frame)
    requires t.primed == u.primed && t.maxSeq == u.maxSeq
    ensures var r, q := TrackFrame(t, f), TrackFrame(u, f);
            && r.added == q.added && r.primed == q.primed
            && r.tracker.primed == q.tracker.primed && r.tracker.maxSeq == q.tracker.maxSeq
  {
  }

  /** Tracking keeps the one memory within the other, and a missing record missing exactly as long as its entry stands. */
  lemma TrackedWithin(frames: seq<Frame>, ts: seq<BeatTracker>, us: seq<BeatTracker>, n: nat)
    requires Run(frames, ts, true) && Run(frames, us, false) && n < |frames| && Within(ts[n], us[n])
    ensures Within(TrackFrame(ts[n], frames[n]).tracker, TrackFrame(us[n], frames[n]).tracker)
    ensures forall k :: Missing(TrackFrame(ts[n], frames[n]).tracker, TrackFrame(us[n], frames[n]).tracker, k)
              <==> Missing(ts[n], us[n], k) && !Undoes(frames[n], Lookup(us[n].cued, k).value)
  {
    SameTracking(ts[n], us[n], frames[n]);
    forall k
      ensures Lookup(TrackFrame(ts[n], frames[n]).tracker.cued, k).Some? ==>
                Lookup(TrackFrame(us[n], frames[n]).tracker.cued, k) == Lookup(TrackFrame(ts[n], frames[n]).tracker.cued, k)
      ensures Missing(TrackFrame(ts[n], frames[n]).tracker, TrackFrame(us[n], frames[n]).tracker, k)
              <==> Missing(ts[n], us[n], k) && !Undoes(frames[n], Lookup(us[n].cued, k).value)
    {
      TrackLookup(frames, ts, true, n, k);
      TrackLookup(frames, us, false, n, k);
    }
  }

  /** From the same log, two memories cue the same beats exactly when they agree on whether each beat's key is on record. */
  lemma SameBeatsIff(t: Cued, u: Cued, log: seq<LogEvent>, F: set<nat>)
    ensures BeatsOf(t, log, F) == BeatsOf(u, log, F)
       <==> forall b <- BeatsOf(u, log, F) :: Lookup(t, b.key).Some? == Lookup(u, b.key).Some?
  {
    var x, y, keys := BeatsOf(t, log, F), BeatsOf(u, log, F), KeysIn(log, |log|, F);
    if x == y {
      forall b | b in y ensures Lookup(t, b.key).Some? == Lookup(u, b.key).Some? {
        var i :| 0 <= i < |keys| && y[i] == b;
        assert x[i].continuation == y[i].continuation;
      }
    }
    if forall b <- y :: Lookup(t, b.key).Some? == Lookup(u, b.key).Some? {
      SameLookupsSameBeats(t, u, log, F);
    }
  }

  lemma SameLookupsSameBeats(t: Cued, u: Cued, log: seq<LogEvent>, F: set<nat>)
    requires forall b <- BeatsOf(u, log, F) :: Lookup(t, b.key).Some? == Lookup(u, b.key).Some?
    ensures BeatsOf(t, log, F) == BeatsOf(u, log, F)
  {
    var keys := KeysIn(log, |log|, F);
    forall i | 0 <= i < |keys| ensures BeatOf(t, log, F, keys[i]) == BeatOf(u, log, F, keys[i]) {
      assert BeatsOf(u, log, F)[i] in BeatsOf(u, log, F);
    }
  }

  /** The two memories side by side: what the bounded one lacks is what it pruned and still stands, under the entry it had. */
  ghost predicate GapIsPruned(frames: seq<Frame>, ts: seq<BeatTracker>, us: seq<BeatTracker>, n: nat)
    requires n <= |frames| && |ts| == |us| == |frames| + 1
  {
    && Within(ts[n], us[n])
    && (forall k :: Missing(ts[n], us[n], k) ==> GoneBefore(frames, ts, n, k))
    && (forall m, k :: 0 <= m < n && Prunes(frames, ts, m, k) ==> PrunedIsKept(frames, ts, us, n, m, k))
  }

  ghost predicate PrunedIsKept(frames: seq<Frame>, ts: seq<BeatTracker>, us: seq<BeatTracker>, n: nat, m: nat, k: BeatKey)
    requires m < n <= |frames| && |ts| == |us| == |frames| + 1 && Prunes(frames, ts, m, k)
  {
    var e := FirstEntry(frames, ts, m, k);
    Stands(frames, m, n, e) ==> Lookup(us[n].cued, k) == Some(e) && Missing(ts[n], us[n], k)
  }

  lemma StandsGrows(frames: seq<Frame>, m: nat, n: nat, e: nat)
    requires m < n < |frames|
    ensures Stands(frames, m, n + 1, e) <==> Stands(frames, m, n, e) && !Undoes(frames[n], e)
  {
  }

  /** At the frame itself, a record is missing exactly when it was forgotten. */
  lemma MissingIsForgotten(frames: seq<Frame>, ts: seq<BeatTracker>, us: seq<BeatTracker>, n: nat, k: BeatKey)
    requires Run(frames, ts, true) && Run(frames, us, false) && n < |frames| && GapIsPruned(frames, ts, us, n)
    ensures Missing(TrackFrame(ts[n], frames[n]).tracker, TrackFrame(us[n], frames[n]).tracker, k)
       <==> ForgottenAt(frames, ts, n, k)
  {
    TrackedWithin(frames, ts, us, n);
    if ForgottenAt(frames, ts, n, k) {
      var m :| 0 <= m < n && Prunes(frames, ts, m, k) && Stands(frames, m, n + 1, FirstEntry(frames, ts, m, k));
      assert PrunedIsKept(frames, ts, us, n, m, k);
    }
    if Missing(ts[n], us[n], k) && !Undoes(frames[n], Lookup(us[n].cued, k).value) {
      var m :| 0 <= m < n && Prunes(frames, ts, m, k) && Stands(frames, m, n, FirstEntry(frames, ts, m, k));
      assert PrunedIsKept(frames, ts, us, n, m, k);
      StandsGrows(frames, m, n, FirstEntry(frames, ts, m, k));
    }
  }

  /** A frame's two plans agree exactly when none of its beats is of a forgotten step. */
  lemma FrameAgreesIff(frames: seq<Frame>, ts: seq<BeatTracker>, us: seq<BeatTracker>, n: nat)
    requires Run(frames, ts, true) && Run(frames, us, false) && n < |frames| && GapIsPruned(frames, ts, us, n)
    ensures FrameBeats(ts[n], frames[n]) == FrameBeats(us[n], frames[n])
       <==> forall b <- FrameBeats(ts[n], frames[n]) :: !ForgottenAt(frames, ts, n, b.key)
  {
    var r, q := TrackFrame(ts[n], frames[n]), TrackFrame(us[n], frames[n]);
    TrackedWithin(frames, ts, us, n);
    SameTracking(ts[n], us[n], frames[n]);
    SameBeatsIff(q.tracker.cued, r.tracker.cued, frames[n].log, SeqNos(r.added));
    forall b | b in FrameBeats(ts[n], frames[n])
      ensures Lookup(r.tracker.cued, b.key).Some? == Lookup(q.tracker.cued, b.key).Some? <==> !ForgottenAt(frames, ts, n, b.key)
    {
      MissingIsForgotten(frames, ts, us, n, b.key);
    }
  }

  /** Recording the same beats leaves the same records missing. */
  lemma RecordedWithin(t: BeatTracker, u: BeatTracker, f: Frame, k: BeatKey)
    requires Within(TrackFrame(t, f).tracker, TrackFrame(u, f).tracker) && FrameBeats(t, f) == FrameBeats(u, f)
    ensures var had, all := Lookup(Recorded(t, f), k), Lookup(Recorded(u, f), k);
            && (had.Some? ==> all == had)
            && (Missing(TrackFrame(t, f).tracker, TrackFrame(u, f).tracker, k) ==>
                  had.None? && all == Lookup(TrackFrame(u, f).tracker.cued, k))
            && (had.None? && all.Some? ==> Missing(TrackFrame(t, f).tracker, TrackFrame(u, f).tracker, k))
  {
    RecordedLookup(t, f, k);
    RecordedLookup(u, f, k);
    if b :| b in FrameBeats(t, f) && b.key == k && !b.continuation {
      assert b in FrameBeats(u, f);
    }
  }

  /** A frame both memories plan alike keeps the gap what was pruned. */
  lemma GapStays(frames: seq<Frame>, ts: seq<BeatTracker>, us: seq<BeatTracker>, n: nat)
    requires Run(frames, ts, true) && Run(frames, us, false) && n < |frames| && GapIsPruned(frames, ts, us, n)
    requires FrameBeats(ts[n], frames[n]) == FrameBeats(us[n], frames[n])
    ensures GapIsPruned(frames, ts, us, n + 1)
  {
    TrackedWithin(frames, ts, us, n);
    SameTracking(ts[n], us[n], frames[n]);
    assert FrameStep(ts[n], frames[n], true, ts[n + 1]) && FrameStep(us[n], frames[n], false, us[n + 1]);
    var t, u := ts[n + 1], us[n + 1];
    forall k | Lookup(t.cued, k).Some? ensures Lookup(u.cued, k) == Lookup(t.cued, k) {
      GapOf(frames, ts, us, n, k);
    }
    forall k | Missing(t, u, k) ensures GoneBefore(frames, ts, n + 1, k) {
      GapOf(frames, ts, us, n, k);
    }
    forall m, k | 0 <= m < n + 1 && Prunes(frames, ts, m, k)
      ensures PrunedIsKept(frames, ts, us, n + 1, m, k)
    {
      KeptOf(frames, ts, us, n, m, k);
    }
  }

  lemma GapOf(frames: seq<Frame>, ts: seq<BeatTracker>, us: seq<BeatTracker>, n: nat, k: BeatKey)
    requires Run(frames, ts, true) && Run(frames, us, false) && n < |frames| && GapIsPruned(frames, ts, us, n)
    requires FrameBeats(ts[n], frames[n]) == FrameBeats(us[n], frames[n])
    ensures Lookup(ts[n + 1].cued, k).Some? ==> Lookup(us[n + 1].cued, k) == Lookup(ts[n + 1].cued, k)
    ensures Missing(ts[n + 1], us[n + 1], k) ==> GoneBefore(frames, ts, n + 1, k)
  {
    TrackedWithin(frames, ts, us, n);
    RecordedWithin(ts[n], us[n], frames[n], k);
    MissingIsForgotten(frames, ts, us, n, k);
    PrunedLookup(frames, ts, n, k);
    assert FrameStep(us[n], frames[n], false, us[n + 1]);
    if Missing(ts[n + 1], us[n + 1], k) && Prunes(frames, ts, n, k) {
      assert Stands(frames, n, n + 1, FirstEntry(frames, ts, n, k));
    }
  }

  lemma KeptOf(frames: seq<Frame>, ts: seq<BeatTracker>, us: seq<BeatTracker>, n: nat, m: nat, k: BeatKey)
    requires Run(frames, ts, true) && Run(frames, us, false) && m <= n < |frames| && GapIsPruned(frames, ts, us, n)
    requires FrameBeats(ts[n], frames[n]) == FrameBeats(us[n], frames[n]) && Prunes(frames, ts, m, k)
    ensures PrunedIsKept(frames, ts, us, n + 1, m, k)
  {
    TrackedWithin(frames, ts, us, n);
    RecordedWithin(ts[n], us[n], frames[n], k);
    PrunedLookup(frames, ts, n, k);
    assert FrameStep(us[n], frames[n], false, us[n + 1]);
    if m < n {
      StandsGrows(frames, m, n, FirstEntry(frames, ts, m, k));
      assert PrunedIsKept(frames, ts, us, n, m, k);
      TrackLookup(frames, us, false, n, k);
    }
  }

  ghost predicate AgreeUpTo(frames: seq<Frame>, ts: seq<BeatTracker>, us: seq<BeatTracker>, n: nat)
    requires n <= |frames| && |ts| == |us| == |frames| + 1
  {
    forall i :: 0 <= i < n ==> FrameBeats(ts[i], frames[i]) == FrameBeats(us[i], frames[i])
  }

  lemma {:induction false} AgreedGap(frames: seq<Frame>, ts: seq<BeatTracker>, us: seq<BeatTracker>, n: nat)
    requires Run(frames, ts, true) && Run(frames, us, false) && n <= |frames| && AgreeUpTo(frames, ts, us, n)
    ensures GapIsPruned(frames, ts, us, n)
  {
    if n > 0 {
      AgreedGap(frames, ts, us, n - 1);
      GapStays(frames, ts, us, n - 1);
    }
  }

  /**
   Eight steps are as good as all: a run cues, frame for frame, the beats that a memory
   which never forgets would cue, if and only if no beat is of a step that was pruned
   while its first entry still stands.
   */
  lemma {:induction false} EightStepsActUnbounded(frames: seq<Frame>, ts: seq<BeatTracker>, us: seq<BeatTracker>, n: nat)
    requires Run(frames, ts, true) && Run(frames, us, false) && n <= |frames|
    ensures AgreeUpTo(frames, ts, us, n)
       <==> forall i, b :: 0 <= i < n && b in FrameBeats(ts[i], frames[i]) ==> !ForgottenAt(frames, ts, i, b.key)
  {
    if n > 0 {
      EightStepsActUnbounded(frames, ts, us, n - 1);
      if AgreeUpTo(frames, ts, us, n - 1) {
        AgreedGap(frames, ts, us, n - 1);
        FrameAgreesIff(frames, ts, us, n - 1);
      }
    }
  }

  /** At the first frame where they differ, a forgotten step's beat is announced as new where the unbounded memory continues it. */
  lemma ForgottenIsAnnounced(frames: seq<Frame>, ts: seq<BeatTracker>, us: seq<BeatTracker>, n: nat, b: Beat)
    requires Run(frames, ts, true) && Run(frames, us, false) && n < |frames| && AgreeUpTo(frames, ts, us, n)
    requires b in FrameBeats(ts[n], frames[n]) && ForgottenAt(frames, ts, n, b.key)
    ensures !b.continuation && forall x <- FrameBeats(us[n], frames[n]) :: x.key == b.key ==> x.continuation
  {
    AgreedGap(frames, ts, us, n);
    MissingIsForgotten(frames, ts, us, n, b.key);
    RecordedLookup(ts[n], frames[n], b.key);
    RecordedLookup(us[n], frames[n], b.key);
  }

  // ---- Only an undo brings a forgotten step back ----

  /** Frame `x` takes the last remembered step out of the tracker. */
  ghost predicate Empties(ts: seq<BeatTracker>, x: nat)
    requires x + 1 < |ts|
  {
    ts[x].cued != map[] && ts[x + 1].cued == map[]
  }

  lemma {:induction false} StaysNonempty(ts: seq<BeatTracker>, m: nat, x: nat)
    requires m <= x < |ts| && ts[m].cued != map[] && forall y :: m <= y < x ==> !Empties(ts, y)
    ensures ts[x].cued != map[]
    decreases x
  {
    if m < x {
      StaysNonempty(ts, m, x - 1);
      assert !Empties(ts, x - 1);
    }
  }

  /** A step recorded in a frame is one remembered before, or no earlier than any of those. */
  lemma NextRemembered(frames: seq<Frame>, ts: seq<BeatTracker>, n: nat, s: nat, before: nat)
    requires Run(frames, ts, true) && n < |frames| && s in ts[n + 1].cued && before in ts[n].cued
    ensures s in ts[n].cued || before <= s
  {
    TrackerInvariant(frames, ts, true, n + 1);
    var tag :| tag in ts[n + 1].cued[s];
    var k := BeatKey(s, tag);
    assert Lookup(ts[n + 1].cued, k).Some?;
    PrunedLookup(frames, ts, n, k);
    RecordedLookup(ts[n], frames[n], k);
    TrackLookup(frames, ts, true, n, k);
    if Lookup(ts[n].cued, k).None? {
      var b :| b in FrameBeats(ts[n], frames[n]) && b.key == k;
      BeatStepIsLast(frames, ts, n, b, before);
    }
  }

  /** No beat is of a step before a remembered one. */
  lemma BeatStepIsLast(frames: seq<Frame>, ts: seq<BeatTracker>, n: nat, b: Beat, before: nat)
    requires Run(frames, ts, true) && n < |frames| && b in FrameBeats(ts[n], frames[n]) && before in ts[n].cued
    ensures before <= b.key.stepSeq
  {
    var x := FirstOf(ts[n], frames[n], b);
    AddedIsNew(frames, ts, true, n, frames[n].log[x]);
    RememberedIsBelow(frames, ts, n, x, before);
  }

  lemma {:induction false} AboveStays(frames: seq<Frame>, ts: seq<BeatTracker>, m: nat, x: nat, k: BeatKey)
    requires Run(frames, ts, true) && m < x <= |frames| && Prunes(frames, ts, m, k)
    requires forall y :: m < y < x ==> !Empties(ts, y)
    ensures ts[x].cued != map[] && AllAbove(ts[x].cued, k.stepSeq)
    decreases x
  {
    PrunedLookup(frames, ts, m, k);
    StaysNonempty(ts, m + 1, x);
    if m + 1 < x {
      AboveStays(frames, ts, m, x - 1, k);
      var before :| before in ts[x - 1].cued;
      forall s | s in ts[x].cued ensures k.stepSeq < s {
        NextRemembered(frames, ts, x - 1, s, before);
      }
    }
  }

  /** A frame cues a beat of a forgotten step only after its memory was emptied in between. */
  lemma ForgottenNeedsEmptied(frames: seq<Frame>, ts: seq<BeatTracker>, i: nat, b: Beat)
    requires Run(frames, ts, true) && i < |frames| && b in FrameBeats(ts[i], frames[i]) && ForgottenAt(frames, ts, i, b.key)
    ensures exists x :: 0 <= x < i && Empties(ts, x)
  {
    var m :| 0 <= m < i && Prunes(frames, ts, m, b.key) && Stands(frames, m, i + 1, FirstEntry(frames, ts, m, b.key));
    if forall x :: m < x < i ==> !Empties(ts, x) {
      AboveStays(frames, ts, m, i, b.key);
      var before :| before in ts[i].cued;
      BeatStepIsLast(frames, ts, i, b, before);
    }
  }

  /** Only an undo past every remembered entry, or a fresh start, empties the memory. */
  lemma OnlyUndoEmpties(frames: seq<Frame>, ts: seq<BeatTracker>, x: nat)
    requires Run(frames, ts, true) && x < |frames| && Empties(ts, x)
    ensures forall k :: Lookup(ts[x].cued, k).Some? ==> Undoes(frames[x], Lookup(ts[x].cued, k).value)
  {
    forall k | Lookup(ts[x].cued, k).Some? ensures Undoes(frames[x], Lookup(ts[x].cued, k).value) {
      FrameLookup(frames, ts, x, k);
      PrunedLookup(frames, ts, x, k);
    }
  }

  /** While the log only grows, eight steps act as all: every frame cues what the unbounded memory would. */
  lemma GrowingActsUnbounded(frames: seq<Frame>, ts: seq<BeatTracker>, us: seq<BeatTracker>)
    requires Growing(frames) && Run(frames, ts, true) && Run(frames, us, false)
    ensures AgreeUpTo(frames, ts, us, |frames|)
  {
    forall i, b | 0 <= i < |frames| && b in FrameBeats(ts[i], frames[i])
      ensures !ForgottenAt(frames, ts, i, b.key)
    {
      GrowingForgetsNothing(frames, ts, i, b);
    }
    EightStepsActUnbounded(frames, ts, us, |frames|);
  }

  lemma GrowingForgetsNothing(frames: seq<Frame>, ts: seq<BeatTracker>, i: nat, b: Beat)
    requires Growing(frames) && Run(frames, ts, true) && i < |frames| && b in FrameBeats(ts[i], frames[i])
    ensures !ForgottenAt(frames, ts, i, b.key)
  {
    if ForgottenAt(frames, ts, i, b.key) {
      ForgottenNeedsEmptied(frames, ts, i, b);
      var x :| 0 <= x < i && Empties(ts, x);
      GrowingKeeps(frames, ts, x);
    }
  }

  /** A memory that holds anything holds a record of an entry in the last frame's log. */
  lemma SomeRecord(frames: seq<Frame>, ts: seq<BeatTracker>, x: nat) returns (k: BeatKey)
    requires Run(frames, ts, true) && 0 < x <= |frames| && ts[x].cued != map[]
    ensures Lookup(ts[x].cued, k).Some? && Lookup(ts[x].cued, k).value <= Top(frames[x - 1].log)
  {
    TrackerInvariant(frames, ts, true, x);
    var s :| s in ts[x].cued;
    var tag :| tag in ts[x].cued[s];
    k := BeatKey(s, tag);
    assert Lookup(ts[x].cued, k).Some?;
  }

  lemma GrowingKeeps(frames: seq<Frame>, ts: seq<BeatTracker>, x: nat)
    requires Growing(frames) && Run(frames, ts, true) && x < |frames|
    ensures !Empties(ts, x)
  {
    if Empties(ts, x) {
      OnlyUndoEmpties(frames, ts, x);
      var k := SomeRecord(frames, ts, x);
      TopGrows(frames, x - 1, x);
    }
  }

  /** While the log only grows, a combat step's tag is announced as a new beat at most once. */
  lemma AnnouncedOnce(frames: seq<Frame>, ts: seq<BeatTracker>, i: nat, j: nat, b: Beat, again: Beat)
    requires Growing(frames) && Run(frames, ts, true) && i < j < |frames|
    requires b in FrameBeats(ts[i], frames[i]) && !b.continuation
    requires again in FrameBeats(ts[j], frames[j]) && again.key == b.key
    ensures again.continuation
  {
    if !again.continuation {
      LabelRepeatsOnlyAfterUndo(frames, ts, i, j, b, again);
      GrowingForgetsNothing(frames, ts, j, again);
      var x0 := FirstOf(ts[i], frames[i], b);
      TopOfPrefix(frames[i].log, frames[i].log);
      var x :| i < x <= j && Undoes(frames[x], b.damage[0].seqNo);
      TopGrows(frames, i, x);
    }
  }

  // ---- Nine steps, and an undo back into the first ----

  function StepNo(n: nat): LogEvent {
    LogEvent(n, 1, -1, Step(FirstStrikeDamage), "", "", None)
  }

  function HitNo(n: nat): LogEvent {
    LogEvent(n, 1, 0, Damage(true, Some(FirstStrike)), "a", "b", None)
  }

  /** First-strike damage steps numbered 1, 3, 5 and so on, each with one hit. */
  function Steps(n: nat): seq<LogEvent> {
    seq(n, i requires 0 <= i < n => if i % 2 == 0 then StepNo(i + 1) else HitNo(i + 1))
  }

  function NineThenUndone(): seq<Frame> {
    [Frame([], false), Frame(Steps(18), false), Frame(Steps(2), false), Frame(Steps(2) + [HitNo(3)], false)]
  }

  lemma StepsContext(n: nat, m: nat)
    requires n <= m
    ensures n > 0 ==> Context(Steps(m), n) == Some((n - 1) / 2 * 2 + 1)
  {
    if n > 0 && n % 2 == 0 {
      assert Context(Steps(m), n - 1) == Some(n - 1);
    }
  }

  lemma StepsOrdered(n: nat)
    ensures Ordered(Steps(n)) && Top(Steps(n)) == n
  {
    TopIsLast(Steps(n));
  }

  /** Every hit is a new beat of its own step. */
  lemma EveryStepIsCued(n: nat, i: nat) returns (b: Beat)
    requires i < n && i % 2 == 1
    ensures b in BeatsOf(map[], Steps(n), SeqNos(Above(Steps(n), 0)))
    ensures b.key == BeatKey(i, FirstStrike) && !b.continuation
  {
    var log, k := Steps(n), BeatKey(i, FirstStrike);
    var F := SeqNos(Above(log, 0));
    StepsContext(i, n);
    AddedSeqNos(log, 0);
    assert KeyAt(log, i) == Some(k);
    assert NewUnder(log, |log|, F, k, log[i]);
    DamageInHas(log, |log|, F, k, log[i]);
    BeatsFacts(map[], log, F);
    b := BeatOf(map[], log, F, k);
  }

  /** Pruning a memory of more than eight steps drops the first of them. */
  lemma TooManyDropsTheFirst(m: Cued, steps: set<nat>)
    requires 0 !in m && steps <= m.Keys && |steps| > CUED_STEPS_KEPT
    ensures 1 !in Prune(m)
  {
    assert m.Keys == steps + (m.Keys - steps);
    PruneKeepsNewest(m);
  }

  lemma NineThenUndoneIsARun()
    ensures RunOk(NineThenUndone())
  {
    StepsOrdered(18);
    StepsOrdered(2);
    assert Steps(2) <= Steps(18);
  }

  lemma PrimedEmpty(ts: seq<BeatTracker>, bounded: bool)
    requires Run(NineThenUndone(), ts, bounded)
    ensures ts[1] == BeatTracker(true, 0, map[])
  {
    assert FrameStep(ts[0], NineThenUndone()[0], bounded, ts[0 + 1]);
    assert SeqNos([]) == {};
    NoNewKeys([], 0);
  }

  /** Among the steps, only the entry after a step is its damage. */
  lemma OnlyHitOfItsStep(n: nat, e: nat)
    requires CuedBy(Steps(n), BeatKey(1, FirstStrike), e)
    ensures e == 2
  {
    var i :| 0 <= i < n && Steps(n)[i].seqNo == e && KeyAt(Steps(n), i) == Some(BeatKey(1, FirstStrike));
    StepsContext(i, n);
  }

  lemma StepIsRecorded(t: BeatTracker, n: nat, i: nat)
    requires t == BeatTracker(true, 0, map[]) && i < n && i % 2 == 1
    ensures i in Recorded(t, Frame(Steps(n), false))
  {
    StepsOrdered(n);
    var b := EveryStepIsCued(n, i);
    RecordedLookup(t, Frame(Steps(n), false), b.key);
  }

  /** The first `n` odd numbers. */
  function Odds(n: nat): (s: set<nat>)
    ensures |s| == n && forall i <- s :: i % 2 == 1 && i < 2 * n
  {
    if n == 0 then {} else Odds(n - 1) + {2 * n - 1}
  }

  lemma AllAreRecorded(t: BeatTracker, n: nat)
    requires t == BeatTracker(true, 0, map[])
    ensures Odds(n) <= Recorded(t, Frame(Steps(2 * n), false)).Keys
  {
    forall i | i in Odds(n) ensures i in Recorded(t, Frame(Steps(2 * n), false)) {
      StepIsRecorded(t, 2 * n, i);
    }
  }

  lemma FirstStepIsRecorded(t: BeatTracker, f: Frame) returns (b: Beat)
    requires t == BeatTracker(true, 0, map[]) && f == Frame(Steps(18), false)
    ensures b in FrameBeats(t, f) && b.key == BeatKey(1, FirstStrike) && !b.continuation
    ensures Lookup(Recorded(t, f), b.key) == Some(2)
  {
    StepsOrdered(18);
    var r := TrackFrame(t, f);
    b := EveryStepIsCued(18, 1);
    RecordedLookup(t, f, b.key);
    RecordCuedBy(r.tracker, f.log, SeqNos(r.added), b.key);
    OnlyHitOfItsStep(18, Lookup(Recorded(t, f), b.key).value);
  }

  /** The nine-step frame prunes the first step's record, whose entry is number 2. */
  lemma NineStepsPruneTheFirst(frames: seq<Frame>, ts: seq<BeatTracker>) returns (b: Beat)
    requires frames == NineThenUndone() && Run(frames, ts, true)
    ensures b in FrameBeats(ts[1], frames[1]) && b.key == BeatKey(1, FirstStrike) && !b.continuation
    ensures Prunes(frames, ts, 1, b.key) && FirstEntry(frames, ts, 1, b.key) == 2
  {
    PrimedEmpty(ts, true);
    b := FirstStepIsRecorded(ts[1], frames[1]);
    AllAreRecorded(ts[1], 9);
    PrunedLookup(frames, ts, 1, b.key);
    TooManyDropsTheFirst(Recorded(ts[1], frames[1]), Odds(9));
    SplitPrunes(frames, ts, 1, 1);
  }

  /** A step pruned from what a frame recorded is out of its tracker. */
  lemma SplitPrunes(frames: seq<Frame>, ts: seq<BeatTracker>, n: nat, s: nat)
    requires Run(frames, ts, true) && n < |frames| && s !in Prune(Recorded(ts[n], frames[n])) && FrameBeats(ts[n], frames[n]) != []
    ensures s !in ts[n + 1].cued
  {
    assert FrameStep(ts[n], frames[n], true, ts[n + 1]);
  }

  /** The last frame's hit is a beat of the first step. */
  lemma LastHitIsCued(ts: seq<BeatTracker>) returns (again: Beat)
    requires Run(NineThenUndone(), ts, true)
    ensures again in FrameBeats(ts[3], NineThenUndone()[3]) && again.key == BeatKey(1, FirstStrike)
  {
    var f, k := NineThenUndone()[3], BeatKey(1, FirstStrike);
    var r := TrackFrame(ts[3], f);
    StepsOrdered(2);
    StepsContext(2, 2);
    ContextPrefix(Steps(2), f.log, 2);
    assert f.log[2] == HitNo(3) && KeyAt(f.log, 2) == Some(k);
    AddedIsNew(NineThenUndone(), ts, true, 3, HitNo(3));
    assert NewUnder(f.log, |f.log|, SeqNos(r.added), k, HitNo(3));
    DamageInHas(f.log, |f.log|, SeqNos(r.added), k, HitNo(3));
    BeatsFacts(r.tracker.cued, f.log, SeqNos(r.added));
    again := BeatOf(r.tracker.cued, f.log, SeqNos(r.added), k);
  }

  lemma UndoCuesNothing(t: BeatTracker, f: Frame)
    requires t.primed && Top(f.log) < t.maxSeq
    ensures FrameBeats(t, f) == []
  {
    assert SeqNos([]) == {};
    NoNewKeys(f.log, |f.log|);
  }

  /** Up to the undo, both memories cue the same. */
  lemma AlikeBeforeTheEnd(frames: seq<Frame>, ts: seq<BeatTracker>, us: seq<BeatTracker>)
    requires frames == NineThenUndone() && Run(frames, ts, true) && Run(frames, us, false)
    ensures AgreeUpTo(frames, ts, us, 3)
  {
    PrimedEmpty(ts, true);
    PrimedEmpty(us, false);
    StepsOrdered(18);
    StepsOrdered(2);
    TrackerInvariant(frames, ts, true, 2);
    TrackerInvariant(frames, us, false, 2);
    UndoCuesNothing(ts[2], frames[2]);
    UndoCuesNothing(us[2], frames[2]);
  }

  /**
   The input at which eight steps are too few: nine damage steps, an undo back to the
   first one's hit, and a second hit in it. No frame undoes the first hit, yet the
   second is announced as a new beat, where the unbounded memory would continue the first.
   */
  lemma NineStepsForgetTheFirst() returns (ts: seq<BeatTracker>, us: seq<BeatTracker>, b: Beat, again: Beat)
    ensures Run(NineThenUndone(), ts, true) && Run(NineThenUndone(), us, false)
    ensures b in FrameBeats(ts[1], NineThenUndone()[1]) && !b.continuation && b.damage != []
    ensures again in FrameBeats(ts[3], NineThenUndone()[3]) && again.key == b.key && !again.continuation
    ensures !Undoes(NineThenUndone()[2], b.damage[0].seqNo) && !Undoes(NineThenUndone()[3], b.damage[0].seqNo)
    ensures again !in FrameBeats(us[3], NineThenUndone()[3])
  {
    var frames := NineThenUndone();
    NineThenUndoneIsARun();
    ts := RunExists(frames, true);
    us := RunExists(frames, false);
    b := NineStepsPruneTheFirst(frames, ts);
    again := LastHitIsCued(ts);
    RecordedLookup(ts[1], frames[1], b.key);
    AlikeBeforeTheEnd(frames, ts, us);
    FirstHitStands();
    assert ForgottenAt(frames, ts, 3, b.key);
    ForgottenIsAnnounced(frames, ts, us, 3, again);
  }

  lemma FirstHitStands()
    ensures Stands(NineThenUndone(), 1, 4, 2)
  {
    StepsOrdered(2);
    TopOfPrefix(Steps(2), NineThenUndone()[3].log);
  }
}
