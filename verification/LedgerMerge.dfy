/**
 Merging a scan into a ledger: the copy of a day with more requests wins, so a
 scan that has lost part of a day never replaces the fuller copy.
 */
module LedgerMerge {
  import opened Sums
  import opened ClaudeUsage

  ghost function Requested(models: Models): int {
    DayTotal(models, Requests)
  }

  method RequestsIn(models: Models) returns (n: int)
    ensures n == Requested(models)
  {
    n := 0;
    var rest := models;
    SumZero(DayFields(map[], Requests));
    while rest != map[]
      invariant n + Requested(rest) == Requested(models)
      decreases |rest|
    {
      var m :| m in rest;
      SumLess(DayFields(rest, Requests), m);
      assert DayFields(rest, Requests) - {m} == DayFields(rest - {m}, Requests);
      n := n + rest[m].requests;
      rest := rest - {m};
    }
  }

  lemma RequestedIsNat(models: Models)
    ensures Requested(models) >= 0
  {
    SumNonNegative(DayFields(models, Requests));
  }

  /** The day as `ledger` merged with `scanned` has it. */
  ghost predicate Wins(ledger: Days, scanned: Days, day: string) {
    day in scanned && Requested(scanned[day]) >= Requested(ModelsAt(ledger, day))
  }

  ghost function MergeOf(ledger: Days, scanned: Days): Days {
    map day <- ledger.Keys + scanned.Keys | day in ledger || Wins(ledger, scanned, day) ::
      if Wins(ledger, scanned, day) then scanned[day] else ledger[day]
  }

  ghost function MergeDayOf(out: Days, day: string, models: Models): Days {
    if Requested(models) >= Requested(ModelsAt(out, day)) then out[day := models] else out
  }

  lemma MergeAt(ledger: Days, scanned: Days, day: string)
    ensures day in MergeOf(ledger, scanned) <==> day in ledger || Wins(ledger, scanned, day)
    ensures day in MergeOf(ledger, scanned) ==>
              MergeOf(ledger, scanned)[day] == if Wins(ledger, scanned, day) then scanned[day] else ledger[day]
  {
  }

  lemma SameAt(a: Days, b: Days)
    requires forall day: string :: day in a <==> day in b
    requires forall day <- a :: day in b ==> a[day] == b[day]
    ensures a == b
  {
  }

  lemma MergeStepAt(ledger: Days, done: Days, day: string, models: Models, d: string)
    requires day !in done
    ensures var after, step := MergeOf(ledger, done[day := models]), MergeDayOf(MergeOf(ledger, done), day, models);
            (d in after <==> d in step) && (d in after ==> after[d] == step[d])
  {
    MergeAt(ledger, done, day);
    MergeAt(ledger, done, d);
    MergeAt(ledger, done[day := models], d);
    assert ModelsAt(MergeOf(ledger, done), day) == ModelsAt(ledger, day);
  }

  lemma MergeStep(ledger: Days, done: Days, day: string, models: Models)
    requires day !in done
    ensures MergeOf(ledger, done[day := models]) == MergeDayOf(MergeOf(ledger, done), day, models)
  {
    forall d: string { MergeStepAt(ledger, done, day, models, d); }
    SameAt(MergeOf(ledger, done[day := models]), MergeDayOf(MergeOf(ledger, done), day, models));
  }

  lemma MergeNothing(ledger: Days)
    ensures MergeOf(ledger, map[]) == ledger
  {
  }

  method MergeDay(out: Days, day: string, models: Models) returns (next: Days)
    ensures next == MergeDayOf(out, day, models)
  {
    var freshReq := RequestsIn(models);
    var oldReq := RequestsIn(if day in out then out[day] else map[]);
    next := if freshReq >= oldReq then out[day := models] else out;
  }

  method Merge(ledger: Days, scanned: Days) returns (out: Days)
    ensures out == MergeOf(ledger, scanned)
  {
    out := ledger;
    var rest := scanned;
    ghost var done: Days := map[];
    MergeNothing(ledger);
    while rest != map[]
      invariant done.Keys !! rest.Keys && done + rest == scanned
      invariant out == MergeOf(ledger, done)
      decreases |rest|
    {
      var day :| day in rest;
      MergeStep(ledger, done, day, rest[day]);
      MoveOver(scanned, done, rest, day);
      out := MergeDay(out, day, rest[day]);
      done := done[day := rest[day]];
      rest := rest - {day};
    }
    assert done == scanned;
  }

  // ---- What a merge keeps ----

  /** `a` has every day of `b`, each with at least as many requests. */
  ghost predicate Covers(a: Days, b: Days) {
    forall day <- b :: day in a && Requested(a[day]) >= Requested(b[day])
  }

  /** A merge covers both sides, and takes every day whole from one of them. */
  lemma MergeCoversBoth(ledger: Days, scanned: Days)
    ensures Covers(MergeOf(ledger, scanned), ledger) && Covers(MergeOf(ledger, scanned), scanned)
    ensures MergeOf(ledger, scanned).Keys == ledger.Keys + scanned.Keys
    ensures forall day <- MergeOf(ledger, scanned) ::
              (day in ledger && MergeOf(ledger, scanned)[day] == ledger[day])
              || (day in scanned && MergeOf(ledger, scanned)[day] == scanned[day])
  {
    SumZero(DayFields(map[], Requests));
    forall day | day in scanned ensures Requested(scanned[day]) >= 0 { RequestedIsNat(scanned[day]); }
  }

  lemma CoversTrans(a: Days, b: Days, c: Days)
    requires Covers(a, b) && Covers(b, c)
    ensures Covers(a, c)
  {
    forall day | day in c ensures day in a && Requested(a[day]) >= Requested(c[day]) {
      assert day in b;
    }
  }

  lemma CoversItself(a: Days)
    ensures Covers(a, a)
  {
  }

  ghost function MergeAll(ledger: Days, scans: seq<Days>): Days {
    if scans == [] then ledger else MergeOf(MergeAll(ledger, scans[..|scans| - 1]), scans[|scans| - 1])
  }

  /** The copy of `day` is the one of a ledger or scan that went in, and none that went in has more requests. */
  ghost predicate Fullest(ledger: Days, scans: seq<Days>, day: string, models: Models) {
    && ((day in ledger && ledger[day] == models) || exists i :: 0 <= i < |scans| && day in scans[i] && scans[i][day] == models)
    && (day in ledger ==> Requested(ledger[day]) <= Requested(models))
    && forall i :: 0 <= i < |scans| && day in scans[i] ==> Requested(scans[i][day]) <= Requested(models)
  }

  lemma FullestGrows(ledger: Days, scans: seq<Days>, day: string, models: Models, scan: Days)
    requires Fullest(ledger, scans, day, models)
    requires day in scan ==> Requested(scan[day]) <= Requested(models)
    ensures Fullest(ledger, scans + [scan], day, models)
  {
    var all := scans + [scan];
    if !(day in ledger && ledger[day] == models) {
      var i :| 0 <= i < |scans| && day in scans[i] && scans[i][day] == models;
      assert all[i] == scans[i];
    }
  }

  lemma NewestIsFullest(ledger: Days, scans: seq<Days>, day: string, before: Models, scan: Days)
    requires Fullest(ledger, scans, day, before)
    requires day in scan && Requested(before) <= Requested(scan[day])
    ensures Fullest(ledger, scans + [scan], day, scan[day])
  {
    var all := scans + [scan];
    assert all[|scans|] == scan;
    forall i | 0 <= i < |all| && day in all[i] ensures Requested(all[i][day]) <= Requested(scan[day]) {
      if i < |scans| { assert all[i] == scans[i]; }
    }
  }

  /**
   Over any number of merges no day ever disappears, every day that went in is
   there, and it is held in the fullest copy that was ever merged.
   */
  lemma {:induction false} MergesKeepTheFullest(ledger: Days, scans: seq<Days>)
    ensures forall day: string :: day in MergeAll(ledger, scans) <==> day in ledger || exists i :: 0 <= i < |scans| && day in scans[i]
    ensures forall day <- MergeAll(ledger, scans) :: Fullest(ledger, scans, day, MergeAll(ledger, scans)[day])
  {
    if scans != [] {
      var init, scan := scans[..|scans| - 1], scans[|scans| - 1];
      var before, after := MergeAll(ledger, init), MergeAll(ledger, scans);
      MergesKeepTheFullest(ledger, init);
      MergeCoversBoth(before, scan);
      assert scans == init + [scan];
      forall day: string
        ensures day in after <==> day in ledger || exists i :: 0 <= i < |scans| && day in scans[i]
      {
        if day in scan { assert scans[|scans| - 1] == scan; }
        if i :| 0 <= i < |init| && day in init[i] { assert scans[i] == init[i]; }
      }
      forall day | day in after ensures Fullest(ledger, scans, day, after[day]) {
        KeepOrReplace(ledger, init, scan, day, before);
      }
    }
  }

  lemma KeepOrReplace(ledger: Days, init: seq<Days>, scan: Days, day: string, before: Days)
    requires day in MergeOf(before, scan)
    requires forall d: string :: d in before <==> d in ledger || exists i :: 0 <= i < |init| && d in init[i]
    requires day in before ==> Fullest(ledger, init, day, before[day])
    ensures Fullest(ledger, init + [scan], day, MergeOf(before, scan)[day])
  {
    if day !in before {
      var all := init + [scan];
      assert all[|init|] == scan;
      assert forall i :: 0 <= i < |init| ==> all[i] == init[i] && day !in init[i];
    } else if Wins(before, scan, day) {
      NewestIsFullest(ledger, init, day, before[day], scan);
    } else {
      FullestGrows(ledger, init, day, before[day], scan);
    }
  }

  // ---- One run of the script ----

  /** The published copy goes in before the fresh scan. */
  ghost function Updated(local: Days, published: Days, scanned: Days): Days {
    MergeOf(MergeOf(local, published), scanned)
  }

  /** What is about to be pushed covers the local ledger, the published copy and the scan. */
  lemma UpdatedCovers(local: Days, published: Days, scanned: Days)
    ensures var out := Updated(local, published, scanned);
            Covers(out, local) && Covers(out, published) && Covers(out, scanned)
  {
    MergeCoversBoth(local, published);
    MergeCoversBoth(MergeOf(local, published), scanned);
    CoversTrans(Updated(local, published, scanned), MergeOf(local, published), local);
    CoversTrans(Updated(local, published, scanned), MergeOf(local, published), published);
  }

  // ---- Which copy wins ----

  /** A day's requests are those of its buckets, added up. */
  lemma RequestedIsTheSum(models: Models)
    ensures Requested(models) == Sum(map m <- models :: models[m].requests)
  {
    assert DayFields(models, Requests) == map m <- models :: models[m].requests;
  }

  /** Of two copies of a day the scan's is kept exactly when it has at least as many requests; a tie goes to the scan. */
  lemma ScanWinsTies(ledger: Days, scanned: Days, day: string)
    requires day in ledger && day in scanned && ledger[day] != scanned[day]
    ensures day in MergeOf(ledger, scanned)
    ensures MergeOf(ledger, scanned)[day] == scanned[day] <==> Requested(ledger[day]) <= Requested(scanned[day])
    ensures MergeOf(ledger, scanned)[day] == ledger[day] <==> Requested(scanned[day]) < Requested(ledger[day])
  {
  }

  /** A day as it is published: the scan's copy unless an older one has more requests, and the published one before the local. */
  lemma UpdatedPrefers(local: Days, published: Days, scanned: Days, day: string)
    requires day in local && day in published && day in scanned
    ensures var l, p, s := Requested(local[day]), Requested(published[day]), Requested(scanned[day]);
            && day in Updated(local, published, scanned)
            && Updated(local, published, scanned)[day]
               == if s >= p && s >= l then scanned[day] else if p >= l then published[day] else local[day]
  {
    MergeAt(local, published, day);
    MergeAt(MergeOf(local, published), scanned, day);
  }
}
