/**
 Declaring attackers by toggling: a list of staged attacks that stands for a
 finite map from attacker to aim, in the order the player last aimed each.
 */
module AttackStage {
  import opened Sequences
  import opened Wrappers

  datatype StagedAttack = StagedAttack(attacker: string, target: string, exert: bool)

  /** Whether the exert question was never asked, is open, or was answered. */
  datatype Exert = NotAsked | Open | Answered(yes: bool)

  datatype AttackerSelection = AttackerSelection(cardID: string, exert: Exert)

  type Stage = seq<StagedAttack>

  /** The creatures of `stage` that are not in `ids`, in order. */
  function Without(stage: Stage, ids: set<string>): Stage {
    if stage == [] then []
    else
      var rest, last := Without(stage[..|stage| - 1], ids), stage[|stage| - 1];
      if last.attacker in ids then rest else rest + [last]
  }

  function Unstage(stage: Stage, cardID: string): Stage {
    Without(stage, {cardID})
  }

  function StageAt(stage: Stage, sel: AttackerSelection, target: string): Option<Stage> {
    if sel.exert.Open? then None
    else Some(Unstage(stage, sel.cardID) + [StagedAttack(sel.cardID, target, sel.exert == Answered(true))])
  }

  function Attackers(stage: Stage): set<string> {
    set s <- stage :: s.attacker
  }

  function StageMany(stage: Stage, entries: Stage): Stage {
    Without(stage, Attackers(entries)) + entries
  }

  function UnstageMany(stage: Stage, ids: seq<string>): Stage {
    Without(stage, set id <- ids)
  }

  /** `alive` is the creatures that can still attack. */
  function PruneStage(stage: Stage, alive: set<string>): Stage {
    Without(stage, Attackers(stage) - alive)
  }

  function StagedAtShown(stage: Stage, defender: string, shown: set<string>): set<string> {
    set s <- stage | s.target == defender && s.attacker in shown :: s.attacker
  }

  /** What goes out beside the picker's choice: neither chosen in it nor one of its own rows. */
  function KeptBesidePick(stage: Stage, defender: string, shown: set<string>, chosen: seq<string>): Stage {
    if stage == [] then []
    else
      var rest, last := KeptBesidePick(stage[..|stage| - 1], defender, shown, chosen), stage[|stage| - 1];
      if last.attacker in chosen || (last.target == defender && last.attacker in shown) then rest else rest + [last]
  }

  // ---- The map a stage stands for ----

  datatype Aim = Aim(target: string, exert: bool)

  type Aims = map<string, Aim>

  predicate Unique(stage: Stage) {
    forall i, j :: 0 <= i < j < |stage| ==> stage[i].attacker != stage[j].attacker
  }

  /** A later entry for an attacker would win. */
  function AimsOf(stage: Stage): Aims {
    if stage == [] then map[]
    else
      var last := stage[|stage| - 1];
      AimsOf(stage[..|stage| - 1])[last.attacker := Aim(last.target, last.exert)]
  }

  predicate Before(stage: Stage, a: string, b: string) {
    exists i, j :: 0 <= i < j < |stage| && stage[i].attacker == a && stage[j].attacker == b
  }

  lemma {:induction false} AimsKeys(stage: Stage)
    ensures AimsOf(stage).Keys == Attackers(stage)
  {
    if stage != [] {
      AimsKeys(stage[..|stage| - 1]);
      assert stage == stage[..|stage| - 1] + [stage[|stage| - 1]];
    }
  }

  lemma {:induction false} AimsConcat(a: Stage, b: Stage)
    ensures AimsOf(a + b) == AimsOf(a) + AimsOf(b)
  {
    if b == [] {
      assert a + b == a;
    } else {
      AimsConcat(a, b[..|b| - 1]);
      assert (a + b)[..|a + b| - 1] == a + b[..|b| - 1];
    }
  }

  lemma BeforeLast(init: Stage, last: StagedAttack, a: string, b: string)
    ensures Before(init + [last], a, b) <==> Before(init, a, b) || (b == last.attacker && a in Attackers(init))
  {
    var all := init + [last];
    if i, j :| 0 <= i < j < |init| && init[i].attacker == a && init[j].attacker == b {
      assert all[i].attacker == a && all[j].attacker == b;
    }
    if b == last.attacker && a in Attackers(init) {
      var s :| s in init && s.attacker == a;
      var i :| 0 <= i < |init| && init[i] == s;
      assert all[i].attacker == a && all[|init|].attacker == b;
    }
    if i, j :| 0 <= i < j < |all| && all[i].attacker == a && all[j].attacker == b {
      assert all[i] == init[i] && init[i] in init;
      if j < |init| { assert init[j].attacker == b; }
    }
  }

  lemma UniqueConcat(a: Stage, b: Stage)
    ensures Unique(a + b) <==> Unique(a) && Unique(b) && Attackers(a) !! Attackers(b)
  {
    var all := a + b;
    if Unique(all) {
      forall i, j | 0 <= i < j < |a| ensures a[i].attacker != a[j].attacker { assert all[i] == a[i] && all[j] == a[j]; }
      forall i, j | 0 <= i < j < |b| ensures b[i].attacker != b[j].attacker { assert all[|a| + i] == b[i] && all[|a| + j] == b[j]; }
      forall s, t | s in a && t in b ensures s.attacker != t.attacker {
        var i :| 0 <= i < |a| && a[i] == s;
        var j :| 0 <= j < |b| && b[j] == t;
        assert all[i] == s && all[|a| + j] == t;
      }
    } else {
      var i, j :| 0 <= i < j < |all| && all[i].attacker == all[j].attacker;
      if i < |a| <= j { assert a[i].attacker in Attackers(a) && b[j - |a|].attacker in Attackers(b); }
    }
  }

  lemma {:induction false} WithoutMembers(stage: Stage, ids: set<string>)
    ensures forall s :: s in Without(stage, ids) <==> s in stage && s.attacker !in ids
  {
    if stage != [] {
      WithoutMembers(stage[..|stage| - 1], ids);
      assert stage == stage[..|stage| - 1] + [stage[|stage| - 1]];
    }
  }

  lemma {:induction false} WithoutUnique(stage: Stage, ids: set<string>)
    requires Unique(stage)
    ensures Unique(Without(stage, ids))
  {
    if stage != [] {
      var init, last := stage[..|stage| - 1], stage[|stage| - 1];
      assert stage == init + [last];
      UniqueConcat(init, [last]);
      WithoutUnique(init, ids);
      WithoutMembers(init, ids);
      assert last.attacker in Attackers([last]);
      UniqueConcat(Without(init, ids), [last]);
    }
  }

  lemma {:induction false} WithoutAims(stage: Stage, ids: set<string>)
    ensures AimsOf(Without(stage, ids)) == AimsOf(stage) - ids
  {
    if stage != [] {
      var init, last := stage[..|stage| - 1], stage[|stage| - 1];
      WithoutAims(init, ids);
      if last.attacker !in ids {
        assert (Without(init, ids) + [last])[..|Without(init, ids)|] == Without(init, ids);
      }
    }
  }

  lemma {:induction false} WithoutOrder(stage: Stage, ids: set<string>, a: string, b: string)
    requires a !in ids && b !in ids
    ensures Before(Without(stage, ids), a, b) <==> Before(stage, a, b)
  {
    if stage != [] {
      var init, last := stage[..|stage| - 1], stage[|stage| - 1];
      assert stage == init + [last];
      WithoutOrder(init, ids, a, b);
      WithoutMembers(init, ids);
      BeforeLast(init, last, a, b);
      BeforeLast(Without(init, ids), last, a, b);
    }
  }

  /** Taking creatures out takes exactly those out of the map; the rest keep their aim and their order. */
  lemma WithoutIsRemoval(stage: Stage, ids: set<string>)
    requires Unique(stage)
    ensures Unique(Without(stage, ids)) && AimsOf(Without(stage, ids)) == AimsOf(stage) - ids
    ensures Attackers(Without(stage, ids)) == Attackers(stage) - ids
    ensures forall a, b :: a !in ids && b !in ids ==> (Before(Without(stage, ids), a, b) <==> Before(stage, a, b))
  {
    WithoutMembers(stage, ids);
    WithoutUnique(stage, ids);
    WithoutAims(stage, ids);
    forall a, b | a !in ids && b !in ids ensures Before(Without(stage, ids), a, b) <==> Before(stage, a, b) {
      WithoutOrder(stage, ids, a, b);
    }
  }

  lemma PutEntry(kept: Stage, entry: StagedAttack)
    requires Unique(kept) && entry.attacker !in Attackers(kept)
    ensures Unique(kept + [entry]) && AimsOf(kept + [entry]) == AimsOf(kept)[entry.attacker := Aim(entry.target, entry.exert)]
  {
    assert (kept + [entry])[..|kept|] == kept;
    assert Attackers([entry]) == {entry.attacker};
    UniqueConcat(kept, [entry]);
  }

  lemma UnstageThenPut(stage: Stage, entry: StagedAttack)
    requires Unique(stage)
    ensures Unique(Unstage(stage, entry.attacker) + [entry])
    ensures AimsOf(Unstage(stage, entry.attacker) + [entry]) == AimsOf(stage)[entry.attacker := Aim(entry.target, entry.exert)]
  {
    var kept := Unstage(stage, entry.attacker);
    WithoutUnique(stage, {entry.attacker});
    WithoutMembers(stage, {entry.attacker});
    WithoutAims(stage, {entry.attacker});
    PutEntry(kept, entry);
    PutBack(AimsOf(stage), entry.attacker, Aim(entry.target, entry.exert));
  }

  lemma PutBack(m: Aims, id: string, aim: Aim)
    ensures (m - {id})[id := aim] == m[id := aim]
  {
  }

  lemma UnstageThenPutOrder(stage: Stage, entry: StagedAttack, a: string, b: string)
    requires a != entry.attacker && b != entry.attacker
    ensures Before(Unstage(stage, entry.attacker) + [entry], a, b) <==> Before(stage, a, b)
  {
    WithoutOrder(stage, {entry.attacker}, a, b);
    BeforeLast(Unstage(stage, entry.attacker), entry, a, b);
  }

  /** The last aim wins, everything else stays in its order, and an open exert question stages nothing. */
  lemma StageAtSetsAim(stage: Stage, sel: AttackerSelection, target: string)
    requires Unique(stage)
    ensures StageAt(stage, sel, target).None? <==> sel.exert.Open?
    ensures var r := StageAt(stage, sel, target);
            r.Some? ==>
              && Unique(r.value)
              && AimsOf(r.value) == AimsOf(stage)[sel.cardID := Aim(target, sel.exert == Answered(true))]
              && forall a, b :: a != sel.cardID && b != sel.cardID ==> (Before(r.value, a, b) <==> Before(stage, a, b))
  {
    if !sel.exert.Open? {
      var entry := StagedAttack(sel.cardID, target, sel.exert == Answered(true));
      UnstageThenPut(stage, entry);
      forall a, b | a != sel.cardID && b != sel.cardID
        ensures Before(Unstage(stage, sel.cardID) + [entry], a, b) <==> Before(stage, a, b)
      {
        UnstageThenPutOrder(stage, entry, a, b);
      }
    }
  }

  lemma {:induction false} BeforeAdded(kept: Stage, added: Stage, a: string, b: string)
    requires a !in Attackers(added) && b !in Attackers(added)
    ensures Before(kept + added, a, b) <==> Before(kept, a, b)
  {
    if added == [] {
      assert kept + added == kept;
    } else {
      var init, last := added[..|added| - 1], added[|added| - 1];
      assert kept + added == (kept + init) + [last];
      assert last in added;
      BeforeAdded(kept, init, a, b);
      BeforeLast(kept + init, last, a, b);
    }
  }

  /**
   A group's attack adds to what is staged: its aims win, and no other is touched or
   moved. The stage still has each attacker once exactly when the group's own entries do.
   */
  lemma StageManyAddsAims(stage: Stage, entries: Stage)
    requires Unique(stage)
    ensures AimsOf(StageMany(stage, entries)) == AimsOf(stage) + AimsOf(entries)
    ensures Unique(StageMany(stage, entries)) <==> Unique(entries)
    ensures forall a, b :: a !in Attackers(entries) && b !in Attackers(entries) ==>
              (Before(StageMany(stage, entries), a, b) <==> Before(stage, a, b))
  {
    StageManyAims(stage, entries);
    forall a, b | a !in Attackers(entries) && b !in Attackers(entries)
      ensures Before(StageMany(stage, entries), a, b) <==> Before(stage, a, b)
    {
      StageManyOrder(stage, entries, a, b);
    }
  }

  lemma StageManyAims(stage: Stage, entries: Stage)
    requires Unique(stage)
    ensures AimsOf(StageMany(stage, entries)) == AimsOf(stage) + AimsOf(entries)
    ensures Unique(StageMany(stage, entries)) <==> Unique(entries)
  {
    var ids := Attackers(entries);
    WithoutAims(stage, ids);
    WithoutUnique(stage, ids);
    WithoutMembers(stage, ids);
    UniqueConcat(Without(stage, ids), entries);
    AimsConcat(Without(stage, ids), entries);
    AimsKeys(entries);
  }

  lemma StageManyOrder(stage: Stage, entries: Stage, a: string, b: string)
    requires a !in Attackers(entries) && b !in Attackers(entries)
    ensures Before(StageMany(stage, entries), a, b) <==> Before(stage, a, b)
  {
    WithoutOrder(stage, Attackers(entries), a, b);
    BeforeAdded(Without(stage, Attackers(entries)), entries, a, b);
  }

  lemma Restricted(m: Aims, alive: set<string>)
    ensures m - (m.Keys - alive) == map a <- m | a in alive :: m[a]
  {
  }

  /** Pruning keeps the aims of the creatures that can still attack, in their order. */
  lemma PruneKeepsTheLiving(stage: Stage, alive: set<string>)
    requires Unique(stage)
    ensures Unique(PruneStage(stage, alive))
    ensures AimsOf(PruneStage(stage, alive)) == (map a <- AimsOf(stage) | a in alive :: AimsOf(stage)[a])
    ensures forall a, b :: a in alive && b in alive ==> (Before(PruneStage(stage, alive), a, b) <==> Before(stage, a, b))
  {
    var gone := Attackers(stage) - alive;
    WithoutUnique(stage, gone);
    WithoutAims(stage, gone);
    AimsKeys(stage);
    Restricted(AimsOf(stage), alive);
    forall a, b | a in alive && b in alive ensures Before(PruneStage(stage, alive), a, b) <==> Before(stage, a, b) {
      WithoutOrder(stage, gone, a, b);
    }
  }

  // ---- The attackers picker ----

  lemma {:induction false} KeptIsWithout(stage: Stage, defender: string, shown: set<string>, chosen: seq<string>)
    requires Unique(stage)
    ensures KeptBesidePick(stage, defender, shown, chosen)
         == Without(stage, (set id <- chosen) + StagedAtShown(stage, defender, shown))
  {
    var ids := (set id <- chosen) + StagedAtShown(stage, defender, shown);
    if stage != [] {
      var init, last := stage[..|stage| - 1], stage[|stage| - 1];
      assert stage == init + [last];
      KeptIsWithout(init, defender, shown, chosen);
      var fewer := (set id <- chosen) + StagedAtShown(init, defender, shown);
      WithoutSame(init, ids, fewer);
      assert last.attacker in ids <==> last.attacker in chosen || (last.target == defender && last.attacker in shown);
    }
  }

  lemma {:induction false} WithoutSame(stage: Stage, a: set<string>, b: set<string>)
    requires forall s <- stage :: s.attacker in a <==> s.attacker in b
    ensures Without(stage, a) == Without(stage, b)
  {
    if stage != [] { WithoutSame(stage[..|stage| - 1], a, b); }
  }

  /**
   What is kept beside the pick never repeats a chosen creature, and it loses no
   creature aimed elsewhere unless the player chose it; so the two together name each
   attacker once.
   */
  lemma KeptIsBesideThePick(stage: Stage, defender: string, shown: set<string>, chosen: seq<string>)
    requires Unique(stage)
    ensures var kept := KeptBesidePick(stage, defender, shown, chosen);
            && Unique(kept) && Attackers(kept) !! (set id <- chosen)
            && (forall id <- AimsOf(stage) :: id !in chosen && (AimsOf(stage)[id].target != defender || id !in shown) ==>
                  id in AimsOf(kept) && AimsOf(kept)[id] == AimsOf(stage)[id])
            && (forall id <- AimsOf(kept) :: id in AimsOf(stage) && id !in chosen && (AimsOf(stage)[id].target != defender || id !in shown))
  {
    KeptIsWithout(stage, defender, shown, chosen);
    WithoutIsRemoval(stage, (set id <- chosen) + StagedAtShown(stage, defender, shown));
    AimsAreEntries(stage);
    AimsKeys(stage);
  }

  lemma {:induction false} AimsAreEntries(stage: Stage)
    requires Unique(stage)
    ensures forall s <- stage :: s.attacker in AimsOf(stage) && AimsOf(stage)[s.attacker] == Aim(s.target, s.exert)
  {
    if stage != [] {
      AimsAreEntries(stage[..|stage| - 1]);
      assert stage == stage[..|stage| - 1] + [stage[|stage| - 1]];
    }
  }

  predicate IsStagedAt(stage: Stage, defender: string, id: string) {
    exists s <- stage :: s.target == defender && s.attacker == id
  }

  /** The checked creatures a group's picker opens with: those already staged at the defender, then the group. */
  method GroupPickerSeed(stage: Stage, defender: string, groupIDs: seq<string>) returns (out: seq<string>)
    requires Unique(stage)
    ensures forall id :: id in out <==> id in groupIDs || IsStagedAt(stage, defender, id)
    ensures Distinct(out)
    ensures forall i, j :: 0 <= i < j < |out| && IsStagedAt(stage, defender, out[j]) ==> IsStagedAt(stage, defender, out[i])
  {
    out := [];
    for i := 0 to |stage|
      invariant forall id :: id in out <==> IsStagedAt(stage[..i], defender, id)
      invariant forall a, b :: 0 <= a < b < |out| ==> out[a] != out[b]
    {
      assert stage[..i + 1] == stage[..i] + [stage[i]];
      assert forall s <- stage[..i] :: s.attacker != stage[i].attacker by {
        forall s | s in stage[..i] ensures s.attacker != stage[i].attacker {
          var j :| 0 <= j < i && stage[..i][j] == s;
          assert stage[j] == s;
        }
      }
      assert stage[i].attacker !in out;
      if stage[i].target == defender {
        out := out + [stage[i].attacker];
      }
    }
    assert stage[..|stage|] == stage;
    ghost var staged := |out|;
    for i := 0 to |groupIDs|
      invariant staged <= |out| && forall k :: 0 <= k < |out| ==> (k < staged <==> IsStagedAt(stage, defender, out[k]))
      invariant forall id :: id in out <==> id in groupIDs[..i] || IsStagedAt(stage, defender, id)
      invariant forall a, b :: 0 <= a < b < |out| ==> out[a] != out[b]
    {
      assert groupIDs[..i + 1] == groupIDs[..i] + [groupIDs[i]];
      if groupIDs[i] !in out {
        out := out + [groupIDs[i]];
      }
    }
    assert groupIDs[..|groupIDs|] == groupIDs;
  }

  // ---- Several selected at once ----

  function DropFromSelection(primary: AttackerSelection, more: seq<string>, cardID: string): (Option<AttackerSelection>, seq<string>) {
    if primary.cardID != cardID then (Some(primary), Filtered(more, cardID))
    else if more == [] then (None, [])
    else (Some(AttackerSelection(more[|more| - 1], NotAsked)), more[..|more| - 1])
  }

  function Filtered(ids: seq<string>, cardID: string): seq<string> {
    if ids == [] then []
    else
      var rest := Filtered(ids[..|ids| - 1], cardID);
      if ids[|ids| - 1] == cardID then rest else rest + [ids[|ids| - 1]]
  }

  /** A selection, oldest first with the primary last, names each creature once. */
  predicate Selection(primary: AttackerSelection, more: seq<string>) {
    primary.cardID !in more && Distinct(more)
  }

  lemma {:induction false} FilteredIs(ids: seq<string>, cardID: string)
    ensures forall id :: id in Filtered(ids, cardID) <==> id in ids && id != cardID
    ensures Distinct(ids) ==> Distinct(Filtered(ids, cardID))
  {
    if ids != [] {
      var init, last := ids[..|ids| - 1], ids[|ids| - 1];
      FilteredIs(init, cardID);
      assert ids == init + [last];
      if Distinct(ids) {
        assert forall i :: 0 <= i < |init| ==> ids[i] != last;
        assert last !in init;
      }
    }
  }

  /** Dropping a creature drops that one alone, and the selection empties only with nothing left in it. */
  lemma DropTakesOneOut(primary: AttackerSelection, more: seq<string>, cardID: string)
    requires Selection(primary, more)
    ensures var (p, m) := DropFromSelection(primary, more, cardID);
            && (p.None? ==> more == [] && cardID == primary.cardID && m == [])
            && (p.Some? ==>
                  && Selection(p.value, m)
                  && forall id :: (id == p.value.cardID || id in m) <==> (id == primary.cardID || id in more) && id != cardID)
  {
    FilteredIs(more, cardID);
    if more != [] { assert more == more[..|more| - 1] + [more[|more| - 1]]; }
  }

  /** The aims a target click adds: every selected creature that may attack there. */
  function NewAims(primary: AttackerSelection, ids: seq<string>, target: string, may: set<string>): Aims {
    map id <- ids | id in may :: Aim(target, id == primary.cardID && primary.exert == Answered(true))
  }

  /**
   A target click splits the selection: those that may attack there are staged there,
   the rest stay selected in order; nothing else staged changes. It stages nothing
   at all exactly when the primary may attack and its exert question is open.
   */
  method StageSelectionAt(stage: Stage, primary: AttackerSelection, more: seq<string>, target: string, may: set<string>)
    returns (r: Option<(Stage, seq<string>)>)
    requires Unique(stage) && Selection(primary, more)
    ensures r.None? <==> primary.cardID in may && primary.exert.Open?
    ensures r.Some? ==> Unique(r.value.0)
    ensures r.Some? ==> AimsOf(r.value.0) == AimsOf(stage) + NewAims(primary, more + [primary.cardID], target, may)
    ensures r.Some? ==> r.value.1 == Left(more + [primary.cardID], may)
  {
    var ids := more + [primary.cardID];
    var next := stage;
    var left: seq<string> := [];
    for i := 0 to |ids|
      invariant Unique(next) && AimsOf(next) == AimsOf(stage) + NewAims(primary, ids[..i], target, may)
      invariant left == Left(ids[..i], may)
      invariant i == |ids| ==> !(primary.cardID in may && primary.exert.Open?)
    {
      var id := ids[i];
      assert ids[..i + 1] == ids[..i] + [id];
      assert id == primary.cardID ==> i == |ids| - 1;
      LeftGrows(ids[..i], id, may);
      NewAimsGrow(primary, ids[..i], id, target, may);
      if id !in may {
        left := left + [id];
        continue;
      }
      var sel := if id == primary.cardID then primary else AttackerSelection(id, NotAsked);
      StageAtSetsAim(next, sel, target);
      var staged := StageAt(next, sel, target);
      if staged.None? {
        return None;
      }
      PutLast(AimsOf(stage), NewAims(primary, ids[..i], target, may), id, Aim(target, sel.exert == Answered(true)));
      next := staged.value;
    }
    assert ids[..|ids|] == ids;
    r := Some((next, left));
  }

  lemma PutLast(m: Aims, n: Aims, id: string, aim: Aim)
    ensures (m + n)[id := aim] == m + n[id := aim]
  {
  }

  lemma LeftGrows(ids: seq<string>, id: string, may: set<string>)
    ensures Left(ids + [id], may) == if id in may then Left(ids, may) else Left(ids, may) + [id]
  {
    assert (ids + [id])[..|ids|] == ids;
  }

  lemma NewAimsGrow(primary: AttackerSelection, ids: seq<string>, id: string, target: string, may: set<string>)
    ensures NewAims(primary, ids + [id], target, may)
         == if id in may
            then NewAims(primary, ids, target, may)[id := Aim(target, id == primary.cardID && primary.exert == Answered(true))]
            else NewAims(primary, ids, target, may)
  {
  }

  /** The selected creatures that may not attack the target, in order. */
  function Left(ids: seq<string>, may: set<string>): seq<string> {
    if ids == [] then []
    else
      var rest := Left(ids[..|ids| - 1], may);
      if ids[|ids| - 1] in may then rest else rest + [ids[|ids| - 1]]
  }

  // ---- Every run of the stage is a run of the map ----

  datatype Op =
    | DoStageAt(sel: AttackerSelection, target: string)
    | DoStageMany(entries: Stage)
    | DoUnstage(cardID: string)
    | DoUnstageMany(ids: seq<string>)
    | DoPrune(alive: set<string>)
    | DoKeepBeside(defender: string, shown: set<string>, chosen: seq<string>)

  function Apply(stage: Stage, op: Op): Stage {
    match op
    case DoStageAt(sel, target) =>
      var r := StageAt(stage, sel, target);
      if r.Some? then r.value else stage
    case DoStageMany(entries) => StageMany(stage, entries)
    case DoUnstage(cardID) => Unstage(stage, cardID)
    case DoUnstageMany(ids) => UnstageMany(stage, ids)
    case DoPrune(alive) => PruneStage(stage, alive)
    case DoKeepBeside(defender, shown, chosen) => KeptBesidePick(stage, defender, shown, chosen)
  }

  function ApplyToMap(m: Aims, op: Op): Aims {
    match op
    case DoStageAt(sel, target) => if sel.exert.Open? then m else m[sel.cardID := Aim(target, sel.exert == Answered(true))]
    case DoStageMany(entries) => m + AimsOf(entries)
    case DoUnstage(cardID) => m - {cardID}
    case DoUnstageMany(ids) => m - (set id <- ids)
    case DoPrune(alive) => map a <- m | a in alive :: m[a]
    case DoKeepBeside(defender, shown, chosen) => map a <- m | a !in chosen && (m[a].target != defender || a !in shown) :: m[a]
  }

  function RunStage(stage: Stage, ops: seq<Op>): Stage {
    if ops == [] then stage else Apply(RunStage(stage, ops[..|ops| - 1]), ops[|ops| - 1])
  }

  function RunMap(m: Aims, ops: seq<Op>): Aims {
    if ops == [] then m else ApplyToMap(RunMap(m, ops[..|ops| - 1]), ops[|ops| - 1])
  }

  lemma ApplyRefines(stage: Stage, op: Op)
    requires Unique(stage) && (op.DoStageMany? ==> Unique(op.entries))
    ensures Unique(Apply(stage, op)) && AimsOf(Apply(stage, op)) == ApplyToMap(AimsOf(stage), op)
  {
    match op {
      case DoStageAt(sel, target) => { StageAtSetsAim(stage, sel, target); }
      case DoStageMany(entries) => { StageManyAddsAims(stage, entries); }
      case DoUnstage(cardID) => { WithoutIsRemoval(stage, {cardID}); }
      case DoUnstageMany(ids) => { WithoutIsRemoval(stage, set id <- ids); }
      case DoPrune(alive) => { PruneKeepsTheLiving(stage, alive); }
      case DoKeepBeside(defender, shown, chosen) => {
        KeptIsBesideThePick(stage, defender, shown, chosen);
        assert AimsOf(Apply(stage, op)) == ApplyToMap(AimsOf(stage), op);
      }
    }
  }

  /** However the stage is edited, no attacker is in it twice and it is the map edited the same way. */
  lemma {:induction false} StageRefinesMap(ops: seq<Op>)
    requires forall op <- ops :: op.DoStageMany? ==> Unique(op.entries)
    ensures Unique(RunStage([], ops)) && AimsOf(RunStage([], ops)) == RunMap(map[], ops)
  {
    if ops != [] {
      StageRefinesMap(ops[..|ops| - 1]);
      ApplyRefines(RunStage([], ops[..|ops| - 1]), ops[|ops| - 1]);
    }
  }

  // ---- The order of what is left alone ----

  /** The edit gives `id` a new aim, which moves it to the end. */
  predicate Reaims(op: Op, id: string) {
    match op
    case DoStageAt(sel, _) => sel.cardID == id && !sel.exert.Open?
    case DoStageMany(entries) => id in Attackers(entries)
    case _ => false
  }

  lemma WithoutStays(stage: Stage, ids: set<string>, a: string, b: string)
    requires a in Attackers(Without(stage, ids)) && b in Attackers(Without(stage, ids))
    ensures Before(Without(stage, ids), a, b) <==> Before(stage, a, b)
  {
    WithoutMembers(stage, ids);
    WithoutOrder(stage, ids, a, b);
  }

  lemma ApplyKeepsOrder(stage: Stage, op: Op, a: string, b: string)
    requires Unique(stage) && !Reaims(op, a) && !Reaims(op, b)
    requires a in Attackers(Apply(stage, op)) && b in Attackers(Apply(stage, op))
    ensures Before(Apply(stage, op), a, b) <==> Before(stage, a, b)
  {
    match op {
      case DoStageAt(sel, target) => { StageAtSetsAim(stage, sel, target); }
      case DoStageMany(entries) => { StageManyOrder(stage, entries, a, b); }
      case DoUnstage(cardID) => { WithoutStays(stage, {cardID}, a, b); }
      case DoUnstageMany(ids) => { WithoutStays(stage, (set id <- ids), a, b); }
      case DoPrune(alive) => { WithoutStays(stage, Attackers(stage) - alive, a, b); }
      case DoKeepBeside(defender, shown, chosen) => {
        KeptIsWithout(stage, defender, shown, chosen);
        WithoutStays(stage, (set id <- chosen) + StagedAtShown(stage, defender, shown), a, b);
      }
    }
  }

  /** `ss` is the stages the edits go through. */
  ghost predicate StageRun(ss: seq<Stage>, ops: seq<Op>) {
    && |ss| == |ops| + 1 && ss[0] == []
    && forall k :: 0 <= k < |ops| ==> (ops[k].DoStageMany? ==> Unique(ops[k].entries)) && ss[k + 1] == Apply(ss[k], ops[k])
  }

  lemma {:induction false} StageRunIsUnique(ss: seq<Stage>, ops: seq<Op>, k: nat)
    requires StageRun(ss, ops) && k < |ss|
    ensures Unique(ss[k])
  {
    if k > 0 {
      StageRunIsUnique(ss, ops, k - 1);
      ApplyRefines(ss[k - 1], ops[k - 1]);
      assert ss[k - 1 + 1] == Apply(ss[k - 1], ops[k - 1]);
    }
  }

  /** Two creatures that stay staged and are not aimed again stay in the order they were in, whatever else is edited. */
  lemma {:induction false} OthersKeepTheirOrder(ss: seq<Stage>, ops: seq<Op>, i: nat, j: nat, a: string, b: string)
    requires StageRun(ss, ops) && i <= j < |ss|
    requires forall k :: i <= k < j ==> !Reaims(ops[k], a) && !Reaims(ops[k], b)
    requires forall k :: i <= k <= j ==> a in Attackers(ss[k]) && b in Attackers(ss[k])
    ensures Before(ss[j], a, b) <==> Before(ss[i], a, b)
    decreases j
  {
    if i < j {
      OthersKeepTheirOrder(ss, ops, i, j - 1, a, b);
      StageRunIsUnique(ss, ops, j - 1);
      assert ss[j - 1 + 1] == Apply(ss[j - 1], ops[j - 1]);
      ApplyKeepsOrder(ss[j - 1], ops[j - 1], a, b);
    }
  }

  /** What stays selected is exactly those that may not attack there, in the order they were selected. */
  lemma {:induction false} LeftAreTheOthers(ids: seq<string>, may: set<string>)
    requires Distinct(ids)
    ensures Distinct(Left(ids, may))
    ensures forall id :: id in Left(ids, may) <==> id in ids && id !in may
    ensures forall i, j, k, l ::
              (0 <= i < |ids| && 0 <= j < |ids| && 0 <= k < l < |Left(ids, may)|
               && Left(ids, may)[k] == ids[i] && Left(ids, may)[l] == ids[j]) ==> i < j
  {
    if ids != [] {
      var rest, last := ids[..|ids| - 1], ids[|ids| - 1];
      assert ids == rest + [last];
      LeftAreTheOthers(rest, may);
      LeftGrows(rest, last, may);
      assert last !in rest;
      assert forall id :: id in Left(rest, may) ==> id in rest;
    }
  }
}
