/**
 What moves when combat damage lands: one beat's damage entries become a plan of
 which creatures lunge, at what, and which targets shake at contact.
 */
module CombatStrikes {
  import opened Sequences
  import opened Wrappers
  import opened CombatLog
  import opened CombatArrows

  const STRIKE_COPY_CAP := 12

  datatype Target = CardTarget(cardID: string) | SeatTarget(seat: int)

  datatype Side = Attacker | Blocker

  datatype Mover = Mover(cardID: string, side: Side, aim: seq<Target>, dies: bool, flash: bool, lethal: bool, through: seq<Target>)

  datatype Impact = Impact(target: Target, dies: bool, lethal: bool)

  datatype Plan = Plan(movers: seq<Mover>, impacts: seq<Impact>)

  /** One damage entry that names a target. */
  datatype Hit = Hit(entry: LogEvent, target: Target)

  function TargetOf(e: LogEvent): Option<Target> {
    if e.targetSeat.Some? then Some(SeatTarget(e.targetSeat.value))
    else if e.target != "" then Some(CardTarget(e.target))
    else None
  }

  predicate IsStrike(e: LogEvent) {
    e.kind.Damage? && e.kind.combat && e.cardId != ""
  }

  function Strikes(entries: seq<LogEvent>): seq<LogEvent> {
    if entries == [] then []
    else
      var before, last := Strikes(entries[..|entries| - 1]), entries[|entries| - 1];
      if IsStrike(last) then before + [last] else before
  }

  // ---- What the damage entries say ----

  function HitsOf(damage: seq<LogEvent>): seq<Hit> {
    if damage == [] then []
    else
      var before, last := HitsOf(damage[..|damage| - 1]), damage[|damage| - 1];
      if TargetOf(last).Some? then before + [Hit(last, TargetOf(last).value)] else before
  }

  function Once<T(==)>(xs: seq<T>, x: T): seq<T> {
    if x in xs then xs else xs + [x]
  }

  /** Every target hit, in the order first hit. */
  function TargetsIn(hits: seq<Hit>): seq<Target> {
    if hits == [] then [] else Once(TargetsIn(hits[..|hits| - 1]), hits[|hits| - 1].target)
  }

  /** Every creature that hit something, in the order it first did. */
  function SourcesIn(hits: seq<Hit>): seq<string> {
    if hits == [] then [] else Once(SourcesIn(hits[..|hits| - 1]), hits[|hits| - 1].entry.cardId)
  }

  function TargetsBy(hits: seq<Hit>, src: string): seq<Target> {
    if hits == [] then []
    else
      var before, last := TargetsBy(hits[..|hits| - 1], src), hits[|hits| - 1];
      if last.entry.cardId == src then Once(before, last.target) else before
  }

  /** The creatures that hit the card. */
  ghost function HitBy(hits: seq<Hit>, card: string): set<string> {
    set h <- hits | h.target == CardTarget(card) :: h.entry.cardId
  }

  function FirstHit(hits: seq<Hit>, src: string): Option<LogEvent> {
    if hits == [] then None
    else
      var before := FirstHit(hits[..|hits| - 1], src);
      if before.Some? then before
      else if hits[|hits| - 1].entry.cardId == src then Some(hits[|hits| - 1].entry) else None
  }

  // ---- Sides ----

  /** The seat on the last step entry before `e`: the active player. */
  function StepSeat(log: seq<LogEvent>, e: LogEvent): Option<int> {
    if log == [] then None
    else
      var last := log[|log| - 1];
      if last.kind.Step? && last.seqNo < e.seqNo then Some(last.seat) else StepSeat(log[..|log| - 1], e)
  }

  function SideOf(log: seq<LogEvent>, blockerOf: map<string, string>, e: LogEvent): Side {
    var active := StepSeat(log, e);
    if active.Some? && active.value >= 0 && e.seat >= 0 then if e.seat == active.value then Attacker else Blocker
    else if e.cardId in blockerOf then Blocker else Attacker
  }

  method StepSeatOf(log: seq<LogEvent>, e: LogEvent) returns (seat: Option<int>)
    ensures seat == StepSeat(log, e)
  {
    var i := |log|;
    assert log[..|log|] == log;
    while i > 0
      invariant 0 <= i <= |log|
      invariant StepSeat(log, e) == StepSeat(log[..i], e)
    {
      i := i - 1;
      assert log[..i + 1][..i] == log[..i];
      if log[i].kind.Step? && log[i].seqNo < e.seqNo {
        return Some(log[i].seat);
      }
    }
    return None;
  }

  method SideFor(log: seq<LogEvent>, blockerOf: map<string, string>, e: LogEvent) returns (side: Side)
    ensures side == SideOf(log, blockerOf, e)
  {
    var active := StepSeatOf(log, e);
    if active.Some? && active.value >= 0 && e.seat >= 0 {
      return if e.seat == active.value then Attacker else Blocker;
    }
    return if e.cardId in blockerOf then Blocker else Attacker;
  }

  // ---- The plan ----

  function Only(ts: seq<Target>, keep: Target -> bool): seq<Target> {
    if ts == [] then []
    else
      var before, last := Only(ts[..|ts| - 1], keep), ts[|ts| - 1];
      if keep(last) then before + [last] else before
  }

  function IsOwnBlocker(blockerOf: map<string, string>, attacker: string): Target -> bool {
    (t: Target) => t.CardTarget? && t.cardID in blockerOf && blockerOf[t.cardID] == attacker
  }

  function IsCard(): Target -> bool { (t: Target) => t.CardTarget? }

  function IsSeat(): Target -> bool { (t: Target) => t.SeatTarget? }

  function NotIn(ts: seq<Target>): Target -> bool { (t: Target) => t !in ts }

  function AimOf(ts: seq<Target>, blockerOf: map<string, string>, attacker: string): seq<Target> {
    var own := Only(ts, IsOwnBlocker(blockerOf, attacker));
    var cards := Only(ts, IsCard());
    if own != [] then own else if cards != [] then cards else Only(ts, IsSeat())
  }

  function ThroughOf(ts: seq<Target>, blockerOf: map<string, string>, attacker: string): seq<Target> {
    if Only(ts, IsOwnBlocker(blockerOf, attacker)) == [] then []
    else Only(ts, NotIn(AimOf(ts, blockerOf, attacker)))
  }

  /** A blocker braces when something it hit hit it in the same beat. */
  predicate Braces(ts: seq<Target>, hitBy: set<string>) {
    exists t <- ts :: t.CardTarget? && t.cardID in hitBy
  }

  /** The lunge a source makes, if it makes one: what it hit, who hit it, and its side. */
  function MoverOf(src: string, side: Side, ts: seq<Target>, hitBy: set<string>, blockerOf: map<string, string>, died: set<string>): Option<Mover> {
    var flash, dies := hitBy != {}, src in died;
    if side.Attacker? then
      var aim := AimOf(ts, blockerOf, src);
      if aim == [] then None else Some(Mover(src, Attacker, aim, dies, flash, dies && flash, ThroughOf(ts, blockerOf, src)))
    else if Braces(ts, hitBy) || ts == [] then None
    else Some(Mover(src, Blocker, ts, dies, flash, dies && flash, []))
  }

  datatype Source = Source(side: Side, targets: seq<Target>)

  /** What the collecting loop builds: sources in order, what each hit, and who hit each card. */
  datatype Tally = Tally(order: seq<string>, sources: map<string, Source>, hitBy: map<string, set<string>>, targets: seq<Target>)

  ghost predicate SourceTallied(t: Tally, hits: seq<Hit>, log: seq<LogEvent>, blockerOf: map<string, string>, src: string) {
    var first := FirstHit(hits, src);
    && (src in t.sources <==> src in t.order) && (src in t.sources <==> first.Some?)
    && TargetsBy(hits, src) == (if src in t.sources then t.sources[src].targets else [])
    && (src in t.sources && first.Some? ==> t.sources[src].side == SideOf(log, blockerOf, first.value))
  }

  function HittersIn(t: Tally, card: string): set<string> {
    if card in t.hitBy then t.hitBy[card] else {}
  }

  ghost predicate Tallies(t: Tally, hits: seq<Hit>, log: seq<LogEvent>, blockerOf: map<string, string>) {
    && t.order == SourcesIn(hits) && t.targets == TargetsIn(hits)
    && (forall src :: SourceTallied(t, hits, log, blockerOf, src))
    && (forall card :: HittersIn(t, card) == HitBy(hits, card))
  }

  function Noted(t: Tally, side: Side, src: string, target: Target): Tally {
    var s := if src in t.sources then t.sources[src] else Source(side, []);
    var hitters := if target.CardTarget? && target.cardID in t.hitBy then t.hitBy[target.cardID] else {};
    Tally(Once(t.order, src),
          t.sources[src := s.(targets := Once(s.targets, target))],
          if target.CardTarget? then t.hitBy[target.cardID := hitters + {src}] else t.hitBy,
          Once(t.targets, target))
  }

  lemma NotedSource(t: Tally, hits: seq<Hit>, log: seq<LogEvent>, blockerOf: map<string, string>, x: Hit, src: string)
    requires SourceTallied(t, hits, log, blockerOf, src)
    ensures SourceTallied(Noted(t, SideOf(log, blockerOf, x.entry), x.entry.cardId, x.target), hits + [x], log, blockerOf, src)
  {
    assert (hits + [x])[..|hits|] == hits;
  }

  lemma NotedHitters(t: Tally, hits: seq<Hit>, side: Side, x: Hit, card: string)
    requires HittersIn(t, card) == HitBy(hits, card)
    ensures HittersIn(Noted(t, side, x.entry.cardId, x.target), card) == HitBy(hits + [x], card)
  {
    if x.target == CardTarget(card) {
      assert HitBy(hits + [x], card) == HitBy(hits, card) + {x.entry.cardId};
    } else {
      assert HitBy(hits + [x], card) == HitBy(hits, card);
    }
  }

  lemma NotedTallies(t: Tally, hits: seq<Hit>, log: seq<LogEvent>, blockerOf: map<string, string>, x: Hit)
    requires Tallies(t, hits, log, blockerOf)
    ensures Tallies(Noted(t, SideOf(log, blockerOf, x.entry), x.entry.cardId, x.target), hits + [x], log, blockerOf)
  {
    assert (hits + [x])[..|hits|] == hits;
    forall src { NotedSource(t, hits, log, blockerOf, x, src); }
    forall card { NotedHitters(t, hits, SideOf(log, blockerOf, x.entry), x, card); }
  }

  method Collect(damage: seq<LogEvent>, log: seq<LogEvent>, blockerOf: map<string, string>) returns (t: Tally)
    ensures Tallies(t, HitsOf(damage), log, blockerOf)
  {
    t := Tally([], map[], map[], []);
    for i := 0 to |damage|
      invariant Tallies(t, HitsOf(damage[..i]), log, blockerOf)
    {
      var e := damage[i];
      assert damage[..i + 1][..i] == damage[..i];
      if TargetOf(e).None? {
        continue;
      }
      NotedTallies(t, HitsOf(damage[..i]), log, blockerOf, Hit(e, TargetOf(e).value));
      var side := SideFor(log, blockerOf, e);
      t := Noted(t, side, e.cardId, TargetOf(e).value);
    }
    assert damage[..|damage|] == damage;
  }

  /** Everything a plan is made from. */
  datatype Beat = Beat(
    hits: seq<Hit>, log: seq<LogEvent>, blockerOf: map<string, string>, died: set<string>, eliminated: set<int>)

  /** The creatures the beat's own entries move off the battlefield, and the players it eliminates; a concession is no hit. */
  function Died(entries: seq<LogEvent>): set<string> {
    set e <- entries | e.kind.Zone? && e.kind.oldZone == "battlefield" && e.cardId != "" :: e.cardId
  }

  function EliminatedIn(entries: seq<LogEvent>): set<int> {
    set e <- entries | e.kind.Eliminated? && e.kind.cause != "concede" && e.seat >= 0 :: e.seat
  }

  function BeatOf(entries: seq<LogEvent>, log: seq<LogEvent>): Beat
    requires Strikes(entries) != []
  {
    var damage := Strikes(entries);
    Beat(HitsOf(damage), log, BlocksOf(log, |log|, KeyOf(Openings(log, |log|), damage[0])), Died(entries), EliminatedIn(entries))
  }

  /** The lunge `src` makes in the beat, the cap aside. */
  ghost function CandidateOf(b: Beat, src: string): Option<Mover> {
    var first := FirstHit(b.hits, src);
    if first.None? then None
    else MoverOf(src, SideOf(b.log, b.blockerOf, first.value), TargetsBy(b.hits, src), HitBy(b.hits, src), b.blockerOf, b.died)
  }

  ghost function Candidates(b: Beat, order: seq<string>): seq<Mover> {
    if order == [] then []
    else
      var before, m := Candidates(b, order[..|order| - 1]), CandidateOf(b, order[|order| - 1]);
      if m.Some? then before + [m.value] else before
  }

  function Capped(ms: seq<Mover>): seq<Mover> {
    if |ms| > STRIKE_COPY_CAP then ms[..STRIKE_COPY_CAP] else ms
  }

  predicate Flies(movers: seq<Mover>, t: Target) {
    t.CardTarget? && exists m <- movers :: m.cardID == t.cardID
  }

  function ImpactOn(b: Beat, t: Target): Impact {
    Impact(t, t.CardTarget? && t.cardID in b.died, if t.CardTarget? then t.cardID in b.died else t.seat in b.eliminated)
  }

  function Impacts(b: Beat, movers: seq<Mover>, ts: seq<Target>): seq<Impact> {
    if ts == [] then []
    else
      var before, last := Impacts(b, movers, ts[..|ts| - 1]), ts[|ts| - 1];
      if Flies(movers, last) then before else before + [ImpactOn(b, last)]
  }

  ghost function PlanOf(b: Beat): Plan {
    var movers := Capped(Candidates(b, SourcesIn(b.hits)));
    Plan(movers, Impacts(b, movers, TargetsIn(b.hits)))
  }

  method CollectLosses(entries: seq<LogEvent>) returns (died: set<string>, eliminated: set<int>)
    ensures died == Died(entries) && eliminated == EliminatedIn(entries)
  {
    died, eliminated := {}, {};
    for i := 0 to |entries|
      invariant died == Died(entries[..i]) && eliminated == EliminatedIn(entries[..i])
    {
      var e := entries[i];
      assert entries[..i + 1] == entries[..i] + [e];
      if e.kind.Zone? && e.kind.oldZone == "battlefield" && e.cardId != "" {
        died := died + {e.cardId};
      }
      if e.kind.Eliminated? && e.kind.cause != "concede" && e.seat >= 0 {
        eliminated := eliminated + {e.seat};
      }
    }
    assert entries[..|entries|] == entries;
  }

  method CandidatesFor(t: Tally, ghost b: Beat, blockerOf: map<string, string>, died: set<string>) returns (ms: seq<Mover>)
    requires Tallies(t, b.hits, b.log, b.blockerOf) && blockerOf == b.blockerOf && died == b.died
    ensures ms == Candidates(b, SourcesIn(b.hits))
  {
    ms := [];
    for i := 0 to |t.order|
      invariant ms == Candidates(b, t.order[..i])
    {
      var src := t.order[i];
      assert t.order[..i + 1][..i] == t.order[..i];
      assert SourceTallied(t, b.hits, b.log, b.blockerOf, src);
      assert HittersIn(t, src) == HitBy(b.hits, src);
      var s := t.sources[src];
      var m := MoverOf(src, s.side, s.targets, HittersIn(t, src), blockerOf, died);
      if m.Some? {
        ms := ms + [m.value];
      }
    }
    assert t.order[..|t.order|] == t.order;
  }

  method StrikesFor(entries: seq<LogEvent>, log: seq<LogEvent>) returns (plan: Plan)
    ensures plan == if Strikes(entries) == [] then Plan([], []) else PlanOf(BeatOf(entries, log))
  {
    var damage: seq<LogEvent> := [];
    for i := 0 to |entries|
      invariant damage == Strikes(entries[..i])
    {
      assert entries[..i + 1][..i] == entries[..i];
      if IsStrike(entries[i]) {
        damage := damage + [entries[i]];
      }
    }
    assert entries[..|entries|] == entries;
    if damage == [] {
      return Plan([], []);
    }
    var died, eliminated := CollectLosses(entries);
    var opens := CombatKeyer(log);
    var blockerOf := BlocksOn(log, opens, KeyOf(opens, damage[0]));
    var t := Collect(damage, log, blockerOf);
    var b := Beat(HitsOf(damage), log, blockerOf, died, eliminated);
    var candidates := CandidatesFor(t, b, blockerOf, died);
    var movers := Capped(candidates);
    var impacts: seq<Impact> := [];
    for i := 0 to |t.targets|
      invariant impacts == Impacts(b, movers, t.targets[..i])
    {
      assert t.targets[..i + 1][..i] == t.targets[..i];
      if !Flies(movers, t.targets[i]) {
        impacts := impacts + [ImpactOn(b, t.targets[i])];
      }
    }
    assert t.targets[..|t.targets|] == t.targets;
    plan := Plan(movers, impacts);
  }

  // ---- What a plan promises ----

  lemma {:induction false} TargetsOnce(hits: seq<Hit>)
    ensures Distinct(TargetsIn(hits)) && Distinct(SourcesIn(hits))
    ensures forall t :: t in TargetsIn(hits) <==> exists h <- hits :: h.target == t
    ensures forall src :: src in SourcesIn(hits) <==> exists h <- hits :: h.entry.cardId == src
  {
    if hits != [] {
      var init, last := hits[..|hits| - 1], hits[|hits| - 1];
      TargetsOnce(init);
      assert hits == init + [last];
      assert forall h <- hits :: h in init || h == last;
      assert forall h <- init :: h in hits;
      assert last in hits;
    }
  }

  lemma {:induction false} TargetsByOnce(hits: seq<Hit>, src: string)
    ensures Distinct(TargetsBy(hits, src))
    ensures forall t :: t in TargetsBy(hits, src) <==> exists h <- hits :: h.target == t && h.entry.cardId == src
    ensures FirstHit(hits, src).Some? <==> exists h <- hits :: h.entry.cardId == src
    ensures TargetsBy(hits, src) == [] <==> FirstHit(hits, src).None?
  {
    if hits != [] {
      var init, last := hits[..|hits| - 1], hits[|hits| - 1];
      TargetsByOnce(init, src);
      assert hits == init + [last];
      assert forall h <- hits :: h in init || h == last;
      assert forall h <- init :: h in hits;
      assert last in hits;
    }
  }

  lemma {:induction false} OnlyKeeps(ts: seq<Target>, keep: Target -> bool)
    ensures forall t :: t in Only(ts, keep) <==> t in ts && keep(t)
    ensures Distinct(ts) ==> Distinct(Only(ts, keep))
  {
    if ts != [] {
      OnlyKeeps(ts[..|ts| - 1], keep);
      assert ts == ts[..|ts| - 1] + [ts[|ts| - 1]];
    }
  }

  lemma {:induction false} CandidatesAre(b: Beat, order: seq<string>)
    requires Distinct(order)
    ensures forall m <- Candidates(b, order) :: m.cardID in order && CandidateOf(b, m.cardID) == Some(m)
    ensures forall src <- order :: CandidateOf(b, src).Some? ==> CandidateOf(b, src).value in Candidates(b, order)
    ensures forall i, j :: 0 <= i < j < |Candidates(b, order)| ==> Candidates(b, order)[i].cardID != Candidates(b, order)[j].cardID
  {
    if order != [] {
      var init, last := order[..|order| - 1], order[|order| - 1];
      CandidatesAre(b, init);
      assert order == init + [last];
      assert last !in init;
    }
  }

  lemma {:induction false} ImpactsAre(b: Beat, movers: seq<Mover>, ts: seq<Target>)
    requires Distinct(ts)
    ensures forall x <- Impacts(b, movers, ts) :: x.target in ts && !Flies(movers, x.target) && x == ImpactOn(b, x.target)
    ensures forall t <- ts :: !Flies(movers, t) ==> ImpactOn(b, t) in Impacts(b, movers, ts)
    ensures forall i, j :: 0 <= i < j < |Impacts(b, movers, ts)| ==> Impacts(b, movers, ts)[i].target != Impacts(b, movers, ts)[j].target
  {
    if ts != [] {
      var init, last := ts[..|ts| - 1], ts[|ts| - 1];
      ImpactsAre(b, movers, init);
      assert ts == init + [last];
      assert last !in init;
    }
  }

  ghost predicate Hurt(b: Beat, src: string, t: Target) {
    exists h <- b.hits :: h.entry.cardId == src && h.target == t
  }

  /** A mover is what its creature's own hits make it. */
  lemma MoverIsCandidate(b: Beat, m: Mover)
    requires m in PlanOf(b).movers
    ensures CandidateOf(b, m.cardID) == Some(m) && m.cardID in SourcesIn(b.hits)
  {
    TargetsOnce(b.hits);
    CandidatesAre(b, SourcesIn(b.hits));
  }

  /**
   At most the cap of creatures move, each once; and everything that hit something
   moves unless it is a blocker bracing, or the cap is reached.
   */
  lemma EachMovesOnce(b: Beat)
    ensures var ms := PlanOf(b).movers;
            && |ms| <= STRIKE_COPY_CAP
            && (forall i, j :: 0 <= i < j < |ms| ==> ms[i].cardID != ms[j].cardID)
            && (|ms| < STRIKE_COPY_CAP ==>
                  forall src <- SourcesIn(b.hits) :: CandidateOf(b, src).Some? ==> CandidateOf(b, src).value in ms)
  {
    TargetsOnce(b.hits);
    CandidatesAre(b, SourcesIn(b.hits));
  }

  lemma FlashIsBeingHit(b: Beat, m: Mover)
    requires m in PlanOf(b).movers
    ensures m.flash <==> CardTarget(m.cardID) in TargetsIn(b.hits)
    ensures m.dies <==> m.cardID in b.died
    ensures m.lethal <==> m.dies && m.flash
  {
    MoverIsCandidate(b, m);
    TargetsOnce(b.hits);
    if CardTarget(m.cardID) in TargetsIn(b.hits) {
      var h :| h in b.hits && h.target == CardTarget(m.cardID);
      assert h.entry.cardId in HitBy(b.hits, m.cardID);
    }
    if HitBy(b.hits, m.cardID) != {} {
      var src :| src in HitBy(b.hits, m.cardID);
    }
  }

  /**
   Every target hit in the beat is shown exactly once: it shakes, once, as the hit it
   was, or it is the one mover of that card and its copy flashes; never both.
   Nothing that was not hit shakes or flashes.
   */
  lemma EveryHitShownOnce(b: Beat, t: Target)
    ensures var p := PlanOf(b);
            var shakes := exists x <- p.impacts :: x.target == t;
            var flashes := t.CardTarget? && exists m <- p.movers :: m.cardID == t.cardID && m.flash;
            && (t in TargetsIn(b.hits) <==> shakes || flashes)
            && !(shakes && flashes)
            && (forall x <- p.impacts :: x.target == t ==> x == ImpactOn(b, t))
            && (forall i, j :: 0 <= i < j < |p.impacts| ==> p.impacts[i].target != p.impacts[j].target)
  {
    var p := PlanOf(b);
    TargetsOnce(b.hits);
    ImpactsAre(b, p.movers, TargetsIn(b.hits));
    if t.CardTarget? {
      if m :| m in p.movers && m.cardID == t.cardID {
        FlashIsBeingHit(b, m);
        assert Flies(p.movers, t);
        forall other | other in p.movers && other.cardID == t.cardID ensures other.flash <==> t in TargetsIn(b.hits) {
          FlashIsBeingHit(b, other);
        }
      }
    }
    if t in TargetsIn(b.hits) && !Flies(p.movers, t) {
      assert ImpactOn(b, t) in p.impacts && ImpactOn(b, t).target == t;
    }
  }

  /** A blocker that moves was hit by nothing it hit, and aims at all it hit; one that was hit back stays and shakes. */
  lemma MovingBlockerWasNotHitBack(b: Beat, m: Mover)
    requires m in PlanOf(b).movers && m.side.Blocker?
    ensures m.through == [] && forall t :: t in m.aim <==> Hurt(b, m.cardID, t)
    ensures forall other :: Hurt(b, m.cardID, CardTarget(other)) ==> !Hurt(b, other, CardTarget(m.cardID))
  {
    MoverIsCandidate(b, m);
    TargetsByOnce(b.hits, m.cardID);
    forall t ensures t in m.aim <==> Hurt(b, m.cardID, t) {
    }
    forall other | Hurt(b, m.cardID, CardTarget(other)) ensures !Hurt(b, other, CardTarget(m.cardID)) {
      assert CardTarget(other) in m.aim;
      assert other !in HitBy(b.hits, m.cardID);
    }
  }

  /** A blocker whose target hit it in the same beat does not move: it shakes where it stands. */
  lemma BlockerHitBackBraces(b: Beat, src: string, other: string)
    requires Hurt(b, src, CardTarget(other)) && Hurt(b, other, CardTarget(src))
    requires FirstHit(b.hits, src).Some? && SideOf(b.log, b.blockerOf, FirstHit(b.hits, src).value).Blocker?
    ensures forall m <- PlanOf(b).movers :: m.cardID != src
    ensures ImpactOn(b, CardTarget(src)) in PlanOf(b).impacts
  {
    TargetsByOnce(b.hits, src);
    TargetsOnce(b.hits);
    assert CardTarget(other) in TargetsBy(b.hits, src) && other in HitBy(b.hits, src);
    forall m | m in PlanOf(b).movers ensures m.cardID != src {
      MoverIsCandidate(b, m);
    }
    ImpactsAre(b, PlanOf(b).movers, TargetsIn(b.hits));
    assert CardTarget(src) in TargetsIn(b.hits);
  }

  /**
   An attacker that hit its own blockers aims at exactly those, and the rest of what
   it hit is what goes through: between them everything, with nothing twice.
   */
  lemma AimAndThroughPartition(b: Beat, m: Mover)
    requires m in PlanOf(b).movers && m.side.Attacker?
    requires exists t :: Hurt(b, m.cardID, t) && IsOwnBlocker(b.blockerOf, m.cardID)(t)
    ensures forall t :: t in m.aim <==> Hurt(b, m.cardID, t) && IsOwnBlocker(b.blockerOf, m.cardID)(t)
    ensures forall t :: t in m.through <==> Hurt(b, m.cardID, t) && t !in m.aim
    ensures Distinct(m.aim) && Distinct(m.through)
  {
    MoverIsCandidate(b, m);
    var ts := TargetsBy(b.hits, m.cardID);
    TargetsByOnce(b.hits, m.cardID);
    OnlyKeeps(ts, IsOwnBlocker(b.blockerOf, m.cardID));
    var t :| Hurt(b, m.cardID, t) && IsOwnBlocker(b.blockerOf, m.cardID)(t);
    assert t in Only(ts, IsOwnBlocker(b.blockerOf, m.cardID));
    OnlyKeeps(ts, NotIn(m.aim));
  }

  lemma OnlyNone(ts: seq<Target>, keep: Target -> bool)
    requires forall t <- ts :: !keep(t)
    ensures Only(ts, keep) == []
  {
    OnlyKeeps(ts, keep);
    if Only(ts, keep) != [] { assert Only(ts, keep)[0] in Only(ts, keep); }
  }

  lemma AimWithoutBlockers(ts: seq<Target>, blockerOf: map<string, string>, attacker: string)
    requires ts != [] && forall t <- ts :: !IsOwnBlocker(blockerOf, attacker)(t)
    ensures ThroughOf(ts, blockerOf, attacker) == [] && AimOf(ts, blockerOf, attacker) != []
    ensures forall t :: t in AimOf(ts, blockerOf, attacker) <==> t in ts && (t.CardTarget? || !exists c <- ts :: c.CardTarget?)
  {
    OnlyNone(ts, IsOwnBlocker(blockerOf, attacker));
    OnlyKeeps(ts, IsCard());
    OnlyKeeps(ts, IsSeat());
    if c :| c in ts && c.CardTarget? {
      assert c in Only(ts, IsCard());
    } else {
      OnlyNone(ts, IsCard());
      assert ts[0] in Only(ts, IsSeat());
    }
  }

  /** An attacker that hit none of its own blockers aims at the cards it hit, or else at the seats. */
  lemma UnblockedAim(b: Beat, m: Mover)
    requires m in PlanOf(b).movers && m.side.Attacker?
    requires !exists t :: Hurt(b, m.cardID, t) && IsOwnBlocker(b.blockerOf, m.cardID)(t)
    ensures m.through == [] && m.aim != []
    ensures forall t :: t in m.aim <==>
              Hurt(b, m.cardID, t) && (t.CardTarget? || !exists c :: Hurt(b, m.cardID, c) && c.CardTarget?)
  {
    MoverIsCandidate(b, m);
    var ts := TargetsBy(b.hits, m.cardID);
    TargetsByOnce(b.hits, m.cardID);
    assert forall t :: t in ts <==> Hurt(b, m.cardID, t);
    AimWithoutBlockers(ts, b.blockerOf, m.cardID);
  }

  /** The blocks the plan reads are those of the damage's own combat, the latest one for each blocker. */
  lemma OwnBlockersAreThisCombats(entries: seq<LogEvent>, log: seq<LogEvent>, i: nat, blocker: string) returns (j: nat)
    requires Ordered(log) && i < |log| && Strikes(entries) != [] && Strikes(entries)[0] == log[i]
    requires blocker in BeatOf(entries, log).blockerOf
    ensures j < |log| && log[j].kind.Block? && log[j].cardId == blocker
    ensures log[j].target == BeatOf(entries, log).blockerOf[blocker] && CombatAt(log, j) == CombatAt(log, i)
  {
    KeyOfIsCombatAt(log, |log|, i);
    j := BlocksOfIsLatest(log, |log|, CombatAt(log, i), blocker);
  }
}
