/**
 A strike plan told from the beat's entries and the log: who is on which side, who
 moves and at what, who dies, and in what order.
 */
module StrikePlans {
  import opened Wrappers
  import opened CombatLog
  import opened CombatArrows
  import opened CombatNames
  import opened CombatStrikes

  /** The entry is combat damage `src` dealt to `t`; a seat named beside a card is the target. */
  predicate DealtTo(e: LogEvent, src: string, t: Target) {
    && e.kind.Damage? && e.kind.combat && src != "" && e.cardId == src
    && match t
       case SeatTarget(seat) => e.targetSeat.Some? && e.targetSeat.value == seat
       case CardTarget(card) => e.targetSeat.None? && e.target == card && card != ""
  }

  ghost predicate Struck(entries: seq<LogEvent>, src: string, t: Target) {
    exists e <- entries :: DealtTo(e, src, t)
  }

  ghost predicate DealtByAny(e: LogEvent, src: string) {
    exists t :: DealtTo(e, src, t)
  }

  /** The entry at `i` is the first of `src`'s damage that names a target. */
  ghost predicate FirstOfIts(entries: seq<LogEvent>, src: string, i: nat)
    requires i < |entries|
  {
    DealtByAny(entries[i], src) && forall m :: 0 <= m < i ==> !DealtByAny(entries[m], src)
  }

  // ---- The hits are the entries ----

  lemma HitOfEntry(e: LogEvent, src: string)
    ensures IsStrike(e) && TargetOf(e).Some? && e.cardId == src <==> DealtByAny(e, src)
    ensures forall t :: DealtTo(e, src, t) <==> IsStrike(e) && e.cardId == src && TargetOf(e) == Some(t)
  {
    forall t ensures DealtTo(e, src, t) <==> IsStrike(e) && e.cardId == src && TargetOf(e) == Some(t) {
    }
    if IsStrike(e) && TargetOf(e).Some? && e.cardId == src {
      assert DealtTo(e, src, TargetOf(e).value);
    }
  }

  /** The hits after one more entry. */
  lemma OneMoreEntry(init: seq<LogEvent>, e: LogEvent)
    ensures HitsOf(Strikes(init + [e]))
         == if IsStrike(e) && TargetOf(e).Some? then HitsOf(Strikes(init)) + [Hit(e, TargetOf(e).value)] else HitsOf(Strikes(init))
  {
    assert (init + [e])[..|init|] == init;
    if IsStrike(e) {
      assert (Strikes(init) + [e])[..|Strikes(init)|] == Strikes(init);
    }
  }

  lemma {:induction false} HitsAreEntries(entries: seq<LogEvent>, src: string, t: Target)
    ensures (exists h <- HitsOf(Strikes(entries)) :: h.entry.cardId == src && h.target == t) <==> Struck(entries, src, t)
  {
    if entries != [] {
      var init, e := entries[..|entries| - 1], entries[|entries| - 1];
      assert entries == init + [e];
      HitsAreEntries(init, src, t);
      OneMoreEntry(init, e);
      HitOfEntry(e, src);
      var hits := HitsOf(Strikes(entries));
      if IsStrike(e) && TargetOf(e).Some? {
        assert hits == HitsOf(Strikes(init)) + [Hit(e, TargetOf(e).value)];
        assert Hit(e, TargetOf(e).value) in hits;
      }
    }
  }

  lemma FirstHitGrows(init: seq<LogEvent>, e: LogEvent, src: string)
    ensures var before := FirstHit(HitsOf(Strikes(init)), src);
            FirstHit(HitsOf(Strikes(init + [e])), src)
            == if before.Some? then before else if DealtByAny(e, src) then Some(e) else None
  {
    OneMoreEntry(init, e);
    HitOfEntry(e, src);
    var hits := HitsOf(Strikes(init));
    if IsStrike(e) && TargetOf(e).Some? {
      assert (hits + [Hit(e, TargetOf(e).value)])[..|hits|] == hits;
    }
  }

  lemma {:induction false} FirstHitIs(entries: seq<LogEvent>, src: string, i: nat)
    requires i < |entries| && FirstOfIts(entries, src, i)
    ensures FirstHit(HitsOf(Strikes(entries)), src) == Some(entries[i])
  {
    var init, e := entries[..|entries| - 1], entries[|entries| - 1];
    assert entries == init + [e];
    FirstHitGrows(init, e, src);
    if i < |init| {
      assert FirstOfIts(init, src, i);
      FirstHitIs(init, src, i);
    } else {
      NoHitYet(init, src);
    }
  }

  lemma {:induction false} NoHitYet(entries: seq<LogEvent>, src: string)
    requires forall e <- entries :: !DealtByAny(e, src)
    ensures FirstHit(HitsOf(Strikes(entries)), src) == None
  {
    if entries != [] {
      var init, e := entries[..|entries| - 1], entries[|entries| - 1];
      assert entries == init + [e];
      NoHitYet(init, src);
      FirstHitGrows(init, e, src);
    }
  }

  // ---- Sides ----

  /** The entry at `j` is the last step entry before `e`. */
  ghost predicate StepUnder(log: seq<LogEvent>, j: nat, e: LogEvent)
    requires j < |log|
  {
    && log[j].kind.Step? && log[j].seqNo < e.seqNo
    && forall m :: j < m < |log| && log[m].kind.Step? ==> log[m].seqNo >= e.seqNo
  }

  /** The step `e` happened under names the active player, and `e` the player whose creature dealt it. */
  ghost predicate SeatsKnown(log: seq<LogEvent>, e: LogEvent) {
    e.seat >= 0 && exists j :: 0 <= j < |log| && StepUnder(log, j, e) && log[j].seat >= 0
  }

  ghost predicate OfActivePlayer(log: seq<LogEvent>, e: LogEvent) {
    exists j :: 0 <= j < |log| && StepUnder(log, j, e) && log[j].seat == e.seat
  }

  /** `card` has a block entry in the combat of the entry at `d`. */
  ghost predicate IsBlocker(log: seq<LogEvent>, d: nat, card: string)
    requires d < |log|
  {
    exists j :: 0 <= j < |log| && IsBlockEntry(log[j]) && log[j].cardId == card && CombatAt(log, j) == CombatAt(log, d)
  }

  /** Whose creature `e`'s is: the active player's attack; failing the seats, a creature without a block does. */
  ghost predicate IsAttackers(log: seq<LogEvent>, d: nat, e: LogEvent)
    requires d < |log|
  {
    if SeatsKnown(log, e) then OfActivePlayer(log, e) else !IsBlocker(log, d, e.cardId)
  }

  lemma {:induction false} StepSeatIs(log: seq<LogEvent>, e: LogEvent, j: nat)
    requires j < |log| && StepUnder(log, j, e)
    ensures StepSeat(log, e) == Some(log[j].seat)
  {
    if j < |log| - 1 {
      assert StepUnder(log[..|log| - 1], j, e);
      StepSeatIs(log[..|log| - 1], e, j);
    }
  }

  lemma {:induction false} StepSeatAt(log: seq<LogEvent>, e: LogEvent) returns (j: nat)
    requires StepSeat(log, e).Some?
    ensures j < |log| && StepUnder(log, j, e)
  {
    if log[|log| - 1].kind.Step? && log[|log| - 1].seqNo < e.seqNo {
      j := |log| - 1;
    } else {
      j := StepSeatAt(log[..|log| - 1], e);
    }
  }

  lemma {:induction false} BlockersHaveBlocks(log: seq<LogEvent>, n: nat, combat: CombatKey, card: string)
    requires Ordered(log) && n <= |log|
    ensures card in BlocksOf(log, n, combat) <==>
              exists j :: 0 <= j < n && IsBlockEntry(log[j]) && log[j].cardId == card && CombatAt(log, j) == combat
  {
    if n > 0 {
      BlockersHaveBlocks(log, n - 1, combat, card);
      KeyOfIsCombatAt(log, |log|, n - 1);
    }
  }

  /** The log shows the beat's first strike at `d`. */
  ghost predicate Shows(entries: seq<LogEvent>, log: seq<LogEvent>, d: nat) {
    Ordered(log) && d < |log| && Strikes(entries) != [] && Strikes(entries)[0] == log[d]
  }

  lemma SideIs(entries: seq<LogEvent>, log: seq<LogEvent>, d: nat, e: LogEvent)
    requires Shows(entries, log, d)
    ensures SideOf(log, BeatOf(entries, log).blockerOf, e).Attacker? <==> IsAttackers(log, d, e)
  {
    KeyOfIsCombatAt(log, |log|, d);
    BlockersHaveBlocks(log, |log|, CombatAt(log, d), e.cardId);
    forall j | 0 <= j < |log| && StepUnder(log, j, e) ensures StepSeat(log, e) == Some(log[j].seat) {
      StepSeatIs(log, e, j);
    }
    if StepSeat(log, e).Some? {
      var j := StepSeatAt(log, e);
    }
  }

  /** A mover is on the side its first damage entry puts it. */
  lemma MoverIsOnItsSide(entries: seq<LogEvent>, log: seq<LogEvent>, d: nat, m: Mover, i: nat)
    requires Shows(entries, log, d) && m in PlanOf(BeatOf(entries, log)).movers
    requires i < |entries| && FirstOfIts(entries, m.cardID, i)
    ensures m.side.Attacker? <==> IsAttackers(log, d, entries[i])
  {
    MoverIsCandidate(BeatOf(entries, log), m);
    FirstHitIs(entries, m.cardID, i);
    SideIs(entries, log, d, entries[i]);
  }

  // ---- Who moves ----

  /** What `src` hit hit it back in the beat. */
  ghost predicate HitBack(entries: seq<LogEvent>, src: string) {
    exists other :: Struck(entries, src, CardTarget(other)) && Struck(entries, other, CardTarget(src))
  }

  lemma HurtIsStruck(entries: seq<LogEvent>, log: seq<LogEvent>, src: string, t: Target)
    requires Strikes(entries) != []
    ensures Hurt(BeatOf(entries, log), src, t) <==> Struck(entries, src, t)
  {
    HitsAreEntries(entries, src, t);
  }

  lemma BracesIff(entries: seq<LogEvent>, log: seq<LogEvent>, src: string)
    requires Strikes(entries) != []
    ensures var hits := BeatOf(entries, log).hits;
            Braces(TargetsBy(hits, src), HitBy(hits, src)) <==> HitBack(entries, src)
  {
    var b := BeatOf(entries, log);
    TargetsByOnce(b.hits, src);
    forall other
      ensures CardTarget(other) in TargetsBy(b.hits, src) <==> Struck(entries, src, CardTarget(other))
      ensures other in HitBy(b.hits, src) <==> Struck(entries, other, CardTarget(src))
    {
      HurtIsStruck(entries, log, src, CardTarget(other));
      HurtIsStruck(entries, log, other, CardTarget(src));
    }
    if Braces(TargetsBy(b.hits, src), HitBy(b.hits, src)) {
      var t :| t in TargetsBy(b.hits, src) && t.CardTarget? && t.cardID in HitBy(b.hits, src);
      assert Struck(entries, src, CardTarget(t.cardID));
    }
    if other :| Struck(entries, src, CardTarget(other)) && Struck(entries, other, CardTarget(src)) {
      assert CardTarget(other) in TargetsBy(b.hits, src);
    }
  }

  /** An attacker has something to aim at as soon as it hit anything. */
  lemma AimIsSomething(ts: seq<Target>, blockerOf: map<string, string>, src: string)
    requires ts != []
    ensures AimOf(ts, blockerOf, src) != []
  {
    if forall t <- ts :: !IsOwnBlocker(blockerOf, src)(t) {
      AimWithoutBlockers(ts, blockerOf, src);
    } else {
      OnlyKeeps(ts, IsOwnBlocker(blockerOf, src));
      var t :| t in ts && IsOwnBlocker(blockerOf, src)(t);
      assert t in Only(ts, IsOwnBlocker(blockerOf, src));
    }
  }

  lemma CandidateIff(entries: seq<LogEvent>, log: seq<LogEvent>, d: nat, src: string, i: nat)
    requires Shows(entries, log, d) && i < |entries| && FirstOfIts(entries, src, i)
    ensures CandidateOf(BeatOf(entries, log), src).Some? <==> IsAttackers(log, d, entries[i]) || !HitBack(entries, src)
    ensures src in SourcesIn(BeatOf(entries, log).hits)
  {
    var b := BeatOf(entries, log);
    FirstHitIs(entries, src, i);
    SideIs(entries, log, d, entries[i]);
    BracesIff(entries, log, src);
    TargetsByOnce(b.hits, src);
    TargetsOnce(b.hits);
    AimIsSomething(TargetsBy(b.hits, src), b.blockerOf, src);
  }

  /** Below the cap, a creature that hit something moves if and only if it attacks or nothing it hit hit it back. */
  lemma MovesIff(entries: seq<LogEvent>, log: seq<LogEvent>, d: nat, src: string, i: nat)
    requires Shows(entries, log, d) && i < |entries| && FirstOfIts(entries, src, i)
    requires |PlanOf(BeatOf(entries, log)).movers| < STRIKE_COPY_CAP
    ensures (exists m <- PlanOf(BeatOf(entries, log)).movers :: m.cardID == src)
       <==> IsAttackers(log, d, entries[i]) || !HitBack(entries, src)
  {
    var b := BeatOf(entries, log);
    CandidateIff(entries, log, d, src, i);
    EachMovesOnce(b);
    if m :| m in PlanOf(b).movers && m.cardID == src {
      MoverIsCandidate(b, m);
    }
    if CandidateOf(b, src).Some? {
      assert CandidateOf(b, src).value in PlanOf(b).movers;
    }
  }

  /** A blocker that something it hit hit back stays where it is and shakes, cap or no cap. */
  lemma BlockerHitBackShakes(entries: seq<LogEvent>, log: seq<LogEvent>, d: nat, src: string, i: nat)
    requires Shows(entries, log, d) && i < |entries| && FirstOfIts(entries, src, i)
    requires !IsAttackers(log, d, entries[i]) && HitBack(entries, src)
    ensures forall m <- PlanOf(BeatOf(entries, log)).movers :: m.cardID != src
    ensures exists x <- PlanOf(BeatOf(entries, log)).impacts :: x.target == CardTarget(src)
  {
    var b := BeatOf(entries, log);
    FirstHitIs(entries, src, i);
    SideIs(entries, log, d, entries[i]);
    var other :| Struck(entries, src, CardTarget(other)) && Struck(entries, other, CardTarget(src));
    HurtIsStruck(entries, log, src, CardTarget(other));
    HurtIsStruck(entries, log, other, CardTarget(src));
    BlockerHitBackBraces(b, src, other);
  }

  // ---- What it moves at, and what goes through ----

  lemma OwnBlockerIs(entries: seq<LogEvent>, log: seq<LogEvent>, d: nat, attacker: string, card: string)
    requires Shows(entries, log, d)
    ensures IsOwnBlocker(BeatOf(entries, log).blockerOf, attacker)(CardTarget(card)) <==> Blocked(log, d, card, attacker)
  {
    KeyOfIsCombatAt(log, |log|, d);
    BlocksAre(log, d, card, attacker);
  }

  /** The card struck is a creature whose last block of this combat is of `attacker`. */
  ghost predicate OwnBlockerStruck(entries: seq<LogEvent>, log: seq<LogEvent>, d: nat, attacker: string, t: Target)
    requires d < |log|
  {
    t.CardTarget? && Struck(entries, attacker, t) && Blocked(log, d, t.cardID, attacker)
  }

  lemma OwnStruckIs(entries: seq<LogEvent>, log: seq<LogEvent>, d: nat, attacker: string, t: Target)
    requires Shows(entries, log, d)
    ensures OwnBlockerStruck(entries, log, d, attacker, t)
       <==> Hurt(BeatOf(entries, log), attacker, t) && IsOwnBlocker(BeatOf(entries, log).blockerOf, attacker)(t)
  {
    HurtIsStruck(entries, log, attacker, t);
    if t.CardTarget? {
      OwnBlockerIs(entries, log, d, attacker, t.cardID);
    }
  }

  /** A blocker moves at all it hit. An attacker moves at its own blockers, if it hit any; the rest goes through. */
  lemma AimIs(entries: seq<LogEvent>, log: seq<LogEvent>, d: nat, m: Mover, t: Target)
    requires Shows(entries, log, d) && m in PlanOf(BeatOf(entries, log)).movers
    ensures m.side.Blocker? ==> m.through == [] && (t in m.aim <==> Struck(entries, m.cardID, t))
    ensures m.side.Attacker? && (exists x :: OwnBlockerStruck(entries, log, d, m.cardID, x)) ==>
              && (t in m.aim <==> OwnBlockerStruck(entries, log, d, m.cardID, t))
              && (t in m.through <==> Struck(entries, m.cardID, t) && !OwnBlockerStruck(entries, log, d, m.cardID, t))
    ensures m.side.Attacker? && (forall x :: !OwnBlockerStruck(entries, log, d, m.cardID, x)) ==>
              && m.through == []
              && (t in m.aim <==>
                    && Struck(entries, m.cardID, t)
                    && (t.CardTarget? || forall card :: !Struck(entries, m.cardID, CardTarget(card))))
  {
    var b := BeatOf(entries, log);
    forall x
      ensures OwnBlockerStruck(entries, log, d, m.cardID, x) <==> Hurt(b, m.cardID, x) && IsOwnBlocker(b.blockerOf, m.cardID)(x)
    {
      OwnStruckIs(entries, log, d, m.cardID, x);
    }
    forall x ensures Hurt(b, m.cardID, x) <==> Struck(entries, m.cardID, x) {
      HurtIsStruck(entries, log, m.cardID, x);
    }
    if m.side.Blocker? {
      MovingBlockerWasNotHitBack(b, m);
    } else if x :| OwnBlockerStruck(entries, log, d, m.cardID, x) {
      AimAndThroughPartition(b, m);
    } else {
      NoOwnBlockerAim(b, m, t);
    }
  }

  lemma NoOwnBlockerAim(b: Beat, m: Mover, t: Target)
    requires m in PlanOf(b).movers && m.side.Attacker?
    requires forall x :: !(Hurt(b, m.cardID, x) && IsOwnBlocker(b.blockerOf, m.cardID)(x))
    ensures m.through == []
    ensures t in m.aim <==> Hurt(b, m.cardID, t) && (t.CardTarget? || forall card :: !Hurt(b, m.cardID, CardTarget(card)))
  {
    UnblockedAim(b, m);
    if c :| Hurt(b, m.cardID, c) && c.CardTarget? {
      assert Hurt(b, m.cardID, CardTarget(c.cardID));
    }
  }

  // ---- Deaths ----

  predicate DiesIn(entries: seq<LogEvent>, card: string) {
    card != "" && exists e <- entries :: e.kind.Zone? && e.kind.oldZone == "battlefield" && e.cardId == card
  }

  /** Out of the game by this beat, and not by conceding. */
  predicate BeatenIn(entries: seq<LogEvent>, seat: int) {
    seat >= 0 && exists e <- entries :: e.kind.Eliminated? && e.kind.cause != "concede" && e.seat == seat
  }

  predicate Kills(entries: seq<LogEvent>, t: Target) {
    match t
    case CardTarget(card) => DiesIn(entries, card)
    case SeatTarget(seat) => BeatenIn(entries, seat)
  }

  lemma LossesAre(entries: seq<LogEvent>, card: string, seat: int)
    ensures card in Died(entries) <==> DiesIn(entries, card)
    ensures seat in EliminatedIn(entries) <==> BeatenIn(entries, seat)
  {
  }

  /** A mover dies when the beat moves it off the battlefield, flashes when it was struck, and is hit lethally when both. */
  lemma MoverDiesIff(entries: seq<LogEvent>, log: seq<LogEvent>, m: Mover)
    requires Strikes(entries) != [] && m in PlanOf(BeatOf(entries, log)).movers
    ensures m.dies <==> DiesIn(entries, m.cardID)
    ensures m.flash <==> exists src :: Struck(entries, src, CardTarget(m.cardID))
    ensures m.lethal <==> m.dies && m.flash
  {
    FlashIsBeingHit(BeatOf(entries, log), m);
    LossesAre(entries, m.cardID, 0);
    StruckIsTarget(entries, log, CardTarget(m.cardID));
  }

  /** A shake is lethal when the beat kills what shakes: a card off the battlefield, a player out of the game. */
  lemma ShakeIsLethalIff(entries: seq<LogEvent>, log: seq<LogEvent>, x: Impact)
    requires Strikes(entries) != [] && x in PlanOf(BeatOf(entries, log)).impacts
    ensures x.lethal <==> Kills(entries, x.target)
    ensures x.dies <==> x.target.CardTarget? && Kills(entries, x.target)
  {
    var b := BeatOf(entries, log);
    TargetsOnce(b.hits);
    ImpactsAre(b, PlanOf(b).movers, TargetsIn(b.hits));
    match x.target
    case CardTarget(card) => LossesAre(entries, card, 0);
    case SeatTarget(seat) => LossesAre(entries, "", seat);
  }

  lemma StruckIsTarget(entries: seq<LogEvent>, log: seq<LogEvent>, t: Target)
    requires Strikes(entries) != []
    ensures t in TargetsIn(BeatOf(entries, log).hits) <==> exists src :: Struck(entries, src, t)
  {
    var b := BeatOf(entries, log);
    TargetsOnce(b.hits);
    if h :| h in b.hits && h.target == t {
      HurtIsStruck(entries, log, h.entry.cardId, t);
    }
    if src :| Struck(entries, src, t) {
      HurtIsStruck(entries, log, src, t);
      var h :| h in b.hits && h.entry.cardId == src && h.target == t;
    }
  }

  /** Everything struck in the beat is shown once: it shakes, or it is the mover that flashes. */
  lemma EverythingStruckIsShown(entries: seq<LogEvent>, log: seq<LogEvent>, t: Target)
    requires Strikes(entries) != []
    ensures var p := PlanOf(BeatOf(entries, log));
            var shakes := exists x <- p.impacts :: x.target == t;
            var flashes := t.CardTarget? && exists m <- p.movers :: m.cardID == t.cardID && m.flash;
            ((exists src :: Struck(entries, src, t)) <==> shakes || flashes) && !(shakes && flashes)
  {
    EveryHitShownOnce(BeatOf(entries, log), t);
    StruckIsTarget(entries, log, t);
  }

  // ---- The order of lunges ----

  lemma {:induction false} SourcesPrefix(a: seq<Hit>, b: seq<Hit>)
    requires a <= b
    ensures SourcesIn(a) <= SourcesIn(b)
    decreases |b|
  {
    if |a| < |b| {
      SourcesPrefix(a, b[..|b| - 1]);
    } else {
      assert a == b;
    }
  }

  lemma {:induction false} CandidatesPrefix(b: Beat, n: nat, order: seq<string>)
    requires n <= |order|
    ensures Candidates(b, order[..n]) <= Candidates(b, order)
    decreases |order|
  {
    if n < |order| {
      assert order[..|order| - 1][..n] == order[..n];
      CandidatesPrefix(b, n, order[..|order| - 1]);
    } else {
      assert order[..n] == order;
    }
  }

  /**
   Who hits first moves first, and the cap takes the first twelve: with the hits cut
   anywhere, the lunges of the creatures that hit before the cut come first, up to the cap.
   */
  lemma FirstHittersMoveFirst(b: Beat, n: nat)
    requires n <= |b.hits|
    ensures var early, movers := Candidates(b, SourcesIn(b.hits[..n])), PlanOf(b).movers;
            early <= movers || movers <= early
    ensures |Candidates(b, SourcesIn(b.hits))| <= STRIKE_COPY_CAP ==> PlanOf(b).movers == Candidates(b, SourcesIn(b.hits))
    ensures |Candidates(b, SourcesIn(b.hits))| > STRIKE_COPY_CAP ==> |PlanOf(b).movers| == STRIKE_COPY_CAP
  {
    SourcesPrefix(b.hits[..n], b.hits);
    var early, order := SourcesIn(b.hits[..n]), SourcesIn(b.hits);
    assert order[..|early|] == early;
    CandidatesPrefix(b, |early|, order);
  }
}
