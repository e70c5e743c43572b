/**
 The server's effect of the messages the block code sends, and what the two
 do together: what a release leaves declared, and what every run of clicks keeps.
 */
module BlockRuns {
  import opened Sequences
  import opened Wrappers
  import opened BlockPick

  /** The declaration as it stands. */
  type Relation = set<BlockPair>

  function RelationOf(cards: seq<CardView>): Relation {
    set c <- cards, a <- BlockedAttackersOf(c) :: BlockPair(c.id, a)
  }

  /** The part of the declaration the viewer's creatures make. */
  function OwnRelation(ctx: BlockContext): Relation {
    RelationOf(OwnBlockers(ctx.cards, ctx.viewerID))
  }

  function Blockers(r: Relation, a: string): set<string> {
    set p <- r | p.attacker == a :: p.blocker
  }

  function AttackersOf(r: Relation, b: string): set<string> {
    set p <- r | p.blocker == b :: p.attacker
  }

  ghost predicate DistinctIds(cards: seq<CardView>) {
    forall i, j :: 0 <= i < j < |cards| ==> cards[i].id != cards[j].id
  }

  // ---- The server ----

  /** The server's facts: each attacker's bounds (0 for none), each creature's capacity (0 for any), the legal pairs. */
  datatype Rules = Rules(min: string -> nat, max: string -> nat, capacity: string -> nat, pairOk: BlockPair -> bool)

  /** No blockers is always a legal count. */
  predicate CountOk(rules: Rules, a: string, n: nat) {
    n == 0 || (rules.min(a) <= n && (rules.max(a) == 0 || n <= rules.max(a)))
  }

  /** A declaration being judged: what it would leave, and the attackers it changes. */
  datatype Judged = Judged(after: Relation, touched: set<string>)

  /** One entry: a creature that blocks one attacker is re-pointed, one that blocks several takes one more. */
  function JudgeOne(rules: Rules, j: Judged, p: BlockPair): Option<Judged> {
    var cur := AttackersOf(j.after, p.blocker);
    if !rules.pairOk(p) then None
    else if p in j.after then Some(j)
    else if rules.capacity(p.blocker) == 1 then
      Some(Judged((set q <- j.after | q.blocker != p.blocker) + {p}, j.touched + cur + {p.attacker}))
    else if rules.capacity(p.blocker) == 0 || |cur| < rules.capacity(p.blocker) then
      Some(Judged(j.after + {p}, j.touched + {p.attacker}))
    else None
  }

  function JudgeAll(rules: Rules, base: Relation, decls: seq<BlockPair>): Option<Judged> {
    if decls == [] then Some(Judged(base, {}))
    else
      var j := JudgeAll(rules, base, decls[..|decls| - 1]);
      if j.None? then None else JudgeOne(rules, j.value, decls[|decls| - 1])
  }

  predicate Accepted(rules: Rules, base: Relation, decls: seq<BlockPair>) {
    var j := JudgeAll(rules, base, decls);
    j.Some? && forall a <- j.value.touched :: CountOk(rules, a, |Blockers(j.value.after, a)|)
  }

  /** All or nothing. */
  function Declare(rules: Rules, base: Relation, decls: seq<BlockPair>): Relation {
    if Accepted(rules, base, decls) then JudgeAll(rules, base, decls).value.after else base
  }

  function Apply(rules: Rules, r: Relation, msg: BlockSend): Relation {
    match msg
    case RemoveFromCombat(id) => set p <- r | p.blocker != id
    case DeclareBlocker(p) => Declare(rules, r, [p])
    case DeclareBlockers(blocks) => Declare(rules, r, blocks)
  }

  function ApplyAll(rules: Rules, r: Relation, send: seq<BlockSend>): Relation {
    if send == [] then r else Apply(rules, ApplyAll(rules, r, send[..|send| - 1]), send[|send| - 1])
  }

  /** Every attacker has no blockers, or a legal number of them (CR 509.1b). */
  ghost predicate Legal(rules: Rules, r: Relation) {
    forall a :: CountOk(rules, a, |Blockers(r, a)|)
  }

  // ---- What a release means ----

  /** The declaration a release is for: what it had, minus the viewer's dropped pairs. */
  function Target(ctx: BlockContext, pairs: seq<BlockPair>): Relation {
    RelationOf(ctx.cards) - DroppedPairs(ctx, pairs) * OwnRelation(ctx)
  }

  lemma {:induction false} OwnBlockersFacts(cards: seq<CardView>, viewer: string)
    ensures forall c :: c in OwnBlockers(cards, viewer) <==>
              c in cards && c.controller == viewer && |BlockedAttackersOf(c)| > 0
    ensures DistinctIds(cards) ==> DistinctIds(OwnBlockers(cards, viewer))
  {
    if cards != [] {
      OwnBlockersFacts(cards[1..], viewer);
      assert cards == [cards[0]] + cards[1..];
      var rest := OwnBlockers(cards[1..], viewer);
      forall i | 0 <= i < |rest| && DistinctIds(cards)
        ensures rest[i].id != cards[0].id
      {
        assert rest[i] in cards[1..];
      }
    }
  }

  lemma SameCard(cards: seq<CardView>, c: CardView, d: CardView)
    requires DistinctIds(cards) && c in cards && d in cards && c.id == d.id
    ensures c == d
  {
  }

  lemma BlockersOfFirst(own: seq<CardView>, a: string, asked: set<BlockPair>)
    requires own != []
    ensures Blockers(RelationOf(own) - asked, a)
         == (if a in BlockedAttackersOf(own[0]) && BlockPair(own[0].id, a) !in asked then {own[0].id} else {})
            + Blockers(RelationOf(own[1..]) - asked, a)
  {
    var c, rest := own[0], own[1..];
    assert own == [c] + rest;
    forall id
      ensures BlockPair(id, a) in RelationOf(own) <==>
                (id == c.id && a in BlockedAttackersOf(c)) || BlockPair(id, a) in RelationOf(rest)
    {
      assert a in BlockedAttackersOf(c) ==> BlockPair(c.id, a) in RelationOf(own);
    }
    forall id
      ensures id in Blockers(RelationOf(own) - asked, a) <==> BlockPair(id, a) in RelationOf(own) - asked
      ensures id in Blockers(RelationOf(rest) - asked, a) <==> BlockPair(id, a) in RelationOf(rest) - asked
    {
    }
  }

  lemma {:induction false} LeftOnCount(own: seq<CardView>, a: string, asked: set<BlockPair>)
    requires DistinctIds(own)
    ensures |LeftOn(own, a, asked)| == |Blockers(RelationOf(own) - asked, a)|
  {
    if own == [] {
      assert Blockers(RelationOf(own) - asked, a) == {};
    } else {
      LeftOnCount(own[1..], a, asked);
      BlockersOfFirst(own, a, asked);
      assert own[0].id !in Blockers(RelationOf(own[1..]) - asked, a);
    }
  }

  /**
   Every requested pair the viewer can take back is gone; a touched attacker
   with a minimum keeps none, or at least that many, of the viewer's blockers;
   an attacker that was not touched keeps every blocker; and an attacker that
   was not starved loses only what was asked for.
   */
  lemma ReleaseDrops(ctx: BlockContext, pairs: seq<BlockPair>, a: string)
    requires DistinctIds(ctx.cards)
    ensures forall p <- pairs :: p !in Target(ctx, pairs) <==> p !in RelationOf(ctx.cards) || p in OwnRelation(ctx)
    ensures var min := if CardOf(ctx.cards, a).Some? then CardOf(ctx.cards, a).value.minBlockers else 0;
            var left := |Blockers(OwnRelation(ctx) - DroppedPairs(ctx, pairs), a)|;
            (exists p <- pairs :: p.attacker == a) && min >= 2 ==> left == 0 || left >= min
    ensures (forall p <- pairs :: p.attacker != a) ==>
              Blockers(Target(ctx, pairs), a) == Blockers(RelationOf(ctx.cards), a)
    ensures !Starved(ctx, (set p <- pairs), a) ==>
              Blockers(Target(ctx, pairs), a) == Blockers(RelationOf(ctx.cards) - (set p <- pairs) * OwnRelation(ctx), a)
  {
    var own := OwnBlockers(ctx.cards, ctx.viewerID);
    var asked := set p <- pairs;
    var dropped := DroppedPairs(ctx, pairs);
    OwnBlockersFacts(ctx.cards, ctx.viewerID);
    LeftOnCount(own, a, asked);
    if Starved(ctx, asked, a) && exists p <- pairs :: p.attacker == a {
      assert Blockers(OwnRelation(ctx) - dropped, a) == {} by {
        assert forall c <- own :: a in BlockedAttackersOf(c) ==> BlockPair(c.id, a) in dropped;
      }
    } else {
      assert forall p: BlockPair :: p.attacker == a ==> (p in dropped <==> p in asked);
      assert Blockers(OwnRelation(ctx) - dropped, a) == Blockers(RelationOf(own) - asked, a);
    }
  }

  // ---- Applying the messages ----

  /** The creatures a release takes out of combat. */
  ghost predicate IsTouched(own: seq<CardView>, dropped: set<BlockPair>, id: string) {
    exists c <- own :: c.id == id && Touched(c, dropped)
  }

  ghost function Untouched(r: Relation, own: seq<CardView>, dropped: set<BlockPair>): Relation {
    set p <- r | !IsTouched(own, dropped, p.blocker)
  }

  lemma {:induction false} RemovalsApply(rules: Rules, r: Relation, own: seq<CardView>, dropped: set<BlockPair>)
    ensures ApplyAll(rules, r, Removals(own, dropped)) == Untouched(r, own, dropped)
  {
    if own != [] {
      var rest, c := own[..|own| - 1], own[|own| - 1];
      RemovalsApply(rules, r, rest, dropped);
      assert own == rest + [c];
      var send := Removals(own, dropped);
      assert forall id :: IsTouched(own, dropped, id) <==>
        (IsTouched(rest, dropped, id) || (c.id == id && Touched(c, dropped)));
      if Touched(c, dropped) {
        assert send[..|send| - 1] == Removals(rest, dropped);
      }
    }
  }

  lemma {:induction false} KeptPairsMembers(id: string, atks: seq<string>, dropped: set<BlockPair>)
    ensures forall p :: p in KeptPairs(id, atks, dropped) <==> p.blocker == id && p.attacker in atks && p !in dropped
  {
    if atks != [] {
      KeptPairsMembers(id, atks[..|atks| - 1], dropped);
      assert atks == atks[..|atks| - 1] + [atks[|atks| - 1]];
    }
  }

  lemma {:induction false} KeptMembers(own: seq<CardView>, dropped: set<BlockPair>)
    ensures forall p :: p in Kept(own, dropped) <==>
              p !in dropped && exists c <- own :: Touched(c, dropped) && c.id == p.blocker && p.attacker in BlockedAttackersOf(c)
  {
    if own != [] {
      var rest, c := own[..|own| - 1], own[|own| - 1];
      KeptMembers(rest, dropped);
      KeptPairsMembers(c.id, BlockedAttackersOf(c), dropped);
      assert own == rest + [c];
    }
  }

  /** Taking the touched creatures out and putting the kept pairs back is the target. */
  lemma RemovedPlusKept(ctx: BlockContext, pairs: seq<BlockPair>)
    requires DistinctIds(ctx.cards)
    ensures var own, dropped := OwnBlockers(ctx.cards, ctx.viewerID), DroppedPairs(ctx, pairs);
            var base := Untouched(RelationOf(ctx.cards), own, dropped);
            && base + (set p <- Kept(own, dropped)) == Target(ctx, pairs)
            && base !! (set p <- Kept(own, dropped))
            && (forall p <- Kept(own, dropped) :: AttackersOf(base, p.blocker) == {})
  {
    var own, dropped := OwnBlockers(ctx.cards, ctx.viewerID), DroppedPairs(ctx, pairs);
    var base := Untouched(RelationOf(ctx.cards), own, dropped);
    OwnBlockersFacts(ctx.cards, ctx.viewerID);
    KeptMembers(own, dropped);
    forall p
      ensures p in base || p in Kept(own, dropped) <==> p in Target(ctx, pairs)
    {
      if p in RelationOf(ctx.cards) {
        var c :| c in ctx.cards && c.id == p.blocker && p.attacker in BlockedAttackersOf(c);
        forall d <- own | d.id == p.blocker
          ensures d == c
        {
          SameCard(ctx.cards, c, d);
        }
        if p in dropped && p in OwnRelation(ctx) {
          assert c in own && Touched(c, dropped);
        }
        if p in dropped && p !in OwnRelation(ctx) {
          assert c !in own;
        }
      }
    }
  }

  /** Entries within `all`, where every creature has room for its part of `all`, are all added. */
  lemma {:induction false} JudgeAdds(rules: Rules, base: Relation, decls: seq<BlockPair>, all: Relation)
    requires base <= all && forall p <- decls :: p in all && p !in base
    requires forall p <- decls :: rules.pairOk(p) && HasRoom(rules, all, p.blocker)
    ensures JudgeAll(rules, base, decls) == Some(Judged(base + (set p <- decls), AttackersNamed(decls)))
  {
    if decls == [] {
      assert base + (set p <- decls) == base && AttackersNamed(decls) == {};
    } else {
      var rest, p := decls[..|decls| - 1], decls[|decls| - 1];
      assert decls == rest + [p];
      JudgeAdds(rules, base, rest, all);
      var some := base + (set q <- rest);
      assert AttackersNamed(decls) == AttackersNamed(rest) + {p.attacker};
      assert base + (set q <- decls) == some + {p};
      if p in some {
        assert p in rest && some + {p} == some;
        assert AttackersNamed(rest) + {p.attacker} == AttackersNamed(rest);
      } else {
        JudgeAddsOne(rules, some, AttackersNamed(rest), p, all);
      }
    }
  }

  function AttackersNamed(decls: seq<BlockPair>): set<string> {
    set p <- decls :: p.attacker
  }

  predicate HasRoom(rules: Rules, r: Relation, b: string) {
    rules.capacity(b) == 0 || |AttackersOf(r, b)| <= rules.capacity(b)
  }

  /** A creature with room takes one more attacker, and loses none. */
  lemma JudgeAddsOne(rules: Rules, some: Relation, touched: set<string>, p: BlockPair, all: Relation)
    requires rules.pairOk(p) && p !in some && some + {p} <= all && HasRoom(rules, all, p.blocker)
    ensures JudgeOne(rules, Judged(some, touched), p) == Some(Judged(some + {p}, touched + {p.attacker}))
  {
    var cur := AttackersOf(some, p.blocker);
    assert p.attacker !in cur;
    assert |cur + {p.attacker}| == |cur| + 1;
    SmallerSet(cur + {p.attacker}, AttackersOf(all, p.blocker));
    if rules.capacity(p.blocker) == 1 {
      forall q <- some
        ensures q.blocker != p.blocker
      {
        assert q.blocker == p.blocker ==> q.attacker in cur;
      }
      assert (set q <- some | q.blocker != p.blocker) == some;
      assert touched + cur + {p.attacker} == touched + {p.attacker};
    }
  }

  lemma SmallerSet<T>(a: set<T>, b: set<T>)
    requires a <= b
    ensures |a| <= |b|
  {
    assert b == a + (b - a);
  }

  // ---- Exactly when a release does what it is for ----

  /** The server will take the blocks the release puts back, at the counts it leaves. */
  ghost predicate KeptStands(rules: Rules, ctx: BlockContext, pairs: seq<BlockPair>) {
    forall p <- Kept(OwnBlockers(ctx.cards, ctx.viewerID), DroppedPairs(ctx, pairs)) ::
      && rules.pairOk(p)
      && HasRoom(rules, Target(ctx, pairs), p.blocker)
      && CountOk(rules, p.attacker, |Blockers(Target(ctx, pairs), p.attacker)|)
  }

  lemma JudgeOneBounds(rules: Rules, j: Judged, p: BlockPair)
    requires JudgeOne(rules, j, p).Some?
    ensures var k := JudgeOne(rules, j, p).value;
            && rules.pairOk(p) && k.after <= j.after + {p} && j.touched <= k.touched
            && (p in j.after || p.attacker in k.touched)
  {
  }

  lemma {:induction false} JudgeBounds(rules: Rules, base: Relation, decls: seq<BlockPair>)
    requires JudgeAll(rules, base, decls).Some? && (forall p <- decls :: p !in base)
    ensures var j := JudgeAll(rules, base, decls).value;
            && (forall p <- decls :: rules.pairOk(p))
            && j.after <= base + (set p <- decls)
            && AttackersNamed(decls) <= j.touched
  {
    if decls != [] {
      var rest, p := decls[..|decls| - 1], decls[|decls| - 1];
      assert decls == rest + [p];
      JudgeBounds(rules, base, rest);
      JudgeOneBounds(rules, JudgeAll(rules, base, rest).value, p);
      forall a | a in AttackersNamed(decls) ensures a in JudgeAll(rules, base, decls).value.touched {
        var q :| q in decls && q.attacker == a;
        if q in rest {
          assert a in AttackersNamed(rest);
        }
      }
    }
  }

  lemma AttackersAfter(rules: Rules, j: Judged, p: BlockPair, b: string)
    requires JudgeOne(rules, j, p).Some?
    ensures var after := JudgeOne(rules, j, p).value.after;
            AttackersOf(after, b)
            == if p.blocker != b || p in j.after then AttackersOf(j.after, b)
               else if rules.capacity(b) == 1 then {p.attacker}
               else AttackersOf(j.after, b) + {p.attacker}
  {
    var after := JudgeOne(rules, j, p).value.after;
    forall a: string ensures a in AttackersOf(after, b) <==> BlockPair(b, a) in after {
    }
    forall a: string ensures a in AttackersOf(j.after, b) <==> BlockPair(b, a) in j.after {
    }
  }

  lemma JudgeOneRoom(rules: Rules, j: Judged, p: BlockPair, b: string)
    requires JudgeOne(rules, j, p).Some? && HasRoom(rules, j.after, b)
    ensures HasRoom(rules, JudgeOne(rules, j, p).value.after, b)
  {
    AttackersAfter(rules, j, p, b);
  }

  lemma {:induction false} JudgeRoom(rules: Rules, base: Relation, decls: seq<BlockPair>, b: string)
    requires JudgeAll(rules, base, decls).Some? && AttackersOf(base, b) == {}
    ensures HasRoom(rules, JudgeAll(rules, base, decls).value.after, b)
  {
    if decls != [] {
      JudgeRoom(rules, base, decls[..|decls| - 1], b);
      JudgeOneRoom(rules, JudgeAll(rules, base, decls[..|decls| - 1]).value, decls[|decls| - 1], b);
    }
  }

  lemma ReleaseIsDeclare(rules: Rules, ctx: BlockContext, pairs: seq<BlockPair>)
    requires DistinctIds(ctx.cards)
    ensures var own, dropped := OwnBlockers(ctx.cards, ctx.viewerID), DroppedPairs(ctx, pairs);
            var base := Untouched(RelationOf(ctx.cards), own, dropped);
            var kept := Kept(own, dropped);
            ApplyAll(rules, RelationOf(ctx.cards), ReleaseOf(ctx, pairs))
            == if kept == [] then base else Declare(rules, base, kept)
  {
    var own, dropped := OwnBlockers(ctx.cards, ctx.viewerID), DroppedPairs(ctx, pairs);
    RemovalsApply(rules, RelationOf(ctx.cards), own, dropped);
    var send := ReleaseOf(ctx, pairs);
    if Kept(own, dropped) != [] {
      assert send[..|send| - 1] == Removals(own, dropped);
    } else {
      assert send == Removals(own, dropped);
    }
  }

  /**
   Applied in order, the messages of a release leave exactly the old
   declaration minus the dropped pairs, if and only if the server still allows
   the blocks that are put back.
   */
  lemma ReleaseIsExact(rules: Rules, ctx: BlockContext, pairs: seq<BlockPair>)
    requires DistinctIds(ctx.cards)
    ensures ApplyAll(rules, RelationOf(ctx.cards), ReleaseOf(ctx, pairs)) == Target(ctx, pairs)
       <==> KeptStands(rules, ctx, pairs)
  {
    var own, dropped := OwnBlockers(ctx.cards, ctx.viewerID), DroppedPairs(ctx, pairs);
    var base, kept := Untouched(RelationOf(ctx.cards), own, dropped), Kept(own, dropped);
    RemovedPlusKept(ctx, pairs);
    ReleaseIsDeclare(rules, ctx, pairs);
    if kept != [] {
      if KeptStands(rules, ctx, pairs) {
        JudgeAdds(rules, base, kept, Target(ctx, pairs));
      }
      if Declare(rules, base, kept) == Target(ctx, pairs) {
        assert kept[0] in Target(ctx, pairs) && kept[0] !in base;
        JudgeBounds(rules, base, kept);
        forall p <- kept
          ensures HasRoom(rules, Target(ctx, pairs), p.blocker)
          ensures CountOk(rules, p.attacker, |Blockers(Target(ctx, pairs), p.attacker)|)
        {
          JudgeRoom(rules, base, kept, p.blocker);
          assert p.attacker in AttackersNamed(kept);
        }
      }
    }
  }

  // ---- What is declared stays legal ----

  /** The cards carry the server's minimums: `min_blockers` is stamped when it is two or more. */
  ghost predicate MinStamped(rules: Rules, cards: seq<CardView>) {
    forall a :: rules.min(a) >= 2 ==> CardOf(cards, a).Some? && CardOf(cards, a).value.minBlockers == rules.min(a)
  }

  /** Only one player's creatures block an attacker. */
  ghost predicate OneDefender(ctx: BlockContext) {
    forall p, q :: p in RelationOf(ctx.cards) && q in OwnRelation(ctx) && p.attacker == q.attacker ==> p in OwnRelation(ctx)
  }

  /** What is declared would still be allowed: each pair, and each creature's room. */
  ghost predicate StillAllowed(rules: Rules, r: Relation) {
    forall p <- r :: rules.pairOk(p) && HasRoom(rules, r, p.blocker)
  }

  lemma TargetCounts(rules: Rules, ctx: BlockContext, pairs: seq<BlockPair>, a: string)
    requires DistinctIds(ctx.cards) && MinStamped(rules, ctx.cards) && OneDefender(ctx)
    requires CountOk(rules, a, |Blockers(RelationOf(ctx.cards), a)|)
    ensures CountOk(rules, a, |Blockers(Target(ctx, pairs), a)|)
  {
    var r, t := RelationOf(ctx.cards), Target(ctx, pairs);
    var ownLeft := OwnRelation(ctx) - DroppedPairs(ctx, pairs);
    ReleaseDrops(ctx, pairs, a);
    SmallerSet(Blockers(t, a), Blockers(r, a));
    if Blockers(t, a) != Blockers(r, a) {
      assert Blockers(t, a) == Blockers(ownLeft, a) by {
        OwnIsPart(ctx);
        var b :| b in Blockers(r, a) && b !in Blockers(t, a);
        assert BlockPair(b, a) in OwnRelation(ctx);
        assert forall p <- r :: p.attacker == a ==> p in OwnRelation(ctx);
      }
    }
  }

  lemma OwnIsPart(ctx: BlockContext)
    ensures OwnRelation(ctx) <= RelationOf(ctx.cards)
  {
    OwnBlockersFacts(ctx.cards, ctx.viewerID);
  }

  /** From a legal declaration whose blocks the server still allows, a release is exact and leaves a legal one. */
  lemma ReleaseKeepsLegal(rules: Rules, ctx: BlockContext, pairs: seq<BlockPair>)
    requires DistinctIds(ctx.cards) && MinStamped(rules, ctx.cards) && OneDefender(ctx)
    requires Legal(rules, RelationOf(ctx.cards)) && StillAllowed(rules, RelationOf(ctx.cards))
    ensures ApplyAll(rules, RelationOf(ctx.cards), ReleaseOf(ctx, pairs)) == Target(ctx, pairs)
    ensures Legal(rules, Target(ctx, pairs))
  {
    var r, t := RelationOf(ctx.cards), Target(ctx, pairs);
    forall a
      ensures CountOk(rules, a, |Blockers(t, a)|)
    {
      TargetCounts(rules, ctx, pairs, a);
    }
    RemovedPlusKept(ctx, pairs);
    forall p <- Kept(OwnBlockers(ctx.cards, ctx.viewerID), DroppedPairs(ctx, pairs))
      ensures rules.pairOk(p) && HasRoom(rules, t, p.blocker)
    {
      assert p in t && p in r;
      SmallerSet(AttackersOf(t, p.blocker), AttackersOf(r, p.blocker));
    }
    ReleaseIsExact(rules, ctx, pairs);
  }

  lemma {:induction false} JudgeLeavesOthers(rules: Rules, base: Relation, decls: seq<BlockPair>, a: string)
    requires JudgeAll(rules, base, decls).Some? && a !in JudgeAll(rules, base, decls).value.touched
    ensures Blockers(JudgeAll(rules, base, decls).value.after, a) == Blockers(base, a)
  {
    if decls != [] {
      var rest, p := decls[..|decls| - 1], decls[|decls| - 1];
      JudgeLeavesOthers(rules, base, rest, a);
      var j, after := JudgeAll(rules, base, rest).value, JudgeAll(rules, base, decls).value.after;
      if p !in j.after {
        forall q: BlockPair | q.attacker == a
          ensures q in after <==> q in j.after
        {
          if q in j.after && q.blocker == p.blocker {
            assert a in AttackersOf(j.after, p.blocker);
          }
        }
        assert Blockers(after, a) == Blockers(j.after, a);
      }
    }
  }

  /** The server's check keeps a legal declaration legal. */
  lemma DeclareKeepsLegal(rules: Rules, base: Relation, decls: seq<BlockPair>)
    requires Legal(rules, base)
    ensures Legal(rules, Declare(rules, base, decls))
  {
    if Accepted(rules, base, decls) {
      forall a
        ensures CountOk(rules, a, |Blockers(JudgeAll(rules, base, decls).value.after, a)|)
      {
        if a !in JudgeAll(rules, base, decls).value.touched {
          JudgeLeavesOthers(rules, base, decls, a);
        }
      }
    }
  }

  /** One click, and the messages it sends: a legal declaration stays legal. */
  lemma ClickKeepsLegal(rules: Rules, ctx: BlockContext, state: BlockPickState, ev: BlockEvent)
    requires DistinctIds(ctx.cards) && MinStamped(rules, ctx.cards) && OneDefender(ctx)
    requires Legal(rules, RelationOf(ctx.cards)) && StillAllowed(rules, RelationOf(ctx.cards))
    ensures Legal(rules, ApplyAll(rules, RelationOf(ctx.cards), ReduceBlockPick(state, ev, ctx).send))
  {
    var r, send := RelationOf(ctx.cards), ReduceBlockPick(state, ev, ctx).send;
    if |send| == 1 && !send[0].RemoveFromCombat? {
      assert send[..0] == [];
      DeclareKeepsLegal(rules, r, if send[0].DeclareBlocker? then [send[0].pair] else send[0].blocks);
    }
    if ev.RemoveBlocks? || ev.Attacker? {
      forall pairs
        ensures Legal(rules, ApplyAll(rules, r, ReleaseOf(ctx, pairs)))
      {
        ReleaseKeepsLegal(rules, ctx, pairs);
      }
    }
  }

  // ---- Every run of clicks ----

  /** One click: what the viewer's client saw, and the declaration and pick before and after. */
  datatype Click = Click(ctx: BlockContext, ev: BlockEvent)

  /** What the client may hold between clicks. */
  ghost predicate PickOk(s: BlockPickState) {
    && !(s.selected.Some? && s.group.Some?)
    && (s.group.Some? ==>
          && 2 <= s.group.value.need
          && 1 <= |s.group.value.blockers| < s.group.value.need
          && Distinct(s.group.value.blockers))
  }

  lemma {:induction false} WithoutFacts(ids: seq<string>, id: string)
    requires Distinct(ids)
    ensures Distinct(Without(ids, id)) && |Without(ids, id)| <= |ids|
    ensures forall x :: x in Without(ids, id) <==> x in ids && x != id
  {
    if ids != [] {
      WithoutFacts(ids[1..], id);
      assert ids == [ids[0]] + ids[1..];
      assert ids[0] !in ids[1..];
    }
  }

  lemma {:induction false} StillSelectableFacts(ctx: BlockContext, ids: seq<string>)
    requires Distinct(ids)
    ensures Distinct(StillSelectable(ctx, ids)) && |StillSelectable(ctx, ids)| <= |ids|
    ensures forall x :: x in StillSelectable(ctx, ids) <==> x in ids && CanSelectBlocker(ctx, x)
  {
    if ids != [] {
      StillSelectableFacts(ctx, ids[1..]);
      assert ids == [ids[0]] + ids[1..];
      assert ids[0] !in ids[1..];
    }
  }

  lemma {:induction false} GroupNeedsTwo(b: CardView, attackers: seq<CardView>)
    ensures forall id <- TargetsOn(b, attackers) :: TargetsOn(b, attackers)[id].Group? ==> TargetsOn(b, attackers)[id].need >= 2
  {
    if attackers != [] {
      GroupNeedsTwo(b, attackers[..|attackers| - 1]);
    }
  }

  /** A frame that drops what went stale keeps the pick well formed, and adds nothing to it. */
  lemma LiveKeepsPick(s: BlockPickState, ctx: BlockContext)
    requires PickOk(s)
    ensures PickOk(LiveBlockPick(s, ctx))
    ensures LiveBlockPick(s, ctx).group.Some? ==>
              forall b <- LiveBlockPick(s, ctx).group.value.blockers ::
                b in s.group.value.blockers && CanSelectBlocker(ctx, b)
  {
    if s.group.Some? {
      StillSelectableFacts(ctx, s.group.value.blockers);
    }
  }

  /** A click keeps the pick well formed. */
  lemma ClickKeepsPick(s: BlockPickState, ev: BlockEvent, ctx: BlockContext)
    requires PickOk(s)
    ensures PickOk(ReduceBlockPick(s, ev, ctx).state)
  {
    if ev.Own? && s.group.Some? {
      WithoutFacts(s.group.value.blockers, ev.id);
    }
    if ev.Attacker? && s.selected.Some? && CardOf(ctx.cards, s.selected.value).Some? {
      GroupNeedsTwo(CardOf(ctx.cards, s.selected.value).value, AttackersDefendedBy(ctx.cards, ctx.viewerID));
    }
  }

  /**
   A completed group is one declaration of exactly `need` different creatures,
   all on the group's attacker, with the last of them free to join; and until
   then a click on one's own creature sends nothing.
   */
  lemma GroupSendsWhole(s: BlockPickState, id: string, ctx: BlockContext)
    requires PickOk(s) && ReduceBlockPick(s, Own(id), ctx).send != []
    ensures s.group.Some? && CanJoinGroup(ctx, s.group.value, id)
    ensures var g, send := s.group.value, ReduceBlockPick(s, Own(id), ctx).send;
            && |send| == 1 && send[0].DeclareBlockers?
            && |send[0].blocks| == g.need
            && (forall p <- send[0].blocks :: p.attacker == g.attacker && p.blocker in g.blockers + [id])
            && (forall i, j :: 0 <= i < j < g.need ==> send[0].blocks[i].blocker != send[0].blocks[j].blocker)
            && (forall b <- g.blockers + [id] :: BlockPair(b, g.attacker) in send[0].blocks)
    ensures ReduceBlockPick(s, Own(id), ctx).state == NO_BLOCK_PICK
  {
    var g, blocks := s.group.value, ReduceBlockPick(s, Own(id), ctx).send[0].blocks;
    forall b <- g.blockers + [id]
      ensures BlockPair(b, g.attacker) in blocks
    {
      var i :| 0 <= i < |g.blockers| + 1 && (g.blockers + [id])[i] == b;
      assert blocks[i] == BlockPair(b, g.attacker);
    }
  }

  // ---- Whatever the frame shows ----

  predicate EndsInDeclare(send: seq<BlockSend>) {
    send != [] && !send[|send| - 1].RemoveFromCombat?
  }

  /** The removals a click sends, before it puts anything back. */
  function Cleared(send: seq<BlockSend>): seq<BlockSend> {
    if EndsInDeclare(send) then send[..|send| - 1] else send
  }

  /** The blocks a click declares last. */
  function Declared(send: seq<BlockSend>): seq<BlockPair> {
    if !EndsInDeclare(send) then []
    else if send[|send| - 1].DeclareBlocker? then [send[|send| - 1].pair] else send[|send| - 1].blocks
  }

  predicate OnlyRemovals(send: seq<BlockSend>) {
    forall m <- send :: m.RemoveFromCombat?
  }

  /** The server counts attacker `a` again, because the blocks put back change it. */
  predicate Recounted(rules: Rules, r: Relation, send: seq<BlockSend>, a: string) {
    var base := ApplyAll(rules, r, Cleared(send));
    Accepted(rules, base, Declared(send)) && a in JudgeAll(rules, base, Declared(send)).value.touched
  }

  /** The removals leave an attacker that is not counted again with some, but too few, blockers. */
  ghost predicate LeavesShort(rules: Rules, r: Relation, send: seq<BlockSend>) {
    exists a :: !Recounted(rules, r, send, a) && 0 < |Blockers(ApplyAll(rules, r, Cleared(send)), a)| < rules.min(a)
  }

  lemma {:induction false} RemovalsOnly(own: seq<CardView>, dropped: set<BlockPair>)
    ensures OnlyRemovals(Removals(own, dropped))
  {
    if own != [] {
      RemovalsOnly(own[..|own| - 1], dropped);
    }
  }

  lemma ReleaseClears(ctx: BlockContext, pairs: seq<BlockPair>)
    ensures OnlyRemovals(Cleared(ReleaseOf(ctx, pairs)))
  {
    RemovalsOnly(OwnBlockers(ctx.cards, ctx.viewerID), DroppedPairs(ctx, pairs));
  }

  lemma AttackerClears(s: BlockPickState, id: string, ctx: BlockContext)
    ensures OnlyRemovals(Cleared(AttackerClick(s, id, ctx).send))
  {
    if s.selected.Some? && id in TargetsOf(ctx, s.selected.value) && TargetsOf(ctx, s.selected.value)[id].Remove? {
      ReleaseClears(ctx, [BlockPair(s.selected.value, id)]);
    }
  }

  lemma OwnClears(s: BlockPickState, id: string, ctx: BlockContext)
    ensures OnlyRemovals(Cleared(OwnClick(s, id, ctx).send))
  {
  }

  /** Every click sends removals, then at most one declaration. */
  lemma ClickClears(s: BlockPickState, ev: BlockEvent, ctx: BlockContext)
    ensures OnlyRemovals(Cleared(ReduceBlockPick(s, ev, ctx).send))
  {
    match ev
    case Own(id) => OwnClears(s, id, ctx);
    case Attacker(id) => AttackerClears(s, id, ctx);
    case RemoveBlocks =>
      forall pairs ensures OnlyRemovals(Cleared(ReleaseOf(ctx, pairs))) {
        ReleaseClears(ctx, pairs);
      }
    case Cancel =>
  }

  lemma {:induction false} RemovalsShrink(rules: Rules, r: Relation, send: seq<BlockSend>)
    requires OnlyRemovals(send)
    ensures ApplyAll(rules, r, send) <= r
  {
    if send != [] {
      RemovalsShrink(rules, r, send[..|send| - 1]);
      assert send[|send| - 1] in send;
    }
  }

  lemma NotRecountedKeeps(rules: Rules, r: Relation, send: seq<BlockSend>, a: string)
    requires !Recounted(rules, r, send, a)
    ensures Blockers(ApplyAll(rules, r, send), a) == Blockers(ApplyAll(rules, r, Cleared(send)), a)
  {
    var base := ApplyAll(rules, r, Cleared(send));
    if EndsInDeclare(send) && Accepted(rules, base, Declared(send)) {
      JudgeLeavesOthers(rules, base, Declared(send), a);
    }
  }

  /**
   Whatever frame a click is made on, what it sends keeps a legal declaration legal
   if and only if its removals leave no attacker short that is not counted again.
   */
  lemma SendKeepsLegalIff(rules: Rules, r: Relation, send: seq<BlockSend>)
    requires Legal(rules, r) && OnlyRemovals(Cleared(send))
    ensures Legal(rules, ApplyAll(rules, r, send)) <==> !LeavesShort(rules, r, send)
  {
    var base, after := ApplyAll(rules, r, Cleared(send)), ApplyAll(rules, r, send);
    RemovalsShrink(rules, r, Cleared(send));
    forall a
      ensures CountOk(rules, a, |Blockers(after, a)|)
         <==> Recounted(rules, r, send, a) || !(0 < |Blockers(base, a)| < rules.min(a))
    {
      if !Recounted(rules, r, send, a) {
        NotRecountedKeeps(rules, r, send, a);
        SmallerSet(Blockers(base, a), Blockers(r, a));
        assert CountOk(rules, a, |Blockers(r, a)|);
      }
    }
  }

  /** The client between frames: a click against the frame it shows, or a new frame arriving. */
  datatype Move = Clicked(click: Click) | NewFrame(ctx: BlockContext)

  /** A run of one declaration: the pick, and what the server holds declared. */
  datatype Table = Table(pick: BlockPickState, declared: Relation)

  function SendOf(t: Table, m: Move): seq<BlockSend> {
    if m.Clicked? then ReduceBlockPick(t.pick, m.click.ev, m.click.ctx).send else []
  }

  ghost predicate Moves(rules: Rules, t: Table, m: Move, u: Table) {
    match m
    case NewFrame(ctx) => u == Table(LiveBlockPick(t.pick, ctx), t.declared)
    case Clicked(c) => u == Table(ReduceBlockPick(t.pick, c.ev, c.ctx).state, ApplyAll(rules, t.declared, SendOf(t, m)))
  }

  ghost predicate Run(rules: Rules, ts: seq<Table>, ms: seq<Move>) {
    && |ts| == |ms| + 1
    && ts[0] == Table(NO_BLOCK_PICK, {})
    && (forall i :: 0 <= i < |ms| ==> Moves(rules, ts[i], ms[i], ts[i + 1]))
  }

  ghost predicate StrandsAt(rules: Rules, ts: seq<Table>, ms: seq<Move>, i: nat)
    requires i < |ms| < |ts|
  {
    LeavesShort(rules, ts[i].declared, SendOf(ts[i], ms[i]))
  }

  lemma MoveKeepsLegalIff(rules: Rules, t: Table, m: Move, u: Table)
    requires Moves(rules, t, m, u) && Legal(rules, t.declared)
    ensures Legal(rules, u.declared) <==> !LeavesShort(rules, t.declared, SendOf(t, m))
  {
    if m.Clicked? {
      ClickClears(t.pick, m.click.ev, m.click.ctx);
    }
    SendKeepsLegalIff(rules, t.declared, SendOf(t, m));
  }

  /** Over every run of clicks, on frames however late: a selection and a group never coexist, and a group is short and of different creatures. */
  lemma {:induction false} EveryRunKeepsPick(rules: Rules, ts: seq<Table>, ms: seq<Move>, n: nat)
    requires Run(rules, ts, ms) && n <= |ms|
    ensures PickOk(ts[n].pick)
  {
    if n > 0 {
      EveryRunKeepsPick(rules, ts, ms, n - 1);
      assert Moves(rules, ts[n - 1], ms[n - 1], ts[n - 1 + 1]);
      match ms[n - 1]
      case NewFrame(ctx) => LiveKeepsPick(ts[n - 1].pick, ctx);
      case Clicked(c) => ClickKeepsPick(ts[n - 1].pick, c.ev, c.ctx);
    }
  }

  /** On frames however late, the declaration is legal throughout if and only if no click's removals leave an attacker short. */
  lemma {:induction false} RunStaysLegalIff(rules: Rules, ts: seq<Table>, ms: seq<Move>, n: nat)
    requires Run(rules, ts, ms) && n <= |ms|
    ensures (forall i :: 0 <= i <= n ==> Legal(rules, ts[i].declared))
       <==> forall i :: 0 <= i < n ==> !StrandsAt(rules, ts, ms, i)
  {
    if n == 0 {
      forall a
        ensures Blockers(ts[0].declared, a) == {}
      {
      }
    } else {
      RunStaysLegalIff(rules, ts, ms, n - 1);
      assert Moves(rules, ts[n - 1], ms[n - 1], ts[n - 1 + 1]);
      if Legal(rules, ts[n - 1].declared) {
        MoveKeepsLegalIff(rules, ts[n - 1], ms[n - 1], ts[n]);
        assert Legal(rules, ts[n].declared) <==> !StrandsAt(rules, ts, ms, n - 1);
      }
    }
  }

  /** The frame shows what the server holds, with its minimums, and blocks it still allows. */
  ghost predicate Shows(rules: Rules, ctx: BlockContext, declared: Relation) {
    && DistinctIds(ctx.cards) && RelationOf(ctx.cards) == declared
    && MinStamped(rules, ctx.cards) && OneDefender(ctx) && StillAllowed(rules, declared)
  }

  /** A click that takes blocks back is made on a frame that shows them. */
  ghost predicate UpToDate(rules: Rules, t: Table, m: Move) {
    m.Clicked? ==> Cleared(SendOf(t, m)) == [] || Shows(rules, m.click.ctx, t.declared)
  }

  lemma UpToDateLeavesNoneShort(rules: Rules, t: Table, m: Move)
    requires Legal(rules, t.declared) && UpToDate(rules, t, m)
    ensures !LeavesShort(rules, t.declared, SendOf(t, m))
  {
    if m.Clicked? && Cleared(SendOf(t, m)) != [] {
      ClickClears(t.pick, m.click.ev, m.click.ctx);
      ClickKeepsLegal(rules, m.click.ctx, t.pick, m.click.ev);
      SendKeepsLegalIff(rules, t.declared, SendOf(t, m));
    } else {
      assert forall a :: CountOk(rules, a, |Blockers(t.declared, a)|);
    }
  }

  lemma UpToDateMoves(rules: Rules, t: Table, m: Move, u: Table)
    requires Moves(rules, t, m, u) && Legal(rules, t.declared) && UpToDate(rules, t, m)
    ensures Legal(rules, u.declared)
  {
    UpToDateLeavesNoneShort(rules, t, m);
    MoveKeepsLegalIff(rules, t, m, u);
  }

  /** So the declaration is legal after every click when blocks are only taken back on a frame that shows them. */
  lemma {:induction false} EveryRunStaysLegal(rules: Rules, ts: seq<Table>, ms: seq<Move>, n: nat)
    requires Run(rules, ts, ms) && n <= |ms|
    requires forall i :: 0 <= i < n ==> UpToDate(rules, ts[i], ms[i])
    ensures forall i :: 0 <= i <= n ==> Legal(rules, ts[i].declared)
  {
    if n == 0 {
      RunStaysLegalIff(rules, ts, ms, 0);
    } else {
      EveryRunStaysLegal(rules, ts, ms, n - 1);
      UpToDateMoves(rules, ts[n - 1], ms[n - 1], ts[n - 1 + 1]);
    }
  }

  // ---- Two blocks taken back on one frame ----

  const MENACE := CardView("a", "them", true, "", [], [], 2, None, false, "me", "", true)

  function OnMenace(id: string): CardView {
    CardView(id, "me", true, "a", [], [], 0, None, false, "", "", false)
  }

  function Three(): seq<CardView> {
    [OnMenace("x"), OnMenace("y"), OnMenace("z")]
  }

  /** Three creatures block an attacker that takes at least two. */
  function ThreeOnOne(): BlockContext {
    BlockContext([MENACE] + Three(), "me", map[])
  }

  function TwoMin(): Rules {
    Rules(a => if a == "a" then 2 else 0, _ => 0, _ => 1, _ => true)
  }

  /** The blocks of the named creatures on "a". */
  function OnA(ids: set<string>): Relation {
    set id <- ids :: BlockPair(id, "a")
  }

  lemma OnACount(ids: set<string>, a: string)
    ensures Blockers(OnA(ids), a) == if a == "a" then ids else {}
  {
    forall id | a == "a" ensures id in Blockers(OnA(ids), a) <==> id in ids {
      assert id in ids ==> BlockPair(id, "a") in OnA(ids);
    }
  }

  lemma OnALegal(ids: set<string>)
    ensures Legal(TwoMin(), OnA(ids)) <==> |ids| != 1
  {
    OnACount(ids, "a");
    forall a | |ids| != 1 ensures CountOk(TwoMin(), a, |Blockers(OnA(ids), a)|) {
      OnACount(ids, a);
    }
  }

  lemma ThreeFacts()
    ensures OwnBlockers(ThreeOnOne().cards, "me") == Three()
    ensures AttackersDefendedBy(ThreeOnOne().cards, "me") == [MENACE]
    ensures forall id :: id in {"x", "y", "z"} ==> CardOf(ThreeOnOne().cards, id) == Some(OnMenace(id))
  {
    assert ThreeOnOne().cards[1..] == Three();
    assert Three()[1..] == [OnMenace("y"), OnMenace("z")];
    assert Three()[1..][1..] == [OnMenace("z")];
    assert Three()[1..][1..][1..] == [];
  }

  lemma TargetIsRemove(id: string)
    requires id in {"x", "y", "z"}
    ensures TargetsOf(ThreeOnOne(), id) == map["a" := Remove]
  {
    ThreeFacts();
    assert [MENACE][..0] == [];
    assert BlockedAttackersOf(OnMenace(id)) == ["a"];
  }

  lemma OnMenaceBlocks(id: string, taken: string)
    ensures BlockedAttackersOf(OnMenace(id)) == ["a"] && "a" in BlockedAttackersOf(OnMenace(id))
    ensures Touched(OnMenace(id), {BlockPair(taken, "a")}) <==> id == taken
    ensures id == taken ==> KeptPairs(id, ["a"], {BlockPair(taken, "a")}) == []
  {
    var c := OnMenace(id);
    assert BlockedAttackersOf(c)[0] == "a";
    assert ["a"][..0] == [];
  }

  lemma LeftOnMore(id: string, rest: seq<CardView>, taken: string)
    ensures var asked := {BlockPair(taken, "a")};
            LeftOn([OnMenace(id)] + rest, "a", asked)
            == (if id == taken then [] else [OnMenace(id)]) + LeftOn(rest, "a", asked)
  {
    OnMenaceBlocks(id, taken);
    assert ([OnMenace(id)] + rest)[1..] == rest;
  }

  lemma TwoAreLeft(id: string, asked: set<BlockPair>)
    requires id in {"x", "y", "z"} && asked == {BlockPair(id, "a")}
    ensures |LeftOn(Three(), "a", asked)| == 2
  {
    LeftOnMore("z", [], id);
    LeftOnMore("y", [OnMenace("z")] + [], id);
    LeftOnMore("x", [OnMenace("y")] + ([OnMenace("z")] + []), id);
    assert Three() == [OnMenace("x")] + ([OnMenace("y")] + ([OnMenace("z")] + []));
  }

  /** Two of three stay, so nothing more goes. */
  lemma TwoStay(id: string)
    requires id in {"x", "y", "z"}
    ensures DroppedPairs(ThreeOnOne(), [BlockPair(id, "a")]) == {BlockPair(id, "a")}
  {
    ThreeFacts();
    var asked := set p <- [BlockPair(id, "a")];
    assert asked == {BlockPair(id, "a")};
    TwoAreLeft(id, asked);
  }

  lemma RemovalsMore(rest: seq<CardView>, id: string, taken: string)
    ensures var d := {BlockPair(taken, "a")};
            && Removals(rest + [OnMenace(id)], d)
               == Removals(rest, d) + (if id == taken then [RemoveFromCombat(id)] else [])
            && Kept(rest + [OnMenace(id)], d) == Kept(rest, d)
  {
    OnMenaceBlocks(id, taken);
    assert (rest + [OnMenace(id)])[..|rest|] == rest;
  }

  lemma RemovalsOfThree(id: string)
    requires id in {"x", "y", "z"}
    ensures Removals(Three(), {BlockPair(id, "a")}) == [RemoveFromCombat(id)]
    ensures Kept(Three(), {BlockPair(id, "a")}) == []
  {
    RemovalsMore([], "x", id);
    RemovalsMore([] + [OnMenace("x")], "y", id);
    RemovalsMore([] + [OnMenace("x")] + [OnMenace("y")], "z", id);
    assert Three() == [] + [OnMenace("x")] + [OnMenace("y")] + [OnMenace("z")];
  }

  lemma TakingBackSends(id: string)
    requires id in {"x", "y", "z"}
    ensures ReduceBlockPick(BlockPickState(Some(id), None), Attacker("a"), ThreeOnOne()).send == [RemoveFromCombat(id)]
  {
    TargetIsRemove(id);
    TakingBackReleases(id);
  }

  lemma TakingBackReleases(id: string)
    requires id in {"x", "y", "z"}
    ensures ReleaseOf(ThreeOnOne(), [BlockPair(id, "a")]) == [RemoveFromCombat(id)]
  {
    ThreeFacts();
    TwoStay(id);
    RemovalsOfThree(id);
  }

  lemma ThreeOnOneDeclares()
    ensures RelationOf(ThreeOnOne().cards) == OnA({"x", "y", "z"})
  {
    var cards := ThreeOnOne().cards;
    forall p | p in OnA({"x", "y", "z"}) ensures p in RelationOf(cards) {
      OnMenaceBlocks(p.blocker, p.blocker);
      assert OnMenace(p.blocker) in cards;
    }
    forall p | p in RelationOf(cards) ensures p in OnA({"x", "y", "z"}) {
      var c :| c in cards && c.id == p.blocker && p.attacker in BlockedAttackersOf(c);
      OnMenaceBlocks(p.blocker, p.blocker);
    }
  }

  lemma ThreeOnOneShows()
    ensures Shows(TwoMin(), ThreeOnOne(), RelationOf(ThreeOnOne().cards))
  {
    ThreeOnOneDeclares();
    assert CardOf(ThreeOnOne().cards, "a") == Some(MENACE);
    ThreeAllowed();
    OwnIsOnA();
  }

  lemma OwnIsOnA()
    ensures OnA({"x", "y", "z"}) <= OwnRelation(ThreeOnOne())
  {
    ThreeFacts();
    forall id | id in {"x", "y", "z"} ensures BlockPair(id, "a") in RelationOf(Three()) {
      OnMenaceBlocks(id, id);
      assert OnMenace(id) in Three();
    }
  }

  lemma ThreeAllowed()
    ensures StillAllowed(TwoMin(), OnA({"x", "y", "z"}))
  {
    var r := OnA({"x", "y", "z"});
    forall p | p in r ensures HasRoom(TwoMin(), r, p.blocker) {
      assert AttackersOf(r, p.blocker) == {"a"};
    }
  }

  lemma RemoveOne(r: Relation, id: string)
    ensures ApplyAll(TwoMin(), r, [RemoveFromCombat(id)]) == set p <- r | p.blocker != id
  {
    assert [RemoveFromCombat(id)][..0] == [];
  }

  lemma OneIsLeft(r: Relation, first: seq<BlockSend>, second: seq<BlockSend>)
    requires r == OnA({"x", "y", "z"}) && first == [RemoveFromCombat("x")] && second == [RemoveFromCombat("y")]
    ensures Legal(TwoMin(), r) && Legal(TwoMin(), ApplyAll(TwoMin(), r, first))
    ensures !Legal(TwoMin(), ApplyAll(TwoMin(), ApplyAll(TwoMin(), r, first), second))
  {
    RemoveOne(r, "x");
    RemoveOne(OnA({"y", "z"}), "y");
    assert ApplyAll(TwoMin(), r, first) == OnA({"y", "z"});
    assert ApplyAll(TwoMin(), OnA({"y", "z"}), second) == OnA({"z"});
    OnALegal({"x", "y", "z"});
    OnALegal({"y", "z"});
    OnALegal({"z"});
  }

  /**
   The input: on a frame that shows all three blocks, two are taken back one after the
   other. Each click leaves two by what it sees; the server is left with one.
   */
  lemma TwoTakenBackLeaveOne()
    ensures var ctx, rules, r := ThreeOnOne(), TwoMin(), RelationOf(ThreeOnOne().cards);
            && Shows(rules, ctx, r) && Legal(rules, r)
            && var first := ReduceBlockPick(BlockPickState(Some("x"), None), Attacker("a"), ctx).send;
               var second := ReduceBlockPick(BlockPickState(Some("y"), None), Attacker("a"), ctx).send;
               && Legal(rules, ApplyAll(rules, r, first))
               && !Legal(rules, ApplyAll(rules, ApplyAll(rules, r, first), second))
  {
    ThreeOnOneShows();
    ThreeOnOneDeclares();
    TakingBackSends("x");
    TakingBackSends("y");
    OneIsLeft(RelationOf(ThreeOnOne().cards), [RemoveFromCombat("x")], [RemoveFromCombat("y")]);
  }
}
