/**
 What each click of the block interaction does, told from the cards on the frame: which
 message goes out, what stays selected, and what the server holds afterwards.
 */
module BlockClicks {
  import opened Sequences
  import opened Wrappers
  import opened BlockPick
  import opened BlockRuns

  // ---- Read off the cards ----

  predicate IsBlocking(b: CardView, attacker: string) {
    if b.blockingTargets != [] then attacker in b.blockingTargets else attacker == b.blockingTarget && attacker != ""
  }

  /** The card attacks the viewer, or something of the viewer's. */
  predicate AttacksViewer(ctx: BlockContext, a: CardView) {
    && a.attackingTarget != ""
    && (if a.defendingPlayer != "" then a.defendingPlayer == ctx.viewerID
        else a.attacksPlayer && a.attackingTarget == ctx.viewerID)
  }

  predicate Unrefused(b: CardView, attacker: string) {
    forall r <- b.refusals :: r.attacker != attacker
  }

  /** The server's first word on why `b` may not block `attacker`. */
  predicate RefusedBy(b: CardView, attacker: string, k: nat) {
    k < |b.refusals| && b.refusals[k].attacker == attacker && forall m :: 0 <= m < k ==> b.refusals[m].attacker != attacker
  }

  /** All that stops the block is that the attacker takes two or more blockers. */
  predicate OnlyTooFew(b: CardView, a: CardView, k: nat) {
    RefusedBy(b, a.id, k) && b.refusals[k].reason.TooFewBlockers? && a.minBlockers >= 2
  }

  /** The viewer's creature has some part in the declaration: a block it may make, one it makes, or one refused it. */
  predicate TakesPart(ctx: BlockContext, c: CardView) {
    && c in ctx.cards && c.controller == ctx.viewerID && c.isCreature
    && (|| (c.id in ctx.blockable && ctx.blockable[c.id] != [])
        || c.blockingTargets != [] || c.blockingTarget != ""
        || c.refusals != [])
  }

  /** All the creature would block with `attacker` added. */
  ghost predicate BlocksWith(b: CardView, attacker: string, all: set<string>) {
    forall x :: x in all <==> x == attacker || IsBlocking(b, x)
  }

  /** Blocking `attacker` too, the creature would still have room for another. */
  ghost predicate HasMoreRoom(b: CardView, attacker: string) {
    || b.blocksAnyNumber
    || exists all :: BlocksWith(b, attacker, all) && |all| < if b.blockCapacity.Some? then b.blockCapacity.value else 1
  }

  lemma {:induction false} CardOfIs(cards: seq<CardView>, c: CardView)
    requires DistinctIds(cards) && c in cards
    ensures CardOf(cards, c.id) == Some(c)
  {
    if cards[0] != c {
      assert cards == [cards[0]] + cards[1..];
      var i :| 0 <= i < |cards| && cards[i] == c;
      CardOfIs(cards[1..], c);
    }
  }

  lemma {:induction false} CardOfIn(cards: seq<CardView>, id: string)
    ensures CardOf(cards, id).Some? ==> CardOf(cards, id).value in cards && CardOf(cards, id).value.id == id
    ensures CardOf(cards, id).None? ==> forall c <- cards :: c.id != id
  {
    if cards != [] {
      CardOfIn(cards[1..], id);
      assert cards == [cards[0]] + cards[1..];
    }
  }

  lemma BlockingIs(b: CardView, attacker: string)
    ensures attacker in BlockedAttackersOf(b) <==> IsBlocking(b, attacker)
  {
  }

  lemma {:induction false} RefusalIs(refusals: seq<Refusal>, attacker: string, k: nat)
    requires k < |refusals| && refusals[k].attacker == attacker && forall m :: 0 <= m < k ==> refusals[m].attacker != attacker
    ensures RefusalOf(refusals, attacker) == Some(refusals[k])
  {
    if k > 0 {
      RefusalIs(refusals[1..], attacker, k - 1);
    }
  }

  lemma {:induction false} NoRefusal(refusals: seq<Refusal>, attacker: string)
    requires forall r <- refusals :: r.attacker != attacker
    ensures RefusalOf(refusals, attacker) == None
  {
    if refusals != [] {
      NoRefusal(refusals[1..], attacker);
    }
  }

  lemma {:induction false} AttackersAre(ctx: BlockContext, cards: seq<CardView>)
    ensures forall a :: a in AttackersDefendedBy(cards, ctx.viewerID) <==> a in cards && AttacksViewer(ctx, a)
    ensures DistinctIds(cards) ==> DistinctIds(AttackersDefendedBy(cards, ctx.viewerID))
  {
    if cards != [] {
      AttackersAre(ctx, cards[1..]);
      assert cards == [cards[0]] + cards[1..];
      var rest := AttackersDefendedBy(cards[1..], ctx.viewerID);
      forall i | 0 <= i < |rest| && DistinctIds(cards) ensures rest[i].id != cards[0].id {
        assert rest[i] in cards[1..];
      }
    }
  }

  lemma {:induction false} TargetsOnAre(b: CardView, attackers: seq<CardView>)
    requires DistinctIds(attackers)
    ensures forall a <- attackers :: a.id in TargetsOn(b, attackers) && TargetsOn(b, attackers)[a.id] == TargetOn(b, a)
    ensures forall id <- TargetsOn(b, attackers) :: exists a <- attackers :: a.id == id
  {
    if attackers != [] {
      var rest, last := attackers[..|attackers| - 1], attackers[|attackers| - 1];
      TargetsOnAre(b, rest);
      assert attackers == rest + [last];
      assert forall a <- rest :: a.id != last.id;
    }
  }

  /** What a click on an attacker would do: take the block back, make it, start a group, or say why not. */
  lemma TargetIs(ctx: BlockContext, b: CardView, a: CardView)
    requires DistinctIds(ctx.cards) && b in ctx.cards && a in ctx.cards
    ensures a.id in TargetsOf(ctx, b.id) <==> AttacksViewer(ctx, a)
    ensures a.id in TargetsOf(ctx, b.id) ==>
              var t := TargetsOf(ctx, b.id)[a.id];
              && (IsBlocking(b, a.id) ==> t == Remove)
              && (!IsBlocking(b, a.id) && Unrefused(b, a.id) ==> t == Block)
              && (forall k: nat :: !IsBlocking(b, a.id) && RefusedBy(b, a.id, k) ==>
                    t == if OnlyTooFew(b, a, k) then Group(a.minBlockers, b.refusals[k].message) else Refused(b.refusals[k].message))
  {
    CardOfIs(ctx.cards, b);
    AttackersAre(ctx, ctx.cards);
    var attackers := AttackersDefendedBy(ctx.cards, ctx.viewerID);
    TargetsOnAre(b, attackers);
    BlockingIs(b, a.id);
    if a.id in TargetsOf(ctx, b.id) {
      var x :| x in attackers && x.id == a.id;
      SameCard(ctx.cards, a, x);
    }
    if Unrefused(b, a.id) {
      NoRefusal(b.refusals, a.id);
    }
    forall k: nat | RefusedBy(b, a.id, k) ensures RefusalOf(b.refusals, a.id) == Some(b.refusals[k]) {
      RefusalIs(b.refusals, a.id, k);
    }
  }

  lemma SelectableIff(ctx: BlockContext, c: CardView)
    requires DistinctIds(ctx.cards) && c in ctx.cards
    ensures CanSelectBlocker(ctx, c.id) <==> TakesPart(ctx, c)
  {
    CardOfIs(ctx.cards, c);
  }

  // ---- Clicks on an attacker ----

  /** A click on an attacker the selected creature may block declares exactly that block, and keeps the selection while there is room for another. */
  lemma ClickDeclares(ctx: BlockContext, s: BlockPickState, b: CardView, a: CardView)
    requires DistinctIds(ctx.cards) && b in ctx.cards && a in ctx.cards && s.selected == Some(b.id)
    requires AttacksViewer(ctx, a) && !IsBlocking(b, a.id) && Unrefused(b, a.id)
    ensures ReduceBlockPick(s, Attacker(a.id), ctx)
         == BlockStep(if HasMoreRoom(b, a.id) then s else NO_BLOCK_PICK, [DeclareBlocker(BlockPair(b.id, a.id))], None)
  {
    CardOfIs(ctx.cards, b);
    TargetIs(ctx, b, a);
    RoomIs(b, a.id);
  }

  lemma RoomIs(b: CardView, attacker: string)
    ensures HasRoomAfter(b, attacker) <==> HasMoreRoom(b, attacker)
  {
    var after := (set x <- BlockedAttackersOf(b)) + {attacker};
    assert BlocksWith(b, attacker, after);
    forall all | BlocksWith(b, attacker, all) ensures all == after {
    }
  }

  /** The server that takes the declaration holds the block, and every other block of a creature that may make several. */
  lemma DeclaredIsHeld(rules: Rules, r: Relation, p: BlockPair)
    requires Accepted(rules, r, [p])
    ensures var after := ApplyAll(rules, r, [DeclareBlocker(p)]);
            && p in after
            && (forall q <- r :: q.blocker != p.blocker || rules.capacity(p.blocker) != 1 ==> q in after)
            && after <= r + {p}
  {
    assert [DeclareBlocker(p)][..0] == [] && [p][..0] == [];
    assert JudgeAll(rules, r, [p]) == JudgeOne(rules, Judged(r, {}), p);
  }

  /** A click on an attacker the selected creature blocks takes that block back, whatever the server holds. */
  lemma ClickTakesBack(ctx: BlockContext, rules: Rules, r: Relation, s: BlockPickState, b: CardView, a: CardView)
    requires DistinctIds(ctx.cards) && b in ctx.cards && a in ctx.cards && s.selected == Some(b.id)
    requires AttacksViewer(ctx, a) && IsBlocking(b, a.id) && b.controller == ctx.viewerID
    ensures var step := ReduceBlockPick(s, Attacker(a.id), ctx);
            && step.state == NO_BLOCK_PICK && step.refused == None
            && RemoveFromCombat(b.id) in step.send
            && BlockPair(b.id, a.id) !in ApplyAll(rules, r, step.send)
  {
    TargetIs(ctx, b, a);
    ReleaseTakesBack(ctx, rules, r, b, a.id, [BlockPair(b.id, a.id)]);
  }

  lemma {:induction false} RemovalsAre(own: seq<CardView>, dropped: set<BlockPair>, c: CardView)
    requires c in own && Touched(c, dropped)
    ensures RemoveFromCombat(c.id) in Removals(own, dropped)
  {
    var rest, last := own[..|own| - 1], own[|own| - 1];
    assert own == rest + [last];
    if c in rest {
      RemovalsAre(rest, dropped, c);
    }
  }

  lemma ReleaseTakesBack(ctx: BlockContext, rules: Rules, r: Relation, b: CardView, attacker: string, pairs: seq<BlockPair>)
    requires b in ctx.cards && b.controller == ctx.viewerID && IsBlocking(b, attacker) && BlockPair(b.id, attacker) in pairs
    ensures RemoveFromCombat(b.id) in ReleaseOf(ctx, pairs)
    ensures BlockPair(b.id, attacker) !in ApplyAll(rules, r, ReleaseOf(ctx, pairs))
  {
    var own, dropped := OwnBlockers(ctx.cards, ctx.viewerID), DroppedPairs(ctx, pairs);
    OwnBlockersFacts(ctx.cards, ctx.viewerID);
    BlockingIs(b, attacker);
    assert b in own && Touched(b, dropped);
    RemovalsAre(own, dropped, b);
    RemovalsApply(rules, r, own, dropped);
    KeptMembers(own, dropped);
    var base, kept, send := Untouched(r, own, dropped), Kept(own, dropped), ReleaseOf(ctx, pairs);
    assert IsTouched(own, dropped, b.id);
    if kept != [] {
      assert send[..|send| - 1] == Removals(own, dropped);
      NoneInBase(r, own, dropped);
      if Accepted(rules, base, kept) {
        JudgeBounds(rules, base, kept);
      }
    } else {
      assert send == Removals(own, dropped);
    }
  }

  lemma NoneInBase(r: Relation, own: seq<CardView>, dropped: set<BlockPair>)
    ensures forall p <- Kept(own, dropped) :: p !in Untouched(r, own, dropped)
  {
    KeptMembers(own, dropped);
  }

  /** A click on an attacker that only takes more blockers starts a group on it, and sends nothing yet. */
  lemma ClickStartsGroup(ctx: BlockContext, s: BlockPickState, b: CardView, a: CardView, k: nat)
    requires DistinctIds(ctx.cards) && b in ctx.cards && a in ctx.cards && s.selected == Some(b.id)
    requires AttacksViewer(ctx, a) && !IsBlocking(b, a.id) && OnlyTooFew(b, a, k)
    ensures ReduceBlockPick(s, Attacker(a.id), ctx)
         == BlockStep(BlockPickState(None, Some(BlockGroup(a.id, [b.id], a.minBlockers))), [], None)
  {
    TargetIs(ctx, b, a);
  }

  /** A click on any other attacker it may not block changes nothing, sends nothing, and says why. */
  lemma ClickIsRefused(ctx: BlockContext, s: BlockPickState, b: CardView, a: CardView, k: nat)
    requires DistinctIds(ctx.cards) && b in ctx.cards && a in ctx.cards && s.selected == Some(b.id)
    requires AttacksViewer(ctx, a) && !IsBlocking(b, a.id) && RefusedBy(b, a.id, k) && !OnlyTooFew(b, a, k)
    ensures ReduceBlockPick(s, Attacker(a.id), ctx) == BlockStep(s, [], Some(b.refusals[k].message))
  {
    TargetIs(ctx, b, a);
  }

  /** A click with nothing selected, or on a card that does not attack the viewer, is no click at all. */
  lemma OtherClicksDoNothing(ctx: BlockContext, s: BlockPickState, a: CardView)
    requires DistinctIds(ctx.cards) && a in ctx.cards
    requires s.selected.None? || !AttacksViewer(ctx, a)
    ensures ReduceBlockPick(s, Attacker(a.id), ctx) == BlockStep(s, [], None)
  {
    if s.selected.Some? {
      CardOfIn(ctx.cards, s.selected.value);
      if CardOf(ctx.cards, s.selected.value).Some? {
        TargetIs(ctx, CardOf(ctx.cards, s.selected.value).value, a);
      }
    }
  }

  // ---- Clicks on one's own creatures ----

  /** With no group under way, a click selects a creature that takes part, lets go of the selected one, and ignores any other. */
  lemma ClickSelects(ctx: BlockContext, s: BlockPickState, c: CardView)
    requires DistinctIds(ctx.cards) && c in ctx.cards && s.group.None?
    ensures ReduceBlockPick(s, Own(c.id), ctx)
         == BlockStep(if s.selected == Some(c.id) then NO_BLOCK_PICK
                      else if TakesPart(ctx, c) then BlockPickState(Some(c.id), None) else s, [], None)
  {
    SelectableIff(ctx, c);
  }

  /** The creature may join the group: it takes part, and at most the count stops it blocking the group's attacker. */
  ghost predicate MayJoin(ctx: BlockContext, c: CardView, a: CardView) {
    && TakesPart(ctx, c) && !IsBlocking(c, a.id)
    && (Unrefused(c, a.id) || exists k: nat :: OnlyTooFew(c, a, k))
  }

  lemma {:induction false} FirstRefusal(refusals: seq<Refusal>, attacker: string) returns (k: nat)
    requires exists r <- refusals :: r.attacker == attacker
    ensures k < |refusals| && refusals[k].attacker == attacker && forall m :: 0 <= m < k ==> refusals[m].attacker != attacker
  {
    if refusals[0].attacker == attacker {
      k := 0;
    } else {
      var j := FirstRefusal(refusals[1..], attacker);
      k := j + 1;
    }
  }

  lemma JoinIff(ctx: BlockContext, g: BlockGroup, c: CardView, a: CardView)
    requires DistinctIds(ctx.cards) && c in ctx.cards && a in ctx.cards && a.id == g.attacker && AttacksViewer(ctx, a)
    ensures CanJoinGroup(ctx, g, c.id) <==> c.id !in g.blockers && MayJoin(ctx, c, a)
  {
    SelectableIff(ctx, c);
    TargetIs(ctx, c, a);
    if !Unrefused(c, a.id) {
      var k := FirstRefusal(c.refusals, a.id);
      assert RefusedBy(c, a.id, k);
      forall j: nat | OnlyTooFew(c, a, j) ensures j == k {
      }
    }
  }

  /** While a group is short, a creature that may join joins it at the end, and the one that makes it whole sends it. */
  lemma ClickJoins(ctx: BlockContext, s: BlockPickState, g: BlockGroup, c: CardView, a: CardView)
    requires DistinctIds(ctx.cards) && c in ctx.cards && a in ctx.cards && a.id == g.attacker && AttacksViewer(ctx, a)
    requires s.group == Some(g) && c.id !in g.blockers && MayJoin(ctx, c, a)
    ensures var step := ReduceBlockPick(s, Own(c.id), ctx);
            && step.refused == None
            && (|g.blockers| + 1 < g.need ==>
                  step.send == [] && step.state == BlockPickState(None, Some(g.(blockers := g.blockers + [c.id]))))
            && (|g.blockers| + 1 >= g.need ==>
                  && step.state == NO_BLOCK_PICK && |step.send| == 1 && step.send[0].DeclareBlockers?
                  && |step.send[0].blocks| == |g.blockers| + 1
                  && step.send[0].blocks[|g.blockers|] == BlockPair(c.id, a.id)
                  && forall i :: 0 <= i < |g.blockers| ==> step.send[0].blocks[i] == BlockPair(g.blockers[i], a.id))
  {
    JoinIff(ctx, g, c, a);
  }

  /** A creature of the group that is clicked again leaves it; the last to leave ends it. */
  lemma ClickLeaves(ctx: BlockContext, s: BlockPickState, g: BlockGroup, id: string)
    requires PickOk(s) && s.group == Some(g) && id in g.blockers
    ensures var step := ReduceBlockPick(s, Own(id), ctx);
            && step.send == [] && step.refused == None && step.state.selected.None?
            && (step.state.group.None? <==> g.blockers == [id])
            && (step.state.group.Some? ==>
                  && step.state.group.value == g.(blockers := step.state.group.value.blockers)
                  && forall x :: x in step.state.group.value.blockers <==> x in g.blockers && x != id)
  {
    WithoutFacts(g.blockers, id);
    WithoutLength(g.blockers, id);
  }

  lemma {:induction false} WithoutLength(ids: seq<string>, id: string)
    requires Distinct(ids) && id in ids
    ensures |Without(ids, id)| == |ids| - 1
  {
    assert ids == [ids[0]] + ids[1..];
    if ids[0] == id {
      NotThere(ids[1..], id);
    } else {
      WithoutLength(ids[1..], id);
    }
  }

  lemma {:induction false} NotThere(ids: seq<string>, id: string)
    requires id !in ids
    ensures Without(ids, id) == ids
  {
    if ids != [] {
      NotThere(ids[1..], id);
    }
  }

  /** A creature that cannot join drops the group and is taken as a selection of its own. */
  lemma ClickDropsGroup(ctx: BlockContext, s: BlockPickState, g: BlockGroup, c: CardView, a: CardView)
    requires DistinctIds(ctx.cards) && c in ctx.cards && a in ctx.cards && a.id == g.attacker && AttacksViewer(ctx, a)
    requires s.group == Some(g) && c.id !in g.blockers && !MayJoin(ctx, c, a)
    ensures ReduceBlockPick(s, Own(c.id), ctx)
         == BlockStep(if TakesPart(ctx, c) then BlockPickState(Some(c.id), None) else NO_BLOCK_PICK, [], None)
  {
    JoinIff(ctx, g, c, a);
    SelectableIff(ctx, c);
  }

  /** Cancel lets go of everything and sends nothing. */
  lemma CancelLetsGo(ctx: BlockContext, s: BlockPickState)
    ensures ReduceBlockPick(s, Cancel, ctx) == BlockStep(NO_BLOCK_PICK, [], None)
  {
  }

  /** The dock's button takes back every block of the selected creature, whatever the server holds. */
  lemma ButtonTakesAllBack(ctx: BlockContext, rules: Rules, r: Relation, s: BlockPickState, b: CardView, attacker: string)
    requires DistinctIds(ctx.cards) && b in ctx.cards && b.controller == ctx.viewerID && s.selected == Some(b.id)
    ensures var step := ReduceBlockPick(s, RemoveBlocks, ctx);
            && step.state == NO_BLOCK_PICK && step.refused == None
            && (IsBlocking(b, attacker) ==>
                  RemoveFromCombat(b.id) in step.send && BlockPair(b.id, attacker) !in ApplyAll(rules, r, step.send))
            && ((forall x :: !IsBlocking(b, x)) ==> step.send == [])
  {
    CardOfIs(ctx.cards, b);
    BlockingIs(b, attacker);
    var atks := BlockedAttackersOf(b);
    if IsBlocking(b, attacker) {
      var pairs := seq(|atks|, i requires 0 <= i < |atks| => BlockPair(b.id, atks[i]));
      var i :| 0 <= i < |atks| && atks[i] == attacker;
      assert pairs[i] == BlockPair(b.id, attacker);
      ReleaseTakesBack(ctx, rules, r, b, attacker, pairs);
    }
    if atks != [] {
      BlockingIs(b, atks[0]);
    }
  }

  // ---- Whole gestures ----

  function Clicks(ctx: BlockContext, s: BlockPickState, evs: seq<BlockEvent>): (BlockPickState, seq<BlockSend>) {
    if evs == [] then (s, [])
    else
      var before := Clicks(ctx, s, evs[..|evs| - 1]);
      var step := ReduceBlockPick(before.0, evs[|evs| - 1], ctx);
      (step.state, before.1 + step.send)
  }

  lemma ClicksMore(ctx: BlockContext, s: BlockPickState, evs: seq<BlockEvent>, ev: BlockEvent)
    ensures var before := Clicks(ctx, s, evs);
            var step := ReduceBlockPick(before.0, ev, ctx);
            Clicks(ctx, s, evs + [ev]) == (step.state, before.1 + step.send)
  {
    assert (evs + [ev])[..|evs|] == evs;
  }

  /** A free creature and an attacker it may block: two clicks declare that block, and nothing else. */
  lemma TwoClicksBlock(ctx: BlockContext, b: CardView, a: CardView)
    requires DistinctIds(ctx.cards) && TakesPart(ctx, b) && a in ctx.cards
    requires AttacksViewer(ctx, a) && !IsBlocking(b, a.id) && Unrefused(b, a.id)
    ensures Clicks(ctx, NO_BLOCK_PICK, [Own(b.id), Attacker(a.id)]).1 == [DeclareBlocker(BlockPair(b.id, a.id))]
  {
    ClicksMore(ctx, NO_BLOCK_PICK, [], Own(b.id));
    ClicksMore(ctx, NO_BLOCK_PICK, [Own(b.id)], Attacker(a.id));
    assert [] + [Own(b.id)] == [Own(b.id)] && [Own(b.id)] + [Attacker(a.id)] == [Own(b.id), Attacker(a.id)];
    ClickSelects(ctx, NO_BLOCK_PICK, b);
    ClickDeclares(ctx, BlockPickState(Some(b.id), None), b, a);
  }

  function IdsOf(cs: seq<CardView>): seq<string> {
    seq(|cs|, i requires 0 <= i < |cs| => cs[i].id)
  }

  /** The gesture: one creature, the attacker, then the others. */
  function GroupGesture(cs: seq<CardView>, a: CardView): seq<BlockEvent>
    requires cs != []
  {
    if |cs| == 1 then [Own(cs[0].id), Attacker(a.id)] else GroupGesture(cs[..|cs| - 1], a) + [Own(cs[|cs| - 1].id)]
  }

  /** The state with a group of the creatures on `a`, as far as it has come. */
  function GroupOn(cs: seq<CardView>, a: CardView): BlockPickState {
    BlockPickState(None, Some(BlockGroup(a.id, IdsOf(cs), a.minBlockers)))
  }

  lemma IdsMore(cs: seq<CardView>, c: CardView)
    requires Distinct(IdsOf(cs + [c]))
    ensures IdsOf(cs + [c]) == IdsOf(cs) + [c.id] && Distinct(IdsOf(cs)) && c.id !in IdsOf(cs)
  {
    var all := IdsOf(cs + [c]);
    assert all[|cs|] == c.id;
    assert forall i :: 0 <= i < |cs| ==> IdsOf(cs)[i] == all[i];
  }

  lemma OneMoreJoins(ctx: BlockContext, cs: seq<CardView>, c: CardView, a: CardView)
    requires DistinctIds(ctx.cards) && a in ctx.cards && AttacksViewer(ctx, a)
    requires Distinct(IdsOf(cs + [c])) && MayJoin(ctx, c, a)
    ensures |cs| + 1 < a.minBlockers ==>
              && ReduceBlockPick(GroupOn(cs, a), Own(c.id), ctx).send == []
              && ReduceBlockPick(GroupOn(cs, a), Own(c.id), ctx).state == GroupOn(cs + [c], a)
    ensures |cs| + 1 == a.minBlockers ==>
              && ReduceBlockPick(GroupOn(cs, a), Own(c.id), ctx).send == [DeclareBlockers(PairsOn(cs + [c], a))]
              && ReduceBlockPick(GroupOn(cs, a), Own(c.id), ctx).state == NO_BLOCK_PICK
  {
    IdsMore(cs, c);
    ClickJoins(ctx, GroupOn(cs, a), GroupOn(cs, a).group.value, c, a);
    if |cs| + 1 == a.minBlockers {
      var blocks := ReduceBlockPick(GroupOn(cs, a), Own(c.id), ctx).send[0].blocks;
      assert blocks == PairsOn(cs + [c], a);
    }
  }

  function PairsOn(cs: seq<CardView>, a: CardView): seq<BlockPair> {
    seq(|cs|, i requires 0 <= i < |cs| => BlockPair(cs[i].id, a.id))
  }

  lemma GroupStarts(ctx: BlockContext, c: CardView, a: CardView)
    requires DistinctIds(ctx.cards) && a in ctx.cards && AttacksViewer(ctx, a)
    requires TakesPart(ctx, c) && !IsBlocking(c, a.id) && exists k: nat :: OnlyTooFew(c, a, k)
    ensures Clicks(ctx, NO_BLOCK_PICK, GroupGesture([c], a)) == (GroupOn([c], a), [])
  {
    ClicksMore(ctx, NO_BLOCK_PICK, [], Own(c.id));
    ClicksMore(ctx, NO_BLOCK_PICK, [Own(c.id)], Attacker(a.id));
    assert [] + [Own(c.id)] == [Own(c.id)] && [Own(c.id)] + [Attacker(a.id)] == GroupGesture([c], a);
    ClickSelects(ctx, NO_BLOCK_PICK, c);
    var k: nat :| OnlyTooFew(c, a, k);
    ClickStartsGroup(ctx, BlockPickState(Some(c.id), None), c, a, k);
    assert IdsOf([c]) == [c.id];
  }

  lemma GestureMore(cs: seq<CardView>, c: CardView, a: CardView)
    requires cs != []
    ensures GroupGesture(cs + [c], a) == GroupGesture(cs, a) + [Own(c.id)]
  {
    assert (cs + [c])[..|cs|] == cs;
  }

  lemma {:induction false} GroupGrows(ctx: BlockContext, cs: seq<CardView>, a: CardView)
    requires DistinctIds(ctx.cards) && a in ctx.cards && AttacksViewer(ctx, a)
    requires 1 <= |cs| < a.minBlockers && Distinct(IdsOf(cs)) && forall i :: 0 <= i < |cs| ==> MayJoin(ctx, cs[i], a)
    requires exists k: nat :: OnlyTooFew(cs[0], a, k)
    ensures Clicks(ctx, NO_BLOCK_PICK, GroupGesture(cs, a)) == (GroupOn(cs, a), [])
    decreases |cs|
  {
    var rest, last := cs[..|cs| - 1], cs[|cs| - 1];
    assert cs == rest + [last];
    if rest == [] {
      GroupStarts(ctx, last, a);
    } else {
      IdsMore(rest, last);
      GroupGrows(ctx, rest, a);
      GestureMore(rest, last, a);
      ClicksMore(ctx, NO_BLOCK_PICK, GroupGesture(rest, a), Own(last.id));
      OneMoreJoins(ctx, rest, last, a);
    }
  }

  lemma GroupCompletes(ctx: BlockContext, rest: seq<CardView>, last: CardView, a: CardView)
    requires DistinctIds(ctx.cards) && a in ctx.cards && AttacksViewer(ctx, a) && rest != []
    requires |rest| + 1 == a.minBlockers && Distinct(IdsOf(rest + [last])) && MayJoin(ctx, last, a)
    requires Clicks(ctx, NO_BLOCK_PICK, GroupGesture(rest, a)) == (GroupOn(rest, a), [])
    ensures Clicks(ctx, NO_BLOCK_PICK, GroupGesture(rest + [last], a)) == (NO_BLOCK_PICK, [DeclareBlockers(PairsOn(rest + [last], a))])
  {
    GestureMore(rest, last, a);
    ClicksMore(ctx, NO_BLOCK_PICK, GroupGesture(rest, a), Own(last.id));
    OneMoreJoins(ctx, rest, last, a);
    var send := [DeclareBlockers(PairsOn(rest + [last], a))];
    assert [] + send == send;
  }

  /** An attacker that takes `need` blockers: one creature, the attacker, and the others one by one declare them all in one message, and nothing before. */
  lemma GestureBlocksWithGroup(ctx: BlockContext, cs: seq<CardView>, a: CardView)
    requires DistinctIds(ctx.cards) && a in ctx.cards && AttacksViewer(ctx, a)
    requires 2 <= |cs| == a.minBlockers && Distinct(IdsOf(cs)) && forall i :: 0 <= i < |cs| ==> MayJoin(ctx, cs[i], a)
    requires exists k: nat :: OnlyTooFew(cs[0], a, k)
    ensures Clicks(ctx, NO_BLOCK_PICK, GroupGesture(cs, a)) == (NO_BLOCK_PICK, [DeclareBlockers(PairsOn(cs, a))])
  {
    var rest, last := cs[..|cs| - 1], cs[|cs| - 1];
    assert cs == rest + [last];
    IdsMore(rest, last);
    GroupGrows(ctx, rest, a);
    GroupCompletes(ctx, rest, last, a);
  }

  // ---- A new frame ----

  /** What a new frame leaves: the selection if it still takes part, the group while its attacker attacks, less those that no longer take part. */
  lemma FrameKeepsTheLive(ctx: BlockContext, s: BlockPickState)
    requires DistinctIds(ctx.cards) && PickOk(s)
    ensures var live := LiveBlockPick(s, ctx);
            && (live.selected.Some? <==> s.selected.Some? && exists c <- ctx.cards :: c.id == s.selected.value && TakesPart(ctx, c))
            && (live.selected.Some? ==> live.selected == s.selected)
            && (live.group.Some? <==>
                  && s.group.Some?
                  && (exists a <- ctx.cards :: a.id == s.group.value.attacker && AttacksViewer(ctx, a))
                  && (exists c <- ctx.cards :: c.id in s.group.value.blockers && TakesPart(ctx, c)))
            && (live.group.Some? ==>
                  && live.group.value == s.group.value.(blockers := live.group.value.blockers)
                  && forall id :: id in live.group.value.blockers <==>
                       id in s.group.value.blockers && exists c <- ctx.cards :: c.id == id && TakesPart(ctx, c))
  {
    forall id ensures CanSelectBlocker(ctx, id) <==> exists c <- ctx.cards :: c.id == id && TakesPart(ctx, c) {
      LivesIff(ctx, id);
    }
    if s.group.Some? {
      var g := s.group.value;
      StillSelectableFacts(ctx, g.blockers);
      CardOfIn(ctx.cards, g.attacker);
      if a :| a in ctx.cards && a.id == g.attacker {
        CardOfIs(ctx.cards, a);
      }
      var blockers := StillSelectable(ctx, g.blockers);
      if blockers != [] {
        assert blockers[0] in blockers;
      }
    }
  }

  lemma LivesIff(ctx: BlockContext, id: string)
    requires DistinctIds(ctx.cards)
    ensures CanSelectBlocker(ctx, id) <==> exists c <- ctx.cards :: c.id == id && TakesPart(ctx, c)
  {
    CardOfIn(ctx.cards, id);
    if c :| c in ctx.cards && c.id == id {
      SelectableIff(ctx, c);
    }
  }
}
