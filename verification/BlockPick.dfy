/**
 Declaring blockers on the board: what a click on each attacker would do, the
 interaction's reducer, and the messages that take blocks back.
 */
module BlockPick {
  import opened Wrappers

  datatype RefusalReason = TooFewBlockers | OtherReason(token: string)

  datatype Refusal = Refusal(attacker: string, reason: RefusalReason, message: string)

  /** The card fields the block code reads; "" and 0 stand for an omitted field. */
  datatype CardView = CardView(
    id: string,
    controller: string,
    isCreature: bool,
    blockingTarget: string,
    blockingTargets: seq<string>,
    refusals: seq<Refusal>,
    minBlockers: nat,
    blockCapacity: Option<nat>,
    blocksAnyNumber: bool,
    attackingTarget: string,
    defendingPlayer: string,
    attacksPlayer: bool)

  datatype BlockContext = BlockContext(cards: seq<CardView>, viewerID: string, blockable: map<string, seq<string>>)

  datatype BlockPair = BlockPair(blocker: string, attacker: string)

  datatype BlockSend =
    | DeclareBlocker(pair: BlockPair)
    | DeclareBlockers(blocks: seq<BlockPair>)
    | RemoveFromCombat(instanceID: string)

  datatype BlockGroup = BlockGroup(attacker: string, blockers: seq<string>, need: nat)

  datatype BlockPickState = BlockPickState(selected: Option<string>, group: Option<BlockGroup>)

  const NO_BLOCK_PICK := BlockPickState(None, None)

  datatype BlockTarget =
    | Block
    | Remove
    | Group(need: nat, reason: string)
    | Refused(reason: string)

  datatype BlockEvent = Own(id: string) | Attacker(id: string) | RemoveBlocks | Cancel

  datatype BlockStep = BlockStep(state: BlockPickState, send: seq<BlockSend>, refused: Option<string>)

  // ---- Reading the view ----

  function CardOf(cards: seq<CardView>, id: string): Option<CardView> {
    if cards == [] then None else if cards[0].id == id then Some(cards[0]) else CardOf(cards[1..], id)
  }

  function BlockedAttackersOf(c: CardView): seq<string> {
    if |c.blockingTargets| > 0 then c.blockingTargets
    else if c.blockingTarget != "" then [c.blockingTarget]
    else []
  }

  function DefendingPlayerOf(c: CardView): Option<string> {
    if c.attackingTarget == "" then None
    else if c.defendingPlayer != "" then Some(c.defendingPlayer)
    else if c.attacksPlayer then Some(c.attackingTarget)
    else None
  }

  function AttackersDefendedBy(cards: seq<CardView>, seat: string): seq<CardView> {
    if cards == [] then []
    else
      var rest := AttackersDefendedBy(cards[1..], seat);
      if DefendingPlayerOf(cards[0]) == Some(seat) then [cards[0]] + rest else rest
  }

  predicate CanSelectBlocker(ctx: BlockContext, id: string) {
    var c := CardOf(ctx.cards, id);
    && c.Some? && c.value.controller == ctx.viewerID && c.value.isCreature
    && (|| (id in ctx.blockable && |ctx.blockable[id]| > 0)
        || |BlockedAttackersOf(c.value)| > 0
        || |c.value.refusals| > 0)
  }

  function RefusalOf(refusals: seq<Refusal>, attacker: string): Option<Refusal> {
    if refusals == [] then None
    else if refusals[0].attacker == attacker then Some(refusals[0])
    else RefusalOf(refusals[1..], attacker)
  }

  /** What a click on attacker `a` would do for creature `b`. */
  function TargetOn(b: CardView, a: CardView): BlockTarget {
    var r := RefusalOf(b.refusals, a.id);
    if a.id in BlockedAttackersOf(b) then Remove
    else if r.None? then Block
    else if r.value.reason.TooFewBlockers? && a.minBlockers >= 2 then Group(a.minBlockers, r.value.message)
    else Refused(r.value.message)
  }

  function TargetsOn(b: CardView, attackers: seq<CardView>): map<string, BlockTarget> {
    if attackers == [] then map[]
    else
      var a := attackers[|attackers| - 1];
      TargetsOn(b, attackers[..|attackers| - 1])[a.id := TargetOn(b, a)]
  }

  function TargetsOf(ctx: BlockContext, blockerID: string): map<string, BlockTarget> {
    var b := CardOf(ctx.cards, blockerID);
    if b.None? then map[] else TargetsOn(b.value, AttackersDefendedBy(ctx.cards, ctx.viewerID))
  }

  method BlockTargets(ctx: BlockContext, blockerID: string) returns (out: map<string, BlockTarget>)
    ensures out == TargetsOf(ctx, blockerID)
  {
    out := map[];
    var b := CardOf(ctx.cards, blockerID);
    if b.None? {
      return;
    }
    var blocking := set x <- BlockedAttackersOf(b.value);
    var attackers := AttackersDefendedBy(ctx.cards, ctx.viewerID);
    for i := 0 to |attackers|
      invariant out == TargetsOn(b.value, attackers[..i])
    {
      assert attackers[..i + 1][..i] == attackers[..i];
      var a := attackers[i];
      if a.id in blocking {
        out := out[a.id := Remove];
        continue;
      }
      var r := RefusalOf(b.value.refusals, a.id);
      if r.None? {
        out := out[a.id := Block];
      } else if r.value.reason.TooFewBlockers? && a.minBlockers >= 2 {
        out := out[a.id := Group(a.minBlockers, r.value.message)];
      } else {
        out := out[a.id := Refused(r.value.message)];
      }
    }
    assert attackers[..|attackers|] == attackers;
  }

  predicate CanJoinGroup(ctx: BlockContext, group: BlockGroup, id: string) {
    && id !in group.blockers && CanSelectBlocker(ctx, id)
    && var targets := TargetsOf(ctx, id);
       group.attacker in targets && (targets[group.attacker].Group? || targets[group.attacker].Block?)
  }

  predicate HasRoomAfter(b: CardView, attackerID: string) {
    var after := (set a <- BlockedAttackersOf(b)) + {attackerID};
    b.blocksAnyNumber || |after| < (if b.blockCapacity.Some? then b.blockCapacity.value else 1)
  }

  // ---- Taking blocks back ----

  /** The viewer's creatures that block something, in battlefield order. */
  function OwnBlockers(cards: seq<CardView>, viewer: string): seq<CardView> {
    if cards == [] then []
    else
      var rest := OwnBlockers(cards[1..], viewer);
      if cards[0].controller == viewer && |BlockedAttackersOf(cards[0])| > 0 then [cards[0]] + rest else rest
  }

  /** The members of `own` that block `a` and keep that block. */
  function LeftOn(own: seq<CardView>, a: string, dropped: set<BlockPair>): seq<CardView> {
    if own == [] then []
    else
      var rest := LeftOn(own[1..], a, dropped);
      if a in BlockedAttackersOf(own[0]) && BlockPair(own[0].id, a) !in dropped then [own[0]] + rest else rest
  }

  /** Attacker `a` would be left with some, but fewer than its minimum, of the viewer's blockers. */
  predicate Starved(ctx: BlockContext, pairs: set<BlockPair>, a: string) {
    var atk := CardOf(ctx.cards, a);
    var min := if atk.Some? then atk.value.minBlockers else 0;
    min >= 2 && 0 < |LeftOn(OwnBlockers(ctx.cards, ctx.viewerID), a, pairs)| < min
  }

  /** The pairs the release takes out: those asked for, and the rest of each starved attacker's. */
  function DroppedPairs(ctx: BlockContext, pairs: seq<BlockPair>): set<BlockPair> {
    var asked := set p <- pairs;
    asked + (set p <- pairs, c <- OwnBlockers(ctx.cards, ctx.viewerID)
             | Starved(ctx, asked, p.attacker) && p.attacker in BlockedAttackersOf(c) :: BlockPair(c.id, p.attacker))
  }

  predicate Touched(c: CardView, dropped: set<BlockPair>) {
    exists a <- BlockedAttackersOf(c) :: BlockPair(c.id, a) in dropped
  }

  function Removals(own: seq<CardView>, dropped: set<BlockPair>): seq<BlockSend> {
    if own == [] then []
    else
      var rest := Removals(own[..|own| - 1], dropped);
      var c := own[|own| - 1];
      if Touched(c, dropped) then rest + [RemoveFromCombat(c.id)] else rest
  }

  function KeptPairs(id: string, atks: seq<string>, dropped: set<BlockPair>): seq<BlockPair> {
    if atks == [] then []
    else
      var rest := KeptPairs(id, atks[..|atks| - 1], dropped);
      var p := BlockPair(id, atks[|atks| - 1]);
      if p !in dropped then rest + [p] else rest
  }

  function Kept(own: seq<CardView>, dropped: set<BlockPair>): seq<BlockPair> {
    if own == [] then []
    else
      var rest := Kept(own[..|own| - 1], dropped);
      var c := own[|own| - 1];
      if Touched(c, dropped) then rest + KeptPairs(c.id, BlockedAttackersOf(c), dropped) else rest
  }

  function ReleaseOf(ctx: BlockContext, pairs: seq<BlockPair>): seq<BlockSend> {
    var own := OwnBlockers(ctx.cards, ctx.viewerID);
    var dropped := DroppedPairs(ctx, pairs);
    var kept := Kept(own, dropped);
    Removals(own, dropped) + (if |kept| > 0 then [DeclareBlockers(kept)] else [])
  }

  lemma {:induction false} LeftOnIgnoresOthers(own: seq<CardView>, a: string, d: set<BlockPair>, e: set<BlockPair>)
    requires forall p: BlockPair :: p.attacker == a ==> (p in d <==> p in e)
    ensures LeftOn(own, a, d) == LeftOn(own, a, e)
  {
    if own != [] {
      LeftOnIgnoresOthers(own[1..], a, d, e);
    }
  }

  /** releaseSends: each starved attacker's other blockers go too, and a creature that keeps blocks gets them back. */
  method ReleaseSends(ctx: BlockContext, pairs: seq<BlockPair>) returns (send: seq<BlockSend>)
    ensures send == ReleaseOf(ctx, pairs)
  {
    var own := OwnBlockers(ctx.cards, ctx.viewerID);
    var asked := set p <- pairs;
    var touched := set p <- pairs :: p.attacker;
    var dropped := asked;
    var rest := touched;
    while rest != {}
      invariant rest <= touched
      invariant forall p :: p in dropped <==> p in asked || (p.attacker in touched - rest && Starves(ctx, own, asked, p))
    {
      var a :| a in rest;
      rest := rest - {a};
      LeftOnIgnoresOthers(own, a, dropped, asked);
      var atk := CardOf(ctx.cards, a);
      var min := if atk.Some? then atk.value.minBlockers else 0;
      if min < 2 {
        continue;
      }
      var left := LeftOn(own, a, dropped);
      if 0 < |left| < min {
        var more := set c <- left :: BlockPair(c.id, a);
        LeftOnMembers(own, a, asked);
        assert forall p :: p in more ==> p.attacker == a && Starves(ctx, own, asked, p);
        dropped := dropped + more;
      }
    }
    assert dropped == DroppedPairs(ctx, pairs) by {
      DroppedAreStarved(ctx, pairs);
    }
    send := [];
    var kept := [];
    for i := 0 to |own|
      invariant send == Removals(own[..i], dropped)
      invariant kept == Kept(own[..i], dropped)
    {
      assert own[..i + 1][..i] == own[..i];
      var c := own[i];
      var atks := BlockedAttackersOf(c);
      if !Touched(c, dropped) {
        continue;
      }
      send := send + [RemoveFromCombat(c.id)];
      var before := kept;
      for j := 0 to |atks|
        invariant kept == before + KeptPairs(c.id, atks[..j], dropped)
      {
        assert atks[..j + 1][..j] == atks[..j];
        var p := BlockPair(c.id, atks[j]);
        if p !in dropped {
          kept := kept + [p];
        }
      }
      assert atks[..|atks|] == atks;
    }
    assert own[..|own|] == own;
    if |kept| > 0 {
      send := send + [DeclareBlockers(kept)];
    }
  }

  /** Pair `p` is a block of the viewer's on a starved attacker. */
  ghost predicate Starves(ctx: BlockContext, own: seq<CardView>, asked: set<BlockPair>, p: BlockPair) {
    Starved(ctx, asked, p.attacker) && exists c <- own :: c.id == p.blocker && p.attacker in BlockedAttackersOf(c)
  }

  lemma {:induction false} LeftOnMembers(own: seq<CardView>, a: string, asked: set<BlockPair>)
    ensures forall c :: c in LeftOn(own, a, asked) <==>
              c in own && a in BlockedAttackersOf(c) && BlockPair(c.id, a) !in asked
  {
    if own != [] {
      LeftOnMembers(own[1..], a, asked);
      assert own == [own[0]] + own[1..];
    }
  }

  lemma DroppedAreStarved(ctx: BlockContext, pairs: seq<BlockPair>)
    ensures var own := OwnBlockers(ctx.cards, ctx.viewerID);
            var asked := set p <- pairs;
            forall p :: p in DroppedPairs(ctx, pairs) <==>
              p in asked || ((exists q <- pairs :: q.attacker == p.attacker) && Starves(ctx, own, asked, p))
  {
  }

  // ---- The interaction ----

  function SelectOwn(ctx: BlockContext, state: BlockPickState, id: string): BlockStep {
    if state.selected == Some(id) then BlockStep(NO_BLOCK_PICK, [], None)
    else if !CanSelectBlocker(ctx, id) then BlockStep(state, [], None)
    else BlockStep(BlockPickState(Some(id), None), [], None)
  }

  function Without(ids: seq<string>, id: string): seq<string> {
    if ids == [] then [] else if ids[0] == id then Without(ids[1..], id) else [ids[0]] + Without(ids[1..], id)
  }

  function OwnClick(state: BlockPickState, id: string, ctx: BlockContext): BlockStep {
    if state.group.Some? then
      var g := state.group.value;
      if id in g.blockers then
        var blockers := Without(g.blockers, id);
        BlockStep(BlockPickState(None, if |blockers| > 0 then Some(g.(blockers := blockers)) else None), [], None)
      else if CanJoinGroup(ctx, g, id) then
        var blockers := g.blockers + [id];
        if |blockers| >= g.need then
          var blocks := seq(|blockers|, i requires 0 <= i < |blockers| => BlockPair(blockers[i], g.attacker));
          BlockStep(NO_BLOCK_PICK, [DeclareBlockers(blocks)], None)
        else BlockStep(BlockPickState(None, Some(g.(blockers := blockers))), [], None)
      else SelectOwn(ctx, NO_BLOCK_PICK, id)
    else SelectOwn(ctx, state, id)
  }

  function AttackerClick(state: BlockPickState, id: string, ctx: BlockContext): BlockStep {
    if state.selected.None? || id !in TargetsOf(ctx, state.selected.value) then BlockStep(state, [], None)
    else
      var blocker := state.selected.value;
      match TargetsOf(ctx, blocker)[id]
      case Remove => BlockStep(NO_BLOCK_PICK, ReleaseOf(ctx, [BlockPair(blocker, id)]), None)
      case Block =>
        var b := CardOf(ctx.cards, blocker).value;
        BlockStep(if HasRoomAfter(b, id) then state else NO_BLOCK_PICK, [DeclareBlocker(BlockPair(blocker, id))], None)
      case Group(need, _) => BlockStep(BlockPickState(None, Some(BlockGroup(id, [blocker], need))), [], None)
      case Refused(reason) => BlockStep(state, [], Some(reason))
  }

  function ReduceBlockPick(state: BlockPickState, ev: BlockEvent, ctx: BlockContext): BlockStep {
    match ev
    case Cancel => BlockStep(NO_BLOCK_PICK, [], None)
    case Own(id) => OwnClick(state, id, ctx)
    case Attacker(id) => AttackerClick(state, id, ctx)
    case RemoveBlocks =>
      if state.selected.None? || CardOf(ctx.cards, state.selected.value).None? then BlockStep(state, [], None)
      else
        var id := state.selected.value;
        var atks := BlockedAttackersOf(CardOf(ctx.cards, id).value);
        var pairs := seq(|atks|, i requires 0 <= i < |atks| => BlockPair(id, atks[i]));
        BlockStep(NO_BLOCK_PICK, if |pairs| > 0 then ReleaseOf(ctx, pairs) else [], None)
  }

  function StillSelectable(ctx: BlockContext, ids: seq<string>): seq<string> {
    if ids == [] then []
    else if CanSelectBlocker(ctx, ids[0]) then [ids[0]] + StillSelectable(ctx, ids[1..])
    else StillSelectable(ctx, ids[1..])
  }

  function LiveBlockPick(state: BlockPickState, ctx: BlockContext): BlockPickState {
    var selected := if state.selected.Some? && !CanSelectBlocker(ctx, state.selected.value) then None else state.selected;
    var group :=
      if state.group.None? then None
      else
        var g := state.group.value;
        var atk := CardOf(ctx.cards, g.attacker);
        if atk.None? || DefendingPlayerOf(atk.value) != Some(ctx.viewerID) then None
        else
          var blockers := StillSelectable(ctx, g.blockers);
          if |blockers| == 0 then None else Some(g.(blockers := blockers));
    BlockPickState(selected, group)
  }
}
