/**
 Telling apart cast lines that read the same: a line that another shares its label
 with gets its targets' qualifiers, and lines still alike are numbered.
 */
module CastLineLabels {
  import opened Sequences
  import opened Wrappers

  datatype WireTarget = WireTarget(kind: string, id: string)

  datatype CardView = CardView(isToken: bool, controller: string)

  /** The cards in the game by instance, and the seats' names by player. */
  datatype GameView = GameView(cards: map<string, CardView>, seatNames: map<string, string>)

  datatype Move = Move(text: string, targets: seq<WireTarget>)

  // ---- Qualifiers ----

  function TargetCardIDs(targets: seq<WireTarget>): seq<string> {
    if targets == [] then []
    else
      var rest, last := TargetCardIDs(targets[..|targets| - 1]), targets[|targets| - 1];
      if last.kind != "player" && last.id != "" then rest + [last.id] else rest
  }

  function CardQualifier(card: CardView, view: GameView, viewer: Option<string>): string {
    var token := if card.isToken then "token" else "";
    var theirs := card.controller != "" && Some(card.controller) != viewer
                  && card.controller in view.seatNames && view.seatNames[card.controller] != "";
    var owner := if theirs then view.seatNames[card.controller] + "'s" else "";
    token + (if token != "" && owner != "" then ", " else "") + owner
  }

  function Note(id: string, view: GameView, viewer: Option<string>): string {
    if id !in view.cards then ""
    else
      var q := CardQualifier(view.cards[id], view, viewer);
      if q != "" then q else if Some(view.cards[id].controller) == viewer then "yours" else ""
  }

  function Notes(ids: seq<string>, view: GameView, viewer: Option<string>): seq<string> {
    seq(|ids|, i requires 0 <= i < |ids| => Note(ids[i], view, viewer))
  }

  function Joined(notes: seq<string>): string {
    if notes == [] then ""
    else
      var first := if notes[0] == "" then "\U{2014}" else notes[0];
      if |notes| == 1 then first else first + "; " + Joined(notes[1..])
  }

  function Qualified(m: Move, view: GameView, viewer: Option<string>): string {
    var notes := Notes(TargetCardIDs(m.targets), view, viewer);
    if forall n <- notes :: n == "" || n == "yours" then m.text else m.text + " (" + Joined(notes) + ")"
  }

  // ---- Counting and numbering ----

  function Count(labels: seq<string>, l: string): nat {
    if labels == [] then 0
    else Count(labels[..|labels| - 1], l) + (if labels[|labels| - 1] == l then 1 else 0)
  }

  function Digit(n: nat): char
    requires n < 10
  {
    "0123456789"[n]
  }

  function Decimal(n: nat): string {
    if n < 10 then [Digit(n)] else Decimal(n / 10) + [Digit(n % 10)]
  }

  function Numbered(l: string, n: nat): string {
    l + " #" + Decimal(n)
  }

  function Texts(moves: seq<Move>): seq<string> {
    seq(|moves|, i requires 0 <= i < |moves| => moves[i].text)
  }

  /** The line's own label, qualified when another line has the same one. */
  function QualifiedLabel(texts: seq<string>, m: Move, view: GameView, viewer: Option<string>): string {
    if Count(texts, m.text) < 2 then m.text else Qualified(m, view, viewer)
  }

  function QualifiedLabels(moves: seq<Move>, view: GameView, viewer: Option<string>): seq<string> {
    var texts := Texts(moves);
    seq(|moves|, i requires 0 <= i < |moves| => QualifiedLabel(texts, moves[i], view, viewer))
  }

  function FinalLabel(labels: seq<string>, i: nat): string
    requires i < |labels|
  {
    if Count(labels, labels[i]) < 2 then labels[i] else Numbered(labels[i], Count(labels[..i], labels[i]) + 1)
  }

  function FinalLabels(labels: seq<string>): seq<string> {
    seq(|labels|, i requires 0 <= i < |labels| => FinalLabel(labels, i))
  }

  lemma {:induction false} CountIn(labels: seq<string>, l: string)
    ensures Count(labels, l) > 0 <==> l in labels
  {
    if labels != [] {
      CountIn(labels[..|labels| - 1], l);
      assert labels == labels[..|labels| - 1] + [labels[|labels| - 1]];
    }
  }

  lemma CountGrows(labels: seq<string>, x: string, l: string)
    ensures Count(labels + [x], l) == Count(labels, l) + (if x == l then 1 else 0)
  {
    assert (labels + [x])[..|labels|] == labels;
  }

  method CountAll(labels: seq<string>) returns (m: map<string, nat>)
    ensures forall l :: (if l in m then m[l] else 0) == Count(labels, l)
  {
    m := map[];
    for i := 0 to |labels|
      invariant forall l :: (if l in m then m[l] else 0) == Count(labels[..i], l)
    {
      assert labels[..i + 1] == labels[..i] + [labels[i]];
      forall l { CountGrows(labels[..i], labels[i], l); }
      m := m[labels[i] := (if labels[i] in m then m[labels[i]] else 0) + 1];
    }
    assert labels[..|labels|] == labels;
  }

  /** `seen` counts the labels so far, of those that occur more than once. */
  ghost predicate SeenSoFar(seen: map<string, nat>, labels: seq<string>, i: nat)
    requires i <= |labels|
  {
    forall l :: Count(labels, l) >= 2 ==> (if l in seen then seen[l] else 0) == Count(labels[..i], l)
  }

  lemma SeenGrows(seen: map<string, nat>, labels: seq<string>, i: nat)
    requires i < |labels| && SeenSoFar(seen, labels, i)
    ensures Count(labels, labels[i]) < 2 ==> SeenSoFar(seen, labels, i + 1)
    ensures Count(labels, labels[i]) >= 2 ==> SeenSoFar(seen[labels[i] := Count(labels[..i], labels[i]) + 1], labels, i + 1)
  {
    assert labels[..i + 1] == labels[..i] + [labels[i]];
    forall l { CountGrows(labels[..i], labels[i], l); }
  }

  method NumberRepeats(qualified: seq<string>) returns (labels: seq<string>)
    ensures labels == FinalLabels(qualified)
  {
    var again := CountAll(qualified);
    var seen: map<string, nat> := map[];
    labels := [];
    for i := 0 to |qualified|
      invariant |labels| == i && forall j :: 0 <= j < i ==> labels[j] == FinalLabel(qualified, j)
      invariant SeenSoFar(seen, qualified, i)
    {
      var l := qualified[i];
      SeenGrows(seen, qualified, i);
      if (if l in again then again[l] else 0) < 2 {
        labels := labels + [l];
      } else {
        var n := (if l in seen then seen[l] else 0) + 1;
        seen := seen[l := n];
        labels := labels + [Numbered(l, n)];
      }
    }
  }

  method QualifyRepeats(moves: seq<Move>, view: GameView, viewer: Option<string>) returns (qualified: seq<string>)
    ensures |qualified| == |moves|
    ensures forall i :: 0 <= i < |moves| ==> qualified[i] == QualifiedLabel(Texts(moves), moves[i], view, viewer)
  {
    var count := CountAll(Texts(moves));
    qualified := [];
    for i := 0 to |moves|
      invariant |qualified| == i
      invariant forall j :: 0 <= j < i ==> qualified[j] == QualifiedLabel(Texts(moves), moves[j], view, viewer)
    {
      var text := moves[i].text;
      var n := if text in count then count[text] else 0;
      qualified := qualified + [if n < 2 then text else Qualified(moves[i], view, viewer)];
    }
  }

  method DistinctCastLabels(moves: seq<Move>, view: GameView, viewer: Option<string>) returns (labels: seq<string>)
    ensures labels == FinalLabels(QualifiedLabels(moves, view, viewer))
  {
    var qualified := QualifyRepeats(moves, view, viewer);
    assert qualified == QualifiedLabels(moves, view, viewer);
    labels := NumberRepeats(qualified);
  }

  // ---- Two lines never share a label, with one exception ----

  lemma {:induction false} DecimalIsDigits(n: nat)
    ensures Decimal(n) != [] && forall c <- Decimal(n) :: '0' <= c <= '9'
  {
    if n >= 10 { DecimalIsDigits(n / 10); }
  }

  lemma {:induction false} DecimalIsInjective(a: nat, b: nat)
    ensures Decimal(a) == Decimal(b) ==> a == b
  {
    if Decimal(a) == Decimal(b) {
      var d, e := Decimal(a), Decimal(b);
      if a >= 10 && b >= 10 {
        assert d[..|d| - 1] == Decimal(a / 10) && e[..|e| - 1] == Decimal(b / 10);
        DecimalIsInjective(a / 10, b / 10);
        assert d[|d| - 1] == Digit(a % 10) && e[|e| - 1] == Digit(b % 10);
      } else if a >= 10 {
        DecimalIsDigits(a / 10);
      } else if b >= 10 {
        DecimalIsDigits(b / 10);
      }
    }
  }

  lemma NumberedChars(l: string, n: nat, k: nat)
    requires k < |Numbered(l, n)|
    ensures k == |l| + 1 ==> Numbered(l, n)[k] == '#'
    ensures k >= |l| + 2 ==> Numbered(l, n)[k] != '#'
  {
    DecimalIsDigits(n);
    if k >= |l| + 2 {
      assert Numbered(l, n)[k] == Decimal(n)[k - |l| - 2];
      assert Decimal(n)[k - |l| - 2] in Decimal(n);
    }
  }

  /** A numbered label tells both what was numbered and the number. */
  lemma NumberedIsInjective(a: string, m: nat, b: string, n: nat)
    requires Numbered(a, m) == Numbered(b, n)
    ensures a == b && m == n
  {
    var s := Numbered(a, m);
    DecimalIsDigits(m);
    DecimalIsDigits(n);
    NumberedChars(a, m, |a| + 1);
    NumberedChars(b, n, |b| + 1);
    NumberedChars(a, m, |b| + 1);
    NumberedChars(b, n, |a| + 1);
    assert |a| == |b|;
    assert s[..|a|] == a && s[..|b|] == b;
    assert s[|a| + 2..] == Decimal(m) && s[|b| + 2..] == Decimal(n);
    DecimalIsInjective(m, n);
  }

  lemma {:induction false} CountOfPrefix(labels: seq<string>, i: nat, l: string)
    requires i <= |labels|
    ensures Count(labels[..i], l) <= Count(labels, l)
  {
    if i < |labels| {
      CountOfPrefix(labels[..|labels| - 1], i, l);
      assert labels[..|labels| - 1][..i] == labels[..i];
    } else {
      assert labels[..i] == labels;
    }
  }

  /** Of two lines with one label, the later one counts the earlier. */
  lemma {:induction false} LaterCountsMore(labels: seq<string>, i: nat, j: nat)
    requires i < j < |labels| && labels[i] == labels[j]
    ensures Count(labels[..i], labels[i]) < Count(labels[..j], labels[i])
    ensures Count(labels, labels[i]) >= 2
  {
    var l := labels[i];
    assert labels[..i + 1] == labels[..i] + [l];
    CountGrows(labels[..i], l, l);
    assert labels[..j][..i + 1] == labels[..i + 1];
    CountOfPrefix(labels[..j], i + 1, l);
    assert labels[..j + 1] == labels[..j] + [l];
    CountGrows(labels[..j], l, l);
    CountOfPrefix(labels, j + 1, l);
  }

  /** A label nothing shares already reads like one of the numbered ones. */
  predicate Clash(labels: seq<string>) {
    exists i, j :: 0 <= i < |labels| && 0 <= j < |labels|
      && Count(labels, labels[i]) < 2 && Count(labels, labels[j]) >= 2
      && labels[i] == Numbered(labels[j], Count(labels[..j], labels[j]) + 1)
  }

  lemma SameFinalIsClash(labels: seq<string>, i: nat, j: nat)
    requires i < j < |labels| && FinalLabel(labels, i) == FinalLabel(labels, j)
    ensures Clash(labels)
  {
    var a, b := labels[i], labels[j];
    if a == b {
      LaterCountsMore(labels, i, j);
      NumberedIsInjective(a, Count(labels[..i], a) + 1, b, Count(labels[..j], b) + 1);
      assert false;
    } else if Count(labels, a) >= 2 && Count(labels, b) >= 2 {
      NumberedIsInjective(a, Count(labels[..i], a) + 1, b, Count(labels[..j], b) + 1);
      assert false;
    }
  }

  /** No two lines get one label, exactly when no unshared label reads like a numbered one. */
  lemma DifferentIffNoClash(labels: seq<string>)
    ensures |FinalLabels(labels)| == |labels|
    ensures Distinct(FinalLabels(labels)) <==> !Clash(labels)
  {
    var final := FinalLabels(labels);
    if Clash(labels) {
      var i, j :| 0 <= i < |labels| && 0 <= j < |labels|
        && Count(labels, labels[i]) < 2 && Count(labels, labels[j]) >= 2
        && labels[i] == Numbered(labels[j], Count(labels[..j], labels[j]) + 1);
      assert final[i] == final[j] && i != j;
    } else {
      forall i, j | 0 <= i < j < |final| ensures final[i] != final[j] {
        if final[i] == final[j] { SameFinalIsClash(labels, i, j); }
      }
    }
  }

  predicate AllDigits(s: string) {
    s != "" && forall c <- s :: '0' <= c <= '9'
  }

  predicate NumberFollows(l: string, k: nat) {
    k + 2 <= |l| && l[k..k + 2] == " #" && AllDigits(l[k + 2..])
  }

  /** A label that already ends in " #" and a number. */
  predicate LooksNumbered(l: string) {
    exists k :: 0 <= k < |l| && NumberFollows(l, k)
  }

  lemma NumberedLooksNumbered(l: string, n: nat)
    ensures LooksNumbered(Numbered(l, n))
  {
    DecimalIsDigits(n);
    var s := Numbered(l, n);
    assert s[|l|..|l| + 2] == " #" && s[|l| + 2..] == Decimal(n);
    assert NumberFollows(s, |l|);
  }

  lemma NoClashWithoutNumbers(labels: seq<string>)
    requires forall i :: 0 <= i < |labels| ==> !LooksNumbered(labels[i])
    ensures !Clash(labels)
  {
    if Clash(labels) {
      var i, j :| 0 <= i < |labels| && 0 <= j < |labels|
        && Count(labels, labels[i]) < 2 && Count(labels, labels[j]) >= 2
        && labels[i] == Numbered(labels[j], Count(labels[..j], labels[j]) + 1);
      NumberedLooksNumbered(labels[j], Count(labels[..j], labels[j]) + 1);
    }
  }

  /** As long as no label arrives already numbered, no two buttons ever share a name. */
  lemma NoTwoButtonsShareAName(moves: seq<Move>, view: GameView, viewer: Option<string>)
    requires forall i :: 0 <= i < |moves| ==> !LooksNumbered(QualifiedLabels(moves, view, viewer)[i])
    ensures var labels := FinalLabels(QualifiedLabels(moves, view, viewer));
            |labels| == |moves| && Distinct(labels)
  {
    NoClashWithoutNumbers(QualifiedLabels(moves, view, viewer));
    DifferentIffNoClash(QualifiedLabels(moves, view, viewer));
  }

  function Example(): seq<string> { ["A", "A", "A #1"] }

  lemma ExampleCounts()
    ensures Count(Example(), "A") == 2 && Count(Example(), "A #1") == 1
  {
    assert Example()[..2] == ["A", "A"] && ["A", "A"][..1] == ["A"] && ["A"][..0] == [];
    assert Count(["A"], "A") == 1 && Count(["A"], "A #1") == 0;
    assert Count(["A", "A"], "A") == 2 && Count(["A", "A"], "A #1") == 0;
  }

  lemma ExampleClashes()
    ensures Clash(Example())
  {
    ExampleCounts();
    var labels := Example();
    assert labels[..0] == [] && Count([], "A") == 0;
    assert Decimal(1) == "1";
    assert Numbered("A", 1) == "A #1";
    assert labels[2] == Numbered(labels[0], Count(labels[..0], labels[0]) + 1);
  }

  /** Two lines "A" and one "A #1", none with a target to qualify it by, give two buttons one name. */
  lemma TwoButtonsCanShareAName(view: GameView, viewer: Option<string>)
    ensures var moves := [Move("A", []), Move("A", []), Move("A #1", [])];
            !Distinct(FinalLabels(QualifiedLabels(moves, view, viewer)))
  {
    var moves := [Move("A", []), Move("A", []), Move("A #1", [])];
    assert Texts(moves) == Example();
    ExampleCounts();
    assert QualifiedLabels(moves, view, viewer) == Example();
    ExampleClashes();
    DifferentIffNoClash(Example());
  }

  /**
   Every label keeps the server's own as its start, and a line that shared its label
   with no other keeps exactly that, unless some qualified line now reads the same.
   */
  lemma OwnLabelIsKept(moves: seq<Move>, view: GameView, viewer: Option<string>, i: nat)
    requires i < |moves|
    ensures var qualified := QualifiedLabels(moves, view, viewer);
            && moves[i].text <= FinalLabel(qualified, i)
            && (Count(Texts(moves), moves[i].text) == 1 ==>
                  (FinalLabel(qualified, i) == moves[i].text
                   <==> forall j :: 0 <= j < |moves| && j != i ==> qualified[j] != moves[i].text))
  {
    var qualified := QualifiedLabels(moves, view, viewer);
    KeptIffAlone(qualified, i);
  }

  lemma KeptIffAlone(labels: seq<string>, i: nat)
    requires i < |labels|
    ensures labels[i] <= FinalLabel(labels, i)
    ensures FinalLabel(labels, i) == labels[i] <==> forall j :: 0 <= j < |labels| && j != i ==> labels[j] != labels[i]
  {
    if j :| 0 <= j < |labels| && j != i && labels[j] == labels[i] {
      LaterCountsMore(labels, if i < j then i else j, if i < j then j else i);
    } else if Count(labels, labels[i]) >= 2 {
      var j := AnotherOne(labels, i);
    }
  }

  lemma {:induction false} AnotherOne(labels: seq<string>, i: nat) returns (j: nat)
    requires i < |labels| && Count(labels, labels[i]) >= 2
    ensures j < |labels| && j != i && labels[j] == labels[i]
  {
    var n := |labels| - 1;
    if i == n {
      CountIn(labels[..n], labels[i]);
      j :| 0 <= j < n && labels[..n][j] == labels[i];
    } else if labels[n] == labels[i] {
      j := n;
    } else {
      j := AnotherOne(labels[..n], i);
    }
  }

  // ---- What a label adds ----

  /** The lines before `i` with the label `l`. */
  function Before(labels: seq<string>, i: nat, l: string): set<nat>
    requires i <= |labels|
  {
    set j | 0 <= j < i && labels[j] == l
  }

  lemma {:induction false} CountIsHowMany(labels: seq<string>, l: string)
    ensures Count(labels, l) == |Before(labels, |labels|, l)|
  {
    if labels != [] {
      var n := |labels| - 1;
      CountIsHowMany(labels[..n], l);
      assert Before(labels, |labels|, l) == Before(labels[..n], n, l) + (if labels[n] == l then {n} else {});
    }
  }

  /** A line alone with its label keeps it; one of several gets its place among them as a number. */
  lemma FinalIs(labels: seq<string>, i: nat)
    requires i < |labels|
    ensures (forall j :: 0 <= j < |labels| && j != i ==> labels[j] != labels[i]) ==> FinalLabel(labels, i) == labels[i]
    ensures (exists j :: 0 <= j < |labels| && j != i && labels[j] == labels[i]) ==>
              FinalLabel(labels, i) == labels[i] + " #" + Decimal(|Before(labels, i, labels[i])| + 1)
  {
    CountIsHowMany(labels[..i], labels[i]);
    assert Before(labels[..i], i, labels[i]) == Before(labels, i, labels[i]);
    if Count(labels, labels[i]) >= 2 {
      var j := AnotherOne(labels, i);
    }
    if j :| 0 <= j < |labels| && j != i && labels[j] == labels[i] {
      LaterCountsMore(labels, if i < j then i else j, if i < j then j else i);
    }
  }

  /** The number is written in ordinary decimal digits. */
  function ValueOf(s: string): nat
    requires forall k :: 0 <= k < |s| ==> '0' <= s[k] <= '9'
  {
    if s == "" then 0 else 10 * ValueOf(s[..|s| - 1]) + (s[|s| - 1] as nat - '0' as nat)
  }

  lemma {:induction false} DecimalReadsBack(n: nat)
    ensures (forall k :: 0 <= k < |Decimal(n)| ==> '0' <= Decimal(n)[k] <= '9') && ValueOf(Decimal(n)) == n
    ensures n > 0 ==> Decimal(n)[0] != '0'
  {
    DecimalIsDigits(n);
    DigitIs(n % 10);
    assert forall k :: 0 <= k < |Decimal(n)| ==> Decimal(n)[k] in Decimal(n);
    if n < 10 {
      assert Decimal(n)[..0] == "" && Decimal(n)[0] == Digit(n);
    } else {
      DecimalReadsBack(n / 10);
      assert Decimal(n)[..|Decimal(n)| - 1] == Decimal(n / 10);
    }
  }

  lemma DigitIs(d: nat)
    requires d < 10
    ensures '0' <= Digit(d) <= '9' && Digit(d) as nat - '0' as nat == d
  {
  }

  /** The card is another player's, and that player's seat has a name to say. */
  predicate IsNamedOthers(card: CardView, view: GameView, viewer: Option<string>) {
    && card.controller != "" && (viewer.None? || card.controller != viewer.value)
    && card.controller in view.seatNames && view.seatNames[card.controller] != ""
  }

  /** A token says so, another player's card says whose it is, and one's own plain card has nothing to tell. */
  lemma NoteIs(id: string, view: GameView, viewer: Option<string>)
    requires id in view.cards
    ensures var c := view.cards[id];
            Note(id, view, viewer)
            == if c.isToken then (if IsNamedOthers(c, view, viewer) then "token, " + view.seatNames[c.controller] + "'s" else "token")
               else if IsNamedOthers(c, view, viewer) then view.seatNames[c.controller] + "'s"
               else if viewer == Some(c.controller) then "yours" else ""
  {
    var c := view.cards[id];
    if IsNamedOthers(c, view, viewer) {
      var whose := view.seatNames[c.controller] + "'s";
      assert "token" + ", " + whose == "token, " + view.seatNames[c.controller] + "'s";
      assert "" + whose == whose;
    }
  }

  /** The cards a line names, in its order: no player, and nothing without an identifier. */
  lemma {:induction false} TargetCardsAre(targets: seq<WireTarget>, id: string)
    ensures id in TargetCardIDs(targets) <==> id != "" && exists t <- targets :: t.kind != "player" && t.id == id
  {
    if targets != [] {
      var rest, last := targets[..|targets| - 1], targets[|targets| - 1];
      TargetCardsAre(rest, id);
      assert targets == rest + [last];
    }
  }

  /** The card has something to say: it is a token, or some other named player's. */
  predicate Tells(id: string, view: GameView, viewer: Option<string>) {
    id in view.cards && (view.cards[id].isToken || IsNamedOthers(view.cards[id], view, viewer))
  }

  lemma NoteTells(id: string, view: GameView, viewer: Option<string>)
    ensures Tells(id, view, viewer) ==> Note(id, view, viewer) !in {"", "yours"}
    ensures !Tells(id, view, viewer) ==> Note(id, view, viewer) in {"", "yours"}
  {
    if id in view.cards {
      NoteIs(id, view, viewer);
      var c := view.cards[id];
      if IsNamedOthers(c, view, viewer) {
        assert (view.seatNames[c.controller] + "'s")[|view.seatNames[c.controller]|] == '\'';
        assert "yours"[0] == 'y' && "yours"[1] == 'o' && "yours"[2] == 'u' && "yours"[3] == 'r' && "yours"[4] == 's';
      }
      assert "token"[0] == 't';
    }
  }

  /** One of the cards the line names has something to say. */
  predicate Telling(m: Move, view: GameView, viewer: Option<string>) {
    exists t <- m.targets :: t.kind != "player" && t.id != "" && Tells(t.id, view, viewer)
  }

  function WithNotes(m: Move, view: GameView, viewer: Option<string>): string {
    m.text + " (" + Joined(Notes(TargetCardIDs(m.targets), view, viewer)) + ")"
  }

  lemma QualifiedWhenTelling(m: Move, view: GameView, viewer: Option<string>)
    ensures Qualified(m, view, viewer) == if Telling(m, view, viewer) then WithNotes(m, view, viewer) else m.text
  {
    var ids := TargetCardIDs(m.targets);
    var notes := Notes(ids, view, viewer);
    if Telling(m, view, viewer) {
      var t :| t in m.targets && t.kind != "player" && t.id != "" && Tells(t.id, view, viewer);
      TargetCardsAre(m.targets, t.id);
      NoteTells(t.id, view, viewer);
      var k :| 0 <= k < |ids| && ids[k] == t.id;
      assert notes[k] in notes;
    } else {
      forall k | 0 <= k < |ids| ensures notes[k] == "" || notes[k] == "yours" {
        TargetCardsAre(m.targets, ids[k]);
        NoteTells(ids[k], view, viewer);
      }
    }
  }

  /** A line gets its targets' notes exactly when another line shares its label and one of its cards has something to say. */
  lemma QualifiedIff(moves: seq<Move>, view: GameView, viewer: Option<string>, i: nat)
    requires i < |moves|
    ensures QualifiedLabels(moves, view, viewer)[i]
         == if Telling(moves[i], view, viewer) && exists j :: 0 <= j < |moves| && j != i && moves[j].text == moves[i].text
            then WithNotes(moves[i], view, viewer) else moves[i].text
  {
    SharedIff(Texts(moves), i);
    QualifiedWhenTelling(moves[i], view, viewer);
    assert forall j :: 0 <= j < |moves| ==> Texts(moves)[j] == moves[j].text;
  }

  lemma SharedIff(texts: seq<string>, i: nat)
    requires i < |texts|
    ensures Count(texts, texts[i]) >= 2 <==> exists j :: 0 <= j < |texts| && j != i && texts[j] == texts[i]
  {
    if Count(texts, texts[i]) >= 2 {
      var j := AnotherOne(texts, i);
    }
    if j :| 0 <= j < |texts| && j != i && texts[j] == texts[i] {
      LaterCountsMore(texts, if i < j then i else j, if i < j then j else i);
    }
  }

  function NoteOrDash(n: string): string {
    if n == "" then "\U{2014}" else n
  }

  /** The notes are told in order, apart from each other, with a dash for a card that has none. */
  lemma {:induction false} JoinedMore(notes: seq<string>, last: string)
    ensures Joined([last]) == NoteOrDash(last)
    ensures notes != [] ==> Joined(notes + [last]) == Joined(notes) + "; " + NoteOrDash(last)
  {
    if |notes| == 1 {
      assert (notes + [last])[1..] == [last];
    } else if |notes| > 1 {
      assert (notes + [last])[1..] == notes[1..] + [last];
      JoinedMore(notes[1..], last);
      var first := NoteOrDash(notes[0]);
      assert first + "; " + (Joined(notes[1..]) + "; " + NoteOrDash(last)) == first + "; " + Joined(notes[1..]) + "; " + NoteOrDash(last);
    }
  }
}
