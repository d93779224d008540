/** The rules of the Klondike game, on values: cards, the thirteen piles, and what one move does to them.
    A layout lists the piles in one fixed order: stock, waste, four foundations, seven tableau columns. */
module KlondikeRules {
  import opened Sequences

  const STOCK := 0
  const WASTE := 1
  const FIRST_FOUNDATION := 2
  const FIRST_COLUMN := 6
  const PILES := 13
  const PILE_ROOM := 24
  const DECK := 52

  const HEARTS := 0
  const DIAMONDS := 1

  /** Suits run 0..3 (hearts, diamonds, clubs, spades), values 1 (ace) to 13 (king). */
  datatype Card = Card(value: int, suit: int, faceUp: bool)

  /** A card without its orientation. */
  type Name = (int, int)

  type Layout = ps: seq<seq<Card>> | |ps| == PILES witness seq(PILES, _ => [])

  predicate IsFoundation(k: int) { FIRST_FOUNDATION <= k < FIRST_COLUMN }

  predicate IsColumn(k: int) { FIRST_COLUMN <= k < PILES }

  /** The piles the foundation moves of the auto-finish take cards from. */
  predicate IsSource(k: int) { k == WASTE || IsColumn(k) }

  predicate IsRed(suit: int) { suit == HEARTS || suit == DIAMONDS }

  function Up(c: Card): Card { c.(faceUp := true) }

  function Down(c: Card): Card { c.(faceUp := false) }

  function RevealTop(p: seq<Card>): seq<Card> {
    if p == [] then p else p[|p| - 1 := Up(Last(p))]
  }

  // ---------------------------------------------------------------- what the game allows

  /** Card b may lie on card a in a column. */
  predicate Follows(a: Card, b: Card) {
    IsRed(a.suit) != IsRed(b.suit) && a.value - 1 == b.value
  }

  /** Pile k, holding p, accepts card c. */
  predicate CanPlaceOn(c: Card, k: int, p: seq<Card>) {
    if IsFoundation(k) then
      if p == [] then c.value == 1 && c.suit == k - FIRST_FOUNDATION
      else Last(p).suit == c.suit && Last(p).value + 1 == c.value
    else if IsColumn(k) then
      if p == [] then c.value == 13 else Last(p).faceUp && Follows(Last(p), c)
    else false
  }

  /** A run of cards may be dragged off pile k, holding p, from index i on. */
  ghost predicate CanDragFrom(k: int, p: seq<Card>, i: nat)
    requires i < |p|
  {
    if k == WASTE || IsFoundation(k) then i == |p| - 1
    else if IsColumn(k) then
      p[i].faceUp && forall j, j' :: i <= j < j' < |p| && j' == j + 1 ==> p[j'].faceUp && Follows(p[j], p[j'])
    else false
  }

  // ---------------------------------------------------------------- what a move does

  /** The last n cards of src go to dst; a column that gave cards away turns its new top face up. */
  function MoveRun(ps: Layout, src: nat, n: nat, dst: nat): Layout
    requires src < PILES && dst < PILES && n <= |ps[src]|
  {
    var at := |ps[src]| - n;
    var put := ps[src := ps[src][..at]];
    var put' := put[dst := put[dst] + ps[src][at..]];
    if IsColumn(src) then put'[src := RevealTop(put'[src])] else put'
  }

  /** The conditions the drag (or the flight) checked before such a move. */
  ghost predicate LegalMove(ps: Layout, src: nat, n: nat, dst: nat) {
    && src < PILES && dst < PILES && 0 < n <= |ps[src]|
    && CanDragFrom(src, ps[src], |ps[src]| - n)
    && (IsFoundation(dst) ==> n == 1)
    && CanPlaceOn(ps[src][|ps[src]| - n], dst, if src == dst then ps[src][..|ps[src]| - n] else ps[dst])
  }

  function Reversed(p: seq<Card>): seq<Card> {
    seq(|p|, j requires 0 <= j < |p| => Down(p[|p| - 1 - j]))
  }

  /** One press on the stock: turn a card over to the waste, or turn the whole waste back. */
  function DrawMove(ps: Layout): Layout {
    if ps[STOCK] != [] then ps[STOCK := Front(ps[STOCK])][WASTE := ps[WASTE] + [Up(Last(ps[STOCK]))]]
    else ps[STOCK := Reversed(ps[WASTE])][WASTE := []]
  }

  function Triangle(i: nat): nat { i * (i + 1) / 2 }

  /** Column i gets i+1 cards with the last one turned up; the other 24 cards are the stock. */
  function Deal(deck: seq<Card>): Layout
    requires |deck| == DECK
  {
    seq(PILES, k requires 0 <= k < PILES =>
      if k == STOCK then deck[28..]
      else if IsColumn(k) then RevealTop(deck[Triangle(k - 6)..Triangle(k - 5)])
      else [])
  }

  // ---------------------------------------------------------------- the cards of a layout

  function NameOf(c: Card): Name { (c.value, c.suit) }

  predicate InDeck(x: Name) { 1 <= x.0 <= 13 && 0 <= x.1 < 4 }

  /** How often the card named x lies in pile p. */
  ghost function Times(p: seq<Card>, x: Name): nat {
    if p == [] then 0 else Times(Front(p), x) + if NameOf(Last(p)) == x then 1 else 0
  }

  /** How often the card named x lies in any of the piles. */
  ghost function Tally(ps: seq<seq<Card>>, x: Name): nat {
    if ps == [] then 0 else Tally(Front(ps), x) + Times(Last(ps), x)
  }

  /** The deck in the order it is built: suit after suit, ace to king, all face down. */
  function NewDeck(): seq<Card> { seq(DECK, k => Card(k % 13 + 1, k / 13, false)) }

  /** Each of the 52 cards exactly once. */
  ghost predicate FullDeck(p: seq<Card>) {
    |p| == DECK && forall x :: Times(p, x) == if InDeck(x) then 1 else 0
  }

  function FoundationTotal(ps: Layout): nat { |ps[2]| + |ps[3]| + |ps[4]| + |ps[5]| }

  /** The number of cards in the piles. */
  function Size(ps: seq<seq<Card>>): nat {
    if ps == [] then 0 else Size(Front(ps)) + |Last(ps)|
  }

  lemma {:induction false} TimesConcat(p: seq<Card>, q: seq<Card>, x: Name)
    ensures Times(p + q, x) == Times(p, x) + Times(q, x)
  {
    if q == [] {
      assert p + q == p;
    } else {
      assert Front(p + q) == p + Front(q);
      TimesConcat(p, Front(q), x);
    }
  }

  /** Replacing one card changes the count by exactly that card. */
  lemma {:induction false} TimesUpdate(p: seq<Card>, i: nat, c: Card, x: Name)
    requires i < |p|
    ensures Times(p[i := c], x) == Times(p, x)
      - (if NameOf(p[i]) == x then 1 else 0) + (if NameOf(c) == x then 1 else 0)
  {
    if i == |p| - 1 {
      assert Front(p[i := c]) == Front(p);
    } else {
      TimesUpdate(Front(p), i, c, x);
      assert Front(p[i := c]) == Front(p)[i := c];
    }
  }

  lemma TimesReveal(p: seq<Card>, x: Name)
    ensures Times(RevealTop(p), x) == Times(p, x)
  {
    if p != [] { TimesUpdate(p, |p| - 1, Up(Last(p)), x); }
  }

  lemma {:induction false} TimesReversed(p: seq<Card>, x: Name)
    ensures Times(Reversed(p), x) == Times(p, x)
  {
    if p != [] {
      TimesReversed(Front(p), x);
      assert Reversed(p) == [Down(Last(p))] + Reversed(Front(p));
      TimesConcat([Down(Last(p))], Reversed(Front(p)), x);
    }
  }

  lemma {:induction false} TimesHas(p: seq<Card>, i: nat)
    requires i < |p|
    ensures Times(p, NameOf(p[i])) > 0
  {
    if i < |p| - 1 { TimesHas(Front(p), i); }
  }

  lemma {:induction false} DistinctOnce(p: seq<Card>, x: Name)
    requires forall i, j :: 0 <= i < j < |p| ==> NameOf(p[i]) != NameOf(p[j])
    ensures Times(p, x) == if exists i :: 0 <= i < |p| && NameOf(p[i]) == x then 1 else 0
  {
    if p != [] { DistinctOnce(Front(p), x); }
  }

  lemma NewDeckFull()
    ensures FullDeck(NewDeck())
  {
    var p := NewDeck();
    forall x ensures Times(p, x) == if InDeck(x) then 1 else 0 {
      DistinctOnce(p, x);
      if InDeck(x) { assert NameOf(p[x.1 * 13 + x.0 - 1]) == x; }
    }
  }

  /** Replacing one pile changes the count by exactly that pile. */
  lemma {:induction false} TallyUpdate(ps: seq<seq<Card>>, k: nat, p: seq<Card>, x: Name)
    requires k < |ps|
    ensures Tally(ps[k := p], x) == Tally(ps, x) - Times(ps[k], x) + Times(p, x)
  {
    if k == |ps| - 1 {
      assert Front(ps[k := p]) == Front(ps);
    } else {
      TallyUpdate(Front(ps), k, p, x);
      assert Front(ps[k := p]) == Front(ps)[k := p];
    }
  }

  lemma {:induction false} SizeUpdate(ps: seq<seq<Card>>, k: nat, p: seq<Card>)
    requires k < |ps|
    ensures Size(ps[k := p]) == Size(ps) - |ps[k]| + |p|
  {
    if k == |ps| - 1 {
      assert Front(ps[k := p]) == Front(ps);
    } else {
      SizeUpdate(Front(ps), k, p);
      assert Front(ps[k := p]) == Front(ps)[k := p];
    }
  }

  /** With every foundation set aside, the other piles hold the rest. */
  lemma SizeSplit(ps: Layout)
    ensures Size(ps) == |ps[0]| + |ps[1]| + FoundationTotal(ps)
                        + |ps[6]| + |ps[7]| + |ps[8]| + |ps[9]| + |ps[10]| + |ps[11]| + |ps[12]|
  {
    assert ps[..13] == ps;
    SizePrefix(ps, 12); SizePrefix(ps, 11); SizePrefix(ps, 10); SizePrefix(ps, 9); SizePrefix(ps, 8);
    SizePrefix(ps, 7); SizePrefix(ps, 6); SizePrefix(ps, 5); SizePrefix(ps, 4); SizePrefix(ps, 3);
    SizePrefix(ps, 2); SizePrefix(ps, 1); SizePrefix(ps, 0);
  }

  lemma SizePrefix(ps: Layout, n: nat)
    requires n < 13
    ensures Size(ps[..n+1]) == Size(ps[..n]) + |ps[n]|
  {
    assert Front(ps[..n+1]) == ps[..n];
  }

  lemma {:induction false} TallyHas(ps: seq<seq<Card>>, k: nat, i: nat)
    requires k < |ps| && i < |ps[k]|
    ensures Tally(ps, NameOf(ps[k][i])) > 0
  {
    if k == |ps| - 1 { TimesHas(ps[k], i); } else { TallyHas(Front(ps), k, i); }
  }

  /** A card lying in two piles is counted twice. */
  lemma {:induction false} TallyHasTwice(ps: seq<seq<Card>>, k: nat, i: nat, k': nat, i': nat)
    requires k < k' < |ps| && i < |ps[k]| && i' < |ps[k']|
    requires NameOf(ps[k][i]) == NameOf(ps[k'][i'])
    ensures Tally(ps, NameOf(ps[k][i])) >= 2
  {
    if k' == |ps| - 1 {
      TimesHas(ps[k'], i');
      TallyHas(Front(ps), k, i);
    } else {
      TallyHasTwice(Front(ps), k, i, k', i');
    }
  }

  // ---------------------------------------------------------------- the shape of the piles

  predicate AllUp(p: seq<Card>) { forall j :: 0 <= j < |p| ==> p[j].faceUp }

  predicate AllDown(p: seq<Card>) { forall j :: 0 <= j < |p| ==> !p[j].faceUp }

  /** Foundation slot `suit` holds ace, two, ... of its own suit. */
  predicate Ranks(suit: int, p: seq<Card>) {
    forall j :: 0 <= j < |p| ==> p[j] == Card(j + 1, suit, true)
  }

  /** Column i: at most i cards face down, then a face-up run going down by one in alternating colours. */
  ghost predicate ColumnShape(i: int, p: seq<Card>) {
    && (forall j :: 0 <= j < |p| && i <= j ==> p[j].faceUp)
    && (forall j, j' :: 0 <= j < j' < |p| && j' == j + 1 && p[j].faceUp ==> p[j'].faceUp && Follows(p[j], p[j']))
  }

  predicate TopUp(p: seq<Card>) { p != [] ==> Last(p).faceUp }

  ghost predicate PileShape(k: int, p: seq<Card>) {
    && (k == STOCK ==> AllDown(p))
    && (k == WASTE ==> AllUp(p))
    && (IsFoundation(k) ==> Ranks(k - FIRST_FOUNDATION, p))
    && (IsColumn(k) ==> ColumnShape(k - FIRST_COLUMN, p))
  }

  ghost predicate Shape(ps: Layout) {
    && (forall k :: 0 <= k < PILES ==> PileShape(k, ps[k]))
    && |ps[STOCK]| + |ps[WASTE]| <= PILE_ROOM
  }

  /** What every settled layout of a game satisfies; lost are the cards the game has let fall. */
  ghost predicate Sound(ps: Layout, lost: seq<Card>) {
    && Shape(ps)
    && (lost == [] ==> forall k :: IsColumn(k) ==> TopUp(ps[k]))
    && Size(ps) + |lost| == DECK
    && (forall x :: Tally(ps, x) + Times(lost, x) == if InDeck(x) then 1 else 0)
  }

  /** What any part of a game's cards still satisfies, and all that the foundation moves rely on. */
  ghost predicate Part(ps: Layout) {
    && (forall k :: IsFoundation(k) ==> Ranks(k - FIRST_FOUNDATION, ps[k]))
    && Size(ps) <= DECK
    && (forall x :: Tally(ps, x) <= if InDeck(x) then 1 else 0)
  }

  /** Every card of such a layout is one of the 52, and lies in one place only. */
  lemma PartCards(ps: Layout, k: nat, i: nat)
    requires Part(ps) && k < PILES && i < |ps[k]|
    ensures 1 <= ps[k][i].value <= 13 && 0 <= ps[k][i].suit < 4
    ensures forall k', i' :: 0 <= k' < PILES && 0 <= i' < |ps[k']| && k' != k ==> NameOf(ps[k'][i']) != NameOf(ps[k][i])
  {
    var x := NameOf(ps[k][i]);
    TallyHas(ps, k, i);
    forall k', i' | 0 <= k' < PILES && 0 <= i' < |ps[k']| && k' != k ensures NameOf(ps[k'][i']) != x {
      if NameOf(ps[k'][i']) == x {
        if k < k' { TallyHasTwice(ps, k, i, k', i'); } else { TallyHasTwice(ps, k', i', k, i); }
      }
    }
  }

  /** A face-up run descends by one card at a time. */
  lemma {:induction false} RunValues(i: int, p: seq<Card>, a: nat, b: nat)
    requires ColumnShape(i, p) && a <= b < |p| && p[a].faceUp
    ensures p[b].faceUp && p[b].value == p[a].value - (b - a)
    decreases b
  {
    if a < b {
      RunValues(i, p, a, b - 1);
      assert Follows(p[b-1], p[b]);
    }
  }

  /** No pile outgrows its array: a foundation has at most 13 cards, column i at most i + 13 (so 19), a run at
      most 13. */
  lemma PileBounds(ps: Layout)
    requires Shape(ps) && Part(ps)
    ensures forall k :: IsFoundation(k) ==> |ps[k]| <= 13
    ensures forall k :: IsColumn(k) ==> |ps[k]| <= k - FIRST_COLUMN + 13 <= 19
    ensures forall k, i {:trigger ps[k][i].faceUp} :: IsColumn(k) && 0 <= i < |ps[k]| && ps[k][i].faceUp ==>
      |ps[k]| - i <= 13
  {
    forall k | IsFoundation(k) ensures |ps[k]| <= 13 {
      if |ps[k]| > 0 { PartCards(ps, k, |ps[k]| - 1); }
    }
    forall k, i {:trigger ps[k][i].faceUp} | IsColumn(k) && 0 <= i < |ps[k]| && ps[k][i].faceUp
      ensures |ps[k]| - i <= 13 {
      RunBound(ps, k, i);
    }
    forall k | IsColumn(k) ensures |ps[k]| <= k - FIRST_COLUMN + 13 {
      var i := k - FIRST_COLUMN;
      if i < |ps[k]| {
        assert ps[k][i].faceUp;
        RunBound(ps, k, i);
      }
    }
  }

  lemma RunBound(ps: Layout, k: nat, i: nat)
    requires Part(ps) && IsColumn(k) && ColumnShape(k - FIRST_COLUMN, ps[k])
    requires i < |ps[k]| && ps[k][i].faceUp
    ensures |ps[k]| - i <= 13
  {
    RunValues(k - FIRST_COLUMN, ps[k], i, |ps[k]| - 1);
    PartCards(ps, k, i);
    PartCards(ps, k, |ps[k]| - 1);
  }

  // ---------------------------------------------------------------- moves keep the layout sound

  /** Moving cards between piles neither loses nor copies one. */
  lemma MoveRunTally(ps: Layout, src: nat, n: nat, dst: nat, x: Name)
    requires src < PILES && dst < PILES && n <= |ps[src]|
    ensures Tally(MoveRun(ps, src, n, dst), x) == Tally(ps, x)
  {
    var at := |ps[src]| - n;
    var left, run := ps[src][..at], ps[src][at..];
    var put := ps[src := left];
    TallyUpdate(ps, src, left, x);
    assert ps[src] == left + run;
    TimesConcat(left, run, x);
    var landed := put[dst] + run;
    TallyUpdate(put, dst, landed, x);
    TimesConcat(put[dst], run, x);
    var put' := put[dst := landed];
    TallyUpdate(put', src, RevealTop(put'[src]), x);
    TimesReveal(put'[src], x);
  }

  lemma MoveRunSize(ps: Layout, src: nat, n: nat, dst: nat)
    requires src < PILES && dst < PILES && n <= |ps[src]|
    ensures Size(MoveRun(ps, src, n, dst)) == Size(ps)
  {
    var at := |ps[src]| - n;
    var put := ps[src := ps[src][..at]];
    var landed := put[dst] + ps[src][at..];
    var put' := put[dst := landed];
    SizeUpdate(ps, src, ps[src][..at]);
    SizeUpdate(put, dst, landed);
    SizeUpdate(put', src, RevealTop(put'[src]));
  }

  lemma MoveRunSound(ps: Layout, src: nat, n: nat, dst: nat, lost: seq<Card>)
    requires Sound(ps, lost) && LegalMove(ps, src, n, dst)
    ensures Sound(MoveRun(ps, src, n, dst), lost)
  {
    var qs := MoveRun(ps, src, n, dst);
    MoveRunSize(ps, src, n, dst);
    forall x ensures Tally(qs, x) == Tally(ps, x) { MoveRunTally(ps, src, n, dst, x); }
    MoveRunShape(ps, src, n, dst);
  }

  lemma MoveRunShape(ps: Layout, src: nat, n: nat, dst: nat)
    requires Shape(ps) && LegalMove(ps, src, n, dst)
    ensures Shape(MoveRun(ps, src, n, dst))
    ensures forall k :: IsColumn(k) && TopUp(ps[k]) ==> TopUp(MoveRun(ps, src, n, dst)[k])
  {
    var qs := MoveRun(ps, src, n, dst);
    MoveRunPiles(ps, src, n, dst);
    forall k | 0 <= k < PILES ensures PileShape(k, qs[k]) && (IsColumn(k) && TopUp(ps[k]) ==> TopUp(qs[k])) {
      assert PileShape(k, ps[k]);
      assert PileShape(src, ps[src]);
      if k == src || k == dst {
        MovedPileShape(ps[src], src, |ps[src]| - n, ps[dst], dst, qs[src], qs[dst]);
      } else {
        assert qs[k] == ps[k];
      }
    }
  }

  /** The two piles of a move, before (p, q) and after (p', q'). */
  lemma MovedPileShape(p: seq<Card>, src: nat, at: nat, q: seq<Card>, dst: nat, p': seq<Card>, q': seq<Card>)
    requires src < PILES && dst < PILES && at < |p|
    requires PileShape(src, p) && PileShape(dst, q)
    requires CanDragFrom(src, p, at)
    requires IsFoundation(dst) ==> at == |p| - 1
    requires CanPlaceOn(p[at], dst, if src == dst then p[..at] else q)
    requires src == dst ==> p == q && p' == q'
    requires src == dst ==> p' == if IsColumn(src) then RevealTop(p[..at] + p[at..]) else p[..at] + p[at..]
    requires src != dst ==> q' == q + p[at..] && p' == if IsColumn(src) then RevealTop(p[..at]) else p[..at]
    ensures PileShape(src, p') && (IsColumn(src) ==> TopUp(p'))
    ensures PileShape(dst, q') && (IsColumn(dst) ==> TopUp(q'))
  {
    if src == dst {
      DraggedRunUp(src, p, at);
      SamePile(p, src, at, p');
    } else {
      DraggedRunUp(src, p, at);
      LandShape(q, p[at..], dst);
      if IsColumn(src) { RevealShape(src - FIRST_COLUMN, p, at); } else { FrontShape(p, src, at); }
    }
  }

  lemma SamePile(p: seq<Card>, k: nat, at: nat, p': seq<Card>)
    requires at < |p| && (IsColumn(k) ==> AllUp(p[at..]))
    requires p' == if IsColumn(k) then RevealTop(p[..at] + p[at..]) else p[..at] + p[at..]
    ensures p' == p && (IsColumn(k) ==> TopUp(p))
  {
    assert p[..at] + p[at..] == p;
    assert Last(p) == p[at..][|p| - at - 1];
  }

  lemma FrontShape(p: seq<Card>, k: nat, at: nat)
    requires PileShape(k, p) && at <= |p| && !IsColumn(k)
    ensures PileShape(k, p[..at])
  {
  }

  /** What each pile holds after a move between different piles. */
  lemma MoveRunPiles(ps: Layout, src: nat, n: nat, dst: nat)
    requires src < PILES && dst < PILES && n <= |ps[src]|
    ensures var qs, at := MoveRun(ps, src, n, dst), |ps[src]| - n;
            && (forall k :: 0 <= k < PILES && k != src && k != dst ==> qs[k] == ps[k])
            && (src != dst ==> qs[dst] == ps[dst] + ps[src][at..])
            && (src != dst ==> qs[src] == if IsColumn(src) then RevealTop(ps[src][..at]) else ps[src][..at])
            && (src == dst ==> qs[src] == if IsColumn(src) then RevealTop(ps[src][..at] + ps[src][at..])
              else ps[src][..at] + ps[src][at..])
  {
  }

  /** A column that gave cards away and turned its new top up is again a column. */
  lemma RevealShape(i: int, p: seq<Card>, at: nat)
    requires ColumnShape(i, p) && at < |p|
    ensures ColumnShape(i, RevealTop(p[..at])) && TopUp(RevealTop(p[..at]))
  {
  }

  lemma DraggedRunUp(k: nat, p: seq<Card>, at: nat)
    requires at < |p| && CanDragFrom(k, p, at)
    requires k == WASTE ==> AllUp(p)
    requires IsFoundation(k) ==> Ranks(k - FIRST_FOUNDATION, p)
    ensures AllUp(p[at..])
    ensures forall j, j' :: at <= j < j' < |p| && j' == j + 1 ==> Follows(p[j], p[j'])
  {
    forall j | at <= j < |p| ensures p[j].faceUp {
      if IsColumn(k) && j > at {
        var i := j - 1;
        assert at <= i < j && Follows(p[i], p[j]);
      }
    }
    forall j | 0 <= j < |p| - at ensures p[at..][j].faceUp { assert p[at..][j] == p[at + j]; }
  }

  /** An accepted run of face-up cards keeps the shape of the pile it lands on. */
  lemma LandShape(p: seq<Card>, run: seq<Card>, dst: nat)
    requires run != [] && AllUp(run) && CanPlaceOn(run[0], dst, p)
    requires IsColumn(dst) ==> forall j, j' :: 0 <= j < j' < |run| && j' == j + 1 ==> Follows(run[j], run[j'])
    requires IsFoundation(dst) ==> |run| == 1
    ensures IsFoundation(dst) && Ranks(dst - FIRST_FOUNDATION, p) ==> Ranks(dst - FIRST_FOUNDATION, p + run)
    ensures IsColumn(dst) && ColumnShape(dst - FIRST_COLUMN, p) ==>
      ColumnShape(dst - FIRST_COLUMN, p + run) && TopUp(p + run)
  {
  }
}
