/** The whole game as a state machine: what each event does to the piles, the dragged run, the card in flight and
    the two flags, what every reachable state satisfies, and what the auto-finish promises. */
module KlondikeBoard {
  import opened Sequences
  import opened KlondikeRules
  import opened KlondikeFinish

  type PileId = k: int | 0 <= k < PILES

  datatype Held = NoDrag | Drag(src: PileId, cards: seq<Card>)

  datatype Flight =
    | NoFlight
    | Flight(card: Card, src: PileId, dst: PileId, turnUp: bool, trigger: bool, step: int, steps: int)

  /** lost is a history: the cards of the runs that a resize took out of the player's hand in this game. */
  datatype Board = Board(piles: Layout, drag: Held, flight: Flight, won: bool, auto: bool, lost: seq<Card>)

  /** What can reach the game. `hops` is the length of a flight on the screen, in steps of the animation. */
  datatype Event =
    | NewGame(deck: seq<Card>)
    | Draw
    | BeginDrag(pile: nat, index: int)
    | Drop(target: int)
    | DoubleClick(at: nat, hops: nat)
    | Tick(hops: nat)
    | Resize

  const MIN_STEPS := 6
  const MAX_STEPS := 8
  const TIME_STEPS := (200 * 30 + 999) / 1000

  function Clamp(v: int, lo: int, hi: int): int { if v < lo then lo else if v > hi then hi else v }

  function FlightSteps(hops: nat): int { Clamp(TIME_STEPS + hops / 3, MIN_STEPS, MAX_STEPS) }

  // ---------------------------------------------------------------- the transitions

  ghost predicate ColumnsUp(ps: Layout) { forall k :: IsColumn(k) ==> AllUp(ps[k]) }

  ghost predicate CanAutoFinish(b: Board) {
    !b.won && b.piles[STOCK] == [] && ColumnsUp(b.piles) && Winnable(b.piles)
  }

  ghost function Request(b: Board): Board {
    if b.auto || b.flight.Flight? || !CanAutoFinish(b) then b else b.(auto := true)
  }

  function CheckWin(b: Board): Board {
    if FoundationTotal(b.piles) == DECK && !b.won then b.(won := true) else b
  }

  ghost function DrawFromStock(b: Board): Board {
    if b.piles[STOCK] == [] && b.piles[WASTE] == [] then b else Request(b.(piles := DrawMove(b.piles)))
  }

  ghost function StartDrag(b: Board, k: nat, i: int): Board
    requires k < PILES && i < |b.piles[k]|
  {
    if i < 0 || !CanDragFrom(k, b.piles[k], i) then b
    else b.(piles := b.piles[k := b.piles[k][..i]], drag := Drag(k, b.piles[k][i..]))
  }

  /** A press held while its column shrank starts a drag from index i past the end: it takes no card, and the
      count grows to i over what the slots of the array still hold. */
  function StaleDrag(b: Board, k: PileId, slots: seq<Card>, i: nat): Board
    requires |b.piles[k]| <= i <= |slots|
  {
    b.(piles := b.piles[k := b.piles[k] + slots[|b.piles[k]|..i]], drag := Drag(k, []))
  }

  /** The dragged run may land on pile k. */
  predicate Accepts(b: Board, k: int)
    requires b.drag.Drag?
  {
    b.drag.cards != [] && (IsFoundation(k) || IsColumn(k)) && (IsFoundation(k) ==> |b.drag.cards| == 1)
    && CanPlaceOn(b.drag.cards[0], k, b.piles[k])
  }

  function LandRun(b: Board, dst: PileId): Layout
    requires b.drag.Drag? && b.drag.cards != []
  {
    var ps := b.piles[dst := b.piles[dst] + if IsFoundation(dst) then b.drag.cards[..1] else b.drag.cards];
    if IsColumn(b.drag.src) then ps[b.drag.src := RevealTop(ps[b.drag.src])] else ps
  }

  /** Releasing the run over a pile that accepts it, or over none (target -1): it goes back. */
  ghost function DropRun(b: Board, target: int): Board
    requires b.drag.Drag? && b.drag.cards != [] && -1 <= target < PILES
  {
    if target == -1 then
      b.(piles := b.piles[b.drag.src := b.piles[b.drag.src] + b.drag.cards], drag := NoDrag)
    else
      var b' := CheckWin(b.(piles := LandRun(b, target), drag := NoDrag));
      if b'.won then b' else Request(b')
  }

  function TakeOff(b: Board, k: PileId, dst: PileId, trigger: bool, steps: int): Board
    requires b.piles[k] != []
  {
    b.(piles := b.piles[k := Front(b.piles[k])],
       flight := Flight(Last(b.piles[k]), k, dst, IsColumn(k) && |b.piles[k]| > 1, trigger, 0, steps))
  }

  function DoubleClickOn(b: Board, k: nat, hops: nat): Board
    requires k < PILES
  {
    var p := b.piles[k];
    if k == STOCK || p == [] || (IsColumn(k) && !Last(p).faceUp) || Slot(b.piles, Last(p)) == -1 then b
    else TakeOff(b, k, Slot(b.piles, Last(p)), true, FlightSteps(hops))
  }

  function LandFlight(b: Board): Layout
    requires b.flight.Flight?
  {
    var f := b.flight;
    var ps := if f.turnUp then b.piles[f.src := RevealTop(b.piles[f.src])] else b.piles;
    ps[f.dst := ps[f.dst] + [f.card]]
  }

  ghost function Finish(b: Board): Board
  {
    if b.flight == NoFlight then b
    else
      var b' := CheckWin(b.(piles := LandFlight(b), flight := NoFlight));
      if b'.won then b'.(auto := false) else if b.flight.trigger then Request(b') else b'
  }

  /** The first column from k on whose top card can go up, or -1. */
  function NextColumn(ps: Layout, k: int): (r: int)
    requires FIRST_COLUMN <= k <= PILES
    ensures r == -1 || (k <= r < PILES && CanLift(ps, r))
    ensures r == -1 ==> forall j :: k <= j < PILES ==> !CanLift(ps, j)
    decreases PILES - k
  {
    if k == PILES then -1 else if CanLift(ps, k) then k else NextColumn(ps, k + 1)
  }

  /** The waste if its top card can go up, else the first such column, else -1. */
  function NextLift(ps: Layout): (k: int)
    ensures k == -1 || CanLift(ps, k)
    ensures k == -1 ==> Stuck(ps)
  {
    if CanLift(ps, WASTE) then WASTE else NextColumn(ps, FIRST_COLUMN)
  }

  ghost function TimerTick(b: Board, hops: nat): Board
  {
    if b.flight.Flight? then
      if b.flight.step + 1 >= b.flight.steps then Finish(b) else b.(flight := b.flight.(step := b.flight.step + 1))
    else if b.auto then
      var k := NextLift(b.piles);
      if k == -1 then CheckWin(b.(auto := false))
      else TakeOff(b, k, Slot(b.piles, Last(b.piles[k])), false, FlightSteps(hops))
    else b
  }

  /** A resize lands the card in flight and stops the auto-finish, but a run in the player's hand is lost. */
  ghost function Resized(b: Board): Board {
    Finish(b).(auto := false, drag := NoDrag, lost := b.lost + if b.drag.Drag? then b.drag.cards else [])
  }

  function Start(deck: seq<Card>): Board
    requires |deck| == DECK
  {
    Board(Deal(deck), NoDrag, NoFlight, false, false, [])
  }

  /** While a card flies or the game finishes itself, the mouse and the draw key do nothing. */
  predicate Busy(b: Board) { b.auto || b.flight.Flight? }

  ghost predicate Shuffled(deck: seq<Card>) { FullDeck(deck) && AllDown(deck) }

  /** The events that get past the guards of the handlers. */
  ghost predicate Enabled(b: Board, e: Event) {
    match e
    case NewGame(deck) => Shuffled(deck)
    case Draw => !Busy(b)
    case BeginDrag(k, i) => !Busy(b) && b.drag == NoDrag && k < PILES && i < |b.piles[k]|
    case Drop(t) => !Busy(b) && b.drag.Drag? && b.drag.cards != [] && (t == -1 || Accepts(b, t))
    case DoubleClick(k, _) => !Busy(b) && b.drag == NoDrag && k < PILES
    case Tick(_) => true
    case Resize => true
  }

  ghost function Step(b: Board, e: Event): Board
    requires Enabled(b, e)
  {
    match e
    case NewGame(deck) => Start(deck)
    case Draw => DrawFromStock(b)
    case BeginDrag(k, i) => StartDrag(b, k, i)
    case Drop(t) => DropRun(b, t)
    case DoubleClick(k, hops) => DoubleClickOn(b, k, hops)
    case Tick(hops) => TimerTick(b, hops)
    case Resize => Resized(b)
  }

  // ---------------------------------------------------------------- the invariant

  /** The piles with the detached cards laid back where they came from. */
  function Whole(b: Board): Layout
  {
    if b.drag.Drag? then b.piles[b.drag.src := b.piles[b.drag.src] + b.drag.cards]
    else if b.flight.Flight? then b.piles[b.flight.src := b.piles[b.flight.src] + [b.flight.card]]
    else b.piles
  }

  ghost predicate DragInv(b: Board) {
    b.drag.Drag? ==>
      && b.drag.src != STOCK
      && b.drag.cards != [] && AllUp(b.drag.cards)
      && (!IsColumn(b.drag.src) ==> |b.drag.cards| == 1)
      && !b.auto && b.flight == NoFlight
  }

  ghost predicate FlightInv(b: Board) {
    b.flight.Flight? ==>
      && IsSource(b.flight.src) && IsFoundation(b.flight.dst)
      && b.flight.card.faceUp && CanPlaceOn(b.flight.card, b.flight.dst, b.piles[b.flight.dst])
      && b.flight.turnUp == (IsColumn(b.flight.src) && b.piles[b.flight.src] != [])
      && 0 <= b.flight.step < b.flight.steps && MIN_STEPS <= b.flight.steps <= MAX_STEPS
      && b.drag == NoDrag
  }

  /** The piles once the card in flight has landed. */
  function Landed(b: Board): Layout
  {
    if b.flight.Flight? then LandFlight(b) else b.piles
  }

  /** While the game finishes itself: it is not won yet, everything is open, and some order still wins. */
  ghost predicate AutoInv(b: Board)
  {
    b.auto ==> !b.won && b.piles[STOCK] == [] && ColumnsUp(b.piles) && Winnable(Landed(b))
  }

  ghost predicate Inv(b: Board) {
    && DragInv(b) && FlightInv(b)
    && Sound(Whole(b), b.lost)
    && (FoundationTotal(Whole(b)) == DECK ==> b.won)
    && AutoInv(b)
  }

  // ---------------------------------------------------------------- taking cards off and laying them back

  /** Splitting a pile and laying the end back changes nothing. */
  lemma SplitBack(ps: Layout, k: nat, i: nat)
    requires k < PILES && i <= |ps[k]|
    ensures var qs := ps[k := ps[k][..i]]; qs[k := qs[k] + ps[k][i..]] == ps
  {
    assert ps[k][..i] + ps[k][i..] == ps[k];
  }

  /** What is known of the piles while some cards are off them. */
  lemma RestOfWhole(ps: Layout, k: nat, run: seq<Card>, lost: seq<Card>)
    requires k < PILES && Sound(ps[k := ps[k] + run], lost)
    ensures Size(ps) + |run| + |lost| == DECK
    ensures forall x :: Tally(ps, x) + Times(run, x) + Times(lost, x) == if InDeck(x) then 1 else 0
    ensures Shape(ps) && Part(ps)
  {
    var w := ps[k := ps[k] + run];
    SizeUpdate(ps, k, ps[k] + run);
    forall x ensures Tally(w, x) == Tally(ps, x) + Times(run, x) {
      TallyUpdate(ps, k, ps[k] + run, x);
      TimesConcat(ps[k], run, x);
    }
    forall j | 0 <= j < PILES ensures PileShape(j, ps[j]) {
      assert PileShape(j, w[j]);
      if j == k { PrefixShape(k, ps[k], run); }
    }
    assert forall j :: IsFoundation(j) ==> PileShape(j, ps[j]);
  }

  lemma PrefixShape(k: nat, p: seq<Card>, run: seq<Card>)
    requires PileShape(k, p + run)
    ensures PileShape(k, p)
  {
    forall j | 0 <= j < |p| ensures p[j] == (p + run)[j] {}
  }

  /** The layout while nothing is detached. */
  lemma SettledFacts(b: Board)
    requires Inv(b) && b.drag == NoDrag && b.flight == NoFlight
    ensures Sound(b.piles, b.lost) && Part(b.piles)
    ensures forall k :: 0 <= k < PILES ==> PileShape(k, b.piles[k])
  {
    assert forall k :: IsFoundation(k) ==> PileShape(k, b.piles[k]);
  }

  lemma OpenWhenUp(ps: Layout)
    requires Shape(ps) && Part(ps) && ColumnsUp(ps)
    ensures Open(ps)
  {
    assert PileShape(WASTE, ps[WASTE]);
  }

  // ---------------------------------------------------------------- every event keeps the invariant

  lemma DealKept(deck: seq<Card>)
    requires Shuffled(deck)
    ensures Inv(Start(deck))
  {
    var ps := Deal(deck);
    forall x ensures Tally(ps, x) == Times(deck, x) { DealTally(deck, x); }
    DealTally(deck, (0, 0));
    forall k | 0 <= k < PILES ensures PileShape(k, ps[k]) && (IsColumn(k) ==> TopUp(ps[k])) {
      if IsColumn(k) {
        DealtSize(k - FIRST_COLUMN);
        DealtColumn(k, deck[Triangle(k - 6)..Triangle(k - 5)]);
      }
    }
  }

  lemma DealtColumn(k: nat, p: seq<Card>)
    requires IsColumn(k) && |p| == k - FIRST_COLUMN + 1 && AllDown(p)
    ensures PileShape(k, RevealTop(p)) && TopUp(RevealTop(p))
  {
  }

  lemma DealtSize(i: nat)
    requires i <= 6
    ensures Triangle(i + 1) == Triangle(i) + i + 1 && Triangle(i + 1) <= 28
  {
  }

  /** The columns are consecutive stretches of the deck. */
  lemma DealPrefix(deck: seq<Card>, i: nat, x: Name)
    requires |deck| == DECK && i <= 6
    ensures Triangle(i + 1) <= 28
    ensures Times(deck[..Triangle(i+1)], x) == Times(deck[..Triangle(i)], x) + Times(Deal(deck)[6+i], x)
    ensures |Deal(deck)[6+i]| == i + 1
  {
    DealtSize(i);
    var p := deck[Triangle(i)..Triangle(i+1)];
    assert deck[..Triangle(i+1)] == deck[..Triangle(i)] + p;
    TimesConcat(deck[..Triangle(i)], p, x);
    TimesReveal(p, x);
  }

  lemma TallyPrefix(ps: Layout, n: nat, x: Name)
    requires n < 13
    ensures Tally(ps[..n+1], x) == Tally(ps[..n], x) + Times(ps[n], x)
  {
    assert Front(ps[..n+1]) == ps[..n];
  }

  lemma {:induction false} DealtStock(deck: seq<Card>, n: nat, x: Name)
    requires |deck| == DECK && 1 <= n <= 6
    ensures Tally(Deal(deck)[..n], x) == Times(deck[28..], x) && Size(Deal(deck)[..n]) == 24
  {
    if n > 1 { DealtStock(deck, n - 1, x); }
    TallyPrefix(Deal(deck), n - 1, x);
    SizePrefix(Deal(deck), n - 1);
  }

  /** The stock and the first i columns hold what was dealt to them. */
  lemma {:induction false} DealtSoFar(deck: seq<Card>, i: nat, x: Name)
    requires |deck| == DECK && i <= 7
    ensures Triangle(i) <= 28
    ensures Tally(Deal(deck)[..6+i], x) == Times(deck[28..], x) + Times(deck[..Triangle(i)], x)
    ensures Size(Deal(deck)[..6+i]) == 24 + Triangle(i)
  {
    var ps := Deal(deck);
    if i == 0 {
      DealtStock(deck, 6, x);
    } else {
      DealtSoFar(deck, i - 1, x);
      DealPrefix(deck, i - 1, x);
      TallyPrefix(ps, 5 + i, x);
      SizePrefix(ps, 5 + i);
    }
  }

  lemma DealTally(deck: seq<Card>, x: Name)
    requires |deck| == DECK
    ensures Tally(Deal(deck), x) == Times(deck, x)
    ensures Size(Deal(deck)) == DECK
  {
    DealtSoFar(deck, 7, x);
    assert Deal(deck)[..13] == Deal(deck) && deck == deck[..28] + deck[28..];
    TimesConcat(deck[..28], deck[28..], x);
  }

  lemma DrawMoveTally(ps: Layout, x: Name)
    ensures Tally(DrawMove(ps), x) == Tally(ps, x)
  {
    if ps[STOCK] != [] {
      var c := Last(ps[STOCK]);
      var qs := ps[STOCK := Front(ps[STOCK])];
      TallyUpdate(ps, STOCK, Front(ps[STOCK]), x);
      TallyUpdate(qs, WASTE, ps[WASTE] + [Up(c)], x);
      TimesConcat(ps[WASTE], [Up(c)], x);
      assert Front([Up(c)]) == [];
    } else {
      var qs := ps[STOCK := Reversed(ps[WASTE])];
      TallyUpdate(ps, STOCK, Reversed(ps[WASTE]), x);
      TallyUpdate(qs, WASTE, [], x);
      TimesReversed(ps[WASTE], x);
    }
  }

  lemma DrawnPiles(ps: Layout)
    requires AllDown(ps[STOCK]) && AllUp(ps[WASTE])
    ensures AllDown(DrawMove(ps)[STOCK]) && AllUp(DrawMove(ps)[WASTE])
  {
    if ps[STOCK] != [] {
      assert DrawMove(ps)[STOCK] == Front(ps[STOCK]);
    } else {
      var p := ps[WASTE];
      forall j | 0 <= j < |p| ensures !Reversed(p)[j].faceUp { assert Reversed(p)[j] == Down(p[|p| - 1 - j]); }
    }
  }

  lemma DrawMoveSize(ps: Layout)
    ensures Size(DrawMove(ps)) == Size(ps)
  {
    if ps[STOCK] != [] {
      var qs := ps[STOCK := Front(ps[STOCK])];
      SizeUpdate(ps, STOCK, Front(ps[STOCK]));
      SizeUpdate(qs, WASTE, ps[WASTE] + [Up(Last(ps[STOCK]))]);
    } else {
      var qs := ps[STOCK := Reversed(ps[WASTE])];
      SizeUpdate(ps, STOCK, Reversed(ps[WASTE]));
      SizeUpdate(qs, WASTE, []);
    }
  }

  /** Drawing keeps the layout sound, even while a run taken off pile k is in the player's hand. */
  lemma DrawMoveSound(ps: Layout, k: nat, run: seq<Card>, lost: seq<Card>)
    requires 0 < k < PILES && AllUp(run) && Sound(ps[k := ps[k] + run], lost)
    ensures var qs := DrawMove(ps); Sound(qs[k := qs[k] + run], lost)
    ensures var qs := DrawMove(ps);
            FoundationTotal(qs[k := qs[k] + run]) == FoundationTotal(ps[k := ps[k] + run])
  {
    var w, qs := ps[k := ps[k] + run], DrawMove(ps);
    var w' := qs[k := qs[k] + run];
    RestOfWhole(ps, k, run, lost);
    DrawMoveSize(ps);
    SizeUpdate(qs, k, qs[k] + run);
    forall x ensures Tally(w', x) + Times(lost, x) == if InDeck(x) then 1 else 0 {
      DrawMoveTally(ps, x);
      TallyUpdate(qs, k, qs[k] + run, x);
      TimesConcat(qs[k], run, x);
    }
    assert PileShape(STOCK, ps[STOCK]) && PileShape(WASTE, ps[WASTE]);
    DrawnPiles(ps);
    forall j | 0 <= j < PILES ensures PileShape(j, w'[j]) && (IsColumn(j) ==> w'[j] == w[j]) {
      assert PileShape(j, w[j]);
      if j > 1 { assert w'[j] == w[j]; }
    }
  }

  /** Asking for the auto-finish keeps the invariant; with a run in hand it is never granted. */
  lemma RequestKept(b: Board)
    requires Inv(b)
    ensures Inv(Request(b))
    ensures b.drag.Drag? ==> !Request(b).auto
  {
    if CanAutoFinish(b) && b.drag.Drag? {
      RestOfWhole(b.piles, b.drag.src, b.drag.cards, b.lost);
      OpenWhenUp(b.piles);
      WinnableIsWhole(b.piles);
    }
  }

  lemma LayNothing(ps: Layout)
    ensures ps[WASTE := ps[WASTE] + []] == ps
  {
    assert ps[WASTE] + [] == ps[WASTE];
  }

  lemma DrawKept(b: Board)
    requires Inv(b) && !Busy(b)
    ensures Inv(DrawFromStock(b))
  {
    var b' := b.(piles := DrawMove(b.piles));
    if b.drag.Drag? {
      DrawMoveSound(b.piles, b.drag.src, b.drag.cards, b.lost);
    } else {
      LayNothing(b.piles);
      LayNothing(b'.piles);
      DrawMoveSound(b.piles, WASTE, [], b.lost);
    }
    RequestKept(b');
  }

  lemma StartDragKept(b: Board, k: nat, i: int)
    requires Inv(b) && !Busy(b) && b.drag == NoDrag && k < PILES && i < |b.piles[k]|
    ensures Inv(StartDrag(b, k, i))
    ensures Whole(StartDrag(b, k, i)) == Whole(b)
  {
    if 0 <= i && CanDragFrom(k, b.piles[k], i) {
      SplitBack(b.piles, k, i);
      assert PileShape(k, b.piles[k]);
      DraggedRunUp(k, b.piles[k], i);
    }
  }

  /** Landing a dragged run is a legal move of the layout it was taken from. */
  lemma LandRunIsMove(b: Board, dst: nat)
    requires Inv(b) && b.drag.Drag? && Accepts(b, dst)
    ensures LegalMove(Whole(b), b.drag.src, |b.drag.cards|, dst)
    ensures LandRun(b, dst) == MoveRun(Whole(b), b.drag.src, |b.drag.cards|, dst)
  {
    var w, src, run := Whole(b), b.drag.src, b.drag.cards;
    var at := |w[src]| - |run|;
    assert w[src][..at] == b.piles[src] && w[src][at..] == run;
    assert w[src := w[src][..at]] == b.piles;
    if IsFoundation(dst) { assert run[..1] == run; }
    assert PileShape(src, w[src]);
    if IsColumn(src) {
      assert w[src][at] == run[0];
      forall j | at <= j < |w[src]| ensures w[src][j].faceUp { assert w[src][j] == run[j - at]; }
    }
  }

  lemma CancelKept(b: Board)
    requires Inv(b) && b.drag.Drag?
    ensures Inv(DropRun(b, -1)) && DropRun(b, -1).piles == Whole(b)
  {
  }

  lemma LandRunKept(b: Board, target: int)
    requires Inv(b) && b.drag.Drag? && Accepts(b, target)
    ensures Inv(DropRun(b, target))
  {
    var ps := LandRun(b, target);
    assert Sound(ps, b.lost) by {
      LandRunIsMove(b, target);
      MoveRunSound(Whole(b), b.drag.src, |b.drag.cards|, target, b.lost);
    }
    SettledKept(b.(piles := ps, drag := NoDrag), true);
  }

  /** Once the cards lie in a sound layout again, the win check and the request keep the invariant. */
  lemma SettledKept(b: Board, trigger: bool)
    requires b.drag == NoDrag && b.flight == NoFlight && Sound(b.piles, b.lost) && AutoInv(b)
    ensures var b' := CheckWin(b);
            if b'.won then Inv(b'.(auto := false)) else Inv(b') && Inv(Request(b'))
  {
    var b' := CheckWin(b);
    if !b'.won {
      assert Inv(b');
      RequestKept(b');
    }
  }

  lemma TakeOffKept(b: Board, k: nat, trigger: bool, steps: int)
    requires Inv(b) && b.flight == NoFlight && b.drag == NoDrag && CanLift(b.piles, k)
    requires MIN_STEPS <= steps <= MAX_STEPS && Last(b.piles[k]).faceUp
    ensures var b' := TakeOff(b, k, Slot(b.piles, Last(b.piles[k])), trigger, steps); Inv(b') && Whole(b') == Whole(b)
  {
    var b' := TakeOff(b, k, Slot(b.piles, Last(b.piles[k])), trigger, steps);
    TakeOffFlight(b, k, Slot(b.piles, Last(b.piles[k])), trigger, steps);
    TakeOffWhole(b, k, Slot(b.piles, Last(b.piles[k])), trigger, steps);
    assert Sound(Whole(b'), b'.lost) by { assert Whole(b') == Whole(b); }
    if b.auto { TakeOffAuto(b, k, trigger, steps); }
  }

  lemma TakeOffFlight(b: Board, k: nat, dst: nat, trigger: bool, steps: int)
    requires MIN_STEPS <= steps <= MAX_STEPS
    requires b.flight == NoFlight && b.drag == NoDrag && IsSource(k) && b.piles[k] != []
    requires IsFoundation(dst) && CanPlaceOn(Last(b.piles[k]), dst, b.piles[dst])
    requires Last(b.piles[k]).faceUp
    ensures var b' := TakeOff(b, k, dst, trigger, steps); FlightInv(b') && DragInv(b')
  {
    assert TakeOff(b, k, dst, trigger, steps).piles[dst] == b.piles[dst];
  }

  lemma TakeOffWhole(b: Board, k: nat, dst: nat, trigger: bool, steps: int)
    requires b.drag == NoDrag && k < PILES && dst < PILES && b.piles[k] != []
    ensures Whole(TakeOff(b, k, dst, trigger, steps)) == b.piles
  {
    SplitBack(b.piles, k, |b.piles[k]| - 1);
    assert b.piles[k][|b.piles[k]|-1..] == [Last(b.piles[k])];
  }

  lemma TakeOffAuto(b: Board, k: nat, trigger: bool, steps: int)
    requires Inv(b) && b.flight == NoFlight && b.drag == NoDrag && CanLift(b.piles, k) && b.auto
    ensures var b' := TakeOff(b, k, Slot(b.piles, Last(b.piles[k])), trigger, steps); AutoInv(b')
  {
    var b' := TakeOff(b, k, Slot(b.piles, Last(b.piles[k])), trigger, steps);
    FlightIsLift(b', b.piles);
    SettledFacts(b);
    OpenWhenUp(b.piles);
    WinnableAfterLift(b.piles, k);
    forall j | IsColumn(j) ensures AllUp(b'.piles[j]) { assert AllUp(b.piles[j]); }
  }

  /** The landing of a card taken off pile k moves that one card. */
  lemma LandedIs(b: Board, ps: Layout, k: nat, dst: nat)
    requires b.flight.Flight? && k < PILES && ps[k] != [] && IsFoundation(dst) && !IsFoundation(k)
    requires b.flight.src == k && b.flight.dst == dst && b.flight.card == Last(ps[k])
    requires b.piles == ps[k := Front(ps[k])]
    requires b.flight.turnUp == (IsColumn(k) && b.piles[k] != [])
    ensures LandFlight(b) == MoveRun(ps, k, 1, dst)
  {
    MoveRunPiles(ps, k, 1, dst);
    assert ps[k][|ps[k]|-1..] == [b.flight.card];
    var qs, qs' := LandFlight(b), MoveRun(ps, k, 1, dst);
    forall j | 0 <= j < PILES ensures qs[j] == qs'[j] {}
  }

  /** The landing of a card in flight is the lift it was taken off for. */
  lemma FlightIsLift(b: Board, ps: Layout)
    requires b.flight.Flight? && CanLift(ps, b.flight.src) && b.flight.dst == Slot(ps, b.flight.card)
    requires b.flight.card == Last(ps[b.flight.src]) && b.piles == ps[b.flight.src := Front(ps[b.flight.src])]
    requires b.flight.turnUp == (IsColumn(b.flight.src) && b.piles[b.flight.src] != [])
    ensures LandFlight(b) == Lift(ps, b.flight.src)
  {
    LandedIs(b, ps, b.flight.src, b.flight.dst);
  }

  lemma DoubleClickKept(b: Board, k: nat, hops: nat)
    requires Inv(b) && !Busy(b) && b.drag == NoDrag && k < PILES
    ensures Inv(DoubleClickOn(b, k, hops))
  {
    var p := b.piles[k];
    if DoubleClickOn(b, k, hops) != b {
      if IsFoundation(k) {
        TopStays(b, k);
      } else {
        assert PileShape(k, b.piles[k]);
        TakeOffKept(b, k, true, FlightSteps(hops));
      }
    }
  }

  /** The top card of a foundation fits on no foundation. */
  lemma TopStays(b: Board, k: nat)
    requires Inv(b) && b.flight == NoFlight && b.drag == NoDrag && IsFoundation(k) && b.piles[k] != []
    ensures Slot(b.piles, Last(b.piles[k])) == -1
  {
    var c := Last(b.piles[k]);
    assert PileShape(k, b.piles[k]);
    assert c == Card(|b.piles[k]|, k - FIRST_FOUNDATION, true);
    forall f | IsFoundation(f) ensures !CanPlaceOn(c, f, b.piles[f]) {
      assert PileShape(f, b.piles[f]);
      if b.piles[f] != [] { assert Last(b.piles[f]) == Card(|b.piles[f]|, f - FIRST_FOUNDATION, true); }
    }
  }

  lemma LandFlightIsMove(b: Board)
    requires FlightInv(b) && b.flight.Flight?
    ensures LegalMove(Whole(b), b.flight.src, 1, b.flight.dst)
    ensures LandFlight(b) == MoveRun(Whole(b), b.flight.src, 1, b.flight.dst)
  {
    var w, src, c := Whole(b), b.flight.src, b.flight.card;
    var at := |w[src]| - 1;
    assert w[src][..at] == b.piles[src] && w[src][at..] == [c];
    assert w[src := b.piles[src]] == b.piles;
  }

  lemma FinishKept(b: Board)
    requires Inv(b)
    ensures Inv(Finish(b)) && Finish(b).flight == NoFlight
    ensures b.flight.Flight? ==> Finish(b).piles == LandFlight(b)
  {
    if b.flight.Flight? {
      var b1 := b.(piles := LandFlight(b), flight := NoFlight);
      assert Sound(b1.piles, b.lost) by {
        LandFlightIsMove(b);
        MoveRunSound(Whole(b), b.flight.src, 1, b.flight.dst, b.lost);
      }
      if b.auto { LandedUp(b); }
      SettledKept(b1, b.flight.trigger);
    }
  }

  lemma LandedUp(b: Board)
    requires Inv(b) && b.flight.Flight? && b.auto
    ensures ColumnsUp(LandFlight(b)) && LandFlight(b)[STOCK] == []
  {
    forall k | IsColumn(k) ensures AllUp(LandFlight(b)[k]) { assert AllUp(b.piles[k]); }
  }

  lemma TickKept(b: Board, hops: nat)
    requires Inv(b)
    ensures Inv(TimerTick(b, hops))
  {
    if b.flight.Flight? {
      if b.flight.step + 1 >= b.flight.steps {
        FinishKept(b);
      }
    } else if b.auto {
      AutoTickKept(b, hops);
    }
  }

  lemma AutoTickKept(b: Board, hops: nat)
    requires Inv(b) && b.flight == NoFlight && b.auto
    ensures Inv(TimerTick(b, hops))
  {
    hide Slot, SlotFrom, CanLift, NextColumn, NextLift;
    var k := NextLift(b.piles);
    AutoMoves(b);
    LiftSource(b.piles, k);
    assert PileShape(k, b.piles[k]) && (IsColumn(k) ==> AllUp(b.piles[k]));
    TakeOffKept(b, k, false, FlightSteps(hops));
  }

  lemma LiftSource(ps: Layout, k: int)
    requires CanLift(ps, k)
    ensures IsSource(k) && ps[k] != [] && IsFoundation(Slot(ps, Last(ps[k])))
  {
  }

  /** While the game finishes itself and no card flies, there is a card to send up. */
  lemma AutoMoves(b: Board)
    requires Inv(b) && b.auto && b.flight == NoFlight
    ensures NextLift(b.piles) != -1
    ensures FoundationTotal(b.piles) < DECK
  {
    SettledFacts(b);
    OpenWhenUp(b.piles);
    SizeSplit(b.piles);
    WinnableMoves(b.piles);
  }

  lemma ResizeKept(b: Board)
    requires Inv(b)
    ensures Inv(Resized(b))
  {
    if b.drag.Drag? {
      DiscardKept(b);
    } else {
      FinishKept(b);
      assert Finish(b).lost == b.lost + [];
      assert Resized(b) == Finish(b).(auto := false);
    }
  }

  /** A resize takes the run out of the player's hand; what is left can never be won. */
  lemma DiscardKept(b: Board)
    requires Inv(b) && b.drag.Drag?
    ensures Inv(Resized(b)) && Size(Resized(b).piles) < DECK && !Winnable(Resized(b).piles)
  {
    RestOfWhole(b.piles, b.drag.src, b.drag.cards, b.lost);
    forall x ensures Times(b.lost + b.drag.cards, x) == Times(b.lost, x) + Times(b.drag.cards, x) {
      TimesConcat(b.lost, b.drag.cards, x);
    }
    SizeSplit(b.piles);
    assert b.lost + b.drag.cards != [];
    SmallNeverWins(b.piles);
  }

  /** Each card of the deck lies in the piles, or was lost, exactly once. */
  ghost predicate EachOnce(ps: Layout, lost: seq<Card>) {
    forall x :: Tally(ps, x) + Times(lost, x) == if InDeck(x) then 1 else 0
  }

  /** A resize keeps every card that is still in the game exactly when no run is in the player's hand. */
  lemma ResizeConserves(b: Board)
    requires Inv(b)
    ensures EachOnce(Resized(b).piles, b.lost) <==> b.drag == NoDrag
  {
    RestAt(b);
    if b.drag.Drag? {
      TimesHas(b.drag.cards, 0);
      var x := NameOf(b.drag.cards[0]);
      assert Tally(Resized(b).piles, x) + Times(b.lost, x) != if InDeck(x) then 1 else 0;
    } else {
      ResizeKept(b);
      RestAt(Resized(b));
      assert Finish(b).lost == b.lost + [];
    }
  }

  /** A stale press keeps every card once exactly when its index is the very end of the column. */
  lemma StaleDragConserves(b: Board, k: PileId, slots: seq<Card>, i: nat)
    requires Inv(b) && b.drag == NoDrag && b.flight == NoFlight && |b.piles[k]| <= i <= |slots|
    ensures EachOnce(StaleDrag(b, k, slots, i).piles, b.lost) <==> i == |b.piles[k]|
  {
    var left := slots[|b.piles[k]|..i];
    var p := b.piles[k] + left;
    RestAt(b);
    if i == |b.piles[k]| {
      assert p == b.piles[k];
      assert StaleDrag(b, k, slots, i).piles == b.piles;
      assert forall x :: Times(Detached(b), x) == 0;
    } else {
      var x := NameOf(left[0]);
      TimesHas(left, 0);
      TallyUpdate(b.piles, k, p, x);
      TimesConcat(b.piles[k], left, x);
    }
  }

  lemma StepKept(b: Board, e: Event)
    requires Inv(b) && Enabled(b, e)
    ensures Inv(Step(b, e))
  {
    match e
    case NewGame(deck) => DealKept(deck);
    case Draw => DrawKept(b);
    case BeginDrag(k, i) => StartDragKept(b, k, i);
    case Drop(t) => if t == -1 { CancelKept(b); } else { LandRunKept(b, t); }
    case DoubleClick(k, hops) => DoubleClickKept(b, k, hops);
    case Tick(hops) => TickKept(b, hops);
    case Resize => ResizeKept(b);
  }

  // ---------------------------------------------------------------- whole games

  /** b is reached from a fresh deal by some sequence of events. */
  ghost predicate Reached(deck: seq<Card>, es: seq<Event>, b: Board)
    requires Shuffled(deck)
    decreases |es|
  {
    if es == [] then b == Start(deck)
    else exists b0 :: Reached(deck, Front(es), b0) && Enabled(b0, Last(es)) && b == Step(b0, Last(es))
  }

  lemma {:induction false} ReachedInv(deck: seq<Card>, es: seq<Event>, b: Board)
    requires Shuffled(deck) && Reached(deck, es, b)
    ensures Inv(b)
    decreases |es|
  {
    if es == [] {
      DealKept(deck);
    } else {
      var b0 :| Reached(deck, Front(es), b0) && Enabled(b0, Last(es)) && b == Step(b0, Last(es));
      ReachedInv(deck, Front(es), b0);
      StepKept(b0, Last(es));
    }
  }

  /** Every game can lose a card: a resize comes while the open card of the last column is dragged. */
  lemma ResizeLoses(deck: seq<Card>) returns (es: seq<Event>, b: Board)
    requires Shuffled(deck)
    ensures Reached(deck, es, b) && b.drag == NoDrag && b.flight == NoFlight && Size(b.piles) == DECK - 1
  {
    var b0 := Start(deck);
    DealKept(deck);
    DealtSize(6);
    var k := PILES - 1;
    var p := b0.piles[k];
    assert |p| == 7 && TopUp(p);
    assert CanDragFrom(k, p, 6);
    var e1, e2 := BeginDrag(k, 6), Resize;
    var b1 := Step(b0, e1);
    b := Step(b1, e2);
    es := [e1, e2];
    StepKept(b0, e1);
    StepKept(b1, e2);
    RestAt(b);
    assert Front(es) == [e1] && Front([e1]) == [];
    assert Reached(deck, [], b0);
    assert Reached(deck, [e1], b1);
    assert |b1.drag.cards| == 1 && b.lost == b1.drag.cards;
  }

  /** The cards that lie in no pile: the run in the player's hand, or the card in flight. */
  function Detached(b: Board): seq<Card> {
    if b.drag.Drag? then b.drag.cards else if b.flight.Flight? then [b.flight.card] else []
  }

  /** In every reachable state each of the 52 cards is in exactly one place, or in a run that a resize took away. */
  lemma CardsConserved(deck: seq<Card>, es: seq<Event>, b: Board, x: Name)
    requires Shuffled(deck) && Reached(deck, es, b)
    ensures Tally(b.piles, x) + Times(Detached(b), x) + Times(b.lost, x) == if InDeck(x) then 1 else 0
    ensures Size(b.piles) + |Detached(b)| + |b.lost| == DECK
  {
    ReachedInv(deck, es, b);
    RestAt(b);
  }

  lemma RestAt(b: Board)
    requires Inv(b)
    ensures Size(b.piles) + |Detached(b)| + |b.lost| == DECK
    ensures forall x :: Tally(b.piles, x) + Times(Detached(b), x) + Times(b.lost, x) == if InDeck(x) then 1 else 0
    ensures Shape(b.piles) && Part(b.piles)
  {
    if b.drag.Drag? {
      RestOfWhole(b.piles, b.drag.src, b.drag.cards, b.lost);
    } else if b.flight.Flight? {
      RestOfWhole(b.piles, b.flight.src, [b.flight.card], b.lost);
    } else {
      LayNothing(b.piles);
      RestOfWhole(b.piles, WASTE, [], b.lost);
    }
  }

  /** In every reachable state the piles have the game's shape and fit their arrays of 24, a dragged run fits its
      array of 13, and the auto-finish is never on while a run is in the player's hand. */
  lemma PilesKeepShape(deck: seq<Card>, es: seq<Event>, b: Board)
    requires Shuffled(deck) && Reached(deck, es, b)
    ensures Shape(b.piles)
    ensures forall k :: 0 <= k < PILES ==> |b.piles[k]| <= PILE_ROOM
    ensures forall k :: IsFoundation(k) ==> |b.piles[k]| <= 13
    ensures forall k :: IsColumn(k) ==> |b.piles[k]| <= 19
    ensures b.drag.Drag? ==> |b.drag.cards| <= 13 && !b.auto
  {
    ReachedInv(deck, es, b);
    RestAt(b);
    PileBounds(b.piles);
    if b.drag.Drag? { RunInHandFits(b); }
  }

  lemma RunInHandFits(b: Board)
    requires Inv(b) && b.drag.Drag?
    ensures |b.drag.cards| <= 13
  {
    var w, k := Whole(b), b.drag.src;
    if IsColumn(k) {
      var at := |b.piles[k]|;
      assert w[k][at] == b.drag.cards[0];
      assert PileShape(k, w[k]);
      RunBound(w, k, at);
    }
  }

  // ---------------------------------------------------------------- the promise of the auto-finish

  /** The state after the timer fired once for each element of hs. */
  ghost function Ticks(b: Board, hs: seq<nat>): Board
    decreases |hs|
  {
    if hs == [] then b else Ticks(TimerTick(b, hs[0]), hs[1..])
  }

  /** Nine ticks for each card still to go, less those already spent on the card in flight. */
  function TicksLeft(b: Board): int {
    if b.flight.Flight? then 9 * (DECK - 1 - FoundationTotal(b.piles)) + b.flight.steps - b.flight.step
    else 9 * (DECK - FoundationTotal(b.piles))
  }

  ghost predicate AllHome(b: Board) {
    && b.won && !b.auto && b.flight == NoFlight
    && (forall k :: 0 <= k < PILES ==> |b.piles[k]| == if IsFoundation(k) then 13 else 0)
    && (forall k :: IsFoundation(k) ==> Ranks(k - FIRST_FOUNDATION, b.piles[k]))
  }

  lemma FullIsHome(b: Board)
    requires Inv(b) && !b.auto && b.flight == NoFlight && b.drag == NoDrag && FoundationTotal(b.piles) == DECK
    ensures AllHome(b)
  {
    SettledFacts(b);
    PileBounds(b.piles);
    SizeSplit(b.piles);
    assert forall k :: IsFoundation(k) ==> PileShape(k, b.piles[k]);
  }

  /** A tick either brings the last card home or leaves at least one tick less to go. */
  lemma TickProgress(b: Board, h: nat)
    requires Inv(b) && b.auto
    ensures var b' := TimerTick(b, h); Inv(b') && (AllHome(b') || (b'.auto && TicksLeft(b') < TicksLeft(b)))
  {
    TickKept(b, h);
    var b' := TimerTick(b, h);
    if b.flight == NoFlight {
      AutoMoves(b);
      var k := NextLift(b.piles);
      assert FoundationTotal(b'.piles) == FoundationTotal(b.piles);
    } else if b.flight.step + 1 >= b.flight.steps {
      assert FoundationTotal(LandFlight(b)) == FoundationTotal(b.piles) + 1;
      if FoundationTotal(LandFlight(b)) == DECK { FullIsHome(b'); }
    }
  }

  lemma NotAllUp(b: Board)
    requires Inv(b) && b.auto && b.flight.Flight?
    ensures FoundationTotal(b.piles) < DECK
  {
    SizeSplit(Whole(b));
    assert FoundationTotal(Whole(b)) == FoundationTotal(b.piles);
  }

  lemma {:induction false} HomeStays(b: Board, hs: seq<nat>)
    requires AllHome(b)
    ensures AllHome(Ticks(b, hs))
    decreases |hs|
  {
    if hs != [] { HomeStays(TimerTick(b, hs[0]), hs[1..]); }
  }

  /** Once the auto-finish is on, the timer alone wins the game: after nine ticks for each card not yet up, all 52
      cards are on the foundations, whatever the lengths of the flights. */
  lemma {:induction false} PromiseKept(b: Board, hs: seq<nat>)
    requires Inv(b) && b.auto && |hs| >= TicksLeft(b)
    ensures AllHome(Ticks(b, hs))
    decreases |hs|
  {
    if b.flight == NoFlight { AutoMoves(b); } else { NotAllUp(b); }
    TickProgress(b, hs[0]);
    var b' := TimerTick(b, hs[0]);
    if AllHome(b') {
      HomeStays(b', hs[1..]);
    } else {
      PromiseKept(b', hs[1..]);
    }
  }
}
