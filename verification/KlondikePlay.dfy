/** What the player sees of each event, told by the cards themselves: where the deal puts them, what a press turns over,
    picks up, sends up or lays down, which columns build, and when the game is won. */
module KlondikePlay {
  import opened Sequences
  import opened KlondikeRules
  import opened KlondikeFinish
  import opened KlondikeBoard

  /** Card d builds on card c: it is one lower and of the other colour (hearts and diamonds are suits 0 and 1). */
  predicate Builds(c: Card, d: Card) {
    d.value == c.value - 1 && (c.suit < 2) != (d.suit < 2)
  }

  // ---------------------------------------------------------------- the deal

  /** Column i holds cards i(i+1)/2 and following of the deck, the last one open; the stock holds the last 24. */
  lemma DealtCards(deck: seq<Card>, i: nat, j: nat)
    requires Shuffled(deck) && j <= i < 7
    ensures var ps := Start(deck).piles; var c := deck[i * (i + 1) / 2 + j];
            && i * (i + 1) / 2 + j < 28
            && |ps[6 + i]| == i + 1 && ps[6 + i][j] == Card(c.value, c.suit, j == i)
            && ps[0] == deck[28..] && (forall k :: 1 <= k < 6 ==> ps[k] == [])
            && Start(deck).drag == NoDrag && Start(deck).flight == NoFlight
  {
    DealtSize(i);
    if i < 6 { DealtSize(i + 1); }
    var at := Triangle(i);
    assert deck[at..Triangle(i + 1)][j] == deck[at + j];
  }

  // ---------------------------------------------------------------- the stock

  /** A press on the stock turns its top card over onto the waste. */
  lemma DrawTurns(b: Board)
    requires b.piles[0] != []
    ensures var d := DrawFromStock(b); var n := |b.piles[0]| - 1; var c := b.piles[0][n];
            && d.piles[0] == b.piles[0][..n] && d.piles[1] == b.piles[1] + [Card(c.value, c.suit, true)]
            && (forall k :: 2 <= k < 13 ==> d.piles[k] == b.piles[k])
            && d == b.(piles := d.piles, auto := d.auto)
  {
  }

  /** On an empty stock it turns the whole waste back, and with no card in either it does nothing. */
  lemma DrawTurnsBack(b: Board)
    requires b.piles[0] == []
    ensures var d := DrawFromStock(b); var w := b.piles[1];
            && |d.piles[0]| == |w| && d.piles[1] == []
            && (forall j :: 0 <= j < |w| ==>
              d.piles[0][j] == Card(w[|w| - 1 - j].value, w[|w| - 1 - j].suit, false))
            && (forall k :: 2 <= k < 13 ==> d.piles[k] == b.piles[k])
            && d == b.(piles := d.piles, auto := d.auto)
            && (w == [] ==> d == b)
  {
    hide Reversed;
    ReversedIs(b.piles[1]);
    if b.piles[1] != [] { assert DrawFromStock(b).piles == DrawMove(b.piles); }
  }

  lemma ReversedIs(w: seq<Card>)
    ensures |Reversed(w)| == |w|
    ensures forall j :: 0 <= j < |w| ==> Reversed(w)[j] == Card(w[|w| - 1 - j].value, w[|w| - 1 - j].suit, false)
  {
    forall j | 0 <= j < |w| ensures Reversed(w)[j] == Card(w[|w| - 1 - j].value, w[|w| - 1 - j].suit, false) {
      assert Reversed(w)[j] == Down(w[|w| - 1 - j]);
    }
  }

  /** The piles after n presses on the stock. */
  function Drawn(ps: Layout, n: nat): Layout {
    if n == 0 then ps else DrawMove(Drawn(ps, n - 1))
  }

  lemma {:induction false} DrawnOut(ps: Layout, n: nat)
    requires n <= |ps[0]|
    ensures var qs, s := Drawn(ps, n), ps[0];
            && qs[0] == s[..|s| - n] && |qs[1]| == |ps[1]| + n
            && (forall j :: 0 <= j < |ps[1]| ==> qs[1][j] == ps[1][j])
            && (forall j :: |ps[1]| <= j < |qs[1]| ==> qs[1][j] == Up(s[|s| - 1 - (j - |ps[1]|)]))
            && (forall k :: 2 <= k < 13 ==> qs[k] == ps[k])
  {
    if n > 0 {
      DrawnOut(ps, n - 1);
      var qs := Drawn(ps, n - 1);
      assert Last(qs[0]) == ps[0][|ps[0]| - n] && Front(qs[0]) == ps[0][..|ps[0]| - n];
    }
  }

  /** Going once through the stock and turning back leaves the order of the stock as it was and puts the waste on top of
      it, last card first; with an empty waste the whole layout is as before. */
  lemma OnceThrough(ps: Layout)
    requires AllDown(ps[0]) && AllUp(ps[1])
    ensures var qs, s, w := Drawn(ps, |ps[0]| + 1), ps[0], ps[1];
            && |qs[0]| == |s| + |w| && qs[1] == []
            && (forall j :: 0 <= j < |s| ==> qs[0][j] == s[j])
            && (forall j :: |s| <= j < |qs[0]| ==> qs[0][j] == Down(w[|w| - 1 - (j - |s|)]))
            && (w == [] ==> qs == ps)
  {
    var n := |ps[0]|;
    DrawnOut(ps, n);
    var ms, qs := Drawn(ps, n), Drawn(ps, n + 1);
    assert ms[0] == [];
    TurnedBack(ps[0], ps[1], ms[1]);
    assert qs == ms[0 := Reversed(ms[1])][1 := []];
    if ps[1] == [] {
      assert qs[0] == ps[0];
      forall k | 0 <= k < 13 ensures qs[k] == ps[k] {}
    }
  }

  /** The waste w with the stock s drawn onto it, turned back. */
  lemma TurnedBack(s: seq<Card>, w: seq<Card>, p: seq<Card>)
    requires AllDown(s) && |p| == |s| + |w|
    requires forall j :: 0 <= j < |w| ==> p[j] == w[j]
    requires forall j :: |w| <= j < |p| ==> p[j] == Up(s[|s| - 1 - (j - |w|)])
    ensures |Reversed(p)| == |p|
    ensures forall j :: 0 <= j < |s| ==> Reversed(p)[j] == s[j]
    ensures forall j :: |s| <= j < |p| ==> Reversed(p)[j] == Down(w[|w| - 1 - (j - |s|)])
  {
    forall j | 0 <= j < |s| ensures Reversed(p)[j] == s[j] {
      assert Reversed(p)[j] == Down(p[|p| - 1 - j]);
    }
  }

  // ---------------------------------------------------------------- picking up and laying down

  /** In a column every open card can be picked up, with all that lie on it; of the waste and the foundations only the
      top card. */
  lemma DragWhenOpen(b: Board, k: nat, i: nat)
    requires Inv(b) && Enabled(b, BeginDrag(k, i))
    ensures var p, d := b.piles[k], Step(b, BeginDrag(k, i));
            if (6 <= k && p[i].faceUp) || (1 <= k < 6 && i == |p| - 1)
            then d == b.(piles := b.piles[k := p[..i]], drag := Drag(k, p[i..]))
            else d == b
  {
    var p := b.piles[k];
    assert PileShape(k, p);
    if 6 <= k && p[i].faceUp { OpenIsDraggable(k, p, i); }
  }

  lemma OpenIsDraggable(k: nat, p: seq<Card>, i: nat)
    requires IsColumn(k) && ColumnShape(k - 6, p) && i < |p| && p[i].faceUp
    ensures CanDragFrom(k, p, i)
  {
    forall j | i <= j < |p| ensures p[j].faceUp { RunValues(k - 6, p, i, j); }
  }

  /** Where the run in hand may be dropped: one card on the foundation of its suit when it is the next one; on a column
      when its first card builds on the open top card, or is a king and the column is empty. */
  lemma AcceptsIs(b: Board, t: int)
    requires Inv(b) && b.drag.Drag?
    ensures var run, c := b.drag.cards, b.drag.cards[0];
            Accepts(b, t) <==>
              || (2 <= t < 6 && |run| == 1 && c.suit == t - 2 && c.value == |b.piles[t]| + 1)
              || (6 <= t < 13 && b.piles[t] == [] && c.value == 13)
              || (6 <= t < 13 && b.piles[t] != [] && Last(b.piles[t]).faceUp && Builds(Last(b.piles[t]), c))
  {
    RestAt(b);
    var c := b.drag.cards[0];
    var w, src := Whole(b), b.drag.src;
    var at := |b.piles[src]|;
    assert w[src][at] == c;
    assert 0 <= c.suit < 4 by { HeldCard(b); }
    if 2 <= t < 6 {
      assert PileShape(t, b.piles[t]);
      if b.piles[t] != [] { assert Last(b.piles[t]) == Card(|b.piles[t]|, t - 2, true); }
    } else if 6 <= t < 13 && b.piles[t] != [] {
      PartCards(b.piles, t, |b.piles[t]| - 1);
    }
  }

  lemma HeldCard(b: Board)
    requires Inv(b) && b.drag.Drag?
    ensures InDeck(NameOf(b.drag.cards[0]))
  {
    RestAt(b);
    TimesHas(b.drag.cards, 0);
  }

  /** p is q with its last card turned up when it is in a column; nothing else is different. */
  predicate ShowsNext(k: int, q: seq<Card>, p: seq<Card>) {
    && |p| == |q|
    && forall j :: 0 <= j < |p| ==>
      p[j] == Card(q[j].value, q[j].suit, q[j].faceUp || (6 <= k && j == |q| - 1))
  }

  /** The run lies on the pile it was dropped on, the column it came from shows its next card, and nothing else has
      moved. */
  lemma DropLands(b: Board, t: int)
    requires Inv(b) && Enabled(b, Drop(t)) && t != -1
    ensures var d, src := Step(b, Drop(t)), b.drag.src;
            && d == b.(piles := d.piles, drag := NoDrag, won := d.won, auto := d.auto)
            && (t != src ==> d.piles[t] == b.piles[t] + b.drag.cards && ShowsNext(src, b.piles[src], d.piles[src]))
            && (t == src ==> d.piles == Whole(b))
            && (forall k :: 0 <= k < 13 && k != t && k != src ==> d.piles[k] == b.piles[k])
  {
    hide Inv, Winnable, CanPlaceOn;
    HandKnown(b);
    RunLands(b, t);
    assert Step(b, Drop(t)).piles == LandRun(b, t);
  }

  lemma HandKnown(b: Board)
    requires Inv(b)
    ensures DragInv(b)
  {
  }

  lemma RunLands(b: Board, t: int)
    requires b.drag.Drag? && DragInv(b) && 2 <= t < 13 && (IsFoundation(t) ==> |b.drag.cards| == 1)
    ensures var ps, src := LandRun(b, t), b.drag.src;
            && (t != src ==> ps[t] == b.piles[t] + b.drag.cards && ShowsNext(src, b.piles[src], ps[src]))
            && (t == src ==> ps == Whole(b))
            && (forall k :: 0 <= k < 13 && k != t && k != src ==> ps[k] == b.piles[k])
  {
    var run := b.drag.cards;
    if IsFoundation(t) { assert run[..1] == run; }
    if t == b.drag.src {
      var p := b.piles[t] + run;
      assert Last(p) == Last(run);
      assert RevealTop(p) == p;
    }
  }

  /** Dropped elsewhere, the run goes back to where it was. */
  lemma DropReturns(b: Board)
    requires Inv(b) && Enabled(b, Drop(-1))
    ensures var src := b.drag.src;
            Step(b, Drop(-1)) == b.(piles := b.piles[src := b.piles[src] + b.drag.cards], drag := NoDrag)
  {
  }

  /** Picking up and letting go changes nothing. */
  lemma PickUpLetGo(b: Board, k: nat, i: nat)
    requires Inv(b) && Enabled(b, BeginDrag(k, i)) && Step(b, BeginDrag(k, i)) != b
    ensures Step(Step(b, BeginDrag(k, i)), Drop(-1)) == b
  {
    DragWhenOpen(b, k, i);
    SplitBack(b.piles, k, i);
  }

  /** A stale press fills the pile up to index i with what the array still holds there, and has no card in hand. */
  lemma StaleTakesSlots(b: Board, k: PileId, slots: seq<Card>, i: nat)
    requires |b.piles[k]| <= i <= |slots|
    ensures var d := StaleDrag(b, k, slots, i);
            && |d.piles[k]| == i && (forall j :: 0 <= j < |b.piles[k]| ==> d.piles[k][j] == b.piles[k][j])
            && (forall j :: |b.piles[k]| <= j < i ==> d.piles[k][j] == slots[j])
            && d == b.(piles := b.piles[k := d.piles[k]], drag := Drag(k, []))
  {
  }

  // ---------------------------------------------------------------- flights

  /** A flight takes six to eight steps, one more for every three hops of its length. */
  function Steps(hops: nat): int { if hops < 3 then 6 else if hops < 6 then 7 else 8 }

  /** A double click sends the top card up exactly when it is open and the next one of its suit. */
  lemma DoubleClickFlies(b: Board, k: nat, hops: nat)
    requires Inv(b) && Enabled(b, DoubleClick(k, hops)) && b.piles[k] != []
    ensures var p, d := b.piles[k], Step(b, DoubleClick(k, hops)); var c := Last(p);
            && 0 <= c.suit < 4
            && if (k == 1 || 6 <= k) && c.faceUp && c.value == |b.piles[2 + c.suit]| + 1
               then d == b.(piles := b.piles[k := p[..|p| - 1]],
                 flight := Flight(c, k, 2 + c.suit, 6 <= k && |p| > 1, true, 0, Steps(hops)))
               else d == b
  {
    SettledFacts(b);
    var c := Last(b.piles[k]);
    PartCards(b.piles, k, |b.piles[k]| - 1);
    SlotOf(b.piles, c);
    if IsFoundation(k) { TopStays(b, k); }
  }

  /** Without assuming that all is open: a card fits on the foundation of its suit when it is the next one, and on no
      other. */
  lemma SlotOf(ps: Layout, c: Card)
    requires forall f :: IsFoundation(f) ==> Ranks(f - FIRST_FOUNDATION, ps[f])
    requires 0 <= c.suit < 4
    ensures Slot(ps, c) == if |ps[2 + c.suit]| + 1 == c.value then 2 + c.suit else -1
  {
    forall f | IsFoundation(f) ensures CanPlaceOn(c, f, ps[f]) <==> f == 2 + c.suit && |ps[f]| + 1 == c.value {
      if ps[f] != [] { assert Last(ps[f]) == Card(|ps[f]|, f - FIRST_FOUNDATION, true); }
    }
  }

  /** The pile the auto-finish takes from: the waste if its top card is the next one of its suit, else the first column
      from the left of which that is true. */
  lemma FirstLift(ps: Layout)
    requires Open(ps)
    ensures var k := NextLift(ps);
            if k == -1 then forall j :: 1 <= j < 13 ==> !IsNext(ps, j)
            else (k == 1 || 6 <= k < 13) && IsNext(ps, k) && forall j :: 1 <= j < k ==> !IsNext(ps, j)
  {
    forall j | 1 <= j < 13 ensures IsNext(ps, j) <==> CanLift(ps, j) {
      if IsSource(j) && ps[j] != [] { SlotIsOwnSuit(ps, j); }
    }
  }

  /** Pile j is the waste or a column, and its top card continues the foundation of its suit. */
  predicate IsNext(ps: Layout, j: int) {
    && (j == 1 || 6 <= j < 13) && ps[j] != []
    && var c := Last(ps[j]); 0 <= c.suit < 4 && c.value == |ps[2 + c.suit]| + 1
  }

  /** The next card of the auto-finish takes off in the tick in which nothing flies. */
  lemma AutoSendsUp(b: Board, hops: nat)
    requires Inv(b) && b.auto && b.flight == NoFlight
    ensures var d := TimerTick(b, hops);
            d.flight.Flight? && var k := d.flight.src;
            && IsNext(b.piles, k) && (forall j :: 1 <= j < k ==> !IsNext(b.piles, j))
            && d.flight == Flight(Last(b.piles[k]), k, 2 + Last(b.piles[k]).suit, 6 <= k && |b.piles[k]| > 1, false, 0,
              Steps(hops))
            && d == b.(piles := b.piles[k := b.piles[k][..|b.piles[k]| - 1]], flight := d.flight)
  {
    SettledFacts(b);
    OpenWhenUp(b.piles);
    AutoMoves(b);
    FirstLift(b.piles);
    SlotIsOwnSuit(b.piles, NextLift(b.piles));
  }

  /** A flight of s steps is over in the s-th tick, and until then nothing but its step changes. */
  lemma {:induction false} FlightLasts(b: Board, hs: seq<nat>)
    requires b.flight.Flight? && 0 <= b.flight.step < b.flight.steps && |hs| <= b.flight.steps - b.flight.step
    ensures Ticks(b, hs) == if |hs| < b.flight.steps - b.flight.step
                            then b.(flight := b.flight.(step := b.flight.step + |hs|)) else Finish(b)
    decreases |hs|
  {
    if hs != [] && b.flight.step + 1 < b.flight.steps {
      FlightLasts(TimerTick(b, hs[0]), hs[1..]);
    } else if hs != [] {
      assert hs[1..] == [];
    }
  }

  /** The card in flight lands on its foundation and the column it left shows its next card. */
  lemma FlightLands(b: Board)
    requires Inv(b) && b.flight.Flight?
    ensures var d, src, dst := Finish(b), b.flight.src, b.flight.dst;
            && d == b.(piles := d.piles, flight := NoFlight, won := d.won, auto := d.auto)
            && dst == 2 + b.flight.card.suit && b.flight.card.value == |b.piles[dst]| + 1
            && d.piles[dst] == b.piles[dst] + [b.flight.card] && ShowsNext(src, b.piles[src], d.piles[src])
            && (forall k :: 0 <= k < 13 && k != dst && k != src ==> d.piles[k] == b.piles[k])
  {
    RestAt(b);
    var dst := b.flight.dst;
    assert PileShape(dst, b.piles[dst]);
    if b.piles[dst] != [] { assert Last(b.piles[dst]) == Card(|b.piles[dst]|, dst - 2, true); }
  }

  /** A tick with nothing in the air and the auto-finish off changes nothing. */
  lemma IdleTick(b: Board, hops: nat)
    requires b.flight == NoFlight && !b.auto
    ensures Step(b, Tick(hops)) == b
  {
  }

  /** A resize leaves nothing in the air or in hand and the auto-finish off; a card that was flying has landed. */
  lemma ResizeSettles(b: Board)
    requires Inv(b)
    ensures var d := Step(b, Resize);
            && d.flight == NoFlight && d.drag == NoDrag && !d.auto
            && (b.flight == NoFlight ==> d.piles == b.piles)
            && (b.flight.Flight? ==> d.piles == Finish(b).piles)
            && d.lost == b.lost + if b.drag.Drag? then b.drag.cards else []
  {
  }

  // ---------------------------------------------------------------- the auto-finish and the win

  /** All columns open, no card in the stock, and some order of foundation moves wins: the game can finish itself. */
  ghost predicate MayFinish(b: Board) {
    && !b.won && b.piles[0] == [] && Winnable(b.piles)
    && (forall k, j :: 6 <= k < 13 && 0 <= j < |b.piles[k]| ==> b.piles[k][j].faceUp)
  }

  /** The events after which the game asks itself whether it can finish: a draw that moves cards, a run dropped on
      a pile, and the landing of a double-clicked card. */
  predicate Asks(b: Board, e: Event) {
    match e
    case Draw => b.piles[0] != [] || b.piles[1] != []
    case Drop(t) => t != -1
    case Tick(_) => b.flight.Flight? && b.flight.trigger && b.flight.step + 1 >= b.flight.steps
    case _ => false
  }

  /** After such an event the auto-finish is on exactly when the game can finish. */
  lemma AutoStartsWhen(b: Board, e: Event)
    requires Inv(b) && Enabled(b, e) && Asks(b, e)
    ensures Step(b, e).auto <==> MayFinish(Step(b, e))
  {
    hide Winnable;
    var d := Step(b, e);
    StepKept(b, e);
    if d.auto { AutoMayFinish(d); }
    assert MayFinish(d) ==> ColumnsUp(d.piles);
  }

  lemma AutoMayFinish(b: Board)
    requires Inv(b) && b.auto && b.flight == NoFlight
    ensures MayFinish(b)
  {
    forall k, j | 6 <= k < 13 && 0 <= j < |b.piles[k]| ensures b.piles[k][j].faceUp { assert AllUp(b.piles[k]); }
  }

  /** No other event turns it on; it goes off with the win, with a resize and with a new game. */
  lemma AutoKeptElse(b: Board, e: Event)
    requires Inv(b) && Enabled(b, e) && !Asks(b, e)
    ensures var d := Step(b, e);
            d.auto <==> b.auto && !d.won && !e.Resize? && !e.NewGame?
  {
    if b.auto && b.flight == NoFlight { AutoMoves(b); }
  }

  /** The game is won in the event that brings the 52nd card up, and stays won until the next game. */
  lemma WonWhen(b: Board, e: Event)
    requires Inv(b) && Enabled(b, e)
    ensures var d := Step(b, e);
            d.won <==> !e.NewGame? && (b.won || |d.piles[2]| + |d.piles[3]| + |d.piles[4]| + |d.piles[5]| == 52)
  {
    hide Inv, Winnable;
    var d := Step(b, e);
    StepKept(b, e);
    FullIsWon(b);
    FullIsWon(d);
    if e.NewGame? { DealtEmpty(e.deck); }
    WonStays(b, e);
  }

  lemma FullIsWon(b: Board)
    requires Inv(b)
    ensures FoundationTotal(b.piles) == DECK ==> b.won
  {
    RestAt(b);
    SizeSplit(b.piles);
  }

  lemma WonStays(b: Board, e: Event)
    requires Inv(b) && Enabled(b, e)
    ensures Step(b, e).won ==> !e.NewGame? && (b.won || FoundationTotal(Step(b, e).piles) == DECK)
    ensures b.won && !e.NewGame? ==> Step(b, e).won
  {
    hide Winnable;
    if b.auto && b.flight == NoFlight { AutoMoves(b); }
  }

  lemma DealtEmpty(deck: seq<Card>)
    requires |deck| == DECK
    ensures FoundationTotal(Deal(deck)) == 0
  {
  }

  /** In every reachable game: if an event after which it asks itself leaves an unwon game with an empty stock, open
      columns and a winning order, then the timer alone puts all 52 cards up, in nine ticks a card at most. */
  lemma RequestedGameFinishes(deck: seq<Card>, es: seq<Event>, b: Board, e: Event, hs: seq<nat>)
    requires Shuffled(deck) && Reached(deck, es, b) && Enabled(b, e) && Asks(b, e)
    requires MayFinish(Step(b, e)) && |hs| >= 9 * (DECK - FoundationTotal(Step(b, e).piles))
    ensures AllHome(Ticks(Step(b, e), hs))
    ensures var d := Ticks(Step(b, e), hs);
            && d.won && !d.auto && d.flight == NoFlight && d.piles[0] == d.piles[1] == []
            && (forall k :: 6 <= k < 13 ==> d.piles[k] == [])
            && (forall f :: 2 <= f < 6 ==> |d.piles[f]| == 13)
            && (forall f, v :: 2 <= f < 6 && 0 <= v < 13 ==> d.piles[f][v] == Card(v + 1, f - 2, true))
  {
    hide Inv, Step, Enabled, Asks, MayFinish, AllHome, Ticks;
    ReachedInv(deck, es, b);
    StepKept(b, e);
    AutoStartsWhen(b, e);
    NothingFlies(b, e);
    PromiseKept(Step(b, e), hs);
    HomeIs(Ticks(Step(b, e), hs));
  }

  lemma HomeIs(d: Board)
    requires AllHome(d)
    ensures d.won && !d.auto && d.flight == NoFlight && d.piles[0] == d.piles[1] == []
    ensures forall k :: 6 <= k < 13 ==> d.piles[k] == []
    ensures forall f :: 2 <= f < 6 ==> |d.piles[f]| == 13
    ensures forall f, v :: 2 <= f < 6 && 0 <= v < 13 ==> d.piles[f][v] == Card(v + 1, f - 2, true)
  {
  }

  lemma NothingFlies(b: Board, e: Event)
    requires Inv(b) && Enabled(b, e) && Asks(b, e)
    ensures Step(b, e).flight == NoFlight
  {
    hide Winnable;
    if b.flight.Flight? { FinishKept(b); }
  }

  // ---------------------------------------------------------------- the columns

  /** In every reachable state: on an open card of a column lies the card one lower of the other colour, open too; the
      closed cards of column i are at most i, and lie under the open ones. */
  lemma ColumnsAlternate(deck: seq<Card>, es: seq<Event>, b: Board, k: nat, j: nat)
    requires Shuffled(deck) && Reached(deck, es, b) && 6 <= k < 13 && j < |b.piles[k]|
    ensures b.piles[k][j].faceUp && j + 1 < |b.piles[k]| ==>
      b.piles[k][j + 1].faceUp && Builds(b.piles[k][j], b.piles[k][j + 1])
    ensures !b.piles[k][j].faceUp ==> j < k - 6
    ensures 1 <= b.piles[k][j].value <= 13 && 0 <= b.piles[k][j].suit < 4
  {
    ReachedInv(deck, es, b);
    RestAt(b);
    assert PileShape(k, b.piles[k]);
    PartCards(b.piles, k, j);
    if j + 1 < |b.piles[k]| { PartCards(b.piles, k, j + 1); }
  }

  /** With nothing in hand or in the air, and no run lost by a resize, every column that has cards ends in an open
      one. */
  lemma TopsOpen(deck: seq<Card>, es: seq<Event>, b: Board, k: nat)
    requires Shuffled(deck) && Reached(deck, es, b) && 6 <= k < 13 && b.piles[k] != []
    requires b.lost == [] && b.drag == NoDrag && b.flight == NoFlight
    ensures b.piles[k][|b.piles[k]| - 1].faceUp
  {
    ReachedInv(deck, es, b);
    SettledFacts(b);
    assert TopUp(b.piles[k]);
  }

  /** The deck of the game that is being played after the events es. */
  function CurrentDeck(deck: seq<Card>, es: seq<Event>): seq<Card> {
    if es == [] then deck
    else if Last(es).NewGame? then Last(es).deck
    else CurrentDeck(deck, Front(es))
  }

  /** The cards dealt first to the seven columns. */
  function FirstRow(deck: seq<Card>): (xs: seq<Name>)
    requires |deck| == DECK
    ensures |xs| == 7
  {
    [NameOf(deck[0]), NameOf(deck[1]), NameOf(deck[3]), NameOf(deck[6]), NameOf(deck[10]), NameOf(deck[15]),
     NameOf(deck[21])]
  }

  /** The bottom card of each column that has one is a king or the card it was dealt first. */
  ghost predicate Bottoms(ps: Layout, xs: seq<Name>)
    requires |xs| == 7
  {
    forall k :: IsColumn(k) && ps[k] != [] ==> ps[k][0].value == 13 || NameOf(ps[k][0]) == xs[k - 6]
  }

  lemma BottomsDealt(deck: seq<Card>)
    requires Shuffled(deck)
    ensures Bottoms(Deal(deck), FirstRow(deck))
  {
    hide Deal, FirstRow;
    forall k | IsColumn(k) ensures |Deal(deck)[k]| > 0 && NameOf(Deal(deck)[k][0]) == FirstRow(deck)[k - 6] {
      DealtCards(deck, k - 6, 0);
      FirstRowAt(deck, k - 6);
    }
  }

  lemma FirstRowAt(deck: seq<Card>, i: nat)
    requires |deck| == DECK && i < 7
    ensures i * (i + 1) / 2 < DECK && FirstRow(deck)[i] == NameOf(deck[i * (i + 1) / 2])
  {
    assert i == 0 || i == 1 || i == 2 || i == 3 || i == 4 || i == 5 || i == 6;
  }

  lemma BottomsMoved(ps: Layout, src: nat, n: nat, dst: nat, xs: seq<Name>)
    requires |xs| == 7 && Bottoms(ps, xs) && LegalMove(ps, src, n, dst)
    ensures Bottoms(MoveRun(ps, src, n, dst), xs)
  {
    var qs, at := MoveRun(ps, src, n, dst), |ps[src]| - n;
    MoveRunPiles(ps, src, n, dst);
    forall k | IsColumn(k) && qs[k] != [] ensures qs[k][0].value == 13 || NameOf(qs[k][0]) == xs[k - 6] {
      if src == dst {
        assert ps[src][..at] + ps[src][at..] == ps[src];
      } else if k == dst && ps[dst] == [] {
        assert qs[k][0] == ps[src][at];
      }
    }
  }

  /** Cutting cards off the columns leaves the bottoms that remain. */
  lemma BottomsCut(ps: Layout, qs: Layout, xs: seq<Name>)
    requires |xs| == 7 && Bottoms(ps, xs) && forall k :: IsColumn(k) ==> qs[k] <= ps[k]
    ensures Bottoms(qs, xs)
  {
    forall k | IsColumn(k) && qs[k] != [] ensures qs[k][0].value == 13 || NameOf(qs[k][0]) == xs[k - 6] {
      assert qs[k][0] == ps[k][0];
    }
  }

  lemma WholeAbove(b: Board)
    ensures forall k :: 0 <= k < 13 ==> b.piles[k] <= Whole(b)[k]
  {
  }

  lemma FlightKnown(b: Board)
    requires Inv(b)
    ensures FlightInv(b)
  {
  }

  lemma BottomsLanded(b: Board, xs: seq<Name>)
    requires Inv(b) && |xs| == 7 && Bottoms(Whole(b), xs)
    ensures Bottoms(Finish(b).piles, xs)
  {
    hide Bottoms, Inv, Winnable;
    FinishKept(b);
    if b.flight.Flight? {
      FlightKnown(b);
      LandFlightIsMove(b);
      BottomsMoved(Whole(b), b.flight.src, 1, b.flight.dst, xs);
    } else {
      WholeAbove(b);
      BottomsCut(Whole(b), b.piles, xs);
    }
  }

  /** A draw touches no column, and picking up or sending up only takes cards off that still count. */
  lemma BottomsDrawn(b: Board, xs: seq<Name>)
    requires |xs| == 7 && Bottoms(Whole(b), xs)
    ensures Bottoms(Whole(DrawFromStock(b)), xs)
  {
    hide Bottoms, Winnable;
    var w, w' := Whole(b), Whole(DrawFromStock(b));
    forall k | IsColumn(k) ensures w'[k] == w[k] {
      assert DrawFromStock(b).piles[k] == b.piles[k];
    }
    BottomsCut(w, w', xs);
  }

  lemma BottomsDropped(b: Board, t: int, xs: seq<Name>)
    requires Inv(b) && Enabled(b, Drop(t)) && |xs| == 7 && Bottoms(Whole(b), xs)
    ensures Bottoms(Whole(DropRun(b, t)), xs)
  {
    hide Bottoms, Inv, Winnable, MoveRun, LegalMove, Request;
    if t == -1 {
      CancelKept(b);
    } else {
      LandRunIsMove(b, t);
      DroppedWhole(b, t);
      BottomsMoved(Whole(b), b.drag.src, |b.drag.cards|, t, xs);
    }
  }

  lemma DroppedWhole(b: Board, t: int)
    requires b.drag.Drag? && b.flight == NoFlight && b.drag.cards != [] && 0 <= t < 13
    ensures Whole(DropRun(b, t)) == LandRun(b, t)
  {
  }

  lemma BottomsClicked(b: Board, k: nat, hops: nat, xs: seq<Name>)
    requires Enabled(b, DoubleClick(k, hops)) && |xs| == 7 && Bottoms(Whole(b), xs)
    ensures Bottoms(Whole(DoubleClickOn(b, k, hops)), xs)
  {
    hide Bottoms, Slot;
    if DoubleClickOn(b, k, hops) != b {
      TakeOffWhole(b, k, Slot(b.piles, Last(b.piles[k])), true, FlightSteps(hops));
    }
  }

  lemma BottomsTicked(b: Board, hops: nat, xs: seq<Name>)
    requires Inv(b) && |xs| == 7 && Bottoms(Whole(b), xs)
    ensures Bottoms(Whole(TimerTick(b, hops)), xs)
  {
    hide Bottoms, Slot, NextLift, Winnable, Finish;
    if b.flight.Flight? {
      BottomsLanded(b, xs);
      FinishKept(b);
      FinishedWhole(b);
    } else if b.auto {
      AutoMoves(b);
      var k := NextLift(b.piles);
      LiftSource(b.piles, k);
      TakeOffWhole(b, k, Slot(b.piles, Last(b.piles[k])), false, FlightSteps(hops));
    }
  }

  lemma FinishedWhole(b: Board)
    requires Inv(b) && b.flight.Flight?
    ensures Whole(Finish(b)) == Finish(b).piles
  {
  }

  /** Every event keeps the bottoms, counted with the run in hand and the card in flight. */
  lemma BottomsKept(b: Board, e: Event, xs: seq<Name>)
    requires Inv(b) && Enabled(b, e) && |xs| == 7 && Bottoms(Whole(b), xs) && !e.NewGame?
    ensures Bottoms(Whole(Step(b, e)), xs)
  {
    hide Bottoms, Inv, Winnable, DrawFromStock, DropRun, DoubleClickOn, TimerTick, Finish, Whole;
    match e
    case Draw => BottomsDrawn(b, xs);
    case BeginDrag(k, i) => StartDragKept(b, k, i);
    case Drop(t) => BottomsDropped(b, t, xs);
    case DoubleClick(k, hops) => BottomsClicked(b, k, hops, xs);
    case Tick(hops) => BottomsTicked(b, hops, xs);
    case Resize =>
      BottomsLanded(b, xs);
      FinishKept(b);
      SettledWhole(Resized(b));
  }

  lemma SettledWhole(b: Board)
    requires b.drag == NoDrag && b.flight == NoFlight
    ensures Whole(b) == b.piles
  {
  }

  /** In every reachable state a column that was emptied has been started again by a king: its bottom card is a king, or
      still the card dealt to it first. */
  lemma {:induction false} KingsStartColumns(deck: seq<Card>, es: seq<Event>, b: Board)
    requires Shuffled(deck) && Reached(deck, es, b)
    ensures |CurrentDeck(deck, es)| == DECK
    ensures Bottoms(Whole(b), FirstRow(CurrentDeck(deck, es))) && Bottoms(b.piles, FirstRow(CurrentDeck(deck, es)))
    decreases |es|
  {
    hide Bottoms, FirstRow, Inv, Step, Whole;
    if es == [] {
      BottomsDealt(deck);
      SettledWhole(b);
    } else {
      var e := Last(es);
      var b0 :| Reached(deck, Front(es), b0) && Enabled(b0, e) && b == Step(b0, e);
      KingsStartColumns(deck, Front(es), b0);
      ReachedInv(deck, Front(es), b0);
      if e.NewGame? { BottomsFresh(b0, e); } else { BottomsKept(b0, e, FirstRow(CurrentDeck(deck, es))); }
      WholeAbove(b);
      BottomsCut(Whole(b), b.piles, FirstRow(CurrentDeck(deck, es)));
    }
  }

  lemma BottomsFresh(b: Board, e: Event)
    requires Enabled(b, e) && e.NewGame?
    ensures |e.deck| == DECK && Bottoms(Whole(Step(b, e)), FirstRow(e.deck))
  {
    BottomsDealt(e.deck);
  }
}
