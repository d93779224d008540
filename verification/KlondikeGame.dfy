/** The card game widget: its fields, changed in place by the handlers of mouse, keys, timer and resize. Each handler
    takes the board exactly to the state that the transition of KlondikeBoard names. */
module KlondikeGame {
  import opened Sequences
  import opened KlondikeRules
  import opened KlondikeFinish
  import opened KlondikeTable
  import opened KlondikeBoard
  import opened KlondikeShuffle

  const FAR := 0x7FFF_FFFF

  class Game {
    const table: Table
    var won: bool
    var autoFinishing: bool
    // the run in the player's hand
    var dragging: bool
    var dragSrc: PileId
    const dragCards: array<Card>
    var dragCount: nat
    // the card in flight
    var flight: Flight
    ghost var lost: seq<Card>

    ghost predicate Valid()
      reads this, table, table.count, table.cards
    {
      table.Valid() && dragCards.Length == 13 && dragCount <= 13
    }

    ghost function View(): Board
      requires Valid()
      reads this, table, table.cards, table.count, dragCards
    {
      Board(table.ps,
            if dragging then Drag(dragSrc, dragCards[..dragCount]) else NoDrag,
            flight, won, autoFinishing, lost)
    }

    ghost function Repr(): set<object> { {this, table, table.cards, table.count, dragCards} }

    /** A new widget starts its first game at once. */
    constructor (rolls: seq<nat>)
      requires |rolls| == DECK
      ensures Valid() && Shuffled(ShuffledBy(rolls)) && View() == Start(ShuffledBy(rolls))
    {
      table := new Table();
      dragCards := new Card[13](j => Card(0, 0, false));
      won, autoFinishing := false, false;
      dragging, dragSrc, dragCount := false, STOCK, 0;
      flight, lost := NoFlight, [];
      new;
      StartGame(rolls);
    }

    /** Build the deck and shuffle it: rolls[i] is the random number drawn for position i. */
    method ShuffledDeck(rolls: seq<nat>) returns (deck: array<Card>)
      requires |rolls| == DECK
      ensures fresh(deck) && deck[..] == ShuffledBy(rolls) && Shuffled(deck[..])
    {
      hide Shuffled, FullDeck, Shuffle, Swap;
      deck := new Card[DECK](k => Card(1, 0, false));
      for s := 0 to 4
        invariant forall k :: 0 <= k < s * 13 ==> deck[k] == NewDeck()[k]
      {
        for v := 1 to 14
          invariant forall k :: 0 <= k < s * 13 + v - 1 ==> deck[k] == NewDeck()[k]
        {
          deck[s * 13 + (v - 1)] := Card(v, s, false);
        }
      }
      assert deck[..] == NewDeck();
      ShuffledByIsDeck(rolls);
      var i := 51;
      while i > 0
        invariant 0 <= i <= 51 && Shuffle(deck[..], rolls, i) == ShuffledBy(rolls)
      {
        var j := rolls[i] % (i + 1);
        ShuffleNext(deck[..], rolls, i);
        deck[i], deck[j] := deck[j], deck[i];
        i := i - 1;
      }
      ShuffleEnds(deck[..], rolls);
    }

    /** Put every card back and deal a shuffled deck. */
    method StartGame(rolls: seq<nat>)
      requires Valid() && |rolls| == DECK
      modifies Repr()
      ensures Valid() && Shuffled(ShuffledBy(rolls)) && View() == Start(ShuffledBy(rolls))
    {
      table.Clear();
      var deck := ShuffledDeck(rolls);
      DealOut(deck);
      won := false;
      autoFinishing := false;
      flight := NoFlight;
      dragging := false;
      dragCount := 0;
      lost := [];
    }

    method DealOut(deck: array<Card>)
      requires Valid() && deck.Length == DECK && AllDown(deck[..]) && table.ps == seq(PILES, _ => [])
      requires deck !in Repr()
      modifies table, table.cards, table.count
      ensures Valid() && table.ps == Deal(deck[..])
    {
      ghost var d := deck[..];
      var idx := 0;
      for col := 0 to 7
        invariant table.Valid() && deck[..] == d
        invariant idx == Triangle(col) <= 28
        invariant forall k :: 0 <= k < PILES ==> table.ps[k] == DealtUpTo(Deal(d), k, FIRST_COLUMN + col)
      {
        idx := DealColumn(deck, col, idx);
      }
      while idx < DECK
        invariant 28 <= idx <= DECK && table.Valid() && deck[..] == d
        invariant SameBut(table.ps, Deal(d), STOCK) && table.ps[STOCK] == d[28..idx]
        decreases DECK - idx
      {
        table.Push(STOCK, Down(deck[idx]));
        assert d[28..idx] + [d[idx]] == d[28..idx + 1];
        idx := idx + 1;
      }
      assert d[28..DECK] == d[28..] == Deal(d)[STOCK];
    }

    method DealColumn(deck: array<Card>, col: nat, from: nat) returns (idx: nat)
      requires Valid() && deck.Length == DECK && deck !in Repr() && col < 7
      requires from == Triangle(col) && table.ps[FIRST_COLUMN + col] == []
      modifies table, table.cards, table.count
      ensures Valid() && idx == Triangle(col + 1) <= 28
      ensures table.ps == old(table.ps)[FIRST_COLUMN + col := Deal(deck[..])[FIRST_COLUMN + col]]
      ensures deck[..] == old(deck[..])
    {
      ghost var d := deck[..];
      DealtSize(col);
      idx := from;
      for row := 0 to col + 1
        invariant Valid() && deck[..] == d && idx == from + row
        invariant table.ps[FIRST_COLUMN + col] == if row <= col then d[from..idx] else RevealTop(d[from..idx])
        invariant SameBut(table.ps, old(table.ps), FIRST_COLUMN + col)
      {
        var c := deck[idx];
        assert d[from..idx + 1] == d[from..idx] + [d[idx]];
        if row == col { c := Up(c); }
        table.Push(FIRST_COLUMN + col, c);
        idx := idx + 1;
      }
    }

    method CheckForWin()
      requires Valid()
      modifies this`won
      ensures Valid() && View() == CheckWin(old(View()))
    {
      var total := table.Total();
      if total == DECK && !won { won := true; }
    }

    method CanAutoFinishGame() returns (r: bool)
      requires Valid() && Shape(View().piles) && Part(View().piles)
      ensures r == CanAutoFinish(View())
    {
      if won || table.count[STOCK] > 0 { return false; }
      var up := table.AllColumnsUp();
      if !up { return false; }
      OpenWhenUp(View().piles);
      r := table.TrialRun();
    }

    method RequestAutoFinish()
      requires Valid() && Shape(View().piles) && Part(View().piles)
      modifies this`autoFinishing
      ensures Valid() && View() == Request(old(View()))
    {
      if autoFinishing || flight.Flight? { return; }
      var can := CanAutoFinishGame();
      if can { autoFinishing := true; }
    }

    /** A press on the stock, or the draw key. */
    method DrawCard()
      requires Valid() && Inv(View()) && !Busy(View())
      modifies Repr()
      ensures Valid() && View() == DrawFromStock(old(View())) && Inv(View())
    {
      ghost var b := View();
      RestAt(b);
      DrawKept(b);
      if table.count[STOCK] > 0 {
        var c := table.Pop(STOCK);
        table.Push(WASTE, Up(c));
        AfterDraw(b);
        RequestAutoFinish();
      } else if table.count[WASTE] > 0 {
        TurnBack();
        AfterDraw(b);
        RequestAutoFinish();
      }
    }

    method TurnBack()
      requires Valid() && View().piles[STOCK] == []
      modifies table, table.cards, table.count
      ensures Valid() && table.ps == DrawMove(old(table.ps))
    {
      ghost var w := table.ps[WASTE];
      while table.count[WASTE] > 0
        invariant Valid() && |table.ps[STOCK]| + |table.ps[WASTE]| == |w|
        invariant table.ps[WASTE] == w[..|table.ps[WASTE]|]
        invariant table.ps[STOCK] == Reversed(w)[..|table.ps[STOCK]|]
        invariant forall j :: WASTE < j < PILES ==> table.ps[j] == old(table.ps)[j]
        decreases table.count[WASTE]
      {
        var c := table.Pop(WASTE);
        table.Push(STOCK, Down(c));
      }
      assert table.ps[WASTE] == [] && table.ps[STOCK] == Reversed(w);
      assert table.ps == DrawMove(old(table.ps));
    }

    /** The press has moved far enough: take the run from index i off pile k. A press held over a change of the pile may
        lie past its end. */
    method BeginDragging(k: PileId, i: int) returns (started: bool)
      requires Valid() && Inv(View()) && !Busy(View()) && !dragging && i < PILE_ROOM
      modifies Repr()
      ensures Valid() && started == dragging
      ensures i < |old(table.ps)[k]| ==> View() == StartDrag(old(View()), k, i) && Inv(View())
      ensures i >= |old(table.ps)[k]| ==> started == (IsColumn(k) && old(table.cards[k, i].faceUp))
      ensures i >= |old(table.ps)[k]| ==>
        View() == if started then StaleDrag(old(View()), k, old(table.Slots(k, 0, PILE_ROOM)), i) else old(View())
      ensures i >= |old(table.ps)[k]| && started ==>
        (EachOnce(View().piles, View().lost) <==> i == |old(table.ps)[k]|)
    {
      ghost var b := View();
      if i < 0 { return false; }
      if i >= |b.piles[k]| { StaleDragConserves(b, k, table.Slots(k, 0, PILE_ROOM), i); }
      var ok := table.CanDrag(k, i);
      if !ok { return false; }
      if i < |b.piles[k]| {
        StartDragKept(b, k, i);
        RunInHandFits(StartDrag(b, k, i));
      }
      Detach(k, i);
      return true;
    }

    method Detach(k: PileId, i: nat)
      requires Valid() && |table.ps[k]| <= i + 13 && i < PILE_ROOM
      modifies Repr()
      ensures Valid() && dragging
      ensures i < |old(table.ps)[k]| ==>
        View() == old(View()).(piles := old(table.ps)[k := old(table.ps)[k][..i]], drag := Drag(k,
          old(table.ps)[k][i..]))
      ensures i >= |old(table.ps)[k]| ==> View() == StaleDrag(old(View()), k, old(table.Slots(k, 0, PILE_ROOM)), i)
    {
      ghost var p := table.ps[k];
      if i >= |p| { table.SlotsPart(k, |p|, i); }
      dragging, dragSrc := true, k;
      TakeRun(k, i);
      assert dragCards[..dragCount] == if i < |p| then p[i..] else [];
      table.SetCount(k, i);
    }

    method TakeRun(k: PileId, i: nat)
      requires Valid() && |table.ps[k]| <= i + 13
      modifies `dragCount, dragCards
      ensures Valid() && dragCards[..dragCount] == if i < |table.ps[k]| then table.ps[k][i..] else []
    {
      ghost var p := table.ps[k];
      dragCount := 0;
      while i + dragCount < table.count[k]
        invariant Valid() && (dragCount > 0 ==> i + dragCount <= |p|)
        invariant i < |p| ==> dragCards[..dragCount] == p[i..i + dragCount]
        decreases |p| - dragCount
      {
        assert table.cards[k, i + dragCount] == p[i + dragCount];
        dragCards[dragCount] := table.cards[k, i + dragCount];
        dragCount := dragCount + 1;
      }
      assert i < |p| ==> p[i..|p|] == p[i..];
    }

    /** The nearest pile that takes the run: dist[k] is the squared distance to pile k. */
    method NearestTarget(dist: seq<int>) returns (target: int)
      requires Valid() && dragging && dragCount > 0 && |dist| == PILES
      ensures target == -1 || (Accepts(View(), target) && dist[target] < FAR)
      ensures forall k :: 0 <= k < PILES && Accepts(View(), k) && dist[k] < FAR ==>
        target != -1 && dist[target] <= dist[k]
    {
      target := -1;
      var best := FAR;
      for k := FIRST_FOUNDATION to PILES
        invariant target == -1 ==> best == FAR
        invariant target != -1 ==> FIRST_FOUNDATION <= target < k && dist[target] == best < FAR
        invariant target != -1 ==> Accepts(View(), target)
        invariant forall j :: FIRST_FOUNDATION <= j < k && Accepts(View(), j) ==> best <= dist[j]
      {
        if (IsFoundation(k) ==> dragCount == 1) && dist[k] < best {
          var ok := table.CanPlace(dragCards[0], k);
          if ok { target, best := k, dist[k]; }
        }
      }
    }

    /** The button is released: the run lands on the nearest pile that takes it, or goes back. */
    method Release(dist: seq<int>) returns (target: int)
      requires Valid() && Inv(View()) && dragging && |dist| == PILES
      modifies Repr()
      ensures Valid() && Inv(View())
      ensures (target == -1 || Accepts(old(View()), target)) && View() == DropRun(old(View()), target)
      ensures forall k :: 0 <= k < PILES && Accepts(old(View()), k) && dist[k] < FAR ==>
        target != -1 && dist[target] <= dist[k]
    {
      target := NearestTarget(dist);
      if target == -1 { PutBack(); } else { LandOn(target); }
    }

    method PutBack()
      requires Valid() && Inv(View()) && dragging
      modifies Repr()
      ensures Valid() && Inv(View()) && View() == DropRun(old(View()), -1)
    {
      ghost var b := View();
      CancelKept(b);
      SettledBounds(DropRun(b, -1));
      assert DropRun(b, -1).piles[b.drag.src] == b.piles[b.drag.src] + b.drag.cards;
      LayCards(dragSrc, dragCount);
      dragging, dragCount := false, 0;
    }

    method LandOn(target: PileId)
      requires Valid() && Inv(View()) && dragging && Accepts(View(), target)
      modifies Repr()
      ensures Valid() && Inv(View()) && View() == DropRun(old(View()), target)
    {
      ghost var b := View();
      LandRunKept(b, target);
      LandedBounds(b, target);
      LayRun(target);
      CheckForWin();
      if !won { RequestAutoFinish(); }
    }

    /** The run lies on its new pile and the pile it came from shows its next card. */
    method LayRun(target: PileId)
      requires Valid() && dragging && dragCount > 0 && |table.ps[target]| + dragCount <= PILE_ROOM
      modifies Repr()
      ensures Valid() && View() == old(View()).(piles := LandRun(old(View()), target), drag := NoDrag)
    {
      ghost var b := View();
      assert dragCards[..1] == b.drag.cards[..1] && dragCards[..dragCount] == b.drag.cards;
      LayCards(target, if IsFoundation(target) then 1 else dragCount);
      if IsColumn(dragSrc) && table.count[dragSrc] > 0 { table.Reveal(dragSrc); }
      dragging, dragCount := false, 0;
    }

    /** Put the first n cards of the run on pile k. */
    method LayCards(k: PileId, n: nat)
      requires Valid() && n <= dragCount && |table.ps[k]| + n <= PILE_ROOM
      modifies table, table.cards, table.count
      ensures Valid() && table.ps == old(table.ps)[k := old(table.ps)[k] + dragCards[..n]]
      ensures dragCards[..] == old(dragCards[..])
    {
      ghost var run := dragCards[..n];
      assert old(table.ps)[k] + run[..0] == old(table.ps)[k];
      for i := 0 to n
        invariant Valid() && dragCards[..] == old(dragCards[..]) && dragCards[..n] == run
        invariant table.ps[k] == old(table.ps)[k] + run[..i] && SameBut(table.ps, old(table.ps), k)
      {
        table.Push(k, dragCards[i]);
        assert run[..i] + [run[i]] == run[..i + 1];
      }
      assert run[..n] == run;
    }

    /** Refused unless index names the top card, the pile dst takes it, and no other card flies. */
    method BeginFlight(k: PileId, index: int, dst: PileId, trigger: bool, hops: nat) returns (begun: bool)
      requires Valid()
      modifies Repr()
      ensures Valid()
      ensures var b := old(View());
              begun == (0 <= index == |b.piles[k]| - 1 && b.flight == NoFlight
                        && CanPlaceOn(Last(b.piles[k]), dst, b.piles[dst]))
      ensures View() == if begun then TakeOff(old(View()), k, dst, trigger, FlightSteps(hops)) else old(View())
    {
      if index < 0 || index + 1 != table.count[k] || flight.Flight? { return false; }
      var c := table.cards[k, index];
      begun := table.CanPlace(c, dst);
      if begun { Launch(k, dst, trigger, hops); }
    }

    method Launch(k: PileId, dst: PileId, trigger: bool, hops: nat)
      requires Valid() && View().piles[k] != []
      modifies Repr()
      ensures Valid() && View() == TakeOff(old(View()), k, dst, trigger, FlightSteps(hops))
    {
      var turnUp := IsColumn(k) && table.count[k] > 1;
      var c := table.Pop(k);
      flight := Flight(c, k, dst, turnUp, trigger, 0, FlightSteps(hops));
    }

    method OnDoubleClick(k: PileId, hops: nat)
      requires Valid() && Inv(View()) && !Busy(View()) && !dragging
      modifies Repr()
      ensures Valid() && View() == DoubleClickOn(old(View()), k, hops) && Inv(View())
    {
      DoubleClickKept(View(), k, hops);
      if k == STOCK || table.count[k] <= 0 { return; }
      var c := table.cards[k, table.count[k] - 1];
      if IsColumn(k) && !c.faceUp { return; }
      var dst := table.FindFoundation(c);
      if dst == -1 { return; }
      var _ := BeginFlight(k, table.count[k] - 1, dst, true, hops);
    }

    /** The waste first, then the columns from left to right. */
    method FindNextMove() returns (k: int, dst: int)
      requires Valid()
      ensures k == NextLift(View().piles)
      ensures k != -1 ==> dst == Slot(View().piles, Last(View().piles[k]))
    {
      dst := Destination(WASTE);
      if dst != -1 { return WASTE, dst; }
      for i := FIRST_COLUMN to PILES
        invariant NextLift(table.ps) == NextColumn(table.ps, i)
      {
        dst := Destination(i);
        if dst != -1 { return i, dst; }
      }
      return -1, -1;
    }

    /** Where the top card of source k can go, or -1. */
    method Destination(k: PileId) returns (dst: int)
      requires Valid() && IsSource(k)
      ensures dst == if CanLift(table.ps, k) then Slot(table.ps, Last(table.ps[k])) else -1
    {
      if table.count[k] <= 0 { return -1; }
      dst := table.FindFoundation(table.cards[k, table.count[k] - 1]);
    }

    method FinishFlight()
      requires Valid() && Inv(View())
      modifies Repr()
      ensures Valid() && View() == Finish(old(View())) && Inv(View())
    {
      ghost var b := View();
      FinishKept(b);
      if flight == NoFlight { return; }
      var trigger := flight.trigger;
      LandedFits(b);
      Land();
      CheckForWin();
      if won {
        autoFinishing := false;
      } else if trigger {
        RequestAutoFinish();
      }
    }

    method Land()
      requires Valid() && flight.Flight? && flight.src != flight.dst && |table.ps[flight.dst]| < PILE_ROOM
      modifies Repr()
      ensures Valid() && View() == old(View()).(piles := LandFlight(old(View())), flight := NoFlight)
    {
      if flight.turnUp { table.Reveal(flight.src); }
      table.Push(flight.dst, flight.card);
      flight := NoFlight;
    }

    method OnTimer(hops: nat)
      requires Valid() && Inv(View())
      modifies Repr()
      ensures Valid() && View() == TimerTick(old(View()), hops) && Inv(View())
    {
      TickKept(View(), hops);
      if flight.Flight? {
        if flight.step + 1 >= flight.steps {
          FinishFlight();
        } else {
          flight := flight.(step := flight.step + 1);
        }
        return;
      }
      if autoFinishing { NextAutoMove(hops); }
    }

    /** Send the next card up, or give up if there is none (which AutoMoves rules out). */
    method NextAutoMove(hops: nat)
      requires Valid() && autoFinishing && flight == NoFlight
      modifies Repr()
      ensures Valid() && View() == TimerTick(old(View()), hops)
    {
      var begun := BeginAutoMove(hops);
      if !begun {
        autoFinishing := false;
        CheckForWin();
      }
    }

    method BeginAutoMove(hops: nat) returns (begun: bool)
      requires Valid()
      modifies Repr()
      ensures Valid()
      ensures begun == (autoFinishing && old(flight) == NoFlight && NextLift(old(View()).piles) != -1)
      ensures var b := old(View()); var k := NextLift(b.piles);
              View() == if begun then TakeOff(b, k, Slot(b.piles, Last(b.piles[k])), false, FlightSteps(hops)) else b
    {
      if !autoFinishing || flight.Flight? { return false; }
      var k, dst := FindNextMove();
      if k == -1 { return false; }
      begun := BeginFlight(k, table.count[k] - 1, dst, false, hops);
    }

    /** A resize lands the card in flight, stops the auto-finish and forgets a run in the player's hand. */
    method OnResize()
      requires Valid() && Inv(View())
      modifies Repr()
      ensures Valid() && View() == Resized(old(View())) && Inv(View())
    {
      hide Inv, Finish;
      ResizeKept(View());
      FinishKeepsRun(View());
      FinishFlight();
      autoFinishing := false;
      LetGo();
    }

    /** The run, if there is one, is forgotten. */
    method LetGo()
      requires Valid()
      modifies `dragging, `dragCount, `lost
      ensures Valid() && View() == old(View()).(drag := NoDrag,
        lost := old(lost) + if old(dragging) then old(dragCards[..dragCount]) else [])
    {
      lost := lost + if dragging then dragCards[..dragCount] else [];
      if dragging {
        dragging := false;
        dragCount := 0;
      }
    }
  }

  lemma FinishKeepsRun(b: Board)
    ensures Finish(b).drag == b.drag && Finish(b).lost == b.lost
  {
  }

  /** After a draw the piles still have their shape. */
  lemma AfterDraw(b: Board)
    requires Inv(b) && !Busy(b)
    requires b.piles[STOCK] != [] || b.piles[WASTE] != []
    ensures Shape(DrawMove(b.piles)) && Part(DrawMove(b.piles))
  {
    DrawKept(b);
    RestAt(DrawFromStock(b));
  }

  /** What pile k holds when the columns before pile `upTo` are dealt. */
  ghost function DealtUpTo(ps: Layout, k: nat, upTo: nat): seq<Card>
    requires k < PILES
  {
    if IsColumn(k) && k < upTo then ps[k] else []
  }

  ghost predicate SameBut(ps: Layout, qs: Layout, k: int) {
    forall j :: 0 <= j < PILES && j != k ==> ps[j] == qs[j]
  }

  lemma SettledBounds(b: Board)
    requires Inv(b)
    ensures forall k :: 0 <= k < PILES ==> |b.piles[k]| <= PILE_ROOM
  {
    RestAt(b);
    PileBounds(b.piles);
  }

  lemma LandedBounds(b: Board, target: int)
    requires Inv(b) && b.drag.Drag? && Accepts(b, target)
    ensures |b.piles[target]| + |b.drag.cards| <= PILE_ROOM
    ensures Shape(LandRun(b, target)) && Part(LandRun(b, target))
  {
    LandRunKept(b, target);
    SettledBounds(DropRun(b, target));
    RestAt(DropRun(b, target));
  }

  lemma LandedFits(b: Board)
    requires Inv(b) && b.flight.Flight?
    ensures b.flight.src != b.flight.dst && |b.piles[b.flight.dst]| < PILE_ROOM
    ensures Shape(LandFlight(b)) && Part(LandFlight(b))
  {
    RestAt(b);
    PileBounds(b.piles);
    FinishKept(b);
    RestAt(Finish(b));
  }
}
