/** Sending top cards to the foundations, one at a time: whatever order is taken, every order that cannot go on
    ends in the same layout. This is what lets a greedy trial run predict a game that is then finished in
    another order. */
module KlondikeFinish {
  import opened Sequences
  import opened KlondikeRules

  /** The first foundation from slot i on that accepts c, or -1. */
  function SlotFrom(ps: Layout, c: Card, i: int): (k: int)
    requires FIRST_FOUNDATION <= i <= FIRST_COLUMN
    ensures k == -1 || (i <= k < FIRST_COLUMN && CanPlaceOn(c, k, ps[k]))
    ensures k == -1 ==> forall f :: i <= f < FIRST_COLUMN ==> !CanPlaceOn(c, f, ps[f])
    decreases FIRST_COLUMN - i
  {
    if i == FIRST_COLUMN then -1
    else if CanPlaceOn(c, i, ps[i]) then i
    else SlotFrom(ps, c, i + 1)
  }

  function Slot(ps: Layout, c: Card): int { SlotFrom(ps, c, FIRST_FOUNDATION) }

  /** The top card of source k can go to a foundation. */
  predicate CanLift(ps: Layout, k: int) {
    IsSource(k) && ps[k] != [] && Slot(ps, Last(ps[k])) != -1
  }

  function Lift(ps: Layout, k: int): Layout
    requires CanLift(ps, k)
  {
    MoveRun(ps, k, 1, Slot(ps, Last(ps[k])))
  }

  /** An order of lifts that can be carried out from ps. */
  predicate Playable(ps: Layout, ms: seq<int>)
    decreases |ms|
  {
    ms == [] || (CanLift(ps, ms[0]) && Playable(Lift(ps, ms[0]), ms[1..]))
  }

  function Play(ps: Layout, ms: seq<int>): Layout
    requires Playable(ps, ms)
    decreases |ms|
  {
    if ms == [] then ps else Play(Lift(ps, ms[0]), ms[1..])
  }

  ghost predicate Stuck(ps: Layout) { forall k :: IsSource(k) ==> !CanLift(ps, k) }

  /** Some order of lifts puts all 52 cards up. */
  ghost predicate Winnable(ps: Layout) {
    exists ms :: Playable(ps, ms) && FoundationTotal(Play(ps, ms)) == DECK
  }

  /** Layouts in which the auto-finish works: no card twice, foundations in order, every source face up. */
  ghost predicate Open(ps: Layout) {
    Part(ps) && forall k :: IsSource(k) ==> AllUp(ps[k])
  }

  /** A foundation takes a card exactly when it is the next one of its suit. */
  lemma SlotIsOwnSuit(ps: Layout, k: int)
    requires Open(ps) && IsSource(k) && ps[k] != []
    ensures var c := Last(ps[k]); var f := FIRST_FOUNDATION + c.suit;
            && 1 <= c.value <= 13 && 0 <= c.suit < 4 && c.faceUp
            && Slot(ps, c) == if |ps[f]| + 1 == c.value then f else -1
  {
    var c := Last(ps[k]);
    PartCards(ps, k, |ps[k]| - 1);
    forall f | IsFoundation(f)
      ensures CanPlaceOn(c, f, ps[f]) <==> f == FIRST_FOUNDATION + c.suit && |ps[f]| + 1 == c.value
    {
      if ps[f] != [] { assert Last(ps[f]) == Card(|ps[f]|, f - FIRST_FOUNDATION, true); }
    }
  }

  /** A lift pops one card and pushes it on the foundation of its suit; nothing else moves. */
  lemma LiftEffect(ps: Layout, k: int)
    requires Open(ps) && CanLift(ps, k)
    ensures var c := Last(ps[k]); var f := FIRST_FOUNDATION + c.suit;
            && IsFoundation(f) && |ps[f]| + 1 == c.value
            && Lift(ps, k) == ps[k := Front(ps[k])][f := ps[f] + [c]]
    ensures Open(Lift(ps, k))
    ensures FoundationTotal(Lift(ps, k)) == FoundationTotal(ps) + 1
    ensures Size(Lift(ps, k)) == Size(ps)
  {
    SlotIsOwnSuit(ps, k);
    var c := Last(ps[k]);
    var f := FIRST_FOUNDATION + c.suit;
    var qs := Lift(ps, k);
    MoveRunPiles(ps, k, 1, f);
    assert ps[k][|ps[k]|-1..] == [c];
    assert RevealTop(Front(ps[k])) == Front(ps[k]);
    assert qs == ps[k := Front(ps[k])][f := ps[f] + [c]];
    LiftOpen(ps, k);
  }

  lemma LiftOpen(ps: Layout, k: int)
    requires Open(ps) && CanLift(ps, k)
    requires var c := Last(ps[k]); var f := FIRST_FOUNDATION + c.suit;
             IsFoundation(f) && |ps[f]| + 1 == c.value && c.faceUp && Slot(ps, c) == f
             && Lift(ps, k) == ps[k := Front(ps[k])][f := ps[f] + [c]]
    ensures Open(Lift(ps, k)) && Size(Lift(ps, k)) == Size(ps)
  {
    var c := Last(ps[k]);
    var f := FIRST_FOUNDATION + c.suit;
    var qs := Lift(ps, k);
    MoveRunSize(ps, k, 1, f);
    forall x ensures Tally(qs, x) == Tally(ps, x) { MoveRunTally(ps, k, 1, f, x); }
    forall g | IsFoundation(g) ensures Ranks(g - FIRST_FOUNDATION, qs[g]) {
      if g == f { assert c == Card(|ps[f]| + 1, c.suit, true); } else { assert qs[g] == ps[g]; }
    }
    forall g | IsSource(g) ensures AllUp(qs[g]) {
      if g != k { assert qs[g] == ps[g]; }
    }
  }

  /** Two lifts from different piles do not disturb each other. */
  lemma LiftsCommute(ps: Layout, a: int, b: int)
    requires Open(ps) && CanLift(ps, a) && CanLift(ps, b) && a != b
    ensures CanLift(Lift(ps, a), b) && CanLift(Lift(ps, b), a)
    ensures Lift(Lift(ps, a), b) == Lift(Lift(ps, b), a)
  {
    LiftEffect(ps, a);
    LiftEffect(ps, b);
    var ca, cb := Last(ps[a]), Last(ps[b]);
    PartCards(ps, a, |ps[a]| - 1);
    assert NameOf(ps[b][|ps[b]| - 1]) != NameOf(ca);
    assert ca.suit != cb.suit;
    LiftElsewhere(ps, a, b);
    LiftElsewhere(ps, b, a);
    UpdatesCommute(ps, a, Front(ps[a]), FIRST_FOUNDATION + ca.suit, ps[FIRST_FOUNDATION + ca.suit] + [ca],
                   b, Front(ps[b]), FIRST_FOUNDATION + cb.suit, ps[FIRST_FOUNDATION + cb.suit] + [cb]);
  }

  /** A lift of another suit from another pile leaves the lift from b as it was. */
  lemma LiftElsewhere(ps: Layout, a: int, b: int)
    requires Open(ps) && CanLift(ps, a) && CanLift(ps, b) && a != b
    requires Last(ps[a]).suit != Last(ps[b]).suit
    ensures CanLift(Lift(ps, a), b)
    ensures var c := Last(ps[b]); var f := FIRST_FOUNDATION + c.suit;
            && IsFoundation(f) && Lift(Lift(ps, a), b) == Lift(ps, a)[b := Front(ps[b])][f := ps[f] + [c]]
  {
    LiftEffect(ps, a);
    LiftEffect(ps, b);
    SlotIsOwnSuit(Lift(ps, a), b);
    LiftEffect(Lift(ps, a), b);
  }

  lemma UpdatesCommute<T>(s: seq<T>, i: nat, x: T, i': nat, x': T, j: nat, y: T, j': nat, y': T)
    requires i < |s| && i' < |s| && j < |s| && j' < |s|
    requires i != j && i != j' && i' != j && i' != j'
    ensures s[i := x][i' := x'][j := y][j' := y'] == s[j := y][j' := y'][i := x][i' := x']
  {
  }

  /** If some order leads to a dead end, then after any first lift an order one shorter leads to the same dead end. */
  lemma {:induction false} AfterAnyLift(ps: Layout, ms: seq<int>, k: int) returns (rest: seq<int>)
    requires Open(ps) && Playable(ps, ms) && Stuck(Play(ps, ms)) && CanLift(ps, k)
    ensures Playable(Lift(ps, k), rest) && Play(Lift(ps, k), rest) == Play(ps, ms)
    ensures |rest| == |ms| - 1
    decreases |ms|
  {
    var m := ms[0];
    if m == k {
      rest := ms[1..];
    } else {
      LiftsCommute(ps, m, k);
      LiftEffect(ps, m);
      var tail := AfterAnyLift(Lift(ps, m), ms[1..], k);
      rest := [m] + tail;
      assert rest[1..] == tail;
    }
  }

  /** Every order of lifts that cannot be continued reaches the same layout. */
  lemma {:induction false} DeadEndsAgree(ps: Layout, ms: seq<int>, ns: seq<int>)
    requires Open(ps)
    requires Playable(ps, ms) && Stuck(Play(ps, ms))
    requires Playable(ps, ns) && Stuck(Play(ps, ns))
    ensures Play(ps, ms) == Play(ps, ns) && |ms| == |ns|
    decreases |ms|
  {
    if ms == [] {
    } else {
      var rest := AfterAnyLift(ps, ns, ms[0]);
      LiftEffect(ps, ms[0]);
      DeadEndsAgree(Lift(ps, ms[0]), ms[1..], rest);
    }
  }

  lemma {:induction false} PlayOpen(ps: Layout, ms: seq<int>)
    requires Open(ps) && Playable(ps, ms)
    ensures Open(Play(ps, ms)) && Size(Play(ps, ms)) == Size(ps)
    ensures FoundationTotal(Play(ps, ms)) == FoundationTotal(ps) + |ms|
    decreases |ms|
  {
    if ms != [] {
      LiftEffect(ps, ms[0]);
      PlayOpen(Lift(ps, ms[0]), ms[1..]);
    }
  }

  /** With 52 cards up there is nothing left to lift. */
  lemma FullIsStuck(ps: Layout)
    requires Open(ps) && FoundationTotal(ps) == DECK
    ensures Stuck(ps)
  {
    SizeSplit(ps);
  }

  /** A dead end is a win exactly when the layout it started from was winnable. */
  lemma DeadEndDecides(ps: Layout, ms: seq<int>)
    requires Open(ps) && Playable(ps, ms) && Stuck(Play(ps, ms))
    ensures Winnable(ps) <==> FoundationTotal(Play(ps, ms)) == DECK
  {
    if Winnable(ps) {
      var ns :| Playable(ps, ns) && FoundationTotal(Play(ps, ns)) == DECK;
      PlayOpen(ps, ns);
      FullIsStuck(Play(ps, ns));
      DeadEndsAgree(ps, ms, ns);
    }
  }

  /** No lift can spoil a winnable layout. */
  lemma WinnableAfterLift(ps: Layout, k: int)
    requires Open(ps) && Winnable(ps) && CanLift(ps, k)
    ensures Winnable(Lift(ps, k))
  {
    var ms :| Playable(ps, ms) && FoundationTotal(Play(ps, ms)) == DECK;
    PlayOpen(ps, ms);
    FullIsStuck(Play(ps, ms));
    var rest := AfterAnyLift(ps, ms, k);
  }

  /** A winnable layout that is not yet finished has a lift. */
  lemma WinnableMoves(ps: Layout)
    requires Open(ps) && Winnable(ps) && FoundationTotal(ps) < DECK
    ensures !Stuck(ps)
  {
    var ms :| Playable(ps, ms) && FoundationTotal(Play(ps, ms)) == DECK;
    assert ms != [] && CanLift(ps, ms[0]);
  }

  lemma {:induction false} PlaySize(ps: Layout, ms: seq<int>)
    requires Playable(ps, ms)
    ensures Size(Play(ps, ms)) == Size(ps)
    decreases |ms|
  {
    if ms != [] {
      MoveRunSize(ps, ms[0], 1, Slot(ps, Last(ps[ms[0]])));
      PlaySize(Lift(ps, ms[0]), ms[1..]);
    }
  }

  /** Cards that are missing from the layout can never be put up. */
  lemma SmallNeverWins(ps: Layout)
    requires Size(ps) < DECK
    ensures !Winnable(ps)
  {
    if Winnable(ps) {
      var ms :| Playable(ps, ms) && FoundationTotal(Play(ps, ms)) == DECK;
      PlaySize(ps, ms);
      SizeSplit(Play(ps, ms));
    }
  }

  lemma WinnableIsWhole(ps: Layout)
    requires Open(ps) && Winnable(ps)
    ensures Size(ps) == DECK
  {
    if Size(ps) < DECK { SmallNeverWins(ps); }
  }

  /** Playing one more lift at the end of an order. */
  lemma {:induction false} PlaySnoc(ps: Layout, ms: seq<int>, k: int)
    requires Playable(ps, ms) && CanLift(Play(ps, ms), k)
    ensures Playable(ps, ms + [k]) && Play(ps, ms + [k]) == Lift(Play(ps, ms), k)
    decreases |ms|
  {
    if ms != [] {
      PlaySnoc(Lift(ps, ms[0]), ms[1..], k);
      assert (ms + [k])[1..] == ms[1..] + [k];
    }
  }
}
