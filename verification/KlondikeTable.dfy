/** The thirteen piles as the game stores them: one row of 24 cards and one count for each pile. */
module KlondikeTable {
  import opened Sequences
  import opened KlondikeRules
  import opened KlondikeFinish

  class Table {
    const cards: array2<Card>
    const count: array<nat>
    ghost var ps: Layout

    /** ps is what the arrays hold: pile k is the first count[k] cards of row k. */
    ghost predicate Valid()
      reads this, count, cards
    {
      && cards.Length0 == PILES && cards.Length1 == PILE_ROOM && count.Length == PILES
      && (forall k :: 0 <= k < PILES ==> |ps[k]| == count[k] <= PILE_ROOM)
      && (forall k, j :: 0 <= k < PILES && 0 <= j < |ps[k]| ==> ps[k][j] == cards[k, j])
    }

    constructor ()
      ensures Valid() && fresh(cards) && fresh(count)
      ensures ps == seq(PILES, _ => [])
    {
      cards := new Card[PILES, PILE_ROOM]((k, j) => Card(0, 0, false));
      count := new nat[PILES](k => 0);
      ps := seq(PILES, _ => []);
    }

    constructor Copy(t: Table)
      requires t.Valid()
      ensures Valid() && fresh(cards) && fresh(count)
      ensures ps == t.ps
    {
      cards := new Card[PILES, PILE_ROOM](
        (k, j) requires 0 <= k < t.cards.Length0 && 0 <= j < t.cards.Length1 reads t, t.cards => t.cards[k, j]);
      count := new nat[PILES](k requires 0 <= k < t.count.Length reads t, t.count => t.count[k]);
      ps := t.ps;
    }

    method Clear()
      requires Valid()
      modifies this, count
      ensures Valid() && ps == seq(PILES, _ => [])
    {
      for i := 0 to PILES
        invariant forall k :: 0 <= k < i ==> count[k] == 0
      {
        count[i] := 0;
      }
      ps := seq(PILES, _ => []);
    }

    /** cards[count++] = c */
    method Push(k: int, c: Card)
      requires Valid() && 0 <= k < PILES && |ps[k]| < PILE_ROOM
      modifies this, cards, count
      ensures Valid() && ps == old(ps)[k := old(ps)[k] + [c]]
    {
      cards[k, count[k]] := c;
      count[k] := count[k] + 1;
      ps := ps[k := ps[k] + [c]];
    }

    /** cards[--count] */
    method Pop(k: int) returns (c: Card)
      requires Valid() && 0 <= k < PILES && ps[k] != []
      modifies this, count
      ensures Valid() && c == Last(old(ps)[k]) && ps == old(ps)[k := Front(old(ps)[k])]
    {
      count[k] := count[k] - 1;
      c := cards[k, count[k]];
      ps := ps[k := Front(ps[k])];
    }

    /** The slots of row k from lo to hi, whether they belong to the pile or not. */
    ghost function Slots(k: int, lo: nat, hi: nat): seq<Card>
      requires 0 <= k < cards.Length0 && lo <= hi <= cards.Length1
      reads cards
    {
      seq(hi - lo, j requires 0 <= j < hi - lo reads cards => cards[k, lo + j])
    }

    lemma SlotsPart(k: int, lo: nat, hi: nat)
      requires Valid() && 0 <= k < PILES && lo <= hi <= PILE_ROOM
      ensures Slots(k, 0, PILE_ROOM)[lo..hi] == Slots(k, lo, hi)
    {
    }

    /** count = i: the pile is cut off there, or grows over what the array holds. */
    method SetCount(k: int, i: nat)
      requires Valid() && 0 <= k < PILES && i <= PILE_ROOM
      modifies this, count
      ensures Valid()
      ensures ps == old(ps)[k := if i < |old(ps)[k]| then old(ps)[k][..i]
                                 else old(ps)[k] + old(Slots(k, |ps[k]|, i))]
    {
      ghost var left := if i < |ps[k]| then [] else Slots(k, |ps[k]|, i);
      assert forall j :: 0 <= j < |left| ==> left[j] == cards[k, |ps[k]| + j];
      ps := ps[k := if i < |ps[k]| then ps[k][..i] else ps[k] + left];
      count[k] := i;
    }

    method Reveal(k: int)
      requires Valid() && 0 <= k < PILES
      modifies this, cards
      ensures Valid() && ps == old(ps)[k := RevealTop(old(ps)[k])]
    {
      if count[k] > 0 {
        cards[k, count[k] - 1] := Up(cards[k, count[k] - 1]);
      }
      ps := ps[k := RevealTop(ps[k])];
    }

    method CanPlace(c: Card, k: int) returns (r: bool)
      requires Valid() && 0 <= k < PILES
      ensures r == CanPlaceOn(c, k, ps[k])
    {
      if IsFoundation(k) {
        if count[k] == 0 { return c.value == 1 && c.suit == k - FIRST_FOUNDATION; }
        var top := cards[k, count[k] - 1];
        return top.suit == c.suit && top.value + 1 == c.value;
      } else if IsColumn(k) {
        if count[k] == 0 { return c.value == 13; }
        var top := cards[k, count[k] - 1];
        if !top.faceUp { return false; }
        return IsRed(top.suit) != IsRed(c.suit) && top.value - 1 == c.value;
      }
      return false;
    }

    /** For an index past the end of the pile only the slot itself is looked at, and only in a column. */
    method CanDrag(k: int, i: nat) returns (r: bool)
      requires Valid() && 0 <= k < PILES && i < PILE_ROOM
      ensures r == if i < |ps[k]| then CanDragFrom(k, ps[k], i) else IsColumn(k) && cards[k, i].faceUp
    {
      if k == STOCK { return false; }
      if k == WASTE || IsFoundation(k) { return i + 1 == count[k]; }
      if !cards[k, i].faceUp { return false; }
      ghost var p := ps[k];
      var j := i;
      while j < count[k] - 1
        invariant i <= j && (i < |p| ==> j < |p|)
        invariant forall h :: i < h <= j && h < |p| ==> p[h].faceUp && Follows(p[h - 1], p[h])
      {
        var a, b := cards[k, j], cards[k, j + 1];
        assert p[j] == a && p[j + 1] == b;
        if !b.faceUp { return false; }
        if IsRed(a.suit) == IsRed(b.suit) { return false; }
        if a.value - 1 != b.value { return false; }
        assert p[j + 1].faceUp && Follows(p[j], p[j + 1]);
        j := j + 1;
      }
      return true;
    }

    /** The first foundation that accepts c. */
    method FindFoundation(c: Card) returns (dst: int)
      requires Valid()
      ensures dst == Slot(ps, c)
    {
      for i := FIRST_FOUNDATION to FIRST_COLUMN
        invariant Slot(ps, c) == SlotFrom(ps, c, i)
      {
        var ok := CanPlace(c, i);
        if ok { return i; }
      }
      return -1;
    }

    method MoveTopToFoundation(k: int, index: int) returns (moved: bool)
      requires Valid() && IsSource(k) && Part(ps)
      modifies this, cards, count
      ensures Valid()
      ensures moved == (index == |old(ps[k])| - 1 && CanLift(old(ps), k))
      ensures ps == if moved then Lift(old(ps), k) else old(ps)
    {
      if index < 0 || index + 1 != count[k] { return false; }
      var c := cards[k, index];
      for i := FIRST_FOUNDATION to FIRST_COLUMN
        invariant Valid() && ps == old(ps) && c == Last(ps[k])
        invariant Slot(ps, c) == SlotFrom(ps, c, i)
      {
        var ok := CanPlace(c, i);
        if ok {
          PutUp(k, i);
          return true;
        }
      }
      return false;
    }

    method PutUp(k: int, dst: int)
      requires Valid() && Part(ps) && CanLift(ps, k) && dst == Slot(ps, Last(ps[k]))
      modifies this, cards, count
      ensures Valid() && ps == Lift(old(ps), k)
    {
      ghost var ps0 := ps;
      LiftRoom(ps0, k);
      var c := Pop(k);
      Push(dst, c);
      assert ps0[k][|ps0[k]|-1..] == [c];
      if IsColumn(k) && count[k] > 0 { Reveal(k); }
    }

    method AllColumnsUp() returns (r: bool)
      requires Valid()
      ensures r == forall k :: IsColumn(k) ==> AllUp(ps[k])
    {
      for i := FIRST_COLUMN to PILES
        invariant forall k :: FIRST_COLUMN <= k < i ==> AllUp(ps[k])
      {
        for j := 0 to count[i]
          invariant forall h :: 0 <= h < j ==> ps[i][h].faceUp
        {
          if !cards[i, j].faceUp {
            assert !ps[i][j].faceUp;
            return false;
          }
        }
      }
      return true;
    }

    method Total() returns (n: nat)
      requires Valid()
      ensures n == FoundationTotal(ps)
    {
      return count[2] + count[3] + count[4] + count[5];
    }

    /** Try the foundation moves on a copy, round after round, until nothing moves: all 52 cards come up exactly when
        some order of moves brings them up. */
    method TrialRun() returns (r: bool)
      requires Valid() && Open(ps)
      ensures r == Winnable(ps)
    {
      ghost var ps0 := ps;
      var test := new Table.Copy(this);
      ghost var ms: seq<int> := [];
      PlayFits(ps0, ms);
      var moved := true;
      while moved
        invariant fresh(test) && fresh(test.cards) && fresh(test.count) && test.Valid()
        invariant Playable(ps0, ms) && Play(ps0, ms) == test.ps
        invariant !moved ==> Stuck(test.ps)
        invariant FoundationTotal(ps0) + |ms| <= DECK
        decreases DECK - FoundationTotal(ps0) - |ms|, moved
      {
        ms, moved := test.Round(ps0, ms);
        PlayFits(ps0, ms);
      }
      var n := test.Total();
      DeadEndDecides(ps0, ms);
      return n == DECK;
    }

    /** One round: the waste, then each column, one card at most from each. */
    method Round(ghost ps0: Layout, ghost ms: seq<int>) returns (ghost ms': seq<int>, moved: bool)
      requires Valid() && Open(ps0) && Playable(ps0, ms) && Play(ps0, ms) == ps
      modifies this, cards, count
      ensures Valid() && Playable(ps0, ms') && Play(ps0, ms') == ps
      ensures if moved then |ms| < |ms'| else ms' == ms && Stuck(ps)
    {
      moved := false;
      ms' := ms;
      ms', moved := TryLift(ps0, ms', WASTE);
      for i := FIRST_COLUMN to PILES
        invariant Valid() && Playable(ps0, ms') && Play(ps0, ms') == ps
        invariant if moved then |ms| < |ms'| else ms' == ms
        invariant !moved ==> forall k :: IsSource(k) && k < i ==> !CanLift(Play(ps0, ms), k)
      {
        var ok;
        ms', ok := TryLift(ps0, ms', i);
        if ok { moved := true; }
      }
    }

    method TryLift(ghost ps0: Layout, ghost ms: seq<int>, k: int) returns (ghost ms': seq<int>, ok: bool)
      requires Valid() && IsSource(k)
      requires Open(ps0) && Playable(ps0, ms) && Play(ps0, ms) == ps
      modifies this, cards, count
      ensures Valid() && Playable(ps0, ms') && Play(ps0, ms') == ps
      ensures ok == CanLift(Play(ps0, ms), k)
      ensures if ok then |ms'| == |ms| + 1 else ms' == ms
    {
      ms' := ms;
      PlayOpen(ps0, ms);
      ok := false;
      if count[k] <= 0 { return; }
      ok := MoveTopToFoundation(k, count[k] - 1);
      if ok {
        PlaySnoc(ps0, ms, k);
        ms' := ms + [k];
      }
    }
  }

  lemma PlayFits(ps: Layout, ms: seq<int>)
    requires Open(ps) && Playable(ps, ms)
    ensures FoundationTotal(Play(ps, ms)) == FoundationTotal(ps) + |ms| <= DECK
  {
    PlayOpen(ps, ms);
    SizeSplit(Play(ps, ms));
  }

  /** There is room on the foundation for a card that may go up. */
  lemma LiftRoom(ps: Layout, k: int)
    requires Part(ps) && CanLift(ps, k)
    ensures var f := Slot(ps, Last(ps[k])); IsFoundation(f) && f != k && |ps[f]| < 13
  {
    var f := Slot(ps, Last(ps[k]));
    PartCards(ps, k, |ps[k]| - 1);
    assert ps[f] != [] ==> Last(ps[f]) == Card(|ps[f]|, f - FIRST_FOUNDATION, true);
  }
}
