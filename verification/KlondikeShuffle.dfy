/** The shuffle: from the last card down, each is exchanged with one drawn by chance from those up to it. Every order of
    the deck is reached, and by one choice of the draws only. */
module KlondikeShuffle {
  import opened Sequences
  import opened KlondikeRules
  import opened KlondikeBoard

  function Swap(d: seq<Card>, i: nat, j: nat): seq<Card>
    requires i < |d| && j < |d|
  {
    d[i := d[j]][j := d[i]]
  }

  /** The position that a random number leads to, from 0 to i. */
  function Pick(roll: nat, i: nat): (j: nat)
    ensures j <= i
  {
    roll % (i + 1)
  }

  /** Positions i, i - 1, ..., 1 of d are exchanged, position k with the one its random number rolls[k] leads to. */
  function Shuffle(d: seq<Card>, rolls: seq<nat>, i: nat): (r: seq<Card>)
    requires i < |d| && |rolls| == |d|
    ensures |r| == |d|
    decreases i
  {
    if i == 0 then d else Shuffle(Swap(d, i, Pick(rolls[i], i)), rolls, i - 1)
  }

  /** Before the shuffle the deck lies suit after suit, each from ace to king, closed. */
  lemma NewDeckOrder(v: int, s: int)
    requires 1 <= v <= 13 && 0 <= s < 4
    ensures NewDeck()[s * 13 + (v - 1)] == Card(v, s, false)
  {
  }

  lemma ShuffleNext(d: seq<Card>, rolls: seq<nat>, i: nat)
    requires 0 < i < |d| == |rolls|
    ensures var j := rolls[i] % (i + 1); Shuffle(d, rolls, i) == Shuffle(d[i := d[j]][j := d[i]], rolls, i - 1)
  {
  }

  lemma ShuffleEnds(d: seq<Card>, rolls: seq<nat>)
    requires 0 < |d| == |rolls|
    ensures Shuffle(d, rolls, 0) == d
  {
  }

  /** The deck that is dealt. */
  function ShuffledBy(rolls: seq<nat>): seq<Card>
    requires |rolls| == DECK
  {
    Shuffle(NewDeck(), rolls, DECK - 1)
  }

  ghost predicate Distinct(d: seq<Card>) { forall i, j :: 0 <= i < j < |d| ==> d[i] != d[j] }

  /** Exchanging two cards leaves a shuffled deck. */
  lemma SwapShuffled(d: seq<Card>, i: nat, j: nat)
    requires Shuffled(d) && i < |d| && j < |d|
    ensures Shuffled(Swap(d, i, j))
  {
    var d1 := d[i := d[j]];
    forall x ensures Times(d1[j := d[i]], x) == Times(d, x) {
      TimesUpdate(d, i, d[j], x);
      TimesUpdate(d1, j, d[i], x);
    }
  }

  lemma {:induction false} ShuffleKeeps(d: seq<Card>, rolls: seq<nat>, i: nat)
    requires i < |d| && |rolls| == |d| && Shuffled(d)
    ensures Shuffled(Shuffle(d, rolls, i))
    decreases i
  {
    if i > 0 {
      SwapShuffled(d, i, Pick(rolls[i], i));
      ShuffleKeeps(Swap(d, i, Pick(rolls[i], i)), rolls, i - 1);
    }
  }

  /** Whatever the random numbers, all 52 cards are dealt, closed. */
  lemma ShuffledByIsDeck(rolls: seq<nat>)
    requires |rolls| == DECK
    ensures Shuffled(ShuffledBy(rolls))
  {
    NewDeckFull();
    ShuffleKeeps(NewDeck(), rolls, DECK - 1);
  }

  /** Once a position has been exchanged it stays as it is. */
  lemma {:induction false} SettledAbove(d: seq<Card>, rolls: seq<nat>, i: nat, k: nat)
    requires i < |d| && |rolls| == |d| && i < k < |d|
    ensures Shuffle(d, rolls, i)[k] == d[k]
    decreases i
  {
    if i > 0 { SettledAbove(Swap(d, i, Pick(rolls[i], i)), rolls, i - 1, k); }
  }

  /** The numbers lead to the same exchanges at the positions from 1 to i. */
  predicate SamePicks(rolls: seq<nat>, rolls': seq<nat>, i: nat) {
    && i < |rolls| == |rolls'|
    && forall k :: 0 < k <= i ==> Pick(rolls[k], k) == Pick(rolls'[k], k)
  }

  /** Only those exchanges matter. */
  lemma {:induction false} UsesOnly(d: seq<Card>, rolls: seq<nat>, rolls': seq<nat>, i: nat)
    requires i < |d| == |rolls| && SamePicks(rolls, rolls', i)
    ensures Shuffle(d, rolls, i) == Shuffle(d, rolls', i)
    decreases i
  {
    hide Pick;
    if i > 0 { UsesOnly(Swap(d, i, Pick(rolls[i], i)), rolls, rolls', i - 1); }
  }

  lemma SwapDistinct(d: seq<Card>, i: nat, j: nat)
    requires Distinct(d) && i < |d| && j < |d|
    ensures Distinct(Swap(d, i, j))
  {
  }

  /** Different exchanges lead to different orders. */
  lemma {:induction false} Tells(d: seq<Card>, rolls: seq<nat>, rolls': seq<nat>, i: nat)
    requires i < |d| == |rolls| == |rolls'| && Distinct(d)
    requires Shuffle(d, rolls, i) == Shuffle(d, rolls', i)
    ensures SamePicks(rolls, rolls', i)
    decreases i
  {
    hide Pick;
    if i > 0 {
      var j, j' := Pick(rolls[i], i), Pick(rolls'[i], i);
      SettledAbove(Swap(d, i, j), rolls, i - 1, i);
      SettledAbove(Swap(d, i, j'), rolls', i - 1, i);
      assert d[j] == d[j'];
      SwapDistinct(d, i, j);
      Tells(Swap(d, i, j), rolls, rolls', i - 1);
    }
  }

  /** Card c lies in d at position i or before. */
  predicate Upto(d: seq<Card>, i: int, c: Card) { exists m :: 0 <= m <= i && m < |d| && d[m] == c }

  /** The cards of t up to position i all lie in d up to there, and above they are those of d. */
  ghost predicate Agrees(d: seq<Card>, t: seq<Card>, i: int) {
    && |d| == |t|
    && (forall k :: i < k < |d| && 0 <= k ==> d[k] == t[k])
    && (forall k :: 0 <= k <= i && k < |t| ==> Upto(d, i, t[k]))
  }

  /** With the right card exchanged onto position i they agree from there on. */
  lemma AgreesNext(d: seq<Card>, t: seq<Card>, i: nat, j: nat)
    requires Agrees(d, t, i) && Distinct(t) && 0 < i < |d| && j <= i && d[j] == t[i]
    ensures Agrees(Swap(d, i, j), t, i - 1)
  {
    var d' := Swap(d, i, j);
    forall k | 0 <= k <= i - 1 ensures Upto(d', i - 1, t[k]) {
      assert Upto(d, i, t[k]);
      var m :| 0 <= m <= i && d[m] == t[k];
      assert t[k] != t[i];
      assert d'[if m == i then j else m] == t[k];
    }
  }

  /** The order t is reached from d by the exchanges at positions i, i - 1, ..., 1. */
  lemma {:induction false} Reaches(d: seq<Card>, t: seq<Card>, i: nat) returns (rolls: seq<nat>)
    requires Agrees(d, t, i) && i < |d| && Distinct(t)
    ensures |rolls| == |d| && Shuffle(d, rolls, i) == t
    ensures forall k :: 0 <= k < |rolls| ==> rolls[k] <= k
    decreases i
  {
    hide Pick, Distinct;
    if i == 0 {
      rolls := seq(|d|, _ => 0);
      assert Upto(d, 0, t[0]);
      assert d == t;
    } else {
      assert Upto(d, i, t[i]);
      var j :| 0 <= j <= i && d[j] == t[i];
      AgreesNext(d, t, i, j);
      var low := Reaches(Swap(d, i, j), t, i - 1);
      rolls := low[i := j];
      PickSmall(j, i);
      UsesOnly(Swap(d, i, j), low, rolls, i - 1);
    }
  }

  lemma PickSmall(j: nat, i: nat)
    requires j <= i
    ensures Pick(j, i) == j
  {
  }

  lemma {:induction false} TimesTwice(p: seq<Card>, i: nat, j: nat)
    requires i < j < |p| && NameOf(p[i]) == NameOf(p[j])
    ensures Times(p, NameOf(p[i])) >= 2
  {
    if j == |p| - 1 { TimesHas(Front(p), i); } else { TimesTwice(Front(p), i, j); }
  }

  lemma DeckDistinct(t: seq<Card>)
    requires Shuffled(t)
    ensures Distinct(t) && forall k :: 0 <= k < |t| ==> t[k] in NewDeck()
  {
    forall i, j | 0 <= i < j < |t| ensures t[i] != t[j] {
      if t[i] == t[j] { TimesTwice(t, i, j); }
    }
    forall k | 0 <= k < |t| ensures t[k] in NewDeck() {
      TimesHas(t, k);
      assert InDeck(NameOf(t[k]));
      assert NewDeck()[t[k].suit * 13 + t[k].value - 1] == t[k];
    }
  }

  /** Every order of the 52 closed cards is dealt for some random numbers. */
  lemma EveryOrderIsDealt(t: seq<Card>) returns (rolls: seq<nat>)
    requires Shuffled(t)
    ensures |rolls| == DECK && ShuffledBy(rolls) == t
    ensures forall k :: 0 <= k < DECK ==> rolls[k] <= k
  {
    DeckDistinct(t);
    forall k | 0 <= k < DECK ensures Upto(NewDeck(), DECK - 1, t[k]) { assert t[k] in NewDeck(); }
    rolls := Reaches(NewDeck(), t, DECK - 1);
  }

  /** Two runs of random numbers deal the same order exactly when each number drawn leads to the same exchange: with
      numbers that are even over their ranges, so are the orders. */
  lemma EachOrderOnce(rolls: seq<nat>, rolls': seq<nat>)
    requires |rolls| == DECK == |rolls'|
    ensures ShuffledBy(rolls) == ShuffledBy(rolls') <==>
            forall k :: 0 < k < DECK ==> rolls[k] % (k + 1) == rolls'[k] % (k + 1)
  {
    NewDeckFull();
    DeckDistinct(NewDeck());
    if ShuffledBy(rolls) == ShuffledBy(rolls') {
      Tells(NewDeck(), rolls, rolls', DECK - 1);
    } else if SamePicks(rolls, rolls', DECK - 1) {
      UsesOnly(NewDeck(), rolls, rolls', DECK - 1);
    }
  }
}
