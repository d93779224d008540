/** What the player sees of each move, told by the cells themselves: what a number counts, what a reveal opens, what a
    loss and a win show, and what a flag and a chord do. */
module MinePlay {
  import opened Sequences
  import opened MineRules
  import opened MineScan

  /** q is one of the eight cells around p. */
  predicate Touches(p: Pos, q: Pos) {
    -1 <= q.0 - p.0 <= 1 && -1 <= q.1 - p.1 <= 1 && q != p
  }

  function One(b: bool): nat { if b then 1 else 0 }

  // ---------------------------------------------------------------- the fresh board

  /** Every cell of the level is there, closed and unmarked, and every counter is 0. */
  lemma FreshBoard(rows: nat, cols: nat, mines: nat)
    ensures var g := NewGame(rows, cols, mines);
            && (forall r, c :: (r, c) in g.field <==> 0 <= r < rows && 0 <= c < cols)
            && (forall q :: q in g.field ==> g.field[q] == Cell(false, false, false, false, false, 0))
            && g.rows == rows && g.cols == cols && g.mines == mines && g.flagsUsed == g.openCount == 0
            && !g.started && !g.lost && !g.won
  {
  }

  // ---------------------------------------------------------------- counting the cells around

  lemma TakeOne(a: set<Pos>, q: Pos)
    ensures |a| == |a - {q}| + One(q in a)
  {
    if q in a { assert a == (a - {q}) + {q}; } else { assert a - {q} == a; }
  }

  /** Three cells of one row. */
  lemma CountRow(a: set<Pos>, r: int, c: int)
    requires forall q :: q in a ==> q.0 == r && c - 1 <= q.1 <= c + 1
    ensures |a| == One((r, c - 1) in a) + One((r, c) in a) + One((r, c + 1) in a)
  {
    var a1 := a - {(r, c - 1)};
    var a2 := a1 - {(r, c)};
    TakeOne(a, (r, c - 1));
    TakeOne(a1, (r, c));
    TakeOne(a2, (r, c + 1));
    assert a2 - {(r, c + 1)} == {};
  }

  function InRow(a: set<Pos>, r: int): set<Pos> { set q | q in a && q.0 == r }

  lemma CountRows(a: set<Pos>, r: int)
    requires forall q :: q in a ==> r - 1 <= q.0 <= r + 1
    ensures |a| == |InRow(a, r - 1)| + |InRow(a, r)| + |InRow(a, r + 1)|
  {
    assert a == InRow(a, r - 1) + (InRow(a, r) + InRow(a, r + 1));
    assert InRow(a, r - 1) !! (InRow(a, r) + InRow(a, r + 1)) && InRow(a, r) !! InRow(a, r + 1);
  }

  /** The cells of a block, row by row. */
  lemma CountBlock(a: set<Pos>, r: int, c: int)
    requires forall q :: q in a ==> Near((r, c), q)
    ensures |a| == One((r - 1, c - 1) in a) + One((r - 1, c) in a) + One((r - 1, c + 1) in a)
                   + One((r, c - 1) in a) + One((r, c) in a) + One((r, c + 1) in a)
                   + One((r + 1, c - 1) in a) + One((r + 1, c) in a) + One((r + 1, c + 1) in a)
  {
    hide One;
    CountRows(a, r);
    CountRow(InRow(a, r - 1), r - 1, c);
    CountRow(InRow(a, r), r, c);
    CountRow(InRow(a, r + 1), r + 1, c);
  }

  predicate MineAt(g: Game, r: int, c: int) { (r, c) in g.field && g.field[(r, c)].mine }

  predicate FlagAt(g: Game, r: int, c: int) { (r, c) in g.field && g.field[(r, c)].flag }

  function MinesAround(g: Game, r: int, c: int): nat {
    One(MineAt(g, r - 1, c - 1)) + One(MineAt(g, r - 1, c)) + One(MineAt(g, r - 1, c + 1))
    + One(MineAt(g, r, c - 1)) + One(MineAt(g, r, c + 1))
    + One(MineAt(g, r + 1, c - 1)) + One(MineAt(g, r + 1, c)) + One(MineAt(g, r + 1, c + 1))
  }

  function FlagsAround(g: Game, r: int, c: int): nat {
    One(FlagAt(g, r - 1, c - 1)) + One(FlagAt(g, r - 1, c)) + One(FlagAt(g, r - 1, c + 1))
    + One(FlagAt(g, r, c - 1)) + One(FlagAt(g, r, c + 1))
    + One(FlagAt(g, r + 1, c - 1)) + One(FlagAt(g, r + 1, c)) + One(FlagAt(g, r + 1, c + 1))
  }

  /** The same without the centre. */
  lemma CountEight(a: set<Pos>, r: int, c: int)
    requires forall q :: q in a ==> Near((r, c), q) && q != (r, c)
    ensures |a| == One((r - 1, c - 1) in a) + One((r - 1, c) in a) + One((r - 1, c + 1) in a)
                   + One((r, c - 1) in a) + One((r, c + 1) in a)
                   + One((r + 1, c - 1) in a) + One((r + 1, c) in a) + One((r + 1, c + 1) in a)
  {
    CountBlock(a, r, c);
    assert (r, c) !in a;
  }

  lemma MineIn(g: Game, r: int, c: int, q: Pos)
    requires Touches((r, c), q)
    ensures q in Around(g.field, (r, c)) * Mines(g.field) <==> MineAt(g, q.0, q.1)
    ensures q in Around(g.field, (r, c)) * Flags(g.field) <==> FlagAt(g, q.0, q.1)
  {
  }

  lemma MinesCounted(g: Game, r: int, c: int)
    ensures |Around(g.field, (r, c)) * Mines(g.field)| == MinesAround(g, r, c)
  {
    var a := Around(g.field, (r, c)) * Mines(g.field);
    CountEight(a, r, c);
    hide One, Around, Mines, MineAt;
    MineIn(g, r, c, (r - 1, c - 1)); MineIn(g, r, c, (r - 1, c)); MineIn(g, r, c, (r - 1, c + 1));
    MineIn(g, r, c, (r, c - 1)); MineIn(g, r, c, (r, c + 1));
    MineIn(g, r, c, (r + 1, c - 1)); MineIn(g, r, c, (r + 1, c)); MineIn(g, r, c, (r + 1, c + 1));
  }

  lemma FlagsCounted(g: Game, r: int, c: int)
    ensures |Around(g.field, (r, c)) * Flags(g.field)| == FlagsAround(g, r, c)
  {
    var a := Around(g.field, (r, c)) * Flags(g.field);
    CountEight(a, r, c);
    hide One, Around, Flags, FlagAt;
    MineIn(g, r, c, (r - 1, c - 1)); MineIn(g, r, c, (r - 1, c)); MineIn(g, r, c, (r - 1, c + 1));
    MineIn(g, r, c, (r, c - 1)); MineIn(g, r, c, (r, c + 1));
    MineIn(g, r, c, (r + 1, c - 1)); MineIn(g, r, c, (r + 1, c)); MineIn(g, r, c, (r + 1, c + 1));
  }

  /** In every reachable state of a started game the number of a safe cell is how many of the eight cells around it are
      mines. */
  lemma NumbersAreTrue(rows: nat, cols: nat, mines: nat, es: seq<Event>, g: Game, r: int, c: int)
    requires Fits(rows, cols, mines) && Reached(rows, cols, mines, es, g)
    requires g.started && (r, c) in g.field && !g.field[(r, c)].mine
    ensures g.field[(r, c)].adjacent == MinesAround(g, r, c)
  {
    ReachedInv(rows, cols, mines, es, g);
    MinesCounted(g, r, c);
  }

  // ---------------------------------------------------------------- revealing

  /** A cell is revealed when it is on the board, closed and not flagged, and the game still runs. */
  predicate Revealable(g: Game, p: Pos) {
    p in g.field && !g.field[p].open && !g.field[p].flag && !g.lost && !g.won
  }

  /** Only such a cell can be revealed; any other call changes nothing. */
  lemma RevealNeeds(g: Game, p: Pos, m: set<Pos>)
    requires !Revealable(g, p)
    ensures Step(g, RevealAt(p, m)) == g
  {
  }

  /** A mine is hit: it is marked as the one that exploded, every mine is shown, every flag on a safe cell is
      marked wrong, and nothing else changes. */
  lemma RevealHits(g: Game, p: Pos, m: set<Pos>)
    requires Inv(g) && g.started && Revealable(g, p) && g.field[p].mine
    ensures var h := Step(g, RevealAt(p, m));
            && h == g.(lost := true, field := h.field) && h.field.Keys == g.field.Keys
            && forall q :: q in g.field ==> var c := g.field[q];
              h.field[q] == Cell(c.mine, c.open || c.mine, c.flag, c.exploded || q == p,
                c.wrongFlag || (c.flag && !c.mine), c.adjacent)
  {
  }

  /** The cells that a move opens. */
  function Opened(g: Game, h: Game): set<Pos> {
    set q | q in h.field && h.field[q].open && !(q in g.field && g.field[q].open)
  }

  /** A set of cells that is closed under the rule of the game: of a cell that touches no mine, the neighbours that are
      closed and not flagged belong to it. */
  ghost predicate Spreading(g: Game, cells: set<Pos>) {
    forall q, n ::
      (q in cells && q in g.field && MinesAround(g, q.0, q.1) == 0
       && Touches(q, n) && n in g.field && !g.field[n].open && !g.field[n].flag) ==> n in cells
  }

  ghost predicate Spreads(g: Game, p: Pos, cells: set<Pos>) { p in cells && Spreading(g, cells) }

  /** A safe cell is revealed: what opens is the least set of cells that spreads from it. No mine and no flag is opened,
      and the game is not lost. */
  lemma RevealOpens(g: Game, p: Pos, m: set<Pos>)
    requires Inv(g) && g.started && Revealable(g, p) && !g.field[p].mine
    ensures var h := Step(g, RevealAt(p, m)); var got := Opened(g, h);
            && !h.lost && Spreads(g, p, got)
            && (forall q :: q in got ==> q in g.field && !g.field[q].open && !g.field[q].flag && !g.field[q].mine)
            && forall cells :: Spreads(g, p, cells) ==> got <= cells
  {
    RegionClosed(g.field, p);
    OpenedIsRegion(g, p, m);
    RegionSpreads(g, p);
    forall cells | Spreads(g, p, cells) ensures Region(g.field, p) <= cells {
      SpreadsHolds(g, p, cells);
    }
  }

  lemma OpenedIsRegion(g: Game, p: Pos, m: set<Pos>)
    requires Inv(g) && g.started && Revealable(g, p) && !g.field[p].mine
    ensures var h := Step(g, RevealAt(p, m)); Opened(g, h) == Region(g.field, p) && h.lost == g.lost
  {
    hide Numbered, Reachable;
    RegionClosed(g.field, p);
    var h := Step(g, RevealAt(p, m));
    forall q ensures q in Opened(g, h) <==> q in Region(g.field, p) {}
  }

  lemma RegionSpreads(g: Game, p: Pos)
    requires Inv(g) && g.started && Revealable(g, p) && !g.field[p].mine
    ensures Spreads(g, p, Region(g.field, p))
  {
    var f := g.field;
    RegionClosed(f, p);
    forall q, n | q in Region(f, p) && MinesAround(g, q.0, q.1) == 0
      && Touches(q, n) && n in f && !f[n].open && !f[n].flag
      ensures n in Region(f, p)
    {
      MinesCounted(g, q.0, q.1);
      ZeroTouchesNoMine(f, q, n);
      ReachableSteps(f, p, q, n);
    }
  }

  lemma SpreadsHolds(g: Game, p: Pos, cells: set<Pos>)
    requires Inv(g) && g.started && Spreads(g, p, cells)
    ensures Region(g.field, p) <= cells
  {
    var f := g.field;
    forall q, n | q in cells && Closed(f, q) && f[q].adjacent == 0 && Neighbour(q, n) && Closed(f, n)
      ensures n in cells
    {
      MinesCounted(g, q.0, q.1);
      assert Touches(q, n);
    }
    RegionWithin(f, p, cells);
  }

  /** What a reveal leaves alone: mines, numbers and marks, and, short of a win, the flags. With the win every mine is
      flagged. */
  lemma RevealLeaves(g: Game, p: Pos, m: set<Pos>, q: Pos)
    requires Inv(g) && g.started && Revealable(g, p) && !g.field[p].mine && q in g.field
    ensures var h := Step(g, RevealAt(p, m)); var c := g.field[q];
            && h.field.Keys == g.field.Keys
            && h.field[q] == Cell(c.mine, h.field[q].open, c.flag || (h.won && c.mine), c.exploded, c.wrongFlag,
              c.adjacent)
            && (c.open ==> h.field[q].open)
            && (h.rows, h.cols, h.mines, h.started, h.lost) == (g.rows, g.cols, g.mines, g.started, g.lost)
  {
    hide Region, Numbered, Inv;
  }

  // ---------------------------------------------------------------- the first reveal

  /** How many of the three rows (or columns) around x lie on a board with n of them. */
  function Span(x: int, n: nat): nat { One(0 < x) + 1 + One(x < n - 1) }

  /** All mines fit outside the block around the cell. */
  predicate Room(g: Game, r: int, c: int) {
    g.rows * g.cols - Span(r, g.rows) * Span(c, g.cols) >= g.mines
  }

  lemma RoomIs(g: Game, r: int, c: int)
    requires Inv(g) && (r, c) in g.field
    ensures Roomy(g, (r, c)) <==> Room(g, r, c)
  {
    CellCount(g.rows, g.cols);
    BlockSpan(g, r, c);
  }

  lemma BlockSpan(g: Game, r: int, c: int)
    requires Inv(g) && (r, c) in g.field
    ensures |Block(g.field, (r, c))| == Span(r, g.rows) * Span(c, g.cols)
  {
    hide Counted, Laid, Shown, Decided, One, Block;
    var b := Block(g.field, (r, c));
    InBlock(g, r, c);
    CountBlock(b, r, c);
    NineSum(0 < r, r < g.rows - 1, 0 < c, c < g.cols - 1);
  }

  lemma InBlock(g: Game, r: int, c: int)
    requires g.field.Keys == Cells(g.rows, g.cols)
    ensures forall q :: q in Block(g.field, (r, c)) <==>
      0 <= q.0 < g.rows && 0 <= q.1 < g.cols && Near((r, c), q)
  {
  }

  lemma NineSum(a: bool, b: bool, x: bool, y: bool)
    ensures One(a && x) + One(a) + One(a && y) + One(x) + One(true) + One(y) + One(b && x) + One(b) + One(b && y)
         == (One(a) + 1 + One(b)) * (One(x) + 1 + One(y))
  {
  }

  /** The first reveal, with the mines at m: it is never lost and opens the cell; and if all the mines fit outside the
      block around it, it opens the whole block but for the flags. The mines are m from then on. */
  lemma FirstRevealOpens(g: Game, r: int, c: int, m: set<Pos>)
    requires Inv(g) && !g.started && Revealable(g, (r, c))
    requires |m| == g.mines && m <= g.field.Keys && (r, c) !in m
    requires Room(g, r, c) ==> forall q :: q in m ==> !Touches((r, c), q)
    ensures var h := Step(g, RevealAt((r, c), m));
            && h.started && !h.lost && h.field.Keys == g.field.Keys && h.field[(r, c)].open
            && (forall q :: q in h.field ==> (h.field[q].mine <==> q in m))
            && (Room(g, r, c) ==>
              forall q :: q in g.field && Touches((r, c), q) && !g.field[q].flag ==> h.field[q].open)
  {
    hide Inv, Reveal, Roomy, Room, Mines;
    var p := (r, c);
    RoomIs(g, r, c);
    assert GoodMines(g, p, m);
    FirstRevealSafe(g, p, m);
    var h := Reveal(g, p, m);
    var g1 := LaidFirst(g, p, m);
    MineCells(h);
    forall q | Room(g, r, c) && q in g.field && Touches(p, q) && !g.field[q].flag ensures h.field[q].open {
      assert q in Block(g.field, p);
    }
  }

  lemma MineCells(g: Game)
    ensures forall q :: q in g.field ==> (q in Mines(g.field) <==> g.field[q].mine)
  {
  }

  /** The first reveal is a reveal on the board with the mines at m and the true numbers of mines around each cell. */
  lemma LaidFirst(g: Game, p: Pos, m: set<Pos>) returns (g1: Game)
    requires Inv(g) && !g.started && Revealable(g, p) && GoodMines(g, p, m)
    ensures g1 == g.(started := true, field := g1.field) && g1.field.Keys == g.field.Keys && Inv(g1)
    ensures forall q :: q in g.field ==>
      g1.field[q] == g.field[q].(mine := q in m, adjacent := g1.field[q].adjacent)
    ensures forall q :: q in g.field && q in m ==> g1.field[q].adjacent == 0
    ensures Step(g, RevealAt(p, m)) == Step(g1, RevealAt(p, {}))
    ensures Step(g, RevealAt(p, m)).started && Step(g, RevealAt(p, m)).field.Keys == g.field.Keys
  {
    g1 := g.(started := true, field := Lay(g.field, m));
    LayKept(g, p, m);
  }

  // ---------------------------------------------------------------- flags

  /** A flag can be set and taken away on a closed cell while the game runs; nothing else changes but the counter. */
  lemma ToggleFlips(g: Game, p: Pos)
    ensures var h := Step(g, ToggleAt(p));
            if p in g.field && !g.field[p].open && !g.lost && !g.won
            then && h.field.Keys == g.field.Keys && (forall q :: q in g.field && q != p ==> h.field[q] == g.field[q])
                 && h.field[p] == g.field[p].(flag := !g.field[p].flag)
                 && h == g.(field := h.field, flagsUsed := g.flagsUsed + if h.field[p].flag then 1 else -1)
            else h == g
  {
  }

  /** Twice is as good as not at all. */
  lemma ToggleTwice(g: Game, p: Pos)
    ensures Step(Step(g, ToggleAt(p)), ToggleAt(p)) == g
  {
    var h := Step(g, ToggleAt(p));
    if CanToggle(g, p) { assert h.field[p := h.field[p].(flag := !h.field[p].flag)] == g.field; }
  }

  // ---------------------------------------------------------------- chords

  /** A chord acts on an open cell with a number, when as many of the eight cells around are flagged, while the game
      runs. */
  predicate ChordActs(g: Game, r: int, c: int) {
    && (r, c) in g.field && !g.lost && !g.won && g.field[(r, c)].open
    && g.field[(r, c)].adjacent == FlagsAround(g, r, c) > 0
  }

  /** It loses exactly when one of those flags is wrong; otherwise all cells around that are no mines are open
      afterwards. Without its condition it changes nothing. */
  lemma ChordOutcome(g: Game, r: int, c: int)
    requires Inv(g)
    ensures var h := Step(g, ChordAt((r, c)));
            if ChordActs(g, r, c) then
              && (h.lost <==> exists q :: q in g.field && Touches((r, c), q) && g.field[q].flag && !g.field[q].mine)
              && (!h.lost ==> forall q :: q in g.field && Touches((r, c), q) && !g.field[q].mine ==>
                q in h.field && h.field[q].open)
            else h == g
  {
    FlagsCounted(g, r, c);
    var p := (r, c);
    assert CanChord(g, p) <==> ChordActs(g, r, c);
    if CanChord(g, p) {
      ChordDecides(g, p);
      assert forall q :: q in Around(g.field, p) <==> q in g.field && Touches(p, q);
      forall q | q in g.field && Touches(p, q) && !g.field[q].mine && !Chord(g, p).lost ensures IsOpen(Chord(g, p), q) {
        assert SafeAround(g, p, q);
      }
    }
  }

  /** A cell next to p that a chord would reveal. */
  predicate ChordStarts(g: Game, p: Pos, q: Pos) {
    Touches(p, q) && q in g.field && !g.field[q].open && !g.field[q].flag
  }

  /** What a chord opens that does not lose: the least set that holds the closed cells around without a flag and spreads
      from them. */
  lemma ChordSpreads(g: Game, r: int, c: int)
    requires Inv(g) && ChordActs(g, r, c) && !Step(g, ChordAt((r, c))).lost
    ensures var got := Opened(g, Step(g, ChordAt((r, c))));
            && Spreading(g, got) && (forall q :: ChordStarts(g, (r, c), q) ==> q in got)
            && forall cells :: Spreading(g, cells) && (forall q :: ChordStarts(g, (r, c), q) ==> q in cells) ==>
              got <= cells
  {
    var p := (r, c);
    var h := Step(g, ChordAt(p));
    FlagsCounted(g, r, c);
    OpenedIsStarted(g, p);
    BlockCellsAre(p);
    ChordStepsSpread(g, p, BlockCells(p));
    ChordStartsOpen(g, r, c);
    forall cells | Spreading(g, cells) && (forall q :: ChordStarts(g, p, q) ==> q in cells)
      ensures Opened(g, h) <= cells
    {
      ChordStepsWithin(g, p, BlockCells(p), cells);
    }
  }

  lemma ChordStartsOpen(g: Game, r: int, c: int)
    requires Inv(g) && ChordActs(g, r, c) && !Step(g, ChordAt((r, c))).lost
    ensures forall q :: ChordStarts(g, (r, c), q) ==> q in Opened(g, Step(g, ChordAt((r, c))))
  {
    var p := (r, c);
    FlagsCounted(g, r, c);
    ChordOutcome(g, r, c);
    FlagsMatchMines(g, p);
    forall q | ChordStarts(g, p, q) ensures q in Opened(g, Step(g, ChordAt(p))) {
      assert q in Around(g.field, p);
    }
  }

  lemma SameMinesAround(g: Game, h: Game, q: Pos)
    requires Grown(g, h)
    ensures MinesAround(h, q.0, q.1) == MinesAround(g, q.0, q.1)
  {
    hide One, MineAt, Grown;
    forall r, c ensures MineAt(h, r, c) == MineAt(g, r, c) { SameMineAt(g, h, r, c); }
  }

  lemma SameMineAt(g: Game, h: Game, r: int, c: int)
    requires Grown(g, h)
    ensures MineAt(h, r, c) == MineAt(g, r, c)
  {
    if (r, c) in g.field { assert CellGrown(g.field[(r, c)], h.field[(r, c)], h.won); }
  }

  /** Between the boards before and after a step that reveals q: what the step opens comes on top, and what counts for
      spreading has not changed. */
  lemma StepSpreads(g: Game, h: Game, p: Pos, q: Pos)
    requires Inv(h) && h.started && Grown(g, h) && q != p && CanReveal(h, q) && !h.field[q].mine
    ensures var h' := ChordStep(h, p, q);
            && Opened(g, h') == Opened(g, h) + Opened(h, h') && Spreads(h, q, Opened(h, h'))
            && forall cells :: Spreads(h, q, cells) ==> Opened(h, h') <= cells
    ensures forall n :: n in g.field ==> h.field[n].flag == g.field[n].flag && (g.field[n].open ==> h.field[n].open)
  {
    hide Inv, Reveal, Spreading;
    RevealOpens(h, q, {});
    RevealGrows(h, q);
    var h' := ChordStep(h, p, q);
    forall n | n in g.field
      ensures h.field[n].flag == g.field[n].flag && (g.field[n].open ==> h.field[n].open)
      ensures h.field[n].open ==> h'.field[n].open
    {
      assert CellGrown(g.field[n], h.field[n], h.won) && CellGrown(h.field[n], h'.field[n], h'.won);
    }
  }

  lemma {:induction false} ChordStepsSpread(g: Game, p: Pos, qs: seq<Pos>)
    requires Inv(g) && g.started && !ChordSteps(g, p, qs).lost
    ensures Spreading(g, Opened(g, ChordSteps(g, p, qs)))
  {
    hide Inv, MinesAround;
    if qs == [] {
      assert Opened(g, g) == {};
    } else {
      var h, q := ChordSteps(g, p, Front(qs)), Last(qs);
      ChordStepsGrow(g, p, Front(qs));
      ChordStepFacts(h, p, q);
      ChordStepsSpread(g, p, Front(qs));
      if q != p && CanReveal(h, q) {
        StepSpreads(g, h, p, q);
        SpreadingNext(g, h, q, Opened(g, h), Opened(h, ChordStep(h, p, q)));
      }
    }
  }

  lemma SpreadingNext(g: Game, h: Game, q: Pos, a: set<Pos>, b: set<Pos>)
    requires Grown(g, h) && Spreading(g, a) && Spreads(h, q, b) && a == Opened(g, h)
    requires forall n :: n in g.field ==> h.field[n].flag == g.field[n].flag
    ensures Spreading(g, a + b)
  {
    hide MinesAround;
    forall c, n | c in a + b && c in g.field && MinesAround(g, c.0, c.1) == 0
      && Touches(c, n) && n in g.field && !g.field[n].open && !g.field[n].flag
      ensures n in a + b
    {
      SameMinesAround(g, h, c);
      if c in b && h.field[n].open { assert n in a; }
    }
  }

  lemma {:induction false} ChordStepsWithin(g: Game, p: Pos, qs: seq<Pos>, cells: set<Pos>)
    requires Inv(g) && g.started && !ChordSteps(g, p, qs).lost && forall q :: q in qs ==> Near(p, q)
    requires Spreading(g, cells) && forall q :: ChordStarts(g, p, q) ==> q in cells
    ensures Opened(g, ChordSteps(g, p, qs)) <= cells
  {
    hide Inv, MinesAround, Spreading;
    if qs == [] {
      assert Opened(g, g) == {};
    } else {
      var h, q := ChordSteps(g, p, Front(qs)), Last(qs);
      ChordStepsGrow(g, p, Front(qs));
      ChordStepFacts(h, p, q);
      ChordStepsWithin(g, p, Front(qs), cells);
      if q != p && CanReveal(h, q) {
        StepSpreads(g, h, p, q);
        assert q in qs && Near(p, q);
        assert ChordStarts(g, p, q);
        SpreadsLater(g, h, q, cells);
      }
    }
  }

  /** A set that spreads on a board spreads on it later. */
  lemma SpreadsLater(g: Game, h: Game, q: Pos, cells: set<Pos>)
    requires Grown(g, h) && Spreading(g, cells) && q in cells
    requires forall n :: n in g.field ==> h.field[n].flag == g.field[n].flag && (g.field[n].open ==> h.field[n].open)
    ensures Spreads(h, q, cells)
  {
    hide MinesAround;
    forall c, n | c in cells && c in h.field && MinesAround(h, c.0, c.1) == 0
      && Touches(c, n) && n in h.field && !h.field[n].open && !h.field[n].flag
      ensures n in cells
    {
      SameMinesAround(g, h, c);
    }
  }

  // ---------------------------------------------------------------- what a finished game shows

  /** In a lost game every mine is open, the wrong flags are those on safe cells, and one mine is the one that
      exploded; in any other game no mine is open and no cell is marked. */
  ghost predicate Verdict(g: Game) {
    if g.lost then
      && (forall q :: q in g.field && g.field[q].mine ==> g.field[q].open)
      && (forall q :: q in g.field ==> (g.field[q].wrongFlag <==> g.field[q].flag && !g.field[q].mine))
      && (exists p :: p in g.field && g.field[p].mine && forall q :: q in g.field ==> (g.field[q].exploded <==> q == p))
    else
      forall q :: q in g.field ==>
        !g.field[q].wrongFlag && !g.field[q].exploded && !(g.field[q].open && g.field[q].mine)
  }

  lemma VerdictRevealed(g: Game, p: Pos, m: set<Pos>)
    requires Inv(g) && Verdict(g) && (!g.started && CanReveal(g, p) ==> GoodMines(g, p, m))
    ensures Verdict(Reveal(g, p, m))
  {
    if CanReveal(g, p) {
      var g1 := if g.started then g else g.(started := true, field := Lay(g.field, m));
      if !g.started { LayKept(g, p, m); }
      assert Verdict(g1) by { VerdictLaid(g, p, m); }
      if g1.field[p].mine {
        RevealHits(g1, p, m);
      } else {
        VerdictOpened(g1, p, m);
      }
    }
  }

  lemma VerdictLaid(g: Game, p: Pos, m: set<Pos>)
    requires Inv(g) && Verdict(g) && CanReveal(g, p)
    ensures var g1 := if g.started then g else g.(started := true, field := Lay(g.field, m)); Verdict(g1)
  {
    if !g.started { NothingOpen(g); }
  }

  lemma VerdictOpened(g: Game, p: Pos, m: set<Pos>)
    requires Inv(g) && Verdict(g) && g.started && CanReveal(g, p) && !g.field[p].mine
    ensures Verdict(Reveal(g, p, m))
  {
    hide Inv, Reveal, Verdict;
    RevealOpens(g, p, m);
    var h := Step(g, RevealAt(p, m));
    forall q | q in g.field
      ensures h.field.Keys == g.field.Keys && h.lost == g.lost
      ensures h.field[q].mine == g.field[q].mine && h.field[q].wrongFlag == g.field[q].wrongFlag
      ensures h.field[q].exploded == g.field[q].exploded
      ensures h.field[q].open && h.field[q].mine ==> g.field[q].open
    {
      RevealLeaves(g, p, m, q);
      assert h.field[q].open && !g.field[q].open ==> q in Opened(g, h);
    }
    RevealLeaves(g, p, m, p);
    VerdictSame(g, h);
  }

  lemma VerdictSame(g: Game, h: Game)
    requires Verdict(g) && !g.lost && !h.lost && h.field.Keys == g.field.Keys
    requires forall q :: q in g.field ==>
      && h.field[q].wrongFlag == g.field[q].wrongFlag && h.field[q].exploded == g.field[q].exploded
      && h.field[q].mine == g.field[q].mine && (h.field[q].open && h.field[q].mine ==> g.field[q].open)
    ensures Verdict(h)
  {
  }

  lemma {:induction false} VerdictSteps(g: Game, p: Pos, qs: seq<Pos>)
    requires Inv(g) && g.started && Verdict(g)
    ensures Verdict(ChordSteps(g, p, qs))
  {
    if qs != [] {
      VerdictSteps(g, p, Front(qs));
      ChordStepsGrow(g, p, Front(qs));
      VerdictRevealed(ChordSteps(g, p, Front(qs)), Last(qs), {});
    }
  }

  lemma VerdictStep(g: Game, e: Event)
    requires Inv(g) && Verdict(g) && Enabled(g, e)
    ensures Verdict(Step(g, e))
  {
    match e
    case Level(r, c, n) => FreshBoard(r, c, n);
    case RevealAt(p, m) => VerdictRevealed(g, p, m);
    case ToggleAt(p) => ToggleFlips(g, p);
    case ChordAt(p) =>
      if CanChord(g, p) {
        OpenedIsStarted(g, p);
        VerdictSteps(g, p, BlockCells(p));
      }
  }

  /** In every reachable state. */
  lemma {:induction false} ReachedVerdict(rows: nat, cols: nat, mines: nat, es: seq<Event>, g: Game)
    requires Fits(rows, cols, mines) && Reached(rows, cols, mines, es, g)
    ensures Verdict(g)
    decreases |es|
  {
    if es == [] {
      FreshBoard(rows, cols, mines);
    } else {
      var h :| Reached(rows, cols, mines, Front(es), h) && Enabled(h, Last(es)) && g == Step(h, Last(es));
      ReachedVerdict(rows, cols, mines, Front(es), h);
      ReachedInv(rows, cols, mines, Front(es), h);
      VerdictStep(h, Last(es));
    }
  }

  /** In every reachable state the game is won exactly when it was started, is not lost, and every cell that is no
      mine is open; then the flags stand on the mines and on nothing else. */
  lemma WonWhen(rows: nat, cols: nat, mines: nat, es: seq<Event>, g: Game)
    requires Fits(rows, cols, mines) && Reached(rows, cols, mines, es, g)
    ensures g.won <==> g.started && !g.lost && forall q :: q in g.field && !g.field[q].mine ==> g.field[q].open
    ensures g.won ==> forall q :: q in g.field ==> (g.field[q].flag <==> g.field[q].mine)
  {
    ReachedInv(rows, cols, mines, es, g);
    var o, s := OpenSafe(g.field), Safe(g.field);
    assert o == s <==> forall q :: q in g.field && !g.field[q].mine ==> g.field[q].open by {
      if o == s {
        forall q | q in g.field && !g.field[q].mine ensures g.field[q].open { assert q in s; }
      }
    }
    if g.won {
      forall q | q in g.field ensures g.field[q].flag <==> g.field[q].mine {
        assert q in Flags(g.field) <==> q in Mines(g.field);
      }
    }
  }

  /** The counters of open cells and flags count what they should, and of mines there are as many as the level says. */
  lemma CountersAreTrue(rows: nat, cols: nat, mines: nat, es: seq<Event>, g: Game)
    requires Fits(rows, cols, mines) && Reached(rows, cols, mines, es, g)
    ensures g.openCount == |set q | q in g.field && g.field[q].open && !g.field[q].mine|
    ensures g.flagsUsed == |set q | q in g.field && g.field[q].flag|
    ensures |set q | q in g.field && g.field[q].mine| == if g.started then g.mines else 0
  {
    ReachedInv(rows, cols, mines, es, g);
    assert Mines(g.field) == set q | q in g.field && g.field[q].mine;
    assert OpenSafe(g.field) == set q | q in g.field && g.field[q].open && !g.field[q].mine;
    assert Flags(g.field) == set q | q in g.field && g.field[q].flag;
  }

  // ---------------------------------------------------------------- drawing the mines

  /** A random number k * (rows * cols) + r * cols + c leads to the cell in row r and column c. */
  lemma DrawLeads(g: Game, k: nat, r: int, c: int)
    requires Fits(g.rows, g.cols, g.mines) && 0 <= r < g.rows && 0 <= c < g.cols
    ensures r * g.cols + c >= 0
    ensures CellDrawn(g, k * (g.rows * g.cols) + (r * g.cols + c)) == (r, c)
  {
    DrawnAt(g.rows, g.cols, k, r, c);
  }

  lemma DrawnAt(rows: nat, cols: nat, k: nat, r: nat, c: nat)
    requires r < rows && c < cols
    ensures rows * cols > 0 && CellOf((k * (rows * cols) + (r * cols + c)) % (rows * cols), cols) == (r, c)
  {
    var n, at := rows * cols, r * cols + c;
    AtBelow(rows, cols, r, c);
    DivUnique(k * n + at, n, k, at);
    DivUnique(at, cols, r, c);
  }

  lemma AtBelow(rows: nat, cols: nat, r: nat, c: nat)
    requires r < rows && c < cols
    ensures r * cols + c < rows * cols
  {
    MulMonotone(r + 1, rows, cols);
    assert (r + 1) * cols == r * cols + cols;
  }

  /** It lays a mine there unless that is the first cell, or touches it while there is room elsewhere, or has a mine. */
  lemma DrawLays(g: Game, p: Pos, draws: seq<nat>, d: nat)
    requires Inv(g) && p in g.field
    ensures var q, m := CellDrawn(g, d), Drawn(g, p, draws);
            Drawn(g, p, draws + [d]) ==
              if q in g.field && q != p && !(Room(g, p.0, p.1) && Touches(p, q)) then m + {q} else m
  {
    assert Front(draws + [d]) == draws;
    RoomIs(g, p.0, p.1);
  }
}
