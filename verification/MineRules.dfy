/** The rules of the minesweeper board, on values: what a reveal, a flag and a chord do to a board, the invariant of
    every game, and what the player may rely on. */
module MineRules {
  import opened Sequences

  const MAX_ROWS := 20
  const MAX_COLS := 30
  const MAX_CELLS := MAX_ROWS * MAX_COLS

  /** A cell's row and column. */
  type Pos = (int, int)

  datatype Cell = Cell(mine: bool, open: bool, flag: bool, exploded: bool, wrongFlag: bool, adjacent: nat)

  type Field = map<Pos, Cell>

  datatype Game = Game(
    rows: nat, cols: nat, mines: nat, field: Field,
    started: bool, lost: bool, won: bool, flagsUsed: int, openCount: int)

  const BLANK := Cell(false, false, false, false, false, 0)

  // ---------------------------------------------------------------- the board and its neighbourhoods

  function Cells(rows: nat, cols: nat): set<Pos> {
    set r, c | 0 <= r < rows && 0 <= c < cols :: (r, c)
  }

  /** q lies in the 3x3 block around p. */
  predicate Near(p: Pos, q: Pos) {
    p.0 - 1 <= q.0 <= p.0 + 1 && p.1 - 1 <= q.1 <= p.1 + 1
  }

  predicate Neighbour(p: Pos, q: Pos) { Near(p, q) && p != q }

  function Around(f: Field, p: Pos): set<Pos> { set q | q in f && Neighbour(p, q) }

  /** The cells of the block that lie on the board, the centre included. */
  function Block(f: Field, p: Pos): set<Pos> { set q | q in f && Near(p, q) }

  function Mines(f: Field): set<Pos> { set p | p in f && f[p].mine }

  function Flags(f: Field): set<Pos> { set p | p in f && f[p].flag }

  function OpenSafe(f: Field): set<Pos> { set p | p in f && f[p].open && !f[p].mine }

  function Safe(f: Field): set<Pos> { set p | p in f && !f[p].mine }

  predicate Closed(f: Field, p: Pos) { p in f && !f[p].open && !f[p].flag && !f[p].mine }

  /** Every safe cell carries its true number of neighbouring mines. */
  ghost predicate Numbered(f: Field) {
    forall p :: p in f && !f[p].mine ==> f[p].adjacent == |Around(f, p) * Mines(f)|
  }

  // ---------------------------------------------------------------- flooding

  /** Stepping from neighbour to neighbour over closed, unflagged, safe cells; all but the last touch no mine. */
  ghost predicate IsPath(f: Field, path: seq<Pos>) {
    && path != []
    && (forall i :: 0 <= i < |path| ==> Closed(f, path[i]))
    && (forall i :: 0 <= i < |path| - 1 ==> PathStep(f, path[i], path[i + 1]))
  }

  ghost predicate PathStep(f: Field, p: Pos, q: Pos) {
    p in f && f[p].adjacent == 0 && Neighbour(p, q)
  }

  ghost predicate Reachable(f: Field, s: Pos, p: Pos) {
    exists path :: IsPath(f, path) && path[0] == s && path[|path| - 1] == p
  }

  ghost function Region(f: Field, s: Pos): set<Pos> { set p | p in f && Reachable(f, s, p) }

  function OpenAll(f: Field, cells: set<Pos>): Field {
    map p | p in f :: if p in cells then f[p].(open := true) else f[p]
  }

  // ---------------------------------------------------------------- the moves

  /** The board once the mines lie at m and every safe cell is numbered. */
  function Lay(f: Field, m: set<Pos>): Field {
    map p | p in f :: f[p].(mine := p in m, adjacent := if p in m then 0 else |Around(f, p) * m|)
  }

  /** Room for all the mines outside the block around the first cell. */
  predicate Roomy(g: Game, p: Pos) { |g.field| - |Block(g.field, p)| >= g.mines }

  /** What the placement of the mines guarantees about the first cell p. */
  predicate GoodMines(g: Game, p: Pos, m: set<Pos>) {
    m <= g.field.Keys && |m| == g.mines && p !in m && (Roomy(g, p) ==> m !! Block(g.field, p))
  }

  function ShowLoss(f: Field, at: Pos): Field {
    map p | p in f ::
      var c := if p == at then f[p].(exploded := true) else f[p];
      if c.mine then c.(open := true) else if c.flag then c.(wrongFlag := true) else c
  }

  function FlagMines(f: Field): Field {
    map p | p in f :: if f[p].mine then f[p].(flag := true) else f[p]
  }

  function Lose(g: Game, p: Pos): Game { g.(lost := true, field := ShowLoss(g.field, p)) }

  function Finish(g: Game): Game {
    g.(won := true, field := FlagMines(g.field), flagsUsed := |Mines(g.field)|)
  }

  function CheckWin(g: Game): Game {
    if !g.lost && g.openCount == g.rows * g.cols - g.mines then Finish(g) else g
  }

  ghost function Flood(g: Game, p: Pos): Game {
    g.(field := OpenAll(g.field, Region(g.field, p)), openCount := g.openCount + |Region(g.field, p)|)
  }

  predicate CanReveal(g: Game, p: Pos) {
    p in g.field && !g.field[p].open && !g.field[p].flag && !g.lost && !g.won
  }

  /** Revealing p; m is where the mines are laid if this is the first reveal of the game. */
  ghost function Reveal(g: Game, p: Pos, m: set<Pos>): Game {
    if !CanReveal(g, p) then g
    else
      var g1 := if g.started then g else g.(started := true, field := Lay(g.field, m));
      if g1.field[p].mine then Lose(g1, p) else CheckWin(Flood(g1, p))
  }

  predicate CanToggle(g: Game, p: Pos) { p in g.field && !g.field[p].open && !g.lost && !g.won }

  function Toggle(g: Game, p: Pos): Game {
    if !CanToggle(g, p) then g
    else
      g.(field := g.field[p := g.field[p].(flag := !g.field[p].flag)],
         flagsUsed := if g.field[p].flag then g.flagsUsed - 1 else g.flagsUsed + 1)
  }

  predicate CanChord(g: Game, p: Pos) {
    && p in g.field && !g.lost && !g.won
    && g.field[p].open && g.field[p].adjacent != 0
    && |Around(g.field, p) * Flags(g.field)| == g.field[p].adjacent
  }

  /** One step of a chord: q is revealed unless it is the centre or carries a flag. */
  ghost function ChordStep(g: Game, p: Pos, q: Pos): Game {
    if q !in g.field || q == p || g.field[q].flag then g else Reveal(g, q, {})
  }

  /** The cells of row r from column lo up to column hi, exclusive. */
  function RowCells(r: int, lo: int, hi: int): seq<Pos>
    decreases hi - lo
  {
    if hi <= lo then [] else RowCells(r, lo, hi - 1) + [(r, hi - 1)]
  }

  /** The block around p as far as row hi, exclusive. */
  function BlockRows(p: Pos, hi: int): seq<Pos>
    decreases hi - p.0 + 1
  {
    if hi <= p.0 - 1 then [] else BlockRows(p, hi - 1) + RowCells(hi - 1, p.1 - 1, p.1 + 2)
  }

  /** The block around p, row by row. */
  function BlockCells(p: Pos): seq<Pos> { BlockRows(p, p.0 + 2) }

  lemma {:induction false} RowCellsAre(r: int, lo: int, hi: int, q: Pos)
    ensures q in RowCells(r, lo, hi) <==> q.0 == r && lo <= q.1 < hi
    decreases hi - lo
  {
    if lo < hi { RowCellsAre(r, lo, hi - 1, q); }
  }

  lemma {:induction false} BlockRowsAre(p: Pos, hi: int, q: Pos)
    ensures q in BlockRows(p, hi) <==> p.0 - 1 <= q.0 < hi && p.1 - 1 <= q.1 <= p.1 + 1
    decreases hi - p.0 + 1
  {
    if p.0 - 1 < hi {
      BlockRowsAre(p, hi - 1, q);
      RowCellsAre(hi - 1, p.1 - 1, p.1 + 2, q);
    }
  }

  lemma BlockCellsAre(p: Pos)
    ensures forall q :: q in BlockCells(p) <==> Near(p, q)
  {
    forall q ensures q in BlockCells(p) <==> Near(p, q) { BlockRowsAre(p, p.0 + 2, q); }
  }

  ghost function ChordSteps(g: Game, p: Pos, qs: seq<Pos>): Game {
    if qs == [] then g else ChordStep(ChordSteps(g, p, Front(qs)), p, Last(qs))
  }

  ghost function Chord(g: Game, p: Pos): Game {
    if CanChord(g, p) then ChordSteps(g, p, BlockCells(p)) else g
  }

  function NewGame(rows: nat, cols: nat, mines: nat): Game {
    Game(rows, cols, mines, map p | p in Cells(rows, cols) :: BLANK, false, false, false, 0, 0)
  }

  // ---------------------------------------------------------------- the invariant of every game

  /** Boards the storage can hold, with at least one cell free of mines. */
  predicate Fits(rows: nat, cols: nat, mines: nat) {
    1 <= rows <= MAX_ROWS && 1 <= cols <= MAX_COLS && mines < rows * cols
  }

  ghost predicate Counted(g: Game) {
    g.openCount == |OpenSafe(g.field)| && g.flagsUsed == |Flags(g.field)|
  }

  ghost predicate Laid(g: Game) {
    if g.started then |Mines(g.field)| == g.mines && Numbered(g.field)
    else Mines(g.field) == {} && OpenSafe(g.field) == {} && !g.won && !g.lost
  }

  /** No cell is both open and flagged, except a mine shown by a loss; no mine is open before a loss. */
  ghost predicate Shown(g: Game) {
    && (forall p :: p in g.field && g.field[p].open && g.field[p].flag ==> g.lost && g.field[p].mine)
    && (forall p :: p in g.field && g.field[p].open && g.field[p].mine ==> g.lost)
  }

  ghost predicate Decided(g: Game) {
    && !(g.lost && g.won)
    && (g.started && !g.lost ==> (g.won <==> OpenSafe(g.field) == Safe(g.field)))
    && (g.won ==> Flags(g.field) == Mines(g.field) && g.flagsUsed == g.mines)
  }

  ghost predicate Inv(g: Game) {
    && Fits(g.rows, g.cols, g.mines) && g.field.Keys == Cells(g.rows, g.cols)
    && Counted(g) && Laid(g) && Shown(g) && Decided(g)
  }

  // ---------------------------------------------------------------- counting cells

  lemma {:induction false} CellCount(rows: nat, cols: nat)
    ensures |Cells(rows, cols)| == rows * cols
  {
    if rows == 0 {
      assert Cells(rows, cols) == {};
    } else {
      CellCount(rows - 1, cols);
      RowCount(rows - 1, cols);
      assert rows * cols == (rows - 1) * cols + cols;
      assert Cells(rows, cols) == Cells(rows - 1, cols) + Row(rows - 1, cols);
    }
  }

  function Row(r: nat, cols: nat): set<Pos> { set c | 0 <= c < cols :: (r, c) }

  lemma {:induction false} RowCount(r: nat, cols: nat)
    ensures |Row(r, cols)| == cols
  {
    if cols == 0 {
      assert Row(r, cols) == {};
    } else {
      RowCount(r, cols - 1);
      assert Row(r, cols) == Row(r, cols - 1) + {(r, cols - 1)};
    }
  }

  lemma SubsetCount<T>(a: set<T>, b: set<T>)
    requires a <= b
    ensures |a| <= |b| && (|a| == |b| ==> a == b)
  {
    assert b == a + (b - a);
    if |a| == |b| { assert |b - a| == 0; }
  }

  /** The safe cells and the mines make up the board. */
  lemma SafeCount(g: Game)
    requires g.field.Keys == Cells(g.rows, g.cols)
    ensures |Safe(g.field)| + |Mines(g.field)| == g.rows * g.cols == |g.field|
  {
    CellCount(g.rows, g.cols);
    assert Safe(g.field) + Mines(g.field) == g.field.Keys && Safe(g.field) !! Mines(g.field);
  }

  // ---------------------------------------------------------------- facts about the region

  lemma StartReachable(f: Field, s: Pos)
    requires Closed(f, s)
    ensures Reachable(f, s, s)
  {
    assert IsPath(f, [s]);
  }

  lemma ReachableSteps(f: Field, s: Pos, p: Pos, q: Pos)
    requires Reachable(f, s, p) && f[p].adjacent == 0 && Neighbour(p, q) && Closed(f, q)
    ensures Reachable(f, s, q)
  {
    var path :| IsPath(f, path) && path[0] == s && path[|path| - 1] == p;
    var longer := path + [q];
    forall i | 0 <= i < |longer| - 1 ensures PathStep(f, longer[i], longer[i + 1]) {
      if i < |path| - 1 { assert PathStep(f, path[i], path[i + 1]); }
    }
    assert IsPath(f, longer);
  }

  /** A set of cells that holds the start and every closed neighbour of its zero cells holds the whole region. */
  lemma RegionWithin(f: Field, s: Pos, cells: set<Pos>)
    requires s in cells
    requires forall p, q :: p in cells && Closed(f, p) && f[p].adjacent == 0 && Neighbour(p, q) && Closed(f, q) ==>
      q in cells
    ensures Region(f, s) <= cells
  {
    forall p | p in Region(f, s) ensures p in cells {
      var path :| IsPath(f, path) && path[0] == s && path[|path| - 1] == p;
      PathWithin(f, path, cells, |path| - 1);
    }
  }

  lemma {:induction false} PathWithin(f: Field, path: seq<Pos>, cells: set<Pos>, n: nat)
    requires IsPath(f, path) && path[0] in cells && n < |path|
    requires forall p, q :: p in cells && Closed(f, p) && f[p].adjacent == 0 && Neighbour(p, q) && Closed(f, q) ==>
      q in cells
    ensures path[n] in cells
  {
    if n > 0 {
      PathWithin(f, path, cells, n - 1);
      assert PathStep(f, path[n-1], path[n-1+1]);
    }
  }

  lemma RegionClosed(f: Field, s: Pos)
    ensures forall p :: p in Region(f, s) ==> Closed(f, p)
    ensures Closed(f, s) ==> s in Region(f, s)
  {
    forall p | p in Region(f, s) ensures Closed(f, p) {
      var path :| IsPath(f, path) && path[0] == s && path[|path| - 1] == p;
    }
    if Closed(f, s) { StartReachable(f, s); }
  }

  /** On a numbered board no mine touches a safe zero cell, so a path cannot run into one. */
  lemma ZeroTouchesNoMine(f: Field, p: Pos, q: Pos)
    requires Numbered(f) && p in f && q in f && !f[p].mine && f[p].adjacent == 0 && Neighbour(p, q)
    ensures !f[q].mine
  {
    var touched := Around(f, p) * Mines(f);
    assert f[q].mine ==> q in touched;
  }

  // ---------------------------------------------------------------- every move keeps the invariant

  lemma NewGameKept(rows: nat, cols: nat, mines: nat)
    requires Fits(rows, cols, mines)
    ensures Inv(NewGame(rows, cols, mines))
  {
    var f := NewGame(rows, cols, mines).field;
    assert Mines(f) == {} && OpenSafe(f) == {} && Flags(f) == {};
  }

  lemma ToggleKept(g: Game, p: Pos)
    requires Inv(g)
    ensures Inv(Toggle(g, p))
  {
    if CanToggle(g, p) {
      hide Numbered, Mines, Flags, OpenSafe, Safe, Around, Shown;
      ToggleCounts(g.field, p);
      SameMines(g.field, Toggle(g, p).field);
      ToggleShown(g, p);
    }
  }

  lemma ToggleShown(g: Game, p: Pos)
    requires Shown(g) && CanToggle(g, p)
    ensures Shown(Toggle(g, p)) && Toggle(g, p).field.Keys == g.field.Keys
  {
  }

  lemma ToggleCounts(f: Field, p: Pos)
    requires p in f && !f[p].open
    ensures var f' := f[p := f[p].(flag := !f[p].flag)];
            && |Flags(f')| == (if f[p].flag then |Flags(f)| - 1 else |Flags(f)| + 1)
            && OpenSafe(f') == OpenSafe(f)
  {
    var f' := f[p := f[p].(flag := !f[p].flag)];
    if f[p].flag {
      assert Flags(f') == Flags(f) - {p};
    } else {
      assert Flags(f') == Flags(f) + {p};
    }
  }

  /** Boards with the same mines and numbers are numbered alike. */
  lemma SameMines(f: Field, f': Field)
    requires f.Keys == f'.Keys
    requires forall p :: p in f ==> f'[p].mine == f[p].mine && f'[p].adjacent == f[p].adjacent
    ensures Mines(f') == Mines(f) && Safe(f') == Safe(f)
    ensures Numbered(f) ==> Numbered(f')
  {
    assert Mines(f') == Mines(f) && Safe(f') == Safe(f);
    forall p | p in f ensures Around(f', p) == Around(f, p) {}
  }

  lemma LayKept(g: Game, p: Pos, m: set<Pos>)
    requires Inv(g) && !g.started && GoodMines(g, p, m) && CanReveal(g, p)
    ensures var g1 := g.(started := true, field := Lay(g.field, m));
            Inv(g1) && CanReveal(g1, p) && Mines(g1.field) == m
  {
    var f, f' := g.field, Lay(g.field, m);
    assert Mines(f') == m && Flags(f') == Flags(f);
    NothingOpen(g);
    forall q | q in f ensures Around(f', q) == Around(f, q) {}
    assert OpenSafe(f') == {} && p in Safe(f');
  }

  lemma NothingOpen(g: Game)
    requires Inv(g) && !g.started
    ensures forall q :: q in g.field ==> !g.field[q].open && !g.field[q].mine
  {
    forall q | q in g.field ensures !g.field[q].open && !g.field[q].mine {
      assert g.field[q].mine || g.field[q].open ==> q in Mines(g.field) + OpenSafe(g.field);
    }
  }

  lemma LoseKept(g: Game, p: Pos)
    requires Inv(g) && g.started && CanReveal(g, p) && g.field[p].mine
    ensures Inv(Lose(g, p)) && Lose(g, p).lost
  {
    SameMines(g.field, Lose(g, p).field);
    LossCounts(g.field, p);
  }

  lemma LossCounts(f: Field, p: Pos)
    ensures OpenSafe(ShowLoss(f, p)) == OpenSafe(f) && Flags(ShowLoss(f, p)) == Flags(f)
  {
  }

  /** Flooding from a safe closed cell keeps the invariant, up to the check for a win. */
  lemma FloodKept(g: Game, p: Pos)
    requires Inv(g) && g.started && CanReveal(g, p) && !g.field[p].mine
    ensures Inv(CheckWin(Flood(g, p)))
    ensures CheckWin(Flood(g, p)).lost == g.lost && CheckWin(Flood(g, p)).started
  {
    FloodCounts(g.field, p);
    FloodedKept(g, Flood(g, p));
  }

  /** A board where some closed cells were opened, all counted. */
  lemma FloodedKept(g: Game, g': Game)
    requires Inv(g) && g.started && !g.lost && !g.won
    requires g' == g.(field := g'.field, openCount := g'.openCount) && g'.field.Keys == g.field.Keys
    requires forall q :: q in g.field ==>
      g'.field[q] == g.field[q] || (Closed(g.field, q) && g'.field[q] == g.field[q].(open := true))
    requires g'.openCount == |OpenSafe(g'.field)| && Flags(g'.field) == Flags(g.field)
    ensures Inv(CheckWin(g'))
  {
    SameMines(g.field, g'.field);
    SafeCount(g');
    assert OpenSafe(g'.field) <= Safe(g'.field);
    SubsetCount(OpenSafe(g'.field), Safe(g'.field));
    if g'.openCount == g'.rows * g'.cols - g'.mines { FinishKept(g'); }
  }

  lemma FloodCounts(f: Field, p: Pos)
    requires Closed(f, p)
    ensures var f' := OpenAll(f, Region(f, p));
            && |OpenSafe(f')| == |OpenSafe(f)| + |Region(f, p)| && Flags(f') == Flags(f)
            && OpenSafe(f') <= Safe(f')
            && forall q :: q in f ==> f'[q] == f[q] || (Closed(f, q) && f'[q] == f[q].(open := true))
  {
    var r, f' := Region(f, p), OpenAll(f, Region(f, p));
    RegionClosed(f, p);
    assert OpenSafe(f') == OpenSafe(f) + r && OpenSafe(f) !! r;
  }

  lemma FinishKept(g: Game)
    requires g.field.Keys == Cells(g.rows, g.cols) && Fits(g.rows, g.cols, g.mines)
    requires Counted(g) && Laid(g) && Shown(g) && g.started && !g.lost && OpenSafe(g.field) == Safe(g.field)
    ensures Inv(Finish(g))
  {
    var f, f' := g.field, Finish(g).field;
    SameMines(f, f');
    assert OpenSafe(f') == OpenSafe(f);
    forall p | p in f && f[p].flag ensures f[p].mine {
      assert !f[p].mine ==> p in Safe(f);
    }
    assert Flags(f') == Mines(f');
  }

  lemma RevealKept(g: Game, p: Pos, m: set<Pos>)
    requires Inv(g) && (!g.started && CanReveal(g, p) ==> GoodMines(g, p, m))
    ensures Inv(Reveal(g, p, m))
  {
    if CanReveal(g, p) {
      var g1 := if g.started then g else g.(started := true, field := Lay(g.field, m));
      if !g.started { LayKept(g, p, m); }
      if g1.field[p].mine { LoseKept(g1, p); } else { FloodKept(g1, p); }
    }
  }

  lemma ChordKept(g: Game, p: Pos)
    requires Inv(g)
    ensures Inv(Chord(g, p))
  {
    if CanChord(g, p) {
      OpenedIsStarted(g, p);
      ChordStepsGrow(g, p, BlockCells(p));
    }
  }

  lemma OpenedIsStarted(g: Game, p: Pos)
    requires Inv(g) && p in g.field && g.field[p].open && !g.lost
    ensures g.started && !g.field[p].mine
  {
    if !g.started { NothingOpen(g); }
  }

  // ---------------------------------------------------------------- chording

  /** What reveals do to a cell of a running game: it stays a mine or not, stays open, and keeps its flag; new flags
      come only with a win. */
  predicate CellGrown(c: Cell, c': Cell, won: bool) {
    c'.mine == c.mine && (c.open ==> c'.open) && (c.flag ==> c'.flag) && (!won ==> c'.flag == c.flag)
  }

  ghost predicate Grown(g: Game, g': Game) {
    && g'.started && g'.field.Keys == g.field.Keys
    && (forall q :: q in g.field ==> CellGrown(g.field[q], g'.field[q], g'.won))
    && (g.lost ==> g'.lost) && (g.won ==> g'.won)
  }

  lemma GrownTwice(g: Game, h: Game, k: Game)
    requires Grown(g, h) && Grown(h, k)
    ensures Grown(g, k)
  {
    forall q | q in g.field ensures CellGrown(g.field[q], k.field[q], k.won) {
      assert CellGrown(g.field[q], h.field[q], h.won) && CellGrown(h.field[q], k.field[q], k.won);
    }
  }

  lemma RevealGrows(g: Game, q: Pos)
    requires Inv(g) && g.started
    ensures Inv(Reveal(g, q, {})) && Grown(g, Reveal(g, q, {}))
    ensures CanReveal(g, q) ==> Reveal(g, q, {}).lost == g.field[q].mine
    ensures CanReveal(g, q) ==> Reveal(g, q, {}).field[q].open
  {
    RevealKept(g, q, {});
    if CanReveal(g, q) {
      if g.field[q].mine {
        assert Reveal(g, q, {}) == Lose(g, q);
      } else {
        RegionClosed(g.field, q);
        FloodGrows(g, q);
      }
    }
  }

  lemma FloodGrows(g: Game, q: Pos)
    requires g.started && CanReveal(g, q) && !g.field[q].mine && q in Region(g.field, q)
    ensures var g' := CheckWin(Flood(g, q));
            Grown(g, g') && g'.lost == g.lost && forall c :: c in Region(g.field, q) ==> g'.field[c].open
  {
    var h := Flood(g, q);
    forall p | p in g.field ensures CellGrown(g.field[p], CheckWin(h).field[p], CheckWin(h).won) {}
  }

  lemma {:induction false} ChordStepsGrow(g: Game, p: Pos, qs: seq<Pos>)
    requires Inv(g) && g.started
    ensures Inv(ChordSteps(g, p, qs)) && Grown(g, ChordSteps(g, p, qs))
  {
    if qs != [] {
      var h := ChordSteps(g, p, Front(qs));
      ChordStepsGrow(g, p, Front(qs));
      RevealGrows(h, Last(qs));
      GrownTwice(g, h, Reveal(h, Last(qs), {}));
    }
  }

  /** Some cell that was closed in g is open in h. */
  ghost predicate OpensMore(g: Game, h: Game) { exists q :: q in g.field && !g.field[q].open && IsOpen(h, q) }

  lemma OpensMoreDiffers(g: Game, h: Game)
    requires OpensMore(g, h)
    ensures g != h
  {
  }

  /** What was opened stays open, and a reveal that does something opens a cell. */
  lemma StepOpensMore(g: Game, p: Pos, qs: seq<Pos>, q: Pos)
    requires Inv(g) && g.started
    ensures var h, h' := ChordSteps(g, p, qs), ChordStep(ChordSteps(g, p, qs), p, q);
            && (OpensMore(g, h) ==> OpensMore(g, h'))
            && (q != p && CanReveal(h, q) ==> OpensMore(g, h'))
            && (q == p || !CanReveal(h, q) ==> h' == h)
  {
    var h, h' := ChordSteps(g, p, qs), ChordStep(ChordSteps(g, p, qs), p, q);
    ChordStepsGrow(g, p, qs);
    ChordStepFacts(h, p, q);
    if OpensMore(g, h) {
      var c :| c in g.field && !g.field[c].open && IsOpen(h, c);
      assert CellGrown(h.field[c], h'.field[c], h'.won);
    }
    if q != p && CanReveal(h, q) {
      assert CellGrown(g.field[q], h.field[q], h.won) && IsOpen(h', q);
    }
  }

  /** Some flag next to p stands on a cell that is not a mine. */
  predicate WrongFlagAround(g: Game, p: Pos) {
    exists q :: q in Around(g.field, p) && g.field[q].flag && !g.field[q].mine
  }

  /** As many flags as mines around p: no flag is wrong exactly when every mine is flagged. */
  lemma FlagsMatchMines(g: Game, p: Pos)
    requires Inv(g) && CanChord(g, p)
    ensures WrongFlagAround(g, p) <==> exists q :: q in Around(g.field, p) && g.field[q].mine && !g.field[q].flag
  {
    OpenedIsStarted(g, p);
    var a := Around(g.field, p);
    var flags, mines := a * Flags(g.field), a * Mines(g.field);
    if !WrongFlagAround(g, p) {
      assert flags <= mines;
      SubsetCount(flags, mines);
      forall q | q in a && g.field[q].mine ensures g.field[q].flag { assert q in mines; }
    } else if !exists q :: q in a && g.field[q].mine && !g.field[q].flag {
      assert mines <= flags;
      SubsetCount(mines, flags);
      assert forall q :: q in a && g.field[q].flag ==> q in flags;
    }
  }

  /** One step of a chord either does nothing or reveals the cell it comes to. */
  ghost predicate StepFacts(h: Game, p: Pos, q: Pos, h': Game) {
    && Grown(h, h')
    && (if q == p || !CanReveal(h, q) then h' == h else h'.lost == h.field[q].mine && h'.field[q].open)
  }

  lemma ChordStepFacts(h: Game, p: Pos, q: Pos)
    requires Inv(h) && h.started
    ensures StepFacts(h, p, q, ChordStep(h, p, q))
  {
    RevealGrows(h, q);
  }

  predicate SafeAround(g: Game, p: Pos, q: Pos) { q in Around(g.field, p) && !g.field[q].mine }

  predicate MineAround(g: Game, p: Pos, q: Pos) { q in Around(g.field, p) && g.field[q].mine }

  /** With every flag right, the steps lose nothing and open a safe cell x they come to. */
  lemma {:induction false} ChordOpens(g: Game, p: Pos, x: Pos, qs: seq<Pos>)
    requires Inv(g) && g.started && !g.lost && FlagsRight(g, p)
    requires forall q :: q in qs ==> Near(p, q)
    ensures !ChordSteps(g, p, qs).lost
    ensures x in qs && SafeAround(g, p, x) ==> IsOpen(ChordSteps(g, p, qs), x)
  {
    if qs != [] {
      var h, h' := ChordSteps(g, p, Front(qs)), ChordSteps(g, p, qs);
      ChordOpens(g, p, x, Front(qs));
      ChordStepsGrow(g, p, Front(qs));
      ChordStepFacts(h, p, Last(qs));
      InFrontOrLast(qs, x);
      assert Near(p, Last(qs));
      ChordStepOpens(g, p, x, Last(qs), h, h');
    }
  }

  /** Around p the flags stand exactly on the mines. */
  ghost predicate FlagsRight(g: Game, p: Pos) {
    forall q :: q in Around(g.field, p) ==> g.field[q].flag == g.field[q].mine
  }

  predicate IsOpen(g: Game, x: Pos) { x in g.field && g.field[x].open }

  lemma InFrontOrLast(qs: seq<Pos>, x: Pos)
    requires qs != []
    ensures x in qs ==> x in Front(qs) || x == Last(qs)
  {
  }

  lemma ChordStepOpens(g: Game, p: Pos, x: Pos, q: Pos, h: Game, h': Game)
    requires FlagsRight(g, p)
    requires Decided(h) && Grown(g, h) && !h.lost && Near(p, q) && StepFacts(h, p, q, h')
    ensures !h'.lost
    ensures SafeAround(g, p, x) && (x == q || IsOpen(h, x)) ==> IsOpen(h', x)
  {
    assert IsOpen(h, x) ==> CellGrown(h.field[x], h'.field[x], h'.won);
    if q in g.field && q != p {
      assert CellGrown(g.field[q], h.field[q], h.won);
      if SafeAround(g, p, q) { SafeCellIsPlain(q, h); }
    }
  }

  /** On a won board a safe cell is open and carries no flag. */
  lemma SafeCellIsPlain(q: Pos, h: Game)
    requires Decided(h) && h.started && q in h.field && !h.field[q].mine
    ensures h.won ==> h.field[q].open && !h.field[q].flag
  {
    assert q in Safe(h.field) && q !in Mines(h.field);
    assert h.won ==> q in OpenSafe(h.field) && q !in Flags(h.field);
  }

  /** With a wrong flag w, the game is lost once the steps have come to a mine x that lacks its flag. */
  lemma {:induction false} ChordHits(g: Game, p: Pos, w: Pos, x: Pos, qs: seq<Pos>)
    requires Inv(g) && g.started && !g.lost
    requires SafeAround(g, p, w) && g.field[w].flag
    requires MineAround(g, p, x) && !g.field[x].flag
    ensures x in qs ==> ChordSteps(g, p, qs).lost
  {
    if qs != [] {
      var h, h' := ChordSteps(g, p, Front(qs)), ChordSteps(g, p, qs);
      ChordHits(g, p, w, x, Front(qs));
      ChordStepsGrow(g, p, Front(qs));
      ChordStepFacts(h, p, Last(qs));
      if x in Front(qs) {
        assert h.lost;
      } else if x == Last(qs) && !h.lost {
        UnflaggedMineHit(g, w, x, h);
      }
    }
  }

  lemma UnflaggedMineHit(g: Game, w: Pos, x: Pos, h: Game)
    requires Decided(h) && Shown(h) && Grown(g, h) && !h.lost
    requires w in g.field && g.field[w].flag && !g.field[w].mine
    requires x in g.field && g.field[x].mine && !g.field[x].flag
    ensures CanReveal(h, x) && h.field[x].mine
  {
    assert CellGrown(g.field[w], h.field[w], h.won);
    SafeCellIsPlain(w, h);
    assert CellGrown(g.field[x], h.field[x], h.won);
  }

  /** A chord that gets past the count of flags loses exactly when one of the flags around is wrong; otherwise every
      safe cell around is open afterwards, won or not. */
  lemma ChordDecides(g: Game, p: Pos)
    requires Inv(g) && CanChord(g, p)
    ensures Chord(g, p).lost <==> WrongFlagAround(g, p)
    ensures !Chord(g, p).lost ==> forall q :: SafeAround(g, p, q) ==> IsOpen(Chord(g, p), q)
  {
    FlagsMatchMines(g, p);
    OpenedIsStarted(g, p);
    BlockCellsAre(p);
    if WrongFlagAround(g, p) {
      var w :| w in Around(g.field, p) && g.field[w].flag && !g.field[w].mine;
      var x :| x in Around(g.field, p) && g.field[x].mine && !g.field[x].flag;
      ChordHits(g, p, w, x, BlockCells(p));
    } else {
      ChordOpens(g, p, p, BlockCells(p));
      forall q | SafeAround(g, p, q) ensures IsOpen(Chord(g, p), q) {
        ChordOpens(g, p, q, BlockCells(p));
      }
    }
  }

  // ---------------------------------------------------------------- the first reveal

  /** A cell the placement may take for the next mine. */
  predicate Acceptable(g: Game, p: Pos, m: set<Pos>, q: Pos) {
    q in g.field && q !in m && q != p && (Roomy(g, p) ==> !Near(p, q))
  }

  /** While mines are still to be placed there is always a cell to take. */
  lemma AcceptableRemains(g: Game, p: Pos, m: set<Pos>)
    requires Fits(g.rows, g.cols, g.mines) && g.field.Keys == Cells(g.rows, g.cols) && p in g.field
    requires m <= g.field.Keys && |m| < g.mines
    ensures exists q :: Acceptable(g, p, m, q)
  {
    CellCount(g.rows, g.cols);
    var banned := if Roomy(g, p) then Block(g.field, p) else {p};
    var free := g.field.Keys - banned - m;
    assert g.field.Keys == banned + (g.field.Keys - banned);
    assert g.field.Keys - banned <= free + m;
    SubsetCount(g.field.Keys - banned, free + m);
    assert |free| > 0;
    var q :| q in free;
    assert Acceptable(g, p, m, q);
  }

  /** The first reveal never loses, opens its cell, and with room for the mines elsewhere opens every cell of the
      block that carries no flag. */
  lemma FirstRevealSafe(g: Game, p: Pos, m: set<Pos>)
    requires Inv(g) && !g.started && CanReveal(g, p) && GoodMines(g, p, m)
    ensures var h := Reveal(g, p, m);
            && !h.lost && p in h.field && h.field[p].open && Mines(h.field) == m
            && (Roomy(g, p) ==> forall q :: q in Block(g.field, p) && !g.field[q].flag ==>
              h.field[q].open && !h.field[q].mine)
  {
    LayKept(g, p, m);
    NothingOpen(g);
    var g1 := g.(started := true, field := Lay(g.field, m));
    RegionClosed(g1.field, p);
    FloodGrows(g1, p);
    var h := Reveal(g, p, m);
    assert h == CheckWin(Flood(g1, p)) && Grown(g1, h);
    assert Mines(h.field) == m by { SameMineCells(g1, h); }
    if Roomy(g, p) {
      forall q | q in Block(g.field, p) && !g.field[q].flag ensures h.field[q].open && !h.field[q].mine {
        BlockInRegion(g, p, m, q);
        assert CellGrown(g1.field[q], h.field[q], h.won);
      }
    }
  }

  lemma SameMineCells(g: Game, h: Game)
    requires Grown(g, h)
    ensures Mines(h.field) == Mines(g.field)
  {
    forall q | q in g.field ensures h.field[q].mine == g.field[q].mine {
      assert CellGrown(g.field[q], h.field[q], h.won);
    }
  }

  lemma BlockInRegion(g: Game, p: Pos, m: set<Pos>, q: Pos)
    requires forall c :: c in g.field ==> !g.field[c].open && !g.field[c].mine
    requires p in g.field && !g.field[p].flag && m !! Block(g.field, p)
    requires q in Block(g.field, p) && !g.field[q].flag
    ensures q in Region(Lay(g.field, m), p) && q !in m
  {
    var f := Lay(g.field, m);
    assert Around(g.field, p) * m == {};
    StartReachable(f, p);
    if q != p { ReachableSteps(f, p, p, q); }
  }

  // ---------------------------------------------------------------- whole games

  datatype Event =
    | Level(rows: nat, cols: nat, mines: nat)
    | RevealAt(at: Pos, laid: set<Pos>)
    | ToggleAt(at: Pos)
    | ChordAt(at: Pos)

  ghost predicate Enabled(g: Game, e: Event) {
    match e
    case Level(rows, cols, mines) => Fits(rows, cols, mines)
    case RevealAt(p, m) => !g.started && CanReveal(g, p) ==> GoodMines(g, p, m)
    case _ => true
  }

  ghost function Step(g: Game, e: Event): Game {
    match e
    case Level(rows, cols, mines) => NewGame(rows, cols, mines)
    case RevealAt(p, m) => Reveal(g, p, m)
    case ToggleAt(p) => Toggle(g, p)
    case ChordAt(p) => Chord(g, p)
  }

  /** g is reached by some sequence of moves from a fresh board. */
  ghost predicate Reached(rows: nat, cols: nat, mines: nat, es: seq<Event>, g: Game)
    decreases |es|
  {
    if es == [] then g == NewGame(rows, cols, mines)
    else exists h :: Reached(rows, cols, mines, Front(es), h) && Enabled(h, Last(es)) && g == Step(h, Last(es))
  }

  /** The invariant holds in every reachable state: the counters are right, every number is true, nothing is both open
      and flagged short of a loss, a game is never both lost and won, and it is won exactly when it should be. */
  lemma {:induction false} ReachedInv(rows: nat, cols: nat, mines: nat, es: seq<Event>, g: Game)
    requires Fits(rows, cols, mines) && Reached(rows, cols, mines, es, g)
    ensures Inv(g)
    decreases |es|
  {
    if es == [] {
      NewGameKept(rows, cols, mines);
    } else {
      var e := Last(es);
      var h :| Reached(rows, cols, mines, Front(es), h) && Enabled(h, e) && g == Step(h, e);
      ReachedInv(rows, cols, mines, Front(es), h);
      match e
      case Level(r, c, n) => NewGameKept(r, c, n);
      case RevealAt(p, m) => RevealKept(h, p, m);
      case ToggleAt(p) => ToggleKept(h, p);
      case ChordAt(p) => ChordKept(h, p);
    }
  }
}
