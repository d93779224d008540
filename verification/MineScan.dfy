/** Going over the board row by row, and drawing a cell by its number. */
module MineScan {
  import opened Sequences
  import opened MineRules

  // ---------------------------------------------------------------- scanning the board row by row

  predicate Before(p: Pos, r: int, c: int) { p.0 < r || (p.0 == r && p.1 < c) }

  function Upto(a: set<Pos>, r: int, c: int): set<Pos> { set p | p in a && Before(p, r, c) }

  lemma UptoNext(a: set<Pos>, r: int, c: int)
    ensures (r, c) in a ==> |Upto(a, r, c + 1)| == |Upto(a, r, c)| + 1
    ensures (r, c) !in a ==> Upto(a, r, c + 1) == Upto(a, r, c)
  {
    if (r, c) in a {
      assert Upto(a, r, c + 1) == Upto(a, r, c) + {(r, c)};
    } else {
      assert Upto(a, r, c + 1) == Upto(a, r, c);
    }
  }

  lemma UptoRow(a: set<Pos>, r: int, lo: int, hi: int)
    requires forall p :: p in a ==> lo <= p.1 < hi
    ensures Upto(a, r, hi) == Upto(a, r + 1, lo)
  {
  }

  lemma UptoEnds(a: set<Pos>, r: int, r': int, lo: int)
    requires forall p :: p in a ==> r <= p.0 < r' && lo <= p.1
    ensures Upto(a, r, lo) == {} && Upto(a, r', lo) == a
  {
  }

  /** The board while a scan turns f into f': the cells before (r, c) are done. */
  ghost predicate Scanned(now: Field, f: Field, f': Field, r: int, c: int) {
    && now.Keys == f.Keys == f'.Keys
    && (forall p :: p in now ==> now[p] == if Before(p, r, c) then f'[p] else f[p])
  }

  lemma ScanNext(now: Field, f: Field, f': Field, r: int, c: int)
    requires Scanned(now, f, f', r, c) && (r, c) in now
    ensures Scanned(now[(r, c) := f'[(r, c)]], f, f', r, c + 1)
  {
  }

  lemma ScanRow(now: Field, f: Field, f': Field, r: int, cols: int)
    requires Scanned(now, f, f', r, cols) && forall p :: p in now ==> 0 <= p.1 < cols
    ensures Scanned(now, f, f', r + 1, 0)
  {
  }

  lemma ScanStarts(f: Field, f': Field)
    requires f.Keys == f'.Keys && forall p :: p in f ==> 0 <= p.0 && 0 <= p.1
    ensures Scanned(f, f, f', 0, 0)
  {
  }

  lemma ScanDone(now: Field, f: Field, f': Field, rows: int)
    requires Scanned(now, f, f', rows, 0) && forall p :: p in now ==> p.0 < rows
    ensures now == f'
  {
  }

  /** The cell a draw stands for. */
  function CellOf(pick: nat, cols: nat): Pos
    requires cols > 0
  {
    (pick / cols, pick % cols)
  }

  lemma DivUnique(x: nat, d: nat, q: int, r: int)
    requires 0 <= r < d && x == q * d + r
    ensures x / d == q && x % d == r
  {
    var k := x / d - q;
    assert x == (x / d) * d + x % d;
    assert k * d == r - x % d;
    assert (k >= 1 ==> k * d >= d) && (k <= -1 ==> k * d <= -(d as int));
  }

  lemma CellOfInBoard(pick: nat, rows: nat, cols: nat)
    requires 0 < cols && pick < rows * cols
    ensures CellOf(pick, cols) in Cells(rows, cols)
  {
    var q := pick / cols;
    assert pick == q * cols + pick % cols;
    if q > rows - 1 { MulMonotone(rows, q, cols); }
  }

  lemma MulMonotone(a: nat, b: nat, c: nat)
    requires a <= b
    ensures a * c <= b * c
  {
  }

  lemma PickOf(q: Pos, rows: nat, cols: nat) returns (pick: nat)
    requires q in Cells(rows, cols)
    ensures pick < rows * cols && cols > 0 && CellOf(pick, cols) == q
  {
    pick := q.0 * cols + q.1;
    DivUnique(pick, cols, q.0, q.1);
    MulMonotone(q.0 + 1, rows, cols);
    assert (q.0 + 1) * cols == q.0 * cols + cols;
  }

  lemma BoardFits(rows: nat, cols: nat)
    requires rows <= MAX_ROWS && cols <= MAX_COLS
    ensures rows * cols <= MAX_CELLS
  {
    MulMonotone(rows, MAX_ROWS, cols);
  }

  // ---------------------------------------------------------------- laying the mines by chance

  /** A cell that may get a mine, apart from those that have one. */
  predicate MayLay(g: Game, p: Pos, q: Pos) { Acceptable(g, p, {}, q) }

  /** The cell a random number leads to. */
  function CellDrawn(g: Game, draw: nat): Pos
    requires Fits(g.rows, g.cols, g.mines)
  {
    CellOf(draw % (g.rows * g.cols), g.cols)
  }

  /** The cells that a sequence of random numbers lays mines on, if the first reveal is at p. */
  ghost function Drawn(g: Game, p: Pos, draws: seq<nat>): set<Pos>
    requires Fits(g.rows, g.cols, g.mines)
  {
    if draws == [] then {}
    else
      var q := CellDrawn(g, Last(draws));
      Drawn(g, p, Front(draws)) + if MayLay(g, p, q) then {q} else {}
  }

  /** The random numbers lead to as many different cells as there are mines to lay. */
  ghost predicate Enough(g: Game, p: Pos, draws: seq<nat>)
    requires Fits(g.rows, g.cols, g.mines)
  {
    |Drawn(g, p, draws)| >= g.mines
  }

  lemma DrawnNext(g: Game, p: Pos, draws: seq<nat>, i: nat)
    requires Fits(g.rows, g.cols, g.mines) && i < |draws|
    ensures var q := CellDrawn(g, draws[i]);
            Drawn(g, p, draws[..i + 1]) == Drawn(g, p, draws[..i]) + if MayLay(g, p, q) then {q} else {}
  {
    assert Front(draws[..i + 1]) == draws[..i];
  }

  lemma DrawnNone(g: Game, p: Pos, draws: seq<nat>)
    requires Fits(g.rows, g.cols, g.mines)
    ensures Drawn(g, p, draws[..0]) == {}
  {
  }

  /** While mines are missing the numbers are not used up. */
  lemma StillDrawing(g: Game, p: Pos, draws: seq<nat>, i: nat)
    requires Fits(g.rows, g.cols, g.mines) && Enough(g, p, draws) && i <= |draws|
    requires |Drawn(g, p, draws[..i])| < g.mines
    ensures i < |draws|
  {
    assert draws[..|draws|] == draws;
  }

  /** The mines keep off the first cell, and off its block when there is room. */
  lemma {:induction false} DrawnGood(g: Game, p: Pos, draws: seq<nat>)
    requires Fits(g.rows, g.cols, g.mines)
    ensures var m := Drawn(g, p, draws);
            m <= g.field.Keys && p !in m && (Roomy(g, p) ==> m !! Block(g.field, p))
  {
    if draws != [] { DrawnGood(g, p, Front(draws)); }
  }

  /** While mines are missing some random number leads to a new cell, so the drawing can always end. */
  lemma {:induction false} DrawsExist(g: Game, p: Pos, n: nat) returns (draws: seq<nat>)
    requires Fits(g.rows, g.cols, g.mines) && g.field.Keys == Cells(g.rows, g.cols) && p in g.field && n <= g.mines
    ensures |Drawn(g, p, draws)| >= n
  {
    if n == 0 {
      draws := [];
    } else {
      draws := DrawsExist(g, p, n - 1);
      var m := Drawn(g, p, draws);
      if |m| < n {
        DrawnGood(g, p, draws);
        AcceptableRemains(g, p, m);
        var q :| Acceptable(g, p, m, q);
        var pick := PickOf(q, g.rows, g.cols);
        assert Front(draws + [pick]) == draws && Last(draws + [pick]) == pick;
        assert CellDrawn(g, pick) == q by { SmallRemainder(pick, g.rows * g.cols); }
        draws := draws + [pick];
      }
    }
  }

  lemma SmallRemainder(x: nat, d: nat)
    requires x < d
    ensures x % d == x
  {
  }
}
