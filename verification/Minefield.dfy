/** The minesweeper widget's board: a fixed 20 by 30 array of cells, counters and flags, changed in place. */
module Minefield {
  import opened Sequences
  import opened MineRules
  import opened MineScan
  import opened MineFlood

  class Board {
    const board: array2<Cell>
    var rows: nat
    var cols: nat
    var minesTotal: nat
    var flagsUsed: int
    var openedCount: int
    var started: bool
    var lost: bool
    var won: bool
    ghost var field: Field

    /** field is the part of the array that the level uses. */
    ghost predicate Valid()
      reads this, board
    {
      && board.Length0 == MAX_ROWS && board.Length1 == MAX_COLS
      && Fits(rows, cols, minesTotal) && field.Keys == Cells(rows, cols)
      && forall p :: p in field ==> field[p] == board[p.0, p.1]
    }

    ghost function View(): Game
      reads this
    {
      Game(rows, cols, minesTotal, field, started, lost, won, flagsUsed, openedCount)
    }

    constructor (r: nat, c: nat, m: nat)
      requires Fits(r, c, m)
      ensures Valid() && View() == NewGame(r, c, m)
    {
      board := new Cell[MAX_ROWS, MAX_COLS]((i, j) => BLANK);
      rows, cols, minesTotal := r, c, m;
      flagsUsed, openedCount := 0, 0;
      started, lost, won := false, false, false;
      field := map p | p in Cells(r, c) :: BLANK;
    }

    predicate InBoard(r: int, c: int)
      reads this
    {
      0 <= r < rows && 0 <= c < cols
    }

    /** board[r][c] = cell */
    method Put(r: int, c: int, cell: Cell)
      requires Valid() && InBoard(r, c)
      modifies this`field, board
      ensures Valid() && field == old(field)[(r, c) := cell]
    {
      board[r, c] := cell;
      field := field[(r, c) := cell];
    }

    /** Apply a level and start a game on it. */
    method StartGame(r: nat, c: nat, m: nat)
      requires Valid() && Fits(r, c, m)
      modifies this, board
      ensures Valid() && View() == NewGame(r, c, m)
    {
      rows, cols, minesTotal := r, c, m;
      forall i, j | 0 <= i < MAX_ROWS && 0 <= j < MAX_COLS { board[i, j] := BLANK; }
      flagsUsed, openedCount := 0, 0;
      started, lost, won := false, false, false;
      field := map p | p in Cells(r, c) :: BLANK;
    }

    method CountProtected(row: int, col: int) returns (count: nat)
      requires Valid()
      ensures count == |Block(field, (row, col))|
    {
      count := 0;
      ghost var a := Block(field, (row, col));
      UptoEnds(a, row - 1, row + 2, col - 1);
      for nr := row - 1 to row + 2
        invariant count == |Upto(a, nr, col - 1)|
      {
        for nc := col - 1 to col + 2
          invariant count == |Upto(a, nr, nc)|
        {
          if InBoard(nr, nc) { count := count + 1; }
          UptoNext(a, nr, nc);
        }
        UptoRow(a, nr, col - 1, col + 2);
      }
    }

    method CountNeighborMines(row: int, col: int) returns (count: nat)
      requires Valid()
      ensures count == |Around(field, (row, col)) * Mines(field)|
    {
      count := 0;
      ghost var a := Around(field, (row, col)) * Mines(field);
      UptoEnds(a, row - 1, row + 2, col - 1);
      for nr := row - 1 to row + 2
        invariant count == |Upto(a, nr, col - 1)|
      {
        for nc := col - 1 to col + 2
          invariant count == |Upto(a, nr, nc)|
        {
          if (nr != row || nc != col) && InBoard(nr, nc) && board[nr, nc].mine { count := count + 1; }
          UptoNext(a, nr, nc);
        }
        UptoRow(a, nr, col - 1, col + 2);
      }
    }

    method CountNeighborFlags(row: int, col: int) returns (count: nat)
      requires Valid()
      ensures count == |Around(field, (row, col)) * Flags(field)|
    {
      count := 0;
      ghost var a := Around(field, (row, col)) * Flags(field);
      UptoEnds(a, row - 1, row + 2, col - 1);
      for nr := row - 1 to row + 2
        invariant count == |Upto(a, nr, col - 1)|
      {
        for nc := col - 1 to col + 2
          invariant count == |Upto(a, nr, nc)|
        {
          if (nr != row || nc != col) && InBoard(nr, nc) && board[nr, nc].flag { count := count + 1; }
          UptoNext(a, nr, nc);
        }
        UptoRow(a, nr, col - 1, col + 2);
      }
    }

    /** Lay the mines by chance, away from the first cell, and number the board. */
    method PlaceMines(row: int, col: int, draws: seq<nat>) returns (ghost m: set<Pos>, ghost used: nat)
      requires Valid() && InBoard(row, col) && Mines(field) == {} && Enough(View(), (row, col), draws)
      modifies this`field, board
      ensures Valid() && GoodMines(old(View()), (row, col), m) && field == Lay(old(field), m)
      ensures used <= |draws| && m == Drawn(old(View()), (row, col), draws[..used])
    {
      m, used := ScatterMines(row, col, draws);
      NumberBoard(old(field), m);
    }

    method NumberBoard(ghost f: Field, ghost m: set<Pos>)
      requires Valid() && field == WithMines(f, m)
      modifies this`field, board
      ensures Valid() && field == Lay(f, m)
    {
      ScanStarts(field, Lay(f, m));
      for r := 0 to rows
        invariant Valid() && Scanned(field, WithMines(f, m), Lay(f, m), r, 0)
      {
        for c := 0 to cols
          invariant Valid() && Scanned(field, WithMines(f, m), Lay(f, m), r, c)
        {
          NumberCell(r, c, f, m);
        }
        ScanRow(field, WithMines(f, m), Lay(f, m), r, cols);
      }
      ScanDone(field, WithMines(f, m), Lay(f, m), rows);
    }

    method NumberCell(r: int, c: int, ghost f: Field, ghost m: set<Pos>)
      requires Valid() && InBoard(r, c) && Scanned(field, WithMines(f, m), Lay(f, m), r, c)
      modifies this`field, board
      ensures Valid() && Scanned(field, WithMines(f, m), Lay(f, m), r, c + 1)
    {
      ScanNext(field, WithMines(f, m), Lay(f, m), r, c);
      var cell := board[r, c];
      if cell.mine {
        Put(r, c, cell.(adjacent := 0));
      } else {
        var n := CountNeighborMines(r, c);
        MinesSeen(field, f, m, r, c);
        Put(r, c, cell.(adjacent := n));
      }
    }

    /** Draw cells until enough mines are laid; draws are the random numbers. */
    method ScatterMines(row: int, col: int, draws: seq<nat>) returns (ghost m: set<Pos>, ghost used: nat)
      requires Valid() && InBoard(row, col) && Mines(field) == {} && Enough(View(), (row, col), draws)
      modifies this`field, board
      ensures Valid() && GoodMines(old(View()), (row, col), m) && field == WithMines(old(field), m)
      ensures used <= |draws| && m == Drawn(old(View()), (row, col), draws[..used])
    {
      hide Drawn, Enough, MayLay, CellDrawn;
      ghost var g := View();
      var placed, i := 0, 0;
      m := {};
      DrawnNone(g, (row, col), draws);
      var guarded := CountProtected(row, col);
      CellCount(rows, cols);
      var protectNeighbors := rows * cols - guarded >= minesTotal;
      assert protectNeighbors == Roomy(g, (row, col));
      while placed < minesTotal
        invariant Valid() && placed == |m| <= minesTotal && i <= |draws|
        invariant m == Drawn(g, (row, col), draws[..i]) && field == WithMines(g.field, m)
        decreases |draws| - i
      {
        StillDrawing(g, (row, col), draws, i);
        DrawnNext(g, (row, col), draws, i);
        ghost var taken;
        placed, taken := DrawOne(row, col, protectNeighbors, draws[i], placed, g, m);
        m := m + taken;
        i := i + 1;
      }
      used := i;
      DrawnGood(g, (row, col), draws[..i]);
    }

    /** One draw: rejected on a mine, on the first cell and, when there is room, in its block. */
    method DrawOne(row: int, col: int, protectNeighbors: bool, draw: nat, placed: nat, ghost g: Game, ghost m: set<Pos>)
      returns (placed': nat, ghost taken: set<Pos>)
      requires Valid() && rows == g.rows && cols == g.cols && minesTotal == g.mines
      requires protectNeighbors == Roomy(g, (row, col)) && field == WithMines(g.field, m)
      modifies this`field, board
      ensures Valid() && field == WithMines(g.field, m + taken)
      ensures var q := CellDrawn(g, draw); taken == if MayLay(g, (row, col), q) then {q} else {}
      ensures placed' - placed == |m + taken| - |m|
    {
      hide Roomy;
      var pick := draw % (rows * cols);
      var r, c := pick / cols, pick % cols;
      CellOfInBoard(pick, rows, cols);
      placed', taken := placed, if MayLay(g, (row, col), (r, c)) then {(r, c)} else {};
      if board[r, c].mine {
        assert m + taken == m;
      } else if (r == row && c == col) || (protectNeighbors && Apart(r - row) <= 1 && Apart(c - col) <= 1) {
        assert taken == {} && m + taken == m;
      } else {
        MineLaid(g.field, m, (r, c));
        Put(r, c, board[r, c].(mine := true));
        placed' := placed + 1;
      }
    }

    /** Open the region of a closed safe cell. */
    method FloodOpen(row: int, col: int)
      requires Valid() && Closed(field, (row, col))
      modifies this`field, this`openedCount, board
      ensures Valid() && field == OpenAll(old(field), Region(old(field), (row, col)))
      ensures openedCount == old(openedCount) + |Region(old(field), (row, col))|
    {
      ghost var f, s := field, (row, col);
      var queue := new FloodQueue.From(row, col);
      CellCount(rows, cols);
      BoardFits(rows, cols);
      FloodStarts(f, s);
      ghost var count := FloodAll(queue, f, s);
      FloodEnds(f, s, queue.q, field, count);
    }

    method FloodAll(queue: FloodQueue, ghost f: Field, ghost s: Pos) returns (ghost count: int)
      requires Valid() && queue.Valid() && |f| <= MAX_CELLS
      requires Flooding(f, s, queue.q, queue.head, field, 0)
      modifies this`field, this`openedCount, board, queue, queue.queueRow, queue.queueCol, queue.queued
      ensures Valid() && Flooding(f, s, queue.q, |queue.q|, field, count)
      ensures openedCount == old(openedCount) + count
    {
      count := 0;
      FloodFits(f, s, queue.q);
      while queue.head < queue.tail
        invariant Valid() && queue.Valid() && |queue.q| <= |f|
        invariant Flooding(f, s, queue.q, queue.head, field, count) && openedCount == old(openedCount) + count
        decreases |f| - queue.head
      {
        count := FloodStep(queue, f, s, count);
        FloodFits(f, s, queue.q);
      }
    }

    method FloodStep(queue: FloodQueue, ghost f: Field, ghost s: Pos, ghost count: int) returns (ghost count': int)
      requires Valid() && queue.Valid() && queue.head < |queue.q| && |f| <= MAX_CELLS
      requires Flooding(f, s, queue.q, queue.head, field, count)
      modifies this`field, this`openedCount, board, queue, queue.queueRow, queue.queueCol, queue.queued
      ensures Valid() && queue.Valid() && queue.head == old(queue.head) + 1
      ensures Flooding(f, s, queue.q, queue.head, field, count')
      ensures openedCount - count' == old(openedCount) - count
    {
      hide Flooding;
      NextLooks(f, s, queue.q, queue.head, field, count);
      var row, col := queue.Pop();
      count' := Handle(queue, row, col, f, s, count);
    }

    /** The cell just taken from the queue is passed over or opened. */
    method Handle(queue: FloodQueue, row: int, col: int, ghost f: Field, ghost s: Pos, ghost count: int)
      returns (ghost count': int)
      requires Valid() && queue.Valid() && 0 < queue.head <= |queue.q| && |f| <= MAX_CELLS
      requires Flooding(f, s, queue.q, queue.head - 1, field, count) && queue.q[queue.head - 1] == (row, col)
      requires Plain(f, (row, col)) && (row, col) in field && field[(row, col)] == f[(row, col)]
      modifies this`field, this`openedCount, board, queue`tail, queue`q, queue.queueRow, queue.queueCol, queue.queued
      ensures Valid() && queue.Valid() && Flooding(f, s, queue.q, queue.head, field, count')
      ensures openedCount - count' == old(openedCount) - count
    {
      hide Flooding;
      count' := count;
      if board[row, col].open || board[row, col].flag {
        FloodPasses(f, s, queue.q, queue.head - 1, field, count);
      } else {
        OpenNext(queue, row, col, f, s, queue.head - 1, count);
        count' := count + 1;
      }
    }

    /** The cell just taken from the queue is opened. */
    method OpenNext(queue: FloodQueue, row: int, col: int, ghost f: Field, ghost s: Pos,
            ghost head: nat, ghost count: int)
      requires Valid() && queue.Valid() && queue.head == head + 1 <= |queue.q| && |f| <= MAX_CELLS
      requires Flooding(f, s, queue.q, head, field, count) && Closed(f, queue.q[head]) && queue.q[head] == (row, col)
      modifies this`field, this`openedCount, board, queue`tail, queue`q, queue.queueRow, queue.queueCol, queue.queued
      ensures Valid() && queue.Valid() && openedCount == old(openedCount) + 1
      ensures Flooding(f, s, queue.q, head + 1, field, count + 1)
    {
      ghost var q, now := queue.q, field;
      NextLooks(f, s, q, head, now, count);
      OpenQueued(queue, row, col, f, s);
      FloodOpens(f, s, q, queue.q, head, now, count);
    }

    method OpenQueued(queue: FloodQueue, row: int, col: int, ghost f: Field, ghost s: Pos)
      requires Valid() && queue.Valid() && Sound(f, s, queue.q) && |f| <= MAX_CELLS
      requires SameFlags(field, f) && (row, col) in queue.q && Closed(f, (row, col))
      requires (row, col) in field && field[(row, col)] == f[(row, col)]
      modifies this`field, this`openedCount, board, queue`tail, queue`q, queue.queueRow, queue.queueCol, queue.queued
      ensures Valid() && queue.Valid() && Sound(f, s, queue.q) && old(queue.q) <= queue.q
      ensures field == old(field)[(row, col) := f[(row, col)].(open := true)] && openedCount == old(openedCount) + 1
      ensures Spread(f, queue.q, (row, col))
    {
      hide Sound, SameFlags;
      SameFlagsOpened(field, f, (row, col));
      MarkOpen(row, col);
      if board[row, col].adjacent == 0 { QueueNeighbors(queue, row, col, f, s); }
    }

    method MarkOpen(row: int, col: int)
      requires Valid() && InBoard(row, col)
      modifies this`field, this`openedCount, board
      ensures Valid() && openedCount == old(openedCount) + 1
      ensures field == old(field)[(row, col) := old(field)[(row, col)].(open := true)]
    {
      Put(row, col, board[row, col].(open := true));
      openedCount := openedCount + 1;
    }

    /** Queue every neighbour that is neither queued yet nor a mine nor flagged. */
    method QueueNeighbors(queue: FloodQueue, row: int, col: int, ghost f: Field, ghost s: Pos)
      requires Valid() && queue.Valid() && Sound(f, s, queue.q) && |f| <= MAX_CELLS
      requires SameFlags(field, f)
      requires (row, col) in queue.q && Closed(f, (row, col)) && f[(row, col)].adjacent == 0
      modifies queue`tail, queue`q, queue.queueRow, queue.queueCol, queue.queued
      ensures queue.Valid() && Sound(f, s, queue.q) && old(queue.q) <= queue.q
      ensures Spread(f, queue.q, (row, col))
    {
      hide Sound, SameFlags, QueuedUpto, Spread, Plain;
      ghost var q0 := queue.q;
      QueuedNone(f, q0, (row, col));
      for nr := row - 1 to row + 2
        invariant queue.Valid() && Sound(f, s, queue.q) && q0 <= queue.q
        invariant QueuedUpto(f, queue.q, (row, col), nr, col - 1)
      {
        for nc := col - 1 to col + 2
          invariant queue.Valid() && Sound(f, s, queue.q) && q0 <= queue.q
          invariant QueuedUpto(f, queue.q, (row, col), nr, nc)
        {
          ghost var q := queue.q;
          assert (row, col) in q0;
          QueueOne(queue, row, col, nr, nc, f, s);
          QueuedNext(f, q, queue.q, (row, col), nr, nc);
        }
        QueuedRow(f, queue.q, (row, col), nr);
      }
      QueuedAll(f, queue.q, (row, col));
    }

    method QueueOne(queue: FloodQueue, row: int, col: int, nr: int, nc: int, ghost f: Field, ghost s: Pos)
      requires Valid() && queue.Valid() && Sound(f, s, queue.q) && |f| <= MAX_CELLS
      requires SameFlags(field, f) && Near((row, col), (nr, nc))
      requires (row, col) in queue.q && Closed(f, (row, col)) && f[(row, col)].adjacent == 0
      modifies queue`tail, queue`q, queue.queueRow, queue.queueCol, queue.queued
      ensures queue.Valid() && Sound(f, s, queue.q) && old(queue.q) <= queue.q
      ensures Plain(f, (nr, nc)) ==> (nr, nc) in queue.q
    {
      if !InBoard(nr, nc) || queue.queued[nr, nc] { return; }
      if board[nr, nc].mine || board[nr, nc].flag { return; }
      assert (nr, nc) !in queue.q && Plain(f, (nr, nc));
      SoundNext(f, s, queue.q, (row, col), (nr, nc));
      FloodFits(f, s, queue.q + [(nr, nc)]);
      queue.Push(nr, nc);
    }

    method LoseAt(row: int, col: int)
      requires Valid() && InBoard(row, col)
      modifies this`field, this`lost, board
      ensures Valid() && View() == Lose(old(View()), (row, col))
    {
      lost := true;
      Put(row, col, board[row, col].(exploded := true));
      assert ShowAll(field) == ShowLoss(old(field), (row, col));
      ShowBoard(field);
    }

    method ShowBoard(ghost f: Field)
      requires Valid() && field == f
      modifies this`field, board
      ensures Valid() && field == ShowAll(f)
    {
      ScanStarts(f, ShowAll(f));
      for r := 0 to rows
        invariant Valid() && Scanned(field, f, ShowAll(f), r, 0)
      {
        for c := 0 to cols
          invariant Valid() && Scanned(field, f, ShowAll(f), r, c)
        {
          ShowCell(r, c, f);
        }
        ScanRow(field, f, ShowAll(f), r, cols);
      }
      ScanDone(field, f, ShowAll(f), rows);
    }

    method ShowCell(r: int, c: int, ghost f: Field)
      requires Valid() && InBoard(r, c) && Scanned(field, f, ShowAll(f), r, c)
      modifies this`field, board
      ensures Valid() && Scanned(field, f, ShowAll(f), r, c + 1)
    {
      ScanNext(field, f, ShowAll(f), r, c);
      var cell := board[r, c];
      Put(r, c, if cell.mine then cell.(open := true) else if cell.flag then cell.(wrongFlag := true) else cell);
    }

    method FinishWin()
      requires Valid()
      modifies this`field, this`won, this`flagsUsed, board
      ensures Valid() && View() == Finish(old(View()))
    {
      won := true;
      FlagAllMines(field);
    }

    method FlagAllMines(ghost f: Field)
      requires Valid() && field == f
      modifies this`field, this`flagsUsed, board
      ensures Valid() && field == FlagMines(f) && flagsUsed == |Mines(f)|
    {
      flagsUsed := 0;
      ScanStarts(f, FlagMines(f));
      UptoEnds(Mines(f), 0, rows, 0);
      for r := 0 to rows
        invariant Valid() && Scanned(field, f, FlagMines(f), r, 0) && flagsUsed == |Upto(Mines(f), r, 0)|
      {
        FlagRow(r, f);
      }
      ScanDone(field, f, FlagMines(f), rows);
    }

    method FlagRow(r: int, ghost f: Field)
      requires Valid() && 0 <= r < rows && Scanned(field, f, FlagMines(f), r, 0) && flagsUsed == |Upto(Mines(f), r, 0)|
      modifies this`field, this`flagsUsed, board
      ensures Valid() && Scanned(field, f, FlagMines(f), r + 1, 0) && flagsUsed == |Upto(Mines(f), r + 1, 0)|
    {
      for c := 0 to cols
        invariant Valid() && Scanned(field, f, FlagMines(f), r, c) && flagsUsed == |Upto(Mines(f), r, c)|
      {
        FlagIfMine(r, c, f);
      }
      ScanRow(field, f, FlagMines(f), r, cols);
      UptoRow(Mines(f), r, 0, cols);
    }

    method FlagIfMine(r: int, c: int, ghost f: Field)
      requires Valid() && InBoard(r, c) && Scanned(field, f, FlagMines(f), r, c) && flagsUsed == |Upto(Mines(f), r, c)|
      modifies this`field, this`flagsUsed, board
      ensures Valid() && Scanned(field, f, FlagMines(f), r, c + 1) && flagsUsed == |Upto(Mines(f), r, c + 1)|
    {
      ScanNext(field, f, FlagMines(f), r, c);
      UptoNext(Mines(f), r, c);
      if board[r, c].mine {
        if !board[r, c].flag { Put(r, c, board[r, c].(flag := true)); }
        flagsUsed := flagsUsed + 1;
      }
    }

    method CheckForWin()
      requires Valid()
      modifies this`field, this`won, this`flagsUsed, board
      ensures Valid() && View() == CheckWin(old(View()))
    {
      if lost { return; }
      if openedCount == rows * cols - minesTotal { FinishWin(); }
    }

    /** Open a cell. If this is the first reveal, draws are the random numbers that place the mines, and m is where they
        come to lie. */
    method RevealCell(row: int, col: int, draws: seq<nat>) returns (changed: bool, ghost m: set<Pos>)
      requires Valid() && Inv(View())
      requires !started && CanReveal(View(), (row, col)) ==> Enough(View(), (row, col), draws)
      modifies this, board
      ensures Valid() && changed == CanReveal(old(View()), (row, col))
      ensures !old(started) && changed ==> GoodMines(old(View()), (row, col), m)
      ensures View() == Reveal(old(View()), (row, col), m) && Inv(View())
    {
      m := {};
      if !InBoard(row, col) { return false, m; }
      if board[row, col].open || board[row, col].flag || lost || won { return false, m; }
      changed := true;
      ghost var g := View();
      if !started {
        NothingOpen(g);
        m := Begin(row, col, draws);
        LayKept(g, (row, col), m);
      }
      RevealKept(g, (row, col), m);
      OpenCell(row, col);
    }

    method Begin(row: int, col: int, draws: seq<nat>) returns (ghost m: set<Pos>)
      requires Valid() && InBoard(row, col) && Mines(field) == {} && Enough(View(), (row, col), draws)
      modifies this`field, this`started, board
      ensures Valid() && GoodMines(old(View()), (row, col), m)
      ensures View() == old(View()).(started := true, field := Lay(old(field), m))
    {
      ghost var g := View();
      started := true;
      SameDraws(g, View(), (row, col), draws);
      ghost var used;
      m, used := PlaceMines(row, col, draws);
    }

    method OpenCell(row: int, col: int)
      requires Valid() && CanReveal(View(), (row, col))
      modifies this, board
      ensures Valid()
      ensures View() == if old(field)[(row, col)].mine then Lose(old(View()), (row, col))
                        else CheckWin(Flood(old(View()), (row, col)))
    {
      if board[row, col].mine {
        LoseAt(row, col);
      } else {
        FloodOpen(row, col);
        CheckForWin();
      }
    }

    method ToggleFlag(row: int, col: int) returns (changed: bool)
      requires Valid() && Inv(View())
      modifies this, board
      ensures Valid() && View() == Toggle(old(View()), (row, col)) && Inv(View())
      ensures changed == CanToggle(old(View()), (row, col))
    {
      ToggleKept(View(), (row, col));
      changed := FlipFlag(row, col);
    }

    method FlipFlag(row: int, col: int) returns (changed: bool)
      requires Valid()
      modifies this`field, this`flagsUsed, board
      ensures Valid() && View() == Toggle(old(View()), (row, col))
      ensures changed == CanToggle(old(View()), (row, col))
    {
      if !InBoard(row, col) || lost || won { return false; }
      var cell := board[row, col];
      if cell.open { return false; }
      Put(row, col, cell.(flag := !cell.flag));
      if board[row, col].flag { flagsUsed := flagsUsed + 1; } else { flagsUsed := flagsUsed - 1; }
      return true;
    }

    /** The result says whether the chord opened anything. */
    method ChordCell(row: int, col: int) returns (changed: bool)
      requires Valid() && Inv(View())
      modifies this, board
      ensures Valid() && View() == Chord(old(View()), (row, col)) && Inv(View())
      ensures changed == OpensMore(old(View()), View()) == (View() != old(View()))
    {
      ghost var g, p := View(), (row, col);
      changed := false;
      if !InBoard(row, col) || lost || won { return; }
      if !board[row, col].open || board[row, col].adjacent == 0 { return; }
      var flags := CountNeighborFlags(row, col);
      if flags != board[row, col].adjacent { return; }
      OpenedIsStarted(g, p);
      changed := ChordAround(row, col, g);
      ChordStepsGrow(g, p, BlockCells(p));
      if changed { OpensMoreDiffers(g, View()); }
    }

    method ChordAround(row: int, col: int, ghost g: Game) returns (changed: bool)
      requires Valid() && Inv(g) && g.started && View() == g
      modifies this, board
      ensures Valid() && View() == ChordSteps(g, (row, col), BlockCells((row, col))) && Changed(changed, g, View())
    {
      hide ChordSteps, Inv, OpensMore;
      NoSteps(g, (row, col));
      changed := false;
      ghost var done: seq<Pos> := [];
      for nr := row - 1 to row + 2
        invariant Valid() && View() == ChordSteps(g, (row, col), done) && Changed(changed, g, View())
        invariant done == BlockRows((row, col), nr)
      {
        changed, done := ChordRow(row, col, nr, changed, g, done);
      }
    }

    method ChordRow(row: int, col: int, nr: int, changed: bool, ghost g: Game, ghost done: seq<Pos>)
      returns (changed': bool, ghost done': seq<Pos>)
      requires Valid() && Inv(g) && g.started && View() == ChordSteps(g, (row, col), done)
      requires Changed(changed, g, View())
      requires row - 1 <= nr && done == BlockRows((row, col), nr)
      modifies this, board
      ensures Valid() && View() == ChordSteps(g, (row, col), done') && Changed(changed', g, View())
      ensures done' == BlockRows((row, col), nr + 1)
    {
      hide ChordSteps, Inv, OpensMore;
      changed', done' := changed, done;
      BlockRowsNext((row, col), nr);
      for nc := col - 1 to col + 2
        invariant Valid() && View() == ChordSteps(g, (row, col), done') && Changed(changed', g, View())
        invariant done' == done + RowCells(nr, col - 1, nc)
      {
        RowCellsNext(done, nr, col - 1, nc);
        changed', done' := ChordAt(row, col, nr, nc, changed', g, done');
      }
    }

    /** One step of the chord, after those for the cells in done. */
    method ChordAt(row: int, col: int, nr: int, nc: int, changed: bool, ghost g: Game, ghost done: seq<Pos>)
      returns (changed': bool, ghost done': seq<Pos>)
      requires Valid() && Inv(g) && g.started && View() == ChordSteps(g, (row, col), done)
      requires Changed(changed, g, View())
      modifies this, board
      ensures Valid() && View() == ChordSteps(g, (row, col), done') && Changed(changed', g, View())
      ensures done' == done + [(nr, nc)]
    {
      hide Inv, OpensMore, CanReveal, ChordSteps, ChordStep;
      done' := done + [(nr, nc)];
      ChordStepsGrow(g, (row, col), done);
      StepOpensMore(g, (row, col), done, (nr, nc));
      LastStep(g, (row, col), done, (nr, nc));
      var ok := ChordOne(row, col, nr, nc);
      changed' := if ok then true else changed;
    }

    /** The cell at (nr, nc), next to the one chorded, is revealed if it is on the board and carries no flag. */
    method ChordOne(row: int, col: int, nr: int, nc: int) returns (ok: bool)
      requires Valid() && Inv(View()) && started
      modifies this, board
      ensures Valid() && View() == ChordStep(old(View()), (row, col), (nr, nc))
      ensures ok == ((nr, nc) != (row, col) && CanReveal(old(View()), (nr, nc)))
    {
      if !InBoard(nr, nc) || (nr == row && nc == col) { return false; }
      if board[nr, nc].flag { return false; }
      ghost var m;
      ok, m := RevealCell(nr, nc, []);
    }
  }

  lemma LastStep(g: Game, p: Pos, qs: seq<Pos>, q: Pos)
    ensures ChordSteps(g, p, qs + [q]) == ChordStep(ChordSteps(g, p, qs), p, q)
  {
    assert Front(qs + [q]) == qs;
  }

  /** What `changed` tells during a chord of g that has come to h. */
  ghost predicate Changed(changed: bool, g: Game, h: Game) { if changed then OpensMore(g, h) else h == g }

  function Apart(d: int): nat { if d < 0 then -d else d }

  /** ShowLoss without the explosion. */
  ghost function ShowAll(f: Field): Field {
    map p | p in f :: if f[p].mine then f[p].(open := true) else if f[p].flag then f[p].(wrongFlag := true) else f[p]
  }

  /** The board with mines at m and nothing numbered yet. */
  ghost function WithMines(f: Field, m: set<Pos>): Field { map p | p in f :: f[p].(mine := p in m) }

  /** Only the size of the board, its mines and its cells matter to the draws. */
  lemma {:induction false} SameDraws(g: Game, g': Game, p: Pos, draws: seq<nat>)
    requires Fits(g.rows, g.cols, g.mines) && g' == g.(started := true)
    ensures Drawn(g', p, draws) == Drawn(g, p, draws)
  {
    if draws != [] { SameDraws(g, g', p, Front(draws)); }
  }

  lemma MineLaid(f: Field, m: set<Pos>, q: Pos)
    requires q in f
    ensures WithMines(f, m)[q := WithMines(f, m)[q].(mine := true)] == WithMines(f, m + {q})
    ensures WithMines(f, m)[q].mine == (q in m)
  {
  }

  lemma MinesSeen(now: Field, f: Field, m: set<Pos>, r: int, c: int)
    requires Scanned(now, WithMines(f, m), Lay(f, m), r, c)
    ensures Around(now, (r, c)) * Mines(now) == Around(f, (r, c)) * m
  {
    var q := (r, c);
    forall p | p in now ensures now[p].mine == (p in m) {}
  }

  lemma NoSteps(g: Game, p: Pos)
    ensures ChordSteps(g, p, []) == g
  {
  }

  lemma RowCellsNext(done: seq<Pos>, r: int, lo: int, c: int)
    requires lo <= c
    ensures done + RowCells(r, lo, c + 1) == done + RowCells(r, lo, c) + [(r, c)]
  {
  }

  lemma BlockRowsNext(p: Pos, r: int)
    requires p.0 - 1 <= r
    ensures BlockRows(p, r + 1) == BlockRows(p, r) + RowCells(r, p.1 - 1, p.1 + 2)
  {
  }
}
