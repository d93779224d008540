/** The queue of the flood: cells waiting to be opened, each queued at most once, and what the cells taken from it so
    far have to do with the region of the start. */
module MineFlood {
  import opened Sequences
  import opened MineRules
  import opened MineScan

  class FloodQueue {
    const queueRow: array<int>
    const queueCol: array<int>
    const queued: array2<bool>
    var head: nat
    var tail: nat
    ghost var q: seq<Pos>

    ghost predicate Valid()
      reads this, queueRow, queueCol, queued
    {
      && queueRow.Length == queueCol.Length == MAX_CELLS && queueRow != queueCol
      && queued.Length0 == MAX_ROWS && queued.Length1 == MAX_COLS
      && head <= tail == |q| <= MAX_CELLS
      && (forall i :: 0 <= i < |q| ==> q[i] == (queueRow[i], queueCol[i]))
      && (forall p: Pos :: 0 <= p.0 < MAX_ROWS && 0 <= p.1 < MAX_COLS ==> queued[p.0, p.1] == (p in q))
    }

    constructor From(r: int, c: int)
      requires 0 <= r < MAX_ROWS && 0 <= c < MAX_COLS
      ensures Valid() && q == [(r, c)] && head == 0 && fresh(queueRow) && fresh(queueCol) && fresh(queued)
    {
      queueRow := new int[MAX_CELLS];
      queueCol := new int[MAX_CELLS];
      queued := new bool[MAX_ROWS, MAX_COLS]((i, j) => false);
      head, tail, q := 0, 0, [];
      new;
      Push(r, c);
    }

    method Push(r: int, c: int)
      requires Valid() && |q| < MAX_CELLS && 0 <= r < MAX_ROWS && 0 <= c < MAX_COLS
      modifies this`tail, this`q, queueRow, queueCol, queued
      ensures Valid() && q == old(q) + [(r, c)]
    {
      queueRow[tail] := r;
      queueCol[tail] := c;
      queued[r, c] := true;
      tail := tail + 1;
      q := q + [(r, c)];
    }

    method Pop() returns (r: int, c: int)
      requires Valid() && head < |q|
      modifies this`head
      ensures Valid() && head == old(head) + 1 && (r, c) == q[old(head)]
    {
      r, c := queueRow[head], queueCol[head];
      head := head + 1;
    }
  }

  /** A cell the flood may queue: on the board, no mine, no flag. */
  predicate Plain(f: Field, p: Pos) { p in f && !f[p].mine && !f[p].flag }

  /** All that a zero cell p asks to be queued. */
  ghost predicate Spread(f: Field, q: seq<Pos>, p: Pos) {
    Closed(f, p) && f[p].adjacent == 0 ==> forall n :: Neighbour(p, n) && Plain(f, n) ==> n in q
  }

  /** On a numbered board the mine test of the flood never rejects a cell: a zero cell asks for every neighbour on
      the board that carries no flag. */
  lemma MineTestIdle(f: Field, q: seq<Pos>, p: Pos)
    requires Numbered(f) && Closed(f, p) && f[p].adjacent == 0
    ensures Spread(f, q, p) <==> forall n :: Neighbour(p, n) && n in f && !f[n].flag ==> n in q
  {
    forall n | Neighbour(p, n) && n in f ensures Plain(f, n) <==> !f[n].flag { ZeroTouchesNoMine(f, p, n); }
  }

  ghost predicate Distinct(q: seq<Pos>) { forall i, j :: 0 <= i < j < |q| ==> q[i] != q[j] }

  /** Nothing but plain cells, each once, and the closed ones among them in the region. */
  ghost predicate Sound(f: Field, s: Pos, q: seq<Pos>) {
    && |q| > 0 && q[0] == s && Distinct(q)
    && (forall p :: p in q ==> Plain(f, p) && (Closed(f, p) ==> Reachable(f, s, p)))
  }

  ghost predicate Complete(f: Field, q: seq<Pos>, head: nat)
    requires head <= |q|
  {
    forall i :: 0 <= i < head ==> Spread(f, q, q[i])
  }

  /** The cells that were opened: those taken from the queue that had been closed before. */
  ghost function Done(f: Field, q: seq<Pos>, head: nat): set<Pos>
    requires head <= |q|
  {
    set i | 0 <= i < head && Closed(f, q[i]) :: q[i]
  }

  lemma DoneNext(f: Field, q: seq<Pos>, head: nat)
    requires head < |q| && Distinct(q)
    ensures q[head] !in Done(f, q, head)
    ensures Closed(f, q[head]) ==>
      Done(f, q, head + 1) == Done(f, q, head) + {q[head]} && |Done(f, q, head + 1)| == |Done(f, q, head)| + 1
    ensures !Closed(f, q[head]) ==> Done(f, q, head + 1) == Done(f, q, head)
  {
    if Closed(f, q[head]) { assert Done(f, q, head + 1) == Done(f, q, head) + {q[head]}; }
  }

  lemma DoneGrows(f: Field, q: seq<Pos>, q': seq<Pos>, head: nat)
    requires head <= |q| && q <= q'
    ensures Done(f, q', head) == Done(f, q, head)
  {
    assert forall i :: 0 <= i < head ==> q'[i] == q[i];
  }

  /** Queueing a plain neighbour of an opened zero cell keeps the queue sound. */
  lemma SoundNext(f: Field, s: Pos, q: seq<Pos>, p: Pos, n: Pos)
    requires Sound(f, s, q) && p in q && Closed(f, p) && f[p].adjacent == 0
    requires Neighbour(p, n) && Plain(f, n) && n !in q
    ensures Sound(f, s, q + [n])
  {
    if Closed(f, n) { ReachableSteps(f, s, p, n); }
  }

  lemma CompleteGrows(f: Field, q: seq<Pos>, q': seq<Pos>, head: nat)
    requires head <= |q| && q <= q' && Complete(f, q, head)
    ensures Complete(f, q', head)
  {
    forall i | 0 <= i < head ensures Spread(f, q', q'[i]) {
      assert q'[i] == q[i] && Spread(f, q, q[i]);
      assert forall n :: n in q ==> n in q';
    }
  }

  /** When the queue is empty, what was opened is the region. */
  lemma DoneIsRegion(f: Field, s: Pos, q: seq<Pos>)
    requires Sound(f, s, q) && Complete(f, q, |q|)
    ensures Done(f, q, |q|) == Region(f, s)
  {
    var cells := set p | p in q;
    forall p, n | p in cells && Closed(f, p) && f[p].adjacent == 0 && Neighbour(p, n) && Closed(f, n)
      ensures n in cells
    {
      var i :| 0 <= i < |q| && q[i] == p;
      assert Spread(f, q, q[i]);
    }
    RegionWithin(f, s, cells);
    RegionClosed(f, s);
    forall p | p in Region(f, s) ensures p in Done(f, q, |q|) {
      var i :| 0 <= i < |q| && q[i] == p;
    }
  }

  /** A queue without repetitions is no longer than the board. */
  lemma {:induction false} DistinctFits(q: seq<Pos>, cells: set<Pos>)
    requires Distinct(q) && forall i :: 0 <= i < |q| ==> q[i] in cells
    ensures |q| <= |cells|
    decreases |q|
  {
    if q != [] {
      assert forall i :: 0 <= i < |q| - 1 ==> Front(q)[i] == q[i];
      DistinctFits(Front(q), cells - {Last(q)});
    }
  }

  // ---------------------------------------------------------------- the state of a flood

  /** The flood of f from s after `head` cells were taken from the queue: the board is now, and count cells were
      opened. */
  ghost predicate Flooding(f: Field, s: Pos, q: seq<Pos>, head: nat, now: Field, count: int) {
    && head <= |q| && Sound(f, s, q) && Complete(f, q, head)
    && now == OpenAll(f, Done(f, q, head)) && count == |Done(f, q, head)|
  }

  ghost predicate SameFlags(now: Field, f: Field) {
    now.Keys == f.Keys && forall p :: p in f ==> now[p].mine == f[p].mine && now[p].flag == f[p].flag
  }

  lemma FloodStarts(f: Field, s: Pos)
    requires Closed(f, s)
    ensures Flooding(f, s, [s], 0, f, 0)
  {
    StartReachable(f, s);
    assert Done(f, [s], 0) == {};
  }

  lemma FloodFits(f: Field, s: Pos, q: seq<Pos>)
    requires Sound(f, s, q)
    ensures |q| <= |f|
  {
    assert forall i :: 0 <= i < |q| ==> q[i] in q;
    DistinctFits(q, f.Keys);
  }

  /** The next cell p of the queue looks as it did before the flood. */
  lemma NextLooks(f: Field, s: Pos, q: seq<Pos>, head: nat, now: Field, count: int)
    requires Flooding(f, s, q, head, now, count) && head < |q|
    ensures var p := q[head]; p in q && Plain(f, p) && p in now && now[p] == f[p]
    ensures SameFlags(now, f)
  {
    DoneNext(f, q, head);
    assert q[head] in q;
  }

  /** A cell that is open already is passed over. */
  lemma FloodPasses(f: Field, s: Pos, q: seq<Pos>, head: nat, now: Field, count: int)
    requires Flooding(f, s, q, head, now, count) && head < |q| && !Closed(f, q[head])
    ensures Flooding(f, s, q, head + 1, now, count)
  {
    DoneNext(f, q, head);
    assert Spread(f, q, q[head]);
  }

  /** A closed cell p is opened, and if it touches no mine its neighbours are queued. */
  lemma FloodOpens(f: Field, s: Pos, q: seq<Pos>, q': seq<Pos>, head: nat, now: Field, count: int)
    requires Flooding(f, s, q, head, now, count) && head < |q| && Closed(f, q[head]) && q[head] in now
    requires q <= q' && Sound(f, s, q') && Spread(f, q', q[head])
    ensures Flooding(f, s, q', head + 1, now[q[head] := now[q[head]].(open := true)], count + 1)
  {
    hide Complete, Spread, Done, Reachable, Plain;
    DoneNext(f, q, head);
    DoneGrows(f, q, q', head + 1);
    CompleteNext(f, q, q', head);
  }

  lemma CompleteNext(f: Field, q: seq<Pos>, q': seq<Pos>, head: nat)
    requires head < |q| && q <= q' && Complete(f, q, head) && Spread(f, q', q[head])
    ensures Complete(f, q', head + 1)
  {
    CompleteGrows(f, q, q', head);
    forall i | 0 <= i < head + 1 ensures Spread(f, q', q'[i]) {
      assert q'[i] == q[i];
      if i < head { assert Spread(f, q', q'[i]); }
    }
  }

  lemma SameFlagsOpened(now: Field, f: Field, p: Pos)
    requires SameFlags(now, f) && p in now
    ensures SameFlags(now[p := now[p].(open := true)], f)
  {
  }

  /** The plain cells of the block around p that come before (r, c) are queued. */
  ghost predicate QueuedUpto(f: Field, q: seq<Pos>, p: Pos, r: int, c: int) {
    forall n :: Near(p, n) && Before(n, r, c) && Plain(f, n) ==> n in q
  }

  lemma QueuedNext(f: Field, q: seq<Pos>, q': seq<Pos>, p: Pos, r: int, c: int)
    requires QueuedUpto(f, q, p, r, c) && q <= q' && (Plain(f, (r, c)) ==> (r, c) in q')
    ensures QueuedUpto(f, q', p, r, c + 1)
  {
    forall n | Near(p, n) && Before(n, r, c + 1) && Plain(f, n) ensures n in q' {
      if n != (r, c) { assert n in q; }
    }
  }

  lemma QueuedRow(f: Field, q: seq<Pos>, p: Pos, r: int)
    requires QueuedUpto(f, q, p, r, p.1 + 2)
    ensures QueuedUpto(f, q, p, r + 1, p.1 - 1)
  {
  }

  lemma QueuedNone(f: Field, q: seq<Pos>, p: Pos)
    ensures QueuedUpto(f, q, p, p.0 - 1, p.1 - 1)
  {
  }

  lemma QueuedAll(f: Field, q: seq<Pos>, p: Pos)
    requires QueuedUpto(f, q, p, p.0 + 2, p.1 - 1)
    ensures Spread(f, q, p)
  {
  }

  lemma FloodEnds(f: Field, s: Pos, q: seq<Pos>, now: Field, count: int)
    requires Flooding(f, s, q, |q|, now, count)
    ensures now == OpenAll(f, Region(f, s)) && count == |Region(f, s)|
  {
    DoneIsRegion(f, s, q);
  }
}
