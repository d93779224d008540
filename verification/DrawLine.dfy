/** Drawing a line with integers only: the points visited are those of the ideal line, rounded. */
module DrawLine {

  type Point = (int, int)

  function Abs(x: int): nat { if x < 0 then -x else x }

  function Max(a: int, b: int): int { if a < b then b else a }

  /** p / q rounded to the nearest integer, halves up. */
  function Rounded(p: nat, q: nat): nat {
    if q == 0 then 0 else (2 * p + q) / (2 * q)
  }

  /** The direction a coordinate moves in. */
  function Toward(p: int, q: int): int { if p < q then 1 else -1 }

  /** n steps from p in the direction of q. */
  function Go(p: int, q: int, n: int): int { if p < q then p + n else p - n }

  /** The k-th point of the line: k steps along the longer side, and the rounded share of the shorter one. */
  function Ideal(x0: int, y0: int, x1: int, y1: int, k: nat): Point {
    var a, b := Abs(x1 - x0), Abs(y1 - y0);
    if a >= b then (Go(x0, x1, k), Go(y0, y1, Rounded(k * b, a)))
    else (Go(x0, x1, Rounded(k * a, b)), Go(y0, y1, k))
  }

  lemma RoundedIs(p: nat, q: nat, n: nat)
    requires q > 0 && -(q as int) < 2 * (n * q - p) <= q
    ensures Rounded(p, q) == n
  {
    var x, d := 2 * p + q, 2 * q;
    var r := x - n * d;
    assert r == q - 2 * (n * q - p) && 0 <= r < d;
    var k := x / d - n;
    assert k * d == r - x % d;
    assert (k >= 1 ==> k * d >= d) && (k <= -1 ==> k * d <= -(d as int));
  }

  lemma RoundedNear(p: nat, q: nat)
    ensures q > 0 ==> -(q as int) < 2 * (Rounded(p, q) * q - p) <= q
  {
    if q > 0 {
      var x, d := 2 * p + q, 2 * q;
      assert x / d * d == x - x % d;
      assert 2 * (x / d * q) == x / d * d;
    }
  }

  /** Twice how far p is from the true line, times the longer side. */
  function Off(x0: int, y0: int, x1: int, y1: int, p: Point): int {
    2 * (Abs(p.1 - y0) * Abs(x1 - x0) - Abs(p.0 - x0) * Abs(y1 - y0))
  }

  /** One step of the error term: i steps in x, j in y, and the deviation j*a - i*b. */
  ghost predicate Deviates(a: nat, b: nat, i: nat, j: nat, err: int) {
    err == (j + 1) * a - (i + 1) * b
    && if a >= b then i <= a && (a > 0 ==> -(a as int) < 2 * (j * a - i * b) <= a)
       else j <= b && -(b as int) <= 2 * (j * a - i * b) < b
  }

  /** Away from the end the longer side always advances, and the error term stays within half a step. */
  lemma StepKept(a: nat, b: nat, i: nat, j: nat, err: int)
    requires Deviates(a, b, i, j, err) && (if a >= b then i < a else j < b)
    ensures var stepX, stepY := 2 * err >= -(b as int), 2 * err <= a;
            var i', j' := if stepX then i + 1 else i, if stepY then j + 1 else j;
            && (if a >= b then stepX else stepY)
            && Deviates(a, b, i', j', err + (if stepX then -(b as int) else 0) + (if stepY then a else 0))
  {
    assert (j + 2) * a == (j + 1) * a + a == j * a + a + a;
    assert (i + 2) * b == (i + 1) * b + b == i * b + b + b;
  }

  lemma SmallMultiple(d: int, a: nat)
    requires a > 0 && -(a as int) <= 2 * (d * a) <= a
    ensures d == 0
  {
    assert d >= 1 ==> d * a >= a;
    assert d <= -1 ==> d * a <= -(a as int);
  }

  /** At the end of the longer side the shorter one has arrived too. */
  lemma EndsTogether(a: nat, b: nat, i: nat, j: nat, err: int)
    requires Deviates(a, b, i, j, err) && (if a >= b then i == a else j == b)
    ensures a > 0 || b > 0 ==> i == a && j == b
  {
    if a >= b {
      assert j * a - a * b == (j - b) * a;
      if a > 0 { SmallMultiple(j - b, a); }
    } else {
      assert b * a - i * b == (a - i) * b;
      SmallMultiple(a - i, b);
    }
  }

  /** After i steps in x and j in y the line is at its ideal point. */
  lemma AtIdeal(x0: int, y0: int, x1: int, y1: int, i: nat, j: nat, err: int)
    requires Deviates(Abs(x1 - x0), Abs(y1 - y0), i, j, err)
    requires Abs(x1 - x0) == 0 && Abs(y1 - y0) == 0 ==> i == 0 && j == 0
    ensures Abs(x1 - x0) >= Abs(y1 - y0) ==> Ideal(x0, y0, x1, y1, i) == (Go(x0, x1, i), Go(y0, y1, j))
    ensures Abs(x1 - x0) < Abs(y1 - y0) ==> Ideal(x0, y0, x1, y1, j) == (Go(x0, x1, i), Go(y0, y1, j))
  {
    OtherSide(Abs(x1 - x0), Abs(y1 - y0), i, j, err);
  }

  lemma OtherSide(a: nat, b: nat, i: nat, j: nat, err: int)
    requires Deviates(a, b, i, j, err) && (a == 0 && b == 0 ==> i == 0 && j == 0)
    ensures if a >= b then Rounded(i * b, a) == j else Rounded(j * a, b) == i
  {
    if a >= b {
      if a > 0 { RoundedIs(i * b, a, j); }
    } else {
      RoundedIs(j * a, b, i);
    }
  }

  lemma QuotientGrows(x: nat, c: nat, d: nat)
    requires 0 < d && c <= d
    ensures x / d <= (x + c) / d <= x / d + 1
  {
    var n, m := x / d, (x + c) / d;
    var k, r := m - n, x % d - (x + c) % d;
    assert k * d == c + r;
    assert (k >= 2 ==> k * d >= 2 * d) && (k <= -1 ==> k * d <= -(d as int));
  }

  lemma RoundedGrows(p: nat, b: nat, q: nat)
    requires b <= q
    ensures Rounded(p, q) <= Rounded(p + b, q) <= Rounded(p, q) + 1
  {
    if q > 0 { QuotientGrows(2 * p + q, 2 * b, 2 * q); }
  }

  /** Different points that touch along a side or at a corner. */
  predicate Neighbours(p: Point, q: Point) { p != q && Abs(p.0 - q.0) <= 1 && Abs(p.1 - q.1) <= 1 }

  lemma RoundedWhole(n: nat, q: nat)
    requires q == 0 ==> n == 0
    ensures Rounded(0 * n, q) == 0 && Rounded(q * n, q) == n
  {
    if q > 0 {
      RoundedIs(q * n, q, n);
      RoundedIs(0, q, 0);
    }
  }

  /** The ideal line starts and ends where it should. */
  lemma IdealEnds(x0: int, y0: int, x1: int, y1: int)
    ensures Ideal(x0, y0, x1, y1, 0) == (x0, y0)
    ensures Ideal(x0, y0, x1, y1, Max(Abs(x1 - x0), Abs(y1 - y0))) == (x1, y1)
  {
    var a, b := Abs(x1 - x0), Abs(y1 - y0);
    if a >= b { RoundedWhole(b, a); } else { RoundedWhole(a, b); }
  }

  /** The ideal line goes from neighbour to neighbour. */
  lemma IdealJoins(x0: int, y0: int, x1: int, y1: int, k: nat)
    ensures Neighbours(Ideal(x0, y0, x1, y1, k), Ideal(x0, y0, x1, y1, k + 1))
  {
    var a, b := Abs(x1 - x0), Abs(y1 - y0);
    if a >= b {
      RoundedGrows(k * b, b, a);
      assert (k + 1) * b == k * b + b;
      GoOn(x0, x1, k, y0, y1, Rounded(k * b, a), Rounded(k * b + b, a));
    } else {
      RoundedGrows(k * a, a, b);
      assert (k + 1) * a == k * a + a;
      GoOn(y0, y1, k, x0, x1, Rounded(k * a, b), Rounded(k * a + a, b));
    }
  }

  lemma GoOn(p: int, q: int, k: nat, p': int, q': int, n: nat, m: nat)
    requires n <= m <= n + 1
    ensures Neighbours((Go(p, q, k), Go(p', q', n)), (Go(p, q, k + 1), Go(p', q', m)))
    ensures Neighbours((Go(p', q', n), Go(p, q, k)), (Go(p', q', m), Go(p, q, k + 1)))
  {
  }

  /** At exactly half a pixel the point is the one farther along the shorter side. */
  predicate FartherOnHalf(x0: int, y0: int, x1: int, y1: int, p: Point) {
    var a, b, off := Abs(x1 - x0), Abs(y1 - y0), Off(x0, y0, x1, y1, p);
    (a >= b && a > 0 ==> off != -(a as int)) && (a < b ==> off != b)
  }

  /** No point of the ideal line is more than half a pixel off the true one. */
  lemma IdealNear(x0: int, y0: int, x1: int, y1: int, k: nat)
    requires k <= Max(Abs(x1 - x0), Abs(y1 - y0))
    ensures Abs(Off(x0, y0, x1, y1, Ideal(x0, y0, x1, y1, k))) <= Max(Abs(x1 - x0), Abs(y1 - y0))
    ensures FartherOnHalf(x0, y0, x1, y1, Ideal(x0, y0, x1, y1, k))
  {
    var a, b := Abs(x1 - x0), Abs(y1 - y0);
    if a >= b {
      RoundedNear(k * b, a);
    } else {
      RoundedNear(k * a, b);
    }
  }

  /** One turn of the loop, away from the end. */
  method Step(x: int, y: int, err: int, dx: nat, dy: int, sx: int, sy: int, ghost i: nat, ghost j: nat)
    returns (x': int, y': int, err': int, ghost i': nat, ghost j': nat)
    requires dy <= 0 && Deviates(dx, -dy, i, j, err) && (if dx >= -dy then i < dx else j < -dy)
    ensures Deviates(dx, -dy, i', j', err')
    ensures x' == (if i' == i then x else x + sx) && y' == (if j' == j then y else y + sy)
    ensures i <= i' <= i + 1 && j <= j' <= j + 1
    ensures if dx >= -dy then i' == i + 1 else j' == j + 1
  {
    StepKept(dx, -dy, i, j, err);
    x', y', err', i', j' := x, y, err, i, j;
    var e2 := err * 2;
    if e2 >= dy {
      err', x', i' := err' + dy, x' + sx, i' + 1;
    }
    if e2 <= dx {
      err', y', j' := err' + dx, y' + sy, j' + 1;
    }
  }

  /** The points at which the line is painted, from (x0, y0) to (x1, y1). */
  method Line(x0: int, y0: int, x1: int, y1: int) returns (points: seq<Point>)
    ensures |points| == Max(Abs(x1 - x0), Abs(y1 - y0)) + 1
    ensures forall k :: 0 <= k < |points| ==> points[k] == Ideal(x0, y0, x1, y1, k)
  {
    var dx: int, sx := Abs(x1 - x0), Toward(x0, x1);
    var dy: int, sy := -(Abs(y1 - y0) as int), Toward(y0, y1);
    var err := dx + dy;
    var x, y := x0, y0;
    points := [];
    ghost var i: nat, j: nat := 0, 0;
    ghost var long := Max(dx, -dy);
    while true
      invariant Deviates(dx, -dy, i, j, err)
      invariant x == Go(x0, x1, i) && y == Go(y0, y1, j)
      invariant |points| == (if dx >= -dy then i else j) <= long
      invariant long == 0 ==> i == 0 && j == 0
      invariant forall k :: 0 <= k < |points| ==> points[k] == Ideal(x0, y0, x1, y1, k)
      decreases long - |points|
    {
      AtIdeal(x0, y0, x1, y1, i, j, err);
      if |points| == long { EndsTogether(dx, -dy, i, j, err); }
      points := points + [(x, y)];
      if x == x1 && y == y1 { break; }
      x, y, err, i, j := Step(x, y, err, dx, dy, sx, sy, i, j);
    }
  }

  /** The whole line: its ends, its unbroken course, and how close it keeps to the true one. */
  lemma LineJoins(x0: int, y0: int, x1: int, y1: int, points: seq<Point>)
    requires |points| == Max(Abs(x1 - x0), Abs(y1 - y0)) + 1
    requires forall k :: 0 <= k < |points| ==> points[k] == Ideal(x0, y0, x1, y1, k)
    ensures points[0] == (x0, y0) && points[|points| - 1] == (x1, y1)
    ensures forall k :: 0 < k < |points| ==> Neighbours(points[k - 1], points[k])
    ensures forall p :: p in points ==> Abs(Off(x0, y0, x1, y1, p)) <= Max(Abs(x1 - x0), Abs(y1 - y0))
    ensures forall p :: p in points ==> FartherOnHalf(x0, y0, x1, y1, p)
  {
    IdealEnds(x0, y0, x1, y1);
    forall k | 0 < k < |points| ensures Neighbours(points[k - 1], points[k]) {
      IdealJoins(x0, y0, x1, y1, k - 1);
    }
    forall p | p in points
      ensures Abs(Off(x0, y0, x1, y1, p)) <= Max(Abs(x1 - x0), Abs(y1 - y0)) && FartherOnHalf(x0, y0, x1, y1, p)
    {
      var k :| 0 <= k < |points| && points[k] == p;
      IdealNear(x0, y0, x1, y1, k);
    }
  }
}
