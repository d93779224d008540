/**
 * Scaling a bitmap of packed bits. The loops keep the source column and row by adding up remainders;
 * they pick exactly the floor of the proportional position.
 */
module BitmapCopy {

  /** 1 << k for a bit of a byte; the low bit is the leftmost pixel. */
  function Mask(k: nat): (m: bv8)
    requires k < 8
    ensures m != 0 && (m < 128 <==> k < 7) && (m > 1 <==> k > 0)
  {
    if k == 0 then 1 else if k == 1 then 2 else if k == 2 then 4 else if k == 3 then 8
    else if k == 4 then 16 else if k == 5 then 32 else if k == 6 then 64 else 128
  }

  predicate Lit(b: bv8, k: nat)
    requires k < 8
  {
    b & Mask(k) != 0
  }

  /** The bits of a byte are numbered from the lowest. */
  lemma LitIs(b: bv8, k: nat)
    requires k < 8
    ensures Lit(b, k) <==> b & ((1 as bv8) << k) != 0
  {
  }

  lemma MaskShifts(k: nat)
    requires k < 7
    ensures Mask(k) << 1 == Mask(k + 1)
  {
  }

  lemma MasksApart(k: nat, j: nat)
    requires k < 8 && j < 8
    ensures Mask(k) & Mask(j) == if j == k then Mask(k) else 0
  {
  }

  lemma DarkByte(k: nat)
    requires k < 8
    ensures !Lit(0, k)
  {
  }

  /** Setting one bit of a byte lights that pixel and no other. */
  lemma SetBit(b: bv8, k: nat, j: nat)
    requires k < 8 && j < 8
    ensures Lit(b | Mask(k), j) == (j == k || Lit(b, j))
  {
    hide Mask;
    MasksApart(k, j);
    assert (b | Mask(k)) & Mask(j) == (b & Mask(j)) | (Mask(k) & Mask(j));
    OrZero(b & Mask(j), Mask(k) & Mask(j));
  }

  lemma OrZero(a: bv8, b: bv8)
    ensures a | b != 0 <==> a != 0 || b != 0
  {
  }

  /** The bytes of one row. */
  function Stride(w: nat): nat { (w + 7) / 8 }

  /** Just enough bytes for w pixels. */
  lemma StrideIs(w: nat)
    ensures 8 * (Stride(w) - 1) < w <= 8 * Stride(w)
  {
  }

  /** The pixel in column x of the row that starts at byte start. */
  predicate Pixel(bytes: seq<bv8>, start: nat, x: nat) {
    start + x / 8 < |bytes| && Lit(bytes[start + x / 8], x % 8)
  }

  /** Where pixel k of m is taken from among n. */
  function Pick(k: nat, n: nat, m: nat): nat
    requires m > 0
  {
    k * n / m
  }

  /** The destination row at byte `at` is the source row at byte `from`, scaled from w to v pixels, with dark
      padding. */
  ghost predicate RowScaled(src: seq<bv8>, from: nat, w: nat, dst: seq<bv8>, at: nat, v: nat)
    requires v > 0
  {
    RowUpTo(src, from, w, dst, at, v, v)
  }

  /** The same as far as pixel x; the rest of the row is dark. */
  ghost predicate RowUpTo(src: seq<bv8>, from: nat, w: nat, dst: seq<bv8>, at: nat, v: nat, x: nat)
    requires v > 0
  {
    forall z :: 0 <= z < 8 * Stride(v) ==> Pixel(dst, at, z) == (z < x && Pixel(src, from, Pick(z, w, v)))
  }

  /** The running position: q whole steps and the remainder m - err, together k * n / m. */
  ghost predicate AtStep(k: nat, n: nat, m: nat, q: int, err: int) {
    q * m + (m - err) == k * n && 0 < err <= m
  }

  lemma QuotientIs(x: nat, m: nat, q: int)
    requires m > 0 && 0 <= x - q * m < m
    ensures x / m == q
  {
    var d := x / m - q;
    assert d * m == x - q * m - x % m;
    assert (d >= 1 ==> d * m >= m) && (d <= -1 ==> d * m <= -(m as int));
  }

  lemma PickIs(k: nat, n: nat, m: nat, q: int, err: int)
    requires m > 0 && AtStep(k, n, m, q, err)
    ensures q == Pick(k, n, m)
  {
    QuotientIs(k * n, m, q);
  }

  lemma QuotientBelow(x: nat, m: nat, n: nat)
    requires m > 0 && x < n * m
    ensures x / m < n
  {
    var q := x / m;
    assert q * m <= x;
    assert q >= n ==> q * m >= n * m;
  }

  /** The pixel picked is one of the source's. */
  lemma PickInside(k: nat, n: nat, m: nat)
    requires k < m && n > 0
    ensures Pick(k, n, m) < n
  {
    assert k * n < m * n == n * m;
    QuotientBelow(k * n, m, n);
  }

  /** It is the last one that does not lie beyond the proportional position. */
  lemma PickIsFloor(k: nat, n: nat, m: nat)
    requires m > 0
    ensures Pick(k, n, m) * m <= k * n < (Pick(k, n, m) + 1) * m
  {
    var q := Pick(k, n, m);
    assert k * n == q * m + k * n % m;
    assert (q + 1) * m == q * m + m;
  }

  /** At the same size every pixel is its own source. */
  lemma PickSame(k: nat, n: nat)
    requires n > 0
    ensures Pick(k, n, n) == k
  {
    QuotientIs(k * n, n, k);
  }

  lemma StepAdds(k: nat, n: nat, m: nat, q: int, err: int)
    requires m > 0 && AtStep(k, n, m, q, err)
    ensures (q + n / m) * m + (m - (err - n % m)) == (k + 1) * n
    ensures (q + n / m + 1) * m == (q + n / m) * m + m
    ensures 0 - m < err - n % m
  {
    var d := n / m;
    assert n == d * m + n % m;
    assert (q + d) * m == q * m + d * m;
    assert (q + d + 1) * m == (q + d) * m + m;
    assert (k + 1) * n == k * n + n;
  }

  /** Adding the quotient and the remainder to the running position is one step of the proportion. */
  method Advance(ghost k: nat, ghost n: nat, m: nat, step: int, rest: int, q: int, err: int)
    returns (q': int, err': int)
    requires m > 0 && step == n / m && rest == n % m && AtStep(k, n, m, q, err)
    ensures AtStep(k + 1, n, m, q', err')
  {
    StepAdds(k, n, m, q, err);
    q', err' := q + step, err - rest;
    if err' <= 0 {
      err' := err' + m;
      q' := q' + 1;
    }
  }

  /** A pixel written or left dark extends the finished part of a row by one. */
  lemma RowGrows(src: seq<bv8>, from: nat, w: nat, dst: seq<bv8>, dst': seq<bv8>, at: nat, v: nat, x: nat)
    requires x < v && at + Stride(v) <= |dst| == |dst'| && RowUpTo(src, from, w, dst, at, v, x)
    requires dst' == dst[at + x / 8 := if Pixel(src, from, Pick(x, w, v)) then dst[at + x / 8] | Mask(x % 8)
                                       else dst[at + x / 8]]
    ensures RowUpTo(src, from, w, dst', at, v, x + 1)
  {
    hide Pick, Mask, Lit;
    forall z | 0 <= z < 8 * Stride(v)
      ensures Pixel(dst', at, z) == (z < x + 1 && Pixel(src, from, Pick(z, w, v)))
    {
      SetBit(dst[at + x / 8], x % 8, z % 8);
      assert Pixel(dst, at, z) == (z < x && Pixel(src, from, Pick(z, w, v)));
    }
  }

  lemma RowKept(src: seq<bv8>, from: nat, w: nat, dst: seq<bv8>, dst': seq<bv8>, at: nat, v: nat)
    requires v > 0 && at + Stride(v) <= |dst| == |dst'| && dst[at..at + Stride(v)] == dst'[at..at + Stride(v)]
    requires RowScaled(src, from, w, dst, at, v)
    ensures RowScaled(src, from, w, dst', at, v)
  {
    forall z | 0 <= z < 8 * Stride(v) ensures Pixel(dst', at, z) == Pixel(dst, at, z) {
      assert dst[at..at + Stride(v)][z / 8] == dst'[at..at + Stride(v)][z / 8];
    }
  }

  lemma DarkRow(src: seq<bv8>, from: nat, w: nat, dst: seq<bv8>, at: nat, v: nat)
    requires v > 0 && at + Stride(v) <= |dst| && forall k :: at <= k < at + Stride(v) ==> dst[k] == 0
    ensures RowUpTo(src, from, w, dst, at, v, 0)
  {
    forall z | 0 <= z < 8 * Stride(v) ensures !Pixel(dst, at, z) { DarkByte(z % 8); }
  }

  method NextBit(bit: bv8, p: nat, ghost x: nat, ghost at: nat) returns (bit': bv8, p': nat)
    requires bit == Mask(x % 8) && p == at + x / 8
    ensures bit' == Mask((x + 1) % 8) && p' == at + (x + 1) / 8
  {
    if bit < 128 {
      MaskShifts(x % 8);
      bit', p' := bit << 1, p;
    } else {
      bit', p' := 1, p + 1;
    }
  }

  /** The bit of one pixel, and the place of the next. */
  method Paint(src: array<bv8>, from: nat, w: nat, dst: array<bv8>, at: nat, v: nat, x: nat, sx: nat, bit: bv8, p: nat)
    returns (bit': bv8, p': nat)
    requires src != dst && x < v && sx == Pick(x, w, v) < w && bit == Mask(x % 8) && p == at + x / 8
    requires from + Stride(w) <= src.Length && at + Stride(v) <= dst.Length
    requires RowUpTo(src[..], from, w, dst[..], at, v, x)
    modifies dst
    ensures RowUpTo(src[..], from, w, dst[..], at, v, x + 1)
    ensures forall k :: 0 <= k < dst.Length && k != p ==> dst[k] == old(dst[k])
    ensures bit' == Mask((x + 1) % 8) && p' == at + (x + 1) / 8
  {
    if Lit(src[from + sx / 8], sx % 8) {
      dst[p] := dst[p] | bit;
    }
    RowGrows(src[..], from, w, old(dst[..]), dst[..], at, v, x);
    bit', p' := NextBit(bit, p, x, at);
  }

  /** One row of the scaling loop, from the source row at byte `from` to the dark row at byte `at`. */
  method ScaleRow(src: array<bv8>, from: nat, w: nat, dst: array<bv8>, at: nat, v: nat) returns (p: nat)
    requires src != dst && w > 0 && v > 0
    requires from + Stride(w) <= src.Length && at + Stride(v) <= dst.Length
    requires forall k :: at <= k < at + Stride(v) ==> dst[k] == 0
    modifies dst
    ensures p == at + Stride(v)
    ensures RowScaled(src[..], from, w, dst[..], at, v)
    ensures forall k :: 0 <= k < dst.Length && !(at <= k < p) ==> dst[k] == old(dst[k])
  {
    var step: int, rest: int := w / v, w % v;
    var x, sx: int, err: int := 0, 0, v;
    var bit: bv8 := 1;
    p := at;
    DarkRow(src[..], from, w, dst[..], at, v);
    while x < v
      invariant x <= v && p == at + x / 8 && bit == Mask(x % 8)
      invariant AtStep(x, w, v, sx, err)
      invariant RowUpTo(src[..], from, w, dst[..], at, v, x)
      invariant forall k :: 0 <= k < dst.Length && !(at <= k < at + Stride(v)) ==> dst[k] == old(dst[k])
    {
      PickIs(x, w, v, sx, err);
      PickInside(x, w, v);
      bit, p := Paint(src, from, w, dst, at, v, x, sx, bit, p);
      sx, err := Advance(x, w, v, step, rest, sx, err);
      x := x + 1;
    }
    if bit > 1 { p := p + 1; }
  }

  /** Row k of the copy starts here. */
  function Start(k: nat, v: nat): nat { k * Stride(v) }

  lemma StartGrows(k: nat, n: nat, v: nat)
    requires k < n
    ensures Start(k, v) + Stride(v) == Start(k + 1, v) <= Start(n, v)
  {
    var s := Stride(v);
    assert (n - (k + 1)) * s >= 0;
    assert n * s == (k + 1) * s + (n - (k + 1)) * s;
  }

  /** The first y rows of the copy are in place and the rest is dark. */
  ghost predicate RowsUpTo(src: seq<bv8>, w: nat, h: nat, dst: seq<bv8>, v: nat, u: nat, y: nat)
    requires v > 0 && u > 0
  {
    && (forall k :: 0 <= k < y ==> RowScaled(src, Start(Pick(k, h, u), w), w, dst, Start(k, v), v))
    && (forall i :: Start(y, v) <= i < |dst| ==> dst[i] == 0)
  }

  lemma RowsGrow(src: seq<bv8>, w: nat, h: nat, dst: seq<bv8>, dst': seq<bv8>, v: nat, u: nat, y: nat)
    requires v > 0 && y < u && |dst| == |dst'| == Start(u, v) && RowsUpTo(src, w, h, dst, v, u, y)
    requires RowScaled(src, Start(Pick(y, h, u), w), w, dst', Start(y, v), v)
    requires forall i :: 0 <= i < |dst| && !(Start(y, v) <= i < Start(y, v) + Stride(v)) ==> dst'[i] == dst[i]
    ensures RowsUpTo(src, w, h, dst', v, u, y + 1)
  {
    StartGrows(y, u, v);
    forall k | 0 <= k < y ensures RowScaled(src, Start(Pick(k, h, u), w), w, dst', Start(k, v), v) {
      StartGrows(k, y, v);
      RowKept(src, Start(Pick(k, h, u), w), w, dst, dst', Start(k, v), v);
    }
  }

  /** The scaling loop over the rows. */
  method ScaleRows(src: array<bv8>, w: nat, h: nat, dst: array<bv8>, v: nat, u: nat)
    requires src != dst && w > 0 && h > 0 && v > 0 && u > 0
    requires src.Length >= Start(h, w) && dst.Length == Start(u, v)
    requires forall i :: 0 <= i < dst.Length ==> dst[i] == 0
    modifies dst
    ensures RowsUpTo(src[..], w, h, dst[..], v, u, u)
  {
    var step: int, rest: int := h / u, h % u;
    var y, p, sy: int, err: int := 0, 0, 0, u;
    while y < u
      invariant y <= u && p == Start(y, v)
      invariant AtStep(y, h, u, sy, err)
      invariant RowsUpTo(src[..], w, h, dst[..], v, u, y)
    {
      PickIs(y, h, u, sy, err);
      PickInside(y, h, u);
      StartGrows(sy, h, w);
      StartGrows(y, u, v);
      ghost var before := dst[..];
      p := ScaleRow(src, Start(sy, w), w, dst, p, v);
      RowsGrow(src[..], w, h, before, dst[..], v, u, y);
      sy, err := Advance(y, h, u, step, rest, sy, err);
      y := y + 1;
    }
  }

  /** Pixel (x, y) of the copy is pixel (x*w/v, y*h/u) of the original. */
  ghost predicate Scaled(src: seq<bv8>, w: nat, h: nat, dst: seq<bv8>, v: nat, u: nat)
    requires v > 0 && u > 0
  {
    forall x, y :: 0 <= x < v && 0 <= y < u ==>
      && Start(Pick(y, h, u), w) + Pick(x, w, v) / 8 < |src|
      && Pixel(dst, Start(y, v), x) == Pixel(src, Start(Pick(y, h, u), w), Pick(x, w, v))
  }

  lemma RowsScale(src: seq<bv8>, w: nat, h: nat, dst: seq<bv8>, v: nat, u: nat)
    requires w > 0 && h > 0 && v > 0 && u > 0 && Start(h, w) <= |src| && RowsUpTo(src, w, h, dst, v, u, u)
    ensures Scaled(src, w, h, dst, v, u)
  {
    forall x, y | 0 <= x < v && 0 <= y < u
      ensures Start(Pick(y, h, u), w) + Pick(x, w, v) / 8 < |src|
      ensures Pixel(dst, Start(y, v), x) == Pixel(src, Start(Pick(y, h, u), w), Pick(x, w, v))
    {
      PickInside(x, w, v);
      PickInside(y, h, u);
      StartGrows(Pick(y, h, u), h, w);
      assert RowScaled(src, Start(Pick(y, h, u), w), w, dst, Start(y, v), v);
    }
  }

  /** The shortcut for an unchanged size agrees with the general rule. */
  lemma SameSizeScales(src: seq<bv8>, dst: seq<bv8>, w: nat, h: nat)
    requires w > 0 && h > 0 && Start(h, w) <= |src| && dst == src[..Start(h, w)]
    ensures Scaled(src, w, h, dst, w, h)
  {
    forall x, y | 0 <= x < w && 0 <= y < h
      ensures Start(Pick(y, h, h), w) + Pick(x, w, w) / 8 < |src|
      ensures Pixel(dst, Start(y, w), x) == Pixel(src, Start(Pick(y, h, h), w), Pick(x, w, w))
    {
      PickSame(x, w);
      PickSame(y, h);
      StartGrows(y, h, w);
    }
  }

  /** The pixel in column x and row y of a bitmap of width w: rows take (w + 7) / 8 bytes, and the lowest bit of a
      byte is the leftmost pixel. */
  predicate BitOf(bytes: seq<bv8>, w: nat, x: nat, y: nat) {
    var i := y * ((w + 7) / 8) + x / 8;
    0 <= i < |bytes| && Lit(bytes[i], x % 8)
  }

  lemma BitIsPixel(bytes: seq<bv8>, w: nat, x: nat, y: nat)
    ensures BitOf(bytes, w, x, y) <==> Pixel(bytes, Start(y, w), x)
  {
    hide Lit;
  }

  /** Column x of row y of the copy shows column x*w/v of row y*h/u of the original. */
  lemma CopiedPixel(src: seq<bv8>, w: nat, h: nat, dst: seq<bv8>, v: nat, u: nat, x: nat, y: nat)
    requires x < v && y < u && Scaled(src, w, h, dst, v, u)
    ensures BitOf(dst, v, x, y) == BitOf(src, w, x * w / v, y * h / u)
  {
    hide Pixel, BitOf, Start;
    BitIsPixel(dst, v, x, y);
    BitIsPixel(src, w, x * w / v, y * h / u);
    assert Pick(x, w, v) == x * w / v && Pick(y, h, u) == y * h / u;
  }

  /** The bits after its last column are dark. */
  lemma PaddingDark(src: seq<bv8>, w: nat, h: nat, dst: seq<bv8>, v: nat, u: nat, x: nat, y: nat)
    requires 0 < v <= x < 8 * Stride(v) && y < u && RowsUpTo(src, w, h, dst, v, u, u)
    ensures !BitOf(dst, v, x, y)
  {
    hide Pixel, BitOf, Start;
    BitIsPixel(dst, v, x, y);
    assert RowScaled(src, Start(Pick(y, h, u), w), w, dst, Start(y, v), v);
  }

  /** A copy of the bitmap scaled to v by u pixels; none for a size that is not positive. */
  method Copy(src: array<bv8>, w: nat, h: nat, v: int, u: int) returns (copy: array?<bv8>)
    requires src.Length >= Start(h, w)
    requires v > 0 && u > 0 ==> w > 0 && h > 0
    ensures copy == null <==> (v <= 0 || u <= 0) && (v != w || u != h)
    ensures copy != null ==> fresh(copy) && v >= 0 && u >= 0 && copy.Length == Start(u, v)
    ensures copy != null && v > 0 && u > 0 ==> Scaled(src[..], w, h, copy[..], v, u)
    ensures if v == w && u == h then copy[..] == src[..copy.Length]
            else copy != null ==> RowsUpTo(src[..], w, h, copy[..], v, u, u)
  {
    if v == w && u == h {
      copy := new bv8[Start(u, v)](i requires 0 <= i < src.Length reads src => src[i]);
      if v > 0 && u > 0 { SameSizeScales(src[..], copy[..], w, h); }
      return;
    }
    if v <= 0 || u <= 0 { return null; }
    copy := new bv8[Start(u, v)](_ => 0);
    ScaleRows(src, w, h, copy, v, u);
    RowsScale(src[..], w, h, copy[..], v, u);
  }
}
