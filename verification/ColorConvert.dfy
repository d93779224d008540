/** Colours as red, green and blue and as hue, saturation and value, over the reals. */
module ColorConvert {

  datatype Rgb = Rgb(r: real, g: real, b: real)
  datatype Hsv = Hsv(h: real, s: real, v: real)

  /** Saturations below this count as grey. */
  const GREY := 0.000005

  function Max(c: Rgb): real {
    var m := if c.r > c.g then c.r else c.g;
    if c.b > m then c.b else m
  }

  function Min(c: Rgb): real {
    var m := if c.r < c.g then c.r else c.g;
    if c.b < m then c.b else m
  }

  /** A conversion to an integer, which drops the fraction on either side of zero. */
  function Truncated(x: real): int { if x < 0.0 then -((-x).Floor) else x.Floor }

  /** The colour of a hue, saturation and value; a hue outside the six sectors leaves the old colour. */
  function ToRgb(c: Hsv, old': Rgb): Rgb {
    if c.s < GREY then Rgb(c.v, c.v, c.v)
    else
      var i := Truncated(c.h);
      var f := c.h - i as real;
      SectorRgb(i, c.v, c.v * (1.0 - c.s), c.v * (1.0 - c.s * f), c.v * (1.0 - c.s * (1.0 - f)), old')
  }

  /** The value, the least channel and the middle channel on a falling and on a rising edge, put in their places. */
  function SectorRgb(i: int, v: real, p1: real, p2: real, p3: real, old': Rgb): Rgb {
    match i
    case 0 => Rgb(v, p3, p1)
    case 1 => Rgb(p2, v, p1)
    case 2 => Rgb(p1, v, p3)
    case 3 => Rgb(p1, p2, v)
    case 4 => Rgb(p3, p1, v)
    case 5 => Rgb(v, p1, p2)
    case _ => old'
  }

  /** The hue, saturation and value of a colour; grey keeps the old hue, black the old saturation as well. */
  function ToHsv(c: Rgb, old': Hsv): Hsv {
    var max, min := Max(c), Min(c);
    if max > 0.0 then
      var s := 1.0 - min / max;
      if max > min then Hsv(Hue(c), s, max) else Hsv(old'.h, s, max)
    else Hsv(old'.h, old'.s, max)
  }

  function Hue(c: Rgb): real
    requires Max(c) > Min(c)
  {
    var d := Max(c) - Min(c);
    if Max(c) == c.r then (var h := (c.g - c.b) / d; if h < 0.0 then h + 6.0 else h)
    else if Max(c) == c.g then 2.0 + (c.b - c.r) / d
    else 4.0 + (c.r - c.g) / d
  }

  /** How far the least channel falls short of the greatest, as a share of it; black has none. */
  function Saturation(c: Rgb): real {
    if Max(c) == 0.0 then 0.0 else 1.0 - Min(c) / Max(c)
  }

  predicate NonNegative(c: Rgb) { c.r >= 0.0 && c.g >= 0.0 && c.b >= 0.0 }

  predicate HueInRange(h: real) { 0.0 <= h < 6.0 }

  /** No channel differs by more than `within`. */
  predicate Close(c: Rgb, d: Rgb, within: real) {
    -within <= c.r - d.r <= within && -within <= c.g - d.g <= within && -within <= c.b - d.b <= within
  }

  lemma Quotient(x: real, d: real)
    requires d > 0.0
    ensures x / d * d == x
    ensures 0.0 <= x <= d ==> 0.0 <= x / d <= 1.0
    ensures 0.0 <= x < d ==> x / d < 1.0
    ensures 0.0 < x ==> 0.0 < x / d
  {
    var q := x / d;
    assert q * d == x;
    assert q > 1.0 ==> q * d > d;
    assert q < 0.0 ==> q * d < 0.0;
    assert q == 1.0 ==> q * d == d;
    assert q == 0.0 ==> q * d == 0.0;
  }

  lemma Negated(x: real, d: real)
    requires d > 0.0
    ensures (-x) / d == -(x / d)
  {
    Quotient(x, d);
    Quotient(-x, d);
    assert ((-x) / d + x / d) * d == 0.0;
  }

  /** The saturation of a colour that is not black, and what it takes off the greatest channel. */
  lemma SaturationShare(c: Rgb)
    requires NonNegative(c) && Max(c) > 0.0
    ensures Max(c) * Saturation(c) == Max(c) - Min(c)
    ensures 0.0 <= Saturation(c) <= 1.0 && (Saturation(c) == 0.0 <==> Max(c) == Min(c))
  {
    Quotient(Min(c), Max(c));
    assert Max(c) * (1.0 - Min(c) / Max(c)) == Max(c) - Min(c) / Max(c) * Max(c);
  }

  /** Taking the share t of the saturation off the value takes the share t off the difference. */
  lemma Blend(v: real, s: real, t: real, d: real, x: real)
    requires v * s == d && d * t == x
    ensures v * (1.0 - s * t) == v - x
  {
    assert v * (s * t) == (v * s) * t;
    assert v * (1.0 - s * t) == v - v * (s * t);
  }

  /** The greatest and the least channel of sector i, and how far the middle one is into it. */
  ghost predicate Sector(c: Rgb, i: int, x: real) {
    && 0.0 <= x < Max(c) - Min(c)
    && match i
       case 0 => c.r == Max(c) && c.b == Min(c) && x == c.g - c.b
       case 1 => c.g == Max(c) && c.b == Min(c) && x == c.g - c.r
       case 2 => c.g == Max(c) && c.r == Min(c) && x == c.b - c.r
       case 3 => c.b == Max(c) && c.r == Min(c) && x == c.b - c.g
       case 4 => c.b == Max(c) && c.g == Min(c) && x == c.r - c.g
       case 5 => c.r == Max(c) && c.g == Min(c) && x == c.r - c.b
       case _ => false
  }

  /** A colour that is not grey lies in one sector. */
  lemma OneSector(c: Rgb, i: int, x: real, i': int, x': real)
    requires Sector(c, i, x) && Sector(c, i', x')
    ensures i == i' && x == x'
  {
  }

  /** x / d about an even sector boundary e: in the sector after it for x >= 0, else in the one before. */
  lemma About(x: real, d: real, e: real)
    requires d > 0.0 && -d <= x <= d
    ensures x == d ==> e + x / d == e + 1.0 + 0.0 / d
    ensures x < 0.0 <==> x / d < 0.0
    ensures e + x / d == e - 1.0 + (x + d) / d
  {
    QuotientPlus(x, d);
    if x == d { SameQuotient(x / d, 1.0, d); }
    Quotient(0.0, d);
    SameQuotient(0.0, 0.0 / d, d);
    Negated(x, d);
    Quotient(x, d);
    Quotient(-x, d);
  }

  lemma QuotientPlus(x: real, d: real)
    requires d > 0.0
    ensures (x + d) / d == x / d + 1.0
  {
    var p, q := x / d, (x + d) / d;
    assert p * d == x && q * d == x + d;
    Distributes(p, 1.0, d);
    SameQuotient(p + 1.0, q, d);
  }

  lemma Distributes(p: real, q: real, d: real)
    ensures (p + q) * d == p * d + q * d
    ensures (p - q) * d == p * d - q * d
  {
  }

  lemma SameQuotient(p: real, q: real, d: real)
    requires d > 0.0 && p * d == q * d
    ensures p == q
  {
    Distributes(p, q, d);
    assert p > q ==> (p - q) * d > 0.0;
    assert p < q ==> (q - p) * d > 0.0;
  }

  /** The hue says which channels are greatest and least, and where the middle one is. */
  lemma HueSector(c: Rgb) returns (i: int, x: real)
    requires Max(c) > Min(c)
    ensures Sector(c, i, x) && Hue(c) == i as real + x / (Max(c) - Min(c))
  {
    var d := Max(c) - Min(c);
    if Max(c) == c.r {
      i, x := 0, c.g - c.b;
      if x < 0.0 { i := 6; }
    } else if Max(c) == c.g {
      i, x := 2, c.b - c.r;
    } else {
      i, x := 4, c.r - c.g;
    }
    About(x, d, i as real);
    if x == d {
      i, x := i + 1, 0.0;
    } else if x < 0.0 {
      i, x := i - 1, x + d;
    }
  }

  /** Which sector a hue is in, and where. */
  lemma ToRgbAt(c: Hsv, i: int, f: real, rgb: Rgb)
    requires c.h == i as real + f && 0 <= i && 0.0 <= f < 1.0 && c.s >= GREY
    ensures ToRgb(c, rgb)
         == SectorRgb(i, c.v, c.v * (1.0 - c.s), c.v * (1.0 - c.s * f), c.v * (1.0 - c.s * (1.0 - f)), rgb)
  {
    assert Truncated(c.h) == i;
  }

  /** From red to yellow green rises, from yellow to green red falls. */
  lemma FirstSectors(h: real, s: real, v: real, rgb: Rgb)
    requires s >= 0.000005
    ensures 0.0 <= h < 1.0 ==> ToRgb(Hsv(h, s, v), rgb) == Rgb(v, v * (1.0 - s * (1.0 - h)), v * (1.0 - s))
    ensures 1.0 <= h < 2.0 ==> ToRgb(Hsv(h, s, v), rgb) == Rgb(v * (1.0 - s * (h - 1.0)), v, v * (1.0 - s))
  {
    hide ToRgb;
    if 0.0 <= h < 1.0 { ToRgbAt(Hsv(h, s, v), 0, h, rgb); }
    if 1.0 <= h < 2.0 { ToRgbAt(Hsv(h, s, v), 1, h - 1.0, rgb); }
  }

  /** A turn by two sectors moves every channel to the next. */
  lemma HueTurns(h: real, s: real, v: real, rgb: Rgb)
    requires s >= 0.000005 && 0.0 <= h < 4.0
    ensures var c := ToRgb(Hsv(h, s, v), rgb); ToRgb(Hsv(h + 2.0, s, v), rgb) == Rgb(c.b, c.r, c.g)
  {
    hide ToRgb;
    var i := h.Floor;
    ToRgbAt(Hsv(h, s, v), i, h - i as real, rgb);
    ToRgbAt(Hsv(h + 2.0, s, v), i + 2, h - i as real, rgb);
    assert i == 0 || i == 1 || i == 2 || i == 3;
  }

  /** Red, yellow, green, cyan, blue and magenta are the hues 0 to 5. */
  lemma PureHues(v: real, rgb: Rgb)
    ensures ToRgb(Hsv(0.0, 1.0, v), rgb) == Rgb(v, 0.0, 0.0) && ToRgb(Hsv(1.0, 1.0, v), rgb) == Rgb(v, v, 0.0)
    ensures ToRgb(Hsv(2.0, 1.0, v), rgb) == Rgb(0.0, v, 0.0) && ToRgb(Hsv(3.0, 1.0, v), rgb) == Rgb(0.0, v, v)
    ensures ToRgb(Hsv(4.0, 1.0, v), rgb) == Rgb(0.0, 0.0, v) && ToRgb(Hsv(5.0, 1.0, v), rgb) == Rgb(v, 0.0, v)
  {
    hide ToRgb;
    FirstSectors(0.0, 1.0, v, rgb);
    FirstSectors(1.0, 1.0, v, rgb);
    HueTurns(0.0, 1.0, v, rgb);
    HueTurns(1.0, 1.0, v, rgb);
    HueTurns(2.0, 1.0, v, rgb);
    HueTurns(3.0, 1.0, v, rgb);
  }

  /** With hardly any saturation it is grey; a hue of 6 or more, or of -1 or less, leaves the old colour. */
  lemma NoSector(c: Hsv, rgb: Rgb)
    ensures c.s < 0.000005 ==> ToRgb(c, rgb) == Rgb(c.v, c.v, c.v)
    ensures c.s >= 0.000005 && (c.h >= 6.0 || c.h <= -1.0) ==> ToRgb(c, rgb) == rgb
  {
  }

  /** Grey has no hue of its own and black no saturation either: they keep the old ones. */
  lemma GreyKeeps(c: Rgb, hsv: Hsv)
    requires c.r == c.g == c.b
    ensures ToHsv(c, hsv) == Hsv(hsv.h, if c.r > 0.0 then 0.0 else hsv.s, c.r)
  {
  }

  /** The three channel values of a sector: least, and the middle one on a falling or a rising edge. */
  lemma Spread(v: real, s: real, f: real, d: real, x: real)
    requires v > 0.0 && v * s == d > 0.0 && d * f == x
    ensures v * (1.0 - s) == v - d && v * (1.0 - s * f) == v - x && v * (1.0 - s * (1.0 - f)) == v - d + x
  {
    Blend(v, s, 1.0, d, d);
    Blend(v, s, f, d, x);
    Blend(v, s, 1.0 - f, d, d - x);
  }

  /** The colour of the place x in a sector of width d. */
  lemma ToRgbIn(h: real, s: real, v: real, i: nat, d: real, x: real, rgb: Rgb)
    requires v > 0.0 && s >= GREY && v * s == d && 0.0 <= x < d && h == i as real + x / d
    ensures ToRgb(Hsv(h, s, v), rgb) == SectorRgb(i, v, v - d, v - x, v - d + x, rgb)
  {
    Quotient(x, d);
    ToRgbAt(Hsv(h, s, v), i, x / d, rgb);
    Spread(v, s, x / d, d, x);
  }

  /** The place in a sector of width d of a fraction f. */
  lemma PlaceOf(f: real, d: real) returns (x: real)
    requires d > 0.0 && 0.0 <= f < 1.0
    ensures 0.0 <= x < d && x / d == f
  {
    x := f * d;
    assert (1.0 - f) * d > 0.0;
    Quotient(x, d);
    SameQuotient(f, x / d, d);
  }

  lemma SectorReturns(c: Rgb, i: int, x: real, rgb: Rgb)
    requires Sector(c, i, x)
    ensures SectorRgb(i, Max(c), Min(c), Max(c) - x, Min(c) + x, rgb) == c
  {
  }

  lemma SectorMade(i: int, x: real, v: real, p1: real, rgb: Rgb)
    requires 0 <= i < 6 && 0.0 <= x < v - p1
    ensures var c := SectorRgb(i, v, p1, v - x, p1 + x, rgb);
            Sector(c, i, x) && Max(c) == v && Min(c) == p1
  {
    var c := SectorRgb(i, v, p1, v - x, p1 + x, rgb);
    assert Max(c) == v && Min(c) == p1;
  }

  lemma SmallShare(v: real, s: real, d: real, t: real)
    requires v * s == d && s < t && v > 0.0
    ensures d < t * v
  {
    assert (t - s) * v > 0.0;
  }

  /** A colour that is not black comes back from its hue, saturation and value if it is deep enough ... */
  lemma DeepReturns(c: Rgb, hsv: Hsv, rgb: Rgb)
    requires NonNegative(c) && Max(c) > 0.0 && Saturation(c) >= GREY
    ensures ToRgb(ToHsv(c, hsv), rgb) == c
  {
    var v, s, d := Max(c), Saturation(c), Max(c) - Min(c);
    SaturationShare(c);
    var i, x := HueSector(c);
    ToRgbIn(Hue(c), s, v, i, d, x, rgb);
    SectorReturns(c, i, x, rgb);
  }

  /** ... and otherwise as the grey of its value, which is off by less than the threshold. */
  lemma PaleReturns(c: Rgb, hsv: Hsv, rgb: Rgb)
    requires NonNegative(c) && Max(c) > 0.0 && Saturation(c) < GREY
    ensures ToRgb(ToHsv(c, hsv), rgb) == Rgb(Max(c), Max(c), Max(c))
    ensures Max(c) - Min(c) < GREY * Max(c)
  {
    SaturationShare(c);
    SmallShare(Max(c), Saturation(c), Max(c) - Min(c), GREY);
  }

  /** With no value every hue and saturation is black. */
  lemma NoValue(h: real, s: real, rgb: Rgb)
    requires HueInRange(h)
    ensures ToRgb(Hsv(h, s, 0.0), rgb) == Rgb(0.0, 0.0, 0.0)
  {
  }

  lemma BlackReturns(c: Rgb, hsv: Hsv, rgb: Rgb)
    requires NonNegative(c) && Max(c) == 0.0 && HueInRange(hsv.h)
    ensures ToRgb(ToHsv(c, hsv), rgb) == c
  {
    NoValue(hsv.h, hsv.s, rgb);
  }

  /** To hue, saturation and value and back: exact just when the colour is grey or at least 5e-6 off it. */
  lemma RoundTrip(c: Rgb, hsv: Hsv, rgb: Rgb)
    requires NonNegative(c) && HueInRange(hsv.h)
    ensures ToRgb(ToHsv(c, hsv), rgb) == c <==> Saturation(c) == 0.0 || Saturation(c) >= 0.000005
    ensures Close(ToRgb(ToHsv(c, hsv), rgb), c, 0.000005 * Max(c))
  {
    if Max(c) == 0.0 {
      BlackReturns(c, hsv, rgb);
    } else {
      SaturationShare(c);
      if Saturation(c) >= GREY { DeepReturns(c, hsv, rgb); } else { PaleReturns(c, hsv, rgb); }
      assert GREY * Max(c) >= 0.0;
    }
  }

  lemma ShareWithin(v: real, s: real)
    requires v >= 0.0 && 0.0 <= s <= 1.0
    ensures 0.0 <= v * s <= v
  {
    assert v * (1.0 - s) >= 0.0;
  }

  lemma SaturationOf(v: real, s: real, m: real)
    requires v > 0.0 && v - m == v * s
    ensures 1.0 - m / v == s
  {
    Quotient(m, v);
    Distributes(1.0, m / v, v);
    SameQuotient(1.0 - m / v, s, v);
  }

  lemma Made(c: Hsv, d: real, rgb: Rgb) returns (i: int, x: real)
    requires HueInRange(c.h) && c.s >= GREY && c.v * c.s == d && 0.0 < d <= c.v
    ensures Sector(ToRgb(c, rgb), i, x) && c.h == i as real + x / d
    ensures Max(ToRgb(c, rgb)) == c.v && Min(ToRgb(c, rgb)) == c.v - d
  {
    i := c.h.Floor;
    x := PlaceOf(c.h - i as real, d);
    ToRgbIn(c.h, c.s, c.v, i, d, x, rgb);
    SectorMade(i, x, c.v, c.v - d, rgb);
  }

  /** The channels of a hue lie as its sector says. */
  lemma HueMade(c: Hsv, rgb: Rgb) returns (i: int, x: real)
    requires HueInRange(c.h) && GREY <= c.s <= 1.0 && c.v > 0.0
    ensures var d := ToRgb(c, rgb);
            Sector(d, i, x) && NonNegative(d) && Max(d) == c.v && Saturation(d) == c.s
    ensures c.h == i as real + x / (Max(ToRgb(c, rgb)) - Min(ToRgb(c, rgb)))
  {
    SmallShare(c.v, 0.0, 0.0, c.s);
    ShareWithin(c.v, c.s);
    SaturationOf(c.v, c.s, c.v - c.v * c.s);
    i, x := Made(c, c.v * c.s, rgb);
  }

  /** The other way round nothing is lost either, short of grey and black. */
  lemma RoundTripHsv(c: Hsv, hsv: Hsv, rgb: Rgb)
    requires HueInRange(c.h) && GREY <= c.s <= 1.0 && c.v > 0.0
    ensures ToHsv(ToRgb(c, rgb), hsv) == c
  {
    var d := ToRgb(c, rgb);
    var i, x := HueMade(c, rgb);
    var i', x' := HueSector(d);
    OneSector(d, i, x, i', x');
  }

  lemma HueInside(c: Rgb)
    requires Max(c) > Min(c)
    ensures HueInRange(Hue(c))
  {
    var i, x := HueSector(c);
    Quotient(x, Max(c) - Min(c));
  }

  /** The shape a colour in the chooser always has. */
  predicate InRange(c: Hsv) { HueInRange(c.h) && 0.0 <= c.s <= 1.0 && c.v >= 0.0 }

  lemma ToHsvInRange(c: Rgb, hsv: Hsv)
    requires NonNegative(c) && InRange(hsv)
    ensures InRange(ToHsv(c, hsv))
  {
    if Max(c) > 0.0 { SaturationShare(c); }
    if Max(c) > Min(c) { HueInside(c); }
  }

  lemma ToRgbInRange(c: Hsv, rgb: Rgb)
    requires InRange(c)
    ensures NonNegative(ToRgb(c, rgb)) && Max(ToRgb(c, rgb)) == c.v
  {
    if c.s < GREY {
      assert ToRgb(c, rgb) == Rgb(c.v, c.v, c.v);
    } else if c.v == 0.0 {
      NoValue(c.h, c.s, rgb);
    } else {
      var i, x := HueMade(c, rgb);
    }
  }

  /** A hue in range leaves nothing of the old colour. */
  lemma OldColorGone(c: Hsv, rgb: Rgb, rgb': Rgb)
    requires HueInRange(c.h)
    ensures ToRgb(c, rgb) == ToRgb(c, rgb')
  {
    assert 0 <= Truncated(c.h) < 6;
  }

  /** The remainder of x by 6, with the sign of x. */
  function Remainder(x: real): real { x - 6.0 * Truncated(x / 6.0) as real }

  function Wrapped(h: real): real {
    var r := Remainder(h);
    if r < 0.0 then r + 6.0 else r
  }

  /** From 0 to 1 a number is kept; others go to the nearer end. */
  lemma ClampedIs(x: real)
    ensures 0.0 <= Clamped(x) <= 1.0 && (0.0 <= x <= 1.0 ==> Clamped(x) == x)
    ensures (x < 0.0 ==> Clamped(x) == 0.0) && (x > 1.0 ==> Clamped(x) == 1.0)
  {
  }

  function Clamped(x: real): real { if x < 0.0 then 0.0 else if x > 1.0 then 1.0 else x }

  /** A hue is turned by whole circles until it is on the first. */
  lemma WrappedInside(h: real)
    ensures HueInRange(Wrapped(h))
    ensures exists n: int {:trigger n as real} :: h - Wrapped(h) == 6.0 * n as real
    ensures HueInRange(h) ==> Wrapped(h) == h
  {
    var n := Truncated(h / 6.0);
    var m := if Remainder(h) < 0.0 then n - 1 else n;
    assert h - Wrapped(h) == 6.0 * m as real;
  }

  /** The chooser keeps the current colour in both forms. */
  class Chooser {
    var rgb: Rgb
    var hsv: Hsv

    /** The two forms agree to within 5e-6 of the value. */
    ghost predicate Valid()
      reads this
    {
      NonNegative(rgb) && InRange(hsv) && Max(rgb) == hsv.v && Close(ToRgb(hsv, rgb), rgb, GREY * hsv.v)
    }

    constructor ()
      ensures Valid() && rgb == Rgb(0.0, 0.0, 0.0)
    {
      rgb, hsv := Rgb(0.0, 0.0, 0.0), Hsv(0.0, 0.0, 0.0);
    }

    method SetRgb(c: Rgb) returns (changed: bool)
      modifies this
      ensures rgb == c && (changed <==> c != old(rgb))
      ensures hsv == if changed then ToHsv(c, old(hsv)) else old(hsv)
      ensures old(Valid()) && NonNegative(c) ==> Valid()
    {
      ghost var was := hsv;
      if c == rgb { return false; }
      rgb := c;
      hsv := ToHsv(c, hsv);
      if InRange(was) && NonNegative(c) {
        RoundTrip(c, was, rgb);
        ToHsvInRange(c, was);
      }
      return true;
    }

    method SetHsv(c: Hsv) returns (changed: bool)
      modifies this
      ensures hsv == Hsv(Wrapped(c.h), Clamped(c.s), Clamped(c.v)) && (changed <==> hsv != old(hsv))
      ensures rgb == if changed then ToRgb(hsv, old(rgb)) else old(rgb)
      ensures old(Valid()) ==> Valid()
    {
      var target := Hsv(Wrapped(c.h), Clamped(c.s), Clamped(c.v));
      if target == hsv { return false; }
      hsv := target;
      rgb := ToRgb(target, rgb);
      WrappedInside(c.h);
      ToRgbInRange(target, old(rgb));
      OldColorGone(target, old(rgb), rgb);
      assert Close(rgb, rgb, GREY * hsv.v);
      return true;
    }
  }
}
