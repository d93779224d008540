/** Scrolling a list of items by pixels: which item is at the top for a given position, and how far to scroll to show
    an item. A hidden item has height 0. */
module BrowserScroll {

  /** Where item i starts: the heights of the items before it. */
  function Start(h: seq<nat>, i: nat): nat
    requires i <= |h|
  {
    if i == 0 then 0 else Start(h, i - 1) + h[i - 1]
  }

  /** The first item starts at pixel 0, and each where the one before ends. */
  lemma StartsAre(h: seq<nat>, i: nat)
    requires i < |h|
    ensures Start(h, 0) == 0 && Start(h, i + 1) == Start(h, i) + h[i]
  {
  }

  function Total(h: seq<nat>): nat { Start(h, |h|) }

  function Min(a: int, b: int): int { if a < b then a else b }

  /** Division by two as C does it, toward zero. */
  function Half(x: int): int { if x >= 0 then x / 2 else -((-x) / 2) }

  /** Pixel y belongs to item i. */
  predicate Spans(h: seq<nat>, i: int, y: int) {
    0 <= i < |h| && Start(h, i) <= y < Start(h, i) + h[i]
  }

  lemma {:induction false} StartMonotone(h: seq<nat>, i: nat, j: nat)
    requires i <= j <= |h|
    ensures Start(h, i) <= Start(h, j)
    ensures i < j ==> Start(h, i) + h[i] <= Start(h, j)
    decreases j
  {
    if i < j { StartMonotone(h, i, j - 1); }
  }

  /** A pixel belongs to at most one item. */
  lemma SpansUnique(h: seq<nat>, i: int, j: int, y: int)
    requires Spans(h, i, y) && Spans(h, j, y)
    ensures i == j
  {
    if i < j { StartMonotone(h, i, j); } else { StartMonotone(h, j, i); }
  }

  /** With the window on position y (or at the end of the list), item p lies wholly inside it. */
  predicate Inside(h: seq<nat>, p: nat, y: int, H: nat)
    requires p < |h|
  {
    var top := Min(Clip(y), Total(h) - 1);
    top <= Start(h, p) && Start(h, p) + h[p] <= top + H
  }

  /** Where the position goes to show item p in a window of H pixels that starts at pixel `from` of item top: nowhere if
      the item ends inside the window already; to the edge the item is near; else so far that the item is centred. */
  function Target(h: seq<nat>, p: nat, H: nat, top: int, from: int, pos: int): int
    requires p < |h|
  {
    if p > top && Start(h, p) + h[p] <= from + H then pos
    else if p > top && Start(h, p) <= from + H then Start(h, p) + h[p] - H
    else if p <= top && (p >= top - 1 || Start(h, p) + h[p] >= from) then Start(h, p)
    else Start(h, p) - Half(H - h[p])
  }

  /** What the four positions mean, for a window of H pixels that starts at pixel `from` of item top. An item that
      is wholly inside does not move the window. One that is partly below it comes flush with the lower edge. One
      above it, at least in part or next to the top item, comes flush with the upper edge. Any other is centred, with
      half the room left rounded toward zero. */
  lemma TargetMeans(h: seq<nat>, p: nat, H: nat, top: int, from: int, pos: nat)
    requires p < |h| && Total(h) > 0 && from == Min(pos, Total(h) - 1)
    requires 0 <= top < |h| && from <= Start(h, top) + h[top]
    requires Start(h, top) <= from || (top == |h| - 1 && from == Total(h) - 1)
    ensures var y, a, e := Target(h, p, H, top, from, pos), Start(h, p), Start(h, p) + h[p];
            && (from <= a && e <= from + H ==> Min(Clip(y), Total(h) - 1) == from)
            && (p > top && a <= from + H < e ==> y + H == e)
            && (p <= top && (p >= top - 1 || e >= from) ==> y == a)
            && ((p > top && a > from + H) || (p < top - 1 && e < from) ==>
              2 * (a - y) == H - h[p] - (if (H - h[p]) % 2 == 0 then 0 else if h[p] < H then 1 else -1))
  {
    StartMonotone(h, p, |h|);
    if p <= top { StartMonotone(h, p, top); } else { StartMonotone(h, top, p); }
  }

  function Clip(y: int): nat { if y < 0 then 0 else y }

  /** Item p comes into the window at its upper edge, at its lower edge, or in the middle. */
  lemma EdgesInside(h: seq<nat>, p: nat, H: nat)
    requires p < |h| && 0 < h[p] <= H
    ensures Inside(h, p, Start(h, p), H)
    ensures Inside(h, p, Start(h, p) + h[p] - H, H)
    ensures Inside(h, p, Start(h, p) - Half(H - h[p]), H)
  {
    StartMonotone(h, p + 1, |h|);
  }

  class Scroller {
    const heights: seq<nat>
    var top: int  // an item, or -1 for none yet
    var offset: int
    var pos: int
    var realPos: int

    constructor (h: seq<nat>)
      requires Total(h) > 0
      ensures heights == h && Valid() && pos == 0
    {
      heights := h;
      top, offset, pos, realPos := -1, 0, 0, 0;
    }

    /** The top item and the offset into it add up to the position that was last made real. The top item spans that
        pixel, unless it is hidden: the first item before anything was scrolled, or the last one at the very end. */
    ghost predicate Valid()
      reads this
    {
      && Total(heights) > 0 && pos >= 0 && 0 <= realPos < Total(heights)
      && (top == -1 ==> realPos == 0 && offset == 0)
      && (top != -1 ==>
          && 0 <= top < |heights| && Start(heights, top) + offset == realPos
          && (Spans(heights, top, realPos) || HiddenTop(top, realPos)))
    }

    ghost predicate HiddenTop(i: int, y: int)
      reads this
      requires Total(heights) > 0
    {
      0 <= i < |heights| && heights[i] == 0 && ((i == 0 && y == 0) || (i == |heights| - 1 && y == Total(heights) - 1))
    }

    method SetPosition(y: int)
      requires Valid()
      modifies this`pos
      ensures Valid() && pos == Clip(y) && pos == if y < 0 then 0 else y
    {
      var yy := if y < 0 then 0 else y;
      if yy == pos { return; }
      pos := yy;
    }

    /** Make the position real: find the item it falls on, walking from the head or from the old top. */
    method UpdateTop()
      requires Valid()
      modifies this`top, this`offset, this`realPos
      ensures Valid() && top != -1
      ensures realPos == Min(pos, Total(heights) - 1)
      ensures heights[top] > 0 ==> Start(heights, top) <= realPos < Start(heights, top) + heights[top]
    {
      if top == -1 { top := 0; }
      if pos != realPos {
        var yy := pos;
        var l, ly;
        if yy <= realPos / 2 {
          l, ly := 0, 0;
        } else {
          l, ly := top, realPos - offset;
        }
        l, ly := WalkUp(l, ly, yy);
        l, ly, yy := WalkDown(l, ly, yy);
        // the final check that the top item is really visible asks for the same height again, so it passes at once
        assert ly + heights[l] > yy;
        top := l;
        offset := yy - ly;
        realPos := yy;
      }
    }

    /** Step back until the item starts at or above the point. */
    method WalkUp(l0: nat, ly0: int, yy: nat) returns (l: nat, ly: int)
      requires l0 < |heights| && ly0 == Start(heights, l0)
      ensures l < |heights| && ly == Start(heights, l) <= yy
    {
      l, ly := l0, ly0;
      while ly > yy
        invariant l < |heights| && ly == Start(heights, l)
        decreases l
      {
        l := l - 1;
        ly := ly - heights[l];
      }
    }

    /** Step on until the item ends below the point; past the end, settle on the last pixel. */
    method WalkDown(l0: nat, ly0: int, yy0: nat) returns (l: nat, ly: int, yy: int)
      requires l0 < |heights| && ly0 == Start(heights, l0) <= yy0 && Total(heights) > 0
      ensures l < |heights| && ly == Start(heights, l) && yy == Min(yy0, Total(heights) - 1)
      ensures Spans(heights, l, yy) || (l == |heights| - 1 && heights[l] == 0 && yy == Total(heights) - 1)
    {
      l, ly, yy := l0, ly0, yy0;
      while ly + heights[l] <= yy
        invariant l < |heights| && ly == Start(heights, l) <= yy == yy0
        decreases |heights| - l
      {
        if l == |heights| - 1 {
          yy := ly + heights[l] - 1;
          return;
        }
        ly := ly + heights[l];
        l := l + 1;
      }
      StartMonotone(heights, l + 1, |heights|);
    }

    /** Is the item the top one, or one after it that starts above the lower edge of the window? */
    method Displayed(p: nat, H: nat) returns (r: bool)
      requires Valid() && p < |heights|
      ensures r <==> top != -1 && top <= p && Start(heights, p) < realPos + H
    {
      if top == -1 { return false; }
      var yy := H + offset;
      var l := top;
      if p >= top { StartMonotone(heights, top, p); }
      while l < |heights| && yy > 0
        invariant top <= l <= |heights| && yy == realPos + H - Start(heights, l)
        invariant p >= top ==> p >= l
        decreases |heights| - l
      {
        if l == p { return true; }
        yy := yy - heights[l];
        l := l + 1;
      }
      if l <= p { StartMonotone(heights, l, p); }
      return false;
    }

    /** Set the position so that item p shows: at an edge of the window if it is near, else in the middle. */
    method Display(p: nat, H: nat)
      requires Valid() && p < |heights|
      modifies this
      ensures Valid() && top != -1
      ensures p != 0 ==> pos == Clip(Target(heights, p, H, top, realPos, old(pos)))
      ensures p == 0 ==> pos == 0
      ensures 0 < heights[p] <= H ==> Inside(heights, p, pos, H)
      ensures realPos == Min(old(pos), Total(heights) - 1)
      ensures realPos <= Start(heights, p) && Start(heights, p) + heights[p] <= realPos + H ==>
        Min(pos, Total(heights) - 1) == realPos
    {
      hide Target, Inside;
      UpdateTop();
      TopNear();
      TargetMeans(heights, p, H, top, realPos, pos);
      if 0 < heights[p] <= H { EdgesInside(heights, p, H); }
      if p == 0 { SetPosition(0); return; }
      var l := top;
      var Y := -offset;
      if l == p { SetPosition(realPos + Y); return; }
      var lp := l - 1;
      if lp == p { SetPosition(realPos + Y - heights[lp]); return; }
      SearchBothWays(p, H);
    }

    lemma TopNear()
      requires Valid() && top != -1
      ensures realPos <= Start(heights, top) + heights[top]
      ensures Start(heights, top) <= realPos || (top == |heights| - 1 && realPos == Total(heights) - 1)
    {
      StartMonotone(heights, top, |heights|);
    }

    /** Item p starts Y pixels below the top of the window. */
    method FoundBelow(p: nat, H: nat, Y: int)
      requires Valid() && top != -1 && realPos == Min(pos, Total(heights) - 1)
      requires top < p < |heights| && Y == Start(heights, p) - realPos
      modifies this`pos
      ensures Valid() && pos == Clip(Target(heights, p, H, top, realPos, old(pos)))
      ensures 0 < heights[p] <= H ==> Inside(heights, p, pos, H)
    {
      StartMonotone(heights, top, p);
      if 0 < heights[p] <= H { EdgesInside(heights, p, H); }
      if Y <= H {
        var bottom := Y + heights[p] - H;
        if bottom > 0 { SetPosition(realPos + bottom); }
      } else {
        SetPosition(realPos + Y - Half(H - heights[p]));
      }
    }

    /** Item p starts -Yp pixels above it. */
    method FoundAbove(p: nat, H: nat, Yp: int)
      requires Valid() && p < top - 1 && Yp == Start(heights, p) - realPos
      modifies this`pos
      ensures Valid() && pos == Clip(Target(heights, p, H, top, realPos, old(pos)))
      ensures 0 < heights[p] <= H ==> Inside(heights, p, pos, H)
    {
      if 0 < heights[p] <= H { EdgesInside(heights, p, H); }
      if Yp + heights[p] >= 0 {
        SetPosition(realPos + Yp);
      } else {
        SetPosition(realPos + Yp - Half(H - heights[p]));
      }
    }

    /** Look for p down and up the list at the same time. */
    method SearchBothWays(p: nat, H: nat)
      requires Valid() && top != -1 && realPos == Min(pos, Total(heights) - 1)
      requires p < |heights| && p != top && p != top - 1
      modifies this`pos
      ensures Valid() && pos == Clip(Target(heights, p, H, top, realPos, old(pos)))
      ensures 0 < heights[p] <= H ==> Inside(heights, p, pos, H)
    {
      var l, Y := top, -offset;
      var lp, Yp := top - 1, -offset;
      while l < |heights| || lp >= 0
        invariant top <= l <= |heights| && -1 <= lp < top
        invariant Y == Start(heights, l) - realPos && Yp == Start(heights, lp + 1) - realPos
        invariant p <= lp || l <= p
        decreases |heights| - l + lp
      {
        if l < |heights| {
          var h1 := heights[l];
          if l == p { FoundBelow(p, H, Y); return; }
          Y := Y + h1;
          l := l + 1;
        }
        if lp >= 0 {
          var h1 := heights[lp];
          Yp := Yp - h1;
          if lp == p { FoundAbove(p, H, Yp); return; }
          lp := lp - 1;
        }
      }
    }

    /** Showing an item and making the position real brings an item no taller than the window wholly inside it. */
    method Show(p: nat, H: nat)
      requires Valid() && p < |heights| && 0 < heights[p] <= H
      modifies this
      ensures Valid() && top != -1 && (heights[top] > 0 ==> top <= p)
      ensures realPos <= Start(heights, p) && Start(heights, p) + heights[p] <= realPos + H
    {
      Display(p, H);
      UpdateTop();
      if p < top { StartMonotone(heights, p, top); }
    }
  }
}
