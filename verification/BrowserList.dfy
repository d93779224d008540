/** The lines of a browser: a doubly linked list that remembers the last line it looked up, so that a line number can be
    turned into a line, and back, by a short walk. */
module BrowserList {
  import opened Sequences

  /** The conversion of an int to a short. */
  function ToShort(l: int): int {
    var r := l % 0x1_0000;
    if r >= 0x8000 then r - 0x1_0000 else r
  }

  /** A line of the list. length is the room allocated for the text, kept in a short. */
  class Line {
    var prev: Line?
    var next: Line?
    var text: string
    var data: int
    var length: int
    var hidden: bool
    var selected: bool

    constructor (t: string, d: int)
      ensures text == t && data == d && length == ToShort(|t|) && !hidden && !selected
    {
      prev, next := null, null;
      text, data, length := t, d, ToShort(|t|);
      hidden, selected := false, false;
    }
  }

  /** Where a line inserted with the given number ends up among `lines` others. */
  function Place(line: int, lines: nat): (i: nat)
    ensures i <= lines
  {
    if line <= 1 then 0 else if line > lines then lines else line - 1
  }

  /** The lines after move(dest, from). */
  function Moved<T>(s: seq<T>, dest: int, from: int): (r: seq<T>)
    ensures |r| == |s|
  {
    if from < 1 || from > |s| then s
    else Insert(Remove(s, from - 1), Place(dest, |s| - 1), s[from - 1])
  }

  /** The number nearest to n from 1 to lines. */
  function Within(n: int, lines: nat): int { if n < 1 then 1 else if n > lines then lines else n }

  /** The line that is moved gets the number asked for, or the nearest one, and the other lines keep their order. */
  lemma MovedLands<T>(s: seq<T>, dest: int, from: int)
    requires 1 <= from <= |s|
    ensures var r, at := Moved(s, dest, from), Within(dest, |s|);
            r[at - 1] == s[from - 1] && Remove(r, at - 1) == Remove(s, from - 1)
  {
  }

  /** No line is moved if there is none with the number. */
  lemma MovedNone<T>(s: seq<T>, dest: int, from: int)
    requires !(1 <= from <= |s|)
    ensures Moved(s, dest, from) == s
  {
  }

  /** An inserted line gets the number asked for, or the nearest one up to lines + 1, and the others keep their
      order. */
  lemma InsertedLands<T>(s: seq<T>, line: int, t: T)
    ensures var r, at := Insert(s, Place(line, |s|), t), Within(line, |s| + 1);
            r[at - 1] == t && Remove(r, at - 1) == s
  {
  }

  /** A short holds the lengths below 0x8000; other numbers are taken modulo 0x10000. */
  lemma ShortIs(l: int)
    ensures -0x8000 <= ToShort(l) < 0x8000 && (ToShort(l) - l) % 0x1_0000 == 0
    ensures -0x8000 <= l < 0x8000 ==> ToShort(l) == l
  {
  }

  /** Moving a line and moving it back restores the order. */
  lemma MoveBack<T>(s: seq<T>, dest: int, from: int)
    requires 1 <= from <= |s| && 1 <= dest <= |s|
    ensures Moved(Moved(s, dest, from), from, dest) == s
  {
    var r := Moved(s, dest, from);
    assert Remove(r, dest - 1) == Remove(s, from - 1);
    assert Insert(Remove(s, from - 1), from - 1, s[from - 1]) == s;
  }

  ghost predicate Distinct(s: seq<Line>) { forall i, j :: 0 <= i < j < |s| ==> s[i] != s[j] }

  lemma InsertDistinct(s: seq<Line>, i: nat, x: Line)
    requires i <= |s| && Distinct(s) && x !in s
    ensures Distinct(Insert(s, i, x))
  {
    var r := Insert(s, i, x);
    forall k | 0 <= k < |r| && k != i ensures r[k] == s[if k < i then k else k - 1] {}
  }

  /** A line inserted at the place for a number has that number exactly when it is one from 1 to lines + 1. */
  lemma NumberPlaced(s: seq<Line>, line: int, t: Line)
    requires t !in s
    ensures var r := Insert(s, Place(line, |s|), t);
            (1 <= line <= |r| && r[line - 1] == t) <==> 1 <= line <= |s| + 1
  {
  }

  lemma SwapDistinct(s: seq<Line>, i: nat, j: nat)
    requires i < |s| && j < |s| && Distinct(s)
    ensures Distinct(s[i := s[j]][j := s[i]])
  {
    var r := s[i := s[j]][j := s[i]];
    forall k | 0 <= k < |s| ensures r[k] == s[if k == i then j else if k == j then i else k] {}
  }

  lemma RemoveDistinct(s: seq<Line>, i: nat)
    requires i < |s| && Distinct(s)
    ensures Distinct(Remove(s, i)) && s[i] !in Remove(s, i)
  {
  }

  /** Each line points to the one before it. */
  ghost predicate PrevLinked(s: seq<Line>)
    reads s`prev
  {
    (s != [] ==> s[0].prev == null) && forall i {:trigger s[i].prev} :: 1 <= i < |s| ==> s[i].prev == s[i - 1]
  }

  /** Each line points to the one after it. */
  ghost predicate NextLinked(s: seq<Line>)
    reads s`next
  {
    (s != [] ==> s[|s| - 1].next == null) && forall i {:trigger s[i].next} :: 0 <= i < |s| - 1 ==> s[i].next == s[i + 1]
  }

  ghost predicate Linked(s: seq<Line>)
    reads s`prev, s`next
  {
    PrevLinked(s) && NextLinked(s)
  }

  /** What a line shows, apart from its place. */
  datatype Item = Item(text: string, data: int, hidden: bool, selected: bool)

  function ItemOf(l: Line): Item
    reads l
  {
    Item(l.text, l.data, l.hidden, l.selected)
  }

  class Browser {
    var first: Line?
    var last: Line?
    var cache: Line?
    var cacheline: int
    var lines: nat
    ghost var nodes: seq<Line>

    /** The pointers spell out nodes. An emptied list may leave last behind. */
    ghost predicate Valid()
      reads this, nodes`prev, nodes`next
    {
      && lines == |nodes| && Distinct(nodes) && Linked(nodes)
      && (nodes == [] ==> first == null)
      && (nodes != [] ==> first == nodes[0] && last == nodes[|nodes| - 1])
    }

    /** The cache names a line and its number, or nothing. It means nothing while the list is empty. */
    ghost predicate CacheOk()
      reads this
    {
      nodes != [] ==>
        || (cacheline == 0 && cache == null)
        || (1 <= cacheline <= |nodes| && cache == nodes[cacheline - 1])
    }

    constructor ()
      ensures Valid() && CacheOk() && nodes == []
    {
      first, last, cache, cacheline, lines, nodes := null, null, null, 0, 0, [];
    }

    /** The line with the given number, or none. A number out of range, other than 0, is put into the cache as if
        it were the number of a line. */
    method FindLine(line: int) returns (l: Line?)
      requires Valid() && CacheOk() && nodes != []
      modifies this`cache, this`cacheline
      ensures if 1 <= line <= lines then l == nodes[line - 1] else l == null
      ensures cache == l && cacheline == line
      ensures CacheOk() <==> 0 <= line <= lines
    {
      if line == cacheline { return cache; }
      var n: int, p: Line?;
      if cacheline != 0 && line > cacheline / 2 && line < (cacheline + lines) / 2 {
        n, p := cacheline, cache;
      } else if line <= lines / 2 {
        n, p := 1, first;
      } else {
        n, p := lines, last;
      }
      while n < line && p != null
        invariant 1 <= n <= lines + 1 && p == LineAt(n)
        invariant n <= lines || line > lines
        decreases line - n
      {
        p := p.next;
        n := n + 1;
      }
      while n > line && p != null
        invariant 0 <= n <= lines + 1 && p == LineAt(n) && (1 <= line <= lines ==> line <= n)
        invariant (n <= lines || line > lines) && (p != null ==> line <= n)
        decreases n
      {
        p := p.prev;
        n := n - 1;
      }
      cacheline := line;
      cache := p;
      l := p;
    }

    ghost function LineAt(n: int): Line?
      reads this`nodes
    {
      if 1 <= n <= |nodes| then nodes[n - 1] else null
    }

    /** The number of a line: 0 for no line, and for the line in the cache whatever number the cache has. */
    method LineNo(l: Line?) returns (n: int)
      requires Valid() && (l != null ==> l in nodes) && (CacheOk() || l == null || l == cache)
      modifies this`cache, this`cacheline
      ensures old(CacheOk()) ==> CacheOk()
      ensures old(CacheOk()) ==> if l == null then n == 0 else 1 <= n <= lines && nodes[n - 1] == l
      ensures l != null && l == old(cache) ==> n == old(cacheline)
    {
      if l == null { return 0; }
      if l == cache { return cacheline; }
      if l == first { return 1; }
      if l == last { return lines; }
      if cache == null {
        cache := first;
        cacheline := 1;
      }
      ghost var at :| 0 <= at < |nodes| && nodes[at] == l;
      n := Search(l, at);
      cache := l;
      cacheline := n;
    }

    /** Walk away from the cache both ways at once until the line turns up. */
    method Search(l: Line, ghost at: nat) returns (n: int)
      requires Valid() && 1 <= cacheline <= lines && cache == nodes[cacheline - 1]
      requires at < |nodes| && nodes[at] == l && l != cache
      ensures n == at + 1
    {
      var b, bnum := cache.prev, cacheline - 1;
      var f, fnum := cache.next, cacheline + 1;
      while true
        invariant 0 <= bnum < fnum <= lines + 1
        invariant b == (if bnum == 0 then null else nodes[bnum - 1])
        invariant f == (if fnum == lines + 1 then null else nodes[fnum - 1])
        invariant !(bnum < at + 1 < fnum)
        decreases bnum + (lines + 1 - fnum)
      {
        if b == l { return bnum; }
        if f == l { return fnum; }
        if b != null { b, bnum := b.prev, bnum - 1; }
        if f != null { f, fnum := f.next, fnum + 1; }
      }
    }

    /** Unlink a line and hand it back. */
    method Unlink(line: int) returns (t: Line)
      requires Valid() && CacheOk() && 1 <= line <= lines
      modifies this, nodes`prev, nodes`next
      ensures Valid() && CacheOk()
      ensures t == old(nodes)[line - 1] && nodes == Remove(old(nodes), line - 1)
    {
      hide Linked, Distinct;
      t := FindLine(line);
      PrevIs(t, line - 1);
      cacheline := line - 1;
      cache := t.prev;
      Detach(t, line - 1);
    }

    lemma PrevIs(t: Line, i: nat)
      requires Valid() && i < |nodes| && nodes[i] == t
      ensures t.prev == if i == 0 then null else nodes[i - 1]
    {
    }

    method Detach(t: Line, ghost i: nat)
      requires Valid() && i < |nodes| && nodes[i] == t
      modifies this`first, this`last, this`lines, this`nodes, nodes`prev, nodes`next
      ensures Valid() && nodes == Remove(old(nodes), i)
    {
      RemoveDistinct(nodes, i);
      SkipForward(t, i);
      SkipBack(t, i);
      Drop(Remove(nodes, i));
    }

    /** One line less: the pointers now spell out s. */
    method Drop(ghost s: seq<Line>)
      requires lines == |s| + 1 && Distinct(s) && Linked(s)
      requires if s == [] then first == null else first == s[0] && last == s[|s| - 1]
      modifies this`lines, this`nodes
      ensures Valid() && nodes == s
    {
      lines := lines - 1;
      nodes := s;
    }

    method SkipForward(t: Line, ghost i: nat)
      requires i < |nodes| && nodes[i] == t && Distinct(nodes) && Linked(nodes) && first == nodes[0]
      modifies this`first, nodes`next
      ensures NextLinked(Remove(nodes, i)) && t.next == old(t.next)
      ensures first == if i > 0 then nodes[0] else if |nodes| > 1 then nodes[1] else null
    {
      if t.prev != null {
        assert t.prev == nodes[i - 1];
        t.prev.next := t.next;
      } else {
        first := t.next;
      }
    }

    method SkipBack(t: Line, ghost i: nat)
      requires i < |nodes| && nodes[i] == t && Distinct(nodes) && PrevLinked(nodes) && last == nodes[|nodes| - 1]
      requires t.next == if i < |nodes| - 1 then nodes[i + 1] else null
      modifies this`last, nodes`prev
      ensures PrevLinked(Remove(nodes, i))
      ensures i < |nodes| - 1 ==> last == nodes[|nodes| - 1]
      ensures i == |nodes| - 1 > 0 ==> last == nodes[i - 1]
    {
      if t.next != null {
        t.next.prev := t.prev;
      } else {
        last := t.prev;
      }
    }

    method RemoveLine(line: int)
      requires Valid() && CacheOk()
      modifies this, nodes`prev, nodes`next
      ensures Valid() && CacheOk()
      ensures nodes == if 1 <= line <= old(lines) then Remove(old(nodes), line - 1) else old(nodes)
    {
      if line < 1 || line > lines { return; }
      var _ := Unlink(line);
    }

    /** Link t in at the given number, or at the nearest end. The cache takes the number as it was given, so it agrees
        with the list exactly when the number was one from 1 to lines + 1. */
    method InsertLine(line: int, t: Line)
      requires Valid() && CacheOk() && t !in nodes
      modifies this, nodes`prev, nodes`next, t`prev, t`next
      ensures Valid() && nodes == Insert(old(nodes), Place(line, old(lines)), t)
      ensures CacheOk() <==> 1 <= line <= old(lines) + 1
      ensures cache == t && cacheline == line
    {
      hide Chain, Linked, Distinct;
      LinkAt(line, t);
      cacheline := line;
      cache := t;
      InsertDistinct(nodes, Place(line, lines), t);
      Adopt(Insert(nodes, Place(line, lines), t));
    }

    /** The list now has the lines s, which are linked up already. */
    method Adopt(ghost s: seq<Line>)
      requires Distinct(s) && Chain(s) && |s| == lines + 1
      modifies this`lines, this`nodes
      ensures Valid() && nodes == s
    {
      lines := lines + 1;
      nodes := s;
    }

    method LinkAt(line: int, t: Line)
      requires Valid() && CacheOk() && t !in nodes
      modifies this`first, this`last, this`cache, this`cacheline, nodes`prev, nodes`next, t`prev, t`next
      ensures Chain(Insert(nodes, Place(line, lines), t))
    {
      if first == null {
        LinkOnly(t);
      } else if line <= 1 {
        LinkFirst(t);
      } else if line > lines {
        LinkLast(t);
      } else {
        var n := FindLine(line);
        LinkBefore(n, t, line - 1);
      }
    }

    /** The pointers spell out the lines s. */
    ghost predicate Chain(s: seq<Line>)
      reads this`first, this`last, s`prev, s`next
    {
      s != [] && Linked(s) && first == s[0] && last == s[|s| - 1]
    }

    method LinkOnly(t: Line)
      requires nodes == []
      modifies this`first, this`last, t`prev, t`next
      ensures Chain(Insert(nodes, 0, t))
    {
      t.prev, t.next := null, null;
      first, last := t, t;
    }

    method LinkFirst(t: Line)
      requires Valid() && nodes != [] && t !in nodes
      modifies this`first, nodes`prev, t`prev, t`next
      ensures Chain(Insert(nodes, 0, t))
    {
      t.prev := null;
      t.next := first;
      t.next.prev := t;
      first := t;
    }

    method LinkLast(t: Line)
      requires Valid() && nodes != [] && t !in nodes
      modifies this`last, nodes`next, t`prev, t`next
      ensures Chain(Insert(nodes, |nodes|, t))
    {
      t.prev := last;
      t.prev.next := t;
      t.next := null;
      last := t;
    }

    method LinkBefore(n: Line, t: Line, ghost i: nat)
      requires Valid() && 0 < i < |nodes| && nodes[i] == n && t !in nodes
      modifies nodes`prev, nodes`next, t`prev, t`next
      ensures Chain(Insert(nodes, i, t))
    {
      assert n.prev == nodes[i - 1];
      t.next := n;
      t.prev := n.prev;
      t.prev.next := t;
      n.prev := t;
    }

    method InsertText(line: int, newText: string, d: int) returns (t: Line)
      requires Valid() && CacheOk()
      modifies this, nodes`prev, nodes`next
      ensures Valid() && fresh(t) && ItemOf(t) == Item(newText, d, false, false)
      ensures nodes == Insert(old(nodes), Place(line, old(lines)), t)
      ensures CacheOk() <==> 1 <= line <= old(lines) + 1
    {
      t := new Line(newText, d);
      InsertLine(line, t);
    }

    /** Append a line. */
    method Add(newText: string, d: int) returns (t: Line)
      requires Valid() && CacheOk()
      modifies this, nodes`prev, nodes`next
      ensures Valid() && CacheOk() && fresh(t) && ItemOf(t) == Item(newText, d, false, false)
      ensures nodes == old(nodes) + [t]
    {
      t := InsertText(lines + 1, newText, d);
    }

    /** Take a line out and put it back elsewhere. */
    method MoveLine(dest: int, from: int)
      requires Valid() && CacheOk()
      modifies this, nodes`prev, nodes`next
      ensures Valid() && nodes == Moved(old(nodes), dest, from)
      ensures CacheOk() <==> (1 <= from <= old(lines) ==> 1 <= dest <= old(lines))
    {
      if from < 1 || from > lines { return; }
      var t := Unlink(from);
      InsertLine(dest, t);
    }

    /** Change the text of a line. A longer text needs a new line object, linked in where the old one was. */
    method SetText(line: int, newText: string)
      requires Valid() && CacheOk()
      modifies this, nodes
      ensures Valid() && CacheOk()
      ensures |nodes| == |old(nodes)|
      ensures forall i :: 0 <= i < |nodes| && i != line - 1 ==> nodes[i] == old(nodes)[i]
      ensures forall i :: 0 <= i < |nodes| ==>
        ItemOf(nodes[i]) == if i == line - 1 then old(ItemOf(nodes[i])).(text := newText) else old(ItemOf(nodes[i]))
      ensures 1 <= line <= lines ==> (nodes[line - 1] == old(nodes)[line - 1] <==>
        |newText| <= old(nodes[line - 1].length))
    {
      hide Linked;
      if line < 1 || line > lines { return; }
      var t := LineWithRoom(line, newText);
      t.text := newText;
    }

    /** The line with the given number, renewed if the text does not fit into it. */
    method LineWithRoom(line: int, newText: string) returns (t: Line)
      requires Valid() && CacheOk() && 1 <= line <= lines
      modifies this, nodes`prev, nodes`next
      ensures Valid() && CacheOk() && lines == old(lines) && t == nodes[line - 1]
      ensures if |newText| <= old(nodes[line - 1].length) then t == old(nodes)[line - 1] else fresh(t)
      ensures nodes == old(nodes)[line - 1 := t]
      ensures t.data == old(nodes[line - 1].data) && t.hidden == old(nodes[line - 1].hidden)
      ensures t.selected == old(nodes[line - 1].selected)
    {
      hide Linked, Distinct;
      t := FindLine(line);
      if |newText| > t.length {
        t := Replace(line, t, newText);
      }
    }

    method Replace(line: int, t: Line, newText: string) returns (n: Line)
      requires Valid() && CacheOk() && 1 <= line <= lines && t == nodes[line - 1] && cache == t && cacheline == line
      modifies this, nodes`prev, nodes`next
      ensures Valid() && CacheOk() && fresh(n) && nodes == old(nodes)[line - 1 := n]
      ensures n.data == old(t.data) && n.hidden == old(t.hidden) && n.selected == old(t.selected)
    {
      hide Linked, Distinct;
      n := new Line(newText, t.data);
      cache := n;
      n.hidden, n.selected := t.hidden, t.selected;
      Splice(t, n, line - 1);
      nodes := nodes[line - 1 := n];
    }

    /** n takes the place of t in the chain. */
    method Splice(t: Line, n: Line, ghost i: nat)
      requires Valid() && i < |nodes| && nodes[i] == t && n !in nodes
      modifies this`first, this`last, nodes`prev, nodes`next, n`prev, n`next
      ensures var s := nodes[i := n]; Linked(s) && first == s[0] && last == s[|s| - 1] && Distinct(s)
    {
      ghost var s := nodes;
      n.prev := t.prev;
      if n.prev != null { assert n.prev == s[i - 1]; n.prev.next := n; } else { first := n; }
      n.next := t.next;
      if n.next != null { assert n.next == s[i + 1]; n.next.prev := n; } else { last := n; }
    }

    /** Exchange two lines, whatever their order and distance. */
    method SwapLines(a: Line, b: Line, ghost i: nat, ghost j: nat)
      requires Valid() && i < |nodes| && j < |nodes| && nodes[i] == a && nodes[j] == b
      modifies this, nodes`prev, nodes`next
      ensures Valid() && (a != b || old(CacheOk()) ==> CacheOk())
      ensures nodes == old(nodes)[i := b][j := a]
    {
      if a == b { return; }
      SwapDistinct(nodes, i, j);
      Exchange(a, b, i, j);
      cacheline := 0;
      cache := null;
      nodes := nodes[i := b][j := a];
    }

    method Exchange(a: Line, b: Line, ghost i: nat, ghost j: nat)
      requires Valid() && i < |nodes| && j < |nodes| && nodes[i] == a && nodes[j] == b && a != b
      modifies this`first, this`last, nodes`prev, nodes`next
      ensures var s := nodes[i := b][j := a]; Linked(s) && first == s[0] && last == s[|s| - 1]
    {
      if b.prev == a {
        AdjacentAt(a, b, i, j);
        SwapAdjacent(a, b, i);
      } else if a.prev == b {
        AdjacentAt(b, a, j, i);
        assert nodes[i := b][j := a] == nodes[j := a][j + 1 := b];
        SwapAdjacent(b, a, j);
      } else {
        SwapApart(a, b, i, j);
      }
    }

    lemma AdjacentAt(a: Line, b: Line, i: nat, j: nat)
      requires Valid() && i < |nodes| && j < |nodes| && nodes[i] == a && nodes[j] == b && b.prev == a
      ensures j == i + 1
    {
    }

    /** b comes right after a. */
    method SwapAdjacent(a: Line, b: Line, ghost i: nat)
      requires Valid() && i + 1 < |nodes| && nodes[i] == a && nodes[i + 1] == b
      modifies this`first, this`last, nodes`prev, nodes`next
      ensures var s := nodes[i := b][i + 1 := a]; Linked(s) && first == s[0] && last == s[|s| - 1]
    {
      var aprev, bnext := a.prev, b.next;
      assert aprev != null ==> aprev == nodes[i - 1];
      assert bnext != null ==> bnext == nodes[i + 2];
      if aprev != null { aprev.next := b; } else { first := b; }
      b.next := a;
      a.next := bnext;
      b.prev := aprev;
      a.prev := b;
      if bnext != null { bnext.prev := a; } else { last := a; }
    }

    method SwapApart(a: Line, b: Line, ghost i: nat, ghost j: nat)
      requires Valid() && i < |nodes| && j < |nodes| && nodes[i] == a && nodes[j] == b
      requires i != j && i + 1 != j && j + 1 != i
      modifies this`first, this`last, nodes`prev, nodes`next
      ensures var s := nodes[i := b][j := a]; Linked(s) && first == s[0] && last == s[|s| - 1]
    {
      var aprev, anext, bprev, bnext := a.prev, a.next, b.prev, b.next;
      SwapPrevs(a, b, aprev, anext, bprev, bnext, i, j);
      SwapNexts(a, b, aprev, anext, bprev, bnext, i, j);
    }

    method SwapPrevs(a: Line, b: Line, aprev: Line?, anext: Line?, bprev: Line?, bnext: Line?,
              ghost i: nat, ghost j: nat)
      requires Distinct(nodes) && PrevLinked(nodes) && nodes != [] && last == nodes[|nodes| - 1]
      requires i < |nodes| && j < |nodes| && nodes[i] == a && nodes[j] == b
      requires i != j && i + 1 != j && j + 1 != i
      requires aprev == (if i == 0 then null else nodes[i - 1])
        && anext == (if i == |nodes| - 1 then null else nodes[i + 1])
      requires bprev == (if j == 0 then null else nodes[j - 1])
        && bnext == (if j == |nodes| - 1 then null else nodes[j + 1])
      modifies this`last, nodes`prev
      ensures var s := nodes[i := b][j := a]; PrevLinked(s) && last == s[|s| - 1]
    {
      b.prev := aprev;
      if anext != null { anext.prev := b; } else { last := b; }
      a.prev := bprev;
      if bnext != null { bnext.prev := a; } else { last := a; }
    }

    method SwapNexts(a: Line, b: Line, aprev: Line?, anext: Line?, bprev: Line?, bnext: Line?,
              ghost i: nat, ghost j: nat)
      requires Distinct(nodes) && NextLinked(nodes) && nodes != [] && first == nodes[0]
      requires i < |nodes| && j < |nodes| && nodes[i] == a && nodes[j] == b
      requires i != j && i + 1 != j && j + 1 != i
      requires aprev == (if i == 0 then null else nodes[i - 1])
        && anext == (if i == |nodes| - 1 then null else nodes[i + 1])
      requires bprev == (if j == 0 then null else nodes[j - 1])
        && bnext == (if j == |nodes| - 1 then null else nodes[j + 1])
      modifies this`first, nodes`next
      ensures var s := nodes[i := b][j := a]; NextLinked(s) && first == s[0]
    {
      if aprev != null { aprev.next := b; } else { first := b; }
      b.next := anext;
      if bprev != null { bprev.next := a; } else { first := a; }
      a.next := bnext;
    }

    method SwapNumbers(ai: int, bi: int)
      requires Valid() && CacheOk()
      modifies this, nodes`prev, nodes`next
      ensures Valid() && CacheOk()
      ensures nodes == if 1 <= ai <= old(lines) && 1 <= bi <= old(lines)
                       then old(nodes)[ai - 1 := old(nodes)[bi - 1]][bi - 1 := old(nodes)[ai - 1]] else old(nodes)
    {
      if ai < 1 || ai > lines || bi < 1 || bi > lines { return; }
      var a := FindLine(ai);
      var b := FindLine(bi);
      SwapLines(a, b, ai - 1, bi - 1);
    }

    /** The number that is reported for a line after its insertion is the one it was given, right or wrong. */
    method InsertAndNumber(line: int, t: Line) returns (n: int)
      requires Valid() && CacheOk() && t !in nodes
      modifies this, nodes`prev, nodes`next, t`prev, t`next
      ensures Valid() && nodes == Insert(old(nodes), Place(line, old(lines)), t)
      ensures (1 <= n <= lines && nodes[n - 1] == t) <==> 1 <= line <= old(lines) + 1
      ensures n == line
    {
      InsertLine(line, t);
      NumberPlaced(old(nodes), line, t);
      assert t in nodes by { assert nodes[Place(line, old(lines))] == t; }
      n := LineNo(t);
    }

    /** The first line of a list, inserted with the number 5, is reported to be line 5. */
    method InsertPastEnd() returns (t: Line, n: int)
      requires Valid() && CacheOk() && nodes == []
      modifies this
      ensures Valid() && nodes == [t] && n == 5
    {
      t := new Line("text", 0);
      n := InsertAndNumber(5, t);
    }

    /** Show or hide a line. */
    method SetHidden(line: int, off: bool)
      requires Valid() && CacheOk() && 1 <= line <= lines
      modifies this`cache, this`cacheline, nodes`hidden
      ensures Valid() && CacheOk() && nodes[line - 1].hidden == off
      ensures forall i :: 0 <= i < |nodes| && i != line - 1 ==> nodes[i].hidden == old(nodes[i].hidden)
    {
      var t := FindLine(line);
      t.hidden := off;
    }

    /** Empty the list; the cache and last keep their old values. */
    method Clear()
      requires Valid()
      modifies this
      ensures Valid() && CacheOk() && nodes == []
      ensures cache == old(cache) && cacheline == old(cacheline) && last == old(last)
    {
      first := null;
      lines := 0;
      nodes := [];
    }
  }
}
