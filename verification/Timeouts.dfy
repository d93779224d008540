/** The timeouts of the event loop as they are stored: a singly linked list sorted by time, and a list of free nodes
    that new timeouts are taken from. */
module Timeouts {
  import opened Sequences
  import opened TimeoutRules
  import opened TimeoutExpiry

  class Timeout {
    var time: real
    var cb: int
    var arg: int
    var next: Timeout?

    constructor ()
      ensures next == null
    {
      time, cb, arg, next := 0.0, 0, 0, null;
    }
  }

  function EntryOf(t: Timeout): Entry
    reads t
  {
    Entry(t.time, t.cb, t.arg)
  }

  ghost predicate Distinct(s: seq<Timeout>) { forall i, j :: 0 <= i < j < |s| ==> s[i] != s[j] }

  ghost predicate Apart(s: seq<Timeout>, s': seq<Timeout>) {
    forall i, j :: 0 <= i < |s| && 0 <= j < |s'| ==> s[i] != s'[j]
  }

  /** The chain that starts at head runs through exactly the nodes s. */
  ghost predicate Chain(head: Timeout?, s: seq<Timeout>)
    reads s
  {
    && (s == [] ==> head == null)
    && (s != [] ==> head == s[0] && s[|s| - 1].next == null)
    && (forall i {:trigger s[i].next} :: 0 <= i < |s| - 1 ==> s[i].next == s[i + 1])
  }

  class Timers {
    var first: Timeout?
    var free: Timeout?
    var missed: real
    var resetClock: bool
    var prevClock: real
    ghost var live: seq<Timeout>
    ghost var spare: seq<Timeout>
    ghost var list: seq<Entry>
    ghost var nodes: set<Timeout>

    /** Two chains without cycles and without a common node; list is what the live one holds. */
    ghost predicate Valid()
      reads this, nodes
    {
      && (forall i :: 0 <= i < |live| ==> live[i] in nodes) && (forall i :: 0 <= i < |spare| ==> spare[i] in nodes)
      && Distinct(live) && Distinct(spare) && Apart(live, spare) && Chain(first, live) && Chain(free, spare)
      && |list| == |live| && (forall i :: 0 <= i < |live| ==> list[i] == EntryOf(live[i]))
    }

    ghost function View(): State
      reads this
    {
      State(prevClock, resetClock, missed, list)
    }

    constructor ()
      ensures Valid() && View() == State(0.0, true, 0.0, []) && Inv(View())
    {
      first, free, missed, resetClock, prevClock := null, null, 0.0, true, 0.0;
      live, spare, list, nodes := [], [], [], {};
    }

    method ElapseTimeouts(now: real)
      requires Valid()
      modifies this`prevClock, this`resetClock, this`list, nodes`time
      ensures Valid() && View() == Elapse(old(View()), now)
    {
      var elapsed := now - prevClock;
      prevClock := now;
      if resetClock {
        resetClock := false;
      } else if elapsed > 0.0 {
        Subtract(elapsed);
      }
    }

    method Subtract(elapsed: real)
      requires Valid()
      modifies this`list, nodes`time
      ensures Valid() && list == Shift(old(list), elapsed)
    {
      var t := first;
      ghost var n := 0;
      while t != null
        invariant 0 <= n <= |live| && t == (if n < |live| then live[n] else null)
        invariant Distinct(live) && Chain(first, live) && Chain(free, spare) && list == old(list)
        invariant forall i :: 0 <= i < |live| ==>
          EntryOf(live[i]) == if i < n then list[i].(time := list[i].time - elapsed) else list[i]
        decreases |live| - n
      {
        assert EntryOf(live[n]) == list[n];
        t.time := t.time - elapsed;
        t := t.next;
        n := n + 1;
      }
      list := Shift(list, elapsed);
    }

    /** A node for a new timeout: a spare one if there is any. */
    method TakeNode() returns (t: Timeout)
      requires Valid()
      modifies this`free, this`spare, this`nodes
      ensures Valid() && t !in live && t !in spare
      ensures fresh(nodes - old(nodes)) && t in nodes
    {
      if free != null {
        t := free;
        free := t.next;
        spare := spare[1..];
      } else {
        t := new Timeout();
        nodes := nodes + {t};
      }
    }

    /** Find where the new timeout goes and link it in. */
    method RepeatTimeout(time: real, cb: int, arg: int)
      requires Valid()
      modifies this`first, this`free, this`live, this`spare, this`list, this`nodes, nodes
      ensures Valid() && View() == Repeat(old(View()), time, cb, arg)
      ensures fresh(nodes - old(nodes))
    {
      hide Chain, Distinct, Apart, InsertSorted;
      var time' := time + missed;
      if time' < -0.05 { time' := 0.0; }
      var t := NewTimeout(time', cb, arg);
      LinkIn(t);
    }

    method NewTimeout(time: real, cb: int, arg: int) returns (t: Timeout)
      requires Valid()
      modifies this`free, this`spare, this`nodes, nodes`time, nodes`cb, nodes`arg
      ensures Valid() && t !in live && t !in spare && EntryOf(t) == Entry(time, cb, arg)
      ensures fresh(nodes - old(nodes)) && t in nodes
    {
      t := TakeNode();
      t.time := time;
      t.cb := cb;
      t.arg := arg;
    }

    method LinkIn(t: Timeout)
      requires Valid() && t !in live && t !in spare && t in nodes
      modifies this`first, this`live, this`list, nodes`next
      ensures Valid() && list == InsertSorted(old(list), EntryOf(t)) && spare == old(spare)
    {
      hide Chain, Distinct, Apart, NotLater;
      ghost var n := NotLater(list, t.time);
      var prev, p := FindPlace(t.time);
      SpliceIn(t, prev, p, n);
      LinkApart(live, spare, n, t);
      Adopt(Insert(live, n, t), Insert(list, n, EntryOf(t)));
    }

    /** The live chain now runs through the nodes s, which hold the entries es. */
    method Adopt(ghost s: seq<Timeout>, ghost es: seq<Entry>)
      requires Distinct(s) && Distinct(spare) && Apart(s, spare) && Chain(first, s) && Chain(free, spare)
      requires forall i :: 0 <= i < |s| ==> s[i] in nodes
      requires forall i :: 0 <= i < |spare| ==> spare[i] in nodes
      requires |s| == |es| && forall i :: 0 <= i < |s| ==> es[i] == EntryOf(s[i])
      modifies this`live, this`list
      ensures Valid() && live == s && list == es
    {
      live := s;
      list := es;
    }

    method SpliceIn(t: Timeout, prev: Timeout?, p: Timeout?, ghost n: nat)
      requires Valid() && t !in live && t !in spare && t in nodes && n <= |live|
      requires prev == (if n == 0 then null else live[n - 1]) && p == (if n < |live| then live[n] else null)
      modifies this`first, nodes`next
      ensures Chain(first, Insert(live, n, t)) && Chain(free, spare)
    {
      t.next := p;
      if prev == null { first := t; } else { prev.next := t; }
      assert prev != null ==> prev == live[n - 1];
    }

    /** The place before the first timeout that is later than time: between prev and p. */
    method FindPlace(time: real) returns (prev: Timeout?, p: Timeout?)
      requires Valid()
      ensures var n := NotLater(list, time);
              && prev == (if n == 0 then null else live[n - 1]) && p == (if n < |live| then live[n] else null)
    {
      prev, p := null, first;
      ghost var n := 0;
      while p != null && p.time <= time
        invariant 0 <= n <= |live| && p == (if n < |live| then live[n] else null)
        invariant prev == (if n == 0 then null else live[n - 1])
        invariant NotLater(list, time) == n + NotLater(list[n..], time)
        decreases |live| - n
      {
        assert list[n] == EntryOf(live[n]) && list[n..][1..] == list[n + 1..];
        prev := p;
        p := p.next;
        n := n + 1;
      }
      assert n < |live| ==> list[n] == EntryOf(live[n]);
    }

    method AddTimeout(now: real, time: real, cb: int, arg: int)
      requires Valid()
      modifies this, nodes
      ensures Valid() && View() == Add(old(View()), now, time, cb, arg)
      ensures fresh(nodes - old(nodes))
    {
      ElapseTimeouts(now);
      RepeatTimeout(time, cb, arg);
    }

    method HasTimeout(cb: int, arg: int) returns (r: bool)
      requires Valid()
      ensures r == exists i :: 0 <= i < |list| && list[i].cb == cb && list[i].arg == arg
    {
      var t := first;
      ghost var n := 0;
      while t != null
        invariant 0 <= n <= |live| && t == (if n < |live| then live[n] else null)
        invariant forall i :: 0 <= i < n ==> !(list[i].cb == cb && list[i].arg == arg)
        decreases |live| - n
      {
        assert list[n] == EntryOf(t);
        if t.cb == cb && t.arg == arg { return true; }
        t := t.next;
        n := n + 1;
      }
      return false;
    }

    /** Drop every match; the nodes go to the free list. */
    method RemoveTimeout(cb: int, arg: int)
      requires Valid()
      modifies this, nodes
      ensures Valid() && View() == TimeoutRules.Remove(old(View()), cb, arg) && nodes == old(nodes)
    {
      hide Sifted, Without, Distinct, Apart;
      ghost var list0 := list;
      var prev: Timeout? := null;
      var t := first;
      ghost var n: nat, k: nat := 0, 0;  // n entries kept, k entries looked at
      SiftedNone(list, cb, arg);
      while t != null
        invariant nodes == old(nodes) && Valid() && Sifted(list, list0, k, n, cb, arg)
        invariant n <= |live|
        invariant t == (if n < |live| then live[n] else null) && prev == (if n == 0 then null else live[n - 1])
        invariant missed == old(missed) && resetClock == old(resetClock) && prevClock == old(prevClock)
        decreases |list0| - k
      {
        SiftedNext(list, list0, k, n, cb, arg);
        prev, t, n := RemoveStep(prev, t, n, cb, arg);
        k := k + 1;
      }
      SiftedAll(list, list0, k, n, cb, arg);
    }

    /** Look at the n-th node: unlink it or go past it. */
    method RemoveStep(prev: Timeout?, t: Timeout, ghost n: nat, cb: int, arg: int)
      returns (prev': Timeout?, t': Timeout?, ghost n': nat)
      requires Valid() && n < |live| && live[n] == t && prev == (if n == 0 then null else live[n - 1])
      modifies this, nodes
      ensures Valid() && n' <= |live| && nodes == old(nodes)
      ensures missed == old(missed) && resetClock == old(resetClock) && prevClock == old(prevClock)
      ensures prev' == (if n' == 0 then null else live[n' - 1]) && t' == (if n' < |live| then live[n'] else null)
      ensures if Matches(old(list)[n], cb, arg) then n' == n && list == Sequences.Remove(old(list), n)
              else n' == n + 1 && list == old(list)
    {
      assert list[n] == EntryOf(t);
      prev', t', n' := prev, t, n;
      if t.cb == cb && (t.arg == arg || arg == 0) {
        t' := Unlink(prev, t, n);
      } else {
        prev' := t;
        t' := t.next;
        n' := n + 1;
      }
    }

    /** Take the n-th node t out of the live list and put it on the free list. */
    method Unlink(prev: Timeout?, t: Timeout, ghost n: nat) returns (next: Timeout?)
      requires Valid() && n < |live| && live[n] == t && prev == (if n == 0 then null else live[n - 1])
      modifies this`first, this`free, this`live, this`spare, this`list, nodes`next
      ensures Valid() && live == Sequences.Remove(old(live), n) && spare == [t] + old(spare)
      ensures list == Sequences.Remove(old(list), n)
      ensures next == (if n < |live| then live[n] else null)
    {
      hide Chain, Distinct, Apart;
      next := SpliceOut(prev, t, n);
      UnlinkApart(live, spare, n);
      live := Sequences.Remove(live, n);
      spare := [t] + spare;
      list := Sequences.Remove(list, n);
    }

    method SpliceOut(prev: Timeout?, t: Timeout, ghost n: nat) returns (next: Timeout?)
      requires Valid() && n < |live| && live[n] == t && prev == (if n == 0 then null else live[n - 1])
      modifies this`first, this`free, nodes`next
      ensures Chain(first, Sequences.Remove(live, n)) && Chain(free, [t] + spare)
      ensures next == if n < |live| - 1 then live[n + 1] else null
    {
      next := t.next;
      if prev == null { first := next; } else { prev.next := next; }
      t.next := free;
      free := t;
    }

    /** One round of the loop that calls what is due: the first timeout leaves the list before its callback runs. */
    method FireFirst() returns (cb: int, arg: int)
      requires Valid() && Due(View())
      modifies this`missed, this`first, this`free, this`live, this`spare, this`list, nodes`next
      ensures Valid() && View() == Fire(old(View()))
      ensures cb == old(list)[0].cb && arg == old(list)[0].arg
    {
      var t := first;
      assert EntryOf(t) == list[0];
      missed := t.time;
      cb, arg := t.cb, t.arg;
      DropFirst();
    }

    method DropFirst()
      requires Valid() && live != []
      modifies this`first, this`free, this`live, this`spare, this`list, nodes`next
      ensures Valid() && list == old(list)[1..]
    {
      assert Sequences.Remove(list, 0) == list[1..];
      var _ := Unlink(null, first, 0);
    }

    /** The start of a wait. */
    method BeginWaiting(now: real)
      requires Valid()
      modifies this`prevClock, this`resetClock, this`list, nodes`time
      ensures Valid() && View() == BeginWait(old(View()), now)
    {
      if first != null { ElapseTimeouts(now); } else { resetClock := true; }
    }

    /** What a callback may do with timeouts. */
    method Do(e: Event)
      requires Valid() && Enabled(View(), e)
      modifies this, nodes
      ensures Valid() && View() == Step(old(View()), e)
      ensures fresh(nodes - old(nodes))
    {
      match e
      case Waiting(now) => BeginWaiting(now);
      case Firing => var _, _ := FireFirst();
      case Repeating(time, cb, arg) => RepeatTimeout(time, cb, arg);
      case Adding(now, time, cb, arg) => AddTimeout(now, time, cb, arg);
      case Removing(cb, arg) => RemoveTimeout(cb, arg);
    }

    method DoAll(es: seq<Event>)
      requires Valid() && AllEnabled(View(), es)
      modifies this, nodes
      ensures Valid() && View() == StepAll(old(View()), es)
      ensures fresh(nodes - old(nodes))
      decreases |es|
    {
      hide Step, Enabled;
      if es != [] {
        Do(es[0]);
        DoAll(es[1..]);
      }
    }

    /** The first due timeout leaves the list, and its callback does what is in es. */
    method CallFirst(es: seq<Event>) returns (name: Name)
      requires Valid() && Due(View()) && AllEnabled(Fire(View()), es)
      modifies this, nodes
      ensures Valid() && View() == StepAll(Fire(old(View())), es) && name == NameOf(old(list)[0])
      ensures fresh(nodes - old(nodes))
    {
      hide AllEnabled, StepAll;
      var cb, arg := FireFirst();
      DoAll(es);
      name := (cb, arg);
    }

    /** Call what is due, one after the other; calls are what the callbacks do. */
    method Expire(calls: seq<seq<Event>>) returns (fired: seq<Name>)
      requires Valid() && Calm(View(), calls)
      modifies this, nodes
      ensures Valid() && View() == Expired(old(View()), calls)
      ensures fired == Names(DuePart(old(list))) && !Due(View())
      ensures fresh(nodes - old(nodes))
    {
      hide Names, DuePart, StepAll, AllEnabled;
      ghost var s := View();
      CallsAllDue(s, calls);
      fired := [];
      var left := calls;
      while first != null
        invariant Valid() && Calm(View(), left) && Expired(View(), left) == Expired(s, calls)
        invariant fired + Fired(View(), left) == Fired(s, calls)
        invariant fresh(nodes - old(nodes))
        decreases |DuePart(list)|
      {
        FirstIsListed();
        if first.time > 0.0 { break; }
        DueShrinks(View(), left);
        var name := CallFirst(First(left));
        fired := fired + [name];
        left := Rest(left);
      }
    }

    lemma FirstIsListed()
      requires Valid()
      ensures first == null <==> list == []
      ensures first != null ==> first.time == list[0].time
    {
    }
  }

  /** The list after its first k entries were looked at and n of them were kept. */
  ghost predicate Sifted(list: seq<Entry>, list0: seq<Entry>, k: nat, n: nat, cb: int, arg: int) {
    k <= |list0| && n == |Without(list0[..k], cb, arg)| && list == Without(list0[..k], cb, arg) + list0[k..]
  }

  lemma SiftedNone(list: seq<Entry>, cb: int, arg: int)
    ensures Sifted(list, list, 0, 0, cb, arg)
  {
  }

  lemma SiftedNext(list: seq<Entry>, list0: seq<Entry>, k: nat, n: nat, cb: int, arg: int)
    requires Sifted(list, list0, k, n, cb, arg) && n < |list|
    ensures k < |list0| && list[n] == list0[k]
    ensures if Matches(list[n], cb, arg) then Sifted(Sequences.Remove(list, n), list0, k + 1, n, cb, arg)
            else Sifted(list, list0, k + 1, n + 1, cb, arg)
  {
    assert Front(list0[..k + 1]) == list0[..k];
  }

  lemma SiftedAll(list: seq<Entry>, list0: seq<Entry>, k: nat, n: nat, cb: int, arg: int)
    requires Sifted(list, list0, k, n, cb, arg) && n == |list|
    ensures list == Without(list0, cb, arg)
  {
    assert list0[..k] == list0;
  }

  lemma LinkApart(live: seq<Timeout>, spare: seq<Timeout>, n: nat, t: Timeout)
    requires Distinct(live) && Apart(live, spare) && n <= |live| && t !in live && t !in spare
    ensures Distinct(Insert(live, n, t)) && Apart(Insert(live, n, t), spare)
  {
    var r := Insert(live, n, t);
    forall i | 0 <= i < |r| && i != n ensures r[i] == live[if i < n then i else i - 1] {}
  }

  lemma UnlinkApart(live: seq<Timeout>, spare: seq<Timeout>, n: nat)
    requires Distinct(live) && Distinct(spare) && Apart(live, spare) && n < |live|
    ensures Distinct(Sequences.Remove(live, n)) && Distinct([live[n]] + spare)
    ensures Apart(Sequences.Remove(live, n), [live[n]] + spare)
  {
    var r := Sequences.Remove(live, n);
    forall i | 0 <= i < |r| ensures r[i] == live[if i < n then i else i + 1] {}
  }
}
