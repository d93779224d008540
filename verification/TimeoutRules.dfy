/** Timeouts on values: a list of callbacks sorted by the time left, what each operation does to it, and when a handler
    that repeats itself is due. */
module TimeoutRules {
  import opened Sequences

  /** A callback, its argument (0 for none), and the time left until it is due. */
  datatype Entry = Entry(time: real, cb: int, arg: int)

  /** prev is the last clock reading; reset says that the time since then does not count; missed is how late the last
      callback was, as a number that is not positive. */
  datatype State = State(prev: real, reset: bool, missed: real, list: seq<Entry>)

  // ---------------------------------------------------------------- the operations

  function Shift(list: seq<Entry>, d: real): seq<Entry> {
    seq(|list|, i requires 0 <= i < |list| => list[i].(time := list[i].time - d))
  }

  /** Read the clock and take the elapsed time off every timeout. */
  function Elapse(s: State, now: real): State {
    if s.reset then s.(prev := now, reset := false)
    else if now - s.prev > 0.0 then s.(prev := now, list := Shift(s.list, now - s.prev))
    else s.(prev := now)
  }

  /** How many entries, from the front, are not later than time. */
  function NotLater(list: seq<Entry>, time: real): (n: nat)
    ensures n <= |list| && forall i :: 0 <= i < n ==> list[i].time <= time
    ensures n < |list| ==> list[n].time > time
  {
    if list == [] || list[0].time > time then 0 else 1 + NotLater(list[1..], time)
  }

  function InsertSorted(list: seq<Entry>, e: Entry): seq<Entry> {
    Insert(list, NotLater(list, e.time), e)
  }

  /** The time a repeated timeout gets: corrected by the lateness of the last call, unless that is far in the past. */
  function Corrected(time: real, missed: real): real {
    if time + missed < -0.05 then 0.0 else time + missed
  }

  function Repeat(s: State, time: real, cb: int, arg: int): State {
    s.(list := InsertSorted(s.list, Entry(Corrected(time, s.missed), cb, arg)))
  }

  function Add(s: State, now: real, time: real, cb: int, arg: int): State {
    Repeat(Elapse(s, now), time, cb, arg)
  }

  predicate Matches(e: Entry, cb: int, arg: int) { e.cb == cb && (e.arg == arg || arg == 0) }

  function Without(list: seq<Entry>, cb: int, arg: int): seq<Entry> {
    if list == [] then []
    else Without(Front(list), cb, arg) + if Matches(Last(list), cb, arg) then [] else [Last(list)]
  }

  function Remove(s: State, cb: int, arg: int): State { s.(list := Without(s.list, cb, arg)) }

  predicate Has(list: seq<Entry>, cb: int, arg: int) {
    exists i :: 0 <= i < |list| && list[i].cb == cb && list[i].arg == arg
  }

  /** The start of a wait: the clock is only read when something may be due. */
  function BeginWait(s: State, now: real): State {
    if s.list != [] then Elapse(s, now) else s.(reset := true)
  }

  predicate Due(s: State) { s.list != [] && s.list[0].time <= 0.0 }

  /** The first timeout is taken off the list, before its callback is called. */
  function Fire(s: State): State
    requires Due(s)
  {
    s.(missed := s.list[0].time, list := s.list[1..])
  }

  // ---------------------------------------------------------------- order

  ghost predicate Sorted(list: seq<Entry>) { forall i, j :: 0 <= i < j < |list| ==> list[i].time <= list[j].time }

  ghost predicate Inv(s: State) { Sorted(s.list) && s.missed <= 0.0 }

  /** The new entry goes after all that are due no later and before all that are due later, which keep their order. */
  lemma InsertIsStable(list: seq<Entry>, e: Entry)
    requires Sorted(list)
    ensures Sorted(InsertSorted(list, e))
    ensures var n := NotLater(list, e.time);
            InsertSorted(list, e)[..n] == list[..n] && InsertSorted(list, e)[n + 1..] == list[n..]
            && InsertSorted(list, e)[n] == e && (forall i :: 0 <= i < |list| ==> (list[i].time <= e.time <==> i < n))
  {
    NotLaterSplits(list, e.time);
    InsertedSorted(list, e, NotLater(list, e.time));
  }

  lemma NotLaterSplits(list: seq<Entry>, time: real)
    requires Sorted(list)
    ensures forall i :: 0 <= i < |list| ==> (list[i].time <= time <==> i < NotLater(list, time))
  {
  }

  lemma InsertedSorted(list: seq<Entry>, e: Entry, n: nat)
    requires Sorted(list) && n <= |list|
    requires forall i :: 0 <= i < |list| ==> (list[i].time <= e.time <==> i < n)
    ensures Sorted(Insert(list, n, e))
  {
  }

  /** How often e stands in the list. */
  function Times(list: seq<Entry>, e: Entry): nat {
    if list == [] then 0 else Times(Front(list), e) + if Last(list) == e then 1 else 0
  }

  /** Exactly the matches are dropped: every other entry is left as often as it was. */
  lemma {:induction false} WithoutKeeps(list: seq<Entry>, cb: int, arg: int, e: Entry)
    ensures Times(Without(list, cb, arg), e) == if Matches(e, cb, arg) then 0 else Times(list, e)
  {
    if list != [] {
      WithoutKeeps(Front(list), cb, arg, e);
      var w := Without(Front(list), cb, arg);
      assert Front(w + [Last(list)]) == w && w + [] == w;
    }
  }

  /** Named are the entries of the callback, with the argument or, for argument 0, with any. */
  lemma RemovedAre(list: seq<Entry>, cb: int, arg: int, e: Entry)
    ensures Times(Without(list, cb, arg), e) == if e.cb == cb && (arg == 0 || e.arg == arg) then 0 else Times(list, e)
  {
    WithoutKeeps(list, cb, arg, e);
  }

  /** Afterwards a timeout is listed exactly when it was before and is not one of those. */
  lemma {:induction false} HasAfterRemove(list: seq<Entry>, cb: int, arg: int, c: int, a: int)
    ensures Has(Without(list, cb, arg), c, a) <==> Has(list, c, a) && !(c == cb && (arg == 0 || a == arg))
  {
    if list != [] {
      HasAfterRemove(Front(list), cb, arg, c, a);
      HasNext(Front(list), Last(list), c, a);
      HasNext(Without(Front(list), cb, arg), Last(list), c, a);
      assert Front(list) + [Last(list)] == list;
      assert Without(Front(list), cb, arg) + [] == Without(Front(list), cb, arg);
    }
  }

  lemma HasNext(list: seq<Entry>, e: Entry, c: int, a: int)
    ensures Has(list + [e], c, a) <==> Has(list, c, a) || (e.cb == c && e.arg == a)
  {
    if Has(list, c, a) {
      var i :| 0 <= i < |list| && list[i].cb == c && list[i].arg == a;
      assert (list + [e])[i] == list[i];
    }
    if e.cb == c && e.arg == a { assert (list + [e])[|list|] == e; }
  }

  lemma {:induction false} WithoutSorted(list: seq<Entry>, cb: int, arg: int)
    requires Sorted(list)
    ensures Sorted(Without(list, cb, arg))
    ensures forall i :: 0 <= i < |Without(list, cb, arg)| ==>
      list != [] && Without(list, cb, arg)[i].time <= Last(list).time
  {
    if list != [] {
      var front, w := Front(list), Without(Front(list), cb, arg);
      assert Sorted(front) by { assert forall i :: 0 <= i < |front| ==> front[i] == list[i]; }
      WithoutSorted(front, cb, arg);
      assert front != [] ==> Last(front).time <= Last(list).time;
      AppendSorted(w, Last(list));
    }
  }

  lemma AppendSorted(list: seq<Entry>, e: Entry)
    requires Sorted(list) && forall i :: 0 <= i < |list| ==> list[i].time <= e.time
    ensures Sorted(list + [e])
  {
  }

  /** A reading of the clock takes the time since the last one off every timeout, unless the clock was paused or
      has gone back. */
  lemma ReadingTakes(s: State, now: real)
    ensures var d := Elapse(s, now);
            && d.prev == now && !d.reset && d.missed == s.missed && |d.list| == |s.list|
            && forall i :: 0 <= i < |s.list| ==>
              d.list[i] == Entry(s.list[i].time - (if s.reset || now < s.prev then 0.0 else now - s.prev),
                s.list[i].cb, s.list[i].arg)
  {
  }

  /** When a wait begins on a running clock, something is due exactly when the moment of the first timeout has come. */
  lemma WaitMakesDue(s: State, now: real)
    requires !s.reset && now >= s.prev
    ensures Due(BeginWait(s, now)) <==> s.list != [] && s.prev + s.list[0].time <= now
    ensures BeginWait(s, now).reset <==> s.list == []
  {
  }

  /** A timeout that fires is due, and none is due earlier. */
  lemma FiredIsFirst(s: State)
    requires Inv(s) && Due(s)
    ensures s.list[0].time <= 0.0 && forall e :: e in Fire(s).list ==> s.list[0].time <= e.time
    ensures Inv(Fire(s))
  {
  }

  // ---------------------------------------------------------------- whole runs

  datatype Event =
    | Waiting(now: real)
    | Firing
    | Repeating(time: real, cb: int, arg: int)
    | Adding(now: real, time: real, cb: int, arg: int)
    | Removing(cb: int, arg: int)

  predicate Enabled(s: State, e: Event) { e == Firing ==> Due(s) }

  function Step(s: State, e: Event): State
    requires Enabled(s, e)
  {
    match e
    case Waiting(now) => BeginWait(s, now)
    case Firing => Fire(s)
    case Repeating(time, cb, arg) => Repeat(s, time, cb, arg)
    case Adding(now, time, cb, arg) => Add(s, now, time, cb, arg)
    case Removing(cb, arg) => Remove(s, cb, arg)
  }

  /** Elapsing keeps the order. */
  lemma ElapseSorted(s: State, now: real)
    requires Sorted(s.list)
    ensures Sorted(Elapse(s, now).list) && Elapse(s, now).missed == s.missed
  {
  }

  lemma StepKept(s: State, e: Event)
    requires Inv(s) && Enabled(s, e)
    ensures Inv(Step(s, e))
  {
    match e
    case Waiting(now) => ElapseSorted(s, now);
    case Firing => FiredIsFirst(s);
    case Repeating(time, cb, arg) => InsertIsStable(s.list, Entry(Corrected(time, s.missed), cb, arg));
    case Adding(now, time, cb, arg) =>
      ElapseSorted(s, now);
      InsertIsStable(Elapse(s, now).list, Entry(Corrected(time, s.missed), cb, arg));
    case Removing(cb, arg) => WithoutSorted(s.list, cb, arg);
  }
}
