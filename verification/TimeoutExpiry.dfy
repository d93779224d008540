/** The loop that calls what is due: what it calls and when it ends, if the callbacks leave the rest of what is
    due alone. */
module TimeoutExpiry {
  import opened Sequences
  import opened TimeoutRules

  type Name = (int, int)

  function NameOf(e: Entry): Name { (e.cb, e.arg) }

  /** The callbacks and arguments of the entries, without their times. */
  function Names(list: seq<Entry>): seq<Name> { seq(|list|, i requires 0 <= i < |list| => NameOf(list[i])) }

  /** The entries that are due. */
  function DuePart(list: seq<Entry>): seq<Entry> { list[..NotLater(list, 0.0)] }

  predicate AllEnabled(s: State, es: seq<Event>)
    decreases |es|
  {
    es == [] || (Enabled(s, es[0]) && AllEnabled(Step(s, es[0]), es[1..]))
  }

  function StepAll(s: State, es: seq<Event>): State
    requires AllEnabled(s, es)
    decreases |es|
  {
    if es == [] then s else StepAll(Step(s, es[0]), es[1..])
  }

  /** What the next callback does, and what those after it do; a callback that is not told does nothing. */
  function First(calls: seq<seq<Event>>): seq<Event> { if calls == [] then [] else calls[0] }

  function Rest(calls: seq<seq<Event>>): seq<seq<Event>> { if calls == [] then [] else calls[1..] }

  /** Every callback leaves due what was due after it was called, and makes nothing else due. */
  predicate Calm(s: State, calls: seq<seq<Event>>)
    decreases |DuePart(s.list)|
  {
    Due(s) ==>
      && AllEnabled(Fire(s), First(calls))
      && Names(DuePart(StepAll(Fire(s), First(calls)).list)) == Names(DuePart(s.list))[1..]
      && Calm(StepAll(Fire(s), First(calls)), Rest(calls))
  }

  /** The state when the loop has ended. */
  function Expired(s: State, calls: seq<seq<Event>>): State
    requires Calm(s, calls)
    decreases |DuePart(s.list)|
  {
    if !Due(s) then s else Expired(StepAll(Fire(s), First(calls)), Rest(calls))
  }

  /** The callbacks it has called, in order. */
  function Fired(s: State, calls: seq<seq<Event>>): seq<Name>
    requires Calm(s, calls)
    decreases |DuePart(s.list)|
  {
    if !Due(s) then [] else [NameOf(s.list[0])] + Fired(StepAll(Fire(s), First(calls)), Rest(calls))
  }

  lemma DueFirst(s: State)
    ensures Due(s) <==> DuePart(s.list) != []
    ensures Due(s) ==> Names(DuePart(s.list))[0] == NameOf(s.list[0])
  {
  }

  lemma {:induction false} StepAllKept(s: State, es: seq<Event>)
    requires Inv(s) && AllEnabled(s, es)
    ensures Inv(StepAll(s, es))
    decreases |es|
  {
    if es != [] {
      StepKept(s, es[0]);
      StepAllKept(Step(s, es[0]), es[1..]);
    }
  }

  /** The loop calls everything that was due, in the order of the list, and leaves nothing due. */
  lemma {:induction false} CallsAllDue(s: State, calls: seq<seq<Event>>)
    requires Calm(s, calls)
    ensures Fired(s, calls) == Names(DuePart(s.list)) && !Due(Expired(s, calls))
    ensures Inv(s) ==> Inv(Expired(s, calls)) && forall e :: e in Expired(s, calls).list ==> e.time > 0.0
    decreases |DuePart(s.list)|
  {
    DueFirst(s);
    if Due(s) {
      if Inv(s) {
        FiredIsFirst(s);
        StepAllKept(Fire(s), First(calls));
      }
      CallsAllDue(StepAll(Fire(s), First(calls)), Rest(calls));
      assert Names(DuePart(s.list)) == [Names(DuePart(s.list))[0]] + Names(DuePart(s.list))[1..];
    }
  }

  /** Called are the callbacks of the timeouts whose time has run out, each with its argument, in the order of the list;
      the rest of the list has time left. */
  lemma CalledAre(s: State, calls: seq<seq<Event>>)
    requires Inv(s) && Calm(s, calls)
    ensures var f := Fired(s, calls);
            && |f| <= |s.list|
            && (forall i :: 0 <= i < |f| ==> f[i] == (s.list[i].cb, s.list[i].arg) && s.list[i].time <= 0.0)
            && (forall i :: |f| <= i < |s.list| ==> s.list[i].time > 0.0)
  {
    CallsAllDue(s, calls);
    NotLaterSplits(s.list, 0.0);
  }

  /** Callbacks that do nothing with timeouts are calm. */
  lemma {:induction false} QuietIsCalm(s: State)
    requires Inv(s)
    ensures Calm(s, [])
    decreases |DuePart(s.list)|
  {
    if Due(s) {
      FiredIsFirst(s);
      assert DuePart(Fire(s).list) == DuePart(s.list)[1..];
      QuietIsCalm(Fire(s));
    }
  }

  lemma DueShrinks(s: State, calls: seq<seq<Event>>)
    requires Calm(s, calls) && Due(s)
    ensures AllEnabled(Fire(s), First(calls))
    ensures |DuePart(StepAll(Fire(s), First(calls)).list)| < |DuePart(s.list)|
  {
  }
}
