/** When a handler that repeats itself is due: what every call, clock reading and callback does to that moment. */
module TimeoutPace {
  import opened Sequences
  import opened TimeoutRules

  /** Where the only entry of callback cb with argument arg stands. */
  ghost predicate OnlyAt(list: seq<Entry>, cb: int, arg: int, i: int) {
    0 <= i < |list| && forall j :: 0 <= j < |list| ==> ((list[j].cb == cb && list[j].arg == arg) <==> j == i)
  }

  ghost predicate NotListed(list: seq<Entry>, cb: int, arg: int) {
    forall j :: 0 <= j < |list| ==> !(list[j].cb == cb && list[j].arg == arg)
  }

  /** It is due at the given moment of the clock, counted from the last reading. */
  ghost predicate DueAt(s: State, cb: int, arg: int, moment: real) {
    exists i :: OnlyAt(s.list, cb, arg, i) && s.prev + s.list[i].time == moment
  }

  /** There is at most one such moment. */
  lemma DueOnce(s: State, cb: int, arg: int, moment: real, moment': real)
    requires DueAt(s, cb, arg, moment) && DueAt(s, cb, arg, moment')
    ensures moment == moment'
  {
  }

  lemma OffBy(s: State, cb: int, arg: int, moment: real, d: real)
    requires DueAt(s, cb, arg, moment + d)
    ensures DueAt(s, cb, arg, moment) <==> d == 0.0
  {
    if DueAt(s, cb, arg, moment) { DueOnce(s, cb, arg, moment, moment + d); }
  }

  // ---------------------------------------------------------------- one call

  /** By how much a reading of the clock moves what is listed: time that passed during a pause does not count, and
      a clock that was set back takes everything with it. */
  function Moved(s: State, now: real): real {
    if s.reset || now < s.prev then now - s.prev else 0.0
  }

  function ClockSlip(s: State, e: Event): real {
    match e
    case Waiting(now) => if s.list == [] then 0.0 else Moved(s, now)
    case Adding(now, _, _, _) => Moved(s, now)
    case _ => 0.0
  }

  /** What may happen beside the handler: clock readings, and other timeouts that come, go and fire. */
  predicate Aside(s: State, e: Event, cb: int, arg: int) {
    match e
    case Waiting(_) => true
    case Firing => Due(s) && !(s.list[0].cb == cb && s.list[0].arg == arg)
    case Repeating(_, c, a) => !(c == cb && a == arg)
    case Adding(_, _, c, a) => !(c == cb && a == arg)
    case Removing(c, a) => !Matches(Entry(0.0, cb, arg), c, a)
  }

  /** Beside the handler only the clock changes the moment it is due. */
  lemma AsideMovesDue(s: State, e: Event, cb: int, arg: int, moment: real)
    requires DueAt(s, cb, arg, moment) && Aside(s, e, cb, arg)
    ensures DueAt(Step(s, e), cb, arg, moment + ClockSlip(s, e))
  {
    var i :| OnlyAt(s.list, cb, arg, i) && s.prev + s.list[i].time == moment;
    match e
    case Waiting(now) => ElapseMovesDue(s, now, cb, arg, i);
    case Firing => assert OnlyAt(Fire(s).list, cb, arg, i - 1);
    case Repeating(time, c, a) => RepeatKeepsDue(s, time, c, a, cb, arg, moment);
    case Adding(now, time, c, a) =>
      ElapseMovesDue(s, now, cb, arg, i);
      RepeatKeepsDue(Elapse(s, now), time, c, a, cb, arg, moment + ClockSlip(s, e));
    case Removing(c, a) =>
      var i' := WithoutKeepsOnly(s.list, c, a, cb, arg, i);
  }

  /** The moment stays exactly when no reading moves it. */
  lemma AsideKeepsDue(s: State, e: Event, cb: int, arg: int, moment: real)
    requires DueAt(s, cb, arg, moment) && Aside(s, e, cb, arg)
    ensures DueAt(Step(s, e), cb, arg, moment) <==> ClockSlip(s, e) == 0.0
  {
    AsideMovesDue(s, e, cb, arg, moment);
    OffBy(Step(s, e), cb, arg, moment, ClockSlip(s, e));
  }

  lemma RepeatKeepsDue(s: State, time: real, c: int, a: int, cb: int, arg: int, moment: real)
    requires DueAt(s, cb, arg, moment) && !(c == cb && a == arg)
    ensures DueAt(Repeat(s, time, c, a), cb, arg, moment)
  {
    var i :| OnlyAt(s.list, cb, arg, i) && s.prev + s.list[i].time == moment;
    InsertKeepsOnly(s.list, Entry(Corrected(time, s.missed), c, a), cb, arg, i);
  }

  lemma ElapseMovesDue(s: State, now: real, cb: int, arg: int, i: int)
    requires OnlyAt(s.list, cb, arg, i)
    ensures var s' := Elapse(s, now);
            OnlyAt(s'.list, cb, arg, i) && s'.prev + s'.list[i].time == s.prev + s.list[i].time + Moved(s, now)
  {
  }

  lemma InsertKeepsOnly(list: seq<Entry>, e: Entry, cb: int, arg: int, i: int)
    requires OnlyAt(list, cb, arg, i) && !(e.cb == cb && e.arg == arg)
    ensures var n := NotLater(list, e.time); var i' := if i < n then i else i + 1;
            OnlyAt(InsertSorted(list, e), cb, arg, i') && InsertSorted(list, e)[i'] == list[i]
  {
    var n := NotLater(list, e.time);
    var r := InsertSorted(list, e);
    forall j | 0 <= j < |r| ensures r[j] == (if j < n then list[j] else if j == n then e else list[j - 1]) {}
  }

  lemma {:induction false} WithoutKeepsOnly(list: seq<Entry>, c: int, a: int, cb: int, arg: int, i: int)
    returns (i': int)
    requires OnlyAt(list, cb, arg, i) && !Matches(Entry(0.0, cb, arg), c, a)
    ensures OnlyAt(Without(list, c, a), cb, arg, i') && Without(list, c, a)[i'] == list[i]
  {
    var front := Front(list);
    assert forall j :: 0 <= j < |front| ==> front[j] == list[j];
    if i == |list| - 1 {
      NoneLeft(front, c, a, cb, arg);
      i' := |Without(front, c, a)|;
    } else {
      i' := WithoutKeepsOnly(front, c, a, cb, arg, i);
    }
  }

  lemma {:induction false} NoneLeft(list: seq<Entry>, c: int, a: int, cb: int, arg: int)
    requires forall j :: 0 <= j < |list| ==> !(list[j].cb == cb && list[j].arg == arg)
    ensures forall j :: 0 <= j < |Without(list, c, a)| ==>
      !(Without(list, c, a)[j].cb == cb && Without(list, c, a)[j].arg == arg)
  {
    if list != [] { NoneLeft(Front(list), c, a, cb, arg); }
  }

  /** A handler that is not listed is not brought in by anything beside it. */
  lemma AsideKeepsAway(s: State, e: Event, cb: int, arg: int)
    requires NotListed(s.list, cb, arg) && Aside(s, e, cb, arg)
    ensures NotListed(Step(s, e).list, cb, arg)
  {
    match e
    case Waiting(_) =>
    case Firing =>
    case Repeating(time, c, a) => InsertKeepsAway(s.list, Entry(Corrected(time, s.missed), c, a), cb, arg);
    case Adding(now, time, c, a) =>
      InsertKeepsAway(Elapse(s, now).list, Entry(Corrected(time, s.missed), c, a), cb, arg);
    case Removing(c, a) => NoneLeft(s.list, c, a, cb, arg);
  }

  lemma InsertKeepsAway(list: seq<Entry>, e: Entry, cb: int, arg: int)
    requires NotListed(list, cb, arg) && !(e.cb == cb && e.arg == arg)
    ensures NotListed(InsertSorted(list, e), cb, arg)
  {
    var n, r := NotLater(list, e.time), InsertSorted(list, e);
    forall j | 0 <= j < |r| ensures r[j] == (if j < n then list[j] else if j == n then e else list[j - 1]) {}
  }

  /** A timeout that is put in is due after its corrected time, counted from the last reading. */
  lemma RepeatedDue(s: State, time: real, cb: int, arg: int)
    requires NotListed(s.list, cb, arg)
    ensures DueAt(Repeat(s, time, cb, arg), cb, arg, s.prev + Corrected(time, s.missed))
  {
    var e := Entry(Corrected(time, s.missed), cb, arg);
    var n, r := NotLater(s.list, e.time), InsertSorted(s.list, e);
    forall j | 0 <= j < |r| ensures r[j] == (if j < n then s.list[j] else if j == n then e else s.list[j - 1]) {}
    assert OnlyAt(r, cb, arg, n);
  }

  /** A new timeout is due after its time exactly when the last callback was called on time; the lateness of that
      callback is taken off any later timeout too, until it is clamped. */
  lemma AddedDue(s: State, now: real, time: real, cb: int, arg: int)
    requires NotListed(s.list, cb, arg)
    ensures DueAt(Add(s, now, time, cb, arg), cb, arg, now + time)
            <==> if time + s.missed < -0.05 then time == 0.0 else s.missed == 0.0
  {
    var t := Elapse(s, now);
    RepeatedDue(t, time, cb, arg);
    OffBy(Add(s, now, time, cb, arg), cb, arg, now + time, Corrected(time, s.missed) - time);
  }

  lemma FiredAway(s: State, cb: int, arg: int, moment: real)
    requires DueAt(s, cb, arg, moment) && Due(s) && s.list[0].cb == cb && s.list[0].arg == arg
    ensures NotListed(Fire(s).list, cb, arg) && s.prev + s.list[0].time == moment
  {
  }

  /** The handler fires and calls repeat_timeout(period) first of all: it is due again one period after it was
      due, however late the call came, unless even that moment is more than 0.05 past. */
  lemma RepeatKeepsPace(s: State, cb: int, arg: int, moment: real, period: real)
    requires DueAt(s, cb, arg, moment) && Due(s) && s.list[0].cb == cb && s.list[0].arg == arg
    ensures s.list[0].time == moment - s.prev
    ensures DueAt(Repeat(Fire(s), period, cb, arg), cb, arg,
                  if moment + period - s.prev >= -0.05 then moment + period else s.prev)
  {
    FiredAway(s, cb, arg, moment);
    RepeatedDue(Fire(s), period, cb, arg);
  }

  /** If it adds another timeout first, that reads the clock, and the handler is late by what the clock has moved on. */
  lemma AddingFirstDrifts(s: State, cb: int, arg: int, moment: real, period: real, now: real, time: real, c: int,
    a: int)
    requires DueAt(s, cb, arg, moment) && Due(s) && s.list[0].cb == cb && s.list[0].arg == arg
    requires moment + period - s.prev >= -0.05 && !(c == cb && a == arg)
    ensures DueAt(Repeat(Add(Fire(s), now, time, c, a), period, cb, arg), cb, arg, moment + period + (now - s.prev))
  {
    FiredAway(s, cb, arg, moment);
    AsideKeepsAway(Fire(s), Adding(now, time, c, a), cb, arg);
    RepeatedDue(Add(Fire(s), now, time, c, a), period, cb, arg);
  }

  // ---------------------------------------------------------------- whole runs

  /** The handler is on the list, or its callback has been called and has not repeated it yet; moment is when it is, or
      was, due. */
  datatype Mark = Listed(moment: real) | Called(moment: real)

  ghost predicate Stands(s: State, m: Mark, cb: int, arg: int) {
    match m
    case Listed(t) => DueAt(s, cb, arg, t)
    case Called(_) => NotListed(s.list, cb, arg)
  }

  /** FireSelf starts the handler's callback, RepeatSelf is its repeat_timeout; anything else may happen in between. */
  datatype Act = Other(event: Event) | FireSelf | RepeatSelf

  predicate CanAct(s: State, m: Mark, a: Act, cb: int, arg: int) {
    match a
    case Other(e) => Aside(s, e, cb, arg)
    case FireSelf => m.Listed? && Due(s) && s.list[0].cb == cb && s.list[0].arg == arg
    case RepeatSelf => m.Called?
  }

  function Acted(s: State, m: Mark, a: Act, cb: int, arg: int, period: real): State
    requires CanAct(s, m, a, cb, arg)
  {
    match a
    case Other(e) => Step(s, e)
    case FireSelf => Fire(s)
    case RepeatSelf => Repeat(s, period, cb, arg)
  }

  /** The lateness of the last call is so great that even the next moment is more than 0.05 past. */
  predicate TooLate(s: State, period: real) { period + s.missed < -0.05 }

  /** By how much an act moves the handler off its pace. A repetition counts on the lateness of the last call at
      the last reading; if that is not when the handler was due, because its callback read the clock or let another
      timeout fire, the difference is lost. */
  function Slip(s: State, m: Mark, a: Act, period: real): real {
    match a
    case Other(e) => if m.Listed? then ClockSlip(s, e) else 0.0
    case FireSelf => 0.0
    case RepeatSelf => if TooLate(s, period) then s.prev - (m.moment + period) else s.prev + s.missed - m.moment
  }

  function MarkAfter(s: State, m: Mark, a: Act, period: real): Mark {
    match a
    case Other(_) => m.(moment := m.moment + Slip(s, m, a, period))
    case FireSelf => Called(m.moment)
    case RepeatSelf => Listed(m.moment + period + Slip(s, m, a, period))
  }

  predicate CanRun(s: State, m: Mark, acts: seq<Act>, cb: int, arg: int, period: real)
    decreases |acts|
  {
    acts == []
    || (&& CanAct(s, m, acts[0], cb, arg)
        && CanRun(Acted(s, m, acts[0], cb, arg, period), MarkAfter(s, m, acts[0], period), acts[1..], cb, arg, period))
  }

  function Run(s: State, m: Mark, acts: seq<Act>, cb: int, arg: int, period: real): State
    requires CanRun(s, m, acts, cb, arg, period)
    decreases |acts|
  {
    if acts == [] then s
    else Run(Acted(s, m, acts[0], cb, arg, period), MarkAfter(s, m, acts[0], period), acts[1..], cb, arg, period)
  }

  function RunMark(s: State, m: Mark, acts: seq<Act>, cb: int, arg: int, period: real): Mark
    requires CanRun(s, m, acts, cb, arg, period)
    decreases |acts|
  {
    if acts == [] then m
    else RunMark(Acted(s, m, acts[0], cb, arg, period), MarkAfter(s, m, acts[0], period), acts[1..], cb, arg, period)
  }

  function Slips(s: State, m: Mark, acts: seq<Act>, cb: int, arg: int, period: real): real
    requires CanRun(s, m, acts, cb, arg, period)
    decreases |acts|
  {
    if acts == [] then 0.0
    else
      Slip(s, m, acts[0], period)
      + Slips(Acted(s, m, acts[0], cb, arg, period), MarkAfter(s, m, acts[0], period), acts[1..], cb, arg, period)
  }

  function Repetitions(acts: seq<Act>): nat
    decreases |acts|
  {
    if acts == [] then 0 else (if acts[0] == RepeatSelf then 1 else 0) + Repetitions(acts[1..])
  }

  lemma ActStands(s: State, m: Mark, a: Act, cb: int, arg: int, period: real)
    requires Stands(s, m, cb, arg) && CanAct(s, m, a, cb, arg)
    ensures Stands(Acted(s, m, a, cb, arg, period), MarkAfter(s, m, a, period), cb, arg)
  {
    match a
    case Other(e) =>
      if m.Listed? { AsideMovesDue(s, e, cb, arg, m.moment); } else { AsideKeepsAway(s, e, cb, arg); }
    case FireSelf => FiredAway(s, cb, arg, m.moment);
    case RepeatSelf => RepeatedDue(s, period, cb, arg);
  }

  lemma MarkMoves(s: State, m: Mark, a: Act, period: real)
    ensures MarkAfter(s, m, a, period).moment
         == m.moment + (if a == RepeatSelf then period else 0.0) + Slip(s, m, a, period)
  {
  }

  lemma OneMore(n: nat, period: real)
    ensures (n + 1) as real * period == n as real * period + period
  {
    assert (n + 1) as real == n as real + 1.0;
  }

  /** After any run with n repetitions the handler stands where its mark says, and the moment of the mark is n
      periods after the first one, give or take the slips. */
  lemma {:induction false} Pace(s: State, m: Mark, acts: seq<Act>, cb: int, arg: int, period: real, n: nat)
    requires Stands(s, m, cb, arg) && CanRun(s, m, acts, cb, arg, period) && n == Repetitions(acts)
    ensures Stands(Run(s, m, acts, cb, arg, period), RunMark(s, m, acts, cb, arg, period), cb, arg)
    ensures RunMark(s, m, acts, cb, arg, period).moment
         == m.moment + n as real * period + Slips(s, m, acts, cb, arg, period)
    decreases |acts|
  {
    hide Stands, CanAct, Acted, Slip, MarkAfter;
    if acts != [] {
      var n' := Repetitions(acts[1..]);
      MarkMoves(s, m, acts[0], period);
      ActStands(s, m, acts[0], cb, arg, period);
      Pace(Acted(s, m, acts[0], cb, arg, period), MarkAfter(s, m, acts[0], period), acts[1..], cb, arg, period, n');
      OneMore(n', period);
      assert n as real * period == n' as real * period + if acts[0] == RepeatSelf then period else 0.0;
    }
  }

  // ---------------------------------------------------------------- when nothing is lost

  /** The clock is not set back, and no timeout is asked for with a negative time. */
  predicate Forward(s: State, a: Act) {
    match a
    case Other(Waiting(now)) => now >= s.prev
    case Other(Adding(now, time, _, _)) => now >= s.prev && time >= 0.0
    case Other(Repeating(time, _, _)) => time >= 0.0
    case _ => true
  }

  predicate AllForward(s: State, m: Mark, acts: seq<Act>, cb: int, arg: int, period: real)
    requires CanRun(s, m, acts, cb, arg, period)
    decreases |acts|
  {
    acts == []
    || (&& Forward(s, acts[0])
        && AllForward(Acted(s, m, acts[0], cb, arg, period), MarkAfter(s, m, acts[0], period), acts[1..], cb, arg,
          period))
  }

  /** No reading after a pause moves the handler while it is listed, and it repeats itself not too late and while
      the last call still counts from the moment it was due. */
  predicate KeepsPace(s: State, m: Mark, a: Act, period: real) {
    match a
    case Other(Waiting(now)) => m.Listed? && s.reset && s.list != [] ==> now == s.prev
    case Other(Adding(now, _, _, _)) => m.Listed? && s.reset ==> now == s.prev
    case RepeatSelf => !TooLate(s, period) && s.prev + s.missed == m.moment
    case _ => true
  }

  predicate OnPace(s: State, m: Mark, acts: seq<Act>, cb: int, arg: int, period: real)
    requires CanRun(s, m, acts, cb, arg, period)
    decreases |acts|
  {
    acts == []
    || (&& KeepsPace(s, m, acts[0], period)
        && OnPace(Acted(s, m, acts[0], cb, arg, period), MarkAfter(s, m, acts[0], period), acts[1..], cb, arg, period))
  }

  /** While the callback runs, neither the last call nor anything on the list was due before the handler. */
  ghost predicate Behind(s: State, m: Mark) {
    m.Called? ==>
      && s.prev >= m.moment && s.prev + s.missed >= m.moment
      && forall i :: 0 <= i < |s.list| ==> s.prev + s.list[i].time >= m.moment
  }

  lemma {:induction false} WithoutIn(list: seq<Entry>, cb: int, arg: int)
    ensures forall e :: e in Without(list, cb, arg) ==> e in list
  {
    if list != [] { WithoutIn(Front(list), cb, arg); }
  }

  lemma BehindKept(s: State, m: Mark, a: Act, cb: int, arg: int, period: real)
    requires Inv(s) && Behind(s, m) && Stands(s, m, cb, arg) && CanAct(s, m, a, cb, arg) && Forward(s, a)
    ensures Inv(Acted(s, m, a, cb, arg, period))
    ensures Behind(Acted(s, m, a, cb, arg, period), MarkAfter(s, m, a, period))
  {
    match a
    case Other(e) =>
      StepKept(s, e);
      if m.Called? { OtherBehind(s, m, e); }
    case FireSelf =>
      FiredIsFirst(s);
      FiredAway(s, cb, arg, m.moment);
    case RepeatSelf => StepKept(s, Repeating(period, cb, arg));
  }

  lemma OtherBehind(s: State, m: Mark, e: Event)
    requires Behind(s, m) && m.Called? && Enabled(s, e) && Forward(s, Other(e)) && s.missed <= 0.0
    ensures Behind(Step(s, e), m)
  {
    match e
    case Waiting(now) => ElapseBehind(s, m, now);
    case Firing =>
    case Repeating(time, cb, arg) => InsertBehind(s, m, time, cb, arg);
    case Adding(now, time, cb, arg) =>
      ElapseBehind(s, m, now);
      InsertBehind(Elapse(s, now), m, time, cb, arg);
    case Removing(cb, arg) =>
      WithoutIn(s.list, cb, arg);
      assert forall i :: 0 <= i < |Without(s.list, cb, arg)| ==> Without(s.list, cb, arg)[i] in s.list;
  }

  lemma ElapseBehind(s: State, m: Mark, now: real)
    requires Behind(s, m) && now >= s.prev
    ensures Behind(Elapse(s, now), m)
  {
  }

  lemma InsertBehind(s: State, m: Mark, time: real, cb: int, arg: int)
    requires Behind(s, m) && time >= 0.0
    ensures Behind(Repeat(s, time, cb, arg), m)
  {
    var e := Entry(Corrected(time, s.missed), cb, arg);
    var n, r := NotLater(s.list, e.time), InsertSorted(s.list, e);
    forall j | 0 <= j < |r| ensures r[j] == (if j < n then s.list[j] else if j == n then e else s.list[j - 1]) {}
  }

  /** Going forward an act never moves the handler ahead of its pace, and leaves it there exactly when it keeps pace. */
  lemma SlipIsLoss(s: State, m: Mark, a: Act, period: real)
    requires Behind(s, m) && Forward(s, a) && (a == RepeatSelf ==> m.Called?)
    ensures Slip(s, m, a, period) >= 0.0
    ensures Slip(s, m, a, period) == 0.0 <==> KeepsPace(s, m, a, period)
  {
  }

  lemma {:induction false} SlipsAddUp(s: State, m: Mark, acts: seq<Act>, cb: int, arg: int, period: real)
    requires Inv(s) && Behind(s, m) && Stands(s, m, cb, arg)
    requires CanRun(s, m, acts, cb, arg, period) && AllForward(s, m, acts, cb, arg, period)
    ensures Slips(s, m, acts, cb, arg, period) >= 0.0
    ensures Slips(s, m, acts, cb, arg, period) == 0.0 <==> OnPace(s, m, acts, cb, arg, period)
    decreases |acts|
  {
    hide Inv, Behind, Stands, Acted, MarkAfter, Slip, KeepsPace, Forward;
    if acts != [] {
      SlipIsLoss(s, m, acts[0], period);
      BehindKept(s, m, acts[0], cb, arg, period);
      ActStands(s, m, acts[0], cb, arg, period);
      SlipsAddUp(Acted(s, m, acts[0], cb, arg, period), MarkAfter(s, m, acts[0], period), acts[1..], cb, arg, period);
    }
  }

  /** A listed handler that repeats itself n times in a run that goes forward is due exactly n periods later if
      and only if every act keeps pace. */
  lemma NoDrift(s: State, moment: real, acts: seq<Act>, cb: int, arg: int, period: real, n: nat)
    requires Inv(s) && DueAt(s, cb, arg, moment) && n == Repetitions(acts)
    requires CanRun(s, Listed(moment), acts, cb, arg, period)
    requires AllForward(s, Listed(moment), acts, cb, arg, period)
    ensures var m := RunMark(s, Listed(moment), acts, cb, arg, period);
            && (m.moment == moment + n as real * period <==> OnPace(s, Listed(moment), acts, cb, arg, period))
            && (m.Listed? ==>
                  (DueAt(Run(s, Listed(moment), acts, cb, arg, period), cb, arg, moment + n as real * period)
                   <==> OnPace(s, Listed(moment), acts, cb, arg, period)))
  {
    hide CanRun, Run, RunMark, Repetitions, Slips, OnPace, AllForward;
    var slips := Slips(s, Listed(moment), acts, cb, arg, period);
    Pace(s, Listed(moment), acts, cb, arg, period, n);
    SlipsAddUp(s, Listed(moment), acts, cb, arg, period);
    if RunMark(s, Listed(moment), acts, cb, arg, period).Listed? {
      OffBy(Run(s, Listed(moment), acts, cb, arg, period), cb, arg, moment + n as real * period, slips);
    }
  }
}
