/** The emulator and the audio thread as a state machine over their atomic steps, and what becomes of every frame. */
module AudioProtocol {
  import opened Sequences
  import opened AudioRing

  /** What became of a frame that has left the partial buffer and the ring. */
  datatype Fate = Delivered | InHand | Dropped

  datatype Entry = Entry(frame: Frame, fate: Fate)

  /** Closing: the last frames are flushed. Draining: the thread is asked to stop and waited for, by a close or by
      an open. */
  datatype Phase = Closed | Playing | Closing | Draining

  /** Where the audio thread is: before its locked region, or after it with the exit decision it took there. */
  datatype Thread = NoThread | AtLock | Took(leave: bool) | Done

  /** buffer, ring and hand hold frames; generated, log and written record the history of the session. */
  datatype Sys = Sys(
    phase: Phase, thread: Thread, exit: bool,
    buffer: seq<Frame>, ring: seq<Frame>, hand: seq<Frame>,
    generated: seq<Frame>, log: seq<Entry>, written: seq<Frame>)

  /** Reopen is an open while a session runs: it stops the thread without flushing the partial buffer first. */
  datatype Event = Open(threadOk: bool) | Emit(frame: Frame) | Flush | CloseFlush
    | RequestExit | Reopen | Join | ThreadStep

  // ---------------------------------------------------------------- the steps

  function Marked(s: seq<Frame>, fate: Fate): seq<Entry> { seq(|s|, i requires 0 <= i < |s| => Entry(s[i], fate)) }

  function FramesIn(log: seq<Entry>): seq<Frame> { seq(|log|, i requires 0 <= i < |log| => log[i].frame) }

  /** The frames with the given fate, in order. */
  function Pick(log: seq<Entry>, fate: Fate): seq<Frame> {
    if log == [] then []
    else Pick(Front(log), fate) + if Last(log).fate == fate then [Last(log).frame] else []
  }

  /** The frames in the thread's hand are written. */
  function Settled(log: seq<Entry>): seq<Entry> {
    seq(|log|, i requires 0 <= i < |log| => if log[i].fate == InHand then log[i].(fate := Delivered) else log[i])
  }

  function Started(threadOk: bool): Sys {
    Sys(Playing, if threadOk then AtLock else NoThread, false, [], [], [], [], [], [])
  }

  /** Hand the partial buffer over: to the ring, which forgets what does not fit, or straight to the device. */
  function Flushed(s: Sys): Sys {
    if s.thread == NoThread then
      s.(buffer := [], written := s.written + s.buffer, log := s.log + Marked(s.buffer, Delivered))
    else
      var all := s.ring + s.buffer;
      var kept := LastN(all, RING_FRAMES);
      s.(buffer := [], ring := kept, log := s.log + Marked(all[..|all| - |kept|], Dropped))
  }

  /** The locked region of the thread: take frames, and decide whether to leave. */
  function Taken(s: Sys): Sys {
    var n := if |s.ring| < BUFFER_FRAMES then |s.ring| else BUFFER_FRAMES;
    s.(hand := s.ring[..n], ring := s.ring[n..], log := s.log + Marked(s.ring[..n], InHand),
       thread := Took(s.exit && n == |s.ring|))
  }

  /** After the locked region: write what was taken, or leave, or sleep and try again. */
  function Acted(s: Sys): Sys {
    if s.hand != [] then s.(hand := [], written := s.written + s.hand, log := Settled(s.log), thread := AtLock)
    else if s.thread == Took(true) then s.(thread := Done)
    else s.(thread := AtLock)
  }

  function ThreadStepped(s: Sys): Sys {
    match s.thread
    case AtLock => Taken(s)
    case Took(_) => Acted(s)
    case _ => s
  }

  predicate Enabled(s: Sys, e: Event) {
    match e
    case Open(_) => s.phase == Closed
    case Emit(_) => s.phase == Playing && |s.buffer| < BUFFER_FRAMES
    case Flush => s.phase == Playing && |s.buffer| == BUFFER_FRAMES
    case CloseFlush => s.phase == Playing && |s.buffer| < BUFFER_FRAMES
    case RequestExit => s.phase == Closing
    case Reopen => s.phase == Playing && |s.buffer| < BUFFER_FRAMES
    case Join => s.phase == Draining && (s.thread == NoThread || s.thread == Done)
    case ThreadStep => s.thread == AtLock || s.thread.Took?
  }

  function Leaving(s: Sys): Sys { s.(phase := Draining, exit := s.thread != NoThread) }

  /** The thread has ended; frames still in the partial buffer are forgotten. */
  function Joined(s: Sys): Sys {
    s.(phase := Closed, thread := NoThread, buffer := [], log := s.log + Marked(s.buffer, Dropped))
  }

  function Step(s: Sys, e: Event): Sys {
    match e
    case Open(ok) => Started(ok)
    case Emit(f) => s.(buffer := s.buffer + [f], generated := s.generated + [f])
    case Flush => Flushed(s)
    case CloseFlush => (if s.buffer == [] then s else Flushed(s)).(phase := Closing)
    case RequestExit => Leaving(s)
    case Reopen => Leaving(s)
    case Join => Joined(s)
    case ThreadStep => ThreadStepped(s)
  }

  // ---------------------------------------------------------------- the invariant

  /** Delivered frames come before those in hand. */
  ghost predicate Ordered(log: seq<Entry>) {
    forall i, j :: 0 <= i < j < |log| && log[i].fate == InHand ==> log[j].fate != Delivered
  }

  /** Every generated frame, in order: the ones that left the ring with their fates, the ring, the partial buffer. */
  ghost predicate Accounted(s: Sys) {
    && FramesIn(s.log) + s.ring + s.buffer == s.generated
    && Pick(s.log, Delivered) == s.written && Pick(s.log, InHand) == s.hand
    && Ordered(s.log)
  }

  ghost predicate Control(s: Sys) {
    && |s.ring| <= RING_FRAMES && |s.buffer| <= BUFFER_FRAMES && |s.hand| <= BUFFER_FRAMES
    && (s.hand != [] ==> s.thread.Took?)
    && (s.exit ==> s.phase == Draining || s.phase == Closed)
    && (s.phase == Draining && s.thread != NoThread ==> s.exit)
    && (s.phase == Closing || s.phase == Closed ==> s.buffer == [])
    && (s.thread == Took(true) || s.thread == Done ==> s.ring == [] && s.exit)
    && (s.thread == NoThread ==> s.ring == [])
    && (s.phase == Closed ==> s.thread == NoThread)
  }

  ghost predicate Inv(s: Sys) { Accounted(s) && Control(s) }

  lemma {:induction false} PickConcat(a: seq<Entry>, b: seq<Entry>, fate: Fate)
    ensures Pick(a + b, fate) == Pick(a, fate) + Pick(b, fate)
  {
    if b == [] {
      assert a + b == a;
    } else {
      PickConcat(a, Front(b), fate);
      assert Front(a + b) == a + Front(b) && Last(a + b) == Last(b);
    }
  }

  lemma {:induction false} PickMarked(s: seq<Frame>, fate: Fate, wanted: Fate)
    ensures Pick(Marked(s, fate), wanted) == if fate == wanted then s else []
  {
    if s != [] {
      PickMarked(Front(s), fate, wanted);
      assert Front(Marked(s, fate)) == Marked(Front(s), fate);
      assert Last(Marked(s, fate)) == Entry(Last(s), fate) && s == Front(s) + [Last(s)];
    }
  }

  /** Nothing is in hand. */
  lemma {:induction false} PickNone(log: seq<Entry>, fate: Fate)
    ensures Pick(log, fate) == [] <==> forall i :: 0 <= i < |log| ==> log[i].fate != fate
  {
    if log != [] {
      PickNone(Front(log), fate);
      assert forall i :: 0 <= i < |log| - 1 ==> log[i] == Front(log)[i];
    }
  }

  /** Writing the frames in hand appends them to what was written. */
  lemma {:induction false} PickSettled(log: seq<Entry>)
    requires Ordered(log)
    ensures Pick(Settled(log), Delivered) == Pick(log, Delivered) + Pick(log, InHand)
    ensures Pick(Settled(log), InHand) == []
  {
    if log != [] {
      var front := Front(log);
      assert forall i :: 0 <= i < |front| ==> front[i] == log[i];
      PickSettled(front);
      assert Front(Settled(log)) == Settled(front);
      if Last(log).fate == Delivered { PickNone(front, InHand); }
    }
  }

  /** Adding frames of one fate at the end of the record. */
  lemma Append(log: seq<Entry>, s: seq<Frame>, fate: Fate)
    ensures FramesIn(log + Marked(s, fate)) == FramesIn(log) + s
    ensures Pick(log + Marked(s, fate), fate) == Pick(log, fate) + s
    ensures forall f :: f != fate ==> Pick(log + Marked(s, fate), f) == Pick(log, f)
  {
    forall f ensures Pick(log + Marked(s, fate), f) == Pick(log, f) + if f == fate then s else [] {
      PickConcat(log, Marked(s, fate), f);
      PickMarked(s, fate, f);
    }
  }

  lemma AppendOrdered(log: seq<Entry>, s: seq<Frame>, fate: Fate)
    requires Ordered(log) && (fate == Delivered ==> Pick(log, InHand) == [])
    ensures Ordered(log + Marked(s, fate))
  {
    PickNone(log, InHand);
    var r := log + Marked(s, fate);
    forall i, j | 0 <= i < j < |r| && r[i].fate == InHand ensures r[j].fate != Delivered {
      if j >= |log| { assert r[j] == Entry(s[j - |log|], fate); }
    }
  }

  lemma Regroup(a: seq<Frame>, b: seq<Frame>, c: seq<Frame>, d: seq<Frame>, e: seq<Frame>)
    requires b + c == d + e
    ensures a + b + c == (a + d) + e
  {
    assert a + b + c == a + (b + c);
  }

  lemma FlushKept(s: Sys)
    requires Inv(s) && s.phase == Playing
    ensures Inv(Flushed(s)) && Flushed(s).buffer == []
  {
    if s.thread == NoThread {
      Append(s.log, s.buffer, Delivered);
      AppendOrdered(s.log, s.buffer, Delivered);
      assert FramesIn(s.log) + s.ring + s.buffer == (FramesIn(s.log) + s.buffer) + [] + [];
    } else {
      DropKept(s);
    }
  }

  lemma DropKept(s: Sys)
    requires Accounted(s)
    ensures var all := s.ring + s.buffer; var kept := LastN(all, RING_FRAMES);
            Accounted(s.(buffer := [], ring := kept, log := s.log + Marked(all[..|all| - |kept|], Dropped)))
  {
    var all := s.ring + s.buffer;
    var kept := LastN(all, RING_FRAMES);
    var gone := all[..|all| - |kept|];
    Append(s.log, gone, Dropped);
    AppendOrdered(s.log, gone, Dropped);
    Regroup(FramesIn(s.log), s.ring, s.buffer, gone, kept);
    assert FramesIn(s.log) + gone + kept + [] == FramesIn(s.log) + gone + kept;
  }

  lemma TakeKept(s: Sys)
    requires Inv(s) && s.thread == AtLock
    ensures Inv(Taken(s))
  {
    hide Ordered, Pick, FramesIn, Marked;
    var n := if |s.ring| < BUFFER_FRAMES then |s.ring| else BUFFER_FRAMES;
    var taken, rest := s.ring[..n], s.ring[n..];
    Append(s.log, taken, InHand);
    AppendOrdered(s.log, taken, InHand);
    SplitRing(FramesIn(s.log), s.ring, n, s.buffer);
    assert [] + taken == taken;
  }

  lemma SplitRing(a: seq<Frame>, ring: seq<Frame>, n: nat, b: seq<Frame>)
    requires n <= |ring|
    ensures a + ring[..n] + ring[n..] + b == a + ring + b
  {
    assert ring == ring[..n] + ring[n..];
  }

  lemma ActKept(s: Sys)
    requires Inv(s) && s.thread.Took?
    ensures Inv(Acted(s))
  {
    if s.hand != [] {
      PickSettled(s.log);
      assert FramesIn(Settled(s.log)) == FramesIn(s.log);
      PickNone(Settled(s.log), InHand);
    }
  }

  lemma JoinKept(s: Sys)
    requires Inv(s) && Enabled(s, Join)
    ensures Inv(Joined(s)) && (s.buffer == [] ==> Joined(s).log == s.log)
  {
    hide Ordered, Pick, FramesIn;
    Append(s.log, s.buffer, Dropped);
    AppendOrdered(s.log, s.buffer, Dropped);
    NoRing(FramesIn(s.log), s.ring, s.buffer);
    assert s.buffer == [] ==> Marked(s.buffer, Dropped) == [];
  }

  lemma NoRing(a: seq<Frame>, ring: seq<Frame>, b: seq<Frame>)
    ensures ring == [] ==> a + ring + b == (a + b) + [] + []
  {
  }

  lemma StepKept(s: Sys, e: Event)
    requires Inv(s) && Enabled(s, e)
    ensures Inv(Step(s, e))
  {
    match e
    case Open(_) =>
    case Emit(f) => assert s.generated + [f] == FramesIn(s.log) + s.ring + (s.buffer + [f]);
    case Flush => FlushKept(s);
    case CloseFlush => if s.buffer != [] { FlushKept(s); }
    case RequestExit =>
    case Reopen =>
    case Join => JoinKept(s);
    case ThreadStep => if s.thread == AtLock { TakeKept(s); } else { ActKept(s); }
  }

  // ---------------------------------------------------------------- whole sessions

  /** s is reached by some interleaving of steps from a fresh start. */
  ghost predicate Reached(threadOk: bool, es: seq<Event>, s: Sys)
    decreases |es|
  {
    if es == [] then s == Started(threadOk)
    else exists s0 :: Reached(threadOk, Front(es), s0) && Enabled(s0, Last(es)) && s == Step(s0, Last(es))
  }

  lemma {:induction false} ReachedInv(threadOk: bool, es: seq<Event>, s: Sys)
    requires Reached(threadOk, es, s)
    ensures Inv(s)
    decreases |es|
  {
    if es != [] {
      var s0 :| Reached(threadOk, Front(es), s0) && Enabled(s0, Last(es)) && s == Step(s0, Last(es));
      ReachedInv(threadOk, Front(es), s0);
      StepKept(s0, Last(es));
    }
  }

  /** When the device is closed, every frame of the session was either written or dropped, in order; those written are
      exactly those not dropped. */
  lemma ClosedIsSettled(threadOk: bool, es: seq<Event>, s: Sys)
    requires Reached(threadOk, es, s) && s.phase == Closed
    ensures FramesIn(s.log) == s.generated && Pick(s.log, Delivered) == s.written
    ensures forall i :: 0 <= i < |s.log| ==> s.log[i].fate == Delivered || s.log[i].fate == Dropped
  {
    ReachedInv(threadOk, es, s);
    PickNone(s.log, InHand);
    assert s.hand == [] && s.ring == [] && s.buffer == [];
    assert FramesIn(s.log) + [] + [] == FramesIn(s.log);
  }

  // ---------------------------------------------------------------- sessions in which no frame is dropped

  /** The step loses frames: the ring overflows, or an open without a close finds frames in the partial buffer. */
  predicate Drops(s: Sys, e: Event) {
    match e
    case Flush => s.thread != NoThread && |s.ring| + |s.buffer| > RING_FRAMES
    case CloseFlush => s.thread != NoThread && |s.ring| + |s.buffer| > RING_FRAMES
    case Join => s.buffer != []
    case _ => false
  }

  ghost predicate NoneDropped(s: Sys) { Pick(s.log, Dropped) == [] }

  lemma DropsWhen(s: Sys, e: Event)
    requires Inv(s) && Enabled(s, e)
    ensures NoneDropped(Step(s, e)) <==> e.Open? || (NoneDropped(s) && !Drops(s, e))
  {
    match e
    case Open(_) =>
    case Emit(_) =>
    case Flush => FlushDrops(s);
    case CloseFlush => if s.buffer != [] { FlushDrops(s); }
    case RequestExit =>
    case Reopen =>
    case Join => Append(s.log, s.buffer, Dropped);
    case ThreadStep => if s.thread == AtLock { TakeDrops(s); } else { SettledDrops(s.log); }
  }

  lemma FlushDrops(s: Sys)
    requires Inv(s)
    ensures NoneDropped(Flushed(s)) <==>
      NoneDropped(s) && (s.thread == NoThread || |s.ring| + |s.buffer| <= RING_FRAMES)
  {
    if s.thread == NoThread {
      Append(s.log, s.buffer, Delivered);
    } else {
      var all := s.ring + s.buffer;
      var gone := all[..|all| - |LastN(all, RING_FRAMES)|];
      Append(s.log, gone, Dropped);
      assert gone == [] <==> |all| <= RING_FRAMES;
    }
  }

  /** Handing the buffer over to the ring leaves it with the last 11760 of its own frames and the new ones, in order; as
      many as are over are dropped, and no others. */
  lemma OverflowDrops(s: Sys)
    requires s.thread != NoThread
    ensures var d := Flushed(s); var over := |s.ring| + |s.buffer| - 11760;
            && d.buffer == [] && d.written == s.written && d.generated == s.generated
            && |Pick(d.log, Dropped)| == |Pick(s.log, Dropped)| + (if over > 0 then over else 0)
            && (if over <= 0 then d.ring == s.ring + s.buffer
                else |d.ring| == 11760 && forall i :: 0 <= i < 11760 ==> d.ring[i] == (s.ring + s.buffer)[over + i])
  {
    var all := s.ring + s.buffer;
    Append(s.log, all[..|all| - |LastN(all, RING_FRAMES)|], Dropped);
  }

  /** The thread takes the first 1470 frames, or all if there are fewer, and decides to leave when it was asked to
      and the ring is empty then. */
  lemma ThreadTakes(s: Sys)
    requires s.thread == AtLock
    ensures var d := ThreadStepped(s); var n := if |s.ring| < 1470 then |s.ring| else 1470;
            && |d.hand| == n && d.hand + d.ring == s.ring && d.buffer == s.buffer && d.written == s.written
            && d.thread == Took(s.exit && |s.ring| <= 1470)
  {
  }

  /** It writes what it took; with nothing taken it leaves if it decided so, and else tries again. */
  lemma ThreadWrites(s: Sys)
    requires s.thread.Took?
    ensures var d := ThreadStepped(s);
            && d.written == s.written + s.hand && d.hand == [] && d.ring == s.ring && d.buffer == s.buffer
            && d.thread == if s.hand == [] && s.thread.leave then Done else AtLock
  {
  }

  /** An open starts with everything empty, and with the thread at its lock if there is one. */
  lemma OpenStarts(s: Sys, threadOk: bool)
    ensures var d := Step(s, Open(threadOk));
            && d.phase == Playing && d.thread == (if threadOk then AtLock else NoThread) && !d.exit
            && d.buffer == d.ring == d.hand == d.generated == d.written == []
  {
  }

  /** The join ends the session; nothing is written any more, and of the ring and the thread's hand nothing is left. */
  lemma JoinCloses(s: Sys)
    requires Inv(s) && Enabled(s, Join)
    ensures var d := Step(s, Join);
            && d.phase == Closed && d.thread == NoThread && d.written == s.written && d.generated == s.generated
            && d.buffer == d.ring == d.hand == []
  {
  }

  /** What can come next: the emulator opens when closed; when playing it mixes samples until the buffer is full,
      and flushes it then; a close or a new open comes between samples; after the last flush it asks the thread to
      leave, and goes on when there is no thread or it has left. The thread can always step until it has. */
  lemma NextSteps(s: Sys, f: Frame)
    requires Inv(s)
    ensures Enabled(s, Open(true)) <==> s.phase == Closed
    ensures Enabled(s, Emit(f)) <==> s.phase == Playing && |s.buffer| < 1470
    ensures Enabled(s, CloseFlush) <==> s.phase == Playing && |s.buffer| < 1470
    ensures Enabled(s, Reopen) <==> s.phase == Playing && |s.buffer| < 1470
    ensures Enabled(s, Flush) <==> s.phase == Playing && |s.buffer| == 1470
    ensures Enabled(s, RequestExit) <==> s.phase == Closing
    ensures Enabled(s, ThreadStep) <==> s.thread != NoThread && s.thread != Done
    ensures Enabled(s, Join) <==> s.phase == Draining && !Enabled(s, ThreadStep)
  {
  }

  /** So the two together never come to a stop. */
  lemma NeverStuck(s: Sys)
    requires Inv(s)
    ensures exists e :: Enabled(s, e)
  {
    NextSteps(s, (0, 0));
    assert Enabled(s, Open(true)) || Enabled(s, CloseFlush) || Enabled(s, Flush) || Enabled(s, RequestExit)
      || Enabled(s, ThreadStep) || Enabled(s, Join);
  }

  lemma TakeDrops(s: Sys)
    ensures NoneDropped(Taken(s)) <==> NoneDropped(s)
  {
    var n := if |s.ring| < BUFFER_FRAMES then |s.ring| else BUFFER_FRAMES;
    Append(s.log, s.ring[..n], InHand);
  }

  lemma {:induction false} SettledDrops(log: seq<Entry>)
    ensures Pick(Settled(log), Dropped) == Pick(log, Dropped)
  {
    if log != [] {
      assert Front(Settled(log)) == Settled(Front(log));
      SettledDrops(Front(log));
    }
  }

  /** No step of the session that is still running, or ended last, has lost frames. */
  ghost predicate Faultless(threadOk: bool, es: seq<Event>)
    decreases |es|
  {
    es == [] || Last(es).Open?
    || (Faultless(threadOk, Front(es)) && exists s0 :: Reached(threadOk, Front(es), s0) && !Drops(s0, Last(es)))
  }

  lemma {:induction false} ReachedOnce(threadOk: bool, es: seq<Event>, s: Sys, s': Sys)
    requires Reached(threadOk, es, s) && Reached(threadOk, es, s')
    ensures s == s'
    decreases |es|
  {
    if es != [] {
      var a :| Reached(threadOk, Front(es), a) && Enabled(a, Last(es)) && s == Step(a, Last(es));
      var b :| Reached(threadOk, Front(es), b) && Enabled(b, Last(es)) && s' == Step(b, Last(es));
      ReachedOnce(threadOk, Front(es), a, b);
    }
  }

  lemma {:induction false} FaultlessIs(threadOk: bool, es: seq<Event>, s: Sys)
    requires Reached(threadOk, es, s)
    ensures NoneDropped(s) <==> Faultless(threadOk, es)
    decreases |es|
  {
    if es != [] {
      var s0 :| Reached(threadOk, Front(es), s0) && Enabled(s0, Last(es)) && s == Step(s0, Last(es));
      ReachedInv(threadOk, Front(es), s0);
      FaultlessIs(threadOk, Front(es), s0);
      DropsWhen(s0, Last(es));
      forall s1 | Reached(threadOk, Front(es), s1) ensures s1 == s0 { ReachedOnce(threadOk, Front(es), s1, s0); }
    }
  }

  lemma {:induction false} AllDelivered(log: seq<Entry>)
    requires forall i :: 0 <= i < |log| ==> log[i].fate == Delivered || log[i].fate == Dropped
    ensures |Pick(log, Delivered)| + |Pick(log, Dropped)| == |log|
    ensures Pick(log, Dropped) == [] ==> Pick(log, Delivered) == FramesIn(log)
  {
    if log != [] {
      assert forall i :: 0 <= i < |log| - 1 ==> Front(log)[i] == log[i];
      AllDelivered(Front(log));
      assert FramesIn(log) == FramesIn(Front(log)) + [Last(log).frame];
    }
  }

  /** A closed session has written every frame it generated if and only if the ring never overflowed and it was
      not ended by an open with frames in the partial buffer. */
  lemma ClosedIsWhole(threadOk: bool, es: seq<Event>, s: Sys)
    requires Reached(threadOk, es, s) && s.phase == Closed
    ensures s.written == s.generated <==> Faultless(threadOk, es)
  {
    ClosedIsSettled(threadOk, es, s);
    AllDelivered(s.log);
    FaultlessIs(threadOk, es, s);
  }

  // ---------------------------------------------------------------- the wait for the thread ends

  /** An upper bound on the steps the thread still takes once it was asked to leave. */
  function StepsToLeave(s: Sys): nat {
    3 * |s.ring| +
    match s.thread
    case NoThread => 0
    case Done => 0
    case AtLock => 2
    case Took(leave) => if s.hand == [] && leave then 1 else 3
  }

  function ThreadRuns(s: Sys, n: nat): Sys
    decreases n
  {
    if n == 0 then s else ThreadRuns(ThreadStepped(s), n - 1)
  }

  /** The thread alone, left to run, empties the ring and leaves: the join returns. */
  lemma {:induction false} DrainEnds(s: Sys, n: nat)
    requires Inv(s) && s.phase == Draining && n >= StepsToLeave(s)
    ensures Enabled(ThreadRuns(s, n), Join)
    ensures Inv(ThreadRuns(s, n)) && ThreadRuns(s, n).ring == []
    decreases n
  {
    if s.thread == NoThread || s.thread == Done {
      if n > 0 { DrainEnds(s, n - 1); }
    } else {
      var s' := ThreadStepped(s);
      StepKept(s, ThreadStep);
      assert StepsToLeave(s') < StepsToLeave(s);
      DrainEnds(s', n - 1);
    }
  }
}
