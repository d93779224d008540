/** The sound side of the emulator: the buffers, positions and flags that the emulator thread and the audio thread
    change in place, one method for each atomic step of the protocol. */
module AudioOutput {
  import opened AudioRing
  import opened AudioProtocol

  const MAX_SAMPLES := 735

  /** A channel value of the sound chip. */
  type Byte = x: int | 0 <= x < 256

  datatype Wave = Absent | Wave(data: seq<Byte>)

  function ChannelAt(w: Wave, i: nat): int
    requires w.Wave? ==> i < |w.data|
  {
    if w == Absent then 0 else (w.data[i] as int) - 128
  }

  predicate LongEnough(ws: seq<Wave>, n: nat) {
    forall k :: 0 <= k < |ws| && ws[k].Wave? ==> n <= |ws[k].data|
  }

  function ChannelSum(ws: seq<Wave>, i: nat): int
    requires LongEnough(ws, i + 1)
  {
    if ws == [] then 0
    else
      assert forall k :: 0 <= k < |ws| - 1 ==> ws[..|ws| - 1][k] == ws[k];
      ChannelSum(ws[..|ws| - 1], i) + ChannelAt(ws[|ws| - 1], i)
  }

  /** The mixed sample: the channels added, scaled by 51 and clipped to 16 bits. */
  function Mix(ws: seq<Wave>, i: nat): Sample
    requires LongEnough(ws, i + 1)
  {
    var s := ChannelSum(ws, i) * 51;
    if s > 32767 then 32767 else if s < -32768 then -32768 else s
  }

  lemma {:induction false} ChannelSumBounds(ws: seq<Wave>, i: nat)
    requires LongEnough(ws, i + 1)
    ensures -128 * |ws| <= ChannelSum(ws, i) <= 127 * |ws|
  {
    if ws != [] {
      assert forall k :: 0 <= k < |ws| - 1 ==> ws[..|ws| - 1][k] == ws[k];
      ChannelSumBounds(ws[..|ws| - 1], i);
    }
  }

  /** With the five channels of the chip the clipping never happens: the mix is linear. */
  lemma FiveChannelsNeverClip(ws: seq<Wave>, i: nat)
    requires |ws| == 5 && LongEnough(ws, i + 1)
    ensures Mix(ws, i) == ChannelSum(ws, i) * 51
  {
    ChannelSumBounds(ws, i);
  }

  /** What a channel adds: nothing when it is absent, else its value less 128. */
  function Adds(w: Wave, i: nat): int
    requires w.Wave? ==> i < |w.data|
  {
    match w
    case Absent => 0
    case Wave(data) => data[i] as int - 128
  }

  lemma SumNext(ws: seq<Wave>, k: nat, i: nat)
    requires k < |ws| && LongEnough(ws, i + 1)
    ensures LongEnough(ws[..k], i + 1) && LongEnough(ws[..k + 1], i + 1)
    ensures ChannelSum(ws[..k + 1], i) == ChannelSum(ws[..k], i) + Adds(ws[k], i)
  {
    assert ws[..k + 1][..k] == ws[..k];
  }

  /** The mix of the five channels is 51 times the sum of what each of them adds at that sample. */
  lemma MixOfFive(ws: seq<Wave>, i: nat)
    requires |ws| == 5 && LongEnough(ws, i + 1)
    ensures Mix(ws, i) == 51 * (Adds(ws[0], i) + Adds(ws[1], i) + Adds(ws[2], i) + Adds(ws[3], i) + Adds(ws[4], i))
  {
    hide ChannelSum;
    FiveChannelsNeverClip(ws, i);
    SumNext(ws, 0, i); SumNext(ws, 1, i); SumNext(ws, 2, i); SumNext(ws, 3, i); SumNext(ws, 4, i);
    assert ws[..5] == ws;
    SumNone(ws, i);
  }

  lemma SumNone(ws: seq<Wave>, i: nat)
    requires LongEnough(ws, i + 1)
    ensures LongEnough(ws[..0], i + 1) && ChannelSum(ws[..0], i) == 0
  {
  }

  /** With all five channels present. */
  lemma MixOfWaves(a: seq<Byte>, b: seq<Byte>, c: seq<Byte>, d: seq<Byte>, e: seq<Byte>, i: nat)
    requires i < |a| && i < |b| && i < |c| && i < |d| && i < |e|
    ensures LongEnough([Wave(a), Wave(b), Wave(c), Wave(d), Wave(e)], i + 1)
    ensures Mix([Wave(a), Wave(b), Wave(c), Wave(d), Wave(e)], i)
         == 51 * (a[i] as int + b[i] as int + c[i] as int + d[i] as int + e[i] as int - 640)
  {
    var ws := [Wave(a), Wave(b), Wave(c), Wave(d), Wave(e)];
    assert ws[0] == Wave(a) && ws[1] == Wave(b) && ws[2] == Wave(c) && ws[3] == Wave(d) && ws[4] == Wave(e);
    MixOfFive(ws, i);
  }

  /** A channel that is absent is as good as one that is not there. */
  lemma AbsentIsSilent(ws: seq<Wave>, i: nat)
    requires LongEnough(ws, i + 1)
    ensures LongEnough(ws + [Absent], i + 1) && Mix(ws + [Absent], i) == Mix(ws, i)
  {
    var all := ws + [Absent];
    assert all[..|ws|] == ws && all[..|ws| + 1] == all;
    assert forall k :: 0 <= k < |all| && all[k].Wave? ==> k < |ws| && all[k] == ws[k];
    SumNext(all, |ws|, i);
  }

  class Output {
    const ring: Ring
    const audioBuffer: array<Sample>
    var audioBufferPos: nat
    const localBuf: array<Sample>
    var localFrames: nat
    var threadCreated: bool
    var threadExit: bool
    var phase: Phase    // where the emulator thread is in opening and closing
    var thread: Thread  // where the audio thread is
    var device: seq<Frame>  // what the device was given since it was opened
    ghost var sys: Sys

    ghost predicate Valid()
      reads this, ring, ring.samples, audioBuffer, localBuf
    {
      && ring.Valid() && audioBuffer.Length == localBuf.Length == 2 * BUFFER_FRAMES
      && audioBuffer != localBuf && audioBuffer != ring.samples && localBuf != ring.samples
      && audioBufferPos <= BUFFER_FRAMES && localFrames <= BUFFER_FRAMES
      && sys.ring == ring.q && sys.buffer == FramesOf(audioBuffer[..], audioBufferPos)
      && sys.hand == FramesOf(localBuf[..], localFrames) && sys.written == device
      && sys.phase == phase && sys.thread == thread && sys.exit == threadExit
      && (threadCreated <==> thread != NoThread)
    }

    ghost function Repr(): set<object> { {this, ring, ring.samples, audioBuffer, localBuf} }

    constructor ()
      ensures Valid() && Inv(sys) && phase == Closed
    {
      ring := new Ring();
      audioBuffer := new Sample[2 * BUFFER_FRAMES](i => 0);
      localBuf := new Sample[2 * BUFFER_FRAMES](i => 0);
      audioBufferPos, localFrames := 0, 0;
      threadCreated, threadExit := false, false;
      phase, thread, device := Closed, NoThread, [];
      sys := Sys(Closed, NoThread, false, [], [], [], [], [], []);
    }

    /** The device takes every frame, in order. */
    method PcmWrite(buf: array<Sample>, frames: nat)
      requires 2 * frames <= buf.Length
      modifies `device
      ensures device == old(device) + FramesOf(buf[..], frames)
    {
      device := device + FramesOf(buf[..], frames);
    }

    /** Open the device and try to start the audio thread. A session that still ran has been stopped before, by
        AskThreadToLeave and AfterJoin. */
    method SoundOpen(deviceOk: bool, threadOk: bool) returns (result: int)
      requires Valid() && Inv(sys) && phase == Closed
      modifies Repr()
      ensures Valid() && result == if deviceOk then 0 else -1
      ensures sys == if deviceOk then Step(old(sys), Open(threadOk)) else old(sys)
    {
      audioBufferPos := 0;
      ring.Reset();
      if !deviceOk { return -1; }
      device := [];
      localFrames := 0;
      threadExit := false;
      threadCreated := threadOk;
      thread := if threadOk then AtLock else NoThread;
      phase := Playing;
      sys := Started(threadOk);
      return 0;
    }

    /** One mixed sample goes to both channels of the partial buffer. */
    method AddSample(sample: Sample)
      requires Valid() && Enabled(sys, Emit((sample, sample)))
      modifies this, audioBuffer
      ensures Valid() && sys == Step(old(sys), Emit((sample, sample)))
    {
      ghost var before := FramesOf(audioBuffer[..], audioBufferPos);
      audioBuffer[audioBufferPos * 2] := sample;
      audioBuffer[audioBufferPos * 2 + 1] := sample;
      audioBufferPos := audioBufferPos + 1;
      assert FramesOf(audioBuffer[..], audioBufferPos) == before + [(sample, sample)];
      sys := Step(sys, Emit((sample, sample)));
    }

    /** Hand the partial buffer to the ring, under the lock, or to the device. */
    method HandOver()
      requires Valid() && audioBufferPos > 0
      modifies Repr()
      ensures Valid() && sys == Flushed(old(sys))
      ensures phase == old(phase) && thread == old(thread) && threadExit == old(threadExit)
    {
      if threadCreated {
        ring.Enqueue(audioBuffer, audioBufferPos, audioBufferPos);
      } else {
        PcmWrite(audioBuffer, audioBufferPos);
      }
      audioBufferPos := 0;
      sys := Flushed(sys);
    }

    method FlushFull()
      requires Valid() && Enabled(sys, Flush)
      modifies Repr()
      ensures Valid() && sys == Step(old(sys), Flush)
    {
      HandOver();
    }

    /** Mix and buffer the samples of one call, flushing the buffer whenever it is full. At most 735 are taken, and none
        without a device. */
    method SoundOutput(samples: int, ws: seq<Wave>)
      requires Valid() && Inv(sys) && (phase == Playing || phase == Closed) && audioBufferPos < BUFFER_FRAMES
      requires phase == Playing && samples >= 0 ==> LongEnough(ws, Taking(samples))
      modifies Repr()
      ensures Valid() && Inv(sys) && phase == old(phase) && audioBufferPos < BUFFER_FRAMES
      ensures phase == Playing ==> sys.generated == old(sys.generated) + Mixed(ws, Taking(samples))
      ensures phase == Playing ==>
        && |sys.generated| - |old(sys.generated)| == (if samples < 0 then 0 else if samples > 735 then 735 else samples)
        && sys.generated[..|old(sys.generated)|] == old(sys.generated)
        && forall j :: |old(sys.generated)| <= j < |sys.generated| ==>
          var m := Mix(ws, j - |old(sys.generated)|); sys.generated[j] == (m, m)
      ensures phase == Closed ==> sys == old(sys)
    {
      hide Inv;
      if phase == Closed { return; }
      MixedAre(ws, Taking(samples));
      var n := if samples > MAX_SAMPLES then MAX_SAMPLES else samples;
      var i := 0;
      assert old(sys.generated) + [] == old(sys.generated);
      while i < n
        invariant 0 <= i && (i <= n || n < 0 == i)
        invariant Valid() && Inv(sys) && phase == Playing && audioBufferPos < BUFFER_FRAMES
        invariant sys.generated == old(sys.generated) + Mixed(ws, i)
      {
        OneSample(Mix(ws, i));
        i := i + 1;
      }
    }

    method OneSample(sample: Sample)
      requires Valid() && Inv(sys) && phase == Playing && audioBufferPos < BUFFER_FRAMES
      modifies Repr()
      ensures Valid() && Inv(sys) && phase == Playing && audioBufferPos < BUFFER_FRAMES
      ensures sys.generated == old(sys.generated) + [(sample, sample)]
    {
      StepKept(sys, Emit((sample, sample)));
      AddSample(sample);
      if audioBufferPos >= BUFFER_FRAMES {
        StepKept(sys, Flush);
        FlushFull();
      }
    }

    /** Close, first part: the frames of the partial buffer are handed over. */
    method CloseFirst()
      requires Valid() && Enabled(sys, CloseFlush)
      modifies Repr()
      ensures Valid() && sys == Step(old(sys), CloseFlush)
    {
      if audioBufferPos > 0 { HandOver(); }
      phase := Closing;
      sys := sys.(phase := Closing);
    }

    /** The second part of a close, and the first of an open while a session runs: the thread is asked, under the
        lock, to leave. */
    method AskThreadToLeave()
      requires Valid() && Inv(sys) && (Enabled(sys, RequestExit) || Enabled(sys, Reopen))
      modifies this
      ensures Valid() && sys == Leaving(old(sys))
      ensures threadExit == (old(threadExit) || threadCreated) && audioBufferPos == old(audioBufferPos)
    {
      if threadCreated { threadExit := true; }
      phase := Draining;
      sys := Leaving(sys);
    }

    /** The thread has ended: the device is closed and the ring emptied, which holds nothing any more. Only an
        open while a session runs forgets frames here, those of the partial buffer. */
    method AfterJoin()
      requires Valid() && Inv(sys) && Enabled(sys, Join)
      modifies this, ring
      ensures Valid() && sys == Step(old(sys), Join) && device == old(device)
      ensures old(audioBufferPos) == 0 ==> sys.log == old(sys.log)
    {
      JoinKept(sys);
      threadCreated := false;
      thread := NoThread;
      audioBufferPos := 0;
      ring.Reset();
      phase := Closed;
      sys := Joined(sys);
    }

    /** The locked region of the audio thread. */
    method TakeFrames()
      requires Valid() && thread == AtLock
      modifies Repr()
      ensures Valid() && sys == Step(old(sys), ThreadStep)
    {
      localFrames := ring.Dequeue(localBuf, BUFFER_FRAMES);
      var shouldExit := threadExit && ring.used == 0;
      thread := Took(shouldExit);
      sys := Taken(sys);
    }

    /** What the audio thread does with the lock released. */
    method UseFrames()
      requires Valid() && thread.Took?
      modifies this
      ensures Valid() && sys == Step(old(sys), ThreadStep)
    {
      sys := Acted(sys);
      if localFrames > 0 {
        PcmWrite(localBuf, localFrames);
        localFrames := 0;
        thread := AtLock;
      } else if thread == Took(true) {
        thread := Done;
      } else {
        thread := AtLock;
      }
    }
  }

  /** How many samples of a call are taken. */
  function Taking(samples: int): nat {
    if samples > MAX_SAMPLES then MAX_SAMPLES else if samples < 0 then 0 else samples
  }

  /** The frames of the first n mixed samples. */
  function Mixed(ws: seq<Wave>, n: nat): seq<Frame>
    requires LongEnough(ws, n)
  {
    if n == 0 then [] else Mixed(ws, n - 1) + [(Mix(ws, n - 1), Mix(ws, n - 1))]
  }

  lemma {:induction false} MixedAre(ws: seq<Wave>, n: nat)
    requires LongEnough(ws, n)
    ensures |Mixed(ws, n)| == n && forall j :: 0 <= j < n ==> Mixed(ws, n)[j] == (Mix(ws, j), Mix(ws, j))
  {
    if n > 0 { MixedAre(ws, n - 1); }
  }
}
