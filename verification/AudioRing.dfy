/** The ring of audio frames shared by the emulator and the audio thread: a bounded queue that forgets its oldest
    frames when it is full. Frames are stored as interleaved left and right samples. */
module AudioRing {

  const BUFFER_FRAMES := 735 * 2
  const RING_FRAMES := BUFFER_FRAMES * 8

  type Sample = x: int | -0x8000 <= x < 0x8000
  type Frame = (Sample, Sample)

  /** The first n frames of interleaved samples. */
  function FramesOf(data: seq<Sample>, n: nat): (r: seq<Frame>)
    requires 2 * n <= |data|
    ensures |r| == n && forall i :: 0 <= i < n ==> r[i] == (data[2 * i], data[2 * i + 1])
  {
    seq(n, i requires 0 <= i < n => (data[2 * i], data[2 * i + 1]))
  }

  /** The last n elements, or all of them. */
  function LastN<T>(s: seq<T>, n: nat): seq<T> {
    if |s| <= n then s else s[|s| - n..]
  }

  lemma LastNIs<T>(s: seq<T>, n: nat)
    ensures |LastN(s, n)| == (if |s| < n then |s| else n)
    ensures forall i :: 0 <= i < |LastN(s, n)| ==> LastN(s, n)[i] == s[|s| - |LastN(s, n)| + i]
  {
  }

  /** The slot of the ring at a distance from its first slot of less than two turns. */
  function Slot(x: nat): nat
    requires x < 2 * RING_FRAMES
  {
    if x < RING_FRAMES then x else x - RING_FRAMES
  }

  lemma SlotIsRemainder(x: nat)
    requires x < 2 * RING_FRAMES
    ensures x % RING_FRAMES == Slot(x) < RING_FRAMES
  {
  }

  /** Appending d and keeping n elements: first make room for d, then append what of d can stay. */
  lemma LastAppend<T>(q: seq<T>, d: seq<T>, n: nat)
    ensures LastN(q + d, n) == LastN(q, if |d| < n then n - |d| else 0) + LastN(d, n)
  {
  }

  function FrameOf(a: array<Sample>, k: nat): Frame
    requires 2 * k + 1 < a.Length
    reads a
  {
    (a[2 * k], a[2 * k + 1])
  }

  class Ring {
    const samples: array<Sample>
    var readPos: nat
    var writePos: nat
    var used: nat
    ghost var q: seq<Frame>

    /** q is what lies in the ring between the two positions. */
    ghost predicate Valid()
      reads this, samples
    {
      && samples.Length == 2 * RING_FRAMES
      && readPos < RING_FRAMES && used == |q| <= RING_FRAMES && writePos == Slot(readPos + used)
      && Holds(q, |q|)
    }

    /** The frame m slots after the read position. */
    ghost function At(m: nat): Frame
      requires samples.Length == 2 * RING_FRAMES && readPos < RING_FRAMES && m < RING_FRAMES
      reads this, samples
    {
      FrameOf(samples, Slot(readPos + m))
    }

    /** The first n frames of s lie in the slots from readPos on. */
    ghost predicate Holds(s: seq<Frame>, n: nat)
      requires samples.Length == 2 * RING_FRAMES && readPos < RING_FRAMES && n <= |s| <= RING_FRAMES
      reads this, samples
    {
      forall i :: 0 <= i < n ==> s[i] == At(i)
    }

    constructor ()
      ensures Valid() && q == [] && fresh(samples)
    {
      samples := new Sample[2 * RING_FRAMES](i => 0);
      readPos, writePos, used, q := 0, 0, 0, [];
    }

    method Reset()
      requires Valid()
      modifies this
      ensures Valid() && q == []
    {
      readPos := 0;
      writePos := 0;
      used := 0;
      q := [];
    }

    method DropOldest(frames: int)
      requires Valid()
      modifies this
      ensures Valid()
      ensures q == if frames <= 0 then old(q) else if frames >= |old(q)| then [] else old(q)[frames..]
    {
      if frames <= 0 || used == 0 { return; }
      if frames >= used {
        Reset();
        return;
      }
      Skip(frames);
    }

    /** The first frames no longer belong to the ring. */
    method Skip(frames: nat)
      requires Valid() && frames <= used
      modifies this
      ensures Valid() && q == old(q)[frames..]
    {
      SlotIsRemainder(readPos + frames);
      readPos := (readPos + frames) % RING_FRAMES;
      used := used - frames;
      q := q[frames..];
    }

    /** Append frames, at most as many as are available; the ring keeps the last RING_FRAMES of all. */
    method Enqueue(data: array?<Sample>, count: int, available: int)
      requires Valid() && data != samples && (data != null ==> 2 * available <= data.Length)
      modifies this, samples
      ensures Valid()
      ensures q == if data == null || count <= 0 || available <= 0 then old(q)
                   else LastN(old(q) + FramesOf(data[..], if count > available then available else count), RING_FRAMES)
    {
      if data == null || count <= 0 || available <= 0 { return; }
      EnqueueAll(data, if count > available then available else count);
    }

    method EnqueueAll(data: array<Sample>, count: nat)
      requires Valid() && data != samples && 2 * count <= data.Length
      modifies this, samples
      ensures Valid() && q == LastN(old(q) + FramesOf(data[..], count), RING_FRAMES)
    {
      ghost var d := FramesOf(data[..], count);
      LastAppend(q, d, RING_FRAMES);
      var first, frames := 0, count;
      if frames >= RING_FRAMES {
        first := frames - RING_FRAMES;
        frames := RING_FRAMES;
        Reset();
      }
      assert LastN(d, RING_FRAMES) == d[first..];
      MakeRoom(frames);
      Store(data, first, frames);
    }

    method MakeRoom(frames: nat)
      requires Valid() && frames <= RING_FRAMES
      modifies this
      ensures Valid() && q == LastN(old(q), RING_FRAMES - frames)
    {
      var free := RING_FRAMES - used;
      if frames > free { DropOldest(frames - free); }
    }

    /** Copy frames from data into the slots after the write position. There is room for them. */
    method Store(data: array<Sample>, first: nat, frames: nat)
      requires Valid() && data != samples && 2 * (first + frames) <= data.Length && used + frames <= RING_FRAMES
      modifies this, samples
      ensures Valid() && q == old(q) + FramesOf(data[..], first + frames)[first..]
    {
      ghost var all := q + FramesOf(data[..], first + frames)[first..];
      for i := 0 to frames
        invariant samples.Length == 2 * RING_FRAMES && readPos == old(readPos) && used == old(used) && q == old(q)
        invariant writePos == old(writePos) && Holds(all, used + i)
      {
        StoreOne(i, data[2 * (first + i)], data[2 * (first + i) + 1]);
      }
      Advance(frames, all);
    }

    /** The frames stored after the write position now belong to the ring. */
    method Advance(frames: nat, ghost all: seq<Frame>)
      requires samples.Length == 2 * RING_FRAMES && readPos < RING_FRAMES && used + frames == |all| <= RING_FRAMES
      requires writePos == Slot(readPos + used) && Holds(all, |all|)
      modifies this
      ensures Valid() && q == all
    {
      SlotIsRemainder(writePos + frames);
      writePos := (writePos + frames) % RING_FRAMES;
      used := used + frames;
      q := all;
    }

    method StoreOne(i: nat, left: Sample, right: Sample)
      requires samples.Length == 2 * RING_FRAMES && readPos < RING_FRAMES
      requires used + i < RING_FRAMES && writePos == Slot(readPos + used)
      modifies samples
      ensures At(used + i) == (left, right)
      ensures forall m :: 0 <= m < used + i ==> At(m) == old(At(m))
    {
      SlotIsRemainder(writePos + i);
      var ringPos := (writePos + i) % RING_FRAMES;
      assert ringPos == Slot(readPos + used + i);
      samples[2 * ringPos] := left;
      samples[2 * ringPos + 1] := right;
    }

    /** Copy n frames, from slot `from` on, to out, from frame `at` on. */
    method CopyFrames(out: array<Sample>, at: nat, from: nat, n: nat)
      requires samples.Length == 2 * RING_FRAMES && out != samples
      requires from + n <= RING_FRAMES && 2 * (at + n) <= out.Length
      modifies out
      ensures forall k :: at <= k < at + n ==> FrameOf(out, k) == FrameOf(samples, from + k - at)
      ensures forall k :: 0 <= k < at ==> FrameOf(out, k) == old(FrameOf(out, k))
    {
      forall i | 0 <= i < 2 * n { out[2 * at + i] := samples[2 * from + i]; }
      forall k | at <= k < at + n ensures FrameOf(out, k) == FrameOf(samples, from + k - at) {
        assert out[2 * at + 2 * (k - at)] == samples[2 * from + 2 * (k - at)];
        assert out[2 * at + (2 * (k - at) + 1)] == samples[2 * from + (2 * (k - at) + 1)];
      }
    }

    /** The frames may go round the end of the ring, so they are copied in two pieces. */
    method CopyOut(out: array<Sample>, frames: nat)
      requires Valid() && out != samples && frames <= used && 2 * frames <= out.Length
      modifies out
      ensures FramesOf(out[..], frames) == q[..frames]
    {
      var firstFrames := RING_FRAMES - readPos;
      if firstFrames > frames { firstFrames := frames; }
      CopyFrames(out, 0, readPos, firstFrames);
      var remaining := frames - firstFrames;
      if remaining > 0 { CopyFrames(out, firstFrames, 0, remaining); }
      forall i | 0 <= i < frames ensures FramesOf(out[..], frames)[i] == q[i] {
        assert q[i] == At(i) && FramesOf(out[..], frames)[i] == FrameOf(out, i);
      }
    }

    /** Take the first frames out, in order, at most max of them. */
    method Dequeue(out: array?<Sample>, max: int) returns (frames: int)
      requires Valid() && out != samples && (out != null ==> 2 * max <= out.Length)
      modifies this, out
      ensures Valid()
      ensures frames == if out == null || max <= 0 then 0 else if |old(q)| < max then |old(q)| else max
      ensures q == old(q)[frames..] && (frames > 0 ==> FramesOf(out[..], frames) == old(q)[..frames])
    {
      if out == null || max <= 0 || used <= 0 { return 0; }
      frames := if used < max then used else max;
      CopyOut(out, frames);
      Skip(frames);
    }
  }
}
