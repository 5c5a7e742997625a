/**
 * The frame walk of the PLAY state: `for (i = 0; i < BUF_SAMPLES; i += 320)`
 * hands the encoder the 320 samples starting at each offset i it visits.
 */
module Framing {

  /** The codec frame: 320 samples (20 ms at 16 kHz). */
  const FrameSamples: nat := 320

  /** The offsets the loop visits when it is at offset i and runs while the offset is below n. */
  function FrameWalk(i: nat, n: nat): seq<nat>
    decreases n - i
  {
    if i < n then [i] + FrameWalk(i + FrameSamples, n) else []
  }

  /** The offsets of every frame the PLAY state encodes for a buffer of n samples. */
  function FrameOffsets(n: nat): seq<nat>
  {
    FrameWalk(0, n)
  }

  /** The k-th offset visited from i is i + 320k, every offset is below n, and there are ceil((n - i) / 320) of them. */
  lemma {:induction false} FrameWalkShape(i: nat, n: nat)
    ensures |FrameWalk(i, n)| == if i < n then (n - i + FrameSamples - 1) / FrameSamples else 0
    ensures forall k :: 0 <= k < |FrameWalk(i, n)| ==> FrameWalk(i, n)[k] == i + FrameSamples * k < n
    decreases n - i
  {
    if i < n {
      FrameWalkShape(i + FrameSamples, n);
      var w := FrameWalk(i, n);
      forall k | 0 <= k < |w|
        ensures w[k] == i + FrameSamples * k < n
      {
        if k > 0 {
          assert w[k] == FrameWalk(i + FrameSamples, n)[k - 1];
        }
      }
    }
  }

  /** The offsets start at 0 and increase strictly, by exactly one frame each time, and stay below n. */
  lemma FrameOffsetsIncrease(n: nat)
    ensures n > 0 ==> |FrameOffsets(n)| > 0 && FrameOffsets(n)[0] == 0
    ensures forall k :: 0 <= k < |FrameOffsets(n)| ==> FrameOffsets(n)[k] < n
    ensures forall k :: 0 < k < |FrameOffsets(n)| ==> FrameOffsets(n)[k] == FrameOffsets(n)[k - 1] + FrameSamples
    ensures forall k1, k2 :: 0 <= k1 < k2 < |FrameOffsets(n)| ==> FrameOffsets(n)[k1] < FrameOffsets(n)[k2]
  {
    FrameWalkShape(0, n);
  }

  /** Every frame visited from a whole-frame offset ends inside the buffer when n is a whole number of frames. */
  lemma FrameWalkFits(i: nat, n: nat)
    requires i % FrameSamples == 0 && n % FrameSamples == 0
    ensures forall k :: 0 <= k < |FrameWalk(i, n)| ==> FrameWalk(i, n)[k] + FrameSamples <= n
  {
    FrameWalkShape(i, n);
    forall k | 0 <= k < |FrameWalk(i, n)|
      ensures FrameWalk(i, n)[k] + FrameSamples <= n
    {
      var o := FrameWalk(i, n)[k];
      var q := i / FrameSamples + k;
      assert o == FrameSamples * q;
      assert n == FrameSamples * (n / FrameSamples);
    }
  }

  /**
   * Every frame the walk encodes lies inside the buffer if and only if the
   * buffer is a whole number of frames; otherwise the last frame reads past its end.
   */
  lemma FramesFitIff(n: nat)
    ensures (forall k :: 0 <= k < |FrameOffsets(n)| ==> FrameOffsets(n)[k] + FrameSamples <= n)
            <==> n % FrameSamples == 0
  {
    FrameWalkShape(0, n);
    var w := FrameOffsets(n);
    if n % FrameSamples == 0 {
      FrameWalkFits(0, n);
    } else {
      var last := |w| - 1;
      assert w[last] == FrameSamples * last;
      assert n < FrameSamples * (last + 1);
    }
  }

  /**
   * When n is a whole number of frames, the walk visits n / 320 frames that
   * lie in the buffer, cover every sample and do not overlap,
   * so each sample is encoded exactly once.
   */
  lemma FramesPartition(n: nat)
    requires n % FrameSamples == 0
    ensures |FrameOffsets(n)| == n / FrameSamples
    ensures forall k :: 0 <= k < |FrameOffsets(n)| ==> FrameOffsets(n)[k] + FrameSamples <= n
    ensures forall j :: 0 <= j < n ==>
      var k := j / FrameSamples;
      k < |FrameOffsets(n)| && FrameOffsets(n)[k] <= j < FrameOffsets(n)[k] + FrameSamples
    ensures forall k1, k2 :: 0 <= k1 < k2 < |FrameOffsets(n)| ==>
      FrameOffsets(n)[k1] + FrameSamples <= FrameOffsets(n)[k2]
  {
    FrameWalkShape(0, n);
    FrameWalkFits(0, n);
  }
}
