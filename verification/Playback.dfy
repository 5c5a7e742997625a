/**
 * The PLAY state's calls into the codec and the speaker, as a trace: for
 * each frame, audio_encode, then (inside its callback encoded_callback)
 * audio_decode, then (inside the decoder's write callback i2s_write_wrapper)
 * spk_play. The trace also records the REC state's collaborator calls.
 */
module Playback {
  import opened Platform
  import opened Framing

  /** An Opus packet: at most OPUS_MAX_PACKET_SIZE bytes. */
  type Packet = p: seq<Byte> | |p| <= OpusMaxPacketSize

  /** The encoder and decoder of media.h (their bodies are not part of this model). */
  datatype Codec = Codec(encode: seq<Int16> -> Packet, decode: Packet -> seq<Int16>)

  /** A call the controller makes into code outside main.c, in the order it is made. */
  datatype Call =
    | ResetFilters
    | MicRead(offset: nat, requested: nat, got: nat)
    | Encode(offset: nat, pcm: seq<Int16>)
    | Decode(packet: Packet)
    | SpkPlay(pcm: seq<Int16>)

  /** The three calls one frame causes: encode it, decode its packet, play what was decoded. */
  function FrameCalls(codec: Codec, buf: seq<Int16>, o: nat): seq<Call>
    requires o + FrameSamples <= |buf|
  {
    var frame := buf[o..o + FrameSamples];
    var packet := codec.encode(frame);
    [Encode(o, frame), Decode(packet), SpkPlay(codec.decode(packet))]
  }

  ghost predicate FramesFit(offsets: seq<nat>, n: nat)
  {
    forall k :: 0 <= k < |offsets| ==> offsets[k] + FrameSamples <= n
  }

  /** The calls for the frames at `offsets`, one frame after the other. */
  function WalkCalls(codec: Codec, buf: seq<Int16>, offsets: seq<nat>): seq<Call>
    requires FramesFit(offsets, |buf|)
    decreases |offsets|
  {
    if offsets == [] then []
    else FrameCalls(codec, buf, offsets[0]) + WalkCalls(codec, buf, offsets[1..])
  }

  /**
   * Frame k occupies calls 3k, 3k+1 and 3k+2: its encode, the decode of its
   * packet and the playback of the decoded samples, all before the encode of frame k+1.
   */
  lemma {:induction false} WalkCallsAt(codec: Codec, buf: seq<Int16>, offsets: seq<nat>, k: nat)
    requires FramesFit(offsets, |buf|) && k < |offsets|
    ensures |WalkCalls(codec, buf, offsets)| == 3 * |offsets|
    ensures WalkCalls(codec, buf, offsets)[3 * k .. 3 * k + 3] == FrameCalls(codec, buf, offsets[k])
    decreases |offsets|
  {
    if k > 0 {
      WalkCallsAt(codec, buf, offsets[1..], k - 1);
    } else if |offsets| > 1 {
      WalkCallsAt(codec, buf, offsets[1..], 0);
    } else {
      assert offsets[1..] == [];
    }
  }

  /** The samples handed to the encoder, concatenated in call order. */
  function EncodedPcm(calls: seq<Call>): seq<Int16>
  {
    if calls == [] then []
    else (if calls[0].Encode? then calls[0].pcm else []) + EncodedPcm(calls[1..])
  }

  /** The samples handed to the speaker, concatenated in call order. */
  function PlayedPcm(calls: seq<Call>): seq<Int16>
  {
    if calls == [] then []
    else (if calls[0].SpkPlay? then calls[0].pcm else []) + PlayedPcm(calls[1..])
  }

  /** One frame hands the encoder that frame and the speaker its decoded packet. */
  lemma FrameCallsPcm(codec: Codec, buf: seq<Int16>, o: nat)
    requires o + FrameSamples <= |buf|
    ensures EncodedPcm(FrameCalls(codec, buf, o)) == buf[o..o + FrameSamples]
    ensures PlayedPcm(FrameCalls(codec, buf, o)) == codec.decode(codec.encode(buf[o..o + FrameSamples]))
  {
    var calls := FrameCalls(codec, buf, o);
    assert calls[2..][1..] == [];
    assert calls[1..][1..] == calls[2..];
    assert EncodedPcm(calls[2..]) == [] && PlayedPcm(calls[2..]) == calls[2].pcm;
    assert EncodedPcm(calls[1..]) == [] && PlayedPcm(calls[1..]) == calls[2].pcm;
  }

  lemma {:induction false} PcmAppend(a: seq<Call>, b: seq<Call>)
    ensures EncodedPcm(a + b) == EncodedPcm(a) + EncodedPcm(b)
    ensures PlayedPcm(a + b) == PlayedPcm(a) + PlayedPcm(b)
    decreases |a|
  {
    if a == [] {
      assert a + b == b;
    } else {
      assert (a + b)[0] == a[0];
      assert (a + b)[1..] == a[1..] + b;
      PcmAppend(a[1..], b);
    }
  }

  /**
   * From a whole-frame offset i, the frames of the walk hand the encoder
   * exactly buf[i..], and the speaker the decoding of each of those frames.
   */
  lemma {:induction false} WalkEncodesRest(codec: Codec, buf: seq<Int16>, i: nat)
    requires i % FrameSamples == 0 && |buf| % FrameSamples == 0 && i <= |buf|
    ensures FramesFit(FrameWalk(i, |buf|), |buf|)
    ensures EncodedPcm(WalkCalls(codec, buf, FrameWalk(i, |buf|))) == buf[i..]
    ensures (forall f: seq<Int16> :: |f| == FrameSamples ==> codec.decode(codec.encode(f)) == f) ==>
      PlayedPcm(WalkCalls(codec, buf, FrameWalk(i, |buf|))) == buf[i..]
    decreases |buf| - i
  {
    var n := |buf|;
    FrameWalkFits(i, n);
    if i < n {
      assert i + FrameSamples <= n by {
        assert FrameWalk(i, n)[0] == i;
      }
      var rest := FrameWalk(i + FrameSamples, n);
      assert FrameWalk(i, n)[1..] == rest;
      WalkEncodesRest(codec, buf, i + FrameSamples);
      var head := FrameCalls(codec, buf, i);
      PcmAppend(head, WalkCalls(codec, buf, rest));
      FrameCallsPcm(codec, buf, i);
      assert buf[i..] == buf[i..i + FrameSamples] + buf[i + FrameSamples..];
    }
  }

  /**
   * When the buffer is a whole number of frames, the PLAY walk hands the
   * encoder the whole buffer, each sample once and in order; with a codec that
   * gives back every frame it is given, the speaker plays exactly the buffer.
   */
  lemma EncodeCoversBuffer(codec: Codec, buf: seq<Int16>)
    requires |buf| % FrameSamples == 0
    ensures FramesFit(FrameOffsets(|buf|), |buf|)
    ensures EncodedPcm(WalkCalls(codec, buf, FrameOffsets(|buf|))) == buf
    ensures (forall f: seq<Int16> :: |f| == FrameSamples ==> codec.decode(codec.encode(f)) == f) ==>
      PlayedPcm(WalkCalls(codec, buf, FrameOffsets(|buf|))) == buf
  {
    WalkEncodesRest(codec, buf, 0);
  }

  /**
   * The encode calls of the walk name the offsets 0, 320, 640, ... in
   * strictly increasing order, each with a 320-sample frame, and frame k is
   * decoded and played before frame k+1 is encoded.
   */
  lemma PlayOrder(codec: Codec, buf: seq<Int16>, k: nat)
    requires |buf| % FrameSamples == 0 && k < |buf| / FrameSamples
    ensures FramesFit(FrameOffsets(|buf|), |buf|)
    ensures |WalkCalls(codec, buf, FrameOffsets(|buf|))| == 3 * (|buf| / FrameSamples)
    ensures var calls := WalkCalls(codec, buf, FrameOffsets(|buf|));
      var o := FrameSamples * k;
      var frame := buf[o..o + FrameSamples];
      calls[3 * k] == Encode(o, frame)
      && calls[3 * k + 1] == Decode(codec.encode(frame))
      && calls[3 * k + 2] == SpkPlay(codec.decode(codec.encode(frame)))
  {
    var n := |buf|;
    FrameWalkShape(0, n);
    FrameWalkFits(0, n);
    var offsets := FrameOffsets(n);
    assert |offsets| == n / FrameSamples;
    WalkCallsAt(codec, buf, offsets, k);
    var calls := WalkCalls(codec, buf, offsets);
    assert offsets[k] == FrameSamples * k;
    assert calls[3 * k .. 3 * k + 3][0] == calls[3 * k];
    assert calls[3 * k .. 3 * k + 3][1] == calls[3 * k + 1];
    assert calls[3 * k .. 3 * k + 3][2] == calls[3 * k + 2];
  }
}
