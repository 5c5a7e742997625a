/**
 * main_task: the recorder's controller. Its static globals (state, idx,
 * t_start, the LED level and the two sample buffers) are the fields of
 * Controller, and one pass of its `switch` is Step.
 */
module App {
  import opened Platform
  import opened Filters
  import opened Framing
  import opened StateMachine
  import opened Playback

  /** micBuf after mic_record(micBuf + at, |buf| - at) delivered from `ready`; no read at all when at == |buf|. */
  function AfterRead(buf: seq<Int32>, at: nat, ready: seq<Int32>): (r: seq<Int32>)
    requires at <= |buf|
    ensures |r| == |buf|
    ensures forall j :: 0 <= j < |buf| && (j < at || j >= at + MicCount(|ready|, |buf| - at)) ==> r[j] == buf[j]
    ensures forall j :: at <= j < at + MicCount(|ready|, |buf| - at) ==> r[j] == ready[j - at]
  {
    var k := MicCount(|ready|, |buf| - at);
    buf[..at] + ready[..k] + buf[at + k..]
  }

  /** The collaborator calls of one REC pass: the filter reset, then a read unless the buffer is full. */
  function RecCalls(idx: nat, ready: nat): seq<Call>
  {
    [ResetFilters] + if idx < BufSamples then [MicRead(idx, BufSamples - idx, MicCount(ready, BufSamples - idx))] else []
  }

  /** The collaborator calls of one pass from registers r, given the filtered buffer as it was. */
  function StepCalls(r: Registers, ready: nat, codec: Codec, filtered: seq<Int16>): seq<Call>
    requires |filtered| == BufSamples
  {
    match r.phase
    case Idle => []
    case Rec => RecCalls(r.idx, ready)
    case Play =>
      FrameWalkFits(0, BufSamples);
      WalkCalls(codec, filtered, FrameOffsets(BufSamples))
  }

  class Controller {
    var state: Phase
    var idx: nat
    var tStart: Micros
    var led: Level
    const micBuf: array<Int32>
    const filteredBuf: array<Int16>
    const filters: VoiceFilters
    const codec: Codec
    /** The calls made so far into the filters, the microphone, the codec and the speaker. */
    ghost var trace: seq<Call>

    function Regs(): Registers
      reads this
    {
      Registers(state, idx, tStart, led)
    }

    ghost predicate Valid()
      reads this
    {
      micBuf.Length == BufSamples && filteredBuf.Length == BufSamples && Inv(Regs())
    }

    /** The buffers app_main allocates, the drivers and codec it sets up, and main_task's initial statics. */
    constructor (bank: FilterBank, codec: Codec)
      ensures Valid() && Regs() == Registers(Idle, 0, 0, 0) && trace == []
      ensures fresh(micBuf) && fresh(filteredBuf) && fresh(filters)
      ensures filters.bank == bank && filters.State() == Fresh(bank) && this.codec == codec
    {
      state, idx, tStart, led := Idle, 0, 0, 0;
      micBuf := new Int32[BufSamples];
      filteredBuf := new Int16[BufSamples];
      filters := new VoiceFilters(bank);
      this.codec := codec;
      trace := [];
    }

    /** IDLE: a press lights the LED, rewinds the cursor, stamps the start time and starts recording. */
    method IdleStep(pressed: bool, now: Micros)
      requires Valid() && state == Idle
      modifies this
      ensures Valid() && trace == old(trace)
      ensures pressed ==> state == Rec && idx == 0 && tStart == now && led == 1
      ensures !pressed ==> Regs() == old(Regs())
    {
      if pressed {
        led := 1;
        idx := 0;
        tStart := now;
        state := Rec;
      }
    }

    /** mic_record(micBuf + dst, lenSamples): copy what the driver holds, at most lenSamples, and report how many. */
    method MicRecord(dst: nat, lenSamples: nat, ready: seq<Int32>) returns (k: nat)
      requires dst + lenSamples == micBuf.Length
      modifies this`trace, micBuf
      ensures k == MicCount(|ready|, lenSamples)
      ensures micBuf[..] == AfterRead(old(micBuf[..]), dst, ready)
      ensures trace == old(trace) + [MicRead(dst, lenSamples, k)]
    {
      k := MicCount(|ready|, lenSamples);
      forall j | dst <= j < dst + k {
        micBuf[j] := ready[j - dst];
      }
      trace := trace + [MicRead(dst, lenSamples, k)];
    }

    /**
     * The filter-and-convert loop: every one of the BUF_SAMPLES slots, filled
     * or not, goes through DC block, wind high-pass, `>> 11` and the limiter,
     * in increasing order, from the filter memory the loop starts with.
     */
    method FilterAndConvert()
      requires micBuf.Length == BufSamples && filteredBuf.Length == BufSamples
      modifies filteredBuf, filters
      ensures filteredBuf[..] == FilterRun(filters.bank, old(filters.State()), micBuf[..])
      ensures filters.State() == MemoryAfter(filters.bank, old(filters.State()), micBuf[..])
    {
      ghost var m0 := filters.State();
      ghost var mic := micBuf[..];
      for i := 0 to BufSamples
        invariant micBuf[..] == mic
        invariant filteredBuf[..i] == FilterRun(filters.bank, m0, mic[..i])
        invariant filters.State() == MemoryAfter(filters.bank, m0, mic[..i])
      {
        ghost var before := filters.State();
        var raw := micBuf[i];
        raw := filters.DcBlock(raw);
        raw := filters.WindHighpass(raw);
        var sample := filters.LimitAmplitude(Shr11(raw));
        assert (filters.State(), sample) == ChainSample(filters.bank, before, mic[i]);
        filteredBuf[i] := sample;
        assert mic[..i + 1][..i] == mic[..i];
      }
      assert filteredBuf[..] == filteredBuf[..BufSamples];
      assert mic == mic[..BufSamples];
    }

    /**
     * REC: reset the filters, read into the free tail of micBuf unless it is
     * full, and end the recording when the button is (still) pressed or the
     * ceiling has passed: LED off, the whole buffer filtered from fresh
     * filter memory, cursor rewound, on to PLAY.
     */
    method RecStep(pressed: bool, now: Micros, ready: seq<Int32>)
      requires Valid() && state == Rec
      modifies this, micBuf, filteredBuf, filters
      ensures Valid()
      ensures Regs() == Next(old(Regs()), Poll(pressed, now, |ready|))
      ensures micBuf[..] == AfterRead(old(micBuf[..]), old(idx), ready)
      ensures old(idx) == BufSamples ==> micBuf[..] == old(micBuf[..])
      ensures trace == old(trace) + RecCalls(old(idx), |ready|)
      ensures state == Play ==>
        filteredBuf[..] == FilterRun(filters.bank, Fresh(filters.bank), micBuf[..])
        && filters.State() == MemoryAfter(filters.bank, Fresh(filters.bank), micBuf[..])
      ensures state == Rec ==> filteredBuf[..] == old(filteredBuf[..]) && filters.State() == Fresh(filters.bank)
    {
      filters.Reset();
      trace := trace + [ResetFilters];
      if idx < BufSamples {
        var k := MicRecord(idx, BufSamples - idx, ready);
        idx := idx + k;
      }
      var timeout := Timeout(now, tStart);
      if pressed || timeout {
        led := 0;
        FilterAndConvert();
        idx := 0;
        state := Play;
      }
    }

    /** i2s_write_wrapper: play the samples and report count * 2 bytes written, always ESP_OK. */
    method I2sWriteWrapper(samples: seq<Int16>, count: nat) returns (err: int, bytesWritten: nat)
      requires count <= |samples|
      modifies this`trace
      ensures err == EspOk && bytesWritten == 2 * count
      ensures trace == old(trace) + [SpkPlay(samples[..count])]
    {
      trace := trace + [SpkPlay(samples[..count])];
      bytesWritten := count * 2;
      err := EspOk;
    }

    /** audio_decode(data, size, i2s_write_wrapper): decode the packet and hand the PCM frame to the write callback. */
    method AudioDecode(packet: Packet)
      modifies this`trace
      ensures trace == old(trace) + [Decode(packet), SpkPlay(codec.decode(packet))]
    {
      trace := trace + [Decode(packet)];
      var pcm := codec.decode(packet);
      var err, written := I2sWriteWrapper(pcm, |pcm|);
      assert pcm[..|pcm|] == pcm;
    }

    /** encoded_callback: decode each packet as soon as the encoder emits it. */
    method EncodedCallback(packet: Packet)
      modifies this`trace
      ensures trace == old(trace) + [Decode(packet), SpkPlay(codec.decode(packet))]
    {
      AudioDecode(packet);
    }

    /** audio_encode(filteredBuf + offset, count, encoded_callback): encode one frame and pass the packet on. */
    method AudioEncode(offset: nat, count: nat)
      requires offset + count <= filteredBuf.Length
      modifies this`trace
      ensures var frame := filteredBuf[offset..offset + count];
        trace == old(trace) + [Encode(offset, frame), Decode(codec.encode(frame)), SpkPlay(codec.decode(codec.encode(frame)))]
    {
      var frame := filteredBuf[offset..offset + count];
      trace := trace + [Encode(offset, frame)];
      EncodedCallback(codec.encode(frame));
    }

    /** PLAY: encode, decode and play the filtered clip 320 samples at a time, then back to IDLE. */
    method PlayStep()
      requires Valid() && state == Play
      modifies this
      ensures Valid() && Regs() == old(Regs()).(phase := Idle)
      ensures FramesFit(FrameOffsets(BufSamples), BufSamples)
      ensures trace == old(trace) + WalkCalls(codec, filteredBuf[..], FrameOffsets(BufSamples))
    {
      FrameWalkFits(0, BufSamples);
      var i: nat := 0;
      while i < BufSamples
        invariant i % FrameSamples == 0 && i <= BufSamples
        invariant Regs() == old(Regs())
        invariant FramesFit(FrameWalk(i, BufSamples), BufSamples)
        invariant old(trace) + WalkCalls(codec, filteredBuf[..], FrameOffsets(BufSamples))
                  == trace + WalkCalls(codec, filteredBuf[..], FrameWalk(i, BufSamples))
        decreases BufSamples - i
      {
        AudioEncode(i, FrameSamples);
        assert FrameWalk(i, BufSamples)[0] == i;
        i := i + FrameSamples;
        FrameWalkFits(i, BufSamples);
      }
      state := Idle;
    }

    /** One pass of main_task's `switch`, with the inputs it reads during that pass. */
    method Step(pressed: bool, now: Micros, ready: seq<Int32>)
      requires Valid()
      modifies this, micBuf, filteredBuf, filters
      ensures Valid()
      ensures Regs() == Next(old(Regs()), Poll(pressed, now, |ready|))
      ensures micBuf[..] == if old(state) == Rec then AfterRead(old(micBuf[..]), old(idx), ready) else old(micBuf[..])
      ensures old(state) == Rec && state == Play ==>
        filteredBuf[..] == FilterRun(filters.bank, Fresh(filters.bank), micBuf[..])
      ensures !(old(state) == Rec && state == Play) ==> filteredBuf[..] == old(filteredBuf[..])
      ensures old(state) == Rec && state == Play ==>
        filters.State() == MemoryAfter(filters.bank, Fresh(filters.bank), micBuf[..])
      ensures old(state) == Rec && state == Rec ==> filters.State() == Fresh(filters.bank)
      ensures old(state) != Rec ==> filters.State() == old(filters.State())
      ensures trace == old(trace) + StepCalls(old(Regs()), |ready|, codec, old(filteredBuf[..]))
    {
      match state
      case Idle => IdleStep(pressed, now);
      case Rec => RecStep(pressed, now, ready);
      case Play => PlayStep();
    }
  }
}
