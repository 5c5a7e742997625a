/**
 * The voice filters of filters.h as the controller uses them, and the
 * per-sample chain of the REC exit pass: DC block, then wind high-pass,
 * then `>> 11` down to 16 bits, then the amplitude limiter.
 *
 * The filter bodies are not part of this model. Each stateful filter is
 * therefore a parameter: a transfer from (memory, input) to (memory, output)
 * together with the memory reset_voice_filters() puts back.
 */
module Filters {
  import opened Platform

  /** The running values a stateful filter keeps between calls (previous samples, bias estimate). */
  type FilterMemory = seq<int>

  /** One stateful int32 -> int32 filter and the memory it has after a reset. */
  datatype Stage = Stage(transfer: (FilterMemory, Int32) -> (FilterMemory, Int32), zero: FilterMemory)

  /** dc_block_filter, wind_highpass_filter and limit_amplitude (stateless, int32 -> int16). */
  datatype FilterBank = FilterBank(dcBlock: Stage, windHighpass: Stage, limit: Int32 -> Int16)

  /** The memory of the two stateful filters the controller calls. */
  datatype ChainMemory = ChainMemory(dc: FilterMemory, wind: FilterMemory)

  /** The memory of the chain right after reset_voice_filters(). */
  function Fresh(bank: FilterBank): ChainMemory
  {
    ChainMemory(bank.dcBlock.zero, bank.windHighpass.zero)
  }

  /** `x >> 11` on an int32_t: an arithmetic shift, that is, division by 2048 rounded down. */
  function Shr11(x: Int32): (r: Int32)
    ensures -0x10_0000 <= r <= 0xF_FFFF
    ensures r * 2048 <= x < r * 2048 + 2048
  {
    x / 2048
  }

  /** One sample through the chain: the new chain memory and the int16 sample stored. */
  function ChainSample(bank: FilterBank, m: ChainMemory, x: Int32): (ChainMemory, Int16)
  {
    var dc := bank.dcBlock.transfer(m.dc, x);
    var wind := bank.windHighpass.transfer(m.wind, dc.1);
    (ChainMemory(dc.0, wind.0), bank.limit(Shr11(wind.1)))
  }

  /** The chain memory after feeding the samples `xs`, in order, starting from `m0`. */
  function MemoryAfter(bank: FilterBank, m0: ChainMemory, xs: seq<Int32>): ChainMemory
    decreases |xs|
  {
    if xs == [] then m0
    else ChainSample(bank, MemoryAfter(bank, m0, xs[..|xs| - 1]), xs[|xs| - 1]).0
  }

  /** The int16 samples the chain produces for `xs`, in order, starting from `m0`. */
  function FilterRun(bank: FilterBank, m0: ChainMemory, xs: seq<Int32>): (r: seq<Int16>)
    ensures |r| == |xs|
    decreases |xs|
  {
    if xs == [] then []
    else
      var front := xs[..|xs| - 1];
      FilterRun(bank, m0, front) + [ChainSample(bank, MemoryAfter(bank, m0, front), xs[|xs| - 1]).1]
  }

  /** Output i is the chain applied to input i, with the memory left by inputs 0 .. i-1. */
  lemma {:induction false} FilterRunAt(bank: FilterBank, m0: ChainMemory, xs: seq<Int32>, i: nat)
    requires i < |xs|
    ensures FilterRun(bank, m0, xs)[i] == ChainSample(bank, MemoryAfter(bank, m0, xs[..i]), xs[i]).1
    decreases |xs|
  {
    var front := xs[..|xs| - 1];
    if i < |xs| - 1 {
      FilterRunAt(bank, m0, front, i);
      assert front[..i] == xs[..i];
    } else {
      assert front == xs[..i];
    }
  }

  /** The first k outputs are the outputs for the first k inputs: the chain never reads ahead. */
  lemma {:induction false} FilterRunPrefix(bank: FilterBank, m0: ChainMemory, xs: seq<Int32>, k: nat)
    requires k <= |xs|
    ensures FilterRun(bank, m0, xs)[..k] == FilterRun(bank, m0, xs[..k])
    decreases |xs|
  {
    if k < |xs| {
      var front := xs[..|xs| - 1];
      FilterRunPrefix(bank, m0, front, k);
      assert front[..k] == xs[..k];
    } else {
      assert xs[..k] == xs;
    }
  }

  /**
   * Two buffers that agree on their first k samples are filtered to buffers
   * that agree on their first k samples, whatever follows.
   */
  lemma FilterRunCausal(bank: FilterBank, m0: ChainMemory, xs: seq<Int32>, ys: seq<Int32>, k: nat)
    requires k <= |xs| && k <= |ys| && xs[..k] == ys[..k]
    ensures FilterRun(bank, m0, xs)[..k] == FilterRun(bank, m0, ys)[..k]
  {
    FilterRunPrefix(bank, m0, xs, k);
    FilterRunPrefix(bank, m0, ys, k);
  }

  /**
   * The filters of filters.h with their static memory: the controller
   * resets them and feeds them one sample at a time.
   */
  class VoiceFilters {
    const bank: FilterBank
    var dcMemory: FilterMemory
    var windMemory: FilterMemory

    function State(): ChainMemory
      reads this
    {
      ChainMemory(dcMemory, windMemory)
    }

    constructor (bank: FilterBank)
      ensures this.bank == bank && State() == Fresh(bank)
    {
      this.bank := bank;
      dcMemory := bank.dcBlock.zero;
      windMemory := bank.windHighpass.zero;
    }

    /** reset_voice_filters(): every stateful filter forgets its past. */
    method Reset()
      modifies this
      ensures State() == Fresh(bank)
    {
      dcMemory := bank.dcBlock.zero;
      windMemory := bank.windHighpass.zero;
    }

    /** dc_block_filter(input). */
    method DcBlock(input: Int32) returns (output: Int32)
      modifies this
      ensures (dcMemory, output) == bank.dcBlock.transfer(old(dcMemory), input)
      ensures windMemory == old(windMemory)
    {
      var t := bank.dcBlock.transfer(dcMemory, input);
      dcMemory, output := t.0, t.1;
    }

    /** wind_highpass_filter(input). */
    method WindHighpass(input: Int32) returns (output: Int32)
      modifies this
      ensures (windMemory, output) == bank.windHighpass.transfer(old(windMemory), input)
      ensures dcMemory == old(dcMemory)
    {
      var t := bank.windHighpass.transfer(windMemory, input);
      windMemory, output := t.0, t.1;
    }

    /** limit_amplitude(sample): stateless, and its result always fits an int16_t. */
    function LimitAmplitude(sample: Int32): (r: int)
      ensures -0x8000 <= r <= 0x7FFF
    {
      bank.limit(sample)
    }
  }
}
