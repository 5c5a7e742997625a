/**
 * The registers of main_task (state, idx, t_start and the LED level) and how
 * one pass of its `switch` changes them, as a pure function of the inputs of
 * that pass: the button level, the clock reading and how many samples the
 * microphone driver has ready.
 */
module StateMachine {
  import opened Platform

  datatype Phase = Idle | Rec | Play

  /** state, idx (the sample cursor), t_start (µs) and the LED level. */
  datatype Registers = Registers(phase: Phase, idx: nat, tStart: Micros, led: Level)

  /** What one pass reads from outside: button_pressed(), esp_timer_get_time() and the samples the I2S driver holds. */
  datatype Poll = Poll(pressed: bool, now: Micros, ready: nat)

  /** REC_SECONDS * 1000000ULL: the recording ceiling in microseconds. */
  const Ceiling: nat := RecSeconds * 1000000

  const TwoTo64: nat := 0x1_0000_0000_0000_0000

  /**
   * `(now - t_start) > REC_SECONDS * 1000000ULL`. The int64_t difference is
   * converted to unsigned long long before the comparison, so a clock reading
   * before t_start would count as a timeout; with esp_timer's monotonic clock
   * it is "more than the ceiling has elapsed", and exactly the ceiling is not enough.
   */
  predicate Timeout(now: Micros, start: Micros)
    ensures now >= start ==> (Timeout(now, start) <==> now - start > Ceiling)
    ensures now < start ==> Timeout(now, start)
  {
    var diff := now - start;
    (if diff < 0 then diff + TwoTo64 else diff) > Ceiling
  }

  /** mic_record(dst, request): the driver copies what it has, never more than was asked for. */
  function MicCount(ready: nat, request: nat): (k: nat)
    ensures k <= request && k <= ready
    ensures k == request || k == ready
  {
    if ready < request then ready else request
  }

  /**
   * What the controller keeps true between passes: the cursor never passes
   * the end of the buffer, it is 0 outside REC, and the LED is lit exactly while recording.
   */
  ghost predicate Inv(r: Registers)
  {
    r.idx <= BufSamples
    && (r.phase != Rec ==> r.idx == 0)
    && r.led == (if r.phase == Rec then 1 else 0)
  }

  /** One pass of the `switch` in main_task. */
  function Next(r: Registers, p: Poll): (s: Registers)
    ensures Inv(r) ==> Inv(s)
    ensures r.phase == Idle && !p.pressed ==> s == r
    ensures r.phase == Idle && p.pressed ==> s == Registers(Rec, 0, p.now, 1)
    ensures r.phase == Rec ==> (s.phase == Play <==> p.pressed || Timeout(p.now, r.tStart))
    ensures r.phase == Rec && s.phase == Play ==> s.led == 0 && s.idx == 0 && s.tStart == r.tStart
    ensures r.phase == Rec && s.phase == Rec ==> s.led == r.led && s.tStart == r.tStart
    ensures r.phase == Rec && r.idx <= BufSamples ==>
      (s.phase == Rec ==> s.idx == r.idx + MicCount(p.ready, BufSamples - r.idx))
    ensures r.phase == Play ==> s == r.(phase := Idle)
  {
    match r.phase
    case Idle =>
      if p.pressed then r.(phase := Rec, idx := 0, tStart := p.now, led := 1) else r
    case Rec =>
      var idx := if r.idx < BufSamples then r.idx + MicCount(p.ready, BufSamples - r.idx) else r.idx;
      if p.pressed || Timeout(p.now, r.tStart) then r.(phase := Play, idx := 0, led := 0)
      else r.(idx := idx)
    case Play =>
      r.(phase := Idle)
  }

  /** The registers after the passes `ps`, in order. */
  function Run(r: Registers, ps: seq<Poll>): Registers
    decreases |ps|
  {
    if ps == [] then r else Run(Next(r, ps[0]), ps[1..])
  }

  lemma {:induction false} RunSnoc(r: Registers, ps: seq<Poll>, q: Poll)
    ensures Run(r, ps + [q]) == Next(Run(r, ps), q)
    decreases |ps|
  {
    if ps != [] {
      assert (ps + [q])[1..] == ps[1..] + [q];
      RunSnoc(Next(r, ps[0]), ps[1..], q);
    }
  }

  /** The controller's invariant, in particular idx <= BUF_SAMPLES, holds after any sequence of passes. */
  lemma {:induction false} RunKeepsInv(r: Registers, ps: seq<Poll>)
    requires Inv(r)
    ensures Inv(Run(r, ps))
    decreases |ps|
  {
    if ps != [] {
      RunKeepsInv(Next(r, ps[0]), ps[1..]);
    }
  }

  /** The total number of samples the driver holds over the polls `ps`. */
  function Sum(ps: seq<Poll>): nat
  {
    if ps == [] then 0 else ps[0].ready + Sum(ps[1..])
  }

  /** Polls during which the button stays up and the ceiling has not been passed. */
  ghost predicate Quiet(start: Micros, ps: seq<Poll>)
  {
    forall i :: 0 <= i < |ps| ==> !ps[i].pressed && start <= ps[i].now <= start + Ceiling
  }

  /**
   * While the button stays up and no more than the ceiling has elapsed, the
   * controller stays in REC and the cursor advances by what the microphone
   * delivers, stopping at the end of the buffer, as if one read had asked for
   * all the free space.
   */
  lemma {:induction false} RecordingFills(r: Registers, ps: seq<Poll>)
    requires r.phase == Rec && r.idx <= BufSamples && Quiet(r.tStart, ps)
    ensures Run(r, ps).phase == Rec && Run(r, ps).tStart == r.tStart && Run(r, ps).led == r.led
    ensures Run(r, ps).idx == r.idx + MicCount(Sum(ps), BufSamples - r.idx)
    decreases |ps|
  {
    if ps != [] {
      var s := Next(r, ps[0]);
      assert !Timeout(ps[0].now, r.tStart);
      assert Quiet(s.tStart, ps[1..]) by {
        forall i | 0 <= i < |ps[1..]|
          ensures !ps[1..][i].pressed && s.tStart <= ps[1..][i].now <= s.tStart + Ceiling
        {
          assert ps[1..][i] == ps[i + 1];
        }
      }
      RecordingFills(s, ps[1..]);
    }
  }

  /**
   * The first pass whose clock reading is past the ceiling ends the
   * recording, even when the button was never pressed.
   */
  lemma RecordingTimesOut(r: Registers, ps: seq<Poll>, q: Poll)
    requires r.phase == Rec && r.idx <= BufSamples && Quiet(r.tStart, ps)
    requires q.now > r.tStart + Ceiling
    ensures Run(r, ps + [q]).phase == Play
    ensures Run(r, ps + [q]).idx == 0 && Run(r, ps + [q]).led == 0
  {
    RecordingFills(r, ps);
    RunSnoc(r, ps, q);
  }
}
