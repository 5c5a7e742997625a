# Push-to-talk recorder controller, modelled in Dafny

This project models the controller of an ESP32 push-to-talk voice recorder
(`main_task` in `main/main.c`). A button press in IDLE starts a recording:
the LED lights, the sample cursor `idx` is rewound and the start time is
stamped. In REC, every pass resets the voice filters and reads from the
I2S microphone into the free tail of `micBuf`. When the button is pressed
or more than `REC_SECONDS` have elapsed, the LED goes off. Every slot of
`micBuf` then goes through DC block, wind high-pass, `>> 11` and the
amplitude limiter into `filteredBuf`, and the controller moves to PLAY.
PLAY walks `filteredBuf` in 320-sample frames: each frame is Opus-encoded,
its packet is decoded inside the encoder's callback, and the decoded PCM
is played inside the decoder's write callback. Then the controller is back
in IDLE.

Modules:

- `Platform`: the integer widths (`Int16`, `Int32`, `Byte`, `Micros`) and the build constants.
- `Filters`: the filter interface of `filters.h` as a class with explicit filter memory. It also holds the per-sample chain of the filter loop, specified by `FilterRun`.
- `Framing`: the `i += 320` frame walk and its partition properties.
- `StateMachine`: the registers `state`, `idx`, `t_start` and the LED as a pure transition function `Next`, with lemmas over runs of passes.
- `Playback`: the codec, the trace of collaborator calls, and what the PLAY walk hands the encoder and the speaker.
- `App`: class `Controller`, holding `main_task`'s statics. It has one method per state, `Step` for one pass of the `switch`, and the collaborator calls as methods.

The environment is passed in as parameters. `Step` takes the button level,
the clock reading and the samples the microphone driver holds. The filter
bodies (`FilterBank`) and the codec (`Codec`) are arbitrary functions given
to the constructor. Each stateful filter is a transfer
`(memory, input) -> (memory, output)` plus the memory `reset_voice_filters()`
restores. Their bodies are not part of this model, and the model assumes
these four things about them that the headers do not show:

- `dc_block_filter` and `wind_highpass_filter` each keep their own memory, and neither reads or changes the other's.
- `reset_voice_filters()` resets the memory of both, the wind high-pass included, although `filters.h` lists it among the general voice filters. The "fresh filter memory" of the REC exit pass rests on this.
- `limit_amplitude` keeps no state: its result depends only on its argument.
- `audio_encode` calls its send callback exactly once before it returns, with a packet of at most `OPUS_MAX_PACKET_SIZE` (1276) bytes. `audio_decode` calls its write callback exactly once, with the whole decoded frame.

In four places the code does something other than the obvious reading, and the model follows the code:

- REC ends while the button is *pressed* (`button_pressed() || timeout`), not when it is released.
- The filter loop runs over all `BUF_SAMPLES` slots, not only the `idx` captured ones. The unfilled tail is not zeroed: it is filtered from whatever `micBuf` still holds (`FilterRunAt` applies to every index).
- The filters are reset on every REC pass, so the REC exit pass always starts from fresh memory.
- The timeout compares an `int64_t` difference against an `unsigned long long` ceiling. `Timeout` models the conversion to unsigned. With the monotonic `esp_timer` clock, this is exactly "elapsed > ceiling".

`x >> 11` on a negative `int32_t` is implementation-defined in C. It is modelled as an arithmetic shift (floor division by 2048), which is what GCC does.

`utils.h` is not part of this model. `BUF_SAMPLES` is taken as `SAMPLE_RATE * REC_SECONDS = 16000 * 5`, which is positive and a multiple of 320. The framing lemmas are stated for every buffer length.

## Model

| member | source | states |
|---|---|---|
| `Filters.Shr11` | main/main.c:98 | `raw >> 11` is floor division by 2048: the result lies in [-1048576, 1048575] and `r * 2048 <= x < r * 2048 + 2048` |
| `Filters.FilterRun` | main/main.c:93-99 | the filter loop yields one int16 sample per input sample |
| `Filters.FilterRunAt` | main/main.c:94-98 | output i is `limit_amplitude(wind_highpass_filter(dc_block_filter(micBuf[i])) >> 11)`, computed with the filter memory left by samples 0 .. i-1, so the samples are processed in increasing order |
| `Filters.FilterRunPrefix` | main/main.c:93-99 | the first k outputs are the outputs for the first k inputs |
| `Filters.FilterRunCausal` | main/main.c:93-99 | buffers that agree on their first k samples are filtered to buffers that agree on their first k samples: unfilled slots never change the captured part |
| `Filters.VoiceFilters.constructor` | main/includes/filters.h:6-12 | the filters start from their reset memory |
| `Filters.VoiceFilters.Reset` | main/includes/filters.h:8 | `reset_voice_filters()` puts every stateful filter back to its reset memory |
| `Filters.VoiceFilters.DcBlock` | main/includes/filters.h:7 | `dc_block_filter` returns an int32 and updates only its own memory |
| `Filters.VoiceFilters.WindHighpass` | main/includes/filters.h:11 | `wind_highpass_filter` returns an int32 and updates only its own memory |
| `Filters.VoiceFilters.LimitAmplitude` | main/includes/filters.h:12 | `limit_amplitude` maps every int32 sample into the int16 range [-32768, 32767], reading no filter memory |
| `Framing.FrameWalkShape` | main/main.c:109 | from offset i, the loop visits ceil((n - i) / 320) offsets; the k-th is i + 320k, and all are below n |
| `Framing.FrameOffsetsIncrease` | main/main.c:109 | the encoded offsets start at 0, are below `BUF_SAMPLES`, and increase strictly, by exactly 320 each time |
| `Framing.FrameWalkFits` | main/main.c:109-111 | from a whole-frame offset, every 320-sample frame stays inside a buffer that is a whole number of frames |
| `Framing.FramesFitIff` | main/main.c:109-111 | every encoded frame lies inside the buffer if and only if `BUF_SAMPLES % 320 == 0`; otherwise the last frame reads past the end |
| `Framing.FramesPartition` | main/main.c:109-111 | with `BUF_SAMPLES % 320 == 0`: exactly `BUF_SAMPLES / 320` frames, all in bounds, pairwise disjoint, and covering every index |
| `StateMachine.Timeout` | main/main.c:85-86 | the timeout fires iff `now - t_start > REC_SECONDS * 1000000` (strict: exactly the ceiling is not a timeout); a reading before `t_start` would fire through the unsigned conversion |
| `StateMachine.MicCount` | main/mic.c:30-38 | `mic_record` returns at most the requested count and at most what the driver delivered, and one of the two |
| `StateMachine.Next` | main/main.c:69-115 | one pass keeps the invariant (`idx <= BUF_SAMPLES`, `idx == 0` outside REC, LED lit exactly in REC). IDLE without a press changes nothing; IDLE with a press gives REC with `idx = 0`, `t_start = now` and LED 1. REC moves to PLAY iff pressed or timed out, with LED 0 and `idx = 0`; otherwise it stays in REC with the LED and `t_start` unchanged and `idx` advanced by the read count. PLAY goes to IDLE whatever the inputs |
| `StateMachine.RunSnoc` | main/main.c:68-118 | running passes then one more pass is one more step of `Next` |
| `StateMachine.RunKeepsInv` | main/main.c:68-118 | `idx <= BUF_SAMPLES` and the LED/state agreement hold after any sequence of passes |
| `StateMachine.RecordingFills` | main/main.c:80-105 | while the button stays up and at most the ceiling has elapsed, the controller stays in REC with the same `t_start` and LED, and `idx` advances by the total delivered, capped at the free space: `idx == idx0 + MicCount(total delivered, BUF_SAMPLES - idx0)` |
| `StateMachine.RecordingTimesOut` | main/main.c:85-104 | after such passes, the first pass past the ceiling ends the recording: PLAY, `idx = 0`, LED 0 |
| `Playback.WalkCallsAt` | main/main.c:109-111 | frame k makes calls 3k, 3k+1 and 3k+2: its encode, its decode, its playback |
| `Playback.FrameCallsPcm` | main/main.c:61-62 | one frame hands the encoder that frame and the speaker the decoding of its packet |
| `Playback.PcmAppend` | main/main.c:109-111 | the encoded and played samples of two call sequences concatenate |
| `Playback.WalkEncodesRest` | main/main.c:109-111 | from a whole-frame offset i, the walk hands the encoder exactly `filteredBuf[i..]`; with a codec that returns each frame it is given, the speaker plays exactly that too |
| `Playback.EncodeCoversBuffer` | main/main.c:109-111 | the PLAY walk hands the encoder the whole filtered buffer, each sample once and in order; with a codec that returns each frame it is given, the speaker plays exactly the buffer |
| `Playback.PlayOrder` | main/main.c:53-63 | the k-th frame's encode names offset 320k and a 320-sample frame, and is followed by the decode of its packet and the playback of the decoded PCM, before frame k+1 is encoded |
| `App.AfterRead` | main/main.c:82-83 | the read fills `micBuf[idx .. idx+k)` from what the driver delivered and leaves every other slot unchanged |
| `App.Controller.constructor` | main/main.c:43-51 | the controller starts in IDLE with `idx = 0`, `t_start = 0` and LED 0, with `BUF_SAMPLES`-long buffers and fresh filters |
| `App.Controller.IdleStep` | main/main.c:70-78 | a press gives REC with LED 1, `idx = 0`, `t_start = now`; without a press nothing changes |
| `App.Controller.MicRecord` | main/mic.c:30-38 | returns `min(delivered, request)`, writes that many samples at `dst` and nothing else, and logs the read |
| `App.Controller.FilterAndConvert` | main/main.c:93-99 | rewrites all of `filteredBuf` with `FilterRun` of `micBuf` from the filter memory it starts with; `micBuf` is not modified |
| `App.Controller.RecStep` | main/main.c:80-105 | registers follow `Next`; the read is issued only when `idx < BUF_SAMPLES` (a full buffer is left untouched); the reset precedes everything, so on exit `filteredBuf` is `FilterRun` of the new `micBuf` from fresh filter memory; staying in REC leaves `filteredBuf` alone |
| `App.Controller.I2sWriteWrapper` | main/main.c:53-58 | plays the samples, reports `count * 2` bytes written and returns `ESP_OK` |
| `App.Controller.AudioDecode` | main/includes/media.h:18 | records the decode and, inside it, the playback of the decoded frame through the write callback |
| `App.Controller.EncodedCallback` | main/main.c:61-63 | a packet is decoded and played before the callback returns |
| `App.Controller.AudioEncode` | main/includes/media.h:22-23 | records the encode of the frame at `offset` and, inside its callback, the decode and playback of its packet |
| `App.Controller.PlayStep` | main/main.c:107-114 | calls `audio_encode` at offsets 0, 320, ... below `BUF_SAMPLES`, with the trace equal to the frame-by-frame encode, decode and play calls of `filteredBuf`; then IDLE with the other registers unchanged |
| `App.Controller.Step` | main/main.c:65-119 | one pass of the `switch`: the registers follow `Next`, `micBuf` changes only by a REC read, `filteredBuf` only on the REC exit (to `FilterRun` from fresh memory), and the calls are those of the pass's state |

## Left out

- `app_main` (main/main.c:121-154): PSRAM query, GPIO setup, buffer allocation with abort on failure, driver and codec init, task creation. In the model the buffers exist at the right length from the constructor on.
- The `while (true)` polling loop, both `vTaskDelay` pauses (the 1 s pause before PLAY and the 10 ms poll delay) and logging: time is the `now` input of each pass, and each call to `Step` is one pass.
- `encodedBuf`: allocated but never used by the controller.
- `mic_begin` and the I2S driver: `mic_record` is modelled by what it returns. It copies what the driver has, up to the request: the model allows any count up to the request, though with `portMAX_DELAY` (main/mic.c:36) the driver normally delivers all of it, so one REC pass usually fills the rest of the buffer. The byte count's rounding down to whole samples is not modelled, because the driver is not part of this model.
- `spk_begin`, `init_audio_encoder`, `init_audio_decoder`: initialisation with no effect on the controller's state.
- Codec internal state: the Opus encoder and decoder keep state across frames. The model treats them as fixed functions, frame to packet and packet to PCM.
- `high_pass_filter` (main/includes/filters.h:6): declared but never called by the controller.
- The filter and limiter internals (coefficients, saturation at the int16 bounds): their bodies are not part of this model; nothing is assumed of them beyond their signatures and the four points listed above (in particular, no saturation or coefficient behaviour).
- `utils.h` (`BUF_SAMPLES`, `REC_SECONDS`, `SAMPLE_RATE`, pins) is not part of this model; its values are assumed as stated above.
- `AudioDecode`: ignores the byte count and status that `i2s_write_wrapper` returns, because what the decoder does with them is not part of this model.
