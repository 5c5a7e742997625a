/** Integer widths, the clock reading and the build-time constants the recorder is compiled with. */
module Platform {

  /** int16_t: a PCM sample after bit-depth reduction. */
  type Int16 = x: int | -0x8000 <= x <= 0x7FFF

  /** int32_t: a raw microphone sample and every intermediate filter value. */
  type Int32 = x: int | -0x8000_0000 <= x <= 0x7FFF_FFFF

  /** uint8_t: one byte of a compressed packet. */
  type Byte = b: int | 0 <= b < 0x100

  /** A reading of esp_timer_get_time(): microseconds since boot, an int64_t that is never negative. */
  type Micros = t: int | 0 <= t <= 0x7FFF_FFFF_FFFF_FFFF

  /** An output level of gpio_set_level. */
  type Level = l: int | 0 <= l <= 1

  /** utils.h is not part of this model: these are its assumed values (16 kHz mono, 5 s clip). */
  const SampleRate: nat := 16000
  const RecSeconds: nat := 5
  const BufSamples: nat := SampleRate * RecSeconds

  /** The largest packet the Opus encoder emits (main/main.c:18). */
  const OpusMaxPacketSize: nat := 1276

  /** esp_err_t ESP_OK. */
  const EspOk: int := 0
}
