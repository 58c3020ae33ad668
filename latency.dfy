/**
 * Latency fields of the audio- and video-formats subelements, which count in
 * units of 5 ms; 0 means the latency is unknown.
 */
module Latency {
  import opened Wrappers
  import opened Bytes

  const U64_LIMIT: nat := 0x1_0000_0000_0000_0000

  /** A value of the unsigned 64-bit type the conversion macro computes in. */
  type Uint64 = n: nat | n < U64_LIMIT

  const UNKNOWN_LATENCY: bv8 := 0x00

  /**
   * The conversion macro, shared by the audio and the video formats:
   * (ms + 4) / 5 evaluated in unsigned 64-bit arithmetic, so the addition
   * wraps for the last four representable values of ms.
   */
  function LatencyFromMs(ms: Uint64): (units: Uint64)
    ensures ms < U64_LIMIT - 4 ==> 5 * units >= ms && 5 * units < ms + 5
    ensures ms == 0 ==> units == UNKNOWN_LATENCY as nat
  {
    ((ms + 4) % U64_LIMIT) / 5
  }

  /** The macro rounds up: it gives the least number of 5 ms units covering ms. */
  lemma LatencyIsCeiling(ms: Uint64, k: nat)
    requires ms < U64_LIMIT - 4
    requires 5 * k >= ms
    ensures LatencyFromMs(ms) <= k
  {
  }

  /** Where the 64-bit addition wraps, the result is no longer a ceiling: the largest ms gives 0. */
  lemma LatencyFromMsWraps()
    ensures LatencyFromMs(U64_LIMIT - 1) == 0
  {
  }

  /** Milliseconds a latency byte stands for. */
  function LatencyToMs(units: bv8): (ms: nat)
    ensures ms % 5 == 0 && ms <= 5 * 255
  {
    OctetOfValue(units);
    OctetValue(units) * 5
  }

  /**
   * The latency byte written for a requested latency in ms; a latency that
   * needs more than 255 units does not fit the byte and is refused (the
   * check is on ms itself, so the macro's wrap-around cannot slip through).
   */
  function LatencyByte(ms: Uint64): (r: Option<bv8>)
    ensures r.Some? <==> ms <= 5 * 255
    ensures r.Some? ==> LatencyToMs(r.value) >= ms && LatencyToMs(r.value) < ms + 5
  {
    if ms <= 5 * 255 then
      var units := LatencyFromMs(ms);
      ValueOfOctet(units);
      Some(Octet(units))
    else None
  }

  /** A latency read off the wire is written back as the same byte. */
  lemma LatencyByteOfWire(units: bv8)
    ensures LatencyByte(LatencyToMs(units)) == Some(units)
  {
    OctetOfValue(units);
  }
}
