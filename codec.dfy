/** The telemetry codec of the desk. A frame read from the height
    characteristic is 4 bytes: a little-endian unsigned 16-bit height counter
    followed by a little-endian signed 16-bit speed counter, both in units of
    1/10000 (meters above MIN_HEIGHT, and meters per second). A target height
    is sent back as a truncated little-endian unsigned 16-bit counter. */
module Codec {
  import opened Errors

  newtype byte = x: int | 0 <= x < 256

  /** Lowest and highest desk position, in meters. */
  const MIN_HEIGHT: real := 0.62
  const MAX_HEIGHT: real := 1.27
  /** Counter units per meter (and per meter per second). */
  const UNITS: real := 10000.0
  /** The height counter that stands for MAX_HEIGHT. */
  const MAX_COUNTER: int := 6500
  /** The only frame length the decoder accepts. */
  const FRAME_LENGTH: nat := 4

  /** Height in meters of a height counter. */
  function HeightOf(c: int): real {
    c as real / UNITS + MIN_HEIGHT
  }

  /** Speed in meters per second of a speed counter. */
  function SpeedOf(s: int): real {
    s as real / UNITS
  }

  /** A decoded frame, kept as its two counters. */
  datatype Reading = Reading(heightCounter: int, speedCounter: int) {
    function Height(): real { HeightOf(heightCounter) }
    function Speed(): real { SpeedOf(speedCounter) }
  }

  predicate IsU16(n: int) { 0 <= n < 0x1_0000 }
  predicate IsS16(n: int) { -0x8000 <= n < 0x8000 }

  /** struct "<H" on two bytes. */
  function U16(lo: byte, hi: byte): int {
    lo as int + 0x100 * hi as int
  }

  /** struct "<h" on two bytes: two's complement. */
  function S16(lo: byte, hi: byte): int {
    var u := U16(lo, hi);
    if u < 0x8000 then u else u - 0x1_0000
  }

  /** struct.pack("<H", n): the two bytes that unpack to n. */
  function PackU16(n: int): (b: seq<byte>)
    requires IsU16(n)
    ensures |b| == 2 && U16(b[0], b[1]) == n
  {
    [(n % 0x100) as byte, (n / 0x100) as byte]
  }

  /** struct.pack("<h", n): the two bytes that unpack to n. */
  function PackS16(n: int): (b: seq<byte>)
    requires IsS16(n)
    ensures |b| == 2 && S16(b[0], b[1]) == n
  {
    PackU16(if n < 0 then n + 0x1_0000 else n)
  }

  /** The frame the desk sends for a pair of counters. */
  function Frame(r: Reading): (raw: seq<byte>)
    requires IsU16(r.heightCounter) && IsS16(r.speedCounter)
    ensures |raw| == FRAME_LENGTH
  {
    PackU16(r.heightCounter) + PackS16(r.speedCounter)
  }

  /** _bytes_to_meters_and_speed: rejects every frame that is not exactly 4
      bytes long, and otherwise reads the two counters. */
  function BytesToMetersAndSpeed(raw: seq<byte>): (r: Result<Reading>)
    ensures r.Err? <==> |raw| != FRAME_LENGTH
    ensures r.Err? ==> r.exception == DecodeError(|raw|)
    ensures r.Ok? ==> IsU16(r.value.heightCounter) && IsS16(r.value.speedCounter)
    ensures r.Ok? ==> r.value == Reading(U16(raw[0], raw[1]), S16(raw[2], raw[3]))
  {
    if |raw| != FRAME_LENGTH then Err(DecodeError(|raw|))
    else Ok(Reading(U16(raw[0], raw[1]), S16(raw[2], raw[3])))
  }

  /** Re-packing the counters of a decoded frame gives back the frame. */
  lemma DecodedFrame(raw: seq<byte>)
    requires BytesToMetersAndSpeed(raw).Ok?
    ensures Frame(BytesToMetersAndSpeed(raw).value) == raw
  {
    UnpackPack(raw[0], raw[1]);
    UnpackPack(raw[2], raw[3]);
    assert raw == [raw[0], raw[1]] + [raw[2], raw[3]];
  }

  /** Packing what two bytes unpack to gives back the two bytes. */
  lemma UnpackPack(lo: byte, hi: byte)
    ensures PackU16(U16(lo, hi)) == [lo, hi]
    ensures PackS16(S16(lo, hi)) == [lo, hi]
  {
    var n := U16(lo, hi);
    DivModUnique(n, hi as int, lo as int);
  }

  lemma DivModUnique(n: int, q: int, r: int)
    requires n == q * 0x100 + r && 0 <= r < 0x100
    ensures n / 0x100 == q && n % 0x100 == r
  {
  }

  /** Decoding the frame of a pair of counters gives back those counters. */
  lemma DecodeFrame(r: Reading)
    requires IsU16(r.heightCounter) && IsS16(r.speedCounter)
    ensures BytesToMetersAndSpeed(Frame(r)) == Ok(r)
  {
  }

  /** The frames of the library's tests, and the one with a speed counter. */
  lemma DecodeTestVectors()
    ensures BytesToMetersAndSpeed([0x64, 0x19, 0x00, 0x00]) == Ok(Reading(6500, 0))
    ensures HeightOf(6500) == MAX_HEIGHT
    ensures BytesToMetersAndSpeed([0x00, 0x00, 0x00, 0x00]) == Ok(Reading(0, 0))
    ensures HeightOf(0) == MIN_HEIGHT
    ensures BytesToMetersAndSpeed([0x51, 0x04, 0x00, 0x00]) == Ok(Reading(1105, 0))
    ensures HeightOf(1105) == 0.7305
    ensures BytesToMetersAndSpeed([0x08, 0x08, 0x00, 0x00]) == Ok(Reading(2056, 0))
    ensures BytesToMetersAndSpeed([0x08, 0x08, 0x02, 0x01]) == Ok(Reading(2056, 258))
    ensures HeightOf(2056) == 0.8256 && SpeedOf(258) == 0.0258
    ensures BytesToMetersAndSpeed([0xFF, 0xFF, 0xFF, 0xFF]) == Ok(Reading(65535, -1))
  {
  }

  /** Python's int() on a number: truncation toward zero. */
  function Trunc(x: real): (n: int)
    ensures 0.0 <= x ==> n as real <= x < n as real + 1.0
    ensures x < 0.0 ==> n as real - 1.0 < x <= n as real
  {
    if 0.0 <= x then x.Floor else -((-x).Floor)
  }

  /** The counter _meters_to_bytes computes for a height. */
  function TargetCounter(meters: real): int {
    Trunc((meters - MIN_HEIGHT) * UNITS)
  }

  /** _meters_to_bytes: the truncated counter packed as unsigned 16 bits;
      struct.pack raises when the counter does not fit. */
  function MetersToBytes(meters: real): (r: Result<seq<byte>>)
    ensures r.Ok? <==> IsU16(TargetCounter(meters))
    ensures r.Err? ==> r.exception == PackError(TargetCounter(meters))
    ensures r.Ok? ==> |r.value| == 2 && U16(r.value[0], r.value[1]) == TargetCounter(meters)
  {
    var n := TargetCounter(meters);
    if IsU16(n) then Ok(PackU16(n)) else Err(PackError(n))
  }

  /** Every height in the desk's range encodes, to the grid counter at or
      just below it. */
  lemma EncodeInRange(meters: real)
    requires MIN_HEIGHT <= meters <= MAX_HEIGHT
    ensures MetersToBytes(meters).Ok?
    ensures 0 <= TargetCounter(meters) <= MAX_COUNTER
    ensures HeightOf(TargetCounter(meters)) <= meters < HeightOf(TargetCounter(meters) + 1)
  {
    var x := (meters - MIN_HEIGHT) * UNITS;
    assert 0.0 <= x <= 6500.0;
  }

  /** Encoding the height of a grid counter and decoding the two bytes,
      completed by any speed counter, gives back that counter. */
  lemma EncodeDecodeGrid(c: int, s: int)
    requires 0 <= c <= MAX_COUNTER && IsS16(s)
    ensures MetersToBytes(HeightOf(c)).Ok?
    ensures BytesToMetersAndSpeed(MetersToBytes(HeightOf(c)).value + PackS16(s)) == Ok(Reading(c, s))
  {
    assert (HeightOf(c) - MIN_HEIGHT) * UNITS == c as real;
    assert TargetCounter(HeightOf(c)) == c;
    var b := MetersToBytes(HeightOf(c)).value;
    assert b == PackU16(c);
    DecodeFrame(Reading(c, s));
  }
}
