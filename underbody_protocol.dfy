/**
 * The pure part of the chassis driver: the bounds of the two velocity
 * commands and their ordered error codes, the normalisation of a direction,
 * the sign-magnitude packing of one signed value into two 7-bit bytes, and
 * the 8-byte movement frame.
 */
module UnderBodyProtocol {
  import opened Bytes

  /** Mode byte of a frame in rectangular coordinates. */
  const ModeRect: bv8 := 0xFF
  /** Mode byte of a frame in polar coordinates. */
  const ModePolar: bv8 := 0xFE
  /** Mode byte of the stop frame. */
  const ModeStop: bv8 := 0xF0

  /** Largest speed accepted, in mm/s. */
  const MaxVelo: int := 8000
  /** Largest turning rate accepted, in deg/s. */
  const MaxOmega: int := 500

  predicate Within(v: int, bound: int) { -bound <= v <= bound }

  /**
   * The result of the rectangular command: -1/-2 for vX above/below its
   * bound, -3/-4 for vY, -5/-6 for omega, the first violation deciding; 0 when
   * all three are within bounds.
   */
  function MoveXYCode(vX: int, vY: int, omega: int): (r: int)
    ensures r == 0 <==> Within(vX, MaxVelo) && Within(vY, MaxVelo) && Within(omega, MaxOmega)
    ensures r == -1 <==> vX > MaxVelo
    ensures r == -2 <==> vX < -MaxVelo
    ensures r == -3 <==> Within(vX, MaxVelo) && vY > MaxVelo
    ensures r == -4 <==> Within(vX, MaxVelo) && vY < -MaxVelo
    ensures r == -5 <==> Within(vX, MaxVelo) && Within(vY, MaxVelo) && omega > MaxOmega
    ensures r == -6 <==> Within(vX, MaxVelo) && Within(vY, MaxVelo) && omega < -MaxOmega
    ensures -6 <= r <= 0
  {
    if vX > MaxVelo then -1
    else if vX < -MaxVelo then -2
    else if vY > MaxVelo then -3
    else if vY < -MaxVelo then -4
    else if omega > MaxOmega then -5
    else if omega < -MaxOmega then -6
    else 0
  }

  /**
   * The result of the polar command: -1/-2 for spd above/below its bound,
   * -3/-4 for omega; the direction is never rejected.
   */
  function MovePolarCode(spd: int, omega: int): (r: int)
    ensures r == 0 <==> Within(spd, MaxVelo) && Within(omega, MaxOmega)
    ensures r == -1 <==> spd > MaxVelo
    ensures r == -2 <==> spd < -MaxVelo
    ensures r == -3 <==> Within(spd, MaxVelo) && omega > MaxOmega
    ensures r == -4 <==> Within(spd, MaxVelo) && omega < -MaxOmega
    ensures -4 <= r <= 0
  {
    if spd > MaxVelo then -1
    else if spd < -MaxVelo then -2
    else if omega > MaxOmega then -3
    else if omega < -MaxOmega then -4
    else 0
  }

  /**
   * The direction the polar command sends for `dir` degrees: the value in
   * 0..360 congruent to it, where a positive multiple of 360 becomes 360 and
   * any other multiple (0 included) becomes 0.
   */
  function Normalized(dir: int): int
  {
    if dir > 0 && dir % 360 == 0 then 360 else dir % 360
  }

  /**
   * Normalized keeps the direction modulo 360 and within 0..360, and leaves
   * a direction that is already in 0..360 (360 included) as it is.
   */
  lemma NormalizedIsCongruent(dir: int)
    ensures 0 <= Normalized(dir) <= 360
    ensures (Normalized(dir) - dir) % 360 == 0
    ensures 0 <= dir <= 360 ==> Normalized(dir) == dir
    ensures Normalized(dir) == 360 <==> dir > 0 && dir % 360 == 0
  {
  }

  // ---------------------------------------------------------------------
  // Sign-magnitude packing
  // ---------------------------------------------------------------------

  function Magnitude(p: int): nat
  {
    if p < 0 then -p else p
  }

  /** High byte of a packed value: bit 6 is the sign, bits 0-5 are bits 7-12 of the magnitude. */
  function SignMagHigh(p: int): bv8
  {
    var sign: bv8 := if p < 0 then 0x40 else 0;
    sign | (((Magnitude(p) / 128) % 64) as bv8)
  }

  /** Low byte of a packed value: bits 0-6 of the magnitude. */
  function SignMagLow(p: int): bv8
  {
    (Magnitude(p) % 128) as bv8
  }

  /**
   * The packing written as the driver does it: start from 0x40 for a negative
   * value and negate it, then OR in bits 7-12 and take bits 0-6 separately.
   */
  lemma PackSteps(p: int, sign: bv8, a: int)
    requires p < 0 ==> sign == 0x40 && a == -p
    requires p >= 0 ==> sign == 0 && a == p
    ensures a >= 0
    ensures sign | ((a / 128) % 64) as bv8 == SignMagHigh(p)
    ensures (a % 128) as bv8 == SignMagLow(p)
  {
  }

  /** How the receiver reads a packed value back: sign from bit 6, magnitude ((high & 0x3F) << 7) | low. */
  function Unpack(high: bv8, low: bv8): int
  {
    var m := ((high & 0x3F) as int) * 128 + ((low & 0x7F) as int);
    if (high & 0x40) != 0 then -m else m
  }

  /** Both packed bytes have their top bit clear; the sign sits in bit 6 of the high byte. */
  lemma SignMagBytes(p: int)
    ensures SignMagHigh(p) < 0x80 && SignMagLow(p) < 0x80
    ensures ((SignMagHigh(p) & 0x40) != 0) <==> p < 0
    ensures (SignMagHigh(p) & 0x3F) as int == (Magnitude(p) / 128) % 64
    ensures SignMagLow(p) as int == Magnitude(p) % 128
  {
    var x := (Magnitude(p) / 128) % 64;
    ByteOfInt(x);
    BelowAsInt(x as bv8, 0x40);
    ByteOfInt(Magnitude(p) % 128);
    BelowAsInt(SignMagLow(p), 0x80);
    SignOrBits(if p < 0 then 0x40 else 0, x as bv8);
  }

  lemma SignOrBits(s: bv8, y: bv8)
    requires s == 0 || s == 0x40
    requires y < 0x40
    ensures s | y < 0x80
    ensures (s | y) & 0x3F == y
    ensures ((s | y) & 0x40 != 0) <==> s == 0x40
  {
  }

  /**
   * Packing keeps the sign and the low 13 bits of the magnitude: a value
   * whose magnitude exceeds 8191 comes back truncated modulo 8192.
   */
  lemma {:induction false} UnpackKeepsThirteenBits(p: int)
    ensures Unpack(SignMagHigh(p), SignMagLow(p)) == if p < 0 then -(Magnitude(p) % 8192) else Magnitude(p) % 8192
  {
    var hi, lo := SignMagHigh(p), SignMagLow(p);
    SignMagBytes(p);
    LowSevenBits(lo);
    ThirteenBits(Magnitude(p));
  }

  lemma LowSevenBits(lo: bv8)
    requires lo < 0x80
    ensures (lo & 0x7F) as int == lo as int
  {
  }

  lemma ThirteenBits(m: nat)
    ensures ((m / 128) % 64) * 128 + m % 128 == m % 8192
  {
    var q := m / 128;
    assert m == q * 128 + m % 128;
    assert q == (q / 64) * 64 + q % 64;
    assert m == (q / 64) * 8192 + ((q % 64) * 128 + m % 128);
  }

  /** Every value of magnitude at most 8191, which covers every value in bounds, is recovered exactly. */
  lemma PackRoundTrip(p: int)
    requires -8191 <= p <= 8191
    ensures Unpack(SignMagHigh(p), SignMagLow(p)) == p
  {
    UnpackKeepsThirteenBits(p);
    SmallRemainder(Magnitude(p), 8192);
  }

  lemma SmallRemainder(m: nat, n: int)
    requires m < n
    ensures m % n == m
  {
  }

  // ---------------------------------------------------------------------
  // The 8-byte movement frame
  // ---------------------------------------------------------------------

  /** The checksum byte: the XOR of the six payload bytes. */
  function FrameChecksum(b0: bv8, b1: bv8, b2: bv8, b3: bv8, b4: bv8, b5: bv8): bv8
  {
    b0 ^ b1 ^ b2 ^ b3 ^ b4 ^ b5
  }

  /** The six payload bytes of a frame: the three values packed in order. */
  function Payload(p1: int, p2: int, p3: int): (b: seq<bv8>)
    ensures |b| == 6
  {
    [SignMagHigh(p1), SignMagLow(p1), SignMagHigh(p2), SignMagLow(p2), SignMagHigh(p3), SignMagLow(p3)]
  }

  /** Three packed values, their checksum and the mode byte. */
  function ChassisFrame(p1: int, p2: int, p3: int, mode: bv8): (f: seq<bv8>)
    ensures |f| == 8 && f[..6] == Payload(p1, p2, p3) && f[7] == mode
    ensures f[6] == FrameChecksum(f[0], f[1], f[2], f[3], f[4], f[5])
  {
    var b := Payload(p1, p2, p3);
    b + [FrameChecksum(b[0], b[1], b[2], b[3], b[4], b[5]), mode]
  }

  /**
   * Bytes 0-6 of every frame have their top bit clear, so none of them can
   * be taken for a mode byte, every one of which is at least 0xF0.
   */
  lemma FrameBytesBelowMode(p1: int, p2: int, p3: int, mode: bv8)
    requires mode >= 0xF0
    ensures var f := ChassisFrame(p1, p2, p3, mode);
            forall i :: 0 <= i < 7 ==> f[i] < 0x80 && f[i] != f[7]
  {
    var f := ChassisFrame(p1, p2, p3, mode);
    PayloadBelow80(p1, p2, p3);
    var b := Payload(p1, p2, p3);
    XorBelow80(b[0], b[1], b[2], b[3], b[4], b[5]);
    assert forall i :: 0 <= i < 6 ==> f[i] == b[i];
  }

  lemma PayloadBelow80(p1: int, p2: int, p3: int)
    ensures forall i :: 0 <= i < 6 ==> Payload(p1, p2, p3)[i] < 0x80
  {
    SignMagBytes(p1);
    SignMagBytes(p2);
    SignMagBytes(p3);
  }

  lemma XorBelow80(a: bv8, b: bv8, c: bv8, d: bv8, e: bv8, g: bv8)
    requires a < 0x80 && b < 0x80 && c < 0x80 && d < 0x80 && e < 0x80 && g < 0x80
    ensures FrameChecksum(a, b, c, d, e, g) < 0x80
  {
  }

  /** The three mode bytes are distinct. */
  lemma ModesDistinct()
    ensures ModeRect != ModePolar && ModeRect != ModeStop && ModePolar != ModeStop
    ensures ModeRect >= 0xF0 && ModePolar >= 0xF0 && ModeStop >= 0xF0
  {
  }

  /** A frame as the chassis module reads it. */
  datatype Movement = Movement(p1: int, p2: int, p3: int, mode: bv8)
  datatype Reading = Garbled | Read(m: Movement)

  /** The receiving side: check length and checksum, then unpack the three values. */
  function DecodeChassis(f: seq<bv8>): (r: Reading)
    ensures r.Read? <==> |f| == 8 && f[6] == FrameChecksum(f[0], f[1], f[2], f[3], f[4], f[5])
    ensures r.Read? ==> r.m.mode == f[7]
  {
    if |f| != 8 || f[6] != FrameChecksum(f[0], f[1], f[2], f[3], f[4], f[5]) then Garbled
    else Read(Movement(Unpack(f[0], f[1]), Unpack(f[2], f[3]), Unpack(f[4], f[5]), f[7]))
  }

  /** Every frame of values within 13 bits of magnitude reads back as those values and that mode. */
  lemma ChassisRoundTrip(p1: int, p2: int, p3: int, mode: bv8)
    requires Within(p1, 8191) && Within(p2, 8191) && Within(p3, 8191)
    ensures DecodeChassis(ChassisFrame(p1, p2, p3, mode)) == Read(Movement(p1, p2, p3, mode))
  {
    PackRoundTrip(p1);
    PackRoundTrip(p2);
    PackRoundTrip(p3);
  }

  /** Every argument that passes the bounds of either command fits the frame exactly. */
  lemma AcceptedArgumentsFit(a: int, b: int, c: int)
    requires MoveXYCode(a, b, c) == 0 || (MovePolarCode(a, c) == 0 && 0 <= b <= 360)
    ensures Within(a, 8191) && Within(b, 8191) && Within(c, 8191)
  {
  }

  /** The stop frame: six zero payload bytes, a zero checksum and the stop mode. */
  lemma StopFrame()
    ensures ChassisFrame(0, 0, 0, ModeStop) == [0, 0, 0, 0, 0, 0, 0, 0xF0]
  {
  }

  // ---------------------------------------------------------------------
  // Conversion from physical units
  // ---------------------------------------------------------------------

  /** Conversion of a real to an integer by dropping the fraction, as a C cast does. */
  function Truncate(x: real): (r: int)
    ensures x >= 0.0 ==> r as real <= x < r as real + 1.0
    ensures x < 0.0 ==> r as real - 1.0 < x <= r as real
  {
    if x >= 0.0 then x.Floor else -((-x).Floor)
  }

  /**
   * 9 m/s in the metric rectangular command is 9000 mm/s: whatever the other
   * two arguments and the value of pi, it is rejected as vX above its bound.
   */
  lemma NineMetresPerSecondRejected(vY: real, omega: real, pi: real)
    requires pi > 0.0
    ensures MoveXYCode(Truncate(9.0 * 1000.0), Truncate(vY * 1000.0), Truncate(omega * 180.0 / pi)) == -1
  {
  }
}
