/**
 * The chassis driver. It holds no state of its own: every command checks
 * its arguments, normalises the direction where there is one, packs the
 * three values into an 8-byte frame and writes the frame to the transport.
 */
module UnderBodyDriver {
  import opened Transport
  import U = UnderBodyProtocol

  /**
   * One of the three packing steps of SendData: writes the packed form of
   * `param` into data[k] and data[k + 1], leaving the other bytes alone.
   */
  method PackValue(data: array<bv8>, k: nat, param: int)
    requires k + 1 < data.Length && data[k] == 0
    modifies data
    ensures data[k] == U.SignMagHigh(param) && data[k + 1] == U.SignMagLow(param)
    ensures forall j :: 0 <= j < data.Length && j != k && j != k + 1 ==> data[j] == old(data[j])
  {
    var a := param;
    if a < 0 {
      data[k] := 0x40;
      a := -a;
    }
    U.PackSteps(param, data[k], a);
    data[k] := data[k] | ((a / 128) % 64) as bv8;
    data[k + 1] := (a % 128) as bv8;
  }

  /**
   * The first half of SendData: a fresh 8-byte buffer holding the three
   * packed values, their checksum and the mode byte.
   */
  method PackFrame(param1: int, param2: int, param3: int, mode: bv8) returns (data: array<bv8>)
    ensures fresh(data)
    ensures data[..] == U.ChassisFrame(param1, param2, param3, mode)
  {
    data := new bv8[8](_ => 0);
    PackValue(data, 0, param1);
    PackValue(data, 2, param2);
    PackValue(data, 4, param3);
    ghost var b := U.Payload(param1, param2, param3);
    assert data[..6] == b;
    data[6] := U.FrameChecksum(data[0], data[1], data[2], data[3], data[4], data[5]);
    data[7] := mode;
    assert data[..] == b + [U.FrameChecksum(b[0], b[1], b[2], b[3], b[4], b[5]), mode];
  }

  /**
   * Packs three signed values and a mode byte into a frame and sends its
   * eight bytes in order.
   */
  method SendData(link: Channel, param1: int, param2: int, param3: int, mode: bv8)
    modifies link
    ensures link.sent == old(link.sent) + U.ChassisFrame(param1, param2, param3, mode)
    ensures link.incoming == old(link.incoming)
  {
    var data := PackFrame(param1, param2, param3, mode);
    ghost var frame := data[..];
    for i := 0 to 8
      invariant data[..] == frame
      invariant link.sent == old(link.sent) + frame[..i]
      invariant link.incoming == old(link.incoming)
    {
      link.Send(data[i]);
      assert frame[..i + 1] == frame[..i] + [frame[i]];
    }
    assert frame[..8] == frame;
  }

  /**
   * The two loops of the polar command that bring the direction into
   * 0..360: subtract 360 while it is above 360, then add 360 while it is
   * negative.
   */
  method NormalizeDirection(dir: int) returns (d: int)
    ensures 0 <= d <= 360
    ensures (d - dir) % 360 == 0
    ensures 0 <= dir <= 360 ==> d == dir
    ensures d == 360 <==> dir > 0 && dir % 360 == 0
    ensures d == U.Normalized(dir)
  {
    d := dir;
    while d > 360
      invariant (d - dir) % 360 == 0
      invariant dir > 360 ==> d > 0
      invariant dir <= 360 ==> d == dir
      decreases d
    {
      d := d - 360;
    }
    while d < 0
      invariant (d - dir) % 360 == 0
      invariant d <= 360
      invariant 0 < dir <= 360 ==> d == dir
      invariant dir > 0 ==> d > 0
      invariant d < 0 || dir <= 0 ==> d < 360
      decreases -d
    {
      d := d + 360;
    }
    U.NormalizedIsCongruent(dir);
  }

  /**
   * The rectangular command: rejects the first argument out of bounds with
   * its code and sends nothing; otherwise sends one rectangular frame.
   */
  method MoveXY(link: Channel, vX: int, vY: int, omega: int) returns (r: int)
    modifies link
    ensures r == U.MoveXYCode(vX, vY, omega)
    ensures r == 0 ==> link.sent == old(link.sent) + U.ChassisFrame(vX, vY, omega, U.ModeRect)
    ensures r != 0 ==> link.sent == old(link.sent)
    ensures link.incoming == old(link.incoming)
  {
    if vX > U.MaxVelo { return -1; }
    if vX < -U.MaxVelo { return -2; }
    if vY > U.MaxVelo { return -3; }
    if vY < -U.MaxVelo { return -4; }
    if omega > U.MaxOmega { return -5; }
    if omega < -U.MaxOmega { return -6; }
    SendData(link, vX, vY, omega, U.ModeRect);
    return 0;
  }

  /**
   * The rectangular command in m/s and rad/s: each value scaled to mm/s and
   * deg/s and truncated toward zero, then as MoveXY.
   */
  method MoveXYMetric(link: Channel, vX: real, vY: real, omega: real, pi: real) returns (r: int)
    requires pi > 0.0
    modifies link
    ensures var x, y, w := U.Truncate(vX * 1000.0), U.Truncate(vY * 1000.0), U.Truncate(omega * 180.0 / pi);
            r == U.MoveXYCode(x, y, w) &&
            (r == 0 ==> link.sent == old(link.sent) + U.ChassisFrame(x, y, w, U.ModeRect)) &&
            (r != 0 ==> link.sent == old(link.sent))
    ensures link.incoming == old(link.incoming)
  {
    r := MoveXY(link, U.Truncate(vX * 1000.0), U.Truncate(vY * 1000.0), U.Truncate(omega * 180.0 / pi));
  }

  /**
   * The polar command: rejects an out-of-bounds speed or turning rate with
   * its code and sends nothing; otherwise sends one polar frame carrying the
   * normalised direction.
   */
  method MovePolar(link: Channel, spd: int, dir: int, omega: int) returns (r: int)
    modifies link
    ensures r == U.MovePolarCode(spd, omega)
    ensures r == 0 ==> link.sent == old(link.sent) + U.ChassisFrame(spd, U.Normalized(dir), omega, U.ModePolar)
    ensures r != 0 ==> link.sent == old(link.sent)
    ensures link.incoming == old(link.incoming)
  {
    if spd > U.MaxVelo { return -1; }
    if spd < -U.MaxVelo { return -2; }
    if omega > U.MaxOmega { return -3; }
    if omega < -U.MaxOmega { return -4; }
    var d := NormalizeDirection(dir);
    SendData(link, spd, d, omega, U.ModePolar);
    return 0;
  }

  /**
   * The polar command in m/s, rad and rad/s: speed scaled to mm/s, direction
   * and turning rate to degrees, each truncated toward zero, then as MovePolar.
   */
  method MovePolarMetric(link: Channel, spd: real, dir: real, omega: real, pi: real) returns (r: int)
    requires pi > 0.0
    modifies link
    ensures var s, d, w := U.Truncate(spd * 1000.0), U.Truncate(dir * 180.0 / pi), U.Truncate(omega * 180.0 / pi);
            r == U.MovePolarCode(s, w) &&
            (r == 0 ==> link.sent == old(link.sent) + U.ChassisFrame(s, U.Normalized(d), w, U.ModePolar)) &&
            (r != 0 ==> link.sent == old(link.sent))
    ensures link.incoming == old(link.incoming)
  {
    r := MovePolar(link, U.Truncate(spd * 1000.0), U.Truncate(dir * 180.0 / pi), U.Truncate(omega * 180.0 / pi));
  }

  /** Sends the stop frame: all-zero payload and checksum with the stop mode. */
  method Stop(link: Channel)
    modifies link
    ensures link.sent == old(link.sent) + [0, 0, 0, 0, 0, 0, 0, 0xF0]
    ensures link.incoming == old(link.incoming)
  {
    SendData(link, 0, 0, 0, U.ModeStop);
    U.StopFrame();
  }
}
