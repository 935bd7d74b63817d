/**
 * The pure part of the FET driver: port numbering, the process-wide mode
 * machine, port resolution, the argument checks of every command, the 4-byte
 * command frame and the sliding-window telemetry decoder, all as functions
 * on values. The driver object that owns the state is in module FetsDriver.
 */
module FetsProtocol {
  import opened Bytes

  /** A value of the driver's `portNum` enumeration, whose constants span 0..15. */
  type PortNum = p: int | 0 <= p <= 15

  const None: PortNum := 0
  const Out1: PortNum := 1
  /** The seventh output can only be switched on and off: no PWM, no waveform. */
  const Out7: PortNum := 7
  /** Separator between the output and the input numbers; not a usable port. */
  const Dammy: PortNum := 8
  const In1: PortNum := 9
  const In7: PortNum := 15

  /** Address of a module that was given no other. */
  const DefaultId: bv8 := 0x90

  const FuncDigitalOut: bv8 := 0x01
  const FuncPwmOut: bv8 := 0x02
  const FuncSensorRes: bv8 := 0x03
  const FuncSensorTrg: bv8 := 0x04

  predicate IsOutputPort(p: int) { Out1 <= p <= Out7 }
  predicate IsInputPort(p: int) { In1 <= p <= In7 }

  /** Outputs and inputs never share a number, and neither None nor the separator is a port. */
  lemma PortNumbering()
    ensures !IsOutputPort(None) && !IsInputPort(None)
    ensures !IsOutputPort(Dammy) && !IsInputPort(Dammy)
    ensures forall p :: IsOutputPort(p) ==> !IsInputPort(p)
    ensures forall p: PortNum :: IsOutputPort(p) || IsInputPort(p) || p == None || p == Dammy
  {
  }

  /** The five waveforms of the wave output; each one is sent as its own function code. */
  datatype Waveform = Square | Sine | Triangular | Sawtooth | InvSawtooth

  function WaveCode(form: Waveform): (c: bv8)
    ensures 0x05 <= c <= 0x09
  {
    match form
    case Square => 0x05
    case Sine => 0x06
    case Triangular => 0x07
    case Sawtooth => 0x08
    case InvSawtooth => 0x09
  }

  /** Distinct waveforms have distinct codes, and none of them is a digital, PWM or sensor code. */
  lemma WaveCodesDistinct(a: Waveform, b: Waveform)
    ensures a != b ==> WaveCode(a) != WaveCode(b)
    ensures WaveCode(a) != FuncDigitalOut && WaveCode(a) != FuncPwmOut
    ensures WaveCode(a) != FuncSensorRes && WaveCode(a) != FuncSensorTrg
  {
  }

  // ---------------------------------------------------------------------
  // The process-wide operating mode
  // ---------------------------------------------------------------------

  /**
   * Init until the first instance is built; Module when instances take the
   * port on every call; Port when each instance is bound to its ports;
   * Conflict once both kinds have been built.
   */
  datatype Mode = Init | Module | Port | Conflict

  /** An instance built without an output port is a module, any other is bound to its port. */
  function IntendedMode(outputPort: PortNum): (m: Mode)
    ensures m == Module <==> outputPort == None
    ensures m == Port <==> outputPort != None
  {
    if outputPort == None then Module else Port
  }

  /** The mode after one more instance, with output port `outputPort`, has been built. */
  function NextMode(mode: Mode, outputPort: PortNum): (m: Mode)
    ensures m != Init
    ensures mode == Conflict ==> m == Conflict
    ensures m == Conflict <==> mode != Init && mode != IntendedMode(outputPort)
    ensures m != Conflict ==> m == IntendedMode(outputPort) && (mode == Init || mode == m)
  {
    var newMode := IntendedMode(outputPort);
    if mode != Init && newMode != mode then Conflict else newMode
  }

  /** The mode after instances with the given output ports have been built, in that order. */
  function ModeAfter(outputPorts: seq<PortNum>): Mode
  {
    if outputPorts == [] then Init
    else NextMode(ModeAfter(outputPorts[..|outputPorts| - 1]), outputPorts[|outputPorts| - 1])
  }

  /** Some instance was built as a module and some other as bound to a port. */
  predicate MixesStyles(outputPorts: seq<PortNum>)
  {
    exists i, j :: 0 <= i < |outputPorts| && 0 <= j < |outputPorts| && outputPorts[i] == None && outputPorts[j] != None
  }

  /**
   * The mode is Conflict exactly when both styles of instance have been
   * built; otherwise it is the style of the first instance (or Init when
   * there is none).
   */
  lemma {:induction false} ModeAfterConstructions(outputPorts: seq<PortNum>)
    ensures ModeAfter(outputPorts) == Conflict <==> MixesStyles(outputPorts)
    ensures outputPorts == [] ==> ModeAfter(outputPorts) == Init
    ensures outputPorts != [] && !MixesStyles(outputPorts) ==> ModeAfter(outputPorts) == IntendedMode(outputPorts[0])
  {
    if outputPorts != [] {
      var n := |outputPorts|;
      var front := outputPorts[..n - 1];
      var last := outputPorts[n - 1];
      ModeAfterConstructions(front);
      if MixesStyles(front) {
        var i, j :| 0 <= i < |front| && 0 <= j < |front| && front[i] == None && front[j] != None;
        assert outputPorts[i] == None && outputPorts[j] != None;
      } else if front == [] {
        assert !MixesStyles(outputPorts) by {
          assert forall i :: 0 <= i < n ==> outputPorts[i] == last;
        }
      } else {
        assert forall i :: 0 <= i < |front| ==> (front[i] == None <==> front[0] == None);
        if (last == None) == (front[0] == None) {
          assert forall i :: 0 <= i < n ==> (outputPorts[i] == None <==> outputPorts[0] == None) by {
            forall i | 0 <= i < n ensures (outputPorts[i] == None <==> outputPorts[0] == None) {
              if i < n - 1 { assert outputPorts[i] == front[i]; }
            }
          }
        } else {
          assert outputPorts[0] == front[0];
          if last == None {
            assert outputPorts[n - 1] == None && outputPorts[0] != None;
          } else {
            assert outputPorts[0] == None && outputPorts[n - 1] != None;
          }
        }
      }
    }
  }

  /** Once the mode is Conflict, no later construction leaves it. */
  lemma {:induction false} ConflictIsSticky(outputPorts: seq<PortNum>, later: seq<PortNum>)
    requires ModeAfter(outputPorts) == Conflict
    ensures ModeAfter(outputPorts + later) == Conflict
  {
    ModeAfterConstructions(outputPorts);
    ModeAfterConstructions(outputPorts + later);
    var i, j :| 0 <= i < |outputPorts| && 0 <= j < |outputPorts| && outputPorts[i] == None && outputPorts[j] != None;
    assert (outputPorts + later)[i] == None && (outputPorts + later)[j] != None;
  }

  // ---------------------------------------------------------------------
  // Port resolution
  // ---------------------------------------------------------------------

  /**
   * The output port a call acts on: none in Conflict; otherwise the port the
   * call names if it is an output, else the port bound at construction if
   * that is an output, else none.
   */
  function ResolveOutput(mode: Mode, outputPort: PortNum, opNum: PortNum): (r: PortNum)
    ensures r == None || IsOutputPort(r)
    ensures r != None ==> r == outputPort || r == opNum
    ensures mode == Conflict ==> r == None
    ensures mode != Conflict && IsOutputPort(outputPort) ==> r == outputPort
    ensures mode != Conflict && !IsOutputPort(outputPort) && IsOutputPort(opNum) ==> r == opNum
    ensures r == None <==> mode == Conflict || (!IsOutputPort(outputPort) && !IsOutputPort(opNum))
  {
    if mode == Conflict then None
    else if outputPort > None && outputPort < Dammy then outputPort
    else if opNum > None && opNum < Dammy then opNum
    else None
  }

  /** The input port a call acts on, chosen as ResolveOutput chooses an output. */
  function ResolveInput(mode: Mode, inputPort: PortNum, ipNum: PortNum): (r: PortNum)
    ensures r == None || IsInputPort(r)
    ensures r != None ==> r == inputPort || r == ipNum
    ensures mode == Conflict ==> r == None
    ensures mode != Conflict && IsInputPort(inputPort) ==> r == inputPort
    ensures mode != Conflict && !IsInputPort(inputPort) && IsInputPort(ipNum) ==> r == ipNum
    ensures r == None <==> mode == Conflict || (!IsInputPort(inputPort) && !IsInputPort(ipNum))
  {
    if mode == Conflict then None
    else if inputPort > Dammy && inputPort <= In7 then inputPort
    else if ipNum > Dammy then ipNum
    else None
  }

  /** Resolving a port that already resolved changes nothing, whatever is bound. */
  lemma ResolveIsIdempotent(mode: Mode, outputPort: PortNum, opNum: PortNum, inputPort: PortNum, ipNum: PortNum, anyOp: PortNum, anyIp: PortNum)
    ensures var p := ResolveOutput(mode, outputPort, opNum);
            p != None ==> ResolveOutput(mode, p, anyOp) == p
    ensures var q := ResolveInput(mode, inputPort, ipNum);
            q != None ==> ResolveInput(mode, q, anyIp) == q
  {
  }

  // ---------------------------------------------------------------------
  // Commands: the checks of each operation and the byte it sends
  // ---------------------------------------------------------------------

  /** One command as the frame carries it: function code, output port, parameter byte. */
  datatype Command = Command(func: bv8, port: PortNum, param: bv8)

  /** What an operation does: return a negative code and send nothing, or send one command. */
  datatype Plan = Reject(code: int) | Issue(cmd: Command)

  /** The value the operation returns once its command (if any) is sent. */
  function ReturnCode(plan: Plan): int
  {
    match plan
    case Reject(c) => c
    case Issue(_) => 0
  }

  /** The bytes an operation puts on the wire. */
  function Emitted(plan: Plan, id: bv8): (bytes: seq<bv8>)
    ensures plan.Reject? ==> bytes == []
    ensures plan.Issue? ==> |bytes| == 4 && bytes[3] == id && bytes[1] == plan.cmd.param
  {
    match plan
    case Reject(_) => []
    case Issue(cmd) => CommandFrame(cmd, id)
  }

  /**
   * Digital output: the port must resolve (-1) and the value must be 0 or 1
   * (-2); the parameter byte is the value itself.
   */
  function DigitalPlan(mode: Mode, opNum: PortNum, duty: int, outputPort: PortNum): (r: Plan)
    ensures var p := ResolveOutput(mode, outputPort, opNum);
            && (r == Reject(-1) <==> p == None)
            && (r == Reject(-2) <==> p != None && duty != 0 && duty != 1)
            && (r.Issue? <==> p != None && (duty == 0 || duty == 1))
            && (r.Issue? ==> r.cmd.func == FuncDigitalOut && r.cmd.port == p && r.cmd.param as int == duty)
  {
    var p := ResolveOutput(mode, outputPort, opNum);
    if p == None then Reject(-1)
    else if duty != 0 && duty != 1 then Reject(-2)
    else Issue(Command(FuncDigitalOut, p, (duty as bv8) & 0x01))
  }

  /**
   * PWM output: the port must resolve (-1) and not be Out7 (-2), the duty
   * must not be below 0.0 (-3) or above 1.0 (-4); the parameter byte is the
   * duty times 127, truncated.
   */
  function PwmPlan(mode: Mode, opNum: PortNum, duty: real, outputPort: PortNum): (r: Plan)
    ensures var p := ResolveOutput(mode, outputPort, opNum);
            && (r == Reject(-1) <==> p == None)
            && (r == Reject(-2) <==> p == Out7)
            && (r == Reject(-3) <==> p != None && p != Out7 && duty < 0.0)
            && (r == Reject(-4) <==> p != None && p != Out7 && duty > 1.0)
            && (r.Issue? <==> p != None && p != Out7 && 0.0 <= duty <= 1.0)
            && (r.Issue? ==> r.cmd.func == FuncPwmOut && r.cmd.port == p && Out1 <= p < Out7)
            && (r.Issue? ==> r.cmd.param as int == (duty * 127.0).Floor && r.cmd.param as int <= 127)
            && (r.Issue? && duty == 0.0 ==> r.cmd.param as int == 0)
            && (r.Issue? && duty == 1.0 ==> r.cmd.param as int == 127)
  {
    var p := ResolveOutput(mode, outputPort, opNum);
    if p == None then Reject(-1)
    else if p == Out7 then Reject(-2)
    else if duty < 0.0 then Reject(-3)
    else if duty > 1.0 then Reject(-4)
    else
      var n := (duty * 127.0).Floor;
      ByteOfInt(n);
      Issue(Command(FuncPwmOut, p, n as bv8))
  }

  /**
   * Waveform output: the port must resolve (-1) and not be Out7 (-2), the
   * period must be at least 100 ms (-3) and at most 10000 ms (-4); the
   * function code is the waveform's and the parameter byte is the period in
   * units of 100 ms.
   */
  function WavePlan(mode: Mode, opNum: PortNum, form: Waveform, period: int, outputPort: PortNum): (r: Plan)
    ensures var p := ResolveOutput(mode, outputPort, opNum);
            && (r == Reject(-1) <==> p == None)
            && (r == Reject(-2) <==> p == Out7)
            && (r == Reject(-3) <==> p != None && p != Out7 && period < 100)
            && (r == Reject(-4) <==> p != None && p != Out7 && period > 10000)
            && (r.Issue? <==> p != None && p != Out7 && 100 <= period <= 10000)
            && (r.Issue? ==> r.cmd.func == WaveCode(form) && r.cmd.port == p && Out1 <= p < Out7)
            && (r.Issue? ==> r.cmd.param as int == period / 100 && 1 <= r.cmd.param as int <= 100)
  {
    var p := ResolveOutput(mode, outputPort, opNum);
    if p == None then Reject(-1)
    else if p == Out7 then Reject(-2)
    else if period < 100 then Reject(-3)
    else if period > 10000 then Reject(-4)
    else
      ByteOfInt(period / 100);
      Issue(Command(WaveCode(form), p, (period / 100) as bv8))
  }

  /**
   * The parameter byte of both sensor commands: bit 4 is the input level
   * that triggers, bit 3 the output level to drive, bits 0-2 the input port
   * counted from the separator.
   */
  function SensorParam(actInput: bv8, actOutput: bv8, inputPort: int): (b: bv8)
    ensures b < 0x20
    ensures (b >> 4) & 1 == actInput & 1
    ensures (b >> 3) & 1 == actOutput & 1
    ensures (b & 0x07) as int == (inputPort - Dammy) % 8
    ensures IsInputPort(inputPort) ==> (b & 0x07) as int == inputPort - Dammy && 1 <= b & 0x07 <= 7
  {
    0x7F & (((actInput & 0x01) << 4) | ((actOutput & 0x01) << 3) | ((((inputPort - Dammy) % 8) as bv8) & 0x07))
  }

  /**
   * Both sensor commands: the output port must resolve (-1), then the input
   * port (-2); the command goes to the output port with SensorParam as its
   * parameter.
   */
  function SensorPlan(mode: Mode, opNum: PortNum, ipNum: PortNum, func: bv8, actInput: bv8, actOutput: bv8,
                      outputPort: PortNum, inputPort: PortNum): (r: Plan)
    ensures var p := ResolveOutput(mode, outputPort, opNum);
            var q := ResolveInput(mode, inputPort, ipNum);
            && (r == Reject(-1) <==> p == None)
            && (r == Reject(-2) <==> p != None && q == None)
            && (r.Issue? <==> p != None && q != None)
            && (r.Issue? ==> r.cmd.func == func && r.cmd.port == p && IsOutputPort(p) && IsInputPort(q))
            && (r.Issue? ==> r.cmd.param == SensorParam(actInput, actOutput, q) && r.cmd.param < 0x20)
  {
    var p := ResolveOutput(mode, outputPort, opNum);
    var q := ResolveInput(mode, inputPort, ipNum);
    if p == None then Reject(-1)
    else if q == None then Reject(-2)
    else Issue(Command(func, p, SensorParam(actInput, actOutput, q)))
  }

  /** In Conflict every command is rejected with -1 and nothing is sent. */
  lemma ConflictRejectsCommands(opNum: PortNum, ipNum: PortNum, duty: int, level: real, form: Waveform, period: int,
                                func: bv8, actInput: bv8, actOutput: bv8, outputPort: PortNum, inputPort: PortNum)
    ensures DigitalPlan(Conflict, opNum, duty, outputPort) == Reject(-1)
    ensures PwmPlan(Conflict, opNum, level, outputPort) == Reject(-1)
    ensures WavePlan(Conflict, opNum, form, period, outputPort) == Reject(-1)
    ensures SensorPlan(Conflict, opNum, ipNum, func, actInput, actOutput, outputPort, inputPort) == Reject(-1)
  {
  }

  // ---------------------------------------------------------------------
  // Telemetry bits
  // ---------------------------------------------------------------------

  /** Bit k of a telemetry byte, counted from the least significant bit. */
  function StateBit(state: bv8, k: nat): (b: bv8)
    requires k < 8
    ensures b <= 1
    ensures b == 1 <==> (state & (1 << k)) != 0
  {
    (state >> k) & 0x01
  }

  /**
   * What the state readers return: the whole byte when no port resolved,
   * else the bit of port p, where port `first` is bit 0.
   */
  function StateReading(state: bv8, p: PortNum, first: PortNum): (r: int)
    requires p == None || first <= p <= first + 6
    ensures p == None ==> r == state as int
    ensures p != None ==> (r == 0 || r == 1) && (r == 1 <==> (state & (1 << (p - first))) != 0)
  {
    if p == None then state as int else StateBit(state, p - first) as int
  }

  /**
   * What both sensor commands return: 1 when the cached bit of the output
   * port already equals actOutput, compared as given (not masked), else 0.
   */
  function SensorStatus(outputState: bv8, outputPort: PortNum, actOutput: bv8): (r: int)
    requires IsOutputPort(outputPort)
    ensures r == 0 || r == 1
    ensures r == 1 <==> StateBit(outputState, outputPort - Out1) == actOutput
    ensures actOutput > 1 ==> r == 0
  {
    if ((outputState >> (outputPort - 1)) & 0x01) == actOutput then 1 else 0
  }

  // ---------------------------------------------------------------------
  // The 4-byte command frame
  // ---------------------------------------------------------------------

  /** The frame checksum: the exclusive-or of the first two bytes. */
  function Checksum(b0: bv8, b1: bv8): bv8
  {
    b0 ^ b1
  }

  /**
   * [function code in bits 3-6 | port in bits 0-2, parameter, XOR of the
   * first two, device address].
   */
  function CommandFrame(cmd: Command, id: bv8): (f: seq<bv8>)
    ensures |f| == 4
    ensures f[1] == cmd.param && f[2] == Checksum(f[0], f[1]) && f[3] == id
  {
    var b0 := CommandByte(cmd.func, cmd.port);
    [b0, cmd.param, Checksum(b0, cmd.param), id]
  }

  /** The first byte of a command frame: the function code shifted into bits 3-6, the port in bits 0-2. */
  function CommandByte(func: bv8, port: PortNum): bv8
  {
    ((func << 3) & 0x78) | ((port as bv8) & 0x07)
  }

  datatype Parse = Malformed | Parsed(cmd: Command)

  /** How a module with address `id` reads a command frame: the inverse of CommandFrame. */
  function ParseCommand(f: seq<bv8>, id: bv8): (r: Parse)
    ensures r.Parsed? ==> |f| == 4 && f[3] == id && f[2] == Checksum(f[0], f[1]) && r.cmd.param == f[1]
  {
    if |f| != 4 || f[3] != id || f[2] != Checksum(f[0], f[1]) then Malformed
    else Parsed(Command((f[0] >> 3) & 0x0F, (f[0] & 0x07) as int, f[1]))
  }

  /** A frame of any command the driver issues (code below 16, an output port) reads back as that command. */
  lemma CommandFrameRoundTrip(cmd: Command, id: bv8)
    requires cmd.func <= 0x0F && IsOutputPort(cmd.port)
    ensures ParseCommand(CommandFrame(cmd, id), id) == Parsed(cmd)
  {
    var f := CommandFrame(cmd, id);
    CommandByteFields(cmd.func, cmd.port);
  }

  /** The first frame byte keeps the low four bits of the code in bits 3-6 and the low three bits of the port in bits 0-2. */
  lemma CommandByteFields(func: bv8, port: PortNum)
    ensures var b0 := CommandByte(func, port);
            && b0 < 0x80
            && (b0 >> 3) == func & 0x0F
            && (b0 & 0x07) as int == port % 8
  {
  }

  // ---------------------------------------------------------------------
  // The telemetry decoder
  // ---------------------------------------------------------------------

  /** The last accepted telemetry: one bit per input port and one per output port. */
  datatype Snapshot = Snapshot(inputState: bv8, outputState: bv8)

  /** The decoder's state: the 4-byte window `dataBuff` and the last accepted snapshot. */
  datatype Decoder = Decoder(buff: seq<bv8>, snap: Snapshot)

  /** Four consecutive bytes pass the test: address last, checksum of the first two third. */
  predicate Matches(x0: bv8, x1: bv8, x2: bv8, x3: bv8, id: bv8)
  {
    x3 == id && x2 == Checksum(x0, x1)
  }

  /**
   * One received byte: it becomes the window's newest byte; if the window now
   * passes the test its first two bytes become the snapshot; then the window
   * moves on by one byte.
   */
  function Step(d: Decoder, id: bv8, b: bv8): (e: Decoder)
    requires |d.buff| == 4
    ensures |e.buff| == 4 && e.buff[..3] == d.buff[1..3] + [b] && e.buff[3] == b
    ensures Matches(d.buff[0], d.buff[1], d.buff[2], b, id) ==> e.snap == Snapshot(d.buff[0], d.buff[1])
    ensures !Matches(d.buff[0], d.buff[1], d.buff[2], b, id) ==> e.snap == d.snap
  {
    var matched := b == id && d.buff[2] == Checksum(d.buff[0], d.buff[1]);
    Decoder([d.buff[1], d.buff[2], b, b], if matched then Snapshot(d.buff[0], d.buff[1]) else d.snap)
  }

  /** The decoder after the given bytes, oldest first. */
  function Feed(d: Decoder, id: bv8, bytes: seq<bv8>): (e: Decoder)
    requires |d.buff| == 4
    ensures |e.buff| == 4
    decreases |bytes|
  {
    if bytes == [] then d else Feed(Step(d, id, bytes[0]), id, bytes[1..])
  }

  lemma {:induction false} FeedSnoc(d: Decoder, id: bv8, xs: seq<bv8>, b: bv8)
    requires |d.buff| == 4
    ensures Feed(d, id, xs + [b]) == Step(Feed(d, id, xs), id, b)
    decreases |xs|
  {
    if xs == [] {
      assert xs + [b] == [b];
      assert [b][1..] == [];
    } else {
      assert (xs + [b])[1..] == xs[1..] + [b];
      FeedSnoc(Step(d, id, xs[0]), id, xs[1..], b);
    }
  }

  /** The 4-byte window of `h` that starts at index i passes the test. */
  predicate WindowAt(h: seq<bv8>, i: int, id: bv8)
    requires 0 <= i <= |h| - 4
  {
    Matches(h[i], h[i + 1], h[i + 2], h[i + 3], id)
  }

  predicate NoWindow(h: seq<bv8>, id: bv8)
  {
    forall i :: 0 <= i <= |h| - 4 ==> !WindowAt(h, i, id)
  }

  /** The window at i passes the test and no later window does. */
  predicate LastWindowAt(h: seq<bv8>, i: int, id: bv8)
    requires 0 <= i <= |h| - 4
  {
    WindowAt(h, i, id) && forall j :: i < j <= |h| - 4 ==> !WindowAt(h, j, id)
  }

  /**
   * Reference definition of the snapshot after a byte history `h`, searched
   * from its end: the first two bytes of the last window that passes the
   * test, or `dflt` when none does.
   */
  function LastMatch(h: seq<bv8>, id: bv8, dflt: Snapshot): Snapshot
    decreases |h|
  {
    if |h| < 4 then dflt
    else if Matches(h[|h| - 4], h[|h| - 3], h[|h| - 2], h[|h| - 1], id) then Snapshot(h[|h| - 4], h[|h| - 3])
    else LastMatch(h[..|h| - 1], id, dflt)
  }

  lemma PrefixWindow(h: seq<bv8>, k: int, i: int, id: bv8)
    requires 0 <= i && i + 4 <= k <= |h|
    ensures WindowAt(h[..k], i, id) == WindowAt(h, i, id)
  {
    var f := h[..k];
    assert f[i] == h[i] && f[i + 1] == h[i + 1] && f[i + 2] == h[i + 2] && f[i + 3] == h[i + 3];
  }

  lemma NoWindowPrefix(h: seq<bv8>, id: bv8)
    requires |h| >= 1 && NoWindow(h, id)
    ensures NoWindow(h[..|h| - 1], id)
  {
    var front := h[..|h| - 1];
    forall i | 0 <= i <= |front| - 4 ensures !WindowAt(front, i, id) {
      PrefixWindow(h, |h| - 1, i, id);
    }
  }

  lemma LastWindowExtends(h: seq<bv8>, k: int, id: bv8)
    requires |h| >= 4 && !WindowAt(h, |h| - 4, id)
    requires 0 <= k <= |h| - 5 && LastWindowAt(h[..|h| - 1], k, id)
    ensures LastWindowAt(h, k, id)
  {
    PrefixWindow(h, |h| - 1, k, id);
    forall j | k < j <= |h| - 4 ensures !WindowAt(h, j, id) {
      if j < |h| - 4 { PrefixWindow(h, |h| - 1, j, id); }
    }
  }

  lemma LastMatchSkipsLast(h: seq<bv8>, id: bv8, dflt: Snapshot)
    requires |h| >= 4 && !WindowAt(h, |h| - 4, id)
    ensures LastMatch(h, id, dflt) == LastMatch(h[..|h| - 1], id, dflt)
  {
  }

  lemma SomeWindowPrefix(h: seq<bv8>, id: bv8)
    requires |h| >= 4 && !WindowAt(h, |h| - 4, id) && !NoWindow(h, id)
    ensures !NoWindow(h[..|h| - 1], id)
  {
    var i :| 0 <= i <= |h| - 4 && WindowAt(h, i, id);
    PrefixWindow(h, |h| - 1, i, id);
  }

  lemma LastWindowCarriesOver(h: seq<bv8>, id: bv8, dflt: Snapshot, k: int)
    requires |h| >= 4 && !WindowAt(h, |h| - 4, id)
    requires 0 <= k <= |h| - 5 && LastWindowAt(h[..|h| - 1], k, id)
    requires LastMatch(h[..|h| - 1], id, dflt) == Snapshot(h[..|h| - 1][k], h[..|h| - 1][k + 1])
    ensures LastWindowAt(h, k, id) && LastMatch(h, id, dflt) == Snapshot(h[k], h[k + 1])
  {
    LastMatchSkipsLast(h, id, dflt);
    LastWindowExtends(h, k, id);
  }

  /** When no window of the history passes, LastMatch keeps the old snapshot. */
  lemma {:induction false} LastMatchWithoutWindow(h: seq<bv8>, id: bv8, dflt: Snapshot)
    requires NoWindow(h, id)
    ensures LastMatch(h, id, dflt) == dflt
    decreases |h|
  {
    if |h| >= 4 {
      assert !WindowAt(h, |h| - 4, id);
      LastMatchSkipsLast(h, id, dflt);
      NoWindowPrefix(h, id);
      LastMatchWithoutWindow(h[..|h| - 1], id, dflt);
    }
  }

  /** When some window passes, LastMatch takes the first two bytes of the last one that does. */
  lemma {:induction false} LastMatchAtLastWindow(h: seq<bv8>, id: bv8, dflt: Snapshot)
    requires !NoWindow(h, id)
    ensures exists i :: 0 <= i <= |h| - 4 && LastWindowAt(h, i, id) && LastMatch(h, id, dflt) == Snapshot(h[i], h[i + 1])
    decreases |h|
  {
    if WindowAt(h, |h| - 4, id) {
      assert LastWindowAt(h, |h| - 4, id);
    } else {
      var front := h[..|h| - 1];
      SomeWindowPrefix(h, id);
      LastMatchAtLastWindow(front, id, dflt);
      var k :| 0 <= k <= |front| - 4 && LastWindowAt(front, k, id) && LastMatch(front, id, dflt) == Snapshot(front[k], front[k + 1]);
      LastWindowCarriesOver(h, id, dflt, k);
    }
  }

  /**
   * LastMatch keeps the old snapshot exactly when no window passes, and
   * otherwise takes the one of the last window that passes.
   */
  lemma LastMatchChoosesLastWindow(h: seq<bv8>, id: bv8, dflt: Snapshot)
    ensures NoWindow(h, id) ==> LastMatch(h, id, dflt) == dflt
    ensures !NoWindow(h, id) ==>
              exists i :: 0 <= i <= |h| - 4 && LastWindowAt(h, i, id) && LastMatch(h, id, dflt) == Snapshot(h[i], h[i + 1])
  {
    if NoWindow(h, id) {
      LastMatchWithoutWindow(h, id, dflt);
    } else {
      LastMatchAtLastWindow(h, id, dflt);
    }
  }

  /**
   * The decoder after any byte stream: its window holds the last three bytes
   * seen (counting those left from before), and its snapshot is what
   * LastMatch gives for the whole history, starting from the old snapshot.
   */
  lemma {:induction false} FeedTracksStream(d: Decoder, id: bv8, bytes: seq<bv8>)
    requires |d.buff| == 4
    ensures var e := Feed(d, id, bytes);
            var h := d.buff[..3] + bytes;
            e.buff[..3] == h[|h| - 3..] && e.snap == LastMatch(h, id, d.snap)
    decreases |bytes|
  {
    var h := d.buff[..3] + bytes;
    if bytes == [] {
      assert h == d.buff[..3];
    } else {
      var n := |bytes|;
      var xs, b := bytes[..n - 1], bytes[n - 1];
      assert bytes == xs + [b];
      FeedTracksStream(d, id, xs);
      FeedSnoc(d, id, xs, b);
      var hx := d.buff[..3] + xs;
      assert h == hx + [b];
      var f := Feed(d, id, xs);
      assert f.buff[..3] == hx[|hx| - 3..];
      assert f.buff[0] == h[|h| - 4] && f.buff[1] == h[|h| - 3] && f.buff[2] == h[|h| - 2];
      assert h[..|h| - 1] == hx;
    }
  }

  /**
   * Resynchronisation: whatever bytes came before, a frame that CommandFrame
   * built for this address is accepted on its last byte, and its first two
   * bytes become the snapshot.
   */
  lemma FrameLocksOn(d: Decoder, id: bv8, garbage: seq<bv8>, cmd: Command)
    requires |d.buff| == 4
    ensures var f := CommandFrame(cmd, id);
            var e := Feed(d, id, garbage + f);
            e.snap == Snapshot(f[0], f[1]) && e.buff[..3] == f[1..]
  {
    var f := CommandFrame(cmd, id);
    var bytes := garbage + f;
    FeedTracksStream(d, id, bytes);
    var h := d.buff[..3] + bytes;
    assert h[|h| - 4..] == f;
  }
}
