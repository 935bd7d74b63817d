/**
 * The FET driver object. Its fields are the driver's: the bound ports, the
 * telemetry snapshot, the 4-byte receive window and the module address. The
 * static mode that all instances share is one ModeCell object that every
 * instance references; the transport is a Channel.
 */
module FetsDriver {
  import opened FetsProtocol
  import opened Transport
  import opened Bytes

  /** The process-wide operating mode, shared by every Fets instance. */
  class ModeCell {
    var mode: Mode

    constructor ()
      ensures mode == Init
    {
      mode := Init;
    }
  }

  class Fets {
    const cell: ModeCell
    const link: Channel
    /** The receive window; only its first three bytes carry over between bytes. */
    const dataBuff: array<bv8>
    var opNum: PortNum
    var ipNum: PortNum
    var inputState: bv8
    var outputState: bv8
    var id: bv8

    ghost predicate Valid()
      reads this
    {
      dataBuff.Length == 4
    }

    /** The decoder state the fields hold. */
    ghost function Decoding(): Decoder
      reads this, dataBuff
    {
      Decoder(dataBuff[..], Snapshot(inputState, outputState))
    }

    /**
     * Builds an instance bound to `outputPort` and `inputPort`, or a module
     * instance when `outputPort` is None, and moves the shared mode on. On a
     * conflict the bound ports are cleared and the address is not stored.
     * The window, the snapshot and (on a conflict) the address start with
     * whatever values they happen to hold.
     */
    constructor (cell: ModeCell, link: Channel, newId: bv8 := DefaultId,
                 outputPort: PortNum := None, inputPort: PortNum := None)
      modifies cell
      ensures Valid() && fresh(dataBuff)
      ensures this.cell == cell && this.link == link
      ensures cell.mode == NextMode(old(cell.mode), outputPort)
      ensures cell.mode == Conflict ==> opNum == None && ipNum == None
      ensures cell.mode != Conflict ==> id == newId && opNum == outputPort && ipNum == inputPort
    {
      this.cell := cell;
      this.link := link;
      dataBuff := new bv8[4];
      var newMode := Init;
      if outputPort == None {
        newMode := Module;
      } else {
        newMode := Port;
      }
      if cell.mode != Init && newMode != cell.mode {
        cell.mode := Conflict;
        opNum := None;
        ipNum := None;
      } else {
        cell.mode := newMode;
        id := newId;
        opNum := outputPort;
        ipNum := inputPort;
      }
    }

    /**
     * Resolves the output port and, if it resolves, sends the 4-byte frame of
     * one command.
     */
    method SendData(funcBit: bv8, outputPort: PortNum, parameter: bv8) returns (r: int)
      requires Valid()
      modifies link
      ensures link.incoming == old(link.incoming)
      ensures var p := ResolveOutput(cell.mode, outputPort, opNum);
              && (p == None ==> r == -1 && link.sent == old(link.sent))
              && (p != None ==> r == 0 && link.sent == old(link.sent) + CommandFrame(Command(funcBit, p, parameter), id))
    {
      var p := ResolveOutput(cell.mode, outputPort, opNum);
      if p == None {
        return -1;
      }
      var str := new bv8[4];
      str[0] := CommandByte(funcBit, p);
      str[1] := parameter;
      str[2] := Checksum(str[0], str[1]);
      str[3] := id;
      ghost var frame := str[..];
      for i := 0 to 4
        invariant str[..] == frame
        invariant link.sent == old(link.sent) + frame[..i]
        invariant link.incoming == old(link.incoming)
      {
        link.Send(str[i]);
      }
      assert frame[..4] == frame == CommandFrame(Command(funcBit, p, parameter), id);
      return 0;
    }

    /** Digital output of 0 or 1. */
    method Write(duty: int, outputPort: PortNum := None) returns (r: int)
      requires Valid()
      modifies link
      ensures r == ReturnCode(DigitalPlan(cell.mode, opNum, duty, outputPort))
      ensures link.sent == old(link.sent) + Emitted(DigitalPlan(cell.mode, opNum, duty, outputPort), id)
      ensures link.incoming == old(link.incoming)
    {
      var p := ResolveOutput(cell.mode, outputPort, opNum);
      if p == None {
        return -1;
      }
      if duty != 0 && duty != 1 {
        return -2;
      }
      r := SendData(FuncDigitalOut, p, (duty as bv8) & 0x01);
    }

    /** PWM output with a duty between 0.0 and 1.0. */
    method WritePwm(duty: real, outputPort: PortNum := None) returns (r: int)
      requires Valid()
      modifies link
      ensures r == ReturnCode(PwmPlan(cell.mode, opNum, duty, outputPort))
      ensures link.sent == old(link.sent) + Emitted(PwmPlan(cell.mode, opNum, duty, outputPort), id)
      ensures link.incoming == old(link.incoming)
    {
      var p := ResolveOutput(cell.mode, outputPort, opNum);
      if p == None {
        return -1;
      }
      if p == Out7 {
        return -2;
      }
      if duty < 0.0 {
        return -3;
      }
      if duty > 1.0 {
        return -4;
      }
      r := SendData(FuncPwmOut, p, (duty * 127.0).Floor as bv8);
    }

    /**
     * Programs the module to drive `actOutput` on the output while the input
     * reads `actInput`. Returns 1 when the cached output bit already equals
     * `actOutput`.
     */
    method SensorResponse(actInput: bv8, actOutput: bv8, outputPort: PortNum := None, inputPort: PortNum := None)
      returns (r: int)
      requires Valid()
      modifies link
      ensures var plan := SensorPlan(cell.mode, opNum, ipNum, FuncSensorRes, actInput, actOutput, outputPort, inputPort);
              && (plan.Reject? ==> r == plan.code)
              && (plan.Issue? ==> r == SensorStatus(outputState, plan.cmd.port, actOutput))
              && link.sent == old(link.sent) + Emitted(plan, id)
      ensures link.incoming == old(link.incoming)
    {
      var p := ResolveOutput(cell.mode, outputPort, opNum);
      if p == None {
        return -1;
      }
      var q := ResolveInput(cell.mode, inputPort, ipNum);
      if q == None {
        return -2;
      }
      var _ := SendData(FuncSensorRes, p, SensorParam(actInput, actOutput, q));
      r := if ((outputState >> (p - 1)) & 0x01) == actOutput then 1 else 0;
    }

    /**
     * As SensorResponse, but the module latches the output once and keeps it
     * whatever the input does afterwards.
     */
    method SensorTrigger(actInput: bv8, actOutput: bv8, outputPort: PortNum := None, inputPort: PortNum := None)
      returns (r: int)
      requires Valid()
      modifies link
      ensures var plan := SensorPlan(cell.mode, opNum, ipNum, FuncSensorTrg, actInput, actOutput, outputPort, inputPort);
              && (plan.Reject? ==> r == plan.code)
              && (plan.Issue? ==> r == SensorStatus(outputState, plan.cmd.port, actOutput))
              && link.sent == old(link.sent) + Emitted(plan, id)
      ensures link.incoming == old(link.incoming)
    {
      var p := ResolveOutput(cell.mode, outputPort, opNum);
      if p == None {
        return -1;
      }
      var q := ResolveInput(cell.mode, inputPort, ipNum);
      if q == None {
        return -2;
      }
      var _ := SendData(FuncSensorTrg, p, SensorParam(actInput, actOutput, q));
      r := if ((outputState >> (p - 1)) & 0x01) == actOutput then 1 else 0;
    }

    /** Waveform output with a period of 100 to 10000 ms. */
    method WriteWave(form: Waveform, period: int, outputPort: PortNum := None) returns (r: int)
      requires Valid()
      modifies link
      ensures r == ReturnCode(WavePlan(cell.mode, opNum, form, period, outputPort))
      ensures link.sent == old(link.sent) + Emitted(WavePlan(cell.mode, opNum, form, period, outputPort), id)
      ensures link.incoming == old(link.incoming)
    {
      var p := ResolveOutput(cell.mode, outputPort, opNum);
      if p == None {
        return -1;
      }
      if p == Out7 {
        return -2;
      }
      if period < 100 {
        return -3;
      }
      if period > 10000 {
        return -4;
      }
      r := SendData(WaveCode(form), p, (period / 100) as bv8);
    }

    /** Shifts the window left by one byte; the last byte stays where it was. */
    method ShiftWindow()
      requires Valid()
      modifies dataBuff
      ensures dataBuff[..] == old(dataBuff[1..]) + [old(dataBuff[3])]
    {
      for i := 0 to 3
        invariant forall k :: 0 <= k < i ==> dataBuff[k] == old(dataBuff[k + 1])
        invariant forall k :: i <= k < 4 ==> dataBuff[k] == old(dataBuff[k])
      {
        dataBuff[i] := dataBuff[i + 1];
      }
    }

    /**
     * The body of the receive loop for one byte: store it as the window's
     * newest byte, take the first two bytes as the snapshot when the address
     * and the checksum match, then shift the window.
     */
    method TakeByte(b: bv8)
      requires Valid()
      modifies this, dataBuff
      ensures opNum == old(opNum) && ipNum == old(ipNum) && id == old(id)
      ensures Decoding() == Step(old(Decoding()), id, b)
    {
      dataBuff[3] := b;
      if dataBuff[3] == id && dataBuff[2] == Checksum(dataBuff[0], dataBuff[1]) {
        outputState := dataBuff[1];
        inputState := dataBuff[0];
      }
      ShiftWindow();
    }

    /**
     * Reads every byte waiting on the transport through the window and
     * returns how many there were; in Conflict reads nothing and returns -1.
     */
    method RecvData() returns (r: int)
      requires Valid()
      modifies this, dataBuff, link
      ensures link.sent == old(link.sent)
      ensures opNum == old(opNum) && ipNum == old(ipNum) && id == old(id)
      ensures cell.mode == Conflict ==>
                r == -1 && link.incoming == old(link.incoming) && Decoding() == old(Decoding())
      ensures cell.mode != Conflict ==>
                && r == |old(link.incoming)|
                && link.incoming == []
                && Decoding() == Feed(old(Decoding()), id, old(link.incoming))
    {
      if cell.mode == Conflict {
        return -1;
      }
      var getNum := 0;
      while true
        invariant link.sent == old(link.sent)
        invariant opNum == old(opNum) && ipNum == old(ipNum) && id == old(id)
        invariant getNum + |link.incoming| == |old(link.incoming)|
        invariant Feed(Decoding(), id, link.incoming) == Feed(old(Decoding()), id, old(link.incoming))
        decreases |link.incoming|
      {
        ghost var rest := link.incoming;
        var data := link.Receive();
        if data == -1 {
          break;
        }
        ByteRoundTrip(rest[0]);
        TakeByte(data as bv8);
        getNum := getNum + 1;
      }
      return getNum;
    }

    /**
     * Decodes what has arrived, then returns the output telemetry: the bit of
     * the resolved output port, or the whole byte when no port resolves; -1
     * in Conflict, with nothing read.
     */
    method GetOutputState(outputPort: PortNum := None) returns (r: int)
      requires Valid()
      modifies this, dataBuff, link
      ensures link.sent == old(link.sent)
      ensures opNum == old(opNum) && ipNum == old(ipNum) && id == old(id)
      ensures cell.mode == Conflict ==>
                r == -1 && link.incoming == old(link.incoming) && Decoding() == old(Decoding())
      ensures cell.mode != Conflict ==>
                && link.incoming == []
                && Decoding() == Feed(old(Decoding()), id, old(link.incoming))
                && r == StateReading(outputState, ResolveOutput(cell.mode, outputPort, opNum), Out1)
    {
      if cell.mode == Conflict {
        return -1;
      }
      var _ := RecvData();
      var p := ResolveOutput(cell.mode, outputPort, opNum);
      if p == None {
        return outputState as int;
      }
      return ((outputState >> (p - Out1)) & 0x01) as int;
    }

    /** As GetOutputState, for the input telemetry and the input ports. */
    method GetInputState(inputPort: PortNum := None) returns (r: int)
      requires Valid()
      modifies this, dataBuff, link
      ensures link.sent == old(link.sent)
      ensures opNum == old(opNum) && ipNum == old(ipNum) && id == old(id)
      ensures cell.mode == Conflict ==>
                r == -1 && link.incoming == old(link.incoming) && Decoding() == old(Decoding())
      ensures cell.mode != Conflict ==>
                && link.incoming == []
                && Decoding() == Feed(old(Decoding()), id, old(link.incoming))
                && r == StateReading(inputState, ResolveInput(cell.mode, inputPort, ipNum), In1)
    {
      if cell.mode == Conflict {
        return -1;
      }
      var _ := RecvData();
      var q := ResolveInput(cell.mode, inputPort, ipNum);
      if q == None {
        return inputState as int;
      }
      return ((inputState >> (q - In1)) & 0x01) as int;
    }
  }
}
