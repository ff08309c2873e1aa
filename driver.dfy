/** The Sunshine rotator driver object.

    The fields are the driver state its methods update in place; the host
    framework (the INDI rotator base class) writes `connected`, `reversed`
    and the goto property's state, and calls the methods below. Each method
    that changes motion state is tied to a function of `Motion`, whose
    properties are proved there; each command method is tied to
    `Protocol.Send`.
 */
module Driver {
  import opened Angles
  import opened Motion
  import opened Protocol

  class Sunshine {
    /** `m_TargetAngle`: the last stored target, `NO_TARGET` before any move. */
    var targetAngle: real
    /** The goto property's value: the current angle. */
    var currentAngle: real
    /** The goto property's state. */
    var status: PropertyState
    /** The reverse switch, owned by the host. */
    var reversed: bool
    /** Whether the host has the device connected. */
    var connected: bool
    /** The firmware text property. */
    var firmware: string
    /** How many times the polling timer has been re-armed. */
    var timerArms: nat
    /** indicom's `range360`, known only by its contract. */
    const range360: real -> real

    /** The motion state the tick function acts on. */
    function State(): MotionState
      reads this
    {
      MotionState(currentAngle, targetAngle, status)
    }

    /** A fresh driver: no target, at rest at 0 degrees, disconnected, and
        the firmware text "NA" that property set-up fills in. */
    constructor (wrap: real -> real)
      requires IsRange360(wrap)
      ensures range360 == wrap
      ensures State() == MotionState(0.0, NO_TARGET, Idle)
      ensures !reversed && !connected && firmware == "NA" && timerArms == 0
    {
      range360 := wrap;
      targetAngle := NO_TARGET;
      currentAngle := 0.0;
      status := Idle;
      reversed := false;
      connected := false;
      firmware := "NA";
      timerArms := 0;
    }

    /** Stores the normalised (and, with the reverse switch on, mirrored)
        target and reports Busy. Nothing moves here. */
    method MoveRotator(angle: real) returns (st: PropertyState)
      modifies this`targetAngle
      ensures st == Busy
      ensures targetAngle == MoveTarget(angle, reversed, range360)
    {
      if reversed {
        targetAngle := range360(360.0 - angle);
      } else {
        targetAngle := range360(angle);
      }
      st := Busy;
    }

    /** Accepted and ignored. */
    method SyncRotator(angle: real) returns (ok: bool)
      ensures ok
    {
      ok := true;
    }

    /** Accepted; the driver itself changes nothing. */
    method AbortRotator() returns (ok: bool)
      ensures ok
    {
      ok := true;
    }

    /** Accepted; the switch itself is kept by the host. */
    method ReverseRotator(enabled: bool) returns (ok: bool)
      ensures ok
    {
      ok := true;
    }

    /** One poll of the timer: advances the motion state by one tick and
        re-arms the timer, on every path. */
    method TimerHit()
      modifies this`currentAngle, this`status, this`timerArms
      ensures State() == Tick(old(State()), connected, range360)
      ensures timerArms == old(timerArms) + 1
    {
      if !connected {
        timerArms := timerArms + 1;
        return;
      }
      if status == Busy {
        if Abs(targetAngle - currentAngle) <= ROTATION_RATE {
          currentAngle := targetAngle;
          status := Ok;
        } else {
          var sign := StepSign(targetAngle, currentAngle);
          var diff := ROTATION_RATE * sign as real;
          currentAngle := currentAngle + diff;
          currentAngle := range360(currentAngle);
        }
      }
      timerArms := timerArms + 1;
    }

    /** Writes `cmd`, then reads the reply into `res` up to the stop
        character; on success the last byte read is replaced by NUL. */
    method SendCommand(cmd: string, res: array<char>, port: Transport) returns (ok: bool, calls: seq<PortCall>)
      requires res.Length == DRIVER_LEN
      requires port.write(cmd) ==> Honours(port.read(DRIVER_READ), DRIVER_LEN)
      modifies res
      ensures Sent(ok, res[..], calls) == Send(cmd, port, old(res[..]))
    {
      calls := [Flush, Write(cmd)];
      if !port.write(cmd) {
        ok := false;
        return;
      }
      var outcome := port.read(DRIVER_READ);
      calls := calls + [Read(DRIVER_READ)];
      match outcome
      case ReadFailed(stored) =>
        forall i | 0 <= i < |stored| {
          res[i] := stored[i];
        }
        ok := false;
      case ReadOk(data) =>
        forall i | 0 <= i < |data| {
          res[i] := data[i];
        }
        res[|data| - 1] := NUL;
        ok := true;
    }

    /** Liveness check: ":P#" in a fresh zeroed buffer, reply ignored. */
    method Ping(port: Transport) returns (ok: bool)
      requires port.write(PING_FRAME) ==> Honours(port.read(DRIVER_READ), DRIVER_LEN)
      ensures ok == (port.write(PING_FRAME) && port.read(DRIVER_READ).ReadOk?)
    {
      var res := new char[DRIVER_LEN](_ => NUL);
      assert res[..] == Zeros(DRIVER_LEN);
      var calls;
      ok, calls := SendCommand(PING_FRAME, res, port);
      SendOkIffBothSucceed(PING_FRAME, port, Zeros(DRIVER_LEN));
    }

    /** The connection handshake is a ping. */
    method Handshake(port: Transport) returns (ok: bool)
      requires port.write(PING_FRAME) ==> Honours(port.read(DRIVER_READ), DRIVER_LEN)
      ensures ok == (port.write(PING_FRAME) && port.read(DRIVER_READ).ReadOk?)
    {
      ok := Ping(port);
    }

    /** Queries ":V#" and, on success, saves the text built from reply
        offsets 2, 3 and 4; on failure the firmware text is kept. */
    method GetFirmware(port: Transport) returns (ok: bool)
      requires port.write(VERSION_FRAME) ==> Honours(port.read(DRIVER_READ), DRIVER_LEN)
      modifies this`firmware
      ensures ok == (port.write(VERSION_FRAME) && port.read(DRIVER_READ).ReadOk?)
      ensures firmware == if ok then FirmwareText(Send(VERSION_FRAME, port, Zeros(DRIVER_LEN)).res)
                          else old(firmware)
    {
      var res := new char[DRIVER_LEN](_ => NUL);
      assert res[..] == Zeros(DRIVER_LEN);
      var sent, calls := SendCommand(VERSION_FRAME, res, port);
      SendOkIffBothSucceed(VERSION_FRAME, port, Zeros(DRIVER_LEN));
      if sent {
        var fmt := new char[6][NUL, '.', NUL, '.', NUL, NUL];
        fmt[0] := res[2];
        fmt[2] := res[3];
        fmt[4] := res[4];
        assert fmt[..] == FirmwareFormat(res[..]);
        firmware := CString(fmt[..]);
        return true;
      }
      return false;
    }
  }
}
