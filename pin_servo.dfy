/**
 * `PinServo`: one servo on one Arduino pin, driven either by an angle or by
 * an exact pulse width in microseconds, and configured by the `servo`
 * console command. The Arduino `Servo` object is represented by what it was
 * attached with (pin and pulse limits) and the last value written to it.
 */
module PinServos {
  import opened Options

  /** What is written to the servo: `write (angle)` or `writeMicroseconds (exact)`. */
  datatype Pulse = Angle(degrees: int) | Microseconds(us: int)

  /** The pin and pulse-width limits passed to `attach`. */
  datatype Attachment = Attachment(pin: int, usMin: int, usMax: int)

  /** The library servo: attached or not, and the last value written to it. */
  datatype Servo = Servo(attachment: Option<Attachment>, last: Option<Pulse>)

  /**
   * The fields of `PinServo`: the pin, the limits, the mode flag and the
   * value. The C++ keeps angle and microseconds in one union; `value` is its
   * content and `angleMode` says how it is read.
   */
  datatype Settings = Settings(pin: int, usMin: int, usMax: int, angleMode: bool, value: int)

  /** The servo of a freshly constructed `PinServo`: never attached, nothing written. */
  const Unattached: Servo := Servo(None, None)

  /** The settings of `PinServo (pin_no)`. */
  function Initial(pin: int): (st: Settings)
    ensures st.pin == pin && st.usMin == 544 && st.usMax == 2400 && st.angleMode && st.value == 90
  {
    Settings(pin, 544, 2400, true, 90)
  }

  /** The pulse the settings ask for. */
  function Desired(st: Settings): Pulse {
    if st.angleMode then Angle(st.value) else Microseconds(st.value)
  }

  /**
   * An attached servo is driven as the settings say: attached on the
   * configured pin with the configured limits, the configured pulse being
   * the last one written.
   */
  predicate Driven(st: Settings, sv: Servo) {
    sv.attachment.Some? ==>
      sv.attachment.value == Attachment(st.pin, st.usMin, st.usMax) && sv.last == Some(Desired(st))
  }

  /** `on`: attach unless attached, then write the configured pulse. */
  function SwitchedOn(st: Settings, sv: Servo): (r: Servo)
    ensures r.attachment.Some? && r.last == Some(Desired(st))
    ensures sv.attachment.None? ==> r.attachment == Some(Attachment(st.pin, st.usMin, st.usMax))
    ensures Driven(st, sv) ==> Driven(st, r)
  {
    var a := if sv.attachment.Some? then sv.attachment else Some(Attachment(st.pin, st.usMin, st.usMax));
    Servo(a, Some(Desired(st)))
  }

  /** `off`: detach if attached; nothing is written. */
  function SwitchedOff(sv: Servo): (r: Servo)
    ensures r.attachment.None? && r.last == sv.last
  {
    sv.(attachment := None)
  }

  /** `set_min_max_microseconds`: new limits; an attached servo is re-attached with them. */
  function WithLimits(st: Settings, sv: Servo, usMin: int, usMax: int): (r: (Settings, Servo))
    ensures r.0 == st.(usMin := usMin, usMax := usMax)
    ensures r.1.attachment.Some? <==> sv.attachment.Some?
    ensures sv.attachment.Some? ==> Driven(r.0, r.1)
    ensures sv.attachment.None? ==> r.1 == sv
  {
    var st' := st.(usMin := usMin, usMax := usMax);
    (st', if sv.attachment.Some? then SwitchedOn(st', SwitchedOff(sv)) else sv)
  }

  /** `set_angle`: angle mode with the given value, written only when attached. */
  function WithAngle(st: Settings, sv: Servo, angle: int): (r: (Settings, Servo))
    ensures r.0 == st.(angleMode := true, value := angle)
    ensures r.1.attachment == sv.attachment
    ensures r.1.last == if sv.attachment.Some? then Some(Angle(angle)) else sv.last
  {
    (st.(angleMode := true, value := angle), if sv.attachment.Some? then sv.(last := Some(Angle(angle))) else sv)
  }

  /** `set_exact`: microseconds mode with the given value, written only when attached. */
  function WithExact(st: Settings, sv: Servo, exact: int): (r: (Settings, Servo))
    ensures r.0 == st.(angleMode := false, value := exact)
    ensures r.1.attachment == sv.attachment
    ensures r.1.last == if sv.attachment.Some? then Some(Microseconds(exact)) else sv.last
  {
    (st.(angleMode := false, value := exact), if sv.attachment.Some? then sv.(last := Some(Microseconds(exact))) else sv)
  }

  /** The range checks of `command`. */
  predicate MinMaxInRange(usMin: int, usMax: int) {
    500 <= usMin && usMin < usMax && usMax <= 2500
  }

  predicate AngleInRange(angle: int) {
    0 <= angle <= 180
  }

  predicate MicrosecondsInRange(exact: int) {
    10 <= exact < 10000
  }

  /**
   * `command (argc, argv)`: `third` is the sub-command word and `nums` the
   * `toInt` values of the words after it. The result is the returned flag
   * and the new settings and servo.
   */
  function Commanded(st: Settings, sv: Servo, third: string, argc: int, nums: seq<int>): (r: (bool, Settings, Servo))
    requires argc >= 3 && |nums| == argc - 3
    ensures third == "minmax" ==> (r.0 <==> argc == 5 && MinMaxInRange(nums[0], nums[1]))
    ensures third == "angle" ==> (r.0 <==> argc == 4 && AngleInRange(nums[0]))
    ensures third == "microseconds" ==> (r.0 <==> argc == 4 && MicrosecondsInRange(nums[0]))
    ensures third == "on" || third == "off" ==> r.0
    ensures third !in ["minmax", "angle", "microseconds", "on", "off"] ==> !r.0
    ensures !r.0 ==> r.1 == st && r.2 == sv
  {
    if third == "minmax" then
      if argc == 5 && MinMaxInRange(nums[0], nums[1]) then
        var (st', sv') := WithLimits(st, sv, nums[0], nums[1]);
        (true, st', sv')
      else (false, st, sv)
    else if third == "angle" then
      if argc == 4 && AngleInRange(nums[0]) then
        var (st', sv') := WithAngle(st, sv, nums[0]);
        (true, st', sv')
      else (false, st, sv)
    else if third == "microseconds" then
      if argc == 4 && MicrosecondsInRange(nums[0]) then
        var (st', sv') := WithExact(st, sv, nums[0]);
        (true, st', sv')
      else (false, st, sv)
    else if third == "on" then (true, st, SwitchedOn(st, sv))
    else if third == "off" then (true, st, SwitchedOff(sv))
    else (false, st, sv)
  }

  /** Every command keeps an attached servo driven as the settings say. */
  lemma CommandKeepsDriven(st: Settings, sv: Servo, third: string, argc: int, nums: seq<int>)
    requires argc >= 3 && |nums| == argc - 3 && Driven(st, sv)
    ensures var r := Commanded(st, sv, third, argc, nums); Driven(r.1, r.2)
  {
  }

  /**
   * An accepted command changes exactly what it names: the limits, or the
   * mode and the value, or only the servo's attachment.
   */
  lemma AcceptedCommandChanges(st: Settings, sv: Servo, third: string, argc: int, nums: seq<int>)
    requires argc >= 3 && |nums| == argc - 3
    ensures var r := Commanded(st, sv, third, argc, nums);
      && (r.0 && third == "minmax" ==> r.1 == st.(usMin := nums[0], usMax := nums[1]))
      && (r.0 && third == "angle" ==> r.1 == st.(angleMode := true, value := nums[0]) && Desired(r.1) == Angle(nums[0]))
      && (r.0 && third == "microseconds" ==> r.1 == st.(angleMode := false, value := nums[0]) && Desired(r.1) == Microseconds(nums[0]))
      && (third == "on" ==> r.1 == st && r.2.attachment.Some? && r.2.last == Some(Desired(st)))
      && (third == "off" ==> r.1 == st && r.2.attachment.None?)
      && (r.2.attachment.Some? <==> if third == "on" then true else if third == "off" then false else sv.attachment.Some?)
  {
  }

  class PinServo {
    const pin: int
    var usMin: int
    var usMax: int
    var angleMode: bool
    /** The union `m_value`: an angle in angle mode, microseconds otherwise. */
    var value: int
    var servo: Servo

    function State(): Settings
      reads this
    {
      Settings(pin, usMin, usMax, angleMode, value)
    }

    /** `PinServo (pin_no)`. */
    constructor (pinNo: int)
      ensures State() == Initial(pinNo) && servo == Unattached
    {
      pin := pinNo;
      usMin := 544;
      usMax := 2400;
      angleMode := true;
      value := 90;
      servo := Unattached;
    }

    method On()
      modifies this
      ensures State() == old(State()) && servo == SwitchedOn(old(State()), old(servo))
    {
      if servo.attachment.None? {
        servo := servo.(attachment := Some(Attachment(pin, usMin, usMax)));
      }
      if angleMode {
        servo := servo.(last := Some(Angle(value)));
      } else {
        servo := servo.(last := Some(Microseconds(value)));
      }
    }

    method Off()
      modifies this
      ensures State() == old(State()) && servo == SwitchedOff(old(servo))
    {
      if servo.attachment.Some? {
        servo := servo.(attachment := None);
      }
    }

    method SetMinMaxMicroseconds(newMin: int, newMax: int)
      modifies this
      ensures (State(), servo) == WithLimits(old(State()), old(servo), newMin, newMax)
    {
      usMin := newMin;
      usMax := newMax;
      if servo.attachment.Some? {
        Off();
        On();
      }
    }

    method SetAngle(angle: int)
      modifies this
      ensures (State(), servo) == WithAngle(old(State()), old(servo), angle)
    {
      angleMode := true;
      value := angle;
      if servo.attachment.Some? {
        servo := servo.(last := Some(Angle(angle)));
      }
    }

    method SetExact(exact: int)
      modifies this
      ensures (State(), servo) == WithExact(old(State()), old(servo), exact)
    {
      angleMode := false;
      value := exact;
      if servo.attachment.Some? {
        servo := servo.(last := Some(Microseconds(exact)));
      }
    }

    /** `command (argc, argv)`; the messages it prints are not modelled. */
    method Command(third: string, argc: int, nums: seq<int>) returns (ok: bool)
      requires argc >= 3 && |nums| == argc - 3
      modifies this
      ensures (ok, State(), servo) == Commanded(old(State()), old(servo), third, argc, nums)
    {
      ok := true;
      if third == "minmax" {
        if argc == 5 {
          var dMin, dMax := nums[0], nums[1];
          if dMin >= 500 && dMin < dMax && dMax <= 2500 {
            SetMinMaxMicroseconds(dMin, dMax);
          } else {
            ok := false;
          }
        } else {
          ok := false;
        }
      } else if third == "angle" {
        if argc == 4 {
          var dAngle := nums[0];
          if dAngle >= 0 && dAngle <= 180 {
            SetAngle(dAngle);
          } else {
            ok := false;
          }
        } else {
          ok := false;
        }
      } else if third == "microseconds" {
        if argc == 4 {
          var dExact := nums[0];
          if dExact >= 10 && dExact < 10000 {
            SetExact(dExact);
          } else {
            ok := false;
          }
        } else {
          ok := false;
        }
      } else if third == "on" {
        On();
      } else if third == "off" {
        Off();
      } else {
        ok := false;
      }
    }
  }
}
