/**
 * The Bluetooth input side (firmware/src/bt_gamepad.c): conversion of a
 * Bluepad32 gamepad state into the canonical report, and the single
 * controller slot that the Bluepad32 callbacks write and the main loop reads.
 *
 * Bluepad32's button masks come from its own headers, which are not part of
 * this model; they are a parameter (`BpMasks`), so every statement below holds
 * whatever bits Bluepad32 assigns to its buttons.
 */
module BtGamepad {
  import opened CTypes
  import opened Gamepad

  /** `BT_GAMEPAD_MAX`: one controller at a time. */
  const BT_GAMEPAD_MAX: nat := 1

  /** The Bluepad32 masks `map_buttons` tests, one per button it forwards. */
  datatype BpMasks = BpMasks(
    a: bv32, b: bv32, x: bv32, y: bv32,
    shoulderL: bv32, shoulderR: bv32, thumbL: bv32, thumbR: bv32,
    start: bv32, select: bv32, system: bv32, home: bv32)

  /** The fields of Bluepad32's `uni_gamepad_t` that `convert_report` reads. */
  datatype BpGamepad = BpGamepad(
    axisX: i32, axisY: i32, axisRx: i32, axisRy: i32,
    brake: i32, throttle: i32,
    buttons: bv32, miscButtons: bv32,
    dpad: bv8)

  /** A single bit: 1 when `c` holds. */
  function Flag(c: bool): (r: Buttons)
    ensures r == 0 || r == 1
    ensures r == 1 <==> c
  {
    if c then 1 else 0
  }

  /**
   * `map_buttons`: face, shoulder and thumb buttons from `bp`, start, select
   * and the guide button from `misc`; both the system and the home button
   * light GUIDE.
   */
  function MapButtons(bp: bv32, misc: bv32, m: BpMasks): (out: Buttons)
    ensures out & BTN_A != 0 <==> bp & m.a != 0
    ensures out & BTN_B != 0 <==> bp & m.b != 0
    ensures out & BTN_X != 0 <==> bp & m.x != 0
    ensures out & BTN_Y != 0 <==> bp & m.y != 0
    ensures out & BTN_L1 != 0 <==> bp & m.shoulderL != 0
    ensures out & BTN_R1 != 0 <==> bp & m.shoulderR != 0
    ensures out & BTN_L3 != 0 <==> bp & m.thumbL != 0
    ensures out & BTN_R3 != 0 <==> bp & m.thumbR != 0
    ensures out & BTN_START != 0 <==> misc & m.start != 0
    ensures out & BTN_SELECT != 0 <==> misc & m.select != 0
    ensures out & BTN_GUIDE != 0 <==> misc & m.system != 0 || misc & m.home != 0
    ensures out & BTN_MISC == 0 && out & 0xF000 == 0
  {
    (Flag(bp & m.a != 0) << 0) | (Flag(bp & m.b != 0) << 1)
    | (Flag(bp & m.x != 0) << 2) | (Flag(bp & m.y != 0) << 3)
    | (Flag(bp & m.shoulderL != 0) << 4) | (Flag(bp & m.shoulderR != 0) << 5)
    | (Flag(bp & m.thumbL != 0) << 6) | (Flag(bp & m.thumbR != 0) << 7)
    | (Flag(misc & m.start != 0) << 8) | (Flag(misc & m.select != 0) << 9)
    | (Flag(misc & m.system != 0) << 10) | (Flag(misc & m.home != 0) << 10)
  }

  /**
   * `scale_axis`: Bluepad32's -512..511 range stretched by 64 onto the int16
   * range, saturating at its ends.
   */
  function ScaleAxis(value: int): (r: i16)
    ensures -512 <= value <= 511 ==> r == value * 64
    ensures value > 511 ==> r == 0x7FFF
    ensures value < -512 ==> r == -0x8000
  {
    var scaled := value * 64;
    if scaled > 0x7FFF then 0x7FFF
    else if scaled < -0x8000 then -0x8000
    else scaled
  }

  /** Scaling keeps the order of axis positions. */
  lemma {:induction false} ScaleAxisMonotone(v: int, w: int)
    requires v <= w
    ensures ScaleAxis(v) <= ScaleAxis(w)
  {
  }

  /** `clamp_trigger`: the 10-bit trigger range. */
  function ClampTrigger(value: int): (r: u16)
    ensures r <= 1023
    ensures 0 <= value <= 1023 ==> r == value
    ensures value < 0 ==> r == 0
    ensures value > 1023 ==> r == 1023
  {
    if value < 0 then 0 else if value > 1023 then 1023 else value
  }

  /** Clamping a clamped trigger changes nothing. */
  lemma {:induction false} ClampTriggerIdempotent(value: int)
    ensures ClampTrigger(ClampTrigger(value)) == ClampTrigger(value)
  {
  }

  /** `convert_report`: every field of the canonical report from the Bluepad32 state. */
  function ConvertReport(gp: BpGamepad, m: BpMasks): (r: Report)
    ensures WellFormed(r)
    ensures r.lx == ScaleAxis(gp.axisX) && r.ly == ScaleAxis(gp.axisY)
    ensures r.rx == ScaleAxis(gp.axisRx) && r.ry == ScaleAxis(gp.axisRy)
    ensures r.lt == ClampTrigger(gp.brake) && r.rt == ClampTrigger(gp.throttle)
    ensures r.buttons & 0xF800 == 0
    ensures r.dpad == DpadToHat(gp.dpad)
  {
    Report(
      ScaleAxis(gp.axisX), ScaleAxis(gp.axisY), ScaleAxis(gp.axisRx), ScaleAxis(gp.axisRy),
      ClampTrigger(gp.brake), ClampTrigger(gp.throttle),
      MapButtons(gp.buttons, gp.miscButtons, m),
      DpadToHat(gp.dpad))
  }

  /** What a slot holds when no controller feeds it: all zero, d-pad centered. */
  const IDLE_REPORT: Report := Report(0, 0, 0, 0, 0, 0, 0, DPAD_CENTERED)

  /** `bt_gamepad_state_t`. */
  datatype SlotState = Disconnected | Connected

  /** One call of the registered event callback. */
  datatype SlotEvent = SlotEvent(idx: nat, state: SlotState)

  /** Bluepad32's controller classes; only gamepads carry data this firmware reads. */
  datatype ControllerClass = GamepadClass | OtherClass

  /**
   * The module state of bt_gamepad.c: the slot arrays, whether a callback
   * was registered, the callback calls made so far and whether Bluepad32
   * accepts new connections.
   */
  class BtSlots {
    const masks: BpMasks
    const hasCallback: bool
    const connected: array<bool>
    const reports: array<Report>
    var events: seq<SlotEvent>
    var pairing: bool

    predicate Valid()
      reads this
    {
      connected.Length == BT_GAMEPAD_MAX && reports.Length == BT_GAMEPAD_MAX
    }

    /** `bt_gamepad_init`: every slot disconnected and idle. */
    constructor Init(m: BpMasks, callback: bool)
      ensures Valid() && fresh(connected) && fresh(reports)
      ensures masks == m && hasCallback == callback
      ensures forall i :: 0 <= i < BT_GAMEPAD_MAX ==> !connected[i] && reports[i] == IDLE_REPORT
      ensures events == [] && !pairing
    {
      masks := m;
      hasCallback := callback;
      var c := new bool[BT_GAMEPAD_MAX];
      var r := new Report[BT_GAMEPAD_MAX];
      var i := 0;
      while i < BT_GAMEPAD_MAX
        invariant 0 <= i <= BT_GAMEPAD_MAX
        invariant forall k :: 0 <= k < i ==> !c[k] && r[k] == IDLE_REPORT
      {
        c[i] := false;
        r[i] := IDLE_REPORT;
        i := i + 1;
      }
      connected := c;
      reports := r;
      events := [];
      pairing := false;
    }

    /** `platform_on_init_complete`: scanning starts. */
    method OnInitComplete()
      modifies this
      ensures pairing && events == old(events)
    {
      pairing := true;
    }

    /**
     * `platform_on_device_disconnected`: slot 0 goes back to disconnected
     * and idle, the callback hears of it, and scanning resumes.
     */
    method OnDeviceDisconnected()
      requires Valid()
      modifies this, connected, reports
      ensures Valid()
      ensures !connected[0] && reports[0] == IDLE_REPORT
      ensures events == old(events) + (if hasCallback then [SlotEvent(0, Disconnected)] else [])
      ensures pairing
    {
      connected[0] := false;
      reports[0] := IDLE_REPORT;
      if hasCallback {
        events := events + [SlotEvent(0, Disconnected)];
      }
      pairing := true;
    }

    /**
     * `platform_on_device_ready`: slot 0 is connected with its report left
     * as it was; the callback hears of it and scanning stops.
     */
    method OnDeviceReady()
      requires Valid()
      modifies this, connected
      ensures Valid()
      ensures connected[0] && reports[0] == old(reports[0])
      ensures events == old(events) + (if hasCallback then [SlotEvent(0, Connected)] else [])
      ensures !pairing
    {
      connected[0] := true;
      if hasCallback {
        events := events + [SlotEvent(0, Connected)];
      }
      pairing := false;
    }

    /**
     * `platform_on_controller_data`: a gamepad's state replaces slot 0's
     * report; other controller classes are ignored; the connected flag never changes.
     */
    method OnControllerData(klass: ControllerClass, gp: BpGamepad)
      requires Valid()
      modifies reports
      ensures reports[0] == (if klass == GamepadClass then ConvertReport(gp, masks) else old(reports[0]))
    {
      if klass == GamepadClass {
        reports[0] := ConvertReport(gp, masks);
      }
    }

    /** `bt_gamepad_set_pairing`. */
    method SetPairing(enabled: bool)
      modifies this
      ensures pairing == enabled && events == old(events)
    {
      pairing := enabled;
    }

    /** `bt_gamepad_is_connected`: false for an index past the slots. */
    method IsConnected(idx: u8) returns (c: bool)
      requires Valid()
      ensures c <==> idx < BT_GAMEPAD_MAX && connected[idx]
    {
      if idx >= BT_GAMEPAD_MAX {
        return false;
      }
      c := connected[idx];
    }

    /**
     * `bt_gamepad_get_report`: the slot's report when that slot is connected;
     * otherwise false, with the caller's report left as it was.
     */
    method GetReport(idx: u8, report: Report) returns (ok: bool, out: Report)
      requires Valid()
      ensures ok <==> idx < BT_GAMEPAD_MAX && connected[idx]
      ensures ok ==> out == reports[idx]
      ensures !ok ==> out == report
    {
      if idx >= BT_GAMEPAD_MAX {
        return false, report;
      }
      ok := connected[idx];
      out := if ok then reports[idx] else report;
    }
  }

  /** Every report a connected slot can hand out is well formed, whatever Bluepad32 sent. */
  lemma {:induction false} SlotReportsAreWellFormed(gp: BpGamepad, m: BpMasks)
    ensures WellFormed(IDLE_REPORT) && WellFormed(ConvertReport(gp, m))
    ensures !GuidePressed(IDLE_REPORT)
  {
  }
}
