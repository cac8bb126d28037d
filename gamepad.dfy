/**
 * The canonical gamepad report of firmware/include/gamepad.h, shared by the
 * Bluetooth input side and the USB output side, with its two helpers: the
 * d-pad bitmask to hat-switch table and the guide-button test.
 */
module Gamepad {
  import opened CTypes

  /** Button bitmask (`uint16_t buttons`); button k is bit k. */
  type Buttons = bv16

  const BTN_A: Buttons := 0x0001
  const BTN_B: Buttons := 0x0002
  const BTN_X: Buttons := 0x0004
  const BTN_Y: Buttons := 0x0008
  const BTN_L1: Buttons := 0x0010
  const BTN_R1: Buttons := 0x0020
  const BTN_L3: Buttons := 0x0040
  const BTN_R3: Buttons := 0x0080
  const BTN_START: Buttons := 0x0100
  const BTN_SELECT: Buttons := 0x0200
  const BTN_GUIDE: Buttons := 0x0400
  const BTN_MISC: Buttons := 0x0800

  /** The twelve button bits in declaration order. */
  const BUTTON_BITS: seq<Buttons> := [
    BTN_A, BTN_B, BTN_X, BTN_Y, BTN_L1, BTN_R1,
    BTN_L3, BTN_R3, BTN_START, BTN_SELECT, BTN_GUIDE, BTN_MISC
  ]

  /** Each button owns its own bit: button i is 2^i, so no two of them overlap. */
  lemma ButtonBitsAreDistinctPowers()
    ensures |BUTTON_BITS| == 12
    ensures forall i :: 0 <= i < 12 ==> BUTTON_BITS[i] == 1 << i
    ensures forall i, j :: 0 <= i < j < 12 ==> BUTTON_BITS[i] & BUTTON_BITS[j] == 0
  {
  }

  /** Hat-switch values: 0 = north, clockwise, 8 = centered. */
  const DPAD_UP: u8 := 0
  const DPAD_UP_RIGHT: u8 := 1
  const DPAD_RIGHT: u8 := 2
  const DPAD_DOWN_RIGHT: u8 := 3
  const DPAD_DOWN: u8 := 4
  const DPAD_DOWN_LEFT: u8 := 5
  const DPAD_LEFT: u8 := 6
  const DPAD_UP_LEFT: u8 := 7
  const DPAD_CENTERED: u8 := 8

  /** `gamepad_report_t`. */
  datatype Report = Report(
    lx: i16, ly: i16, rx: i16, ry: i16,
    lt: u16, rt: u16,
    buttons: Buttons,
    dpad: u8)

  /** A report as the Bluetooth side produces it: triggers in 10 bits, a hat value in [0, 8]. */
  predicate WellFormed(r: Report)
  {
    r.lt <= 1023 && r.rt <= 1023 && r.dpad <= DPAD_CENTERED
  }

  /** The lookup table of `gamepad_dpad_to_hat`, indexed by the mask UP=1, DOWN=2, RIGHT=4, LEFT=8. */
  const HAT_TABLE: seq<u8> := [
    DPAD_CENTERED, DPAD_UP, DPAD_DOWN, DPAD_CENTERED,
    DPAD_RIGHT, DPAD_UP_RIGHT, DPAD_DOWN_RIGHT, DPAD_CENTERED,
    DPAD_LEFT, DPAD_UP_LEFT, DPAD_DOWN_LEFT, DPAD_CENTERED,
    DPAD_CENTERED, DPAD_CENTERED, DPAD_CENTERED, DPAD_CENTERED
  ]

  /** `gamepad_dpad_to_hat`: only the low nibble of the mask is looked at. */
  function DpadToHat(bits: bv8): (hat: u8)
    ensures hat <= DPAD_CENTERED
  {
    HAT_TABLE[(bits & 0x0F) as int]
  }

  /**
   * The hat value a d-pad with these directions held denotes: a direction
   * held together with its opposite is not a direction, so the hat is centered.
   */
  function HatOfDirections(up: bool, down: bool, right: bool, left: bool): u8
  {
    if (up && down) || (right && left) then DPAD_CENTERED
    else if up then (if right then DPAD_UP_RIGHT else if left then DPAD_UP_LEFT else DPAD_UP)
    else if down then (if right then DPAD_DOWN_RIGHT else if left then DPAD_DOWN_LEFT else DPAD_DOWN)
    else if right then DPAD_RIGHT
    else if left then DPAD_LEFT
    else DPAD_CENTERED
  }

  /** The table agrees with the direction reading of every mask. */
  lemma DpadToHatByDirections(bits: bv8)
    ensures DpadToHat(bits) == HatOfDirections(bits & 1 != 0, bits & 2 != 0, bits & 4 != 0, bits & 8 != 0)
  {
  }

  /** Bits above the low nibble never matter. */
  lemma DpadToHatIgnoresHighNibble(bits: bv8)
    ensures DpadToHat(bits) == DpadToHat(bits & 0x0F)
  {
  }

  /** A mask holding UP with DOWN, or RIGHT with LEFT, is centered whatever else is set. */
  lemma {:induction false} DpadOpposingIsCentered(bits: bv8)
    requires bits & 3 == 3 || bits & 12 == 12
    ensures DpadToHat(bits) == DPAD_CENTERED
  {
    DpadToHatByDirections(bits);
  }

  /** The single directions and the four diagonals. */
  lemma DpadNamedMasks()
    ensures DpadToHat(0) == DPAD_CENTERED
    ensures DpadToHat(1) == DPAD_UP && DpadToHat(2) == DPAD_DOWN
    ensures DpadToHat(4) == DPAD_RIGHT && DpadToHat(8) == DPAD_LEFT
    ensures DpadToHat(1 | 4) == DPAD_UP_RIGHT && DpadToHat(2 | 4) == DPAD_DOWN_RIGHT
    ensures DpadToHat(2 | 8) == DPAD_DOWN_LEFT && DpadToHat(1 | 8) == DPAD_UP_LEFT
  {
  }

  /** `gamepad_report_guide_pressed`: bit 10 of the buttons, whatever the other fields hold. */
  function GuidePressed(r: Report): (pressed: bool)
    ensures pressed <==> (r.buttons >> 10) & 1 == 1
  {
    r.buttons & BTN_GUIDE != 0
  }
}
