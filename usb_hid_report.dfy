/**
 * The USB side of the report path (firmware/src/usb_hid_report.c and
 * firmware/include/usb_hid_report.h): the 13-byte wire report the PC receives,
 * the conversion from the canonical gamepad report, and the HID report
 * descriptor that tells the host how to read those 13 bytes.
 *
 * The descriptor is read with the short-item rules of section 6.2.2 of the
 * USB Device Class Definition for HID 1.11: a prefix byte whose two low bits
 * give the data size (0, 1, 2 or 4 bytes) and whose high six bits give the
 * item type and tag, followed by that many little-endian data bytes.
 */
module UsbHidReport {
  import opened CTypes
  import opened Gamepad

  /** `usb_gamepad_report_t`, packed. */
  datatype WireReport = WireReport(
    lx: i16, ly: i16, rx: i16, ry: i16,
    lt: u8, rt: u8,
    hat: u8,
    buttons: Buttons)

  /** The USB hat code of a canonical hat value: USB numbers north as 1 and uses 0 for "released". */
  function HatCode(dpad: u8): u8
  {
    if dpad == DPAD_CENTERED then 0 else ToU8(dpad + 1)
  }

  /** The canonical hat value a USB hat code stands for. */
  function HatValue(code: u8): u8
  {
    if code == 0 then DPAD_CENTERED else code - 1
  }

  /**
   * `usb_hid_report_from_gamepad`. Sticks and buttons pass unchanged, a
   * 10-bit trigger becomes its 8-bit quarter, and the hat is re-based so
   * that centered is the HID null value 0 and every direction fits a nibble.
   */
  function FromGamepad(r: Report): (w: WireReport)
    ensures w.lx == r.lx && w.ly == r.ly && w.rx == r.rx && w.ry == r.ry
    ensures w.buttons == r.buttons
    ensures r.lt <= 1023 ==> 4 * w.lt <= r.lt < 4 * w.lt + 4
    ensures r.rt <= 1023 ==> 4 * w.rt <= r.rt < 4 * w.rt + 4
    ensures r.dpad <= DPAD_CENTERED ==> w.hat <= 8 && (w.hat == 0 <==> r.dpad == DPAD_CENTERED)
  {
    WireReport(
      r.lx, r.ly, r.rx, r.ry,
      ToU8(r.lt / 4), ToU8(r.rt / 4),
      HatCode(r.dpad),
      r.buttons)
  }

  /** Trigger scaling at its ends and midpoint. */
  lemma TriggerScalingPoints(r: Report)
    ensures r.lt == 0 ==> FromGamepad(r).lt == 0
    ensures r.lt == 512 ==> FromGamepad(r).lt == 128
    ensures r.lt == 1023 ==> FromGamepad(r).lt == 255
  {
  }

  /** The hat conversion loses nothing on valid hat values: it is undone by `HatValue`. */
  lemma {:induction false} HatCodeRoundTrip(r: Report)
    requires r.dpad <= DPAD_CENTERED
    ensures HatValue(FromGamepad(r).hat) == r.dpad
  {
  }

  /** Different valid d-pad values reach the host as different hat codes. */
  lemma {:induction false} HatCodeIsInjective(a: Report, b: Report)
    requires a.dpad <= DPAD_CENTERED && b.dpad <= DPAD_CENTERED
    requires a.dpad != b.dpad
    ensures FromGamepad(a).hat != FromGamepad(b).hat
  {
    HatCodeRoundTrip(a);
    HatCodeRoundTrip(b);
  }

  /** The 16-bit pattern of a value: two's complement for a negative one. */
  function Unsigned16(v: int): (u: u16)
    requires -0x8000 <= v < 0x1_0000
    ensures v >= 0 ==> u == v
    ensures v < 0 ==> u == v + 0x1_0000
  {
    if v < 0 then v + 0x1_0000 else v
  }

  /** The two little-endian bytes of a 16-bit value. */
  function Le16(v: int): (bytes: seq<u8>)
    requires -0x8000 <= v < 0x1_0000
    ensures |bytes| == 2 && Word(bytes[0], bytes[1]) == Unsigned16(v)
  {
    var u := Unsigned16(v);
    [u % 0x100, u / 0x100]
  }

  /** The unsigned value of two little-endian bytes. */
  function Word(lo: u8, hi: u8): (u: u16)
  {
    lo as int + 0x100 * hi as int
  }

  /** Two little-endian bytes read as a signed 16-bit value. */
  function SignedFromLe16(lo: u8, hi: u8): (v: i16)
    ensures Unsigned16(v) == Word(lo, hi)
  {
    var u := Word(lo, hi);
    if u >= 0x8000 then u - 0x1_0000 else u
  }

  /**
   * The 13 bytes the host receives, in the layout of the packed struct on the
   * little-endian targets: four 16-bit axes, two trigger bytes, the hat byte
   * (hat in the low nibble, padding above) and the 16 button bits.
   */
  function Pack(w: WireReport): (bytes: seq<u8>)
    ensures |bytes| == REPORT_SIZE
    ensures bytes[8] == w.lt && bytes[9] == w.rt && bytes[10] == w.hat
  {
    Le16(w.lx) + Le16(w.ly) + Le16(w.rx) + Le16(w.ry)
      + [w.lt, w.rt, w.hat]
      + Le16(w.buttons as int)
  }

  /** Reads a wire report back from its 13 bytes. */
  function Unpack(bytes: seq<u8>): WireReport
    requires |bytes| == REPORT_SIZE
  {
    WireReport(
      SignedFromLe16(bytes[0], bytes[1]), SignedFromLe16(bytes[2], bytes[3]),
      SignedFromLe16(bytes[4], bytes[5]), SignedFromLe16(bytes[6], bytes[7]),
      bytes[8], bytes[9], bytes[10],
      Word(bytes[11], bytes[12]) as bv16)
  }

  /** A signed axis survives its two bytes. */
  lemma {:induction false} Le16RoundTrip(v: i16)
    ensures SignedFromLe16(Le16(v)[0], Le16(v)[1]) == v
  {
    var b := Le16(v);
    assert Unsigned16(SignedFromLe16(b[0], b[1])) == Unsigned16(v);
  }

  /** The byte layout is unambiguous: every field is recovered from the packed bytes. */
  lemma {:induction false} PackRoundTrip(w: WireReport)
    ensures Unpack(Pack(w)) == w
  {
    var b := Pack(w);
    var x, y, z, t, k := Le16(w.lx), Le16(w.ly), Le16(w.rx), Le16(w.ry), Le16(w.buttons as int);
    assert b == x + y + z + t + [w.lt, w.rt, w.hat] + k;
    assert b[0] == x[0] && b[1] == x[1] && b[2] == y[0] && b[3] == y[1];
    assert b[4] == z[0] && b[5] == z[1] && b[6] == t[0] && b[7] == t[1];
    assert b[11] == k[0] && b[12] == k[1];
    Le16RoundTrip(w.lx);
    Le16RoundTrip(w.ly);
    Le16RoundTrip(w.rx);
    Le16RoundTrip(w.ry);
    assert Word(k[0], k[1]) == w.buttons as int;
  }

  const REPORT_SIZE: nat := 13

  /** A descriptor byte. */
  type Byte = bv8

  /*
   * `usb_hid_report_descriptor`, in the groups its source lays it out in:
   * the application collection header, the four stick axes, the two
   * triggers, the hat switch, the hat's padding nibble, the unit reset, the
   * sixteen buttons and the closing End Collection.
   */
  const HEADER: seq<Byte> := [0x05, 0x01, 0x09, 0x05, 0xA1, 0x01]
  const STICKS: seq<Byte> := [
    0x05, 0x01, 0x09, 0x30, 0x09, 0x31, 0x09, 0x33, 0x09, 0x34,
    0x16, 0x00, 0x80, 0x26, 0xFF, 0x7F, 0x75, 0x10, 0x95, 0x04, 0x81, 0x02]
  const TRIGGERS: seq<Byte> := [
    0x09, 0x32, 0x09, 0x35, 0x15, 0x00, 0x26, 0xFF, 0x00, 0x75, 0x08, 0x95, 0x02, 0x81, 0x02]
  const HAT: seq<Byte> := [
    0x05, 0x01, 0x09, 0x39, 0x15, 0x01, 0x25, 0x08, 0x35, 0x00, 0x46, 0x3B, 0x01,
    0x65, 0x14, 0x75, 0x04, 0x95, 0x01, 0x81, 0x42]
  const HAT_PADDING: seq<Byte> := [0x75, 0x04, 0x95, 0x01, 0x81, 0x01]
  const UNIT_RESET: seq<Byte> := [0x45, 0x00, 0x65, 0x00]
  const BUTTONS: seq<Byte> := [
    0x05, 0x09, 0x19, 0x01, 0x29, 0x10, 0x15, 0x00, 0x25, 0x01, 0x75, 0x01, 0x95, 0x10, 0x81, 0x02]
  const END: seq<Byte> := [0xC0]

  const DESCRIPTOR: seq<Byte> :=
    HEADER + STICKS + TRIGGERS + HAT + HAT_PADDING + UNIT_RESET + BUTTONS + END

  /** Item type and tag: the prefix without its two size bits. */
  function TagOf(prefix: Byte): Byte
  {
    prefix & 0xFC
  }

  const TAG_INPUT: Byte := 0x80
  const TAG_COLLECTION: Byte := 0xA0
  const TAG_END_COLLECTION: Byte := 0xC0
  const TAG_REPORT_SIZE: Byte := 0x74
  const TAG_REPORT_COUNT: Byte := 0x94

  /** Number of data bytes a short item carries: size code 3 means four bytes. */
  function DataSize(prefix: Byte): nat
  {
    if prefix & 3 == 3 then 4 else (prefix & 3) as nat
  }

  /** The unsigned little-endian value of the `n` data bytes that follow the prefix at `d[i]`. */
  function DataValue(d: seq<Byte>, i: nat, n: nat): nat
    requires n <= 4 && i + 1 + n <= |d|
  {
    if n == 0 then 0
    else if n == 1 then d[i + 1] as nat
    else if n == 2 then d[i + 1] as nat + 0x100 * d[i + 2] as nat
    else if n == 3 then d[i + 1] as nat + 0x100 * d[i + 2] as nat + 0x1_0000 * d[i + 3] as nat
    else d[i + 1] as nat + 0x100 * d[i + 2] as nat + 0x1_0000 * d[i + 3] as nat + 0x100_0000 * d[i + 4] as nat
  }

  /**
   * What a reader of the descriptor keeps track of: the input bits described
   * so far, the Report Size and Report Count in force, and how many
   * collections are open.
   */
  datatype ScanState = ScanState(bits: nat, size: nat, count: nat, depth: nat)

  /** The data bytes of the item whose prefix is `d[i]` lie inside `d`. */
  predicate ItemFits(d: seq<Byte>, i: nat)
  {
    i < |d| && i + 1 + DataSize(d[i]) <= |d|
  }

  /**
   * The effect of the item whose prefix is `d[i]`; `None` for an End
   * Collection with no open collection.
   */
  function ApplyItem(st: ScanState, d: seq<Byte>, i: nat): Option<ScanState>
    requires ItemFits(d, i)
  {
    var tag := TagOf(d[i]);
    if tag == TAG_REPORT_SIZE then Some(st.(size := DataValue(d, i, DataSize(d[i]))))
    else if tag == TAG_REPORT_COUNT then Some(st.(count := DataValue(d, i, DataSize(d[i]))))
    else if tag == TAG_INPUT then Some(st.(bits := st.bits + st.size * st.count))
    else if tag == TAG_COLLECTION then Some(st.(depth := st.depth + 1))
    else if tag == TAG_END_COLLECTION then
      if st.depth == 0 then None else Some(st.(depth := st.depth - 1))
    else Some(st)
  }

  /**
   * Reads the short items of `d` from byte `i` on; `None` if an item is cut
   * short by the end of the bytes or a collection is closed that was never opened.
   */
  function Scan(d: seq<Byte>, i: nat, st: ScanState): Option<ScanState>
    decreases |d| - i
  {
    if i >= |d| then Some(st)
    else
      if !ItemFits(d, i) then None
      else
        match ApplyItem(st, d, i)
        case None => None
        case Some(next) => Scan(d, i + 1 + DataSize(d[i]), next)
  }

  /** Data values read inside `b` are the same inside `a + b`. */
  lemma {:induction false} DataValueShift(a: seq<Byte>, b: seq<Byte>, j: nat, n: nat)
    requires n <= 4 && j + 1 + n <= |b|
    ensures DataValue(a + b, |a| + j, n) == DataValue(b, j, n)
  {
    assert forall k :: j < k <= j + n ==> (a + b)[|a| + k] == b[k];
  }

  /** Reading from a position of `b` is the same inside `a + b`. */
  lemma {:induction false} ScanShift(a: seq<Byte>, b: seq<Byte>, j: nat, st: ScanState)
    ensures Scan(a + b, |a| + j, st) == Scan(b, j, st)
    decreases |b| - j
  {
    if j < |b| {
      var n := DataSize(b[j]);
      assert (a + b)[|a| + j] == b[j];
      if |b| >= j + 1 + n {
        DataValueShift(a, b, j, n);
        assert ApplyItem(st, a + b, |a| + j) == ApplyItem(st, b, j);
        match ApplyItem(st, b, j)
        case None =>
        case Some(next) => ScanShift(a, b, j + 1 + n, next);
      }
    }
  }

  /**
   * A descriptor read in pieces: once `a` has been read completely from
   * position i, reading continues with `b` from the state `a` left behind.
   */
  lemma {:induction false} ScanAppend(a: seq<Byte>, b: seq<Byte>, i: nat, st: ScanState)
    requires i <= |a|
    requires Scan(a, i, st).Some?
    ensures Scan(a + b, i, st) == Scan(b, 0, Scan(a, i, st).value)
    decreases |a| - i
  {
    if i == |a| {
      ScanShift(a, b, 0, st);
    } else {
      var n := DataSize(a[i]);
      assert (a + b)[i] == a[i];
      assert forall k :: i < k <= i + n ==> (a + b)[k] == a[k];
      assert ApplyItem(st, a + b, i) == ApplyItem(st, a, i);
      var next := ApplyItem(st, a, i).value;
      ScanAppend(a, b, i + 1 + n, next);
    }
  }

  /*
   * Reading each group of the descriptor on its own, from the state the
   * groups before it leave. Each lemma takes the group's bytes one by one,
   * item by item from the last item back to the first.
   */
  lemma {:induction false} ScanHeaderBytes(d: seq<Byte>)
    requires |d| == 6
    requires d[0] == 0x05 && d[1] == 0x01 && d[2] == 0x09 && d[3] == 0x05 && d[4] == 0xA1 && d[5] == 0x01
    ensures Scan(d, 0, ScanState(0, 0, 0, 0)) == Some(ScanState(0, 0, 0, 1))
  {
    assert Scan(d, 4, ScanState(0, 0, 0, 0)) == Some(ScanState(0, 0, 0, 1));
    assert Scan(d, 2, ScanState(0, 0, 0, 0)) == Some(ScanState(0, 0, 0, 1));
  }

  lemma {:induction false} ScanSticksBytes(d: seq<Byte>)
    requires |d| == 22
    requires d[0] == 0x05 && d[1] == 0x01 && d[2] == 0x09 && d[3] == 0x30 && d[4] == 0x09 && d[5] == 0x31
    requires d[6] == 0x09 && d[7] == 0x33 && d[8] == 0x09 && d[9] == 0x34 && d[10] == 0x16 && d[11] == 0x00
    requires d[12] == 0x80 && d[13] == 0x26 && d[14] == 0xFF && d[15] == 0x7F && d[16] == 0x75 && d[17] == 0x10
    requires d[18] == 0x95 && d[19] == 0x04 && d[20] == 0x81 && d[21] == 0x02
    ensures Scan(d, 0, ScanState(0, 0, 0, 1)) == Some(ScanState(64, 16, 4, 1))
  {
    assert Scan(d, 20, ScanState(0, 16, 4, 1)) == Some(ScanState(64, 16, 4, 1));
    assert Scan(d, 18, ScanState(0, 16, 0, 1)) == Some(ScanState(64, 16, 4, 1));
    assert Scan(d, 16, ScanState(0, 0, 0, 1)) == Some(ScanState(64, 16, 4, 1));
    assert Scan(d, 13, ScanState(0, 0, 0, 1)) == Some(ScanState(64, 16, 4, 1));
    assert Scan(d, 10, ScanState(0, 0, 0, 1)) == Some(ScanState(64, 16, 4, 1));
    assert Scan(d, 8, ScanState(0, 0, 0, 1)) == Some(ScanState(64, 16, 4, 1));
    assert Scan(d, 6, ScanState(0, 0, 0, 1)) == Some(ScanState(64, 16, 4, 1));
    assert Scan(d, 4, ScanState(0, 0, 0, 1)) == Some(ScanState(64, 16, 4, 1));
    assert Scan(d, 2, ScanState(0, 0, 0, 1)) == Some(ScanState(64, 16, 4, 1));
  }

  lemma {:induction false} ScanTriggersBytes(d: seq<Byte>)
    requires |d| == 15
    requires d[0] == 0x09 && d[1] == 0x32 && d[2] == 0x09 && d[3] == 0x35 && d[4] == 0x15 && d[5] == 0x00
    requires d[6] == 0x26 && d[7] == 0xFF && d[8] == 0x00 && d[9] == 0x75 && d[10] == 0x08 && d[11] == 0x95
    requires d[12] == 0x02 && d[13] == 0x81 && d[14] == 0x02
    ensures Scan(d, 0, ScanState(64, 16, 4, 1)) == Some(ScanState(80, 8, 2, 1))
  {
    assert Scan(d, 13, ScanState(64, 8, 2, 1)) == Some(ScanState(80, 8, 2, 1));
    assert Scan(d, 11, ScanState(64, 8, 4, 1)) == Some(ScanState(80, 8, 2, 1));
    assert Scan(d, 9, ScanState(64, 16, 4, 1)) == Some(ScanState(80, 8, 2, 1));
    assert Scan(d, 6, ScanState(64, 16, 4, 1)) == Some(ScanState(80, 8, 2, 1));
    assert Scan(d, 4, ScanState(64, 16, 4, 1)) == Some(ScanState(80, 8, 2, 1));
    assert Scan(d, 2, ScanState(64, 16, 4, 1)) == Some(ScanState(80, 8, 2, 1));
  }

  lemma {:induction false} ScanHatBytes(d: seq<Byte>)
    requires |d| == 21
    requires d[0] == 0x05 && d[1] == 0x01 && d[2] == 0x09 && d[3] == 0x39 && d[4] == 0x15 && d[5] == 0x01
    requires d[6] == 0x25 && d[7] == 0x08 && d[8] == 0x35 && d[9] == 0x00 && d[10] == 0x46 && d[11] == 0x3B
    requires d[12] == 0x01 && d[13] == 0x65 && d[14] == 0x14 && d[15] == 0x75 && d[16] == 0x04 && d[17] == 0x95
    requires d[18] == 0x01 && d[19] == 0x81 && d[20] == 0x42
    ensures Scan(d, 0, ScanState(80, 8, 2, 1)) == Some(ScanState(84, 4, 1, 1))
  {
    assert Scan(d, 19, ScanState(80, 4, 1, 1)) == Some(ScanState(84, 4, 1, 1));
    assert Scan(d, 17, ScanState(80, 4, 2, 1)) == Some(ScanState(84, 4, 1, 1));
    assert Scan(d, 15, ScanState(80, 8, 2, 1)) == Some(ScanState(84, 4, 1, 1));
    assert Scan(d, 13, ScanState(80, 8, 2, 1)) == Some(ScanState(84, 4, 1, 1));
    assert Scan(d, 10, ScanState(80, 8, 2, 1)) == Some(ScanState(84, 4, 1, 1));
    assert Scan(d, 8, ScanState(80, 8, 2, 1)) == Some(ScanState(84, 4, 1, 1));
    assert Scan(d, 6, ScanState(80, 8, 2, 1)) == Some(ScanState(84, 4, 1, 1));
    assert Scan(d, 4, ScanState(80, 8, 2, 1)) == Some(ScanState(84, 4, 1, 1));
    assert Scan(d, 2, ScanState(80, 8, 2, 1)) == Some(ScanState(84, 4, 1, 1));
  }

  lemma {:induction false} ScanHatPaddingBytes(d: seq<Byte>)
    requires |d| == 6
    requires d[0] == 0x75 && d[1] == 0x04 && d[2] == 0x95 && d[3] == 0x01 && d[4] == 0x81 && d[5] == 0x01
    ensures Scan(d, 0, ScanState(84, 4, 1, 1)) == Some(ScanState(88, 4, 1, 1))
  {
    assert Scan(d, 4, ScanState(84, 4, 1, 1)) == Some(ScanState(88, 4, 1, 1));
    assert Scan(d, 2, ScanState(84, 4, 1, 1)) == Some(ScanState(88, 4, 1, 1));
  }

  lemma {:induction false} ScanUnitResetBytes(d: seq<Byte>)
    requires |d| == 4
    requires d[0] == 0x45 && d[1] == 0x00 && d[2] == 0x65 && d[3] == 0x00
    ensures Scan(d, 0, ScanState(88, 4, 1, 1)) == Some(ScanState(88, 4, 1, 1))
  {
    assert Scan(d, 2, ScanState(88, 4, 1, 1)) == Some(ScanState(88, 4, 1, 1));
  }

  lemma {:induction false} ScanButtonsBytes(d: seq<Byte>)
    requires |d| == 16
    requires d[0] == 0x05 && d[1] == 0x09 && d[2] == 0x19 && d[3] == 0x01 && d[4] == 0x29 && d[5] == 0x10
    requires d[6] == 0x15 && d[7] == 0x00 && d[8] == 0x25 && d[9] == 0x01 && d[10] == 0x75 && d[11] == 0x01
    requires d[12] == 0x95 && d[13] == 0x10 && d[14] == 0x81 && d[15] == 0x02
    ensures Scan(d, 0, ScanState(88, 4, 1, 1)) == Some(ScanState(104, 1, 16, 1))
  {
    assert Scan(d, 14, ScanState(88, 1, 16, 1)) == Some(ScanState(104, 1, 16, 1));
    assert Scan(d, 12, ScanState(88, 1, 1, 1)) == Some(ScanState(104, 1, 16, 1));
    assert Scan(d, 10, ScanState(88, 4, 1, 1)) == Some(ScanState(104, 1, 16, 1));
    assert Scan(d, 8, ScanState(88, 4, 1, 1)) == Some(ScanState(104, 1, 16, 1));
    assert Scan(d, 6, ScanState(88, 4, 1, 1)) == Some(ScanState(104, 1, 16, 1));
    assert Scan(d, 4, ScanState(88, 4, 1, 1)) == Some(ScanState(104, 1, 16, 1));
    assert Scan(d, 2, ScanState(88, 4, 1, 1)) == Some(ScanState(104, 1, 16, 1));
  }

  /** The group lemmas applied to the descriptor's own byte groups. */
  lemma {:induction false} ScanHeader()
    ensures Scan(HEADER, 0, ScanState(0, 0, 0, 0)) == Some(ScanState(0, 0, 0, 1))
  {
    ScanHeaderBytes(HEADER);
  }

  lemma {:induction false} ScanSticks()
    ensures Scan(STICKS, 0, ScanState(0, 0, 0, 1)) == Some(ScanState(64, 16, 4, 1))
  {
    ScanSticksBytes(STICKS);
  }

  lemma {:induction false} ScanTriggers()
    ensures Scan(TRIGGERS, 0, ScanState(64, 16, 4, 1)) == Some(ScanState(80, 8, 2, 1))
  {
    ScanTriggersBytes(TRIGGERS);
  }

  lemma {:induction false} ScanHat()
    ensures Scan(HAT, 0, ScanState(80, 8, 2, 1)) == Some(ScanState(84, 4, 1, 1))
  {
    ScanHatBytes(HAT);
  }

  lemma {:induction false} ScanHatPadding()
    ensures Scan(HAT_PADDING, 0, ScanState(84, 4, 1, 1)) == Some(ScanState(88, 4, 1, 1))
  {
    ScanHatPaddingBytes(HAT_PADDING);
  }

  lemma {:induction false} ScanUnitReset()
    ensures Scan(UNIT_RESET, 0, ScanState(88, 4, 1, 1)) == Some(ScanState(88, 4, 1, 1))
  {
    ScanUnitResetBytes(UNIT_RESET);
  }

  lemma {:induction false} ScanButtons()
    ensures Scan(BUTTONS, 0, ScanState(88, 4, 1, 1)) == Some(ScanState(104, 1, 16, 1))
  {
    ScanButtonsBytes(BUTTONS);
  }

  /**
   * The descriptor reads as well-formed short items, opens with Usage Page
   * (Generic Desktop), closes its one collection with the final End
   * Collection, and describes 104 input bits: the 13 bytes of the wire report.
   */
  lemma {:induction false} DescriptorDescribesWireReport()
    ensures DESCRIPTOR[..2] == [0x05, 0x01] && DESCRIPTOR[|DESCRIPTOR| - 1] == 0xC0
    ensures Scan(DESCRIPTOR, 0, ScanState(0, 0, 0, 0)) == Some(ScanState(104, 1, 16, 0))
    ensures 104 == 8 * REPORT_SIZE
  {
    var st := ScanState(0, 0, 0, 0);
    ScanHeader();
    assert Scan(HEADER + STICKS, 0, st) == Some(ScanState(64, 16, 4, 1)) by {
      ScanAppend(HEADER, STICKS, 0, st);
      ScanSticks();
    }
    assert Scan(HEADER + STICKS + TRIGGERS, 0, st) == Some(ScanState(80, 8, 2, 1)) by {
      ScanAppend(HEADER + STICKS, TRIGGERS, 0, st);
      ScanTriggers();
    }
    assert Scan(HEADER + STICKS + TRIGGERS + HAT, 0, st) == Some(ScanState(84, 4, 1, 1)) by {
      ScanAppend(HEADER + STICKS + TRIGGERS, HAT, 0, st);
      ScanHat();
    }
    assert Scan(HEADER + STICKS + TRIGGERS + HAT + HAT_PADDING, 0, st)
        == Some(ScanState(88, 4, 1, 1)) by {
      ScanAppend(HEADER + STICKS + TRIGGERS + HAT, HAT_PADDING, 0, st);
      ScanHatPadding();
    }
    assert Scan(HEADER + STICKS + TRIGGERS + HAT + HAT_PADDING + UNIT_RESET, 0, st)
        == Some(ScanState(88, 4, 1, 1)) by {
      ScanAppend(HEADER + STICKS + TRIGGERS + HAT + HAT_PADDING, UNIT_RESET, 0, st);
      ScanUnitReset();
    }
    assert Scan(HEADER + STICKS + TRIGGERS + HAT + HAT_PADDING + UNIT_RESET + BUTTONS, 0, st)
        == Some(ScanState(104, 1, 16, 1)) by {
      ScanAppend(HEADER + STICKS + TRIGGERS + HAT + HAT_PADDING + UNIT_RESET, BUTTONS, 0, st);
      ScanButtons();
    }
    ScanAppend(HEADER + STICKS + TRIGGERS + HAT + HAT_PADDING + UNIT_RESET + BUTTONS, END, 0, st);
  }
}
