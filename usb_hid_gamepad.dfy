/**
 * The USB device side (firmware/src/usb_hid_gamepad.c): the USB connection
 * state the TinyUSB callbacks track, the string descriptors handed to the
 * host, and the guard in front of sending a report.
 *
 * String descriptors follow section 9.6.7 of the USB 2.0 specification: a
 * first 16-bit word holding bLength (low byte) and bDescriptorType STRING = 3
 * (high byte), followed by UTF-16 code units; descriptor 0 holds the list of
 * language IDs instead.
 */
module UsbHidGamepad {
  import opened CTypes
  import opened Gamepad
  import opened UsbHidReport

  /** `usb_hid_state_t`. */
  datatype UsbState = NotMounted | Mounted | Suspended

  const TUSB_DESC_STRING: nat := 3
  const LANGID_EN_US: u16 := 0x0409

  /** `desc_strings`: language placeholder, manufacturer, product, serial number. */
  const DESC_STRINGS: seq<string> := ["", "PadProxy", "PadProxy Gamepad", "000001"]

  /** Code units a string descriptor carries at most (the static buffer holds 32 words). */
  const MAX_UNITS: nat := 31

  /** `len` capped at the buffer's capacity, as the callback caps `strlen`. */
  function Capped(len: nat): (r: nat)
    ensures r <= MAX_UNITS
    ensures r == len || (len > MAX_UNITS && r == MAX_UNITS)
  {
    if len > MAX_UNITS then MAX_UNITS else len
  }

  /** The first word of a string descriptor with `len` code units. */
  function HeaderWord(len: nat): (w: u16)
    requires len <= MAX_UNITS
    ensures w / 0x100 == TUSB_DESC_STRING && w % 0x100 == 2 * len + 2
  {
    // The type and the length occupy disjoint bytes, so `|` is a sum here.
    TUSB_DESC_STRING * 0x100 + (2 * len + 2)
  }

  /** Code units of the ASCII string `s`, one per character. */
  function Widen(s: string): (units: seq<u16>)
    requires forall i :: 0 <= i < |s| ==> s[i] as int < 0x100
    ensures |units| == |s|
    ensures forall i :: 0 <= i < |s| ==> units[i] == s[i] as int
  {
    seq(|s|, i requires 0 <= i < |s| => s[i] as int)
  }

  /**
   * What `tud_descriptor_string_cb` leaves at the start of its buffer for a
   * string index inside the table: the header word and the code units.
   */
  function StringDescriptor(index: nat): (d: seq<u16>)
    requires index < |DESC_STRINGS|
    ensures 2 <= |d| <= MAX_UNITS + 1
    ensures d[0] == HeaderWord(|d| - 1)
    ensures index == 0 ==> d == [0x0304, LANGID_EN_US]
  {
    if index == 0 then [HeaderWord(1), LANGID_EN_US]
    else
      var s := DESC_STRINGS[index];
      var len := Capped(|s|);
      [HeaderWord(len)] + Widen(s[..len])
  }

  /**
   * Every descriptor announces its own size in bytes, and none of the
   * configured strings is cut: the host reads back each character as one
   * code unit.
   */
  lemma {:induction false} StringDescriptorsRoundTrip(index: nat)
    requires 1 <= index < |DESC_STRINGS|
    ensures |StringDescriptor(index)| == |DESC_STRINGS[index]| + 1
    ensures forall i :: 0 <= i < |DESC_STRINGS[index]| ==>
      StringDescriptor(index)[1 + i] == DESC_STRINGS[index][i] as int
    ensures StringDescriptor(index)[0] % 0x100 == 2 * |StringDescriptor(index)|
  {
    var s := DESC_STRINGS[index];
    assert |s| <= MAX_UNITS;
    assert s[..|s|] == s;
  }

  /**
   * The USB-side module state: the connection state, the state-change
   * notifications delivered to the registered callback, the static string
   * buffer, and the wire reports handed to the HID endpoint.
   */
  class UsbHidDevice {
    const hasCallback: bool
    var state: UsbState
    var notifications: seq<UsbState>
    const strBuf: array<u16>
    var sent: seq<WireReport>

    /** `usb_hid_gamepad_init`: not mounted, nothing notified or sent yet. */
    constructor Init(callback: bool)
      ensures hasCallback == callback
      ensures state == NotMounted && notifications == [] && sent == []
      ensures fresh(strBuf) && strBuf.Length == MAX_UNITS + 1
    {
      hasCallback := callback;
      state := NotMounted;
      notifications := [];
      strBuf := new u16[MAX_UNITS + 1](_ => 0);
      sent := [];
    }

    /** Records the new state and tells the callback exactly that state. */
    method SetState(s: UsbState)
      modifies this
      ensures state == s && sent == old(sent)
      ensures notifications == old(notifications) + (if hasCallback then [s] else [])
    {
      state := s;
      if hasCallback {
        notifications := notifications + [s];
      }
    }

    /** `tud_mount_cb`. */
    method OnMount()
      modifies this
      ensures state == Mounted && sent == old(sent)
      ensures notifications == old(notifications) + (if hasCallback then [Mounted] else [])
    {
      SetState(Mounted);
    }

    /** `tud_umount_cb`. */
    method OnUnmount()
      modifies this
      ensures state == NotMounted && sent == old(sent)
      ensures notifications == old(notifications) + (if hasCallback then [NotMounted] else [])
    {
      SetState(NotMounted);
    }

    /** `tud_suspend_cb`; whether the host allowed remote wakeup does not matter. */
    method OnSuspend(remoteWakeupEnabled: bool)
      modifies this
      ensures state == Suspended && sent == old(sent)
      ensures notifications == old(notifications) + (if hasCallback then [Suspended] else [])
    {
      SetState(Suspended);
    }

    /** `tud_resume_cb`. */
    method OnResume()
      modifies this
      ensures state == Mounted && sent == old(sent)
      ensures notifications == old(notifications) + (if hasCallback then [Mounted] else [])
    {
      SetState(Mounted);
    }

    /** `usb_hid_gamepad_get_state`. */
    method GetState() returns (s: UsbState)
      ensures s == state
    {
      s := state;
    }

    /** The copy loop of `tud_descriptor_string_cb`: `s`'s first `len` characters widened into words 1..len. */
    method CopyUnits(s: string, len: nat)
      requires len <= |s| && 1 + len <= strBuf.Length
      requires forall i :: 0 <= i < |s| ==> s[i] as int < 0x100
      modifies strBuf
      ensures strBuf[1..1 + len] == Widen(s[..len])
      ensures strBuf[0] == old(strBuf[0]) && strBuf[1 + len..] == old(strBuf[1 + len..])
    {
      var i := 0;
      while i < len
        invariant 0 <= i <= len
        invariant strBuf[1..1 + i] == Widen(s[..i])
        invariant strBuf[0] == old(strBuf[0])
        invariant strBuf[1 + i..] == old(strBuf[1 + i..])
      {
        strBuf[1 + i] := s[i] as int;
        i := i + 1;
      }
    }

    /**
     * `tud_descriptor_string_cb`: NULL (`false`) past the table; otherwise
     * the descriptor at the start of the static buffer, the rest of which
     * keeps whatever an earlier call left there.
     */
    method DescriptorString(index: u8) returns (ok: bool)
      requires strBuf.Length == MAX_UNITS + 1
      modifies strBuf
      ensures ok <==> index < |DESC_STRINGS|
      ensures ok ==> strBuf[..|StringDescriptor(index)|] == StringDescriptor(index)
      ensures ok ==> strBuf[|StringDescriptor(index)|..] == old(strBuf[|StringDescriptor(index)|..])
      ensures !ok ==> strBuf[..] == old(strBuf[..])
    {
      var len: nat;
      if index == 0 {
        strBuf[1] := LANGID_EN_US;
        len := 1;
      } else {
        if index as nat >= |DESC_STRINGS| {
          return false;
        }
        var s := DESC_STRINGS[index];
        len := Capped(|s|);
        CopyUnits(s, len);
      }
      strBuf[0] := HeaderWord(len);
      ok := true;
      assert strBuf[..1 + len] == [strBuf[0]] + strBuf[1..1 + len];
    }

    /**
     * `usb_hid_gamepad_send_report`: dropped unless TinyUSB reports the
     * device mounted and the HID endpoint ready; otherwise the wire form of
     * the report goes to the endpoint, and the result is whether it was queued.
     */
    method SendReport(report: Report, mounted: bool, hidReady: bool, queuedByStack: bool)
      returns (queued: bool)
      modifies this
      ensures queued <==> mounted && hidReady && queuedByStack
      ensures sent == old(sent) + (if mounted && hidReady then [FromGamepad(report)] else [])
      ensures state == old(state) && notifications == old(notifications)
    {
      if !mounted || !hidReady {
        return false;
      }
      sent := sent + [FromGamepad(report)];
      queued := queuedByStack;
    }
  }
}
