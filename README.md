# PadProxy firmware core in Dafny

PadProxy is firmware for a Raspberry Pi Pico 2 W. It sits between a Bluetooth
game controller and a PC. It forwards each controller report to the PC as
a USB HID gamepad, and it drives the PC's power button: pressing the
controller's guide button while the PC is off or asleep wakes it. This
project models the firmware's core and proves properties of the model:

- `power_state.dfy`: the PC power state machine (`pc_power_state.c`).
  It has four states and eight events. Every transition says which
  hardware actions to run.
- `orchestrator.dfy`: the main loop of `main.c`. It covers dispatching
  actions to the power hardware, the USB state callback, the Bluetooth
  connection callback, power-LED edges and boot-timer expiry, and the
  wake-on-guide check before a report is forwarded.
- `gamepad.dfy`, `usb_hid_report.dfy`: the internal report, the d-pad to
  hat conversion, and the conversion to the 13-byte USB wire report. They
  also cover the HID report descriptor that describes that report.
- `bt_gamepad.dfy`: Bluepad32 controller data converted to the internal
  report, and the single controller slot with its callbacks.
- `usb_hid_gamepad.dfy`: the USB device state, the string-descriptor
  callback and the report send guard.
- `device_config.dfy`: the persistent configuration, with its validity
  rules and its byte layout. The layout has a magic number, a version,
  little-endian fields and a CRC-32 trailer.
- `setup_cmd.dfy`: the line-oriented setup console. It trims and splits a
  line, then runs `get`, `set`, `list`, `save`, `defaults`, `version`,
  `status` and `reboot`. It never echoes the Wi-Fi password.
- `ota_version.dfy`: parsing, comparing and formatting release versions
  (`v1.2.3`).
- `ota_text.dfy`, `ota_http.dfy`, `ota_flash.dfy`: the text helpers of the
  over-the-air updater, which read URLs, HTTP headers and the release
  JSON. They also cover gathering an HTTP response into headers and body,
  and the flash writer that streams the image into the staging area
  sector by sector.
- `c_types.dfy`, `c_strings.dfy`: fixed-width integers, and what the C
  string functions the firmware relies on compute.

Where the firmware keeps state in static variables or structures it
updates in place, the model is a class with those fields. Examples are
the power state machine, the controller slot, the USB device, the setup
console, the flash writer, the HTTP context and the main loop's device.
Each method is proved against functions of the old state, and the
properties are proved about those functions. Pure C helpers are Dafny
functions, with lemmas about them.

## Model

| member | source | states |
|---|---|---|
| CTypes.ToU8 | firmware/src/usb_hid_report.c:89-90 | A value that fits in a byte is kept unchanged by the `(uint8_t)` cast. |
| CTypes.ToU16 | firmware/src/device_config.c:65-68 | A value that fits in 16 bits is kept unchanged by the `(uint16_t)` cast. |
| CStrings.CStr | firmware/src/ota_update.c:180-204 | The C string in a buffer is the prefix before the first NUL. It holds no NUL, and it is the whole buffer only when the buffer has no NUL. |
| CStrings.CStrOfPadded | firmware/src/device_config.c:149-195 | A NUL-free text padded with NULs reads back as that text. |
| CStrings.Decimal | firmware/src/ota_version.c:79-83 | `%u` output: the digits of `n` without a leading zero, and they read back as `n`. |
| CStrings.Truncated | firmware/src/setup_cmd.c:26-33 | `snprintf` into `size` bytes keeps the first `size - 1` characters. Keeping a prefix and then the rest gives the truncation of the whole (TruncatedAppend). |
| CStrings.TruncatedAppend | firmware/src/setup_cmd.c:164-190 | Printing `a` and then `b` into the room that is left gives the truncation of `a + b`. |
| CStrings.PrintInto | firmware/src/setup_cmd.c:26-33 | `out_printf`: writes the truncated text and a NUL, leaves the rest of the buffer alone, and returns the length written, which is always below `size`. |
| CStrings.CopyOut | firmware/src/ota_update.c:193-196 | The bounded `memcpy` plus NUL of `find_header`: the buffer holds the text cut to `size - 1` characters, then a NUL. |
| CStrings.FindFrom | firmware/src/ota_update.c:199-201 | `strstr` from a position: a found index is an occurrence. FindFromMisses and FindFromFirst show it is the first one, and that `None` means there is none. |
| CStrings.FindChar | firmware/src/ota_update.c:505-509 | `strchr`: the index found holds the character, which does not occur before it, and `None` means it does not occur at all. |
| CStrings.DigitPrefixLength | firmware/src/setup_cmd.c:43-51 | The run of digits at the front: all digits, followed by a non-digit or the end. |
| Gamepad.ButtonBitsAreDistinctPowers | firmware/include/gamepad.h:17-28 | The twelve button masks are the bits 0 to 11 and pairwise disjoint. |
| Gamepad.DpadToHat | firmware/include/gamepad.h:58-83 | The hat value is one of the nine codes, 0 to 8. |
| Gamepad.DpadToHatByDirections | firmware/include/gamepad.h:58-83 | The hat depends only on the four direction bits, as the first-match chain tests them. |
| Gamepad.DpadToHatIgnoresHighNibble | firmware/include/gamepad.h:58-83 | Bits above the four direction bits do not change the hat. |
| Gamepad.DpadOpposingIsCentered | firmware/include/gamepad.h:58-83 | Up with down, or left with right, gives centered. |
| Gamepad.DpadNamedMasks | firmware/include/gamepad.h:31-39 | Each single or diagonal direction mask maps to its named hat value, and no bits map to centered. |
| Gamepad.GuidePressed | firmware/include/gamepad.h:89-92 | True exactly when bit 10 (`BTN_GUIDE`) of the buttons is set. |
| UsbHidReport.FromGamepad | firmware/src/usb_hid_report.c:77-106 | Sticks and buttons are copied. A trigger in 0..1023 becomes its value divided by 4. A d-pad value becomes a hat code in 0..8, with 0 exactly for centered. |
| UsbHidReport.TriggerScalingPoints | firmware/src/usb_hid_report.c:89-90 | Triggers 0, 512 and 1023 become 0, 128 and 255. |
| UsbHidReport.HatCodeRoundTrip | firmware/src/usb_hid_report.c:98-102 | The wire hat code gives back the d-pad value it came from. |
| UsbHidReport.HatCodeIsInjective | firmware/src/usb_hid_report.c:98-102 | Distinct d-pad values get distinct hat codes. |
| UsbHidReport.Unsigned16 | firmware/include/usb_hid_report.h:34-43 | The two's-complement 16-bit pattern of a signed stick value. |
| UsbHidReport.Le16 | firmware/include/usb_hid_report.h:34-43 | Two bytes, low byte first, whose word is the value's 16-bit pattern. |
| UsbHidReport.SignedFromLe16 | firmware/include/usb_hid_report.h:34-43 | The signed value whose 16-bit pattern is the little-endian word. |
| UsbHidReport.Pack | firmware/include/usb_hid_report.h:34-43 | The packed report is 13 bytes, with the triggers at bytes 8 and 9 and the hat at byte 10. |
| UsbHidReport.Le16RoundTrip | firmware/include/usb_hid_report.h:34-43 | Decoding the little-endian bytes of a signed 16-bit value gives it back. |
| UsbHidReport.PackRoundTrip | firmware/include/usb_hid_report.h:34-43 | Unpacking a packed wire report gives it back. |
| UsbHidReport.DataValueShift | firmware/src/usb_hid_report.c:16-74 | An item's data reads the same when the descriptor is extended in front. |
| UsbHidReport.ScanShift | firmware/src/usb_hid_report.c:16-74 | Scanning the tail of a longer descriptor gives the same result as scanning it alone. |
| UsbHidReport.ScanAppend | firmware/src/usb_hid_report.c:16-74 | Scanning two descriptor parts in a row is scanning the first, then the second from its result. |
| UsbHidReport.ScanHeader | firmware/src/usb_hid_report.c:17-19 | The usage page and usage open one application collection. |
| UsbHidReport.ScanSticks | firmware/src/usb_hid_report.c:22-31 | Four 16-bit axes add 64 bits of input. |
| UsbHidReport.ScanTriggers | firmware/src/usb_hid_report.c:34-40 | Two 8-bit triggers add 16 bits. |
| UsbHidReport.ScanHat | firmware/src/usb_hid_report.c:43-52 | One 4-bit hat switch adds 4 bits. |
| UsbHidReport.ScanHatPadding | firmware/src/usb_hid_report.c:55-57 | A 4-bit constant pad completes the hat byte. |
| UsbHidReport.ScanUnitReset | firmware/src/usb_hid_report.c:60-61 | Resetting the physical maximum and the unit adds no bits. |
| UsbHidReport.ScanButtons | firmware/src/usb_hid_report.c:64-71 | Sixteen 1-bit buttons add 16 bits. |
| UsbHidReport.DescriptorDescribesWireReport | firmware/src/usb_hid_report.c:16-74 | The whole descriptor is well nested and describes 104 input bits, which is exactly the 13-byte wire report. |
| BtGamepad.Flag | firmware/src/bt_gamepad.c:32-51 | A single bit that is set exactly when the condition holds. |
| BtGamepad.MapButtons | firmware/src/bt_gamepad.c:32-51 | Each output button is set exactly when its Bluepad32 bit is set. Guide comes from either system or home. Bit 11 and the bits above it stay clear. |
| BtGamepad.ScaleAxis | firmware/src/bt_gamepad.c:56-62 | Axis values in -512..511 are multiplied by 64. Values outside that range saturate to the 16-bit limits. |
| BtGamepad.ScaleAxisMonotone | firmware/src/bt_gamepad.c:56-62 | Scaling preserves the order of axis values. |
| BtGamepad.ClampTrigger | firmware/src/bt_gamepad.c:67-72 | Triggers are clamped to 0..1023 and kept when already inside. |
| BtGamepad.ClampTriggerIdempotent | firmware/src/bt_gamepad.c:67-72 | Clamping twice is clamping once. |
| BtGamepad.ConvertReport | firmware/src/bt_gamepad.c:74-84 | The report is well formed. Axes are scaled, triggers clamped (brake to left, throttle to right), bits 11 to 15 are clear, and the d-pad becomes a hat. |
| BtGamepad.SlotReportsAreWellFormed | firmware/src/bt_gamepad.c:105-124 | Both the idle report and every converted report are well formed, and the idle report does not press guide. |
| BtGamepad.BtSlots.Init | firmware/src/bt_gamepad.c:190-202 | The slot starts disconnected with the idle report, the callback is registered, and pairing is off. |
| BtGamepad.BtSlots.OnInitComplete | firmware/src/bt_gamepad.c:95-98 | Pairing is switched on and no callback fires. |
| BtGamepad.BtSlots.OnDeviceDisconnected | firmware/src/bt_gamepad.c:105-124 | The slot is disconnected and reset to the idle report, the callback gets `Disconnected` if registered, and pairing is switched back on. |
| BtGamepad.BtSlots.OnDeviceReady | firmware/src/bt_gamepad.c:126-142 | The slot is connected with its report kept, the callback gets `Connected` if registered, and pairing stops. |
| BtGamepad.BtSlots.OnControllerData | firmware/src/bt_gamepad.c:144-158 | Gamepad-class data replaces the slot report with its conversion. Other classes change nothing. |
| BtGamepad.BtSlots.SetPairing | firmware/src/bt_gamepad.c:231-234 | Pairing is set as asked. |
| BtGamepad.BtSlots.IsConnected | firmware/src/bt_gamepad.c:204-214 | True exactly for an in-range index whose slot is connected. |
| BtGamepad.BtSlots.GetReport | firmware/src/bt_gamepad.c:216-229 | Succeeds exactly for a connected in-range slot and returns its report. Otherwise the caller's report is untouched. |
| UsbHidGamepad.Capped | firmware/src/usb_hid_gamepad.c:78-108 | The string length capped at 31 code units. |
| UsbHidGamepad.HeaderWord | firmware/src/usb_hid_gamepad.c:78-108 | The first word holds the string descriptor type in its high byte and the byte length `2 * len + 2` in its low byte. |
| UsbHidGamepad.Widen | firmware/src/usb_hid_gamepad.c:78-108 | Each ASCII character becomes the UTF-16 code unit of the same value. |
| UsbHidGamepad.StringDescriptor | firmware/src/usb_hid_gamepad.c:78-108 | The descriptor fits the 32-word buffer and starts with its header word. Index 0 is the language ID 0x0409. |
| UsbHidGamepad.StringDescriptorsRoundTrip | firmware/src/usb_hid_gamepad.c:58-63 | For the manufacturer, product and serial strings, the descriptor carries every character of the string and its byte length. |
| UsbHidGamepad.UsbHidDevice.Init | firmware/src/usb_hid_gamepad.c:182-198 | The device starts not mounted, with the callback stored and nothing sent. |
| UsbHidGamepad.UsbHidDevice.SetState | firmware/src/usb_hid_gamepad.c:143-178 | The state is stored, and it is notified to the callback when one is registered. |
| UsbHidGamepad.UsbHidDevice.OnMount | firmware/src/usb_hid_gamepad.c:143-150 | The device becomes mounted and notifies that. |
| UsbHidGamepad.UsbHidDevice.OnUnmount | firmware/src/usb_hid_gamepad.c:152-159 | The device becomes not mounted and notifies that. |
| UsbHidGamepad.UsbHidDevice.OnSuspend | firmware/src/usb_hid_gamepad.c:161-169 | The device becomes suspended and notifies that. The remote-wakeup flag is ignored. |
| UsbHidGamepad.UsbHidDevice.OnResume | firmware/src/usb_hid_gamepad.c:171-178 | The device becomes mounted again and notifies that. |
| UsbHidGamepad.UsbHidDevice.GetState | firmware/src/usb_hid_gamepad.c:216-219 | Returns the current state. |
| UsbHidGamepad.UsbHidDevice.CopyUnits | firmware/src/usb_hid_gamepad.c:78-108 | The widening copy loop: the code units land after the header word, and the rest of the buffer is unchanged. |
| UsbHidGamepad.UsbHidDevice.DescriptorString | firmware/src/usb_hid_gamepad.c:78-108 | Index 4 or above returns NULL and leaves the buffer alone. Otherwise the buffer starts with that string's descriptor. |
| UsbHidGamepad.UsbHidDevice.SendReport | firmware/src/usb_hid_gamepad.c:205-214 | A report goes out, converted to wire form, only when mounted and the HID endpoint is ready. The result is true only if the stack also queued it. |
| PowerState.Step | firmware/src/pc_power_state.c:17-243 | The dispatched handler. It triggers the power button exactly on a wake request while off or sleeping. It starts the boot timer exactly when it enters Booting. It cancels the timer exactly when it leaves Booting by enumeration, LED off or a long press. No other action bit is set, and a no-change step keeps the context and returns no actions. |
| PowerState.UsbEnumeratedReachesOn | firmware/src/pc_power_state.c:43-230 | USB enumeration leads to On from every state, and it is a transition exactly when the state was not already On. |
| PowerState.Lookup | firmware/src/pc_power_state.c:17-29 | The first table row for a state and event pair, or a proof that there is none. |
| PowerState.RowsAreSteps | firmware/src/pc_power_state.c:43-230 | Each of the seventeen transitions in the table is what the handlers do. |
| PowerState.StepsAreRows | firmware/src/pc_power_state.c:43-230 | Every transition the handlers make is a row of the table, so there are no others. |
| PowerState.StepFollowsTable | firmware/src/pc_power_state.c:17-243 | A step is its table row when there is one, and a no-change result otherwise. |
| PowerState.StateName | firmware/src/pc_power_state.c:245-254 | Every state has a `PC_` name, never `UNKNOWN`. |
| PowerState.EventName | firmware/src/pc_power_state.c:256-269 | Every event has a name other than `UNKNOWN`. |
| PowerState.NamesAreDistinct | firmware/src/pc_power_state.c:245-269 | Distinct states and distinct events have distinct names. |
| PowerState.PowerMachine.Init | firmware/src/pc_power_state.c:3-7 | The machine starts Off at time 0. |
| PowerState.PowerMachine.Process | firmware/src/pc_power_state.c:232-243 | The new context and the result are those of `Step`, and no transition leaves the machine unchanged. |
| Orchestrator.DispatchOnce | firmware/src/main.c:34-46 | Each requested action produces exactly one hardware call, with the configured 200 ms pulse and 30 s timeout. Unrequested actions produce none. |
| Orchestrator.RunConcat | firmware/src/main.c:183-200 | Feeding two event sequences in a row is feeding their concatenation. |
| Orchestrator.FeedOne | firmware/src/main.c:34-46 | Feeding one event takes the state machine's step and dispatches its actions. |
| Orchestrator.FeedConcat | firmware/src/main.c:93-114 | Feeding events split in two gives the same context and call log as feeding them at once. |
| Orchestrator.UsbEvent | firmware/src/main.c:53-71 | Mounted becomes USB-enumerated. Not mounted and suspended become USB-suspended. |
| Orchestrator.LedEdges | firmware/src/main.c:98-105 | At most one LED event per poll. LED-on comes exactly on a rising edge and LED-off exactly on a falling edge, and a steady LED gives none. |
| Orchestrator.TimeoutAfterLedEdge | firmware/src/main.c:107-111 | The boot timeout is fed exactly when the timer expired, and only after the LED event. |
| Orchestrator.WakePressesPowerButton | firmware/src/main.c:121-150 | A wake request while off or sleeping presses the power button exactly once, for 200 ms. |
| Orchestrator.HeldGuideWakesOnce | firmware/src/main.c:121-150 | A guide button held across many reports wakes the PC at most once. It does not wake at all if it was already held in the last valid report. |
| Orchestrator.ReconnectRearmsWake | firmware/src/main.c:76-84 | After a disconnect, a held guide button wakes an off or sleeping PC again. With a valid previous report it does not. |
| Orchestrator.Device.Init | firmware/src/main.c:169-172 | The machine starts in its initial context, the LED reading is remembered, and no report is valid yet. |
| Orchestrator.Device.DispatchActions | firmware/src/main.c:34-46 | The hardware log grows by the dispatched calls, and nothing else changes. |
| Orchestrator.Device.FeedEvent | firmware/src/main.c:100-110 | One event is processed and its actions dispatched, as the feed function describes. |
| Orchestrator.Device.OnUsbStateChange | firmware/src/main.c:53-71 | The USB state's event is fed to the machine and its actions are dispatched. |
| Orchestrator.Device.OnBtEvent | firmware/src/main.c:76-84 | A disconnect invalidates the previous report, and nothing else changes. |
| Orchestrator.Device.PollHardware | firmware/src/main.c:93-114 | The LED edge events and then the timeout are fed in order, and the new LED reading is remembered. |
| Orchestrator.Device.FeedLedEdge | firmware/src/main.c:98-105 | Only an LED edge is fed. |
| Orchestrator.Device.ProcessGamepad | firmware/src/main.c:121-150 | A fresh guide press while off or sleeping feeds a wake request and is not forwarded. A report is forwarded exactly when the PC was On. The report becomes the valid previous one. |
| Orchestrator.Device.Tick | firmware/src/main.c:183-200 | One loop pass: the poll events, then the report's wake event if a report came, all fed in order and dispatched. A report that came is forwarded exactly when the state the poll left is On. |
| DeviceConfig.Init | firmware/src/device_config.c:77-87 | Empty SSID and password, the default name, a 200 ms pulse and a 30000 ms timeout. |
| DeviceConfig.InitIsValid | firmware/src/device_config.c:89-113 | The defaults pass validation. |
| DeviceConfig.LeU16 | firmware/src/device_config.c:51-55 | Two bytes, low first. |
| DeviceConfig.LeU32 | firmware/src/device_config.c:57-63 | Four bytes, low first. |
| DeviceConfig.GetOfLeU16 | firmware/src/device_config.c:65-68 | Reading back two stored bytes gives the stored value. |
| DeviceConfig.GetOfLeU32 | firmware/src/device_config.c:70-73 | Reading back four stored bytes gives the stored value. |
| DeviceConfig.LeU16OfGet | firmware/src/device_config.c:51-68 | Storing a value read from two bytes gives those bytes back. |
| DeviceConfig.LeU32OfGet | firmware/src/device_config.c:57-73 | Storing a value read from four bytes gives those bytes back. |
| DeviceConfig.CrcRegisterAppend | firmware/src/device_config.c:37-47 | The CRC register runs over a concatenation in two steps. |
| DeviceConfig.Crc32Streams | firmware/src/device_config.c:37-47 | Updating the CRC with one chunk and then another equals updating with both at once, despite the complement on entry and exit. |
| DeviceConfig.UpdateByte | firmware/src/device_config.c:40-45 | The eight-shift inner loop computes one byte's CRC step. |
| DeviceConfig.Crc32Update | firmware/src/device_config.c:37-47 | `crc32_update` over the first `len` bytes equals the reference CRC-32. |
| DeviceConfig.Bytes | firmware/src/device_config.c:115-147 | A field's characters as bytes, one per character. |
| DeviceConfig.Chars | firmware/src/device_config.c:149-195 | Bytes as characters. CharsOfBytes and BytesOfChars show the two are inverses. |
| DeviceConfig.Body | firmware/src/device_config.c:115-147 | Everything before the CRC, in layout order: magic, version, SSID, password, pulse, timeout, name. |
| DeviceConfig.Encode | firmware/src/device_config.c:115-147 | The 144-byte image: `GFCP`, version 1, the fields in place, and the CRC-32 of everything before it. |
| DeviceConfig.HeaderBytes | firmware/src/device_config.c:6-7 | The magic and version bytes as they appear in flash. |
| DeviceConfig.Fields | firmware/src/device_config.c:149-195 | The fields read from an image are well sized. |
| DeviceConfig.Decode | firmware/src/device_config.c:149-195 | Accepts only an image of full size with the right magic, version and CRC, whose fields pass validation. |
| DeviceConfig.DecodeEncode | firmware/src/device_config.c:115-195 | Serializing a valid configuration and reading it back gives it back. |
| DeviceConfig.EncodeDecode | firmware/src/device_config.c:115-195 | An image that is accepted is exactly the serialization of what it decodes to. |
| DeviceConfig.Put | firmware/src/device_config.c:51-63 | Bytes are stored at a position, and the rest of the buffer is unchanged. |
| DeviceConfig.WriteBody | firmware/src/device_config.c:121-143 | The stores of `device_config_serialize` produce the body, and the buffer past the image is untouched. |
| DeviceConfig.Serialize | firmware/src/device_config.c:115-147 | Returns -1 and writes nothing for a NULL argument or a short buffer. Otherwise it writes exactly the encoding and returns its size. |
| DeviceConfig.Deserialize | firmware/src/device_config.c:149-195 | Succeeds exactly when the bytes decode. It then yields the decoded configuration, and otherwise leaves the caller's configuration as it was. |
| SetupCmd.KeyNamed | firmware/src/setup_cmd.c:65-80 | The key with that name, or a proof that no key has it. |
| SetupCmd.FindKey | firmware/src/setup_cmd.c:73-80 | The search loop finds the key with that name, or no key. |
| SetupCmd.SkipWs | firmware/src/setup_cmd.c:36-40 | Skips exactly the leading white space. |
| SetupCmd.SkipSpaces | firmware/src/setup_cmd.c:36-40 | What is left after leading white space starts with a non-space. |
| SetupCmd.TrimmedLine | firmware/src/setup_cmd.c:203-218 | The line with leading and trailing white space removed, cut to 255 characters. It neither starts nor ends with white space. |
| SetupCmd.Words | firmware/src/setup_cmd.c:220-230 | The command word is up to the first space. The argument, if any, is what follows that space with leading white space skipped: every skipped character is white space, and the argument does not start with one. |
| SetupCmd.Strtoul | firmware/src/setup_cmd.c:43-51 | `strtoul` in base 10: a sign, then the digit run it reads, and where it stops. |
| SetupCmd.ParseU16AsWritten | firmware/src/setup_cmd.c:43-51 | `parse_u16` as written: the whole text must be read, and the value must be at most 65535. |
| SetupCmd.ParseU16AcceptsNegative | firmware/src/setup_cmd.c:43-51 | A minus sign before a numeral just below 2^32 is accepted as a small value. |
| SetupCmd.ParseU16 | firmware/src/setup_cmd.c:43-51 | Exactly the unsigned decimal numerals of at most 65535, with an optional `+`, are accepted, at their value. |
| SetupCmd.Padded | firmware/src/device_config.c:20-29 | A value stored in a fixed field reads back as the value. |
| SetupCmd.GetReply | firmware/src/setup_cmd.c:84-101 | Every reply starts with `OK `, and the password reply is masked. |
| SetupCmd.GetAfterSet | firmware/src/setup_cmd.c:84-160 | After an accepted `set`, `get` of the same key replies `OK `, then the text value as given, or the number as `parse_u16` read it, or `********` for the password, then a newline. |
| SetupCmd.GetAfterSetDecimal | firmware/src/setup_cmd.c:84-160 | `set` of a number key to a decimal numeral in its range replies OK, and `get` then replies `OK ` and that numeral. |
| SetupCmd.GetDefaults | firmware/src/device_config.c:77-87 | On the initial configuration `get` replies `OK ` with an empty SSID, `********`, `200`, `30000` and `PadProxy`. |
| SetupCmd.SetValue | firmware/src/setup_cmd.c:103-160 | Text keys accept exactly the values within their length limits. Number keys accept exactly what `parse_u16` as written reads into their range, which without a minus sign is a decimal numeral in range. An accepted value changes only its own field, and any refusal leaves the configuration unchanged. |
| SetupCmd.SetValueAcceptsNegated | firmware/src/setup_cmd.c:125-135 | `set power_pulse_ms` with a minus sign before a numeral from 4294965296 to 4294967246 replies OK and stores 2^32 minus that numeral, so `-4294967096` stores 200. |
| SetupCmd.ListLines | firmware/src/setup_cmd.c:164-190 | Five lines, one per key, with the password masked. |
| SetupCmd.SetCommand | firmware/src/setup_cmd.c:246-270 | The configuration changes only with an `OK` reply. A known key's value is handled by `SetValue`, with the parser as written. |
| SetupCmd.CommandNamed | firmware/src/setup_cmd.c:232-292 | The command with that name, or a proof that none has it. |
| SetupCmd.Execute | firmware/src/setup_cmd.c:232-297 | Always a reply. Save is requested exactly for `save` and reboot exactly for `reboot`. The configuration changes only on a successful `set` or on `defaults`. |
| SetupCmd.Respond | firmware/src/setup_cmd.c:194-298 | A blank line gets no reply and changes nothing. Otherwise the trimmed line's command word decides the action, as in `Execute`. |
| SetupCmd.TrimmedOfPadded | firmware/src/setup_cmd.c:203-218 | Trimming any amount of white-space padding around a trimmed text of at most 255 characters gives that text back. |
| SetupCmd.TrimIsInvariant | firmware/src/setup_cmd.c:203-218 | Any amount of extra white space before or after any line leaves its trimmed form unchanged, even where the 255-character copy cuts the line. |
| SetupCmd.DefaultsRestoreInit | firmware/src/setup_cmd.c:278-281 | `defaults` resets the configuration to its initial values, which are valid. |
| SetupCmd.PasswordNeverEchoed | firmware/src/setup_cmd.c:84-190 | No reply to any line depends on the stored Wi-Fi password. |
| SetupCmd.ExecuteIgnoresPassword | firmware/src/setup_cmd.c:232-297 | No command's reply depends on the stored password. |
| SetupCmd.SetReplyIgnoresConfig | firmware/src/setup_cmd.c:103-160 | The reply to `set` depends on the key and value, not on the stored configuration. |
| SetupCmd.ExecuteDefaults | firmware/src/setup_cmd.c:278-281 | `defaults` replies OK, requests nothing and yields the initial configuration. |
| SetupCmd.SetupConsole.constructor | firmware/src/setup_cmd.c:9-10 | Version `0.0.0` and an empty status. |
| SetupCmd.SetupConsole.SetVersion | firmware/src/setup_cmd.c:13-16 | Stores the version, or `0.0.0` for NULL. |
| SetupCmd.SetupConsole.SetStatus | firmware/src/setup_cmd.c:18-21 | Stores the status, or the empty text for NULL. |
| SetupCmd.SetupConsole.Process | firmware/src/setup_cmd.c:194-298 | A NULL argument or empty buffer gives nothing. Otherwise it writes the reply of `Respond`, truncated to the buffer, and returns its action and length. The configuration becomes `Respond`'s. |
| SetupCmd.SetupConsole.Dispatch | firmware/src/setup_cmd.c:232-297 | The command chain: output, action and configuration as `Execute` gives them. |
| SetupCmd.SetupConsole.Answer | firmware/src/setup_cmd.c:232-297 | Every command but `list`, exactly as `Execute` answers it. |
| SetupCmd.ReadLine | firmware/src/setup_cmd.c:203-218 | The line buffer holds the trimmed line and a NUL. |
| SetupCmd.CopyLine | firmware/src/setup_cmd.c:207-211 | The copy into the 256-byte buffer. |
| SetupCmd.TrimEnd | firmware/src/setup_cmd.c:212-214 | The trailing white-space loop leaves the text minus its trailing white space. |
| SetupCmd.TrimmedCopy | firmware/src/setup_cmd.c:203-211 | The trimmed line is the copied text with its trailing white space removed. |
| SetupCmd.SplitWords | firmware/src/setup_cmd.c:220-230 | The command and argument of `Words`. |
| SetupCmd.CmdGet | firmware/src/setup_cmd.c:84-101 | The reply of `get`. |
| SetupCmd.CmdSet | firmware/src/setup_cmd.c:103-160 | The reply and configuration of `set`, numbers read by `parse_u16` as written. |
| SetupCmd.PrintMore | firmware/src/setup_cmd.c:164-190 | Appending one more printed piece keeps the buffer equal to the truncation of everything printed so far. |
| SetupCmd.CmdList | firmware/src/setup_cmd.c:164-190 | The buffer holds the list reply truncated to its size, with a NUL after it. |
| OtaVersion.ParseU16 | firmware/src/ota_version.c:28-40 | The digit loop succeeds exactly as the reference parser does, with the same value and end. |
| OtaVersion.ParseVersion | firmware/src/ota_version.c:42-65 | Succeeds exactly for a non-NULL string that parses, and then stores the version. Otherwise the output is untouched. |
| OtaVersion.AccumulateRun | firmware/src/ota_version.c:28-40 | Reading a digit run gives its value, or fails once the value passes 65535. |
| OtaVersion.NumberAt | firmware/src/ota_version.c:28-40 | A field of digits reads as its value when it fits in 16 bits, and fails otherwise. |
| OtaVersion.ParseAccepts | firmware/src/ota_version.c:42-65 | An optional `v`/`V`, three dot-separated numbers of at most 65535, then anything not a digit, parses to those numbers. |
| OtaVersion.ParseFields | firmware/src/ota_version.c:42-65 | Three fields at given positions parse to their values. |
| OtaVersion.ParseRejectsOverflow | firmware/src/ota_version.c:28-40 | A first field above 65535 is rejected. |
| OtaVersion.ParseSplits | firmware/src/ota_version.c:42-65 | Every accepted string has that shape, so parsing accepts exactly those strings. |
| OtaVersion.ParseRejectsMalformed | firmware/src/ota_version.c:42-65 | The empty string, `v`, `1.2`, `1.2.`, `-1.0.0` and `1.abc.3` are rejected. |
| OtaVersion.Compare | firmware/src/ota_version.c:69-75 | The result is -1, 0 or 1, following the lexicographic order of major, minor and patch. It is 0 exactly for equal versions. |
| OtaVersion.CompareAntisymmetric | firmware/src/ota_version.c:69-75 | Swapping the arguments negates the result. |
| OtaVersion.CompareTransitive | firmware/src/ota_version.c:69-75 | "Older than" is transitive. |
| OtaVersion.TextFits | firmware/src/ota_version.c:79-83 | A formatted version takes at most 17 characters. |
| OtaVersion.ParseText | firmware/src/ota_version.c:42-83 | Parsing a formatted version gives it back, with or without a tag prefix. |
| OtaVersion.Format | firmware/src/ota_version.c:79-83 | -1 for NULL or no room. Otherwise the buffer holds the formatted text truncated to its size, and the untruncated length is returned. |
| OtaText.Atoi | firmware/src/ota_update.c:168-174 | `atoi` after optional white space and a sign. AtoiOfDecimal shows it reads a decimal back. |
| OtaText.AtoiOfDecimal | firmware/src/ota_update.c:168-174 | A decimal numeral that fits in `int` reads as its value. |
| OtaText.UrlOf | firmware/src/ota_update.c:123-164 | Only `https://` and `http://` URLs with a host that fits parse. The path always starts with `/` and fits its buffer. |
| OtaText.UrlWithoutPort | firmware/src/ota_update.c:123-164 | Without a port the URL gives its host, port 443 and its path, or `/` when there is none. |
| OtaText.UrlWithPort | firmware/src/ota_update.c:123-164 | An explicit port is read as written. |
| OtaText.UrlHostClean | firmware/src/ota_update.c:135-145 | A parsed host contains neither `/` nor `:`. |
| OtaText.ParseUrl | firmware/src/ota_update.c:123-164 | Succeeds exactly when the URL parses, and then writes its host, port and path. A URL rejected before the host leaves the buffers untouched. |
| OtaText.StatusCodeOfLine | firmware/src/ota_update.c:168-174 | The number after the first space of the status line is the status code. |
| OtaText.HeaderIgnoresCase | firmware/src/ota_update.c:180-204 | Header keys match without regard to case. |
| OtaText.HeaderSkipsLine | firmware/src/ota_update.c:180-204 | A line that does not start with the key is skipped. |
| OtaText.HeaderOfLine | firmware/src/ota_update.c:180-204 | A `key: value` line gives its value, without the leading spaces and up to the line end. |
| OtaText.FindHeader | firmware/src/ota_update.c:180-204 | Finds a value exactly when the header is present, and copies it, truncated, with a NUL. Otherwise the buffer is untouched. |
| OtaText.ContentLength | firmware/src/ota_update.c:206-213 | -1 when there is no `Content-Length` header. |
| OtaText.ContentLengthOfLine | firmware/src/ota_update.c:206-213 | A `Content-Length: n` line, in any case, gives `n`. |
| OtaText.QuotedFrom | firmware/src/ota_update.c:505-513 | The quoted text ends at the next quote. |
| OtaText.JsonString | firmware/src/ota_update.c:491-515 | A found value contains no quote. |
| OtaText.JsonStringOf | firmware/src/ota_update.c:491-515 | `"key":"v"` at its first occurrence gives `v`. |
| OtaText.JsonStringOfSpaced | firmware/src/ota_update.c:496-515 | With no `"key":"` in the document, `"key": "v"` at its first occurrence gives `v`. |
| OtaText.JsonFindString | firmware/src/ota_update.c:491-515 | Finds a value exactly when the key is present with a closing quote, and copies it truncated. Otherwise the buffer is untouched. |
| OtaText.BinAssetUrl | firmware/src/ota_update.c:521-555 | A found URL contains no quote and fits the buffer. |
| OtaText.BinAssetUrlOf | firmware/src/ota_update.c:521-555 | After the asset name, the next `browser_download_url` value is the URL. |
| OtaText.FindBinAssetUrl | firmware/src/ota_update.c:521-555 | Finds a URL exactly when the release JSON names the binary asset with a URL that fits, and writes it. Otherwise the buffer is untouched. |
| OtaText.ReadUrlValue | firmware/src/ota_update.c:533-550 | The value read after a `browser_download_url` key. |
| OtaText.ReadQuoted | firmware/src/ota_update.c:540-550 | The quoted value copied when it fits. |
| OtaText.ResultName | firmware/src/ota_update.c:839-851 | Codes 0 to 6 have their own names, and every other code is `UNKNOWN`. |
| OtaText.ResultNamesDistinct | firmware/src/ota_update.c:839-851 | Distinct result codes have distinct names. |
| OtaHttp.ScanHeader | firmware/src/ota_update.c:224-242 | The header loop over a chunk. The buffer never exceeds 2047 characters. It stops right after the blank line, or uses the whole chunk without meeting one. |
| OtaHttp.StoreAllKeeps | firmware/src/ota_update.c:226-229 | Stored bytes are appended until the buffer is full, and the rest are dropped. |
| OtaHttp.ScanStores | firmware/src/ota_update.c:224-242 | The header text after the loop is the bytes it used, stored. |
| OtaHttp.ScanStopsAtFirstBlank | firmware/src/ota_update.c:233-241 | The loop stops at the first point where the stored text ends in a blank line. |
| OtaHttp.FullHeaderNeverEnds | firmware/src/ota_update.c:226-234 | Once 2047 characters are stored without a blank line, no later chunk can end the headers. |
| OtaHttp.BytesOf | firmware/src/ota_update.c:227 | Bytes of an 8-bit text, character for character. |
| OtaHttp.ScanWholeHeader | firmware/src/ota_update.c:224-242 | A header block that fits, arriving in one chunk, is stored whole and ends exactly at its blank line. |
| OtaHttp.Kept | firmware/src/ota_update.c:258-259 | The body buffer keeps as many bytes as fit before its final NUL, and all of them when they fit. |
| OtaHttp.Leftover | firmware/src/ota_update.c:245-248 | The chunk's body part: all of it after the headers, otherwise what follows the blank line. |
| OtaHttp.HttpContext.constructor | firmware/src/ota_update.c:727-731 | A zeroed context with its body buffer or flash writer. |
| OtaHttp.HttpContext.Begin | firmware/src/ota_update.c:355-366 | Resets the request: no headers, no body, status 0, length -1, an empty `Location`, and neither complete nor failed. |
| OtaHttp.HttpContext.Close | firmware/src/ota_update.c:321-327 | The server closing the connection marks the response complete. |
| OtaHttp.HttpContext.ProcessData | firmware/src/ota_update.c:217-268 | Nothing happens after an error or completion. Otherwise the header text grows as `ScanHeader` says, and closed headers are read. The rest of the chunk goes to the flash writer, where a refusal fails the request, or else to the body buffer as far as it fits. |
| OtaHttp.HttpContext.AbsorbHeader | firmware/src/ota_update.c:224-242 | The header loop and, at the blank line, reading status, length and `Location`. |
| OtaHttp.HttpContext.ScanBytes | firmware/src/ota_update.c:225-242 | The loop's stored text, bytes used and end flag are `ScanHeader`'s. |
| OtaHttp.HttpContext.StoreByte | firmware/src/ota_update.c:226-229 | One byte stored while there is room. |
| OtaHttp.HttpContext.EndHeaders | firmware/src/ota_update.c:235-239 | The status code, the content length and the truncated `Location` value are read from the header text. |
| OtaHttp.HttpContext.DeliverBody | firmware/src/ota_update.c:246-267 | The flash writer takes the body or fails the request. Otherwise the buffer keeps what fits and NUL-terminates it. |
| OtaHttp.HttpContext.CopyBody | firmware/src/ota_update.c:261-262 | The `memcpy` into the body buffer. |
| OtaFlash.FlatLength | firmware/src/ota_update.c:579-597 | Every programmed sector adds 4096 bytes. |
| OtaFlash.Erased | firmware/src/ota_update.c:585 | The 0xFF fill. |
| OtaFlash.FlashWriter.Init | firmware/src/ota_update.c:567-573 | Nothing buffered, written or failed, at the start offset. |
| OtaFlash.FlashWriter.Flush | firmware/src/ota_update.c:579-597 | An empty buffer does nothing. Otherwise the sector, padded with 0xFF, is programmed at the next offset, and the buffer restarts. |
| OtaFlash.FlashWriter.Write | firmware/src/ota_update.c:602-629 | A chunk that would pass 1 MiB is refused and marks the writer failed. Otherwise the staged image grows by the chunk, full sectors are programmed in order, and what is already programmed is kept. |
| OtaFlash.FlashWriter.Stream | firmware/src/ota_update.c:612-627 | The copy loop appends the chunk to the staged image, programming every sector it fills. |
| OtaFlash.FlashWriter.Append | firmware/src/ota_update.c:612-627 | One turn of the loop. |
| OtaFlash.FlashWriter.PadSector | firmware/src/ota_update.c:585 | The buffer past the data becomes 0xFF. |
| OtaFlash.FlashWriter.CopyIn | firmware/src/ota_update.c:617 | The `memcpy` into the sector buffer. |

## Left out

- Debounce: `main.c` feeds LED edges straight to the state machine, and the model follows the code. No debounce is modelled, because the code has none.
- Hardware readings: the power LED, the boot timer's expiry, the millisecond clock and the HID endpoint's readiness are parameters. So are the two TinyUSB answers `UsbHidGamepad.UsbHidDevice.SendReport` takes: `mounted` stands for `tud_mounted()`, and `queuedByStack` stands for the result of `tud_hid_report`. `usb_hid_gamepad_task` and `sleep_ms` have no effect in the model.
- The GPIO pulse, the boot timer and the flash driver's erase and program calls are not executed. They are recorded as call logs (`hal`, `programmed`), and interrupt locking is not modelled.
- `ota_accept_current_image`, `ota_update_check_and_apply`, `flash_apply_update` and the network part of `https_get` are not modelled. Those are Wi-Fi, DNS, TLS, lwIP callbacks, timeouts and redirects.
- Concurrency: every callback is modelled as a call made from the main loop. Interrupt and callback context are not modelled.
- `printf` logging is dropped.
- Text is modelled as sequences of characters standing in for bytes. Only characters below 256 are stored where the source stores bytes.
- BtGamepad.ScaleAxis: `value * 64` overflows `int32_t` once the value is beyond 2^25 in size, which is undefined in C. The model multiplies exactly, so such values saturate. Bluepad32 axes lie in -512..511, far inside that bound.
- OtaText.Atoi: an `int` overflow, which is undefined in C, is clamped to the `int` range.
- OtaText.ParseUrl: when the URL is rejected after the host, what has been written to the host buffer is stated only as "the host written" and not in full.
- OtaHttp.HttpContext.ProcessData: the body callback is always the flash writer. Other callbacks cannot be plugged in.
- OtaHttp.HttpContext.EndHeaders: the header text is read up to its first NUL, as the C string functions read it. A header that holds a NUL byte is cut there.
- OtaFlash.FlashWriter.Flush: the flash driver cannot fail in the model, so the flush always succeeds.
- OtaFlash.FlashWriter.Write: the 32-bit `total_written` counter is modelled unbounded. It cannot wrap below the 1 MiB limit.
- Orchestrator.Device.ProcessGamepad: `forwarded` records each call of `usb_hid_gamepad_send_report`. Whether the report reaches the host is modelled separately, in UsbHidGamepad.UsbHidDevice.SendReport.

## Findings

| source | as written | input that shows it | evidently intended | confidence | as-written member | corrected member |
|---|---|---|---|---|---|---|
| firmware/src/setup_cmd.c:43-51 | `parse_u16` trusts `strtoul`, which accepts a minus sign and negates modulo 2^32 | `set power_pulse_ms -4294967096` stores 200 | only unsigned numerals are accepted | not executed | SetupCmd.ParseU16AcceptsNegative | SetupCmd.ParseU16 |
