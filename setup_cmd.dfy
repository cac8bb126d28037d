/**
 * The setup console (firmware/src/setup_cmd.c): one text line in, one reply
 * out. The line is trimmed, split into a command word and its argument, and
 * `get`, `set`, `list`, `save`, `defaults`, `version`, `status` or `reboot`
 * reads or edits the configuration; `save` and `reboot` only ask the caller
 * to act.
 *
 * `Respond` is the whole behaviour as a function of the line, the config and
 * the two module strings; `SetupConsole.Process` is the C procedure, which
 * copies and trims the line in a 256-byte buffer and prints the reply into
 * the caller's buffer, and is proved to do what `Respond` says.
 */
module SetupCmd {
  import opened CTypes
  import opened CStrings
  import opened DeviceConfig

  /** `setup_cmd_action_t`. */
  datatype Action = ActionNone | ActionSave | ActionReboot

  /** `setup_cmd_result_t`. */
  datatype CmdResult = CmdResult(action: Action, outLen: nat)

  /** The size of the line buffer: a longer line is cut to one character less. */
  const LINE_BUF_SIZE: nat := 256

  /** A C string: bytes, none of them NUL. */
  predicate IsCString(s: string)
  {
    IsByteString(s) && '\0' !in s
  }

  /* ---- Keys ---- */

  /** `config_key_t`; `KEY_UNKNOWN` is the `None` of a lookup. */
  datatype Key = WifiSsid | WifiPassword | PowerPulseMs | BootTimeoutMs | DeviceName

  /** `key_names`, in table order. */
  const KEY_TABLE: seq<Key> := [WifiSsid, WifiPassword, PowerPulseMs, BootTimeoutMs, DeviceName]

  function KeyName(k: Key): string
  {
    match k
    case WifiSsid => "wifi_ssid"
    case WifiPassword => "wifi_password"
    case PowerPulseMs => "power_pulse_ms"
    case BootTimeoutMs => "boot_timeout_ms"
    case DeviceName => "device_name"
  }

  /** The key spelled `name`, if any. */
  function KeyNamed(name: string): (r: Option<Key>)
    ensures r.Some? ==> KeyName(r.value) == name
    ensures r.None? ==> forall k: Key :: KeyName(k) != name
  {
    if name == "wifi_ssid" then Some(WifiSsid)
    else if name == "wifi_password" then Some(WifiPassword)
    else if name == "power_pulse_ms" then Some(PowerPulseMs)
    else if name == "boot_timeout_ms" then Some(BootTimeoutMs)
    else if name == "device_name" then Some(DeviceName)
    else None
  }

  /** `find_key`: a linear search of the key table. */
  method FindKey(name: string) returns (r: Option<Key>)
    ensures r == KeyNamed(name)
  {
    var i := 0;
    while i < |KEY_TABLE|
      invariant 0 <= i <= |KEY_TABLE|
      invariant forall j :: 0 <= j < i ==> KeyName(KEY_TABLE[j]) != name
    {
      if name == KeyName(KEY_TABLE[i]) {
        return Some(KEY_TABLE[i]);
      }
      i := i + 1;
    }
    assert KeyName(KEY_TABLE[0]) != name && KeyName(KEY_TABLE[1]) != name && KeyName(KEY_TABLE[2]) != name;
    assert KeyName(KEY_TABLE[3]) != name && KeyName(KEY_TABLE[4]) != name;
    return None;
  }

  /* ---- Scanning ---- */

  /** `skip_ws` from index `from`: the first index at or after it that is not `isspace`. */
  method SkipWs(s: string, from: nat) returns (i: nat)
    requires from <= |s|
    ensures i == from + SpacePrefixLength(s[from..])
  {
    i := from;
    while i < |s| && IsSpace(s[i])
      invariant from <= i <= |s|
      invariant forall j :: from <= j < i ==> IsSpace(s[j])
    {
      i := i + 1;
    }
    assert forall j :: 0 <= j < i - from ==> s[from..][j] == s[from + j];
  }

  /** `s` after its leading `isspace` characters. */
  function SkipSpaces(s: string): (r: string)
    ensures |r| <= |s| && r == s[|s| - |r|..]
    ensures r == "" || !IsSpace(r[0])
  {
    s[SpacePrefixLength(s)..]
  }

  /** What the `memcpy` into the line buffer keeps of `rest`: at most 255 characters. */
  function LineCopy(rest: string): (copied: string)
    ensures |copied| < LINE_BUF_SIZE && |copied| <= |rest| && copied == rest[..|copied|]
  {
    if |rest| >= LINE_BUF_SIZE then rest[..LINE_BUF_SIZE - 1] else rest
  }

  /** `s` with its trailing `isspace` characters cut off. */
  function WithoutTrailingSpace(s: string): (t: string)
    ensures |t| <= |s| && t == s[..|t|]
    ensures t == "" || !IsSpace(t[|t| - 1])
  {
    s[..|s| - SpaceSuffixLength(s)]
  }

  /** The line as the buffer holds it once copied (at most 255 characters) and trimmed at both ends. */
  function TrimmedLine(line: string): (t: string)
    ensures |t| < LINE_BUF_SIZE
    ensures IsCString(line) ==> IsCString(t)
    ensures t == "" || (!IsSpace(t[0]) && !IsSpace(t[|t| - 1]))
  {
    WithoutTrailingSpace(LineCopy(SkipSpaces(line)))
  }

  /**
   * The command word and the argument: split at the first space, the
   * argument's leading white space skipped; no argument without a space.
   */
  function Words(t: string): (w: (string, Option<string>))
    ensures ' ' !in w.0
    ensures IsCString(t) ==> IsCString(w.0) && (w.1.Some? ==> IsCString(w.1.value))
    ensures w.1.None? ==> w.0 == t
    ensures w.1.Some? ==> (|w.0| + |w.1.value| < |t| && t[..|w.0|] == w.0 && t[|w.0|] == ' '
      && w.1.value == t[|t| - |w.1.value|..])
    ensures w.1.Some? ==> forall i :: |w.0| < i < |t| - |w.1.value| ==> IsSpace(t[i])
    ensures w.1.Some? ==> w.1.value == "" || !IsSpace(w.1.value[0])
  {
    match FindChar(t, ' ')
    case None => (t, None)
    case Some(k) => (t[..k], Some(SkipSpaces(t[k + 1..])))
  }

  /* ---- Numbers ---- */

  /** `ULONG_MAX + 1`: `unsigned long` is 32 bits wide on the Pico 2 W (RP2350) the firmware targets. */
  const ULONG_MODULUS: nat := 0x1_0000_0000

  /** Where `strtoul` starts reading digits: after leading white space and one optional sign. */
  function SignEnd(s: string): (d: nat)
    ensures SpacePrefixLength(s) <= d <= |s|
  {
    var w := SpacePrefixLength(s);
    if w < |s| && (s[w] == '+' || s[w] == '-') then w + 1 else w
  }

  /** The numeral carries a minus sign. */
  predicate Negated(s: string)
  {
    var w := SpacePrefixLength(s);
    w < |s| && s[w] == '-'
  }

  /**
   * `strtoul(s, &end, 10)`: the value and the index `end` stops at, 0 when no
   * digit was read. A negated numeral wraps modulo 2^32, as C's unsigned
   * negation does; a numeral past `ULONG_MAX` gives `ULONG_MAX`.
   */
  function Strtoul(s: string): (r: (nat, nat))
    ensures r.0 < ULONG_MODULUS && r.1 <= |s|
    ensures r.1 > 0 ==> SignEnd(s) < r.1 && AllDigits(s[SignEnd(s)..r.1])
    ensures r.1 > 0 ==> r.1 == |s| || !IsDigit(s[r.1])
    ensures r.1 == 0 ==> SignEnd(s) == |s| || !IsDigit(s[SignEnd(s)])
  {
    var d := SignEnd(s);
    var k := DigitPrefixLength(s[d..]);
    if k == 0 then (0, 0)
    else
      assert s[d..][..k] == s[d..d + k];
      var n := DigitsValue(s[d..d + k]);
      var v := if n >= ULONG_MODULUS then ULONG_MODULUS - 1
        else if Negated(s) then (ULONG_MODULUS - n) % ULONG_MODULUS
        else n;
      (v, d + k)
  }

  /**
   * `parse_u16` as written: `strtoul` must read something, stop at the end
   * of the string and give at most 65535, so a minus sign is accepted.
   */
  function ParseU16AsWritten(s: string): (r: Option<u16>)
    ensures r.Some? ==> Strtoul(s).1 == |s| > 0 && r.value == Strtoul(s).0
  {
    var (v, end) := Strtoul(s);
    if end == 0 || end != |s| || v > 0xFFFF then None else Some(v)
  }

  /**
   * With a minus sign, `strtoul` reads a numeral `n` below 2^32 as 2^32 - n,
   * so the numerals just below 2^32 pass as small numbers, 4294967096 as 200.
   */
  lemma {:induction false} ParseU16AcceptsNegative(n: nat)
    requires ULONG_MODULUS - 0x1_0000 < n < ULONG_MODULUS
    ensures ParseU16AsWritten("-" + Decimal(n)) == Some(ULONG_MODULUS - n)
  {
    var d := Decimal(n);
    var s := "-" + d;
    assert SpacePrefixLength(s) == 0;
    assert s[1..] == d;
    assert DigitPrefixLength(d) == |d|;
    assert s[1..1 + |d|] == d;
  }

  /**
   * `parse_u16` as meant: a whole decimal numeral, optionally after a plus
   * sign, worth at most 65535; a minus sign is refused.
   */
  function ParseU16(s: string): (r: Option<u16>)
    ensures r.Some? ==> (!Negated(s) && SignEnd(s) < |s| && AllDigits(s[SignEnd(s)..])
      && r.value == DigitsValue(s[SignEnd(s)..]))
    ensures !Negated(s) && SignEnd(s) < |s| && AllDigits(s[SignEnd(s)..]) && DigitsValue(s[SignEnd(s)..]) <= 0xFFFF
      ==> r == Some(DigitsValue(s[SignEnd(s)..]))
  {
    var d := SignEnd(s);
    var k := DigitPrefixLength(s[d..]);
    assert s[d..][..k] == s[d..d + k];
    assert s[d..][..|s| - d] == s[d..];
    if Negated(s) then None else ParseU16AsWritten(s)
  }

  /* ---- Replies ---- */

  /** The `strncpy` of a value into a `size`-byte field plus the terminator written after it. */
  function Padded(value: string, size: nat): (a: string)
    requires |value| < size && IsCString(value)
    ensures |a| == size && IsByteString(a) && CStr(a) == value
  {
    CStrOfPadded(value, size - |value|);
    value + Zeros(size - |value|)
  }

  /** `cmd_get` for a known key: the password is never shown. */
  function GetReply(k: Key, c: Config): (r: string)
    requires WellSized(c)
    ensures k == WifiPassword ==> r == "OK ********\n"
    ensures |r| >= 3 && r[..3] == "OK "
  {
    match k
    case WifiSsid => "OK " + CStr(c.ssid) + "\n"
    case WifiPassword => "OK ********\n"
    case PowerPulseMs => "OK " + Decimal(c.pulseMs) + "\n"
    case BootTimeoutMs => "OK " + Decimal(c.timeoutMs) + "\n"
    case DeviceName => "OK " + CStr(c.name) + "\n"
  }

  const REPLY_OK: string := "OK\n"

  function TooLong(max: nat): string
  {
    "ERR value too long (max " + Decimal(max) + ")\n"
  }

  function OutOfRange(min: nat, max: nat): string
  {
    "ERR out of range (" + Decimal(min) + "-" + Decimal(max) + ")\n"
  }

  /**
   * `cmd_set` for a known key: the reply and the config afterwards. Only an
   * "OK" changes the config; text fields take the value whole, numbers must
   * parse and lie in their range. Numbers go through `parse_u16` as written,
   * so a negated numeral that wraps into the range is accepted.
   */
  function SetValue(k: Key, value: string, c: Config): (o: (string, Config))
    requires WellSized(c) && IsCString(value)
    ensures WellSized(o.1)
    ensures o.0 != REPLY_OK ==> o.1 == c
    ensures k == WifiSsid ==> (o.0 == REPLY_OK <==> |value| <= SSID_MAX)
    ensures k == WifiSsid && o.0 == REPLY_OK ==> o.1 == c.(ssid := o.1.ssid) && CStr(o.1.ssid) == value
    ensures k == WifiPassword ==> (o.0 == REPLY_OK <==> |value| <= PASSWORD_MAX)
    ensures k == WifiPassword && o.0 == REPLY_OK ==> o.1 == c.(password := o.1.password) && CStr(o.1.password) == value
    ensures k == DeviceName ==> (o.0 == REPLY_OK <==> 1 <= |value| <= NAME_MAX)
    ensures k == DeviceName && o.0 == REPLY_OK ==> o.1 == c.(name := o.1.name) && CStr(o.1.name) == value
    ensures k == PowerPulseMs ==> (o.0 == REPLY_OK <==>
      ParseU16AsWritten(value).Some? && POWER_PULSE_MIN <= ParseU16AsWritten(value).value <= POWER_PULSE_MAX)
    ensures k == PowerPulseMs && o.0 == REPLY_OK ==> o.1 == c.(pulseMs := ParseU16AsWritten(value).value)
    ensures k == BootTimeoutMs ==> (o.0 == REPLY_OK <==>
      ParseU16AsWritten(value).Some? && BOOT_TIMEOUT_MIN <= ParseU16AsWritten(value).value <= BOOT_TIMEOUT_MAX)
    ensures k == BootTimeoutMs && o.0 == REPLY_OK ==> o.1 == c.(timeoutMs := ParseU16AsWritten(value).value)
    // Without a minus sign the parser is the intended one: a decimal numeral in range.
    ensures k == PowerPulseMs && !Negated(value) ==> (o.0 == REPLY_OK <==>
      ParseU16(value).Some? && POWER_PULSE_MIN <= ParseU16(value).value <= POWER_PULSE_MAX)
    ensures k == BootTimeoutMs && !Negated(value) ==> (o.0 == REPLY_OK <==>
      ParseU16(value).Some? && BOOT_TIMEOUT_MIN <= ParseU16(value).value <= BOOT_TIMEOUT_MAX)
  {
    match k
    case WifiSsid =>
      if |value| > SSID_MAX then (TooLong(SSID_MAX), c)
      else (REPLY_OK, c.(ssid := Padded(value, SSID_MAX + 1)))
    case WifiPassword =>
      if |value| > PASSWORD_MAX then (TooLong(PASSWORD_MAX), c)
      else (REPLY_OK, c.(password := Padded(value, PASSWORD_MAX + 1)))
    case PowerPulseMs =>
      (match ParseU16AsWritten(value)
       case None => ("ERR invalid number\n", c)
       case Some(v) =>
         if v < POWER_PULSE_MIN || v > POWER_PULSE_MAX then (OutOfRange(POWER_PULSE_MIN, POWER_PULSE_MAX), c)
         else (REPLY_OK, c.(pulseMs := v)))
    case BootTimeoutMs =>
      (match ParseU16AsWritten(value)
       case None => ("ERR invalid number\n", c)
       case Some(v) =>
         if v < BOOT_TIMEOUT_MIN || v > BOOT_TIMEOUT_MAX then (OutOfRange(BOOT_TIMEOUT_MIN, BOOT_TIMEOUT_MAX), c)
         else (REPLY_OK, c.(timeoutMs := v)))
    case DeviceName =>
      if |value| == 0 then ("ERR device name cannot be empty\n", c)
      else if |value| > NAME_MAX then (TooLong(NAME_MAX), c)
      else (REPLY_OK, c.(name := Padded(value, NAME_MAX + 1)))
  }

  /**
   * What the `set` command does with a negated numeral: `set power_pulse_ms
   * -4294967096` replies "OK" and stores 200.
   */
  lemma {:induction false} SetValueAcceptsNegated(n: nat, c: Config)
    requires ULONG_MODULUS - POWER_PULSE_MAX <= n <= ULONG_MODULUS - POWER_PULSE_MIN && WellSized(c)
    ensures IsCString("-" + Decimal(n))
    ensures SetValue(PowerPulseMs, "-" + Decimal(n), c) == (REPLY_OK, c.(pulseMs := ULONG_MODULUS - n))
  {
    var s := "-" + Decimal(n);
    assert forall i :: 0 <= i < |s| ==> s[i] != '\0' by {
      forall i | 0 <= i < |s| ensures s[i] != '\0' {
        if i > 0 {
          assert s[i] == Decimal(n)[i - 1];
        }
      }
    }
    ParseU16AcceptsNegative(n);
  }

  /**
   * `get` after a successful `set` of the same key: text keys show the value
   * set, number keys the number `parse_u16` read from it, and the password
   * stays masked.
   */
  lemma {:induction false} GetAfterSet(k: Key, value: string, c: Config)
    requires WellSized(c) && IsCString(value) && SetValue(k, value, c).0 == REPLY_OK
    ensures k == WifiSsid || k == DeviceName ==> GetReply(k, SetValue(k, value, c).1) == "OK " + value + "\n"
    ensures k == PowerPulseMs || k == BootTimeoutMs ==>
      GetReply(k, SetValue(k, value, c).1) == "OK " + Decimal(ParseU16AsWritten(value).value) + "\n"
    ensures k == WifiPassword ==> GetReply(k, SetValue(k, value, c).1) == "OK ********\n"
  {
    var c2 := SetValue(k, value, c).1;
    match k
    case WifiSsid => assert CStr(c2.ssid) == value;
    case DeviceName => assert CStr(c2.name) == value;
    case PowerPulseMs => assert c2.pulseMs == ParseU16AsWritten(value).value;
    case BootTimeoutMs => assert c2.timeoutMs == ParseU16AsWritten(value).value;
    case WifiPassword =>
  }

  /** A number written in decimal is accepted as itself when in range, and `get` then shows it exactly as it was written. */
  lemma {:induction false} GetAfterSetDecimal(k: Key, n: nat, c: Config)
    requires WellSized(c) && (k == PowerPulseMs || k == BootTimeoutMs)
    requires k == PowerPulseMs ==> POWER_PULSE_MIN <= n <= POWER_PULSE_MAX
    requires k == BootTimeoutMs ==> BOOT_TIMEOUT_MIN <= n <= BOOT_TIMEOUT_MAX
    ensures IsCString(Decimal(n)) && SetValue(k, Decimal(n), c).0 == REPLY_OK
    ensures GetReply(k, SetValue(k, Decimal(n), c).1) == "OK " + Decimal(n) + "\n"
  {
    var d := Decimal(n);
    assert IsCString(d) by {
      assert forall i :: 0 <= i < |d| ==> IsDigit(d[i]);
    }
    assert SpacePrefixLength(d) == 0 && SignEnd(d) == 0 && !Negated(d) by {
      assert IsDigit(d[0]);
    }
    assert d[SignEnd(d)..] == d;
    assert ParseU16(d) == Some(n);
    GetAfterSet(k, d, c);
  }

  /** What `get` shows for the defaults: an empty SSID, the masked password, 200, 30000 and "PadProxy". */
  lemma {:induction false} GetDefaults()
    ensures GetReply(WifiSsid, Init()) == "OK \n"
    ensures GetReply(WifiPassword, Init()) == "OK ********\n"
    ensures GetReply(PowerPulseMs, Init()) == "OK 200\n"
    ensures GetReply(BootTimeoutMs, Init()) == "OK 30000\n"
    ensures GetReply(DeviceName, Init()) == "OK PadProxy\n"
  {
    DefaultTimingDigits();
    OkLines();
    var c := Init();
    assert GetReply(PowerPulseMs, c) == "OK " + "200" + "\n";
    assert GetReply(BootTimeoutMs, c) == "OK " + "30000" + "\n";
    assert GetReply(DeviceName, c) == "OK " + "PadProxy" + "\n";
  }

  /** The reply lines of the defaults, spelled out. */
  lemma OkLines()
    ensures "OK " + "" + "\n" == "OK \n" && "OK " + "200" + "\n" == "OK 200\n"
    ensures "OK " + "30000" + "\n" == "OK 30000\n" && "OK " + "PadProxy" + "\n" == "OK PadProxy\n"
  {
  }

  /** The `%u` digits of the two default timings. */
  lemma DefaultTimingDigits()
    ensures Decimal(200) == "200" && Decimal(30000) == "30000"
  {
    assert Decimal(2) == "2" && Decimal(20) == "20";
    assert Decimal(3) == "3" && Decimal(30) == "30" && Decimal(300) == "300" && Decimal(3000) == "3000";
  }

  /** The five lines `cmd_list` prints, the password masked. */
  function ListLines(c: Config): (lines: seq<string>)
    requires WellSized(c)
    ensures |lines| == 5 && lines[1] == "OK wifi_password=********\n"
  {
    ["OK wifi_ssid=" + CStr(c.ssid) + "\n",
     "OK wifi_password=********\n",
     "OK power_pulse_ms=" + Decimal(c.pulseMs) + "\n",
     "OK boot_timeout_ms=" + Decimal(c.timeoutMs) + "\n",
     "OK device_name=" + CStr(c.name) + "\n"]
  }

  /** The whole `list` reply: the five lines one after the other. */
  function ListReply(c: Config): string
    requires WellSized(c)
  {
    var l := ListLines(c);
    l[0] + l[1] + l[2] + l[3] + l[4]
  }

  /** What `setup_cmd_process` does with a line: the reply (none for a blank line), the action and the config. */
  datatype Outcome = Outcome(reply: Option<string>, action: Action, cfg: Config)

  const USAGE_GET: string := "ERR usage: get <key>\n"
  const USAGE_SET: string := "ERR usage: set <key> <value>\n"

  /** The `get` branch. */
  function GetCommand(arg: Option<string>, c: Config): string
    requires WellSized(c)
  {
    if arg.None? || arg.value == "" then USAGE_GET
    else match KeyNamed(arg.value)
      case None => "ERR unknown key: " + arg.value + "\n"
      case Some(k) => GetReply(k, c)
  }

  /** The `set` branch: the argument split again at its first space into key and value. */
  function SetCommand(arg: Option<string>, c: Config): (o: (string, Config))
    requires WellSized(c) && (arg.Some? ==> IsCString(arg.value))
    ensures WellSized(o.1)
    ensures o.0 != REPLY_OK ==> o.1 == c
  {
    if arg.None? || arg.value == "" then (USAGE_SET, c)
    else
      var w := Words(arg.value);
      if w.1.None? then (USAGE_SET, c)
      else match KeyNamed(w.0)
        case None => ("ERR unknown key: " + w.0 + "\n", c)
        case Some(k) => SetValue(k, w.1.value, c)
  }

  /** The eight command words `setup_cmd_process` dispatches on. */
  datatype Command = Get | Set | List | Save | Defaults | Version | Status | Reboot

  function CommandName(cmd: Command): string
  {
    match cmd
    case Get => "get"
    case Set => "set"
    case List => "list"
    case Save => "save"
    case Defaults => "defaults"
    case Version => "version"
    case Status => "status"
    case Reboot => "reboot"
  }

  /** The command spelled `word`, if any. */
  function CommandNamed(word: string): (r: Option<Command>)
    ensures r.Some? ==> CommandName(r.value) == word
    ensures r.None? ==> forall cmd: Command :: CommandName(cmd) != word
  {
    if word == "get" then Some(Get)
    else if word == "set" then Some(Set)
    else if word == "list" then Some(List)
    else if word == "save" then Some(Save)
    else if word == "defaults" then Some(Defaults)
    else if word == "version" then Some(Version)
    else if word == "status" then Some(Status)
    else if word == "reboot" then Some(Reboot)
    else None
  }

  /**
   * The dispatch on the command word and the argument of a non-blank
   * trimmed line: only `save` and `reboot` ask for an action, only `set`
   * and `defaults` touch the config, and `set` only with the reply "OK".
   */
  function Execute(cmd: string, arg: Option<string>, c: Config, version: string, status: string): (o: Outcome)
    requires WellSized(c) && (arg.Some? ==> IsCString(arg.value))
    ensures o.reply.Some? && WellSized(o.cfg)
    ensures o.action == ActionSave <==> CommandNamed(cmd) == Some(Save)
    ensures o.action == ActionReboot <==> CommandNamed(cmd) == Some(Reboot)
    ensures o.cfg != c ==> (o.reply == Some(REPLY_OK)
      && (CommandNamed(cmd) == Some(Set) || CommandNamed(cmd) == Some(Defaults)))
  {
    match CommandNamed(cmd)
    case Some(Get) => Outcome(Some(GetCommand(arg, c)), ActionNone, c)
    case Some(Set) =>
      var s := SetCommand(arg, c);
      Outcome(Some(s.0), ActionNone, s.1)
    case Some(List) => Outcome(Some(ListReply(c)), ActionNone, c)
    case Some(Save) => Outcome(Some(REPLY_OK), ActionSave, c)
    case Some(Defaults) => Outcome(Some(REPLY_OK), ActionNone, Init())
    case Some(Version) => Outcome(Some("OK " + version + "\n"), ActionNone, c)
    case Some(Status) => Outcome(Some("OK " + status + "\n"), ActionNone, c)
    case Some(Reboot) => Outcome(Some(REPLY_OK), ActionReboot, c)
    case None => Outcome(Some("ERR unknown command: " + cmd + "\n"), ActionNone, c)
  }

  /**
   * `setup_cmd_process` on a present line and config: a blank line gets no
   * reply and changes nothing; only the command words `save` and `reboot`
   * ask for an action; the config changes only under `set` and `defaults`,
   * and only with the reply "OK", so every error leaves it as it was.
   */
  function Respond(line: string, c: Config, version: string, status: string): (o: Outcome)
    requires WellSized(c) && IsCString(line)
    ensures WellSized(o.cfg)
    ensures o.reply.None? <==> TrimmedLine(line) == ""
    ensures o.reply.None? ==> o.action == ActionNone && o.cfg == c
    ensures o.action == ActionSave <==> TrimmedLine(line) != "" && CommandNamed(Words(TrimmedLine(line)).0) == Some(Save)
    ensures o.action == ActionReboot <==> TrimmedLine(line) != "" && CommandNamed(Words(TrimmedLine(line)).0) == Some(Reboot)
    ensures o.cfg != c ==> (o.reply == Some(REPLY_OK) && TrimmedLine(line) != ""
      && CommandNamed(Words(TrimmedLine(line)).0) in {Some(Set), Some(Defaults)})
  {
    var t := TrimmedLine(line);
    if t == "" then Outcome(None, ActionNone, c)
    else
      var w := Words(t);
      Execute(w.0, w.1, c, version, status)
  }

  /* ---- Properties of the console ---- */

  predicate AllSpace(s: string)
  {
    forall i :: 0 <= i < |s| ==> IsSpace(s[i])
  }

  lemma {:induction false} AllSpaceConcat(a: string, b: string)
    requires AllSpace(a) && AllSpace(b)
    ensures AllSpace(a + b)
  {
    assert forall i :: |a| <= i < |a + b| ==> (a + b)[i] == b[i - |a|];
  }

  /** Skipping the white space in front of a string that starts with none. */
  lemma {:induction false} SkipSpacesOfPadded(ws: string, r: string)
    requires AllSpace(ws) && (r == "" || !IsSpace(r[0]))
    ensures SkipSpaces(ws + r) == r
  {
    var l := ws + r;
    assert forall i :: 0 <= i < |ws| ==> l[i] == ws[i];
    if r != "" {
      assert l[|ws|] == r[0];
    }
    assert l[|ws|..] == r;
  }

  /** Cutting the white space off the end of a string that ends in none. */
  lemma {:induction false} TrimEndOfPadded(r: string, ws: string)
    requires AllSpace(ws) && (r == "" || !IsSpace(r[|r| - 1]))
    ensures WithoutTrailingSpace(r + ws) == r
  {
    var l := r + ws;
    assert forall i :: |r| <= i < |l| ==> l[i] == ws[i - |r|];
    if r != "" {
      assert l[|r| - 1] == r[|r| - 1];
    }
    assert l[..|r|] == r;
  }

  /**
   * Copying a core that fits the buffer, followed by any white space, then
   * cutting the white space off the end gives the core back, whether or not
   * the copy was cut at 255 characters.
   */
  lemma {:induction false} TrimCopyOfPadded(core: string, ws: string)
    requires AllSpace(ws) && |core| < LINE_BUF_SIZE
    requires core == "" || !IsSpace(core[|core| - 1])
    ensures WithoutTrailingSpace(LineCopy(core + ws)) == core
  {
    var copied := LineCopy(core + ws);
    assert |copied| >= |core|;
    var kept := ws[..|copied| - |core|];
    assert copied == core + kept;
    assert AllSpace(kept) by {
      assert forall i :: 0 <= i < |kept| ==> kept[i] == ws[i];
    }
    TrimEndOfPadded(core, kept);
  }

  /** A line that is white space, a core with no white space at either end, and white space, trims to that core. */
  lemma {:induction false} TrimmedOfPadded(ws1: string, core: string, ws2: string)
    requires AllSpace(ws1) && AllSpace(ws2)
    requires core == "" || (!IsSpace(core[0]) && !IsSpace(core[|core| - 1]))
    requires |core| < LINE_BUF_SIZE
    ensures TrimmedLine(ws1 + core + ws2) == core
  {
    if core == "" {
      assert ws1 + core + ws2 == (ws1 + ws2) + "";
      AllSpaceConcat(ws1, ws2);
      SkipSpacesOfPadded(ws1 + ws2, "");
    } else {
      assert ws1 + core + ws2 == ws1 + (core + ws2);
      SkipSpacesOfPadded(ws1, core + ws2);
      TrimCopyOfPadded(core, ws2);
    }
  }

  /** The leading white space of a text is all white space. */
  lemma LeadingAllSpace(s: string)
    ensures AllSpace(s[..SpacePrefixLength(s)])
  {
    var a := SpacePrefixLength(s);
    assert forall i :: 0 <= i < a ==> s[..a][i] == s[i];
  }

  /** The trailing white space of a text is all white space. */
  lemma TrailingAllSpace(s: string)
    ensures AllSpace(s[|s| - SpaceSuffixLength(s)..])
  {
    var k := |s| - SpaceSuffixLength(s);
    assert forall i :: 0 <= i < |s| - k ==> s[k..][i] == s[k + i];
  }

  /**
   * White space, CR and LF included, around any line changes nothing: the
   * trimmed line, and so the reply, the action and the config, stay the
   * same, also when the line is too long for the buffer and is cut.
   */
  lemma {:induction false} TrimIsInvariant(ws1: string, line: string, ws2: string)
    requires AllSpace(ws1) && AllSpace(ws2)
    ensures TrimmedLine(ws1 + line + ws2) == TrimmedLine(line)
  {
    SkipSpacesAround(ws1, line, ws2);
    TrimCopyAppend(SkipSpaces(line), ws2);
  }

  /** Skipping the white space of a line with white space around it: the skipped line, then the white space after it. */
  lemma {:induction false} SkipSpacesAround(ws1: string, line: string, ws2: string)
    requires AllSpace(ws1) && AllSpace(ws2)
    ensures SkipSpaces(line) != "" ==> SkipSpaces(ws1 + line + ws2) == SkipSpaces(line) + ws2
    ensures SkipSpaces(line) == "" ==> SkipSpaces(ws1 + line + ws2) == ""
  {
    var a := SpacePrefixLength(line);
    var r, pre := line[a..], line[..a];
    LeadingAllSpace(line);
    assert line == pre + r;
    AllSpaceConcat(ws1, pre);
    if r == "" {
      AllSpaceConcat(ws1 + pre, ws2);
      assert ws1 + line + ws2 == (ws1 + pre + ws2) + "";
      SkipSpacesOfPadded(ws1 + pre + ws2, "");
    } else {
      assert ws1 + line + ws2 == (ws1 + pre) + (r + ws2);
      SkipSpacesOfPadded(ws1 + pre, r + ws2);
    }
  }

  /** White space after the text does not change the copied and end-trimmed text. */
  lemma {:induction false} TrimCopyAppend(r: string, ws: string)
    requires AllSpace(ws)
    ensures WithoutTrailingSpace(LineCopy(r + ws)) == WithoutTrailingSpace(LineCopy(r))
  {
    if |r| >= LINE_BUF_SIZE {
      assert (r + ws)[..LINE_BUF_SIZE - 1] == r[..LINE_BUF_SIZE - 1];
    } else {
      var core := WithoutTrailingSpace(r);
      var sp := r[|core|..];
      TrailingAllSpace(r);
      assert r == core + sp;
      AllSpaceConcat(sp, ws);
      assert r + ws == core + (sp + ws);
      TrimCopyOfPadded(core, sp);
      TrimCopyOfPadded(core, sp + ws);
    }
  }

  /** `defaults` puts back the config `device_config_init` gives, which validates. */
  lemma {:induction false} DefaultsRestoreInit(line: string, c: Config, version: string, status: string)
    requires WellSized(c) && IsCString(line)
    requires TrimmedLine(line) != "" && CommandNamed(Words(TrimmedLine(line)).0) == Some(Defaults)
    ensures Respond(line, c, version, status).cfg == Init()
    ensures Validate(Some(Respond(line, c, version, status).cfg))
  {
    var w := Words(TrimmedLine(line));
    ExecuteDefaults(w.0, w.1, c, version, status);
    InitIsValid();
  }

  /**
   * The password never reaches a reply: two configs that differ only in the
   * password get the same reply to every line.
   */
  lemma {:induction false} PasswordNeverEchoed(line: string, c1: Config, c2: Config, version: string, status: string)
    requires WellSized(c1) && WellSized(c2) && IsCString(line)
    requires c1.(password := c2.password) == c2
    ensures Respond(line, c1, version, status).reply == Respond(line, c2, version, status).reply
  {
    var t := TrimmedLine(line);
    if t != "" {
      var w := Words(t);
      ExecuteIgnoresPassword(w.0, w.1, c1, c2, version, status);
    }
  }

  /** The dispatch's reply does not depend on the password. */
  lemma {:induction false} ExecuteIgnoresPassword(cmd: string, arg: Option<string>, c1: Config, c2: Config,
                                                  version: string, status: string)
    requires WellSized(c1) && WellSized(c2) && (arg.Some? ==> IsCString(arg.value))
    requires c1.(password := c2.password) == c2
    ensures Execute(cmd, arg, c1, version, status).reply == Execute(cmd, arg, c2, version, status).reply
  {
    match CommandNamed(cmd)
    case Some(Get) =>
      if arg.Some? && arg.value != "" && KeyNamed(arg.value).Some? {
        assert GetReply(KeyNamed(arg.value).value, c1) == GetReply(KeyNamed(arg.value).value, c2);
      }
    case Some(Set) =>
      if arg.Some? && arg.value != "" {
        var kv := Words(arg.value);
        if kv.1.Some? && KeyNamed(kv.0).Some? {
          SetReplyIgnoresConfig(KeyNamed(kv.0).value, kv.1.value, c1, c2);
        }
      }
    case Some(List) =>
      assert ListLines(c1) == ListLines(c2);
    case _ =>
  }

  /** The reply of `cmd_set` depends on the key and the value only. */
  lemma {:induction false} SetReplyIgnoresConfig(k: Key, value: string, c1: Config, c2: Config)
    requires WellSized(c1) && WellSized(c2) && IsCString(value)
    ensures SetValue(k, value, c1).0 == SetValue(k, value, c2).0
  {
  }

  /* ---- The console as the C module runs it ---- */

  /**
   * The module state of `setup_cmd.c`: the version and status strings the
   * `version` and `status` commands print.
   */
  class SetupConsole {
    var version: string
    var status: string

    predicate Valid()
      reads this
    {
      IsCString(version) && IsCString(status)
    }

    /** The initial values of `s_version` and `s_status`. */
    constructor ()
      ensures Valid() && version == "0.0.0" && status == ""
    {
      version := "0.0.0";
      status := "";
    }

    /** `setup_cmd_set_version`: a null string restores "0.0.0". */
    method SetVersion(v: Option<string>)
      requires v.Some? ==> IsCString(v.value)
      requires Valid()
      modifies this
      ensures Valid()
      ensures version == (if v.Some? then v.value else "0.0.0") && status == old(status)
    {
      version := if v.Some? then v.value else "0.0.0";
    }

    /** `setup_cmd_set_status`: a null string restores the empty status. */
    method SetStatus(s: Option<string>)
      requires s.Some? ==> IsCString(s.value)
      requires Valid()
      modifies this
      ensures Valid()
      ensures status == (if s.Some? then s.value else "") && version == old(version)
    {
      status := if s.Some? then s.value else "";
    }

    /**
     * `setup_cmd_process`: with a line, a config, a buffer and a non-zero
     * size, the reply `Respond` gives is printed into the buffer (cut to
     * fit, NUL-terminated), its length returned, and the config and the
     * action are the ones `Respond` gives; a blank line prints nothing.
     * A missing argument does nothing at all.
     */
    method Process(line: Option<string>, cfg: Option<Config>, outBuf: array?<char>, outSize: nat)
      returns (result: CmdResult, cfgOut: Option<Config>)
      requires Valid()
      requires line.Some? ==> IsCString(line.value)
      requires cfg.Some? ==> WellSized(cfg.value)
      requires outBuf != null ==> outSize <= outBuf.Length
      modifies outBuf
      ensures line.None? || cfg.None? || outBuf == null || outSize == 0 ==>
        result == CmdResult(ActionNone, 0) && cfgOut == cfg && (outBuf != null ==> unchanged(outBuf))
      ensures line.Some? && cfg.Some? && outBuf != null && outSize > 0 ==>
        var o := Respond(line.value, cfg.value, version, status);
        && cfgOut == Some(o.cfg) && result.action == o.action
        && (o.reply.None? ==> result.outLen == 0 && unchanged(outBuf))
        && (o.reply.Some? ==> Printed(outBuf, outSize, result.outLen, o.reply.value, old(outBuf[..])))
    {
      if line.None? || cfg.None? || outBuf == null || outSize == 0 {
        return CmdResult(ActionNone, 0), cfg;
      }
      var buf, len := ReadLine(line.value);
      if len == 0 {
        return CmdResult(ActionNone, 0), cfg;
      }
      var t := buf[..len];
      var c;
      result, c := Dispatch(t, cfg.value, outBuf, outSize);
      cfgOut := Some(c);
    }

    /** The dispatch on a non-blank trimmed line, printing the reply into `outBuf`. */
    method Dispatch(t: string, c: Config, outBuf: array<char>, outSize: nat) returns (result: CmdResult, c2: Config)
      requires Valid() && IsCString(t) && WellSized(c)
      requires 1 <= outSize <= outBuf.Length
      modifies outBuf
      ensures var o := Execute(Words(t).0, Words(t).1, c, version, status);
        && c2 == o.cfg && result.action == o.action
        && Printed(outBuf, outSize, result.outLen, o.reply.value, old(outBuf[..]))
    {
      var cmd, arg := SplitWords(t);
      if cmd == "list" {
        var n := CmdList(c, outBuf, outSize);
        return CmdResult(ActionNone, n), c;
      }
      var reply, action;
      reply, action, c2 := Answer(cmd, arg, c);
      var n := PrintInto(outBuf, 0, outSize, reply);
      result := CmdResult(action, n);
    }

    /** The `strcmp` chain of `setup_cmd_process` for every command but `list`: the reply, the action and the config. */
    method Answer(cmd: string, arg: Option<string>, c: Config) returns (reply: string, action: Action, c2: Config)
      requires WellSized(c) && (arg.Some? ==> IsCString(arg.value)) && cmd != "list"
      ensures Outcome(Some(reply), action, c2) == Execute(cmd, arg, c, version, status)
    {
      action := ActionNone;
      c2 := c;
      ghost var named := CommandNamed(cmd);
      if cmd == "get" {
        assert named == Some(Get);
        reply := CmdGet(arg, c);
      } else if cmd == "set" {
        assert named == Some(Set);
        reply, c2 := CmdSet(arg, c);
      } else if cmd == "save" {
        reply := REPLY_OK;
        action := ActionSave;
      } else if cmd == "defaults" {
        assert CommandNamed(cmd) == Some(Defaults);
        ExecuteDefaults(cmd, arg, c, version, status);
        c2 := Init();
        reply := REPLY_OK;
      } else if cmd == "version" {
        reply := "OK " + version + "\n";
      } else if cmd == "status" {
        reply := "OK " + status + "\n";
      } else if cmd == "reboot" {
        reply := REPLY_OK;
        action := ActionReboot;
      } else {
        assert named == None;
        reply := "ERR unknown command: " + cmd + "\n";
      }
    }
  }

  lemma ExecuteDefaults(cmd: string, arg: Option<string>, c: Config, version: string, status: string)
    requires WellSized(c) && (arg.Some? ==> IsCString(arg.value)) && CommandNamed(cmd) == Some(Defaults)
    ensures Execute(cmd, arg, c, version, status).reply == Some(REPLY_OK)
    ensures Execute(cmd, arg, c, version, status).action == ActionNone
    ensures Execute(cmd, arg, c, version, status).cfg == Init()
  {
  }

  /**
   * What `out_printf` into `buf` of size `size` leaves, given the array's
   * contents `before`: the kept text, a NUL after it, the rest untouched.
   */
  ghost predicate Printed(buf: array<char>, size: nat, n: nat, text: string, before: seq<char>)
    reads buf
    requires 1 <= size <= buf.Length == |before|
  {
    && n == |Truncated(text, size)|
    && buf[..n] == Truncated(text, size) && buf[n] == '\0'
    && buf[n + 1..] == before[n + 1..]
  }

  /**
   * The start of `setup_cmd_process`: skip the leading white space, copy at
   * most 255 characters into a fresh 256-byte buffer and cut the trailing
   * white space off with NULs.
   */
  method ReadLine(line: string) returns (buf: array<char>, len: nat)
    ensures fresh(buf) && buf.Length == LINE_BUF_SIZE
    ensures len < LINE_BUF_SIZE && buf[..len] == TrimmedLine(line) && buf[len] == '\0'
  {
    var p := SkipWs(line, 0);
    assert line[0..] == line;
    ghost var copied := TrimmedCopy(line);
    len := |line| - p;
    if len >= LINE_BUF_SIZE {
      len := LINE_BUF_SIZE - 1;
    }
    assert copied == line[p..p + len];
    buf := CopyLine(line, p, len);
    len := TrimEnd(buf, len, copied);
  }

  /** `memcpy` of `len` characters from `from` into a fresh line buffer, and the NUL after them. */
  method CopyLine(line: string, from: nat, len: nat) returns (buf: array<char>)
    requires from + len <= |line| && len < LINE_BUF_SIZE
    ensures fresh(buf) && buf.Length == LINE_BUF_SIZE
    ensures buf[..len] == line[from..from + len] && buf[len] == '\0'
  {
    buf := new char[LINE_BUF_SIZE];
    for i := 0 to len
      invariant buf[..i] == line[from..from + i]
    {
      buf[i] := line[from + i];
    }
    buf[len] := '\0';
  }

  /** The loop that overwrites trailing white space with NULs, from the end of the copied text. */
  method TrimEnd(buf: array<char>, len0: nat, ghost copied: string) returns (len: nat)
    requires len0 < buf.Length && |copied| == len0 && buf[..len0] == copied && buf[len0] == '\0'
    modifies buf
    ensures len == |copied| - SpaceSuffixLength(copied)
    ensures buf[..len] == copied[..len] && buf[len] == '\0'
  {
    len := len0;
    while len > 0 && IsSpace(buf[len - 1])
      invariant len <= len0 && buf[..len] == copied[..len] && buf[len] == '\0'
      invariant forall j :: len <= j < len0 ==> IsSpace(copied[j])
    {
      assert buf[len - 1] == copied[len - 1];
      len := len - 1;
      buf[len] := '\0';
    }
    if len > 0 {
      assert buf[len - 1] == copied[len - 1];
    }
    TrimEndExact(copied, len);
  }

  /** The part of the line the C code copies into its buffer: at most 255 characters after the leading white space. */
  function TrimmedCopy(line: string): (r: string)
    ensures |r| < LINE_BUF_SIZE
    ensures TrimmedLine(line) == r[..|r| - SpaceSuffixLength(r)]
  {
    LineCopy(SkipSpaces(line))
  }

  /** Cutting white space off the end stops exactly where `SpaceSuffixLength` says. */
  lemma {:induction false} TrimEndExact(s: string, k: nat)
    requires k <= |s| && (forall j :: k <= j < |s| ==> IsSpace(s[j]))
    requires k == 0 || !IsSpace(s[k - 1])
    ensures k == |s| - SpaceSuffixLength(s)
  {
    var m := SpaceSuffixLength(s);
  }

  /** `strchr(buf, ' ')` and the skip of the white space after it: the command word and the argument. */
  method SplitWords(t: string) returns (cmd: string, arg: Option<string>)
    ensures (cmd, arg) == Words(t)
  {
    var space := FindChar(t, ' ');
    if space.None? {
      return t, None;
    }
    cmd := t[..space.value];
    var a := SkipWs(t, space.value + 1);
    assert t[a..] == t[space.value + 1..][a - space.value - 1..];
    arg := Some(t[a..]);
  }

  /** The `get` branch with `find_key` and `cmd_get`. */
  method CmdGet(arg: Option<string>, c: Config) returns (reply: string)
    requires WellSized(c)
    ensures reply == GetCommand(arg, c)
  {
    if arg.None? || arg.value == "" {
      return USAGE_GET;
    }
    var key := FindKey(arg.value);
    if key.None? {
      return "ERR unknown key: " + arg.value + "\n";
    }
    reply := GetReply(key.value, c);
  }

  /** The `set` branch: key and value split at the argument's first space, then `find_key` and `cmd_set`. */
  method CmdSet(arg: Option<string>, c: Config) returns (reply: string, c2: Config)
    requires WellSized(c) && (arg.Some? ==> IsCString(arg.value))
    ensures (reply, c2) == SetCommand(arg, c)
  {
    if arg.None? || arg.value == "" {
      return USAGE_SET, c;
    }
    var key, value := SplitWords(arg.value);
    if value.None? {
      return USAGE_SET, c;
    }
    var k := FindKey(key);
    if k.None? {
      return "ERR unknown key: " + key + "\n", c;
    }
    reply, c2 := SetValue(k.value, value.value, c).0, SetValue(k.value, value.value, c).1;
  }

  /**
   * One `out_printf` at `out + total` with `size - total` bytes left, after
   * earlier prints kept `Truncated(done, size)`: what is kept is the prefix
   * of `done + text`. `orig` is the buffer before the first print.
   */
  method PrintMore(buf: array<char>, size: nat, total: nat, ghost done: string, text: string, ghost orig: seq<char>)
    returns (total2: nat)
    requires 1 <= size <= buf.Length == |orig|
    requires total == |Truncated(done, size)| && buf[..total] == Truncated(done, size)
    requires buf[total + 1..] == orig[total + 1..]
    modifies buf
    ensures total2 == |Truncated(done + text, size)| && buf[..total2] == Truncated(done + text, size)
    ensures buf[total2] == '\0' && buf[total2 + 1..] == orig[total2 + 1..]
  {
    var n := PrintInto(buf, total, size - total, text);
    total2 := total + n;
    TruncatedAppend(done, text, size);
    assert buf[..total2] == buf[..total] + buf[total..total2];
  }

  /** `cmd_list`: five prints, each into the room the previous ones left. */
  method CmdList(c: Config, buf: array<char>, size: nat) returns (total: nat)
    requires WellSized(c) && 1 <= size <= buf.Length
    modifies buf
    ensures Printed(buf, size, total, ListReply(c), old(buf[..]))
  {
    ghost var orig := buf[..];
    var l := ListLines(c);
    total := PrintMore(buf, size, 0, "", l[0], orig);
    assert "" + l[0] == l[0];
    total := PrintMore(buf, size, total, l[0], l[1], orig);
    total := PrintMore(buf, size, total, l[0] + l[1], l[2], orig);
    total := PrintMore(buf, size, total, l[0] + l[1] + l[2], l[3], orig);
    total := PrintMore(buf, size, total, l[0] + l[1] + l[2] + l[3], l[4], orig);
  }
}
