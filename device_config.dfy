/**
 * The persistent settings (firmware/src/device_config.c): the defaults, the
 * validator, and the fixed 144-byte flash image
 *
 *   [0..3]     magic 0x50434647 ("PCFG"), little-endian
 *   [4..5]     format version 1, little-endian
 *   [6..38]    wifi_ssid, 33 bytes
 *   [39..102]  wifi_password, 64 bytes
 *   [103..104] power_pulse_ms, little-endian
 *   [105..106] boot_timeout_ms, little-endian
 *   [107..139] device_name, 33 bytes
 *   [140..143] CRC-32 of bytes 0..139, little-endian
 *
 * The CRC is the reflected CRC-32 with polynomial 0xEDB88320, initial value
 * and final complement 0xFFFFFFFF, as in section 8 of RFC 1952 (ISO 3309).
 */
module DeviceConfig {
  import opened CTypes
  import opened CStrings

  const SSID_MAX: nat := 32
  const PASSWORD_MAX: nat := 63
  const NAME_MAX: nat := 32

  const DEFAULT_POWER_PULSE_MS: u16 := 200
  const DEFAULT_BOOT_TIMEOUT_MS: u16 := 30000
  const DEFAULT_DEVICE_NAME: string := "PadProxy"

  const POWER_PULSE_MIN: nat := 50
  const POWER_PULSE_MAX: nat := 2000
  const BOOT_TIMEOUT_MIN: nat := 5000
  const BOOT_TIMEOUT_MAX: nat := 60000

  const CONFIG_MAGIC: u32 := 0x5043_4647
  const CONFIG_VERSION: u16 := 1

  const HEADER_SIZE: nat := 6
  const PAYLOAD_SIZE: nat := (SSID_MAX + 1) + (PASSWORD_MAX + 1) + 2 + 2 + (NAME_MAX + 1)
  const CRC_SIZE: nat := 4
  const TOTAL_SIZE: nat := HEADER_SIZE + PAYLOAD_SIZE + CRC_SIZE

  /** Offsets of the fields in the image. */
  const SSID_AT: nat := HEADER_SIZE
  const PASSWORD_AT: nat := SSID_AT + SSID_MAX + 1
  const PULSE_AT: nat := PASSWORD_AT + PASSWORD_MAX + 1
  const TIMEOUT_AT: nat := PULSE_AT + 2
  const NAME_AT: nat := TIMEOUT_AT + 2
  const CRC_AT: nat := NAME_AT + NAME_MAX + 1

  /**
   * `device_config_t`. The three text fields are the whole fixed-size
   * `char` arrays, NUL padding included.
   */
  datatype Config = Config(
    ssid: string,
    password: string,
    pulseMs: u16,
    timeoutMs: u16,
    name: string)

  /** The array sizes the C struct fixes. */
  predicate WellSized(c: Config)
  {
    |c.ssid| == SSID_MAX + 1 && |c.password| == PASSWORD_MAX + 1 && |c.name| == NAME_MAX + 1
    && IsByteString(c.ssid) && IsByteString(c.password) && IsByteString(c.name)
  }

  /** `device_config_init`: everything zero except the two timings and the name. */
  function Init(): (c: Config)
    ensures WellSized(c)
    ensures CStr(c.ssid) == "" && CStr(c.password) == "" && CStr(c.name) == DEFAULT_DEVICE_NAME
    ensures c.pulseMs == DEFAULT_POWER_PULSE_MS && c.timeoutMs == DEFAULT_BOOT_TIMEOUT_MS
  {
    var name := DEFAULT_DEVICE_NAME + Zeros(NAME_MAX + 1 - |DEFAULT_DEVICE_NAME|);
    CStrOfPadded(DEFAULT_DEVICE_NAME, NAME_MAX + 1 - |DEFAULT_DEVICE_NAME|);
    Config(Zeros(SSID_MAX + 1), Zeros(PASSWORD_MAX + 1), DEFAULT_POWER_PULSE_MS, DEFAULT_BOOT_TIMEOUT_MS, name)
  }

  /** `device_config_validate` on a present config. */
  predicate Valid(c: Config)
    requires WellSized(c)
  {
    POWER_PULSE_MIN <= c.pulseMs <= POWER_PULSE_MAX
    && BOOT_TIMEOUT_MIN <= c.timeoutMs <= BOOT_TIMEOUT_MAX
    && c.name[0] != '\0'
    && c.ssid[SSID_MAX] == '\0'
    && c.password[PASSWORD_MAX] == '\0'
    && c.name[NAME_MAX] == '\0'
  }

  /** `device_config_validate`, where a NULL config is invalid. */
  predicate Validate(cfg: Option<Config>)
    requires cfg.Some? ==> WellSized(cfg.value)
  {
    cfg.Some? && Valid(cfg.value)
  }

  /** The defaults pass the validator. */
  lemma {:induction false} InitIsValid()
    ensures Validate(Some(Init()))
  {
    var c := Init();
    assert c.name[0] == DEFAULT_DEVICE_NAME[0];
  }

  /* ---- Little-endian integers ---- */

  /** `put_u16`. */
  function LeU16(v: u16): (b: seq<u8>)
    ensures |b| == 2
  {
    [v % 0x100, v / 0x100]
  }

  /** `put_u32`. */
  function LeU32(v: u32): (b: seq<u8>)
    ensures |b| == 4
  {
    [v % 0x100, (v / 0x100) % 0x100, (v / 0x1_0000) % 0x100, v / 0x100_0000]
  }

  /** `get_u16` at offset `at`: the bytes' bit ranges are disjoint, so `|` is a sum. */
  function GetU16(b: seq<u8>, at: nat): u16
    requires at + 2 <= |b|
  {
    b[at] as int + 0x100 * b[at + 1] as int
  }

  /** `get_u32` at offset `at`. */
  function GetU32(b: seq<u8>, at: nat): u32
    requires at + 4 <= |b|
  {
    b[at] as int + 0x100 * b[at + 1] as int + 0x1_0000 * b[at + 2] as int + 0x100_0000 * b[at + 3] as int
  }

  /* ---- CRC-32 ---- */

  const CRC_POLY: bv32 := 0xEDB8_8320

  /** One shift of the register: `(crc >> 1) ^ (POLY & -(crc & 1))`. */
  function CrcBit(c: bv32): bv32
  {
    (c >> 1) ^ (CRC_POLY & (0 - (c & 1)))
  }

  /** `n` shifts of the register. */
  function CrcShifts(c: bv32, n: nat): bv32
  {
    if n == 0 then c else CrcBit(CrcShifts(c, n - 1))
  }

  const BITS_PER_BYTE: nat := 8

  /** The register after taking in one byte. */
  function CrcByte(c: bv32, b: u8): bv32
  {
    CrcShifts(c ^ (b as bv32), BITS_PER_BYTE)
  }

  /** The register after taking in `data`, first byte first. */
  function CrcRegister(c: bv32, data: seq<u8>): bv32
  {
    if |data| == 0 then c else CrcByte(CrcRegister(c, data[..|data| - 1]), data[|data| - 1])
  }

  /** `crc32_update`: the register is complemented on the way in and on the way out. */
  function Crc32(crc: bv32, data: seq<u8>): bv32
  {
    !CrcRegister(!crc, data)
  }

  /** The register taking in `a + b` is the register taking in `a`, then `b`. */
  lemma {:induction false} CrcRegisterAppend(c: bv32, a: seq<u8>, b: seq<u8>)
    ensures CrcRegister(c, a + b) == CrcRegister(CrcRegister(c, a), b)
    decreases |b|
  {
    if |b| > 0 {
      assert (a + b)[..|a + b| - 1] == a + b[..|b| - 1];
      CrcRegisterAppend(c, a, b[..|b| - 1]);
    } else {
      assert a + b == a;
    }
  }

  /** Complementing twice gives back the register. */
  lemma ComplementTwice(x: bv32)
    ensures !!x == x
  {
  }

  /**
   * `crc32_update` can be fed in pieces: passing the CRC of `a` as the
   * starting value for `b` gives the CRC of `a + b`.
   */
  lemma {:induction false} Crc32Streams(crc: bv32, a: seq<u8>, b: seq<u8>)
    ensures Crc32(Crc32(crc, a), b) == Crc32(crc, a + b)
  {
    var r := CrcRegister(!crc, a);
    ComplementTwice(r);
    assert !Crc32(crc, a) == r;
    CrcRegisterAppend(!crc, a, b);
  }

  /** Taking in one more byte of `data`. */
  lemma {:induction false} CrcRegisterStep(c: bv32, data: seq<u8>, i: nat)
    requires i < |data|
    ensures CrcRegister(c, data[..i + 1]) == CrcByte(CrcRegister(c, data[..i]), data[i])
  {
    assert data[..i + 1][..i] == data[..i];
  }

  /** The inner loop of `crc32_update`: one byte XORed in, then eight shifts. */
  method UpdateByte(c: bv32, b: u8) returns (r: bv32)
    ensures r == CrcByte(c, b)
  {
    r := c ^ (b as bv32);
    ghost var start := r;
    var j := 0;
    while j < BITS_PER_BYTE
      invariant 0 <= j <= BITS_PER_BYTE
      invariant r == CrcShifts(start, j)
    {
      r := CrcBit(r);
      j := j + 1;
    }
  }

  /** `crc32_update` over the first `len` bytes of `data`. */
  method Crc32Update(crc: bv32, data: array<u8>, len: nat) returns (r: bv32)
    requires len <= data.Length
    ensures r == Crc32(crc, data[..len])
  {
    ghost var init := !crc;
    var c: bv32 := !crc;
    var i := 0;
    while i < len
      invariant 0 <= i <= len
      invariant c == CrcRegister(init, data[..i])
    {
      CrcRegisterStep(init, data[..], i);
      c := UpdateByte(c, data[i]);
      i := i + 1;
    }
    assert data[..i] == data[..len];
    assert c == CrcRegister(!crc, data[..len]);
    r := !c;
  }

  /* ---- The image ---- */

  /** The CRC `device_config_serialize` stores: `crc32_update` from 0, as an integer. */
  function CrcOf(data: seq<u8>): u32
  {
    Crc32(0, data) as int
  }

  /** The bytes of a `char` array. */
  function Bytes(s: string): (b: seq<u8>)
    requires IsByteString(s)
    ensures |b| == |s|
  {
    seq(|s|, i requires 0 <= i < |s| => s[i] as int)
  }

  /** The `char` array holding the bytes `b`. */
  function Chars(b: seq<u8>): (s: string)
    ensures |s| == |b| && IsByteString(s)
  {
    seq(|b|, i requires 0 <= i < |b| => b[i] as char)
  }

  lemma {:induction false} CharsOfBytes(s: string)
    requires IsByteString(s)
    ensures Chars(Bytes(s)) == s
  {
  }

  /** Bytes 0..139: the header and the payload, in field order. */
  function Body(c: Config): (b: seq<u8>)
    requires WellSized(c)
    ensures |b| == CRC_AT
    ensures b[..4] == LeU32(CONFIG_MAGIC) && b[4..SSID_AT] == LeU16(CONFIG_VERSION)
    ensures b[SSID_AT..PASSWORD_AT] == Bytes(c.ssid)
    ensures b[PASSWORD_AT..PULSE_AT] == Bytes(c.password)
    ensures b[PULSE_AT..TIMEOUT_AT] == LeU16(c.pulseMs) && b[TIMEOUT_AT..NAME_AT] == LeU16(c.timeoutMs)
    ensures b[NAME_AT..] == Bytes(c.name)
  {
    var header := LeU32(CONFIG_MAGIC) + LeU16(CONFIG_VERSION);
    var texts := header + Bytes(c.ssid) + Bytes(c.password);
    var numbers := texts + LeU16(c.pulseMs) + LeU16(c.timeoutMs);
    assert texts[..SSID_AT] == header && texts[..PASSWORD_AT][SSID_AT..] == Bytes(c.ssid);
    assert numbers[..PULSE_AT] == texts;
    numbers + Bytes(c.name)
  }

  /** The image `device_config_serialize` writes: the body and its CRC. */
  function Encode(c: Config): (b: seq<u8>)
    requires WellSized(c)
    ensures |b| == TOTAL_SIZE
    ensures b[..4] == [0x47, 0x46, 0x43, 0x50] && b[4..6] == [1, 0]
    ensures b[SSID_AT..PASSWORD_AT] == Bytes(c.ssid)
    ensures b[PASSWORD_AT..PULSE_AT] == Bytes(c.password)
    ensures b[PULSE_AT..TIMEOUT_AT] == LeU16(c.pulseMs) && b[TIMEOUT_AT..NAME_AT] == LeU16(c.timeoutMs)
    ensures b[NAME_AT..CRC_AT] == Bytes(c.name)
    ensures b[CRC_AT..] == LeU32(CrcOf(b[..CRC_AT]))
  {
    var body := Body(c);
    var b := body + LeU32(CrcOf(body));
    assert b[..CRC_AT] == body;
    HeaderBytes();
    assert b[..4] == body[..4] && b[4..6] == body[4..SSID_AT];
    b
  }

  /** The magic and the version as they lie in memory: "GFCP", then 1 and 0. */
  lemma HeaderBytes()
    ensures LeU32(CONFIG_MAGIC) == [0x47, 0x46, 0x43, 0x50] && LeU16(CONFIG_VERSION) == [1, 0]
  {
    assert CONFIG_MAGIC == 0x47 + 0x100 * 0x50_4346;
    assert 0x50_4346 == 0x46 + 0x100 * 0x5043;
    assert 0x5043 == 0x43 + 0x100 * 0x50;
    ShiftTwice(CONFIG_MAGIC);
    ShiftTwice(CONFIG_MAGIC / 0x100);
  }

  /** The config an image's payload spells out, before any check. */
  function Fields(b: seq<u8>): (c: Config)
    requires |b| >= TOTAL_SIZE
    ensures WellSized(c)
  {
    Config(
      Chars(b[SSID_AT..PASSWORD_AT]), Chars(b[PASSWORD_AT..PULSE_AT]),
      GetU16(b, PULSE_AT), GetU16(b, TIMEOUT_AT),
      Chars(b[NAME_AT..CRC_AT]))
  }

  /**
   * What `device_config_deserialize` accepts: a long enough buffer with the
   * magic, the version and a matching CRC, whose payload validates.
   */
  function Decode(b: seq<u8>): (r: Option<Config>)
    ensures r.Some? ==> |b| >= TOTAL_SIZE && WellSized(r.value) && Valid(r.value)
    ensures r.Some? ==> GetU32(b, 0) == CONFIG_MAGIC && GetU16(b, 4) == CONFIG_VERSION
    ensures r.Some? ==> GetU32(b, CRC_AT) == CrcOf(b[..CRC_AT])
  {
    if |b| < TOTAL_SIZE then None
    else if GetU32(b, 0) != CONFIG_MAGIC then None
    else if GetU16(b, 4) != CONFIG_VERSION then None
    else if GetU32(b, CRC_AT) != CrcOf(b[..CRC_AT]) then None
    else if !Valid(Fields(b)) then None
    else Some(Fields(b))
  }

  /** Every valid config survives the round trip through its image. */
  lemma {:induction false} DecodeEncode(c: Config)
    requires WellSized(c) && Valid(c)
    ensures Decode(Encode(c)) == Some(c)
  {
    var b := Encode(c);
    assert b[0..4] == LeU32(CONFIG_MAGIC);
    GetOfLeU32(b, 0, CONFIG_MAGIC);
    assert b[4..6] == LeU16(CONFIG_VERSION);
    GetOfLeU16(b, 4, CONFIG_VERSION);
    GetOfLeU16(b, PULSE_AT, c.pulseMs);
    GetOfLeU16(b, TIMEOUT_AT, c.timeoutMs);
    assert b[CRC_AT..CRC_AT + 4] == b[CRC_AT..];
    GetOfLeU32(b, CRC_AT, CrcOf(b[..CRC_AT]));
    CharsOfBytes(c.ssid);
    CharsOfBytes(c.password);
    CharsOfBytes(c.name);
    assert Fields(b) == c;
  }

  /** `get_u16` reads back what `put_u16` left at offset `at`. */
  lemma {:induction false} GetOfLeU16(b: seq<u8>, at: nat, v: u16)
    requires at + 2 <= |b| && b[at..at + 2] == LeU16(v)
    ensures GetU16(b, at) == v
  {
    assert b[at] == LeU16(v)[0] && b[at + 1] == LeU16(v)[1];
  }

  /** The four bytes of `put_u32`, weighted by their places, add up to the value again. */
  lemma {:induction false} LeU32Sum(v: u32)
    ensures v % 0x100 + 0x100 * ((v / 0x100) % 0x100) + 0x1_0000 * ((v / 0x1_0000) % 0x100)
      + 0x100_0000 * (v / 0x100_0000) == v
  {
    var q1 := v / 0x100;
    var q2 := v / 0x1_0000;
    var q3 := v / 0x100_0000;
    ShiftTwice(v);
    ShiftTwice(q1);
    assert q3 == q2 / 0x100;
    assert v == v % 0x100 + 0x100 * q1;
    assert q1 == q1 % 0x100 + 0x100 * q2;
    assert q2 == q2 % 0x100 + 0x100 * q3;
  }

  /** `get_u32` reads back what `put_u32` left at offset `at`. */
  lemma {:induction false} GetOfLeU32(b: seq<u8>, at: nat, v: u32)
    requires at + 4 <= |b| && b[at..at + 4] == LeU32(v)
    ensures GetU32(b, at) == v
  {
    assert b[at] == LeU32(v)[0] && b[at + 1] == LeU32(v)[1];
    assert b[at + 2] == LeU32(v)[2] && b[at + 3] == LeU32(v)[3];
    LeU32Sum(v);
  }

  /** `put_u16` after `get_u16` gives back the two bytes. */
  lemma {:induction false} LeU16OfGet(b: seq<u8>, at: nat)
    requires at + 2 <= |b|
    ensures LeU16(GetU16(b, at)) == b[at..at + 2]
  {
  }

  /** A low byte and the rest: `%` and `/` by 0x100 take them apart again. */
  lemma {:induction false} SplitByte(lo: u8, hi: nat)
    ensures (lo + 0x100 * hi) % 0x100 == lo && (lo + 0x100 * hi) / 0x100 == hi
  {
  }

  /** Shifting by 16 is shifting by 8 twice. */
  lemma {:induction false} ShiftTwice(v: nat)
    ensures v / 0x1_0000 == (v / 0x100) / 0x100
  {
  }

  /** `put_u32` after `get_u32` gives back the four bytes. */
  lemma {:induction false} LeU32OfGet(b: seq<u8>, at: nat)
    requires at + 4 <= |b|
    ensures LeU32(GetU32(b, at)) == b[at..at + 4]
  {
    var v := GetU32(b, at);
    var hi2 := b[at + 2] as int + 0x100 * b[at + 3] as int;
    var hi1 := b[at + 1] as int + 0x100 * hi2;
    assert v == b[at] as int + 0x100 * hi1;
    SplitByte(b[at], hi1);
    SplitByte(b[at + 1], hi2);
    SplitByte(b[at + 2], b[at + 3]);
    ShiftTwice(v);
    ShiftTwice(v / 0x100);
    assert v / 0x100_0000 == ((v / 0x100) / 0x100) / 0x100;
  }

  lemma {:induction false} BytesOfChars(b: seq<u8>)
    ensures Bytes(Chars(b)) == b
  {
  }

  /** An accepted image is exactly the image of the config it yields. */
  lemma {:induction false} EncodeDecode(b: seq<u8>)
    requires Decode(b).Some?
    ensures Encode(Decode(b).value) == b[..TOTAL_SIZE]
  {
    var c := Decode(b).value;
    assert c == Fields(b);
    var body := b[..CRC_AT];
    LeU32OfGet(b, 0);
    LeU16OfGet(b, 4);
    LeU16OfGet(b, PULSE_AT);
    LeU16OfGet(b, TIMEOUT_AT);
    BytesOfChars(b[SSID_AT..PASSWORD_AT]);
    BytesOfChars(b[PASSWORD_AT..PULSE_AT]);
    BytesOfChars(b[NAME_AT..CRC_AT]);
    assert body[..4] == b[0..4] && body[4..SSID_AT] == b[4..6];
    assert body[SSID_AT..PASSWORD_AT] == b[SSID_AT..PASSWORD_AT] && body[PASSWORD_AT..PULSE_AT] == b[PASSWORD_AT..PULSE_AT];
    assert body[PULSE_AT..TIMEOUT_AT] == b[PULSE_AT..PULSE_AT + 2] && body[TIMEOUT_AT..NAME_AT] == b[TIMEOUT_AT..TIMEOUT_AT + 2];
    assert body[NAME_AT..] == b[NAME_AT..CRC_AT];
    SameLayout(Body(c), body);
    LeU32OfGet(b, CRC_AT);
    assert b[..TOTAL_SIZE] == b[..CRC_AT] + b[CRC_AT..TOTAL_SIZE];
  }

  /** Two bodies that agree field by field are the same bytes. */
  lemma {:induction false} SameLayout(x: seq<u8>, y: seq<u8>)
    requires |x| == |y| == CRC_AT
    requires x[..4] == y[..4] && x[4..SSID_AT] == y[4..SSID_AT]
    requires x[SSID_AT..PASSWORD_AT] == y[SSID_AT..PASSWORD_AT] && x[PASSWORD_AT..PULSE_AT] == y[PASSWORD_AT..PULSE_AT]
    requires x[PULSE_AT..TIMEOUT_AT] == y[PULSE_AT..TIMEOUT_AT] && x[TIMEOUT_AT..NAME_AT] == y[TIMEOUT_AT..NAME_AT]
    requires x[NAME_AT..] == y[NAME_AT..]
    ensures x == y
  {
    PrefixExtends(x, 4, SSID_AT);
    PrefixExtends(y, 4, SSID_AT);
    PrefixExtends(x, SSID_AT, PASSWORD_AT);
    PrefixExtends(y, SSID_AT, PASSWORD_AT);
    PrefixExtends(x, PASSWORD_AT, PULSE_AT);
    PrefixExtends(y, PASSWORD_AT, PULSE_AT);
    PrefixExtends(x, PULSE_AT, TIMEOUT_AT);
    PrefixExtends(y, PULSE_AT, TIMEOUT_AT);
    PrefixExtends(x, TIMEOUT_AT, NAME_AT);
    PrefixExtends(y, TIMEOUT_AT, NAME_AT);
    PrefixExtends(x, NAME_AT, CRC_AT);
    PrefixExtends(y, NAME_AT, CRC_AT);
    assert x[..CRC_AT] == x && y[..CRC_AT] == y;
  }

  lemma PrefixExtends(x: seq<u8>, i: nat, j: nat)
    requires i <= j <= |x|
    ensures x[..j] == x[..i] + x[i..j]
  {
  }

  /* ---- The buffer-level functions ---- */

  /** `memcpy`, `memset` and `put_u16`/`put_u32`: `bytes` written into `buf` from `at`. */
  method Put(buf: array<u8>, at: nat, bytes: seq<u8>, ghost limit: nat)
    requires at + |bytes| <= limit <= buf.Length
    modifies buf
    ensures buf[..at] == old(buf[..at])
    ensures buf[at..at + |bytes|] == bytes
    ensures buf[limit..] == old(buf[limit..])
  {
    var i := 0;
    while i < |bytes|
      invariant 0 <= i <= |bytes|
      invariant buf[..at] == old(buf[..at])
      invariant buf[at..at + i] == bytes[..i]
      invariant buf[limit..] == old(buf[limit..])
    {
      buf[at + i] := bytes[i];
      i := i + 1;
    }
  }

  /**
   * The body part of `device_config_serialize`: the buffer cleared, then
   * header and payload written field by field.
   */
  method WriteBody(c: Config, buf: array<u8>)
    requires WellSized(c) && TOTAL_SIZE <= buf.Length
    modifies buf
    ensures buf[..CRC_AT] == Body(c)
    ensures buf[TOTAL_SIZE..] == old(buf[TOTAL_SIZE..])
  {
    Put(buf, 0, seq(TOTAL_SIZE, _ => 0), TOTAL_SIZE);
    Put(buf, 0, LeU32(CONFIG_MAGIC), TOTAL_SIZE);
    Put(buf, 4, LeU16(CONFIG_VERSION), TOTAL_SIZE);
    assert buf[..SSID_AT] == buf[..4] + buf[4..SSID_AT];
    Put(buf, SSID_AT, Bytes(c.ssid), TOTAL_SIZE);
    assert buf[..PASSWORD_AT] == buf[..SSID_AT] + Bytes(c.ssid);
    Put(buf, PASSWORD_AT, Bytes(c.password), TOTAL_SIZE);
    assert buf[..PULSE_AT] == buf[..PASSWORD_AT] + Bytes(c.password);
    Put(buf, PULSE_AT, LeU16(c.pulseMs), TOTAL_SIZE);
    assert buf[..TIMEOUT_AT] == buf[..PULSE_AT] + LeU16(c.pulseMs);
    Put(buf, TIMEOUT_AT, LeU16(c.timeoutMs), TOTAL_SIZE);
    assert buf[..NAME_AT] == buf[..TIMEOUT_AT] + LeU16(c.timeoutMs);
    Put(buf, NAME_AT, Bytes(c.name), TOTAL_SIZE);
    assert buf[..CRC_AT] == buf[..NAME_AT] + Bytes(c.name);
  }

  /**
   * `device_config_serialize`: -1 for a NULL config or buffer or a buffer
   * shorter than the image; otherwise the image in the first 144 bytes, the
   * rest of the buffer untouched, and 144.
   */
  method Serialize(cfg: Option<Config>, buf: array?<u8>, len: nat) returns (n: int)
    requires cfg.Some? ==> WellSized(cfg.value)
    requires buf != null ==> len <= buf.Length
    modifies buf
    ensures n == -1 <==> cfg.None? || buf == null || len < TOTAL_SIZE
    ensures n == -1 ==> buf == null || buf[..] == old(buf[..])
    ensures n != -1 ==> n == TOTAL_SIZE && buf != null && cfg.Some?
    ensures n != -1 ==> buf[..TOTAL_SIZE] == Encode(cfg.value) && buf[TOTAL_SIZE..] == old(buf[TOTAL_SIZE..])
  {
    if cfg.None? || buf == null || len < TOTAL_SIZE {
      return -1;
    }
    var c := cfg.value;
    WriteBody(c, buf);
    var crc := Crc32Update(0, buf, HEADER_SIZE + PAYLOAD_SIZE);
    ghost var tail := buf[TOTAL_SIZE..];
    Put(buf, CRC_AT, LeU32(crc as int), TOTAL_SIZE);
    assert buf[..TOTAL_SIZE] == buf[..CRC_AT] + LeU32(CrcOf(Body(c)));
    assert buf[TOTAL_SIZE..] == tail;
    n := TOTAL_SIZE;
  }

  /**
   * `device_config_deserialize`: false, with the caller's config left as it
   * was, for a NULL config or buffer or an image `Decode` refuses; otherwise
   * true and the decoded config.
   */
  method Deserialize(cfg: Option<Config>, buf: array?<u8>, len: nat) returns (ok: bool, out: Option<Config>)
    requires buf != null ==> len <= buf.Length
    ensures ok <==> cfg.Some? && buf != null && Decode(buf[..len]).Some?
    ensures ok ==> out == Decode(buf[..len])
    ensures !ok ==> out == cfg
  {
    if cfg.None? || buf == null || len < TOTAL_SIZE {
      return false, cfg;
    }
    var b := buf[..len];
    if GetU32(b, 0) != CONFIG_MAGIC || GetU16(b, 4) != CONFIG_VERSION {
      return false, cfg;
    }
    var expected := GetU32(b, CRC_AT);
    var actual := Crc32Update(0, buf, HEADER_SIZE + PAYLOAD_SIZE);
    assert buf[..CRC_AT] == b[..CRC_AT];
    if actual as int != expected {
      return false, cfg;
    }
    var tmp := Fields(b);
    if !Valid(tmp) {
      return false, cfg;
    }
    ok, out := true, Some(tmp);
  }
}
