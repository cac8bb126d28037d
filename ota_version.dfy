/**
 * Firmware version numbers: parsing "major.minor.patch" tags (as found in
 * release names), ordering them, and printing them.
 *
 * A C string argument is the string of its characters before the NUL; a
 * NULL pointer is `None`.
 */
module OtaVersion {
  import opened CTypes
  import opened CStrings

  datatype Version = Version(major: u16, minor: u16, patch: u16)

  /** The version compiled into the image when no version macros are given. */
  const CURRENT_VERSION: Version := Version(0, 0, 0)

  // ---------------------------------------------------------------------
  // Specification of parsing
  // ---------------------------------------------------------------------

  /**
   * The loop of `parse_u16` from offset `i` with `acc` accumulated so far:
   * each digit is folded in, and the read fails as soon as the value
   * exceeds 65535; the first non-digit ends it.
   */
  function Accumulate(s: string, i: nat, acc: u16): Option<(u16, nat)>
    decreases |s| - i
  {
    if !IsDigit(At(s, i)) then Some((acc, i))
    else
      var next := acc * 10 + DigitValue(s[i]);
      if next > U16_MAX then None else Accumulate(s, i + 1, next)
  }

  /** `parse_u16` at offset `i`: its value and the offset past its digits, if it succeeds. */
  function Number(s: string, i: nat): Option<(u16, nat)>
  {
    if !IsDigit(At(s, i)) then None else Accumulate(s, i, 0)
  }

  /** A number followed by a '.': its value and the offset after the dot. */
  function Dotted(s: string, i: nat): Option<(u16, nat)>
  {
    match Number(s, i)
    case None => None
    case Some((n, e)) => if At(s, e) == '.' then Some((n, e + 1)) else None
  }

  /** Where the first field starts: after one optional 'v' or 'V'. */
  function Start(s: string): nat
  {
    if At(s, 0) == 'v' || At(s, 0) == 'V' then 1 else 0
  }

  /** `ota_version_parse` on a non-NULL string: the version it stores, if it succeeds. */
  function Parse(s: string): Option<Version>
  {
    match Dotted(s, Start(s))
    case None => None
    case Some((major, i)) =>
      match Dotted(s, i)
      case None => None
      case Some((minor, j)) =>
        match Number(s, j)
        case None => None
        case Some((patch, _)) => Some(Version(major, minor, patch))
  }

  /** A tag prefix `ota_version_parse` skips: nothing, or one 'v' or 'V'. */
  predicate IsTagPrefix(pre: string)
  {
    pre == "" || pre == "v" || pre == "V"
  }

  /** A non-empty run of decimal digits. */
  predicate IsField(d: string)
  {
    |d| >= 1 && AllDigits(d)
  }

  /** Text that cannot continue a digit run. */
  predicate EndsRun(rest: string)
  {
    rest == "" || !IsDigit(rest[0])
  }

  // ---------------------------------------------------------------------
  // The parser, as the firmware walks the string
  // ---------------------------------------------------------------------

  /**
   * `parse_u16`: reads the digit run at offset `i`, failing as soon as the
   * accumulated value exceeds 65535.
   */
  method ParseU16(s: string, i: nat) returns (ok: bool, val: u16, end: nat)
    ensures ok <==> Number(s, i).Some?
    ensures ok ==> (val, end) == Number(s, i).value
  {
    val, end := 0, i;
    if !IsDigit(At(s, i)) {
      return false, val, end;
    }
    var acc: u16 := 0;
    var p := i;
    while IsDigit(At(s, p))
      invariant i <= p <= |s|
      invariant Accumulate(s, p, acc) == Accumulate(s, i, 0)
      decreases |s| - p
    {
      var next := acc * 10 + DigitValue(s[p]);
      if next > U16_MAX {
        return false, val, end;
      }
      acc, p := next, p + 1;
    }
    val, end := acc, p;
    ok := true;
  }

  /**
   * `ota_version_parse(str, out)`: `false` for a NULL argument or a
   * malformed tag; on success the parsed version is stored into `*out`,
   * otherwise `*out` keeps what it held.
   */
  method ParseVersion(str: Option<string>, out: Option<Version>) returns (ok: bool, stored: Option<Version>)
    ensures ok <==> str.Some? && out.Some? && Parse(str.value).Some?
    ensures ok ==> stored == Parse(str.value)
    ensures !ok ==> stored == out
  {
    stored := out;
    if str.None? || out.None? {
      return false, stored;
    }
    var s := str.value;
    var p := 0;
    if At(s, 0) == 'v' || At(s, 0) == 'V' {
      p := 1;
    }
    var major, minor, patch;
    ok, major, p := ParseU16(s, p);
    if !ok {
      return;
    }
    if At(s, p) != '.' {
      return false, stored;
    }
    ok, minor, p := ParseU16(s, p + 1);
    if !ok {
      return;
    }
    if At(s, p) != '.' {
      return false, stored;
    }
    ok, patch, p := ParseU16(s, p + 1);
    if !ok {
      return;
    }
    stored := Some(Version(major, minor, patch));
  }

  // ---------------------------------------------------------------------
  // What the parser accepts
  // ---------------------------------------------------------------------

  /** The value of a digit run bounds the value of each of its prefixes. */
  lemma {:induction false} PrefixValueBound(d: string, j: nat)
    requires AllDigits(d) && j <= |d|
    ensures AllDigits(d[..j]) && DigitsValue(d[..j]) <= DigitsValue(d)
    decreases |d|
  {
    if j == |d| {
      assert d[..j] == d;
    } else {
      assert d[..|d| - 1][..j] == d[..j];
      PrefixValueBound(d[..|d| - 1], j);
    }
  }

  /**
   * The loop reads a digit run to its end: its value when that fits sixteen
   * bits, and a failure otherwise. `s[q..i]` is what it has read so far.
   */
  lemma {:induction false} AccumulateRun(s: string, q: nat, i: nat, e: nat)
    requires q <= i <= e <= |s| && AllDigits(s[q..e]) && !IsDigit(At(s, e))
    requires AllDigits(s[q..i]) && DigitsValue(s[q..i]) <= U16_MAX
    ensures DigitsValue(s[q..e]) > U16_MAX ==> Accumulate(s, i, DigitsValue(s[q..i])).None?
    ensures DigitsValue(s[q..e]) <= U16_MAX ==> Accumulate(s, i, DigitsValue(s[q..i])) == Some((DigitsValue(s[q..e]) as u16, e))
    decreases e - i
  {
    if i < e {
      assert IsDigit(At(s, i)) by {
        assert s[q..e][i - q] == s[i];
      }
      assert s[q..i + 1][..i - q] == s[q..i];
      var next := DigitsValue(s[q..i + 1]);
      if next > U16_MAX {
        assert s[q..e][..i + 1 - q] == s[q..i + 1];
        PrefixValueBound(s[q..e], i + 1 - q);
      } else {
        AccumulateRun(s, q, i + 1, e);
      }
    }
  }

  /** `parse_u16` at `i` reads the run `s[i..i + j]` when a non-digit follows it. */
  lemma NumberAt(s: string, i: nat, j: nat)
    requires i + j <= |s| && IsField(s[i..i + j]) && !IsDigit(At(s, i + j))
    ensures DigitsValue(s[i..i + j]) > U16_MAX ==> Number(s, i).None?
    ensures DigitsValue(s[i..i + j]) <= U16_MAX ==> Number(s, i) == Some((DigitsValue(s[i..i + j]) as u16, (i + j) as nat))
  {
    assert At(s, i) == s[i..i + j][0];
    assert s[i..i] == [];
    AccumulateRun(s, i, i, i + j);
  }

  /**
   * A tag prefix, three digit fields separated by dots, and anything that
   * does not continue the last run parse to the fields' values, when each
   * fits sixteen bits.
   */
  lemma ParseAccepts(pre: string, d1: string, d2: string, d3: string, rest: string)
    requires IsTagPrefix(pre) && IsField(d1) && IsField(d2) && IsField(d3) && EndsRun(rest)
    requires DigitsValue(d1) <= U16_MAX && DigitsValue(d2) <= U16_MAX && DigitsValue(d3) <= U16_MAX
    ensures Parse(pre + d1 + "." + d2 + "." + d3 + rest)
         == Some(Version(DigitsValue(d1), DigitsValue(d2), DigitsValue(d3)))
  {
    var s := pre + d1 + "." + d2 + "." + d3 + rest;
    var e1 := |pre| + |d1|;
    var e2 := e1 + 1 + |d2|;
    var e3 := e2 + 1 + |d3|;
    Layout(pre, d1, d2, d3, rest);
    assert Start(s) == |pre| by {
      assert At(s, 0) == (if pre == "" then d1[0] else pre[0]);
    }
    assert At(s, e3) == (if rest == "" then '\0' else rest[0]);
    assert s[|pre|..e1] == d1;
    assert IsField(s[|pre|..e1]);
    assert s[e1 + 1..e2] == d2;
    assert IsField(s[e1 + 1..e2]);
    assert s[e2 + 1..e3] == d3;
    assert IsField(s[e2 + 1..e3]);
    assert s[e1] == '.' && s[e2] == '.';
    ParseFields(s, |pre|, e1, e2, e3);
  }

  /** The parse of a string whose fields sit at known offsets. */
  lemma ParseFields(s: string, p: nat, e1: nat, e2: nat, e3: nat)
    requires Start(s) == p <= e1 < e2 < e3 <= |s|
    requires IsField(s[p..e1]) && IsField(s[e1 + 1..e2]) && IsField(s[e2 + 1..e3])
    requires s[e1] == '.' && s[e2] == '.' && !IsDigit(At(s, e3))
    requires DigitsValue(s[p..e1]) <= U16_MAX && DigitsValue(s[e1 + 1..e2]) <= U16_MAX
    requires DigitsValue(s[e2 + 1..e3]) <= U16_MAX
    ensures Parse(s) == Some(Version(DigitsValue(s[p..e1]), DigitsValue(s[e1 + 1..e2]), DigitsValue(s[e2 + 1..e3])))
  {
    var a, b, c := DigitsValue(s[p..e1]), DigitsValue(s[e1 + 1..e2]), DigitsValue(s[e2 + 1..e3]);
    DottedAt(s, p, e1);
    DottedAt(s, e1 + 1, e2);
    NumberAt(s, e2 + 1, e3 - e2 - 1);
    ParseOfParts(s, a, b, c, e1 + 1, e2 + 1, e3);
  }

  /** `ota_version_parse` succeeds when each of its three reads does. */
  lemma ParseOfParts(s: string, a: u16, b: u16, c: u16, i: nat, j: nat, k: nat)
    requires Dotted(s, Start(s)) == Some((a, i)) && Dotted(s, i) == Some((b, j)) && Number(s, j) == Some((c, k))
    ensures Parse(s) == Some(Version(a, b, c))
  {
  }

  /** A field that fits sixteen bits, followed by a dot. */
  lemma DottedAt(s: string, i: nat, e: nat)
    requires i <= e < |s| && IsField(s[i..e]) && s[e] == '.' && DigitsValue(s[i..e]) <= U16_MAX
    ensures Dotted(s, i) == Some((DigitsValue(s[i..e]) as u16, e + 1))
  {
    NumberAt(s, i, e - i);
  }

  /** Where the pieces of a tag sit in the string they make up. */
  lemma Layout(pre: string, d1: string, d2: string, d3: string, rest: string)
    ensures var s := pre + d1 + "." + d2 + "." + d3 + rest;
      var e1 := |pre| + |d1|;
      var e2 := e1 + 1 + |d2|;
      var e3 := e2 + 1 + |d3|;
      && |s| == e3 + |rest|
      && s[..|pre|] == pre && s[|pre|..e1] == d1 && s[e1] == '.'
      && s[e1 + 1..e2] == d2 && s[e2] == '.' && s[e2 + 1..e3] == d3 && s[e3..] == rest
  {
  }

  /** A field too large for sixteen bits makes the parse fail. */
  lemma ParseRejectsOverflow(pre: string, d1: string, rest: string)
    requires IsTagPrefix(pre) && IsField(d1) && EndsRun(rest) && DigitsValue(d1) > U16_MAX
    ensures Parse(pre + d1 + rest) == None
  {
    var s := pre + d1 + rest;
    assert s[|pre|..|pre| + |d1|] == d1;
    assert At(s, 0) == (if pre == "" then d1[0] else pre[0]);
    assert At(s, |pre| + |d1|) == (if rest == "" then '\0' else rest[0]);
    NumberAt(s, |pre|, |d1|);
  }

  /** Whatever the parser accepts has the shape `ParseAccepts` describes. */
  lemma ParseSplits(s: string) returns (pre: string, d1: string, d2: string, d3: string, rest: string)
    requires Parse(s).Some?
    ensures s == pre + d1 + "." + d2 + "." + d3 + rest
    ensures IsTagPrefix(pre) && IsField(d1) && IsField(d2) && IsField(d3) && EndsRun(rest)
    ensures DigitsValue(d1) <= U16_MAX && DigitsValue(d2) <= U16_MAX && DigitsValue(d3) <= U16_MAX
    ensures Parse(s) == Some(Version(DigitsValue(d1), DigitsValue(d2), DigitsValue(d3)))
  {
    var p := Start(s);
    NumberRead(s, p);
    var e1 := Number(s, p).value.1;
    NumberRead(s, e1 + 1);
    var e2 := Number(s, e1 + 1).value.1;
    NumberRead(s, e2 + 1);
    var e3 := Number(s, e2 + 1).value.1;
    pre, d1, d2, d3, rest := s[..p], s[p..e1], s[e1 + 1..e2], s[e2 + 1..e3], s[e3..];
    assert EndsRun(rest) by {
      if rest != "" {
        assert rest[0] == At(s, e3);
      }
    }
    Join(s, p, e1, e2, e3);
  }

  /** A string is the concatenation of its pieces around two dots. */
  lemma Join(s: string, p: nat, e1: nat, e2: nat, e3: nat)
    requires p <= e1 < e2 < e3 <= |s| && s[e1] == '.' && s[e2] == '.'
    ensures s == s[..p] + s[p..e1] + "." + s[e1 + 1..e2] + "." + s[e2 + 1..e3] + s[e3..]
  {
    assert s == s[..e1] + [s[e1]] + s[e1 + 1..e2] + [s[e2]] + s[e2 + 1..];
    assert s[..e1] == s[..p] + s[p..e1];
    assert s[e2 + 1..] == s[e2 + 1..e3] + s[e3..];
  }

  /** What a successful `parse_u16` has read: a whole digit run, with its value. */
  lemma NumberRead(s: string, i: nat)
    requires Number(s, i).Some?
    ensures var (n, e) := Number(s, i).value;
      && i < e <= |s| && IsField(s[i..e]) && !IsDigit(At(s, e)) && DigitsValue(s[i..e]) == n
  {
    var k := DigitPrefixLength(s[i..]);
    assert s[i..][..k] == s[i..i + k];
    assert i + k < |s| ==> s[i + k] == s[i..][k];
    assert s[i..i] == [];
    AccumulateRun(s, i, i, i + k);
  }

  /** The malformed tags the firmware is meant to refuse. */
  lemma ParseRejectsMalformed()
    ensures Parse("") == None && Parse("v") == None
    ensures Parse("1.2") == None && Parse("1.2.") == None
    ensures Parse("-1.0.0") == None && Parse("1.abc.3") == None
  {
    assert Number("1.2", 2) == Some((2, 3));
    assert Number("1.2.", 2) == Some((2, 3));
    assert Number("1.abc.3", 0) == Some((1, 1));
  }

  // ---------------------------------------------------------------------
  // Ordering
  // ---------------------------------------------------------------------

  /** A version as one number whose order is the lexicographic order of its fields. */
  function Rank(v: Version): nat
  {
    v.major * 0x1_0000_0000 + v.minor * 0x1_0000 + v.patch
  }

  /** `ota_version_compare`: the sign of the first field that differs. */
  function Compare(a: Version, b: Version): (r: int)
    ensures -1 <= r <= 1
    ensures r == 0 <==> a == b
    ensures r < 0 <==> Rank(a) < Rank(b)
    ensures r > 0 <==> Rank(a) > Rank(b)
  {
    if a.major != b.major then (if a.major > b.major then 1 else -1)
    else if a.minor != b.minor then (if a.minor > b.minor then 1 else -1)
    else if a.patch != b.patch then (if a.patch > b.patch then 1 else -1)
    else 0
  }

  lemma CompareAntisymmetric(a: Version, b: Version)
    ensures Compare(a, b) == -Compare(b, a)
  {
  }

  lemma CompareTransitive(a: Version, b: Version, c: Version)
    requires Compare(a, b) < 0 && Compare(b, c) < 0
    ensures Compare(a, c) < 0
  {
  }

  // ---------------------------------------------------------------------
  // Formatting
  // ---------------------------------------------------------------------

  /** `"%u.%u.%u"` of the three fields. */
  function Text(v: Version): string
  {
    Decimal(v.major) + "." + Decimal(v.minor) + "." + Decimal(v.patch)
  }

  /** A version never prints longer than "65535.65535.65535". */
  lemma TextFits(v: Version)
    ensures |Text(v)| <= 17
  {
    assert Pow10(5) == 100000;
    DecimalLength(v.major, 5);
    DecimalLength(v.minor, 5);
    DecimalLength(v.patch, 5);
  }

  /** Parsing what `ota_version_format` prints, with or without a "v", gives the version back. */
  lemma ParseText(v: Version, pre: string)
    requires IsTagPrefix(pre)
    ensures Parse(pre + Text(v)) == Some(v)
  {
    var d1, d2, d3 := Decimal(v.major), Decimal(v.minor), Decimal(v.patch);
    TextLayout(v, pre);
    ParseAccepts(pre, d1, d2, d3, "");
  }

  lemma TextLayout(v: Version, pre: string)
    ensures pre + Text(v) == pre + Decimal(v.major) + "." + Decimal(v.minor) + "." + Decimal(v.patch) + ""
  {
  }

  /**
   * `ota_version_format(v, buf, len)`: -1 for a NULL argument or `len < 1`;
   * otherwise `snprintf`'s result, the length of the whole text, while the
   * buffer gets the part that fits and a NUL.
   */
  method Format(v: Option<Version>, buf: array?<char>, len: int) returns (n: int)
    requires buf != null && len >= 1 ==> len <= buf.Length
    modifies buf
    ensures v.None? || buf == null || len < 1 ==> n == -1 && (buf != null ==> buf[..] == old(buf[..]))
    ensures v.Some? && buf != null && len >= 1 ==>
      var kept := Truncated(Text(v.value), len);
      && n == |Text(v.value)|
      && buf[..|kept|] == kept && buf[|kept|] == '\0'
      && buf[|kept| + 1..] == old(buf[|kept| + 1..])
  {
    if v.None? || buf == null || len < 1 {
      return -1;
    }
    var text := Text(v.value);
    var kept := PrintInto(buf, 0, len, text);
    n := |text|;
  }
}
