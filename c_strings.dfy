/**
 * C string conventions shared by the firmware's text handling: NUL-terminated
 * reads, the `isspace`/`isdigit` classes of the "C" locale, `%u` decimal
 * formatting, the `strstr`/`strchr` searches and the `snprintf` rule for
 * writing a string into a bounded caller buffer.
 *
 * A C string is modelled by its characters before the terminating NUL; `At`
 * reads past the end as NUL, which is what the C code sees there.
 */
module CStrings {
  import opened CTypes

  /** The character a C pointer walk reads at offset `i`: the terminating NUL past the end. */
  function At(s: string, i: nat): char
  {
    if i < |s| then s[i] else '\0'
  }

  /** The C string stored in a character array: everything before the first NUL. */
  function CStr(a: seq<char>): (r: string)
    ensures |r| <= |a| && r == a[..|r|]
    ensures '\0' !in r
    ensures |r| < |a| ==> a[|r|] == '\0'
  {
    if |a| == 0 || a[0] == '\0' then [] else [a[0]] + CStr(a[1..])
  }

  lemma {:induction false} CStrOfPadded(s: string, pad: nat)
    requires '\0' !in s
    ensures CStr(s + seq(pad, _ => '\0')) == s
  {
    if |s| > 0 {
      assert (s + seq(pad, _ => '\0'))[1..] == s[1..] + seq(pad, _ => '\0');
      CStrOfPadded(s[1..], pad);
    }
  }

  /** A C `char` array holds bytes: every character fits in eight bits. */
  predicate IsByteString(s: string)
  {
    forall i :: 0 <= i < |s| ==> s[i] as int < 0x100
  }

  /** A run of `n` NUL characters, as `memset(..., 0, n)` leaves. */
  function Zeros(n: nat): (r: string)
    ensures |r| == n && IsByteString(r)
    ensures forall i :: 0 <= i < n ==> r[i] == '\0'
  {
    seq(n, _ => '\0')
  }

  /** `isspace` in the "C" locale: space, tab, newline, vertical tab, form feed, carriage return. */
  predicate IsSpace(c: char)
  {
    c == ' ' || c == '\t' || c == '\n' || c as int == 0x0B || c as int == 0x0C || c == '\r'
  }

  predicate IsDigit(c: char)
  {
    '0' <= c <= '9'
  }

  function DigitValue(c: char): (d: nat)
    requires IsDigit(c)
    ensures d < 10
  {
    c as int - '0' as int
  }

  function DigitChar(d: nat): (c: char)
    requires d < 10
    ensures IsDigit(c) && DigitValue(c) == d
  {
    ('0' as int + d) as char
  }

  predicate AllDigits(s: string)
  {
    forall i :: 0 <= i < |s| ==> IsDigit(s[i])
  }

  /** The number a run of decimal digits denotes. */
  function DigitsValue(s: string): nat
    requires AllDigits(s)
  {
    if |s| == 0 then 0 else DigitsValue(s[..|s| - 1]) * 10 + DigitValue(s[|s| - 1])
  }

  /** `printf("%u", n)`: the decimal digits of `n`, without leading zeros. */
  function Decimal(n: nat): (r: string)
    ensures 1 <= |r| && AllDigits(r)
    ensures |r| > 1 ==> r[0] != '0'
    ensures DigitsValue(r) == n
  {
    if n < 10 then [DigitChar(n)]
    else
      var r := Decimal(n / 10) + [DigitChar(n % 10)];
      assert r[..|r| - 1] == Decimal(n / 10);
      r
  }

  /** Ten to the power `k`. */
  function Pow10(k: nat): nat
  {
    if k == 0 then 1 else 10 * Pow10(k - 1)
  }

  lemma {:induction false} DecimalLength(n: nat, k: nat)
    requires 1 <= k && n < Pow10(k)
    ensures |Decimal(n)| <= k
  {
    if n >= 10 {
      DecimalLength(n / 10, k - 1);
    }
  }

  /** A digit run followed by a non-digit is exactly the leading digits. */
  lemma DigitPrefixOfRun(d: string, rest: string)
    requires AllDigits(d) && (rest == "" || !IsDigit(rest[0]))
    ensures DigitPrefixLength(d + rest) == |d|
  {
    var s := d + rest;
    var k := DigitPrefixLength(s);
    assert s[..|d|] == d;
  }

  /** How many copies of `c` open `s`. */
  function CountLeading(s: string, c: char): (k: nat)
    ensures k <= |s|
    ensures k < |s| ==> s[k] != c
  {
    if |s| == 0 || s[0] != c then 0 else 1 + CountLeading(s[1..], c)
  }

  /** A suffix of a suffix is a suffix. */
  lemma SuffixOfSuffix(s: string, a: nat, b: nat)
    requires a + b <= |s|
    ensures s[a..][b..] == s[a + b..]
  {
  }

  /** The first `n` characters after position `a`. */
  lemma Window(s: string, a: nat, n: nat)
    requires a + n <= |s|
    ensures s[a..][..n] == s[a..a + n]
  {
  }

  /** Leading characters of `s` that satisfy `isspace`. */
  function SpacePrefixLength(s: string): (k: nat)
    ensures k <= |s|
    ensures forall i :: 0 <= i < k ==> IsSpace(s[i])
    ensures k < |s| ==> !IsSpace(s[k])
  {
    if |s| == 0 || !IsSpace(s[0]) then 0 else 1 + SpacePrefixLength(s[1..])
  }

  /** Leading characters of `s` that are decimal digits. */
  function DigitPrefixLength(s: string): (k: nat)
    ensures k <= |s|
    ensures AllDigits(s[..k])
    ensures k < |s| ==> !IsDigit(s[k])
  {
    if |s| == 0 || !IsDigit(s[0]) then 0
    else
      var k := 1 + DigitPrefixLength(s[1..]);
      assert s[..k] == [s[0]] + s[1..][..k - 1];
      k
  }

  predicate IsPrefix(p: string, s: string)
  {
    |p| <= |s| && s[..|p|] == p
  }

  /** `needle` occurs in `s` at offset `i`. */
  predicate OccursAt(s: string, needle: string, i: nat)
  {
    i + |needle| <= |s| && s[i..i + |needle|] == needle
  }

  /** The first position at or after `from` where `needle` occurs in `s`. */
  function FindFrom(s: string, needle: string, from: nat): (r: Option<nat>)
    requires from <= |s|
    ensures r.Some? ==> from <= r.value && OccursAt(s, needle, r.value)
    decreases |s| - from
  {
    if OccursAt(s, needle, from) then Some(from)
    else if from == |s| then None
    else FindFrom(s, needle, from + 1)
  }

  /** `strstr(s, needle)`: the first position where `needle` occurs in `s`. */
  function Find(s: string, needle: string): (r: Option<nat>)
    ensures r.Some? ==> OccursAt(s, needle, r.value)
  {
    FindFrom(s, needle, 0)
  }

  /** `strstr` from `from` misses nothing: no occurrence before the one it finds, none at all when it finds none. */
  lemma {:induction false} FindFromMisses(s: string, needle: string, from: nat)
    requires from <= |s|
    ensures FindFrom(s, needle, from).Some? ==>
      forall j :: from <= j < FindFrom(s, needle, from).value ==> !OccursAt(s, needle, j)
    ensures FindFrom(s, needle, from).None? ==> forall j :: from <= j <= |s| ==> !OccursAt(s, needle, j)
    decreases |s| - from
  {
    if !OccursAt(s, needle, from) && from < |s| {
      FindFromMisses(s, needle, from + 1);
    }
  }

  /** `strstr` misses nothing before the occurrence it finds. */
  lemma FindMisses(s: string, needle: string)
    ensures Find(s, needle).Some? ==> forall j :: 0 <= j < Find(s, needle).value ==> !OccursAt(s, needle, j)
    ensures Find(s, needle).None? ==> forall j :: 0 <= j <= |s| ==> !OccursAt(s, needle, j)
  {
    FindFromMisses(s, needle, 0);
  }

  /** `strstr` from `from` finds the first occurrence at or after it. */
  lemma {:induction false} FindFromFirst(s: string, needle: string, from: nat, i: nat)
    requires from <= i && OccursAt(s, needle, i)
    requires forall j :: from <= j < i ==> !OccursAt(s, needle, j)
    ensures FindFrom(s, needle, from) == Some(i)
    decreases i - from
  {
    if from < i {
      FindFromFirst(s, needle, from + 1, i);
    }
  }

  /** `strstr` finds the first occurrence: one at `i` with none before it. */
  lemma FindFirst(s: string, needle: string, i: nat)
    requires OccursAt(s, needle, i)
    requires forall j :: 0 <= j < i ==> !OccursAt(s, needle, j)
    ensures Find(s, needle) == Some(i)
  {
    FindFromFirst(s, needle, 0, i);
  }

  /** `strchr(s, c)` for a non-NUL `c`: the first position of `c` in `s`. */
  function FindChar(s: string, c: char): (r: Option<nat>)
    ensures r.Some? ==> r.value < |s| && s[r.value] == c
    ensures r.Some? ==> c !in s[..r.value]
    ensures r.None? ==> c !in s
  {
    if |s| == 0 then None
    else if s[0] == c then Some(0)
    else
      match FindChar(s[1..], c)
      case None => None
      case Some(k) =>
        assert s[..k + 1] == [s[0]] + s[1..][..k];
        Some(k + 1)
  }

  /** `strchr` stops at the first `c`. */
  lemma FindCharAt(s: string, c: char, i: nat)
    requires i < |s| && s[i] == c && c !in s[..i]
    ensures FindChar(s, c) == Some(i)
  {
    var r := FindChar(s, c);
    assert s[..i + 1][i] == c;
    assert forall j :: i < j <= |s| ==> s[..j][i] == c;
  }

  /** Trailing characters of `s` that satisfy `isspace`. */
  function SpaceSuffixLength(s: string): (k: nat)
    ensures k <= |s|
    ensures forall i :: |s| - k <= i < |s| ==> IsSpace(s[i])
    ensures k < |s| ==> !IsSpace(s[|s| - k - 1])
  {
    if |s| == 0 || !IsSpace(s[|s| - 1]) then 0 else 1 + SpaceSuffixLength(s[..|s| - 1])
  }

  /**
   * What `snprintf(buf, size, ...)` leaves before the NUL it writes when the
   * formatted text is `text`: the text cut to `size - 1` characters.
   */
  function Truncated(text: string, size: nat): (r: string)
    requires size >= 1
    ensures |r| == if |text| < size then |text| else size - 1
    ensures r == text[..|r|]
  {
    if |text| < size then text else text[..size - 1]
  }

  /**
   * Printing `a` and then printing `b` right after what was kept, into the
   * room left, keeps what printing `a + b` at once keeps.
   */
  lemma {:induction false} TruncatedAppend(a: string, b: string, size: nat)
    requires size >= 1
    ensures Truncated(a, size) + Truncated(b, size - |Truncated(a, size)|) == Truncated(a + b, size)
  {
    if |a| < size {
      assert (a + b)[..|a|] == a;
      if |b| >= size - |a| {
        assert (a + b)[..size - 1] == a + b[..size - |a| - 1];
      }
    } else {
      assert (a + b)[..size - 1] == a[..size - 1];
    }
  }

  /**
   * `snprintf(buf + at, size, "%s", text)` with the count clipped as the
   * firmware's `out_printf` clips it: the characters of `text` that fit, a
   * NUL after them, and nothing else touched.
   */
  method PrintInto(buf: array<char>, at: nat, size: nat, text: string) returns (n: nat)
    requires 1 <= size && at + size <= buf.Length
    modifies buf
    ensures n == |Truncated(text, size)| && n < size
    ensures buf[at..at + n] == Truncated(text, size) && buf[at + n] == '\0'
    ensures buf[..at] == old(buf[..at]) && buf[at + n + 1..] == old(buf[at + n + 1..])
  {
    var kept := Truncated(text, size);
    n := |kept|;
    var i := 0;
    while i < n
      invariant 0 <= i <= n
      invariant buf[at..at + i] == kept[..i]
      invariant buf[..at] == old(buf[..at]) && buf[at + i..] == old(buf[at + i..])
    {
      buf[at + i] := kept[i];
      i := i + 1;
    }
    buf[at + n] := '\0';
  }

  /** What a bounded copy leaves in `buf`: `text`, a NUL, and the rest as `before` had it. */
  ghost predicate Written(buf: array<char>, text: string, before: seq<char>)
    reads buf
  {
    |text| < buf.Length == |before|
    && buf[..|text|] == text && buf[|text|] == '\0' && buf[|text| + 1..] == before[|text| + 1..]
  }

  /** `snprintf(buf, size, "%s", text)` at the start of `buf`. */
  method CopyOut(buf: array<char>, size: nat, text: string)
    requires 1 <= size <= buf.Length
    modifies buf
    ensures Written(buf, Truncated(text, size), old(buf[..]))
  {
    var n := PrintInto(buf, 0, size, text);
    assert buf[..n] == buf[0..n];
  }
}
