/**
 * The text handling of the over-the-air updater: splitting a download URL,
 * reading HTTP response headers, pulling fields out of the GitHub releases
 * JSON, and naming the updater's result codes.
 *
 * Text arguments are C strings: the characters before the terminating NUL,
 * so none of them contains a NUL, which the methods require (`IsCText`).
 * Caller buffers are `array<char>` with the size the caller passes.
 */
module OtaText {
  import opened CTypes
  import opened CStrings

  // ---------------------------------------------------------------------
  // atoi
  // ---------------------------------------------------------------------

  /** The characters of a C string: none of them is the terminating NUL. */
  predicate IsCText(s: string)
  {
    '\0' !in s
  }

  const INT_MAX: int := 0x7FFF_FFFF
  const INT_MIN: int := -0x8000_0000

  /** Where the run of `isspace` characters that starts at `i` ends. */
  function SpacesEnd(s: string, i: nat): (e: nat)
    requires i <= |s|
    ensures i <= e <= |s|
    decreases |s| - i
  {
    if i < |s| && IsSpace(s[i]) then SpacesEnd(s, i + 1) else i
  }

  /** Where the run of decimal digits that starts at `i` ends. */
  function DigitsEnd(s: string, i: nat): (e: nat)
    requires i <= |s|
    ensures i <= e <= |s|
    decreases |s| - i
  {
    if i < |s| && IsDigit(s[i]) then DigitsEnd(s, i + 1) else i
  }

  /** The value of the digit run that starts at `i`, read left to right onto `acc` as `strtol` reads it. */
  function DigitsFrom(s: string, i: nat, acc: nat): nat
    requires i <= |s|
    decreases |s| - i
  {
    if i < |s| && IsDigit(s[i]) then DigitsFrom(s, i + 1, acc * 10 + DigitValue(s[i])) else acc
  }

  /**
   * `atoi` on the 32-bit target: leading `isspace` characters, an optional
   * sign, then the longest run of digits; a value beyond the range of a
   * 32-bit `long` is clamped to it, as `strtol` does.
   */
  function Atoi(s: string): (r: i32)
  {
    var i := SpacesEnd(s, 0);
    var j := if At(s, i) == '-' || At(s, i) == '+' then i + 1 else i;
    var n: int := DigitsFrom(s, j, 0);
    if At(s, i) == '-' then (if n > -INT_MIN then INT_MIN else -n)
    else (if n > INT_MAX then INT_MAX else n)
  }

  /**
   * Reading on from a digit run's start `q`, with `acc` holding the value of
   * the digits read so far, ends at the run's end with the value of the run.
   */
  lemma {:induction false} DigitsFromRun(s: string, q: nat, i: nat, e: nat)
    requires q <= i <= e <= |s| && (forall k :: q <= k < e ==> IsDigit(s[k]))
    requires e == |s| || !IsDigit(s[e])
    ensures AllDigits(s[q..i]) && AllDigits(s[q..e])
    ensures DigitsFrom(s, i, DigitsValue(s[q..i])) == DigitsValue(s[q..e])
    ensures DigitsEnd(s, i) == e
    decreases e - i
  {
    if i < e {
      assert s[q..i + 1][..i - q] == s[q..i];
      DigitsFromRun(s, q, i + 1, e);
    }
  }

  /** A number printed with `%u` reads back with `atoi`, whatever non-digit follows it. */
  lemma AtoiOfDecimal(n: nat, rest: string)
    requires n <= INT_MAX && (rest == "" || !IsDigit(rest[0]))
    ensures Atoi(Decimal(n) + rest) == n
    ensures DigitsEnd(Decimal(n) + rest, 0) == |Decimal(n)|
  {
    var s := Decimal(n) + rest;
    var d := |Decimal(n)|;
    assert forall k :: 0 <= k < d ==> s[k] == Decimal(n)[k];
    assert SpacesEnd(s, 0) == 0;
    assert s[0..d] == Decimal(n);
    assert s[0..0] == [];
    DigitsFromRun(s, 0, 0, d);
  }

  // ---------------------------------------------------------------------
  // URLs
  // ---------------------------------------------------------------------

  /** The parts of a URL the HTTP client connects with. */
  datatype Url = Url(host: string, port: u16, path: string)

  const HTTPS_PORT: u16 := 443

  /** Where the host starts: after "https://" or "http://", the only schemes accepted. */
  function SchemeLength(url: string): Option<nat>
  {
    if IsPrefix("https://", url) then Some(8)
    else if IsPrefix("http://", url) then Some(7)
    else None
  }

  /** The first '/' or ':' at or after `i`, or the end of the URL. */
  function HostEnd(url: string, i: nat): (e: nat)
    requires i <= |url|
    ensures i <= e <= |url|
    ensures e < |url| ==> url[e] == '/' || url[e] == ':'
    decreases |url| - i
  {
    if i == |url| || url[i] == '/' || url[i] == ':' then i else HostEnd(url, i + 1)
  }

  /** The host and where it ends, when the scheme is known and the host fits `hostLen` with its NUL. */
  function HostPart(url: string, hostLen: nat): Option<(string, nat)>
  {
    match SchemeLength(url)
    case None => None
    case Some(start) =>
      var e := HostEnd(url, start);
      if e == start || e - start >= hostLen then None else Some((url[start..e], e))
  }

  /** The port after the host, and where the path may start: 443 when no ':' follows the host. */
  function PortPart(url: string, e: nat): (u16, nat)
    requires e <= |url|
  {
    if At(url, e) == ':' then
      (ToU16(Atoi(url[e + 1..])), DigitsEnd(url, e + 1))
    else (HTTPS_PORT, e)
  }

  /** The path from offset `q`: the rest when it starts with '/' and fits, otherwise "/". */
  function PathPart(url: string, q: nat, pathLen: nat): Option<string>
    requires q <= |url|
  {
    if At(url, q) == '/' then (if |url| - q >= pathLen then None else Some(url[q..]))
    else if pathLen < 2 then None
    else Some("/")
  }

  /** `parse_url` with caller buffers of `hostLen` and `pathLen` characters: the parts it stores on success. */
  function UrlOf(url: string, hostLen: nat, pathLen: nat): (r: Option<Url>)
    ensures r.Some? ==> IsPrefix("https://", url) || IsPrefix("http://", url)
    ensures r.Some? ==> 1 <= |r.value.host| < hostLen && |r.value.path| < pathLen
    ensures r.Some? ==> |r.value.path| >= 1 && r.value.path[0] == '/'
  {
    match HostPart(url, hostLen)
    case None => None
    case Some((host, e)) =>
      var (port, q) := PortPart(url, e);
      match PathPart(url, q, pathLen)
      case None => None
      case Some(path) => Some(Url(host, port, path))
  }

  /** A URL without a port goes to 443, whichever of the two schemes it names. */
  lemma UrlWithoutPort(scheme: string, host: string, path: string, hostLen: nat, pathLen: nat)
    requires scheme == "https://" || scheme == "http://"
    requires 1 <= |host| < hostLen && '/' !in host && ':' !in host
    requires path == "" || path[0] == '/'
    requires if path == "" then pathLen >= 2 else |path| < pathLen
    ensures UrlOf(scheme + host + path, hostLen, pathLen) == Some(Url(host, HTTPS_PORT, if path == "" then "/" else path))
  {
    var url := scheme + host + path;
    var e := |scheme| + |host|;
    HostPartOf(url, scheme, host, path, hostLen);
    assert url[e..] == path;
    assert At(url, e) != ':' by {
      assert path != "" ==> url[e] == path[0];
    }
    PathPartOf(url, e, path, pathLen);
    UrlOfParts(url, hostLen, pathLen, host, e, HTTPS_PORT, e, if path == "" then "/" else path);
  }

  /** A URL with a port: the port is the number after ':', the path what follows it. */
  lemma UrlWithPort(scheme: string, host: string, port: u16, path: string, hostLen: nat, pathLen: nat)
    requires scheme == "https://" || scheme == "http://"
    requires 1 <= |host| < hostLen && '/' !in host && ':' !in host
    requires path == "" || path[0] == '/'
    requires if path == "" then pathLen >= 2 else |path| < pathLen
    ensures UrlOf(scheme + host + ":" + Decimal(port) + path, hostLen, pathLen)
         == Some(Url(host, port, if path == "" then "/" else path))
  {
    var url := scheme + host + ":" + Decimal(port) + path;
    var e := |scheme| + |host|;
    var q := e + 1 + |Decimal(port)|;
    PortUrlHost(url, scheme, host, port, path, hostLen, e);
    PortUrlPort(url, scheme, host, port, path, e, q);
    PortUrlPath(url, scheme, host, port, path, pathLen, q);
    UrlOfParts(url, hostLen, pathLen, host, e, port, q, if path == "" then "/" else path);
  }

  /** The host of a URL with a port ends at the port's ':'. */
  lemma PortUrlHost(url: string, scheme: string, host: string, port: u16, path: string, hostLen: nat, e: nat)
    requires url == scheme + host + ":" + Decimal(port) + path && e == |scheme| + |host|
    requires scheme == "https://" || scheme == "http://"
    requires 1 <= |host| < hostLen && '/' !in host && ':' !in host
    ensures HostPart(url, hostLen) == Some((host, e))
  {
    PortLayout(url, scheme, host, Decimal(port), path);
    HostPartOf(url, scheme, host, ":" + Decimal(port) + path, hostLen);
  }

  /** The port of a URL with a port is the number after the ':'; the path starts after its digits. */
  lemma PortUrlPort(url: string, scheme: string, host: string, port: u16, path: string, e: nat, q: nat)
    requires url == scheme + host + ":" + Decimal(port) + path
    requires e == |scheme| + |host| && q == e + 1 + |Decimal(port)|
    requires path == "" || path[0] == '/'
    ensures e < |url| && PortPart(url, e) == (port, q)
  {
    PortLayout(url, scheme, host, Decimal(port), path);
    PortPartOf(url, e, port, path);
  }

  /** The path of a URL with a port is what follows the port's digits. */
  lemma PortUrlPath(url: string, scheme: string, host: string, port: u16, path: string, pathLen: nat, q: nat)
    requires url == scheme + host + ":" + Decimal(port) + path
    requires q == |scheme| + |host| + 1 + |Decimal(port)|
    requires path == "" || path[0] == '/'
    requires if path == "" then pathLen >= 2 else |path| < pathLen
    ensures q <= |url| && PathPart(url, q, pathLen) == Some(if path == "" then "/" else path)
  {
    PortLayout(url, scheme, host, Decimal(port), path);
    PathPartOf(url, q, path, pathLen);
  }

  /** Where the pieces of a URL with a port lie. */
  lemma PortLayout(url: string, scheme: string, host: string, digits: string, path: string)
    requires url == scheme + host + ":" + digits + path
    ensures url == scheme + host + (":" + digits + path)
    ensures url[|scheme| + |host| + 1..] == digits + path
    ensures url[|scheme| + |host| + 1 + |digits|..] == path
  {
  }

  /** `parse_url` succeeds with the parts its three stages find. */
  lemma UrlOfParts(url: string, hostLen: nat, pathLen: nat, host: string, e: nat, port: u16, q: nat, path: string)
    requires HostPart(url, hostLen) == Some((host, e))
    requires e <= |url| && PortPart(url, e) == (port, q)
    requires q <= |url| && PathPart(url, q, pathLen) == Some(path)
    ensures UrlOf(url, hostLen, pathLen) == Some(Url(host, port, path))
  {
  }

  /** The host of a URL is what lies between the scheme and the first '/' or ':'. */
  lemma HostPartOf(url: string, scheme: string, host: string, tail: string, hostLen: nat)
    requires url == scheme + host + tail
    requires scheme == "https://" || scheme == "http://"
    requires 1 <= |host| < hostLen && '/' !in host && ':' !in host
    requires tail == "" || tail[0] == '/' || tail[0] == ':'
    ensures HostPart(url, hostLen) == Some((host, |scheme| + |host|))
  {
    var e := |scheme| + |host|;
    assert url[..|scheme|] == scheme;
    assert scheme == "http://" ==> url[4] == ':';
    assert SchemeLength(url) == Some(|scheme|);
    assert url[|scheme|..e] == host;
    assert e < |url| ==> url[e] == tail[0];
    HostEndOf(url, |scheme|, e);
  }

  /** A port printed after the host's ':' reads back, and the path starts right after its digits. */
  lemma PortPartOf(url: string, e: nat, port: u16, path: string)
    requires e < |url| && url[e] == ':' && url[e + 1..] == Decimal(port) + path
    requires path == "" || path[0] == '/'
    ensures PortPart(url, e) == (port, e + 1 + |Decimal(port)|)
  {
    var d := Decimal(port);
    var v := url[e + 1..];
    assert forall k :: e + 1 <= k < e + 1 + |d| ==> url[k] == v[k - e - 1] == d[k - e - 1];
    assert e + 1 + |d| < |url| ==> url[e + 1 + |d|] == v[|d|] == path[0];
    DigitsFromRun(url, e + 1, e + 1, e + 1 + |d|);
    AtoiOfDecimal(port, path);
  }

  /** The path is the rest of the URL when it starts with '/', otherwise "/". */
  lemma PathPartOf(url: string, q: nat, path: string, pathLen: nat)
    requires q <= |url| && url[q..] == path
    requires path == "" || path[0] == '/'
    requires if path == "" then pathLen >= 2 else |path| < pathLen
    ensures PathPart(url, q, pathLen) == Some(if path == "" then "/" else path)
  {
    assert path != "" ==> url[q] == path[0];
  }

  /** The host scan stops at the first '/' or ':', and at nothing else. */
  lemma {:induction false} HostEndOf(url: string, i: nat, e: nat)
    requires i <= e <= |url| && forall j :: i <= j < e ==> url[j] != '/' && url[j] != ':'
    requires e == |url| || url[e] == '/' || url[e] == ':'
    ensures HostEnd(url, i) == e
    decreases e - i
  {
    if i < e {
      HostEndOf(url, i + 1, e);
    }
  }

  /** No character before the end of the host scan is a '/' or a ':'. */
  lemma {:induction false} HostEndClear(url: string, i: nat)
    requires i <= |url|
    ensures forall j :: i <= j < HostEnd(url, i) ==> url[j] != '/' && url[j] != ':'
    decreases |url| - i
  {
    if i < |url| && url[i] != '/' && url[i] != ':' {
      HostEndClear(url, i + 1);
    }
  }

  /** The host `parse_url` stores holds no '/' and no ':'. */
  lemma UrlHostClean(url: string, hostLen: nat, pathLen: nat)
    ensures HostPart(url, hostLen).Some? ==> '/' !in HostPart(url, hostLen).value.0 && ':' !in HostPart(url, hostLen).value.0
    ensures UrlOf(url, hostLen, pathLen).Some? ==> '/' !in UrlOf(url, hostLen, pathLen).value.host && ':' !in UrlOf(url, hostLen, pathLen).value.host
  {
    if SchemeLength(url).Some? {
      var start := SchemeLength(url).value;
      HostEndClear(url, start);
      var host := url[start..HostEnd(url, start)];
      assert forall j :: 0 <= j < |host| ==> host[j] == url[start + j];
    }
  }

  /**
   * `parse_url(url, host, hostLen, &port, path, pathLen)`. The host and the
   * port are stored as soon as they are read, so a URL whose path then
   * fails leaves them written.
   */
  method ParseUrl(url: string, host: array<char>, hostLen: nat, path: array<char>, pathLen: nat)
    returns (ok: bool, port: Option<u16>)
    requires IsCText(url)
    requires hostLen <= host.Length && pathLen <= path.Length && host != path
    modifies host, path
    ensures ok <==> UrlOf(url, hostLen, pathLen).Some?
    ensures HostPart(url, hostLen).None? ==> port.None? && host[..] == old(host[..])
    ensures HostPart(url, hostLen).Some? ==>
      && Written(host, HostPart(url, hostLen).value.0, old(host[..]))
      && port == Some(PortPart(url, HostPart(url, hostLen).value.1).0)
    ensures ok ==> Written(path, UrlOf(url, hostLen, pathLen).value.path, old(path[..]))
    ensures !ok ==> path[..] == old(path[..])
  {
    var e := StoreHost(url, host, hostLen);
    if e.None? {
      return false, None;
    }
    var p, q := ReadPort(url, e.value);
    port := Some(p);
    ok := StorePath(url, q, path, pathLen);
  }

  /** The scheme and host stage of `parse_url`: the host is stored, and where it ends returned. */
  method StoreHost(url: string, host: array<char>, hostLen: nat) returns (e: Option<nat>)
    requires hostLen <= host.Length
    modifies host
    ensures e.None? <==> HostPart(url, hostLen).None?
    ensures e.None? ==> host[..] == old(host[..])
    ensures e.Some? ==>
      && e.value == HostPart(url, hostLen).value.1
      && Written(host, HostPart(url, hostLen).value.0, old(host[..]))
  {
    var scheme := SchemeLength(url);
    if scheme.None? {
      return None;
    }
    var start := scheme.value;
    var end := SkipHost(url, start);
    if end == start || end - start >= hostLen {
      return None;
    }
    CopyOut(host, hostLen, url[start..end]);
    return Some(end);
  }

  /** The port stage of `parse_url`: the port, and where the path may start. */
  method ReadPort(url: string, e: nat) returns (port: u16, q: nat)
    requires e <= |url|
    ensures (port, q) == PortPart(url, e)
    ensures q <= |url|
    ensures port != HTTPS_PORT ==> e < |url| && url[e] == ':'
  {
    if At(url, e) == ':' {
      port := ToU16(Atoi(url[e + 1..]));
      q := SkipDigits(url, e + 1);
    } else {
      port := HTTPS_PORT;
      q := e;
    }
  }

  /** The path stage of `parse_url`: the path stored when it fits. */
  method StorePath(url: string, q: nat, path: array<char>, pathLen: nat) returns (ok: bool)
    requires q <= |url| && pathLen <= path.Length
    modifies path
    ensures ok <==> PathPart(url, q, pathLen).Some?
    ensures ok ==> Written(path, PathPart(url, q, pathLen).value, old(path[..]))
    ensures !ok ==> path[..] == old(path[..])
  {
    if At(url, q) == '/' {
      if |url| - q >= pathLen {
        return false;
      }
      CopyOut(path, pathLen, url[q..]);
    } else {
      if pathLen < 2 {
        return false;
      }
      path[0] := '/';
      path[1] := '\0';
      assert path[..1] == "/";
    }
    return true;
  }

  /** The host scan of `parse_url`: forward to the first '/' or ':', or the end. */
  method SkipHost(url: string, start: nat) returns (e: nat)
    requires start <= |url|
    ensures e == HostEnd(url, start)
  {
    e := start;
    while e < |url| && url[e] != '/' && url[e] != ':'
      invariant start <= e <= |url|
      invariant HostEnd(url, e) == HostEnd(url, start)
    {
      e := e + 1;
    }
  }

  /** `while (*p >= '0' && *p <= '9') p++;` from offset `i`. */
  method SkipDigits(s: string, i: nat) returns (q: nat)
    requires i <= |s|
    ensures q == DigitsEnd(s, i)
  {
    q := i;
    while q < |s| && IsDigit(s[q])
      invariant i <= q <= |s| && DigitsEnd(s, q) == DigitsEnd(s, i)
    {
      q := q + 1;
    }
  }

  /** `while (*p == c) p++;` from offset `i`. */
  method SkipRun(s: string, i: nat, c: char) returns (q: nat)
    requires i <= |s|
    ensures q == i + CountLeading(s[i..], c)
  {
    q := i;
    while q < |s| && s[q] == c
      invariant i <= q <= |s|
      invariant forall j :: i <= j < q ==> s[j] == c
    {
      q := q + 1;
    }
    RunThen(s[i..], q - i, c);
  }

  /** `CountLeading` counts exactly the run of `c` that opens `v`. */
  lemma {:induction false} RunThen(v: string, k: nat, c: char)
    requires k <= |v| && (forall j :: 0 <= j < k ==> v[j] == c) && (k == |v| || v[k] != c)
    ensures CountLeading(v, c) == k
  {
    if k > 0 {
      RunThen(v[1..], k - 1, c);
    }
  }

  // ---------------------------------------------------------------------
  // HTTP headers
  // ---------------------------------------------------------------------

  const CRLF: string := "\r\n"

  /** `parse_status_code`: the number after the first space of the response, 0 when there is none. */
  function StatusCode(hdr: string): i32
  {
    match Find(hdr, " ")
    case None => 0
    case Some(i) => Atoi(hdr[i + 1..])
  }

  /** The status line "HTTP/1.1 <code> ..." yields its code. */
  lemma StatusCodeOfLine(proto: string, code: nat, rest: string)
    requires ' ' !in proto && code <= INT_MAX && (rest == "" || !IsDigit(rest[0]))
    ensures StatusCode(proto + " " + Decimal(code) + rest) == code
  {
    var s := proto + " " + Decimal(code) + rest;
    assert s[|proto|..|proto| + 1] == " ";
    forall j | 0 <= j < |proto|
      ensures !OccursAt(s, " ", j)
    {
      assert s[j..j + 1][0] == proto[j];
    }
    FindFirst(s, " ", |proto|);
    assert s[|proto| + 1..] == Decimal(code) + rest;
    AtoiOfDecimal(code, rest);
  }

  /** `tolower` in the "C" locale. */
  function Lower(c: char): char
  {
    if 'A' <= c <= 'Z' then (c as int + 32) as char else c
  }

  /** Two keys `strncasecmp` cannot tell apart. */
  predicate SameIgnoringCase(a: string, b: string)
  {
    |a| == |b| && forall i :: 0 <= i < |a| ==> Lower(a[i]) == Lower(b[i])
  }

  /** The line at the start of `h` names `key`, case aside, with ':' right after it. */
  predicate KeyAt(h: string, key: string)
  {
    |key| < |h| && SameIgnoringCase(h[..|key|], key) && h[|key|] == ':'
  }

  /** Where the line that opens `w` ends: at its CRLF, or at the end of `w`. */
  function LineEnd(w: string): (n: nat)
    ensures n <= |w|
  {
    match Find(w, CRLF)
    case None => |w|
    case Some(e) => e
  }

  /** The value part of a header line after its ':': the spaces skipped, up to the end of the line. */
  function LineValue(w: string): string
  {
    var t := w[CountLeading(w, ' ')..];
    t[..LineEnd(t)]
  }

  /**
   * What `find_header` finds: the value of the first line, from the start
   * of `h` or after a CRLF, that opens with `key` and a ':'.
   */
  function HeaderValue(h: string, key: string): Option<string>
    decreases |h|
  {
    if |h| == 0 then None
    else if KeyAt(h, key) then Some(LineValue(h[|key| + 1..]))
    else match Find(h, CRLF)
      case None => None
      case Some(nl) => HeaderValue(h[nl + 2..], key)
  }

  /** The key is matched without regard to case. */
  lemma {:induction false} HeaderIgnoresCase(h: string, k1: string, k2: string)
    requires SameIgnoringCase(k1, k2)
    ensures HeaderValue(h, k1) == HeaderValue(h, k2)
    decreases |h|
  {
    if |h| > 0 {
      assert KeyAt(h, k1) == KeyAt(h, k2);
      match Find(h, CRLF)
      case None =>
      case Some(nl) => HeaderIgnoresCase(h[nl + 2..], k1, k2);
    }
  }

  /** A line that does not open with the key is skipped whole, even when the key appears inside it. */
  lemma HeaderSkipsLine(line: string, rest: string, key: string)
    requires '\r' !in line && !KeyAt(line + CRLF + rest, key)
    ensures HeaderValue(line + CRLF + rest, key) == HeaderValue(rest, key)
  {
    var h := line + CRLF + rest;
    CrlfAfter(line, rest);
    assert h[|line| + 2..] == rest;
  }

  /** The first CRLF of `line + CRLF + rest` is the one after `line`, when `line` has no '\r'. */
  lemma CrlfAfter(line: string, rest: string)
    requires '\r' !in line
    ensures Find(line + CRLF + rest, CRLF) == Some(|line|)
  {
    var h := line + CRLF + rest;
    assert h[|line|..|line| + 2] == CRLF;
    forall j | 0 <= j < |line|
      ensures !OccursAt(h, CRLF, j)
    {
      assert j + 2 <= |h| ==> h[j..j + 2][0] == line[j];
    }
    FindFirst(h, CRLF, |line|);
  }

  /** A header line "Key: value" is found, its value read after the spaces and up to the CRLF. */
  lemma HeaderOfLine(key: string, pad: string, v: string, rest: string)
    requires forall i :: 0 <= i < |pad| ==> pad[i] == ' '
    requires '\r' !in v && (v == "" || v[0] != ' ')
    ensures HeaderValue(key + ":" + pad + v + CRLF + rest, key) == Some(v)
  {
    var tail := v + CRLF + rest;
    var after := pad + tail;
    assert key + ":" + pad + v + CRLF + rest == key + ":" + after;
    assert CountLeading(after, ' ') == |pad| by {
      assert after[|pad|] == tail[0];
      RunThen(after, |pad|, ' ');
    }
    assert after[|pad|..] == tail;
    assert LineEnd(tail) == |v| by {
      CrlfAfter(v, rest);
    }
    assert tail[..|v|] == v;
    HeaderAfterKey(key, after, |pad|, v);
  }

  /** The header found on a line that opens with the key: after the `k` spaces, up to the line's end. */
  lemma HeaderAfterKey(key: string, after: string, k: nat, v: string)
    requires k <= |after| && CountLeading(after, ' ') == k
    requires LineEnd(after[k..]) == |v| && after[k..][..|v|] == v
    ensures HeaderValue(key + ":" + after, key) == Some(v)
  {
    var h := key + ":" + after;
    KeyOpensLine(key, after);
    HeaderOpensWithKey(h, key);
    assert LineValue(after) == v;
  }

  /** A line that starts with the key and a ':' names the key; its value part is what follows. */
  lemma KeyOpensLine(key: string, after: string)
    ensures KeyAt(key + ":" + after, key)
    ensures (key + ":" + after)[|key| + 1..] == after
  {
    assert (key + ":" + after)[..|key|] == key;
  }

  /**
   * `find_header(headers, key, buf, bufLen)`: walks the header lines; on a
   * match it copies the value, cut to `bufLen - 1` characters, and a NUL
   * into `buf`.
   */
  method FindHeader(headers: string, key: string, buf: array<char>, bufLen: nat) returns (found: bool)
    requires IsCText(headers) && IsCText(key)
    requires 1 <= bufLen <= buf.Length
    modifies buf
    ensures found <==> HeaderValue(headers, key).Some?
    ensures found ==> Written(buf, Truncated(HeaderValue(headers, key).value, bufLen), old(buf[..]))
    ensures !found ==> buf[..] == old(buf[..])
  {
    // `line` is what the C pointer `p` points at: a suffix of `headers`.
    var line := headers;
    while |line| > 0
      invariant HeaderValue(line, key) == HeaderValue(headers, key)
      invariant buf[..] == old(buf[..])
      decreases |line|
    {
      if KeyAt(line, key) {
        var q := SkipRun(line, |key| + 1, ' ');
        HeaderAtKey(line, key, q);
        var end := LineEnd(line[q..]);
        assert HeaderValue(headers, key) == Some(line[q..q + end]);
        CopyOut(buf, bufLen, line[q..q + end]);
        return true;
      }
      var nl := Find(line, CRLF);
      if nl.None? {
        return false;
      }
      line := line[nl.value + 2..];
    }
    return false;
  }

  /** The value `find_header` copies from a line that matches: after the spaces, up to the CRLF. */
  lemma HeaderAtKey(h: string, key: string, q: nat)
    requires KeyAt(h, key) && q == |key| + 1 + CountLeading(h[|key| + 1..], ' ')
    ensures q <= |h| && HeaderValue(h, key) == Some(h[q..q + LineEnd(h[q..])])
  {
    HeaderOpensWithKey(h, key);
    var w := h[|key| + 1..];
    var t := w[CountLeading(w, ' ')..];
    SuffixOfSuffix(h, |key| + 1, q - |key| - 1);
    assert t == h[q..];
    assert LineValue(w) == t[..LineEnd(t)];
    Window(h, q, LineEnd(t));
  }

  lemma HeaderOpensWithKey(h: string, key: string)
    requires KeyAt(h, key)
    ensures HeaderValue(h, key) == Some(LineValue(h[|key| + 1..]))
  {
  }

  const CONTENT_LENGTH: string := "Content-Length"

  /** `find_content_length`: `atoi` of the value cut to 31 characters, -1 when the header is absent. */
  function ContentLength(headers: string): (n: i32)
    ensures HeaderValue(headers, CONTENT_LENGTH).None? ==> n == -1
  {
    match HeaderValue(headers, CONTENT_LENGTH)
    case None => -1
    case Some(v) => Atoi(Truncated(v, 32))
  }

  /** A "Content-Length: <n>" line gives `n`, whatever case the server wrote the name in. */
  lemma ContentLengthOfLine(name: string, n: nat, rest: string)
    requires SameIgnoringCase(name, CONTENT_LENGTH) && n <= INT_MAX
    ensures ContentLength(name + ": " + Decimal(n) + CRLF + rest) == n
  {
    var h := name + ": " + Decimal(n) + CRLF + rest;
    assert h == name + ":" + " " + Decimal(n) + CRLF + rest;
    HeaderOfLine(name, " ", Decimal(n), rest);
    HeaderIgnoresCase(h, name, CONTENT_LENGTH);
    assert Pow10(10) == 10000000000;
    DecimalLength(n, 10);
    assert Decimal(n) + "" == Decimal(n);
    AtoiOfDecimal(n, "");
  }

  // ---------------------------------------------------------------------
  // The GitHub releases JSON
  // ---------------------------------------------------------------------

  /** The pattern `json_find_string` builds for `key` in its 128-character buffer. */
  function KeyPattern(key: string, spaced: bool): string
  {
    Truncated("\"" + key + (if spaced then "\": \"" else "\":\""), 128)
  }

  /** The text from offset `at` up to the next '"'. */
  function QuotedFrom(json: string, at: nat): (r: Option<string>)
    ensures r.Some? ==> '"' !in r.value
  {
    if at > |json| then None
    else match FindChar(json[at..], '"')
      case None => None
      case Some(e) => Some(json[at..at + e])
  }

  /** The text up to the first '"' after `at` is read whole. */
  lemma QuotedFromOf(pre: string, v: string, rest: string)
    requires '"' !in v
    ensures QuotedFrom(pre + v + "\"" + rest, |pre|) == Some(v)
  {
    var json := pre + v + "\"" + rest;
    assert json[|pre|..] == v + "\"" + rest;
    QuoteAfter(v, rest);
    assert json[|pre|..|pre| + |v|] == v;
  }

  /**
   * `json_find_string`: the text after the first `"key":"`, or after the
   * first `"key": "` when there is none, up to the next '"'.
   */
  function JsonString(json: string, key: string): (r: Option<string>)
    ensures r.Some? ==> '"' !in r.value
  {
    var tight := KeyPattern(key, false);
    var loose := KeyPattern(key, true);
    match Find(json, tight)
    case Some(i) => QuotedFrom(json, i + |tight|)
    case None =>
      match Find(json, loose)
      case None => None
      case Some(i) => QuotedFrom(json, i + |loose|)
  }

  /** The first `"key":"value"` of the document gives `value`. */
  lemma JsonStringOf(pre: string, key: string, v: string, rest: string)
    requires '"' !in v
    requires forall j :: 0 <= j < |pre| ==> !OccursAt(pre + KeyPattern(key, false) + v + "\"" + rest, KeyPattern(key, false), j)
    ensures JsonString(pre + KeyPattern(key, false) + v + "\"" + rest, key) == Some(v)
  {
    var pat := KeyPattern(key, false);
    var json := pre + pat + v + "\"" + rest;
    assert json[|pre|..|pre| + |pat|] == pat;
    FindFirst(json, pat, |pre|);
    QuotedFromOf(pre + pat, v, rest);
  }

  /**
   * With no `"key":"` anywhere, the first `"key": "value"` of the document
   * gives `value`: the fallback search for the spaced pattern.
   */
  lemma JsonStringOfSpaced(pre: string, key: string, v: string, rest: string)
    requires '"' !in v
    requires forall j: nat :: !OccursAt(pre + KeyPattern(key, true) + v + "\"" + rest, KeyPattern(key, false), j)
    requires forall j :: 0 <= j < |pre| ==> !OccursAt(pre + KeyPattern(key, true) + v + "\"" + rest, KeyPattern(key, true), j)
    ensures JsonString(pre + KeyPattern(key, true) + v + "\"" + rest, key) == Some(v)
  {
    var pat := KeyPattern(key, true);
    var json := pre + pat + v + "\"" + rest;
    assert Find(json, KeyPattern(key, false)).None?;
    assert json[|pre|..|pre| + |pat|] == pat;
    FindFirst(json, pat, |pre|);
    QuotedFromOf(pre + pat, v, rest);
  }

  /** The first '"' of `v + "\"" + rest` is the one after `v`, when `v` has none. */
  lemma QuoteAfter(v: string, rest: string)
    requires '"' !in v
    ensures FindChar(v + "\"" + rest, '"') == Some(|v|)
  {
    var s := v + "\"" + rest;
    assert s[..|v|] == v && s[|v|] == '"';
    assert s[..|v| + 1] == v + "\"";
  }

  /**
   * `json_find_string(json, key, buf, bufLen)`: the value, cut to
   * `bufLen - 1` characters, and a NUL go into `buf`.
   */
  method JsonFindString(json: string, key: string, buf: array<char>, bufLen: nat) returns (found: bool)
    requires IsCText(json) && IsCText(key)
    requires 1 <= bufLen <= buf.Length
    modifies buf
    ensures found <==> JsonString(json, key).Some?
    ensures found ==> Written(buf, Truncated(JsonString(json, key).value, bufLen), old(buf[..]))
    ensures !found ==> buf[..] == old(buf[..])
  {
    var value := JsonString(json, key);
    if value.None? {
      return false;
    }
    CopyOut(buf, bufLen, value.value);
    return true;
  }

  const ASSET_NAME: string := "\"padproxy.bin\""
  const URL_KEY: string := "\"browser_download_url\":\""
  const URL_KEY_SPACED: string := "\"browser_download_url\": \""

  /** The first `"browser_download_url":"` at or after `from`, or else the first spaced one. */
  function UrlKeyFrom(json: string, from: nat): (r: Option<nat>)
    requires from <= |json|
    ensures r.Some? ==> from <= r.value < |json|
  {
    match FindFrom(json, URL_KEY, from)
    case Some(k) => Some(k)
    case None => FindFrom(json, URL_KEY_SPACED, from)
  }

  /**
   * The URL after a download-URL key at `k`: after the key's ':', any
   * spaces and a '"', the text up to the next '"'. A URL that does not fit
   * `urlLen` with its NUL fails rather than being cut.
   */
  function UrlValueAt(json: string, k: nat, urlLen: nat): (r: Option<string>)
    requires k < |json|
    ensures r.Some? ==> |r.value| < urlLen && '"' !in r.value
  {
    match FindChar(json[k + 1..], ':')
    case None => None
    case Some(c) => QuotedValue(json, k + 1 + c + 1, urlLen)
  }

  /** From offset `v`: any spaces, then a quoted string that fits `urlLen` with its NUL. */
  function QuotedValue(json: string, v: nat, urlLen: nat): (r: Option<string>)
    requires v <= |json|
    ensures r.Some? ==> |r.value| < urlLen && '"' !in r.value
  {
    var q := v + CountLeading(json[v..], ' ');
    if At(json, q) != '"' then None
    else match QuotedFrom(json, q + 1)
      case None => None
      case Some(url) => if |url| >= urlLen then None else Some(url)
  }

  /** `find_bin_asset_url`: the URL under the first download-URL key found after the asset name "padproxy.bin". */
  function BinAssetUrl(json: string, urlLen: nat): (r: Option<string>)
    ensures r.Some? ==> |r.value| < urlLen && '"' !in r.value
  {
    match Find(json, ASSET_NAME)
    case None => None
    case Some(a) =>
      match UrlKeyFrom(json, a)
      case None => None
      case Some(k) => UrlValueAt(json, k, urlLen)
  }

  /** An asset entry `"padproxy.bin",...,"browser_download_url":"<url>"` gives `<url>` when it fits. */
  lemma BinAssetUrlOf(pre: string, mid: string, url: string, rest: string, urlLen: nat)
    requires '"' !in url && |url| < urlLen
    requires forall j :: 0 <= j < |pre| ==>
      !OccursAt(pre + ASSET_NAME + mid + URL_KEY + url + "\"" + rest, ASSET_NAME, j)
    requires forall j :: |pre| <= j < |pre| + |ASSET_NAME| + |mid| ==>
      !OccursAt(pre + ASSET_NAME + mid + URL_KEY + url + "\"" + rest, URL_KEY, j)
    ensures BinAssetUrl(pre + ASSET_NAME + mid + URL_KEY + url + "\"" + rest, urlLen) == Some(url)
  {
    var json := pre + ASSET_NAME + mid + URL_KEY + url + "\"" + rest;
    var a := |pre|;
    var k := a + |ASSET_NAME| + |mid|;
    assert json[a..a + |ASSET_NAME|] == ASSET_NAME;
    FindFirst(json, ASSET_NAME, a);
    assert json[k..k + |URL_KEY|] == URL_KEY;
    FindFromFirst(json, URL_KEY, a, k);
    UrlValueOf(pre + ASSET_NAME + mid, url, rest, urlLen);
  }

  /** The value after a `"browser_download_url":"` key is the text up to the next '"'. */
  lemma UrlValueOf(pre: string, url: string, rest: string, urlLen: nat)
    requires '"' !in url && |url| < urlLen
    ensures UrlValueAt(pre + URL_KEY + url + "\"" + rest, |pre|, urlLen) == Some(url)
  {
    var json := pre + URL_KEY + url + "\"" + rest;
    var k := |pre|;
    UrlKeyLayout(json, pre, url + "\"" + rest);
    FindCharAt(json[k + 1..], ':', 21);
    QuotedFromOf(pre + URL_KEY, url, rest);
  }

  /** Where the ':' and the opening '"' of a `"browser_download_url":"` key at `|pre|` lie. */
  lemma UrlKeyLayout(json: string, pre: string, tail: string)
    requires json == pre + URL_KEY + tail
    ensures |pre| + 24 <= |json|
    ensures json[|pre| + 1..][21] == ':' && ':' !in json[|pre| + 1..][..21]
    ensures json[|pre| + 23] == '"' && CountLeading(json[|pre| + 23..], ' ') == 0
  {
    var k := |pre|;
    assert json[k + 1..][..21] == URL_KEY[1..22];
    assert json[k + 23..][0] == '"';
  }

  /**
   * `find_bin_asset_url(json, buf, urlLen)`: on success the URL and a NUL
   * go into `buf`.
   */
  method FindBinAssetUrl(json: string, buf: array<char>, urlLen: nat) returns (found: bool)
    requires IsCText(json)
    requires urlLen <= buf.Length
    modifies buf
    ensures found <==> BinAssetUrl(json, urlLen).Some?
    ensures found ==> Written(buf, BinAssetUrl(json, urlLen).value, old(buf[..]))
    ensures !found ==> buf[..] == old(buf[..])
  {
    var asset := Find(json, ASSET_NAME);
    if asset.None? {
      return false;
    }
    var urlKey := UrlKeyFrom(json, asset.value);
    if urlKey.None? {
      return false;
    }
    var url := ReadUrlValue(json, urlKey.value, urlLen);
    if url.None? {
      return false;
    }
    CopyOut(buf, |url.value| + 1, url.value);
    return true;
  }

  /** The value scan of `find_bin_asset_url`, from the key at `k`. */
  method ReadUrlValue(json: string, k: nat, urlLen: nat) returns (url: Option<string>)
    requires k < |json|
    ensures url == UrlValueAt(json, k, urlLen)
  {
    var colon := FindChar(json[k + 1..], ':');
    if colon.None? {
      return None;
    }
    url := ReadQuoted(json, k + 1 + colon.value + 1, urlLen);
  }

  /** `while (*val == ' ') val++;`, the opening '"', and the text up to the closing one. */
  method ReadQuoted(json: string, v: nat, urlLen: nat) returns (url: Option<string>)
    requires v <= |json|
    ensures url == QuotedValue(json, v, urlLen)
  {
    var q := SkipRun(json, v, ' ');
    if At(json, q) != '"' {
      return None;
    }
    url := QuotedFrom(json, q + 1);
    if url.Some? && |url.value| >= urlLen {
      url := None;
    }
  }

  // ---------------------------------------------------------------------
  // Result names
  // ---------------------------------------------------------------------

  /** The updater's result codes, in the order of their C enumeration. */
  const NO_UPDATE: int := 0
  const UPDATE_APPLIED: int := 1
  const ERROR_NO_WIFI_CONFIG: int := 2
  const ERROR_WIFI: int := 3
  const ERROR_HTTP: int := 4
  const ERROR_VERSION: int := 5
  const ERROR_FLASH: int := 6

  /** `ota_update_result_name`: the name of a result code, "UNKNOWN" for any other value. */
  function ResultName(code: int): (name: string)
    ensures (0 <= code <= 6) != (name == "UNKNOWN")
  {
    if code == NO_UPDATE then "NO_UPDATE"
    else if code == UPDATE_APPLIED then "UPDATE_APPLIED"
    else if code == ERROR_NO_WIFI_CONFIG then "ERROR_NO_WIFI_CONFIG"
    else if code == ERROR_WIFI then "ERROR_WIFI"
    else if code == ERROR_HTTP then "ERROR_HTTP"
    else if code == ERROR_VERSION then "ERROR_VERSION"
    else if code == ERROR_FLASH then "ERROR_FLASH"
    else "UNKNOWN"
  }

  /** No two result codes share a name, so a logged name identifies its code. */
  lemma ResultNamesDistinct(a: int, b: int)
    requires 0 <= a <= 6 && 0 <= b <= 6 && a != b
    ensures ResultName(a) != ResultName(b)
  {
  }
}
