/**
 * How the updater's HTTP client takes in the bytes of a response:
 * `process_data` gathers the header block into a 2048-byte buffer until
 * the blank line that ends it, reads the status code, the content length
 * and the `Location` header out of it, and hands the rest of the response
 * to the body sink: the caller's buffer for the releases query, or the
 * flash writer for the firmware download.
 */
module OtaHttp {
  import opened CTypes
  import opened CStrings
  import opened OtaText
  import opened OtaFlash

  const HDR_BUF_SIZE: nat := 2048
  const LOCATION_SIZE: nat := 512
  const BLANK_LINE: string := "\r\n\r\n"
  const LOCATION: string := "Location"

  /** A received byte stored into the character buffer, as `(char)data[offset]` does. */
  function CharOf(b: u8): char
  {
    b as char
  }

  /** The header text ends with the blank line, i.e. its last four characters are CR LF CR LF. */
  predicate EndsBlank(h: string)
  {
    |h| >= 4 && h[|h| - 4] == '\r' && h[|h| - 3] == '\n' && h[|h| - 2] == '\r' && h[|h| - 1] == '\n'
  }

  /** The header text after storing one more byte: nothing is stored once 2047 characters are held. */
  function Store(h: string, b: u8): (r: string)
  {
    if |h| < HDR_BUF_SIZE - 1 then h + [CharOf(b)] else h
  }

  /**
   * Where a run of the header loop ends: the header text then held, how
   * many bytes of the chunk it consumed, and whether it met the blank line.
   */
  datatype Scan = Scan(hdr: string, used: nat, done: bool)

  /** The header loop of `process_data` over `data`, from the stored header text `hdr`. */
  function ScanHeader(hdr: string, data: seq<u8>): (r: Scan)
    requires |hdr| < HDR_BUF_SIZE
    ensures |r.hdr| < HDR_BUF_SIZE && r.used <= |data|
    ensures r.done ==> EndsBlank(r.hdr) && r.used >= 1
    ensures !r.done ==> r.used == |data| && (EndsBlank(r.hdr) ==> EndsBlank(hdr))
    decreases |data|
  {
    if data == [] then Scan(hdr, 0, false)
    else
      var h := Store(hdr, data[0]);
      if EndsBlank(h) then Scan(h, 1, true)
      else
        var r := ScanHeader(h, data[1..]);
        Scan(r.hdr, r.used + 1, r.done)
  }

  /** The header text after storing every byte of `bytes`, as far as the buffer allows. */
  function StoreAll(h: string, bytes: seq<u8>): (r: string)
    decreases |bytes|
  {
    if bytes == [] then h else StoreAll(Store(h, bytes[0]), bytes[1..])
  }

  /** `StoreAll` keeps the text already held and adds the bytes' characters until 2047 are held. */
  lemma {:induction false} StoreAllKeeps(h: string, bytes: seq<u8>)
    requires |h| < HDR_BUF_SIZE
    ensures |StoreAll(h, bytes)| == if |h| + |bytes| < HDR_BUF_SIZE then |h| + |bytes| else HDR_BUF_SIZE - 1
    ensures StoreAll(h, bytes)[..|h|] == h
    ensures forall i :: |h| <= i < |StoreAll(h, bytes)| ==> StoreAll(h, bytes)[i] == CharOf(bytes[i - |h|])
    decreases |bytes|
  {
    if bytes != [] {
      var h1 := Store(h, bytes[0]);
      StoreAllKeeps(h1, bytes[1..]);
      var r := StoreAll(h, bytes);
      assert r == StoreAll(h1, bytes[1..]);
      if |h| < HDR_BUF_SIZE - 1 {
        assert r[..|h1|] == h1;
        assert r[..|h|] == r[..|h1|][..|h|];
      }
    }
  }

  /** The loop stores exactly the bytes it consumed. */
  lemma {:induction false} ScanStores(hdr: string, data: seq<u8>)
    requires |hdr| < HDR_BUF_SIZE
    ensures ScanHeader(hdr, data).hdr == StoreAll(hdr, data[..ScanHeader(hdr, data).used])
    decreases |data|
  {
    if data != [] {
      var h := Store(hdr, data[0]);
      if EndsBlank(h) {
        assert data[1..][..0] == [];
        StoreAllCons(hdr, data, 1, h);
      } else {
        var r1 := ScanHeader(h, data[1..]);
        ScanStores(h, data[1..]);
        StoreAllCons(hdr, data, r1.used + 1, r1.hdr);
      }
    }
  }

  /** Storing the first `n` bytes is storing the first one and then the `n - 1` after it. */
  lemma StoreAllCons(hdr: string, data: seq<u8>, n: nat, rest: string)
    requires 1 <= n <= |data|
    requires rest == StoreAll(Store(hdr, data[0]), data[1..][..n - 1])
    ensures rest == StoreAll(hdr, data[..n])
  {
    var p := data[..n];
    assert p[0] == data[0] && p[1..] == data[1..][..n - 1];
    StoreAllStep(hdr, p);
  }

  /** One step of `StoreAll`. */
  lemma StoreAllStep(h: string, bytes: seq<u8>)
    requires bytes != []
    ensures StoreAll(h, bytes) == StoreAll(Store(h, bytes[0]), bytes[1..])
  {
  }

  /**
   * The loop stops at the first byte after which the stored text ends with
   * the blank line, and only there: no shorter run of the chunk ends it.
   */
  lemma {:induction false} ScanStopsAtFirstBlank(hdr: string, data: seq<u8>, k: nat)
    requires |hdr| < HDR_BUF_SIZE && 1 <= k <= |data|
    requires k < ScanHeader(hdr, data).used || !ScanHeader(hdr, data).done
    ensures !EndsBlank(StoreAll(hdr, data[..k]))
    decreases |data|
  {
    var h := Store(hdr, data[0]);
    assert data[..k][1..] == data[1..][..k - 1];
    if k > 1 {
      ScanStopsAtFirstBlank(h, data[1..], k - 1);
    }
  }

  /** Once 2047 characters are held without the blank line, the header block never ends: every later byte is swallowed. */
  lemma {:induction false} FullHeaderNeverEnds(hdr: string, data: seq<u8>)
    requires |hdr| == HDR_BUF_SIZE - 1 && !EndsBlank(hdr)
    ensures ScanHeader(hdr, data) == Scan(hdr, |data|, false)
    decreases |data|
  {
    if data != [] {
      FullHeaderNeverEnds(hdr, data[1..]);
    }
  }

  /** Every character of `text` is a byte value. */
  predicate ByteText(text: string)
  {
    forall i :: 0 <= i < |text| ==> text[i] as int < 0x100
  }

  /** No proper prefix of `text` longer than one character, after `hdr`, ends in the blank line. */
  predicate OpenBeforeEnd(hdr: string, text: string)
  {
    forall k :: 1 <= k < |text| ==> !EndsBlank(hdr + text[..k])
  }

  /** The bytes of a text whose characters are all bytes. */
  function BytesOf(text: string): (r: seq<u8>)
    requires ByteText(text)
    ensures |r| == |text| && forall i :: 0 <= i < |r| ==> CharOf(r[i]) == text[i]
  {
    seq(|text|, i requires 0 <= i < |text| => text[i] as int)
  }

  /**
   * A header block that fits the buffer and holds the blank line only at
   * its end is consumed whole; what follows it in the chunk is left for the
   * body.
   */
  lemma {:induction false} ScanWholeHeader(hdr: string, text: string, rest: seq<u8>)
    requires |hdr| + |text| < HDR_BUF_SIZE && |text| >= 1
    requires ByteText(text) && EndsBlank(hdr + text) && OpenBeforeEnd(hdr, text)
    ensures ScanHeader(hdr, BytesOf(text) + rest) == Scan(hdr + text, |text|, true)
    decreases |text|
  {
    BytesOfSplit(hdr, text, rest);
    if |text| == 1 {
      assert text[..1] == text;
      ScanFirstEnds(hdr, BytesOf(text) + rest);
    } else {
      assert ScanHeader(hdr + text[..1], BytesOf(text[1..]) + rest)
          == Scan(hdr + text[..1] + text[1..], |text| - 1, true) by {
        NoBlankBeforeEnd(hdr, text);
        HeadThenTail(hdr, text);
        ScanWholeHeader(hdr + text[..1], text[1..], rest);
      }
      ScanWholeStep(hdr, text, BytesOf(text) + rest, BytesOf(text[1..]) + rest);
    }
  }

  /** The first byte of a text's bytes stores its first character, and the rest are the bytes of the rest. */
  lemma BytesOfSplit(hdr: string, text: string, rest: seq<u8>)
    requires |hdr| + |text| < HDR_BUF_SIZE && |text| >= 1 && ByteText(text)
    ensures ByteText(text[1..])
    ensures Store(hdr, (BytesOf(text) + rest)[0]) == hdr + text[..1]
    ensures (BytesOf(text) + rest)[1..] == BytesOf(text[1..]) + rest
  {
    assert (BytesOf(text) + rest)[0] == BytesOf(text)[0];
    assert BytesOf(text)[1..] == BytesOf(text[1..]);
  }

  /** The inductive step of ScanWholeHeader: the first byte does not end the block, the rest of the text does. */
  lemma ScanWholeStep(hdr: string, text: string, data: seq<u8>, tail: seq<u8>)
    requires |hdr| + |text| < HDR_BUF_SIZE && |text| >= 2 && data != []
    requires !EndsBlank(hdr + text[..1]) && Store(hdr, data[0]) == hdr + text[..1] && data[1..] == tail
    requires ScanHeader(hdr + text[..1], tail) == Scan(hdr + text[..1] + text[1..], |text| - 1, true)
    ensures ScanHeader(hdr, data) == Scan(hdr + text, |text|, true)
  {
    ScanStep(hdr, data, hdr + text[..1], tail, Scan(hdr + text[..1] + text[1..], |text| - 1, true));
    HeadThenTail(hdr, text);
  }

  /** Storing the first character and then the rest stores the whole text. */
  lemma HeadThenTail(hdr: string, text: string)
    requires |text| >= 1
    ensures hdr + text[..1] + text[1..] == hdr + text
  {
    assert text == text[..1] + text[1..];
  }

  /** One byte that does not end the block: the loop goes on with the rest of the chunk, one byte further. */
  lemma ScanStep(hdr: string, data: seq<u8>, h: string, tail: seq<u8>, r: Scan)
    requires |hdr| < HDR_BUF_SIZE && data != [] && h == Store(hdr, data[0]) && !EndsBlank(h)
    requires tail == data[1..] && |h| < HDR_BUF_SIZE && ScanHeader(h, tail) == r
    ensures ScanHeader(hdr, data) == Scan(r.hdr, r.used + 1, r.done)
  {
  }

  /** The loop stops after the first byte when that byte completes the blank line. */
  lemma ScanFirstEnds(hdr: string, data: seq<u8>)
    requires |hdr| < HDR_BUF_SIZE && data != [] && EndsBlank(Store(hdr, data[0]))
    ensures ScanHeader(hdr, data) == Scan(Store(hdr, data[0]), 1, true)
  {
  }

  lemma NoBlankBeforeEnd(hdr: string, text: string)
    requires |text| >= 2 && OpenBeforeEnd(hdr, text)
    ensures !EndsBlank(hdr + text[..1]) && OpenBeforeEnd(hdr + text[..1], text[1..])
  {
    forall k | 1 <= k < |text| - 1
      ensures !EndsBlank(hdr + text[..1] + text[1..][..k])
    {
      assert hdr + text[..1] + text[1..][..k] == hdr + text[..k + 1];
    }
  }

  /** The rest of the header loop from offset `offset` of `data`, counting the bytes it uses from the chunk's start. */
  function Resume(h: string, data: seq<u8>, offset: nat): (r: Scan)
    requires |h| < HDR_BUF_SIZE && offset <= |data|
  {
    var s := ScanHeader(h, data[offset..]);
    Scan(s.hdr, s.used + offset, s.done)
  }

  /** One byte of the header loop. */
  lemma ResumeStep(h: string, data: seq<u8>, offset: nat)
    requires |h| < HDR_BUF_SIZE && offset < |data|
    ensures |Store(h, data[offset])| < HDR_BUF_SIZE
    ensures Resume(h, data, offset) ==
      if EndsBlank(Store(h, data[offset])) then Scan(Store(h, data[offset]), offset + 1, true)
      else Resume(Store(h, data[offset]), data, offset + 1)
  {
    assert data[offset..][0] == data[offset] && data[offset..][1..] == data[offset + 1..];
  }

  /** The `memcmp` against the blank line looks at the last four stored characters. */
  lemma EndsBlankSlice(a: seq<char>, n: nat)
    requires n <= |a|
    ensures EndsBlank(a[..n]) <==> n >= 4 && a[n - 4..n] == BLANK_LINE
  {
    if n >= 4 {
      assert a[..n][n - 4..] == a[n - 4..n];
    }
  }

  /** How many body bytes fit the caller's buffer: what is left of it before the final NUL. */
  function Kept(bodyLen: nat, bodyCap: nat, n: nat): (k: nat)
    ensures k <= n && (bodyLen < bodyCap ==> bodyLen + k <= bodyCap - 1)
    ensures bodyLen < bodyCap && n <= bodyCap - 1 - bodyLen ==> k == n
  {
    var room := bodyCap - bodyLen - 1;
    if n > room then (if room > 0 then room else 0) else n
  }

  /**
   * The part of a chunk that goes to the body: all of it once the header
   * block is closed, otherwise what follows the blank line, if the chunk
   * holds it.
   */
  function Leftover(headersDone: bool, hdr: string, data: seq<u8>): (rest: seq<u8>)
    requires |hdr| < HDR_BUF_SIZE
    ensures headersDone ==> rest == data
    ensures !headersDone && !ScanHeader(hdr, data).done ==> rest == []
    ensures !headersDone && ScanHeader(hdr, data).done ==>
      data == data[..ScanHeader(hdr, data).used] + rest
  {
    if headersDone then data else data[ScanHeader(hdr, data).used..]
  }

  /**
   * `http_ctx_t`, without the connection: the header buffer and what was
   * read from it, the `Location` buffer, and the two body sinks — the
   * caller's buffer (`body_buf`, `body_cap`) and the flash writer that
   * `flash_write_cb` feeds.
   */
  class HttpContext {
    const hdrBuf: array<char>
    var hdrLen: nat
    var headersDone: bool
    var statusCode: i32
    var contentLength: i32
    const location: array<char>
    const bodyBuf: array?<u8>
    const bodyCap: nat
    var bodyLen: nat
    const sink: FlashWriter?
    var complete: bool
    var error: bool

    /** The buffers have their sizes, the body fits its buffer, and an open header block has not yet met the blank line. */
    ghost predicate Valid()
      reads this, hdrBuf
    {
      && hdrBuf.Length == HDR_BUF_SIZE && hdrLen < HDR_BUF_SIZE
      && location.Length == LOCATION_SIZE && hdrBuf != location
      && (bodyBuf != null ==> 1 <= bodyCap <= bodyBuf.Length && bodyLen < bodyCap)
      && (!headersDone ==> !EndsBlank(hdrBuf[..hdrLen]))
    }

    /** The flash writer, when there is one, is in a state to take data, in a buffer of its own. */
    ghost predicate SinkReady()
      reads this, sink
    {
      sink != null ==> sink.Valid() && sink.sectorBuf != bodyBuf
    }

    /** The header text gathered so far. */
    function Header(): string
      reads this, hdrBuf
      requires hdrLen <= hdrBuf.Length
    {
      hdrBuf[..hdrLen]
    }

    /** The header text as the C string functions read it: up to the first NUL. */
    function Text(): string
      reads this, hdrBuf
      requires hdrLen <= hdrBuf.Length
    {
      CStr(Header())
    }

    /**
     * What `process_data` reads out of a complete header block: the status
     * code, the content length, and the `Location` value copied, cut to
     * 511 characters, into `location`, which keeps `before` when there is
     * no such header.
     */
    ghost predicate HeadersRead(before: seq<char>)
      reads this, hdrBuf, location
      requires hdrLen <= hdrBuf.Length
    {
      && statusCode == StatusCode(Text()) && contentLength == ContentLength(Text())
      && (HeaderValue(Text(), LOCATION).Some? ==>
            Written(location, Truncated(HeaderValue(Text(), LOCATION).value, LOCATION_SIZE), before))
      && (HeaderValue(Text(), LOCATION).None? ==> location[..] == before)
    }

    /** The body gathered in the caller's buffer. */
    function Body(): seq<u8>
      reads this, bodyBuf
      requires bodyBuf != null && bodyLen <= bodyBuf.Length
    {
      bodyBuf[..bodyLen]
    }

    /**
     * A zeroed context whose body goes to `buf` (of capacity `cap`) or to
     * the flash writer `fw`, as the updater sets one up for each download.
     */
    constructor (buf: array?<u8>, cap: nat, fw: FlashWriter?)
      requires buf != null ==> 1 <= cap <= buf.Length
      requires fw != null ==> fw.Valid() && fw.sectorBuf != buf
      ensures Valid() && SinkReady() && fresh(hdrBuf) && fresh(location)
      ensures bodyBuf == buf && bodyCap == cap && sink == fw
      ensures hdrLen == 0 && !headersDone && bodyLen == 0 && !complete && !error
      ensures statusCode == 0 && contentLength == 0
    {
      hdrBuf := new char[HDR_BUF_SIZE](_ => '\0');
      location := new char[LOCATION_SIZE](_ => '\0');
      bodyBuf := buf;
      bodyCap := cap;
      sink := fw;
      hdrLen := 0;
      headersDone := false;
      statusCode := 0;
      contentLength := 0;
      bodyLen := 0;
      complete := false;
      error := false;
    }

    /**
     * The reset at the top of `https_get`: no headers, no body, status 0,
     * content length -1, an empty `Location`, neither complete nor failed.
     */
    method Begin()
      requires Valid()
      modifies this, location
      ensures Valid()
      ensures hdrLen == 0 && !headersDone && bodyLen == 0 && !complete && !error
      ensures statusCode == 0 && contentLength == -1 && location[0] == '\0'
      ensures location[1..] == old(location[1..])
    {
      headersDone := false;
      hdrLen := 0;
      bodyLen := 0;
      statusCode := 0;
      contentLength := -1;
      location[0] := '\0';
      complete := false;
      error := false;
    }

    /** The server closing the connection (`http_recv_cb` with no buffer): the response is complete. */
    method Close()
      modifies this
      ensures complete
      ensures hdrLen == old(hdrLen) && headersDone == old(headersDone) && bodyLen == old(bodyLen) && error == old(error)
    {
      complete := true;
    }

    /**
     * `process_data(ctx, data, len)`: nothing once the request failed or
     * completed. Otherwise the header loop runs first while the header
     * block is open, and whatever of the chunk it leaves goes to the body
     * sink; a refusal by the flash writer fails the request.
     */
    method ProcessData(data: seq<u8>)
      requires Valid() && SinkReady()
      modifies this, hdrBuf, location, bodyBuf, sink, if sink != null then {sink.sectorBuf} else {}
      ensures Valid() && SinkReady()
      ensures !old(error || complete) && sink != null ==>
        var rest := Leftover(old(headersDone), old(Header()), data);
        && (error <==> rest != [] && old(sink.totalWritten) + |rest| > MAX_IMAGE_SIZE)
        && (old(sink.totalWritten) + |rest| <= MAX_IMAGE_SIZE ==> sink.Staged() == old(sink.Staged()) + rest)
      ensures !old(error || complete) && sink == null && bodyBuf != null ==>
        var rest := Leftover(old(headersDone), old(Header()), data);
        Body() == old(Body()) + rest[..Kept(old(bodyLen), bodyCap, |rest|)] && !error
      ensures old(error || complete) ==>
        hdrLen == old(hdrLen) && headersDone == old(headersDone) && bodyLen == old(bodyLen) && error == old(error)
        && hdrBuf[..] == old(hdrBuf[..]) && location[..] == old(location[..])
        && statusCode == old(statusCode) && contentLength == old(contentLength)
        && (sink != null ==> sink.Staged() == old(sink.Staged()))
      ensures !old(error || complete) && old(headersDone) ==> Header() == old(Header()) && headersDone
      ensures old(headersDone) || !headersDone ==>
        statusCode == old(statusCode) && contentLength == old(contentLength) && location[..] == old(location[..])
      ensures !old(error || complete) && !old(headersDone) ==>
        Header() == ScanHeader(old(Header()), data).hdr && headersDone == ScanHeader(old(Header()), data).done
      ensures !old(error || complete) && !old(headersDone) && headersDone ==> HeadersRead(old(location[..]))
      ensures complete == old(complete)
    {
      if error || complete {
        return;
      }
      var offset := 0;
      if !headersDone {
        offset := AbsorbHeader(data);
      }
      if headersDone && offset < |data| {
        DeliverBody(data[offset..], old(location[..]));
      }
    }

    /**
     * The header loop of `process_data`: each byte is stored while there is
     * room, with a NUL after it; after each byte the last four stored
     * characters are compared with the blank line, and on a match the
     * status code, the content length and the `Location` header are read
     * and the loop stops. Returns how many bytes of `data` it consumed.
     */
    method AbsorbHeader(data: seq<u8>) returns (used: nat)
      requires Valid() && !headersDone
      modifies this, hdrBuf, location
      ensures Valid()
      ensures Scan(Header(), used, headersDone) == ScanHeader(old(Header()), data)
      ensures headersDone ==> HeadersRead(old(location[..]))
      ensures !headersDone ==> location[..] == old(location[..])
      ensures !headersDone ==> statusCode == old(statusCode) && contentLength == old(contentLength)
      ensures bodyLen == old(bodyLen) && error == old(error) && complete == old(complete)
    {
      var n, done;
      n, used, done := ScanBytes(hdrLen, data);
      hdrLen := n;
      if done {
        EndHeaders();
      }
    }

    /** The loop itself, from `n0` stored characters: how many are stored after it, the bytes used, and whether it met the blank line. */
    method ScanBytes(n0: nat, data: seq<u8>) returns (n: nat, used: nat, done: bool)
      requires hdrBuf.Length == HDR_BUF_SIZE && n0 < HDR_BUF_SIZE
      modifies hdrBuf
      ensures n < HDR_BUF_SIZE && Scan(hdrBuf[..n], used, done) == ScanHeader(old(hdrBuf[..n0]), data)
    {
      ghost var goal := ScanHeader(hdrBuf[..n0], data);
      assert data[0..] == data;
      n := n0;
      used := 0;
      done := false;
      while used < |data| && !done
        invariant used <= |data| && n < HDR_BUF_SIZE
        invariant !done ==> goal == Resume(hdrBuf[..n], data, used)
        invariant done ==> goal == Scan(hdrBuf[..n], used, true)
        decreases |data| - used, !done
      {
        ghost var h := hdrBuf[..n];
        n := StoreByte(n, data[used]);
        ResumeStep(h, data, used);
        used := used + 1;
        EndsBlankSlice(hdrBuf[..], n);
        if n >= 4 && hdrBuf[n - 4..n] == BLANK_LINE {
          done := true;
        }
      }
    }

    /** `hdr_buf[hdr_len++] = c; hdr_buf[hdr_len] = '\0';` while there is room. */
    method StoreByte(n: nat, b: u8) returns (m: nat)
      requires hdrBuf.Length == HDR_BUF_SIZE && n < HDR_BUF_SIZE
      modifies hdrBuf
      ensures m < HDR_BUF_SIZE && hdrBuf[..m] == Store(old(hdrBuf[..n]), b)
    {
      m := n;
      if n < HDR_BUF_SIZE - 1 {
        hdrBuf[n] := CharOf(b);
        m := n + 1;
        hdrBuf[m] := '\0';
        assert hdrBuf[..m] == old(hdrBuf[..n]) + [CharOf(b)];
      }
    }

    /** The end of the header block: what `process_data` reads out of it. */
    method EndHeaders()
      requires hdrBuf.Length == HDR_BUF_SIZE && hdrLen < HDR_BUF_SIZE && location.Length == LOCATION_SIZE
      modifies this, location
      ensures hdrLen == old(hdrLen) && headersDone && HeadersRead(old(location[..]))
      ensures bodyLen == old(bodyLen) && error == old(error) && complete == old(complete)
    {
      var text := Text();
      var found := FindHeader(text, LOCATION, location, LOCATION_SIZE);
      headersDone := true;
      statusCode := StatusCode(text);
      contentLength := ContentLength(text);
    }

    /**
     * The body part of `process_data`: the flash writer takes the chunk and
     * a refusal fails the request; otherwise the caller's buffer takes as
     * much as fits before its final NUL, and drops the rest.
     */
    method DeliverBody(body: seq<u8>, ghost before: seq<char>)
      requires Valid() && SinkReady() && headersDone && |body| > 0
      modifies this, bodyBuf, sink, if sink != null then {sink.sectorBuf} else {}
      ensures Valid() && SinkReady()
      ensures hdrLen == old(hdrLen) && headersDone && complete == old(complete)
      ensures statusCode == old(statusCode) && contentLength == old(contentLength)
      ensures Header() == old(Header()) && (old(HeadersRead(before)) ==> HeadersRead(before))
      ensures sink != null ==> error == (old(error) || old(sink.totalWritten) + |body| > MAX_IMAGE_SIZE)
      ensures sink != null && old(sink.totalWritten) + |body| <= MAX_IMAGE_SIZE ==>
        sink.Staged() == old(sink.Staged()) + body && sink.totalWritten == old(sink.totalWritten) + |body|
      ensures sink != null && old(sink.totalWritten) + |body| > MAX_IMAGE_SIZE ==>
        sink.Staged() == old(sink.Staged()) && sink.totalWritten == old(sink.totalWritten)
      ensures sink == null && bodyBuf != null ==>
        Body() == old(Body()) + body[..Kept(old(bodyLen), bodyCap, |body|)] && error == old(error)
      ensures sink == null && bodyBuf != null && Kept(old(bodyLen), bodyCap, |body|) > 0 ==> bodyBuf[bodyLen] == 0
      ensures sink == null ==> error == old(error)
    {
      if sink != null {
        var ok := sink.Write(body);
        if !ok {
          error := true;
        }
      } else if bodyBuf != null {
        var k := Kept(bodyLen, bodyCap, |body|);
        if k > 0 {
          CopyBody(body[..k]);
          bodyLen := bodyLen + k;
          bodyBuf[bodyLen] := 0;
        }
      }
    }

    /** The `memcpy` of body bytes into the caller's buffer at `bodyLen`. */
    method CopyBody(src: seq<u8>)
      requires bodyBuf != null && bodyLen + |src| <= bodyBuf.Length
      modifies bodyBuf
      ensures bodyBuf[..bodyLen + |src|] == old(bodyBuf[..bodyLen]) + src
    {
      var k := 0;
      while k < |src|
        invariant k <= |src|
        invariant bodyBuf[..bodyLen + k] == old(bodyBuf[..bodyLen]) + src[..k]
      {
        bodyBuf[bodyLen + k] := src[k];
        assert src[..k + 1] == src[..k] + [src[k]];
        k := k + 1;
      }
      assert src[..k] == src;
    }
  }
}
