/**
 * The flash writer of the over-the-air updater: the downloaded image is
 * gathered into a 4 KiB sector buffer, and every full sector is erased and
 * programmed into the staging half of flash.
 *
 * The erase and program calls of the flash driver are not modelled; each
 * pair of them is one `Sector` entry appended to the writer's `programmed`
 * log, carrying the flash offset and the 4096 bytes written there.
 */
module OtaFlash {
  import opened CTypes

  const SECTOR_SIZE: nat := 4096
  const MAX_IMAGE_SIZE: nat := 0x10_0000
  const STAGING_OFFSET: nat := 0x10_0000
  const ERASED: u8 := 0xFF

  /** One erase-and-program of a flash sector: where, and the bytes programmed. */
  datatype Sector = Sector(offset: nat, data: seq<u8>)

  /** The programmed bytes of a log of sectors, in the order they were written. */
  ghost function Flat(ps: seq<Sector>): seq<u8>
  {
    if ps == [] then [] else Flat(ps[..|ps| - 1]) + ps[|ps| - 1].data
  }

  lemma FlatAppend(ps: seq<Sector>, s: Sector)
    ensures Flat(ps + [s]) == Flat(ps) + s.data
  {
    assert (ps + [s])[..|ps|] == ps;
  }

  /** Every sector of a log of full sectors adds 4096 bytes. */
  lemma {:induction false} FlatLength(ps: seq<Sector>)
    requires forall i :: 0 <= i < |ps| ==> |ps[i].data| == SECTOR_SIZE
    ensures |Flat(ps)| == SECTOR_SIZE * |ps|
  {
    if ps != [] {
      FlatLength(ps[..|ps| - 1]);
    }
  }

  /** Appending the next piece of `data` to what holds its first `i` bytes gives what holds its first `j`. */
  lemma PrefixGrows(base: seq<u8>, data: seq<u8>, i: nat, j: nat, s1: seq<u8>, s2: seq<u8>)
    requires i <= j <= |data|
    requires s1 == base + data[..i] && s2 == s1 + data[i..j]
    ensures s2 == base + data[..j]
  {
    assert data[..j] == data[..i] + data[i..j];
  }

  /** `n` bytes that fill `q` whole sectors and `r` more bytes. */
  lemma SectorCount(n: nat, q: nat, r: nat)
    requires r < SECTOR_SIZE && n == r + SECTOR_SIZE * q
    ensures n % SECTOR_SIZE == r && n / SECTOR_SIZE == q
  {
  }

  /** `n` bytes in the erased state. */
  function Erased(n: nat): (r: seq<u8>)
    ensures |r| == n && forall i :: 0 <= i < n ==> r[i] == ERASED
  {
    seq(n, _ => ERASED)
  }

  /** `flash_writer_t`. */
  class FlashWriter {
    const start: nat
    var flashOffset: nat
    const sectorBuf: array<u8>
    var sectorPos: nat
    var totalWritten: nat
    var error: bool
    var programmed: seq<Sector>

    /**
     * Sectors go out one after another from `start`, each of them full; the
     * buffer holds at most one sector.
     */
    ghost predicate Layout()
      reads this
    {
      && sectorBuf.Length == SECTOR_SIZE
      && sectorPos <= SECTOR_SIZE
      && flashOffset == start + SECTOR_SIZE * |programmed|
      && forall i :: 0 <= i < |programmed| ==>
           programmed[i].offset == start + SECTOR_SIZE * i && |programmed[i].data| == SECTOR_SIZE
    }

    /** Between calls the buffer is never full and no more than 1 MiB has been accepted. */
    ghost predicate Valid()
      reads this
    {
      Layout() && sectorPos < SECTOR_SIZE && totalWritten <= MAX_IMAGE_SIZE
    }

    /** What the staging area holds once the buffered bytes are programmed too. */
    ghost function Staged(): seq<u8>
      reads this, sectorBuf
      requires sectorPos <= sectorBuf.Length
    {
      Flat(programmed) + sectorBuf[..sectorPos]
    }

    /** `flash_writer_init(fw, startOffset)`: nothing buffered, nothing written, no error. */
    constructor Init(startOffset: nat)
      ensures Valid() && fresh(sectorBuf)
      ensures start == startOffset && flashOffset == startOffset
      ensures sectorPos == 0 && totalWritten == 0 && !error && programmed == []
      ensures Staged() == []
    {
      start := startOffset;
      flashOffset := startOffset;
      sectorBuf := new u8[SECTOR_SIZE];
      sectorPos := 0;
      totalWritten := 0;
      error := false;
      programmed := [];
    }

    /**
     * `flash_writer_flush`: nothing when the buffer is empty; otherwise the
     * rest of the sector is filled with 0xFF, the sector at `flashOffset` is
     * erased and programmed, and the buffer starts over at the next sector.
     */
    method Flush()
      requires Layout()
      modifies this, sectorBuf
      ensures Layout()
      ensures old(sectorPos) == 0 ==> flashOffset == old(flashOffset) && programmed == old(programmed)
      ensures old(sectorPos) > 0 ==>
        programmed == old(programmed) + [Sector(old(flashOffset), old(sectorBuf[..sectorPos]) + Erased(SECTOR_SIZE - old(sectorPos)))]
      ensures old(sectorPos) > 0 ==> Staged() == old(Staged()) + Erased(SECTOR_SIZE - old(sectorPos))
      ensures sectorPos == 0 && totalWritten == old(totalWritten) && error == old(error)
    {
      if sectorPos == 0 {
        return;
      }
      PadSector();
      FlatAppend(programmed, Sector(flashOffset, sectorBuf[..]));
      programmed := programmed + [Sector(flashOffset, sectorBuf[..])];
      flashOffset := flashOffset + SECTOR_SIZE;
      sectorPos := 0;
    }

    /**
     * `flash_write_cb`: a chunk that would take the image past 1 MiB is
     * refused whole and marks the writer failed; otherwise it is appended to
     * the image, every sector it fills being programmed on the way.
     */
    method Write(data: seq<u8>) returns (ok: bool)
      requires Valid()
      modifies this, sectorBuf
      ensures Valid()
      ensures ok <==> old(totalWritten) + |data| <= MAX_IMAGE_SIZE
      ensures !ok ==> error && totalWritten == old(totalWritten) && sectorPos == old(sectorPos)
                      && programmed == old(programmed) && Staged() == old(Staged())
      ensures ok ==> error == old(error) && totalWritten == old(totalWritten) + |data|
      ensures ok ==> Staged() == old(Staged()) + data
      ensures ok ==> sectorPos == (old(sectorPos) + |data|) % SECTOR_SIZE
      ensures ok ==> |programmed| == old(|programmed|) + (old(sectorPos) + |data|) / SECTOR_SIZE
      ensures programmed[..old(|programmed|)] == old(programmed)
    {
      if totalWritten + |data| > MAX_IMAGE_SIZE {
        error := true;
        return false;
      }
      Stream(data);
      SectorCount(old(sectorPos) + |data|, |programmed| - old(|programmed|), sectorPos);
      return true;
    }

    /** The loop of `flash_write_cb`: the chunk goes into the buffer piece by piece, a sector at a time. */
    method Stream(data: seq<u8>)
      requires Layout() && sectorPos < SECTOR_SIZE
      modifies this, sectorBuf
      ensures Layout() && sectorPos < SECTOR_SIZE
      ensures totalWritten == old(totalWritten) + |data| && error == old(error)
      ensures Staged() == old(Staged()) + data
      ensures sectorPos + SECTOR_SIZE * |programmed| == old(sectorPos) + SECTOR_SIZE * old(|programmed|) + |data|
      ensures |old(programmed)| <= |programmed| && programmed[..old(|programmed|)] == old(programmed)
    {
      var offset := 0;
      while offset < |data|
        invariant offset <= |data| && Layout() && sectorPos < SECTOR_SIZE
        invariant totalWritten == old(totalWritten) + offset && error == old(error)
        invariant Staged() == old(Staged()) + data[..offset]
        invariant sectorPos + SECTOR_SIZE * |programmed| == old(sectorPos) + SECTOR_SIZE * old(|programmed|) + offset
        invariant |old(programmed)| <= |programmed| && programmed[..old(|programmed|)] == old(programmed)
        decreases |data| - offset
      {
        var room := SECTOR_SIZE - sectorPos;
        var chunk := if |data| - offset < room then |data| - offset else room;
        ghost var before := Staged();
        ghost var log := programmed;
        Append(data[offset..offset + chunk]);
        PrefixGrows(old(Staged()), data, offset, offset + chunk, before, Staged());
        assert programmed[..|log|][..old(|programmed|)] == programmed[..old(|programmed|)];
        offset := offset + chunk;
      }
      assert data[..offset] == data;
    }

    /** One turn of `flash_write_cb`'s loop: a chunk that fits the sector is buffered, and a full sector programmed. */
    method Append(src: seq<u8>)
      requires Layout() && sectorPos < SECTOR_SIZE && 0 < |src| <= SECTOR_SIZE - sectorPos
      modifies this, sectorBuf
      ensures Layout() && sectorPos < SECTOR_SIZE
      ensures Staged() == old(Staged()) + src
      ensures totalWritten == old(totalWritten) + |src| && error == old(error)
      ensures sectorPos + SECTOR_SIZE * |programmed| == old(sectorPos) + SECTOR_SIZE * old(|programmed|) + |src|
      ensures |old(programmed)| <= |programmed| && programmed[..old(|programmed|)] == old(programmed)
    {
      CopyIn(src);
      sectorPos := sectorPos + |src|;
      totalWritten := totalWritten + |src|;
      if sectorPos == SECTOR_SIZE {
        assert sectorBuf[..sectorPos] == sectorBuf[..];
        Flush();
      }
    }

    /** The `memset` of `flash_writer_flush`: the buffer past `sectorPos` becomes 0xFF. */
    method PadSector()
      requires Layout()
      modifies sectorBuf
      ensures sectorBuf[..] == old(sectorBuf[..sectorPos]) + Erased(SECTOR_SIZE - sectorPos)
    {
      var i := sectorPos;
      while i < SECTOR_SIZE
        invariant sectorPos <= i <= SECTOR_SIZE
        invariant sectorBuf[..sectorPos] == old(sectorBuf[..sectorPos])
        invariant forall j :: sectorPos <= j < i ==> sectorBuf[j] == ERASED
      {
        sectorBuf[i] := ERASED;
        i := i + 1;
      }
      assert sectorBuf[..] == old(sectorBuf[..sectorPos]) + Erased(SECTOR_SIZE - sectorPos);
    }

    /** The `memcpy` into the sector buffer at `sectorPos`. */
    method CopyIn(src: seq<u8>)
      requires Layout() && sectorPos + |src| <= SECTOR_SIZE
      modifies sectorBuf
      ensures sectorBuf[..sectorPos + |src|] == old(sectorBuf[..sectorPos]) + src
    {
      var k := 0;
      while k < |src|
        invariant k <= |src|
        invariant sectorBuf[..sectorPos + k] == old(sectorBuf[..sectorPos]) + src[..k]
      {
        sectorBuf[sectorPos + k] := src[k];
        assert src[..k + 1] == src[..k] + [src[k]];
        k := k + 1;
      }
      assert src[..k] == src;
    }
  }
}
