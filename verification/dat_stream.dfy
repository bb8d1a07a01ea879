/** A DAT file opened for reading: its bytes, a cursor, and the little reader
    the decoders wrap around `os.File` (`binaryReaderio`, LibDAT/Libdat.go:367-386).

    `Read` on an unbuffered file hands back up to n bytes and fails only when
    nothing at all remains; the caller's fresh buffer keeps zeros past what was
    read. `ReadInt32` goes through `binary.Read`, which insists on all 4 bytes. */
module DatStream {
  import opened Wrappers
  import opened GoText

  type Int32 = x: int | -0x8000_0000 <= x < 0x8000_0000
  type Uint64 = x: int | 0 <= x < 0x1_0000_0000_0000_0000

  // ---------------------------------------------------------------- little endian

  function Pow256(n: nat): (p: nat)
    ensures p >= 1
  {
    if n == 0 then 1 else 256 * Pow256(n - 1)
  }

  /** The unsigned value of `bs`, least significant byte first. */
  function LittleEndian(bs: seq<Byte>): (v: nat)
    ensures v < Pow256(|bs|)
  {
    if bs == [] then 0
    else
      var rest := LittleEndian(bs[1..]);
      assert rest <= Pow256(|bs| - 1) - 1;
      assert 256 * rest <= 256 * Pow256(|bs| - 1) - 256;
      bs[0] + 256 * rest
  }

  /** The n bytes that spell `v`, least significant first. */
  function LittleEndianBytes(v: nat, n: nat): (bs: seq<Byte>)
    requires v < Pow256(n)
    ensures |bs| == n
  {
    if n == 0 then [] else [v % 256] + LittleEndianBytes(v / 256, n - 1)
  }

  lemma {:induction false} LittleEndianOfBytes(v: nat, n: nat)
    requires v < Pow256(n)
    ensures LittleEndian(LittleEndianBytes(v, n)) == v
  {
    if n > 0 {
      LittleEndianOfBytes(v / 256, n - 1);
      assert LittleEndianBytes(v, n)[1..] == LittleEndianBytes(v / 256, n - 1);
    }
  }

  lemma {:induction false} BytesOfLittleEndian(bs: seq<Byte>)
    ensures LittleEndianBytes(LittleEndian(bs), |bs|) == bs
  {
    if bs != [] {
      BytesOfLittleEndian(bs[1..]);
      var v := LittleEndian(bs);
      assert v % 256 == bs[0] && v / 256 == LittleEndian(bs[1..]);
    }
  }

  /** `binary.LittleEndian.Uint64`: the bit pattern of the stored double. */
  function Uint64LE(bs: seq<Byte>): (v: Uint64)
    requires |bs| == 8
  {
    assert Pow256(8) == 0x1_0000_0000_0000_0000;
    LittleEndian(bs)
  }

  function Uint64Bytes(v: Uint64): (bs: seq<Byte>)
    ensures |bs| == 8
  {
    assert Pow256(8) == 0x1_0000_0000_0000_0000;
    LittleEndianBytes(v, 8)
  }

  lemma Uint64RoundTrip(v: Uint64)
    ensures Uint64LE(Uint64Bytes(v)) == v
  {
    assert Pow256(8) == 0x1_0000_0000_0000_0000;
    LittleEndianOfBytes(v, 8);
  }

  /** A little-endian two's-complement 32-bit integer. */
  function Int32LE(bs: seq<Byte>): (x: Int32)
    requires |bs| == 4
  {
    assert Pow256(4) == 0x1_0000_0000;
    var u := LittleEndian(bs);
    if u < 0x8000_0000 then u else u - 0x1_0000_0000
  }

  function Int32Bytes(x: Int32): (bs: seq<Byte>)
    ensures |bs| == 4
  {
    assert Pow256(4) == 0x1_0000_0000;
    LittleEndianBytes(if x >= 0 then x else x + 0x1_0000_0000, 4)
  }

  lemma Int32RoundTrip(x: Int32)
    ensures Int32LE(Int32Bytes(x)) == x
  {
    assert Pow256(4) == 0x1_0000_0000;
    LittleEndianOfBytes(if x >= 0 then x else x + 0x1_0000_0000, 4);
  }

  lemma Int32BytesRoundTrip(bs: seq<Byte>)
    requires |bs| == 4
    ensures Int32Bytes(Int32LE(bs)) == bs
  {
    assert Pow256(4) == 0x1_0000_0000;
    BytesOfLittleEndian(bs);
  }

  /** The sign of the row count is the top bit of its last byte. */
  lemma Int32Sign(bs: seq<Byte>)
    requires |bs| == 4
    ensures Int32LE(bs) < 0 <==> bs[3] >= 0x80
  {
    assert Pow256(4) == 0x1_0000_0000;
    var b0, b1, b2, b3 := bs[0] as int, bs[1] as int, bs[2] as int, bs[3] as int;
    assert bs[1..][1..][1..][1..] == [];
    assert LittleEndian(bs[3..]) == b3;
    assert bs[2..][1..] == bs[3..];
    assert LittleEndian(bs[2..]) == b2 + 256 * b3;
    assert bs[1..][1..] == bs[2..];
    assert LittleEndian(bs[1..]) == b1 + 256 * b2 + 65536 * b3;
    assert LittleEndian(bs) == b0 + 256 * b1 + 65536 * b2 + 16777216 * b3;
  }

  // ---------------------------------------------------------------- reads

  datatype IoError = EndOfFile | UnexpectedEndOfFile

  function ZeroBytes(n: nat): (bs: seq<Byte>)
    ensures |bs| == n
  {
    seq(n, _ => 0)
  }

  /** A fresh n-byte buffer after a read that filled its first bytes with `got`. */
  function Filled(got: seq<Byte>, n: nat): (buf: seq<Byte>)
    requires |got| <= n
    ensures |buf| == n
  {
    got + ZeroBytes(n - |got|)
  }

  function Min(a: int, b: int): int
  {
    if a <= b then a else b
  }

  /** One `Read` of an n-byte buffer from an unbuffered file at `pos`: the bytes
      actually transferred. */
  function ReadAt(data: seq<Byte>, pos: nat, n: nat): (r: Result<seq<Byte>, IoError>)
    ensures r.Ok? <==> n == 0 || pos < |data|
    ensures r.Err? ==> r.error == EndOfFile
    ensures r.Ok? && n == 0 ==> r.value == []
    ensures r.Ok? && n > 0 ==> 0 < |r.value| <= n && pos + |r.value| <= |data| && r.value == data[pos..pos + |r.value|]
    ensures r.Ok? && |r.value| < n ==> pos + |r.value| == |data|
  {
    if n == 0 then Ok([])
    else if pos >= |data| then Err(EndOfFile)
    else Ok(data[pos..pos + Min(n, |data| - pos)])
  }

  /** Where the cursor stands after that read. */
  function AfterRead(data: seq<Byte>, pos: nat, n: nat): nat
  {
    match ReadAt(data, pos, n)
    case Ok(got) => pos + |got|
    case Err(_) => pos
  }

  /** `binary.Read` of an `int32`: `io.ReadFull` of 4 bytes. Nothing left is
      `io.EOF`; some but not all 4 bytes is `io.ErrUnexpectedEOF`. */
  function ReadInt32At(data: seq<Byte>, pos: nat): (r: Result<Int32, IoError>)
    ensures r.Ok? <==> pos + 4 <= |data|
    ensures r.Ok? ==> r.value == Int32LE(data[pos..pos + 4])
    ensures r == Err(EndOfFile) <==> pos >= |data|
  {
    if pos >= |data| then Err(EndOfFile)
    else if pos + 4 > |data| then Err(UnexpectedEndOfFile)
    else Ok(Int32LE(data[pos..pos + 4]))
  }

  /** An open file: its contents and the read offset. Seeking past the end is
      allowed, as for `os.File`; reads there find nothing. */
  class Reader {
    const data: seq<Byte>
    var pos: nat

    constructor Open(contents: seq<Byte>)
      ensures data == contents && pos == 0
    {
      data := contents;
      pos := 0;
    }

    /** `Seek(offset, io.SeekStart)`. */
    method Seek(offset: nat)
      modifies this
      ensures pos == offset
    {
      pos := offset;
    }

    /** `Read` into a fresh buffer of n bytes: the buffer, and the error when
        nothing at all was transferred. */
    method Read(n: nat) returns (buf: seq<Byte>, err: Option<IoError>)
      modifies this
      ensures |buf| == n
      ensures err.None? <==> ReadAt(data, old(pos), n).Ok?
      ensures err.None? ==> buf == Filled(ReadAt(data, old(pos), n).value, n)
      ensures err.Some? ==> buf == ZeroBytes(n) && err == Some(EndOfFile)
      ensures pos == AfterRead(data, old(pos), n)
    {
      if n == 0 {
        return [], None;
      }
      if pos >= |data| {
        return ZeroBytes(n), Some(EndOfFile);
      }
      var k := Min(n, |data| - pos);
      buf := Filled(data[pos..pos + k], n);
      err := None;
      pos := pos + k;
    }

    /** `binaryReaderio.ReadByte`: a 1-byte `Read`; the byte is 0 on error. */
    method ReadByte() returns (b: Byte, err: Option<IoError>)
      modifies this
      ensures err.None? <==> old(pos) < |data|
      ensures err.None? ==> b == data[old(pos)] && pos == old(pos) + 1
      ensures err.Some? ==> b == 0 && err == Some(EndOfFile) && pos == old(pos)
    {
      var buf;
      buf, err := Read(1);
      b := buf[0];
    }

    /** `binaryReaderio.ReadInt32`: `io.ReadFull` keeps reading until 4 bytes
        arrived or a read fails. */
    method ReadInt32() returns (r: Result<Int32, IoError>)
      modifies this
      ensures r == ReadInt32At(data, old(pos))
      ensures pos == Min(old(pos) + 4, |data|) || (old(pos) >= |data| && pos == old(pos))
    {
      var start := pos;
      var buf, err := Read(4);
      if err.Some? {
        return Err(EndOfFile);
      }
      var got := pos - start;
      if got < 4 {
        // the file is exhausted: the next read reports io.EOF, which
        // io.ReadFull turns into io.ErrUnexpectedEOF after a partial read
        var more, err2 := Read(4 - got);
        assert err2.Some?;
        return Err(UnexpectedEndOfFile);
      }
      assert buf == data[start..start + 4];
      r := Ok(Int32LE(buf));
    }
  }

  // ---------------------------------------------------------------- header

  /** The 8-byte header both DAT files start with. */
  datatype Header = Header(version: Byte, year: Byte, month: Byte, day: Byte, rowCount: Int32)

  datatype HeaderField = VersionByte | YearByte | MonthByte | DayByte | RowCount

  /** Which header read failed, and how. */
  datatype HeaderError = HeaderError(field: HeaderField, cause: IoError)

  /** The header of a file with contents `data`, read from its start. */
  function HeaderOf(data: seq<Byte>): (r: Result<Header, HeaderError>)
  {
    if |data| == 0 then Err(HeaderError(VersionByte, EndOfFile))
    else if |data| == 1 then Err(HeaderError(YearByte, EndOfFile))
    else if |data| == 2 then Err(HeaderError(MonthByte, EndOfFile))
    else if |data| == 3 then Err(HeaderError(DayByte, EndOfFile))
    else match ReadInt32At(data, 4)
      case Err(e) => Err(HeaderError(RowCount, e))
      case Ok(n) => Ok(Header(data[0], data[1], data[2], data[3], n))
  }

  /** The header is there iff the file has 8 bytes; its row count is the
      little-endian signed 32-bit value of bytes 4-7, and nothing after byte 7
      matters. A file of 4 to 7 bytes fails on the row count, a shorter one on
      the first date or version byte that is missing. */
  lemma HeaderOfSpec(data: seq<Byte>)
    ensures HeaderOf(data).Ok? <==> |data| >= 8
    ensures |data| >= 8 ==> HeaderOf(data).value.rowCount == Int32LE(data[4..8])
    ensures |data| >= 8 ==> HeaderOf(data) == HeaderOf(data[..8])
    ensures 4 <= |data| < 8 ==> HeaderOf(data).error.field == RowCount
    ensures |data| == 4 ==> HeaderOf(data).error.cause == EndOfFile
    ensures 4 < |data| < 8 ==> HeaderOf(data).error.cause == UnexpectedEndOfFile
    ensures |data| < 4 ==> HeaderOf(data).error.field == [VersionByte, YearByte, MonthByte, DayByte][|data|]
  {
    if |data| >= 8 {
      assert data[..8][4..8] == data[4..8];
    }
  }

  function HeaderBytes(h: Header): (bs: seq<Byte>)
    ensures |bs| == 8
  {
    [h.version, h.year, h.month, h.day] + Int32Bytes(h.rowCount)
  }

  /** Any file that starts with a written header reads that header back. */
  lemma HeaderRoundTrip(h: Header, rest: seq<Byte>)
    ensures HeaderOf(HeaderBytes(h) + rest) == Ok(h)
  {
    var data := HeaderBytes(h) + rest;
    assert data[4..8] == Int32Bytes(h.rowCount);
    Int32RoundTrip(h.rowCount);
  }

  /** The four `ReadByte`s and the `ReadInt32` at the start of every header
      reader, on a freshly opened file. */
  method ReadHeader(r: Reader) returns (h: Result<Header, HeaderError>)
    requires r.pos == 0
    modifies r
    ensures h == HeaderOf(r.data)
    ensures h.Ok? ==> r.pos == 8
  {
    var version, err := r.ReadByte();
    if err.Some? {
      return Err(HeaderError(VersionByte, err.value));
    }
    var year, err1 := r.ReadByte();
    if err1.Some? {
      return Err(HeaderError(YearByte, err1.value));
    }
    var month, err2 := r.ReadByte();
    if err2.Some? {
      return Err(HeaderError(MonthByte, err2.value));
    }
    var day, err3 := r.ReadByte();
    if err3.Some? {
      return Err(HeaderError(DayByte, err3.value));
    }
    var count := r.ReadInt32();
    match count
    case Err(e) =>
      return Err(HeaderError(RowCount, e));
    case Ok(n) =>
      return Ok(Header(version, year, month, day, n));
  }
}
