/** The decoder of LibDAT/Libdat.go: it reads a float file twice (header, then
    records) into a slice made with room for every row, leaving nil where a
    record fails, and reads a tag file twice (header, then records), giving up
    at the first bad tag record. */
module LibDAT {
  import opened Wrappers
  import opened GoText
  import opened DatStream
  import opened DatRecords
  import opened DatFiles

  // ---------------------------------------------------------------- float file

  /** What `ReadFloatFileHeader` returns: the row count of the float file. */
  function FloatFileHeader(fs: FileSystem, name: string): Result<Int32, DatError>
  {
    if name !in fs.files then Err(OpenFailed(name))
    else match HeaderOf(fs.files[name])
      case Err(e) => Err(HeaderFailed(e))
      case Ok(h) => Ok(h.rowCount)
  }

  /** The row count is there iff the file exists and holds at least the 8 header
      bytes; it is the signed little-endian value of bytes 4-7. */
  lemma FloatFileHeaderSpec(fs: FileSystem, name: string)
    ensures FloatFileHeader(fs, name).Ok? <==> name in fs.files && |fs.files[name]| >= 8
    ensures FloatFileHeader(fs, name).Ok? ==> FloatFileHeader(fs, name).value == Int32LE(fs.files[name][4..8])
    ensures name !in fs.files ==> FloatFileHeader(fs, name) == Err(OpenFailed(name))
  {
    if name in fs.files {
      HeaderOfSpec(fs.files[name]);
    }
  }

  /** `ReadFloatFileHeader(filename)`. */
  method ReadFloatFileHeader(fs: FileSystem, name: string) returns (r: Result<Int32, DatError>)
    ensures r == FloatFileHeader(fs, name)
  {
    if name !in fs.files {
      return Err(OpenFailed(name));
    }
    var file := new Reader.Open(fs.files[name]);
    var h := ReadHeader(file);
    if h.Err? {
      return Err(HeaderFailed(h.error));
    }
    file.Seek(FloatRecordsStart);
    return Ok(h.value.rowCount);
  }

  /** What `ReadFloatFileRecords` returns for a given row count: one slot per
      row. A negative count makes Go's `make` panic; the model reports it. */
  function FloatRecordsOf(fs: FileSystem, name: string, rowCount: Int32): Result<seq<Option<FloatRecord>>, DatError>
  {
    if name !in fs.files then Err(OpenFailed(name))
    else if rowCount < 0 then Err(NegativeRowCount(rowCount))
    else Ok(FloatSlots(fs.files[name], rowCount))
  }

  /** One pass of the loop of `ReadFloatFileRecords`: the read of row i, and
      its slot filled with the record when the read succeeded. */
  method ReadSlot(file: Reader, records: array<Option<FloatRecord>>, i: nat)
    requires i < records.Length && records[i] == None
    requires file.pos == FloatCursor(file.data, i)
    modifies file, records
    ensures file.pos == FloatCursor(file.data, i + 1)
    ensures records[..] == old(records[..])[i := SlotRecord(file.data, i)]
  {
    FloatCursorStep(file.data, i);
    var rec, err := ReadNextFloatRecord(file);
    if err.None? {
      records[i] := rec;
    }
  }

  /** `ReadFloatFileRecords(filename, rowCount)`: from 0x121, `rowCount` calls
      of `readNextDatFloatRecord`; a call that fails is logged and its slot stays
      nil, a call that succeeds fills the slot of its row. */
  method ReadFloatFileRecords(fs: FileSystem, name: string, rowCount: Int32)
    returns (r: Result<seq<Option<FloatRecord>>, DatError>)
    ensures r == FloatRecordsOf(fs, name, rowCount)
  {
    if name !in fs.files {
      return Err(OpenFailed(name));
    }
    if rowCount < 0 {
      return Err(NegativeRowCount(rowCount));
    }
    var file := new Reader.Open(fs.files[name]);
    file.Seek(FloatRecordsStart);
    var records := new Option<FloatRecord>[rowCount](_ => None);
    var i := 0;
    while i < rowCount
      invariant 0 <= i <= rowCount
      invariant file.data == fs.files[name]
      invariant file.pos == FloatCursor(file.data, i)
      invariant records[..i] == FloatSlots(file.data, i)
      invariant forall j :: i <= j < rowCount ==> records[j] == None
    {
      ghost var before := records[..i];
      ReadSlot(file, records, i);
      assert records[..i + 1] == before + [records[i]];
      FloatSlotsStep(file.data, i);
      i := i + 1;
    }
    assert records[..] == records[..i];
    return Ok(records[..]);
  }

  /** What `ReadFloatFile` returns. */
  function FloatFileOf(fs: FileSystem, name: string): Result<seq<Option<FloatRecord>>, DatError>
  {
    match FloatFileHeader(fs, name)
    case Err(e) => Err(e)
    case Ok(n) => FloatRecordsOf(fs, name, n)
  }

  /** `ReadFloatFile(filename)`: the header read, then the records read. */
  method ReadFloatFile(fs: FileSystem, name: string) returns (r: Result<seq<Option<FloatRecord>>, DatError>)
    ensures r == FloatFileOf(fs, name)
  {
    var count := ReadFloatFileHeader(fs, name);
    if count.Err? {
      return Err(count.error);
    }
    r := ReadFloatFileRecords(fs, name, count.value);
  }

  /** A float file reads iff it exists, has a header and a non-negative row
      count. There is then one slot per row; a slot is nil or a valid record
      (a record that failed to decode is never kept), slot i is the decode of
      the 39 bytes at 0x121 + 39 i when they are all in the file, and a slot
      that starts at or past the end of the file is nil. */
  lemma FloatFileSpec(fs: FileSystem, name: string)
    ensures FloatFileOf(fs, name).Ok? <==>
      name in fs.files && |fs.files[name]| >= 8 && Int32LE(fs.files[name][4..8]) >= 0
    ensures FloatFileOf(fs, name).Ok? ==>
      var data := fs.files[name];
      var slots := FloatFileOf(fs, name).value;
      && |slots| == Int32LE(data[4..8])
      && (forall i :: 0 <= i < |slots| && slots[i].Some? ==> slots[i].value.isValid)
      && (forall i :: 0 <= i < |slots| && FloatRecordsStart + FloatRecordSize * (i + 1) <= |data| ==>
            slots[i] == Decoded(DecodeFloatBuffer(FloatRecordBytes(data, i))))
      && (forall i :: 0 <= i < |slots| && FloatRecordsStart + FloatRecordSize * i >= |data| ==> slots[i] == None)
  {
    FloatFileHeaderSpec(fs, name);
    if FloatFileOf(fs, name).Ok? {
      var data := fs.files[name];
      FloatSlotsSpec(data, Int32LE(data[4..8]));
    }
  }

  // ---------------------------------------------------------------- tag file

  /** What `ReadTagFileHeader` returns: the row count of the tag file that
      belongs to the float file, and its date as YYYY-MM-DD. */
  function TagFileHeader(fs: FileSystem, floatName: string): Result<(Int32, string), DatError>
  {
    var tagName := TagFileName(floatName);
    if tagName !in fs.files then Err(OpenFailed(tagName))
    else match HeaderOf(fs.files[tagName])
      case Err(e) => Err(HeaderFailed(e))
      case Ok(h) => Ok((h.rowCount, DateString(h)))
  }

  /** `ReadTagFileHeader(floatfileName)`. */
  method ReadTagFileHeader(fs: FileSystem, floatName: string) returns (r: Result<(Int32, string), DatError>)
    ensures r == TagFileHeader(fs, floatName)
  {
    var tagName := TagFileName(floatName);
    if tagName !in fs.files {
      return Err(OpenFailed(tagName));
    }
    var file := new Reader.Open(fs.files[tagName]);
    var h := ReadHeader(file);
    if h.Err? {
      return Err(HeaderFailed(h.error));
    }
    return Ok((h.value.rowCount, DateString(h.value)));
  }

  /** What `ReadTagRecordsFile` returns for a given row count: the first
      `rowCount` tag records, or the failure of the first one that does not read. */
  function TagRecordsOf(fs: FileSystem, floatName: string, rowCount: int): Result<seq<TagRecord>, DatError>
  {
    var tagName := TagFileName(floatName);
    if tagName !in fs.files then Err(OpenFailed(tagName))
    else match TagRecords(fs.files[tagName], Max0(rowCount))
      case Err(e) => Err(TagRecordFailed(e))
      case Ok(rs) => Ok(rs)
  }

  /** `ReadTagRecordsFile(floatfileName, rowCount)`: from 0xA1, `rowCount` calls
      of `NewDatTagRecord`, each appended; the first failure ends the read. */
  method ReadTagRecordsFile(fs: FileSystem, floatName: string, rowCount: int) returns (r: Result<seq<TagRecord>, DatError>)
    ensures r == TagRecordsOf(fs, floatName, rowCount)
  {
    var tagName := TagFileName(floatName);
    if tagName !in fs.files {
      return Err(OpenFailed(tagName));
    }
    var file := new Reader.Open(fs.files[tagName]);
    file.Seek(TagRecordsStart);
    var records := ReadTagRecords(file, rowCount);
    if records.Err? {
      return Err(TagRecordFailed(records.error));
    }
    return Ok(records.value);
  }

  /** What `ReadTagFile` returns. */
  function TagFileOf(fs: FileSystem, floatName: string): Result<seq<TagRecord>, DatError>
  {
    match TagFileHeader(fs, floatName)
    case Err(e) => Err(e)
    case Ok(header) => TagRecordsOf(fs, floatName, header.0)
  }

  /** `ReadTagFile(floatfileName)`: the header read, then the records read. */
  method ReadTagFile(fs: FileSystem, floatName: string) returns (r: Result<seq<TagRecord>, DatError>)
    ensures r == TagFileOf(fs, floatName)
  {
    var header := ReadTagFileHeader(fs, floatName);
    if header.Err? {
      return Err(header.error);
    }
    r := ReadTagRecordsFile(fs, floatName, header.value.0);
  }

  /** A tag file reads iff it exists, has a header, and each of its first
      rowCount records reads (none when the count is negative); there are then
      exactly that many records, record i being the decode of the 264 bytes at
      0xA1 + 264 i. */
  lemma TagFileSpec(fs: FileSystem, floatName: string)
    ensures var tagName := TagFileName(floatName);
      TagFileOf(fs, floatName).Ok? <==>
        && tagName in fs.files
        && HeaderOf(fs.files[tagName]).Ok?
        && TagRecords(fs.files[tagName], Max0(HeaderOf(fs.files[tagName]).value.rowCount)).Ok?
    ensures TagFileOf(fs, floatName).Ok? ==>
      var data := fs.files[TagFileName(floatName)];
      var count := Max0(HeaderOf(data).value.rowCount);
      var records := TagFileOf(fs, floatName).value;
      && |records| == count
      && (count > 0 ==> TagRecordPos(count) <= |data|)
      && forall i :: 0 <= i < count ==>
           Ok(records[i]) == DecodeTagBuffer(data[TagRecordPos(i)..TagRecordPos(i) + TagRecordSize])
  {
    var tagName := TagFileName(floatName);
    if TagFileOf(fs, floatName).Ok? {
      var data := fs.files[tagName];
      TagRecordsInFile(data, Max0(HeaderOf(data).value.rowCount));
    }
  }

}
