/** The decoder of libdat/libdat.go: the same file formats as LibDAT, but each
    file is opened once, and the float records that read are appended, so the
    result has no nil gaps. */
module libdat {
  import opened Wrappers
  import opened GoText
  import opened DatStream
  import opened DatRecords
  import opened DatFiles
  import LibDAT

  /** What `ReadFloatFile` returns: the records of the rows that read, in row
      order. A negative row count reads nothing. */
  function FloatFileOf(fs: FileSystem, name: string): Result<seq<FloatRecord>, DatError>
  {
    if name !in fs.files then Err(OpenFailed(name))
    else match HeaderOf(fs.files[name])
      case Err(e) => Err(HeaderFailed(e))
      case Ok(h) => Ok(Somes(FloatSlots(fs.files[name], h.rowCount)))
  }

  /** `ReadFloatFile(filename)`: the header, a seek to 0x121, then `rowCount`
      calls of `readNextDatFloatRecord`; a failed call is logged and skipped,
      a successful one appended. */
  method ReadFloatFile(fs: FileSystem, name: string) returns (r: Result<seq<FloatRecord>, DatError>)
    ensures r == FloatFileOf(fs, name)
  {
    if name !in fs.files {
      return Err(OpenFailed(name));
    }
    var file := new Reader.Open(fs.files[name]);
    var h := ReadHeader(file);
    if h.Err? {
      return Err(HeaderFailed(h.error));
    }
    var rowCount := h.value.rowCount;
    file.Seek(FloatRecordsStart);
    var records: seq<FloatRecord> := [];
    var i := 0;
    while i < rowCount
      invariant 0 <= i <= Max0(rowCount)
      invariant file.data == fs.files[name]
      invariant file.pos == FloatCursor(file.data, i)
      invariant records == Somes(FloatSlots(file.data, i))
    {
      FloatCursorStep(file.data, i);
      var rec, err := ReadNextFloatRecord(file);
      KeptStep(file.data, i, records, rec, err);
      if err.None? {
        records := records + [rec.value];
      }
      i := i + 1;
    }
    assert FloatSlots(file.data, i) == FloatSlots(file.data, rowCount);
    return Ok(records);
  }

  /** One more read of the loop appends its record exactly when it decoded. */
  lemma KeptStep(data: seq<Byte>, i: nat, records: seq<FloatRecord>, rec: Option<FloatRecord>, err: Option<RecordError>)
    requires records == Somes(FloatSlots(data, i))
    requires FloatRead(rec, err) == FloatSlot(data, i)
    ensures err.None? ==> rec.Some? && records + [rec.value] == Somes(FloatSlots(data, i + 1))
    ensures err.Some? ==> records == Somes(FloatSlots(data, i + 1))
  {
    FloatSlotsStep(data, i);
    SomesAppend(FloatSlots(data, i), SlotRecord(data, i));
  }

  /** Every record returned is valid, there are at most rowCount of them, and
      they are the decodes of rows that read, in row order: record j comes from
      row `rows[j]`, and the rows increase. */
  lemma FloatFileSpec(fs: FileSystem, name: string)
    ensures FloatFileOf(fs, name).Ok? <==> name in fs.files && |fs.files[name]| >= 8
    ensures FloatFileOf(fs, name).Ok? ==>
      var data := fs.files[name];
      var records := FloatFileOf(fs, name).value;
      && |records| <= Max0(Int32LE(data[4..8]))
      && (forall j :: 0 <= j < |records| ==> records[j].isValid)
      && exists rows: seq<nat> ::
           && |rows| == |records|
           && (forall j :: 0 <= j < |rows| ==> rows[j] < Max0(Int32LE(data[4..8])) && SlotRecord(data, rows[j]) == Some(records[j]))
           && (forall j, l :: 0 <= j < l < |rows| ==> rows[j] < rows[l])
  {
    if name in fs.files {
      HeaderOfSpec(fs.files[name]);
    }
    if FloatFileOf(fs, name).Ok? {
      KeptRows(fs.files[name], Int32LE(fs.files[name][4..8]));
    }
  }

  /** The records kept from n slots: valid, at most n, from increasing rows. */
  lemma KeptRows(data: seq<Byte>, n: int)
    ensures var records := Somes(FloatSlots(data, n));
      && |records| <= Max0(n)
      && (forall j :: 0 <= j < |records| ==> records[j].isValid)
      && exists rows: seq<nat> ::
           && |rows| == |records|
           && (forall j :: 0 <= j < |rows| ==> rows[j] < Max0(n) && SlotRecord(data, rows[j]) == Some(records[j]))
           && (forall j, l :: 0 <= j < l < |rows| ==> rows[j] < rows[l])
  {
    var slots := FloatSlots(data, n);
    var records := Somes(slots);
    SomesCharacterized(slots);
    var rows := SomeIndices(slots);
    forall j | 0 <= j < |records|
      ensures records[j].isValid
    {
      assert slots[rows[j]] == Some(records[j]);
    }
    assert |rows| == |records|;
  }

  /** The two copies agree: where LibDAT reads a float file, libdat returns
      exactly its non-nil slots, in order; where LibDAT fails for a negative row
      count (Go panics there), libdat returns no records; any other failure is
      the same in both. */
  lemma SameRecordsAsLibDAT(fs: FileSystem, name: string)
    ensures LibDAT.FloatFileOf(fs, name).Ok? ==>
      FloatFileOf(fs, name) == Ok(Somes(LibDAT.FloatFileOf(fs, name).value))
    ensures LibDAT.FloatFileOf(fs, name).Err? && LibDAT.FloatFileOf(fs, name).error.NegativeRowCount? ==>
      FloatFileOf(fs, name) == Ok([])
    ensures LibDAT.FloatFileOf(fs, name).Err? && !LibDAT.FloatFileOf(fs, name).error.NegativeRowCount? ==>
      FloatFileOf(fs, name) == Err(LibDAT.FloatFileOf(fs, name).error)
  {
  }

  /** What `ReadTagFile` returns: the same records as LibDAT's two-pass
      reading of the tag file. */
  function TagFileOf(fs: FileSystem, floatName: string): Result<seq<TagRecord>, DatError>
  {
    var tagName := TagFileName(floatName);
    if tagName !in fs.files then Err(OpenFailed(tagName))
    else match HeaderOf(fs.files[tagName])
      case Err(e) => Err(HeaderFailed(e))
      case Ok(h) =>
        match TagRecords(fs.files[tagName], Max0(h.rowCount))
        case Err(e) => Err(TagRecordFailed(e))
        case Ok(rs) => Ok(rs)
  }

  /** `ReadTagFile(floatfileName)`: the header, a seek to 0xA1, then `rowCount`
      calls of `NewDatTagRecord`, each appended; the first failure ends the read. */
  method ReadTagFile(fs: FileSystem, floatName: string) returns (r: Result<seq<TagRecord>, DatError>)
    ensures r == TagFileOf(fs, floatName)
  {
    var tagName := TagFileName(floatName);
    if tagName !in fs.files {
      return Err(OpenFailed(tagName));
    }
    var file := new Reader.Open(fs.files[tagName]);
    var h := ReadHeader(file);
    if h.Err? {
      return Err(HeaderFailed(h.error));
    }
    file.Seek(TagRecordsStart);
    var records := ReadTagRecords(file, h.value.rowCount);
    if records.Err? {
      return Err(TagRecordFailed(records.error));
    }
    return Ok(records.value);
  }

  /** Reading the tag file in one pass gives what LibDAT's header-then-records
      reading gives. */
  lemma SameTagsAsLibDAT(fs: FileSystem, floatName: string)
    ensures TagFileOf(fs, floatName) == LibDAT.TagFileOf(fs, floatName)
  {
  }
}
