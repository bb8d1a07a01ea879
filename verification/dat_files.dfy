/** The layout of a pair of DAT files, and what reading them yields.

    A data logger writes, per run, a float file `<name> (Float).DAT` holding
    the samples and a tag file `<name> (Tagname).DAT` naming the tags. Both
    start with the 8-byte header; float records start at byte 0x121, tag
    records at byte 0xA1.

    The functions here are the specifications of the decoders' loops: what
    slot i of the float file holds, and what the first k tag records are. */
module DatFiles {
  import opened Wrappers
  import opened GoText
  import opened DatStream
  import opened DatRecords

  const FloatRecordsStart: nat := 0x121
  const TagRecordsStart: nat := 0xA1
  const FloatMarker := " (Float)"
  const TagMarker := " (Tagname)"
  const FloatFileSuffix := " (Float).DAT"

  /** The files and directories the program can see: `os.Open` fails iff the
      path is not a file here, `os.ReadDir` fails iff it is not a directory
      here; a directory lists its entry names in the order `ReadDir` gives. */
  datatype FileSystem = FileSystem(files: map<string, seq<Byte>>, dirs: map<string, seq<string>>)

  datatype DatError =
    | OpenFailed(path: string)
    | HeaderFailed(cause: HeaderError)
    | NegativeRowCount(rowCount: Int32)
    | TagRecordFailed(reason: TagError)
    | DirectoryUnreadable(dir: string)
    | NoInputFiles

  // ---------------------------------------------------------------- names

  /** `strings.Replace(floatfileName, " (Float)", " (Tagname)", 1)`. */
  function TagFileName(floatName: string): (r: string)
    ensures r == floatName || |r| == |floatName| + |TagMarker| - |FloatMarker|
  {
    ReplaceFirstLength(floatName, FloatMarker, TagMarker);
    ReplaceFirst(floatName, FloatMarker, TagMarker)
  }

  /** Only the first " (Float)" is replaced; the text around it, later
      occurrences included, is kept. */
  lemma TagFileNameFirstOnly(floatName: string, i: nat)
    requires OccursAt(floatName, FloatMarker, i)
    requires forall j: nat :: j < i ==> !OccursAt(floatName, FloatMarker, j)
    ensures TagFileName(floatName) == floatName[..i] + TagMarker + floatName[i + |FloatMarker|..]
  {
    ReplaceFirstAt(floatName, FloatMarker, TagMarker, i);
  }

  /** A name without " (Float)" is its own tag-file name. */
  lemma TagFileNameUnmarked(floatName: string)
    requires forall j: nat :: j <= |floatName| ==> !OccursAt(floatName, FloatMarker, j)
    ensures TagFileName(floatName) == floatName
  {
    ReplaceFirstAbsent(floatName, FloatMarker, TagMarker);
  }

  /** The path of entry `name` in directory `dir`, as the slash-separated
      concatenation of the two. `filepath.Join` also cleans the result; the
      model does not (see README). */
  function JoinPath(dir: string, name: string): string
  {
    if dir == [] then name else dir + "/" + name
  }

  /** The paths of the float files among a directory's entries, in listing order. */
  function FloatFileNames(dir: string, entries: seq<string>): seq<string>
  {
    Somes(seq(|entries|, i requires 0 <= i < |entries| =>
      if HasSuffix(entries[i], FloatFileSuffix) then Some(JoinPath(dir, entries[i])) else None))
  }

  /** The float files are exactly the entries ending in " (Float).DAT", joined
      to the directory, in the order they are listed. */
  lemma FloatFileNamesSpec(dir: string, entries: seq<string>)
    ensures var names := FloatFileNames(dir, entries);
      && |names| <= |entries|
      && (forall k :: 0 <= k < |entries| && HasSuffix(entries[k], FloatFileSuffix) ==>
            JoinPath(dir, entries[k]) in names)
      && exists idx: seq<nat> ::
           && |idx| == |names|
           && (forall j :: 0 <= j < |idx| ==>
                 idx[j] < |entries| && HasSuffix(entries[idx[j]], FloatFileSuffix)
                 && names[j] == JoinPath(dir, entries[idx[j]]))
           && (forall j, l :: 0 <= j < l < |idx| ==> idx[j] < idx[l])
  {
    var slots := seq(|entries|, i requires 0 <= i < |entries| =>
      if HasSuffix(entries[i], FloatFileSuffix) then Some(JoinPath(dir, entries[i])) else None);
    SomesCharacterized(slots);
    var idx := SomeIndices(slots);
    var names := Somes(slots);
    forall k | 0 <= k < |entries| && HasSuffix(entries[k], FloatFileSuffix)
      ensures JoinPath(dir, entries[k]) in names
    {
      assert slots[k].Some?;
      var j :| 0 <= j < |idx| && idx[j] == k;
      assert names[j] == JoinPath(dir, entries[k]);
    }
    forall j | 0 <= j < |idx|
      ensures idx[j] < |entries| && HasSuffix(entries[idx[j]], FloatFileSuffix)
      ensures names[j] == JoinPath(dir, entries[idx[j]])
    {
      assert slots[idx[j]] == Some(names[j]);
    }
  }

  /** Reading the directory and keeping the float files: strip every `"` from
      the path, list it, keep the float files; none is an error. */
  function DatReaderFor(fs: FileSystem, path: string): Result<seq<string>, DatError>
  {
    var dir := RemoveChar(path, '"');
    if dir !in fs.dirs then Err(DirectoryUnreadable(dir))
    else
      var names := FloatFileNames(dir, fs.dirs[dir]);
      if names == [] then Err(NoInputFiles) else Ok(names)
  }

  /** `NewDatReader(path)` (the two copies are the same): the loop appends each
      entry that ends in " (Float).DAT", joined to the directory. */
  method NewDatReader(fs: FileSystem, path: string) returns (r: Result<seq<string>, DatError>)
    ensures r == DatReaderFor(fs, path)
  {
    var dir := RemoveChar(path, '"');
    if dir !in fs.dirs {
      return Err(DirectoryUnreadable(dir));
    }
    var entries := fs.dirs[dir];
    var names: seq<string> := [];
    var i := 0;
    while i < |entries|
      invariant 0 <= i <= |entries|
      invariant names == FloatFileNames(dir, entries[..i])
    {
      var slotsBefore := seq(i, k requires 0 <= k < i =>
        if HasSuffix(entries[..i][k], FloatFileSuffix) then Some(JoinPath(dir, entries[..i][k])) else None);
      var slotsAfter := seq(i + 1, k requires 0 <= k < i + 1 =>
        if HasSuffix(entries[..i + 1][k], FloatFileSuffix) then Some(JoinPath(dir, entries[..i + 1][k])) else None);
      var slot := if HasSuffix(entries[i], FloatFileSuffix) then Some(JoinPath(dir, entries[i])) else None;
      assert slotsAfter == slotsBefore + [slot];
      SomesAppend(slotsBefore, slot);
      if HasSuffix(entries[i], FloatFileSuffix) {
        names := names + [JoinPath(dir, entries[i])];
      }
      i := i + 1;
    }
    assert entries[..i] == entries;
    if |names| == 0 {
      return Err(NoInputFiles);
    }
    return Ok(names);
  }

  // ---------------------------------------------------------------- float slots

  /** The cursor before the i-th record read: the records start at 0x121 and
      each read moves by 39 bytes, or to the end of the file. */
  function FloatCursor(data: seq<Byte>, i: nat): nat
  {
    if FloatRecordsStart >= |data| then FloatRecordsStart
    else Min(FloatRecordsStart + FloatRecordSize * i, |data|)
  }

  lemma FloatCursorStep(data: seq<Byte>, i: nat)
    ensures AfterRead(data, FloatCursor(data, i), FloatRecordSize) == FloatCursor(data, i + 1)
  {
  }

  /** The i-th `readNextDatFloatRecord` of the loop. */
  function FloatSlot(data: seq<Byte>, i: nat): FloatRead
  {
    FloatReadAt(data, FloatCursor(data, i))
  }

  /** What the loop keeps of the i-th read: the record when it decoded without
      error, nil otherwise. */
  function SlotRecord(data: seq<Byte>, i: nat): (s: Option<FloatRecord>)
    ensures s.Some? <==> FloatSlot(data, i).err.None?
    ensures s.Some? ==> s.value.isValid
  {
    if FloatSlot(data, i).err.None? then FloatSlot(data, i).record else None
  }

  /** The rowCount slots of a float file; a negative count gives none. */
  function FloatSlots(data: seq<Byte>, rowCount: int): (slots: seq<Option<FloatRecord>>)
    ensures |slots| == if rowCount < 0 then 0 else rowCount
  {
    seq(if rowCount < 0 then 0 else rowCount, i requires 0 <= i => SlotRecord(data, i))
  }

  /** One more row adds the slot of that row. */
  lemma FloatSlotsStep(data: seq<Byte>, i: nat)
    ensures FloatSlots(data, i + 1) == FloatSlots(data, i) + [SlotRecord(data, i)]
  {
    var longer := FloatSlots(data, i + 1);
    var extended := FloatSlots(data, i) + [SlotRecord(data, i)];
    forall k | 0 <= k < |longer|
      ensures longer[k] == extended[k]
    {
      if k < i {
        assert extended[k] == FloatSlots(data, i)[k] == SlotRecord(data, k);
      } else {
        assert extended[k] == SlotRecord(data, i);
      }
    }
  }

  /** The slot the i-th read fills: its record when it decoded, nil otherwise. */
  lemma SlotStep(data: seq<Byte>, i: nat, rec: Option<FloatRecord>, err: Option<RecordError>)
    requires FloatRead(rec, err) == FloatSlot(data, i)
    ensures FloatSlots(data, i + 1) == FloatSlots(data, i) + [if err.None? then rec else None]
  {
    FloatSlotsStep(data, i);
  }

  /** The 39 bytes of row i, when they are all in the file. */
  function FloatRecordBytes(data: seq<Byte>, i: nat): (buf: seq<Byte>)
    requires FloatRecordsStart + FloatRecordSize * (i + 1) <= |data|
    ensures |buf| == FloatRecordSize
  {
    data[FloatRecordsStart + FloatRecordSize * i..FloatRecordsStart + FloatRecordSize * (i + 1)]
  }

  /** What the loop keeps of a record that decodes or does not. */
  function Decoded(r: Result<FloatRecord, DecodeError>): Option<FloatRecord>
  {
    match r
    case Ok(rec) => Some(rec)
    case Err(_) => None
  }

  /** Slot i holds the decode of the 39 bytes at 0x121 + 39 i whenever they are
      all in the file, whatever became of the slots before it: a bad record does
      not shift the ones after it. */
  lemma FloatSlotAligned(data: seq<Byte>, i: nat)
    requires FloatRecordsStart + FloatRecordSize * (i + 1) <= |data|
    ensures SlotRecord(data, i) == Decoded(DecodeFloatBuffer(FloatRecordBytes(data, i)))
  {
    var start := FloatRecordsStart + FloatRecordSize * i;
    assert FloatCursor(data, i) == start;
    ReadWhole(data, start, FloatRecordSize);
  }

  /** Slots that start at or after the end of the file are nil. */
  lemma FloatSlotPastEnd(data: seq<Byte>, i: nat)
    requires FloatRecordsStart + FloatRecordSize * i >= |data|
    ensures SlotRecord(data, i) == None
  {
    assert FloatCursor(data, i) >= |data|;
  }

  /** The n slots: each is nil or a valid record; slot i is the decode of row
      i's 39 bytes when they are all in the file; a slot that starts at or past
      the end of the file is nil. */
  lemma FloatSlotsSpec(data: seq<Byte>, n: nat)
    ensures |FloatSlots(data, n)| == n
    ensures forall i :: 0 <= i < n && FloatSlots(data, n)[i].Some? ==> FloatSlots(data, n)[i].value.isValid
    ensures forall i :: 0 <= i < n && FloatRecordsStart + FloatRecordSize * (i + 1) <= |data| ==>
      FloatSlots(data, n)[i] == Decoded(DecodeFloatBuffer(FloatRecordBytes(data, i)))
    ensures forall i :: 0 <= i < n && FloatRecordsStart + FloatRecordSize * i >= |data| ==> FloatSlots(data, n)[i] == None
  {
    forall i | 0 <= i < n && FloatRecordsStart + FloatRecordSize * (i + 1) <= |data|
      ensures FloatSlots(data, n)[i] == Decoded(DecodeFloatBuffer(FloatRecordBytes(data, i)))
    {
      FloatSlotAligned(data, i);
    }
    forall i | 0 <= i < n && FloatRecordsStart + FloatRecordSize * i >= |data|
      ensures FloatSlots(data, n)[i] == None
    {
      FloatSlotPastEnd(data, i);
    }
  }

  // ---------------------------------------------------------------- tag records

  function TagRecordPos(i: nat): nat
  {
    TagRecordsStart + TagRecordSize * i
  }

  /** The i-th tag record read on its own (the cursor it leaves is dropped). */
  function TagRead(data: seq<Byte>, i: nat): Result<TagRecord, TagError>
  {
    match TagRecordAt(data, TagRecordPos(i))
    case Err(e) => Err(e)
    case Ok(rec) => Ok(rec.0)
  }

  /** The outcomes of the first k tag-record reads, in file order. */
  function TagReads(data: seq<Byte>, k: nat): (rs: seq<Result<TagRecord, TagError>>)
    ensures |rs| == k
  {
    seq(k, i requires 0 <= i => TagRead(data, i))
  }

  /** The first k tag records, read one after the other from 0xA1; the first
      failure is the result. */
  function TagRecords(data: seq<Byte>, k: nat): Result<seq<TagRecord>, TagError>
  {
    Collect(TagReads(data, k))
  }

  lemma TagReadsPrefix(data: seq<Byte>, k: nat, m: nat)
    requires k <= m
    ensures TagReads(data, m)[..k] == TagReads(data, k)
  {
  }

  /** Reading one record more: its value is appended, or its error is the result. */
  lemma TagRecordsStep(data: seq<Byte>, k: nat)
    ensures TagRecords(data, k + 1) ==
      match TagRecords(data, k)
      case Err(e) => Err(e)
      case Ok(rs) =>
        (match TagRecordAt(data, TagRecordPos(k))
         case Err(e) => Err(e)
         case Ok(rec) => Ok(rs + [rec.0]))
  {
    assert TagReads(data, k + 1) == TagReads(data, k) + [TagRead(data, k)];
    CollectAppend(TagReads(data, k), TagRead(data, k));
  }

  /** The k records are there iff each of them reads, and record i is then
      the one read at 0xA1 + 264 i, in file order; otherwise the error is that
      of the first record that fails. */
  lemma TagRecordsSpec(data: seq<Byte>, k: nat)
    ensures TagRecords(data, k).Ok? <==> forall i :: 0 <= i < k ==> TagRead(data, i).Ok?
    ensures TagRecords(data, k).Ok? ==>
      && |TagRecords(data, k).value| == k
      && forall i :: 0 <= i < k ==> TagRecords(data, k).value[i] == TagRead(data, i).value
    ensures TagRecords(data, k).Err? ==>
      exists i :: 0 <= i < k && TagRead(data, i) == Err(TagRecords(data, k).error)
        && forall j :: 0 <= j < i ==> TagRead(data, j).Ok?
  {
    var rs := TagReads(data, k);
    CollectSpec(rs);
    assert forall i :: 0 <= i < k ==> rs[i] == TagRead(data, i);
  }

  /** A tag record that reads lies whole in the file, 264 bytes from its start. */
  lemma TagReadInFile(data: seq<Byte>, i: nat)
    requires TagRead(data, i).Ok?
    ensures TagRecordPos(i) + TagRecordSize <= |data|
    ensures TagRead(data, i) == DecodeTagBuffer(data[TagRecordPos(i)..TagRecordPos(i) + TagRecordSize])
  {
    TagRecordConsumesFixedSize(data, TagRecordPos(i));
  }

  /** When the k records read, the file holds all k of them and record i is
      the decode of the 264 bytes at 0xA1 + 264 i. */
  lemma TagRecordsInFile(data: seq<Byte>, k: nat)
    requires TagRecords(data, k).Ok?
    ensures k > 0 ==> TagRecordPos(k) <= |data|
    ensures |TagRecords(data, k).value| == k
    ensures forall i :: 0 <= i < k ==>
      Ok(TagRecords(data, k).value[i]) == DecodeTagBuffer(data[TagRecordPos(i)..TagRecordPos(i) + TagRecordSize])
  {
    TagRecordsSpec(data, k);
    forall i | 0 <= i < k
      ensures TagRecordPos(i) + TagRecordSize <= |data|
      ensures Ok(TagRecords(data, k).value[i]) == DecodeTagBuffer(data[TagRecordPos(i)..TagRecordPos(i) + TagRecordSize])
    {
      TagReadInFile(data, i);
    }
    if k > 0 {
      TagReadInFile(data, k - 1);
    }
  }

  /** A read error stays an error however many more records are asked for. */
  lemma TagRecordsErrPersists(data: seq<Byte>, k: nat, m: nat)
    requires k <= m && TagRecords(data, k).Err?
    ensures TagRecords(data, m) == TagRecords(data, k)
  {
    TagReadsPrefix(data, k, m);
    CollectPrefixErr(TagReads(data, m), k);
  }

  function Max0(n: int): nat
  {
    if n < 0 then 0 else n
  }

  /** One turn of the tag-record loop: a record read after the first i
      extends them and leaves the cursor at record i + 1; a failure is the
      result of reading any number of records beyond i. */
  lemma TagRecordsLoopStep(data: seq<Byte>, i: nat, records: seq<TagRecord>,
                           rec: Result<TagRecord, TagError>, next: nat, m: nat)
    requires TagRecords(data, i) == Ok(records)
    requires WithCursor(rec, next) == TagRecordAt(data, TagRecordPos(i))
    requires i < m
    ensures rec.Ok? ==> TagRecords(data, i + 1) == Ok(records + [rec.value]) && next == TagRecordPos(i + 1)
    ensures rec.Err? ==> TagRecords(data, m) == Err(rec.error)
  {
    TagRecordsStep(data, i);
    TagRecordConsumesFixedSize(data, TagRecordPos(i));
    if rec.Err? {
      TagRecordsErrPersists(data, i + 1, m);
    }
  }

  /** The tag-record loop both decoders run once the cursor is at 0xA1:
      `rowCount` calls of `NewDatTagRecord`, each record appended; the first
      failure ends the loop. */
  method ReadTagRecords(file: Reader, rowCount: int) returns (r: Result<seq<TagRecord>, TagError>)
    requires file.pos == TagRecordsStart
    modifies file
    ensures r == TagRecords(file.data, Max0(rowCount))
  {
    var records: seq<TagRecord> := [];
    var i := 0;
    while i < rowCount
      invariant 0 <= i <= Max0(rowCount)
      invariant file.pos == TagRecordPos(i)
      invariant TagRecords(file.data, i) == Ok(records)
    {
      var rec := ReadTagRecord(file);
      TagRecordsLoopStep(file.data, i, records, rec, file.pos, Max0(rowCount));
      if rec.Err? {
        return Err(rec.error);
      }
      records := records + [rec.value];
      i := i + 1;
    }
    assert i == Max0(rowCount);
    return Ok(records);
  }

  /** The date of a tag file's header, `fmt.Sprintf("%04d-%02d-%02d", ...)`
      with the year counted from 1900. */
  function DateString(h: Header): (s: string)
    ensures 10 <= |s| <= 12 && s[4] == '-'
    ensures AllDigits(s[..4]) && DigitsValue(s[..4]) == h.year + 1900
  {
    Pow10Values();
    ZeroPadFixed(h.year + 1900, 4);
    DecimalLength(h.month, 3);
    DecimalLength(h.day, 3);
    DateSlices(ZeroPad(h.year + 1900, 4) + "-" + ZeroPad(h.month, 2) + "-" + ZeroPad(h.day, 2),
      ZeroPad(h.year + 1900, 4), ZeroPad(h.month, 2), ZeroPad(h.day, 2));
    ZeroPad(h.year + 1900, 4) + "-" + ZeroPad(h.month, 2) + "-" + ZeroPad(h.day, 2)
  }

  /** The year always takes four digits; a month and day below 100 take two,
      so the date has the form YYYY-MM-DD and each field reads back. */
  lemma DateStringSpec(h: Header)
    ensures var s := DateString(h);
      && |s| >= 10 && AllDigits(s[..4]) && DigitsValue(s[..4]) == h.year + 1900 && s[4] == '-'
    ensures h.month < 100 && h.day < 100 ==>
      var s := DateString(h);
      && |s| == 10 && s[7] == '-'
      && AllDigits(s[5..7]) && DigitsValue(s[5..7]) == h.month
      && AllDigits(s[8..10]) && DigitsValue(s[8..10]) == h.day
  {
    Pow10Values();
    ZeroPadFixed(h.year + 1900, 4);
    var y := ZeroPad(h.year + 1900, 4);
    var m := ZeroPad(h.month, 2);
    var d := ZeroPad(h.day, 2);
    var s := DateString(h);
    DecimalLength(h.month, 3);
    DecimalLength(h.day, 3);
    DateSlices(s, y, m, d);
    if h.month < 100 && h.day < 100 {
      ZeroPadFixed(h.month, 2);
      ZeroPadFixed(h.day, 2);
    }
  }

  lemma DateSlices(s: string, y: string, m: string, d: string)
    requires |y| == 4 && |m| >= 2 && |d| >= 2 && s == y + "-" + m + "-" + d
    ensures |s| >= 10 && s[..4] == y && s[4] == '-'
    ensures |m| == 2 && |d| == 2 ==> |s| == 10 && s[5..7] == m && s[7] == '-' && s[8..10] == d
  {
  }
}
