/** The two record layouts of the DAT archive and their decoders.

    A float record is 39 bytes:
      byte 0        unused
      bytes 1-16    time of day, `YYYYMMDDHH:MM:SS`
      bytes 17-19   milliseconds, decimal text, may be space padded
      bytes 20-24   tag id, decimal text, may be space padded
      bytes 25-32   the value, an IEEE double, little endian
      byte 33       status
      byte 34       marker
      bytes 35-38   unused

    A tag record is 264 bytes, read field by field: a skipped byte, a 255-byte
    name, a 5-byte id, a 1-byte kind and a 2-byte subtype. */
module DatRecords {
  import opened Wrappers
  import opened GoText
  import opened GoTime
  import opened DatStream

  // ---------------------------------------------------------------- float records

  const FloatRecordSize: nat := 39

  /** The parsed time of a record, plus the millisecond field `time.Time.Add`
      applies to it. */
  datatype Timestamp = Timestamp(civil: DateTime, millis: int)

  /** `DatFloatRecord`; the double is kept as its 64-bit pattern. */
  datatype FloatRecord = FloatRecord(
    timeStamp: Timestamp, tagId: int, valBits: Uint64, status: Byte, marker: Byte, isValid: bool)

  /** `&DatFloatRecord{IsValid: false}`: every other field at its zero value. */
  const InvalidRecord := FloatRecord(Timestamp(ZeroDateTime, 0), 0, 0, 0, 0, false)

  datatype DecodeError = BadTime(TimeError) | BadMillis(NumError) | BadTagId(NumError)

  /** The field extraction of `readNextDatFloatRecord` on its filled buffer. */
  function DecodeFloatBuffer(buf: seq<Byte>): (r: Result<FloatRecord, DecodeError>)
    requires |buf| == FloatRecordSize
    ensures r.Ok? ==>
      && r.value.isValid
      && ValidDateTime(r.value.timeStamp.civil) && 0 <= r.value.timeStamp.civil.year <= 9999
      && Int64Min <= r.value.timeStamp.millis <= Int64Max
      && Int64Min <= r.value.tagId <= Int64Max
  {
    match ParseStamp(BytesToString(buf[1..17]))
    case Err(e) => Err(BadTime(e))
    case Ok(civil) =>
      match Atoi(TrimSpace(BytesToString(buf[17..20])))
      case Err(e) => Err(BadMillis(e))
      case Ok(millis) =>
        match Atoi(TrimSpace(BytesToString(buf[20..25])))
        case Err(e) => Err(BadTagId(e))
        case Ok(id) =>
          Ok(FloatRecord(Timestamp(civil, millis), id, Uint64LE(buf[25..33]), buf[33], buf[34], true))
  }

  /** A decode succeeds iff bytes 1-16 hold a date and time at the places of
      the layout, in range, and the trimmed milliseconds in bytes 17-19 and the
      trimmed id in bytes 20-24 are each an optional sign and decimal digits
      within 64 bits. The record then carries that date and time and the values
      those digits spell, the value bits of bytes 25-32, the status byte 33 and
      the marker byte 34, and is valid. */
  lemma DecodeFloatFields(buf: seq<Byte>)
    requires |buf| == FloatRecordSize
    ensures var time := BytesToString(buf[1..17]);
      var ms := TrimSpace(BytesToString(buf[17..20]));
      var id := TrimSpace(BytesToString(buf[20..25]));
      DecodeFloatBuffer(buf).Ok? <==>
        StampShaped(time) && ValidDateTime(StampFields(time)) && IsInt64Text(ms) && IsInt64Text(id)
    ensures var time := BytesToString(buf[1..17]);
      var ms := TrimSpace(BytesToString(buf[17..20]));
      var id := TrimSpace(BytesToString(buf[20..25]));
      DecodeFloatBuffer(buf).Ok? ==>
        && StampShaped(time) && IsInt64Text(ms) && IsInt64Text(id)
        && DecodeFloatBuffer(buf).value == FloatRecord(
             Timestamp(StampFields(time), SignedValue(ms)), SignedValue(id),
             Uint64LE(buf[25..33]), buf[33], buf[34], true)
  {
    AtoiText(TrimSpace(BytesToString(buf[17..20])));
    AtoiText(TrimSpace(BytesToString(buf[20..25])));
  }

  /** Bytes 0 and 35-38 never affect the result. */
  lemma DecodeIgnoresUnusedBytes(a: seq<Byte>, b: seq<Byte>)
    requires |a| == |b| == FloatRecordSize
    requires a[1..35] == b[1..35]
    ensures DecodeFloatBuffer(a) == DecodeFloatBuffer(b)
  {
    forall i | 1 <= i < 35 ensures a[i] == b[i] {
      assert a[i] == a[1..35][i - 1];
    }
    assert a[1..17] == b[1..17];
    assert a[17..20] == b[17..20];
    assert a[20..25] == b[20..25];
    assert a[25..33] == b[25..33];
  }

  /** What one `readNextDatFloatRecord` call hands back: the record
      (nil is `None`) and the error. */
  datatype FloatRead = FloatRead(record: Option<FloatRecord>, err: Option<RecordError>)

  datatype RecordError = ReadFailed(cause: IoError) | Malformed(reason: DecodeError)

  /** `readNextDatFloatRecord` on a file whose cursor is at `pos`: one `Read`
      of 39 bytes, then the decode of the (zero-padded) buffer. */
  function FloatReadAt(data: seq<Byte>, pos: nat): (r: FloatRead)
    ensures r.err.None? <==> r.record.Some? && r.record.value.isValid
    ensures r.err.Some? && r.err.value.ReadFailed? <==> r.record.None?
    ensures r.err.Some? && r.err.value.Malformed? ==> r.record == Some(InvalidRecord)
    ensures r.record.None? <==> pos >= |data|
  {
    match ReadAt(data, pos, FloatRecordSize)
    case Err(e) => FloatRead(None, Some(ReadFailed(e)))
    case Ok(got) =>
      DecodeFloatFields(Filled(got, FloatRecordSize));
      match DecodeFloatBuffer(Filled(got, FloatRecordSize))
      case Err(e) => FloatRead(Some(InvalidRecord), Some(Malformed(e)))
      case Ok(rec) => FloatRead(Some(rec), None)
  }

  /** `readNextDatFloatRecord(br)`. */
  method ReadNextFloatRecord(r: Reader) returns (rec: Option<FloatRecord>, err: Option<RecordError>)
    modifies r
    ensures FloatRead(rec, err) == FloatReadAt(r.data, old(r.pos))
    ensures r.pos == AfterRead(r.data, old(r.pos), FloatRecordSize)
  {
    var buf, readErr := r.Read(FloatRecordSize);
    if readErr.Some? {
      return None, Some(ReadFailed(readErr.value));
    }
    match DecodeFloatBuffer(buf)
    case Err(e) =>
      return Some(InvalidRecord), Some(Malformed(e));
    case Ok(decoded) =>
      return Some(decoded), None;
  }

  /** The fields a data logger writes into one float record. */
  datatype FloatFields = FloatFields(
    civil: DateTime, millis: nat, tagId: nat, valBits: Uint64, status: Byte, marker: Byte)

  predicate Writable(f: FloatFields)
  {
    0 <= f.civil.year <= 9999 && ValidDateTime(f.civil) && f.millis < 1000 && f.tagId < 100000
  }

  function DigitBytes(s: string): (bs: seq<Byte>)
    requires AllDigits(s)
    ensures |bs| == |s| && BytesToString(bs) == s
  {
    DigitsAreBytes(s);
    StringToBytes(s)
  }

  /** A float record as the logger lays it out, with zero-padded numbers. */
  function EncodeFloatRecord(f: FloatFields): (buf: seq<Byte>)
    requires Writable(f)
    ensures |buf| == FloatRecordSize
  {
    Pow10Values();
    ZeroPadFixed(f.millis, 3);
    ZeroPadFixed(f.tagId, 5);
    [0] + StringToBytes(FormatStamp(f.civil)) + DigitBytes(ZeroPad(f.millis, 3))
      + DigitBytes(ZeroPad(f.tagId, 5)) + Uint64Bytes(f.valBits)
      + [f.status, f.marker] + ZeroBytes(4)
  }

  /** Where each field of an encoded record lies. */
  lemma EncodedFloatSlices(f: FloatFields)
    requires Writable(f)
    ensures var buf := EncodeFloatRecord(f);
      && IsByteString(FormatStamp(f.civil))
      && buf[1..17] == StringToBytes(FormatStamp(f.civil))
      && buf[17..20] == DigitBytes(ZeroPad(f.millis, 3))
      && buf[20..25] == DigitBytes(ZeroPad(f.tagId, 5))
      && buf[25..33] == Uint64Bytes(f.valBits)
      && buf[33] == f.status && buf[34] == f.marker
  {
    Pow10Values();
    ZeroPadFixed(f.millis, 3);
    ZeroPadFixed(f.tagId, 5);
    var t := StringToBytes(FormatStamp(f.civil));
    var m := DigitBytes(ZeroPad(f.millis, 3));
    var d := DigitBytes(ZeroPad(f.tagId, 5));
    var v := Uint64Bytes(f.valBits);
    var buf := EncodeFloatRecord(f);
    assert buf == [0] + t + m + d + v + [f.status, f.marker] + ZeroBytes(4);
    FloatLayoutSlices(buf, t, m, d, v, f.status, f.marker, ZeroBytes(4));
  }

  lemma FloatLayoutSlices(buf: seq<Byte>, t: seq<Byte>, m: seq<Byte>, d: seq<Byte>, v: seq<Byte>,
                          status: Byte, marker: Byte, pad: seq<Byte>)
    requires |t| == 16 && |m| == 3 && |d| == 5 && |v| == 8
    requires buf == [0] + t + m + d + v + [status, marker] + pad
    ensures buf[1..17] == t && buf[17..20] == m && buf[20..25] == d && buf[25..33] == v
    ensures buf[33] == status && buf[34] == marker
  {
  }

  /** Each field of an encoded record, read back the way the decoder reads it. */
  lemma EncodedFloatFields(f: FloatFields)
    requires Writable(f)
    ensures var buf := EncodeFloatRecord(f);
      && ParseStamp(BytesToString(buf[1..17])) == Ok(f.civil)
      && Atoi(TrimSpace(BytesToString(buf[17..20]))) == Ok(f.millis as int)
      && Atoi(TrimSpace(BytesToString(buf[20..25]))) == Ok(f.tagId as int)
      && Uint64LE(buf[25..33]) == f.valBits
      && buf[33] == f.status && buf[34] == f.marker
  {
    Pow10Values();
    EncodedFloatSlices(f);
    ParseFormatStamp(f.civil);
    AtoiZeroPad(f.millis, 3);
    AtoiZeroPad(f.tagId, 5);
    Uint64RoundTrip(f.valBits);
  }

  /** Decoding an encoded record gives back every field, valid. */
  lemma FloatRecordRoundTrip(f: FloatFields)
    requires Writable(f)
    ensures DecodeFloatBuffer(EncodeFloatRecord(f))
         == Ok(FloatRecord(Timestamp(f.civil, f.millis), f.tagId, f.valBits, f.status, f.marker, true))
  {
    EncodedFloatFields(f);
    DecodeFloatFields(EncodeFloatRecord(f));
  }

  /** The last record of a file cut short still decodes when the cut falls
      after the id: `Read` does not insist on a full buffer, so the missing
      value bytes read as zeros and the record is accepted as valid. */
  lemma TruncatedFloatRecordAccepted(f: FloatFields, cut: nat)
    requires Writable(f) && 25 <= cut < FloatRecordSize
    ensures var got := EncodeFloatRecord(f)[..cut];
      && FloatReadAt(got, 0).err.None?
      && FloatReadAt(got, 0).record.value.tagId == f.tagId
      && FloatReadAt(got, 0).record.value.valBits == Uint64LE(Filled(got, FloatRecordSize)[25..33])
  {
    var buf := EncodeFloatRecord(f);
    var got := buf[..cut];
    ReadShortTail(buf, cut);
    var padded := Filled(got, FloatRecordSize);
    EncodedFloatFields(f);
    PaddedKeepsText(buf, cut);
    DecodeFloatFields(padded);
  }

  lemma ReadShortTail(buf: seq<Byte>, cut: nat)
    requires 0 < cut < |buf| == FloatRecordSize
    ensures ReadAt(buf[..cut], 0, FloatRecordSize) == Ok(buf[..cut])
  {
    assert buf[..cut][0..cut] == buf[..cut];
  }

  lemma PaddedKeepsText(buf: seq<Byte>, cut: nat)
    requires 25 <= cut < |buf| == FloatRecordSize
    ensures var padded := Filled(buf[..cut], FloatRecordSize);
      && padded[1..17] == buf[1..17] && padded[17..20] == buf[17..20] && padded[20..25] == buf[20..25]
  {
  }

  // ---------------------------------------------------------------- tag records

  const TagRecordSize: nat := 264

  /** `DatTagRecord`. */
  datatype TagRecord = TagRecord(name: string, id: int, kind: int, subtype: int)

  datatype TagField = SkipByte | NameField | IdField | KindField | SubtypeField

  datatype TagError = TagReadFailed(field: TagField, cause: IoError) | TagBadNumber(field: TagField, reason: NumError)

  /** `NewDatTagRecord` on a file whose cursor is at `pos`: five `Read`s of
      1, 255, 5, 1 and 2 bytes. The name, id and subtype are trimmed before use,
      the kind byte is parsed as it is. On success, the cursor after the record. */
  function TagRecordAt(data: seq<Byte>, pos: nat): (r: Result<(TagRecord, nat), TagError>)
  {
    match ReadAt(data, pos, 1)
    case Err(e) => Err(TagReadFailed(SkipByte, e))
    case Ok(skip) =>
      var p1 := pos + |skip|;
      match ReadAt(data, p1, 255)
      case Err(e) => Err(TagReadFailed(NameField, e))
      case Ok(nameGot) =>
        TagNumbersAt(data, p1 + |nameGot|, TrimSpace(BytesToString(Filled(nameGot, 255))))
  }

  /** The second half of `NewDatTagRecord`, once the name is read: the id,
      kind and subtype fields from `pos` on. */
  function TagNumbersAt(data: seq<Byte>, pos: nat, name: string): (r: Result<(TagRecord, nat), TagError>)
  {
    match ReadAt(data, pos, 5)
    case Err(e) => Err(TagReadFailed(IdField, e))
    case Ok(idGot) =>
      match Atoi(TrimSpace(BytesToString(Filled(idGot, 5))))
      case Err(e) => Err(TagBadNumber(IdField, e))
      case Ok(id) => TagKindAt(data, pos + |idGot|, name, id)
  }

  /** The kind and subtype fields, once the name and id are known. */
  function TagKindAt(data: seq<Byte>, pos: nat, name: string, id: int): (r: Result<(TagRecord, nat), TagError>)
  {
    match ReadAt(data, pos, 1)
    case Err(e) => Err(TagReadFailed(KindField, e))
    case Ok(kindGot) =>
      var p4 := pos + |kindGot|;
      match Atoi(BytesToString(Filled(kindGot, 1)))
      case Err(e) => Err(TagBadNumber(KindField, e))
      case Ok(kind) =>
        match ReadAt(data, p4, 2)
        case Err(e) => Err(TagReadFailed(SubtypeField, e))
        case Ok(subGot) =>
          match Atoi(TrimSpace(BytesToString(Filled(subGot, 2))))
          case Err(e) => Err(TagBadNumber(SubtypeField, e))
          case Ok(subtype) => Ok((TagRecord(name, id, kind, subtype), p4 + |subGot|))
  }

  /** `NewDatTagRecord(br)`: the record, with the cursor just past it. */
  method ReadTagRecord(r: Reader) returns (rec: Result<TagRecord, TagError>)
    modifies r
    ensures WithCursor(rec, r.pos) == TagRecordAt(r.data, old(r.pos))
  {
    var skip, err := r.Read(1);
    if err.Some? {
      return Err(TagReadFailed(SkipByte, err.value));
    }
    var nameBytes, err1 := r.Read(255);
    if err1.Some? {
      return Err(TagReadFailed(NameField, err1.value));
    }
    var name := TrimSpace(BytesToString(nameBytes));
    rec := ReadTagNumbers(r, name);
  }

  /** The id, kind and subtype reads of `NewDatTagRecord`, once the name is
      known. */
  method ReadTagNumbers(r: Reader, name: string) returns (rec: Result<TagRecord, TagError>)
    modifies r
    ensures WithCursor(rec, r.pos) == TagNumbersAt(r.data, old(r.pos), name)
  {
    var idBytes, err2 := r.Read(5);
    if err2.Some? {
      return Err(TagReadFailed(IdField, err2.value));
    }
    var id := Atoi(TrimSpace(BytesToString(idBytes)));
    if id.Err? {
      return Err(TagBadNumber(IdField, id.error));
    }
    rec := ReadTagKind(r, name, id.value);
  }

  /** The kind and subtype reads of `NewDatTagRecord`. */
  method ReadTagKind(r: Reader, name: string, id: int) returns (rec: Result<TagRecord, TagError>)
    modifies r
    ensures WithCursor(rec, r.pos) == TagKindAt(r.data, old(r.pos), name, id)
  {
    var kindBytes, err3 := r.Read(1);
    if err3.Some? {
      return Err(TagReadFailed(KindField, err3.value));
    }
    var kind := Atoi(BytesToString(kindBytes));
    if kind.Err? {
      return Err(TagBadNumber(KindField, kind.error));
    }
    var subtypeBytes, err4 := r.Read(2);
    if err4.Some? {
      return Err(TagReadFailed(SubtypeField, err4.value));
    }
    var subtype := Atoi(TrimSpace(BytesToString(subtypeBytes)));
    if subtype.Err? {
      return Err(TagBadNumber(SubtypeField, subtype.error));
    }
    return Ok(TagRecord(name, id, kind.value, subtype.value));
  }

  /** The same fields taken from one contiguous 264-byte buffer. */
  function DecodeTagBuffer(buf: seq<Byte>): (r: Result<TagRecord, TagError>)
    requires |buf| == TagRecordSize
    ensures r.Ok? ==>
      && |r.value.name| <= 255 && 0 <= r.value.kind <= 9
      && Int64Min <= r.value.id <= Int64Max && Int64Min <= r.value.subtype <= Int64Max
  {
    assert buf[261..262] == [buf[261]];
    KindByte(buf[261]);
    var name := TrimSpace(BytesToString(buf[1..256]));
    match Atoi(TrimSpace(BytesToString(buf[256..261])))
    case Err(e) => Err(TagBadNumber(IdField, e))
    case Ok(id) =>
      match Atoi(BytesToString(buf[261..262]))
      case Err(e) => Err(TagBadNumber(KindField, e))
      case Ok(kind) =>
        match Atoi(TrimSpace(BytesToString(buf[262..264])))
        case Err(e) => Err(TagBadNumber(SubtypeField, e))
        case Ok(subtype) => Ok(TagRecord(name, id, kind, subtype))
  }

  /** A short read leaves NUL bytes at the end of the field, which no number
      parse accepts. */
  lemma ShortNumberRefused(got: seq<Byte>, n: nat, trim: bool)
    requires 0 < |got| < n
    ensures var s := BytesToString(Filled(got, n)); Atoi(if trim then TrimSpace(s) else s).Err?
  {
    var s := BytesToString(Filled(got, n));
    assert s[|s| - 1] as int == 0;
    AtoiRefusesTrailingNonDigit(s);
  }

  /** A tag record is read iff all 264 of its bytes are in the file and they
      decode; it then consumes exactly 264 bytes, so every record starts
      264 bytes after the one before it. */
  lemma TagRecordConsumesFixedSize(data: seq<Byte>, pos: nat)
    ensures TagRecordAt(data, pos).Ok? <==>
      pos + TagRecordSize <= |data| && DecodeTagBuffer(data[pos..pos + TagRecordSize]).Ok?
    ensures TagRecordAt(data, pos).Ok? ==>
      TagRecordAt(data, pos).value == (DecodeTagBuffer(data[pos..pos + TagRecordSize]).value, pos + TagRecordSize)
  {
    if pos + TagRecordSize <= |data| {
      TagRecordWhole(data, pos);
    } else {
      TagRecordTruncated(data, pos);
    }
  }

  function WithCursor(r: Result<TagRecord, TagError>, next: nat): Result<(TagRecord, nat), TagError>
  {
    match r
    case Ok(t) => Ok((t, next))
    case Err(e) => Err(e)
  }

  lemma TagRecordWhole(data: seq<Byte>, pos: nat)
    requires pos + TagRecordSize <= |data|
    ensures TagRecordAt(data, pos) == WithCursor(DecodeTagBuffer(data[pos..pos + TagRecordSize]), pos + TagRecordSize)
  {
    ReadWhole(data, pos, 1);
    ReadWhole(data, pos + 1, 255);
    ReadWhole(data, pos + 256, 5);
    ReadWhole(data, pos + 261, 1);
    ReadWhole(data, pos + 262, 2);
    TagSlices(data, pos);
  }

  lemma TagSlices(data: seq<Byte>, pos: nat)
    requires pos + TagRecordSize <= |data|
    ensures var buf := data[pos..pos + TagRecordSize];
      && buf[1..256] == data[pos + 1..pos + 256]
      && buf[256..261] == data[pos + 256..pos + 261]
      && buf[261..262] == data[pos + 261..pos + 262]
      && buf[262..264] == data[pos + 262..pos + 264]
  {
    var buf := data[pos..pos + TagRecordSize];
    assert buf[261] == data[pos + 261];
  }

  /** A read that fits in the file transfers the whole buffer. */
  lemma ReadWhole(data: seq<Byte>, p: nat, n: nat)
    requires 0 < n && p + n <= |data|
    ensures ReadAt(data, p, n) == Ok(data[p..p + n])
    ensures Filled(data[p..p + n], n) == data[p..p + n]
  {
    assert data[p..p + n] + ZeroBytes(0) == data[p..p + n];
  }

  lemma TagRecordTruncated(data: seq<Byte>, pos: nat)
    requires pos + TagRecordSize > |data|
    ensures TagRecordAt(data, pos).Err?
  {
    match ReadAt(data, pos, 1)
    case Err(_) =>
    case Ok(skip) =>
      match ReadAt(data, pos + |skip|, 255)
      case Err(_) =>
      case Ok(nameGot) =>
        var p2 := pos + |skip| + |nameGot|;
        if p2 < |data| {
          TagNumbersTruncated(data, p2, TrimSpace(BytesToString(Filled(nameGot, 255))));
        }
  }

  /** The numeric fields of a record cut short: the id or the subtype is
      padded with zero bytes, which no number accepts. */
  lemma TagNumbersTruncated(data: seq<Byte>, pos: nat, name: string)
    requires pos < |data| < pos + 8
    ensures TagNumbersAt(data, pos, name).Err?
  {
    var idGot := ReadAt(data, pos, 5).value;
    if |idGot| < 5 {
      ShortNumberRefused(idGot, 5, true);
    } else if Atoi(TrimSpace(BytesToString(Filled(idGot, 5)))).Ok? {
      TagKindTruncated(data, pos + 5, name, Atoi(TrimSpace(BytesToString(Filled(idGot, 5)))).value);
    }
  }

  lemma TagKindTruncated(data: seq<Byte>, pos: nat, name: string, id: int)
    requires pos + 3 > |data|
    ensures TagKindAt(data, pos, name, id).Err?
  {
    if pos < |data| {
      var p4 := pos + 1;
      if p4 < |data| {
        var subGot := ReadAt(data, p4, 2).value;
        ShortNumberRefused(subGot, 2, true);
      }
    }
  }

  /** The 1-byte kind is accepted iff it is a decimal digit; a space is
      refused, as it is not trimmed. */
  lemma KindByte(c: Byte)
    ensures Atoi(BytesToString([c])).Ok? <==> '0' as int <= c <= '9' as int
    ensures '0' as int <= c <= '9' as int ==> Atoi(BytesToString([c])) == Ok(c - '0' as int)
  {
    var s := BytesToString([c]);
    assert s == [c as char];
    assert IsDigit(s[0]) <==> '0' as int <= c <= '9' as int;
    AtoiSpec(s);
    if c == '+' as int || c == '-' as int {
      assert s[1..] == [];
    } else if IsDigit(s[0]) {
      assert s[..0] == [];
      assert DigitsValue(s) == DigitValue(s[0]);
    } else {
      assert !AllDigits(s);
    }
  }

  /** The fields the tag file holds for one tag. */
  datatype TagFields = TagFields(name: string, id: nat, kind: nat, subtype: nat)

  /** What a tag record can carry and read back: a byte-string name of at most
      255 bytes that neither starts nor ends with a white-space rune (trimming
      would take it off), and numbers that fit their fields. */
  predicate TagWritable(t: TagFields)
  {
    && |t.name| <= 255 && IsByteString(t.name)
    && SpaceAtStart(t.name) == 0 && SpaceAtEnd(t.name) == 0
    && t.id < 100000 && t.kind < 10 && t.subtype < 100
  }

  /** The 255-byte name field: the name padded with spaces. */
  function PaddedName(name: string): (s: string)
    requires |name| <= 255 && IsByteString(name)
    ensures |s| == 255 && IsByteString(s)
  {
    name + Spaces(255 - |name|)
  }

  /** A tag record as written: the name padded with spaces to 255 bytes and the
      numbers zero padded. */
  function EncodeTagRecord(t: TagFields): (buf: seq<Byte>)
    requires TagWritable(t)
    ensures |buf| == TagRecordSize
  {
    Pow10Values();
    ZeroPadFixed(t.id, 5);
    ZeroPadFixed(t.kind, 1);
    ZeroPadFixed(t.subtype, 2);
    [0] + StringToBytes(PaddedName(t.name))
      + DigitBytes(ZeroPad(t.id, 5)) + DigitBytes(ZeroPad(t.kind, 1)) + DigitBytes(ZeroPad(t.subtype, 2))
  }

  /** Reading a written tag record gives back its fields and moves the cursor
      by 264 bytes. */
  lemma TagRecordRoundTrip(t: TagFields, data: seq<Byte>, pos: nat)
    requires TagWritable(t)
    requires pos + TagRecordSize <= |data| && data[pos..pos + TagRecordSize] == EncodeTagRecord(t)
    ensures TagRecordAt(data, pos) == Ok((TagRecord(t.name, t.id, t.kind, t.subtype), pos + TagRecordSize))
  {
    DecodeTagRoundTrip(t);
    TagRecordConsumesFixedSize(data, pos);
  }

  lemma DecodeTagRoundTrip(t: TagFields)
    requires TagWritable(t)
    ensures DecodeTagBuffer(EncodeTagRecord(t)) == Ok(TagRecord(t.name, t.id, t.kind, t.subtype))
  {
    EncodedTagFields(t);
    DecodeTagFields(EncodeTagRecord(t));
  }

  /** A decode succeeds iff the trimmed id in bytes 256-260 and the trimmed
      subtype in bytes 262-263 are each an optional sign and decimal digits
      within 64 bits, and the kind byte 261 is a decimal digit (it is not
      trimmed). The record then carries the values those digits spell, and its
      name is whatever is left of bytes 1-255 after trimming. */
  lemma DecodeTagFields(buf: seq<Byte>)
    requires |buf| == TagRecordSize
    ensures var id := TrimSpace(BytesToString(buf[256..261]));
      var sub := TrimSpace(BytesToString(buf[262..264]));
      DecodeTagBuffer(buf).Ok? <==>
        IsInt64Text(id) && '0' as int <= buf[261] <= '9' as int && IsInt64Text(sub)
    ensures var id := TrimSpace(BytesToString(buf[256..261]));
      var sub := TrimSpace(BytesToString(buf[262..264]));
      DecodeTagBuffer(buf).Ok? ==>
        && IsInt64Text(id) && IsInt64Text(sub)
        && DecodeTagBuffer(buf).value == TagRecord(
             TrimSpace(BytesToString(buf[1..256])), SignedValue(id), buf[261] - '0' as int, SignedValue(sub))
  {
    AtoiText(TrimSpace(BytesToString(buf[256..261])));
    AtoiText(TrimSpace(BytesToString(buf[262..264])));
    assert buf[261..262] == [buf[261]];
    KindByte(buf[261]);
  }

  lemma EncodedTagSlices(t: TagFields)
    requires TagWritable(t)
    ensures Pow10(5) == 100000 && Pow10(2) == 100 && Pow10(1) == 10
    ensures var buf := EncodeTagRecord(t);
      && buf[1..256] == StringToBytes(PaddedName(t.name))
      && buf[256..261] == DigitBytes(ZeroPad(t.id, 5))
      && buf[261..262] == DigitBytes(ZeroPad(t.kind, 1))
      && buf[262..264] == DigitBytes(ZeroPad(t.subtype, 2))
  {
    Pow10Values();
    ZeroPadFixed(t.id, 5);
    ZeroPadFixed(t.kind, 1);
    ZeroPadFixed(t.subtype, 2);
    var nb := StringToBytes(PaddedName(t.name));
    var ib := DigitBytes(ZeroPad(t.id, 5));
    var kb := DigitBytes(ZeroPad(t.kind, 1));
    var tb := DigitBytes(ZeroPad(t.subtype, 2));
    assert EncodeTagRecord(t) == [0] + nb + ib + kb + tb;
  }

  lemma EncodedTagFields(t: TagFields)
    requires TagWritable(t)
    ensures var buf := EncodeTagRecord(t);
      && TrimSpace(BytesToString(buf[1..256])) == t.name
      && Atoi(TrimSpace(BytesToString(buf[256..261]))) == Ok(t.id as int)
      && Atoi(BytesToString(buf[261..262])) == Ok(t.kind as int)
      && Atoi(TrimSpace(BytesToString(buf[262..264]))) == Ok(t.subtype as int)
  {
    EncodedTagSlices(t);
    EncodedTagName(t);
    var buf := EncodeTagRecord(t);
    assert BytesToString(buf[256..261]) == ZeroPad(t.id, 5);
    AtoiZeroPad(t.id, 5);
    assert BytesToString(buf[262..264]) == ZeroPad(t.subtype, 2);
    AtoiZeroPad(t.subtype, 2);
    KindDigit(t.kind);
  }

  lemma EncodedTagName(t: TagFields)
    requires TagWritable(t)
    ensures TrimSpace(BytesToString(EncodeTagRecord(t)[1..256])) == t.name
  {
    EncodedTagSlices(t);
    var k := 255 - |t.name|;
    var padded := t.name + Spaces(k);
    assert BytesToString(EncodeTagRecord(t)[1..256]) == PaddedName(t.name) == padded;
    TrimSpacePadded(t.name, k);
    assert TrimSpace(padded) == t.name;
  }

  lemma KindDigit(k: nat)
    requires k < 10
    ensures Pow10(1) == 10
    ensures Atoi(BytesToString(DigitBytes(ZeroPad(k, 1)))) == Ok(k as int)
  {
    Pow10Values();
    ZeroPadFixed(k, 1);
    var z := ZeroPad(k, 1);
    var kb := DigitBytes(z);
    assert kb == [kb[0]];
    assert z[..0] == [];
    assert DigitsValue(z) == DigitValue(z[0]);
    KindByte(kb[0]);
  }
}
