# goDatalogConvert, modelled in Dafny

goDatalogConvert copies the archive of a data logger into a historian. It
reads pairs of DAT files: a float file `<name> (Float).DAT` holds the samples,
and a tag file `<name> (Tagname).DAT` names the tags. Each tag is resolved to
a historian point, and the samples of each float file are written as one
batch of snapshots.

This project models the converter's core:

- both copies of the DAT decoder:
  - `LibDAT/Libdat.go` reads each file twice. It keeps one slot per row and
    leaves a nil where a record fails to decode.
  - `libdat/libdat.go` reads each file once and keeps only the records that
    decode.
- the historian side, `LibFTH/LibFTH.go`:
  - the name-to-point-number memo;
  - the point entry built for each datalog tag;
  - the batch built from the float records;
  - how the per-item error codes of a batch write are read.
- the tag-map loader, `libUtil/libUtil.go`.
- the driver, `main.go`, from the tag-map load to the end of the file loop.

## How the model is built

**Files, bytes and text**
- The file system is a value: a map from path to bytes, and from directory to
  its entry names.
- A Go string stands for its bytes: each `char` is one byte.
- `strings.TrimSpace` removes white-space runes: the ASCII ones and the UTF-8 encodings of the other Unicode spaces. A byte that is not part of such an encoding, such as a lone `A0`, stays.
- The double of a float record is kept as its 64-bit pattern.

**The read cursor**
- `DatStream.Reader` is a class whose `pos` field the reads advance.
- It reads the way `Read` on an `os.File` does:
  - it gives what is left, up to the buffer size;
  - the rest of the buffer stays zero;
  - it reports end of file only when nothing is left.
- `ReadInt32` reads the way `binary.Read` does: fewer than four bytes is an
  error.

**Loops and their specifications**
- Each decoder loop is a method with a `while` loop.
- Each is proved against a function that says what the loop computes:
  - float slot *i* (`DatFiles.FloatSlots`);
  - the first *k* tag records (`DatFiles.TagRecords`);
  - the batch (`LibFTH.Batch`);
  - the fold of CSV rows into the map (`LibUtil.LoadReads`);
  - the tag selection and file loop of `main` (`Driver.SelectAll`,
    `Driver.RunFilesOf`).
- Lemmas then state what those functions promise.

**Calls into the historian's C library**
- They are parameters:
  - `FindPoint` stands for `pipt_findpoint`;
  - `PutBatch` stands for `pisn_putsnapshotsx`;
  - a boolean says whether `Connect` succeeded.
- `LibFTH.Historian` is a class:
  - its `cache` is the process-wide `historianCache`;
  - a ghost `asked` field records the names the historian was asked about.
- `LibPI.PointLookup` is a class updated in place by `AddPoint`.

`main.go` imports the decoder as `libDAT`. The model binds it to
`LibDAT/Libdat.go`, the copy with nil slots. `ConvertDatFloatRecordsToPutSnapshots`
skips nil slots. Lemmas relate the two copies (`libdat.SameRecordsAsLibDAT`,
`libdat.SameTagsAsLibDAT`).

## Model

| member | source | states |
|---|---|---|
| GoText.TrimLeftSpec | LibDAT/Libdat.go:150 | the left trim of `strings.TrimSpace` removes a prefix made only of white-space runes (ASCII white space and the UTF-8 encodings of the other Unicode spaces, such as `C2 A0`) and stops where no white-space rune starts |
| GoText.TrimRightSpec | LibDAT/Libdat.go:150 | the right trim removes a suffix made only of white-space runes and stops where no white-space rune ends |
| GoText.TrimSpaceSpec | LibDAT/Libdat.go:193 | `TrimSpace(s)` is a contiguous slice of `s`, only white-space runes lie outside it, and it neither starts nor ends with a white-space rune |
| GoText.TrimSpaceUntouched | LibDAT/Libdat.go:193 | a string that neither starts nor ends with a white-space rune is its own trim |
| GoText.TrimSpacePadded | LibDAT/Libdat.go:193 | a name that neither starts nor ends with a white-space rune, padded with blanks to the field width, trims back to the name |
| GoText.TrimSpaceKeepsLast | LibDAT/Libdat.go:200 | trimming a string that does not end in a white-space rune keeps its last byte |
| GoText.DigitsNumberSpec | LibDAT/Libdat.go:150 | the digit loop gives a value iff every byte is a decimal digit, and that value is the decimal value of the digits |
| GoText.Atoi | LibDAT/Libdat.go:150 | a number `strconv.Atoi` accepts lies within Go's 64-bit `int` range |
| GoText.AtoiSpec | LibDAT/Libdat.go:157 | `Atoi` accepts exactly an optional sign followed by at least one digit; it gives their signed value, or a range error outside 64 bits |
| GoText.AtoiText | LibDAT/Libdat.go:150 | `strconv.Atoi` succeeds exactly on an optional sign followed by at least one decimal digit spelling a value within 64 bits, and gives that value |
| GoText.TrimSpaceNoBreakSpace | LibDAT/Libdat.go:193 | a trailing no-break space (`C2 A0`) is trimmed, so `"42"` followed by it and a blank parses as 42; a lone `A0` byte is kept |
| GoText.AtoiRefusesTrailingNonDigit | LibDAT/Libdat.go:200 | a field whose last byte is not a digit and that does not end in a white-space rune (such as one ending in a zero byte) fails to parse, trimmed or not |
| GoText.AtoiLastNonDigit | LibDAT/Libdat.go:211 | a string ending in a byte that is not a digit never parses |
| GoText.Decimal | LibDAT/Libdat.go:293 | `%d` of a natural number is a non-empty string of digits |
| GoText.ZeroPad | LibDAT/Libdat.go:293 | `%0<w>d` writes only digits |
| GoText.DecimalValue | LibDAT/Libdat.go:293 | the decimal text of `n` reads back as `n` |
| GoText.DecimalLength | LibDAT/Libdat.go:293 | a number below `10^w` takes at most `w` digits |
| GoText.LeadingZerosValue | LibDAT/Libdat.go:293 | leading zeros do not change the value of a digit string |
| GoText.ZeroPadFixed | LibDAT/Libdat.go:293 | for `n < 10^w`, `%0<w>d` is exactly `w` digits that read back as `n` |
| GoText.AtoiDigits | LibDAT/Libdat.go:157 | a digit string within 64 bits parses to its decimal value |
| GoText.AtoiZeroPad | LibDAT/Libdat.go:150 | a zero-padded field of up to 5 digits is untouched by trimming and parses back to its number |
| GoText.ReplaceFirstAbsent | LibDAT/Libdat.go:254 | `strings.Replace(s, old, new, 1)` leaves a string without `old` unchanged |
| GoText.ReplaceFirstAt | LibDAT/Libdat.go:254 | `strings.Replace(s, old, new, 1)` replaces the first occurrence of `old` and keeps the rest |
| GoText.RemoveChar | LibDAT/Libdat.go:343 | `strings.ReplaceAll(path, "\"", "")` leaves no quote and is no longer than the path; with `RemoveCharAppend` and `RemoveCharOne`, every other character is kept in order |
| GoText.RemoveCharAppend | LibDAT/Libdat.go:343 | removing the quotes from a concatenation removes them from each part and keeps the parts in order |
| GoText.RemoveCharOne | LibDAT/Libdat.go:343 | a single character is dropped if it is the quote and kept otherwise |
| GoText.RemoveCharAbsent | LibDAT/Libdat.go:343 | a path without quotes is unchanged |
| GoText.ReplaceFirstLength | LibDAT/Libdat.go:254 | `strings.Replace(s, old, new, 1)` either leaves `s` as it is or swaps one `old` for `new`, changing the length by their difference; `ReplaceFirstAt` and `ReplaceFirstAbsent` say which |
| GoTime.ParseStamp | LibDAT/Libdat.go:144-148 | a time field `time.Parse` accepts is a valid date and time with a four-digit year |
| GoTime.FormatStamp | LibDAT/Libdat.go:144-145 | the field a data logger writes for a date and time is 16 bytes |
| GoTime.TwoDigitsValue | LibDAT/Libdat.go:145 | a two-digit field reads as its decimal value |
| GoTime.FourDigitsValue | LibDAT/Libdat.go:145 | the four year digits read as their decimal value |
| GoTime.YearAt | LibDAT/Libdat.go:145 | the year read at the head of the field is the year written there |
| GoTime.FieldAt | LibDAT/Libdat.go:145 | a two-digit field read at its place is the value written there |
| GoTime.ParseAtPlaces | LibDAT/Libdat.go:145 | a well-shaped field whose places spell a valid date and time parses to it |
| GoTime.ParseLaidOut | LibDAT/Libdat.go:145 | a field laid out as `YYYYMMDDHH:MM:SS` from a valid date and time parses to it |
| GoTime.ParseFormatStamp | LibDAT/Libdat.go:144-148 | parsing the field written for a valid date and time gives that date and time back |
| DatStream.LittleEndian | LibDAT/Libdat.go:382-386 | the little-endian value of `n` bytes is below `256^n` |
| DatStream.LittleEndianBytes | LibDAT/Libdat.go:382-386 | the little-endian encoding of a value below `256^n` is `n` bytes |
| DatStream.LittleEndianOfBytes | LibDAT/Libdat.go:382-386 | decoding the little-endian bytes of a value gives the value |
| DatStream.BytesOfLittleEndian | LibDAT/Libdat.go:382-386 | encoding the value of some bytes gives the bytes back |
| DatStream.Uint64Bytes | LibDAT/Libdat.go:166 | a 64-bit value is written as 8 bytes |
| DatStream.Uint64RoundTrip | LibDAT/Libdat.go:166 | `binary.LittleEndian.Uint64` of the 8 bytes of a value is that value |
| DatStream.Int32Bytes | LibDAT/Libdat.go:382-386 | an `int32` is written as 4 bytes |
| DatStream.Int32RoundTrip | LibDAT/Libdat.go:382-386 | reading the 4 little-endian bytes of an `int32` gives it back |
| DatStream.Int32BytesRoundTrip | LibDAT/Libdat.go:382-386 | every 4 bytes are the encoding of the `int32` they read as |
| DatStream.Int32Sign | LibDAT/Libdat.go:382-386 | the row count read is negative iff the top bit of its last byte is set |
| DatStream.ReadAt | LibDAT/Libdat.go:140 | `Read` succeeds iff something is left or nothing is asked for; it returns the next bytes of the file, at most `n` and at least one, and fewer only at the end of the file; otherwise it reports end of file |
| DatStream.ReadInt32At | LibDAT/Libdat.go:382-386 | reading the row count succeeds iff 4 bytes are left, and gives their little-endian value; it is plain end of file exactly when nothing is left |
| DatStream.Reader.Open | LibDAT/Libdat.go:368-370 | a reader over a file starts at offset 0 |
| DatStream.Reader.Seek | LibDAT/Libdat.go:80 | the cursor moves to the given offset |
| DatStream.Reader.Read | LibDAT/Libdat.go:140 | the buffer is the bytes `ReadAt` gives, zero-filled to the full size, or all zeros on end of file; the cursor moves past what was read |
| DatStream.Reader.ReadByte | LibDAT/Libdat.go:376-380 | the byte at the cursor and a cursor one further, or a zero byte and end of file when nothing is left |
| DatStream.Reader.ReadInt32 | LibDAT/Libdat.go:382-386 | the `int32` at the cursor, as `ReadInt32At` gives it |
| DatStream.HeaderOfSpec | LibDAT/Libdat.go:252-299 | a header reads iff the file holds 8 bytes; its row count is bytes 4-7 read as a little-endian `int32`, and a shorter file fails at the field it runs out in |
| DatStream.HeaderBytes | LibDAT/Libdat.go:252-299 | a header is written as 8 bytes |
| DatStream.HeaderRoundTrip | LibDAT/Libdat.go:252-299 | reading the 8 bytes written for a header, whatever follows, gives the header back |
| DatStream.ReadHeader | LibDAT/Libdat.go:50-76 | the four header bytes and the row count are read from offset 0 as `HeaderOf` says, and a header that reads leaves the cursor at 8 |
| DatRecords.DecodeFloatFields | LibDAT/Libdat.go:144-170 | a float record decodes iff bytes 1-16 hold the date and time at the places of the layout and in range, and the trimmed milliseconds and id are each an optional sign and decimal digits within 64 bits; the record then holds that date and time, the values those digits spell, bytes 25-32, 33 and 34, and is valid |
| DatRecords.DecodeFloatBuffer | LibDAT/Libdat.go:144-170 | the fields of a 39-byte float record: a decoded record is valid, with an in-range date and time, a year from 0 to 9999, and a 64-bit millisecond count and id; `DecodeFloatFields`, `DecodeIgnoresUnusedBytes` and `FloatRecordRoundTrip` state when it decodes and to what |
| DatRecords.DecodeIgnoresUnusedBytes | LibDAT/Libdat.go:144-170 | bytes 0 and 35-38 of a float record never affect its decode |
| DatRecords.FloatReadAt | LibDAT/Libdat.go:135-171 | a read gives no error iff it gives a valid record; a nil record comes exactly with a read error, which happens exactly at the end of the file; a decode error comes with the invalid record |
| DatRecords.ReadNextFloatRecord | LibDAT/Libdat.go:135-171 | `readNextDatFloatRecord` returns what `FloatReadAt` gives at the cursor and moves it by one 39-byte read |
| DatRecords.DigitBytes | LibDAT/Libdat.go:150 | the bytes of a digit string read back as that string |
| DatRecords.EncodeFloatRecord | LibDAT/Libdat.go:137 | an encoded float record is 39 bytes |
| DatRecords.EncodedFloatSlices | LibDAT/Libdat.go:144-168 | the encoded fields sit at bytes 1-16, 17-19, 20-24, 25-32, 33 and 34 |
| DatRecords.EncodedFloatFields | LibDAT/Libdat.go:144-168 | each field of an encoded record parses to the value written |
| DatRecords.FloatRecordRoundTrip | LibDAT/Libdat.go:135-171 | decoding an encoded float record gives back every field, marked valid |
| DatRecords.TruncatedFloatRecordAccepted | LibDAT/Libdat.go:140-170 | a last record cut off after its id field still reads as valid, with zero bytes standing in for the missing value bytes |
| DatRecords.ReadTagRecord | LibDAT/Libdat.go:180-227 | `NewDatTagRecord` returns what `TagRecordAt` gives at the cursor, with the cursor it leaves |
| DatRecords.ReadTagNumbers | LibDAT/Libdat.go:195-226 | the id, kind and subtype reads of `NewDatTagRecord` return what `TagNumbersAt` gives at the cursor |
| DatRecords.ReadTagKind | LibDAT/Libdat.go:206-226 | the kind and subtype reads return what `TagKindAt` gives at the cursor |
| DatRecords.ShortNumberRefused | LibDAT/Libdat.go:195-224 | a number field that was read short ends in a zero byte and fails to parse |
| DatRecords.TagRecordConsumesFixedSize | LibDAT/Libdat.go:180-227 | a tag record reads iff all 264 of its bytes are in the file and decode; it then uses exactly 264 bytes |
| DatRecords.TagRecordWhole | LibDAT/Libdat.go:180-227 | with 264 bytes present, the five field reads decode one 264-byte buffer |
| DatRecords.TagSlices | LibDAT/Libdat.go:180-227 | the five field reads of a whole record see bytes 0, 1-255, 256-260, 261 and 262-263 |
| DatRecords.ReadWhole | LibDAT/Libdat.go:140 | a read with enough bytes left gives exactly the next `n` bytes, with no padding |
| DatRecords.TagRecordTruncated | LibDAT/Libdat.go:180-227 | a tag record with fewer than 264 bytes left fails: a read hits end of file or a short number field fails to parse |
| DatRecords.TagNumbersTruncated | LibDAT/Libdat.go:195-224 | the number fields, read with between 1 and 7 bytes left in the file, fail to read or to parse |
| DatRecords.TagKindTruncated | LibDAT/Libdat.go:206-224 | the kind and subtype of a record with fewer than 3 bytes left fail to read or to parse |
| DatRecords.KindByte | LibDAT/Libdat.go:211 | the kind byte parses iff it is a digit, to the value of that digit |
| DatRecords.PaddedName | LibDAT/Libdat.go:188 | a written name field is 255 bytes |
| DatRecords.EncodeTagRecord | LibDAT/Libdat.go:180-227 | an encoded tag record is 264 bytes |
| DatRecords.TagRecordRoundTrip | LibDAT/Libdat.go:180-227 | reading an encoded tag record from a file gives its name, id, kind and subtype, with the cursor 264 bytes on, for a name that neither starts nor ends with a white-space rune |
| DatRecords.DecodeTagRoundTrip | LibDAT/Libdat.go:180-227 | decoding an encoded tag record gives its fields back, for a name that neither starts nor ends with a white-space rune |
| DatRecords.DecodeTagFields | LibDAT/Libdat.go:188-226 | a tag buffer decodes iff the trimmed id and subtype are each an optional sign and decimal digits within 64 bits and the untrimmed kind byte is a digit; the record then holds the values they spell and bytes 1-255 trimmed as its name |
| DatRecords.DecodeTagBuffer | LibDAT/Libdat.go:188-226 | the fields of a 264-byte tag record: a decoded record has a name of at most 255 bytes, a kind from 0 to 9 and a 64-bit id and subtype; `DecodeTagFields` and `DecodeTagRoundTrip` state when it decodes and to what |
| DatRecords.EncodedTagSlices | LibDAT/Libdat.go:188-221 | the encoded fields sit at bytes 1-255, 256-260, 261 and 262-263 |
| DatRecords.EncodedTagFields | LibDAT/Libdat.go:200-221 | each number field of an encoded tag record parses to the value written |
| DatRecords.EncodedTagName | LibDAT/Libdat.go:193 | the name field of an encoded tag record trims back to the name when the name neither starts nor ends with a white-space rune |
| DatRecords.KindDigit | LibDAT/Libdat.go:211 | a one-digit kind parses back to its value |
| DatFiles.TagFileNameFirstOnly | LibDAT/Libdat.go:254 | the tag file name replaces only the first " (Float)" and keeps the rest of the name |
| DatFiles.TagFileName | LibDAT/Libdat.go:254 | the tag file name is the float file name, or two bytes longer where " (Tagname)" replaced " (Float)"; `TagFileNameFirstOnly` and `TagFileNameUnmarked` say which |
| DatFiles.TagFileNameUnmarked | LibDAT/Libdat.go:254 | a name without " (Float)" is its own tag file name |
| DatFiles.FloatFileNamesSpec | LibDAT/Libdat.go:349-354 | the float files are exactly the entries ending in " (Float).DAT", joined to the directory, in listing order |
| DatFiles.NewDatReader | LibDAT/Libdat.go:342-361 | quotes are stripped from the path; an unreadable directory, or one with no float file, is an error; otherwise the float file names as `DatReaderFor` gives them |
| DatFiles.FloatCursorStep | LibDAT/Libdat.go:108-115 | each record read moves the cursor by 39 bytes, or to the end of the file |
| DatFiles.SlotRecord | LibDAT/Libdat.go:109-114 | a slot holds a record iff its read had no error, and then a valid one |
| DatFiles.FloatSlots | LibDAT/Libdat.go:105 | there is one slot per row, and none for a negative count |
| DatFiles.FloatSlotsStep | LibDAT/Libdat.go:108-115 | one more row adds that row's slot |
| DatFiles.SlotStep | LibDAT/Libdat.go:109-114 | the slot of a read is its record when there is no error, and nil otherwise |
| DatFiles.FloatSlotAligned | LibDAT/Libdat.go:108-115 | slot `i` is the decode of the 39 bytes at `0x121 + 39 i`, whatever the earlier slots hold: a bad record does not shift later ones |
| DatFiles.FloatSlotPastEnd | LibDAT/Libdat.go:108-115 | a slot that starts at or past the end of the file is nil |
| DatFiles.FloatSlotsSpec | LibDAT/Libdat.go:105-117 | there are `n` slots; each is nil or a valid record; an in-file row's slot is its decode; a slot past the end is nil |
| DatFiles.TagReadsPrefix | LibDAT/Libdat.go:327-333 | the first `k` reads do not depend on how many follow |
| DatFiles.TagRecordsStep | LibDAT/Libdat.go:327-333 | reading one more tag record appends it, or its error becomes the result |
| DatFiles.TagRecordsSpec | LibDAT/Libdat.go:327-333 | `k` tag records are read iff each of the first `k` reads; they are the records at `0xA1 + 264 i` in order; otherwise the error is that of the first failing record |
| DatFiles.TagReadInFile | LibDAT/Libdat.go:327-333 | a tag record that reads lies whole in the file and is the decode of its 264 bytes |
| DatFiles.TagRecordsInFile | LibDAT/Libdat.go:327-333 | when `k` records read, the file holds all of them, and record `i` decodes the bytes at `0xA1 + 264 i` |
| DatFiles.TagRecordsErrPersists | LibDAT/Libdat.go:329-331 | a failed record stays the result however many more records are asked for |
| DatFiles.TagRecordsLoopStep | LibDAT/Libdat.go:327-333 | one turn of the loop extends the records and moves the cursor to the next record, or ends in the error of the whole read |
| DatFiles.ReadTagRecords | LibDAT/Libdat.go:321-335 | from `0xA1`, the loop returns the first `rowCount` tag records (none for a negative count) or the first failure |
| DatFiles.DateStringSpec | LibDAT/Libdat.go:288-293 | the date starts with the four-digit year counted from 1900 and a dash; with month and day below 100 it is `YYYY-MM-DD` and each field reads back |
| DatFiles.DateString | LibDAT/Libdat.go:288-293 | the date is 10 to 12 bytes: the four digits of the year counted from 1900, then a dash; `DateStringSpec` gives the month and day fields |
| LibDAT.FloatFileHeaderSpec | LibDAT/Libdat.go:38-85 | the row count is returned iff the file exists and holds the 8 header bytes; it is bytes 4-7 as a signed little-endian value; a missing file is an open error |
| LibDAT.ReadFloatFileHeader | LibDAT/Libdat.go:38-85 | returns the row count or the failure as `FloatFileHeader` gives it |
| LibDAT.ReadFloatFileRecords | LibDAT/Libdat.go:87-118 | from `0x121`, one read per row fills slot `i` with the record or nil, as `FloatSlots` gives it; a negative count is an error where Go panics |
| LibDAT.ReadSlot | LibDAT/Libdat.go:109-114 | one pass of the record loop: the cursor moves past row `i`, slot `i` becomes `SlotRecord(data, i)` (the record, or nil when the read failed) and no other slot changes |
| LibDAT.ReadFloatFile | LibDAT/Libdat.go:121-133 | the header read and then the record read, as `FloatFileOf` gives them |
| LibDAT.FloatFileSpec | LibDAT/Libdat.go:121-133 | a float file reads iff it exists, holds a header and has a non-negative row count; there is then one slot per row, each nil or valid, in-file rows decoded at their fixed offsets and later rows nil |
| LibDAT.ReadTagFileHeader | LibDAT/Libdat.go:252-302 | opens the tag file named after the float file and returns its row count and date, or the failure |
| LibDAT.ReadTagRecordsFile | LibDAT/Libdat.go:305-336 | reopens the tag file and returns its first `rowCount` records or the first failure |
| LibDAT.ReadTagFile | LibDAT/Libdat.go:236-249 | the header read and then the record read, as `TagFileOf` gives them |
| LibDAT.TagFileSpec | LibDAT/Libdat.go:236-336 | a tag file reads iff it exists, holds a header and its first row-count records all read; there are then exactly that many, record `i` being the decode of the 264 bytes at `0xA1 + 264 i` |
| libdat.ReadFloatFile | libdat/libdat.go:39-97 | one pass: header, seek to `0x121`, then the decoded records appended in row order with failures skipped, as `FloatFileOf` gives them |
| libdat.KeptStep | libdat/libdat.go:87-94 | one turn of the loop appends the record exactly when the read had no error |
| libdat.FloatFileSpec | libdat/libdat.go:39-97 | a float file reads iff it exists and holds a header; it yields at most row-count valid records, each the slot of a distinct row, in increasing row order |
| libdat.KeptRows | libdat/libdat.go:86-94 | the records kept from `n` slots are valid, at most `n`, and come from increasing rows |
| libdat.SameRecordsAsLibDAT | libdat/libdat.go:39-97 | this copy returns exactly the non-nil slots of `LibDAT/Libdat.go`, in order; it returns no records where the other panics on a negative count; any other failure is the same |
| libdat.ReadTagFile | libdat/libdat.go:271-331 | one pass: header, seek to `0xA1`, then the first `rowCount` records or the first failure |
| libdat.SameTagsAsLibDAT | libdat/libdat.go:271-331 | reading a tag file in one pass gives what the two-pass reading of `LibDAT/Libdat.go` gives |
| LibPI.WithPoint | main.go:115 | after `AddPoint`, the point is found under its datalog id and its datalog name; every other entry is unchanged and no other key is added |
| LibPI.WithPointsHasName | main.go:98-116 | after adding a sequence of points, a datalog name is known iff it was known before or one of the points carries it |
| LibPI.WithPointsLastName | main.go:98-116 | a datalog name maps to the last added point that carries it |
| LibPI.WithPointsKeepsName | main.go:98-116 | a datalog name none of the added points carries keeps its point |
| LibPI.WithPointsHasId | main.go:98-116 | after adding a sequence of points, a datalog id is known iff it was known before or one of the points carries it |
| LibPI.WithPointsLastId | main.go:98-116 | a datalog id gives the point id of the last added point that carries it |
| LibPI.PointLookup.constructor | main.go:89 | a new point lookup is empty |
| LibPI.PointLookup.GetPointIdByDataLogId | LibFTH/LibFTH.go:183 | reports whether the id is known and, if so, the point id filed under it, which is nil for an unresolved point |
| LibPI.PointLookup.GetPointByDataLogName | main.go:109 | gives the point filed under a name exactly when the name is known |
| LibPI.PointLookup.AddPoint | main.go:115 | files the point as `WithPoint` says |
| LibFTH.PointNumberSpec | LibFTH/LibFTH.go:76-105 | the historian is asked exactly on a memo miss with a name of at most 80 bytes; a hit answers from the memo; a longer name is refused; only a success is remembered, and remembered numbers never change |
| LibFTH.PointNumberRepeat | LibFTH/LibFTH.go:78-81 | a lookup that succeeded is answered from the memo next time: same number, memo unchanged, no call to the historian |
| LibFTH.PointNumberRetry | LibFTH/LibFTH.go:94-97 | a failed call to the historian is not remembered, so the next lookup of the name asks again |
| LibFTH.PointEntry | LibFTH/LibFTH.go:133-167 | the entry is marked for processing iff the lookup succeeded, and then carries the point number; its datalog type is always 0; names and id are those given |
| LibFTH.Historian.constructor | LibFTH/LibFTH.go:43 | the memo starts empty and no name has been asked about |
| LibFTH.Historian.GetPointNumber | LibFTH/LibFTH.go:76-105 | the result and the new memo are those `PointNumber` gives, and the name is logged as asked exactly when the historian was called |
| LibFTH.Historian.AddToPIPointCache | LibFTH/LibFTH.go:133-167 | builds `PointEntry` from the lookup of the historian name; an entry to process carries the number the memo now holds for that name |
| LibFTH.BatchStep | LibFTH/LibFTH.go:177-195 | one more record adds its snapshot to the batch exactly when it qualifies |
| LibFTH.BatchSpec | LibFTH/LibFTH.go:177-195 | the batch holds the snapshot of every record that is non-nil and whose tag id maps to a resolved point, and nothing else, in record order |
| LibFTH.ZipAppend | LibFTH/LibFTH.go:191-193 | appending to the three slices appends one snapshot |
| LibFTH.FirstBadItemSpec | LibFTH/LibFTH.go:124-128 | no item is reported iff every code is 0 or -109; otherwise the item reported is the first code that is neither |
| LibFTH.FirstBadItemAt | LibFTH/LibFTH.go:124-128 | a failing code with no failing code before it is the one reported |
| LibFTH.PutOutcomeSpec | LibFTH/LibFTH.go:122-130 | a batch write fails iff the call's status is nonzero and some item code is neither 0 nor -109; the error names the first such item, its code and the status |
| LibFTH.PutSnapshots | LibFTH/LibFTH.go:107-131 | one call on the batch, then the outcome `PutOutcome` gives for its status and item codes |
| LibFTH.ConvertEmptySpec | LibFTH/LibFTH.go:197-199 | "no valid entries" is reported exactly when no record qualifies; a write never reports it |
| LibFTH.ConvertOutcome | LibFTH/LibFTH.go:169-207 | the conversion succeeds iff some record qualifies and the write of the batch succeeds: status 0, or every item code 0 or -109; `ConvertEmptySpec` says which failure is "no valid entries" |
| LibFTH.ConvertDatFloatRecordsToPutSnapshots | LibFTH/LibFTH.go:169-207 | skips nil records and records without a resolved point; with none left it writes nothing and fails; otherwise it writes exactly the batch once and returns that write's outcome |
| LibUtil.WithRowsSpec | libUtil/libUtil.go:21-36 | after folding rows, a key is in the map iff it was there or some row of two or more fields sets it; the last such row gives its value; a key no row sets keeps its value |
| LibUtil.LoadAllRows | libUtil/libUtil.go:21-38 | when every read gives a row, the load succeeds with all rows folded in |
| LibUtil.LoadStops | libUtil/libUtil.go:26-28 | once a read has failed, later reads change nothing |
| LibUtil.LoadReadError | libUtil/libUtil.go:26-28 | a first read error at read `k` fails the load with line `k + 1`, and the map keeps the rows read before it |
| LibUtil.TagMap.constructor | main.go:32 | the tag map starts empty |
| LibUtil.LoadTagMapCSV | libUtil/libUtil.go:11-39 | a file that does not open leaves the map as it was; otherwise the rows are folded into the caller's map until end of file or the first read error, as `LoadOutcome` gives it |
| Driver.HistorianName | main.go:99-106 | without a tag map a tag keeps its name; with one, it takes the mapped name and is skipped when unmapped |
| Driver.SelectStep | main.go:98-116 | one pass of the tag loop never drops a point filed by name and asks the historian about at most one more name; `SelectStepByName` says which point it adds, `SelectFirst` that across the loop the first tag of a name wins, and `PointNumberSpec` that the memo keeps its numbers |
| Driver.SelectStepByName | main.go:98-116 | one pass of the tag loop adds a point only for a mapped name that has none yet; it keeps every earlier point, and the new point carries the datalog name, id and historian name |
| Driver.SelectNames | main.go:98-116 | after the tag loop, a datalog name has a point iff some tag carries it and it is mapped |
| Driver.SelectFirst | main.go:109-115 | a datalog name's point comes from the first tag with that name: its id, datalog type 0, and its historian name |
| Driver.SelectCoherent | main.go:98-116 | the tag loop keeps the lookup coherent: every id is filed with the point of some name that carries it |
| Driver.SelectTags | main.go:98-116 | the loop fills the fresh point lookup and updates the historian memo as `SelectAll` gives them |
| Driver.ProcessFileSpec | main.go:87-138 | a file ends in a read error iff its tag file or its float file does not read; otherwise its records are written against the coherent points of its own tag file |
| Driver.ProcessFile | main.go:89-134 | one pass of the file loop, as `ProcessFileOf` gives it |
| Driver.RunFilesSpec | main.go:87-138 | the run stops early iff some file does not read, at the first such file, having written every file before it; a failed write never stops it |
| Driver.RunStops | main.go:92-96 | once a file has stopped the run, later files change nothing |
| Driver.RunStep | main.go:87-138 | one more file on a running loop either stops it with that file's read error or adds its write result |
| Driver.RunFiles | main.go:87-138 | the file loop over the directory's float files, as `RunFilesOf` gives it |
| Driver.MainTagMapSpec | main.go:43-60 | `main` stops before connecting iff a tag map was asked for and it fails to load or loads empty |
| Driver.Run | main.go:43-138 | `main` from the tag-map load to the end of the file loop, as `MainOf` gives it |

## Left out

- The C library calls are not modelled; the model takes their results as parameters:
  - `pipt_findpoint`, `pisn_putsnapshotsx` and the success of `Connect`;
  - their marshalling through `C.CString`, unsafe casts and the unused `ivals`, `bsizes`, `istats` and `flags` slices.
- `SetProcessName` and `Disconnect` only pass a name to, or take a status from, the library; `main` ignores the result of both.
- The `mu` and `piapidll` mutexes are not modelled, because the program is single-threaded.
- Logging is not modelled: `slog`, `PrintTagRecord`, `PointLookup.PrintAll` and `PrintDatFloatRecord`.
- Timing is not modelled: the durations `PutSnapshots` and `main` measure.
- The command line is not modelled beyond the directory path and the tag-map path. `host`, `processName` and the debug flag only reach logging or the library.
- `libPI/libPI.go`'s `PointLookup` source is not part of this model. It is modelled from its use in `main.go` and `LibFTH/LibFTH.go`: two maps, and `AddPoint` overwrites both entries.
- `NewPITIMESTAMP` is not modelled: its conversion of a `time.Time` to float seconds. A snapshot keeps the record's `Timestamp`.
- `Timestamp` keeps the milliseconds as a separate field: `time.Time.Add` of them, with its carry into seconds and days, is not modelled.
- `FloatRecord` keeps the double as its 64-bit pattern, as `math.Float64frombits` reads it; floating-point values are not modelled.
- GoTime.ParseStamp: `time.Parse` is modelled only for the 16-byte field and the one layout the records use. Its errors are two kinds, bad layout and out of range. The model checks the whole layout before any range, so on a field with both a bad month and a later bad byte it reports the layout error where Go reports the month.
- `strconv.Atoi` errors are two kinds, syntax and range. Go's error text is not kept.
- `encoding/csv` tokenisation is given, not modelled: a CSV file is the sequence of results of `reader.Read()`. Any error the csv package reports, such as a changed field count, is one of those results.
- `os.Stat` is modelled as the path being a directory of the file system. `os.ReadDir`'s sort order is the order the model's directory lists its entries.
- DatFiles.JoinPath: `filepath.Join` cleans the path it builds and uses the system separator. The model joins with `/` and does not clean, so a directory `.` or one ending in `/` gives a path that differs from Go's in spelling.
- `File.Close` and seek errors are not modelled: a seek on an open file cannot fail here.
- `GetFloatFiles` is not modelled separately, because it only returns the reader's list.
- `libFTH/libFTH.go` is not modelled: it is an older copy of the historian binding, without the memo, `AddToPIPointCache` or `ConvertDatFloatRecordsToPutSnapshots`.
- LibDAT.ReadFloatFileRecords: Go's `make` panics on a negative row count. The model returns the error `NegativeRowCount` instead.
- LibFTH.PutSnapshots: `&ptids[0]` on an empty batch would panic. The model does not capture that panic, because the only caller never passes an empty batch.
- Driver.Run: the historian memo is created when the file loop starts. It is empty either way, because nothing looks up a point before then.
