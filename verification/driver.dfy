/** The converter's `main` (main.go): the tag map is loaded when one is asked
    for, the historian is connected, and each float file of the directory is
    converted in turn: its tag file picks the points (renamed through the tag
    map, one per datalog name), its float records are written as one batch.

    The decoder is LibDAT's. Connecting to the historian is an oracle (whether
    `Connect` succeeded); the point search and the batch write are the oracles
    of LibFTH. */
module Driver {
  import opened Wrappers
  import opened DatStream
  import opened DatRecords
  import opened DatFiles
  import LibDAT
  import opened LibPI
  import opened LibFTH
  import opened LibUtil

  // ---------------------------------------------------------------- tag selection

  /** The historian name of a datalog tag: its own name without a tag map;
      with one, the name the map gives, and none (the tag is skipped) when the
      map does not list it. */
  function HistorianName(tag: TagRecord, tagMap: Option<map<string, string>>): (r: Option<string>)
    ensures tagMap.None? ==> r == Some(tag.name)
    ensures tagMap.Some? ==> (r.Some? <==> tag.name in tagMap.value)
    ensures tagMap.Some? && r.Some? ==> r.value == tagMap.value[tag.name]
  {
    if tagMap.None? then Some(tag.name)
    else if tag.name in tagMap.value then Some(tagMap.value[tag.name])
    else None
  }

  /** The state of the tag loop: the file's point lookup, the historian memo,
      and the names the historian was asked about. */
  datatype Selecting = Selecting(points: Points, cache: map<string, Int32>, asked: seq<string>)

  /** One pass of the tag loop (main.go:98-116): a tag with no historian name is
      skipped, and so is a tag whose datalog name already has a point; any other
      gets the point `AddToPIPointCache` builds for it. */
  function SelectStep(st: Selecting, tag: TagRecord, tagMap: Option<map<string, string>>, find: FindPoint): (r: Selecting)
    ensures st.points.byName.Keys <= r.points.byName.Keys
    ensures |st.asked| <= |r.asked| <= |st.asked| + 1
  {
    match HistorianName(tag, tagMap)
    case None => st
    case Some(piName) =>
      if tag.name in st.points.byName then st
      else
        var l := PointNumber(st.cache, find, piName);
        var asked := st.asked + (if l.asked then [piName] else []);
        Selecting(WithPoint(st.points, PointEntry(tag.name, tag.id, piName, l.result)), l.cache, asked)
  }

  function SelectAll(st: Selecting, tags: seq<TagRecord>, tagMap: Option<map<string, string>>, find: FindPoint): Selecting
  {
    if tags == [] then st
    else SelectStep(SelectAll(st, tags[..|tags| - 1], tagMap, find), tags[|tags| - 1], tagMap, find)
  }

  /** Whether tags named `n` are kept at all. */
  predicate Mapped(n: string, tagMap: Option<map<string, string>>)
  {
    tagMap.None? || n in tagMap.value
  }

  /** One pass of the tag loop on the points filed by name: a mapped tag whose
      name is new files a point built from it; nothing else changes. */
  lemma SelectStepByName(st: Selecting, tag: TagRecord, tagMap: Option<map<string, string>>, find: FindPoint)
    ensures var after := SelectStep(st, tag, tagMap, find).points.byName;
      after.Keys == st.points.byName.Keys + (if Mapped(tag.name, tagMap) then {tag.name} else {})
    ensures var after := SelectStep(st, tag, tagMap, find).points.byName;
      forall m :: m in st.points.byName ==> m in after && after[m] == st.points.byName[m]
    ensures var after := SelectStep(st, tag, tagMap, find).points.byName;
      Mapped(tag.name, tagMap) && tag.name !in st.points.byName ==>
        && tag.name in after
        && after[tag.name].datalogName == tag.name
        && after[tag.name].dataLogId == tag.id
        && after[tag.name].dataLogType == 0
        && Some(after[tag.name].piName) == HistorianName(tag, tagMap)
  {
  }

  /** The datalog names of a file's points, starting from an empty lookup: a
      name has a point iff some tag has that name and the tag map (if any)
      lists it. */
  lemma {:induction false} SelectNames(st: Selecting, tags: seq<TagRecord>, tagMap: Option<map<string, string>>, find: FindPoint, n: string)
    requires st.points.byName == map[]
    ensures n in SelectAll(st, tags, tagMap, find).points.byName <==>
      Mapped(n, tagMap) && exists k :: 0 <= k < |tags| && tags[k].name == n
  {
    if tags != [] {
      var init := tags[..|tags| - 1];
      SelectNames(st, init, tagMap, find, n);
      assert forall k :: 0 <= k < |init| ==> init[k] == tags[k];
      var before := SelectAll(st, init, tagMap, find);
      SelectStepByName(before, tags[|tags| - 1], tagMap, find);
      if n in before.points.byName {
        var k :| 0 <= k < |init| && init[k].name == n;
        assert tags[k].name == n;
      }
    }
  }

  /** The point of a datalog name is the one built from the FIRST tag with that
      name: its name and id, type 0, and its historian name. */
  lemma {:induction false} SelectFirst(st: Selecting, tags: seq<TagRecord>, tagMap: Option<map<string, string>>, find: FindPoint, k: nat)
    requires st.points.byName == map[]
    requires k < |tags| && Mapped(tags[k].name, tagMap)
    requires forall j :: 0 <= j < k ==> tags[j].name != tags[k].name
    ensures var pts := SelectAll(st, tags, tagMap, find).points;
      && tags[k].name in pts.byName
      && pts.byName[tags[k].name].datalogName == tags[k].name
      && pts.byName[tags[k].name].dataLogId == tags[k].id
      && pts.byName[tags[k].name].dataLogType == 0
      && Some(pts.byName[tags[k].name].piName) == HistorianName(tags[k], tagMap)
  {
    var init := tags[..|tags| - 1];
    var before := SelectAll(st, init, tagMap, find);
    SelectStepByName(before, tags[|tags| - 1], tagMap, find);
    if k < |init| {
      assert init[k] == tags[k] && forall j :: 0 <= j < k ==> init[j] == tags[j];
      SelectFirst(st, init, tagMap, find, k);
    } else {
      SelectNames(st, init, tagMap, find, tags[k].name);
      assert forall j :: 0 <= j < |init| ==> init[j] == tags[j];
    }
  }

  /** The two indexes of a point lookup agree: every point filed by name is
      filed by its id, and every id gives the point id of some point filed by
      name with that id. */
  ghost predicate Coherent(pts: Points)
  {
    && (forall n :: n in pts.byName ==> pts.byName[n].dataLogId in pts.byId)
    && (forall id :: id in pts.byId ==>
          exists n :: n in pts.byName && pts.byName[n].dataLogId == id && pts.byId[id] == pts.byName[n].piId)
  }

  /** The tag loop keeps the point lookup coherent, because it never files a
      second point under a datalog name. */
  lemma {:induction false} SelectCoherent(st: Selecting, tags: seq<TagRecord>, tagMap: Option<map<string, string>>, find: FindPoint)
    requires Coherent(st.points)
    ensures Coherent(SelectAll(st, tags, tagMap, find).points)
  {
    if tags != [] {
      var init := tags[..|tags| - 1];
      SelectCoherent(st, init, tagMap, find);
      var before := SelectAll(st, init, tagMap, find);
      var tag := tags[|tags| - 1];
      var after := SelectStep(before, tag, tagMap, find);
      if after != before {
        var p := after.points.byName[tag.name];
        assert tag.name !in before.points.byName;
        assert after.points == WithPoint(before.points, p);
        forall id | id in after.points.byId
          ensures exists n :: n in after.points.byName && after.points.byName[n].dataLogId == id && after.points.byId[id] == after.points.byName[n].piId
        {
          if id == p.dataLogId {
            assert after.points.byName[tag.name].dataLogId == id;
          } else {
            var n :| n in before.points.byName && before.points.byName[n].dataLogId == id && before.points.byId[id] == before.points.byName[n].piId;
            assert after.points.byName[n] == before.points.byName[n];
          }
        }
      }
    }
  }

  /** The tag loop of main.go:98-116 on a fresh point lookup. */
  method SelectTags(tags: seq<TagRecord>, tagMap: Option<map<string, string>>, historian: Historian, pointCache: PointLookup)
    requires pointCache.Contents() == NoPoints
    modifies historian, pointCache
    ensures var s := SelectAll(Selecting(NoPoints, old(historian.cache), []), tags, tagMap, historian.find);
      && pointCache.Contents() == s.points
      && historian.cache == s.cache
      && historian.asked == old(historian.asked) + s.asked
  {
    ghost var start := Selecting(NoPoints, historian.cache, []);
    ghost var sel := start;
    var i := 0;
    while i < |tags|
      invariant 0 <= i <= |tags|
      invariant sel == SelectAll(start, tags[..i], tagMap, historian.find)
      invariant pointCache.Contents() == sel.points && historian.cache == sel.cache
      invariant historian.asked == old(historian.asked) + sel.asked
    {
      assert tags[..i + 1][..i] == tags[..i];
      var tag := tags[i];
      ghost var prev := sel;
      sel := SelectStep(prev, tag, tagMap, historian.find);
      i := i + 1;
      var tagName := tag.name;
      if tagMap.Some? {
        if tag.name !in tagMap.value {
          continue;
        }
        tagName := tagMap.value[tag.name];
      }
      var existing := pointCache.GetPointByDataLogName(tag.name);
      if existing.Some? {
        continue;
      }
      ghost var l := PointNumber(historian.cache, historian.find, tagName);
      var p := historian.AddToPIPointCache(tag.name, tag.id, 0, tagName);
      AppendAssoc(old(historian.asked), prev.asked, if l.asked then [tagName] else []);
      pointCache.AddPoint(p);
    }
    assert tags[..i] == tags;
  }

  // ---------------------------------------------------------------- one file

  /** How one float file ended: a read error, which ends the run, or the
      result of its batch write, which is logged and the run goes on. */
  datatype FileOutcome = Unreadable(error: DatError) | Written(result: Result<(), FthError>)

  datatype FileStep = FileStep(outcome: FileOutcome, cache: map<string, Int32>, asked: seq<string>)

  /** What reading a float file's tag file and the float file itself gives. */
  datatype FileReads = FileReads(tags: Result<seq<TagRecord>, DatError>, records: Result<seq<Option<FloatRecord>>, DatError>)

  function ReadsOf(fs: FileSystem, floatName: string): FileReads
  {
    FileReads(LibDAT.TagFileOf(fs, floatName), LibDAT.FloatFileOf(fs, floatName))
  }

  function AllReads(fs: FileSystem, names: seq<string>): (r: seq<FileReads>)
    ensures |r| == |names| && forall i :: 0 <= i < |names| ==> r[i] == ReadsOf(fs, names[i])
  {
    seq(|names|, i requires 0 <= i < |names| => ReadsOf(fs, names[i]))
  }

  /** One pass of the file loop (main.go:87-138): a fresh point lookup; the tag
      file read (an error ends the file); the points selected; the float file
      read (an error ends the file); the records written. */
  function ProcessFileOf(file: FileReads, tagMap: Option<map<string, string>>,
                         cache: map<string, Int32>, find: FindPoint, put: PutBatch): FileStep
  {
    match file.tags
    case Err(e) => FileStep(Unreadable(e), cache, [])
    case Ok(tags) =>
      var s := SelectAll(Selecting(NoPoints, cache, []), tags, tagMap, find);
      match file.records
      case Err(e) => FileStep(Unreadable(e), s.cache, s.asked)
      case Ok(records) => FileStep(Written(ConvertOutcome(records, s.points.byId, put)), s.cache, s.asked)
  }

  /** The read error of a file, if any: the tag file's, else the float file's. */
  function ReadError(file: FileReads): Option<DatError>
  {
    if file.tags.Err? then Some(file.tags.error)
    else if file.records.Err? then Some(file.records.error)
    else None
  }

  /** A file ends in a read error exactly when one of its two files does not
      read, whatever the historian memo holds; otherwise its records are written
      against the points of its own tag file only, and those are coherent. */
  lemma ProcessFileSpec(file: FileReads, tagMap: Option<map<string, string>>,
                        cache: map<string, Int32>, find: FindPoint, put: PutBatch)
    ensures var f := ProcessFileOf(file, tagMap, cache, find, put);
      && (f.outcome.Unreadable? <==> ReadError(file).Some?)
      && (f.outcome.Unreadable? ==> Some(f.outcome.error) == ReadError(file))
    ensures var f := ProcessFileOf(file, tagMap, cache, find, put);
      f.outcome.Written? ==>
        var s := SelectAll(Selecting(NoPoints, cache, []), file.tags.value, tagMap, find);
        && Coherent(s.points)
        && f.outcome.result == ConvertOutcome(file.records.value, s.points.byId, put)
  {
    if file.tags.Ok? {
      SelectCoherent(Selecting(NoPoints, cache, []), file.tags.value, tagMap, find);
    }
  }

  /** The body of the file loop. */
  method ProcessFile(fs: FileSystem, floatName: string, tagMap: Option<map<string, string>>, historian: Historian, put: PutBatch)
    returns (outcome: FileOutcome)
    modifies historian
    ensures var f := ProcessFileOf(ReadsOf(fs, floatName), tagMap, old(historian.cache), historian.find, put);
      && outcome == f.outcome
      && historian.cache == f.cache
      && historian.asked == old(historian.asked) + f.asked
  {
    var pointCache := new PointLookup();
    var tags := LibDAT.ReadTagFile(fs, floatName);
    if tags.Err? {
      return Unreadable(tags.error);
    }
    SelectTags(tags.value, tagMap, historian, pointCache);
    var records := LibDAT.ReadFloatFile(fs, floatName);
    if records.Err? {
      return Unreadable(records.error);
    }
    var r, sent := ConvertDatFloatRecordsToPutSnapshots(records.value, pointCache, put);
    return Written(r);
  }

  // ---------------------------------------------------------------- the run

  /** A run of the file loop: the write results of the files converted, the
      read error that ended it early (if one did), and the historian memo. */
  datatype RunState = RunState(writes: seq<Result<(), FthError>>, aborted: Option<DatError>,
                               cache: map<string, Int32>, asked: seq<string>)

  /** The file loop over the reads of the files in directory order. */
  function RunFilesOf(files: seq<FileReads>, tagMap: Option<map<string, string>>,
                      cache: map<string, Int32>, find: FindPoint, put: PutBatch): RunState
  {
    if files == [] then RunState([], None, cache, [])
    else
      var before := RunFilesOf(files[..|files| - 1], tagMap, cache, find, put);
      if before.aborted.Some? then before
      else
        var f := ProcessFileOf(files[|files| - 1], tagMap, before.cache, find, put);
        match f.outcome
        case Unreadable(e) => RunState(before.writes, Some(e), f.cache, before.asked + f.asked)
        case Written(r) => RunState(before.writes + [r], None, f.cache, before.asked + f.asked)
  }

  /** The run's error policy: it ends early exactly when some file does not
      read, at the first such file, with that file's read error, after writing
      every file before it; a failed write never ends it, so a run without read
      errors writes every file. */
  lemma {:induction false} RunFilesSpec(files: seq<FileReads>, tagMap: Option<map<string, string>>,
                                        cache: map<string, Int32>, find: FindPoint, put: PutBatch)
    ensures var run := RunFilesOf(files, tagMap, cache, find, put);
      run.aborted.None? <==> forall i :: 0 <= i < |files| ==> ReadError(files[i]).None?
    ensures var run := RunFilesOf(files, tagMap, cache, find, put);
      run.aborted.None? ==> |run.writes| == |files|
    ensures var run := RunFilesOf(files, tagMap, cache, find, put);
      run.aborted.Some? ==>
        exists k :: 0 <= k < |files| && ReadError(files[k]) == run.aborted && |run.writes| == k &&
          forall j :: 0 <= j < k ==> ReadError(files[j]).None?
  {
    if files != [] {
      var init := files[..|files| - 1];
      var last := files[|files| - 1];
      RunFilesSpec(init, tagMap, cache, find, put);
      assert forall i :: 0 <= i < |init| ==> init[i] == files[i];
      var before := RunFilesOf(init, tagMap, cache, find, put);
      ProcessFileSpec(last, tagMap, before.cache, find, put);
      if before.aborted.Some? {
        var k :| 0 <= k < |init| && ReadError(init[k]) == before.aborted && |before.writes| == k &&
          forall j :: 0 <= j < k ==> ReadError(init[j]).None?;
        assert ReadError(files[k]) == before.aborted;
      } else if ReadError(last).Some? {
        assert ReadError(files[|init|]) == RunFilesOf(files, tagMap, cache, find, put).aborted;
      }
    }
  }

  /** Once a prefix of the files has ended the run, later files change nothing. */
  lemma {:induction false} RunStops(files: seq<FileReads>, tagMap: Option<map<string, string>>,
                                    cache: map<string, Int32>, find: FindPoint, put: PutBatch, k: nat)
    requires k <= |files| && RunFilesOf(files[..k], tagMap, cache, find, put).aborted.Some?
    ensures RunFilesOf(files, tagMap, cache, find, put) == RunFilesOf(files[..k], tagMap, cache, find, put)
    decreases |files|
  {
    if k < |files| {
      var init := files[..|files| - 1];
      assert init[..k] == files[..k];
      RunStops(init, tagMap, cache, find, put, k);
    } else {
      assert files[..k] == files;
    }
  }

  /** One more file on a run that has not ended: a file that does not read ends
      the run there, any other adds its write result. */
  lemma RunStep(files: seq<FileReads>, i: nat, tagMap: Option<map<string, string>>,
                cache: map<string, Int32>, find: FindPoint, put: PutBatch, run: RunState, f: FileStep)
    requires i < |files| && run == RunFilesOf(files[..i], tagMap, cache, find, put) && run.aborted.None?
    requires f == ProcessFileOf(files[i], tagMap, run.cache, find, put)
    ensures f.outcome.Written? ==>
      RunFilesOf(files[..i + 1], tagMap, cache, find, put) == RunState(run.writes + [f.outcome.result], None, f.cache, run.asked + f.asked)
    ensures f.outcome.Unreadable? ==>
      RunFilesOf(files, tagMap, cache, find, put) == RunState(run.writes, Some(f.outcome.error), f.cache, run.asked + f.asked)
  {
    assert files[..i + 1][..i] == files[..i];
    if f.outcome.Unreadable? {
      RunStops(files, tagMap, cache, find, put, i + 1);
    }
  }

  lemma AppendAssoc(a: seq<string>, b: seq<string>, c: seq<string>)
    ensures a + b + c == a + (b + c)
  {
  }

  /** The file loop of main.go:87-138: a read error returns from `main`; a write
      error is logged and the loop goes on. */
  method RunFiles(fs: FileSystem, names: seq<string>, tagMap: Option<map<string, string>>, historian: Historian, put: PutBatch)
    returns (writes: seq<Result<(), FthError>>, aborted: Option<DatError>)
    modifies historian
    ensures var run := RunFilesOf(AllReads(fs, names), tagMap, old(historian.cache), historian.find, put);
      && writes == run.writes && aborted == run.aborted
      && historian.cache == run.cache
      && historian.asked == old(historian.asked) + run.asked
  {
    ghost var cache0 := historian.cache;
    ghost var files := AllReads(fs, names);
    ghost var run := RunState([], None, cache0, []);
    writes := [];
    var i := 0;
    while i < |names|
      invariant 0 <= i <= |names|
      invariant run == RunFilesOf(files[..i], tagMap, cache0, historian.find, put)
      invariant writes == run.writes && run.aborted.None?
      invariant historian.cache == run.cache
      invariant historian.asked == old(historian.asked) + run.asked
    {
      ghost var f := ProcessFileOf(files[i], tagMap, historian.cache, historian.find, put);
      assert files[i] == ReadsOf(fs, names[i]);
      ghost var asked0 := historian.asked;
      var outcome := ProcessFile(fs, names[i], tagMap, historian, put);
      assert historian.asked == asked0 + f.asked;
      AppendAssoc(old(historian.asked), run.asked, f.asked);
      RunStep(files, i, tagMap, cache0, historian.find, put, run, f);
      if outcome.Unreadable? {
        return writes, Some(outcome.error);
      }
      writes := writes + [outcome.result];
      run := RunState(run.writes + [f.outcome.result], None, f.cache, run.asked + f.asked);
      i := i + 1;
    }
    assert files[..i] == files;
    return writes, None;
  }

  // ---------------------------------------------------------------- main

  /** The command line: `-path` and `-tagMapCSV` (empty for none). */
  datatype Config = Config(dirPath: string, tagMapCSV: string)

  datatype StopReason =
    | TagMapLoadFailed(loadError: LoadError)
    | TagMapEmpty
    | ConnectFailed
    | DirectoryNotFound
    | ReaderFailed(readError: DatError)

  /** How `main` ends: stopped before connecting, stopped after connecting, or
      after running the file loop. */
  datatype MainOutcome =
    | StoppedBeforeConnect(reason: StopReason)
    | Stopped(reason: StopReason)
    | Ran(writes: seq<Result<(), FthError>>, aborted: Option<DatError>)

  /** What `main` does, given whether connecting succeeds. The directory
      check is `os.Stat` on the path as given. */
  function MainOf(config: Config, csvFiles: map<string, CsvReads>, fs: FileSystem, connects: bool,
                  find: FindPoint, put: PutBatch): MainOutcome
  {
    var loaded := LoadOutcome(csvFiles, config.tagMapCSV, map[]);
    if config.tagMapCSV != "" && loaded.result.Err? then StoppedBeforeConnect(TagMapLoadFailed(loaded.result.error))
    else if config.tagMapCSV != "" && |loaded.entries| < 1 then StoppedBeforeConnect(TagMapEmpty)
    else if !connects then Stopped(ConnectFailed)
    else if config.dirPath !in fs.dirs then Stopped(DirectoryNotFound)
    else match DatReaderFor(fs, config.dirPath)
      case Err(e) => Stopped(ReaderFailed(e))
      case Ok(names) =>
        var tagMap := if config.tagMapCSV != "" then Some(loaded.entries) else None;
        var run := RunFilesOf(AllReads(fs, names), tagMap, map[], find, put);
        Ran(run.writes, run.aborted)
  }

  /** A tag map asked for on the command line that does not load, or loads
      empty, stops `main` before it connects; nothing else does. */
  lemma MainTagMapSpec(config: Config, csvFiles: map<string, CsvReads>, fs: FileSystem, connects: bool,
                       find: FindPoint, put: PutBatch)
    ensures MainOf(config, csvFiles, fs, connects, find, put).StoppedBeforeConnect? <==>
      config.tagMapCSV != "" &&
      (LoadOutcome(csvFiles, config.tagMapCSV, map[]).result.Err? || LoadOutcome(csvFiles, config.tagMapCSV, map[]).entries == map[])
  {
    var loaded := LoadOutcome(csvFiles, config.tagMapCSV, map[]);
    assert |loaded.entries| < 1 <==> loaded.entries == map[] by {
      if loaded.entries != map[] {
        var k :| k in loaded.entries;
      }
    }
  }

  /** `main`, from the tag map load to the end of the file loop. */
  method Run(config: Config, csvFiles: map<string, CsvReads>, fs: FileSystem, connects: bool,
             find: FindPoint, put: PutBatch) returns (outcome: MainOutcome)
    ensures outcome == MainOf(config, csvFiles, fs, connects, find, put)
  {
    var tagMaps := new TagMap();
    var useTagMap := false;
    if config.tagMapCSV != "" {
      var err := LoadTagMapCSV(csvFiles, config.tagMapCSV, tagMaps);
      if err.Err? {
        return StoppedBeforeConnect(TagMapLoadFailed(err.error));
      }
      if |tagMaps.entries| < 1 {
        return StoppedBeforeConnect(TagMapEmpty);
      }
      useTagMap := true;
    }
    if !connects {
      return Stopped(ConnectFailed);
    }
    if config.dirPath !in fs.dirs {
      return Stopped(DirectoryNotFound);
    }
    var dr := NewDatReader(fs, config.dirPath);
    if dr.Err? {
      return Stopped(ReaderFailed(dr.error));
    }
    var historian := new Historian(find);
    var tagMap := if useTagMap then Some(tagMaps.entries) else None;
    var writes, aborted := RunFiles(fs, dr.value, tagMap, historian, put);
    return Ran(writes, aborted);
  }
}
