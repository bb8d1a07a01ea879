/** The tag-rename table loader of libUtil/libUtil.go: the rows of a CSV file
    folded, in order, into a map the caller owns, row[0] to row[1].

    A CSV file is given as the results of successive `reader.Read()` calls
    up to end of file: each a row of fields or a read error. Splitting the text
    into fields is left to `encoding/csv` and not modelled. */
module LibUtil {
  import opened Wrappers

  datatype CsvError = CsvError(reason: string)

  /** The results `reader.Read()` gives for a file, before end of file. */
  type CsvReads = seq<Result<seq<string>, CsvError>>

  datatype LoadError = OpenFailed(path: string) | ReadFailedAt(line: nat, cause: CsvError)

  /** What a load returns, and the caller's map afterwards. */
  datatype Loaded = Loaded(result: Result<(), LoadError>, entries: map<string, string>)

  /** A row sets `key` when it has at least two fields and the first is `key`. */
  predicate SetsKey(row: seq<string>, key: string)
  {
    |row| >= 2 && row[0] == key
  }

  /** One row folded into the map: a row of fewer than 2 fields is skipped,
      any other sets its first field to its second; further fields are ignored. */
  function WithRow(m: map<string, string>, row: seq<string>): map<string, string>
  {
    if |row| < 2 then m else m[row[0] := row[1]]
  }

  function WithRows(m: map<string, string>, rows: seq<seq<string>>): map<string, string>
  {
    if rows == [] then m else WithRow(WithRows(m, rows[..|rows| - 1]), rows[|rows| - 1])
  }

  /** Folding rows into a map: a key is in the result iff it was in the map or
      some row sets it; the last row that sets it wins; a key no row sets keeps
      the value it had. */
  lemma {:induction false} WithRowsSpec(m: map<string, string>, rows: seq<seq<string>>, key: string)
    ensures key in WithRows(m, rows) <==> key in m || exists i :: 0 <= i < |rows| && SetsKey(rows[i], key)
    ensures forall i :: (0 <= i < |rows| && SetsKey(rows[i], key) &&
      (forall l :: i < l < |rows| ==> !SetsKey(rows[l], key))) ==> WithRows(m, rows)[key] == rows[i][1]
    ensures (forall i :: 0 <= i < |rows| ==> !SetsKey(rows[i], key)) && key in m ==>
      WithRows(m, rows)[key] == m[key]
  {
    if rows != [] {
      var init := rows[..|rows| - 1];
      WithRowsSpec(m, init, key);
      assert forall i :: 0 <= i < |init| ==> init[i] == rows[i];
      if key in WithRows(m, rows) && key !in m && !SetsKey(rows[|rows| - 1], key) {
        var i :| 0 <= i < |init| && SetsKey(init[i], key);
        assert SetsKey(rows[i], key);
      }
    }
  }

  /** The loop of `LoadTagMapCSV` over the results of an open file, starting from
      map `m`: the result and the map afterwards. Read i (from 0) failing ends
      the loop with an error for line i + 1; the rows before it stay folded in. */
  function LoadReads(m: map<string, string>, results: CsvReads): Loaded
  {
    if results == [] then Loaded(Ok(()), m)
    else
      var before := LoadReads(m, results[..|results| - 1]);
      if before.result.Err? then before
      else match results[|results| - 1]
        case Err(e) => Loaded(Err(ReadFailedAt(|results|, e)), before.entries)
        case Ok(row) => Loaded(Ok(()), WithRow(before.entries, row))
  }

  /** `LoadTagMapCSV(filePath, tagMap)`: a file that does not open leaves the
      map as it was. */
  function LoadOutcome(csvFiles: map<string, CsvReads>, path: string, m: map<string, string>): Loaded
  {
    if path !in csvFiles then Loaded(Err(OpenFailed(path)), m)
    else LoadReads(m, csvFiles[path])
  }

  /** When every read gives a row, the load succeeds and folds all the rows. */
  lemma {:induction false} LoadAllRows(m: map<string, string>, results: CsvReads)
    requires Collect(results).Ok?
    ensures LoadReads(m, results) == Loaded(Ok(()), WithRows(m, Collect(results).value))
  {
    if results != [] {
      var init := results[..|results| - 1];
      LoadAllRows(m, init);
      CollectSpec(results);
      CollectSpec(init);
      var rows := Collect(results).value;
      assert rows[..|rows| - 1] == Collect(init).value;
    }
  }

  /** Once a prefix of the results has failed, later results change nothing. */
  lemma {:induction false} LoadStops(m: map<string, string>, results: CsvReads, k: nat)
    requires k <= |results| && LoadReads(m, results[..k]).result.Err?
    ensures LoadReads(m, results) == LoadReads(m, results[..k])
    decreases |results|
  {
    if k < |results| {
      var init := results[..|results| - 1];
      assert init[..k] == results[..k];
      LoadStops(m, init, k);
    } else {
      assert results[..k] == results;
    }
  }

  /** A read error at read k (the first) makes the load fail with line k + 1,
      and the map holds the rows read before it folded in. */
  lemma LoadReadError(m: map<string, string>, results: CsvReads, k: nat)
    requires k < |results| && results[k].Err?
    requires forall j :: 0 <= j < k ==> results[j].Ok?
    ensures Collect(results[..k]).Ok?
    ensures LoadReads(m, results) == Loaded(Err(ReadFailedAt(k + 1, results[k].error)), WithRows(m, Collect(results[..k]).value))
  {
    var prefix := results[..k];
    CollectSpec(prefix);
    LoadAllRows(m, prefix);
    assert results[..k + 1][..k] == prefix;
    LoadStops(m, results, k + 1);
  }

  /** The map the caller passes in, updated in place. */
  class TagMap {
    var entries: map<string, string>

    constructor ()
      ensures entries == map[]
    {
      entries := map[];
    }
  }

  /** `LoadTagMapCSV(filePath, tagMap)`: the read loop folds each row into the
      caller's map as it goes, and returns at end of file or at the first read
      error. */
  method LoadTagMapCSV(csvFiles: map<string, CsvReads>, path: string, tagMap: TagMap)
    returns (r: Result<(), LoadError>)
    modifies tagMap
    ensures Loaded(r, tagMap.entries) == LoadOutcome(csvFiles, path, old(tagMap.entries))
  {
    if path !in csvFiles {
      return Err(OpenFailed(path));
    }
    var results := csvFiles[path];
    ghost var m := tagMap.entries;
    var i := 0;
    while true
      invariant 0 <= i <= |results|
      invariant LoadReads(m, results[..i]) == Loaded(Ok(()), tagMap.entries)
      decreases |results| - i
    {
      if i == |results| {
        break;
      }
      assert results[..i + 1][..i] == results[..i];
      var record := results[i];
      if record.Err? {
        LoadStops(m, results, i + 1);
        return Err(ReadFailedAt(i + 1, record.error));
      }
      if |record.value| < 2 {
        i := i + 1;
        continue;
      }
      tagMap.entries := tagMap.entries[record.value[0] := record.value[1]];
      i := i + 1;
    }
    assert results[..i] == results;
    return Ok(());
  }
}
