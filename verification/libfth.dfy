/** The historian side of the converter (LibFTH/LibFTH.go): the name to
    point-number memo in front of the point search, the point entry built for a
    datalog tag, the write batch built from decoded float records, and the
    reading of the per-item error codes of a batch write.

    The two calls into the historian's C library become oracles: `FindPoint`
    (`pipt_findpoint`) gives a status and a point number for a name, and
    `PutBatch` (`pisn_putsnapshotsx`) gives a status and the item error codes
    for a batch. */
module LibFTH {
  import opened Wrappers
  import opened DatStream
  import opened DatRecords
  import opened LibPI

  /** The longest point name the search is asked about. */
  const MaxPointNameLength: nat := 80

  /** The item error code a batch write tolerates. */
  const BenignItemError: int := -109

  datatype FthError =
    | PointNameTooLong(name: string)
    | FindPointFailed(name: string, status: Int32)
    | NoValidEntries
    | PutFailed(status: Int32, item: nat, code: Int32)

  /** What `pipt_findpoint` reports for a name: a status (0 for found) and the
      point number it wrote. */
  datatype FindReply = FindReply(status: Int32, pointNumber: Int32)

  type FindPoint = string -> FindReply

  // ---------------------------------------------------------------- point memo

  /** One `GetPointNumber` call on the memo `cache`: its result, the memo
      afterwards, and whether the historian was asked. */
  datatype Lookup = Lookup(result: Result<Int32, FthError>, cache: map<string, Int32>, asked: bool)

  /** `GetPointNumber(name)`: a name in the memo gives its number; otherwise a
      name over 80 bytes is refused; otherwise the historian is asked, and a
      number it finds is remembered. */
  function PointNumber(cache: map<string, Int32>, find: FindPoint, name: string): Lookup
  {
    if name in cache then Lookup(Ok(cache[name]), cache, false)
    else if |name| > MaxPointNameLength then Lookup(Err(PointNameTooLong(name)), cache, false)
    else
      var reply := find(name);
      if reply.status != 0 then Lookup(Err(FindPointFailed(name, reply.status)), cache, true)
      else Lookup(Ok(reply.pointNumber), cache[name := reply.pointNumber], true)
  }

  /** The memo's promises: the historian is asked exactly on a miss with a name
      of at most 80 bytes; a hit answers from the memo; only a success is
      remembered, and a remembered number is never changed. */
  lemma PointNumberSpec(cache: map<string, Int32>, find: FindPoint, name: string)
    ensures var l := PointNumber(cache, find, name);
      && (l.asked <==> name !in cache && |name| <= MaxPointNameLength)
      && (name in cache ==> l.result == Ok(cache[name]))
      && (name !in cache && |name| > MaxPointNameLength ==> l.result == Err(PointNameTooLong(name)))
      && (l.result.Ok? <==> name in cache || (|name| <= MaxPointNameLength && find(name).status == 0))
      && (l.result.Err? ==> l.cache == cache)
      && (l.result.Ok? ==> l.cache == cache[name := l.result.value])
      && (forall n :: n in cache ==> n in l.cache && l.cache[n] == cache[n])
  {
  }

  /** A lookup that succeeded is answered from the memo next time: the same
      number, the memo unchanged, the historian not asked. */
  lemma PointNumberRepeat(cache: map<string, Int32>, find: FindPoint, name: string)
    requires PointNumber(cache, find, name).result.Ok?
    ensures var first := PointNumber(cache, find, name);
      PointNumber(first.cache, find, name) == Lookup(first.result, first.cache, false)
  {
  }

  /** A lookup the historian failed is not remembered: the next call asks again. */
  lemma PointNumberRetry(cache: map<string, Int32>, find: FindPoint, name: string)
    requires PointNumber(cache, find, name).result.Err?
    ensures var first := PointNumber(cache, find, name);
      first.asked ==> PointNumber(first.cache, find, name).asked
  {
  }

  /** `AddToPIPointCache`'s entry for a datalog tag, given the result of looking
      up its historian name. The datalog type passed in is not used. */
  function PointEntry(datalogName: string, datalogId: int, piName: string, lookup: Result<Int32, FthError>): (p: PointCache)
    ensures p.process <==> lookup.Ok?
    ensures p.piId == if lookup.Ok? then Some(lookup.value) else None
    ensures p.dataLogType == 0
    ensures p.datalogName == datalogName && p.dataLogId == datalogId && p.piName == piName
  {
    if lookup.Err? then PointCache(datalogName, datalogId, 0, false, piName, None)
    else PointCache(datalogName, datalogId, 0, true, piName, Some(lookup.value))
  }

  /** The process-wide `historianCache`, in front of the point search. */
  class Historian {
    const find: FindPoint
    var cache: map<string, Int32>
    /** The names the historian was asked about, in order. */
    ghost var asked: seq<string>

    constructor (find: FindPoint)
      ensures this.find == find && cache == map[] && asked == []
    {
      this.find := find;
      cache := map[];
      asked := [];
    }

    /** `GetPointNumber(ptName)`. */
    method GetPointNumber(name: string) returns (r: Result<Int32, FthError>)
      modifies this
      ensures var l := PointNumber(old(cache), find, name);
        && r == l.result && cache == l.cache
        && asked == old(asked) + (if l.asked then [name] else [])
    {
      if name in cache {
        return Ok(cache[name]);
      }
      if |name| > MaxPointNameLength {
        return Err(PointNameTooLong(name));
      }
      var reply := find(name);
      asked := asked + [name];
      if reply.status != 0 {
        return Err(FindPointFailed(name, reply.status));
      }
      cache := cache[name := reply.pointNumber];
      return Ok(reply.pointNumber);
    }

    /** `AddToPIPointCache(datalogName, datalogID, datalogType, piPointName)`:
        the entry is marked for processing exactly when the point resolved, and
        then carries the number the memo now holds for its historian name. */
    method AddToPIPointCache(datalogName: string, datalogId: int, datalogType: int, piName: string)
      returns (p: PointCache)
      modifies this
      ensures var l := PointNumber(old(cache), find, piName);
        && p == PointEntry(datalogName, datalogId, piName, l.result)
        && cache == l.cache
        && asked == old(asked) + (if l.asked then [piName] else [])
      ensures p.process ==> piName in cache && p.piId == Some(cache[piName])
    {
      var id := GetPointNumber(piName);
      p := PointEntry(datalogName, datalogId, piName, id);
    }
  }

  // ---------------------------------------------------------------- write batch

  /** One value to write: point number, value bits and time. */
  datatype Snapshot = Snapshot(pointId: Int32, valBits: Uint64, time: Timestamp)

  /** The snapshot a record contributes: none for a nil record, for a tag id
      the lookup does not know, or for one whose point did not resolve. */
  function SnapshotOf(rec: Option<FloatRecord>, byId: map<int, Option<Int32>>): Option<Snapshot>
  {
    if rec.None? then None
    else if rec.value.tagId !in byId || byId[rec.value.tagId].None? then None
    else Some(Snapshot(byId[rec.value.tagId].value, rec.value.valBits, rec.value.timeStamp))
  }

  function Snapshots(records: seq<Option<FloatRecord>>, byId: map<int, Option<Int32>>): (s: seq<Option<Snapshot>>)
    ensures |s| == |records|
  {
    seq(|records|, i requires 0 <= i < |records| => SnapshotOf(records[i], byId))
  }

  /** The batch `ConvertDatFloatRecordsToPutSnapshots` builds: the snapshots of
      the records that qualify, in record order. */
  function Batch(records: seq<Option<FloatRecord>>, byId: map<int, Option<Int32>>): seq<Snapshot>
  {
    Somes(Snapshots(records, byId))
  }

  lemma BatchStep(records: seq<Option<FloatRecord>>, byId: map<int, Option<Int32>>, i: nat)
    requires i < |records|
    ensures Batch(records[..i + 1], byId) ==
      Batch(records[..i], byId) + (if SnapshotOf(records[i], byId).Some? then [SnapshotOf(records[i], byId).value] else [])
  {
    assert Snapshots(records[..i + 1], byId) == Snapshots(records[..i], byId) + [SnapshotOf(records[i], byId)];
    SomesAppend(Snapshots(records[..i], byId), SnapshotOf(records[i], byId));
  }

  /** Every snapshot of the batch comes from a record that qualifies, in record
      order, and every record that qualifies is in the batch: snapshot j comes
      from record `rows[j]`, the rows increase, and they are all the records
      the lookup resolves. */
  lemma BatchSpec(records: seq<Option<FloatRecord>>, byId: map<int, Option<Int32>>)
    ensures |Batch(records, byId)| <= |records|
    ensures exists rows: seq<nat> ::
      && |rows| == |Batch(records, byId)|
      && (forall j :: 0 <= j < |rows| ==>
            rows[j] < |records| && SnapshotOf(records[rows[j]], byId) == Some(Batch(records, byId)[j]))
      && (forall j, l :: 0 <= j < l < |rows| ==> rows[j] < rows[l])
      && (forall i :: 0 <= i < |records| ==> (SnapshotOf(records[i], byId).Some? <==> i in rows))
  {
    var s := Snapshots(records, byId);
    SomesCharacterized(s);
    var rows := SomeIndices(s);
    assert forall j :: 0 <= j < |rows| ==> rows[j] < |records| && SnapshotOf(records[rows[j]], byId) == Some(Batch(records, byId)[j]);
  }

  /** The three parallel slices `ptids`, `vs` and `ts`, read together. */
  function Zip(ptids: seq<Int32>, vs: seq<Uint64>, ts: seq<Timestamp>): (b: seq<Snapshot>)
    requires |ptids| == |vs| == |ts|
    ensures |b| == |ptids|
  {
    seq(|ptids|, k requires 0 <= k < |ptids| => Snapshot(ptids[k], vs[k], ts[k]))
  }

  lemma ZipAppend(ptids: seq<Int32>, vs: seq<Uint64>, ts: seq<Timestamp>, s: Snapshot)
    requires |ptids| == |vs| == |ts|
    ensures Zip(ptids + [s.pointId], vs + [s.valBits], ts + [s.time]) == Zip(ptids, vs, ts) + [s]
  {
  }

  // ---------------------------------------------------------------- batch write

  /** What `pisn_putsnapshotsx` reports for a batch: a status and the item error
      codes it wrote. */
  datatype PutReply = PutReply(status: Int32, errors: seq<Int32>)

  type PutBatch = seq<Snapshot> -> PutReply

  /** The `count` item codes of the errors slice after the call: zero (the
      slice's initial value) past what the library wrote. */
  function ItemCodes(reply: PutReply, count: nat): (codes: seq<Int32>)
    ensures |codes| == count
  {
    seq(count, i requires 0 <= i < count => if i < |reply.errors| then reply.errors[i] else 0)
  }

  /** An item code that fails the write: neither 0 nor -109. */
  predicate BadItem(code: int)
  {
    code != 0 && code != BenignItemError
  }

  /** The first failing item code, if any. */
  function FirstBadItem(codes: seq<Int32>): (r: Option<nat>)
    ensures r.Some? ==> r.value < |codes|
  {
    if codes == [] then None
    else if BadItem(codes[0]) then Some(0)
    else match FirstBadItem(codes[1..])
      case None => None
      case Some(i) => Some(i + 1)
  }

  /** `FirstBadItem` names the first failing code, or none when no code fails. */
  lemma {:induction false} FirstBadItemSpec(codes: seq<Int32>)
    ensures FirstBadItem(codes).None? <==> forall i :: 0 <= i < |codes| ==> !BadItem(codes[i])
    ensures FirstBadItem(codes).Some? ==>
      && FirstBadItem(codes).value < |codes|
      && BadItem(codes[FirstBadItem(codes).value])
      && forall j :: 0 <= j < FirstBadItem(codes).value ==> !BadItem(codes[j])
  {
    if codes != [] && !BadItem(codes[0]) {
      FirstBadItemSpec(codes[1..]);
      assert forall i :: 1 <= i < |codes| ==> codes[i] == codes[1..][i - 1];
    }
  }

  /** A failing code with no failing code before it is the first. */
  lemma {:induction false} FirstBadItemAt(codes: seq<Int32>, i: nat)
    requires i < |codes| && BadItem(codes[i])
    requires forall j :: 0 <= j < i ==> !BadItem(codes[j])
    ensures FirstBadItem(codes) == Some(i)
  {
    if i > 0 {
      FirstBadItemAt(codes[1..], i - 1);
    }
  }

  /** The outcome of a batch write: success when the call's status is 0;
      otherwise a failure at the first item whose code is neither 0 nor -109,
      and success when there is none. */
  function PutOutcome(status: Int32, codes: seq<Int32>): (r: Result<(), FthError>)
  {
    if status == 0 then Ok(())
    else match FirstBadItem(codes)
      case None => Ok(())
      case Some(i) => Err(PutFailed(status, i, codes[i]))
  }

  /** The write fails iff the status is nonzero and some item code is neither 0
      nor -109; the item reported is the first such. */
  lemma PutOutcomeSpec(status: Int32, codes: seq<Int32>)
    ensures PutOutcome(status, codes).Err? <==> status != 0 && exists i :: 0 <= i < |codes| && BadItem(codes[i])
    ensures PutOutcome(status, codes).Err? ==>
      var e := PutOutcome(status, codes).error;
      && e.PutFailed? && e.status == status && e.item < |codes| && e.code == codes[e.item]
      && BadItem(e.code) && forall j :: 0 <= j < e.item ==> !BadItem(codes[j])
  {
    FirstBadItemSpec(codes);
  }

  /** `PutSnapshots(count, ptids, vs, ts)`: one call of the library on the
      batch, then, when its status is nonzero, a scan of the item codes for
      the first that is neither 0 nor -109. */
  method PutSnapshots(count: nat, ptids: seq<Int32>, vs: seq<Uint64>, ts: seq<Timestamp>, put: PutBatch)
    returns (r: Result<(), FthError>)
    requires |ptids| == |vs| == |ts| == count
    ensures var reply := put(Zip(ptids, vs, ts));
      r == PutOutcome(reply.status, ItemCodes(reply, count))
  {
    var reply := put(Zip(ptids, vs, ts));
    var errors := ItemCodes(reply, count);
    if reply.status != 0 {
      var i := 0;
      while i < count
        invariant 0 <= i <= count
        invariant forall j :: 0 <= j < i ==> !BadItem(errors[j])
      {
        if errors[i] != 0 && errors[i] != BenignItemError {
          FirstBadItemAt(errors, i);
          return Err(PutFailed(reply.status, i, errors[i]));
        }
        i := i + 1;
      }
      FirstBadItemSpec(errors);
    }
    return Ok(());
  }

  /** The outcome of `ConvertDatFloatRecordsToPutSnapshots`: no write and an
      error when no record qualifies, otherwise the outcome of writing the batch. */
  function ConvertOutcome(records: seq<Option<FloatRecord>>, byId: map<int, Option<Int32>>, put: PutBatch): (r: Result<(), FthError>)
    ensures var batch := Batch(records, byId);
      r.Ok? <==>
        && batch != []
        && (put(batch).status == 0
            || forall i :: 0 <= i < |batch| ==> !BadItem(ItemCodes(put(batch), |batch|)[i]))
  {
    var batch := Batch(records, byId);
    if |batch| < 1 then Err(NoValidEntries)
    else
      PutOutcomeSpec(put(batch).status, ItemCodes(put(batch), |batch|));
      PutOutcome(put(batch).status, ItemCodes(put(batch), |batch|))
  }

  /** An empty batch is exactly the case reported as "no valid entries": a
      write never reports it. */
  lemma ConvertEmptySpec(records: seq<Option<FloatRecord>>, byId: map<int, Option<Int32>>, put: PutBatch)
    ensures ConvertOutcome(records, byId, put) == Err(NoValidEntries) <==> Batch(records, byId) == []
  {
  }

  /** `ConvertDatFloatRecordsToPutSnapshots(records, pointLookup)`: the loop
      appends the point number, value and time of each qualifying record to
      three parallel slices; with none, nothing is written. `sent` is the
      batch handed to the library, if any. */
  method ConvertDatFloatRecordsToPutSnapshots(records: seq<Option<FloatRecord>>, points: PointLookup, put: PutBatch)
    returns (r: Result<(), FthError>, sent: Option<seq<Snapshot>>)
    ensures r == ConvertOutcome(records, points.byId, put)
    ensures sent == if Batch(records, points.byId) == [] then None else Some(Batch(records, points.byId))
  {
    var ptids: seq<Int32> := [];
    var vs: seq<Uint64> := [];
    var ts: seq<Timestamp> := [];
    var count := 0;
    var i := 0;
    while i < |records|
      invariant 0 <= i <= |records|
      invariant |ptids| == |vs| == |ts| == count
      invariant Zip(ptids, vs, ts) == Batch(records[..i], points.byId)
    {
      BatchStep(records, points.byId, i);
      var record := records[i];
      i := i + 1;
      if record.None? {
        continue;
      }
      var pointId, found := points.GetPointIdByDataLogId(record.value.tagId);
      if !found || pointId.None? {
        continue;
      }
      ZipAppend(ptids, vs, ts, Snapshot(pointId.value, record.value.valBits, record.value.timeStamp));
      ptids := ptids + [pointId.value];
      vs := vs + [record.value.valBits];
      ts := ts + [record.value.timeStamp];
      count := count + 1;
    }
    assert records[..i] == records;
    if count < 1 {
      return Err(NoValidEntries), None;
    }
    r := PutSnapshots(count, ptids, vs, ts, put);
    sent := Some(Zip(ptids, vs, ts));
  }
}
