/** The per-file point lookup of the converter (`libPI.PointLookup`, whose
    source is not part of this model): the points of one float file, found by
    datalog id (giving the historian point id, nil when the point did not
    resolve) and by datalog name. */
module LibPI {
  import opened Wrappers
  import opened DatStream

  /** `PointCache`: a datalog tag and the historian point it writes to. */
  datatype PointCache = PointCache(
    datalogName: string, dataLogId: int, dataLogType: int,
    process: bool, piName: string, piId: Option<Int32>)

  /** The contents of a point lookup. */
  datatype Points = Points(byId: map<int, Option<Int32>>, byName: map<string, PointCache>)

  const NoPoints := Points(map[], map[])

  /** `AddPoint` on the contents: the point is filed under its datalog id and
      its datalog name, replacing any earlier point filed there. */
  function WithPoint(pts: Points, p: PointCache): (r: Points)
    ensures r.byId.Keys == pts.byId.Keys + {p.dataLogId}
    ensures r.byName.Keys == pts.byName.Keys + {p.datalogName}
    ensures r.byId[p.dataLogId] == p.piId && r.byName[p.datalogName] == p
    ensures forall id :: id in pts.byId && id != p.dataLogId ==> r.byId[id] == pts.byId[id]
    ensures forall n :: n in pts.byName && n != p.datalogName ==> r.byName[n] == pts.byName[n]
  {
    Points(pts.byId[p.dataLogId := p.piId], pts.byName[p.datalogName := p])
  }

  /** The points of `ps` added in order to `pts`. */
  function WithPoints(pts: Points, ps: seq<PointCache>): Points
  {
    if ps == [] then pts else WithPoint(WithPoints(pts, ps[..|ps| - 1]), ps[|ps| - 1])
  }

  /** After adding `ps`, a datalog name is known iff it was known before or
      some point of `ps` carries it. */
  lemma {:induction false} WithPointsHasName(pts: Points, ps: seq<PointCache>, n: string)
    ensures n in WithPoints(pts, ps).byName <==>
      n in pts.byName || exists k :: 0 <= k < |ps| && ps[k].datalogName == n
  {
    if ps != [] {
      var init := ps[..|ps| - 1];
      var last := ps[|ps| - 1];
      var before := WithPoints(pts, init);
      assert n in WithPoints(pts, ps).byName <==> n in before.byName || n == last.datalogName;
      WithPointsHasName(pts, init, n);
      if n in before.byName && n !in pts.byName {
        var k :| 0 <= k < |init| && init[k].datalogName == n;
        assert ps[k] == init[k];
      }
      if exists k :: 0 <= k < |ps| && ps[k].datalogName == n {
        var k :| 0 <= k < |ps| && ps[k].datalogName == n;
        if k < |init| {
          assert init[k] == ps[k];
        } else {
          assert last.datalogName == n;
        }
      }
    }
  }

  /** A datalog name carried by some point of `ps` maps to the last such point. */
  lemma {:induction false} WithPointsLastName(pts: Points, ps: seq<PointCache>, k: nat)
    requires k < |ps| && forall l :: k < l < |ps| ==> ps[l].datalogName != ps[k].datalogName
    ensures ps[k].datalogName in WithPoints(pts, ps).byName
    ensures WithPoints(pts, ps).byName[ps[k].datalogName] == ps[k]
  {
    var init := ps[..|ps| - 1];
    if k < |init| {
      assert init[k] == ps[k] && forall l :: k < l < |init| ==> init[l] == ps[l];
      WithPointsLastName(pts, init, k);
    }
  }

  /** A datalog name no point of `ps` carries keeps the point it had. */
  lemma {:induction false} WithPointsKeepsName(pts: Points, ps: seq<PointCache>, n: string)
    requires n in pts.byName && forall k :: 0 <= k < |ps| ==> ps[k].datalogName != n
    ensures n in WithPoints(pts, ps).byName && WithPoints(pts, ps).byName[n] == pts.byName[n]
  {
    if ps != [] {
      var init := ps[..|ps| - 1];
      assert forall k :: 0 <= k < |init| ==> init[k] == ps[k];
      WithPointsKeepsName(pts, init, n);
    }
  }

  /** After adding `ps`, a datalog id is known iff it was known before or some
      point of `ps` carries it. */
  lemma {:induction false} WithPointsHasId(pts: Points, ps: seq<PointCache>, id: int)
    ensures id in WithPoints(pts, ps).byId <==>
      id in pts.byId || exists k :: 0 <= k < |ps| && ps[k].dataLogId == id
  {
    if ps != [] {
      var init := ps[..|ps| - 1];
      var last := ps[|ps| - 1];
      var before := WithPoints(pts, init);
      assert id in WithPoints(pts, ps).byId <==> id in before.byId || id == last.dataLogId;
      WithPointsHasId(pts, init, id);
      if id in before.byId && id !in pts.byId {
        var k :| 0 <= k < |init| && init[k].dataLogId == id;
        assert ps[k] == init[k];
      }
      if exists k :: 0 <= k < |ps| && ps[k].dataLogId == id {
        var k :| 0 <= k < |ps| && ps[k].dataLogId == id;
        if k < |init| {
          assert init[k] == ps[k];
        } else {
          assert last.dataLogId == id;
        }
      }
    }
  }

  /** A datalog id carried by some point of `ps` gives the point id of the last
      such point. */
  lemma {:induction false} WithPointsLastId(pts: Points, ps: seq<PointCache>, k: nat)
    requires k < |ps| && forall l :: k < l < |ps| ==> ps[l].dataLogId != ps[k].dataLogId
    ensures ps[k].dataLogId in WithPoints(pts, ps).byId
    ensures WithPoints(pts, ps).byId[ps[k].dataLogId] == ps[k].piId
  {
    var init := ps[..|ps| - 1];
    if k < |init| {
      assert init[k] == ps[k] && forall l :: k < l < |init| ==> init[l] == ps[l];
      WithPointsLastId(pts, init, k);
    }
  }

  /** `PointLookup`, updated in place by `AddPoint`. */
  class PointLookup {
    var byId: map<int, Option<Int32>>
    var byName: map<string, PointCache>

    function Contents(): Points
      reads this
    {
      Points(byId, byName)
    }

    /** `NewPointLookup()`. */
    constructor ()
      ensures Contents() == NoPoints
    {
      byId := map[];
      byName := map[];
    }

    /** `GetPointIDByDataLogID(id)`: whether the id is known, and if so the
        point id filed under it (nil for a point that did not resolve). */
    method GetPointIdByDataLogId(id: int) returns (pointId: Option<Int32>, found: bool)
      ensures found <==> id in byId
      ensures pointId == if found then byId[id] else None
    {
      found := id in byId;
      pointId := if found then byId[id] else None;
    }

    /** `GetPointByDataLogName(name)`. */
    method GetPointByDataLogName(name: string) returns (p: Option<PointCache>)
      ensures p.Some? <==> name in byName
      ensures p.Some? ==> p.value == byName[name]
    {
      p := if name in byName then Some(byName[name]) else None;
    }

    /** `AddPoint(point)`. */
    method AddPoint(p: PointCache)
      modifies this
      ensures Contents() == WithPoint(old(Contents()), p)
    {
      byId := byId[p.dataLogId := p.piId];
      byName := byName[p.datalogName := p];
    }
  }
}
