/** Option and Result, the shapes of Go's `(value, error)` and nil-able
    returns; `Somes`, which keeps the present values of a sequence of options;
    and `Collect`, a loop that stops at its first error. */
module Wrappers {

  datatype Option<+T> = None | Some(value: T)

  datatype Result<+T, +E> = Ok(value: T) | Err(error: E)

  /** The values of the `Some` entries of `s`, in order (the nil gaps dropped). */
  function Somes<T>(s: seq<Option<T>>): seq<T>
  {
    if s == [] then []
    else Somes(s[..|s| - 1]) + (if s[|s| - 1].Some? then [s[|s| - 1].value] else [])
  }

  /** The positions of the `Some` entries of `s`, in increasing order. */
  function SomeIndices<T>(s: seq<Option<T>>): seq<nat>
  {
    if s == [] then []
    else SomeIndices(s[..|s| - 1]) + (if s[|s| - 1].Some? then [|s| - 1] else [])
  }

  lemma SomesAppend<T>(s: seq<Option<T>>, x: Option<T>)
    ensures Somes(s + [x]) == Somes(s) + (if x.Some? then [x.value] else [])
  {
    assert (s + [x])[..|s|] == s;
  }

  /** `Somes` keeps exactly the present entries, in order: its j-th value sits at the
      j-th of the strictly increasing positions `SomeIndices`, and a position is
      listed iff the entry there is present. */
  lemma SomesCharacterized<T>(s: seq<Option<T>>)
    ensures |Somes(s)| == |SomeIndices(s)| <= |s|
    ensures forall j :: 0 <= j < |SomeIndices(s)| ==>
              SomeIndices(s)[j] < |s| && s[SomeIndices(s)[j]] == Some(Somes(s)[j])
    ensures forall j, k :: 0 <= j < k < |SomeIndices(s)| ==> SomeIndices(s)[j] < SomeIndices(s)[k]
    ensures forall i :: 0 <= i < |s| ==> (s[i].Some? <==> i in SomeIndices(s))
  {
    SomesAt(s);
    SomeIndicesIncreasing(s);
    SomeIndicesExact(s);
  }

  /** The j-th kept value is the entry at the j-th listed position. */
  lemma {:induction false} SomesAt<T>(s: seq<Option<T>>)
    ensures |Somes(s)| == |SomeIndices(s)| <= |s|
    ensures forall j :: 0 <= j < |SomeIndices(s)| ==>
              SomeIndices(s)[j] < |s| && s[SomeIndices(s)[j]] == Some(Somes(s)[j])
  {
    if s != [] {
      var init := s[..|s| - 1];
      var last := s[|s| - 1];
      SomesAt(init);
      var idx := SomeIndices(init);
      var vals := Somes(init);
      assert SomeIndices(s) == idx + (if last.Some? then [|s| - 1] else []);
      assert Somes(s) == vals + (if last.Some? then [last.value] else []);
      forall j | 0 <= j < |SomeIndices(s)|
        ensures SomeIndices(s)[j] < |s| && s[SomeIndices(s)[j]] == Some(Somes(s)[j])
      {
        if j < |idx| {
          assert SomeIndices(s)[j] == idx[j] && Somes(s)[j] == vals[j];
          assert s[idx[j]] == init[idx[j]];
        }
      }
    }
  }

  /** The listed positions increase. */
  lemma {:induction false} SomeIndicesIncreasing<T>(s: seq<Option<T>>)
    ensures forall j, k :: 0 <= j < k < |SomeIndices(s)| ==> SomeIndices(s)[j] < SomeIndices(s)[k]
  {
    if s != [] {
      var init := s[..|s| - 1];
      var last := s[|s| - 1];
      SomeIndicesIncreasing(init);
      SomesAt(init);
      var idx := SomeIndices(init);
      assert SomeIndices(s) == idx + (if last.Some? then [|s| - 1] else []);
      forall j, k | 0 <= j < k < |SomeIndices(s)|
        ensures SomeIndices(s)[j] < SomeIndices(s)[k]
      {
        assert SomeIndices(s)[j] == idx[j];
        if k < |idx| {
          assert SomeIndices(s)[k] == idx[k];
        }
      }
    }
  }

  /** A position is listed iff the entry there is present. */
  lemma {:induction false} SomeIndicesExact<T>(s: seq<Option<T>>)
    ensures forall i :: 0 <= i < |s| ==> (s[i].Some? <==> i in SomeIndices(s))
  {
    if s != [] {
      var init := s[..|s| - 1];
      var last := s[|s| - 1];
      SomeIndicesExact(init);
      SomesAt(init);
      var idx := SomeIndices(init);
      assert SomeIndices(s) == idx + (if last.Some? then [|s| - 1] else []);
      assert |s| - 1 !in idx by {
        forall j | 0 <= j < |idx| ensures idx[j] != |s| - 1 {
        }
      }
      forall i | 0 <= i < |s|
        ensures s[i].Some? <==> i in SomeIndices(s)
      {
        if i < |s| - 1 {
          assert s[i] == init[i];
        }
      }
    }
  }

  /** Every value `Somes` keeps is present somewhere in `s`. */
  lemma SomesFrom<T>(s: seq<Option<T>>, v: T)
    requires v in Somes(s)
    ensures Some(v) in s
  {
    SomesCharacterized(s);
    var j :| 0 <= j < |Somes(s)| && Somes(s)[j] == v;
    assert s[SomeIndices(s)[j]] == Some(v);
  }

  /** The results of a run of steps that stops at the first error: all the
      values when every step succeeded, otherwise the first step's error. */
  function Collect<T, E>(rs: seq<Result<T, E>>): Result<seq<T>, E>
  {
    if rs == [] then Ok([])
    else match Collect(rs[..|rs| - 1])
      case Err(e) => Err(e)
      case Ok(vs) =>
        match rs[|rs| - 1]
        case Err(e) => Err(e)
        case Ok(v) => Ok(vs + [v])
  }

  /** One more step: its value is appended, or its error is the result, unless
      an earlier step already failed. */
  lemma CollectAppend<T, E>(rs: seq<Result<T, E>>, r: Result<T, E>)
    ensures Collect(rs + [r]) ==
      match Collect(rs)
      case Err(e) => Err(e)
      case Ok(vs) => (match r case Err(e) => Err(e) case Ok(v) => Ok(vs + [v]))
  {
    assert (rs + [r])[..|rs|] == rs;
  }

  /** `Collect` succeeds iff every step did, and then holds each step's value
      in order; when it fails, its error is that of the first failing step. */
  lemma {:induction false} CollectSpec<T, E>(rs: seq<Result<T, E>>)
    ensures Collect(rs).Ok? <==> forall i :: 0 <= i < |rs| ==> rs[i].Ok?
    ensures Collect(rs).Ok? ==>
      && |Collect(rs).value| == |rs|
      && forall i :: 0 <= i < |rs| ==> Collect(rs).value[i] == rs[i].value
    ensures Collect(rs).Err? ==>
      exists i :: 0 <= i < |rs| && rs[i] == Err(Collect(rs).error) && forall j :: 0 <= j < i ==> rs[j].Ok?
  {
    if rs != [] {
      var init := rs[..|rs| - 1];
      CollectSpec(init);
      assert forall i :: 0 <= i < |init| ==> init[i] == rs[i];
      if Collect(init).Err? {
        var i :| 0 <= i < |init| && init[i] == Err(Collect(init).error) && forall j :: 0 <= j < i ==> init[j].Ok?;
        assert rs[i] == Err(Collect(rs).error);
      } else if rs[|rs| - 1].Err? {
        assert rs[|rs| - 1] == Err(Collect(rs).error);
      }
    }
  }

  /** Once a prefix has failed, later steps change nothing. */
  lemma {:induction false} CollectPrefixErr<T, E>(rs: seq<Result<T, E>>, k: nat)
    requires k <= |rs| && Collect(rs[..k]).Err?
    ensures Collect(rs) == Collect(rs[..k])
    decreases |rs|
  {
    if k < |rs| {
      var init := rs[..|rs| - 1];
      assert init[..k] == rs[..k];
      CollectPrefixErr(init, k);
    } else {
      assert rs[..k] == rs;
    }
  }
}
