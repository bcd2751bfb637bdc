/**
 * `circe::Array` (circe/scene/array.h): the plain spatial structure that keeps
 * its objects in a list and answers a ray query by testing every object. The
 * geometry of a ray test is not modelled: each object's test is given as its
 * outcome, `None` for a miss or the hit parameter `t`.
 */
module SpatialArray {
  import opened Wrappers

  /** A ray parameter, or `INFINITY`, the value before any hit. */
  datatype Distance = Finite(t: real) | Infinity
  {
    /** Strictly nearer than `other`. */
    predicate Below(other: Distance)
    {
      match (this, other)
      case (Finite(a), Finite(b)) => a < b
      case (Finite(_), Infinity) => true
      case (Infinity, _) => false
    }
  }

  /**
   * The answer `intersect` owes for the per-object outcomes `hits`: no object
   * and `INFINITY` when nothing was hit; otherwise a hit object whose `t` is
   * the least of all hits, and strictly less than that of every earlier hit.
   */
  ghost predicate Nearest(hits: seq<Option<real>>, ret: Option<nat>, mint: Distance)
  {
    if ret.None? then
      mint == Infinity && forall i :: 0 <= i < |hits| ==> hits[i].None?
    else
      && ret.value < |hits| && mint.Finite? && hits[ret.value] == Some(mint.t)
      && (forall i :: 0 <= i < |hits| && hits[i].Some? ==> mint.t <= hits[i].value)
      && (forall i :: 0 <= i < ret.value && hits[i].Some? ==> mint.t < hits[i].value)
  }

  /** There is one answer for any outcomes: the query is deterministic. */
  lemma NearestUnique(hits: seq<Option<real>>, ret: Option<nat>, mint: Distance, ret': Option<nat>, mint': Distance)
    requires Nearest(hits, ret, mint) && Nearest(hits, ret', mint')
    ensures ret == ret' && mint == mint'
  {
  }

  class Array<T> {
    var objects: seq<T>

    constructor ()
      ensures objects == []
    {
      objects := [];
    }

    /** `add`: appends exactly one object. */
    method Add(o: T)
      modifies this
      ensures objects == old(objects) + [o]
    {
      objects := objects + [o];
    }

    /** `iterate`: calls `f` on every object once, in insertion order. */
    method Iterate<R>(f: T -> R) returns (results: seq<R>)
      ensures |results| == |objects|
      ensures forall i :: 0 <= i < |objects| ==> results[i] == f(objects[i])
    {
      results := [];
      for i := 0 to |objects|
        invariant |results| == i
        invariant forall j :: 0 <= j < i ==> results[j] == f(objects[j])
      {
        results := results + [f(objects[i])];
      }
    }

    /**
     * `intersect`, given each object's ray test outcome in order: keeps the
     * running minimum, replacing it only on a strictly nearer hit, and
     * reports the object found (by position) and the minimum.
     */
    method Intersect(hits: seq<Option<real>>) returns (ret: Option<nat>, mint: Distance)
      requires |hits| == |objects|
      ensures Nearest(hits, ret, mint)
    {
      ret, mint := None, Infinity;
      for i := 0 to |objects|
        invariant Nearest(hits[..i], ret, mint)
      {
        if hits[i].Some? && Finite(hits[i].value).Below(mint) {
          mint := Finite(hits[i].value);
          ret := Some(i);
        }
      }
      assert hits[..|hits|] == hits;
    }
  }

  /** Two hits at the same `t`: the earlier object is reported. */
  method TieGoesToEarliest() returns (ret: Option<nat>, mint: Distance)
    ensures ret == Some(1) && mint == Finite(2.0)
  {
    var a := new Array<nat>();
    a.Add(10);
    a.Add(11);
    a.Add(12);
    ret, mint := a.Intersect([None, Some(2.0), Some(2.0)]);
    NearestUnique([None, Some(2.0), Some(2.0)], ret, mint, Some(1), Finite(2.0));
  }
}
