/**
 * Positions in a sequence of flags. Dispatch offers a request to the routes
 * in order; which routes run their action and where dispatch stops are
 * described here over one flag per route.
 */
module Indices {
  import opened Wrappers

  /** The indices below `n` whose flag is set, in increasing order. */
  function Positions(flags: seq<bool>, n: nat): seq<nat>
    requires n <= |flags|
  {
    if n == 0 then [] else Positions(flags, n - 1) + (if flags[n - 1] then [n - 1] else [])
  }

  /** `Positions` holds indices below `n` only, in strictly increasing order. */
  lemma {:induction false} PositionsOrdered(flags: seq<bool>, n: nat)
    requires n <= |flags|
    ensures forall j :: j in Positions(flags, n) ==> j < n
    ensures forall p, q :: 0 <= p < q < |Positions(flags, n)| ==> Positions(flags, n)[p] < Positions(flags, n)[q]
  {
    if n > 0 {
      var earlier := Positions(flags, n - 1);
      PositionsOrdered(flags, n - 1);
      forall p | 0 <= p < |earlier| ensures earlier[p] < n - 1 {
        assert earlier[p] in earlier;
      }
    }
  }

  /** An index below `n` is among the positions exactly when its flag is set. */
  lemma {:induction false} PositionsExactly(flags: seq<bool>, n: nat)
    requires n <= |flags|
    ensures forall j :: 0 <= j < n ==> (j in Positions(flags, n) <==> flags[j])
  {
    if n > 0 {
      PositionsOrdered(flags, n - 1);
      PositionsExactly(flags, n - 1);
    }
  }

  /** The first index at or after `from` whose flag is set, if any. */
  function FirstSet(flags: seq<bool>, from: nat): (r: Option<nat>)
    requires from <= |flags|
    ensures r.Some? ==> from <= r.value < |flags|
    decreases |flags| - from
  {
    if from == |flags| then None
    else if flags[from] then Some(from)
    else FirstSet(flags, from + 1)
  }

  /**
   * `FirstSet` finds the earliest set flag: the one it names is set and none
   * before it is; when it names none, no flag from `from` on is set.
   */
  lemma {:induction false} FirstSetIsFirst(flags: seq<bool>, from: nat)
    requires from <= |flags|
    ensures match FirstSet(flags, from)
      case Some(k) => flags[k] && forall j :: from <= j < k ==> !flags[j]
      case None => forall j :: from <= j < |flags| ==> !flags[j]
    decreases |flags| - from
  {
    if from < |flags| && !flags[from] {
      FirstSetIsFirst(flags, from + 1);
    }
  }

  /**
   * When flag `a` of `stop` is set, the first set flag of `stop` is at or
   * before `a`, and every position of `run` up to that flag is at most `a`.
   */
  lemma FirstSetBoundsPositions(stop: seq<bool>, run: seq<bool>, a: nat)
    requires |run| == |stop| && a < |stop| && stop[a]
    ensures FirstSet(stop, 0).Some? && FirstSet(stop, 0).value <= a
    ensures var before := Positions(run, FirstSet(stop, 0).value + 1);
              forall p :: 0 <= p < |before| ==> before[p] <= a
  {
    FirstSetIsFirst(stop, 0);
    var k := FirstSet(stop, 0).value;
    var before := Positions(run, k + 1);
    PositionsOrdered(run, k + 1);
    forall p | 0 <= p < |before| ensures before[p] <= a {
      assert before[p] in before;
    }
  }
}
