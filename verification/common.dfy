/**
 Small shared vocabulary: optional values, results, and a first-match
 search over a sequence (the model of a single-row query over a table
 kept in insertion order).
 */
module Common {

  /** A value that may be absent (Python's `None`, SQL's `NULL`). */
  datatype Option<+T> = None | Some(value: T) {

    /** The value, or `default` when absent. */
    function GetOr(default: T): T {
      match this
      case Some(v) => v
      case None => default
    }
  }

  /** Either a value or an error, for operations that raise in the source. */
  datatype Result<+T, +E> = Ok(value: T) | Err(error: E)

  /** SQL `COALESCE(given, current)`: the new value when given, else the old one. */
  function Coalesce<T>(given: Option<T>, current: Option<T>): (r: Option<T>)
    ensures given.Some? ==> r == given
    ensures given.None? ==> r == current
  {
    if given.Some? then given else current
  }

  /** Index of the first element satisfying `p`, if any. */
  function FirstIndex<T>(s: seq<T>, p: T -> bool): (r: Option<nat>)
    ensures r.Some? ==> r.value < |s| && p(s[r.value])
    ensures r.Some? ==> forall j :: 0 <= j < r.value ==> !p(s[j])
    ensures r.None? <==> forall j :: 0 <= j < |s| ==> !p(s[j])
  {
    if |s| == 0 then None
    else if p(s[0]) then Some(0)
    else
      match FirstIndex(s[1..], p)
      case None => None
      case Some(k) => Some(k + 1)
  }

  /** The first match is determined by the predicate on each element alone:
      two sequences that agree element-wise on `p` have the same first match. */
  lemma {:induction false} FirstIndexAgrees<T>(s: seq<T>, s': seq<T>, p: T -> bool, q: T -> bool)
    requires |s| == |s'|
    requires forall j :: 0 <= j < |s| ==> (p(s[j]) <==> q(s'[j]))
    ensures FirstIndex(s, p) == FirstIndex(s', q)
  {
    if |s| > 0 && !p(s[0]) {
      FirstIndexAgrees(s[1..], s'[1..], p, q);
    }
  }
}
