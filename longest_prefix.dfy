/**
 * `next(p for p in sorted_pfx if addr.startswith(p))`: the first prefix of
 * a list that the address starts with. Both scheduler variants rank the
 * continuation table's keys by descending length first, which makes the
 * first match the longest one.
 */
module LongestPrefix {
  import opened Wrappers
  import opened Text

  /** The prefixes are ranked longest first. */
  predicate ByDescendingLength(ps: seq<string>) {
    forall i, j | 0 <= i < j < |ps| :: |ps[j]| <= |ps[i]|
  }

  /** The first prefix at or after index `i` that `s` starts with. */
  function FirstMatchFrom(ps: seq<string>, s: string, i: nat): (r: Option<nat>)
    requires i <= |ps|
    ensures r.None? <==> forall k | i <= k < |ps| :: !StartsWith(s, ps[k])
    ensures r.Some? ==> i <= r.value < |ps| && StartsWith(s, ps[r.value])
    ensures r.Some? ==> forall k | i <= k < r.value :: !StartsWith(s, ps[k])
    decreases |ps| - i
  {
    if i == |ps| then None
    else if StartsWith(s, ps[i]) then Some(i)
    else FirstMatchFrom(ps, s, i + 1)
  }

  /** What `next` yields (`Some`) or where it raises StopIteration (`None`). */
  function FirstMatch(ps: seq<string>, s: string): (r: Option<string>)
    ensures r.None? <==> forall p | p in ps :: !StartsWith(s, p)
    ensures r.Some? ==> r.value in ps && StartsWith(s, r.value)
  {
    match FirstMatchFrom(ps, s, 0)
    case None => None
    case Some(i) => Some(ps[i])
  }

  /** With the prefixes ranked longest first, the first match is a longest matching prefix. */
  lemma FirstMatchIsLongest(ps: seq<string>, s: string)
    requires ByDescendingLength(ps)
    requires FirstMatch(ps, s).Some?
    ensures forall p | p in ps && StartsWith(s, p) :: |p| <= |FirstMatch(ps, s).value|
  {
    var i := FirstMatchFrom(ps, s, 0).value;
    forall p | p in ps && StartsWith(s, p)
      ensures |p| <= |ps[i]|
    {
      var j :| 0 <= j < |ps| && ps[j] == p;
      assert i <= j;
    }
  }
}
