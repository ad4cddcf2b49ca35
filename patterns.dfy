/** Trying a list of patterns in order, as the URL extractors do. */
module Patterns {
  import opened Wrappers
  import opened Scan

  /** What each pattern's `match` gives on `s`. */
  function Outcomes(patterns: seq<Pattern>, s: string): (r: seq<Option<Match>>)
    ensures |r| == |patterns|
    ensures forall k :: 0 <= k < |patterns| ==> r[k] == Exec(patterns[k], s)
  {
    seq(|patterns|, k requires 0 <= k < |patterns| => Exec(patterns[k], s))
  }

  /** The index and value of the first `Some` in `xs[i..]`. */
  function FirstSomeFrom<T>(xs: seq<Option<T>>, i: nat): (r: Option<(nat, T)>)
    requires i <= |xs|
    ensures r.Some? ==> i <= r.value.0 < |xs| && xs[r.value.0] == Some(r.value.1)
    ensures r.Some? ==> forall k :: i <= k < r.value.0 ==> xs[k].None?
    ensures r.None? ==> forall k :: i <= k < |xs| ==> xs[k].None?
    decreases |xs| - i
  {
    if i == |xs| then None
    else if xs[i].Some? then Some((i, xs[i].value))
    else FirstSomeFrom(xs, i + 1)
  }

  /** The index and match of the first of `patterns` that matches `s`. */
  function FirstMatch(patterns: seq<Pattern>, s: string): (r: Option<(nat, Match)>)
    ensures r.Some? ==> r.value.0 < |patterns| && Exec(patterns[r.value.0], s) == Some(r.value.1)
    ensures r.Some? ==> forall k :: 0 <= k < r.value.0 ==> Exec(patterns[k], s).None?
    ensures r.None? ==> forall k :: 0 <= k < |patterns| ==> Exec(patterns[k], s).None?
  {
    FirstSomeFrom(Outcomes(patterns, s), 0)
  }

  /** The extractors' loop: try each pattern in turn and stop at the first match. */
  method FindFirstMatch(patterns: seq<Pattern>, s: string) returns (r: Option<(nat, Match)>)
    ensures r == FirstMatch(patterns, s)
  {
    ghost var outcomes := Outcomes(patterns, s);
    var i := 0;
    while i < |patterns|
      invariant 0 <= i <= |patterns|
      invariant FirstSomeFrom(outcomes, i) == FirstMatch(patterns, s)
    {
      var m := Exec(patterns[i], s);
      if m.Some? {
        return Some((i, m.value));
      }
      i := i + 1;
    }
    return None;
  }
}
