/** `Array.prototype.filter` on lists of names: which names stay, and in what order. */
module Sequences {

  /** `r` holds each name of `names` that `keep` accepts, as often as it occurs there, and nothing else. */
  ghost predicate FilteredCopy(r: seq<string>, names: seq<string>, keep: string -> bool) {
    forall x :: multiset(r)[x] == if keep(x) then multiset(names)[x] else 0
  }

  /**
   * `names.filter(keep)`: each name `keep` accepts, as often as it occurs, in
   * input order; no other name (FilterCounts, FilterAppend).
   */
  function Filter(names: seq<string>, keep: string -> bool): (r: seq<string>)
    ensures |r| <= |names|
    ensures forall i :: 0 <= i < |r| ==> keep(r[i])
  {
    if names == [] then []
    else (if keep(names[0]) then [names[0]] else []) + Filter(names[1..], keep)
  }

  /** The filter keeps each accepted name as often as it occurs, and drops every other name. */
  lemma {:induction false} FilterCounts(names: seq<string>, keep: string -> bool)
    ensures FilteredCopy(Filter(names, keep), names, keep)
  {
    if names != [] {
      FilterCounts(names[1..], keep);
      assert names == [names[0]] + names[1..];
    }
  }

  /**
   * The filter keeps the order of its input: filtering a concatenation is
   * concatenating the filtered parts. With FilterKeepsAll and FilterRejectsAll
   * on one-name lists, this fixes the result of Filter on every input.
   */
  lemma {:induction false} FilterAppend(a: seq<string>, b: seq<string>, keep: string -> bool)
    ensures Filter(a + b, keep) == Filter(a, keep) + Filter(b, keep)
  {
    if a != [] {
      var head := if keep(a[0]) then [a[0]] else [];
      FilterAppend(a[1..], b, keep);
      assert a + b == [a[0]] + (a[1..] + b);
      FilterCons(a[0], a[1..] + b, keep);
      FilterCons(a[0], a[1..], keep);
      assert a == [a[0]] + a[1..];
      assert head + (Filter(a[1..], keep) + Filter(b, keep)) == (head + Filter(a[1..], keep)) + Filter(b, keep);
    } else {
      assert a + b == b;
    }
  }

  /** Filtering a list with a first name `x` decides `x` first, then filters the rest. */
  lemma FilterCons(x: string, t: seq<string>, keep: string -> bool)
    ensures Filter([x] + t, keep) == (if keep(x) then [x] else []) + Filter(t, keep)
  {
    assert ([x] + t)[0] == x && ([x] + t)[1..] == t;
  }

  /** A filter that rejects every name keeps none. */
  lemma {:induction false} FilterRejectsAll(names: seq<string>, keep: string -> bool)
    requires forall i :: 0 <= i < |names| ==> !keep(names[i])
    ensures Filter(names, keep) == []
  {
    if names != [] {
      FilterRejectsAll(names[1..], keep);
    }
  }

  /** A filter that accepts every name keeps them all, in order. */
  lemma {:induction false} FilterKeepsAll(names: seq<string>, keep: string -> bool)
    requires forall i :: 0 <= i < |names| ==> keep(names[i])
    ensures Filter(names, keep) == names
  {
    if names != [] {
      FilterKeepsAll(names[1..], keep);
      assert names == [names[0]] + names[1..];
    }
  }
}
