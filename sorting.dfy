/**
 * `Array.prototype.sort` with a comparator. The comparator of the image
 * lister is `localeCompare` with numeric collation, which is not visible to
 * this model: it is a parameter `le`, where `le(a, b)` stands for
 * `a.localeCompare(b, undefined, {numeric: true}) <= 0`, and all that is
 * assumed of it is that it is a total preorder. Such a comparator may rate
 * two different names as equal; the sort is proved stable, as
 * `Array.prototype.sort` is required to be, so names that compare equal keep
 * their input order.
 */
module Sorting {
  import opened Sequences

  /** A comparator that relates every pair in some direction and is transitive. */
  ghost predicate TotalPreorder(le: (string, string) -> bool) {
    && (forall a, b :: le(a, b) || le(b, a))
    && (forall a, b, c :: le(a, b) && le(b, c) ==> le(a, c))
  }

  /** Two strings that compare equal both ways are the same string. */
  ghost predicate Antisymmetric(le: (string, string) -> bool) {
    forall a, b :: le(a, b) && le(b, a) ==> a == b
  }

  /** Every earlier element is at most every later one. */
  ghost predicate Sorted(le: (string, string) -> bool, s: seq<string>) {
    forall i, j :: 0 <= i < j < |s| ==> le(s[i], s[j])
  }

  /** Inserts `x` before the first element it is at most, keeping `s` sorted. */
  function Insert(x: string, s: seq<string>, le: (string, string) -> bool): (r: seq<string>)
    requires TotalPreorder(le) && Sorted(le, s)
    ensures multiset(r) == multiset(s) + multiset{x}
    ensures Sorted(le, r)
  {
    if s == [] then [x]
    else if le(x, s[0]) then [x] + s
    else
      var t := Insert(x, s[1..], le);
      assert s == [s[0]] + s[1..];
      assert forall k :: 0 <= k < |t| ==> le(s[0], t[k]) by {
        forall k | 0 <= k < |t| ensures le(s[0], t[k]) {
          assert t[k] in multiset(t);
          if t[k] != x {
            assert t[k] in multiset(s[1..]);
            var j :| 0 <= j < |s[1..]| && s[1..][j] == t[k];
            assert s[j + 1] == t[k];
          }
        }
      }
      [s[0]] + t
  }

  /** `s.sort(cmp)`: a sorted permutation of `s`. */
  function Sort(s: seq<string>, le: (string, string) -> bool): (r: seq<string>)
    requires TotalPreorder(le)
    ensures multiset(r) == multiset(s)
    ensures Sorted(le, r)
  {
    if s == [] then []
    else
      assert s == [s[0]] + s[1..];
      Insert(s[0], Sort(s[1..], le), le)
  }

  /** The first element of a sorted sequence is at most each of its elements. */
  lemma HeadIsLeast(s: seq<string>, x: string, le: (string, string) -> bool)
    requires TotalPreorder(le) && Sorted(le, s) && x in multiset(s)
    ensures |s| > 0 && le(s[0], x)
  {
  }

  lemma TailMultiset(s: seq<string>)
    requires |s| > 0
    ensures multiset(s[1..]) == multiset(s) - multiset{s[0]}
  {
    assert s == [s[0]] + s[1..];
  }

  /**
   * When the comparator is antisymmetric, there is only one sorted
   * permutation, so any correct sorting algorithm gives the result of Sort.
   */
  lemma {:induction false} SortedPermutationUnique(a: seq<string>, b: seq<string>, le: (string, string) -> bool)
    requires TotalPreorder(le) && Antisymmetric(le)
    requires Sorted(le, a) && Sorted(le, b) && multiset(a) == multiset(b)
    ensures a == b
  {
    if a == [] {
      assert |b| == |multiset(b)| == 0;
    } else {
      assert a[0] in multiset(a);
      HeadIsLeast(b, a[0], le);
      assert b[0] in multiset(b);
      HeadIsLeast(a, b[0], le);
      assert a[0] == b[0];
      TailMultiset(a);
      TailMultiset(b);
      SortedPermutationUnique(a[1..], b[1..], le);
      assert a == [a[0]] + a[1..] && b == [b[0]] + b[1..];
    }
  }

  /** Any function of the input that returns a sorted permutation agrees with Sort. */
  lemma SortIsTheSortedPermutation(s: seq<string>, r: seq<string>, le: (string, string) -> bool)
    requires TotalPreorder(le) && Antisymmetric(le)
    requires Sorted(le, r) && multiset(r) == multiset(s)
    ensures r == Sort(s, le)
  {
    SortedPermutationUnique(r, Sort(s, le), le);
  }

  /** `keep` accepts only names that compare equal to each other. */
  ghost predicate TiesOnly(le: (string, string) -> bool, keep: string -> bool) {
    forall a, b :: keep(a) && keep(b) ==> le(a, b)
  }

  /**
   * Insert places `x` before every name that compares equal to it: among the
   * names of one tie class, `x` comes first and the others keep their order.
   */
  lemma {:induction false} InsertKeepsTies(x: string, s: seq<string>, le: (string, string) -> bool, keep: string -> bool)
    requires TotalPreorder(le) && Sorted(le, s) && TiesOnly(le, keep)
    ensures Filter(Insert(x, s, le), keep) == (if keep(x) then [x] else []) + Filter(s, keep)
  {
    if s == [] {
      FilterCons(x, [], keep);
    } else if le(x, s[0]) {
      FilterCons(x, s, keep);
    } else {
      var t := Insert(x, s[1..], le);
      var first, head := if keep(x) then [x] else [], if keep(s[0]) then [s[0]] else [];
      var rest := Filter(s[1..], keep);
      assert Insert(x, s, le) == [s[0]] + t;
      assert Filter(t, keep) == first + rest by {
        InsertKeepsTies(x, s[1..], le, keep);
      }
      assert Filter([s[0]] + t, keep) == head + (first + rest) by {
        FilterCons(s[0], t, keep);
      }
      assert Filter(s, keep) == head + rest by {
        assert s == [s[0]] + s[1..];
        FilterCons(s[0], s[1..], keep);
      }
      assert first == [] || head == [];
      SwapAroundEmpty(head, first, rest);
    }
  }

  /** Two lists of which one is empty can be put in front of `rest` in either order. */
  lemma SwapAroundEmpty(head: seq<string>, first: seq<string>, rest: seq<string>)
    requires first == [] || head == []
    ensures head + (first + rest) == first + (head + rest)
  {
    if first == [] {
      assert first + rest == rest && first + (head + rest) == head + rest;
    } else {
      assert head + (first + rest) == first + rest && head + rest == rest;
    }
  }

  /**
   * The sort is stable: the names of one tie class appear in the output in
   * the order they had in the input.
   */
  lemma {:induction false} SortIsStable(s: seq<string>, le: (string, string) -> bool, keep: string -> bool)
    requires TotalPreorder(le) && TiesOnly(le, keep)
    ensures Filter(Sort(s, le), keep) == Filter(s, keep)
  {
    if s != [] {
      SortIsStable(s[1..], le, keep);
      InsertKeepsTies(s[0], Sort(s[1..], le), le, keep);
      FilterCons(s[0], s[1..], keep);
      assert s == [s[0]] + s[1..];
    }
  }

  /** For every name `x`, the names equal to `x` under `le` keep their input order. */
  lemma SortKeepsEqualsInOrder(s: seq<string>, le: (string, string) -> bool, x: string)
    requires TotalPreorder(le)
    ensures Filter(Sort(s, le), y => le(x, y) && le(y, x)) == Filter(s, y => le(x, y) && le(y, x))
  {
    var equal := y => le(x, y) && le(y, x);
    assert TiesOnly(le, equal);
    SortIsStable(s, le, equal);
  }
}
