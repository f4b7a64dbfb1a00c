/**
 * Order-preserving selection over sequences. It is the shape of the
 * library's collision query (the sprites of a list that one sprite
 * overlaps, in list order) and of removing sprites from a sprite list.
 */
module Seqs {

  /** The elements of `s` that satisfy `keep`, in their original order. */
  function Filter<T(!new)>(s: seq<T>, keep: T -> bool): (r: seq<T>)
    ensures |r| <= |s|
    decreases |s|
  {
    if s == [] then []
    else (if keep(s[0]) then [s[0]] else []) + Filter(s[1..], keep)
  }

  /** An element is selected exactly when it is in `s` and satisfies `keep`. */
  lemma {:induction false} FilterMembership<T(!new)>(s: seq<T>, keep: T -> bool)
    ensures forall x :: x in Filter(s, keep) <==> x in s && keep(x)
    decreases |s|
  {
    if s != [] {
      FilterMembership(s[1..], keep);
      assert s == [s[0]] + s[1..];
    }
  }

  /** Selecting from a concatenation selects from each part. */
  lemma {:induction false} FilterAppend<T(!new)>(a: seq<T>, b: seq<T>, keep: T -> bool)
    ensures Filter(a + b, keep) == Filter(a, keep) + Filter(b, keep)
    decreases |a|
  {
    if a != [] {
      assert (a + b)[1..] == a[1..] + b;
      FilterAppend(a[1..], b, keep);
    } else {
      assert a + b == b;
    }
  }

  /** Selecting by a predicate that every element satisfies keeps everything. */
  lemma {:induction false} FilterAll<T(!new)>(s: seq<T>, keep: T -> bool)
    requires forall x :: x in s ==> keep(x)
    ensures Filter(s, keep) == s
    decreases |s|
  {
    if s != [] {
      FilterAll(s[1..], keep);
    }
  }

  /**
   * Something is selected exactly when some element satisfies `keep`, and
   * the first element selected is the first element of `s`, in order, that
   * satisfies `keep`.
   */
  lemma {:induction false} FilterFirst<T(!new)>(s: seq<T>, keep: T -> bool)
    ensures |Filter(s, keep)| > 0 <==> exists i :: 0 <= i < |s| && keep(s[i])
    ensures |Filter(s, keep)| > 0 ==>
      exists i :: 0 <= i < |s| && s[i] == Filter(s, keep)[0] && keep(s[i]) &&
        forall j :: 0 <= j < i ==> !keep(s[j])
    decreases |s|
  {
    if s != [] && !keep(s[0]) {
      FilterFirst(s[1..], keep);
      assert Filter(s, keep) == Filter(s[1..], keep);
      if exists i :: 0 <= i < |s| && keep(s[i]) {
        var i :| 0 <= i < |s| && keep(s[i]);
        assert keep(s[1..][i - 1]);
      }
      if |Filter(s, keep)| > 0 {
        var i :| 0 <= i < |s[1..]| && s[1..][i] == Filter(s[1..], keep)[0] && keep(s[1..][i]) &&
          forall j :: 0 <= j < i ==> !keep(s[1..][j]);
        assert forall j :: 0 <= j < i + 1 ==> !keep(s[j]) by {
          forall j | 0 <= j < i + 1 ensures !keep(s[j]) {
            if j > 0 { assert s[j] == s[1..][j - 1]; }
          }
        }
        assert s[i + 1] == Filter(s, keep)[0] && keep(s[i + 1]);
      }
    }
  }

  /**
   * Two selections in a row are one selection by the conjunction: this
   * is what removing the hits of several lasers one after the other does.
   */
  lemma {:induction false} FilterTwice<T(!new)>(s: seq<T>, first: T -> bool, second: T -> bool, both: T -> bool)
    requires forall x :: x in s ==> both(x) == (first(x) && second(x))
    ensures Filter(Filter(s, first), second) == Filter(s, both)
    decreases |s|
  {
    if s != [] {
      var head := if first(s[0]) then [s[0]] else [];
      FilterAppend(head, Filter(s[1..], first), second);
      FilterTwice(s[1..], first, second, both);
    }
  }

  /**
   * Every element is either selected by `keep` or by its complement `drop`,
   * so the two selections share out the whole sequence.
   */
  lemma {:induction false} FilterSplit<T(!new)>(s: seq<T>, keep: T -> bool, drop: T -> bool)
    requires forall x :: x in s ==> drop(x) == !keep(x)
    ensures |Filter(s, keep)| + |Filter(s, drop)| == |s|
    decreases |s|
  {
    if s != [] {
      FilterSplit(s[1..], keep, drop);
    }
  }
}
