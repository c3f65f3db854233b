/** List comprehensions with a condition, `[x for x in xs if p(x)]`. */
module Seqs {

  function Filter<T>(xs: seq<T>, p: T -> bool): (r: seq<T>)
    ensures |r| <= |xs|
  {
    if xs == [] then []
    else Filter(xs[..|xs| - 1], p) + (if p(xs[|xs| - 1]) then [xs[|xs| - 1]] else [])
  }

  /** The comprehension keeps exactly the entries that satisfy the condition. */
  lemma {:induction false} FilterMembers<T>(xs: seq<T>, p: T -> bool)
    ensures forall x :: x in Filter(xs, p) <==> x in xs && p(x)
  {
    if xs != [] {
      var init := xs[..|xs| - 1];
      FilterMembers(init, p);
      assert xs == init + [xs[|xs| - 1]];
    }
  }

  /** Every kept entry satisfies the condition. */
  lemma FilterAll<T>(xs: seq<T>, p: T -> bool)
    ensures forall i :: 0 <= i < |Filter(xs, p)| ==> p(Filter(xs, p)[i])
  {
    FilterMembers(xs, p);
    forall i | 0 <= i < |Filter(xs, p)| ensures p(Filter(xs, p)[i]) {
      assert Filter(xs, p)[i] in Filter(xs, p);
    }
  }

  /** When every entry satisfies the condition the list comes back unchanged. */
  lemma {:induction false} FilterKeepsAll<T>(xs: seq<T>, p: T -> bool)
    requires forall i :: 0 <= i < |xs| ==> p(xs[i])
    ensures Filter(xs, p) == xs
  {
    if xs != [] {
      FilterKeepsAll(xs[..|xs| - 1], p);
      assert xs == xs[..|xs| - 1] + [xs[|xs| - 1]];
    }
  }

  /** The first kept entry is the first entry that satisfies the condition. */
  lemma {:induction false} FilterFirst<T>(xs: seq<T>, p: T -> bool)
    requires Filter(xs, p) != []
    ensures exists i :: (0 <= i < |xs| && xs[i] == Filter(xs, p)[0] && p(xs[i])
                         && forall j :: 0 <= j < i ==> !p(xs[j]))
  {
    var init := xs[..|xs| - 1];
    if Filter(init, p) != [] {
      FilterFirst(init, p);
      var i :| 0 <= i < |init| && init[i] == Filter(init, p)[0] && p(init[i])
        && forall j :: 0 <= j < i ==> !p(init[j]);
      assert xs[i] == init[i];
      forall j | 0 <= j < i ensures !p(xs[j]) {
        assert xs[j] == init[j];
      }
    } else {
      FilterMembers(init, p);
      forall j | 0 <= j < |xs| - 1 ensures !p(xs[j]) {
        assert xs[j] == init[j] && init[j] in init;
      }
    }
  }

  /** `[f(x) for x in xs]` */
  function Map<T, U>(xs: seq<T>, f: T -> U): (r: seq<U>)
    ensures |r| == |xs|
    ensures forall i :: 0 <= i < |xs| ==> r[i] == f(xs[i])
  {
    seq(|xs|, i requires 0 <= i < |xs| => f(xs[i]))
  }

  /** Concatenation regroups freely. */
  lemma Assoc<T>(x: seq<T>, y: seq<T>, z: seq<T>)
    ensures x + (y + z) == (x + y) + z
  {
  }

  /** The head and the tail of a concatenation whose left part is not empty. */
  lemma TailOfAppend<T>(l: seq<T>, r: seq<T>)
    requires l != []
    ensures (l + r)[0] == l[0] && (l + r)[1..] == l[1..] + r
  {
  }

  /** Two adjacent slices from the start make one prefix. */
  lemma AdjacentSlices<T>(s: seq<T>, lo: nat, hi: nat)
    requires lo <= hi <= |s|
    ensures s[..lo] + s[lo..hi] == s[..hi]
  {
  }
}
