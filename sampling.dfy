/**
 * `random.sample` and `random.choice` as nondeterministic choices: only
 * the size, membership and distinctness of what they pick are modelled.
 */
module Sampling {
  import opened Wrappers

  /** `xs[i] == pop[positions[i]]` at pairwise distinct positions. */
  ghost predicate DrawnFrom<T>(xs: seq<T>, positions: seq<nat>, pop: seq<T>)
  {
    && |positions| == |xs|
    && (forall i :: 0 <= i < |xs| ==> positions[i] < |pop| && xs[i] == pop[positions[i]])
    && (forall i, j :: 0 <= i < j < |xs| ==> positions[i] != positions[j])
  }

  /** The positions `0 .. n-1` of a list of length `n`. */
  function Positions(n: nat): (r: set<nat>)
    ensures |r| == n
    ensures forall i: nat :: i in r <==> i < n
  {
    if n == 0 then {} else Positions(n - 1) + {n - 1}
  }

  /**
   * `random.sample(pop, k)`: `k` entries from distinct positions; raises
   * ValueError when `k` is negative or larger than the population.
   */
  method Sample<T>(pop: seq<T>, k: int) returns (r: Result<seq<T>>, ghost positions: seq<nat>)
    ensures (k < 0 || k > |pop|) <==> r.Failure?
    ensures r.Success? ==> |r.value| == k && DrawnFrom(r.value, positions, pop)
  {
    positions := [];
    if k < 0 || k > |pop| {
      return Failure("ValueError: Sample larger than population or is negative"), positions;
    }
    var picked: seq<T> := [];
    var unused := Positions(|pop|);
    while |picked| < k
      invariant |picked| <= k
      invariant DrawnFrom(picked, positions, pop)
      invariant forall i: nat :: i in unused <==> i < |pop| && i !in positions
      invariant |unused| == |pop| - |picked|
    {
      assert unused != {};
      var p :| p in unused;
      picked := picked + [pop[p]];
      positions := positions + [p];
      unused := unused - {p};
    }
    r := Success(picked);
  }

  /** `random.choice(pop)`: some entry; raises IndexError on an empty list. */
  method Choice<T>(pop: seq<T>) returns (r: Result<T>)
    ensures pop == [] <==> r.Failure?
    ensures r.Success? ==> r.value in pop
  {
    if pop == [] {
      return Failure("IndexError: Cannot choose from an empty sequence");
    }
    var i :| 0 <= i < |pop|;
    r := Success(pop[i]);
  }
}
