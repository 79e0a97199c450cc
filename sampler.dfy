/** The sampler of src/engine.ts: a Fisher-Yates shuffle of a copy of the
    input and sampling without replacement on top of it.

    The random source is injected: `rng` gives, for each successive call of
    the generator, the index that call selects, and a cursor says how many
    calls have been made so far. */
module Sampler {
  import opened Types
  import opened Seqs

  /** The injected random source. rng(k, m) is the index that draw number k
      selects among m positions, Math.floor(u * m) for the k-th value u of the
      generator; a valid source always selects one of the m positions. */
  ghost predicate IndexSource(rng: (nat, nat) -> nat)
  {
    forall k, m :: 0 < m ==> rng(k, m) < m
  }

  /** Math.floor(u * m) for a draw u in [0, 1): an index below m. */
  function Scale(u: real, m: nat): (j: nat)
    requires 0.0 <= u < 1.0 && 1 <= m
    ensures j < m
  {
    ScaledBelow(u, m);
    (u * m as real).Floor
  }

  lemma {:induction false} ScaledBelow(u: real, m: nat)
    requires 0.0 <= u < 1.0 && 1 <= m
    ensures 0.0 <= u * m as real < m as real
  {
    var r := m as real;
    assert (1.0 - u) * r > 0.0;
  }

  /** A generator whose values lie in [0, 1), as Math.random's do, scaled with
      Math.floor as the shuffle does, is a valid index source. */
  lemma {:induction false} FloorOfUniformIsIndexSource(u: nat -> real)
    requires forall k :: 0.0 <= u(k) < 1.0
    ensures IndexSource((k: nat, m: nat) => if 1 <= m then Scale(u(k), m) else 0)
  {
  }

  /** The swap index each step of the shuffle of n elements takes: the first
      draw, number cursor, serves the last position n-1 and picks among n;
      the position below it is served by the next draw, and so on down to
      position 1. Position 0 takes no draw. */
  function DrawnPicks(rng: (nat, nat) -> nat, cursor: nat, n: nat): (picks: seq<nat>)
    requires IndexSource(rng)
    ensures |picks| == n
    ensures PicksFit(picks, n)
    decreases n
  {
    if n <= 1 then seq(n, _ => 0)
    else DrawnPicks(rng, cursor + 1, n - 1) + [rng(cursor, n)]
  }

  /** Position i of a shuffle of n elements is served by draw cursor + (n-1-i). */
  lemma {:induction false} DrawnPickAt(rng: (nat, nat) -> nat, cursor: nat, n: nat, i: nat)
    requires IndexSource(rng) && 0 < i < n
    ensures DrawnPicks(rng, cursor, n)[i] == rng(cursor + (n - 1 - i), i + 1)
    decreases n
  {
    if i < n - 1 {
      DrawnPickAt(rng, cursor + 1, n - 1, i);
    }
  }

  /** How many draws a shuffle of n elements consumes: one per loop step. */
  function DrawsUsed(n: nat): nat
  {
    if n == 0 then 0 else n - 1
  }

  /** The arrangement the shuffle produces from the draws starting at cursor. */
  function Shuffled<T>(items: seq<T>, rng: (nat, nat) -> nat, cursor: nat): (r: seq<T>)
    requires IndexSource(rng)
    ensures |r| == |items| && multiset(r) == multiset(items)
  {
    SwapDownPermutes(items, DrawnPicks(rng, cursor, |items|), |items|);
    SwapDown(items, DrawnPicks(rng, cursor, |items|), |items|)
  }

  /** The destructuring swap [a[i], a[j]] = [a[j], a[i]]. */
  method Exchange<T>(a: array<T>, i: nat, j: nat)
    requires i < a.Length && j < a.Length
    modifies a
    ensures a[..] == old(a[..])[i := old(a[j])][j := old(a[i])]
  {
    a[i], a[j] := a[j], a[i];
  }

  /** shuffle: copies items into a fresh array and, for i from the last
      index down to 1, swaps position i with Math.floor(rng() * (i + 1)). The
      input is a value and is left as it was; the result is a permutation. */
  method Shuffle<T>(items: seq<T>, rng: (nat, nat) -> nat, cursor: nat) returns (r: seq<T>, next: nat)
    requires IndexSource(rng)
    ensures r == Shuffled(items, rng, cursor)
    ensures |r| == |items| && multiset(r) == multiset(items)
    ensures next == cursor + DrawsUsed(|items|)
  {
    var copy := new T[|items|](k requires 0 <= k < |items| => items[k]);
    assert copy[..] == items;
    ghost var picks := DrawnPicks(rng, cursor, |items|);
    var n := copy.Length;
    var i: int := n - 1;
    next := cursor;
    while i > 0
      invariant 0 <= i + 1 <= n
      invariant n > 0 ==> 0 <= i
      invariant SwapDown(copy[..], picks, i + 1) == SwapDown(items, picks, n)
      invariant next == cursor + (n - 1 - i)
    {
      var j := rng(next, i + 1);
      DrawnPickAt(rng, cursor, n, i);
      ghost var before := copy[..];
      SwapDownStep(before, picks, i, j);
      Exchange(copy, i, j);
      i := i - 1;
      next := next + 1;
    }
    r := copy[..];
  }

  /** sampleOrNull: None exactly when more elements are asked for than there
      are; otherwise the first count elements of the shuffle, which are count
      elements of items drawn without replacement. */
  method SampleOrNull<T>(items: seq<T>, count: nat, rng: (nat, nat) -> nat, cursor: nat) returns (r: Option<seq<T>>, next: nat)
    requires IndexSource(rng)
    ensures r.None? <==> count > |items|
    ensures r.None? ==> next == cursor
    ensures r.Some? ==> |r.value| == count && multiset(r.value) <= multiset(items)
    ensures r.Some? ==> r.value == Shuffled(items, rng, cursor)[..count] && next == cursor + DrawsUsed(|items|)
  {
    if count > |items| {
      return None, cursor;
    }
    var shuffled;
    shuffled, next := Shuffle(items, rng, cursor);
    assert shuffled == shuffled[..count] + shuffled[count..];
    r := Some(shuffled[..count]);
  }

  /** A sample of a sequence without repeated elements has none either. */
  lemma {:induction false} SampleIsDistinct<T>(items: seq<T>, sample: seq<T>)
    requires Distinct(items) && multiset(sample) <= multiset(items)
    ensures Distinct(sample)
  {
    PermutationKeepsDistinct(sample, items);
  }
}
