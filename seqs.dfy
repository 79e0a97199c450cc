/** Generic sequence algebra shared by the engine and the bank scripts:
    filtering, the first-occurrence index, de-duplication, distinctness,
    and the swap-down loop at the heart of the Fisher-Yates shuffle. */
module Seqs {

  predicate Distinct<T(==)>(s: seq<T>)
  {
    forall i, j :: 0 <= i < j < |s| ==> s[i] != s[j]
  }

  /** The elements of s that satisfy p, in their original order (Array.prototype.filter). */
  function Filter<T>(s: seq<T>, p: T -> bool): (r: seq<T>)
    ensures |r| <= |s|
    ensures forall x :: x in r ==> p(x) && x in s
    ensures multiset(r) <= multiset(s)
    ensures forall x :: x in s ==> multiset(r)[x] == if p(x) then multiset(s)[x] else 0
  {
    if s == [] then []
    else
      var init := Filter(s[..|s| - 1], p);
      var last := s[|s| - 1];
      assert s == s[..|s| - 1] + [last];
      if p(last) then init + [last] else init
  }

  /** Filtering a sequence with one more element at its end. */
  lemma {:induction false} FilterSnoc<T>(s: seq<T>, x: T, p: T -> bool)
    ensures Filter(s + [x], p) == if p(x) then Filter(s, p) + [x] else Filter(s, p)
  {
    assert (s + [x])[..|s|] == s;
  }

  lemma {:induction false} FilterConcat<T>(a: seq<T>, b: seq<T>, p: T -> bool)
    ensures Filter(a + b, p) == Filter(a, p) + Filter(b, p)
  {
    if b == [] {
      assert a + b == a;
    } else {
      var b' := b[..|b| - 1];
      assert (a + b)[..|a + b| - 1] == a + b';
      FilterConcat(a, b', p);
    }
  }

  /** Position of the first occurrence of x in s, or |s| when x does not occur. */
  function FirstIndex<T(==)>(s: seq<T>, x: T): (i: nat)
    ensures i <= |s|
    ensures i < |s| <==> x in s
    ensures i < |s| ==> s[i] == x
    ensures x !in s[..i]
  {
    if s == [] then 0
    else if s[0] == x then 0
    else
      var i := 1 + FirstIndex(s[1..], x);
      assert s[..i] == [s[0]] + s[1..][..i - 1];
      i
  }

  /** A prefix one longer is the prefix with the next element appended. */
  lemma {:induction false} PrefixSnoc<T>(s: seq<T>, n: nat)
    requires n < |s|
    ensures s[..n + 1] == s[..n] + [s[n]]
  {
  }

  /** Indexing into a slice is indexing into the sequence at an offset. */
  lemma {:induction false} SliceIndex<T>(s: seq<T>, a: nat, b: nat, v: nat)
    requires a + v < b <= |s|
    ensures s[a..b][v] == s[a + v]
  {
  }

  /** Cutting a sequence at two points and gluing the pieces back. */
  lemma {:induction false} ThreeParts<T>(s: seq<T>, a: nat, b: nat)
    requires a <= b <= |s|
    ensures s == s[..a] + s[a..b] + s[b..]
  {
  }

  /** The first-occurrence index is unchanged by appending elements. */
  lemma {:induction false} FirstIndexPrefix<T>(s: seq<T>, n: nat, x: T)
    requires n <= |s| && x in s[..n]
    ensures FirstIndex(s, x) == FirstIndex(s[..n], x)
  {
    var i := FirstIndex(s[..n], x);
    assert s[..i] == s[..n][..i];
    assert s[i] == x;
    assert forall m :: 0 <= m < i ==> s[m] != x by {
      forall m | 0 <= m < i ensures s[m] != x { assert s[..i][m] == s[m]; }
    }
    var k := FirstIndex(s, x);
    assert forall m :: 0 <= m < k ==> s[m] != x by {
      forall m | 0 <= m < k ensures s[m] != x { assert s[..k][m] == s[m]; }
    }
  }

  /** s without repeated elements, keeping the first occurrences (Array.from(new Set(s))). */
  function Unique<T(==)>(s: seq<T>): (u: seq<T>)
    ensures forall x :: x in u ==> x in s
    ensures forall x :: x in s ==> x in u
    ensures Distinct(u)
    ensures |u| <= |s|
  {
    if s == [] then []
    else
      var init := s[..|s| - 1];
      var last := s[|s| - 1];
      assert s == init + [last];
      if last in init then Unique(init) else Unique(init) + [last]
  }

  /** De-duplicating one more element: it is appended when it is new. */
  lemma {:induction false} UniqueSnoc<T>(s: seq<T>, x: T)
    ensures Unique(s + [x]) == if x in s then Unique(s) else Unique(s) + [x]
  {
    assert (s + [x])[..|s|] == s;
  }

  /** Unique lists the survivors in the order in which they first occur in s. */
  lemma {:induction false} UniqueInFirstOccurrenceOrder<T>(s: seq<T>)
    ensures forall i, j :: 0 <= i < j < |Unique(s)| ==> FirstIndex(s, Unique(s)[i]) < FirstIndex(s, Unique(s)[j])
  {
    if s != [] {
      var init := s[..|s| - 1];
      var last := s[|s| - 1];
      UniqueInFirstOccurrenceOrder(init);
      var u := Unique(s);
      var ui := Unique(init);
      forall x | x in init ensures FirstIndex(s, x) == FirstIndex(init, x) {
        assert init == s[..|s| - 1];
        FirstIndexPrefix(s, |s| - 1, x);
      }
      if last !in init {
        assert s[..|s| - 1] == init;
        assert FirstIndex(s, last) == |s| - 1 by {
          assert forall m :: 0 <= m < |s| - 1 ==> s[m] != last by {
            forall m | 0 <= m < |s| - 1 ensures s[m] != last { assert init[m] == s[m]; }
          }
        }
        forall i, j | 0 <= i < j < |u| ensures FirstIndex(s, u[i]) < FirstIndex(s, u[j]) {
          if j < |ui| {
            assert u[i] == ui[i] && u[j] == ui[j];
          } else {
            assert u[i] == ui[i] && u[i] in init;
          }
        }
      }
    }
  }

  /** Two occurrences of one value give it a multiplicity of at least two. */
  lemma {:induction false} TwoOccurrences<T>(s: seq<T>, i: nat, j: nat)
    requires i < j < |s| && s[i] == s[j]
    ensures multiset(s)[s[i]] >= 2
  {
    assert s == s[..j] + s[j..];
    assert s[..j][i] == s[i];
    assert s[j..][0] == s[i];
  }

  /** A sequence is distinct exactly when no value occurs in it twice. */
  lemma {:induction false} DistinctCounts<T>(s: seq<T>)
    ensures Distinct(s) <==> forall x :: multiset(s)[x] <= 1
  {
    if !Distinct(s) {
      var i, j :| 0 <= i < j < |s| && s[i] == s[j];
      TwoOccurrences(s, i, j);
    } else if s != [] {
      var init := s[..|s| - 1];
      var last := s[|s| - 1];
      assert s == init + [last];
      assert Distinct(init);
      DistinctCounts(init);
      assert last !in init by {
        assert forall m :: 0 <= m < |init| ==> init[m] != last by {
          forall m | 0 <= m < |init| ensures init[m] != last { assert s[m] == init[m]; }
        }
      }
    }
  }

  /** A sequence with the same elements as a distinct one is itself distinct. */
  lemma {:induction false} PermutationKeepsDistinct<T>(a: seq<T>, b: seq<T>)
    requires multiset(a) <= multiset(b) && Distinct(b)
    ensures Distinct(a)
  {
    DistinctCounts(a);
    DistinctCounts(b);
  }

  function Elements<T>(s: seq<T>): set<T>
  {
    set x | x in s
  }

  /** A sequence has at least as many positions as distinct elements, and exactly as many when it is distinct. */
  lemma {:induction false} ElementsCount<T>(s: seq<T>)
    ensures |Elements(s)| <= |s|
    ensures Distinct(s) ==> |Elements(s)| == |s|
  {
    if s != [] {
      var init := s[..|s| - 1];
      var last := s[|s| - 1];
      assert s == init + [last];
      ElementsCount(init);
      assert Elements(s) == Elements(init) + {last};
      if Distinct(s) {
        assert Distinct(init);
        assert last !in init by {
          assert forall m :: 0 <= m < |init| ==> init[m] != last by {
            forall m | 0 <= m < |init| ensures init[m] != last { assert s[m] == init[m]; }
          }
        }
      }
    }
  }

  /** A distinct sequence whose elements all occur in t is no longer than t. */
  lemma {:induction false} DistinctWithin<T>(s: seq<T>, t: seq<T>)
    requires Distinct(s) && forall x :: x in s ==> x in t
    ensures |s| <= |t|
  {
    ElementsCount(s);
    ElementsCount(t);
    assert Elements(s) <= Elements(t);
    SubsetCard(Elements(s), Elements(t));
  }

  lemma {:induction false} SubsetCard<T>(a: set<T>, b: set<T>)
    requires a <= b
    ensures |a| <= |b|
    decreases |a|
  {
    if a != {} {
      var x :| x in a;
      SubsetCard(a - {x}, b - {x});
    }
  }

  /** Exchange the elements at i and j. */
  function Swap<T>(s: seq<T>, i: nat, j: nat): (r: seq<T>)
    requires i < |s| && j < |s|
    ensures |r| == |s| && r[i] == s[j] && r[j] == s[i]
    ensures forall k :: 0 <= k < |s| && k != i && k != j ==> r[k] == s[k]
    ensures multiset(r) == multiset(s)
  {
    s[i := s[j]][j := s[i]]
  }

  /** The swap indices fit a swap-down over the first m positions: step i pairs i with some j <= i. */
  predicate PicksFit(picks: seq<nat>, m: nat)
  {
    m <= |picks| && forall i :: 0 < i < m ==> picks[i] <= i
  }

  /** The swap-down loop of the Fisher-Yates shuffle, for i := m-1 down to 1: exchange s[i] and s[picks[i]]. */
  function SwapDown<T>(s: seq<T>, picks: seq<nat>, m: nat): (r: seq<T>)
    requires m <= |s| && PicksFit(picks, m)
    ensures |r| == |s|
    decreases m
  {
    if m <= 1 then s
    else
      var j := picks[m - 1];
      SwapDown(s[m - 1 := s[j]][j := s[m - 1]], picks, m - 1)
  }

  /** Unfolding one step of the swap-down. */
  lemma {:induction false} SwapDownStep<T>(s: seq<T>, picks: seq<nat>, i: nat, j: nat)
    requires 0 < i < |s| && PicksFit(picks, i + 1) && j == picks[i]
    ensures SwapDown(s, picks, i + 1) == SwapDown(s[i := s[j]][j := s[i]], picks, i)
  {
  }

  /** Every swap-down is a permutation of its input. */
  lemma {:induction false} SwapDownPermutes<T>(s: seq<T>, picks: seq<nat>, m: nat)
    requires m <= |s| && PicksFit(picks, m)
    ensures multiset(SwapDown(s, picks, m)) == multiset(s)
    decreases m
  {
    if m > 1 {
      var j := picks[m - 1];
      var t := s[m - 1 := s[j]][j := s[m - 1]];
      assert t == Swap(s, m - 1, j);
      SwapDownPermutes(t, picks, m - 1);
    }
  }
}
