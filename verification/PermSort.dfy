/** The permutation-tracking selection sort of the game rotation vector. */
module PermSort {
  import opened Numbers

  ghost predicate SortedByMagnitude(s: seq<real>) {
    forall i, j :: 0 <= i < j < |s| ==> Abs(s[i]) >= Abs(s[j])
  }

  ghost predicate Between(x: real, y: real) {
    -y <= x <= y || y <= x <= -y
  }

  /** Sorted means that every later element lies between an earlier one and its negative. */
  lemma SortedMeaning(s: seq<real>)
    ensures SortedByMagnitude(s) <==> forall i, j :: 0 <= i < j < |s| ==> Between(s[j], s[i])
  {
    forall i, j | 0 <= i < j < |s| ensures Between(s[j], s[i]) <==> Abs(s[i]) >= Abs(s[j]) {}
  }

  ghost predicate Distinct(s: seq<nat>) {
    forall i, j :: 0 <= i < j < |s| ==> s[i] != s[j]
  }

  ghost predicate IsPermutation(p: seq<nat>) {
    && Distinct(p)
    && forall i :: 0 <= i < |p| ==> p[i] < |p|
  }

  /** `after` holds at each position `i` what `before` held at position `p[i]`. */
  ghost predicate Rearranged<T(!new)>(before: seq<T>, p: seq<nat>, after: seq<T>)
    requires |before| == |p| == |after| && IsPermutation(p)
  {
    forall i :: 0 <= i < |p| ==> after[i] == before[p[i]]
  }

  /** `k` is the first position of the largest magnitude. */
  ghost predicate FirstLargest(s: seq<real>, k: nat) {
    && k < |s|
    && (forall j :: 0 <= j < |s| ==> Abs(s[j]) <= Abs(s[k]))
    && (forall j :: 0 <= j < k ==> Abs(s[j]) < Abs(s[k]))
  }

  /** The first `n` elements are in their final place. */
  ghost predicate PrefixLargest(s: seq<real>, n: nat) {
    forall i, j :: 0 <= i < n && i < j < |s| ==> Abs(s[i]) >= Abs(s[j])
  }

  /** How many elements of `s` are smaller than `x`. */
  ghost function Below(s: seq<nat>, x: nat): nat {
    if s == [] then 0 else (if s[0] < x then 1 else 0) + Below(s[1..], x)
  }

  /** The number of pairs of `s` that stand in the wrong order. */
  ghost function Inversions(s: seq<nat>): nat {
    if s == [] then 0 else Below(s[1..], s[0]) + Inversions(s[1..])
  }

  /** The sign of a permutation, by the parity of its inversions. */
  ghost function Sign(p: seq<nat>): int {
    if Inversions(p) % 2 == 0 then 1 else -1
  }

  lemma {:induction false} BelowConcat(s: seq<nat>, t: seq<nat>, x: nat)
    ensures Below(s + t, x) == Below(s, x) + Below(t, x)
  {
    if s == [] {
      assert s + t == t;
    } else {
      assert (s + t)[1..] == s[1..] + t;
      BelowConcat(s[1..], t, x);
    }
  }

  lemma InversionsCons(x: nat, s: seq<nat>)
    ensures Inversions([x] + s) == Below(s, x) + Inversions(s)
  {
    assert ([x] + s)[1..] == s;
  }

  lemma BelowPair(x: nat, y: nat, v: seq<nat>, z: nat)
    ensures Below([x, y] + v, z) == (if x < z then 1 else 0) + (if y < z then 1 else 0) + Below(v, z)
  {
    assert ([x, y] + v)[1..] == [y] + v && ([y] + v)[1..] == v;
  }

  lemma InversionsPair(x: nat, y: nat, v: seq<nat>)
    ensures Inversions([x, y] + v) == (if y < x then 1 else 0) + Below(v, x) + Below(v, y) + Inversions(v)
  {
    InversionsCons(y, v);
    InversionsCons(x, [y] + v);
    assert [x] + ([y] + v) == [x, y] + v && ([y] + v)[1..] == v;
  }

  /** Exchanging two neighbours changes the number of inversions by one. */
  lemma {:induction false} AdjacentSwap(u: seq<nat>, x: nat, y: nat, v: seq<nat>)
    requires x != y
    ensures Inversions(u + ([x, y] + v)) % 2 != Inversions(u + ([y, x] + v)) % 2
  {
    hide Inversions;
    hide Below;
    if u == [] {
      InversionsPair(x, y, v);
      InversionsPair(y, x, v);
      assert u + ([x, y] + v) == [x, y] + v && u + ([y, x] + v) == [y, x] + v;
    } else {
      var z, u' := u[0], u[1..];
      AdjacentSwap(u', x, y, v);
      BelowConcat(u', [x, y] + v, z);
      BelowConcat(u', [y, x] + v, z);
      BelowPair(x, y, v, z);
      BelowPair(y, x, v, z);
      InversionsCons(z, u' + ([x, y] + v));
      InversionsCons(z, u' + ([y, x] + v));
      assert u + ([x, y] + v) == [z] + (u' + ([x, y] + v)) && u + ([y, x] + v) == [z] + (u' + ([y, x] + v));
    }
  }

  /** Exchanging two elements, however far apart, flips the parity. */
  lemma {:induction false} DistantSwap(u: seq<nat>, x: nat, m: seq<nat>, y: nat, v: seq<nat>)
    requires x != y && x !in m && y !in m
    ensures Inversions(u + [x] + m + [y] + v) % 2 != Inversions(u + [y] + m + [x] + v) % 2
    decreases |m|
  {
    hide Inversions;
    if m == [] {
      assert u + [x] + m + [y] + v == u + ([x, y] + v) && u + [y] + m + [x] + v == u + ([y, x] + v);
      AdjacentSwap(u, x, y, v);
    } else {
      var z, m' := m[0], m[1..];
      AdjacentSwap(u, x, z, m' + [y] + v);
      DistantSwap(u + [z], x, m', y, v);
      AdjacentSwap(u, z, y, m' + [x] + v);
      assert m == [z] + m';
      assert u + [x] + m + [y] + v == u + ([x, z] + (m' + [y] + v));
      assert u + [z] + [x] + m' + [y] + v == u + ([z, x] + (m' + [y] + v));
      assert u + [z] + [y] + m' + [x] + v == u + ([z, y] + (m' + [x] + v));
      assert u + [y] + m + [x] + v == u + ([y, z] + (m' + [x] + v));
    }
  }

  ghost function Swapped<T>(s: seq<T>, i: nat, k: nat): seq<T>
    requires i < |s| && k < |s|
  {
    s[i := s[k]][k := s[i]]
  }

  /** One non-trivial swap of the sort flips the sign of the permutation. */
  lemma SwapFlipsSign(p: seq<nat>, i: nat, k: nat)
    requires Distinct(p) && i < k < |p|
    ensures Distinct(Swapped(p, i, k))
    ensures Sign(Swapped(p, i, k)) == -Sign(p)
  {
    var u, m, v := p[..i], p[i + 1..k], p[k + 1..];
    assert p == u + [p[i]] + m + [p[k]] + v;
    assert Swapped(p, i, k) == u + [p[k]] + m + [p[i]] + v;
    DistantSwap(u, p[i], m, p[k], v);
  }

  /** An increasing sequence has no inversions, so the identity permutation has sign 1. */
  lemma {:induction false} IncreasingHasNoInversions(s: seq<nat>)
    requires forall i, j :: 0 <= i < j < |s| ==> s[i] < s[j]
    ensures Inversions(s) == 0
  {
    if s != [] {
      NoneBelow(s[1..], s[0]);
      IncreasingHasNoInversions(s[1..]);
    }
  }

  lemma {:induction false} NoneBelow(s: seq<nat>, x: nat)
    requires forall i :: 0 <= i < |s| ==> x <= s[i]
    ensures Below(s, x) == 0
  {
    if s != [] {
      NoneBelow(s[1..], x);
    }
  }

  lemma PlaceLargest(s: seq<real>, i: nat, k: nat)
    requires i <= k < |s| && PrefixLargest(s, i)
    requires forall j :: i <= j < |s| ==> Abs(s[j]) <= Abs(s[k])
    ensures PrefixLargest(Swapped(s, i, k), i + 1)
  {
    var t := Swapped(s, i, k);
    forall m, n | 0 <= m < i + 1 && m < n < |t| ensures Abs(t[m]) >= Abs(t[n]) {
      assert t[n] == s[n] || t[n] == s[i] || t[n] == s[k];
    }
  }

  /** What the sort keeps: `a` rearranges `original` by `p`, `i` places are final, `swaps` counts. */
  ghost predicate Sorting(original: seq<real>, p: seq<nat>, a: seq<real>, i: nat, swaps: nat) {
    && |original| == |p| == |a|
    && i <= |a|
    && IsPermutation(p)
    && Rearranged(original, p, a)
    && PrefixLargest(a, i)
    && Sign(p) == (if swaps % 2 == 1 then -1 else 1)
    && (if i == 0 then a == original && forall m :: 0 <= m < |p| ==> p[m] == m
        else FirstLargest(original, p[0]))
  }

  lemma SortingStep(original: seq<real>, p: seq<nat>, a: seq<real>, i: nat, k: nat, swaps: nat)
    requires Sorting(original, p, a, i, swaps)
    requires i <= k < |a|
    requires forall j :: i <= j < |a| ==> Abs(a[j]) <= Abs(a[k])
    requires forall j :: i <= j < k ==> Abs(a[j]) < Abs(a[k])
    ensures Sorting(original, Swapped(p, i, k), Swapped(a, i, k), i + 1,
                    swaps + if i == k then 0 else 1)
  {
    PlaceLargest(a, i, k);
    if i == k {
      assert Swapped(p, i, k) == p;
    } else {
      SwapFlipsSign(p, i, k);
    }
  }

  lemma SortingStart(s: seq<real>, p: seq<nat>)
    requires |p| == |s| && forall m :: 0 <= m < |p| ==> p[m] == m
    ensures Sorting(s, p, s, 0, 0)
  {
    IncreasingHasNoInversions(p);
  }

  lemma SortingEnd(original: seq<real>, p: seq<nat>, a: seq<real>, swaps: nat)
    requires Sorting(original, p, a, |a|, swaps)
    ensures SortedByMagnitude(a)
    ensures |original| == |p| == |a| && IsPermutation(p) && Rearranged(original, p, a)
    ensures a != [] ==> FirstLargest(original, p[0])
    ensures Sign(p) == if swaps % 2 == 1 then -1 else 1
  {}

  method PermSort(p: array<nat>, a: array<real>) returns (sign: int)
    requires p.Length == a.Length
    modifies p, a
    ensures SortedByMagnitude(a[..])
    ensures IsPermutation(p[..])
    ensures Rearranged(old(a[..]), p[..], a[..])
    ensures a.Length != 0 ==> FirstLargest(old(a[..]), p[0])
    ensures sign == Sign(p[..])
  {
    hide Sorting;
    hide SortedByMagnitude;
    hide IsPermutation;
    hide Rearranged;
    hide FirstLargest;
    hide Sign;
    hide Swapped;
    var len := a.Length;
    var swaps := 0;
    Identity(p);
    SortingStart(a[..], p[..]);
    var i := 0;
    while i < len
      invariant 0 <= i <= len
      invariant Sorting(old(a[..]), p[..], a[..], i, swaps)
    {
      var k := SelectLargest(a, i);
      SortingStep(old(a[..]), p[..], a[..], i, k, swaps);
      SwapEntries(a, i, k);
      SwapEntries(p, i, k);
      swaps := swaps + if i == k then 0 else 1;
      i := i + 1;
    }
    SortingEnd(old(a[..]), p[..], a[..], swaps);
    sign := if swaps % 2 == 1 then -1 else 1;
  }

  method Identity(p: array<nat>)
    modifies p
    ensures forall i :: 0 <= i < p.Length ==> p[i] == i
  {
    var i := 0;
    while i < p.Length
      invariant 0 <= i <= p.Length
      invariant forall m :: 0 <= m < i ==> p[m] == m
    {
      p[i] := i;
      i := i + 1;
    }
  }

  method SwapEntries<T>(a: array<T>, i: nat, k: nat)
    requires i < a.Length && k < a.Length
    modifies a
    ensures a[..] == Swapped(old(a[..]), i, k)
  {
    a[i], a[k] := a[k], a[i];
  }

  /** The inner loop of the sort: the first position of largest magnitude at or after `i`. */
  method SelectLargest(a: array<real>, i: nat) returns (k: nat)
    requires i < a.Length
    ensures i <= k < a.Length
    ensures forall j :: i <= j < a.Length ==> Abs(a[j]) <= Abs(a[k])
    ensures forall j :: i <= j < k ==> Abs(a[j]) < Abs(a[k])
  {
    var maxVal := -FLT_MAX;
    k := i;
    var j := i;
    while j < a.Length
      invariant i <= k < a.Length && i <= j <= a.Length && (k < j || k == j == i)
      invariant j == i ==> maxVal < 0.0
      invariant i < j ==> maxVal == Abs(a[k])
      invariant forall m :: i <= m < j ==> Abs(a[m]) <= Abs(a[k])
      invariant forall m :: i <= m < k ==> Abs(a[m]) < Abs(a[k])
    {
      if Abs(a[j]) > maxVal {
        k := j;
        maxVal := Abs(a[j]);
      }
      j := j + 1;
    }
  }
}
