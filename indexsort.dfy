/** `SortSamples`: the index array is filled with the identity and then
    sorted by each index's colour. The order is `<=` on packed colours,
    which `Colour.CompareIsTotalOrder` shows is the order of `CompareSamplesColor`.
    The library `qsort` is not part of this model; an insertion sort by
    adjacent swaps stands in for it, and only what `qsort` promises is
    stated: the result is a permutation, ordered by the comparison. */
module IndexSort {

  /** The colour of sample `v`, or 0 for an index outside the catalog. */
  function KeyOf(key: seq<int>, v: int): int {
    if 0 <= v < |key| then key[v] else 0
  }

  /** Non-decreasing colours along `s`. */
  predicate SortedBy(s: seq<int>, key: seq<int>) {
    forall a, b :: 0 <= a < b < |s| ==> KeyOf(key, s[a]) <= KeyOf(key, s[b])
  }

  /** The indices `0 .. n - 1` in order. */
  function Identity(n: nat): seq<int>
  {
    seq(n, i => i)
  }

  /** A permutation of `0 .. n - 1` names each index in range exactly once. */
  lemma PermutationOfRange(s: seq<int>, n: nat)
    requires multiset(s) == multiset(Identity(n))
    ensures |s| == n
    ensures forall i :: 0 <= i < |s| ==> 0 <= s[i] < n
    ensures forall i, j :: 0 <= i < j < |s| ==> s[i] != s[j]
    ensures forall v :: 0 <= v < n ==> v in s
  {
    assert |s| == |multiset(s)| == |multiset(Identity(n))| == n;
    forall i | 0 <= i < |s|
      ensures 0 <= s[i] < n
    {
      assert s[i] in multiset(Identity(n));
    }
    forall i, j | 0 <= i < j < |s|
      ensures s[i] != s[j]
    {
      IdentityOnce(n, s[i]);
      EqualPairCounts(s, i, j);
    }
    forall v | 0 <= v < n
      ensures v in s
    {
      assert Identity(n)[v] == v;
      assert v in multiset(s);
    }
  }

  /** Two equal entries of `s` count twice in its multiset. */
  lemma EqualPairCounts(s: seq<int>, i: nat, j: nat)
    requires i < j < |s|
    ensures s[i] == s[j] ==> multiset(s)[s[i]] >= 2
  {
    var rest := s[..i] + s[i + 1..];
    assert s == s[..i] + [s[i]] + s[i + 1..];
    assert rest[j - 1] == s[j];
    assert multiset(s) == multiset(rest) + multiset{s[i]};
  }

  /** Each index occurs once in the identity. */
  lemma {:induction false} IdentityOnce(n: nat, v: int)
    ensures multiset(Identity(n))[v] == if 0 <= v < n then 1 else 0
  {
    if n > 0 {
      IdentityOnce(n - 1, v);
      assert Identity(n) == Identity(n - 1) + [n - 1];
    }
  }

  /** The fill loop: `sortedIndices[i] = i` for each committed sample. */
  method FillIdentity(idx: array<int>, count: nat)
    requires count <= idx.Length
    modifies idx
    ensures idx[..count] == Identity(count)
    ensures idx[count..] == old(idx[count..])
  {
    var i := 0;
    while i < count
      invariant 0 <= i <= count
      invariant idx[..i] == Identity(i)
      invariant idx[count..] == old(idx[count..])
    {
      idx[i] := i;
      assert idx[..i + 1] == idx[..i] + [i];
      i := i + 1;
    }
  }

  /** Exchanges two neighbouring entries below `n`. */
  method SwapDown(idx: array<int>, j: nat, n: nat, count: nat)
    requires 0 < j < n <= count <= idx.Length
    modifies idx
    ensures idx[..n] == old(idx[..n])[j - 1 := old(idx[j])][j := old(idx[j - 1])]
    ensures idx[n..] == old(idx[n..])
    ensures multiset(idx[..count]) == multiset(old(idx[..count]))
  {
    ghost var all := idx[..];
    idx[j - 1], idx[j] := idx[j], idx[j - 1];
    SwapSplit(all, idx[..], n, j);
    assert idx[..count] == all[..count][j - 1 := all[j]][j := all[j - 1]];
  }

  /** Midway through the inner loop over `s`: every ordered pair is in
      order except those ending at the moving entry `j`, which still sits
      before all later entries, and its neighbours are in order. */
  predicate Sifting(s: seq<int>, key: seq<int>, j: nat) {
    && j < |s|
    && (forall a, b :: 0 <= a < b < |s| && b != j ==> KeyOf(key, s[a]) <= KeyOf(key, s[b]))
    && (0 < j < |s| - 1 ==> KeyOf(key, s[j - 1]) <= KeyOf(key, s[j + 1]))
  }

  /** The inner loop starts with the new entry last and the rest sorted. */
  lemma SiftStart(s: seq<int>, key: seq<int>)
    requires |s| > 0 && SortedBy(s[..|s| - 1], key)
    ensures Sifting(s, key, |s| - 1)
  {
    forall a, b | 0 <= a < b < |s| && b != |s| - 1
      ensures KeyOf(key, s[a]) <= KeyOf(key, s[b])
    {
      assert s[a] == s[..|s| - 1][a] && s[b] == s[..|s| - 1][b];
    }
  }

  /** Swapping the moving entry with a larger left neighbour moves it one
      step down and keeps the shape. */
  lemma SiftStep(s: seq<int>, key: seq<int>, j: nat)
    requires Sifting(s, key, j) && 0 < j
    requires KeyOf(key, s[j - 1]) > KeyOf(key, s[j])
    ensures Sifting(s[j - 1 := s[j]][j := s[j - 1]], key, j - 1)
  {
    var t := s[j - 1 := s[j]][j := s[j - 1]];
    forall a, b | 0 <= a < b < |t| && b != j - 1
      ensures KeyOf(key, t[a]) <= KeyOf(key, t[b])
    {
      if b == j {
        if a < j - 1 {
          assert KeyOf(key, s[a]) <= KeyOf(key, s[j - 1]);
        }
      } else if a == j - 1 {
        assert KeyOf(key, s[j]) <= KeyOf(key, s[b]);
      } else if a == j {
        assert KeyOf(key, s[j - 1]) <= KeyOf(key, s[b]);
      }
    }
  }

  /** The loop stops once the moving entry is at the front or its left
      neighbour is not larger; then the whole of `s` is sorted. */
  lemma SiftDone(s: seq<int>, key: seq<int>, j: nat)
    requires Sifting(s, key, j)
    requires j == 0 || KeyOf(key, s[j - 1]) <= KeyOf(key, s[j])
    ensures SortedBy(s, key)
  {
    forall a, b | 0 <= a < b < |s|
      ensures KeyOf(key, s[a]) <= KeyOf(key, s[b])
    {
      if b == j && a < j - 1 {
        assert KeyOf(key, s[a]) <= KeyOf(key, s[j - 1]);
      }
    }
  }

  /** A swap of two neighbours before `n`: the prefix of length `n` sees
      the same swap, and the rest is untouched. */
  lemma SwapSplit(all: seq<int>, t: seq<int>, n: nat, j: nat)
    requires 0 < j < n <= |all|
    requires t == all[j - 1 := all[j]][j := all[j - 1]]
    ensures t[n..] == all[n..]
    ensures t[..n] == all[..n][j - 1 := all[j]][j := all[j - 1]]
  {
  }

  /** The inner loop: entry `i` moves down past every larger neighbour,
      so the first `i + 1` entries end up sorted. */
  method SiftDown(idx: array<int>, key: seq<int>, i: nat, count: nat)
    requires i < count <= idx.Length
    requires SortedBy(idx[..i], key)
    modifies idx
    ensures SortedBy(idx[..i + 1], key)
    ensures multiset(idx[..count]) == multiset(old(idx[..count]))
    ensures idx[i + 1..] == old(idx[i + 1..])
  {
    var j := i;
    ghost var s := idx[..i + 1];
    assert idx[..i] == s[..i];
    SiftStart(s, key);
    while j > 0 && KeyOf(key, idx[j - 1]) > KeyOf(key, idx[j])
      invariant 0 <= j <= i
      invariant s == idx[..i + 1] && Sifting(s, key, j)
      invariant multiset(idx[..count]) == multiset(old(idx[..count]))
      invariant idx[i + 1..] == old(idx[i + 1..])
    {
      assert s[j - 1] == idx[j - 1] && s[j] == idx[j];
      SiftStep(s, key, j);
      SwapDown(idx, j, i + 1, count);
      s := s[j - 1 := s[j]][j := s[j - 1]];
      j := j - 1;
    }
    SiftDone(s, key, j);
  }

  /** Sorts the first `count` entries by colour, in place. */
  method SortByKey(idx: array<int>, key: seq<int>, count: nat)
    requires count <= idx.Length
    modifies idx
    ensures SortedBy(idx[..count], key)
    ensures multiset(idx[..count]) == multiset(old(idx[..count]))
    ensures idx[count..] == old(idx[count..])
  {
    var i := 0;
    while i < count
      invariant 0 <= i <= count
      invariant SortedBy(idx[..i], key)
      invariant multiset(idx[..count]) == multiset(old(idx[..count]))
      invariant idx[count..] == old(idx[count..])
    {
      ghost var tail := idx[i + 1..];
      assert idx[count..] == tail[count - (i + 1)..];
      SiftDown(idx, key, i, count);
      assert idx[count..] == tail[count - (i + 1)..];
      i := i + 1;
    }
  }

  /** `SortSamples`: the identity, sorted by colour. The result names every
      committed sample exactly once, in non-decreasing colour. */
  method SortSamples(idx: array<int>, key: seq<int>, count: nat)
    requires count <= idx.Length
    modifies idx
    ensures SortedBy(idx[..count], key)
    ensures multiset(idx[..count]) == multiset(Identity(count))
    ensures idx[count..] == old(idx[count..])
  {
    FillIdentity(idx, count);
    SortByKey(idx, key, count);
  }
}
