/** Sorting scores in descending order while carrying their indices along: an
    in-place quicksort over two parallel arrays that keeps the pivot in a hole. */
module RankSort {

  /** A score with the candidate index that travels with it. */
  datatype Entry = Entry(score: real, idx: int)

  /** The two arrays read as one sequence of entries. */
  function Zip(scores: seq<real>, indices: seq<int>): (r: seq<Entry>)
    requires |scores| == |indices|
    ensures |r| == |scores|
    ensures forall i :: 0 <= i < |r| ==> r[i] == Entry(scores[i], indices[i])
  {
    seq(|scores|, i requires 0 <= i < |scores| && |indices| == |scores| => Entry(scores[i], indices[i]))
  }

  ghost predicate Descending(s: seq<Entry>) {
    forall i, j :: 0 <= i < j < |s| ==> s[i].score >= s[j].score
  }

  /** Same entries, as often, within [lo, hi) and untouched outside. */
  ghost predicate Rearranged(old_: seq<Entry>, new_: seq<Entry>, lo: int, hi: int) {
    && 0 <= lo <= hi <= |old_| == |new_|
    && new_[..lo] == old_[..lo] && new_[hi..] == old_[hi..]
    && multiset(new_[lo..hi]) == multiset(old_[lo..hi])
  }

  lemma SliceBag(s: seq<Entry>, lo: int, hi: int)
    requires 0 <= lo <= hi <= |s|
    ensures multiset(s) == multiset(s[..lo]) + multiset(s[lo..hi]) + multiset(s[hi..])
  {
    assert s == s[..lo] + s[lo..hi] + s[hi..];
  }

  /** The whole sequence keeps its entries too. */
  lemma RearrangedBag(a: seq<Entry>, b: seq<Entry>, lo: int, hi: int)
    requires Rearranged(a, b, lo, hi)
    ensures multiset(a) == multiset(b)
  {
    SliceBag(a, lo, hi);
    SliceBag(b, lo, hi);
  }

  /** Rearranging a part rearranges any larger part. */
  lemma RearrangedWider(a: seq<Entry>, b: seq<Entry>, lo: int, hi: int, l: int, h: int)
    requires Rearranged(a, b, lo, hi) && 0 <= l <= lo && hi <= h <= |a|
    ensures Rearranged(a, b, l, h)
  {
    assert a[l..h] == a[..lo][l..] + a[lo..hi] + a[hi..][..h - hi];
    assert b[l..h] == b[..lo][l..] + b[lo..hi] + b[hi..][..h - hi];
    assert b[..l] == b[..lo][..l] && a[..l] == a[..lo][..l];
    assert b[h..] == b[hi..][h - hi..] && a[h..] == a[hi..][h - hi..];
  }

  /** Filling the hole at `i` with `s[j]` and putting the pivot at `j` instead
      is the same collection as putting the pivot at `i`. */
  lemma HoleMoves(s: seq<Entry>, i: nat, j: nat, pivot: Entry)
    requires i < |s| && j < |s|
    ensures multiset(s[i := s[j]][j := pivot]) == multiset(s[i := pivot])
  {
    if i != j {
      var a := s[i := pivot];
      var b := s[i := s[j]][j := pivot];
      assert a == a[i := pivot] && b == a[i := a[j]][j := a[i]];
      SwapBag(a, i, j);
    } else {
      assert s[i := s[j]][j := pivot] == s[i := pivot];
    }
  }

  lemma SwapBag(a: seq<Entry>, i: nat, j: nat)
    requires i < |a| && j < |a|
    ensures multiset(a[i := a[j]][j := a[i]]) == multiset(a)
  {
    var b := a[i := a[j]];
    assert multiset(b) == multiset(a) - multiset{a[i]} + multiset{a[j]};
    assert multiset(b[j := a[i]]) == multiset(b) - multiset{b[j]} + multiset{a[i]};
  }

  lemma BagMember(a: seq<Entry>, b: seq<Entry>, i: nat)
    requires multiset(a) == multiset(b) && i < |a|
    ensures a[i] in b
  {
    assert a[i] in multiset(a);
  }

  /** If the collection and both ends are unchanged, so is the middle. */
  lemma MiddleBag(a: seq<Entry>, b: seq<Entry>, lo: int, hi: int)
    requires 0 <= lo <= hi <= |a| == |b| && multiset(a) == multiset(b)
    requires a[..lo] == b[..lo] && a[hi..] == b[hi..]
    ensures Rearranged(a, b, lo, hi)
  {
    SliceBag(a, lo, hi);
    SliceBag(b, lo, hi);
    assert multiset(a[lo..hi]) == multiset(a) - multiset(a[..lo]) - multiset(a[hi..]);
    assert multiset(b[lo..hi]) == multiset(b) - multiset(b[..lo]) - multiset(b[hi..]);
  }

  ghost predicate AtLeast(s: seq<Entry>, key: real) {
    forall i :: 0 <= i < |s| ==> s[i].score >= key
  }

  ghost predicate AtMost(s: seq<Entry>, key: real) {
    forall i :: 0 <= i < |s| ==> s[i].score <= key
  }

  lemma BoundsKept(a: seq<Entry>, b: seq<Entry>, key: real)
    requires multiset(a) == multiset(b)
    ensures AtLeast(a, key) ==> AtLeast(b, key)
    ensures AtMost(a, key) ==> AtMost(b, key)
  {
    forall i | 0 <= i < |b|
      ensures b[i] in a
    {
      BagMember(b, a, i);
    }
  }

  /** input[dst] = input[src]; indices[dst] = indices[src]. */
  method CopyEntry(input: array<real>, indices: array<int>, dst: int, src: int)
    requires 0 <= dst < input.Length == indices.Length && 0 <= src < input.Length
    modifies input, indices
    ensures Zip(input[..], indices[..]) ==
            old(Zip(input[..], indices[..]))[dst := old(Zip(input[..], indices[..]))[src]]
  {
    input[dst] := input[src];
    indices[dst] := indices[src];
  }

  /** The scan from the right: stops at the hole or at a score above the pivot. */
  method ScanDown(input: array<real>, low: int, start: int, key: real) returns (high: int)
    requires 0 <= low <= start < input.Length
    ensures low <= high <= start
    ensures forall k :: high < k <= start ==> input[k] <= key
    ensures low < high ==> input[high] > key
  {
    high := start;
    while low < high && input[high] <= key
      invariant low <= high <= start
      invariant forall k :: high < k <= start ==> input[k] <= key
    {
      high := high - 1;
    }
  }

  /** The scan from the left: stops at the hole or at a score below the pivot. */
  method ScanUp(input: array<real>, start: int, high: int, key: real) returns (low: int)
    requires 0 <= start <= high < input.Length
    ensures start <= low <= high
    ensures forall k :: start <= k < low ==> input[k] >= key
    ensures low < high ==> input[low] < key
  {
    low := start;
    while low < high && input[low] >= key
      invariant start <= low <= high
      invariant forall k :: start <= k < low ==> input[k] >= key
    {
      low := low + 1;
    }
  }

  /** Progress of a partition whose unsorted part is [low, high], one end of it the hole. */
  ghost predicate Parted(z0: seq<Entry>, z: seq<Entry>, left: int, low: int, high: int, right: int, hole: int,
                         pivot: Entry) {
    && |z| == |z0| && 0 <= left <= low <= high <= right < |z| && (hole == low || hole == high)
    && multiset(z[hole := pivot]) == multiset(z0)
    && z[..left] == z0[..left] && z[right + 1..] == z0[right + 1..]
    && (forall k :: left <= k < low ==> z[k].score >= pivot.score)
    && (forall k :: high < k <= right ==> z[k].score <= pivot.score)
  }

  /** Moving the right stop `h` into the hole at the left end. */
  lemma FillLow(z0: seq<Entry>, z: seq<Entry>, left: int, low: int, high: int, right: int, pivot: Entry, h: int)
    requires Parted(z0, z, left, low, high, right, low, pivot) && low <= h <= high
    requires forall k :: h < k <= high ==> z[k].score <= pivot.score
    ensures Parted(z0, z[low := z[h]], left, low, h, right, h, pivot)
  {
    HoleMoves(z, low, h, pivot);
    assert z[low := z[h]][..left] == z[..left] && z[low := z[h]][right + 1..] == z[right + 1..];
  }

  /** Moving the left stop `l` into the hole at the right end. */
  lemma FillHigh(z0: seq<Entry>, z: seq<Entry>, left: int, low: int, high: int, right: int, pivot: Entry, l: int)
    requires Parted(z0, z, left, low, high, right, high, pivot) && low <= l <= high
    requires forall k :: low <= k < l ==> z[k].score >= pivot.score
    ensures Parted(z0, z[high := z[l]], left, l, high, right, l, pivot)
  {
    HoleMoves(z, high, l, pivot);
    assert z[high := z[l]][..left] == z[..left] && z[high := z[l]][right + 1..] == z[right + 1..];
  }

  lemma PartedDone(z0: seq<Entry>, z: seq<Entry>, left: int, low: int, right: int, pivot: Entry)
    requires Parted(z0, z, left, low, low, right, low, pivot)
    ensures var y := z[low := pivot];
      && Rearranged(z0, y, left, right + 1)
      && AtLeast(y[left..low], y[low].score) && AtMost(y[low + 1..right + 1], y[low].score)
  {
    var y := z[low := pivot];
    assert y[..left] == z0[..left] && y[right + 1..] == z0[right + 1..];
    MiddleBag(z0, y, left, right + 1);
  }

  /** Partition [left, right] around input[left]; the hole starts at `left` and
      ends at the pivot's final place. */
  method Partition(input: array<real>, indices: array<int>, left: int, right: int) returns (low: int)
    requires 0 <= left < right < input.Length == indices.Length
    modifies input, indices
    ensures left <= low <= right
    ensures var z := Zip(input[..], indices[..]);
      && Rearranged(old(Zip(input[..], indices[..])), z, left, right + 1)
      && AtLeast(z[left..low], z[low].score) && AtMost(z[low + 1..right + 1], z[low].score)
  {
    ghost var z0 := Zip(input[..], indices[..]);
    var key, keyIndex := input[left], indices[left];
    ghost var pivot := Entry(key, keyIndex);
    low := left;
    var high := right;
    ghost var z := z0;
    assert z0[left := pivot] == z0;
    while low < high
      invariant z == Zip(input[..], indices[..])
      invariant Parted(z0, z, left, low, high, right, low, pivot)
      decreases high - low
    {
      var h := ScanDown(input, low, high, key);
      FillLow(z0, z, left, low, high, right, pivot, h);
      CopyEntry(input, indices, low, h);
      z := z[low := z[h]];
      var l := ScanUp(input, low, h, key);
      FillHigh(z0, z, left, low, h, right, pivot, l);
      CopyEntry(input, indices, h, l);
      z := z[h := z[l]];
      low, high := l, h;
    }
    PartedDone(z0, z, left, low, right, pivot);
    input[low] := key;
    indices[low] := keyIndex;
    assert Zip(input[..], indices[..]) == z[low := pivot];
  }

  lemma SameTail(a: seq<Entry>, b: seq<Entry>, from: nat, i: nat, j: nat)
    requires from <= i <= j <= |a| == |b| && a[from..] == b[from..]
    ensures a[i..j] == b[i..j]
  {
    forall k | i <= k < j
      ensures a[k] == b[k]
    {
      assert a[from..][k - from] == b[from..][k - from];
    }
  }

  lemma SameHead(a: seq<Entry>, b: seq<Entry>, to: nat, i: nat, j: nat)
    requires i <= j <= to <= |a| == |b| && a[..to] == b[..to]
    ensures a[i..j] == b[i..j]
  {
    forall k | i <= k < j
      ensures a[k] == b[k]
    {
      assert a[..to][k] == b[..to][k];
    }
  }

  /** Sorting both sides of a placed pivot sorts the whole stretch. */
  lemma SidesSorted(z1: seq<Entry>, z2: seq<Entry>, z3: seq<Entry>, left: int, low: int, right: int)
    requires 0 <= left <= low <= right < |z1|
    requires AtLeast(z1[left..low], z1[low].score) && AtMost(z1[low + 1..right + 1], z1[low].score)
    requires Rearranged(z1, z2, left, low) && Descending(z2[left..low])
    requires Rearranged(z2, z3, low + 1, right + 1) && Descending(z3[low + 1..right + 1])
    ensures Descending(z3[left..right + 1])
  {
    var key := z1[low].score;
    BoundsKept(z1[left..low], z2[left..low], key);
    assert z1[low] == z1[low..][0] == z2[low..][0] == z2[low];
    SameTail(z1, z2, low, low + 1, right + 1);
    BoundsKept(z2[low + 1..right + 1], z3[low + 1..right + 1], key);
    SameHead(z2, z3, low + 1, left, low);
    assert z3[low] == z3[..low + 1][low] == z2[low];
    var a, b, w := z3[left..low], z3[low + 1..right + 1], z3[left..right + 1];
    assert w == a + [z3[low]] + b;
    forall i, j | 0 <= i < j < |w|
      ensures w[i].score >= w[j].score
    {
      var m := low - left;
      if j < m {
        assert a[i].score >= a[j].score;
      } else if i > m {
        assert b[i - m - 1].score >= b[j - m - 1].score;
      }
    }
  }

  lemma SidesRearranged(z0: seq<Entry>, z1: seq<Entry>, z2: seq<Entry>, z3: seq<Entry>, left: int, low: int, right: int)
    requires 0 <= left <= low <= right < |z0| && Rearranged(z0, z1, left, right + 1)
    requires Rearranged(z1, z2, left, low) && Rearranged(z2, z3, low + 1, right + 1)
    ensures Rearranged(z0, z3, left, right + 1)
  {
    RearrangedWider(z1, z2, left, low, left, right + 1);
    RearrangedWider(z2, z3, low + 1, right + 1, left, right + 1);
  }

  /** Sorts [left, right] by descending score; both arrays move together. */
  method QuickSort(input: array<real>, indices: array<int>, left: int, right: int) returns (low: int)
    requires 0 <= left <= right + 1 <= input.Length == indices.Length
    modifies input, indices
    ensures Rearranged(old(Zip(input[..], indices[..])), Zip(input[..], indices[..]), left, right + 1)
    ensures Descending(Zip(input[..], indices[..])[left..right + 1])
    decreases right - left + 1
  {
    low := left;
    ghost var z0 := Zip(input[..], indices[..]);
    if left < right {
      low := Partition(input, indices, left, right);
      ghost var z1 := Zip(input[..], indices[..]);
      var _ := QuickSort(input, indices, left, low - 1);
      ghost var z2 := Zip(input[..], indices[..]);
      var _ := QuickSort(input, indices, low + 1, right);
      ghost var z3 := Zip(input[..], indices[..]);
      SidesSorted(z1, z2, z3, left, low, right);
      SidesRearranged(z0, z1, z2, z3, left, low, right);
    }
  }

  /** The entries of a fresh candidate list: candidate `i` at place `i`. */
  ghost predicate Fresh(z: seq<Entry>) {
    forall i :: 0 <= i < |z| ==> z[i].idx == i
  }

  /** Sorting a fresh list keeps each score with its candidate, and names every candidate once. */
  lemma SortedKeepsPairs(z0: seq<Entry>, z: seq<Entry>)
    requires Fresh(z0) && Rearranged(z0, z, 0, |z0|)
    ensures forall i :: 0 <= i < |z| ==> 0 <= z[i].idx < |z0| && z[i] == z0[z[i].idx]
    ensures forall i, j :: 0 <= i < j < |z| ==> z[i].idx != z[j].idx
  {
    RearrangedBag(z0, z, 0, |z0|);
    forall i | 0 <= i < |z|
      ensures 0 <= z[i].idx < |z0| && z[i] == z0[z[i].idx]
    {
      BagMember(z, z0, i);
    }
    forall i, j | 0 <= i < j < |z|
      ensures z[i].idx != z[j].idx
    {
      if z[i].idx == z[j].idx {
        Twice(z, i, j);
        FreshOnce(z0, z[i].idx);
        assert false;
      }
    }
  }

  lemma Twice(z: seq<Entry>, i: nat, j: nat)
    requires i < j < |z| && z[i] == z[j]
    ensures multiset(z)[z[i]] >= 2
  {
    assert z == z[..i] + [z[i]] + z[i + 1..j] + [z[j]] + z[j + 1..];
  }

  lemma FreshOnce(z: seq<Entry>, k: nat)
    requires Fresh(z) && k < |z|
    ensures multiset(z)[z[k]] == 1
  {
    assert z == z[..k] + [z[k]] + z[k + 1..];
    assert z[k] !in z[..k] && z[k] !in z[k + 1..];
  }
}
