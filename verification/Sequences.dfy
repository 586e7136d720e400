/** Facts about sequences that several parts need. */
module Sequences {

  /** `a` is `b` with some entries left out, in the same order. */
  predicate Subsequence<T(==)>(a: seq<T>, b: seq<T>)
    decreases |b|
  {
    a == [] || (b != [] && ((a[0] == b[0] && Subsequence(a[1..], b[1..])) || Subsequence(a, b[1..])))
  }

  lemma {:induction false} SubsequenceTrans<T>(a: seq<T>, b: seq<T>, c: seq<T>)
    requires Subsequence(a, b) && Subsequence(b, c)
    ensures Subsequence(a, c)
    decreases |b| + |c|
  {
    if a != [] {
      if Subsequence(b, c[1..]) {
        SubsequenceTrans(a, b, c[1..]);
      } else if Subsequence(a, b[1..]) {
        SubsequenceTrans(a, b[1..], c[1..]);
      } else {
        SubsequenceTrans(a[1..], b[1..], c[1..]);
      }
    }
  }

  /** Two entries of a subsequence stand in the same order in the whole. */
  lemma {:induction false} Embed<T>(a: seq<T>, b: seq<T>, i: nat, j: nat) returns (m: nat, n: nat)
    requires Subsequence(a, b) && i < j < |a|
    ensures m < n < |b| && b[m] == a[i] && b[n] == a[j]
    decreases |b|
  {
    if Subsequence(a, b[1..]) {
      m, n := Embed(a, b[1..], i, j);
    } else if i > 0 {
      m, n := Embed(a[1..], b[1..], i - 1, j - 1);
    } else {
      m := 0;
      n := Find(a[1..], b[1..], j - 1);
      n := n + 1;
      return;
    }
    m, n := m + 1, n + 1;
  }

  lemma {:induction false} Find<T>(a: seq<T>, b: seq<T>, j: nat) returns (n: nat)
    requires Subsequence(a, b) && j < |a|
    ensures n < |b| && b[n] == a[j]
    decreases |b|
  {
    if Subsequence(a, b[1..]) {
      n := Find(a, b[1..], j);
      n := n + 1;
    } else if j > 0 {
      n := Find(a[1..], b[1..], j - 1);
      n := n + 1;
    } else {
      n := 0;
    }
  }

  lemma Associate<T>(a: seq<T>, b: seq<T>, c: seq<T>)
    ensures (a + b) + c == a + (b + c)
  {
  }

  lemma SameEnding<T>(a: seq<T>, b: seq<T>, c: seq<T>)
    ensures a + b == a + c <==> b == c
  {
    if a + b == a + c {
      assert b == (a + b)[|a|..] == (a + c)[|a|..] == c;
    }
  }
}
