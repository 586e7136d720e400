/** Suppressing clashing candidates in a ranked list: the tombstone pass of the
    source, the textbook greedy selection, and why they agree. */
module Suppression {
  import opened Sequences

  /** Whether the first candidate, being kept, rules out the second. */
  type Clash = (int, int) -> bool

  /** Tombstones (-1) written by the candidate at rank `i` on the ranks i+1 .. j-1. */
  function Knocked(order: seq<int>, i: nat, j: int, clash: Clash): (r: seq<int>)
    requires i < j <= |order|
    ensures |r| == |order| && r[..i + 1] == order[..i + 1] && r[j..] == order[j..]
    ensures forall k :: i < k < j ==> r[k] == if order[k] != -1 && clash(order[i], order[k]) then -1 else order[k]
    decreases j
  {
    if j == i + 1 then order
    else
      var r := Knocked(order, i, j - 1, clash);
      if order[j - 1] != -1 && clash(order[i], order[j - 1]) then r[j - 1 := -1] else r
  }

  /** The list after the candidates at ranks i, i+1, ... have had their turn;
      a rank takes its turn when its entry of classIds is `filterId`. */
  function Pass(order: seq<int>, i: nat, classIds: seq<int>, filterId: int, clash: Clash): (r: seq<int>)
    requires i <= |order| <= |classIds|
    ensures |r| == |order| && r[..i] == order[..i]
    decreases |order| - i
  {
    if i == |order| then order
    else if order[i] == -1 || classIds[i] != filterId then Pass(order, i + 1, classIds, filterId, clash)
    else Pass(Knocked(order, i, |order|, clash), i + 1, classIds, filterId, clash)
  }

  /** The candidates not suppressed, in rank order. */
  function Kept(order: seq<int>): (r: seq<int>)
    ensures forall x :: x in r <==> x in order && x != -1
  {
    if order == [] then []
    else if order[0] == -1 then Kept(order[1..])
    else [order[0]] + Kept(order[1..])
  }

  /** The candidates of `cands` that `n` does not rule out. */
  function Clear(cands: seq<int>, n: int, clash: Clash): (r: seq<int>)
    ensures |r| <= |cands|
    ensures forall x :: x in r <==> x in cands && !clash(n, x)
  {
    if cands == [] then []
    else if clash(n, cands[0]) then Clear(cands[1..], n, clash)
    else [cands[0]] + Clear(cands[1..], n, clash)
  }

  /** Textbook greedy suppression: keep the best, drop what it rules out, repeat. */
  function Greedy(cands: seq<int>, clash: Clash): (r: seq<int>)
    ensures forall x :: x in r ==> x in cands
    decreases |cands|
  {
    if cands == [] then [] else [cands[0]] + Greedy(Clear(cands[1..], cands[0], clash), clash)
  }

  // ---- the pass is the greedy selection ----

  lemma {:induction false} KeptAppend(a: seq<int>, b: seq<int>)
    ensures Kept(a + b) == Kept(a) + Kept(b)
  {
    if a == [] {
      assert a + b == b;
    } else {
      assert (a + b)[1..] == a[1..] + b;
      KeptAppend(a[1..], b);
    }
  }

  /** Tombstoning what `n` rules out and collecting the rest is collecting and
      then dropping what `n` rules out. */
  lemma {:induction false} KnockedKept(before: seq<int>, after: seq<int>, n: int, clash: Clash)
    requires |after| == |before|
    requires forall k :: 0 <= k < |before| ==>
               after[k] == if before[k] != -1 && clash(n, before[k]) then -1 else before[k]
    ensures Kept(after) == Clear(Kept(before), n, clash)
  {
    if before != [] {
      KnockedKept(before[1..], after[1..], n, clash);
      if before[0] != -1 {
        assert Kept(before)[1..] == Kept(before[1..]);
      }
    }
  }

  ghost predicate OneClass(classIds: seq<int>, filterId: int) {
    forall i :: 0 <= i < |classIds| ==> classIds[i] == filterId
  }

  lemma KeptHead(x: int, rest: seq<int>)
    ensures Kept([x] + rest) == if x == -1 then Kept(rest) else [x] + Kept(rest)
  {
    assert ([x] + rest)[1..] == rest;
  }

  lemma GreedyHead(x: int, rest: seq<int>, clash: Clash)
    ensures Greedy([x] + rest, clash) == [x] + Greedy(Clear(rest, x, clash), clash)
  {
    assert ([x] + rest)[1..] == rest;
  }

  /** One turn of the pass is one turn of the greedy selection. */
  lemma TurnIsGreedy(done: seq<int>, x: int, rest: seq<int>, next: seq<int>, clash: Clash)
    requires x == -1 ==> next == rest
    requires x != -1 ==> Kept(next) == Clear(Kept(rest), x, clash)
    ensures Kept(done + [x]) + Greedy(Kept(next), clash) == Kept(done) + Greedy(Kept([x] + rest), clash)
  {
    KeptAppend(done, [x]);
    KeptHead(x, rest);
    var k, g := Kept(done), Greedy(Kept(next), clash);
    if x == -1 {
      KeptAlone(x);
      assert k + [] == k;
    } else {
      KeptAlone(x);
      GreedyHead(x, Kept(rest), clash);
      Associate(k, [x], g);
    }
  }

  lemma KeptAlone(x: int)
    ensures Kept([x]) == if x == -1 then [] else [x]
  {
    KeptHead(x, []);
    assert [x] + [] == [x];
  }

  lemma KeptSnoc(order: seq<int>, x: int)
    ensures Kept(order + [x]) == if x == -1 then Kept(order) else Kept(order) + [x]
  {
    KeptAppend(order, [x]);
    KeptAlone(x);
  }

  lemma SplitAt(order: seq<int>, i: nat)
    requires i < |order|
    ensures order[..i + 1] == order[..i] + [order[i]] && order[i..] == [order[i]] + order[i + 1..]
  {
  }

  /** What the turn of a candidate that still stands leaves behind it. */
  lemma TurnKnocks(order: seq<int>, i: nat, clash: Clash)
    requires i < |order| && order[i] != -1
    ensures var next := Knocked(order, i, |order|, clash);
      && next[..i + 1] == order[..i + 1]
      && Kept(next[i + 1..]) == Clear(Kept(order[i + 1..]), order[i], clash)
  {
    var next := Knocked(order, i, |order|, clash);
    KnockedKept(order[i + 1..], next[i + 1..], order[i], clash);
  }

  /** With one class, the tombstone pass from rank `i` on leaves the kept part
      and the greedy selection of the rest. */
  lemma {:induction false} PassIsGreedy(order: seq<int>, i: nat, classIds: seq<int>, filterId: int, clash: Clash)
    requires i <= |order| <= |classIds| && OneClass(classIds, filterId)
    ensures Kept(Pass(order, i, classIds, filterId, clash)) == Kept(order[..i]) + Greedy(Kept(order[i..]), clash)
    decreases |order| - i
  {
    if i == |order| {
      assert order[..i] == order;
    } else {
      SplitAt(order, i);
      var next := order;
      if order[i] != -1 {
        TurnKnocks(order, i, clash);
        next := Knocked(order, i, |order|, clash);
      }
      PassIsGreedy(next, i + 1, classIds, filterId, clash);
      TurnIsGreedy(order[..i], order[i], order[i + 1..], next[i + 1..], clash);
    }
  }

  lemma {:induction false} NothingGone(order: seq<int>)
    requires -1 !in order
    ensures Kept(order) == order
  {
    if order != [] {
      NothingGone(order[1..]);
    }
  }

  /** The tombstone pass over a full ranked list equals greedy suppression. */
  lemma LoopIsGreedy(order: seq<int>, classIds: seq<int>, filterId: int, clash: Clash)
    requires -1 !in order && |order| <= |classIds| && OneClass(classIds, filterId)
    ensures Kept(Pass(order, 0, classIds, filterId, clash)) == Greedy(order, clash)
  {
    NothingGone(order);
    assert order[0..] == order && order[..0] == [];
    PassIsGreedy(order, 0, classIds, filterId, clash);
  }

  // ---- what greedy suppression means ----

  ghost predicate DistinctInts(s: seq<int>) {
    forall i, j :: 0 <= i < j < |s| ==> s[i] != s[j]
  }

  lemma {:induction false} ClearAppend(a: seq<int>, b: seq<int>, n: int, clash: Clash)
    ensures Clear(a + b, n, clash) == Clear(a, n, clash) + Clear(b, n, clash)
  {
    if a == [] {
      assert a + b == b;
    } else {
      assert (a + b)[1..] == a[1..] + b;
      ClearAppend(a[1..], b, n, clash);
    }
  }

  lemma {:induction false} ClearDistinct(cands: seq<int>, n: int, clash: Clash)
    requires DistinctInts(cands)
    ensures DistinctInts(Clear(cands, n, clash))
  {
    if cands != [] {
      ClearDistinct(cands[1..], n, clash);
      assert cands[0] !in cands[1..];
    }
  }

  /** Nothing among `better` that is kept rules out `c`. */
  ghost predicate Unopposed(better: seq<int>, kept: seq<int>, c: int, clash: Clash) {
    forall x :: x in better && x in kept ==> !clash(x, c)
  }

  /** Places before `c` after the head has had its turn. */
  lemma ClearPrefix(tail: seq<int>, m: nat, n: int, clash: Clash) returns (k: nat)
    requires m < |tail| && !clash(n, tail[m])
    ensures k < |Clear(tail, n, clash)| && Clear(tail, n, clash)[k] == tail[m]
    ensures Clear(tail, n, clash)[..k] == Clear(tail[..m], n, clash)
  {
    assert tail == tail[..m] + ([tail[m]] + tail[m + 1..]);
    ClearAppend(tail[..m], [tail[m]] + tail[m + 1..], n, clash);
    k := |Clear(tail[..m], n, clash)|;
  }

  lemma UnopposedHead(head: int, tail: seq<int>, rest: seq<int>, c: int, clash: Clash)
    ensures Unopposed([head] + tail, [head] + rest, c, clash) <==> !clash(head, c) && Unopposed(tail, rest, c, clash)
  {
    assert head in [head] + tail && head in [head] + rest;
  }

  lemma UnopposedClear(better: seq<int>, kept: seq<int>, head: int, c: int, clash: Clash)
    requires forall x :: x in kept ==> !clash(head, x)
    ensures Unopposed(Clear(better, head, clash), kept, c, clash) <==> Unopposed(better, kept, c, clash)
  {
  }

  /** A candidate behind the head survives the head's turn and the rest, or was ruled out. */
  lemma BehindHead(head: int, tail: seq<int>, m: nat, clash: Clash)
    requires m < |tail| && head !in tail
    ensures var rest := Greedy(Clear(tail, head, clash), clash);
      && Greedy([head] + tail, clash) == [head] + rest
      && (tail[m] in Greedy([head] + tail, clash) <==> tail[m] in rest)
      && (clash(head, tail[m]) ==> tail[m] !in rest)
  {
    GreedyHead(head, tail, clash);
  }

  /** A candidate survives exactly when no better-ranked survivor rules it out. */
  lemma {:induction false} SurvivesIff(cands: seq<int>, j: nat, clash: Clash)
    requires DistinctInts(cands) && j < |cands|
    ensures cands[j] in Greedy(cands, clash) <==> Unopposed(cands[..j], Greedy(cands, clash), cands[j], clash)
    decreases |cands|, 1
  {
    if j > 0 {
      var head, tail, c := cands[0], cands[1..], cands[j];
      assert cands == [head] + tail && cands[..j] == [head] + tail[..j - 1];
      BehindHead(head, tail, j - 1, clash);
      UnopposedHead(head, tail[..j - 1], Greedy(Clear(tail, head, clash), clash), c, clash);
      if !clash(head, c) {
        ClearedSurvivesIff(tail, j - 1, head, clash);
      }
    }
  }

  lemma {:induction false} ClearedSurvivesIff(tail: seq<int>, m: nat, head: int, clash: Clash)
    requires DistinctInts(tail) && m < |tail| && !clash(head, tail[m])
    ensures var rest := Greedy(Clear(tail, head, clash), clash);
      tail[m] in rest <==> Unopposed(tail[..m], rest, tail[m], clash)
    decreases |tail|, 2
  {
    var clear := Clear(tail, head, clash);
    var k := ClearPrefix(tail, m, head, clash);
    ClearDistinct(tail, head, clash);
    SurvivesIff(clear, k, clash);
    UnopposedClear(tail[..m], Greedy(clear, clash), head, tail[m], clash);
  }

  lemma {:induction false} ClearIsSubsequence(cands: seq<int>, n: int, clash: Clash)
    ensures Subsequence(Clear(cands, n, clash), cands)
  {
    if cands != [] {
      ClearIsSubsequence(cands[1..], n, clash);
    }
  }

  /** Survivors keep their rank order. */
  lemma {:induction false} GreedyKeepsOrder(cands: seq<int>, clash: Clash)
    ensures Subsequence(Greedy(cands, clash), cands)
    decreases |cands|
  {
    if cands != [] {
      var clear := Clear(cands[1..], cands[0], clash);
      GreedyKeepsOrder(clear, clash);
      ClearIsSubsequence(cands[1..], cands[0], clash);
      SubsequenceTrans(Greedy(clear, clash), clear, cands[1..]);
    }
  }

  /** The suppression pass with one class: the best candidate stands, survivors
      stand in rank order, none is ruled out by another, and every suppressed
      candidate is ruled out by a better-ranked survivor. */
  lemma SuppressionIsCorrect(order: seq<int>, classIds: seq<int>, filterId: int, clash: Clash)
    requires -1 !in order && DistinctInts(order) && |order| <= |classIds| && OneClass(classIds, filterId)
    ensures var kept := Kept(Pass(order, 0, classIds, filterId, clash));
      && (order != [] ==> kept != [] && kept[0] == order[0])
      && Subsequence(kept, order)
      && (forall i, j :: 0 <= i < j < |order| && order[i] in kept && order[j] in kept ==> !clash(order[i], order[j]))
      && (forall j :: 0 <= j < |order| && order[j] !in kept ==>
            exists i :: 0 <= i < j && order[i] in kept && clash(order[i], order[j]))
  {
    LoopIsGreedy(order, classIds, filterId, clash);
    GreedyKeepsOrder(order, clash);
    var kept := Greedy(order, clash);
    forall i, j | 0 <= i < j < |order| && order[i] in kept && order[j] in kept
      ensures !clash(order[i], order[j])
    {
      SurvivesIff(order, j, clash);
      assert order[..j][i] == order[i];
    }
    forall j | 0 <= j < |order| && order[j] !in kept
      ensures exists i :: 0 <= i < j && order[i] in kept && clash(order[i], order[j])
    {
      SurvivesIff(order, j, clash);
      var x :| x in order[..j] && x in kept && clash(x, order[j]);
      var i :| 0 <= i < j && order[..j][i] == x;
      assert order[i] == x;
    }
  }

  /** One class is needed.  classIds is read by rank: with candidate 0 of class 0
      and the better candidate 1 of class 1, the turn of class 0 lets candidate 1
      suppress candidate 0. */
  lemma TwoClassesMix(clash: Clash)
    requires clash(1, 0)
    ensures Kept(Pass([1, 0], 0, [0, 1], 0, clash)) == [1]
  {
    var order := Knocked([1, 0], 0, 2, clash);
    assert order == [1, -1];
    assert Pass(order, 1, [0, 1], 0, clash) == Pass(order, 2, [0, 1], 0, clash);
    assert Kept([1, -1]) == [1] + Kept([-1]);
  }
}
