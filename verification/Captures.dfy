/** Captures found by looking only at the four neighbours of a move. */
module Captures {
  import opened Grid
  import opened Components
  import opened Rules

  /** K holds whole captured chains, among them those of the captured ones of the first i neighbours. */
  ghost predicate PartCaptured(dy: int, b: seq<int>, pla: int, loc: int, K: set<int>, i: int)
    requires 0 <= loc < |b|
  {
    && K <= Captured(dy, b, pla, loc)
    && (forall q :: q in K ==> 0 <= q < |b| && Chain(dy, b[loc := pla], q) <= K)
    && (forall j :: 0 <= j < i ==> Nbr(dy, loc, j) in Captured(dy, b, pla, loc) ==> Nbr(dy, loc, j) in K)
  }

  /** Clearing other chains of the same colour leaves a chain and its liberties as they were. */
  lemma ClearAllies(dy: int, b: seq<int>, K: set<int>, c: int, q: int)
    requires 0 <= q < |b| && b[q] == c && c != EMPTY && q !in K
    requires forall p :: p in K ==> 0 <= p < |b| && b[p] == c && Chain(dy, b, p) <= K
    ensures Chain(dy, Clear(b, K), q) == Chain(dy, b, q)
    ensures Libs(dy, Clear(b, K), Chain(dy, b, q)) == Libs(dy, b, Chain(dy, b, q))
    ensures Chain(dy, b, q) !! K
  {
    var C := Chain(dy, b, q);
    if p :| p in C && p in K {
      ChainSame(dy, b, q, p);
      ChainBasics(dy, b, q);
    }
    ClearKeepsChain(dy, b, K, q);
    forall e | e in Libs(dy, Clear(b, K), C)
      ensures e in Libs(dy, b, C)
    {
      var p := TouchesWitness(dy, e, C);
      ChainBasics(dy, b, q);
      assert Adj(dy, p, e);
    }
  }

  /** The code's test on a neighbour finds exactly the captured chains not yet taken. */
  lemma CaptureTest(dy: int, b: seq<int>, pla: int, loc: int, K: set<int>, i: int, q: int)
    requires 0 <= loc < |b| && Stone(pla) && PartCaptured(dy, b, pla, loc, K, i) && 0 <= q < |b|
    ensures var b1 := b[loc := pla];
      var cur := Clear(b1, K);
      cur[q] == Opp(pla) ==>
        && q !in K
        && Chain(dy, cur, q) == Chain(dy, b1, q)
        && (Libs(dy, cur, Chain(dy, cur, q)) == {} <==> q in Captured(dy, b, pla, loc))
    ensures q in Captured(dy, b, pla, loc) && q !in K ==> Clear(b[loc := pla], K)[q] == Opp(pla)
  {
    if Clear(b[loc := pla], K)[q] == Opp(pla) {
      ClearAllies(dy, b[loc := pla], K, Opp(pla), q);
    }
  }

  lemma CaptureSkip(dy: int, b: seq<int>, pla: int, loc: int, K: set<int>, i: int)
    requires 0 <= loc < |b| && PartCaptured(dy, b, pla, loc, K, i)
    requires Nbr(dy, loc, i) in Captured(dy, b, pla, loc) ==> Nbr(dy, loc, i) in K
    ensures PartCaptured(dy, b, pla, loc, K, i + 1)
  {
  }

  lemma CaptureMore(dy: int, b: seq<int>, pla: int, loc: int, K: set<int>, i: int)
    requires 0 <= loc < |b| && Stone(pla) && PartCaptured(dy, b, pla, loc, K, i) && 0 <= i < 4
    requires Nbr(dy, loc, i) in Captured(dy, b, pla, loc) && Nbr(dy, loc, i) !in K
    ensures var C := Chain(dy, b[loc := pla], Nbr(dy, loc, i));
      && PartCaptured(dy, b, pla, loc, K + C, i + 1)
      && |K + C| == |K| + |C|
      && Nbr(dy, loc, i) in C
      && Clear(Clear(b[loc := pla], K), C) == Clear(b[loc := pla], K + C)
  {
    var b1, q := b[loc := pla], Nbr(dy, loc, i);
    var C := Chain(dy, b1, q);
    ChainBasics(dy, b1, q);
    ClearAllies(dy, b1, K, Opp(pla), q);
    forall p | p in C
      ensures p in Captured(dy, b, pla, loc) && Chain(dy, b1, p) <= K + C
    {
      ChainSame(dy, b1, q, p);
    }
    assert |K + C| == |K| + |C|;
  }

  /** One round of the capture loop: n stones went at the i-th neighbour, leaving r. */
  lemma CaptureStep(dy: int, b: seq<int>, pla: int, loc: int, K: set<int>, i: int, n: int,
          r: seq<int>) returns (K': set<int>)
    requires 0 <= loc < |b| && Stone(pla) && PartCaptured(dy, b, pla, loc, K, i)
    requires 0 <= i < 4 && 0 <= Nbr(dy, loc, i) < |b|
    requires var cur, q := Clear(b[loc := pla], K), Nbr(dy, loc, i);
      if cur[q] == Opp(pla) && Libs(dy, cur, Chain(dy, cur, q)) == {}
      then n == |Chain(dy, cur, q)| > 0 && r == Clear(cur, Chain(dy, cur, q))
      else n == 0 && r == cur
    ensures PartCaptured(dy, b, pla, loc, K', i + 1) && r == Clear(b[loc := pla], K') && |K'| == |K| + n
    ensures K <= K' && (n > 0 ==> Nbr(dy, loc, i) in K')
  {
    CaptureTest(dy, b, pla, loc, K, i, Nbr(dy, loc, i));
    if n > 0 {
      CaptureMore(dy, b, pla, loc, K, i);
      K' := K + Chain(dy, b[loc := pla], Nbr(dy, loc, i));
    } else {
      CaptureSkip(dy, b, pla, loc, K, i);
      K' := K;
    }
  }

  lemma CaptureDone(dy: int, b: seq<int>, pla: int, loc: int, K: set<int>)
    requires Position(dy, b) && Stone(pla) && 0 <= loc < |b| && b[loc] == EMPTY
    requires PartCaptured(dy, b, pla, loc, K, 4)
    ensures K == Captured(dy, b, pla, loc)
  {
    forall p | p in Captured(dy, b, pla, loc)
      ensures p in K
    {
      var b1 := b[loc := pla];
      CapturedTouch(dy, b, pla, loc, p);
      var C := Chain(dy, b1, p);
      var q := TouchesWitness(dy, loc, C);
      assert q == Nbr(dy, loc, 0) || q == Nbr(dy, loc, 1) || q == Nbr(dy, loc, 2) || q == Nbr(dy, loc, 3);
      ChainSame(dy, b1, p, q);
      ChainBasics(dy, b1, p);
    }
  }

  /** Whether the move is suicide shows on the one chain of the new stone. */
  lemma SuicideTest(dy: int, b: seq<int>, pla: int, loc: int)
    requires Position(dy, b) && Stone(pla) && 0 <= loc < |b| && b[loc] == EMPTY
    ensures var a := AfterCaptures(dy, b, pla, loc);
      && a[loc] == pla
      && (Libs(dy, a, Chain(dy, a, loc)) == {} ==> Move(dy, b, pla, loc) == Clear(a, Chain(dy, a, loc)))
      && (Libs(dy, a, Chain(dy, a, loc)) != {} ==> Move(dy, b, pla, loc) == a)
  {
    var a := AfterCaptures(dy, b, pla, loc);
    var D := Dead(dy, a, pla);
    if p :| p in D {
      SuicideIsOwnChain(dy, b, pla, loc, p);
      ChainBasics(dy, a, loc);
    } else {
      assert Clear(a, D) == a;
    }
  }
}
