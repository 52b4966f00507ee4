/** What the read-only queries about a possible move mean in terms of the move itself. */
module Queries {
  import opened Grid
  import opened Components
  import opened Rules
  import opened ChainStore

  /** The new stone would be gone again after the move. */
  ghost predicate Suicide(dy: int, b: seq<int>, pla: int, loc: int)
    requires 0 <= loc < |b|
  {
    Move(dy, b, pla, loc)[loc] == EMPTY
  }

  ghost predicate SingleStoneSuicide(dy: int, b: seq<int>, pla: int, loc: int)
    requires 0 <= loc < |b|
  {
    Suicide(dy, b, pla, loc) && Chain(dy, b[loc := pla], loc) == {loc}
  }

  /** Legality without superko: a pass, or an empty point that is neither the ko point nor
      single-stone suicide. */
  ghost predicate Legal(dy: int, b: seq<int>, ko: Option<int>, pla: int, loc: int)
  {
    && Stone(pla)
    && (loc == PASS || (0 <= loc < |b| && b[loc] == EMPTY && !SingleStoneSuicide(dy, b, pla, loc) && ko != Some(loc)))
  }

  ghost function LibCount(dy: int, b: seq<int>, p: int): int
    requires 0 <= p < |b|
  {
    |Libs(dy, b, Chain(dy, b, p))|
  }

  /** q is empty, or an opposing stone in a chain with one liberty. */
  ghost predicate GivesLiberty(dy: int, b: seq<int>, pla: int, q: int)
  {
    0 <= q < |b| && (b[q] == EMPTY || (b[q] == Opp(pla) && LibCount(dy, b, q) == 1))
  }

  ghost predicate StrongAlly(dy: int, b: seq<int>, pla: int, q: int)
  {
    0 <= q < |b| && b[q] == pla && LibCount(dy, b, q) > 1
  }

  /** What play sees of a board between moves. */
  datatype GoState = GoState(b: seq<int>, ko: Option<int>)

  /** The state after pla plays at loc, or passes. */
  ghost function Step(dy: int, g: GoState, pla: int, loc: int): GoState
    requires loc == PASS || 0 <= loc < |g.b|
  {
    if loc == PASS then GoState(g.b, None)
    else GoState(Move(dy, g.b, pla, loc), KoPoint(dy, g.b, pla, loc))
  }

  // ----- the chain a new stone forms

  /** The chains of colour pla next to loc. */
  ghost function Allies(dy: int, b: seq<int>, pla: int, loc: int): set<int>
  {
    set p, q | Adj(dy, loc, q) && 0 <= q < |b| && b[q] == pla && p in Chain(dy, b, q) :: p
  }

  lemma NewChain(dy: int, b: seq<int>, pla: int, loc: int)
    requires Stone(pla) && 0 <= loc < |b| && b[loc] == EMPTY
    ensures Chain(dy, b[loc := pla], loc) == {loc} + Allies(dy, b, pla, loc)
  {
    var b1 := b[loc := pla];
    var S := {loc} + Allies(dy, b, pla, loc);
    forall x, y | x in S && y in Pts(b1, pla) && Adj(dy, x, y)
      ensures y in S
    {
      if y != loc {
        if x == loc {
          ChainBasics(dy, b, y);
        } else {
          var q :| Adj(dy, loc, q) && 0 <= q < |b| && b[q] == pla && x in Chain(dy, b, q);
          ChainSame(dy, b, q, x);
          ChainStep(dy, b, x, y);
          ChainBasics(dy, b, y);
        }
      }
    }
    CompLeast(dy, Pts(b1, pla), loc, S);
    ChainBasics(dy, b1, loc);
    forall q | Adj(dy, loc, q) && 0 <= q < |b| && b[q] == pla
      ensures Chain(dy, b, q) <= Chain(dy, b1, loc)
    {
      ChainBasics(dy, b, q);
      PlaceJoinsChain(dy, b, pla, loc, q);
    }
  }

  /** Captures leave the new chain alone; their points become its possible liberties. */
  lemma NewChainKept(dy: int, b: seq<int>, pla: int, loc: int)
    requires Stone(pla) && 0 <= loc < |b| && b[loc] == EMPTY
    ensures var a := AfterCaptures(dy, b, pla, loc);
      a[loc] == pla && Chain(dy, a, loc) == Chain(dy, b[loc := pla], loc)
  {
    ClearDeadKeeps(dy, b[loc := pla], Opp(pla), loc);
  }

  lemma OneElement(L: set<int>, x: int)
    requires x in L
    ensures |L| == 1 <==> L - {x} == {}
    ensures |L| >= 1
  {
    assert |L - {x}| == |L| - 1;
  }

  /** An opposing neighbour in atari is captured, and no other one is. */
  lemma AtariCaptured(dy: int, b: seq<int>, pla: int, loc: int, q: int)
    requires Position(dy, b) && Stone(pla) && 0 <= loc < |b| && b[loc] == EMPTY && 0 <= q < |b| && Adj(dy, loc, q)
    requires b[q] == Opp(pla)
    ensures LibCount(dy, b, q) == 1 <==> q in Captured(dy, b, pla, loc)
  {
    var C, b1 := Chain(dy, b, q), b[loc := pla];
    PlaceKeepsChain(dy, b, pla, loc, q);
    PlaceLibs(dy, b, pla, loc, C);
    assert Libs(dy, b1, Chain(dy, b1, q)) == Libs(dy, b, C) - {loc};
    assert Touches(dy, loc, C) by {
      ChainBasics(dy, b, q);
      AdjTouches(dy, loc, q, C);
    }
    OneElement(Libs(dy, b, C), loc);
    assert LibCount(dy, b, q) == 1 <==> Libs(dy, b1, Chain(dy, b1, q)) == {};
  }

  lemma SuicideIsDeath(dy: int, b: seq<int>, pla: int, loc: int)
    requires Stone(pla) && 0 <= loc < |b| && b[loc] == EMPTY
    ensures var a := AfterCaptures(dy, b, pla, loc);
      Suicide(dy, b, pla, loc) <==> Libs(dy, a, Chain(dy, a, loc)) == {}
  {
    NewChainKept(dy, b, pla, loc);
  }

  /** Every liberty of the new chain is owed to a neighbour of the new stone. */
  lemma LibertySource(dy: int, b: seq<int>, pla: int, loc: int, e: int) returns (q: int)
    requires Position(dy, b) && Stone(pla) && 0 <= loc < |b| && b[loc] == EMPTY
    requires e in Libs(dy, AfterCaptures(dy, b, pla, loc), Chain(dy, b[loc := pla], loc))
    ensures Adj(dy, loc, q) && (GivesLiberty(dy, b, pla, q) || StrongAlly(dy, b, pla, q))
  {
    if e in Captured(dy, b, pla, loc) {
      q := CaptureSource(dy, b, pla, loc, e);
    } else {
      var x := TouchesWitness(dy, e, Chain(dy, b[loc := pla], loc));
      NewChain(dy, b, pla, loc);
      if x == loc {
        q := e;
      } else {
        q :| Adj(dy, loc, q) && 0 <= q < |b| && b[q] == pla && x in Chain(dy, b, q);
        AllyHasTwo(dy, b, pla, loc, q, x, e);
      }
    }
  }

  lemma CaptureSource(dy: int, b: seq<int>, pla: int, loc: int, e: int) returns (q: int)
    requires Position(dy, b) && Stone(pla) && 0 <= loc < |b| && b[loc] == EMPTY && e in Captured(dy, b, pla, loc)
    ensures Adj(dy, loc, q) && GivesLiberty(dy, b, pla, q)
  {
    CapturedTouch(dy, b, pla, loc, e);
    q := TouchesWitness(dy, loc, Chain(dy, b, e));
    ChainSame(dy, b, e, q);
  }

  lemma AllyHasTwo(dy: int, b: seq<int>, pla: int, loc: int, q: int, x: int, e: int)
    requires Stone(pla) && 0 <= loc < |b| && b[loc] == EMPTY && Adj(dy, loc, q) && 0 <= q < |b| && b[q] == pla
    requires x in Chain(dy, b, q) && 0 <= e < |b| && b[e] == EMPTY && e != loc && Adj(dy, e, x)
    ensures StrongAlly(dy, b, pla, q)
  {
    var L := Libs(dy, b, Chain(dy, b, q));
    ChainBasics(dy, b, q);
    assert e in L && loc in L;
    assert |L - {e}| == |L| - 1 && loc in L - {e};
  }

  /** A liberty in b of the new chain or of a captured point is a liberty after the captures. */
  lemma SuicideFails(dy: int, b: seq<int>, pla: int, loc: int, q: int)
    requires Position(dy, b) && Stone(pla) && 0 <= loc < |b| && b[loc] == EMPTY
    requires Adj(dy, loc, q) && (GivesLiberty(dy, b, pla, q) || StrongAlly(dy, b, pla, q))
    ensures !Suicide(dy, b, pla, loc)
  {
    var a := AfterCaptures(dy, b, pla, loc);
    NewChainKept(dy, b, pla, loc);
    SuicideIsDeath(dy, b, pla, loc);
    var C := Chain(dy, a, loc);
    if GivesLiberty(dy, b, pla, q) {
      if b[q] != EMPTY {
        AtariCaptured(dy, b, pla, loc, q);
      }
      ChainBasics(dy, a, loc);
      assert Touches(dy, q, C);
      assert q in Libs(dy, a, C);
    } else {
      var e := SpareLiberty(dy, b, pla, loc, q);
      assert e in Libs(dy, a, C);
    }
  }

  lemma SpareLiberty(dy: int, b: seq<int>, pla: int, loc: int, q: int) returns (e: int)
    requires Stone(pla) && 0 <= loc < |b| && b[loc] == EMPTY && Adj(dy, loc, q) && StrongAlly(dy, b, pla, q)
    ensures 0 <= e < |b| && b[e] == EMPTY && e != loc && Touches(dy, e, Chain(dy, b[loc := pla], loc))
  {
    var L := Libs(dy, b, Chain(dy, b, q));
    if L - {loc} == {} {
      assert |L| <= |{loc}| by { assert L <= {loc}; SubsetSize(L, {loc}); }
    }
    e :| e in L - {loc};
    var x := TouchesWitness(dy, e, Chain(dy, b, q));
    NewChain(dy, b, pla, loc);
    assert x in Allies(dy, b, pla, loc);
  }

  lemma SubsetSize(X: set<int>, Y: set<int>)
    requires X <= Y
    ensures |X| <= |Y|
  {
    assert |Y| == |X| + |Y - X| by { assert Y == X + (Y - X); }
  }

  lemma SuicideHolds(dy: int, b: seq<int>, pla: int, loc: int)
    requires Position(dy, b) && Stone(pla) && 0 <= loc < |b| && b[loc] == EMPTY
    requires forall q :: Adj(dy, loc, q) ==> !GivesLiberty(dy, b, pla, q) && !StrongAlly(dy, b, pla, q)
    ensures Suicide(dy, b, pla, loc)
  {
    var a := AfterCaptures(dy, b, pla, loc);
    NewChainKept(dy, b, pla, loc);
    SuicideIsDeath(dy, b, pla, loc);
    if e :| e in Libs(dy, a, Chain(dy, a, loc)) {
      var q := LibertySource(dy, b, pla, loc, e);
    }
  }

  /** The move is suicide exactly when no neighbour gives it a liberty and no ally has one to spare. */
  lemma SuicideIff(dy: int, b: seq<int>, pla: int, loc: int)
    requires Position(dy, b) && Stone(pla) && 0 <= loc < |b| && b[loc] == EMPTY
    ensures Suicide(dy, b, pla, loc) <==>
      (forall q :: Adj(dy, loc, q) ==> !GivesLiberty(dy, b, pla, q) && !StrongAlly(dy, b, pla, q))
  {
    if q :| Adj(dy, loc, q) && (GivesLiberty(dy, b, pla, q) || StrongAlly(dy, b, pla, q)) {
      SuicideFails(dy, b, pla, loc, q);
    } else {
      SuicideHolds(dy, b, pla, loc);
    }
  }

  lemma SingleStoneSuicideIff(dy: int, b: seq<int>, pla: int, loc: int)
    requires Position(dy, b) && Stone(pla) && 0 <= loc < |b| && b[loc] == EMPTY
    ensures SingleStoneSuicide(dy, b, pla, loc) <==>
      (forall q :: Adj(dy, loc, q) ==> !GivesLiberty(dy, b, pla, q) && !(0 <= q < |b| && b[q] == pla))
  {
    SuicideIff(dy, b, pla, loc);
    NewChain(dy, b, pla, loc);
    if q :| Adj(dy, loc, q) && 0 <= q < |b| && b[q] == pla {
      ChainBasics(dy, b, q);
      assert q in Allies(dy, b, pla, loc);
      assert q != loc;
    } else {
      assert Allies(dy, b, pla, loc) == {};
    }
  }

  /** No neighbour among the first i gives the stone a liberty. */
  ghost predicate NoneGives(dy: int, b: seq<int>, pla: int, loc: int, i: int)
  {
    forall j {:trigger Nbr(dy, loc, j)} :: 0 <= j < i ==> !GivesLiberty(dy, b, pla, Nbr(dy, loc, j))
  }

  ghost predicate NoneStrong(dy: int, b: seq<int>, pla: int, loc: int, i: int)
  {
    forall j {:trigger Nbr(dy, loc, j)} :: 0 <= j < i ==> !StrongAlly(dy, b, pla, Nbr(dy, loc, j))
  }

  ghost predicate NoneAllied(dy: int, b: seq<int>, pla: int, loc: int, i: int)
  {
    forall j {:trigger Nbr(dy, loc, j)} :: 0 <= j < i ==> !(0 <= Nbr(dy, loc, j) < |b| && b[Nbr(dy, loc, j)] == pla)
  }

  lemma NoneStep(dy: int, b: seq<int>, pla: int, loc: int, i: int)
    requires 0 <= i
    ensures NoneGives(dy, b, pla, loc, i + 1) <==> (NoneGives(dy, b, pla, loc, i) && !GivesLiberty(dy, b, pla, Nbr(dy, loc, i)))
    ensures NoneAllied(dy, b, pla, loc, i + 1) <==>
      (NoneAllied(dy, b, pla, loc, i) && !(0 <= Nbr(dy, loc, i) < |b| && b[Nbr(dy, loc, i)] == pla))
    ensures NoneStrong(dy, b, pla, loc, i + 1) <==> (NoneStrong(dy, b, pla, loc, i) && !StrongAlly(dy, b, pla, Nbr(dy, loc, i)))
  {
  }

  lemma AllNbrs(dy: int, p: int, q: int)
    requires Adj(dy, p, q)
    ensures q == Nbr(dy, p, 0) || q == Nbr(dy, p, 1) || q == Nbr(dy, p, 2) || q == Nbr(dy, p, 3)
  {
  }

  lemma SuicideByNbrs(dy: int, b: seq<int>, pla: int, loc: int)
    requires Position(dy, b) && Stone(pla) && 0 <= loc < |b| && b[loc] == EMPTY
    ensures Suicide(dy, b, pla, loc) <==> (NoneGives(dy, b, pla, loc, 4) && NoneStrong(dy, b, pla, loc, 4))
    ensures SingleStoneSuicide(dy, b, pla, loc) <==> (NoneGives(dy, b, pla, loc, 4) && NoneAllied(dy, b, pla, loc, 4))
  {
    SuicideIff(dy, b, pla, loc);
    SingleStoneSuicideIff(dy, b, pla, loc);
    forall j | 0 <= j < 4
      ensures Adj(dy, loc, Nbr(dy, loc, j))
    {
      NbrAdj(dy, loc, j);
    }
    forall q | Adj(dy, loc, q)
      ensures exists j :: 0 <= j < 4 && q == Nbr(dy, loc, j)
    {
      AllNbrs(dy, loc, q);
    }
  }

  // ----- liberties after a move

  /** The liberties the new stone's chain has once the captures are done. */
  ghost function NextLibs(dy: int, b: seq<int>, pla: int, loc: int): set<int>
    requires 0 <= loc < |b|
  {
    var a := AfterCaptures(dy, b, pla, loc);
    Libs(dy, a, Chain(dy, a, loc))
  }

  ghost predicate Freed(dy: int, b: seq<int>, pla: int, loc: int, e: int)
    requires 0 <= loc < |b|
  {
    0 <= e < |b| && e != loc && (b[e] == EMPTY || e in Captured(dy, b, pla, loc))
  }

  lemma NextLibsIff(dy: int, b: seq<int>, pla: int, loc: int, e: int)
    requires Stone(pla) && 0 <= loc < |b| && b[loc] == EMPTY
    ensures e in NextLibs(dy, b, pla, loc) <==>
      (Freed(dy, b, pla, loc, e) && (Adj(dy, e, loc) || Touches(dy, e, Allies(dy, b, pla, loc))))
  {
    NewChainKept(dy, b, pla, loc);
    NewChain(dy, b, pla, loc);
    var C, A := Chain(dy, AfterCaptures(dy, b, pla, loc), loc), Allies(dy, b, pla, loc);
    assert Touches(dy, e, C) <==> Touches(dy, e, {loc}) || Touches(dy, e, A);
    assert Touches(dy, e, {loc}) <==> Adj(dy, e, loc);
  }

  /** A captured point shares its chain with a captured neighbour of the move. */
  lemma CapturedNbr(dy: int, b: seq<int>, pla: int, loc: int, e: int) returns (j: int)
    requires Position(dy, b) && Stone(pla) && 0 <= loc < |b| && b[loc] == EMPTY && e in Captured(dy, b, pla, loc)
    ensures 0 <= j < 4 && 0 <= Nbr(dy, loc, j) < |b| && b[Nbr(dy, loc, j)] == Opp(pla)
    ensures Nbr(dy, loc, j) in Captured(dy, b, pla, loc) && Nbr(dy, loc, j) in Chain(dy, b, e)
  {
    CapturedTouch(dy, b, pla, loc, e);
    var q := TouchesWitness(dy, loc, Chain(dy, b, e));
    AllNbrs(dy, loc, q);
    j :| 0 <= j < 4 && q == Nbr(dy, loc, j);
    ChainSame(dy, b[loc := pla], e, q);
    ChainBasics(dy, b, e);
  }

  lemma CapturedChain(dy: int, b: seq<int>, pla: int, loc: int, q: int, e: int)
    requires Position(dy, b) && Stone(pla) && 0 <= loc < |b| && b[loc] == EMPTY && q in Captured(dy, b, pla, loc)
    requires e in Chain(dy, b, q)
    ensures e in Captured(dy, b, pla, loc)
  {
    CapturedTouch(dy, b, pla, loc, q);
    ChainSame(dy, b[loc := pla], q, e);
  }

  // ----- collecting a bounded list of points

  /** A list of distinct points of X, still below the bound. */
  ghost predicate Collecting(s: seq<int>, X: set<int>, bound: int)
  {
    Distinct(s) && (forall p :: p in s ==> p in X) && (|s| < bound || |s| == 0)
  }

  /** A list of distinct points of X that has just reached the bound. */
  ghost predicate Reached(s: seq<int>, X: set<int>, bound: int)
  {
    Distinct(s) && (forall p :: p in s ==> p in X) && |s| > 0 && |s| >= bound
  }

  function AtMost(bound: int, n: int): int { if n == 0 then 0 else if bound < n then bound else n }

  /** Append p unless it is there; stop when the bound is reached. */
  method Collect(s: seq<int>, p: int, bound: int, ghost X: set<int>) returns (r: seq<int>, full: bool)
    requires Collecting(s, X, bound) && p in X
    ensures full ==> Reached(r, X, bound)
    ensures !full ==> Collecting(r, X, bound) && p in r && s <= r
  {
    if p in s {
      return s, false;
    }
    r := s + [p];
    full := |r| >= bound;
  }

  lemma ReachedCount(s: seq<int>, X: set<int>, bound: int)
    requires Reached(s, X, bound)
    ensures AtMost(bound, |X|) == bound || |X| == bound
    ensures AtMost(bound, |X|) == bound
  {
    DistinctSize(s, X);
  }

  lemma CollectedCount(s: seq<int>, X: set<int>, bound: int)
    requires Collecting(s, X, bound) && forall p :: p in X ==> p in s
    ensures AtMost(bound, |X|) == |s|
  {
    DistinctSize(s, X);
  }

  // ----- the scan for liberties after a move

  /** hs holds the heads of the captured ones among the first i neighbours of loc. */
  ghost predicate CapturedHeads(dy: int, b: seq<int>, head: seq<int>, pla: int, loc: int, hs: seq<int>, i: int)
    requires |head| == |b| && 0 <= loc < |b|
  {
    && (forall j {:trigger Nbr(dy, loc, j)} :: 0 <= j < i && Nbr(dy, loc, j) in Captured(dy, b, pla, loc) ==>
          0 <= Nbr(dy, loc, j) < |b| && head[Nbr(dy, loc, j)] in hs)
    && (forall h :: h in hs ==> exists q :: q in Captured(dy, b, pla, loc) && 0 <= q < |b| && head[q] == h)
  }

  lemma CapturedHeadsStep(dy: int, b: seq<int>, head: seq<int>, pla: int, loc: int, hs: seq<int>, i: int, hs': seq<int>)
    requires |head| == |b| && 0 <= loc < |b| && 0 <= i && CapturedHeads(dy, b, head, pla, loc, hs, i)
    requires 0 <= Nbr(dy, loc, i) < |b|
    requires if Nbr(dy, loc, i) in Captured(dy, b, pla, loc)
      then hs' == (if head[Nbr(dy, loc, i)] in hs then hs else hs + [head[Nbr(dy, loc, i)]])
      else hs' == hs
    ensures CapturedHeads(dy, b, head, pla, loc, hs', i + 1)
  {
  }

  /** Every freed point next to S has been collected. */
  ghost predicate Covered(dy: int, b: seq<int>, pla: int, loc: int, S: set<int>, libs: seq<int>)
    requires 0 <= loc < |b|
  {
    forall e :: Freed(dy, b, pla, loc, e) && Touches(dy, e, S) ==> e in libs
  }

  /** The freed ones among the first i neighbours of p have been collected. */
  ghost predicate CoveredNbrs(dy: int, b: seq<int>, pla: int, loc: int, p: int, i: int, libs: seq<int>)
    requires 0 <= loc < |b|
  {
    forall j {:trigger Nbr(dy, p, j)} :: 0 <= j < i && Freed(dy, b, pla, loc, Nbr(dy, p, j)) ==> Nbr(dy, p, j) in libs
  }

  lemma CoveredStep(dy: int, b: seq<int>, pla: int, loc: int, p: int, i: int, libs: seq<int>, libs': seq<int>)
    requires 0 <= loc < |b| && 0 <= i && CoveredNbrs(dy, b, pla, loc, p, i, libs) && libs <= libs'
    requires Freed(dy, b, pla, loc, Nbr(dy, p, i)) ==> Nbr(dy, p, i) in libs'
    ensures CoveredNbrs(dy, b, pla, loc, p, i + 1, libs')
  {
  }

  lemma CoveredMore(dy: int, b: seq<int>, pla: int, loc: int, S: set<int>, libs: seq<int>, libs': seq<int>)
    requires 0 <= loc < |b| && Covered(dy, b, pla, loc, S, libs) && libs <= libs'
    ensures Covered(dy, b, pla, loc, S, libs')
  {
  }

  lemma CoveredNone(dy: int, b: seq<int>, pla: int, loc: int, r: seq<int>, libs: seq<int>)
    requires 0 <= loc < |b|
    ensures Covered(dy, b, pla, loc, Elems(r[..0]), libs)
  {
    assert Elems(r[..0]) == {};
  }

  lemma CoveredAlone(dy: int, b: seq<int>, pla: int, loc: int, libs: seq<int>)
    requires 0 <= loc < |b| && CoveredNbrs(dy, b, pla, loc, loc, 4, libs)
    ensures Covered(dy, b, pla, loc, {loc}, libs)
  {
    assert Covered(dy, b, pla, loc, {}, libs);
    CoveredPoint(dy, b, pla, loc, {}, loc, libs);
    assert {} + {loc} == {loc};
  }

  lemma CoveredPoint(dy: int, b: seq<int>, pla: int, loc: int, S: set<int>, p: int, libs: seq<int>)
    requires 0 <= loc < |b| && Covered(dy, b, pla, loc, S, libs) && CoveredNbrs(dy, b, pla, loc, p, 4, libs)
    ensures Covered(dy, b, pla, loc, S + {p}, libs)
  {
    forall e | Freed(dy, b, pla, loc, e) && Touches(dy, e, S + {p})
      ensures e in libs
    {
      if !Touches(dy, e, S) {
        var q := TouchesWitness(dy, e, S + {p});
        if q in S {
          AdjTouches(dy, e, q, S);
        }
        AllNbrs(dy, p, e);
      }
    }
  }

  /** When the points next to loc and to every ally are covered, everything has been found. */
  lemma ScanComplete(dy: int, b: seq<int>, pla: int, loc: int, libs: seq<int>)
    requires Stone(pla) && 0 <= loc < |b| && b[loc] == EMPTY
    requires Covered(dy, b, pla, loc, {loc}, libs)
    requires forall q :: Adj(dy, loc, q) && 0 <= q < |b| && b[q] == pla ==> Covered(dy, b, pla, loc, Chain(dy, b, q), libs)
    ensures forall e :: e in NextLibs(dy, b, pla, loc) ==> e in libs
  {
    forall e | e in NextLibs(dy, b, pla, loc)
      ensures e in libs
    {
      NextLibsIff(dy, b, pla, loc, e);
      if Adj(dy, e, loc) {
        AdjTouches(dy, e, loc, {loc});
      } else {
        var x := TouchesWitness(dy, e, Allies(dy, b, pla, loc));
        var q :| Adj(dy, loc, q) && 0 <= q < |b| && b[q] == pla && x in Chain(dy, b, q);
        AdjTouches(dy, e, x, Chain(dy, b, q));
        assert Covered(dy, b, pla, loc, Chain(dy, b, q), libs);
      }
    }
  }

  /** hs holds the heads of the allies among the first i neighbours, and their chains have been scanned. */
  ghost predicate Scanned(dy: int, b: seq<int>, head: seq<int>, pla: int, loc: int, hs: seq<int>, libs: seq<int>, i: int)
    requires |head| == |b| && 0 <= loc < |b|
  {
    && (forall j {:trigger Nbr(dy, loc, j)} :: 0 <= j < i && 0 <= Nbr(dy, loc, j) < |b| && b[Nbr(dy, loc, j)] == pla ==>
          head[Nbr(dy, loc, j)] in hs)
    && (forall h :: h in hs ==> Covered(dy, b, pla, loc, Class(head, h), libs))
  }

  lemma ScannedMore(dy: int, b: seq<int>, head: seq<int>, pla: int, loc: int, hs: seq<int>, libs: seq<int>, i: int,
          libs': seq<int>)
    requires |head| == |b| && 0 <= loc < |b| && 0 <= i && Scanned(dy, b, head, pla, loc, hs, libs, i) && libs <= libs'
    requires 0 <= Nbr(dy, loc, i) < |b| && b[Nbr(dy, loc, i)] == pla
    requires Covered(dy, b, pla, loc, Class(head, head[Nbr(dy, loc, i)]), libs')
    ensures Scanned(dy, b, head, pla, loc, hs + [head[Nbr(dy, loc, i)]], libs', i + 1)
  {
    forall h | h in hs
      ensures Covered(dy, b, pla, loc, Class(head, h), libs')
    {
      CoveredMore(dy, b, pla, loc, Class(head, h), libs, libs');
    }
  }

  lemma ScannedSkip(dy: int, b: seq<int>, head: seq<int>, pla: int, loc: int, hs: seq<int>, libs: seq<int>, i: int)
    requires |head| == |b| && 0 <= loc < |b| && 0 <= i && Scanned(dy, b, head, pla, loc, hs, libs, i)
    requires 0 <= Nbr(dy, loc, i) < |b| && (b[Nbr(dy, loc, i)] != pla || head[Nbr(dy, loc, i)] in hs)
    ensures Scanned(dy, b, head, pla, loc, hs, libs, i + 1)
  {
  }

  lemma ScannedAll(dy: int, s: Store, pla: int, loc: int, hs: seq<int>, libs: seq<int>)
    requires StoreOk(dy, s) && Maximal(dy, s.b, s.head) && Stone(pla) && 0 <= loc < |s.b| && s.b[loc] == EMPTY
    requires Scanned(dy, s.b, s.head, pla, loc, hs, libs, 4) && Covered(dy, s.b, pla, loc, {loc}, libs)
    ensures forall e :: e in NextLibs(dy, s.b, pla, loc) ==> e in libs
  {
    forall q | Adj(dy, loc, q) && 0 <= q < |s.b| && s.b[q] == pla
      ensures Covered(dy, s.b, pla, loc, Chain(dy, s.b, q), libs)
    {
      AllNbrs(dy, loc, q);
      ClassIsChain(dy, s, q);
    }
    ScanComplete(dy, s.b, pla, loc, libs);
  }
}
