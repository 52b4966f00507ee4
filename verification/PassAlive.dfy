/** Pass-alive chains: chains that cannot be captured even if their owner passes for the rest of the
    game, and the regions they enclose. */
module PassAlive {
  import opened Grid
  import opened Components
  import opened Rules
  import opened Queries

  /** Everything that is neither a stone of pla nor wall. */
  ghost function Foreign(b: seq<int>, pla: int): set<int>
  {
    set p | 0 <= p < |b| && (b[p] == EMPTY || b[p] == Opp(pla))
  }

  /** The region of e: a maximal connected part of the board without stones of pla. */
  ghost function Region(dy: int, b: seq<int>, pla: int, e: int): set<int>
  {
    Comp(dy, Foreign(b, pla), e)
  }

  /** The stones of pla next to a region. */
  ghost function Border(dy: int, b: seq<int>, pla: int, R: set<int>): set<int>
  {
    set p | 0 <= p < |b| && b[p] == pla && Touches(dy, p, R)
  }

  /** Which points of a region must be liberties: all of them if the opponent may take back stones by
      suicide, otherwise only those that are empty now. */
  ghost predicate Relevant(b: seq<int>, suicideLegal: bool, p: int)
  {
    0 <= p < |b| && (suicideLegal || b[p] == EMPTY)
  }

  ghost predicate Vital(dy: int, b: seq<int>, suicideLegal: bool, R: set<int>, C: set<int>)
  {
    forall p :: p in R && Relevant(b, suicideLegal, p) ==> Touches(dy, p, C)
  }

  /** The region of e is bordered by stones of X only. */
  ghost predicate Enclosed(dy: int, b: seq<int>, pla: int, X: set<int>, e: int)
  {
    0 <= e < |b| && b[e] == EMPTY && Border(dy, b, pla, Region(dy, b, pla, e)) <= X
  }

  /** The region of e is enclosed by X and vital to C. */
  ghost predicate Eye(dy: int, b: seq<int>, pla: int, suicideLegal: bool, C: set<int>, X: set<int>, e: int)
  {
    Enclosed(dy, b, pla, X, e) && Vital(dy, b, suicideLegal, Region(dy, b, pla, e), C)
  }

  ghost predicate TwoEyes(dy: int, b: seq<int>, pla: int, suicideLegal: bool, C: set<int>, X: set<int>)
  {
    exists e1, e2 :: Eye(dy, b, pla, suicideLegal, C, X, e1) && Eye(dy, b, pla, suicideLegal, C, X, e2)
      && Region(dy, b, pla, e1) != Region(dy, b, pla, e2)
  }

  /** X consists of whole chains of pla, each with two eyes enclosed by X. */
  ghost predicate SelfSustaining(dy: int, b: seq<int>, pla: int, suicideLegal: bool, X: set<int>)
  {
    forall p :: p in X ==>
      0 <= p < |b| && b[p] == pla && Chain(dy, b, p) <= X && TwoEyes(dy, b, pla, suicideLegal, Chain(dy, b, p), X)
  }

  ghost predicate LivesIn(dy: int, b: seq<int>, pla: int, suicideLegal: bool, X: set<int>, p: int)
  {
    p in X && SelfSustaining(dy, b, pla, suicideLegal, X)
  }

  /** The stones in some self-sustaining set. */
  ghost function Alive(dy: int, b: seq<int>, pla: int, suicideLegal: bool): set<int>
  {
    set p | 0 <= p < |b| && Lives(dy, b, pla, suicideLegal, p)
  }

  ghost predicate Lives(dy: int, b: seq<int>, pla: int, suicideLegal: bool, p: int)
  {
    exists X :: LivesIn(dy, b, pla, suicideLegal, X, p)
  }

  // ----- regions

  lemma RegionBasics(dy: int, b: seq<int>, pla: int, e: int)
    requires 0 <= e < |b| && b[e] == EMPTY
    ensures e in Region(dy, b, pla, e) && Region(dy, b, pla, e) <= Foreign(b, pla)
    ensures Closed(dy, Foreign(b, pla), Region(dy, b, pla, e))
  {
    CompClosed(dy, Foreign(b, pla), e);
  }

  lemma RegionSame(dy: int, b: seq<int>, pla: int, e: int, p: int)
    requires 0 <= e < |b| && b[e] == EMPTY && p in Region(dy, b, pla, e)
    ensures Region(dy, b, pla, p) == Region(dy, b, pla, e)
  {
    CompSame(dy, Foreign(b, pla), e, p);
  }

  lemma RegionsDisjoint(dy: int, b: seq<int>, pla: int, e1: int, e2: int, p: int)
    requires 0 <= e1 < |b| && b[e1] == EMPTY && 0 <= e2 < |b| && b[e2] == EMPTY
    requires p in Region(dy, b, pla, e1) && p in Region(dy, b, pla, e2)
    ensures Region(dy, b, pla, e1) == Region(dy, b, pla, e2)
  {
    RegionSame(dy, b, pla, e1, p);
    RegionSame(dy, b, pla, e2, p);
  }

  /** A region holds the points that a path over empty points and opposing stones reaches. */
  lemma RegionByPaths(dy: int, b: seq<int>, pla: int, e: int, q: int, U: set<int>)
    requires 0 <= e < |b| && b[e] == EMPTY
    requires forall p :: p in U <==> 0 <= p < |b| && (b[p] == EMPTY || b[p] == Opp(pla))
    ensures q in Region(dy, b, pla, e) <==> exists s :: IsPath(dy, U, s, e, q)
  {
    CompIsReachability(dy, U, e, q);
    assert Foreign(b, pla) == U;
  }

  /** Where suicide is illegal a region is vital to a chain when its empty points are liberties of the chain;
      where it is legal all its points have to be next to the chain. */
  lemma VitalIff(dy: int, b: seq<int>, R: set<int>, C: set<int>)
    ensures Vital(dy, b, false, R, C) <==> R * Pts(b, EMPTY) <= Libs(dy, b, C)
    ensures Vital(dy, b, true, R, C) <==> forall p :: p in R && 0 <= p < |b| ==> Touches(dy, p, C)
  {
    if Vital(dy, b, false, R, C) {
      forall p | p in R * Pts(b, EMPTY)
        ensures p in Libs(dy, b, C)
      {
        assert Relevant(b, false, p);
      }
    }
    if R * Pts(b, EMPTY) <= Libs(dy, b, C) {
      forall p | p in R && Relevant(b, false, p)
        ensures Touches(dy, p, C)
      {
        assert p in R * Pts(b, EMPTY);
      }
    }
    if Vital(dy, b, true, R, C) {
      forall p | p in R && 0 <= p < |b|
        ensures Touches(dy, p, C)
      {
        assert Relevant(b, true, p);
      }
    }
  }

  /** An eye is the region of an empty point, next to no stone of pla outside X and vital to the chain. */
  lemma EyeIff(dy: int, b: seq<int>, pla: int, suicideLegal: bool, C: set<int>, X: set<int>, e: int)
    ensures Eye(dy, b, pla, suicideLegal, C, X, e) <==>
      && 0 <= e < |b| && b[e] == EMPTY
      && (forall q :: 0 <= q < |b| && b[q] == pla && q !in X ==> !Touches(dy, q, Region(dy, b, pla, e)))
      && (if suicideLegal then forall p :: p in Region(dy, b, pla, e) && 0 <= p < |b| ==> Touches(dy, p, C)
          else Region(dy, b, pla, e) * Pts(b, EMPTY) <= Libs(dy, b, C))
  {
    VitalIff(dy, b, Region(dy, b, pla, e), C);
    hide Vital, Region, Libs, Touches;
    var B := Border(dy, b, pla, Region(dy, b, pla, e));
    assert B <= X <==> forall q :: 0 <= q < |b| && b[q] == pla && q !in X ==> !Touches(dy, q, Region(dy, b, pla, e));
  }

  // ----- the greatest self-sustaining set

  lemma TwoEyesMono(dy: int, b: seq<int>, pla: int, suicideLegal: bool, C: set<int>, X: set<int>, Y: set<int>)
    requires TwoEyes(dy, b, pla, suicideLegal, C, X) && X <= Y
    ensures TwoEyes(dy, b, pla, suicideLegal, C, Y)
  {
    hide Region, Border, Vital;
    var e1, e2 :| Eye(dy, b, pla, suicideLegal, C, X, e1) && Eye(dy, b, pla, suicideLegal, C, X, e2)
      && Region(dy, b, pla, e1) != Region(dy, b, pla, e2);
    assert Eye(dy, b, pla, suicideLegal, C, Y, e1) && Eye(dy, b, pla, suicideLegal, C, Y, e2);
  }

  /** The pass-alive stones are the greatest self-sustaining set. */
  lemma AliveIsGreatest(dy: int, b: seq<int>, pla: int, suicideLegal: bool, X: set<int>)
    ensures SelfSustaining(dy, b, pla, suicideLegal, Alive(dy, b, pla, suicideLegal))
    ensures SelfSustaining(dy, b, pla, suicideLegal, X) ==> X <= Alive(dy, b, pla, suicideLegal)
  {
    var A := Alive(dy, b, pla, suicideLegal);
    forall p | p in A
      ensures 0 <= p < |b| && b[p] == pla && Chain(dy, b, p) <= A && TwoEyes(dy, b, pla, suicideLegal, Chain(dy, b, p), A)
    {
      var Y :| LivesIn(dy, b, pla, suicideLegal, Y, p);
      SustainingIsAlive(dy, b, pla, suicideLegal, Y);
      TwoEyesMono(dy, b, pla, suicideLegal, Chain(dy, b, p), Y, A);
    }
    if SelfSustaining(dy, b, pla, suicideLegal, X) {
      SustainingIsAlive(dy, b, pla, suicideLegal, X);
    }
  }

  lemma SustainingIsAlive(dy: int, b: seq<int>, pla: int, suicideLegal: bool, X: set<int>)
    requires SelfSustaining(dy, b, pla, suicideLegal, X)
    ensures X <= Alive(dy, b, pla, suicideLegal)
  {
    forall p | p in X
      ensures p in Alive(dy, b, pla, suicideLegal)
    {
      assert LivesIn(dy, b, pla, suicideLegal, X, p);
    }
  }

  /** Any set of whole chains is alive if every stone p of it has two different eyes, around one[p] and
      two[p], that touch no stone outside the set. */
  lemma TwoEyedChainsLive(dy: int, b: seq<int>, pla: int, suicideLegal: bool, X: set<int>, one: map<int, int>,
          two: map<int, int>)
    requires forall p :: p in X ==>
      && 0 <= p < |b| && b[p] == pla && Chain(dy, b, p) <= X && p in one && p in two
      && Eye(dy, b, pla, suicideLegal, Chain(dy, b, p), X, one[p])
      && Eye(dy, b, pla, suicideLegal, Chain(dy, b, p), X, two[p])
      && Region(dy, b, pla, one[p]) != Region(dy, b, pla, two[p])
    ensures X <= Alive(dy, b, pla, suicideLegal)
  {
    hide Eye, Region, Chain;
    SustainingIsAlive(dy, b, pla, suicideLegal, X);
  }

  /** And the pass-alive stones are such a set themselves. */
  lemma AliveHasTwoEyes(dy: int, b: seq<int>, pla: int, suicideLegal: bool, p: int) returns (e1: int, e2: int)
    requires p in Alive(dy, b, pla, suicideLegal)
    ensures 0 <= p < |b| && b[p] == pla && Chain(dy, b, p) <= Alive(dy, b, pla, suicideLegal)
    ensures Eye(dy, b, pla, suicideLegal, Chain(dy, b, p), Alive(dy, b, pla, suicideLegal), e1)
    ensures Eye(dy, b, pla, suicideLegal, Chain(dy, b, p), Alive(dy, b, pla, suicideLegal), e2)
    ensures Region(dy, b, pla, e1) != Region(dy, b, pla, e2)
  {
    hide Eye, Region, Chain, Alive;
    AliveIsGreatest(dy, b, pla, suicideLegal, {});
    var A := Alive(dy, b, pla, suicideLegal);
    e1, e2 :| Eye(dy, b, pla, suicideLegal, Chain(dy, b, p), A, e1) && Eye(dy, b, pla, suicideLegal, Chain(dy, b, p), A, e2)
      && Region(dy, b, pla, e1) != Region(dy, b, pla, e2);
  }

  // ----- safety: no run of opposing moves removes a stone of a self-sustaining set

  /** What the opponent may do at a turn: pass, or play on an empty point, but not by suicide where
      suicide is illegal. */
  ghost predicate OpponentTurn(dy: int, b: seq<int>, opp: int, suicideLegal: bool, r: seq<int>)
  {
    r == b || exists m :: Plays(dy, b, opp, suicideLegal, m, r)
  }

  ghost predicate Plays(dy: int, b: seq<int>, opp: int, suicideLegal: bool, m: int, r: seq<int>)
  {
    0 <= m < |b| && b[m] == EMPTY && (suicideLegal || !Suicide(dy, b, opp, m)) && r == Move(dy, b, opp, m)
  }

  ghost predicate OpponentRun(dy: int, opp: int, suicideLegal: bool, run: seq<seq<int>>)
  {
    forall i :: 0 < i < |run| ==> OpponentTurn(dy, run[i - 1], opp, suicideLegal, run[i])
  }

  /** A region enclosed at the start still holds no stone of pla, still has an empty point, and where
      suicide is illegal no stone in it has been taken back. */
  ghost predicate Held(b0: seq<int>, b: seq<int>, pla: int, suicideLegal: bool, R: set<int>)
  {
    && (forall p :: p in R ==> 0 <= p < |b| && (b[p] == EMPTY || b[p] == Opp(pla)))
    && (exists z :: z in R && 0 <= z < |b| && b[z] == EMPTY)
    && (!suicideLegal ==> forall p :: p in R && 0 <= p < |b0| && 0 <= p < |b| && b[p] == EMPTY ==> b0[p] == EMPTY)
  }

  /** What holds throughout a run from b0. */
  ghost predicate Standing(dy: int, b0: seq<int>, b: seq<int>, pla: int, suicideLegal: bool, X: set<int>)
  {
    && |b| == |b0| && Position(dy, b)
    && (forall p :: 0 <= p < |b| ==> (b[p] == WALL <==> b0[p] == WALL))
    && (forall p :: p in X ==> 0 <= p < |b| && b[p] == pla)
    && (forall e :: Enclosed(dy, b0, pla, X, e) ==> Held(b0, b, pla, suicideLegal, Region(dy, b0, pla, e)))
  }

  lemma StandsAtFirst(dy: int, b: seq<int>, pla: int, suicideLegal: bool, X: set<int>)
    requires Position(dy, b) && SelfSustaining(dy, b, pla, suicideLegal, X)
    ensures Standing(dy, b, b, pla, suicideLegal, X)
  {
    hide Region, Position, TwoEyes, Chain;
    forall e | Enclosed(dy, b, pla, X, e)
      ensures Held(b, b, pla, suicideLegal, Region(dy, b, pla, e))
    {
      RegionBasics(dy, b, pla, e);
    }
  }

  /** A chain of the set is still connected. */
  lemma ChainHolds(dy: int, b0: seq<int>, b: seq<int>, pla: int, X: set<int>, p: int)
    requires |b| == |b0| && forall q :: q in X ==> 0 <= q < |b| && b[q] == pla
    requires p in X && 0 <= p < |b0| && b0[p] == pla && Chain(dy, b0, p) <= X
    ensures Chain(dy, b0, p) <= Chain(dy, b, p)
  {
    var C, D := Chain(dy, b0, p), Chain(dy, b, p);
    ChainBasics(dy, b0, p);
    ChainBasics(dy, b, p);
    forall x, y | x in C * D && y in Pts(b0, pla) && Adj(dy, x, y)
      ensures y in C * D
    {
      assert y in C;
      assert y in Pts(b, pla);
    }
    CompLeast(dy, Pts(b0, pla), p, C * D);
  }

  /** An enclosed vital region always has an empty point that is a liberty of the chain. */
  lemma EyeGivesLiberty(dy: int, b0: seq<int>, b: seq<int>, pla: int, suicideLegal: bool, X: set<int>, p: int,
          e: int) returns (z: int)
    requires Standing(dy, b0, b, pla, suicideLegal, X) && 0 <= p < |b0|
    requires Eye(dy, b0, pla, suicideLegal, Chain(dy, b0, p), X, e) && Chain(dy, b0, p) <= Chain(dy, b, p)
    ensures z in Region(dy, b0, pla, e) && z in Libs(dy, b, Chain(dy, b, p))
  {
    hide Region, Chain, Position, Border;
    var R := Region(dy, b0, pla, e);
    z :| z in R && 0 <= z < |b| && b[z] == EMPTY;
    assert Relevant(b0, suicideLegal, z);
    var q := TouchesWitness(dy, z, Chain(dy, b0, p));
    AdjTouches(dy, z, q, Chain(dy, b, p));
  }

  /** Every stone of the set has a liberty besides any given point. */
  lemma SpareEye(dy: int, b0: seq<int>, b: seq<int>, pla: int, suicideLegal: bool, X: set<int>, p: int,
          m: int) returns (z: int)
    requires Standing(dy, b0, b, pla, suicideLegal, X) && SelfSustaining(dy, b0, pla, suicideLegal, X) && p in X
    ensures 0 <= p < |b| && z != m && z in Libs(dy, b, Chain(dy, b, p))
  {
    hide Region, Chain, Libs, Position, Border, Vital, Held;
    ChainHolds(dy, b0, b, pla, X, p);
    var e1, e2 :| Eye(dy, b0, pla, suicideLegal, Chain(dy, b0, p), X, e1) && Eye(dy, b0, pla, suicideLegal, Chain(dy, b0, p), X, e2)
      && Region(dy, b0, pla, e1) != Region(dy, b0, pla, e2);
    z := EyeGivesLiberty(dy, b0, b, pla, suicideLegal, X, p, e1);
    if z == m {
      z := EyeGivesLiberty(dy, b0, b, pla, suicideLegal, X, p, e2);
      if z == m {
        RegionsDisjoint(dy, b0, pla, e1, e2, m);
      }
    }
  }

  /** The opponent's move captures nothing of the set. */
  lemma SetNotCaptured(dy: int, b0: seq<int>, b: seq<int>, pla: int, suicideLegal: bool, X: set<int>, m: int, p: int)
    requires Stone(pla) && Standing(dy, b0, b, pla, suicideLegal, X) && SelfSustaining(dy, b0, pla, suicideLegal, X)
    requires 0 <= m < |b| && b[m] == EMPTY && p in X
    ensures p !in Captured(dy, b, Opp(pla), m)
  {
    hide SelfSustaining, Captured, Chain, Libs, Held;
    if p in Captured(dy, b, Opp(pla), m) {
      var z := SpareEye(dy, b0, b, pla, suicideLegal, X, p, m);
      CapturedTouch(dy, b, Opp(pla), m, p);
    }
  }

  /** A foreign neighbour of an enclosed region belongs to it. */
  lemma EnclosedSteps(dy: int, b0: seq<int>, b: seq<int>, pla: int, suicideLegal: bool, X: set<int>, e: int, x: int,
          y: int)
    requires Stone(pla) && Coloured(dy, b0) && Standing(dy, b0, b, pla, suicideLegal, X) && Enclosed(dy, b0, pla, X, e)
    requires x in Region(dy, b0, pla, e) && 0 <= y < |b| && Adj(dy, x, y)
    ensures b[y] == EMPTY || b[y] == Opp(pla) ==> y in Region(dy, b0, pla, e)
    ensures b[y] == pla ==> y in X
  {
    hide Position;
    var R := Region(dy, b0, pla, e);
    RegionBasics(dy, b0, pla, e);
    assert Adj(dy, y, x);
    AdjTouches(dy, y, x, R);
    if y in R {
      assert Held(b0, b, pla, suicideLegal, R);
    } else {
      assert y !in Foreign(b0, pla);
      assert b0[y] == pla ==> y in Border(dy, b0, pla, R);
    }
  }

  /** Filling an enclosed region is suicide. */
  lemma FillingIsSuicide(dy: int, b0: seq<int>, b: seq<int>, pla: int, suicideLegal: bool, X: set<int>, e: int, m: int)
    requires Stone(pla) && Coloured(dy, b0) && Standing(dy, b0, b, pla, suicideLegal, X)
    requires SelfSustaining(dy, b0, pla, suicideLegal, X)
    requires Enclosed(dy, b0, pla, X, e) && m in Region(dy, b0, pla, e) && 0 <= m < |b| && b[m] == EMPTY
    requires forall z :: z in Region(dy, b0, pla, e) && 0 <= z < |b| && b[z] == EMPTY ==> z == m
    ensures Suicide(dy, b, Opp(pla), m)
  {
    hide Position, Region, SelfSustaining, Captured, Move, Enclosed, Standing;
    var opp, R := Opp(pla), Region(dy, b0, pla, e);
    assert |b| == |b0| && Position(dy, b) by {
      StandingPosition(dy, b0, b, pla, suicideLegal, X);
    }
    if q :| q in Captured(dy, b, opp, m) {
      CapturedTouch(dy, b, opp, m, q);
      var y := TouchesWitness(dy, m, Chain(dy, b, q));
      ChainSame(dy, b, q, y);
      ChainCaptured(dy, b, opp, m, q, y);
      EnclosedSteps(dy, b0, b, pla, suicideLegal, X, e, m, y);
      SetNotCaptured(dy, b0, b, pla, suicideLegal, X, m, y);
    } else {
      FilledHasNoLiberty(dy, b0, b, pla, suicideLegal, X, e, m);
      NothingCaptured(dy, b, opp, m);
    }
  }

  lemma StandingPosition(dy: int, b0: seq<int>, b: seq<int>, pla: int, suicideLegal: bool, X: set<int>)
    requires Standing(dy, b0, b, pla, suicideLegal, X)
    ensures |b| == |b0| && Position(dy, b)
  {
  }

  /** Captures take whole chains. */
  lemma ChainCaptured(dy: int, b: seq<int>, opp: int, m: int, q: int, y: int)
    requires Position(dy, b) && Stone(opp) && 0 <= m < |b| && b[m] == EMPTY
    requires q in Captured(dy, b, opp, m) && 0 <= q < |b| && y in Chain(dy, b, q)
    ensures y in Captured(dy, b, opp, m)
  {
    CapturedTouch(dy, b, opp, m, q);
    ChainSame(dy, b[m := opp], q, y);
  }

  lemma FilledHasNoLiberty(dy: int, b0: seq<int>, b: seq<int>, pla: int, suicideLegal: bool, X: set<int>, e: int, m: int)
    requires Stone(pla) && Coloured(dy, b0) && Standing(dy, b0, b, pla, suicideLegal, X)
    requires Enclosed(dy, b0, pla, X, e) && m in Region(dy, b0, pla, e) && 0 <= m < |b| && b[m] == EMPTY
    requires forall z :: z in Region(dy, b0, pla, e) && 0 <= z < |b| && b[z] == EMPTY ==> z == m
    ensures Libs(dy, b[m := Opp(pla)], Chain(dy, b[m := Opp(pla)], m)) == {}
  {
    hide Position, Region, Enclosed, Standing, Border;
    var opp, R := Opp(pla), Region(dy, b0, pla, e);
    var b1 := b[m := opp];
    assert |b| == |b0| by {
      StandingPosition(dy, b0, b, pla, suicideLegal, X);
    }
    forall x, y | x in R && y in Pts(b1, opp) && Adj(dy, x, y)
      ensures y in R
    {
      if y != m {
        EnclosedSteps(dy, b0, b, pla, suicideLegal, X, e, x, y);
      }
    }
    CompLeast(dy, Pts(b1, opp), m, R);
    forall z | 0 <= z < |b1| && b1[z] == EMPTY
      ensures !Touches(dy, z, Chain(dy, b1, m))
    {
      if Touches(dy, z, Chain(dy, b1, m)) {
        var x := TouchesWitness(dy, z, Chain(dy, b1, m));
        EnclosedSteps(dy, b0, b, pla, suicideLegal, X, e, x, z);
      }
    }
  }

  lemma NothingCaptured(dy: int, b: seq<int>, opp: int, m: int)
    requires Position(dy, b) && Stone(opp) && 0 <= m < |b| && b[m] == EMPTY
    requires forall q :: q !in Captured(dy, b, opp, m)
    requires Libs(dy, b[m := opp], Chain(dy, b[m := opp], m)) == {}
    ensures Suicide(dy, b, opp, m)
  {
    hide Position, Libs, Chain, Captured;
    assert AfterCaptures(dy, b, opp, m) == b[m := opp];
  }

  /** An enclosed region stays held through a move of the opponent. */
  lemma HeldNext(dy: int, b0: seq<int>, b: seq<int>, pla: int, suicideLegal: bool, X: set<int>, e: int, m: int)
    requires Stone(pla) && Coloured(dy, b0) && Standing(dy, b0, b, pla, suicideLegal, X)
    requires SelfSustaining(dy, b0, pla, suicideLegal, X)
    requires Enclosed(dy, b0, pla, X, e) && 0 <= m < |b| && b[m] == EMPTY
    requires (suicideLegal || !Suicide(dy, b, Opp(pla), m))
    ensures Held(b0, Move(dy, b, Opp(pla), m), pla, suicideLegal, Region(dy, b0, pla, e))
  {
    hide Position, Region, SelfSustaining, Captured, Move, Enclosed;
    var opp, R, r := Opp(pla), Region(dy, b0, pla, e), Move(dy, b, Opp(pla), m);
    assert Held(b0, b, pla, suicideLegal, R);
    MoveKeepsOrClears(dy, b, opp, m);
    var z :| z in R && 0 <= z < |b| && b[z] == EMPTY;
    if forall x :: x in R && 0 <= x < |b| && b[x] == EMPTY ==> x == m {
      FillingIsSuicide(dy, b0, b, pla, suicideLegal, X, e, m);
      assert r[m] == EMPTY && z == m;
    } else {
      var x :| x in R && 0 <= x < |b| && b[x] == EMPTY && x != m;
      assert r[x] == EMPTY;
    }
    if !suicideLegal {
      forall p | p in R && 0 <= p < |b| && r[p] == EMPTY
        ensures b[p] == EMPTY
      {
        if b[p] != EMPTY {
          NotTakenBack(dy, b, opp, m, p);
        }
      }
    }
  }

  /** Without suicide a move takes no stone of its own colour off the board. */
  lemma NotTakenBack(dy: int, b: seq<int>, opp: int, m: int, p: int)
    requires Position(dy, b) && Stone(opp) && 0 <= m < |b| && b[m] == EMPTY && !Suicide(dy, b, opp, m)
    requires 0 <= p < |b| && b[p] == opp
    ensures Move(dy, b, opp, m)[p] == opp
  {
    hide Libs;
    var a := AfterCaptures(dy, b, opp, m);
    if p in Dead(dy, a, opp) {
      SuicideIsOwnChain(dy, b, opp, m, p);
      ChainBasics(dy, b[m := opp], m);
    }
  }

  lemma StandsNext(dy: int, b0: seq<int>, b: seq<int>, pla: int, suicideLegal: bool, X: set<int>, m: int)
    requires Stone(pla) && Coloured(dy, b0) && Standing(dy, b0, b, pla, suicideLegal, X)
    requires SelfSustaining(dy, b0, pla, suicideLegal, X)
    requires 0 <= m < |b| && b[m] == EMPTY && (suicideLegal || !Suicide(dy, b, Opp(pla), m))
    ensures Standing(dy, b0, Move(dy, b, Opp(pla), m), pla, suicideLegal, X)
  {
    hide Position, Region, SelfSustaining, Enclosed, Held, Suicide;
    var opp, r := Opp(pla), Move(dy, b, Opp(pla), m);
    assert Coloured(dy, b) by {
      PositionColoured(dy, b);
    }
    MoveIsPosition(dy, b, opp, m);
    forall p | p in X
      ensures 0 <= p < |r| && r[p] == pla
    {
      SetNotCaptured(dy, b0, b, pla, suicideLegal, X, m, p);
    }
    forall e | Enclosed(dy, b0, pla, X, e)
      ensures Held(b0, r, pla, suicideLegal, Region(dy, b0, pla, e))
    {
      HeldNext(dy, b0, b, pla, suicideLegal, X, e, m);
    }
  }

  lemma PositionColoured(dy: int, b: seq<int>)
    requires Position(dy, b)
    ensures Coloured(dy, b)
  {
  }

  /** However often the opponent moves, every stone of a self-sustaining set stays on the board. */
  lemma {:induction false} PassAliveIsSafe(dy: int, pla: int, suicideLegal: bool, X: set<int>, run: seq<seq<int>>, i: nat)
    requires Stone(pla) && OpponentRun(dy, Opp(pla), suicideLegal, run) && i < |run|
    requires Position(dy, run[0]) && SelfSustaining(dy, run[0], pla, suicideLegal, X)
    ensures Standing(dy, run[0], run[i], pla, suicideLegal, X)
    ensures forall p :: p in X ==> 0 <= p < |run[i]| && run[i][p] == pla
  {
    hide Position, SelfSustaining, Enclosed, Held, Region, Move, Suicide;
    if i == 0 {
      StandsAtFirst(dy, run[0], pla, suicideLegal, X);
    } else {
      PassAliveIsSafe(dy, pla, suicideLegal, X, run, i - 1);
      var b, r := run[i - 1], run[i];
      assert OpponentTurn(dy, b, Opp(pla), suicideLegal, r);
      if r != b {
        var m :| Plays(dy, b, Opp(pla), suicideLegal, m, r);
        PositionColoured(dy, run[0]);
        StandsNext(dy, run[0], b, pla, suicideLegal, X, m);
      }
    }
  }

  // ----- the same, for games as they are played on a board

  /** The opponent's turn: any move, or pass, that play accepts, but no suicide where suicide is illegal. */
  ghost predicate AcceptedTurn(dy: int, g: GoState, opp: int, suicideLegal: bool, loc: int, h: GoState)
  {
    && Legal(dy, g.b, g.ko, opp, loc) && (loc == PASS || 0 <= loc < |g.b|)
    && (suicideLegal || loc == PASS || !Suicide(dy, g.b, opp, loc))
    && h == Step(dy, g, opp, loc)
  }

  /** A game in which the owner only passes. */
  ghost predicate PassingGame(dy: int, opp: int, suicideLegal: bool, game: seq<GoState>)
  {
    forall i :: 0 < i < |game| ==> game[i] == GoState(game[i - 1].b, None) || OpponentMoves(dy, game[i - 1], opp, suicideLegal, game[i])
  }

  ghost predicate OpponentMoves(dy: int, g: GoState, opp: int, suicideLegal: bool, h: GoState)
  {
    exists loc :: AcceptedTurn(dy, g, opp, suicideLegal, loc, h)
  }

  lemma AcceptedIsTurn(dy: int, g: GoState, opp: int, suicideLegal: bool, loc: int, h: GoState)
    requires AcceptedTurn(dy, g, opp, suicideLegal, loc, h)
    ensures OpponentTurn(dy, g.b, opp, suicideLegal, h.b)
  {
    hide Move, KoPoint;
    if loc != PASS {
      assert Plays(dy, g.b, opp, suicideLegal, loc, h.b);
    }
  }

  /** No pass-alive stone is ever removed while its owner passes, whatever the opponent plays. */
  lemma PassAliveStonesStay(dy: int, pla: int, suicideLegal: bool, game: seq<GoState>, i: nat, p: int)
    requires Stone(pla) && PassingGame(dy, Opp(pla), suicideLegal, game) && i < |game|
    requires Position(dy, game[0].b) && p in Alive(dy, game[0].b, pla, suicideLegal)
    ensures 0 <= p < |game[i].b| && game[i].b[p] == pla
  {
    hide AcceptedTurn, OpponentTurn, Position, Alive;
    var run := seq(|game|, k requires 0 <= k < |game| => game[k].b);
    forall k | 0 < k < |run|
      ensures OpponentTurn(dy, run[k - 1], Opp(pla), suicideLegal, run[k])
    {
      if game[k] == GoState(game[k - 1].b, None) {
        PassIsTurn(dy, run[k - 1], Opp(pla), suicideLegal);
      } else {
        var loc :| AcceptedTurn(dy, game[k - 1], Opp(pla), suicideLegal, loc, game[k]);
        AcceptedIsTurn(dy, game[k - 1], Opp(pla), suicideLegal, loc, game[k]);
      }
    }
    AliveIsGreatest(dy, run[0], pla, suicideLegal, {});
    PassAliveIsSafe(dy, pla, suicideLegal, Alive(dy, run[0], pla, suicideLegal), run, i);
  }

  lemma PassIsTurn(dy: int, b: seq<int>, opp: int, suicideLegal: bool)
    ensures OpponentTurn(dy, b, opp, suicideLegal, b)
  {
  }
}
