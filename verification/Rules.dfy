/** The rules of Go on a colouring, stated with connected components and no caches:
    a move places a stone, then removes every opposing chain without liberties, then every chain of
    the mover without liberties. */
module Rules {
  import opened Grid
  import opened Components

  ghost function Chain(dy: int, b: seq<int>, p: int): set<int>
    requires 0 <= p < |b|
  {
    Comp(dy, Pts(b, b[p]), p)
  }

  /** The stones of colour c that stand in chains without liberties. */
  ghost function Dead(dy: int, b: seq<int>, c: int): set<int>
  {
    set p | 0 <= p < |b| && b[p] == c && Libs(dy, b, Chain(dy, b, p)) == {}
  }

  ghost predicate AllBreathe(dy: int, b: seq<int>)
  {
    forall p :: 0 <= p < |b| && Stone(b[p]) ==> Libs(dy, b, Chain(dy, b, p)) != {}
  }

  /** A colouring on which every chain has a liberty. */
  ghost predicate Position(dy: int, b: seq<int>)
  {
    Coloured(dy, b) && AllBreathe(dy, b)
  }

  ghost function Captured(dy: int, b: seq<int>, pla: int, loc: int): set<int>
    requires 0 <= loc < |b|
  {
    Dead(dy, b[loc := pla], Opp(pla))
  }

  ghost function AfterCaptures(dy: int, b: seq<int>, pla: int, loc: int): (r: seq<int>)
    requires 0 <= loc < |b|
    ensures |r| == |b|
  {
    Clear(b[loc := pla], Captured(dy, b, pla, loc))
  }

  /** The colouring after pla moves at the empty point loc. */
  ghost function Move(dy: int, b: seq<int>, pla: int, loc: int): (r: seq<int>)
    requires 0 <= loc < |b|
    ensures |r| == |b|
  {
    var a := AfterCaptures(dy, b, pla, loc);
    Clear(a, Dead(dy, a, pla))
  }

  /** The simple ko point the move leaves: the one captured stone, when a single stone was captured
      by a new single stone in atari. */
  ghost function KoPoint(dy: int, b: seq<int>, pla: int, loc: int): Option<int>
    requires 0 <= loc < |b|
  {
    var caps, r := Captured(dy, b, pla, loc), Move(dy, b, pla, loc);
    if |caps| == 1 && r[loc] == pla && |Chain(dy, r, loc)| == 1 && |Libs(dy, r, Chain(dy, r, loc))| == 1
    then var p :| p in caps; Some(p)
    else None
  }

  lemma KoPointIs(dy: int, b: seq<int>, pla: int, loc: int, q: int)
    requires 0 <= loc < |b| && |Captured(dy, b, pla, loc)| == 1 ==> q in Captured(dy, b, pla, loc)
    requires 0 <= loc < |b|
    ensures var r := Move(dy, b, pla, loc);
      KoPoint(dy, b, pla, loc) ==
        if |Captured(dy, b, pla, loc)| == 1 && r[loc] == pla && |Chain(dy, r, loc)| == 1 && |Libs(dy, r, Chain(dy, r, loc))| == 1
        then Some(q) else None
  {
    var caps := Captured(dy, b, pla, loc);
    if |caps| == 1 {
      assert |caps - {q}| == 0;
      assert caps == {q};
    }
  }

  lemma MoveKeepsOrClears(dy: int, b: seq<int>, pla: int, loc: int)
    requires 0 <= loc < |b|
    ensures forall p :: 0 <= p < |b| ==> Move(dy, b, pla, loc)[p] == EMPTY || Move(dy, b, pla, loc)[p] == b[loc := pla][p]
  {
  }

  // ----- chains

  lemma ChainBasics(dy: int, b: seq<int>, p: int)
    requires 0 <= p < |b|
    ensures p in Chain(dy, b, p)
    ensures Closed(dy, Pts(b, b[p]), Chain(dy, b, p))
    ensures forall q :: q in Chain(dy, b, p) ==> 0 <= q < |b| && b[q] == b[p]
  {
    CompClosed(dy, Pts(b, b[p]), p);
  }

  lemma ChainSame(dy: int, b: seq<int>, p: int, q: int)
    requires 0 <= p < |b| && q in Chain(dy, b, p)
    ensures 0 <= q < |b| && b[q] == b[p] && Chain(dy, b, q) == Chain(dy, b, p)
  {
    ChainBasics(dy, b, p);
    CompSame(dy, Pts(b, b[p]), p, q);
  }

  lemma ChainStep(dy: int, b: seq<int>, p: int, q: int)
    requires 0 <= p < |b| && 0 <= q < |b| && b[p] == b[q] && Adj(dy, p, q)
    ensures Chain(dy, b, p) == Chain(dy, b, q)
  {
    ChainBasics(dy, b, p);
    CompStep(dy, Pts(b, b[p]), p, p, q);
    ChainSame(dy, b, p, q);
  }

  /** Taking other stones off the board does not change a chain and takes no liberty from it. */
  lemma ClearKeepsChain(dy: int, b: seq<int>, X: set<int>, p: int)
    requires 0 <= p < |b| && b[p] != EMPTY
    requires Chain(dy, b, p) !! X
    ensures Chain(dy, Clear(b, X), p) == Chain(dy, b, p)
    ensures forall S :: Libs(dy, b, S) <= Libs(dy, Clear(b, X), S)
  {
    ChainBasics(dy, b, p);
    var r := Clear(b, X);
    assert Pts(r, b[p]) == Pts(b, b[p]) - X;
    CompLocal(dy, Pts(b, b[p]), Pts(r, b[p]), p);
  }

  /** A new stone does not change a chain that it does not join. */
  lemma PlaceKeepsChain(dy: int, b: seq<int>, c: int, loc: int, p: int)
    requires 0 <= loc < |b| && b[loc] == EMPTY && c != EMPTY
    requires 0 <= p < |b| && b[p] != EMPTY
    requires b[p] != c || !Touches(dy, loc, Chain(dy, b, p))
    ensures Chain(dy, b[loc := c], p) == Chain(dy, b, p)
  {
    ChainBasics(dy, b, p);
    var r, C := b[loc := c], Chain(dy, b, p);
    if b[p] != c {
      assert Pts(r, b[p]) == Pts(b, b[p]);
    } else {
      assert Pts(r, b[p]) == Pts(b, b[p]) + {loc};
      forall x, y | x in C && y in Pts(r, b[p]) && Adj(dy, x, y)
        ensures y in C
      {
        assert Adj(dy, y, x);
      }
      CompLocal(dy, Pts(b, b[p]), Pts(r, b[p]), p);
    }
  }

  /** A new stone of a chain's colour next to it joins it. */
  lemma PlaceJoinsChain(dy: int, b: seq<int>, c: int, loc: int, p: int)
    requires 0 <= loc < |b| && b[loc] == EMPTY && c != EMPTY
    requires 0 <= p < |b| && b[p] == c && Touches(dy, loc, Chain(dy, b, p))
    ensures Chain(dy, b[loc := c], p) == Chain(dy, b[loc := c], loc)
    ensures Chain(dy, b, p) <= Chain(dy, b[loc := c], loc)
  {
    var r, C := b[loc := c], Chain(dy, b, p);
    ChainBasics(dy, b, p);
    CompMono(dy, Pts(b, c), Pts(r, c), p);
    var q := TouchesWitness(dy, loc, C);
    ChainSame(dy, r, p, q);
    ChainStep(dy, r, q, loc);
  }

  lemma PlaceLibs(dy: int, b: seq<int>, c: int, loc: int, X: set<int>)
    requires 0 <= loc < |b| && b[loc] == EMPTY && c != EMPTY
    ensures Libs(dy, b[loc := c], X) == Libs(dy, b, X) - {loc}
    ensures loc in Libs(dy, b, X) <==> Touches(dy, loc, X)
  {
  }

  // ----- dead chains

  lemma DeadIsWhole(dy: int, b: seq<int>, c: int, p: int)
    requires 0 <= p < |b| && p !in Dead(dy, b, c)
    ensures Chain(dy, b, p) !! Dead(dy, b, c)
  {
    if q :| q in Chain(dy, b, p) && q in Dead(dy, b, c) {
      ChainSame(dy, b, p, q);
    }
  }

  lemma ClearDeadKeeps(dy: int, b: seq<int>, c: int, p: int)
    requires 0 <= p < |b| && b[p] != EMPTY && p !in Dead(dy, b, c)
    ensures Chain(dy, Clear(b, Dead(dy, b, c)), p) == Chain(dy, b, p)
    ensures Libs(dy, b, Chain(dy, b, p)) <= Libs(dy, Clear(b, Dead(dy, b, c)), Chain(dy, b, p))
  {
    DeadIsWhole(dy, b, c, p);
    ClearKeepsChain(dy, b, Dead(dy, b, c), p);
  }

  /** Every move leaves a position on which every chain has a liberty. */
  lemma MoveIsPosition(dy: int, b: seq<int>, pla: int, loc: int)
    requires Coloured(dy, b) && Stone(pla) && 0 <= loc < |b| && b[loc] == EMPTY
    ensures Position(dy, Move(dy, b, pla, loc))
    ensures forall p :: 0 <= p < |b| ==> (Move(dy, b, pla, loc)[p] == WALL <==> b[p] == WALL)
  {
    var b1 := b[loc := pla];
    var a, r := AfterCaptures(dy, b, pla, loc), Move(dy, b, pla, loc);
    forall p | 0 <= p < |r| && Stone(r[p])
      ensures Libs(dy, r, Chain(dy, r, p)) != {}
    {
      ClearDeadKeeps(dy, b1, Opp(pla), p);
      ClearDeadKeeps(dy, a, pla, p);
      if r[p] == pla {
        assert p !in Dead(dy, a, pla);
      } else {
        assert p !in Dead(dy, b1, Opp(pla));
      }
    }
  }

  /** On a position, a move captures only chains it touches. */
  lemma CapturedTouch(dy: int, b: seq<int>, pla: int, loc: int, p: int)
    requires Position(dy, b) && Stone(pla) && 0 <= loc < |b| && b[loc] == EMPTY
    requires p in Captured(dy, b, pla, loc)
    ensures 0 <= p < |b| && b[p] == Opp(pla) && Chain(dy, b[loc := pla], p) == Chain(dy, b, p)
    ensures Touches(dy, loc, Chain(dy, b, p)) && Libs(dy, b, Chain(dy, b, p)) == {loc}
  {
    PlaceKeepsChain(dy, b, pla, loc, p);
    PlaceLibs(dy, b, pla, loc, Chain(dy, b, p));
  }

  /** On a position, the only chain of the mover that can be removed is the one just extended. */
  lemma SuicideIsOwnChain(dy: int, b: seq<int>, pla: int, loc: int, p: int)
    requires Position(dy, b) && Stone(pla) && 0 <= loc < |b| && b[loc] == EMPTY
    requires p in Dead(dy, AfterCaptures(dy, b, pla, loc), pla)
    ensures p in Chain(dy, b[loc := pla], loc)
    ensures Chain(dy, AfterCaptures(dy, b, pla, loc), loc) == Chain(dy, b[loc := pla], loc)
    ensures Dead(dy, AfterCaptures(dy, b, pla, loc), pla) == Chain(dy, b[loc := pla], loc)
  {
    var b1, a := b[loc := pla], AfterCaptures(dy, b, pla, loc);
    SuicideTouches(dy, b, pla, loc, p);
    ClearDeadKeeps(dy, b1, Opp(pla), p);
    ClearDeadKeeps(dy, b1, Opp(pla), loc);
    ChainSame(dy, b1, loc, p);
    forall q | q in Dead(dy, a, pla)
      ensures q in Chain(dy, b1, loc)
    {
      SuicideTouches(dy, b, pla, loc, q);
    }
    forall q | q in Chain(dy, b1, loc)
      ensures q in Dead(dy, a, pla)
    {
      ChainSame(dy, b1, loc, q);
      ClearDeadKeeps(dy, b1, Opp(pla), q);
    }
  }

  lemma SuicideTouches(dy: int, b: seq<int>, pla: int, loc: int, p: int)
    requires Position(dy, b) && Stone(pla) && 0 <= loc < |b| && b[loc] == EMPTY
    requires p in Dead(dy, AfterCaptures(dy, b, pla, loc), pla)
    ensures 0 <= p < |b| && p in Chain(dy, b[loc := pla], loc)
  {
    var b1, a := b[loc := pla], AfterCaptures(dy, b, pla, loc);
    ClearDeadKeeps(dy, b1, Opp(pla), p);
    if p != loc {
      var C := Chain(dy, b, p);
      if Touches(dy, loc, C) {
        PlaceJoinsChain(dy, b, pla, loc, p);
        ChainBasics(dy, b, p);
      } else {
        PlaceKeepsChain(dy, b, pla, loc, p);
        PlaceLibs(dy, b, pla, loc, C);
        assert false;
      }
    } else {
      ChainBasics(dy, b1, loc);
    }
  }
}
