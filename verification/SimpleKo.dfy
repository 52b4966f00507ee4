/** What a move does to each point, what the ko point forbids, and which moves are legal, said without
    the steps that compute them. */
module SimpleKo {
  import opened Grid
  import opened Components
  import opened Rules
  import opened Captures
  import opened Queries
  import opened Undoing

  // ----- what a move does

  /** An opposing stone is captured exactly when the move fills the last liberty of its chain. */
  lemma CapturedIff(dy: int, b: seq<int>, pla: int, loc: int, q: int)
    requires Position(dy, b) && Stone(pla) && 0 <= loc < |b| && b[loc] == EMPTY
    ensures q in Captured(dy, b, pla, loc) <==>
      0 <= q < |b| && b[q] == Opp(pla) && Libs(dy, b, Chain(dy, b, q)) == {loc}
  {
    if q in Captured(dy, b, pla, loc) {
      CapturedTouch(dy, b, pla, loc, q);
    } else if 0 <= q < |b| && b[q] == Opp(pla) {
      PlaceKeepsChain(dy, b, pla, loc, q);
      PlaceLibs(dy, b, pla, loc, Chain(dy, b, q));
    }
  }

  /** A stone of the mover is removed exactly when the move is suicide and its chain is the one extended. */
  lemma OwnRemovedIff(dy: int, b: seq<int>, pla: int, loc: int, q: int)
    requires Position(dy, b) && Stone(pla) && 0 <= loc < |b| && b[loc] == EMPTY
    requires 0 <= q < |b| && b[q] == pla
    ensures Move(dy, b, pla, loc)[q] == EMPTY <==> Suicide(dy, b, pla, loc) && Touches(dy, loc, Chain(dy, b, q))
  {
    var b1 := b[loc := pla];
    hide Suicide, Move, Position, Libs;
    UndoCases(dy, b, pla, loc);
    CapturedAre(dy, b, pla, loc);
    if Touches(dy, loc, Chain(dy, b, q)) {
      PlaceJoinsChain(dy, b, pla, loc, q);
      ChainBasics(dy, b, q);
    } else {
      PlaceKeepsChain(dy, b, pla, loc, q);
      if q in Chain(dy, b1, loc) {
        ChainSame(dy, b1, loc, q);
        ChainBasics(dy, b1, loc);
        ChainBasics(dy, b, q);
      }
    }
  }

  lemma CapturedAre(dy: int, b: seq<int>, pla: int, loc: int)
    requires Stone(pla) && 0 <= loc < |b| && b[loc] == EMPTY
    ensures forall q :: q in Captured(dy, b, pla, loc) ==> 0 <= q < |b| && q != loc && b[q] == Opp(pla)
  {
  }

  /** Every point after a move: captured chains are those whose last liberty was filled; the mover's own
      stones stay unless the move is suicide, which takes the extended chain; nothing else changes. */
  lemma MovePoint(dy: int, b: seq<int>, pla: int, loc: int, q: int)
    requires Position(dy, b) && Stone(pla) && 0 <= loc < |b| && b[loc] == EMPTY && 0 <= q < |b|
    ensures Move(dy, b, pla, loc)[q] ==
      if q == loc then (if Suicide(dy, b, pla, loc) then EMPTY else pla)
      else if b[q] == Opp(pla) && Libs(dy, b, Chain(dy, b, q)) == {loc} then EMPTY
      else if b[q] == pla && Suicide(dy, b, pla, loc) && Touches(dy, loc, Chain(dy, b, q)) then EMPTY
      else b[q]
  {
    UndoCases(dy, b, pla, loc);
    CapturedIff(dy, b, pla, loc, q);
    SuicideSite(dy, b, pla, loc);
    if b[q] == pla {
      OwnRemovedIff(dy, b, pla, loc, q);
    }
    hide Libs, Captured, Chain, Position, Suicide, Touches;
    MoveKeepsOrClears(dy, b, pla, loc);
    CapturedAre(dy, b, pla, loc);
  }

  lemma SuicideSite(dy: int, b: seq<int>, pla: int, loc: int)
    requires Stone(pla) && 0 <= loc < |b| && b[loc] == EMPTY
    ensures Suicide(dy, b, pla, loc) <==> Move(dy, b, pla, loc)[loc] == EMPTY
    ensures loc in Chain(dy, b[loc := pla], loc)
    ensures forall q :: q in Chain(dy, b[loc := pla], loc) ==> 0 <= q < |b| && (q == loc || b[q] == pla)
  {
    ChainBasics(dy, b[loc := pla], loc);
  }

  /** The only moves on an empty point that leave the board as it was are single-stone suicides. */
  lemma MoveChangesIff(dy: int, b: seq<int>, pla: int, loc: int)
    requires Position(dy, b) && Stone(pla) && 0 <= loc < |b| && b[loc] == EMPTY
    ensures Move(dy, b, pla, loc) == b <==> SingleStoneSuicide(dy, b, pla, loc)
  {
    var b1 := b[loc := pla];
    UndoCases(dy, b, pla, loc);
    SuicideSite(dy, b, pla, loc);
    hide Suicide, Move, Position, Libs, Captured, Chain;
    if SingleStoneSuicide(dy, b, pla, loc) {
      assert Clear(b1, {loc}) == b;
    } else if Suicide(dy, b, pla, loc) {
      var q := OtherMember(Chain(dy, b1, loc), loc);
      assert Clear(b1, Chain(dy, b1, loc))[q] == EMPTY;
    }
  }

  lemma OtherMember(X: set<int>, x: int) returns (y: int)
    requires x in X && X != {x}
    ensures y in X && y != x
  {
    y := SomeMember(X - {x});
  }

  /** The liberties counted ahead of a move are those its chain has after it; there are none exactly when
      the move is suicide. */
  lemma NextLibsAreFinal(dy: int, b: seq<int>, pla: int, loc: int)
    requires Position(dy, b) && Stone(pla) && 0 <= loc < |b| && b[loc] == EMPTY
    ensures NextLibs(dy, b, pla, loc) == {} <==> Move(dy, b, pla, loc)[loc] == EMPTY
    ensures var r := Move(dy, b, pla, loc); r[loc] == pla ==> NextLibs(dy, b, pla, loc) == Libs(dy, r, Chain(dy, r, loc))
  {
    SuicideTest(dy, b, pla, loc);
    SuicideIsDeath(dy, b, pla, loc);
    hide Libs, Chain, Move, AfterCaptures;
  }

  // ----- what the ko point forbids

  /** A single captured stone is a chain of its own next to the move. */
  lemma CapturedAlone(dy: int, b: seq<int>, pla: int, m: int, q: int)
    requires Position(dy, b) && Stone(pla) && 0 <= m < |b| && b[m] == EMPTY && Captured(dy, b, pla, m) == {q}
    ensures 0 <= q < |b| && q != m && b[q] == Opp(pla) && Touches(dy, q, {m})
  {
    hide Position, Captured, Libs;
    assert q in Captured(dy, b, pla, m);
    CapturedTouch(dy, b, pla, m, q);
    var x := TouchesWitness(dy, m, Chain(dy, b, q));
    CapturedChain(dy, b, pla, m, q, x);
    AdjTouches(dy, x, m, {m});
    hide Chain;
    assert x in {q};
  }

  /** After a ko capture at m the board is the old one with a stone at m and none at q. */
  lemma KoShape(dy: int, b: seq<int>, pla: int, m: int, q: int)
    requires Position(dy, b) && Stone(pla) && 0 <= m < |b| && b[m] == EMPTY
    requires KoPoint(dy, b, pla, m) == Some(q)
    ensures var r := Move(dy, b, pla, m);
      && 0 <= q < |b| && q != m && b[q] == Opp(pla)
      && r == b[m := pla][q := EMPTY]
      && Chain(dy, r, m) == {m} && Libs(dy, r, {m}) == {q}
  {
    hide KoPoint, Move, Captured, Position, Chain, Touches, Suicide, Libs;
    KoFacts(dy, b, pla, m, q);
    CapturedAlone(dy, b, pla, m, q);
    UndoCases(dy, b, pla, m);
    var r := Move(dy, b, pla, m);
    assert r == b[m := pla][q := EMPTY];
    ChainBasics(dy, r, m);
    OneOnly(Chain(dy, r, m), m);
    TouchingIsLiberty(dy, r, q, {m});
    OneOnly(Libs(dy, r, {m}), q);
  }

  lemma TouchingIsLiberty(dy: int, b: seq<int>, e: int, X: set<int>)
    requires 0 <= e < |b| && b[e] == EMPTY && Touches(dy, e, X)
    ensures e in Libs(dy, b, X)
  {
  }

  lemma OneOnly(X: set<int>, x: int)
    requires |X| == 1 && x in X
    ensures X == {x}
  {
    assert |X - {x}| == 0;
    assert X == {x} + (X - {x});
  }

  lemma KoFacts(dy: int, b: seq<int>, pla: int, m: int, q: int)
    requires Stone(pla) && 0 <= m < |b| && KoPoint(dy, b, pla, m) == Some(q)
    ensures var r := Move(dy, b, pla, m);
      && Captured(dy, b, pla, m) == {q} && !Suicide(dy, b, pla, m)
      && r[m] == pla && |Chain(dy, r, m)| == 1 && |Libs(dy, r, Chain(dy, r, m))| == 1
  {
    hide Captured, Move, Chain, Libs;
    OneOnly(Captured(dy, b, pla, m), q);
  }

  /** A stone that is a chain of its own is next to no other chain of its colour. */
  lemma LoneStoneApart(dy: int, r: seq<int>, m: int, p: int)
    requires 0 <= m < |r| && Chain(dy, r, m) == {m} && 0 <= p < |r| && r[p] == r[m] && p != m
    ensures !Touches(dy, m, Chain(dy, r, p))
  {
    if Touches(dy, m, Chain(dy, r, p)) {
      var x := TouchesWitness(dy, m, Chain(dy, r, p));
      ChainSame(dy, r, p, x);
      ChainStep(dy, r, x, m);
      ChainBasics(dy, r, p);
    }
  }

  /** Retaking at the ko point takes just the one stone that captured. */
  lemma RetakesOne(dy: int, b: seq<int>, pla: int, m: int, q: int, p: int)
    requires Position(dy, b) && Stone(pla) && 0 <= m < |b| && b[m] == EMPTY
    requires 0 <= q < |b| && q != m && b[q] == Opp(pla)
    requires Chain(dy, b[m := pla][q := EMPTY], m) == {m}
    requires 0 <= p < |b| && b[p] == pla
    ensures Libs(dy, b[m := pla][q := EMPTY], Chain(dy, b[m := pla][q := EMPTY], p)) != {q}
  {
    var r := b[m := pla][q := EMPTY];
    var l := SomeMember(Libs(dy, b, Chain(dy, b, p)));
    assert Chain(dy, b, p) <= Chain(dy, r, p) by {
      CompMono(dy, Pts(b, pla), Pts(r, pla), p);
    }
    LoneStoneApart(dy, r, m, p);
    hide Chain, Position;
    assert Touches(dy, l, Chain(dy, r, p));
    assert l in Libs(dy, r, Chain(dy, r, p));
  }

  lemma RetakenIs(dy: int, b: seq<int>, pla: int, m: int, q: int)
    requires Position(dy, b) && Stone(pla) && 0 <= m < |b| && b[m] == EMPTY
    requires 0 <= q < |b| && q != m && b[q] == Opp(pla)
    requires var r := b[m := pla][q := EMPTY]; Position(dy, r) && Chain(dy, r, m) == {m} && Libs(dy, r, {m}) == {q}
    ensures Captured(dy, b[m := pla][q := EMPTY], Opp(pla), q) == {m}
  {
    hide Position, Libs, Chain, Captured;
    var r := b[m := pla][q := EMPTY];
    forall p
      ensures p in Captured(dy, r, Opp(pla), q) <==> p == m
    {
      CapturedIff(dy, r, Opp(pla), q, p);
      if p != m && 0 <= p < |b| && b[p] == pla {
        RetakesOne(dy, b, pla, m, q, p);
      }
    }
  }

  lemma SwapBack(b: seq<int>, pla: int, m: int, q: int)
    requires 0 <= m < |b| && b[m] == EMPTY && 0 <= q < |b| && q != m && b[q] == Opp(pla)
    ensures Clear(b[m := pla][q := EMPTY][q := Opp(pla)], {m}) == b
  {
  }

  lemma KoRestores(dy: int, b: seq<int>, pla: int, m: int, q: int)
    requires Position(dy, b) && Stone(pla) && 0 <= m < |b| && b[m] == EMPTY
    requires KoPoint(dy, b, pla, m) == Some(q)
    ensures 0 <= q < |b| && Move(dy, b, pla, m)[q] == EMPTY
    ensures Move(dy, Move(dy, b, pla, m), Opp(pla), q) == b
  {
    assert Coloured(dy, b);
    hide *;
    KoShape(dy, b, pla, m, q);
    MoveIsPosition(dy, b, pla, m);
    RetakenIs(dy, b, pla, m, q);
    TakesBack(dy, b, pla, m, q);
  }

  lemma TakesBack(dy: int, b: seq<int>, pla: int, m: int, q: int)
    requires 0 <= m < |b| && b[m] == EMPTY && 0 <= q < |b| && q != m && b[q] == Opp(pla) && Stone(pla)
    requires Position(dy, b[m := pla][q := EMPTY]) && Captured(dy, b[m := pla][q := EMPTY], Opp(pla), q) == {m}
    ensures Move(dy, b[m := pla][q := EMPTY], Opp(pla), q) == b
  {
    hide Position, Libs, Chain, Captured, Move, Suicide;
    var r := b[m := pla][q := EMPTY];
    UndoCases(dy, r, Opp(pla), q);
    CapturingIsNoSuicide(dy, r, Opp(pla), q, m);
    SwapBack(b, pla, m, q);
  }

  lemma CapturingIsNoSuicide(dy: int, b: seq<int>, pla: int, loc: int, q: int)
    requires Position(dy, b) && Stone(pla) && 0 <= loc < |b| && b[loc] == EMPTY && q in Captured(dy, b, pla, loc)
    ensures !Suicide(dy, b, pla, loc)
  {
    UndoCases(dy, b, pla, loc);
  }

  /** A reply that restores the board retakes one stone with one stone. */
  lemma RestoringIsKo(dy: int, b: seq<int>, pla: int, m: int, q: int)
    requires Position(dy, b) && Stone(pla) && 0 <= m < |b| && b[m] == EMPTY && !SingleStoneSuicide(dy, b, pla, m)
    requires 0 <= q < |b| && Move(dy, b, pla, m)[q] == EMPTY
    requires Move(dy, Move(dy, b, pla, m), Opp(pla), q) == b
    ensures KoPoint(dy, b, pla, m) == Some(q)
  {
    var r, opp := Move(dy, b, pla, m), Opp(pla);
    MoveIsPosition(dy, b, pla, m);
    MoveKeepsOrClears(dy, r, opp, q);
    UndoCases(dy, b, pla, m);
    SuicideSite(dy, b, pla, m);
    if Suicide(dy, b, pla, m) {
      LostStone(dy, b, pla, m);
      assert false;
    }
    RestoringShape(dy, b, pla, m, q);
    KoPointIs(dy, b, pla, m, q);
  }

  /** A suicide of more than one stone takes a stone that was there before. */
  lemma LostStone(dy: int, b: seq<int>, pla: int, m: int)
    requires Position(dy, b) && Stone(pla) && 0 <= m < |b| && b[m] == EMPTY
    requires Suicide(dy, b, pla, m) && !SingleStoneSuicide(dy, b, pla, m)
    ensures exists s :: 0 <= s < |b| && b[s] == pla && Move(dy, b, pla, m)[s] == EMPTY
  {
    var C := Chain(dy, b[m := pla], m);
    UndoCases(dy, b, pla, m);
    SuicideSite(dy, b, pla, m);
    hide Suicide, Move, Position, Libs, Captured, Chain;
    var s := OtherMember(C, m);
    assert Clear(b[m := pla], C)[s] == EMPTY;
  }

  lemma RestoringShape(dy: int, b: seq<int>, pla: int, m: int, q: int)
    requires Position(dy, b) && Stone(pla) && 0 <= m < |b| && b[m] == EMPTY && !Suicide(dy, b, pla, m)
    requires 0 <= q < |b| && Move(dy, b, pla, m)[q] == EMPTY
    requires Move(dy, Move(dy, b, pla, m), Opp(pla), q) == b
    ensures var r := Move(dy, b, pla, m);
      && Captured(dy, b, pla, m) == {q} && r[m] == pla && Chain(dy, r, m) == {m} && Libs(dy, r, {m}) == {q}
  {
    var r, opp := Move(dy, b, pla, m), Opp(pla);
    MoveIsPosition(dy, b, pla, m);
    UndoCases(dy, b, pla, m);
    CapturedAre(dy, b, pla, m);
    SuicideSite(dy, r, opp, q);
    hide Suicide, Move, Position, Libs, Captured, Chain;
    RetakenChain(dy, r, opp, q, m);
    ChainBasics(dy, r, m);
    MoveKeepsOrClears(dy, r, opp, q);
    RestoringPoints(b, r, Captured(dy, b, pla, m), Chain(dy, r, m), pla, m, q);
  }

  lemma RestoringPoints(b: seq<int>, r: seq<int>, caps: set<int>, C: set<int>, pla: int, m: int, q: int)
    requires Stone(pla) && 0 <= m < |b| == |r| && b[m] == EMPTY && 0 <= q < |b| && r[q] == EMPTY && b[q] != EMPTY
    requires r == Clear(b[m := pla], caps) && forall c :: c in caps ==> 0 <= c < |b| && c != m && b[c] == Opp(pla)
    requires forall x :: 0 <= x < |b| ==> b[x] == EMPTY || b[x] == r[q := Opp(pla)][x]
    requires m in C && forall x :: x in C ==> 0 <= x < |r| && r[x] == pla && b[x] == EMPTY
    ensures caps == {q} && C == {m}
  {
    assert q in caps;
    forall c | c in caps
      ensures c == q
    {
      assert r[c] == EMPTY;
    }
    forall x | x in C
      ensures x == m
    {
      assert r[x] == b[m := pla][x];
    }
  }

  /** A stone that the reply takes off was captured, with its chain, at its last liberty. */
  lemma RetakenChain(dy: int, r: seq<int>, opp: int, q: int, m: int)
    requires Position(dy, r) && Stone(opp) && 0 <= q < |r| && r[q] == EMPTY
    requires 0 <= m < |r| && r[m] == Opp(opp) && Move(dy, r, opp, q)[m] == EMPTY
    ensures Libs(dy, r, Chain(dy, r, m)) == {q} && !Suicide(dy, r, opp, q)
    ensures forall x :: x in Chain(dy, r, m) ==> 0 <= x < |r| && Move(dy, r, opp, q)[x] == EMPTY
  {
    UndoCases(dy, r, opp, q);
    SuicideSite(dy, r, opp, q);
    assert m in Captured(dy, r, opp, q) by {
      hide Position, Libs, Chain, Captured;
    }
    CapturedTouch(dy, r, opp, q, m);
    forall x | x in Chain(dy, r, m)
      ensures x in Captured(dy, r, opp, q)
    {
      CapturedChain(dy, r, opp, q, m, x);
    }
    CapturedAre(dy, r, opp, q);
    hide Position, Libs, Chain, Captured, Move;
  }

  /** The ko point is exactly the point where the opponent could restore the board at once. */
  lemma KoIsRecapture(dy: int, b: seq<int>, pla: int, m: int, q: int)
    requires Position(dy, b) && Stone(pla) && 0 <= m < |b| && b[m] == EMPTY && !SingleStoneSuicide(dy, b, pla, m)
    ensures KoPoint(dy, b, pla, m) == Some(q) <==>
      0 <= q < |b| && Move(dy, b, pla, m)[q] == EMPTY && Move(dy, Move(dy, b, pla, m), Opp(pla), q) == b
  {
    if KoPoint(dy, b, pla, m) == Some(q) {
      KoRestores(dy, b, pla, m, q);
    } else if 0 <= q < |b| && Move(dy, b, pla, m)[q] == EMPTY && Move(dy, Move(dy, b, pla, m), Opp(pla), q) == b {
      RestoringIsKo(dy, b, pla, m, q);
    }
  }

  // ----- which moves are legal

  /** A legal move is a pass, or a move on an empty point that changes the board and is not on the ko point,
      whoever makes it. */
  lemma LegalIff(dy: int, g: GoState, pla: int, loc: int)
    requires Position(dy, g.b) && Stone(pla)
    ensures Legal(dy, g.b, g.ko, pla, loc) <==>
      loc == PASS || (0 <= loc < |g.b| && g.b[loc] == EMPTY && Move(dy, g.b, pla, loc) != g.b && g.ko != Some(loc))
  {
    if 0 <= loc < |g.b| && g.b[loc] == EMPTY {
      MoveChangesIff(dy, g.b, pla, loc);
    }
    hide Move, SingleStoneSuicide, Position;
  }

  /** The reply to a move is legal exactly when it is a pass, or a move on an empty point after which the
      board is neither as it is now nor as it was before the move. */
  lemma LegalReplyIff(dy: int, g: GoState, pla: int, m: int, loc: int)
    requires Position(dy, g.b) && Stone(pla) && m != PASS && Legal(dy, g.b, g.ko, pla, m)
    ensures var h := Step(dy, g, pla, m);
      Legal(dy, h.b, h.ko, Opp(pla), loc) <==>
        loc == PASS || (0 <= loc < |h.b| && h.b[loc] == EMPTY
                        && Move(dy, h.b, Opp(pla), loc) != h.b && Move(dy, h.b, Opp(pla), loc) != g.b)
  {
    var h := Step(dy, g, pla, m);
    hide Move, SingleStoneSuicide, Position, KoPoint;
    MoveIsPosition(dy, g.b, pla, m);
    LegalIff(dy, h, Opp(pla), loc);
    KoIsRecapture(dy, g.b, pla, m, loc);
  }

  /** Two legal moves in a row never bring a position back. */
  lemma NoImmediateRepetition(dy: int, g: GoState, pla: int, m: int, reply: int)
    requires Position(dy, g.b) && Stone(pla) && m != PASS && Legal(dy, g.b, g.ko, pla, m)
    requires reply != PASS && Legal(dy, Step(dy, g, pla, m).b, Step(dy, g, pla, m).ko, Opp(pla), reply)
    ensures Step(dy, Step(dy, g, pla, m), Opp(pla), reply).b != g.b
  {
    hide Move, SingleStoneSuicide, Position, KoPoint;
    LegalReplyIff(dy, g, pla, m, reply);
  }

  /** A reply refused only because of the ko point would have restored the position. */
  lemma RefusedForKo(dy: int, g: GoState, pla: int, m: int, reply: int)
    requires Position(dy, g.b) && Stone(pla) && m != PASS && Legal(dy, g.b, g.ko, pla, m)
    requires var h := Step(dy, g, pla, m);
      Legal(dy, h.b, None, Opp(pla), reply) && !Legal(dy, h.b, h.ko, Opp(pla), reply)
    ensures reply != PASS && 0 <= reply < |g.b|
    ensures Step(dy, GoState(Step(dy, g, pla, m).b, None), Opp(pla), reply).b == g.b
  {
    hide Move, SingleStoneSuicide, Position, KoPoint;
    KoIsRecapture(dy, g.b, pla, m, reply);
  }
}
