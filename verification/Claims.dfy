/** The points each player is given by pass-alive analysis, and why no point is given to both. */
module Claims {
  import opened Grid
  import opened Components
  import opened Rules
  import opened PassAlive

  datatype AreaRules = AreaRules(safeBigTerritories: bool, unsafeBigTerritories: bool, suicideLegal: bool)

  ghost predicate HasStone(b: seq<int>, c: int)
  {
    exists q :: 0 <= q < |b| && b[q] == c
  }

  /** Not next to a stone of pla. */
  ghost predicate Internal(dy: int, b: seq<int>, pla: int, p: int)
  {
    !Touches(dy, p, Pts(b, pla))
  }

  ghost predicate AtMostOneInternal(dy: int, b: seq<int>, pla: int, R: set<int>)
  {
    forall p, q :: p in R && q in R && Internal(dy, b, pla, p) && Internal(dy, b, pla, q) ==> p == q
  }

  ghost predicate HoldsStone(b: seq<int>, c: int, R: set<int>)
  {
    exists p :: p in R && 0 <= p < |b| && b[p] == c
  }

  /** The region of e goes to pla: it is enclosed by pass-alive chains and too small to live in, or free
      of opposing stones, which under the loosest rule is enough. */
  ghost predicate Marked(dy: int, b: seq<int>, pla: int, rules: AreaRules, e: int)
  {
    && 0 <= e < |b| && b[e] == EMPTY && HasStone(b, pla)
    && var R := Region(dy, b, pla, e);
      var enclosed := Enclosed(dy, b, pla, Alive(dy, b, pla, rules.suicideLegal), e);
      || (AtMostOneInternal(dy, b, pla, R) && enclosed)
      || (rules.safeBigTerritories && !HoldsStone(b, Opp(pla), R) && enclosed)
      || (rules.unsafeBigTerritories && !HoldsStone(b, Opp(pla), R))
  }

  ghost predicate InMarked(dy: int, b: seq<int>, pla: int, rules: AreaRules, p: int)
  {
    exists e :: Marked(dy, b, pla, rules, e) && p in Region(dy, b, pla, e)
  }

  /** The pass-alive stones of pla and the regions that go with them. */
  ghost function Claim(dy: int, b: seq<int>, pla: int, rules: AreaRules): set<int>
  {
    set p | 0 <= p < |b| && (p in Alive(dy, b, pla, rules.suicideLegal) || InMarked(dy, b, pla, rules, p))
  }

  // ----- what is claimed, by stones and regions

  /** All stones of pla next to the region are in X. */
  lemma EnclosedIff(dy: int, b: seq<int>, pla: int, X: set<int>, e: int)
    ensures Enclosed(dy, b, pla, X, e) <==>
      && 0 <= e < |b| && b[e] == EMPTY
      && forall q :: 0 <= q < |b| && b[q] == pla && q !in X ==> !Touches(dy, q, Region(dy, b, pla, e))
  {
    hide Region, Touches;
    var B := Border(dy, b, pla, Region(dy, b, pla, e));
    assert B <= X <==> forall q :: 0 <= q < |b| && b[q] == pla && q !in X ==> !Touches(dy, q, Region(dy, b, pla, e));
  }

  /** The region of the empty point e is claimed, as long as pla has a stone at all, in three cases: it
      touches no chain that is not pass-alive and at most one point of it touches no stone of pla; or it
      touches no such chain, holds no opposing stone, and big territories count; or it just holds no opposing
      stone, and unsafe ones count as well. */
  lemma MarkedIff(dy: int, b: seq<int>, pla: int, rules: AreaRules, e: int)
    ensures var R, A := Region(dy, b, pla, e), Alive(dy, b, pla, rules.suicideLegal);
      var enclosed := forall q :: 0 <= q < |b| && b[q] == pla && q !in A ==> !Touches(dy, q, R);
      var open := forall p :: p in R && 0 <= p < |b| ==> b[p] != Opp(pla);
      var small := forall p, q :: p in R && q in R && p != q ==> Touches(dy, p, Pts(b, pla)) || Touches(dy, q, Pts(b, pla));
      Marked(dy, b, pla, rules, e) <==>
        && 0 <= e < |b| && b[e] == EMPTY && pla in b
        && ((enclosed && small)
            || (rules.safeBigTerritories && open && enclosed)
            || (rules.unsafeBigTerritories && open))
  {
    EnclosedIff(dy, b, pla, Alive(dy, b, pla, rules.suicideLegal), e);
    hide Region, Touches, Alive, Enclosed;
    assert pla in b <==> HasStone(b, pla);
    assert HoldsStone(b, Opp(pla), Region(dy, b, pla, e)) <==>
      !forall p :: p in Region(dy, b, pla, e) && 0 <= p < |b| ==> b[p] != Opp(pla);
  }

  /** A point is claimed when it holds a pass-alive stone or lies in a claimed region. */
  lemma ClaimIff(dy: int, b: seq<int>, pla: int, rules: AreaRules, p: int)
    ensures p in Claim(dy, b, pla, rules) <==>
      || p in Alive(dy, b, pla, rules.suicideLegal)
      || exists e :: Marked(dy, b, pla, rules, e) && p in Region(dy, b, pla, e)
  {
    hide Marked, Alive;
    if e :| Marked(dy, b, pla, rules, e) && p in Region(dy, b, pla, e) {
      assert 0 <= p < |b|;
    }
    AliveInRange(dy, b, pla, rules.suicideLegal, p);
  }

  lemma AliveInRange(dy: int, b: seq<int>, pla: int, suicideLegal: bool, p: int)
    ensures p in Alive(dy, b, pla, suicideLegal) ==> 0 <= p < |b|
  {
  }

  // ----- a pass-alive chain cannot stand in a small enclosed region

  lemma RegionTakes(dy: int, b: seq<int>, pla: int, e: int, z: int, T: set<int>)
    requires 0 <= e < |b| && b[e] == EMPTY && T <= Region(dy, b, pla, e)
    requires z in Foreign(b, pla) && Touches(dy, z, T)
    ensures z in Region(dy, b, pla, e)
  {
    hide Region;
    RegionBasics(dy, b, pla, e);
    var q := TouchesWitness(dy, z, T);
  }

  lemma ChainInRegion(dy: int, b: seq<int>, pla: int, e: int, q: int)
    requires 0 <= e < |b| && b[e] == EMPTY && 0 <= q < |b| && b[q] == Opp(pla) && q in Region(dy, b, pla, e)
    ensures Chain(dy, b, q) <= Region(dy, b, pla, e)
  {
    RegionSame(dy, b, pla, e, q);
    CompMono(dy, Pts(b, b[q]), Foreign(b, pla), q);
  }

  /** An eye of an opposing chain inside the region lies in the region. */
  lemma EyeInRegion(dy: int, b: seq<int>, pla: int, suicideLegal: bool, e: int, C: set<int>, Y: set<int>, t: int)
    requires Stone(pla) && 0 <= e < |b| && b[e] == EMPTY && C <= Region(dy, b, pla, e)
    requires Eye(dy, b, Opp(pla), suicideLegal, C, Y, t)
    ensures Touches(dy, t, C) && t in Region(dy, b, pla, e)
  {
    hide Region, Border;
    RegionBasics(dy, b, Opp(pla), t);
    assert Relevant(b, suicideLegal, t);
    RegionTakes(dy, b, pla, e, t, C);
  }

  lemma NotBothInternal(dy: int, b: seq<int>, pla: int, R: set<int>, e1: int, e2: int) returns (t: int)
    requires AtMostOneInternal(dy, b, pla, R) && e1 in R && e2 in R && e1 != e2
    ensures (t == e1 || t == e2) && Touches(dy, t, Pts(b, pla))
  {
    t := if Internal(dy, b, pla, e1) then e2 else e1;
  }

  lemma NoneAliveInside(dy: int, b: seq<int>, pla: int, suicideLegal: bool, X: set<int>, Y: set<int>, e: int, p: int)
    requires Stone(pla) && SelfSustaining(dy, b, pla, suicideLegal, X) && SelfSustaining(dy, b, Opp(pla), suicideLegal, Y)
    requires Enclosed(dy, b, pla, X, e) && AtMostOneInternal(dy, b, pla, Region(dy, b, pla, e))
    requires p in Region(dy, b, pla, e)
    ensures p !in Y
  {
    hide Region, Chain, AtMostOneInternal, Vital;
    if p in Y {
      var opp, R, C := Opp(pla), Region(dy, b, pla, e), Chain(dy, b, p);
      ChainInRegion(dy, b, pla, e, p);
      var e1, e2 :| Eye(dy, b, opp, suicideLegal, C, Y, e1) && Eye(dy, b, opp, suicideLegal, C, Y, e2)
        && Region(dy, b, opp, e1) != Region(dy, b, opp, e2);
      EyeInRegion(dy, b, pla, suicideLegal, e, C, Y, e1);
      EyeInRegion(dy, b, pla, suicideLegal, e, C, Y, e2);
      var t := NotBothInternal(dy, b, pla, R, e1, e2);
      OneEyeOnly(dy, b, pla, suicideLegal, X, Y, e, C, t);
    }
  }

  /** The other player's chain next to t would have both its eyes in one region. */
  lemma OneEyeOnly(dy: int, b: seq<int>, pla: int, suicideLegal: bool, X: set<int>, Y: set<int>, e: int, C: set<int>,
          t: int)
    requires Stone(pla) && SelfSustaining(dy, b, pla, suicideLegal, X) && Enclosed(dy, b, pla, X, e)
    requires C <= Region(dy, b, pla, e) && t in Region(dy, b, pla, e)
    requires Eye(dy, b, Opp(pla), suicideLegal, C, Y, t)
    ensures Internal(dy, b, pla, t)
  {
    hide Region, Chain, Vital;
    var opp, R := Opp(pla), Region(dy, b, pla, e);
    if !Internal(dy, b, pla, t) {
      var d := TouchesWitness(dy, t, Pts(b, pla));
      AdjTouches(dy, d, t, R);
      assert d in Border(dy, b, pla, R);
      RegionBasics(dy, b, opp, t);
      AdjTouches(dy, d, t, {t});
      RegionTakes(dy, b, opp, t, d, {t});
      ChainInRegion(dy, b, opp, t, d);
      var D := Chain(dy, b, d);
      var t1, t2 :| Eye(dy, b, pla, suicideLegal, D, X, t1) && Eye(dy, b, pla, suicideLegal, D, X, t2)
        && Region(dy, b, pla, t1) != Region(dy, b, pla, t2);
      SameRegion(dy, b, pla, suicideLegal, X, Y, e, C, t, D, t1);
      SameRegion(dy, b, pla, suicideLegal, X, Y, e, C, t, D, t2);
    }
  }

  lemma SameRegion(dy: int, b: seq<int>, pla: int, suicideLegal: bool, X: set<int>, Y: set<int>, e: int, C: set<int>,
          t: int,
      D: set<int>, t1: int)
    requires Stone(pla) && Enclosed(dy, b, pla, X, e) && C <= Region(dy, b, pla, e)
    requires Eye(dy, b, Opp(pla), suicideLegal, C, Y, t) && D <= Region(dy, b, Opp(pla), t)
    requires Eye(dy, b, pla, suicideLegal, D, X, t1)
    ensures Region(dy, b, pla, t1) == Region(dy, b, pla, e)
  {
    hide Region, Border;
    var opp := Opp(pla);
    EyeInRegion(dy, b, opp, suicideLegal, t, D, X, t1);
    assert Relevant(b, suicideLegal, t1);
    RegionTakes(dy, b, pla, e, t1, C);
    RegionSame(dy, b, pla, e, t1);
  }

  // ----- the board is connected

  lemma NextLoc(size: int, x: int, y: int, u: int)
    requires size >= 1
    ensures u == x + 1 || u == x - 1 ==> Adj(size + 1, Loc(size, x, y), Loc(size, u, y))
    ensures u == y + 1 || u == y - 1 ==> Adj(size + 1, Loc(size, x, y), Loc(size, x, u))
  {
    assert (size + 1) * (y + 2) == (size + 1) * (y + 1) + (size + 1);
    assert (size + 1) * y == (size + 1) * (y + 1) - (size + 1);
  }

  lemma {:induction false} StepWithin(size: int, S: set<int>, x: int, y: int, x': int, y': int)
    requires size >= 1 && 0 <= x < size && 0 <= y < size && 0 <= x' < size && 0 <= y' < size
    requires Loc(size, x, y) in S && forall p, q :: p in S && OnBoard(size, q) && Adj(size + 1, p, q) ==> q in S
    ensures Loc(size, x', y') in S
    decreases (if x < x' then x' - x else x - x') + (if y < y' then y' - y else y - y')
  {
    hide Loc, Adj, OnBoard;
    if x != x' {
      var u := if x < x' then x + 1 else x - 1;
      LocOnBoard(size, u, y);
      NextLoc(size, x, y, u);
      StepWithin(size, S, u, y, x', y');
    } else if y != y' {
      var u := if y < y' then y + 1 else y - 1;
      LocOnBoard(size, x, u);
      NextLoc(size, x, y, u);
      StepWithin(size, S, x, u, x', y');
    }
  }

  /** A set of points that cannot be left by stepping on the board is the whole board. */
  lemma BoardConnected(size: int, S: set<int>, p: int, q: int)
    requires size >= 1 && OnBoard(size, p) && OnBoard(size, q)
    requires p in S && forall x, y :: x in S && OnBoard(size, y) && Adj(size + 1, x, y) ==> y in S
    ensures q in S
  {
    var x, y := Coordinates(size, p);
    var x', y' := Coordinates(size, q);
    StepWithin(size, S, x, y, x', y');
  }

  // ----- no point is claimed twice

  /** On a board with a stone, the empty points around e touch a stone. */
  lemma EmptyMeetsStone(size: int, b: seq<int>, e: int, s: int) returns (z: int, q: int)
    requires size >= 2 && Walled(size, b) && Coloured(size + 1, b)
    requires 0 <= e < |b| && b[e] == EMPTY && 0 <= s < |b| && Stone(b[s])
    ensures z in Comp(size + 1, Pts(b, EMPTY), e) && 0 <= q < |b| && Stone(b[q]) && Adj(size + 1, z, q)
  {
    var dy := size + 1;
    var E := Comp(dy, Pts(b, EMPTY), e);
    CompClosed(dy, Pts(b, EMPTY), e);
    if forall x, y :: x in E && 0 <= y < |b| && Stone(b[y]) ==> !Adj(dy, x, y) {
      forall x, y | x in E && OnBoard(size, y) && Adj(dy, x, y)
        ensures y in E
      {
        assert 0 <= y < |b| && b[y] != WALL;
      }
      BoardConnected(size, E, e, s);
      assert false;
    }
    z, q :| z in E && 0 <= q < |b| && Stone(b[q]) && Adj(dy, z, q);
  }

  /** The stone next to both players' regions belongs to the one and stands in the region of the other. */
  lemma SharedEmpty(dy: int, b: seq<int>, pla: int, rules: AreaRules, e1: int, e2: int, z: int, q: int)
    requires Stone(pla) && !rules.unsafeBigTerritories
    requires Marked(dy, b, pla, rules, e1) && Marked(dy, b, Opp(pla), rules, e2)
    requires z in Region(dy, b, pla, e1) && z in Region(dy, b, Opp(pla), e2)
    requires 0 <= q < |b| && b[q] == pla
    ensures !Adj(dy, z, q)
  {
    hide Region, AtMostOneInternal, Alive, HasStone;
    var opp := Opp(pla);
    var X, Y := Alive(dy, b, pla, rules.suicideLegal), Alive(dy, b, opp, rules.suicideLegal);
    if Adj(dy, z, q) {
      assert Adj(dy, q, z);
      AdjTouches(dy, q, z, Region(dy, b, pla, e1));
      assert q in Border(dy, b, pla, Region(dy, b, pla, e1)) && q in X;
      AdjTouches(dy, q, z, {z});
      RegionTakes(dy, b, opp, e2, q, {z});
      AliveOutside(dy, b, opp, rules, e2, q);
    }
  }

  /** No pass-alive stone stands in a region marked for the opponent. */
  lemma AliveOutside(dy: int, b: seq<int>, pla: int, rules: AreaRules, e: int, p: int)
    requires Stone(pla) && !rules.unsafeBigTerritories && Marked(dy, b, pla, rules, e) && p in Region(dy, b, pla, e)
    ensures p !in Alive(dy, b, Opp(pla), rules.suicideLegal)
  {
    hide Region, AtMostOneInternal, Enclosed, HasStone, SelfSustaining;
    var X, Y := Alive(dy, b, pla, rules.suicideLegal), Alive(dy, b, Opp(pla), rules.suicideLegal);
    AliveIsGreatest(dy, b, pla, rules.suicideLegal, {});
    AliveIsGreatest(dy, b, Opp(pla), rules.suicideLegal, {});
    if p in Y {
      AliveColour(dy, b, Opp(pla), rules.suicideLegal, p);
      if HoldsStone(b, Opp(pla), Region(dy, b, pla, e)) {
        NoneAliveInside(dy, b, pla, rules.suicideLegal, X, Y, e, p);
      }
    }
  }

  lemma AliveColour(dy: int, b: seq<int>, pla: int, suicideLegal: bool, p: int)
    requires p in Alive(dy, b, pla, suicideLegal)
    ensures 0 <= p < |b| && b[p] == pla
  {
    AliveIsGreatest(dy, b, pla, suicideLegal, {});
  }

  lemma RegionsMeetInEmpty(dy: int, b: seq<int>, pla: int, e1: int, e2: int, p: int)
    requires Stone(pla) && 0 <= e1 < |b| && b[e1] == EMPTY && 0 <= e2 < |b| && b[e2] == EMPTY
    requires p in Region(dy, b, pla, e1) && p in Region(dy, b, Opp(pla), e2)
    ensures 0 <= p < |b| && b[p] == EMPTY
    ensures Comp(dy, Pts(b, EMPTY), p) <= Region(dy, b, pla, e1)
    ensures Comp(dy, Pts(b, EMPTY), p) <= Region(dy, b, Opp(pla), e2)
  {
    RegionBasics(dy, b, pla, e1);
    RegionBasics(dy, b, Opp(pla), e2);
    RegionSame(dy, b, pla, e1, p);
    RegionSame(dy, b, Opp(pla), e2, p);
    CompMono(dy, Pts(b, EMPTY), Foreign(b, pla), p);
    CompMono(dy, Pts(b, EMPTY), Foreign(b, Opp(pla)), p);
  }

  lemma NoSharedRegion(size: int, b: seq<int>, rules: AreaRules, e1: int, e2: int, p: int)
    requires size >= 2 && Walled(size, b) && Coloured(size + 1, b) && !rules.unsafeBigTerritories
    requires Marked(size + 1, b, BLACK, rules, e1) && p in Region(size + 1, b, BLACK, e1)
    requires Marked(size + 1, b, WHITE, rules, e2)
    ensures p !in Region(size + 1, b, WHITE, e2)
  {
    hide Region, AtMostOneInternal, Enclosed, Alive, Walled, Comp;
    var dy := size + 1;
    if p in Region(dy, b, WHITE, e2) {
      RegionsMeetInEmpty(dy, b, BLACK, e1, e2, p);
      var s :| 0 <= s < |b| && b[s] == BLACK;
      var z, q := EmptyMeetsStone(size, b, p, s);
      if b[q] == BLACK {
        SharedEmpty(dy, b, BLACK, rules, e1, e2, z, q);
      } else {
        SharedEmpty(dy, b, WHITE, rules, e2, e1, z, q);
      }
    }
  }

  /** Without the loosest rule no point is claimed by both players, so it does not matter whose area is
      computed first. */
  lemma ClaimsDisjoint(size: int, b: seq<int>, rules: AreaRules)
    requires size >= 2 && Walled(size, b) && Coloured(size + 1, b) && !rules.unsafeBigTerritories
    ensures Claim(size + 1, b, BLACK, rules) !! Claim(size + 1, b, WHITE, rules)
  {
    hide Region, Marked, Alive, Walled, Coloured;
    var dy := size + 1;
    if p :| p in Claim(dy, b, BLACK, rules) && p in Claim(dy, b, WHITE, rules) {
      if InMarked(dy, b, BLACK, rules, p) {
        var e1 :| Marked(dy, b, BLACK, rules, e1) && p in Region(dy, b, BLACK, e1);
        AliveOutside(dy, b, BLACK, rules, e1, p);
        var e2 :| Marked(dy, b, WHITE, rules, e2) && p in Region(dy, b, WHITE, e2);
        NoSharedRegion(size, b, rules, e1, e2, p);
      } else {
        AliveColour(dy, b, BLACK, rules.suicideLegal, p);
        if InMarked(dy, b, WHITE, rules, p) {
          var e2 :| Marked(dy, b, WHITE, rules, e2) && p in Region(dy, b, WHITE, e2);
          AliveOutside(dy, b, WHITE, rules, e2, p);
        } else {
          AliveColour(dy, b, WHITE, rules.suicideLegal, p);
        }
      }
    }
  }

  // ----- the area of both players

  /** The owner of each point when WHITE's claim is written over BLACK's. */
  ghost function AreaColours(dy: int, b: seq<int>, rules: AreaRules): (r: seq<int>)
    ensures |r| == |b|
  {
    seq(|b|, p requires 0 <= p < |b| =>
      if p in Claim(dy, b, WHITE, rules) then WHITE else if p in Claim(dy, b, BLACK, rules) then BLACK else EMPTY)
  }

  /** Stones on points that nobody claims belong to their own colour. */
  ghost function WithStones(size: int, b: seq<int>, area: seq<int>): (r: seq<int>)
    requires size >= 0 && |area| == |b|
    ensures |r| == |b|
  {
    seq(|b|, p requires 0 <= p < |b| => if area[p] == EMPTY && OnBoard(size, p) then b[p] else area[p])
  }

  lemma ClaimOnBoard(dy: int, b: seq<int>, pla: int, rules: AreaRules, p: int)
    requires Stone(pla) && p in Claim(dy, b, pla, rules)
    ensures 0 <= p < |b| && b[p] != WALL
  {
    hide Alive, AtMostOneInternal, Enclosed, HoldsStone, Region;
    if InMarked(dy, b, pla, rules, p) {
      var e :| Marked(dy, b, pla, rules, e) && p in Region(dy, b, pla, e);
      RegionBasics(dy, b, pla, e);
    } else {
      AliveColour(dy, b, pla, rules.suicideLegal, p);
    }
  }

  /** The area is what each player claims, and without the loosest rule it is the same whichever claim is
      written last. */
  lemma AreaIsFair(size: int, b: seq<int>, rules: AreaRules, p: int)
    requires size >= 2 && Walled(size, b) && Coloured(size + 1, b) && !rules.unsafeBigTerritories && 0 <= p < |b|
    ensures AreaColours(size + 1, b, rules)[p] == BLACK <==> p in Claim(size + 1, b, BLACK, rules)
    ensures AreaColours(size + 1, b, rules)[p] == WHITE <==> p in Claim(size + 1, b, WHITE, rules)
    ensures AreaColours(size + 1, b, rules)[p] ==
      if p in Claim(size + 1, b, BLACK, rules) then BLACK else if p in Claim(size + 1, b, WHITE, rules) then WHITE else EMPTY
  {
    hide Claim, Walled, Coloured;
    ClaimsDisjoint(size, b, rules);
  }
}
