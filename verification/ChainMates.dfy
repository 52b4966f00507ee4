/** Stones of one chain share their ladder verdicts. */
module ChainMates {
  import opened Grid
  import opened Components
  import opened Rules
  import opened Queries
  import opened Ladders
  import opened LadderSearch

  ghost predicate Mates(dy: int, b: seq<int>, p: int, q: int)
  {
    0 <= p < |b| && Stone(b[p]) && q in Chain(dy, b, p)
  }

  /** A new stone keeps two stones of a chain together. */
  lemma PlaceKeepsMates(dy: int, b: seq<int>, c: int, m: int, p: int, q: int)
    requires Mates(dy, b, p, q) && Stone(c) && 0 <= m < |b| && b[m] == EMPTY
    ensures Mates(dy, b[m := c], p, q) && b[m := c][p] == b[p]
  {
    ChainBasics(dy, b, p);
    if b[p] == c && Touches(dy, m, Chain(dy, b, p)) {
      PlaceJoinsChain(dy, b, c, m, p);
    } else {
      PlaceKeepsChain(dy, b, c, m, p);
    }
  }

  /** Removing dead chains takes both or neither. */
  lemma ClearKeepsMates(dy: int, b: seq<int>, c: int, p: int, q: int)
    requires Mates(dy, b, p, q)
    ensures var r := Clear(b, Dead(dy, b, c));
      0 <= q < |b| && ((r[p] == EMPTY && r[q] == EMPTY) || (r[p] == b[p] && Mates(dy, r, p, q)))
  {
    ChainSame(dy, b, p, q);
    if p !in Dead(dy, b, c) {
      ClearDeadKeeps(dy, b, c, p);
    }
  }

  lemma MoveKeepsMates(dy: int, b: seq<int>, c: int, m: int, p: int, q: int)
    requires Mates(dy, b, p, q) && Stone(c) && 0 <= m < |b| && b[m] == EMPTY
    ensures var r := Move(dy, b, c, m);
      0 <= q < |b| && ((r[p] == EMPTY && r[q] == EMPTY) || (r[p] == b[p] && Mates(dy, r, p, q)))
  {
    var b1, a := b[m := c], AfterCaptures(dy, b, c, m);
    PlaceKeepsMates(dy, b, c, m, p, q);
    ClearKeepsMates(dy, b1, Opp(c), p, q);
    if a[p] != EMPTY {
      ClearKeepsMates(dy, a, c, p, q);
    }
  }

  /** The target may be named by any stone of its chain. */
  ghost predicate SameTarget(dy: int, g: GoState, p: int, q: int, pla: int, defender: bool)
  {
    && Position(dy, g.b) && Stone(pla) && 0 <= p < |g.b| && 0 <= q < |g.b|
    && ((g.b[p] == pla && Mates(dy, g.b, p, q)) || (!defender && g.b[p] == EMPTY && g.b[q] == EMPTY))
  }

  lemma SameChoices(dy: int, g: GoState, p: int, q: int, pla: int, defender: bool)
    requires SameTarget(dy, g, p, q, pla, defender)
    ensures Decided(dy, g, p, defender) == Decided(dy, g, q, defender)
    ensures Candidates(dy, g.b, p, defender) == Candidates(dy, g.b, q, defender)
  {
    if g.b[p] == pla {
      ChainSame(dy, g.b, p, q);
    }
  }

  lemma SameTargetNext(dy: int, g: GoState, p: int, q: int, pla: int, defender: bool, m: int)
    requires SameTarget(dy, g, p, q, pla, defender) && Decided(dy, g, p, defender) == Unknown
    requires m in Candidates(dy, g.b, p, defender) && Playable(dy, g, pla, defender, m)
    ensures SameTarget(dy, Next(dy, g, pla, defender, m), p, q, pla, !defender)
  {
    CandidatesEmpty(dy, g.b, p, defender, m);
    MoveIsPosition(dy, g.b, Mover(pla, defender), m);
    if !defender {
      AttackedTarget(dy, g, p, pla, m);
    }
    MoveKeepsMates(dy, g.b, Mover(pla, defender), m, p, q);
  }

  /** The ladder value is the same from every stone of the chain. */
  lemma {:induction false} SameValue(n: nat, dy: int, g: GoState, p: int, q: int, pla: int, defender: bool)
    requires SameTarget(dy, g, p, q, pla, defender)
    ensures Value(n, dy, g, p, pla, defender) == Value(n, dy, g, q, pla, defender)
    decreases n
  {
    hide *;
    SameChoices(dy, g, p, q, pla, defender);
    ValueDecided(n, dy, g, p, pla, defender);
    ValueDecided(n, dy, g, q, pla, defender);
    if n > 0 && Decided(dy, g, p, defender) == Unknown {
      ValueUnfold(n - 1, dy, g, p, pla, defender);
      ValueUnfold(n - 1, dy, g, q, pla, defender);
      forall m | m in Candidates(dy, g.b, p, defender) && Playable(dy, g, pla, defender, m)
        ensures 0 <= m < |g.b| && After(n - 1, dy, g, p, pla, defender, m) == After(n - 1, dy, g, q, pla, defender, m)
      {
        SameTargetNext(dy, g, p, q, pla, defender, m);
        PlayableInRange(dy, g, pla, defender, m);
        SameValue(n - 1, dy, Next(dy, g, pla, defender, m), p, q, pla, !defender);
        AfterIs(n - 1, dy, g, p, pla, defender, m);
        AfterIs(n - 1, dy, g, q, pla, defender, m);
      }
      SameOutcomes(n - 1, dy, g, p, q, pla, defender);
    }
  }

  lemma PlayableInRange(dy: int, g: GoState, pla: int, defender: bool, m: int)
    requires Playable(dy, g, pla, defender, m)
    ensures 0 <= m < |g.b|
  {
  }

  lemma AfterIs(n: nat, dy: int, g: GoState, loc: int, pla: int, defender: bool, m: int)
    requires 0 <= m < |g.b|
    ensures After(n, dy, g, loc, pla, defender, m) == Value(n, dy, Next(dy, g, pla, defender, m), loc, pla, !defender)
  {
    hide Value, Next;
  }

  lemma SameOutcomes(n: nat, dy: int, g: GoState, p: int, q: int, pla: int, defender: bool)
    requires Candidates(dy, g.b, p, defender) == Candidates(dy, g.b, q, defender)
    requires forall m :: m in Candidates(dy, g.b, p, defender) && Playable(dy, g, pla, defender, m) ==>
      0 <= m < |g.b| && After(n, dy, g, p, pla, defender, m) == After(n, dy, g, q, pla, defender, m)
    ensures SomeWins(n, dy, g, p, pla, defender) == SomeWins(n, dy, g, q, pla, defender)
    ensures AllFail(n, dy, g, p, pla, defender) == AllFail(n, dy, g, q, pla, defender)
  {
    hide Value, After, Candidates, Playable;
  }

  // ----- the verdict that is memoised

  /** The chain at loc is in an inescapable atari, or can be put into one. */
  ghost predicate Laddered(depth: nat, dy: int, g: GoState, loc: int)
  {
    && 0 <= loc < |g.b| && Stone(g.b[loc])
    && var n := |TargetLibs(dy, g.b, loc)|;
      if n == 1 then Value(depth, dy, RootState(g, true), loc, g.b[loc], true) == Caught
      else n == 2 && WorkingMoves(depth, dy, g, loc) != {}
  }

  lemma SameWorking(depth: nat, dy: int, g: GoState, p: int, q: int, m: int)
    requires Position(dy, g.b) && Mates(dy, g.b, p, q) && |TargetLibs(dy, g.b, p)| == 2 && m in TargetLibs(dy, g.b, p)
    requires AttackWorks(depth, dy, g, p, g.b[p], m)
    ensures 0 <= q < |g.b| && AttackWorks(depth, dy, g, q, g.b[q], m)
  {
    hide Value;
    var pla := g.b[p];
    ChainSame(dy, g.b, p, q);
    var h := RootState(Next(dy, g, pla, false, m), true);
    MoveIsPosition(dy, g.b, Opp(pla), m);
    MoveKeepsMates(dy, g.b, Opp(pla), m, p, q);
    TargetStays(dy, g.b, p, m);
    SameValue(depth, dy, h, p, q, pla, true);
  }

  /** Chain mates are laddered together, by the same attacks. */
  lemma LadderedTogether(depth: nat, dy: int, g: GoState, p: int, q: int)
    requires Position(dy, g.b) && Mates(dy, g.b, p, q)
    ensures Laddered(depth, dy, g, p) == Laddered(depth, dy, g, q)
    ensures |TargetLibs(dy, g.b, p)| == 2 ==> WorkingMoves(depth, dy, g, p) == WorkingMoves(depth, dy, g, q)
  {
    ChainSame(dy, g.b, p, q);
    ChainBasics(dy, g.b, p);
    hide Value, AttackWorks;
    assert Mates(dy, g.b, q, p);
    assert TargetLibs(dy, g.b, p) == TargetLibs(dy, g.b, q);
    if |TargetLibs(dy, g.b, p)| == 1 {
      SameValue(depth, dy, RootState(g, true), p, q, g.b[p], true);
    } else if |TargetLibs(dy, g.b, p)| == 2 {
      forall m | m in TargetLibs(dy, g.b, p)
        ensures AttackWorks(depth, dy, g, p, g.b[p], m) == AttackWorks(depth, dy, g, q, g.b[q], m)
      {
        if AttackWorks(depth, dy, g, p, g.b[p], m) {
          SameWorking(depth, dy, g, p, q, m);
        }
        if AttackWorks(depth, dy, g, q, g.b[q], m) {
          SameWorking(depth, dy, g, q, p, m);
        }
      }
    }
  }
}
