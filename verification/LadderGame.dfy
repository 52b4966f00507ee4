/** The ladder game by its rules: which captures the defender may try, and when a position is lost or won,
    in terms of legal moves and liberties alone. */
module LadderGame {
  import opened Grid
  import opened Components
  import opened Rules
  import opened ChainStore
  import opened Queries
  import opened Ladders
  import opened LadderSearch
  import opened Undoing
  import opened SimpleKo

  // ----- the moves

  /** The capturing moves are exactly those that capture a stone next to the chain. */
  lemma CapturingMovesIff(dy: int, b: seq<int>, loc: int, e: int)
    requires Position(dy, b) && 0 <= loc < |b| && Stone(b[loc])
    ensures e in CapturingMoves(dy, b, loc) <==>
      0 <= e < |b| && b[e] == EMPTY && exists q :: q in Captured(dy, b, b[loc], e) && Touches(dy, q, Chain(dy, b, loc))
  {
    var C, pla := Chain(dy, b, loc), b[loc];
    if e in CapturingMoves(dy, b, loc) {
      var q :| 0 <= q < |b| && InAtari(dy, b, Opp(pla), q) && Touches(dy, q, C) && e in Libs(dy, b, Chain(dy, b, q));
      OneOnly(Libs(dy, b, Chain(dy, b, q)), e);
      CapturedIff(dy, b, pla, e, q);
    }
    if 0 <= e < |b| && b[e] == EMPTY {
      if q :| q in Captured(dy, b, pla, e) && Touches(dy, q, C) {
        CapturedIff(dy, b, pla, e, q);
        assert e in Libs(dy, b, Chain(dy, b, q)) && InAtari(dy, b, Opp(pla), q);
      }
    }
  }

  /** The defender's moves at a position: those that fill a liberty of its chain, and those that capture a
      stone next to it. */
  ghost predicate Defence(dy: int, b: seq<int>, loc: int, m: int)
    requires 0 <= loc < |b|
  {
    && 0 <= m < |b| && b[m] == EMPTY
    && (Touches(dy, m, Chain(dy, b, loc)) ||
        exists q :: q in Captured(dy, b, b[loc], m) && Touches(dy, q, Chain(dy, b, loc)))
  }

  lemma DefenceIff(dy: int, g: GoState, loc: int, m: int)
    requires Position(dy, g.b) && 0 <= loc < |g.b| && Stone(g.b[loc])
    ensures m in Candidates(dy, g.b, loc, true) && Playable(dy, g, g.b[loc], true, m) <==>
      m != PASS && Defence(dy, g.b, loc, m) && Legal(dy, g.b, g.ko, g.b[loc], m)
  {
    hide CapturingMoves, Chain, Captured, SingleStoneSuicide;
    CapturingMovesIff(dy, g.b, loc, m);
    PassIsWall(dy, g.b);
  }

  lemma AttackIff(dy: int, g: GoState, loc: int, m: int)
    requires Position(dy, g.b) && 0 <= loc < |g.b| && Stone(g.b[loc])
    ensures m in Candidates(dy, g.b, loc, false) && Playable(dy, g, g.b[loc], false, m) <==>
      m in Libs(dy, g.b, Chain(dy, g.b, loc)) && Legal(dy, g.b, g.ko, Opp(g.b[loc]), m)
  {
    hide Chain, SingleStoneSuicide;
    PassIsWall(dy, g.b);
  }

  lemma PassIsWall(dy: int, b: seq<int>)
    requires Position(dy, b) && |b| > 0
    ensures b[PASS] == WALL
  {
  }

  // ----- the value

  lemma TargetIs(dy: int, g: GoState, loc: int, pla: int)
    requires 0 <= loc < |g.b| && Stone(pla) && (g.b[loc] == pla || g.b[loc] == EMPTY)
    ensures TargetLibs(dy, g.b, loc) == if g.b[loc] == pla then Libs(dy, g.b, Chain(dy, g.b, loc)) else {}
  {
  }

  lemma Outcomes(n: nat, dy: int, g: GoState, loc: int, pla: int, defender: bool)
    requires Decided(dy, g, loc, defender) == Unknown
    ensures Value(n + 1, dy, g, loc, pla, defender) == Won(defender) <==> SomeWins(n, dy, g, loc, pla, defender)
    ensures Value(n + 1, dy, g, loc, pla, defender) == Failed(defender) <==> AllFail(n, dy, g, loc, pla, defender)
  {
    ValueUnfold(n, dy, g, loc, pla, defender);
    hide Candidates, Playable, Value, Decided;
  }

  /** The position after the defender's move m is caught, or safe, looking n moves ahead. */
  lemma AfterDefence(n: nat, dy: int, g: GoState, loc: int, pla: int, m: int)
    requires 0 <= m < |g.b|
    ensures After(n, dy, g, loc, pla, true, m) == Value(n, dy, Step(dy, g, pla, m), loc, pla, false)
  {
    hide Value, Step;
  }

  lemma AfterAttack(n: nat, dy: int, g: GoState, loc: int, pla: int, m: int)
    requires 0 <= m < |g.b|
    ensures After(n, dy, g, loc, pla, false, m) == Value(n, dy, Step(dy, g, Opp(pla), m), loc, pla, true)
  {
    hide Value, Step;
  }

  /** Every legal defence leads to a position where the defender is caught. */
  ghost predicate EveryDefenceFails(n: nat, dy: int, g: GoState, loc: int, pla: int)
    requires 0 <= loc < |g.b|
  {
    forall m :: m != PASS && Defence(dy, g.b, loc, m) && Legal(dy, g.b, g.ko, pla, m) ==>
      Value(n, dy, Step(dy, g, pla, m), loc, pla, false) == Caught
  }

  ghost predicate SomeDefenceWorks(n: nat, dy: int, g: GoState, loc: int, pla: int)
    requires 0 <= loc < |g.b|
  {
    exists m :: m != PASS && Defence(dy, g.b, loc, m) && Legal(dy, g.b, g.ko, pla, m)
      && Value(n, dy, Step(dy, g, pla, m), loc, pla, false) == Safe
  }

  lemma DefencesAre(n: nat, dy: int, g: GoState, loc: int)
    requires Position(dy, g.b) && 0 <= loc < |g.b| && Stone(g.b[loc])
    ensures AllFail(n, dy, g, loc, g.b[loc], true) <==> EveryDefenceFails(n, dy, g, loc, g.b[loc])
    ensures SomeWins(n, dy, g, loc, g.b[loc], true) <==> SomeDefenceWorks(n, dy, g, loc, g.b[loc])
  {
    hide Value, Position, Defence, Candidates, Playable, Legal, Step, After;
    forall m
      ensures m in Candidates(dy, g.b, loc, true) && Playable(dy, g, g.b[loc], true, m) <==>
        m != PASS && Defence(dy, g.b, loc, m) && Legal(dy, g.b, g.ko, g.b[loc], m)
    {
      DefenceIff(dy, g, loc, m);
    }
    forall m | Playable(dy, g, g.b[loc], true, m)
      ensures 0 <= m < |g.b|
      ensures After(n, dy, g, loc, g.b[loc], true, m) == Value(n, dy, Step(dy, g, g.b[loc], m), loc, g.b[loc], false)
    {
      InRange(dy, g, g.b[loc], true, m);
      AfterDefence(n, dy, g, loc, g.b[loc], m);
    }
  }

  lemma AttacksAre(n: nat, dy: int, g: GoState, loc: int)
    requires Position(dy, g.b) && 0 <= loc < |g.b| && Stone(g.b[loc])
    ensures var L, pla := Libs(dy, g.b, Chain(dy, g.b, loc)), g.b[loc];
      && (AllFail(n, dy, g, loc, pla, false) <==>
            forall m :: m in L && Legal(dy, g.b, g.ko, Opp(pla), m) ==>
              Value(n, dy, Step(dy, g, Opp(pla), m), loc, pla, true) == Safe)
      && (SomeWins(n, dy, g, loc, pla, false) <==>
            exists m :: m in L && Legal(dy, g.b, g.ko, Opp(pla), m)
              && Value(n, dy, Step(dy, g, Opp(pla), m), loc, pla, true) == Caught)
  {
    hide Value, Position, Chain, Candidates, Playable, Legal, Step, After;
    forall m
      ensures m in Candidates(dy, g.b, loc, false) && Playable(dy, g, g.b[loc], false, m) <==>
        m in Libs(dy, g.b, Chain(dy, g.b, loc)) && Legal(dy, g.b, g.ko, Opp(g.b[loc]), m)
    {
      AttackIff(dy, g, loc, m);
    }
    forall m | Playable(dy, g, g.b[loc], false, m)
      ensures 0 <= m < |g.b|
      ensures After(n, dy, g, loc, g.b[loc], false, m) == Value(n, dy, Step(dy, g, Opp(g.b[loc]), m), loc, g.b[loc], true)
    {
      InRange(dy, g, g.b[loc], false, m);
      AfterAttack(n, dy, g, loc, g.b[loc], m);
    }
  }

  lemma InRange(dy: int, g: GoState, pla: int, defender: bool, m: int)
    requires Playable(dy, g, pla, defender, m)
    ensures 0 <= m < |g.b|
  {
  }

  /** The defender is to move. It is caught when it is in atari, the attacker has left no ko, and every legal
      move that fills a liberty of its chain or captures a stone next to it leaves it caught. It is safe when
      it has two liberties, or the attacker has left a ko, or one such move leaves it safe. */
  lemma DefenderToMove(n: nat, dy: int, g: GoState, loc: int, pla: int)
    requires Position(dy, g.b) && 0 <= loc < |g.b| && Stone(pla) && g.b[loc] == pla
    ensures var C := Chain(dy, g.b, loc);
      Value(n + 1, dy, g, loc, pla, true) == Caught <==>
        && |Libs(dy, g.b, C)| <= 1 && g.ko == None
        && forall m :: 0 < m < |g.b| && Legal(dy, g.b, g.ko, pla, m)
              && (m in Libs(dy, g.b, C) || exists q :: q in Captured(dy, g.b, pla, m) && Touches(dy, q, C))
              ==> Value(n, dy, Step(dy, g, pla, m), loc, pla, false) == Caught
    ensures var C := Chain(dy, g.b, loc);
      Value(n + 1, dy, g, loc, pla, true) == Safe <==>
        || |Libs(dy, g.b, C)| >= 2 || g.ko != None
        || exists m :: 0 < m < |g.b| && Legal(dy, g.b, g.ko, pla, m)
              && (m in Libs(dy, g.b, C) || exists q :: q in Captured(dy, g.b, pla, m) && Touches(dy, q, C))
              && Value(n, dy, Step(dy, g, pla, m), loc, pla, false) == Safe
  {
    hide Value, Position, Candidates, Playable, Step, After, Captured, SomeWins, AllFail, SingleStoneSuicide, Chain;
    ValueDecided(n + 1, dy, g, loc, pla, true);
    TargetIs(dy, g, loc, pla);
    if Decided(dy, g, loc, true) == Unknown {
      Outcomes(n, dy, g, loc, pla, true);
      DefencesAre(n, dy, g, loc);
    }
  }

  /** The attacker is to move. The defender is caught at one liberty or when removed, safe at three; at two,
      it is caught when some legal move on a liberty of its chain leaves it caught, and safe when every such
      move leaves it safe. */
  lemma AttackerToMove(n: nat, dy: int, g: GoState, loc: int, pla: int)
    requires Position(dy, g.b) && 0 <= loc < |g.b| && Stone(pla) && g.b[loc] == pla
    ensures var L := Libs(dy, g.b, Chain(dy, g.b, loc));
      Value(n + 1, dy, g, loc, pla, false) == Caught <==>
        || |L| <= 1
        || (|L| == 2 &&
            exists m :: m in L && Legal(dy, g.b, g.ko, Opp(pla), m)
              && Value(n, dy, Step(dy, g, Opp(pla), m), loc, pla, true) == Caught)
    ensures var L := Libs(dy, g.b, Chain(dy, g.b, loc));
      Value(n + 1, dy, g, loc, pla, false) == Safe <==>
        || |L| >= 3
        || (|L| == 2 &&
            forall m :: m in L && Legal(dy, g.b, g.ko, Opp(pla), m) ==>
              Value(n, dy, Step(dy, g, Opp(pla), m), loc, pla, true) == Safe)
  {
    hide Value, Position, Candidates, Playable, Step, After, SomeWins, AllFail, SingleStoneSuicide, Chain;
    ValueDecided(n + 1, dy, g, loc, pla, false);
    TargetIs(dy, g, loc, pla);
    if Decided(dy, g, loc, false) == Unknown {
      Outcomes(n, dy, g, loc, pla, false);
      AttacksAre(n, dy, g, loc);
    }
  }

  /** Without looking ahead only the liberties and the ko decide, and a chain taken off the board is caught. */
  lemma NoMovesAhead(n: nat, dy: int, g: GoState, loc: int, pla: int)
    requires 0 <= loc < |g.b| && Stone(pla)
    ensures g.b[loc] == EMPTY ==> Value(n, dy, g, loc, pla, false) == Caught
    ensures g.b[loc] == pla ==> var k := |Libs(dy, g.b, Chain(dy, g.b, loc))|;
      && Value(0, dy, g, loc, pla, true) == (if k >= 2 || g.ko != None then Safe else Unknown)
      && Value(0, dy, g, loc, pla, false) == (if k <= 1 then Caught else if k >= 3 then Safe else Unknown)
  {
    hide Chain, Libs;
  }

  // ----- lines of play

  /** One turn of the game at a position that is not decided yet: a legal move m of the side to move leads
      from g to h. */
  ghost predicate Turn(dy: int, g: GoState, loc: int, pla: int, defender: bool, m: int, h: GoState)
  {
    && 0 <= loc < |g.b| && g.b[loc] == pla && 0 < m < |g.b|
    && var n := |Libs(dy, g.b, Chain(dy, g.b, loc))|;
      if defender then
        n <= 1 && g.ko == None && Defence(dy, g.b, loc, m) && Legal(dy, g.b, g.ko, pla, m) && h == Step(dy, g, pla, m)
      else
        && n == 2 && m in Libs(dy, g.b, Chain(dy, g.b, loc)) && Legal(dy, g.b, g.ko, Opp(pla), m)
        && h == Step(dy, g, Opp(pla), m)
  }

  ghost predicate Turns(dy: int, g: GoState, loc: int, pla: int, defender: bool, h: GoState)
  {
    exists m :: Turn(dy, g, loc, pla, defender, m, h)
  }

  /** A line of play: every position follows from the one before by a turn of the side to move. */
  ghost predicate LineOfPlay(dy: int, path: seq<GoState>, loc: int, pla: int, defenderFirst: bool)
  {
    forall i :: 0 < i < |path| ==> Turns(dy, path[i - 1], loc, pla, defenderFirst == (i % 2 == 1), path[i])
  }

  /** Some line of play from g goes on for k turns. */
  ghost predicate LongLine(k: nat, dy: int, g: GoState, loc: int, pla: int, defenderFirst: bool)
  {
    exists path :: |path| == k + 1 && path[0] == g && LineOfPlay(dy, path, loc, pla, defenderFirst)
  }

  /** After the attack at m some line of play is too long. */
  ghost predicate OverrunsAfter(k: nat, dy: int, g: GoState, loc: int, m: int)
    requires 0 <= loc < |g.b|
  {
    && 0 <= m < |g.b| && Legal(dy, g.b, g.ko, Opp(g.b[loc]), m)
    && LongLine(k, dy, GoState(Step(dy, g, Opp(g.b[loc]), m).b, None), loc, g.b[loc], true)
  }

  ghost predicate AttackOverruns(k: nat, dy: int, g: GoState, loc: int)
    requires 0 <= loc < |g.b|
  {
    exists m :: m in Libs(dy, g.b, Chain(dy, g.b, loc)) && OverrunsAfter(k, dy, g, loc, m)
  }

  lemma PlayedIsTurn(c: Context, g: GoState, f: Frame, i: int, h: GoState)
    requires Played(c, g, f, i, h)
    ensures Turns(c.dy, g, c.loc, c.pla, IsDefender(c, i), h)
  {
    OpenFacts(c, g, f, i);
    var m := f.moves[f.cur];
    hide Value, Opened, Tried, Distinct, Candidates, Playable, Records, Libs, Chain, Legal, Defence, Position;
    TargetIs(c.dy, g, c.loc, c.pla);
    assert g.b[c.loc] == c.pla;
    if IsDefender(c, i) {
      DefenceIff(c.dy, g, c.loc, m);
    } else {
      AttackIff(c.dy, g, c.loc, m);
    }
    InRange(c.dy, g, c.pla, IsDefender(c, i), m);
    assert Turn(c.dy, g, c.loc, c.pla, IsDefender(c, i), m, h);
  }

  /** Playing on at the last level of a full stack completes a line of play as long as the stack. */
  lemma StackFull(c: Context, frames: seq<Frame>, f: Frame, path: seq<GoState>, h: GoState, rec: MoveRecord)
    requires Ready(c, frames, f, path) && 0 <= f.cur < |f.moves| && |path| == |frames| >= 1
    requires Playable(c.dy, path[|frames| - 1], c.pla, IsDefender(c, |frames| - 1), f.moves[f.cur])
    requires h == Next(c.dy, path[|frames| - 1], c.pla, IsDefender(c, |frames| - 1), f.moves[f.cur])
    requires Records(c.dy, path[|frames| - 1].b, rec) && rec.pla == Mover(c.pla, IsDefender(c, |frames| - 1))
    requires rec.loc == f.moves[f.cur] && rec.simpleKoPoint == path[|frames| - 1].ko
    ensures LongLine(|frames|, c.dy, path[0], c.loc, c.pla, c.defenderFirst)
  {
    hide Playable, Played, Next, Records, Open, Turns;
    var s, line := |frames| - 1, path + [h];
    NowPlayed(c, path[s], f, s, h, rec);
    PlayedIsTurn(c, path[s], f.(record := Some(rec)), s, h);
    forall i | 0 < i < |line|
      ensures Turns(c.dy, line[i - 1], c.loc, c.pla, c.defenderFirst == (i % 2 == 1), line[i])
    {
      if i <= s {
        assert Played(c, path[i - 1], frames[i - 1], i - 1, path[i - 1 + 1]);
        PlayedIsTurn(c, path[i - 1], frames[i - 1], i - 1, path[i]);
      }
      assert IsDefender(c, i - 1) == (c.defenderFirst == (i % 2 == 1));
    }
    assert |line| == |frames| + 1 && line[0] == path[0] && LineOfPlay(c.dy, line, c.loc, c.pla, c.defenderFirst);
  }

  // ----- the attacks that work

  /** The working moves are the liberties of the chain on which the attacker may play and after which the
      defender, to move and with no ko to mind, is caught. */
  lemma WorkingIff(depth: nat, dy: int, g: GoState, loc: int, m: int)
    requires 0 <= loc < |g.b| && Stone(g.b[loc])
    ensures m in WorkingMoves(depth, dy, g, loc) <==>
      && m in Libs(dy, g.b, Chain(dy, g.b, loc)) && Legal(dy, g.b, g.ko, Opp(g.b[loc]), m)
      && Value(depth, dy, GoState(Step(dy, g, Opp(g.b[loc]), m).b, None), loc, g.b[loc], true) == Caught
  {
    hide Value, Step, SingleStoneSuicide, Libs, Chain;
    LibertyInRange(dy, g.b, Chain(dy, g.b, loc), m);
  }

  lemma LibertyInRange(dy: int, b: seq<int>, X: set<int>, e: int)
    ensures e in Libs(dy, b, X) ==> 0 <= e < |b|
  {
  }
}
