/** The game a ladder search plays, and why its pruning does not change the answer. */
module Ladders {
  import opened Grid
  import opened Components
  import opened Rules
  import opened ChainStore
  import opened Captures
  import opened Queries

  /** What can be said of a position after looking a bounded number of moves ahead. */
  datatype Verdict = Caught | Safe | Unknown

  /** The liberties of the chain at loc; none if loc is not a stone. */
  ghost function TargetLibs(dy: int, b: seq<int>, loc: int): set<int>
  {
    if 0 <= loc < |b| && Stone(b[loc]) then Libs(dy, b, Chain(dy, b, loc)) else {}
  }

  /** q is a stone of colour c in a chain with one liberty. */
  ghost predicate InAtari(dy: int, b: seq<int>, c: int, q: int)
  {
    0 <= q < |b| && b[q] == c && LibCount(dy, b, q) == 1
  }

  /** The last liberties of the chains of colour c in atari that touch X. */
  ghost function CapturesNear(dy: int, b: seq<int>, c: int, X: set<int>): set<int>
  {
    set e, q | 0 <= e < |b| && 0 <= q < |b| && InAtari(dy, b, c, q) && Touches(dy, q, X) && e in Libs(dy, b, Chain(dy, b, q)) :: e
  }

  /** The moves that capture a chain next to the one at loc. */
  ghost function CapturingMoves(dy: int, b: seq<int>, loc: int): set<int>
    requires 0 <= loc < |b|
  {
    CapturesNear(dy, b, Opp(b[loc]), Chain(dy, b, loc))
  }

  /** The attacker plays on the chain's liberties; the defender may also capture. */
  ghost function Candidates(dy: int, b: seq<int>, loc: int, defender: bool): set<int>
  {
    TargetLibs(dy, b, loc) + if defender && 0 <= loc < |b| then CapturingMoves(dy, b, loc) else {}
  }

  function Mover(pla: int, defender: bool): int { if defender then pla else Opp(pla) }

  /** The verdict against a side that has run out of moves. */
  function Failed(defender: bool): Verdict { if defender then Caught else Safe }

  function Won(defender: bool): Verdict { if defender then Safe else Caught }

  /** Positions decided without a move: the attacker has won at one liberty and lost at three; the
      defender has won at two, or when the attacker left a ko. */
  ghost function Decided(dy: int, g: GoState, loc: int, defender: bool): Verdict
  {
    var n := |TargetLibs(dy, g.b, loc)|;
    if defender then (if n >= 2 || g.ko.Some? then Safe else Unknown)
    else if n <= 1 then Caught
    else if n >= 3 then Safe
    else Unknown
  }

  ghost predicate Playable(dy: int, g: GoState, pla: int, defender: bool, m: int)
  {
    0 <= m < |g.b| && Legal(dy, g.b, g.ko, Mover(pla, defender), m)
  }

  /** The position after the side to move plays m. */
  ghost function Next(dy: int, g: GoState, pla: int, defender: bool, m: int): GoState
    requires 0 <= m < |g.b|
  {
    Step(dy, g, Mover(pla, defender), m)
  }

  /** The AND/OR value of the ladder game, looking n moves ahead: a side wins when one legal candidate
      wins, and fails when every legal candidate fails. */
  ghost function Value(n: nat, dy: int, g: GoState, loc: int, pla: int, defender: bool): Verdict
  {
    var d := Decided(dy, g, loc, defender);
    if d != Unknown || n == 0 then d
    else if exists m :: m in Candidates(dy, g.b, loc, defender) && Playable(dy, g, pla, defender, m)
                        && Value(n - 1, dy, Next(dy, g, pla, defender, m), loc, pla, !defender) == Won(defender)
    then Won(defender)
    else if forall m :: m in Candidates(dy, g.b, loc, defender) && Playable(dy, g, pla, defender, m)
                        ==> Value(n - 1, dy, Next(dy, g, pla, defender, m), loc, pla, !defender) == Failed(defender)
    then Failed(defender)
    else Unknown
  }

  /** The verdict on the position after move m. */
  ghost function After(n: nat, dy: int, g: GoState, loc: int, pla: int, defender: bool, m: int): Verdict
    requires 0 <= m < |g.b|
  {
    Value(n, dy, Next(dy, g, pla, defender, m), loc, pla, !defender)
  }

  /** Some legal candidate wins. */
  ghost predicate SomeWins(n: nat, dy: int, g: GoState, loc: int, pla: int, defender: bool)
  {
    exists m :: m in Candidates(dy, g.b, loc, defender) && Playable(dy, g, pla, defender, m)
      && After(n, dy, g, loc, pla, defender, m) == Won(defender)
  }

  /** Every legal candidate fails. */
  ghost predicate AllFail(n: nat, dy: int, g: GoState, loc: int, pla: int, defender: bool)
  {
    forall m :: m in Candidates(dy, g.b, loc, defender) && Playable(dy, g, pla, defender, m) ==>
      After(n, dy, g, loc, pla, defender, m) == Failed(defender)
  }

  lemma ValueUnfold(n: nat, dy: int, g: GoState, loc: int, pla: int, defender: bool)
    requires Decided(dy, g, loc, defender) == Unknown
    ensures Value(n + 1, dy, g, loc, pla, defender) ==
      if SomeWins(n, dy, g, loc, pla, defender) then Won(defender)
      else if AllFail(n, dy, g, loc, pla, defender) then Failed(defender)
      else Unknown
  {
  }

  lemma ValueDecided(n: nat, dy: int, g: GoState, loc: int, pla: int, defender: bool)
    ensures Decided(dy, g, loc, defender) != Unknown || n == 0 ==>
      Value(n, dy, g, loc, pla, defender) == Decided(dy, g, loc, defender)
  {
  }

  /** A verdict once reached does not change by looking further. */
  lemma {:induction false} ValueStable(n: nat, k: nat, dy: int, g: GoState, loc: int, pla: int, defender: bool)
    requires n <= k && Value(n, dy, g, loc, pla, defender) != Unknown
    ensures Value(k, dy, g, loc, pla, defender) == Value(n, dy, g, loc, pla, defender)
    decreases n, 1
  {
    hide *;
    ValueDecided(n, dy, g, loc, pla, defender);
    ValueDecided(k, dy, g, loc, pla, defender);
    if Decided(dy, g, loc, defender) == Unknown {
      ValueUnfold(n - 1, dy, g, loc, pla, defender);
      ValueUnfold(k - 1, dy, g, loc, pla, defender);
      if SomeWins(n - 1, dy, g, loc, pla, defender) {
        SomeStable(n - 1, k - 1, dy, g, loc, pla, defender);
      } else {
        AllStable(n - 1, k - 1, dy, g, loc, pla, defender);
      }
    }
  }

  lemma {:induction false} SomeStable(n: nat, k: nat, dy: int, g: GoState, loc: int, pla: int, defender: bool)
    requires n <= k && SomeWins(n, dy, g, loc, pla, defender)
    ensures SomeWins(k, dy, g, loc, pla, defender)
    decreases n, 3
  {
    var m :| m in Candidates(dy, g.b, loc, defender) && Playable(dy, g, pla, defender, m)
      && After(n, dy, g, loc, pla, defender, m) == Won(defender);
    AfterStable(n, k, dy, g, loc, pla, defender, m);
  }

  lemma {:induction false} AllStable(n: nat, k: nat, dy: int, g: GoState, loc: int, pla: int, defender: bool)
    requires n <= k && AllFail(n, dy, g, loc, pla, defender)
    ensures AllFail(k, dy, g, loc, pla, defender) && !SomeWins(k, dy, g, loc, pla, defender)
    decreases n, 3
  {
    forall m | m in Candidates(dy, g.b, loc, defender) && Playable(dy, g, pla, defender, m)
      ensures After(k, dy, g, loc, pla, defender, m) == Failed(defender)
    {
      AfterStable(n, k, dy, g, loc, pla, defender, m);
    }
  }

  lemma {:induction false} AfterStable(n: nat, k: nat, dy: int, g: GoState, loc: int, pla: int, defender: bool, m: int)
    requires n <= k && 0 <= m < |g.b| && After(n, dy, g, loc, pla, defender, m) != Unknown
    ensures After(k, dy, g, loc, pla, defender, m) == After(n, dy, g, loc, pla, defender, m)
    decreases n, 2
  {
    ValueStable(n, k, dy, Step(dy, g, Mover(pla, defender), m), loc, pla, !defender);
  }

  // ----- one level of the search

  /** An undecided level of the search: its move list holds candidates only, and every legal candidate
      left out would fail. */
  ghost predicate Opened(dy: int, g: GoState, loc: int, pla: int, defender: bool, moves: seq<int>)
  {
    && Decided(dy, g, loc, defender) == Unknown
    && (forall m :: m in moves ==> m in Candidates(dy, g.b, loc, defender))
    && (forall m, n: nat :: n >= 1 && m in Candidates(dy, g.b, loc, defender) && m !in moves && Playable(dy, g, pla, defender, m) ==>
          After(n, dy, g, loc, pla, defender, m) == Failed(defender))
  }

  /** The first k moves of the list are illegal or fail. */
  ghost predicate Tried(n: nat, dy: int, g: GoState, loc: int, pla: int, defender: bool, moves: seq<int>, k: int)
  {
    forall j :: 0 <= j < k && j < |moves| && Playable(dy, g, pla, defender, moves[j]) ==>
      After(n, dy, g, loc, pla, defender, moves[j]) == Failed(defender)
  }

  lemma LevelFails(n: nat, dy: int, g: GoState, loc: int, pla: int, defender: bool, moves: seq<int>)
    requires n >= 1 && Opened(dy, g, loc, pla, defender, moves) && Tried(n, dy, g, loc, pla, defender, moves, |moves|)
    ensures Value(n + 1, dy, g, loc, pla, defender) == Failed(defender)
  {
    forall m | m in Candidates(dy, g.b, loc, defender) && Playable(dy, g, pla, defender, m)
      ensures After(n, dy, g, loc, pla, defender, m) == Failed(defender)
    {
      if m in moves {
        var j :| 0 <= j < |moves| && moves[j] == m;
      }
    }
  }

  lemma LevelWins(n: nat, dy: int, g: GoState, loc: int, pla: int, defender: bool, moves: seq<int>, m: int)
    requires Opened(dy, g, loc, pla, defender, moves) && m in moves && Playable(dy, g, pla, defender, m)
    requires After(n, dy, g, loc, pla, defender, m) == Won(defender)
    ensures Value(n + 1, dy, g, loc, pla, defender) == Won(defender)
  {
  }

  // ----- what an attacking move leaves

  /** A chain with two liberties or more survives an opposing move, and keeps the liberties not filled. */
  lemma AttackLeaves(dy: int, b: seq<int>, loc: int, m: int)
    requires Position(dy, b) && 0 <= loc < |b| && Stone(b[loc]) && 0 <= m < |b| && b[m] == EMPTY
    requires Libs(dy, b, Chain(dy, b, loc)) - {m} != {}
    ensures var r := Move(dy, b, Opp(b[loc]), m);
      && r[loc] == b[loc] && Chain(dy, r, loc) == Chain(dy, b, loc)
      && Libs(dy, b, Chain(dy, b, loc)) - {m} <= Libs(dy, r, Chain(dy, r, loc))
      && (forall e :: 0 <= e < |b| && b[e] == EMPTY && e != m ==> r[e] == EMPTY)
  {
    var C, opp := Chain(dy, b, loc), Opp(b[loc]);
    var b1, a := b[m := opp], AfterCaptures(dy, b, opp, m);
    PlaceKeepsChain(dy, b, opp, m, loc);
    PlaceLibs(dy, b, opp, m, C);
    assert loc !in Captured(dy, b, opp, m);
    ClearDeadKeeps(dy, b1, Opp(opp), loc);
    assert loc !in Dead(dy, a, opp);
    ClearDeadKeeps(dy, a, opp, loc);
  }

  /** A liberty of the chain is never single-stone suicide for the chain's owner. */
  lemma ExtendingIsLegal(dy: int, b: seq<int>, loc: int, m: int)
    requires Position(dy, b) && 0 <= loc < |b| && Stone(b[loc])
    requires m in Libs(dy, b, Chain(dy, b, loc))
    ensures Legal(dy, b, None, b[loc], m)
  {
    var q := TouchesWitness(dy, m, Chain(dy, b, loc));
    ChainBasics(dy, b, loc);
    SingleStoneSuicideIff(dy, b, b[loc], m);
  }

  /** Extending to a liberty joins its own empty neighbours to the chain's liberties. */
  lemma ExtendGains(dy: int, b: seq<int>, loc: int, m: int, E: set<int>)
    requires Position(dy, b) && 0 <= loc < |b| && Stone(b[loc]) && m in Libs(dy, b, Chain(dy, b, loc))
    requires forall e :: e in E ==> 0 <= e < |b| && b[e] == EMPTY && Adj(dy, e, m) && e != m
    requires E != {}
    ensures var r := Move(dy, b, b[loc], m); r[loc] == b[loc] && E <= Libs(dy, r, Chain(dy, r, loc))
  {
    var pla := b[loc];
    var b1, a := b[m := pla], AfterCaptures(dy, b, pla, m);
    NewChainKept(dy, b, pla, m);
    PlaceJoinsChain(dy, b, pla, m, loc);
    var C := Chain(dy, a, m);
    ChainBasics(dy, a, m);
    forall e | e in E
      ensures e in Libs(dy, a, C)
    {
      AdjTouches(dy, e, m, C);
    }
    SuicideTest(dy, b, pla, m);
    ChainBasics(dy, b, loc);
    ChainSame(dy, a, m, loc);
  }

  /** The empty points next to m. */
  ghost function EmptyNbrs(dy: int, b: seq<int>, m: int): set<int>
  {
    set e | 0 <= e < |b| && b[e] == EMPTY && Adj(dy, e, m)
  }

  /** With a free reply at m0, next to at least three empty points, the defender gets out. */
  lemma DefenderGetsOut(n: nat, dy: int, h: GoState, loc: int, m0: int, E: set<int>)
    requires n >= 1 && Position(dy, h.b) && 0 <= loc < |h.b| && Stone(h.b[loc]) && h.ko == None
    requires m0 in Libs(dy, h.b, Chain(dy, h.b, loc)) && m0 != PASS
    requires |E| >= 3 && forall e :: e in E ==> 0 <= e < |h.b| && h.b[e] == EMPTY && Adj(dy, e, m0) && e != m0
    ensures Value(n, dy, h, loc, h.b[loc], true) == Safe
  {
    var pla := h.b[loc];
    ExtendingIsLegal(dy, h.b, loc, m0);
    ExtendGains(dy, h.b, loc, m0, E);
    var k := Step(dy, h, pla, m0);
    SubsetSize(E, TargetLibs(dy, k.b, loc));
    assert Decided(dy, k, loc, false) == Safe;
    if Decided(dy, h, loc, true) == Unknown {
      ValueUnfold(n - 1, dy, h, loc, pla, true);
      assert After(n - 1, dy, h, loc, pla, true, m0) == Safe;
      assert m0 in Candidates(dy, h.b, loc, true);
    }
  }

  /** Pruning: with two liberties m0 and m1 that are not adjacent, and three empty points next to m0,
      attacking at m1 lets the defender out at m0. */
  lemma PrunedMoveFails(n: nat, dy: int, g: GoState, loc: int, m0: int, m1: int)
    requires n >= 1 && Position(dy, g.b) && 0 <= loc < |g.b| && Stone(g.b[loc])
    requires Libs(dy, g.b, Chain(dy, g.b, loc)) == {m0, m1} && m0 != m1 && !Adj(dy, m1, m0)
    requires |EmptyNbrs(dy, g.b, m0)| >= 3
    requires Playable(dy, g, g.b[loc], false, m1)
    ensures After(n, dy, g, loc, g.b[loc], false, m1) == Safe
  {
    var pla := g.b[loc];
    assert m0 in {m0, m1} && m1 in {m0, m1};
    var h := Step(dy, g, Opp(pla), m1);
    assert m1 != PASS && m0 != PASS;
    assert m0 in Libs(dy, g.b, Chain(dy, g.b, loc)) - {m1};
    AttackLeaves(dy, g.b, loc, m1);
    MoveIsPosition(dy, g.b, Opp(pla), m1);
    if h.ko == None {
      var E := EmptyNbrs(dy, g.b, m0);
      assert forall e :: e in E ==> e != m1 && h.b[e] == EMPTY && e != m0;
      DefenderGetsOut(n, dy, h, loc, m0, E);
    }
  }

  // ----- opening a level

  lemma DefenderOpened(dy: int, g: GoState, loc: int, moves: seq<int>)
    requires 0 <= loc < |g.b| && Decided(dy, g, loc, true) == Unknown
    requires forall m :: m in moves <==> m in Candidates(dy, g.b, loc, true)
    ensures Opened(dy, g, loc, g.b[loc], true, moves)
  {
  }

  /** The moves an attacker's level keeps: both liberties when they are adjacent; otherwise only those the
      other one of which has fewer than three empty neighbours. */
  lemma AttackerOpened(dy: int, g: GoState, loc: int, m0: int, m1: int, moves: seq<int>)
    requires Position(dy, g.b) && 0 <= loc < |g.b| && Stone(g.b[loc])
    requires Libs(dy, g.b, Chain(dy, g.b, loc)) == {m0, m1} && m0 != m1
    requires forall m :: m in moves ==> m == m0 || m == m1
    requires m0 in moves || (!Adj(dy, m0, m1) && |EmptyNbrs(dy, g.b, m1)| >= 3)
    requires m1 in moves || (!Adj(dy, m1, m0) && |EmptyNbrs(dy, g.b, m0)| >= 3)
    ensures Opened(dy, g, loc, g.b[loc], false, moves)
  {
    TwoLibs(dy, g, loc, m0, m1);
    forall m, n: nat | n >= 1 && m in Candidates(dy, g.b, loc, false) && m !in moves && Playable(dy, g, g.b[loc], false, m)
      ensures After(n, dy, g, loc, g.b[loc], false, m) == Safe
    {
      if m == m0 {
        assert {m0, m1} == {m1, m0};
        PrunedMoveFails(n, dy, g, loc, m1, m0);
      } else {
        PrunedMoveFails(n, dy, g, loc, m0, m1);
      }
    }
  }

  lemma TwoLibs(dy: int, g: GoState, loc: int, m0: int, m1: int)
    requires 0 <= loc < |g.b| && Stone(g.b[loc]) && Libs(dy, g.b, Chain(dy, g.b, loc)) == {m0, m1} && m0 != m1
    ensures Decided(dy, g, loc, false) == Unknown
    ensures Candidates(dy, g.b, loc, false) == {m0, m1}
  {
    assert |{m0, m1}| == 2;
    assert TargetLibs(dy, g.b, loc) == {m0, m1};
    assert Candidates(dy, g.b, loc, false) == {m0, m1} + {};
  }

  // ----- a measure for the search

  /** The digits of the levels on the stack, the root's first, read as a number in base k. */
  ghost function Number(ds: seq<nat>, k: nat): nat
  {
    if ds == [] then 0 else Number(ds[..|ds| - 1], k) * k + ds[|ds| - 1]
  }

  ghost function Power(k: nat, e: nat): nat { if e == 0 then 1 else k * Power(k, e - 1) }

  /** The number with the places of the unused levels filled with zeros. */
  ghost function Measure(ds: seq<nat>, k: nat, depth: nat): nat
    requires |ds| <= depth
  {
    Number(ds, k) * Power(k, depth - |ds|)
  }

  lemma PowerPositive(k: nat, e: nat)
    requires k >= 1
    ensures Power(k, e) >= 1
  {
    if e > 0 {
      PowerPositive(k, e - 1);
      assert k * Power(k, e - 1) >= 1 * 1;
    }
  }

  lemma MulLess(a: nat, b: nat, c: nat)
    requires a < b && c >= 1
    ensures a * c < b * c
  {
    assert b * c == a * c + (b - a) * c;
    assert (b - a) * c >= 1;
  }

  /** Lowering the last digit lowers the measure. */
  lemma MeasureLower(p: seq<nat>, d: nat, d': nat, k: nat, depth: nat)
    requires k >= 1 && |p| + 1 <= depth && d' < d
    ensures Measure(p + [d'], k, depth) < Measure(p + [d], k, depth)
  {
    assert (p + [d])[..|p|] == p && (p + [d'])[..|p|] == p;
    PowerPositive(k, depth - |p| - 1);
    MulLess(Number(p + [d'], k), Number(p + [d], k), Power(k, depth - |p| - 1));
  }

  /** So does dropping a last digit that is not zero. */
  lemma MeasureDrop(p: seq<nat>, d: nat, k: nat, depth: nat)
    requires k >= 1 && |p| + 1 <= depth && d > 0
    ensures Measure(p, k, depth) < Measure(p + [d], k, depth)
  {
    var e := depth - |p| - 1;
    assert (p + [d])[..|p|] == p;
    PowerPositive(k, e);
    assert Number(p, k) * (k * Power(k, e)) == (Number(p, k) * k) * Power(k, e);
    MulLess(Number(p, k) * k, Number(p + [d], k), Power(k, e));
  }

  /** And lowering the last digit while adding another one below the base. */
  lemma MeasurePush(p: seq<nat>, d: nat, d': nat, top: nat, k: nat, depth: nat)
    requires k >= 1 && |p| + 2 <= depth && d' < d && top < k
    ensures Measure(p + [d', top], k, depth) < Measure(p + [d], k, depth)
  {
    var e := depth - |p| - 2;
    var q := p + [d'];
    assert p + [d', top] == q + [top];
    assert (q + [top])[..|q|] == q && q[..|p|] == p && (p + [d])[..|p|] == p;
    PowerPositive(k, e);
    var x, y := Number(q, k), Number(p + [d], k);
    assert x < y;
    assert x * k + top < y * k by {
      MulLess(x, y, k);
      assert y * k >= (x + 1) * k by {
        if y > x + 1 { MulLess(x + 1, y, k); }
      }
      assert (x + 1) * k == x * k + k;
    }
    MulLess(x * k + top, y * k, Power(k, e));
    assert y * (k * Power(k, e)) == (y * k) * Power(k, e);
  }

  // ----- gathering moves

  /** buf holds the points of buf0 and S, each once. */
  ghost predicate Gathered(buf0: seq<int>, S: set<int>, buf: seq<int>)
  {
    (Distinct(buf0) ==> Distinct(buf)) && forall p :: p in buf <==> p in buf0 || p in S
  }

  /** The empty ones among the first i neighbours of p. */
  ghost function LibsBy(dy: int, b: seq<int>, p: int, i: int): set<int>
  {
    set j | 0 <= j < i && 0 <= Nbr(dy, p, j) < |b| && b[Nbr(dy, p, j)] == EMPTY :: Nbr(dy, p, j)
  }

  lemma LibsByStep(dy: int, b: seq<int>, p: int, i: int)
    requires 0 <= i && 0 <= Nbr(dy, p, i) < |b|
    ensures LibsBy(dy, b, p, i + 1) == LibsBy(dy, b, p, i) + if b[Nbr(dy, p, i)] == EMPTY then {Nbr(dy, p, i)} else {}
  {
  }

  lemma LibsOfNone(dy: int, b: seq<int>, r: seq<int>)
    ensures Libs(dy, b, Elems(r[..0])) == {}
  {
    assert Elems(r[..0]) == {};
  }

  lemma LibsByAll(dy: int, b: seq<int>, X: set<int>, p: int)
    ensures Libs(dy, b, X + {p}) == Libs(dy, b, X) + LibsBy(dy, b, p, 4)
  {
    forall e | e in Libs(dy, b, X + {p})
      ensures e in Libs(dy, b, X) + LibsBy(dy, b, p, 4)
    {
      if !Touches(dy, e, X) {
        assert e == Nbr(dy, p, 0) || e == Nbr(dy, p, 1) || e == Nbr(dy, p, 2) || e == Nbr(dy, p, 3);
      }
    }
  }

  /** The last liberties of the chains in atari among the first i neighbours of p. */
  ghost function CapturesBy(dy: int, b: seq<int>, c: int, p: int, i: int): set<int>
  {
    set e, j | 0 <= e < |b| && 0 <= j < i && InAtari(dy, b, c, Nbr(dy, p, j)) && e in Libs(dy, b, Chain(dy, b, Nbr(dy, p, j))) :: e
  }

  lemma CapturesByStep(dy: int, b: seq<int>, c: int, p: int, i: int)
    requires 0 <= i && 0 <= Nbr(dy, p, i) < |b|
    ensures CapturesBy(dy, b, c, p, i + 1) == CapturesBy(dy, b, c, p, i) +
      if InAtari(dy, b, c, Nbr(dy, p, i)) then Libs(dy, b, Chain(dy, b, Nbr(dy, p, i))) else {}
  {
    hide InAtari, Chain;
  }

  lemma CapturesNearStep(dy: int, b: seq<int>, c: int, X: set<int>, p: int)
    ensures CapturesNear(dy, b, c, X + {p}) == CapturesNear(dy, b, c, X) + CapturesBy(dy, b, c, p, 4)
  {
    forall e, q | 0 <= e < |b| && 0 <= q < |b| && InAtari(dy, b, c, q) && Touches(dy, q, X + {p}) && e in Libs(dy, b, Chain(dy, b, q))
      ensures e in CapturesNear(dy, b, c, X) + CapturesBy(dy, b, c, p, 4)
    {
      if !Touches(dy, q, X) {
        assert q == Nbr(dy, p, 0) || q == Nbr(dy, p, 1) || q == Nbr(dy, p, 2) || q == Nbr(dy, p, 3);
      }
    }
    forall j | 0 <= j < 4
      ensures Touches(dy, Nbr(dy, p, j), X + {p})
    {
    }
  }

  /** Every chain whose head has been noted has had its liberties gathered. */
  ghost predicate HeadsGathered(dy: int, b: seq<int>, head: seq<int>, heads: seq<int>, buf: seq<int>)
    requires |head| == |b|
  {
    forall q {:trigger head[q]} :: 0 <= q < |b| && Stone(b[q]) && head[q] in heads ==>
      forall e :: e in Libs(dy, b, Chain(dy, b, q)) ==> e in buf
  }

  lemma HeadsGatheredMore(dy: int, s: Store, heads: seq<int>, buf: seq<int>, buf': seq<int>, q: int)
    requires StoreOk(dy, s) && Maximal(dy, s.b, s.head) && 0 <= q < |s.b| && Stone(s.b[q])
    requires HeadsGathered(dy, s.b, s.head, heads, buf) && forall p :: p in buf ==> p in buf'
    requires forall e :: e in Libs(dy, s.b, Chain(dy, s.b, q)) ==> e in buf'
    ensures HeadsGathered(dy, s.b, s.head, heads + [s.head[q]], buf')
  {
    forall x | 0 <= x < |s.b| && Stone(s.b[x]) && s.head[x] in heads + [s.head[q]]
      ensures forall e :: e in Libs(dy, s.b, Chain(dy, s.b, x)) ==> e in buf'
    {
      if s.head[x] == s.head[q] {
        ClassIsChain(dy, s, x);
        ClassIsChain(dy, s, q);
      }
    }
  }

  lemma GatheredAgain(buf0: seq<int>, S: set<int>, T: set<int>, buf: seq<int>)
    requires Gathered(buf0, S, buf) && forall e :: e in T ==> e in buf
    ensures Gathered(buf0, S + T, buf)
  {
  }

  lemma GatheredTwice(buf0: seq<int>, S: set<int>, buf1: seq<int>, T: set<int>, buf: seq<int>)
    requires Gathered(buf0, S, buf1) && Gathered(buf1, T, buf)
    ensures Gathered(buf0, S + T, buf) && forall p :: p in buf1 ==> p in buf
  {
  }

  lemma CapturesNone(dy: int, b: seq<int>, c: int, r: seq<int>, p: int)
    ensures CapturesNear(dy, b, c, Elems(r[..0])) == {}
    ensures CapturesBy(dy, b, c, p, 0) == {}
  {
    assert Elems(r[..0]) == {};
  }

  lemma EmptyNbrsCount(dy: int, b: seq<int>, m: int)
    requires 0 <= m - dy && m + dy < |b| && dy >= 3
    ensures NewLibs(dy, b, {}, m, 4) == EmptyNbrs(dy, b, m)
  {
    forall e | e in EmptyNbrs(dy, b, m)
      ensures e in NewLibs(dy, b, {}, m, 4)
    {
      assert e == Nbr(dy, m, 0) || e == Nbr(dy, m, 1) || e == Nbr(dy, m, 2) || e == Nbr(dy, m, 3);
    }
  }

  /** A chain with exactly two liberties, listed. */
  lemma ListedTwo(moves: seq<int>, S: set<int>)
    requires Distinct(moves) && |S| == 2 && forall p :: p in moves <==> p in S
    ensures |moves| == 2 && moves[0] != moves[1] && S == {moves[0], moves[1]}
  {
    DistinctSize(moves, S);
    assert moves == [moves[0], moves[1]];
    assert forall p :: p in S <==> p == moves[0] || p == moves[1];
  }

  lemma DecidedTwo(dy: int, g: GoState, loc: int)
    requires 0 <= loc < |g.b| && Decided(dy, g, loc, false) == Unknown
    ensures Stone(g.b[loc]) && |Libs(dy, g.b, Chain(dy, g.b, loc))| == 2
  {
  }
}
