/** Which stones a run over the whole board reports as laddered. */
module LadderFeatures {
  import opened Grid
  import opened Rules
  import opened ChainStore
  import opened Queries
  import opened Ladders
  import opened LadderGame
  import opened LadderSearch
  import opened ChainMates
  import opened Boards

  /** One call of the callback. */
  datatype Report = Report(loc: int, pos: int, workingMoves: seq<int>)

  /** What a run works with: the search depth, the board's geometry, position and heads, and the row
      length of the features. */
  datatype Scene = Scene(depth: nat, size: int, g: GoState, head: seq<int>, posLen: int)

  ghost predicate Captive(s: Scene, p: int)
    requires s.size >= 0
  {
    Laddered(s.depth, s.size + 1, s.g, p)
  }

  /** The chain at p is worth searching. */
  ghost predicate Short(s: Scene, p: int)
    requires s.size >= 0
  {
    0 <= p < |s.g.b| && Stone(s.g.b[p]) && 1 <= |TargetLibs(s.size + 1, s.g.b, p)| <= 2
  }

  ghost predicate Listed(calls: seq<Report>, p: int)
  {
    exists i :: 0 <= i < |calls| && calls[i].loc == p
  }

  ghost predicate Increasing(calls: seq<Report>)
  {
    forall i, j :: 0 <= i < j < |calls| ==> calls[i].loc < calls[j].loc
  }

  /** No earlier report is about a stone of p's chain. */
  ghost predicate FirstOfChain(s: Scene, calls: seq<Report>, p: int)
    requires s.size >= 0 && 0 <= p < |s.g.b|
  {
    forall j :: 0 <= j < |calls| ==> calls[j].loc !in Chain(s.size + 1, s.g.b, p)
  }

  ghost predicate AtCoordinates(s: Scene, c: Report)
  {
    exists x, y :: 0 <= x < s.size && 0 <= y < s.size && c.loc == Loc(s.size, x, y) && c.pos == y * s.posLen + x
  }

  /** The attacks that work are listed with the first stone of a chain with two liberties only. */
  ghost predicate MovesOk(s: Scene, before: seq<Report>, c: Report)
    requires s.size >= 0 && 0 <= c.loc < |s.g.b|
  {
    if |TargetLibs(s.size + 1, s.g.b, c.loc)| == 2 && FirstOfChain(s, before, c.loc)
    then forall m :: m in c.workingMoves <==> m in WorkingMoves(s.depth, s.size + 1, s.g, c.loc)
    else c.workingMoves == []
  }

  ghost predicate ReportOk(s: Scene, calls: seq<Report>, i: int)
    requires s.size >= 0 && 0 <= i < |calls|
  {
    0 <= calls[i].loc < |s.g.b| && AtCoordinates(s, calls[i]) && MovesOk(s, calls[..i], calls[i])
  }

  /** The calls report the laddered stones below lim, each once, in the order of the scan. */
  ghost predicate Reported(s: Scene, lim: int, calls: seq<Report>)
    requires s.size >= 0
  {
    && Increasing(calls)
    && (forall i :: 0 <= i < |calls| ==> calls[i].loc < lim && Captive(s, calls[i].loc))
    && (forall i :: 0 <= i < |calls| ==> ReportOk(s, calls, i))
    && (forall p :: p < lim && Captive(s, p) ==> Listed(calls, p))
  }

  /** A stone already scanned gave its head the verdict v. */
  ghost predicate SolvedBy(s: Scene, lim: int, h: int, v: bool, p: int)
    requires s.size >= 0
  {
    p < lim && Short(s, p) && p < |s.head| && s.head[p] == h && v == Captive(s, p)
  }

  ghost predicate Solved(s: Scene, lim: int, h: int, v: bool)
    requires s.size >= 0
  {
    exists p :: SolvedBy(s, lim, h, v, p)
  }

  /** The memo holds one right verdict for each short chain that has a stone below lim. */
  ghost predicate MemoOk(s: Scene, lim: int, solved: map<int, bool>)
    requires s.size >= 0
  {
    && (forall p :: p < lim && Short(s, p) ==> p < |s.head| && s.head[p] in solved)
    && (forall h :: h in solved ==> Solved(s, lim, h, solved[h]))
  }

  /** Stones share a head exactly when they share a chain. */
  ghost predicate HeadsTellChains(s: Scene)
    requires s.size >= 0
  {
    && |s.head| == |s.g.b|
    && forall p, q :: 0 <= p < |s.g.b| && Stone(s.g.b[p]) && 0 <= q < |s.g.b| ==>
        (s.head[q] == s.head[p] <==> q in Chain(s.size + 1, s.g.b, p))
  }

  /** The search for the chain at p meets a line of play of k turns. */
  ghost predicate Overruns(k: nat, dy: int, g: GoState, p: int)
  {
    && 0 <= p < |g.b| && Stone(g.b[p])
    && ((LibCount(dy, g.b, p) == 1 && LongLine(k, dy, GoState(g.b, None), p, g.b[p], true)) ||
        (LibCount(dy, g.b, p) == 2 && AttackOverruns(k, dy, g, p)))
  }

  ghost predicate SomeOverruns(k: nat, dy: int, g: GoState)
  {
    exists p :: Overruns(k, dy, g, p)
  }

  lemma OverrunFound(k: nat, dy: int, g: GoState, p: int)
    requires Overruns(k, dy, g, p)
    ensures SomeOverruns(k, dy, g)
  {
  }

  // ----- what the reports mean

  /** The search that a report about a stone with one liberty stands for. */
  lemma CaptiveOne(s: Scene, dy: int, p: int)
    requires s.size >= 0 && dy == s.size + 1 && 0 <= p < |s.g.b| && Stone(s.g.b[p]) && LibCount(dy, s.g.b, p) == 1
    ensures Captive(s, p) <==> Value(s.depth, dy, GoState(s.g.b, None), p, s.g.b[p], true) == Caught
  {
    hide Value, Libs, Chain, WorkingMoves;
  }

  /** The searches that a report about a stone with two liberties stands for. */
  lemma CaptiveTwo(s: Scene, dy: int, p: int)
    requires s.size >= 0 && dy == s.size + 1 && 0 <= p < |s.g.b| && Stone(s.g.b[p]) && LibCount(dy, s.g.b, p) == 2
    requires Position(dy, s.g.b)
    ensures Captive(s, p) <==>
      exists m :: m in Libs(dy, s.g.b, Chain(dy, s.g.b, p)) && Legal(dy, s.g.b, s.g.ko, Opp(s.g.b[p]), m)
        && Value(s.depth, dy, GoState(Move(dy, s.g.b, Opp(s.g.b[p]), m), None), p, s.g.b[p], true) == Caught
  {
    var W := WorkingMoves(s.depth, dy, s.g, p);
    assert Captive(s, p) <==> W != {} by {
      hide Value, Libs, Chain, WorkingMoves;
    }
    hide Value, Captive, Chain, WorkingMoves, Legal, Move, KoPoint;
    PassIsWall(dy, s.g.b);
    if W != {} {
      var m := SomeMember(W);
      WorkingIff(s.depth, dy, s.g, p, m);
    }
    forall m | m in Libs(dy, s.g.b, Chain(dy, s.g.b, p)) && Legal(dy, s.g.b, s.g.ko, Opp(s.g.b[p]), m)
        && Value(s.depth, dy, GoState(Move(dy, s.g.b, Opp(s.g.b[p]), m), None), p, s.g.b[p], true) == Caught
      ensures m in W
    {
      WorkingIff(s.depth, dy, s.g, p, m);
    }
  }

  lemma ReportedIff(s: Scene, calls: seq<Report>, p: int)
    requires s.size >= 0 && Reported(s, |s.g.b|, calls)
    ensures Listed(calls, p) <==> Captive(s, p)
  {
    hide Laddered, ReportOk;
    if Captive(s, p) {
      CaptiveIsShort(s, p);
    }
  }

  lemma ReportedMoves(s: Scene, dy: int, calls: seq<Report>, i: int)
    requires s.size >= 0 && dy == s.size + 1 && Reported(s, |s.g.b|, calls) && 0 <= i < |calls|
    ensures 0 <= calls[i].loc < |s.g.b| && AtCoordinates(s, calls[i])
    ensures var two := LibCount(dy, s.g.b, calls[i].loc) == 2;
      var first := forall j :: 0 <= j < i ==> calls[j].loc !in Chain(dy, s.g.b, calls[i].loc);
      && (two && first ==> forall m :: m in calls[i].workingMoves <==> m in WorkingMoves(s.depth, dy, s.g, calls[i].loc))
      && (!two || !first ==> calls[i].workingMoves == [])
  {
    hide Laddered, Libs, Chain, WorkingMoves, AtCoordinates;
    assert ReportOk(s, calls, i) && Captive(s, calls[i].loc);
    CaptiveIsShort(s, calls[i].loc);
    assert forall j :: 0 <= j < i ==> calls[..i][j] == calls[j];
  }

  lemma ReportsMean(s: Scene, dy: int, calls: seq<Report>)
    requires s.size >= 0 && dy == s.size + 1 && Position(dy, s.g.b) && Reported(s, |s.g.b|, calls)
    ensures Increasing(calls)
    ensures forall i :: 0 <= i < |calls| ==> AtCoordinates(s, calls[i])
    ensures forall p :: Listed(calls, p) ==> 0 <= p < |s.g.b| && Stone(s.g.b[p]) && 1 <= LibCount(dy, s.g.b, p) <= 2
    ensures forall p :: 0 <= p < |s.g.b| && Stone(s.g.b[p]) && LibCount(dy, s.g.b, p) == 1 ==>
      (Listed(calls, p) <==> Value(s.depth, dy, GoState(s.g.b, None), p, s.g.b[p], true) == Caught)
    ensures forall p :: 0 <= p < |s.g.b| && Stone(s.g.b[p]) && LibCount(dy, s.g.b, p) == 2 ==>
      (Listed(calls, p) <==>
       exists m :: m in Libs(dy, s.g.b, Chain(dy, s.g.b, p)) && Legal(dy, s.g.b, s.g.ko, Opp(s.g.b[p]), m)
         && Value(s.depth, dy, GoState(Move(dy, s.g.b, Opp(s.g.b[p]), m), None), p, s.g.b[p], true) == Caught)
    ensures forall i :: 0 <= i < |calls| && 0 <= calls[i].loc < |s.g.b| ==>
      var two := LibCount(dy, s.g.b, calls[i].loc) == 2;
      var first := forall j :: 0 <= j < i ==> calls[j].loc !in Chain(dy, s.g.b, calls[i].loc);
      && (two && first ==> forall m :: m in calls[i].workingMoves <==> m in WorkingMoves(s.depth, dy, s.g, calls[i].loc))
      && (!two || !first ==> calls[i].workingMoves == [])
  {
    hide Value, Captive, Chain, Libs, LibCount, WorkingMoves, Legal, Move, Position, ReportOk, Listed, AtCoordinates;
    forall p
      ensures Listed(calls, p) <==> Captive(s, p)
      ensures Captive(s, p) ==> 0 <= p < |s.g.b| && Stone(s.g.b[p]) && 1 <= LibCount(dy, s.g.b, p) <= 2
    {
      ReportedIff(s, calls, p);
      if Captive(s, p) {
        CaptiveLibs(s, dy, p);
      }
    }
    hide Reported;
    forall p, m | 0 <= p < |s.g.b|
      ensures m in Libs(dy, s.g.b, Chain(dy, s.g.b, p)) ==> 0 <= m < |s.g.b|
    {
      LibertyInRange(dy, s.g.b, Chain(dy, s.g.b, p), m);
    }
    forall p | 0 <= p < |s.g.b| && Stone(s.g.b[p]) && LibCount(dy, s.g.b, p) == 1
      ensures Captive(s, p) <==> Value(s.depth, dy, GoState(s.g.b, None), p, s.g.b[p], true) == Caught
    {
      CaptiveOne(s, dy, p);
    }
    forall p | 0 <= p < |s.g.b| && Stone(s.g.b[p]) && LibCount(dy, s.g.b, p) == 2
      ensures Captive(s, p) <==>
        exists m :: m in Libs(dy, s.g.b, Chain(dy, s.g.b, p)) && Legal(dy, s.g.b, s.g.ko, Opp(s.g.b[p]), m)
          && Value(s.depth, dy, GoState(Move(dy, s.g.b, Opp(s.g.b[p]), m), None), p, s.g.b[p], true) == Caught
    {
      CaptiveTwo(s, dy, p);
    }
    forall i | 0 <= i < |calls|
      ensures AtCoordinates(s, calls[i])
      ensures 0 <= calls[i].loc < |s.g.b| ==>
        var two := LibCount(dy, s.g.b, calls[i].loc) == 2;
        var first := forall j :: 0 <= j < i ==> calls[j].loc !in Chain(dy, s.g.b, calls[i].loc);
        && (two && first ==> forall m :: m in calls[i].workingMoves <==> m in WorkingMoves(s.depth, dy, s.g, calls[i].loc))
        && (!two || !first ==> calls[i].workingMoves == [])
    {
      ReportedMoves(s, dy, calls, i);
    }
  }

  lemma PlaceIs(s: Scene, c: Report)
    requires s.size >= 1 && AtCoordinates(s, c)
    ensures OnBoard(s.size, c.loc) && c.pos == LocY(s.size, c.loc) * s.posLen + LocX(s.size, c.loc)
  {
    var x, y :| 0 <= x < s.size && 0 <= y < s.size && c.loc == Loc(s.size, x, y) && c.pos == y * s.posLen + x;
    LocOnBoard(s.size, x, y);
    MulDiv(s.size + 1, y + 1, x + 1);
  }

  lemma CaptiveLibs(s: Scene, dy: int, p: int)
    requires s.size >= 0 && dy == s.size + 1 && Captive(s, p)
    ensures 0 <= p < |s.g.b| && Stone(s.g.b[p]) && 1 <= LibCount(dy, s.g.b, p) <= 2
  {
    hide Captive, Laddered, Libs, Chain;
    CaptiveIsShort(s, p);
  }

  lemma CaptiveIsShort(s: Scene, p: int)
    requires s.size >= 0 && Captive(s, p)
    ensures Short(s, p)
  {
  }

  lemma NothingYet(s: Scene, lim: int)
    requires s.size >= 0 && forall p :: p < lim ==> !Short(s, p)
    ensures Reported(s, lim, []) && MemoOk(s, lim, map[])
  {
    hide Laddered, Short;
    forall p | p < lim && Captive(s, p)
      ensures false
    {
      CaptiveIsShort(s, p);
    }
  }

  /** Locations that hold no short chain can be passed over. */
  lemma PassOver(s: Scene, lim: int, to: int, calls: seq<Report>, solved: map<int, bool>)
    requires s.size >= 0 && lim <= to && Reported(s, lim, calls) && MemoOk(s, lim, solved)
    requires forall p :: lim <= p < to ==> !Short(s, p)
    ensures Reported(s, to, calls) && MemoOk(s, to, solved)
  {
    hide Laddered, Short, ReportOk;
    forall p | p < to && Captive(s, p)
      ensures Listed(calls, p)
    {
      CaptiveIsShort(s, p);
    }
    forall h | h in solved
      ensures Solved(s, to, h, solved[h])
    {
      var p :| SolvedBy(s, lim, h, solved[h], p);
      assert SolvedBy(s, to, h, solved[h], p);
    }
  }

  /** A laddered stone is appended to the reports, any other is not. */
  lemma ReportStep(s: Scene, loc: int, calls: seq<Report>, c: Report)
    requires s.size >= 0 && Reported(s, loc, calls) && c.loc == loc && 0 <= loc < |s.g.b|
    requires Captive(s, loc) ==> AtCoordinates(s, c) && MovesOk(s, calls, c)
    ensures Reported(s, loc + 1, if Captive(s, loc) then calls + [c] else calls)
  {
    hide Laddered, AtCoordinates, MovesOk;
    if Captive(s, loc) {
      var r := calls + [c];
      forall i | 0 <= i < |r|
        ensures ReportOk(s, r, i)
      {
        assert r[..i] == calls[..i];
        assert i < |calls| ==> ReportOk(s, calls, i);
        assert calls[..|calls|] == calls;
      }
      forall p | p < loc + 1 && Captive(s, p)
        ensures Listed(r, p)
      {
        if p == loc {
          assert r[|calls|].loc == p;
        } else {
          var i :| 0 <= i < |calls| && calls[i].loc == p;
          assert r[i].loc == p;
        }
      }
    }
  }

  /** The memo after a short chain at loc has been looked up or searched. */
  lemma MemoStep(s: Scene, loc: int, solved: map<int, bool>)
    requires s.size >= 0 && MemoOk(s, loc, solved) && Short(s, loc) && 0 <= loc < |s.head| == |s.g.b|
    ensures s.head[loc] in solved ==> MemoOk(s, loc + 1, solved)
    ensures s.head[loc] !in solved ==> MemoOk(s, loc + 1, solved[s.head[loc] := Captive(s, loc)])
  {
    hide Laddered, Short;
    forall h | h in solved
      ensures Solved(s, loc + 1, h, solved[h])
    {
      var p :| SolvedBy(s, loc, h, solved[h], p);
      assert SolvedBy(s, loc + 1, h, solved[h], p);
    }
    assert SolvedBy(s, loc + 1, s.head[loc], Captive(s, loc), loc);
  }

  /** Stones with one head have the same verdict. */
  lemma SameHead(s: Scene, p: int, q: int)
    requires s.size >= 0 && Position(s.size + 1, s.g.b) && HeadsTellChains(s)
    requires 0 <= p < |s.head| && 0 <= q < |s.head| && Stone(s.g.b[p]) && s.head[q] == s.head[p]
    ensures Captive(s, q) == Captive(s, p)
    ensures q in Chain(s.size + 1, s.g.b, p) && p in Chain(s.size + 1, s.g.b, q)
  {
    hide Laddered, Chain, Position, TargetLibs, WorkingMoves;
    ChainSame(s.size + 1, s.g.b, p, q);
    ChainBasics(s.size + 1, s.g.b, p);
    LadderedTogether(s.depth, s.size + 1, s.g, p, q);
  }

  /** A verdict found in the memo is the chain's own, and the chain has been reported if it is laddered. */
  lemma MemoHit(s: Scene, loc: int, calls: seq<Report>, solved: map<int, bool>)
    requires s.size >= 0 && Position(s.size + 1, s.g.b) && HeadsTellChains(s)
    requires Reported(s, loc, calls) && MemoOk(s, loc, solved)
    requires 0 <= loc < |s.head| && Stone(s.g.b[loc]) && s.head[loc] in solved
    ensures solved[s.head[loc]] == Captive(s, loc)
    ensures Captive(s, loc) ==> !FirstOfChain(s, calls, loc)
  {
    hide Captive, Chain;
    var p :| SolvedBy(s, loc, s.head[loc], solved[s.head[loc]], p);
    SameHead(s, loc, p);
    if Captive(s, loc) {
      assert Listed(calls, p);
    }
  }

  /** A head missing from the memo belongs to a chain not reported yet. */
  lemma MemoMiss(s: Scene, loc: int, calls: seq<Report>, solved: map<int, bool>)
    requires s.size >= 0 && Position(s.size + 1, s.g.b) && HeadsTellChains(s)
    requires Reported(s, loc, calls) && MemoOk(s, loc, solved)
    requires 0 <= loc < |s.head| && Stone(s.g.b[loc]) && s.head[loc] !in solved
    ensures FirstOfChain(s, calls, loc)
  {
    hide Laddered, Chain, Short;
    forall j | 0 <= j < |calls|
      ensures calls[j].loc !in Chain(s.size + 1, s.g.b, loc)
    {
      assert ReportOk(s, calls, j);
      CaptiveIsShort(s, calls[j].loc);
    }
  }

  /** The run over a board's heads. */
  lemma ChainsOfHeads(dy: int, st: Store, s: Scene)
    requires s.size >= 0 && dy == s.size + 1 && StoreOk(dy, st)
    requires Maximal(dy, st.b, st.head) && s.g.b == st.b && s.head == st.head
    ensures HeadsTellChains(s)
  {
    hide RingsOk, LibsOk, LinkedOk;
    forall p, q | 0 <= p < |st.b| && Stone(st.b[p]) && 0 <= q < |st.b|
      ensures st.head[q] == st.head[p] <==> q in Chain(dy, st.b, p)
    {
      ClassIsChain(dy, st, p);
    }
  }

  lemma RunEnds(s: Scene)
    requires s.size >= 1 && Walled(s.size, s.g.b)
    ensures forall p :: p < Loc(s.size, 0, 0) ==> !Short(s, p)
    ensures forall p :: p >= Loc(s.size, 0, s.size) ==> !Short(s, p)
  {
    hide Libs, Chain, OnBoard;
    ScanEnds(s.size);
  }

  /** The run starts on a faithful copy that shares no array with the board. */
  ghost predicate CopyKept(board: Board, copy: Board)
    reads board`rings, board`simpleKoPoint, board.Arrays(), copy`rings, copy`simpleKoPoint, copy.Arrays()
  {
    && board.Valid() && copy.Valid() && board != copy && board.Arrays() !! copy.Arrays()
    && copy.size == board.size && copy.State() == board.State()
  }

  class Model {
    const posLen: int

    constructor (posLen: int)
      ensures this.posLen == posLen
    {
      this.posLen := posLen;
    }

    function XyToTensorPos(x: int, y: int): int
    {
      y * posLen + x
    }

    ghost function SceneOf(board: Board): (s: Scene)
      reads board`simpleKoPoint, board.board, board.groupHead
    {
      Scene(board.SearchLimit() + 2, board.size, board.State(), board.groupHead[..], posLen)
    }

    /** Report every stone in an inescapable atari and every stone that can be put into one; None when a
        search runs off its stack. */
    method IterLadders(board: Board) returns (r: Option<seq<Report>>)
      requires board.Valid() && posLen >= board.size
      // the reports go through the board in the order of the scan, each with its place in the features
      ensures board.size >= 1
      ensures r.Some? ==> forall i :: 0 <= i < |r.value| ==>
        && OnBoard(board.size, r.value[i].loc)
        && r.value[i].pos == LocY(board.size, r.value[i].loc) * posLen + LocX(board.size, r.value[i].loc)
      ensures r.Some? ==> forall i, j :: 0 <= i < j < |r.value| ==> r.value[i].loc < r.value[j].loc
      // only stones with one or two liberties are reported
      ensures r.Some? ==> forall p :: Listed(r.value, p) ==>
        0 <= p < board.board.Length && Stone(board.board[p]) && 1 <= LibCount(board.dy, board.board[..], p) <= 2
      // one with one liberty exactly when it is caught with its owner to move
      ensures r.Some? ==> forall p ::
        0 <= p < board.board.Length && Stone(board.board[p]) && LibCount(board.dy, board.board[..], p) == 1 ==>
        (Listed(r.value, p) <==>
         Value(board.SearchLimit() + 2, board.dy, GoState(board.board[..], None), p, board.board[p], true) == Caught)
      // one with two liberties exactly when a legal attack on one of them leaves it so
      ensures r.Some? ==> forall p ::
        0 <= p < board.board.Length && Stone(board.board[p]) && LibCount(board.dy, board.board[..], p) == 2 ==>
        (Listed(r.value, p) <==>
         exists m :: m in Libs(board.dy, board.board[..], Chain(board.dy, board.board[..], p))
           && Legal(board.dy, board.board[..], board.simpleKoPoint, Opp(board.board[p]), m)
           && Value(board.SearchLimit() + 2, board.dy, GoState(Move(board.dy, board.board[..], Opp(board.board[p]), m), None),
                    p, board.board[p], true) == Caught)
      // the first report about a chain with two liberties lists the attacks that work, the others list none
      ensures r.Some? ==> forall i :: 0 <= i < |r.value| && 0 <= r.value[i].loc < board.board.Length ==>
        var two := LibCount(board.dy, board.board[..], r.value[i].loc) == 2;
        var first := forall j :: 0 <= j < i ==> r.value[j].loc !in Chain(board.dy, board.board[..], r.value[i].loc);
        && (two && first ==> forall m :: m in r.value[i].workingMoves <==>
              m in WorkingMoves(board.SearchLimit() + 2, board.dy, board.State(), r.value[i].loc))
        && (!two || !first ==> r.value[i].workingMoves == [])
      // a run fails only when some search meets a line of play as long as its stack
      ensures r.None? ==> SomeOverruns(board.SearchLimit(), board.dy, board.State())
    {
      hide Board.Valid, Reported, Captive;
      r := ScanBoard(board);
      SizeIs(board);
      if r.Some? {
        ghost var s := SceneOf(board);
        ReportsMean(s, board.dy, r.value);
        forall i | 0 <= i < |r.value|
          ensures OnBoard(board.size, r.value[i].loc)
          ensures r.value[i].pos == LocY(board.size, r.value[i].loc) * posLen + LocX(board.size, r.value[i].loc)
        {
          PlaceIs(s, r.value[i]);
        }
      }
    }

    /** Scan the board on a copy, searching each chain once. */
    method ScanBoard(board: Board) returns (r: Option<seq<Report>>)
      requires board.Valid() && posLen >= board.size
      ensures r.Some? ==> Reported(SceneOf(board), board.arrSize, r.value)
      ensures r.None? ==> SomeOverruns(board.SearchLimit(), board.dy, board.State())
    {
      hide Board.Valid, Laddered, Reported, MemoOk, HeadsTellChains, Short, WorkingMoves, SomeOverruns;
      var solved := map[];
      var calls := [];
      var copy := new Board.CopyOf(board);
      var bsize := board.size;
      ghost var s := SceneOf(board);
      SceneFacts(board, s);
      StartRun(board, s);
      for y := 0 to bsize
        invariant fresh(copy) && fresh(copy.Arrays()) && CopyKept(board, copy)
        invariant Reported(s, Loc(bsize, 0, y), calls) && MemoOk(s, Loc(bsize, 0, y), solved)
      {
        for x := 0 to bsize
          invariant fresh(copy) && fresh(copy.Arrays()) && CopyKept(board, copy)
          invariant Reported(s, Loc(bsize, x, y), calls) && MemoOk(s, Loc(bsize, x, y), solved)
        {
          var step := Visit(board, copy, x, y, calls, solved);
          if step.None? {
            return None;
          }
          calls, solved := step.value.0, step.value.1;
        }
        NextRow(s, y, calls, solved);
      }
      FinishRun(board, s, calls, solved);
      r := Some(calls);
    }

    /** Handle the point at (x, y). */
    method Visit(board: Board, copy: Board, x: int, y: int, calls: seq<Report>, solved: map<int, bool>)
      returns (r: Option<(seq<Report>, map<int, bool>)>)
      requires CopyKept(board, copy) && 0 <= x < board.size && 0 <= y < board.size
      requires Reported(SceneOf(board), Loc(board.size, x, y), calls)
      requires MemoOk(SceneOf(board), Loc(board.size, x, y), solved)
      modifies copy`rings, copy`simpleKoPoint, copy`pla, copy.Arrays()
      ensures r.Some? ==> CopyKept(board, copy)
      ensures r.Some? ==> Reported(SceneOf(board), Loc(board.size, x + 1, y), r.value.0)
      ensures r.Some? ==> MemoOk(SceneOf(board), Loc(board.size, x + 1, y), r.value.1)
      ensures r.None? ==> SomeOverruns(board.SearchLimit(), board.dy, old(board.State()))
    {
      hide SomeOverruns, Overruns, LongLine, AttackOverruns, Value;
      hide Board.StoreValid, Maximal, AllBreathe, Laddered, Reported, MemoOk, HeadsTellChains, Short, WorkingMoves;
      hide TargetLibs, LibCount, Position, CopyKept;
      var pos := XyToTensorPos(x, y);
      var loc := Loc(board.size, x, y);
      ghost var s := SceneOf(board);
      CopyFacts(board, copy);
      SceneFacts(board, s);
      LocOnBoard(board.size, x, y);
      var stone := board.board[loc];
      var libs := board.NumLiberties(loc);
      ShortIs(board, s, loc, libs);
      assert AtCoordinates(s, Report(loc, pos, []));
      if (stone == BLACK || stone == WHITE) && (libs == 1 || libs == 2) {
        var head := board.groupHead[loc];
        if head in solved {
          var laddered := solved[head];
          StepFromMemo(s, loc, calls, solved, Report(loc, pos, []));
          return Some((if laddered then calls + [Report(loc, pos, [])] else calls, solved));
        }
        var found := SearchChain(copy, loc, libs);
        if found.None? {
          OverrunFound(board.SearchLimit(), board.dy, board.State(), loc);
          return None;
        }
        KeptAgain(board, copy);
        var (laddered, workingMoves) := found.value;
        assert AtCoordinates(s, Report(loc, pos, workingMoves));
        StepFromSearch(s, loc, calls, solved, Report(loc, pos, workingMoves), laddered);
        return Some((if laddered then calls + [Report(loc, pos, workingMoves)] else calls, solved[head := laddered]));
      }
      PassOver(s, loc, loc + 1, calls, solved);
      r := Some((calls, solved));
    }

    /** Search the chain at loc on the copy. */
    method SearchChain(copy: Board, loc: int, libs: int) returns (r: Option<(bool, seq<int>)>)
      requires copy.Valid() && 0 <= loc < copy.arrSize && Stone(copy.board[loc])
      requires libs == |TargetLibs(copy.dy, copy.board[..], loc)| && 1 <= libs <= 2
      modifies copy`rings, copy`simpleKoPoint, copy`pla, copy.Arrays()
      ensures r.Some? ==> copy.Valid() && copy.State() == old(copy.State())
      ensures r.Some? ==> r.value.0 == Laddered(copy.SearchLimit() + 2, copy.dy, old(copy.State()), loc)
      ensures r.Some? && libs == 1 ==> (r.value.0 <==>
        Value(copy.SearchLimit() + 2, copy.dy, GoState(old(copy.board[..]), None), loc, old(copy.board[loc]), true) == Caught)
      ensures r.Some? && libs == 2 ==> (r.value.0 <==> |r.value.1| > 0)
      ensures r.Some? && libs == 1 ==> r.value.1 == []
      ensures r.Some? && libs == 2 ==>
        forall m :: m in r.value.1 <==> m in WorkingMoves(copy.SearchLimit() + 2, copy.dy, old(copy.State()), loc)
      ensures r.None? ==> Overruns(copy.SearchLimit(), copy.dy, old(copy.State()), loc)
    {
      hide StoreOk, Maximal, AllBreathe, Walled, Value, WorkingMoves, LongLine, AttackOverruns;
      if libs == 1 {
        var laddered := copy.SearchIsLadderCaptured(loc, true);
        if laddered == StackOverflow {
          return None;
        }
        return Some((laddered.captured, []));
      }
      var workingMoves := copy.SearchIsLadderCapturedAttackerFirst2Libs(loc);
      if workingMoves.None? {
        return None;
      }
      ghost var works := WorkingMoves(copy.SearchLimit() + 2, copy.dy, old(copy.State()), loc);
      SomeWork(works, workingMoves.value);
      return Some((|workingMoves.value| > 0, workingMoves.value));
    }
  }

  lemma SizeIs(board: Board)
    requires board.Valid()
    ensures board.size >= 1 && board.dy == board.size + 1 && board.arrSize == board.board.Length
    ensures Position(board.dy, board.board[..])
  {
  }

  lemma SceneFacts(board: Board, s: Scene)
    requires board.Valid() && s.size == board.size && s.g == board.State() && s.head == board.groupHead[..]
    ensures s.size >= 2 && Walled(s.size, s.g.b) && Position(s.size + 1, s.g.b) && HeadsTellChains(s)
    ensures |s.head| == |s.g.b| == board.arrSize && board.dy == s.size + 1 && board.Shape()
  {
    hide Walled, AllBreathe, HeadsTellChains;
    ChainsOfHeads(board.dy, board.Snap(), s);
  }

  lemma CopyFacts(board: Board, copy: Board)
    requires CopyKept(board, copy)
    ensures board.Valid() && copy.Valid() && copy.Shape() && board != copy && board.Arrays() !! copy.Arrays()
    ensures copy.size == board.size && copy.dy == board.dy && copy.State() == board.State()
  {
    hide StoreOk, Maximal, AllBreathe, Walled;
  }

  lemma KeptAgain(board: Board, copy: Board)
    requires board.Valid() && copy.Valid() && board != copy && board.Arrays() !! copy.Arrays()
    requires copy.size == board.size && copy.State() == board.State()
    ensures CopyKept(board, copy)
  {
  }

  lemma ShortIs(board: Board, s: Scene, loc: int, libs: int)
    requires board.Valid() && s.size == board.size && s.g == board.State() && 0 <= loc < board.arrSize
    requires libs == if Stone(board.board[loc]) then LibCount(board.dy, board.board[..], loc) else 0
    ensures Short(s, loc) <==> Stone(board.board[loc]) && (libs == 1 || libs == 2)
    ensures Stone(board.board[loc]) ==> libs == |TargetLibs(s.size + 1, s.g.b, loc)|
  {
    hide Libs, Chain, StoreOk, Walled, Maximal, AllBreathe;
  }

  /** The verdict comes from the memo. */
  lemma StepFromMemo(s: Scene, loc: int, calls: seq<Report>, solved: map<int, bool>, c: Report)
    requires s.size >= 0 && Position(s.size + 1, s.g.b) && HeadsTellChains(s)
    requires Reported(s, loc, calls) && MemoOk(s, loc, solved) && Short(s, loc)
    requires 0 <= loc < |s.head| && Stone(s.g.b[loc]) && s.head[loc] in solved
    requires c.loc == loc && AtCoordinates(s, c) && c.workingMoves == []
    ensures Reported(s, loc + 1, if solved[s.head[loc]] then calls + [c] else calls) && MemoOk(s, loc + 1, solved)
  {
    hide Captive, Reported, MemoOk, HeadsTellChains, Short, Position, FirstOfChain;
    assert |s.head| == |s.g.b| by {
      HeadsLength(s);
    }
    MemoHit(s, loc, calls, solved);
    MemoStep(s, loc, solved);
    ReportStep(s, loc, calls, c);
  }

  lemma HeadsLength(s: Scene)
    requires s.size >= 0 && HeadsTellChains(s)
    ensures |s.head| == |s.g.b|
  {
  }

  /** The verdict comes from a search. */
  lemma StepFromSearch(s: Scene, loc: int, calls: seq<Report>, solved: map<int, bool>, c: Report, laddered: bool)
    requires s.size >= 0 && Position(s.size + 1, s.g.b) && HeadsTellChains(s)
    requires Reported(s, loc, calls) && MemoOk(s, loc, solved) && Short(s, loc)
    requires 0 <= loc < |s.head| && Stone(s.g.b[loc]) && s.head[loc] !in solved
    requires c.loc == loc && AtCoordinates(s, c) && laddered == Captive(s, loc)
    requires |TargetLibs(s.size + 1, s.g.b, loc)| == 1 ==> c.workingMoves == []
    requires |TargetLibs(s.size + 1, s.g.b, loc)| == 2 ==>
      forall m :: m in c.workingMoves <==> m in WorkingMoves(s.depth, s.size + 1, s.g, loc)
    ensures Reported(s, loc + 1, if laddered then calls + [c] else calls)
    ensures MemoOk(s, loc + 1, solved[s.head[loc] := laddered])
  {
    hide Captive, Reported, MemoOk, HeadsTellChains, Position, FirstOfChain, TargetLibs, WorkingMoves;
    assert |s.head| == |s.g.b| by {
      HeadsLength(s);
    }
    MemoMiss(s, loc, calls, solved);
    MemoStep(s, loc, solved);
    ReportStep(s, loc, calls, c);
  }

  lemma SomeWork(works: set<int>, moves: seq<int>)
    requires forall m :: m in moves <==> m in works
    ensures works != {} <==> |moves| > 0
  {
    if works != {} {
      var m := SomeMember(works);
      assert m in moves;
    }
    if |moves| > 0 {
      var m := moves[0];
      assert m in moves;
    }
  }

  lemma StartRun(board: Board, s: Scene)
    requires board.Valid() && s.size == board.size && s.g == board.State() && s.head == board.groupHead[..]
    ensures Reported(s, Loc(s.size, 0, 0), []) && MemoOk(s, Loc(s.size, 0, 0), map[])
  {
    hide Reported, MemoOk, Short;
    RunEnds(s);
    NothingYet(s, Loc(s.size, 0, 0));
  }

  lemma NextRow(s: Scene, y: int, calls: seq<Report>, solved: map<int, bool>)
    requires s.size >= 1 && Walled(s.size, s.g.b)
    requires Reported(s, Loc(s.size, s.size, y), calls) && MemoOk(s, Loc(s.size, s.size, y), solved)
    ensures Reported(s, Loc(s.size, 0, y + 1), calls) && MemoOk(s, Loc(s.size, 0, y + 1), solved)
  {
    hide Reported, MemoOk, OnBoard, TargetLibs;
    RowEnd(s.size, y);
    PassOver(s, Loc(s.size, s.size, y), Loc(s.size, 0, y + 1), calls, solved);
  }

  lemma FinishRun(board: Board, s: Scene, calls: seq<Report>, solved: map<int, bool>)
    requires board.Valid() && s.size == board.size && s.g == board.State() && s.head == board.groupHead[..]
    requires Reported(s, Loc(s.size, 0, s.size), calls) && MemoOk(s, Loc(s.size, 0, s.size), solved)
    ensures Reported(s, board.arrSize, calls)
  {
    hide Reported, MemoOk, Short;
    RunEnds(s);
    MulMono(s.size + 1, s.size + 1, s.size + 2);
    PassOver(s, Loc(s.size, 0, s.size), board.arrSize, calls, solved);
  }
}
