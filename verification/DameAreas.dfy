/** The part of the area that does not touch dame. */
module DameAreas {
  import opened Grid
  import opened Components
  import opened Rules
  import opened ChainStore
  import opened Queries
  import opened Claims
  import opened PassAlive
  import opened Floods
  import opened Boards
  import opened Areas

  /** The queue holds q so far, and has room for every point of the board. */
  ghost predicate Holds(queue: seq<int>, tail: int, n: int, q: seq<int>)
  {
    |queue| == n && 0 <= tail <= n && q == queue[..tail]
  }

  ghost predicate MarkedBy(marks: seq<bool>, q: seq<int>)
  {
    forall p :: 0 <= p < |marks| ==> (marks[p] <==> p in q)
  }

  /** The points of q carry their owners, all others nothing. */
  ghost predicate CopiedBy(area: seq<int>, now: seq<int>, q: seq<int>)
  {
    |now| == |area| && forall p :: 0 <= p < |now| ==> now[p] == if p in q then area[p] else EMPTY
  }

  lemma Append(queue: seq<int>, tail: int, n: int, q: seq<int>, p: int)
    requires Holds(queue, tail, n, q) && tail < n
    ensures Holds(queue[tail := p], tail + 1, n, q + [p])
  {
  }

  lemma MarkOne(marks: seq<bool>, q: seq<int>, p: int)
    requires MarkedBy(marks, q) && 0 <= p < |marks|
    ensures MarkedBy(marks[p := true], q + [p])
  {
  }

  lemma CopyOne(area: seq<int>, now: seq<int>, q: seq<int>, p: int)
    requires CopiedBy(area, now, q) && 0 <= p < |now|
    ensures CopiedBy(area, now[p := area[p]], q + [p])
  {
  }

  lemma CopyIs(area: seq<int>, now: seq<int>, q: seq<int>, p: int)
    requires CopiedBy(area, now, q) && 0 <= p < |area|
    ensures |now| == |area|
    ensures area[p] != EMPTY ==> (now[p] == area[p] <==> p in q)
  {
  }

  /** A same-owner neighbour belongs to the same kind and fits into the queue. */
  lemma NbrFits(dy: int, b: seq<int>, area: seq<int>, touching: bool, q: seq<int>, hd: int, c: int, i: int)
    requires AreaOk(dy, b, area) && Serving(dy, b, area, touching, q, hd, c, i) && 0 <= i < 4
    ensures 0 < Nbr(dy, q[hd], i) < |area| && (area[Nbr(dy, q[hd], i)] == c && Nbr(dy, q[hd], i) !in q ==> |q| < |area|)
    ensures |q| <= |area| && Stone(c)
  {
    hide Spread, DameTouching, Nbr;
    var x, p := q[hd], Nbr(dy, q[hd], i);
    assert x in Owned(dy, b, area, touching) && area[x] == c;
    OwnedRange(dy, b, area, touching, x);
    QueueRoom(dy, b, area, touching, q, hd, c);
    NbrAdj(dy, x, i);
    if area[p] == c {
      TouchTogether(dy, b, area, x, p);
    }
  }

  // ----- first pass: mark what touches dame

  /** Look at the four neighbours of a point taken from the queue. */
  method ServeTouching(dy: int, basicArea: array<int>, pla: int, nextLoc: int, isDameTouching: seq<bool>,
          queue: seq<int>, queueTail: int,
        ghost b: seq<int>, ghost hd: int, ghost q: seq<int>)
    returns (marks: seq<bool>, queue': seq<int>, tail: int, ghost q': seq<int>)
    requires AreaOk(dy, b, basicArea[..]) && |isDameTouching| == basicArea.Length && MarkedBy(isDameTouching, q)
    requires Holds(queue, queueTail, basicArea.Length, q) && Serving(dy, b, basicArea[..], true, q, hd, pla, 0)
    requires 0 <= hd < |q| && nextLoc == q[hd]
    ensures |marks| == basicArea.Length && MarkedBy(marks, q') && Holds(queue', tail, basicArea.Length, q') && q <= q'
    ensures Serving(dy, b, basicArea[..], true, q', hd, pla, 4)
  {
    hide AreaOk, MarkedBy, Serving;
    marks, queue', tail, q' := isDameTouching, queue, queueTail, q;
    for j := 0 to 4
      invariant |marks| == basicArea.Length && MarkedBy(marks, q') && Holds(queue', tail, basicArea.Length, q') && q <= q'
      invariant Serving(dy, b, basicArea[..], true, q', hd, pla, j) && 0 <= hd < |q'| && nextLoc == q'[hd]
    {
      var adj := Nbr(dy, nextLoc, j);
      NbrFits(dy, b, basicArea[..], true, q', hd, pla, j);
      MarkIs(marks, q', adj);
      ghost var was := q';
      if basicArea[adj] == pla && !marks[adj] {
        Append(queue', tail, basicArea.Length, q', adj);
        MarkOne(marks, q', adj);
        marks := marks[adj := true];
        queue' := queue'[tail := adj];
        tail := tail + 1;
        q' := q' + [adj];
      }
      ServeStep(dy, b, basicArea[..], true, was, hd, pla, j, q');
    }
  }

  lemma MarkIs(marks: seq<bool>, q: seq<int>, p: int)
    requires MarkedBy(marks, q) && 0 <= p < |marks|
    ensures marks[p] <==> p in q
  {
  }

  /** Serve the queue until it is empty. */
  method FloodTouching(dy: int, basicArea: array<int>, pla: int, isDameTouching: seq<bool>, queue: seq<int>,
          queueHead: int, queueTail: int,
        ghost b: seq<int>, ghost q: seq<int>)
    returns (marks: seq<bool>, queue': seq<int>, head: int, tail: int, ghost q': seq<int>)
    requires AreaOk(dy, b, basicArea[..]) && |isDameTouching| == basicArea.Length && MarkedBy(isDameTouching, q)
    requires Holds(queue, queueTail, basicArea.Length, q) && Flooding(dy, b, basicArea[..], true, q, queueHead, pla)
    ensures |marks| == basicArea.Length && MarkedBy(marks, q') && Holds(queue', tail, basicArea.Length, q') && q <= q'
    ensures head == tail == |q'| && Flooding(dy, b, basicArea[..], true, q', |q'|, pla)
  {
    hide AreaOk, MarkedBy, Serving, Owned, Spread;
    marks, queue', head, tail, q' := isDameTouching, queue, queueHead, queueTail, q;
    while head != tail
      invariant |marks| == basicArea.Length && MarkedBy(marks, q') && Holds(queue', tail, basicArea.Length, q') && q <= q'
      invariant Flooding(dy, b, basicArea[..], true, q', head, pla)
      decreases basicArea.Length - head
    {
      var nextLoc := queue'[head];
      ServeStart(dy, b, basicArea[..], true, q', head, pla);
      marks, queue', tail, q' := ServeTouching(dy, basicArea, pla, nextLoc, marks, queue', tail, b, head, q');
      ServeEnd(dy, b, basicArea[..], true, q', head, pla);
      head := head + 1;
    }
  }

  /** Is there an empty point next to loc that nobody owns? */
  method NextToDame(board: Board, basicArea: array<int>, loc: int) returns (r: bool)
    requires board.Valid() && AreaOk(board.dy, board.board[..], basicArea[..])
    requires 0 <= loc < board.arrSize && board.board[loc] != WALL
    ensures r <==> TouchesDame(board.dy, board.board[..], basicArea[..], loc)
  {
    hide StoreOk, Maximal, AllBreathe;
    NbrsInRange(board.dy, board.board[..], loc);
    DameNbrs(board.dy, board.board[..], basicArea[..], loc);
    var adj0, adj1, adj2, adj3 := Nbr(board.dy, loc, 0), Nbr(board.dy, loc, 1), Nbr(board.dy, loc, 2), Nbr(board.dy, loc, 3);
    r := (board.board[adj0] == EMPTY && basicArea[adj0] == EMPTY)
      || (board.board[adj1] == EMPTY && basicArea[adj1] == EMPTY)
      || (board.board[adj2] == EMPTY && basicArea[adj2] == EMPTY)
      || (board.board[adj3] == EMPTY && basicArea[adj3] == EMPTY);
  }

  lemma DameNbrs(dy: int, b: seq<int>, area: seq<int>, p: int)
    ensures TouchesDame(dy, b, area, p) <==>
      IsDame(b, area, Nbr(dy, p, 0)) || IsDame(b, area, Nbr(dy, p, 1)) || IsDame(b, area, Nbr(dy, p, 2)) || IsDame(b, area, Nbr(dy, p, 3))
  {
    hide IsDame;
    if TouchesDame(dy, b, area, p) {
      var q :| Adj(dy, p, q) && IsDame(b, area, q);
      AllNbrs(dy, p, q);
    }
    NbrAdj(dy, p, 0);
    NbrAdj(dy, p, 1);
    NbrAdj(dy, p, 2);
    NbrAdj(dy, p, 3);
  }

  /** Between floods of the first pass. */
  ghost predicate TouchingPass(board: Board, area: seq<int>, marks: seq<bool>, queue: seq<int>, tail: int,
          q: seq<int>, lim: int)
    reads board.board
  {
    && AreaOk(board.dy, board.board[..], area) && |marks| == |area| && MarkedBy(marks, q) && Holds(queue, tail, |area|, q)
    && PassOk(board.dy, board.board[..], area, true, q, lim)
  }

  /** The scan of the first pass at one point. */
  method TouchAt(board: Board, basicArea: array<int>, loc: int, isDameTouching: seq<bool>, queue: seq<int>,
          queueHead: int, queueTail: int, ghost q: seq<int>)
    returns (marks: seq<bool>, queue': seq<int>, head: int, tail: int, ghost q': seq<int>)
    requires board.Valid() && 0 <= loc < board.arrSize && OnBoard(board.size, loc)
    requires TouchingPass(board, basicArea[..], isDameTouching, queue, queueTail, q, loc) && queueHead == queueTail
    ensures TouchingPass(board, basicArea[..], marks, queue', tail, q', loc + 1) && head == tail
  {
    hide StoreOk, Maximal, AllBreathe, OnBoard, AreaOk, MarkedBy, PassOk, IsSeed, Flooding, TouchesDame;
    ghost var b := board.board[..];
    marks, queue', head, tail, q' := isDameTouching, queue, queueHead, queueTail, q;
    AreaFacts(board, basicArea[..], loc);
    MarkIs(marks, q, loc);
    SeedIs(board.dy, b, basicArea[..], true, loc);
    if basicArea[loc] != EMPTY && !marks[loc] {
      var touches := NextToDame(board, basicArea, loc);
      if touches {
        SeedFlood(board.dy, b, basicArea[..], true, q, loc, loc);
        SeedRoom(board.dy, b, basicArea[..], true, q, loc);
        Append(queue, tail, basicArea.Length, q, loc);
        MarkOne(marks, q, loc);
        marks := marks[loc := true];
        queue' := queue'[tail := loc];
        tail := tail + 1;
        marks, queue', head, tail, q' := FloodTouching(board.dy, basicArea, basicArea[loc], marks, queue', head, tail, b, q + [loc]);
        assert q'[|q|] == loc;
        FloodDone(board.dy, b, basicArea[..], true, q, loc, q', basicArea[loc]);
        return;
      }
    }
    PassOverArea(board.dy, b, basicArea[..], true, q, loc, loc + 1);
  }

  lemma AreaFacts(board: Board, area: seq<int>, loc: int)
    requires board.Valid() && AreaOk(board.dy, board.board[..], area)
    requires 0 <= loc < board.arrSize && OnBoard(board.size, loc)
    ensures |area| == board.arrSize == board.board.Length && board.board[loc] != WALL
    ensures area[loc] == EMPTY || Stone(area[loc])
  {
    hide StoreOk, Maximal, AllBreathe, OnBoard;
  }

  lemma SeedIs(dy: int, b: seq<int>, area: seq<int>, touching: bool, p: int)
    requires 0 <= p < |area|
    ensures IsSeed(dy, b, area, touching, p) <==>
      area[p] != EMPTY && if touching then TouchesDame(dy, b, area, p) else !DameTouching(dy, b, area, p)
  {
    hide TouchesDame, DameTouching;
  }

  lemma SeedRoom(dy: int, b: seq<int>, area: seq<int>, touching: bool, q: seq<int>, p: int)
    requires PassOk(dy, b, area, touching, q, p) && IsSeed(dy, b, area, touching, p) && p !in q
    ensures |q| < |area|
  {
    hide Flooding, IsSeed, Owned;
    SeedIsOwned(dy, b, area, touching, p);
    QueueRoom(dy, b, area, touching, q, |q|, EMPTY);
  }

  /** First pass: the points whose areas touch dame. */
  method MarkTouching(board: Board, basicArea: array<int>, queue: seq<int>) returns (marks: seq<bool>, queue': seq<int>)
    requires board.Valid() && AreaOk(board.dy, board.board[..], basicArea[..]) && |queue| == board.arrSize
    ensures |marks| == board.arrSize && |queue'| == board.arrSize
    ensures forall p :: 0 <= p < |marks| ==> (marks[p] <==> p in Owned(board.dy, board.board[..], basicArea[..], true))
  {
    assert board.size >= 2 && basicArea.Length == board.arrSize;
    hide *;
    marks := seq(board.arrSize, _ => false);
    queue' := queue;
    var head, tail := 0, 0;
    ghost var q := [];
    TouchingBegins(board, basicArea[..], marks, queue);
    for y := 0 to board.size
      invariant TouchingPass(board, basicArea[..], marks, queue', tail, q, Loc(board.size, 0, y)) && head == tail
    {
      for x := 0 to board.size
        invariant TouchingPass(board, basicArea[..], marks, queue', tail, q, Loc(board.size, x, y)) && head == tail
      {
        PointAt(board, x, y);
        marks, queue', head, tail, q := TouchAt(board, basicArea, Loc(board.size, x, y), marks, queue', head, tail, q);
      }
      TouchingRow(board, basicArea[..], marks, queue', tail, q, y);
    }
    TouchingEnds(board, basicArea[..], marks, queue', tail, q);
  }

  lemma PointAt(board: Board, x: int, y: int)
    requires board.Valid() && 0 <= x < board.size && 0 <= y < board.size
    ensures 0 <= Loc(board.size, x, y) < board.arrSize && OnBoard(board.size, Loc(board.size, x, y))
    ensures Loc(board.size, x, y) + 1 == Loc(board.size, x + 1, y)
  {
    hide StoreOk, Maximal, AllBreathe, OnBoard;
    LocOnBoard(board.size, x, y);
  }

  lemma OffBoardUnowned(board: Board, area: seq<int>, p: int)
    requires board.Valid() && AreaOk(board.dy, board.board[..], area) && 0 <= p < |area| && !OnBoard(board.size, p)
    ensures area[p] == EMPTY
  {
    hide StoreOk, Maximal, AllBreathe, OnBoard;
  }

  lemma TouchingBegins(board: Board, area: seq<int>, marks: seq<bool>, queue: seq<int>)
    requires board.Valid() && AreaOk(board.dy, board.board[..], area)
    requires |queue| == board.arrSize && |area| == board.arrSize
    requires |marks| == board.arrSize && forall p :: 0 <= p < |marks| ==> !marks[p]
    ensures TouchingPass(board, area, marks, queue, 0, [], Loc(board.size, 0, 0))
  {
    hide StoreOk, Maximal, AllBreathe, OnBoard, Walled, PassOk, AreaOk;
    ScanEnds(board.size);
    forall p | 0 <= p < Loc(board.size, 0, 0) && p < |area|
      ensures area[p] == EMPTY
    {
      OffBoardUnowned(board, area, p);
    }
    PassNone(board.dy, board.board[..], area, true, Loc(board.size, 0, 0));
  }

  lemma SeedOnBoard(board: Board, area: seq<int>, touching: bool, q: seq<int>, lim: int, to: int)
    requires board.Valid() && AreaOk(board.dy, board.board[..], area) && 0 <= lim <= to
    requires PassOk(board.dy, board.board[..], area, touching, q, lim)
    requires forall p :: lim <= p < to ==> !OnBoard(board.size, p)
    ensures PassOk(board.dy, board.board[..], area, touching, q, to)
  {
    hide StoreOk, Maximal, AllBreathe, OnBoard, Walled, PassOk, AreaOk, TouchesDame, DameTouching;
    forall p | lim <= p < to
      ensures !IsSeed(board.dy, board.board[..], area, touching, p)
    {
      if p < |area| {
        OffBoardUnowned(board, area, p);
      }
    }
    PassOverArea(board.dy, board.board[..], area, touching, q, lim, to);
  }

  lemma RowGap(board: Board, y: int)
    requires board.Valid() && y >= 0
    ensures 0 <= Loc(board.size, board.size, y) && Loc(board.size, 0, y + 1) == Loc(board.size, board.size, y) + 1
    ensures forall p :: Loc(board.size, board.size, y) <= p < Loc(board.size, 0, y + 1) ==> !OnBoard(board.size, p)
  {
    hide StoreOk, Maximal, AllBreathe, OnBoard, Walled;
    RowEnd(board.size, y);
    MulMono(board.size + 1, 0, y + 1);
  }

  lemma TouchingRow(board: Board, area: seq<int>, marks: seq<bool>, queue: seq<int>, tail: int, q: seq<int>, y: int)
    requires board.Valid() && y >= 0 && TouchingPass(board, area, marks, queue, tail, q, Loc(board.size, board.size, y))
    ensures TouchingPass(board, area, marks, queue, tail, q, Loc(board.size, 0, y + 1))
  {
    hide Board.Valid, OnBoard, PassOk, AreaOk, Loc;
    RowGap(board, y);
    SeedOnBoard(board, area, true, q, Loc(board.size, board.size, y), Loc(board.size, 0, y + 1));
  }

  lemma ScanGap(board: Board)
    requires board.Valid()
    ensures 0 <= Loc(board.size, 0, board.size) <= board.arrSize
    ensures forall p :: Loc(board.size, 0, board.size) <= p < board.arrSize ==> !OnBoard(board.size, p)
  {
    hide StoreOk, Maximal, AllBreathe, OnBoard, Walled;
    ScanEnds(board.size);
    MulMono(board.size + 1, 0, board.size + 1);
  }

  lemma TouchingEnds(board: Board, area: seq<int>, marks: seq<bool>, queue: seq<int>, tail: int, q: seq<int>)
    requires board.Valid() && |area| == board.arrSize
    requires TouchingPass(board, area, marks, queue, tail, q, Loc(board.size, 0, board.size))
    ensures |marks| == board.arrSize && |queue| == board.arrSize
    ensures forall p :: 0 <= p < |marks| ==> (marks[p] <==> p in Owned(board.dy, board.board[..], area, true))
  {
    hide Board.Valid, OnBoard, PassOk, AreaOk, Loc, Owned;
    ScanGap(board);
    SeedOnBoard(board, area, true, q, Loc(board.size, 0, board.size), board.arrSize);
    forall p | 0 <= p < |marks|
      ensures marks[p] <==> p in Owned(board.dy, board.board[..], area, true)
    {
      PassDone(board.dy, board.board[..], area, true, q, p);
    }
  }

  // ----- second pass: copy what does not touch dame

  /** Look at the four neighbours of a point taken from the queue. */
  method ServeCopying(dy: int, basicArea: array<int>, pla: int, nextLoc: int, result: array<int>, queue: seq<int>,
          queueTail: int,
        ghost b: seq<int>, ghost hd: int, ghost q: seq<int>)
    returns (queue': seq<int>, tail: int, ghost q': seq<int>)
    requires AreaOk(dy, b, basicArea[..]) && result != basicArea && CopiedBy(basicArea[..], result[..], q)
    requires Holds(queue, queueTail, basicArea.Length, q) && Serving(dy, b, basicArea[..], false, q, hd, pla, 0)
    requires 0 <= hd < |q| && nextLoc == q[hd]
    modifies result
    ensures CopiedBy(basicArea[..], result[..], q') && Holds(queue', tail, basicArea.Length, q') && q <= q'
    ensures Serving(dy, b, basicArea[..], false, q', hd, pla, 4)
  {
    hide AreaOk, CopiedBy, Serving;
    ghost var area := basicArea[..];
    queue', tail, q' := queue, queueTail, q;
    for j := 0 to 4
      invariant area == basicArea[..] && CopiedBy(area, result[..], q')
      invariant Holds(queue', tail, basicArea.Length, q') && q <= q'
      invariant Serving(dy, b, area, false, q', hd, pla, j) && 0 <= hd < |q'| && nextLoc == q'[hd]
    {
      var adj := Nbr(dy, nextLoc, j);
      NbrFits(dy, b, area, false, q', hd, pla, j);
      CopyIs(area, result[..], q', adj);
      ghost var was := q';
      if basicArea[adj] == pla && result[adj] != basicArea[adj] {
        Append(queue', tail, basicArea.Length, q', adj);
        CopyOne(area, result[..], q', adj);
        result[adj] := basicArea[adj];
        queue' := queue'[tail := adj];
        tail := tail + 1;
        q' := q' + [adj];
      }
      ServeStep(dy, b, area, false, was, hd, pla, j, q');
    }
  }

  /** Serve the queue until it is empty. */
  method FloodCopying(dy: int, basicArea: array<int>, pla: int, result: array<int>, queue: seq<int>, queueHead: int,
          queueTail: int,
        ghost b: seq<int>, ghost q: seq<int>)
    returns (queue': seq<int>, head: int, tail: int, ghost q': seq<int>)
    requires AreaOk(dy, b, basicArea[..]) && result != basicArea && CopiedBy(basicArea[..], result[..], q)
    requires Holds(queue, queueTail, basicArea.Length, q) && Flooding(dy, b, basicArea[..], false, q, queueHead, pla)
    modifies result
    ensures CopiedBy(basicArea[..], result[..], q') && Holds(queue', tail, basicArea.Length, q') && q <= q'
    ensures head == tail == |q'| && Flooding(dy, b, basicArea[..], false, q', |q'|, pla)
  {
    hide AreaOk, CopiedBy, Serving, Owned, Spread;
    queue', head, tail, q' := queue, queueHead, queueTail, q;
    ghost var area := basicArea[..];
    while head != tail
      invariant area == basicArea[..] && CopiedBy(area, result[..], q')
      invariant Holds(queue', tail, basicArea.Length, q') && q <= q'
      invariant Flooding(dy, b, area, false, q', head, pla)
      decreases basicArea.Length - head
    {
      var nextLoc := queue'[head];
      ServeStart(dy, b, area, false, q', head, pla);
      queue', tail, q' := ServeCopying(dy, basicArea, pla, nextLoc, result, queue', tail, b, head, q');
      ServeEnd(dy, b, area, false, q', head, pla);
      head := head + 1;
    }
  }

  /** Between floods of the second pass. */
  ghost predicate CopyingPass(dy: int, b: seq<int>, area: seq<int>, now: seq<int>, queue: seq<int>, tail: int,
          q: seq<int>, lim: int)
  {
    AreaOk(dy, b, area) && CopiedBy(area, now, q) && Holds(queue, tail, |area|, q) && PassOk(dy, b, area, false, q, lim)
  }

  /** The scan of the second pass at one point. */
  method CopyAt(board: Board, basicArea: array<int>, loc: int, marks: seq<bool>, result: array<int>, queue: seq<int>,
          queueHead: int, queueTail: int, ghost q: seq<int>)
    returns (queue': seq<int>, head: int, tail: int, ghost q': seq<int>)
    requires board.Valid() && 0 <= loc < board.arrSize && OnBoard(board.size, loc)
    requires Apart(board, result) && result != basicArea
    requires CopyingPass(board.dy, board.board[..], basicArea[..], result[..], queue, queueTail, q, loc)
    requires queueHead == queueTail
    requires |marks| == board.arrSize && (marks[loc] <==> loc in Owned(board.dy, board.board[..], basicArea[..], true))
    modifies result
    ensures CopyingPass(board.dy, board.board[..], basicArea[..], result[..], queue', tail, q', loc + 1) && head == tail
  {
    hide StoreOk, Maximal, AllBreathe, OnBoard, AreaOk, CopiedBy, PassOk, IsSeed, Flooding, DameTouching;
    ghost var b, area := board.board[..], basicArea[..];
    queue', head, tail, q' := queue, queueHead, queueTail, q;
    AreaFacts(board, area, loc);
    CopyIs(area, result[..], q, loc);
    SeedIs(board.dy, b, area, false, loc);
    if basicArea[loc] != EMPTY && !marks[loc] && result[loc] != basicArea[loc] {
      SeedFlood(board.dy, b, area, false, q, loc, loc);
      SeedRoom(board.dy, b, area, false, q, loc);
      Append(queue, tail, basicArea.Length, q, loc);
      CopyOne(area, result[..], q, loc);
      result[loc] := basicArea[loc];
      queue' := queue'[tail := loc];
      tail := tail + 1;
      queue', head, tail, q' := FloodCopying(board.dy, basicArea, basicArea[loc], result, queue', head, tail, b, q + [loc]);
      assert q'[|q|] == loc;
      FloodDone(board.dy, b, area, false, q, loc, q', basicArea[loc]);
    } else {
      PassOverArea(board.dy, b, area, false, q, loc, loc + 1);
    }
  }

  /** The points whose areas do not touch dame, with their owners. */
  ghost function AwayFromDame(dy: int, b: seq<int>, area: seq<int>): (r: seq<int>)
    ensures |r| == |area|
  {
    seq(|area|, p requires 0 <= p < |area| => if p in Owned(dy, b, area, false) then area[p] else EMPTY)
  }

  /** Second pass: copy the areas that do not touch dame. */
  method CopyAwayFromDame(board: Board, basicArea: array<int>, marks: seq<bool>, result: array<int>, queue: seq<int>)
    requires board.Valid() && AreaOk(board.dy, board.board[..], basicArea[..])
    requires |queue| == board.arrSize == basicArea.Length
    requires Apart(board, result) && result != basicArea && forall p :: 0 <= p < result.Length ==> result[p] == EMPTY
    requires |marks| == board.arrSize
    requires forall p :: 0 <= p < |marks| ==> (marks[p] <==> p in Owned(board.dy, board.board[..], basicArea[..], true))
    modifies result
    ensures result[..] == AwayFromDame(board.dy, board.board[..], basicArea[..])
  {
    hide Board.Valid, AreaOk, CopyingPass, OnBoard, Loc, Owned, AwayFromDame;
    SizePositive(board);
    ghost var b, area := board.board[..], basicArea[..];
    var queue' := queue;
    var head, tail := 0, 0;
    ghost var q := [];
    CopyingBegins(board, area, result[..], queue);
    for y := 0 to board.size
      invariant board.Valid() && b == board.board[..] && area == basicArea[..] && head == tail
      invariant CopyingPass(board.dy, b, area, result[..], queue', tail, q, Loc(board.size, 0, y))
    {
      for x := 0 to board.size
        invariant board.Valid() && b == board.board[..] && area == basicArea[..] && head == tail
        invariant CopyingPass(board.dy, b, area, result[..], queue', tail, q, Loc(board.size, x, y))
      {
        PointAt(board, x, y);
        queue', head, tail, q := CopyAt(board, basicArea, Loc(board.size, x, y), marks, result, queue', head, tail, q);
      }
      CopyingRow(board, area, result[..], queue', tail, q, y);
    }
    CopyingEnds(board, area, result[..], queue', tail, q);
  }

  lemma SizePositive(board: Board)
    requires board.Valid()
    ensures board.size >= 2
  {
    hide StoreOk, Maximal, AllBreathe, Walled;
  }

  lemma CopyingBegins(board: Board, area: seq<int>, now: seq<int>, queue: seq<int>)
    requires board.Valid() && AreaOk(board.dy, board.board[..], area)
    requires |queue| == board.arrSize && |area| == |now| == board.arrSize
    requires forall p :: 0 <= p < |now| ==> now[p] == EMPTY
    ensures CopyingPass(board.dy, board.board[..], area, now, queue, 0, [], Loc(board.size, 0, 0))
  {
    hide StoreOk, Maximal, AllBreathe, OnBoard, Walled, PassOk, AreaOk;
    ScanEnds(board.size);
    forall p | 0 <= p < Loc(board.size, 0, 0) && p < |area|
      ensures area[p] == EMPTY
    {
      OffBoardUnowned(board, area, p);
    }
    PassNone(board.dy, board.board[..], area, false, Loc(board.size, 0, 0));
  }

  lemma CopyingRow(board: Board, area: seq<int>, now: seq<int>, queue: seq<int>, tail: int, q: seq<int>, y: int)
    requires board.Valid() && y >= 0
    requires CopyingPass(board.dy, board.board[..], area, now, queue, tail, q, Loc(board.size, board.size, y))
    ensures CopyingPass(board.dy, board.board[..], area, now, queue, tail, q, Loc(board.size, 0, y + 1))
  {
    hide Board.Valid, OnBoard, PassOk, AreaOk, Loc;
    RowGap(board, y);
    SeedOnBoard(board, area, false, q, Loc(board.size, board.size, y), Loc(board.size, 0, y + 1));
  }

  lemma CopyingEnds(board: Board, area: seq<int>, now: seq<int>, queue: seq<int>, tail: int, q: seq<int>)
    requires board.Valid() && |area| == board.arrSize
    requires CopyingPass(board.dy, board.board[..], area, now, queue, tail, q, Loc(board.size, 0, board.size))
    ensures now == AwayFromDame(board.dy, board.board[..], area)
  {
    hide Board.Valid, OnBoard, PassOk, AreaOk, Loc, Owned;
    ScanGap(board);
    SeedOnBoard(board, area, false, q, Loc(board.size, 0, board.size), board.arrSize);
    forall p | 0 <= p < |area|
      ensures p in q <==> p in Owned(board.dy, board.board[..], area, false)
    {
      PassDone(board.dy, board.board[..], area, false, q, p);
    }
  }

  /** Copy the part of the basic area that does not touch dame into the cleared result. */
  method CalculateNonDameTouchingAreaHelper(board: Board, basicArea: array<int>, result: array<int>)
    requires board.Valid() && AreaOk(board.dy, board.board[..], basicArea[..]) && basicArea.Length == board.arrSize
    requires Apart(board, result) && result != basicArea && forall p :: 0 <= p < result.Length ==> result[p] == EMPTY
    modifies result
    ensures result[..] == AwayFromDame(board.dy, board.board[..], basicArea[..])
  {
    hide Board.Valid, AreaOk, Owned, AwayFromDame;
    SizeFacts(board);
    var queue := seq(board.arrSize, _ => PASS);
    var isDameTouching;
    isDameTouching, queue := MarkTouching(board, basicArea, queue);
    CopyAwayFromDame(board, basicArea, isDameTouching, result, queue);
  }

  lemma SizeFacts(board: Board)
    requires board.Valid()
    ensures board.arrSize == board.board.Length && board.size >= 2
  {
    hide StoreOk, Maximal, AllBreathe, Walled;
  }

  /** Owned points that hold a stone of their owner, or those that do not, restored to the result. */
  ghost function Kept(b: seq<int>, area: seq<int>, was: seq<int>, stones: bool): (r: seq<int>)
    requires |b| == |area| == |was|
    ensures |r| == |b|
  {
    seq(|b|, p requires 0 <= p < |b| => if area[p] != EMPTY && (area[p] == b[p]) == stones then area[p] else was[p])
  }

  ghost predicate KeptBelow(b: seq<int>, area: seq<int>, was: seq<int>, now: seq<int>, stones: bool, lim: int)
  {
    |b| == |area| == |was| == |now| && forall p :: 0 <= p < |b| ==> now[p] == if p < lim then Kept(b, area, was, stones)[p] else was[p]
  }

  lemma KeepPoint(b: seq<int>, area: seq<int>, was: seq<int>, now: seq<int>, stones: bool, loc: int)
    requires KeptBelow(b, area, was, now, stones, loc) && 0 <= loc < |b|
    ensures |now| == |area| == |b|
    ensures KeptBelow(b, area, was, if area[loc] != EMPTY && (area[loc] == b[loc]) == stones then now[loc := area[loc]] else now, stones, loc + 1)
  {
  }

  lemma KeepNothing(board: Board, area: seq<int>, was: seq<int>, now: seq<int>, stones: bool, lim: int, to: int)
    requires board.Valid() && AreaOk(board.dy, board.board[..], area)
    requires KeptBelow(board.board[..], area, was, now, stones, lim) && lim <= to
    requires forall p :: lim <= p < to ==> !OnBoard(board.size, p)
    ensures KeptBelow(board.board[..], area, was, now, stones, to)
  {
    hide StoreOk, Maximal, AllBreathe, OnBoard, Walled, AreaOk;
    forall p | lim <= p < to && 0 <= p < |area|
      ensures area[p] == EMPTY
    {
      OffBoardUnowned(board, area, p);
    }
  }

  /** Restore the territories, or the stones, of the basic area in the result. */
  method KeepPart(board: Board, basicArea: array<int>, result: array<int>, stones: bool)
    requires board.Valid() && AreaOk(board.dy, board.board[..], basicArea[..]) && basicArea.Length == board.arrSize
    requires Apart(board, result) && result != basicArea
    modifies result
    ensures board.board.Length == board.arrSize
    ensures result[..] == Kept(board.board[..], basicArea[..], old(result[..]), stones)
  {
    hide Board.Valid, AreaOk, KeptBelow, OnBoard, Loc, Kept;
    SizeFacts(board);
    ghost var b, area, was := board.board[..], basicArea[..], result[..];
    KeepBegins(board, area, was, stones);
    for y := 0 to board.size
      invariant board.Valid() && b == board.board[..] && area == basicArea[..]
      invariant KeptBelow(b, area, was, result[..], stones, Loc(board.size, 0, y))
    {
      for x := 0 to board.size
        invariant board.Valid() && b == board.board[..] && area == basicArea[..]
        invariant KeptBelow(b, area, was, result[..], stones, Loc(board.size, x, y))
      {
        var loc := Loc(board.size, x, y);
        PointAt(board, x, y);
        KeepPoint(b, area, was, result[..], stones, loc);
        if basicArea[loc] != EMPTY && (basicArea[loc] == board.board[loc]) == stones {
          result[loc] := basicArea[loc];
        }
      }
      RowGap(board, y);
      KeepNothing(board, area, was, result[..], stones, Loc(board.size, board.size, y), Loc(board.size, 0, y + 1));
    }
    ScanGap(board);
    KeepNothing(board, area, was, result[..], stones, Loc(board.size, 0, board.size), board.arrSize);
    KeepEnds(b, area, was, result[..], stones, board.arrSize);
  }

  lemma KeepBegins(board: Board, area: seq<int>, was: seq<int>, stones: bool)
    requires board.Valid() && AreaOk(board.dy, board.board[..], area) && |was| == board.arrSize
    ensures KeptBelow(board.board[..], area, was, was, stones, Loc(board.size, 0, 0))
  {
    hide StoreOk, Maximal, AllBreathe, OnBoard, Walled;
    ScanEnds(board.size);
    forall p | 0 <= p < Loc(board.size, 0, 0) && p < |area|
      ensures area[p] == EMPTY
    {
      OffBoardUnowned(board, area, p);
    }
  }

  lemma KeepEnds(b: seq<int>, area: seq<int>, was: seq<int>, now: seq<int>, stones: bool, lim: int)
    requires KeptBelow(b, area, was, now, stones, lim) && lim >= |b|
    ensures |b| == |area| == |was| && now == Kept(b, area, was, stones)
  {
  }

  /** The area under the rules that the dame analysis uses, with all stones. */
  ghost function BasicArea(size: int, b: seq<int>, suicideLegal: bool): (r: seq<int>)
    requires size >= 0
    ensures |r| == |b|
  {
    WithStones(size, b, AreaColours(size + 1, b, AreaRules(true, true, suicideLegal)))
  }

  lemma BasicAreaOk(size: int, b: seq<int>, suicideLegal: bool)
    requires size >= 2 && Walled(size, b) && Coloured(size + 1, b)
    ensures AreaOk(size + 1, b, BasicArea(size, b, suicideLegal))
  {
    hide Claim, OnBoard;
    var rules := AreaRules(true, true, suicideLegal);
    forall p | 0 <= p < |b| && b[p] == WALL
      ensures AreaColours(size + 1, b, rules)[p] == EMPTY
    {
      if p in Claim(size + 1, b, WHITE, rules) {
        ClaimOnBoard(size + 1, b, WHITE, rules, p);
      }
      if p in Claim(size + 1, b, BLACK, rules) {
        ClaimOnBoard(size + 1, b, BLACK, rules, p);
      }
    }
  }

  /** The area that does not touch dame, with territories and stones kept if asked for. */
  ghost function NonDameTouching(size: int, b: seq<int>, keepTerritories: bool, keepStones: bool,
          suicideLegal: bool): (r: seq<int>)
    requires size >= 0
    ensures |r| == |b|
  {
    var basic := BasicArea(size, b, suicideLegal);
    var away := AwayFromDame(size + 1, b, basic);
    var r := if keepTerritories then Kept(b, basic, away, false) else away;
    if keepStones then Kept(b, basic, r, true) else r
  }

  method CalculateNonDameTouchingArea(board: Board, result: array<int>, keepTerritories: bool, keepStones: bool,
          suicideLegal: bool)
    requires board.Valid() && Apart(board, result)
    modifies result
    ensures board.size >= 0
    ensures result[..] == NonDameTouching(board.size, board.board[..], keepTerritories, keepStones, suicideLegal)
  {
    hide Board.Valid, AreaOk, Owned, AwayFromDame, Kept, AreaColours, WithStones;
    SizeFacts(board);
    var basicArea := new int[board.arrSize];
    ClearResult(result);
    CalculateArea(board, basicArea, true, AreaRules(true, true, suicideLegal));
    BasicFacts(board, suicideLegal);
    CalculateNonDameTouchingAreaHelper(board, basicArea, result);
    if keepTerritories {
      KeepPart(board, basicArea, result, false);
    }
    if keepStones {
      KeepPart(board, basicArea, result, true);
    }
  }

  lemma BasicFacts(board: Board, suicideLegal: bool)
    requires board.Valid()
    ensures board.dy == board.size + 1 && board.size >= 0
    ensures AreaOk(board.dy, board.board[..], BasicArea(board.size, board.board[..], suicideLegal))
  {
    hide RingsOk, LibsOk, LinkedOk, Maximal, AllBreathe, Walled, AreaOk, BasicArea;
    BasicAreaOk(board.size, board.board[..], suicideLegal);
  }

  /** Some point of the area of p's owner around p is next to an empty point that nobody owns. */
  lemma DameTouchingIff(dy: int, b: seq<int>, area: seq<int>, p: int)
    requires 0 <= p < |area| && |area| == |b|
    ensures DameTouching(dy, b, area, p) <==>
      exists q, d :: q in Comp(dy, Pts(area, area[p]), p) && Adj(dy, q, d) && d in Pts(b, EMPTY) && d in Pts(area, EMPTY)
  {
    hide Comp;
    if DameTouching(dy, b, area, p) {
      var q :| q in Holding(dy, area, p) && TouchesDame(dy, b, area, q);
      var d :| Adj(dy, q, d) && IsDame(b, area, d);
      assert d in Pts(b, EMPTY) && d in Pts(area, EMPTY);
    }
    if q, d :| q in Comp(dy, Pts(area, area[p]), p) && Adj(dy, q, d) && d in Pts(b, EMPTY) && d in Pts(area, EMPTY) {
      assert IsDame(b, area, d);
      assert TouchesDame(dy, b, area, q);
    }
  }

  /** The area the dame analysis works on: what each player claims when big territories count, safe or not,
      WHITE's claim over BLACK's, and stones nobody claims with their own colour. */
  ghost predicate LoosestArea(size: int, b: seq<int>, suicideLegal: bool, area: seq<int>)
    requires size >= 0
  {
    && |area| == |b|
    && forall p :: 0 <= p < |b| ==>
        area[p] ==
          if p in Claim(size + 1, b, WHITE, AreaRules(true, true, suicideLegal)) then WHITE
          else if p in Claim(size + 1, b, BLACK, AreaRules(true, true, suicideLegal)) then BLACK
          else if OnBoard(size, p) then b[p]
          else EMPTY
  }

  lemma LoosestIsBasic(size: int, b: seq<int>, suicideLegal: bool, area: seq<int>)
    requires size >= 0 && LoosestArea(size, b, suicideLegal, area)
    ensures area == BasicArea(size, b, suicideLegal)
  {
    AreaPoints(size, size + 1, b, AreaRules(true, true, suicideLegal));
    hide AreaColours, WithStones, Claim, OnBoard;
  }

  /** A point is reported for its owner exactly if no empty point without an owner is next to the area of
      that owner around it, or it is to be kept. */
  lemma NonDamePoint(size: int, dy: int, b: seq<int>, keepTerritories: bool, keepStones: bool, suicideLegal: bool,
          area: seq<int>, p: int)
    requires size >= 0 && dy == size + 1 && 0 <= p < |b| && LoosestArea(size, b, suicideLegal, area)
    ensures var touching := exists q, d ::
        q in Comp(dy, Pts(area, area[p]), p) && Adj(dy, q, d) && d in Pts(b, EMPTY) && d in Pts(area, EMPTY);
      var kept := if area[p] == b[p] then keepStones else keepTerritories;
      NonDameTouching(size, b, keepTerritories, keepStones, suicideLegal)[p] ==
        if area[p] != EMPTY && (kept || !touching) then area[p] else EMPTY
  {
    LoosestIsBasic(size, b, suicideLegal, area);
    DameTouchingIff(dy, b, area, p);
    NonDameParts(size, b, keepTerritories, keepStones, suicideLegal, p);
    hide NonDameTouching, DameTouching, BasicArea, Comp;
  }

  /** A territory: the region of an empty point without opposing stones, on a board where pla has a stone,
      belongs to pla in that area unless WHITE's claim takes it, and is reported when it touches no dame. */
  lemma OpenRegionReported(size: int, dy: int, b: seq<int>, keepTerritories: bool, keepStones: bool, suicideLegal: bool,
          area: seq<int>, pla: int, e: int, p: int)
    requires size >= 0 && dy == size + 1 && Stone(pla) && 0 <= p < |b| && LoosestArea(size, b, suicideLegal, area)
    requires 0 <= e < |b| && b[e] == EMPTY && pla in b && p in Region(dy, b, pla, e)
    requires forall q :: q in Region(dy, b, pla, e) && 0 <= q < |b| ==> b[q] != Opp(pla)
    requires pla == WHITE || p !in Claim(dy, b, WHITE, AreaRules(true, true, suicideLegal))
    ensures area[p] == pla
    ensures (forall q, d ::
               q in Comp(dy, Pts(area, pla), p) && Adj(dy, q, d) && d in Pts(b, EMPTY) ==> d !in Pts(area, EMPTY)) ==>
      NonDameTouching(size, b, keepTerritories, keepStones, suicideLegal)[p] == pla
  {
    hide Region, Alive, Claim, Marked, Comp, NonDameTouching;
    MarkedIff(dy, b, pla, AreaRules(true, true, suicideLegal), e);
    ClaimIff(dy, b, pla, AreaRules(true, true, suicideLegal), p);
    NonDamePoint(size, dy, b, keepTerritories, keepStones, suicideLegal, area, p);
  }

  lemma NonDameParts(size: int, b: seq<int>, keepTerritories: bool, keepStones: bool, suicideLegal: bool, p: int)
    requires size >= 0 && 0 <= p < |b|
    ensures var basic := BasicArea(size, b, suicideLegal)[p];
      var r := NonDameTouching(size, b, keepTerritories, keepStones, suicideLegal)[p];
      var kept := if basic == b[p] then keepStones else keepTerritories;
      if basic != EMPTY && (kept || !DameTouching(size + 1, b, BasicArea(size, b, suicideLegal), p)) then r == basic else r == EMPTY
  {
    hide BasicArea, DameTouching, AwayFromDame, Kept;
    var basic := BasicArea(size, b, suicideLegal);
    var away := AwayFromDame(size + 1, b, basic);
    AwayPoint(size + 1, b, basic, p);
    var r := if keepTerritories then Kept(b, basic, away, false) else away;
    KeptPoint(b, basic, away, false, p);
    KeptPoint(b, basic, r, true, p);
  }

  lemma AwayPoint(dy: int, b: seq<int>, area: seq<int>, p: int)
    requires 0 <= p < |area|
    ensures AwayFromDame(dy, b, area)[p] == if area[p] != EMPTY && !DameTouching(dy, b, area, p) then area[p] else EMPTY
  {
    hide DameTouching;
    assert p in Owned(dy, b, area, false) <==> area[p] != EMPTY && !DameTouching(dy, b, area, p);
  }

  lemma KeptPoint(b: seq<int>, area: seq<int>, was: seq<int>, stones: bool, p: int)
    requires |b| == |area| == |was| && 0 <= p < |b|
    ensures Kept(b, area, was, stones)[p] == if area[p] != EMPTY && (area[p] == b[p]) == stones then area[p] else was[p]
  {
  }
}
