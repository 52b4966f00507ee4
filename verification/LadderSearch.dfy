/** The explicit stack of the ladder search, and what it knows at every point of a run. */
module LadderSearch {
  import opened Grid
  import opened Components
  import opened Rules
  import opened ChainStore
  import opened Queries
  import opened Undoing
  import opened Ladders

  /** One level of the stack: its move list, the index of the move being searched (-1 until the list is
      generated), and the record of that move once played. */
  datatype Frame = Frame(moves: seq<int>, cur: int, record: Option<MoveRecord>)

  /** What stays fixed during a search: the target stone, its colour, who moves at the root, and how many
      moves ahead the root is evaluated. */
  datatype Context = Context(dy: int, loc: int, pla: int, defenderFirst: bool, depth: nat)

  predicate IsDefender(c: Context, i: int) { c.defenderFirst == (i % 2 == 0) }

  /** How far ahead level i looks. */
  function Ahead(c: Context, i: int): nat { if i <= c.depth then c.depth - i else 0 }

  function Answer(caught: bool): Verdict { if caught then Caught else Safe }

  /** The target is still the defender's stone, or, when the attacker is to move, may have been removed by
      the defender's own last move. */
  ghost predicate TargetOk(c: Context, g: GoState, i: int)
  {
    && Position(c.dy, g.b) && Stone(c.pla) && 0 <= c.loc < |g.b|
    && (g.b[c.loc] == c.pla || (!IsDefender(c, i) && g.b[c.loc] == EMPTY))
  }

  /** Level i is open at state g: its first cur moves have been tried and have failed. */
  ghost predicate Open(c: Context, g: GoState, f: Frame, i: int)
  {
    && TargetOk(c, g, i)
    && 0 <= f.cur <= |f.moves| && Distinct(f.moves)
    && Opened(c.dy, g, c.loc, c.pla, IsDefender(c, i), f.moves)
    && Tried(Ahead(c, i + 1), c.dy, g, c.loc, c.pla, IsDefender(c, i), f.moves, f.cur)
  }

  /** The current move of level i has been played from g to h, and recorded. */
  ghost predicate Played(c: Context, g: GoState, f: Frame, i: int, h: GoState)
  {
    && Open(c, g, f, i) && f.cur < |f.moves|
    && Playable(c.dy, g, c.pla, IsDefender(c, i), f.moves[f.cur])
    && h == Next(c.dy, g, c.pla, IsDefender(c, i), f.moves[f.cur])
    && f.record.Some? && Records(c.dy, g.b, f.record.value)
    && f.record.value.pla == Mover(c.pla, IsDefender(c, i)) && f.record.value.loc == f.moves[f.cur]
    && f.record.value.simpleKoPoint == g.ko
  }

  /** All levels below the k-th have played their moves along the path. */
  ghost predicate Line(c: Context, frames: seq<Frame>, path: seq<GoState>, k: int)
    requires 0 <= k <= |frames| && k < |path|
  {
    forall i :: 0 <= i < k ==> Played(c, path[i], frames[i], i, path[i + 1])
  }

  /** What holds at the head of the search loop. */
  ghost predicate Running(c: Context, frames: seq<Frame>, path: seq<GoState>, returnValue: bool, returned: bool)
  {
    var s := |frames| - 1;
    if s == -1 then
      // the root has its answer
      |path| == 1 && Value(Ahead(c, 0), c.dy, path[0], c.loc, c.pla, IsDefender(c, 0)) == Answer(returnValue)
    else if frames[s].cur == -1 then
      // level s has just been entered
      |path| == s + 1 && Line(c, frames, path, s) && TargetOk(c, path[s], s)
    else if returned then
      // the move played at level s has its answer
      |path| == s + 2 && Line(c, frames, path, s + 1)
      && Value(Ahead(c, s + 1), c.dy, path[s + 1], c.loc, c.pla, IsDefender(c, s + 1)) == Answer(returnValue)
    else
      // the current move of level s turned out to be illegal
      |path| == s + 1 && Line(c, frames, path, s) && Open(c, path[s], frames[s], s) && frames[s].cur < |frames[s].moves|
      && !Playable(c.dy, path[s], c.pla, IsDefender(c, s), frames[s].moves[frames[s].cur])
      && returnValue == IsDefender(c, s)
  }

  // ----- steps of the loop

  /** Leaving level s with an answer that is its value. */
  lemma Pop(c: Context, frames: seq<Frame>, path: seq<GoState>, returnValue: bool)
    requires |frames| >= 1 && |path| == |frames| && Line(c, frames, path, |frames| - 1)
    requires Value(Ahead(c, |frames| - 1), c.dy, path[|frames| - 1], c.loc, c.pla, IsDefender(c, |frames| - 1)) == Answer(returnValue)
    ensures Running(c, frames[..|frames| - 1], path, returnValue, true)
  {
    hide Value, Played;
    var s := |frames| - 1;
    var rest := frames[..s];
    if s > 0 {
      forall i | 0 <= i < s
        ensures Played(c, path[i], rest[i], i, path[i + 1])
      {
        assert rest[i] == frames[i];
      }
      PlayedCur(c, path[s - 1], rest[s - 1], s - 1, path[s]);
    }
  }

  lemma PlayedCur(c: Context, g: GoState, f: Frame, i: int, h: GoState)
    requires Played(c, g, f, i, h)
    ensures 0 <= f.cur < |f.moves|
  {
  }

  /** A level decided on entry. */
  lemma DecidedValue(c: Context, g: GoState, i: int)
    requires Decided(c.dy, g, c.loc, IsDefender(c, i)) != Unknown
    ensures Value(Ahead(c, i), c.dy, g, c.loc, c.pla, IsDefender(c, i)) == Decided(c.dy, g, c.loc, IsDefender(c, i))
  {
  }

  /** When the list is exhausted, the side to move has failed. */
  lemma ExhaustedValue(c: Context, g: GoState, f: Frame, i: int)
    requires Open(c, g, f, i) && f.cur == |f.moves| && 0 <= i && i + 2 <= c.depth
    ensures Value(Ahead(c, i), c.dy, g, c.loc, c.pla, IsDefender(c, i)) == Answer(IsDefender(c, i))
  {
    hide Value, Opened, Tried, TargetOk, Distinct;
    LevelFails(Ahead(c, i + 1), c.dy, g, c.loc, c.pla, IsDefender(c, i), f.moves);
  }

  /** A move that won decides its level. */
  lemma WonValue(c: Context, g: GoState, f: Frame, i: int, h: GoState, returnValue: bool)
    requires Played(c, g, f, i, h) && 0 <= i && i + 2 <= c.depth && returnValue != IsDefender(c, i)
    requires Value(Ahead(c, i + 1), c.dy, h, c.loc, c.pla, IsDefender(c, i + 1)) == Answer(returnValue)
    ensures Value(Ahead(c, i), c.dy, g, c.loc, c.pla, IsDefender(c, i)) == Answer(returnValue)
  {
    hide Value, Opened, Tried, TargetOk, Distinct, Playable, Next;
    LevelWins(Ahead(c, i + 1), c.dy, g, c.loc, c.pla, IsDefender(c, i), f.moves, f.moves[f.cur]);
  }

  /** A move that failed has been tried. */
  lemma MoveOn(c: Context, g: GoState, f: Frame, i: int, h: GoState, returnValue: bool)
    requires Played(c, g, f, i, h) && returnValue == IsDefender(c, i)
    requires Value(Ahead(c, i + 1), c.dy, h, c.loc, c.pla, IsDefender(c, i + 1)) == Answer(returnValue)
    ensures Open(c, g, f.(cur := f.cur + 1), i)
  {
    hide Value, Opened, TargetOk, Distinct, Playable, Next;
  }

  /** So has an illegal one. */
  lemma SkipIllegal(c: Context, g: GoState, f: Frame, i: int)
    requires Open(c, g, f, i) && f.cur < |f.moves| && !Playable(c.dy, g, c.pla, IsDefender(c, i), f.moves[f.cur])
    ensures Open(c, g, f.(cur := f.cur + 1), i)
  {
    hide Value, Opened, TargetOk, Distinct, Playable, Next;
  }

  /** After a move at an open level the target is as it should be. */
  lemma TargetAfter(c: Context, g: GoState, f: Frame, i: int)
    requires Open(c, g, f, i) && f.cur < |f.moves| && Playable(c.dy, g, c.pla, IsDefender(c, i), f.moves[f.cur])
    ensures f.moves[f.cur] != PASS && g.b[f.moves[f.cur]] == EMPTY
    ensures TargetOk(c, Next(c.dy, g, c.pla, IsDefender(c, i), f.moves[f.cur]), i + 1)
  {
    var m := f.moves[f.cur];
    OpenFacts(c, g, f, i);
    Alternate(c, i);
    hide Value, Opened, Tried, Candidates, Decided, Playable, Distinct, Move, KoPoint, AllBreathe;
    CandidatesEmpty(c.dy, g.b, c.loc, IsDefender(c, i), m);
    MoveIsPosition(c.dy, g.b, Mover(c.pla, IsDefender(c, i)), m);
    if IsDefender(c, i) {
      MoveKeepsOrClears(c.dy, g.b, c.pla, m);
    } else {
      AttackedTarget(c.dy, g, c.loc, c.pla, m);
    }
  }

  lemma OpenFacts(c: Context, g: GoState, f: Frame, i: int)
    requires Open(c, g, f, i)
    ensures Decided(c.dy, g, c.loc, IsDefender(c, i)) == Unknown
    ensures f.cur < |f.moves| ==> f.moves[f.cur] in Candidates(c.dy, g.b, c.loc, IsDefender(c, i))
  {
    hide Value, Decided, Candidates, Playable, After;
    if f.cur < |f.moves| {
      assert f.moves[f.cur] in f.moves;
    }
  }

  /** The sides alternate level by level. */
  lemma Alternate(c: Context, i: int)
    ensures IsDefender(c, i + 1) == !IsDefender(c, i)
  {
  }

  lemma CandidatesEmpty(dy: int, b: seq<int>, loc: int, defender: bool, m: int)
    requires Coloured(dy, b) && m in Candidates(dy, b, loc, defender)
    ensures 0 < m < |b| && b[m] == EMPTY
  {
  }

  lemma TargetStays(dy: int, b: seq<int>, loc: int, m: int)
    requires Position(dy, b) && 0 <= loc < |b| && Stone(b[loc]) && |Libs(dy, b, Chain(dy, b, loc))| == 2
    requires 0 <= m < |b| && b[m] == EMPTY
    ensures Move(dy, b, Opp(b[loc]), m)[loc] == b[loc]
  {
    TwoLeft(Libs(dy, b, Chain(dy, b, loc)), m);
    AttackLeaves(dy, b, loc, m);
  }

  lemma TwoLeft(L: set<int>, m: int)
    requires |L| == 2
    ensures L - {m} != {}
  {
    if L - {m} == {} {
      SubsetSize(L, {m});
    }
  }

  lemma AttackedTarget(dy: int, g: GoState, loc: int, pla: int, m: int)
    requires Position(dy, g.b) && Stone(pla) && 0 <= loc < |g.b| && (g.b[loc] == pla || g.b[loc] == EMPTY)
    requires Decided(dy, g, loc, false) == Unknown && 0 <= m < |g.b| && g.b[m] == EMPTY
    ensures Move(dy, g.b, Opp(pla), m)[loc] == pla
  {
    DecidedTwo(dy, g, loc);
    TargetStays(dy, g.b, loc, m);
  }

  // ----- why the loop ends

  /** Digits go down as a level proceeds: from fresh, through two for each move left, one less while a move
      is being searched. */
  function Digit(f: Frame, played: bool, most: nat): nat
  {
    if f.cur == -1 then 2 * most + 2
    else if f.cur <= |f.moves| && !(played && f.cur == |f.moves|) then 2 * (|f.moves| - f.cur) - if played then 1 else 0
    else 0
  }

  ghost function Digits(frames: seq<Frame>, returned: bool, most: nat): (r: seq<nat>)
    ensures |r| == |frames|
  {
    seq(|frames|, i requires 0 <= i < |frames| => Digit(frames[i], i < |frames| - 1 || returned, most))
  }

  /** The loop's measure, for lists of at most `most` moves and a stack of at most `limit` levels. */
  ghost function Left(frames: seq<Frame>, returned: bool, most: nat, limit: nat): nat
    requires |frames| <= limit
  {
    Measure(Digits(frames, returned, most), 2 * most + 3, limit)
  }

  lemma PopLowers(frames: seq<Frame>, returned: bool, most: nat, limit: nat)
    requires 1 <= |frames| <= limit
    requires Digit(frames[|frames| - 1], returned, most) > 0
    ensures Left(frames[..|frames| - 1], true, most, limit) < Left(frames, returned, most, limit)
  {
    var s := |frames| - 1;
    var ds := Digits(frames, returned, most);
    assert Digits(frames[..s], true, most) == ds[..s];
    assert ds == ds[..s] + [ds[s]];
    MeasureDrop(ds[..s], ds[s], 2 * most + 3, limit);
  }

  lemma SkipLowers(frames: seq<Frame>, returned: bool, f: Frame, most: nat, limit: nat)
    requires 1 <= |frames| <= limit
    requires Digit(f, false, most) < Digit(frames[|frames| - 1], returned, most)
    ensures Left(frames[..|frames| - 1] + [f], false, most, limit) < Left(frames, returned, most, limit)
  {
    var s := |frames| - 1;
    var ds := Digits(frames, returned, most);
    assert Digits(frames[..s] + [f], false, most) == ds[..s] + [Digit(f, false, most)];
    assert ds == ds[..s] + [ds[s]];
    MeasureLower(ds[..s], ds[s], Digit(f, false, most), 2 * most + 3, limit);
  }

  lemma PushLowers(frames: seq<Frame>, returned: bool, f: Frame, returned': bool, most: nat, limit: nat)
    requires 1 <= |frames| && |frames| + 1 <= limit
    requires Digit(f, true, most) < Digit(frames[|frames| - 1], returned, most)
    ensures Left(frames[..|frames| - 1] + [f, Frame([], -1, None)], returned', most, limit) < Left(frames, returned, most, limit)
  {
    var s := |frames| - 1;
    var ds := Digits(frames, returned, most);
    assert Digits(frames[..s] + [f, Frame([], -1, None)], returned', most) == ds[..s] + [Digit(f, true, most), 2 * most + 2];
    assert ds == ds[..s] + [ds[s]];
    MeasurePush(ds[..s], ds[s], Digit(f, true, most), 2 * most + 2, 2 * most + 3, limit);
  }

  /** A list of distinct points of the board is no longer than the board. */
  lemma ListBounded(c: Context, g: GoState, f: Frame, i: int)
    requires Open(c, g, f, i)
    ensures |f.moves| <= |g.b|
  {
    hide Value, Decided, Playable, After, Tried;
    forall m | m in f.moves
      ensures m in UpTo(|g.b|)
    {
      CandidatesEmpty(c.dy, g.b, c.loc, IsDefender(c, i), m);
    }
    DistinctSize(f.moves, UpTo(|g.b|));
  }

  // ----- trying the next move of a level

  /** The level on top of the stack is about to try move f.cur. */
  ghost predicate Ready(c: Context, frames: seq<Frame>, f: Frame, path: seq<GoState>)
  {
    var s := |frames| - 1;
    s >= 0 && |path| == s + 1 && Line(c, frames, path, s) && Open(c, path[s], f, s)
  }

  /** The list is exhausted: the level is left. */
  lemma LeaveLevel(c: Context, frames: seq<Frame>, f: Frame, path: seq<GoState>)
    requires Ready(c, frames, f, path) && f.cur == |f.moves| && |frames| + 1 <= c.depth
    ensures Running(c, frames[..|frames| - 1], path, IsDefender(c, |frames| - 1), true)
  {
    hide Value, Played, Open;
    ExhaustedValue(c, path[|frames| - 1], f, |frames| - 1);
    Pop(c, frames, path, IsDefender(c, |frames| - 1));
  }

  /** The move is illegal. */
  lemma StayAtLevel(c: Context, frames: seq<Frame>, f: Frame, path: seq<GoState>)
    requires Ready(c, frames, f, path) && f.cur < |f.moves|
    requires !Playable(c.dy, path[|frames| - 1], c.pla, IsDefender(c, |frames| - 1), f.moves[f.cur])
    ensures Running(c, frames[..|frames| - 1] + [f], path, IsDefender(c, |frames| - 1), false)
  {
    var s := |frames| - 1;
    var frames' := frames[..s] + [f];
    assert 0 <= f.cur;
    hide Value, Played, Open, Playable;
    forall i | 0 <= i < s
      ensures Played(c, path[i], frames'[i], i, path[i + 1])
    {
      assert frames'[i] == frames[i];
    }
  }

  /** The move has been played and recorded: the next level is entered. */
  lemma DescendLevel(c: Context, frames: seq<Frame>, f: Frame, path: seq<GoState>, h: GoState, returnValue: bool,
          returned: bool)
    requires Ready(c, frames, f, path) && Played(c, path[|frames| - 1], f, |frames| - 1, h)
    ensures Running(c, frames[..|frames| - 1] + [f, Frame([], -1, None)], path + [h], returnValue, returned)
  {
    var s := |frames| - 1;
    var frames' := frames[..s] + [f, Frame([], -1, None)];
    TargetAfter(c, path[s], f, s);
    hide Value, Played, Open, Playable, TargetOk;
    forall i | 0 <= i < s + 1
      ensures Played(c, (path + [h])[i], frames'[i], i, (path + [h])[i + 1])
    {
      if i < s {
        assert frames'[i] == frames[i];
      }
    }
  }

  // ----- coming back to a level

  lemma ReturnedFacts(c: Context, frames: seq<Frame>, path: seq<GoState>, returnValue: bool)
    requires |frames| >= 1 && frames[|frames| - 1].cur != -1 && Running(c, frames, path, returnValue, true)
    ensures var s := |frames| - 1;
      |path| == s + 2 && Line(c, frames, path, s) && Played(c, path[s], frames[s], s, path[s + 1])
      && Value(Ahead(c, s + 1), c.dy, path[s + 1], c.loc, c.pla, IsDefender(c, s + 1)) == Answer(returnValue)
  {
    hide Value, Played;
  }

  /** The move just taken back had won: the level is left with its answer. */
  lemma ReturnWon(c: Context, frames: seq<Frame>, path: seq<GoState>, returnValue: bool)
    requires |frames| >= 1 && frames[|frames| - 1].cur != -1 && Running(c, frames, path, returnValue, true)
    requires |frames| + 1 <= c.depth && returnValue != IsDefender(c, |frames| - 1)
    ensures Running(c, frames[..|frames| - 1], path[..|frames|], returnValue, true)
  {
    hide Value, Played, Running;
    ReturnedFacts(c, frames, path, returnValue);
    var s := |frames| - 1;
    WonValue(c, path[s], frames[s], s, path[s + 1], returnValue);
    LinePrefix(c, frames, path);
    Pop(c, frames, path[..s + 1], returnValue);
  }

  lemma LinePrefix(c: Context, frames: seq<Frame>, path: seq<GoState>)
    requires |frames| >= 1 && |path| == |frames| + 1 && Line(c, frames, path, |frames| - 1)
    ensures Line(c, frames, path[..|frames|], |frames| - 1)
  {
    hide Played;
  }

  /** The move just taken back had failed: the next one is due. */
  lemma ReturnFailed(c: Context, frames: seq<Frame>, path: seq<GoState>, returnValue: bool)
    requires |frames| >= 1 && frames[|frames| - 1].cur != -1 && Running(c, frames, path, returnValue, true)
    requires returnValue == IsDefender(c, |frames| - 1)
    ensures var f := frames[|frames| - 1]; |path| == |frames| + 1 && Ready(c, frames, f.(cur := f.cur + 1), path[..|frames|])
  {
    hide Value, Played, Open, Running;
    ReturnedFacts(c, frames, path, returnValue);
    var s := |frames| - 1;
    MoveOn(c, path[s], frames[s], s, path[s + 1], returnValue);
    LinePrefix(c, frames, path);
  }

  lemma IllegalSkipped(c: Context, frames: seq<Frame>, path: seq<GoState>, returnValue: bool)
    requires |frames| >= 1 && frames[|frames| - 1].cur != -1 && Running(c, frames, path, returnValue, false)
    ensures var f := frames[|frames| - 1]; |path| == |frames| && Ready(c, frames, f.(cur := f.cur + 1), path)
    ensures returnValue == IsDefender(c, |frames| - 1)
  {
    var s := |frames| - 1;
    SkipIllegal(c, path[s], frames[s], s);
    hide Value, Played, Open, Playable;
  }

  lemma NowPlayed(c: Context, g: GoState, f: Frame, i: int, h: GoState, rec: MoveRecord)
    requires Open(c, g, f, i) && f.cur < |f.moves| && Playable(c.dy, g, c.pla, IsDefender(c, i), f.moves[f.cur])
    requires h == Next(c.dy, g, c.pla, IsDefender(c, i), f.moves[f.cur])
    requires Records(c.dy, g.b, rec) && rec.pla == Mover(c.pla, IsDefender(c, i)) && rec.loc == f.moves[f.cur]
    requires rec.simpleKoPoint == g.ko
    ensures Played(c, g, f.(record := Some(rec)), i, h)
  {
    hide Value, Opened, Tried, TargetOk, Distinct, Playable, Records;
  }

  /** The digit of a level about to try its move f.cur is below the one it had. */
  ghost predicate Lowered(frames: seq<Frame>, returned: bool, f: Frame, most: nat)
  {
    |frames| >= 1 && Digit(f, false, most) < Digit(frames[|frames| - 1], returned, most)
  }

  lemma DigitPlayed(f: Frame, rec: Option<MoveRecord>, most: nat)
    requires 0 <= f.cur < |f.moves|
    ensures Digit(f.(record := rec), true, most) < Digit(f, false, most)
  {
  }

  /** The search goes on with a smaller measure. */
  ghost predicate Smaller(frames': seq<Frame>, returned': bool, frames: seq<Frame>, returned: bool, most: nat, limit: nat)
  {
    |frames| <= limit && |frames'| <= limit && Left(frames', returned', most, limit) < Left(frames, returned, most, limit)
  }

  lemma ReadyFacts(c: Context, frames: seq<Frame>, f: Frame, path: seq<GoState>)
    requires Ready(c, frames, f, path)
    ensures |frames| >= 1 && |path| == |frames| && 0 <= f.cur <= |f.moves|
    ensures TargetOk(c, path[|frames| - 1], |frames| - 1)
    ensures f.cur >= |f.moves| ||
      (0 < f.moves[f.cur] < |path[|frames| - 1].b| && path[|frames| - 1].b[f.moves[f.cur]] == EMPTY)
  {
    hide Value, Played, Opened, Tried;
    if f.cur < |f.moves| {
      OpenFacts(c, path[|frames| - 1], f, |frames| - 1);
      CandidatesEmpty(c.dy, path[|frames| - 1].b, c.loc, IsDefender(c, |frames| - 1), f.moves[f.cur]);
    }
  }

  lemma TryLeave(c: Context, frames: seq<Frame>, f: Frame, path: seq<GoState>, returned: bool, most: nat, limit: nat)
    requires Ready(c, frames, f, path) && f.cur >= |f.moves| && |frames| <= limit && c.depth == limit + 2
    requires Lowered(frames, returned, f, most)
    ensures Running(c, frames[..|frames| - 1], path, IsDefender(c, |frames| - 1), true)
    ensures Smaller(frames[..|frames| - 1], true, frames, returned, most, limit)
  {
    ReadyFacts(c, frames, f, path);
    hide Running, Ready, Left;
    LeaveLevel(c, frames, f, path);
    PopLowers(frames, returned, most, limit);
  }

  lemma TryIllegal(c: Context, frames: seq<Frame>, f: Frame, path: seq<GoState>, returned: bool, most: nat, limit: nat)
    requires Ready(c, frames, f, path) && f.cur < |f.moves| && |frames| <= limit
    requires |path| == |frames| >= 1
    requires !Playable(c.dy, path[|frames| - 1], c.pla, IsDefender(c, |frames| - 1), f.moves[f.cur])
    requires Lowered(frames, returned, f, most)
    ensures Running(c, frames[..|frames| - 1] + [f], path, IsDefender(c, |frames| - 1), false)
    ensures Smaller(frames[..|frames| - 1] + [f], false, frames, returned, most, limit)
  {
    hide Running, Ready, Left, Playable;
    StayAtLevel(c, frames, f, path);
    SkipLowers(frames, returned, f, most, limit);
  }

  lemma ReadyRecord(c: Context, frames: seq<Frame>, f: Frame, path: seq<GoState>, rec: Option<MoveRecord>)
    requires Ready(c, frames, f, path)
    ensures Ready(c, frames, f.(record := rec), path)
  {
    hide Value, Played, Opened, Tried, TargetOk, Distinct;
  }

  lemma TryDescend(c: Context, frames: seq<Frame>, f: Frame, path: seq<GoState>, h: GoState, rec: MoveRecord,
        returned: bool, returnValue: bool, returned': bool, most: nat, limit: nat)
    requires Ready(c, frames, f, path) && 0 <= f.cur < |f.moves| && |frames| + 1 <= limit && |path| == |frames| >= 1
    requires Playable(c.dy, path[|frames| - 1], c.pla, IsDefender(c, |frames| - 1), f.moves[f.cur])
    requires h == Next(c.dy, path[|frames| - 1], c.pla, IsDefender(c, |frames| - 1), f.moves[f.cur])
    requires Records(c.dy, path[|frames| - 1].b, rec) && rec.pla == Mover(c.pla, IsDefender(c, |frames| - 1))
    requires rec.loc == f.moves[f.cur] && rec.simpleKoPoint == path[|frames| - 1].ko
    requires Lowered(frames, returned, f, most)
    ensures var next := frames[..|frames| - 1] + [f.(record := Some(rec)), Frame([], -1, None)];
      Running(c, next, path + [h], returnValue, returned') && Smaller(next, returned', frames, returned, most, limit)
  {
    hide Running, Left, Playable, Played, Next, Records, Line, Open;
    var f' := f.(record := Some(rec));
    ReadyRecord(c, frames, f, path, Some(rec));
    NowPlayed(c, path[|frames| - 1], f, |frames| - 1, h, rec);
    DescendLevel(c, frames, f', path, h, returnValue, returned');
    DigitPlayed(f, Some(rec), most);
    PushLowers(frames, returned, f', returned', most, limit);
  }

  // ----- whole rounds

  lemma EnteredFacts(c: Context, frames: seq<Frame>, path: seq<GoState>, returnValue: bool, returned: bool)
    requires |frames| >= 1 && frames[|frames| - 1].cur == -1 && Running(c, frames, path, returnValue, returned)
    ensures |path| == |frames| && Line(c, frames, path, |frames| - 1) && TargetOk(c, path[|frames| - 1], |frames| - 1)
  {
    hide Value, Played;
  }

  lemma RoundDecided(c: Context, frames: seq<Frame>, path: seq<GoState>, v: bool, returned: bool, most: nat, limit: nat)
    requires |frames| >= 1 && frames[|frames| - 1].cur == -1
    requires |path| == |frames| <= limit && Line(c, frames, path, |frames| - 1)
    requires Value(Ahead(c, |frames| - 1), c.dy, path[|frames| - 1], c.loc, c.pla, IsDefender(c, |frames| - 1)) == Answer(v)
    ensures Running(c, frames[..|frames| - 1], path, v, true)
    ensures Smaller(frames[..|frames| - 1], true, frames, returned, most, limit)
  {
    hide Value, Line, Running, Left;
    Pop(c, frames, path, v);
    PopLowers(frames, returned, most, limit);
  }

  lemma RoundOpened(c: Context, frames: seq<Frame>, path: seq<GoState>, moves: seq<int>, returned: bool, most: nat)
    requires |frames| >= 1 && frames[|frames| - 1].cur == -1 && |path| == |frames| && Line(c, frames, path, |frames| - 1)
    requires Open(c, path[|frames| - 1], Frame(moves, 0, None), |frames| - 1) && |path[|frames| - 1].b| == most
    ensures Ready(c, frames, Frame(moves, 0, None), path) && Lowered(frames, returned, Frame(moves, 0, None), most)
  {
    hide Open, Line;
    ListBounded(c, path[|frames| - 1], Frame(moves, 0, None), |frames| - 1);
  }

  /** What taking the current move back needs, and gives. */
  lemma TakeBackFacts(c: Context, frames: seq<Frame>, path: seq<GoState>, returnValue: bool)
    requires |frames| >= 1 && frames[|frames| - 1].cur != -1 && Running(c, frames, path, returnValue, true)
    ensures var s := |frames| - 1;
      |path| == s + 2 && frames[s].record.Some?
      && Position(c.dy, path[s].b) && Records(c.dy, path[s].b, frames[s].record.value) && frames[s].record.value.loc != PASS
      && path[s + 1].b == Move(c.dy, path[s].b, frames[s].record.value.pla, frames[s].record.value.loc)
      && GoState(path[s].b, frames[s].record.value.simpleKoPoint) == path[s]
      && path[..s + 1][s] == path[s] && 0 <= frames[s].cur < |frames[s].moves|
  {
    hide Running, Played, Value, Records, Position, Line, Move;
    ReturnedFacts(c, frames, path, returnValue);
    var s := |frames| - 1;
    PlayedFacts(c, path[s], frames[s], s, path[s + 1]);
  }

  lemma PlayedFacts(c: Context, g: GoState, f: Frame, i: int, h: GoState)
    requires Played(c, g, f, i, h)
    ensures f.record.Some? && Position(c.dy, g.b) && Records(c.dy, g.b, f.record.value)
    ensures f.record.value.loc != PASS && 0 <= f.record.value.loc < |g.b|
    ensures h.b == Move(c.dy, g.b, f.record.value.pla, f.record.value.loc) && f.record.value.simpleKoPoint == g.ko
    ensures 0 <= f.cur < |f.moves|
  {
    OpenFacts(c, g, f, i);
    hide Value, Opened, Tried, Records, Candidates, Decided;
    CandidatesEmpty(c.dy, g.b, c.loc, IsDefender(c, i), f.moves[f.cur]);
  }

  lemma RoundWon(c: Context, frames: seq<Frame>, path: seq<GoState>, returnValue: bool, most: nat, limit: nat)
    requires |frames| >= 1 && frames[|frames| - 1].cur != -1 && Running(c, frames, path, returnValue, true)
    requires |path| >= |frames| && 0 <= frames[|frames| - 1].cur < |frames[|frames| - 1].moves|
    requires |frames| <= limit && c.depth == limit + 2 && returnValue != IsDefender(c, |frames| - 1)
    ensures Running(c, frames[..|frames| - 1], path[..|frames|], returnValue, true)
    ensures Smaller(frames[..|frames| - 1], true, frames, true, most, limit)
  {
    hide Running, Left;
    ReturnWon(c, frames, path, returnValue);
    PopLowers(frames, true, most, limit);
  }

  lemma RoundFailed(c: Context, frames: seq<Frame>, path: seq<GoState>, returnValue: bool, most: nat)
    requires |frames| >= 1 && frames[|frames| - 1].cur != -1 && Running(c, frames, path, returnValue, true)
    requires |path| >= |frames| && 0 <= frames[|frames| - 1].cur < |frames[|frames| - 1].moves|
    requires returnValue == IsDefender(c, |frames| - 1)
    ensures var f := frames[|frames| - 1].(cur := frames[|frames| - 1].cur + 1);
      Ready(c, frames, f, path[..|frames|]) && Lowered(frames, true, f, most)
  {
    hide Running, Ready;
    ReturnFailed(c, frames, path, returnValue);
  }

  lemma RoundSkipped(c: Context, frames: seq<Frame>, path: seq<GoState>, returnValue: bool, most: nat)
    requires |frames| >= 1 && frames[|frames| - 1].cur != -1 && Running(c, frames, path, returnValue, false)
    ensures returnValue == IsDefender(c, |frames| - 1) && |path| == |frames|
    ensures var f := frames[|frames| - 1].(cur := frames[|frames| - 1].cur + 1);
      Ready(c, frames, f, path) && Lowered(frames, false, f, most)
  {
    IllegalFacts(c, frames, path, returnValue);
    hide Running, Ready;
    IllegalSkipped(c, frames, path, returnValue);
  }

  lemma IllegalFacts(c: Context, frames: seq<Frame>, path: seq<GoState>, returnValue: bool)
    requires |frames| >= 1 && frames[|frames| - 1].cur != -1 && Running(c, frames, path, returnValue, false)
    ensures 0 <= frames[|frames| - 1].cur < |frames[|frames| - 1].moves|
  {
    hide Value, Played, Opened, Tried, TargetOk, Distinct, Playable;
  }

  lemma RootRunning(c: Context, g: GoState, returnValue: bool)
    requires TargetOk(c, g, 0)
    ensures Running(c, [Frame([], -1, None)], [g], returnValue, false)
  {
    hide Value, Played;
  }

  lemma RootAnswer(c: Context, path: seq<GoState>, returnValue: bool, returned: bool)
    requires Running(c, [], path, returnValue, returned)
    ensures |path| == 1 && Value(c.depth, c.dy, path[0], c.loc, c.pla, c.defenderFirst) == Answer(returnValue)
  {
    hide Value;
  }

  // ----- what the searches answer

  /** At a root where the defender moves first, all kos are taken to work for the defender. */
  function RootState(g: GoState, defenderFirst: bool): GoState
  {
    if defenderFirst then GoState(g.b, None) else g
  }

  /** The attack at m is legal and leaves the defender, to move, caught. */
  ghost predicate AttackWorks(depth: nat, dy: int, g: GoState, loc: int, pla: int, m: int)
  {
    && Playable(dy, g, pla, false, m)
    && Value(depth, dy, RootState(Next(dy, g, pla, false, m), true), loc, pla, true) == Caught
  }

  /** The attacks on the liberties of the chain at loc that work. */
  ghost function WorkingMoves(depth: nat, dy: int, g: GoState, loc: int): set<int>
  {
    set m | m in TargetLibs(dy, g.b, loc) && AttackWorks(depth, dy, g, loc, if 0 <= loc < |g.b| then g.b[loc] else EMPTY, m)
  }

  lemma WorkingIs(depth: nat, dy: int, g: GoState, loc: int, m0: int, m1: int, w0: bool, w1: bool)
    requires 0 <= loc < |g.b| && Stone(g.b[loc]) && TargetLibs(dy, g.b, loc) == {m0, m1} && m0 != m1
    requires w0 <==> AttackWorks(depth, dy, g, loc, g.b[loc], m0)
    requires w1 <==> AttackWorks(depth, dy, g, loc, g.b[loc], m1)
    ensures var ms := (if w0 then [m0] else []) + (if w1 then [m1] else []);
      forall m :: m in ms <==> m in WorkingMoves(depth, dy, g, loc)
  {
    hide AttackWorks;
    var W := WorkingMoves(depth, dy, g, loc);
    assert m0 in {m0, m1} && m1 in {m0, m1};
  }
}
