/** Area computation: pass-alive chains and the regions they are given. */
module Areas {
  import opened Grid
  import opened Components
  import opened Rules
  import opened ChainStore
  import opened Queries
  import opened PassAlive
  import opened Claims
  import opened Tracing
  import opened RegionScan
  import opened Killing
  import opened Boards
  import opened Regions

  ghost function SurveyOf(tracer: RegionTracer, hs: seq<int>): Survey
    reads tracer, tracer.board`rings, tracer.board.board, tracer.board.groupHead, tracer.board.groupStoneCount
    reads tracer.board.groupLibertyCount, tracer.board.groupNext, tracer.board.groupPrev
  {
    Survey(tracer.G(), tracer.Now(), tracer.vitalForPlaHeadsListsTotal, tracer.orders, hs)
  }

  ghost predicate Surveyed(tracer: RegionTracer, hs: seq<int>)
    reads tracer, tracer.board`rings, tracer.board.board, tracer.board.groupHead, tracer.board.groupStoneCount
    reads tracer.board.groupLibertyCount, tracer.board.groupNext, tracer.board.groupPrev
  {
    tracer.Consistent() && SurveyOk(SurveyOf(tracer, hs))
  }

  lemma SurveyedFacts(tracer: RegionTracer, hs: seq<int>)
    requires Surveyed(tracer, hs)
    ensures tracer.Based() && tracer.board.Shape() && Coloured(tracer.board.dy, tracer.board.board[..])
    ensures tracer.board.arrSize == |tracer.regionHeadByLoc| == |tracer.nextEmptyOrOpp|
    ensures tracer.numRegions == |tracer.orders| <= |tracer.regionHeads|
    ensures |tracer.regionHeads| == |tracer.vitalStart| == |tracer.vitalLen| == |tracer.numInternalSpacesMax2| == |tracer.containsOpp|
    ensures SurveyOk(SurveyOf(tracer, hs)) && tracer.opp == Opp(tracer.pla) && Stone(tracer.pla)
  {
    hide RegionDone, Reaches, StoreOk, Maximal, SurveyOk;
    tracer.BasedFacts();
  }

  /** r lists the members of list, each once. */
  ghost predicate NoRepeats(list: seq<int>, r: seq<int>)
  {
    Distinct(r) && forall h :: h in r <==> h in list
  }

  /** The list without its repetitions. */
  method Unique(list: seq<int>) returns (r: seq<int>)
    ensures NoRepeats(list, r)
  {
    r := [];
    for i := 0 to |list|
      invariant Distinct(r) && forall h :: h in r <==> h in list[..i]
    {
      assert list[..i + 1] == list[..i] + [list[i]];
      if list[i] !in r {
        r := r + [list[i]];
      }
    }
    assert list[..|list|] == list;
  }

  /** A stone of pla below lim has head h. */
  ghost predicate HeadSeen(g: Ground, lim: int, h: int)
  {
    exists p :: 0 <= p < lim && p < |g.s.b| && p < |g.s.head| && g.s.b[p] == g.pla && g.s.head[p] == h
  }

  lemma HeadSeenStep(g: Ground, lim: int, h: int)
    requires 0 <= lim < |g.s.b| && |g.s.head| == |g.s.b|
    ensures HeadSeen(g, lim + 1, h) <==> HeadSeen(g, lim, h) || (g.s.b[lim] == g.pla && g.s.head[lim] == h)
  {
  }

  lemma HeadSeenSkip(g: Ground, lim: int, to: int, h: int)
    requires lim <= to && forall p :: lim <= p < to && 0 <= p < |g.s.b| ==> g.s.b[p] != g.pla
    ensures HeadSeen(g, to, h) <==> HeadSeen(g, lim, h)
  {
  }

  lemma HeadSeenAll(g: Ground, h: int)
    requires GroundOk(g)
    ensures HeadSeen(g, |g.s.b|, h) <==> IsPlaHead(g, h)
  {
    hide RingsOk, LibsOk, Maximal, LinkedOk;
  }

  /** The scan at one row's end or outside the board finds nothing. */
  lemma OffBoard(size: int, g: Ground, lim: int, to: int)
    requires size >= 2 && Stone(g.pla) && Walled(size, g.s.b) && lim <= to
    requires forall p :: lim <= p < to ==> !OnBoard(size, p)
    ensures forall h :: HeadSeen(g, to, h) <==> HeadSeen(g, lim, h)
  {
    hide HeadSeen, OnBoard;
    forall h
      ensures HeadSeen(g, to, h) <==> HeadSeen(g, lim, h)
    {
      HeadSeenSkip(g, lim, to, h);
    }
  }

  /** The list holds the heads of the stones of pla below lim. */
  ghost predicate Collected(g: Ground, lim: int, all: seq<int>)
  {
    forall h :: h in all <==> HeadSeen(g, lim, h)
  }

  ghost predicate PlaHeads(g: Ground, hs: seq<int>)
  {
    Distinct(hs) && forall h :: h in hs <==> IsPlaHead(g, h)
  }

  /** The heads of all chains of pla. */
  method CollectHeads(board: Board, pla: int, ghost g: Ground) returns (hs: seq<int>)
    requires board.Valid() && Stone(pla) && g.s == board.Snap() && g.pla == pla && g.dy == board.dy
    ensures PlaHeads(g, hs)
  {
    hide *;
    var all := [];
    BoardSize(board);
    CollectStart(board, g);
    for y := 0 to board.size
      invariant Collected(g, Loc(board.size, 0, y), all)
    {
      for x := 0 to board.size
        invariant Collected(g, Loc(board.size, x, y), all)
      {
        CollectPoint(board, g, x, y, all);
        var loc := Loc(board.size, x, y);
        if board.board[loc] == pla {
          all := all + [board.groupHead[loc]];
        }
      }
      CollectRow(board, g, y, all);
    }
    hs := Unique(all);
    CollectEnd(board, g, all, hs);
  }

  lemma BoardSize(board: Board)
    requires board.Valid()
    ensures board.size >= 2
  {
    hide StoreOk, Maximal, AllBreathe;
  }

  lemma CollectStart(board: Board, g: Ground)
    requires board.Valid() && Stone(g.pla) && g.s == board.Snap()
    ensures Collected(g, Loc(board.size, 0, 0), [])
  {
    hide OnBoard, StoreOk, Maximal, AllBreathe;
    ScanEnds(board.size);
    OffBoard(board.size, g, 0, Loc(board.size, 0, 0));
  }

  lemma CollectPoint(board: Board, g: Ground, x: int, y: int, all: seq<int>)
    requires board.Valid() && g.s == board.Snap() && 0 <= x < board.size && 0 <= y < board.size
    requires Collected(g, Loc(board.size, x, y), all)
    ensures var loc := Loc(board.size, x, y);
      0 <= loc < board.board.Length == board.groupHead.Length
      && (board.board[loc] == g.pla ==> Collected(g, Loc(board.size, x + 1, y), all + [board.groupHead[loc]]))
      && (board.board[loc] != g.pla ==> Collected(g, Loc(board.size, x + 1, y), all))
  {
    hide StoreOk, Maximal, AllBreathe, HeadSeen;
    LocOnBoard(board.size, x, y);
    var loc := Loc(board.size, x, y);
    var all' := if board.board[loc] == g.pla then all + [board.groupHead[loc]] else all;
    forall h
      ensures h in all' <==> HeadSeen(g, Loc(board.size, x + 1, y), h)
    {
      HeadSeenStep(g, loc, h);
    }
  }

  lemma CollectRow(board: Board, g: Ground, y: int, all: seq<int>)
    requires board.Valid() && Stone(g.pla) && g.s == board.Snap() && Collected(g, Loc(board.size, board.size, y), all)
    ensures Collected(g, Loc(board.size, 0, y + 1), all)
  {
    hide OnBoard, StoreOk, Maximal, AllBreathe, HeadSeen;
    RowEnd(board.size, y);
    OffBoard(board.size, g, Loc(board.size, board.size, y), Loc(board.size, 0, y + 1));
  }

  lemma CollectEnd(board: Board, g: Ground, all: seq<int>, hs: seq<int>)
    requires board.Valid() && Stone(g.pla) && g.s == board.Snap() && g.dy == board.dy
    requires Collected(g, Loc(board.size, 0, board.size), all)
    requires NoRepeats(all, hs)
    ensures PlaHeads(g, hs)
  {
    hide OnBoard, HeadSeen, IsPlaHead, StoreOk, Maximal, AllBreathe;
    ScanEnds(board.size);
    OffBoard(board.size, g, Loc(board.size, 0, board.size), |g.s.b|);
    forall h
      ensures HeadSeen(g, |g.s.b|, h) <==> IsPlaHead(g, h)
    {
      HeadSeenAll(g, h);
    }
  }

  // ----- counting vital regions

  /** counts[h] is the number of the first n regions that are unflagged and vital to h. */
  ghost predicate Counted(v: Survey, borders: seq<bool>, n: nat, counts: seq<int>)
  {
    |counts| == |v.g.s.b| && forall h :: h in v.hs ==> 0 <= h < |counts| && counts[h] == VitalCount(v, borders, h, n)
  }

  /** Set the counts of all heads to zero. */
  method ZeroCounts(hs: seq<int>, counts: seq<int>) returns (counts': seq<int>)
    requires forall h :: h in hs ==> 0 <= h < |counts|
    ensures |counts'| == |counts| && forall h :: h in hs ==> counts'[h] == 0
  {
    counts' := counts;
    assert forall j :: 0 <= j < |hs| ==> hs[j] in hs;
    for i := 0 to |hs|
      invariant |counts'| == |counts| && forall j :: 0 <= j < i ==> 0 <= hs[j] < |counts'| && counts'[hs[j]] == 0
    {
      counts' := counts'[hs[i] := 0];
    }
  }

  /** Add one to the counts of the heads on a list. */
  method AddList(tracer: RegionTracer, i: int, counts: seq<int>) returns (counts': seq<int>)
    requires 0 <= i < |tracer.vitalStart| == |tracer.vitalLen| && 0 <= tracer.vitalStart[i] && 0 <= tracer.vitalLen[i]
    requires tracer.vitalStart[i] + tracer.vitalLen[i] <= |tracer.vitalForPlaHeadsLists|
    requires Distinct(ListAt(tracer.Now(), i)) && forall h :: h in ListAt(tracer.Now(), i) ==> 0 <= h < |counts|
    ensures |counts'| == |counts|
    ensures forall h :: 0 <= h < |counts| ==> counts'[h] == counts[h] + if h in ListAt(tracer.Now(), i) then 1 else 0
  {
    ghost var list := ListAt(tracer.Now(), i);
    var vStart, vLen := tracer.vitalStart[i], tracer.vitalLen[i];
    counts' := counts;
    for j := 0 to vLen
      invariant |counts'| == |counts|
      invariant forall h :: 0 <= h < |counts| ==> counts'[h] == counts[h] + if h in list[..j] then 1 else 0
    {
      var plaHead := tracer.vitalForPlaHeadsLists[vStart + j];
      assert plaHead == list[j] && plaHead in list && plaHead !in list[..j];
      assert list[..j + 1] == list[..j] + [list[j]];
      counts' := counts'[plaHead := counts'[plaHead] + 1];
    }
    assert list[..vLen] == list;
  }

  lemma CountStep(v: Survey, borders: seq<bool>, n: nat, counts: seq<int>, counts': seq<int>)
    requires SurveyOk(v) && n < |v.os| && Counted(v, borders, n, counts) && |borders| == |v.g.s.b|
    requires n < |v.t.heads| && 0 <= v.t.heads[n] < |borders| && |counts'| == |counts|
    requires borders[v.t.heads[n]] ==> counts' == counts
    requires !borders[v.t.heads[n]] ==>
      forall h :: 0 <= h < |counts| ==> counts'[h] == counts[h] + if VitalHead(v.g, v.t.heads[n], h) then 1 else 0
    ensures Counted(v, borders, n + 1, counts')
  {
    hide SurveyOk, VitalHead;
  }

  /** The list of region i, as the counting loop reads it. */
  lemma ListFacts(tracer: RegionTracer, hs: seq<int>, i: int)
    requires Surveyed(tracer, hs) && 0 <= i < tracer.numRegions
    ensures i < |tracer.regionHeads| && 0 < tracer.regionHeads[i] < tracer.board.arrSize
    ensures i < |tracer.vitalStart| == |tracer.vitalLen| && 0 <= tracer.vitalStart[i] && 0 <= tracer.vitalLen[i]
    ensures tracer.vitalStart[i] + tracer.vitalLen[i] <= |tracer.vitalForPlaHeadsLists|
    ensures Distinct(ListAt(tracer.Now(), i))
    ensures forall h :: h in ListAt(tracer.Now(), i) <==> VitalHead(tracer.G(), tracer.regionHeads[i], h)
    ensures forall h :: h in ListAt(tracer.Now(), i) ==> 0 <= h < tracer.board.arrSize
  {
    hide Reaches, StoreOk, Maximal, Region, SurveyOk;
    SurveyedFacts(tracer, hs);
    SurveyRegion(SurveyOf(tracer, hs), i);
    forall h | h in ListAt(tracer.Now(), i)
      ensures 0 <= h < tracer.board.arrSize
    {
      HeadsInRange(tracer.G(), tracer.regionHeads[i], h);
    }
  }

  lemma HeadsInRange(g: Ground, x: int, h: int)
    requires GroundOk(g) && VitalHead(g, x, h)
    ensures 0 <= h < |g.s.b|
  {
    hide RingsOk, LibsOk, LinkedOk, Maximal, RegionOf;
  }

  /** Count, for every chain, the unflagged regions vital to it. */
  method CountVitals(tracer: RegionTracer, hs: seq<int>, borders: seq<bool>, counts: seq<int>) returns (counts': seq<int>)
    requires Surveyed(tracer, hs) && |borders| == |counts| == tracer.board.arrSize
    ensures |counts'| == |borders| && Counted(SurveyOf(tracer, hs), borders, tracer.numRegions, counts')
  {
    hide Surveyed, SurveyOk, VitalHead, GroundOk, StoreOk, RegionTracer.Consistent;
    SurveyedFacts(tracer, hs);
    ghost var v := SurveyOf(tracer, hs);
    HsInRange(v);
    counts' := ZeroCounts(hs, counts);
    for i := 0 to tracer.numRegions
      invariant Surveyed(tracer, hs) && v == SurveyOf(tracer, hs)
      invariant |counts'| == |borders| && Counted(v, borders, i, counts')
    {
      ghost var before := counts';
      ListFacts(tracer, hs, i);
      var head := tracer.regionHeads[i];
      if !borders[head] {
        counts' := AddList(tracer, i, counts');
      }
      CountStep(v, borders, i, before, counts');
    }
  }

  lemma HsInRange(v: Survey)
    requires SurveyOk(v)
    ensures forall h :: h in v.hs ==> 0 <= h < |v.g.s.b|
  {
    hide ScanOk;
  }

  // ----- killing

  lemma HeadOfInRange(v: Survey, a: int)
    requires SurveyOk(v) && 0 <= a < |v.g.s.b|
    ensures a < |v.t.headOf| && 0 <= v.t.headOf[a] < |v.g.s.b|
  {
    hide GroundOk, VitalList, Region;
    assert |v.g.s.b| > 0;
    if v.t.headOf[a] != PASS {
      var i :| 0 <= i < |v.os| && a in v.os[i];
      SurveyRegion(v, i);
    }
  }

  /** Flag the regions around one stone. */
  method FlagAround(tracer: RegionTracer, ghost hs: seq<int>, cur: int, borders: seq<bool>, ghost S: set<int>,
          ghost before: seq<bool>)
    returns (borders': seq<bool>)
    requires Surveyed(tracer, hs) && 0 <= cur < tracer.board.arrSize && tracer.board.board[cur] != WALL
    requires |borders| == tracer.board.arrSize && FlagsAdded(tracer.G(), tracer.Now(), S, before, borders)
    ensures FlagsAdded(tracer.G(), tracer.Now(), S + {cur}, before, borders') && |borders'| == |borders|
  {
    hide Surveyed, SurveyOk, FlagsAdded, FlagsAddedAt, RegionTracer.Based;
    SurveyedFacts(tracer, hs);
    NbrsInRange(tracer.board.dy, tracer.board.board[..], cur);
    ghost var g, t := tracer.G(), tracer.Now();
    FlagsStart(g, t, S, cur, before, borders);
    borders' := borders;
    for j := 0 to 4
      invariant |borders'| == |borders| && FlagsAddedAt(g, t, S, cur, j, before, borders')
    {
      ghost var was := borders';
      var adj := Nbr(tracer.board.dy, cur, j);
      HeadOfInRange(SurveyOf(tracer, hs), adj);
      if tracer.board.board[adj] == EMPTY || tracer.board.board[adj] == tracer.opp {
        borders' := borders'[tracer.regionHeadByLoc[adj] := true];
      }
      FlagNbr(g, t, S, cur, j, before, was, borders');
    }
    FlagStone(g, t, S, cur, before, borders');
  }

  lemma ChainRing(tracer: RegionTracer, hs: seq<int>, plaHead: int) returns (r: seq<int>)
    requires Surveyed(tracer, hs) && plaHead in hs
    ensures var s := tracer.G().s;
      |s.nxt| == |s.prv| == |s.head| == |s.b| && Ring(s.head, s.nxt, s.prv, r, plaHead) && r[0] == plaHead
    ensures 0 < plaHead < tracer.board.arrSize == tracer.board.groupNext.Length
    ensures forall p :: p in Class(tracer.G().s.head, plaHead) ==> 0 <= p < tracer.board.arrSize && tracer.board.board[p] == tracer.pla
  {
    hide ScanOk, Maximal, LibsOk, LinkedOk, Ring;
    var v := SurveyOf(tracer, hs);
    SurveyedFacts(tracer, hs);
    SurveyGround(v);
    HeadChain(v, plaHead);
    ChainBasics(v.g.dy, v.g.s.b, plaHead);
    r := RingFrom(v.g.s, plaHead);
  }

  /** Walk the killed chain and flag every region next to it. */
  method KillChain(tracer: RegionTracer, ghost hs: seq<int>, plaHead: int,
          borders: seq<bool>) returns (borders': seq<bool>)
    requires Surveyed(tracer, hs) && plaHead in hs && |borders| == tracer.board.arrSize
    ensures |borders'| == |borders|
    ensures FlagsAdded(tracer.G(), tracer.Now(), Class(tracer.G().s.head, plaHead), borders, borders')
  {
    hide Surveyed, FlagsAdded, Ring, Class, RegionTracer.Based;
    SurveyedFacts(tracer, hs);
    ghost var r := ChainRing(tracer, hs, plaHead);
    ghost var s := tracer.G().s;
    ghost var k := 0;
    RingNonempty(s, r, plaHead);
    FlagsNone(tracer.G(), tracer.Now(), borders);
    borders' := borders;
    var cur := plaHead;
    while true
      invariant Surveyed(tracer, hs) && s == tracer.G().s && 0 <= k < |r| && cur == r[k] && |borders'| == |borders|
      invariant FlagsAdded(tracer.G(), tracer.Now(), Elems(r[..k]), borders, borders')
      decreases |r| - k
    {
      WalkStep(s, r, plaHead, k);
      borders' := FlagAround(tracer, hs, cur, borders', Elems(r[..k]), borders);
      k := k + 1;
      cur := tracer.board.groupNext[cur];
      if cur == plaHead {
        break;
      }
    }
  }

  /** The chains not killed yet. */
  ghost function Living(killed: seq<bool>): set<int>
  {
    set k | 0 <= k < |killed| && !killed[k]
  }

  /** One pass over all chains: kill those that have not counted two vital regions. */
  method KillPass(tracer: RegionTracer, hs: seq<int>, counts: seq<int>, killed: seq<bool>, borders: seq<bool>)
    returns (killed': seq<bool>, borders': seq<bool>, killedAnything: bool)
    requires Surveyed(tracer, hs) && |borders| == tracer.board.arrSize && |killed| == |hs|
    requires Flagged(SurveyOf(tracer, hs), killed, borders) && Justified(SurveyOf(tracer, hs), killed)
    requires Counted(SurveyOf(tracer, hs), borders, tracer.numRegions, counts)
    ensures |borders'| == |borders| && |killed'| == |killed|
    ensures Flagged(SurveyOf(tracer, hs), killed', borders') && Justified(SurveyOf(tracer, hs), killed')
    ensures killedAnything ==> Living(killed') < Living(killed)
    ensures !killedAnything ==> killed' == killed && borders' == borders && forall k :: 0 <= k < |hs| && !killed[k] ==>
      VitalCount(SurveyOf(tracer, hs), borders, hs[k], tracer.numRegions) >= 2
  {
    hide Surveyed, SurveyOk, FlagsAdded, Flagged, Justified, Class, VitalCount, RegionTracer.Based;
    SurveyedFacts(tracer, hs);
    ghost var v := SurveyOf(tracer, hs);
    killed', borders', killedAnything := killed, borders, false;
    for i := 0 to |hs|
      invariant Surveyed(tracer, hs) && v == SurveyOf(tracer, hs)
      invariant |borders'| == |borders| && |killed'| == |killed| && Flagged(v, killed', borders') && Justified(v, killed')
      invariant Living(killed') <= Living(killed) && (killedAnything ==> Living(killed') < Living(killed))
      invariant !killedAnything ==> killed' == killed && borders' == borders
      invariant forall k :: 0 <= k < i && !killed'[k] ==> 0 <= hs[k] < |counts| && counts[hs[k]] >= 2
    {
      assert hs[i] in hs;
      if !killed'[i] {
        var plaHead := hs[i];
        if counts[plaHead] < 2 {
          KillJustified(v, killed, borders, plaHead);
          ghost var was := borders';
          borders' := KillChain(tracer, hs, plaHead, borders');
          KillStep(v, killed', was, i, borders');
          LivingLess(killed', i);
          killed' := killed'[i := true];
          killedAnything := true;
        }
      }
    }
    forall k | 0 <= k < |hs| && !killed'[k]
      ensures counts[hs[k]] == VitalCount(v, borders, hs[k], tracer.numRegions)
    {
      assert hs[k] in hs;
    }
  }

  lemma LivingLess(killed: seq<bool>, i: int)
    requires 0 <= i < |killed| && !killed[i]
    ensures Living(killed[i := true]) < Living(killed)
  {
    assert i in Living(killed) && i !in Living(killed[i := true]);
  }

  /** Kill until nothing more is killed: what is left is pass-alive. */
  method FindAlive(tracer: RegionTracer, hs: seq<int>) returns (killed: seq<bool>, borders: seq<bool>)
    requires Surveyed(tracer, hs)
    ensures |killed| == |hs| && |borders| == tracer.board.arrSize
    ensures Survivors(SurveyOf(tracer, hs), killed) == AliveOf(tracer.G())
    ensures forall i :: 0 <= i < tracer.numRegions ==> FlagMeansOpen(SurveyOf(tracer, hs), borders, i)
  {
    hide Surveyed, SurveyOk, Flagged, Justified, VitalCount, Counted, RegionTracer.Based, Survivors, FlagMeansOpen, AliveOf;
    SurveyedFacts(tracer, hs);
    ghost var v := SurveyOf(tracer, hs);
    killed := seq(|hs|, _ => false);
    borders := seq(tracer.board.arrSize, _ => false);
    NothingKilled(v, killed, borders);
    var vitalCountByPlaHead := seq(tracer.board.arrSize, _ => 0);
    while true
      invariant Surveyed(tracer, hs) && v == SurveyOf(tracer, hs) && |killed| == |hs| && |borders| == tracer.board.arrSize
      invariant |vitalCountByPlaHead| == |borders| && Flagged(v, killed, borders) && Justified(v, killed)
      decreases Living(killed)
    {
      var killedAnything;
      vitalCountByPlaHead := CountVitals(tracer, hs, borders, vitalCountByPlaHead);
      killed, borders, killedAnything := KillPass(tracer, hs, vitalCountByPlaHead, killed, borders);
      if !killedAnything {
        FixpointIsAlive(v, killed, borders);
        break;
      }
    }
  }

  // ----- marking the result

  /** The result array is none of the board's. */
  ghost predicate Apart(board: Board, result: array<int>)
  {
    && result.Length == board.arrSize && result != board.board && result != board.groupHead && result != board.groupStoneCount
    && result != board.groupLibertyCount && result != board.groupNext && result != board.groupPrev
  }

  /** Walk the chain and write its owner into the result. */
  method MarkChain(tracer: RegionTracer, ghost hs: seq<int>, plaHead: int, result: array<int>)
    requires Surveyed(tracer, hs) && plaHead in hs && Apart(tracer.board, result)
    modifies result
    ensures result[..] == Relabel(old(result[..]), Class(tracer.G().s.head, plaHead), tracer.pla)
  {
    hide Surveyed, Ring, Class, RegionTracer.Based;
    ghost var r := ChainRing(tracer, hs, plaHead);
    ghost var s := tracer.G().s;
    ghost var k := 0;
    RingNonempty(s, r, plaHead);
    RelabelTwice(result[..], {}, {}, tracer.pla);
    var cur := plaHead;
    while true
      invariant s == tracer.G().s && 0 <= k < |r| && cur == r[k]
      invariant result[..] == Relabel(old(result[..]), Elems(r[..k]), tracer.pla)
      decreases |r| - k
    {
      WalkStep(s, r, plaHead, k);
      RelabelStep(old(result[..]), Elems(r[..k]), tracer.pla, cur);
      result[cur] := tracer.pla;
      k := k + 1;
      cur := tracer.board.groupNext[cur];
      if cur == plaHead {
        break;
      }
    }
  }

  /** Write the owner of every surviving chain into the result. */
  method MarkAlive(tracer: RegionTracer, hs: seq<int>, killed: seq<bool>, result: array<int>)
    requires Surveyed(tracer, hs) && |killed| == |hs| && Apart(tracer.board, result)
    modifies result
    ensures result[..] == Relabel(old(result[..]), Survivors(SurveyOf(tracer, hs), killed), tracer.pla)
  {
    hide Surveyed, Class, Survivors, SurveyOk, RegionTracer.Based;
    SurveyedFacts(tracer, hs);
    ghost var v := SurveyOf(tracer, hs);
    SurvivorsEnds(v, killed);
    RelabelTwice(result[..], {}, {}, tracer.pla);
    for i := 0 to |hs|
      invariant Surveyed(tracer, hs) && v == SurveyOf(tracer, hs)
      invariant result[..] == Relabel(old(result[..]), Survivors(v, killed[..i]), tracer.pla)
    {
      SurvivorsStep(v, killed, i);
      assert hs[i] in hs;
      if !killed[i] {
        RelabelTwice(old(result[..]), Survivors(v, killed[..i]), Class(v.g.s.head, hs[i]), tracer.pla);
        MarkChain(tracer, hs, hs[i], result);
      }
    }
  }

  /** Walk a region and write its owner into the result. */
  method MarkRegion(tracer: RegionTracer, ghost hs: seq<int>, i: int, result: array<int>)
    requires Surveyed(tracer, hs) && 0 <= i < tracer.numRegions && Apart(tracer.board, result)
    modifies result
    ensures i < |tracer.regionHeads|
    ensures result[..] == Relabel(old(result[..]), RegionOf(tracer.G(), tracer.regionHeads[i]), tracer.pla)
  {
    hide Surveyed, SurveyOk, RegionOf, RegionTracer.Based;
    SurveyedFacts(tracer, hs);
    ghost var r := RegionRing(SurveyOf(tracer, hs), i);
    ghost var k := 0;
    var head := tracer.regionHeads[i];
    var cur := head;
    assert Elems(r[..0]) == {} && r[..|r|] == r;
    RelabelTwice(result[..], {}, {}, tracer.pla);
    while true
      invariant 0 <= k < |r| && cur == r[k]
      invariant result[..] == Relabel(old(result[..]), Elems(r[..k]), tracer.pla)
      decreases |r| - k
    {
      ElemsStep(r, k);
      RelabelStep(old(result[..]), Elems(r[..k]), tracer.pla, cur);
      assert r[Succ(k, |r|)] == head <==> k + 1 == |r|;
      result[cur] := tracer.pla;
      cur := tracer.nextEmptyOrOpp[cur];
      k := k + 1;
      if cur == head {
        break;
      }
    }
  }

  /** Write the owner of every region that is to be marked into the result. */
  method MarkTerritory(tracer: RegionTracer, hs: seq<int>, borders: seq<bool>, atLeastOnePla: bool, rules: AreaRules,
          result: array<int>)
    requires Surveyed(tracer, hs) && |borders| == tracer.board.arrSize && Apart(tracer.board, result)
    requires rules.suicideLegal == tracer.isMultiStoneSuicideLegal
    requires atLeastOnePla <==> HasStone(tracer.board.board[..], tracer.pla)
    requires forall i :: 0 <= i < tracer.numRegions ==> FlagMeansOpen(SurveyOf(tracer, hs), borders, i)
    modifies result
    ensures result[..] == Relabel(old(result[..]), MarkedPoints(SurveyOf(tracer, hs), rules, tracer.numRegions), tracer.pla)
  {
    hide Surveyed, SurveyOk, RegionOf, RegionTracer.Based, MarkedPoints, MarkedRegion, FlagMeansOpen, HasStone;
    SurveyedFacts(tracer, hs);
    ghost var v := SurveyOf(tracer, hs);
    MarkedNone(v, rules);
    RelabelTwice(result[..], {}, {}, tracer.pla);
    for i := 0 to tracer.numRegions
      invariant Surveyed(tracer, hs) && v == SurveyOf(tracer, hs)
      invariant result[..] == Relabel(old(result[..]), MarkedPoints(v, rules, i), tracer.pla)
    {
      ListFacts(tracer, hs, i);
      ShouldMarkIff(v, rules, borders, i, atLeastOnePla);
      MarkedStep(v, rules, i);
      var head := tracer.regionHeads[i];
      var shouldMark := tracer.numInternalSpacesMax2[i] <= 1 && atLeastOnePla && !borders[head];
      shouldMark := shouldMark || (rules.safeBigTerritories && atLeastOnePla && !tracer.containsOpp[i] && !borders[head]);
      shouldMark := shouldMark || (rules.unsafeBigTerritories && atLeastOnePla && !tracer.containsOpp[i]);
      if shouldMark {
        RelabelTwice(old(result[..]), MarkedPoints(v, rules, i), RegionOf(v.g, head), tracer.pla);
        MarkRegion(tracer, hs, i, result);
      }
    }
  }

  lemma SurveyMade(tracer: RegionTracer, hs: seq<int>, somePla: bool)
    requires tracer.Consistent() && PlaHeads(tracer.G(), hs)
    requires Passed(tracer.G(), tracer.Now(), tracer.board.arrSize, somePla)
    ensures Surveyed(tracer, hs) && (somePla <==> HasStone(tracer.board.board[..], tracer.pla))
  {
    hide RegionDone, Reaches, StoreOk, Maximal, IsPlaHead;
    tracer.BasedFacts();
  }

  /** Mark everything pla claims in the result. */
  method CalculateAreaForPla(board: Board, pla: int, rules: AreaRules, result: array<int>)
    requires board.Valid() && Stone(pla) && Apart(board, result)
    modifies result
    ensures result[..] == Relabel(old(result[..]), Claim(board.dy, board.board[..], pla, rules), pla)
  {
    hide Board.Valid, Surveyed, SurveyOk, RegionTracer.Based, RegionTracer.Consistent, Passed, Survivors, MarkedPoints, Claim, PlaHeads,
      FlagMeansOpen, HasStone, AliveOf;
    var tracer, atLeastOnePla, hs := TraceAndCollect(board, pla, rules.suicideLegal);
    ghost var v, was := SurveyOf(tracer, hs), result[..];
    SurveyedFacts(tracer, hs);
    var killed, borders := FindAlive(tracer, hs);
    ClaimFound(v, rules, killed);
    MarkAlive(tracer, hs, killed, result);
    MarkTerritory(tracer, hs, borders, atLeastOnePla, rules, result);
    RelabelTwice(was, Survivors(v, killed), MarkedPoints(v, rules, |v.os|), pla);
  }

  /** Trace all regions and list all chains of pla. */
  method TraceAndCollect(board: Board, pla: int, suicideLegal: bool) returns (tracer: RegionTracer,
          atLeastOnePla: bool, hs: seq<int>)
    requires board.Valid() && Stone(pla)
    ensures fresh(tracer) && tracer.board == board && tracer.pla == pla && tracer.isMultiStoneSuicideLegal == suicideLegal
    ensures Surveyed(tracer, hs) && (atLeastOnePla <==> HasStone(board.board[..], pla))
  {
    hide Board.Valid, Surveyed, SurveyOk, RegionTracer.Consistent, Passed, PlaHeads, HasStone;
    tracer := new RegionTracer(board, pla, suicideLegal);
    tracer.NothingTraced();
    atLeastOnePla := tracer.TraceRegions();
    hs := CollectHeads(board, pla, tracer.G());
    SurveyMade(tracer, hs, atLeastOnePla);
  }

  // ----- the area of both players

  /** The points below lim have been filled in. */
  ghost predicate FilledBelow(size: int, b: seq<int>, was: seq<int>, now: seq<int>, lim: int)
    requires size >= 0
  {
    |now| == |was| == |b| && forall p :: 0 <= p < |b| ==> now[p] == if p < lim then WithStones(size, b, was)[p] else was[p]
  }

  lemma FillPoint(size: int, b: seq<int>, was: seq<int>, now: seq<int>, loc: int)
    requires size >= 0 && FilledBelow(size, b, was, now, loc) && 0 <= loc < |b| && OnBoard(size, loc)
    ensures FilledBelow(size, b, was, if now[loc] == EMPTY then now[loc := b[loc]] else now, loc + 1)
  {
    hide OnBoard;
  }

  lemma FillNothing(size: int, b: seq<int>, was: seq<int>, now: seq<int>, lim: int, to: int)
    requires size >= 0 && FilledBelow(size, b, was, now, lim) && lim <= to
    requires forall p :: lim <= p < to ==> !OnBoard(size, p)
    ensures FilledBelow(size, b, was, now, to)
  {
    hide OnBoard;
  }

  /** Give the unclaimed stones to their own colour. */
  method FillStones(board: Board, area: array<int>)
    requires board.Valid() && Apart(board, area)
    modifies area
    ensures area[..] == WithStones(board.size, board.board[..], old(area[..]))
  {
    hide StoreOk, Maximal, AllBreathe, Walled, FilledBelow, OnBoard;
    ghost var b, was := board.board[..], area[..];
    ScanEnds(board.size);
    FillBegin(board.size, b, was);
    for y := 0 to board.size
      invariant b == board.board[..] && FilledBelow(board.size, b, was, area[..], Loc(board.size, 0, y))
    {
      for x := 0 to board.size
        invariant b == board.board[..] && FilledBelow(board.size, b, was, area[..], Loc(board.size, x, y))
      {
        var loc := Loc(board.size, x, y);
        LocOnBoard(board.size, x, y);
        FillPoint(board.size, b, was, area[..], loc);
        if area[loc] == EMPTY {
          area[loc] := board.board[loc];
        }
      }
      RowEnd(board.size, y);
      FillNothing(board.size, b, was, area[..], Loc(board.size, board.size, y), Loc(board.size, 0, y + 1));
    }
    FillNothing(board.size, b, was, area[..], Loc(board.size, 0, board.size), board.arrSize);
    FillEnd(board.size, b, was, area[..], board.arrSize);
  }

  lemma FillBegin(size: int, b: seq<int>, was: seq<int>)
    requires size >= 1 && |was| == |b|
    ensures FilledBelow(size, b, was, was, Loc(size, 0, 0))
  {
    hide OnBoard;
    ScanEnds(size);
  }

  lemma FillEnd(size: int, b: seq<int>, was: seq<int>, now: seq<int>, lim: int)
    requires size >= 0 && FilledBelow(size, b, was, now, lim) && lim >= |b|
    ensures now == WithStones(size, b, was)
  {
    hide OnBoard;
  }

  method ClearResult(result: array<int>)
    modifies result
    ensures forall p :: 0 <= p < result.Length ==> result[p] == EMPTY
  {
    for i := 0 to result.Length
      invariant forall p :: 0 <= p < i ==> result[p] == EMPTY
    {
      result[i] := EMPTY;
    }
  }

  lemma BothClaims(dy: int, b: seq<int>, rules: AreaRules, r: seq<int>)
    requires |r| == |b| && forall p :: 0 <= p < |r| ==> r[p] == EMPTY
    ensures Relabel(Relabel(r, Claim(dy, b, BLACK, rules), BLACK), Claim(dy, b, WHITE, rules), WHITE) == AreaColours(dy, b, rules)
  {
    hide Claim;
  }

  /** The area of both players: pass-alive chains and their regions, and if asked for the other stones too. */
  method CalculateArea(board: Board, result: array<int>, nonPassAliveStones: bool, rules: AreaRules)
    requires board.Valid() && Apart(board, result)
    modifies result
    ensures var area := AreaColours(board.dy, board.board[..], rules);
      |area| == board.arrSize && board.size >= 0 && board.board.Length == board.arrSize
      && result[..] == if nonPassAliveStones then WithStones(board.size, board.board[..], area) else area
    ensures forall p :: 0 <= p < result.Length && p < board.board.Length ==>
      result[p] ==
        if p in Claim(board.dy, board.board[..], WHITE, rules) then WHITE
        else if p in Claim(board.dy, board.board[..], BLACK, rules) then BLACK
        else if nonPassAliveStones && OnBoard(board.size, p) then board.board[p]
        else EMPTY
  {
    hide Claim, AreaColours, WithStones, StoreOk, Maximal, AllBreathe, Walled;
    ClearResult(result);
    BothClaims(board.dy, board.board[..], rules, result[..]);
    CalculateAreaForPla(board, BLACK, rules, result);
    CalculateAreaForPla(board, WHITE, rules, result);
    if nonPassAliveStones {
      FillStones(board, result);
    }
    AreaPoints(board.size, board.dy, board.board[..], rules);
  }

  lemma AreaPoints(size: int, dy: int, b: seq<int>, rules: AreaRules)
    requires size >= 0
    ensures forall p :: 0 <= p < |b| ==>
      AreaColours(dy, b, rules)[p] ==
        if p in Claim(dy, b, WHITE, rules) then WHITE else if p in Claim(dy, b, BLACK, rules) then BLACK else EMPTY
    ensures forall p :: 0 <= p < |b| ==>
      WithStones(size, b, AreaColours(dy, b, rules))[p] ==
        if p in Claim(dy, b, WHITE, rules) then WHITE
        else if p in Claim(dy, b, BLACK, rules) then BLACK
        else if OnBoard(size, p) then b[p]
        else EMPTY
  {
    hide Claim, OnBoard;
  }
}
