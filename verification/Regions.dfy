/** The tracer of the regions of one player. */
module Regions {
  import opened Grid
  import opened Components
  import opened Rules
  import opened ChainStore
  import opened Queries
  import opened Undoing
  import opened PassAlive
  import opened Claims
  import opened Tracing
  import opened RegionScan
  import opened Boards

  class RegionTracer {
    const board: Board
    const pla: int
    const opp: int
    const isMultiStoneSuicideLegal: bool
    const maxRegions: nat
    var regionHeadByLoc: seq<int>
    var nextEmptyOrOpp: seq<int>
    var vitalForPlaHeadsLists: seq<int>
    var vitalForPlaHeadsListsTotal: int
    var numRegions: int
    var regionHeads: seq<int>
    var vitalStart: seq<int>
    var vitalLen: seq<int>
    var numInternalSpacesMax2: seq<int>
    var containsOpp: seq<bool>
    ghost var orders: seq<seq<int>>

    ghost function G(): Ground
      reads board`rings, board.board, board.groupHead, board.groupStoneCount, board.groupLibertyCount, board.groupNext, board.groupPrev
    {
      Ground(board.dy, board.Snap(), pla, isMultiStoneSuicideLegal)
    }

    ghost function Now(): Trace
      reads this
    {
      Trace(regionHeadByLoc, nextEmptyOrOpp, regionHeads, vitalStart, vitalLen, numInternalSpacesMax2, containsOpp, vitalForPlaHeadsLists)
    }

    ghost predicate Based()
      reads board`rings, board.board, board.groupHead, board.groupStoneCount, board.groupLibertyCount, board.groupNext, board.groupPrev
    {
      board.Valid() && Stone(pla) && opp == Opp(pla)
    }

    lemma BasedFacts()
      requires Based()
      ensures opp == Opp(pla) && board.board[..] == G().s.b
      ensures GroundOk(G()) && Coloured(board.dy, board.board[..]) && board.Shape()
      ensures board.arrSize == |G().s.b| == |G().s.head|
    {
    }

    /** Empty lists: nothing traced yet. */
    constructor (board: Board, pla: int, isMultiStoneSuicideLegal: bool)
      requires board.Valid() && Stone(pla)
      ensures this.board == board && this.pla == pla && this.isMultiStoneSuicideLegal == isMultiStoneSuicideLegal
      ensures opp == Opp(pla) && numRegions == 0 && orders == [] && vitalForPlaHeadsListsTotal == 0
      ensures maxRegions == (board.size * board.size + 1) / 2 + 1
      ensures |regionHeadByLoc| == |nextEmptyOrOpp| == board.arrSize
      ensures forall p :: 0 <= p < board.arrSize ==> regionHeadByLoc[p] == PASS
      ensures |regionHeads| == |vitalStart| == |vitalLen| == |numInternalSpacesMax2| == |containsOpp| == maxRegions
      ensures |vitalForPlaHeadsLists| == maxRegions * 4
    {
      this.board, this.pla, this.isMultiStoneSuicideLegal := board, pla, isMultiStoneSuicideLegal;
      opp := Opp(pla);
      var maxRegions: nat := (board.size * board.size + 1) / 2 + 1;
      this.maxRegions := maxRegions;
      regionHeadByLoc := seq(board.arrSize, _ => PASS);
      nextEmptyOrOpp := seq(board.arrSize, _ => PASS);
      vitalForPlaHeadsLists := seq(maxRegions * 4, _ => -1);
      vitalForPlaHeadsListsTotal, numRegions := 0, 0;
      regionHeads := seq(maxRegions, _ => -1);
      vitalStart := seq(maxRegions, _ => -1);
      vitalLen := seq(maxRegions, _ => -1);
      numInternalSpacesMax2 := seq(maxRegions, _ => -1);
      containsOpp := seq(maxRegions, _ => false);
      orders := [];
    }

    method IsAdjacentToPlaHead(loc: int, plaHead: int) returns (r: bool)
      requires Based() && 0 <= loc < board.arrSize && board.board[loc] != WALL
      ensures r <==> NextTo(G(), loc, plaHead)
    {
      hide Board.Valid;
      BasedFacts();
      NbrsInRange(board.dy, board.board[..], loc);
      SeenAll(G(), loc, plaHead);
      for i := 0 to 4
        invariant !SeenHead(G(), loc, plaHead, i)
      {
        var adj := Nbr(board.dy, loc, i);
        if board.board[adj] == pla && board.groupHead[adj] == plaHead {
          return true;
        }
      }
      r := false;
    }

    /** Keep those heads of region regionIdx's list that loc is next to. */
    method FilterVital(loc: int, regionIdx: int)
      requires Based() && 0 <= loc < board.arrSize && board.board[loc] != WALL
      requires Relevant(board.board[..], isMultiStoneSuicideLegal, loc)
      requires 0 <= regionIdx < |vitalStart| == |vitalLen| && 0 <= vitalStart[regionIdx] && 0 <= vitalLen[regionIdx]
      requires vitalStart[regionIdx] + vitalLen[regionIdx] <= |vitalForPlaHeadsLists|
      modifies `vitalForPlaHeadsLists, `vitalLen
      ensures |vitalLen| == |vitalStart| && |vitalForPlaHeadsLists| == |old(vitalForPlaHeadsLists)|
      ensures vitalLen == old(vitalLen)[regionIdx := vitalLen[regionIdx]]
      ensures 0 <= vitalLen[regionIdx] <= old(vitalLen[regionIdx])
      ensures forall k :: 0 <= k < vitalStart[regionIdx] ==> vitalForPlaHeadsLists[k] == old(vitalForPlaHeadsLists)[k]
      ensures Filtered(G(), loc, old(ListAt(Now(), regionIdx)), ListAt(Now(), regionIdx))
    {
      hide Based, Filtered, NextTo;
      var vStart := vitalStart[regionIdx];
      var oldVLen := vitalLen[regionIdx];
      var newVLen := 0;
      ghost var was := vitalForPlaHeadsLists;
      ghost var list := ListAt(Now(), regionIdx);
      FilterNone(G(), loc);
      assert list[..0] == [] && vitalForPlaHeadsLists[vStart..vStart + 0] == [];
      for i := 0 to oldVLen
        invariant vitalLen == old(vitalLen) && 0 <= newVLen <= i && |vitalForPlaHeadsLists| == |was|
        invariant forall k :: 0 <= k < vStart || vStart + i <= k < |was| ==> vitalForPlaHeadsLists[k] == was[k]
        invariant Filtered(G(), loc, list[..i], vitalForPlaHeadsLists[vStart..vStart + newVLen])
      {
        var h := vitalForPlaHeadsLists[vStart + i];
        var keep := IsAdjacentToPlaHead(loc, h);
        FilterStep(G(), loc, list[..i], vitalForPlaHeadsLists[vStart..vStart + newVLen], h);
        assert list[..i + 1] == list[..i] + [h];
        if keep {
          ghost var kept := vitalForPlaHeadsLists[vStart..vStart + newVLen];
          vitalForPlaHeadsLists := vitalForPlaHeadsLists[vStart + newVLen := h];
          newVLen := newVLen + 1;
          assert vitalForPlaHeadsLists[vStart..vStart + newVLen] == kept + [h];
        }
      }
      assert list[..oldVLen] == list;
      vitalLen := vitalLen[regionIdx := newVLen];
    }

    method IsInternal(loc: int) returns (r: bool)
      requires Based() && 0 <= loc < board.arrSize && board.board[loc] != WALL
      ensures r <==> Internal(board.dy, board.board[..], pla, loc)
    {
      hide Board.Valid, Internal;
      BasedFacts();
      NbrsInRange(board.dy, board.board[..], loc);
      InternalByNbrs(board.dy, board.board[..], pla, loc);
      for i := 0 to 4
        invariant NoneOwn(board.dy, board.board[..], pla, loc, i)
      {
        if board.board[Nbr(board.dy, loc, i)] == pla {
          return false;
        }
      }
      r := true;
    }

    /** Filter the list by a point that matters. */
    method NarrowVital(loc: int, regionIdx: int)
      requires Based() && 0 <= loc < board.arrSize && board.board[loc] != WALL
      requires 0 <= regionIdx < |vitalStart| == |vitalLen| && 0 <= vitalStart[regionIdx] && 0 <= vitalLen[regionIdx]
      requires vitalStart[regionIdx] + vitalLen[regionIdx] <= |vitalForPlaHeadsLists|
      modifies `vitalForPlaHeadsLists, `vitalLen
      ensures |vitalLen| == |vitalStart| && |vitalForPlaHeadsLists| == |old(vitalForPlaHeadsLists)|
      ensures vitalLen == old(vitalLen)[regionIdx := vitalLen[regionIdx]]
      ensures 0 <= vitalLen[regionIdx] <= old(vitalLen[regionIdx])
      ensures forall k :: 0 <= k < vitalStart[regionIdx] ==> vitalForPlaHeadsLists[k] == old(vitalForPlaHeadsLists)[k]
      ensures Filtered(G(), loc, old(ListAt(Now(), regionIdx)), ListAt(Now(), regionIdx))
    {
      hide Filtered;
      if isMultiStoneSuicideLegal || board.board[loc] == EMPTY {
        FilterVital(loc, regionIdx);
      } else {
        FilterNothing(G(), loc, ListAt(Now(), regionIdx));
      }
    }

    /** Count the point if it is internal, up to two. */
    method CountInternal(loc: int, regionIdx: int)
      requires Based() && 0 <= loc < board.arrSize && board.board[loc] != WALL && 0 <= regionIdx < |numInternalSpacesMax2|
      modifies `numInternalSpacesMax2
      ensures var n := old(numInternalSpacesMax2[regionIdx]);
        numInternalSpacesMax2 == old(numInternalSpacesMax2)[regionIdx :=
          if n < 2 && Internal(board.dy, board.board[..], pla, loc) then n + 1 else n]
    {
      hide Based, Internal;
      if numInternalSpacesMax2[regionIdx] < 2 {
        var isInternal := IsInternal(loc);
        if isInternal {
          numInternalSpacesMax2 := numInternalSpacesMax2[regionIdx := numInternalSpacesMax2[regionIdx] + 1];
        }
      }
    }

    method NoteOpp(loc: int, regionIdx: int)
      requires Based() && 0 <= loc < board.arrSize && 0 <= regionIdx < |containsOpp|
      modifies `containsOpp
      ensures containsOpp == old(containsOpp)[regionIdx := old(containsOpp[regionIdx]) || board.board[loc] == Opp(pla)]
    {
      if board.board[loc] == opp {
        containsOpp := containsOpp[regionIdx := true];
      }
    }

    /** Enter a point into all lists. */
    method VisitPoint(head: int, tailTarget: int, loc: int, regionIdx: int, ghost s: Trace, ghost C: set<int>,
            ghost o: seq<int>)
      requires Based() && Traced(G(), s, regionIdx, head, C, o, Now()) && loc in C && loc !in o
      requires (o == [] ==> loc == head) && (o != [] ==> tailTarget == o[|o| - 1])
      modifies `regionHeadByLoc, `nextEmptyOrOpp, `vitalForPlaHeadsLists, `vitalLen, `numInternalSpacesMax2, `containsOpp
      ensures Traced(G(), s, regionIdx, head, C, o + [loc], Now())
    {
      hide Based, Filtered, Internal, Traced, StoreOk, Maximal, AllBreathe, Walled;
      ghost var t := Now();
      TraceRange(G(), s, regionIdx, head, C, o, t, loc);
      assert board.arrSize == |G().s.b| by {
        BasedFacts();
      }
      regionHeadByLoc := regionHeadByLoc[loc := head];
      NarrowVital(loc, regionIdx);
      CountInternal(loc, regionIdx);
      NoteOpp(loc, regionIdx);
      nextEmptyOrOpp := nextEmptyOrOpp[loc := tailTarget];
      TraceStep(G(), s, regionIdx, head, C, o, t, loc, Now(), tailTarget);
    }

    lemma StepFacts(s: Trace, regionIdx: int, head: int, C: set<int>, o: seq<int>, loc: int, i: int)
      requires Based() && Traced(G(), s, regionIdx, head, C, o, Now()) && loc in C && 0 <= i < 4
      ensures var adj := Nbr(board.dy, loc, i);
        0 < adj < board.board.Length && (board.board[adj] == EMPTY || board.board[adj] == opp <==> adj in C)
      ensures |o| <= |C|
    {
      hide Traced, Site, Region, Nbr;
      BasedFacts();
      VisitedIff(G(), s, regionIdx, head, C, o, Now(), loc);
      VisitedCount(G(), s, regionIdx, head, C, o, Now());
      ForeignNbr(G(), s, regionIdx, head, C, loc, i);
    }

    lemma EntryFacts(s: Trace, regionIdx: int, head: int, C: set<int>, o: seq<int>, loc: int)
      requires Traced(G(), s, regionIdx, head, C, o, Now()) && loc in C
      ensures 0 < loc < |regionHeadByLoc| && (regionHeadByLoc[loc] != PASS <==> loc in o)
    {
      hide Traced, Site;
      VisitedIff(G(), s, regionIdx, head, C, o, Now(), loc);
    }

    /** Trace the region from loc on, depth first; the points visited so far are o. */
    method BuildRegion(head: int, tailTarget: int, loc: int, regionIdx: int, ghost s: Trace, ghost C: set<int>,
            ghost o: seq<int>)
      returns (tail: int, ghost o': seq<int>)
      requires Based() && Traced(G(), s, regionIdx, head, C, o, Now()) && loc in C
      requires (o == [] ==> loc == head) && (o != [] ==> tailTarget == o[|o| - 1])
      modifies `regionHeadByLoc, `nextEmptyOrOpp, `vitalForPlaHeadsLists, `vitalLen, `numInternalSpacesMax2, `containsOpp
      ensures Traced(G(), s, regionIdx, head, C, o', Now()) && o <= o' && loc in o' && tail == o'[|o'| - 1]
      ensures Settled(board.dy, C, o', |o|)
      decreases |C| - |o|
    {
      hide *;
      EntryFacts(s, regionIdx, head, C, o, loc);
      if regionHeadByLoc[loc] != PASS {
        NoneSettled(board.dy, C, o);
        return tailTarget, o;
      }
      VisitPoint(head, tailTarget, loc, regionIdx, s, C, o);
      o' := o + [loc];
      tail := loc;
      NoneSettled(board.dy, C, o');
      NbrsVisitedNone(board.dy, C, o', loc);
      for i := 0 to 4
        invariant Traced(G(), s, regionIdx, head, C, o', Now()) && o + [loc] <= o' && tail == o'[|o'| - 1]
        invariant Settled(board.dy, C, o', |o| + 1) && NbrsVisited(board.dy, C, o', loc, i)
      {
        var adj := Nbr(board.dy, loc, i);
        ghost var before := o';
        StepFacts(s, regionIdx, head, C, o', loc, i);
        if board.board[adj] == EMPTY || board.board[adj] == opp {
          tail, o' := BuildRegion(head, tail, adj, regionIdx, s, C, o');
          SettledMore(board.dy, C, before, o', |o| + 1);
        }
        NbrsVisitedStep(board.dy, C, before, o', loc, i);
      }
      assert o'[|o|] == loc;
      SettledRoot(board.dy, C, o', |o|);
    }

    /** Put the heads next to loc on the list of region regionIdx, each once. */
    method ListAdjacentHeads(loc: int, regionIdx: int)
      requires Based() && 0 <= loc < board.arrSize && board.board[loc] != WALL
      requires 0 <= regionIdx < |vitalStart| == |vitalLen| && 0 <= vitalStart[regionIdx]
      requires vitalStart[regionIdx] + 4 <= |vitalForPlaHeadsLists|
      modifies `vitalForPlaHeadsLists, `vitalLen
      ensures |vitalLen| == |old(vitalLen)| && vitalLen == old(vitalLen)[regionIdx := vitalLen[regionIdx]]
      ensures 0 <= vitalLen[regionIdx] <= 4
      ensures |vitalForPlaHeadsLists| == |old(vitalForPlaHeadsLists)|
      ensures forall k :: 0 <= k < vitalStart[regionIdx] ==> vitalForPlaHeadsLists[k] == old(vitalForPlaHeadsLists)[k]
      ensures Seen(G(), loc, 4, ListAt(Now(), regionIdx))
    {
      hide Based, Seen, NextTo;
      var vStart := vitalStart[regionIdx];
      var initialVLen := 0;
      ghost var was := vitalForPlaHeadsLists;
      SeenNone(G(), loc);
      assert vitalForPlaHeadsLists[vStart..vStart + 0] == [];
      NbrRange(loc);
      for i := 0 to 4
        invariant vitalLen == old(vitalLen) && 0 <= initialVLen <= i && |vitalForPlaHeadsLists| == |was|
        invariant forall k :: 0 <= k < vStart ==> vitalForPlaHeadsLists[k] == was[k]
        invariant Seen(G(), loc, i, vitalForPlaHeadsLists[vStart..vStart + initialVLen])
      {
        var adj := Nbr(board.dy, loc, i);
        ghost var list := vitalForPlaHeadsLists[vStart..vStart + initialVLen];
        var plaHead := board.groupHead[adj];
        SeenStep(G(), loc, i, list, plaHead);
        if board.board[adj] == pla {
          var alreadyPresent := ListHolds(vStart, initialVLen, plaHead);
          if !alreadyPresent {
            vitalForPlaHeadsLists := vitalForPlaHeadsLists[vStart + initialVLen := plaHead];
            initialVLen := initialVLen + 1;
            assert vitalForPlaHeadsLists[vStart..vStart + initialVLen] == list + [plaHead];
          }
        }
      }
      vitalLen := vitalLen[regionIdx := initialVLen];
    }

    method ListHolds(vStart: int, len: int, plaHead: int) returns (r: bool)
      requires 0 <= vStart && 0 <= len && vStart + len <= |vitalForPlaHeadsLists|
      ensures r <==> plaHead in vitalForPlaHeadsLists[vStart..vStart + len]
    {
      ghost var list := vitalForPlaHeadsLists[vStart..vStart + len];
      for j := 0 to len
        invariant forall k :: 0 <= k < j ==> list[k] != plaHead
      {
        assert vitalForPlaHeadsLists[vStart + j] == list[j];
        if vitalForPlaHeadsLists[vStart + j] == plaHead {
          return true;
        }
      }
      r := false;
    }

    lemma NbrRange(loc: int)
      requires Based() && 0 <= loc < board.arrSize && board.board[loc] != WALL
      ensures forall i {:trigger Nbr(board.dy, loc, i)} :: 0 <= i < 4 ==> 0 <= Nbr(board.dy, loc, i) < board.arrSize
      ensures board.board.Length == board.groupHead.Length == board.arrSize
    {
      hide StoreOk, Maximal;
      BasedFacts();
      NbrsInRange(board.dy, board.board[..], loc);
    }

    /** The finished regions, and nothing else, are on the lists. */
    ghost predicate Consistent()
      reads this, board`rings, board.board, board.groupHead, board.groupStoneCount
      reads board.groupLibertyCount, board.groupNext, board.groupPrev
    {
      && Based() && numRegions == |orders| && |regionHeads| == maxRegions == (board.size * board.size + 1) / 2 + 1
      && ScanOk(G(), Now(), vitalForPlaHeadsListsTotal, orders)
    }

    /** Trace the region of an empty point that no region has reached. */
    method TraceRegion(loc: int)
      requires Consistent() && 0 <= loc < board.arrSize && loc < |regionHeadByLoc|
      requires board.board[loc] == EMPTY && regionHeadByLoc[loc] == PASS
      modifies this
      ensures Consistent() && |regionHeadByLoc| == board.arrSize && regionHeadByLoc[loc] != PASS
      ensures forall p :: 0 <= p < |old(regionHeadByLoc)| && old(regionHeadByLoc)[p] != PASS ==> p < |regionHeadByLoc| && regionHeadByLoc[p] != PASS
    {
      hide Based, ScanOk, Traced, Region, Seen, Settled;
      ghost var s0 := Now();
      ghost var os := orders;
      ghost var total := vitalForPlaHeadsListsTotal;
      Room(loc);
      var regionIdx := numRegions;
      numRegions := numRegions + 1;
      assert numRegions <= maxRegions;
      var head := loc;
      EnterRegion(head, regionIdx);
      ghost var s := Now();
      assert Started(G(), s0, total, os, s, loc);
      StartedIsTraced(G(), s0, total, os, s, loc);
      var tailTarget; ghost var o;
      tailTarget, o := BuildRegion(head, head, loc, regionIdx, s, RegionOf(G(), loc), []);
      ghost var t := Now();
      TraceRange(G(), s, regionIdx, loc, RegionOf(G(), loc), o, t, loc);
      nextEmptyOrOpp := nextEmptyOrOpp[head := tailTarget];
      vitalForPlaHeadsListsTotal := vitalForPlaHeadsListsTotal + vitalLen[regionIdx];
      orders := os + [o];
      WalkDone(G(), s0, total, os, s, loc, o, t, Now());
    }

    /** Initialize the records of region regionIdx. */
    method EnterRegion(head: int, regionIdx: int)
      requires Based() && 0 <= head < board.arrSize && board.board[head] != WALL && 0 <= vitalForPlaHeadsListsTotal
      requires 0 <= regionIdx < |regionHeads| == |vitalStart| == |vitalLen| == |numInternalSpacesMax2| == |containsOpp|
      requires vitalForPlaHeadsListsTotal + 4 <= |vitalForPlaHeadsLists|
      modifies `regionHeads, `vitalStart, `vitalLen, `numInternalSpacesMax2, `containsOpp, `vitalForPlaHeadsLists
      ensures regionHeads == old(regionHeads)[regionIdx := head]
      ensures vitalStart == old(vitalStart)[regionIdx := vitalForPlaHeadsListsTotal]
      ensures |vitalLen| == |old(vitalLen)| && vitalLen == old(vitalLen)[regionIdx := vitalLen[regionIdx]]
      ensures 0 <= vitalLen[regionIdx] <= 4
      ensures numInternalSpacesMax2 == old(numInternalSpacesMax2)[regionIdx := 0]
      ensures containsOpp == old(containsOpp)[regionIdx := false]
      ensures |vitalForPlaHeadsLists| == |old(vitalForPlaHeadsLists)|
      ensures forall k :: 0 <= k < vitalForPlaHeadsListsTotal ==> vitalForPlaHeadsLists[k] == old(vitalForPlaHeadsLists)[k]
      ensures Seen(G(), head, 4, ListAt(Now(), regionIdx))
    {
      hide Based, Seen;
      regionHeads := regionHeads[regionIdx := head];
      vitalStart := vitalStart[regionIdx := vitalForPlaHeadsListsTotal];
      vitalLen := vitalLen[regionIdx := 0];
      numInternalSpacesMax2 := numInternalSpacesMax2[regionIdx := 0];
      containsOpp := containsOpp[regionIdx := false];
      ListAdjacentHeads(head, regionIdx);
    }

    /** There is room in all buffers. */
    lemma Room(loc: int)
      requires Consistent() && 0 <= loc < board.arrSize && loc < |regionHeadByLoc|
      requires board.board[loc] == EMPTY && regionHeadByLoc[loc] == PASS
      ensures numRegions < maxRegions && numRegions + 1 <= (board.size * board.size + 1) / 2 && board.arrSize == |G().s.b|
      ensures |regionHeads| == |vitalStart| == |vitalLen| == |numInternalSpacesMax2| == |containsOpp| == maxRegions
      ensures |nextEmptyOrOpp| == |regionHeadByLoc| == board.arrSize
      ensures 0 <= vitalForPlaHeadsListsTotal <= 4 * numRegions && |vitalForPlaHeadsLists| == 4 * maxRegions
    {
      hide RegionDone, Reaches, StoreOk, Maximal, AllBreathe;
      RoomForRegion(board.size, G(), Now(), vitalForPlaHeadsListsTotal, orders, loc);
    }

    lemma NothingTraced()
      requires Based() && numRegions == 0 && orders == [] && vitalForPlaHeadsListsTotal == 0
      requires maxRegions == (board.size * board.size + 1) / 2 + 1
      requires |regionHeadByLoc| == |nextEmptyOrOpp| == board.arrSize
      requires forall p :: 0 <= p < board.arrSize ==> regionHeadByLoc[p] == PASS
      requires |regionHeads| == |vitalStart| == |vitalLen| == |numInternalSpacesMax2| == |containsOpp| == maxRegions
      requires |vitalForPlaHeadsLists| == maxRegions * 4
      ensures Consistent() && Passed(G(), Now(), Loc(board.size, 0, 0), false)
    {
      hide GroundOk, OnBoard;
      BasedFacts();
      ScanNone(G(), Now());
      ScanEnds(board.size);
    }

    lemma SizePositive()
      requires Consistent()
      ensures board.size >= 2
    {
      hide ScanOk, StoreOk, Maximal, AllBreathe;
    }

    /** Trace every region; report whether pla has a stone on the board. */
    method TraceRegions() returns (atLeastOnePla: bool)
      requires Consistent() && Passed(G(), Now(), Loc(board.size, 0, 0), false)
      modifies this
      ensures Consistent() && Passed(G(), Now(), board.arrSize, atLeastOnePla)
    {
      hide *;
      SizePositive();
      atLeastOnePla := false;
      for y := 0 to board.size
        invariant Consistent() && Passed(G(), Now(), Loc(board.size, 0, y), atLeastOnePla)
      {
        for x := 0 to board.size
          invariant Consistent() && Passed(G(), Now(), Loc(board.size, x, y), atLeastOnePla)
        {
          atLeastOnePla := TraceAt(x, y, atLeastOnePla);
        }
        NextRow(y, atLeastOnePla);
      }
      LastRow(atLeastOnePla);
    }

    /** The scan at one point: trace its region if it starts one. */
    method TraceAt(x: int, y: int, somePla: bool) returns (atLeastOnePla: bool)
      requires Consistent() && 0 <= x < board.size && 0 <= y < board.size
      requires Passed(G(), Now(), Loc(board.size, x, y), somePla)
      modifies this
      ensures Consistent() && Passed(G(), Now(), Loc(board.size, x + 1, y), atLeastOnePla)
    {
      hide Passed, ScanOk, Board.Valid;
      var loc := Loc(board.size, x, y);
      ghost var t := Now();
      atLeastOnePla := somePla;
      PointFacts(x, y);
      if regionHeadByLoc[loc] != PASS {
        PassPoint(G(), t, Now(), loc, somePla);
      } else if board.board[loc] != EMPTY {
        atLeastOnePla := atLeastOnePla || board.board[loc] == pla;
        PassPoint(G(), t, Now(), loc, somePla);
      } else {
        TraceRegion(loc);
        PassPoint(G(), t, Now(), loc, somePla);
      }
    }

    lemma PointFacts(x: int, y: int)
      requires Consistent() && 0 <= x < board.size && 0 <= y < board.size
      ensures var loc := Loc(board.size, x, y);
        0 <= loc < board.arrSize && board.arrSize == |regionHeadByLoc| == board.board.Length
        && (regionHeadByLoc[loc] != PASS ==> board.board[loc] != pla) && Stone(pla)
    {
      hide StoreOk, Maximal, Region, RecordOk;
      LocOnBoard(board.size, x, y);
      var loc := Loc(board.size, x, y);
      if regionHeadByLoc[loc] != PASS {
        var i :| 0 <= i < |orders| && loc in orders[i];
        assert RegionDone(G(), Now(), i, orders[i]);
        assert loc in Elems(orders[i]);
        RegionBasics(board.dy, G().s.b, pla, regionHeads[i]);
      }
    }

    lemma NextRow(y: int, somePla: bool)
      requires Consistent() && y >= 0 && Passed(G(), Now(), Loc(board.size, board.size, y), somePla)
      ensures Passed(G(), Now(), Loc(board.size, 0, y + 1), somePla)
    {
      hide ScanOk, StoreOk, Maximal, Passed, OnBoard;
      RowEnd(board.size, y);
      MulMono(board.size + 1, 0, y + 1);
      PassOverPoints(G(), Now(), Loc(board.size, board.size, y), Loc(board.size, 0, y + 1), somePla);
    }

    lemma LastRow(somePla: bool)
      requires Consistent() && Passed(G(), Now(), Loc(board.size, 0, board.size), somePla)
      ensures Passed(G(), Now(), board.arrSize, somePla)
    {
      hide ScanOk, StoreOk, Maximal, Passed, OnBoard;
      ScanEnds(board.size);
      MulMono(board.size + 1, 0, board.size + 1);
      PassOverPoints(G(), Now(), Loc(board.size, 0, board.size), board.arrSize, somePla);
    }
  }
}
