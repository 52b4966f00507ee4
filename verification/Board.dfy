/** The incremental Go board: six parallel arrays updated in place. */
module Boards {
  import opened Grid
  import opened Components
  import opened Rules
  import opened ChainStore
  import opened Captures
  import opened Queries
  import opened Refill
  import opened Regrow
  import opened Undoing
  import opened Ladders
  import opened LadderSearch
  import opened LadderGame
  import opened SimpleKo

  datatype MoveError = InvalidPlayer | InvalidLocation | LocationNonempty | SingleStoneSuicideMove | KoRecapture

  datatype Outcome = Done | Refused(error: MoveError)

  /** A ladder search either answers or runs off its stack. */
  datatype LadderResult = Answered(captured: bool) | StackOverflow

  class Board {
    const size: int
    const dy: int
    const arrSize: int
    const board: array<int>
    const groupHead: array<int>
    const groupStoneCount: array<int>
    const groupLibertyCount: array<int>
    const groupNext: array<int>
    const groupPrev: array<int>
    var pla: int
    var simpleKoPoint: Option<int>
    ghost var rings: map<int, seq<int>>

    ghost predicate Shape()
    {
      && 2 <= size && dy == size + 1 && arrSize == ArrSize(size)
      && board.Length == groupHead.Length == groupStoneCount.Length == groupLibertyCount.Length == arrSize
      && groupNext.Length == groupPrev.Length == arrSize
      && board != groupHead && board != groupStoneCount && board != groupLibertyCount && board != groupNext && board != groupPrev
      && groupHead != groupStoneCount && groupHead != groupLibertyCount && groupHead != groupNext && groupHead != groupPrev
      && groupStoneCount != groupLibertyCount && groupStoneCount != groupNext && groupStoneCount != groupPrev
      && groupLibertyCount != groupNext && groupLibertyCount != groupPrev && groupNext != groupPrev
    }

    ghost function Arrays(): set<object>
    {
      {board, groupHead, groupStoneCount, groupLibertyCount, groupNext, groupPrev}
    }

    ghost function Snap(): Store
      reads `rings, board, groupHead, groupStoneCount, groupLibertyCount, groupNext, groupPrev
    {
      Store(board[..], groupHead[..], groupStoneCount[..], groupLibertyCount[..], groupNext[..], groupPrev[..], rings)
    }

    /** The arrays describe disjoint linked groups exactly, though adjacent groups may not be merged yet
        and a group may have no liberty. */
    ghost predicate StoreValid()
      reads `rings, board, groupHead, groupStoneCount, groupLibertyCount, groupNext, groupPrev
    {
      Shape() && Walled(size, board[..]) && StoreOk(dy, Snap())
    }

    /** The invariant between moves: the groups are exactly the chains, and every chain has a liberty. */
    ghost predicate Valid()
      reads `rings, board, groupHead, groupStoneCount, groupLibertyCount, groupNext, groupPrev
    {
      StoreValid() && Maximal(dy, board[..], groupHead[..]) && AllBreathe(dy, board[..])
    }

    constructor (size: int)
      requires size >= 2
      ensures Valid() && this.size == size && pla == BLACK && simpleKoPoint == None
      ensures forall p :: 0 <= p < arrSize ==> board[p] == if OnBoard(size, p) then EMPTY else WALL
      ensures fresh(board) && fresh(groupHead) && fresh(groupStoneCount)
      ensures fresh(groupLibertyCount) && fresh(groupNext) && fresh(groupPrev)
    {
      this.size, dy, arrSize := size, size + 1, ArrSize(size);
      var n := ArrSize(size);
      board := new int[n](_ => EMPTY);
      groupHead := new int[n](_ => 0);
      groupStoneCount := new int[n](_ => 0);
      groupLibertyCount := new int[n](_ => 0);
      groupNext := new int[n](_ => 0);
      groupPrev := new int[n](_ => 0);
      pla, simpleKoPoint, rings := BLACK, None, map[];
      new;
      hide StoreOk, Maximal, AllBreathe, OnBoard, StoreValid;
      BuildWalls();
      groupHead[0], groupNext[0], groupPrev[0] := -1, -1, -1;
      BareBoard();
    }

    lemma BareBoard()
      requires Shape() && rings == map[]
      requires forall p :: 0 <= p < arrSize ==> board[p] == if OnBoard(size, p) then EMPTY else WALL
      requires groupHead[0] == -1 && groupStoneCount[0] == groupLibertyCount[0] == 0
      requires forall p :: 0 < p < arrSize ==> groupHead[p] == groupStoneCount[p] == groupLibertyCount[p] == groupNext[p] == groupPrev[p] == 0
      ensures Valid()
    {
      hide StoreOk, Maximal, AllBreathe;
      WalledColoured(size, board[..]);
      BareStore(dy, Snap());
    }

    /** A copy with arrays of its own. */
    constructor CopyOf(other: Board)
      requires other.Valid()
      ensures Valid() && size == other.size && pla == other.pla
      ensures simpleKoPoint == other.simpleKoPoint && Snap() == other.Snap()
      ensures fresh(board) && fresh(groupHead) && fresh(groupStoneCount)
      ensures fresh(groupLibertyCount) && fresh(groupNext) && fresh(groupPrev)
    {
      size, dy, arrSize := other.size, other.dy, other.arrSize;
      var n := other.arrSize;
      board := new int[n](i requires 0 <= i < n reads other.board => other.board[i]);
      groupHead := new int[n](i requires 0 <= i < n reads other.groupHead => other.groupHead[i]);
      groupStoneCount := new int[n](i requires 0 <= i < n reads other.groupStoneCount => other.groupStoneCount[i]);
      groupLibertyCount := new int[n](i requires 0 <= i < n reads other.groupLibertyCount => other.groupLibertyCount[i]);
      groupNext := new int[n](i requires 0 <= i < n reads other.groupNext => other.groupNext[i]);
      groupPrev := new int[n](i requires 0 <= i < n reads other.groupPrev => other.groupPrev[i]);
      pla, simpleKoPoint, rings := other.pla, other.simpleKoPoint, other.rings;
      new;
      hide StoreOk, Maximal, AllBreathe, Walled;
      assert Snap() == other.Snap();
    }

    method BuildWalls()
      requires Shape() && forall p :: 0 <= p < arrSize ==> board[p] == EMPTY
      modifies board
      ensures forall p :: 0 <= p < arrSize ==> board[p] == if OnBoard(size, p) then EMPTY else WALL
    {
      for i := -1 to size + 1
        invariant forall p :: 0 <= p < arrSize ==> board[p] == if Wall(size, i, p) then WALL else EMPTY
      {
        WallBounds(size, i);
        board[Loc(size, i, -1)] := WALL;
        board[Loc(size, i, size)] := WALL;
        board[Loc(size, -1, i)] := WALL;
        board[Loc(size, size, i)] := WALL;
        forall p | 0 <= p < arrSize
          ensures board[p] == if Wall(size, i + 1, p) then WALL else EMPTY
        {
          WallStep(size, i, p);
        }
      }
      forall p | 0 <= p < arrSize
        ensures board[p] == if OnBoard(size, p) then EMPTY else WALL
      {
        WallAll(size, p);
      }
    }

    /** Apply delta to the liberties of the chains of the given colours next to loc, once per chain. */
    method ChangeSurroundingLiberties(loc: int, colours: set<int>, delta: int)
      requires Shape() && 0 <= loc - dy && loc + dy < arrSize
      requires NbrsTold(dy, board[..], groupHead[..], loc, colours)
      modifies groupLibertyCount
      ensures Bumped(dy, board[..], groupHead[..], loc, colours, delta, old(groupLibertyCount[..]), groupLibertyCount[..])
    {
      var adj0, adj1, adj2, adj3 := Nbr(dy, loc, 0), Nbr(dy, loc, 1), Nbr(dy, loc, 2), Nbr(dy, loc, 3);
      assert Adj(dy, loc, adj0) && Adj(dy, loc, adj1) && Adj(dy, loc, adj2) && Adj(dy, loc, adj3);
      var h0, h1, h2, h3 := groupHead[adj0], groupHead[adj1], groupHead[adj2], groupHead[adj3];
      ghost var before := groupLibertyCount[..];
      AddLiberties(board[adj0] in colours, h0, delta);
      AddLiberties(board[adj1] in colours && h1 != h0, h1, delta);
      AddLiberties(board[adj2] in colours && h2 != h0 && h2 != h1, h2, delta);
      AddLiberties(board[adj3] in colours && h3 != h0 && h3 != h1 && h3 != h2, h3, delta);
      IncFourBumps(dy, board[..], groupHead[..], loc, colours, delta, before, groupLibertyCount[..]);
    }

    method CountImmediateLiberties(loc: int) returns (count: int)
      requires Shape() && 0 <= loc - dy && loc + dy < arrSize
      ensures count == |NewLibs(dy, board[..], {}, loc, 4)|
    {
      count := 0;
      for i := 0 to 4
        invariant count == |NewLibs(dy, board[..], {}, loc, i)|
      {
        NewLibsStep(dy, board[..], {}, loc, i);
        if board[Nbr(dy, loc, i)] == EMPTY {
          count := count + 1;
        }
      }
    }

    /** Write a new group of one stone into all arrays. */
    method StartGroup(pla: int, loc: int, liberties: int)
      requires Shape() && 0 <= loc < arrSize
      modifies `rings, board, groupHead, groupStoneCount, groupLibertyCount, groupNext, groupPrev
      ensures board[..] == old(board[..])[loc := pla]
      ensures groupHead[..] == old(groupHead[..])[loc := loc]
      ensures groupStoneCount[..] == old(groupStoneCount[..])[loc := 1]
      ensures groupLibertyCount[..] == old(groupLibertyCount[..])[loc := liberties]
      ensures groupNext[..] == old(groupNext[..])[loc := loc]
      ensures groupPrev[..] == old(groupPrev[..])[loc := loc]
      ensures rings == old(rings)[loc := [loc]]
    {
      board[loc] := pla;
      groupHead[loc] := loc;
      groupStoneCount[loc] := 1;
      groupLibertyCount[loc] := liberties;
      groupNext[loc] := loc;
      groupPrev[loc] := loc;
      rings := rings[loc := [loc]];
    }

    method PlaceStone(pla: int, loc: int)
      requires StoreValid() && Stone(pla) && 0 <= loc < arrSize && board[loc] == EMPTY
      modifies `rings, board, groupHead, groupStoneCount, groupLibertyCount, groupNext, groupPrev
      ensures StoreValid()
      ensures board[..] == old(board[..])[loc := pla] && groupHead[..] == old(groupHead[..])[loc := loc]
    {
      ghost var s := Snap();
      NbrsInRange(dy, s.b, loc);
      var liberties := CountImmediateLiberties(loc);
      StartGroup(pla, loc, liberties);
      PlaceHeads(s.b, s.head, loc, pla);
      PlaceColoured(dy, size, s.b, loc, pla);
      HeadsTell(dy, s.b[loc := pla], s.head[loc := loc], loc, {BLACK, WHITE});
      ChangeSurroundingLiberties(loc, {BLACK, WHITE}, -1);
      PlaceStore(dy, s, Snap(), loc, pla, liberties);
    }

    method IsGroupAdjacent(head: int, loc: int) returns (r: bool)
      requires Shape() && 0 <= loc - dy && loc + dy < arrSize
      ensures r <==> Touches(dy, loc, Class(groupHead[..], head))
    {
      r := groupHead[Nbr(dy, loc, 0)] == head || groupHead[Nbr(dy, loc, 1)] == head
        || groupHead[Nbr(dy, loc, 2)] == head || groupHead[Nbr(dy, loc, 3)] == head;
    }

    /** How many empty points next to loc are not next to the group with the given head. */
    method CountNewLiberties(head: int, loc: int) returns (count: int)
      requires Shape() && Coloured(dy, board[..]) && 0 <= loc < arrSize && board[loc] != WALL
      ensures 0 <= loc - dy && loc + dy < arrSize
      ensures count == |NewLibs(dy, board[..], Class(groupHead[..], head), loc, 4)|
    {
      NbrsInRange(dy, board[..], loc);
      count := 0;
      for i := 0 to 4
        invariant count == |NewLibs(dy, board[..], Class(groupHead[..], head), loc, i)|
      {
        NewLibsStep(dy, board[..], Class(groupHead[..], head), loc, i);
        var adj := Nbr(dy, loc, i);
        if board[adj] == EMPTY {
          NbrsInRange(dy, board[..], adj);
          var adjacent := IsGroupAdjacent(head, adj);
          if !adjacent {
            count := count + 1;
          }
        }
      }
    }

    /** Walk the ring of child, handing its stones to phead and counting the liberties gained. */
    method AbsorbGroup(child: int, phead: int) returns (newLiberties: int)
      requires StoreValid() && 0 <= child < arrSize && Stone(board[child])
      requires 0 < phead < arrSize && groupHead[phead] == phead && groupHead[child] != phead
      modifies groupHead
      ensures groupHead[..] == MergeHeads(old(groupHead[..]), phead, old(groupHead[child]))
      ensures newLiberties == |Libs(dy, board[..], Class(old(groupHead[..]), phead) + Class(old(groupHead[..]), old(groupHead[child])))|
    {
      hide StoreValid, Coloured, HeadsOk, Libs, NewLibs, Elems, Class, Relabel, Ring, MergeHeads;
      ghost var s := Snap();
      ghost var r := AbsorbReady(child, phead);
      ghost var chead := groupHead[child];
      ghost var P := Class(s.head, phead);
      ghost var k := 0;
      newLiberties := groupLibertyCount[phead];
      var loc := child;
      while true
        invariant 0 <= k < |r| && loc == r[k]
        invariant groupHead[..] == Relabel(s.head, Elems(r[..k]), phead)
        invariant newLiberties == |Libs(dy, s.b, P + Elems(r[..k]))|
        decreases |r| - k
      {
        AbsorbStep(dy, s, r, phead, chead, k);
        AbsorbNext(s, r, phead, k);
        var gained := CountNewLiberties(phead, loc);
        newLiberties := newLiberties + gained;
        groupHead[loc] := phead;
        k := k + 1;
        loc := groupNext[loc];
        if loc == child {
          break;
        }
      }
    }

    lemma AbsorbReady(child: int, phead: int) returns (r: seq<int>)
      requires StoreValid() && 0 <= child < arrSize && Stone(board[child])
      requires 0 < phead < arrSize && groupHead[phead] == phead && groupHead[child] != phead
      ensures Shape() && Snap().b == board[..] && Snap().head == groupHead[..]
      ensures Snap().nxt == groupNext[..] && |Snap().prv| == arrSize
      ensures board.Length == groupHead.Length == groupNext.Length == groupLibertyCount.Length == arrSize
      ensures Coloured(dy, Snap().b) && HeadsOk(Snap().b, Snap().head)
      ensures 0 < groupHead[child] < arrSize && Stone(board[groupHead[child]])
      ensures |r| > 0 && r[0] == child && Ring(Snap().head, Snap().nxt, Snap().prv, r, groupHead[child])
      ensures groupLibertyCount[phead] == |Libs(dy, Snap().b, Class(Snap().head, phead) + Elems(r[..0]))|
      ensures groupHead[..] == Relabel(groupHead[..], Elems(r[..0]), phead)
      ensures Elems(r[..|r|]) == Class(Snap().head, groupHead[child])
      ensures Relabel(Snap().head, Elems(r[..|r|]), phead) == MergeHeads(Snap().head, phead, groupHead[child])
    {
      hide Libs, Class, Relabel, Ring, LibsOk, LinkedOk, MergeHeads, Walled, Elems;
      r := RingFrom(Snap(), child);
      HeadLibs(dy, Snap(), phead);
      RelabelAll(Snap(), r, phead, groupHead[child]);
      RingNonempty(Snap(), r, groupHead[child]);
    }

    /** The counting of new liberties does not depend on the heads that have changed. */
    lemma AbsorbNext(s: Store, r: seq<int>, phead: int, k: int)
      requires Shape() && s.b == board[..] && s.nxt == groupNext[..]
      requires 0 <= k < |r| && 0 < r[k] < arrSize && Stone(s.b[r[k]])
      ensures board.Length == groupHead.Length == groupNext.Length == arrSize
      ensures board[r[k]] != WALL && groupNext[r[k]] == s.nxt[r[k]]
    {
    }

    /** Zero the child's counts, update the parent's, and splice the two rings. */
    method SpliceGroups(phead: int, chead: int, stoneCount: int, liberties: int)
      requires Shape() && 0 < phead < arrSize && 0 < chead < arrSize
      requires 0 <= groupPrev[phead] < arrSize && 0 <= groupPrev[chead] < arrSize
      modifies groupStoneCount, groupLibertyCount, groupNext, groupPrev
      ensures groupStoneCount[..] == old(groupStoneCount[..])[chead := 0][phead := stoneCount]
      ensures groupLibertyCount[..] == old(groupLibertyCount[..])[chead := 0][phead := liberties]
      ensures groupNext[..] == old(groupNext[..])[old(groupPrev[chead]) := phead][old(groupPrev[phead]) := chead]
      ensures groupPrev[..] == old(groupPrev[..])[chead := old(groupPrev[phead])][phead := old(groupPrev[chead])]
    {
      groupStoneCount[chead] := 0;
      groupLibertyCount[chead] := 0;
      groupStoneCount[phead] := stoneCount;
      groupLibertyCount[phead] := liberties;
      var plast, clast := groupPrev[phead], groupPrev[chead];
      groupNext[clast] := phead;
      groupNext[plast] := chead;
      groupPrev[chead] := plast;
      groupPrev[phead] := clast;
    }

    /** Merge the groups of two adjacent stones of one colour; the larger one keeps its head. */
    method MergeUnsafe(loc0: int, loc1: int)
      requires StoreValid() && 0 <= loc0 < arrSize && 0 <= loc1 < arrSize
      requires Stone(board[loc0]) && board[loc0] == board[loc1] && Adj(dy, loc0, loc1)
      modifies `rings, groupHead, groupStoneCount, groupLibertyCount, groupNext, groupPrev
      ensures StoreValid()
      ensures groupHead[..] == old(Merged(groupHead[..], groupStoneCount[..], groupHead[loc0], groupHead[loc1]))
    {
      if groupHead[loc0] != groupHead[loc1] {
        if groupStoneCount[groupHead[loc0]] >= groupStoneCount[groupHead[loc1]] {
          MergeInto(loc0, loc1);
        } else {
          MergeInto(loc1, loc0);
        }
      }
    }

    method MergeInto(parent: int, child: int)
      requires StoreValid() && 0 <= parent < arrSize && 0 <= child < arrSize
      requires Stone(board[parent]) && board[parent] == board[child] && Adj(dy, parent, child)
      requires groupHead[parent] != groupHead[child]
      modifies `rings, groupHead, groupStoneCount, groupLibertyCount, groupNext, groupPrev
      ensures StoreValid()
      ensures groupHead[..] == old(MergeHeads(groupHead[..], groupHead[parent], groupHead[child]))
    {
      hide Coloured, Ring, LibsOk, LinkedOk, Libs, Class, MergeHeads, GroupOk, Walled;
      ghost var s := Snap();
      var phead, chead := groupHead[parent], groupHead[child];
      RingLast(s, phead);
      RingLast(s, chead);
      var stoneCount := groupStoneCount[phead] + groupStoneCount[chead];
      assert stoneCount == s.cnt[phead] + s.cnt[chead];
      var liberties := AbsorbGroup(child, phead);
      SpliceGroups(phead, chead, stoneCount, liberties);
      rings := (rings - {chead})[phead := rings[phead] + rings[chead]];
      ghost var t := Snap();
      assert t.cnt == s.cnt[chead := 0][phead := stoneCount];
      assert t.nxt == s.nxt[s.prv[chead] := phead][s.prv[phead] := chead];
      assert t.prv == s.prv[chead := s.prv[phead]][phead := s.prv[chead]];
      MergeStore(dy, s, t, phead, chead, parent, child);
    }

    /** Give the liberty at loc to the opposing chains around it, and take its stone off. */
    method EraseStone(loc: int, opp: int)
      requires Shape() && 0 <= loc - dy && loc + dy < arrSize && NbrsTold(dy, board[..], groupHead[..], loc, {opp})
      modifies board, groupHead, groupLibertyCount, groupNext, groupPrev
      ensures Erased(dy, old(Snap()), Snap(), loc, opp)
    {
      ChangeSurroundingLiberties(loc, {opp}, 1);
      board[loc] := EMPTY;
      groupHead[loc] := 0;
      groupNext[loc] := 0;
      groupPrev[loc] := 0;
    }

    /** Walk the ring of group, erasing every stone. */
    method EraseRing(group: int)
      requires StoreValid() && Maximal(dy, board[..], groupHead[..]) && 0 <= group < arrSize && Stone(board[group])
      modifies board, groupHead, groupLibertyCount, groupNext, groupPrev
      ensures Removing(dy, old(Snap()), old(groupHead[group]), Class(old(groupHead[..]), old(groupHead[group])), Snap())
    {
      ghost var s, h := Snap(), groupHead[group];
      ghost var r := RingFrom(s, group);
      ghost var k := 0;
      var opp := Opp(board[group]);
      var loc := group;
      assert h in s.rings;
      RemoveStart(dy, s, r, h);
      while true
        invariant 0 <= k < |r| && loc == r[k]
        invariant Removing(dy, s, h, Elems(r[..k]), Snap())
        decreases |r| - k
      {
        ghost var t := Snap();
        RemoveReady(dy, s, r, h, k, t);
        var nextLoc := groupNext[loc];
        EraseStone(loc, opp);
        RemoveStep(dy, s, r, h, k, t, Snap());
        loc := nextLoc;
        k := k + 1;
        if loc == group {
          break;
        }
      }
      RingElems(s.head, s.nxt, s.prv, r, h);
    }

    /** Remove all stones of a chain. */
    method RemoveUnsafe(group: int)
      requires StoreValid() && Maximal(dy, board[..], groupHead[..]) && 0 <= group < arrSize && Stone(board[group])
      modifies `rings, board, groupHead, groupStoneCount, groupLibertyCount, groupNext, groupPrev
      ensures StoreValid() && Maximal(dy, board[..], groupHead[..])
      ensures board[..] == old(Clear(board[..], Class(groupHead[..], groupHead[group])))
      ensures groupHead[..] == old(Clear(groupHead[..], Class(groupHead[..], groupHead[group])))
    {
      ghost var s := Snap();
      var head := groupHead[group];
      assert head in s.rings;
      EraseRing(group);
      groupStoneCount[head] := 0;
      groupLibertyCount[head] := 0;
      rings := rings - {head};
      RemoveStore(dy, s, Snap(), head);
    }

    /** Merge the new stone at loc with each neighbour of its colour. */
    method MergeAround(loc: int)
      requires StoreValid() && 0 <= loc < arrSize && Stone(board[loc]) && MaximalBut(dy, board[..], groupHead[..], loc)
      modifies `rings, groupHead, groupStoneCount, groupLibertyCount, groupNext, groupPrev
      ensures StoreValid() && Maximal(dy, board[..], groupHead[..])
    {
      for i := 0 to 4
        invariant StoreValid() && MaximalBut(dy, board[..], groupHead[..], loc)
        invariant Joined(dy, board[..], groupHead[..], loc, i)
      {
        MergeWith(loc, i);
      }
      JoinedMaximal(dy, board[..], groupHead[..], loc);
    }

    method MergeWith(loc: int, i: int)
      requires StoreValid() && 0 <= loc < arrSize && Stone(board[loc]) && 0 <= i < 4
      requires MaximalBut(dy, board[..], groupHead[..], loc) && Joined(dy, board[..], groupHead[..], loc, i)
      modifies `rings, groupHead, groupStoneCount, groupLibertyCount, groupNext, groupPrev
      ensures StoreValid() && MaximalBut(dy, board[..], groupHead[..], loc)
      ensures Joined(dy, board[..], groupHead[..], loc, i + 1)
    {
      NbrsInRange(dy, board[..], loc);
      var adj := Nbr(dy, loc, i);
      NbrAdj(dy, loc, i);
      if board[adj] == board[loc] {
        MergeJoins(dy, board[..], groupHead[..], groupStoneCount[..], loc, i);
        MergeUnsafe(loc, adj);
      } else {
        JoinedSkip(dy, board[..], groupHead[..], loc, i);
      }
    }

    /** Resolve captures around the new stone at loc, on what was position b before it. */
    method CaptureAround(pla: int, loc: int, ghost b: seq<int>) returns (captured: int, capLoc: int)
      requires StoreValid() && Maximal(dy, board[..], groupHead[..])
      requires Position(dy, b) && Stone(pla) && 0 <= loc < |b| && b[loc] == EMPTY && board[..] == b[loc := pla]
      modifies `rings, board, groupHead, groupStoneCount, groupLibertyCount, groupNext, groupPrev
      ensures StoreValid() && Maximal(dy, board[..], groupHead[..]) && board[..] == AfterCaptures(dy, b, pla, loc)
      ensures captured == |Captured(dy, b, pla, loc)|
      ensures captured > 0 ==> capLoc in Captured(dy, b, pla, loc)
    {
      captured, capLoc := 0, 0;
      ghost var K: set<int> := {};
      ClearNone(b[loc := pla]);
      for i := 0 to 4
        invariant StoreValid() && Maximal(dy, board[..], groupHead[..])
        invariant PartCaptured(dy, b, pla, loc, K, i) && board[..] == Clear(b[loc := pla], K)
        invariant captured == |K| && (captured > 0 ==> capLoc in K)
      {
        NbrsInRange(dy, b, loc);
        var n := CaptureOne(Opp(pla), Nbr(dy, loc, i));
        K := CaptureStep(dy, b, pla, loc, K, i, n, board[..]);
        if n > 0 {
          captured, capLoc := captured + n, Nbr(dy, loc, i);
        }
      }
      CaptureDone(dy, b, pla, loc, K);
    }

    /** Remove the chain at adj if it is of colour opp and out of liberties; return how many stones went. */
    method CaptureOne(opp: int, adj: int) returns (n: int)
      requires StoreValid() && Maximal(dy, board[..], groupHead[..]) && Stone(opp) && 0 <= adj < arrSize
      modifies `rings, board, groupHead, groupStoneCount, groupLibertyCount, groupNext, groupPrev
      ensures StoreValid() && Maximal(dy, board[..], groupHead[..])
      ensures if old(board[adj] == opp && Libs(dy, board[..], Chain(dy, board[..], adj)) == {})
        then n == |old(Chain(dy, board[..], adj))| > 0 && board[..] == old(Clear(board[..], Chain(dy, board[..], adj)))
        else n == 0 && board[..] == old(board[..])
    {
      n := 0;
      if board[adj] == opp {
        CountsExact(dy, Snap(), adj);
        ClassIsChain(dy, Snap(), adj);
        if groupLibertyCount[groupHead[adj]] == 0 {
          n := groupStoneCount[groupHead[adj]];
          RemoveUnsafe(adj);
        }
      }
    }

    /** Remove the chain of the new stone if it has no liberty. */
    method ResolveSuicide(pla: int, loc: int, ghost b: seq<int>)
      requires StoreValid() && Maximal(dy, board[..], groupHead[..])
      requires Position(dy, b) && Stone(pla) && 0 <= loc < |b|
      requires b[loc] == EMPTY && board[..] == AfterCaptures(dy, b, pla, loc)
      modifies `rings, board, groupHead, groupStoneCount, groupLibertyCount, groupNext, groupPrev
      ensures Valid() && board[..] == Move(dy, b, pla, loc)
    {
      SuicideTest(dy, b, pla, loc);
      MoveIsPosition(dy, b, pla, loc);
      CountsExact(dy, Snap(), loc);
      ClassIsChain(dy, Snap(), loc);
      if groupLibertyCount[groupHead[loc]] == 0 {
        RemoveUnsafe(loc);
      }
    }

    /** Place, merge, capture, and resolve suicide. */
    method PlayStone(pla: int, loc: int) returns (captured: int, capLoc: int)
      requires Valid() && Stone(pla) && 0 <= loc < arrSize && board[loc] == EMPTY
      modifies `rings, board, groupHead, groupStoneCount, groupLibertyCount, groupNext, groupPrev
      ensures Valid()
      ensures board[..] == Move(dy, old(board[..]), pla, loc)
      ensures captured == |Captured(dy, old(board[..]), pla, loc)|
      ensures captured > 0 ==> capLoc in Captured(dy, old(board[..]), pla, loc)
    {
      ghost var b := board[..];
      PlaceMaximalBut(dy, board[..], groupHead[..], loc, pla);
      PlaceStone(pla, loc);
      MergeAround(loc);
      captured, capLoc := CaptureAround(pla, loc, b);
      ResolveSuicide(pla, loc, b);
    }

    /** Add a stone on an empty point, and note the ko point it leaves. */
    method AddUnsafe(pla: int, loc: int)
      requires Valid() && Stone(pla) && 0 <= loc < arrSize && board[loc] == EMPTY
      modifies `rings, `simpleKoPoint, board, groupHead, groupStoneCount, groupLibertyCount, groupNext, groupPrev
      ensures Valid() && State() == Step(dy, old(State()), pla, loc)
    {
      NbrsInRange(dy, board[..], loc);
      var captured, capLoc := PlayStone(pla, loc);
      var ko := KoAfter(pla, loc, captured, capLoc, old(board[..]));
      simpleKoPoint := ko;
    }

    /** The ko point, when captured stones went and capLoc was the last to be looked at. */
    method KoAfter(pla: int, loc: int, captured: int, capLoc: int, ghost b: seq<int>) returns (ko: Option<int>)
      requires Valid() && Stone(pla) && 0 <= loc < |b| && b[loc] == EMPTY && board[..] == Move(dy, b, pla, loc)
      requires captured == |Captured(dy, b, pla, loc)| && (captured > 0 ==> capLoc in Captured(dy, b, pla, loc))
      ensures ko == KoPoint(dy, b, pla, loc)
    {
      KoPointIs(dy, b, pla, loc, capLoc);
      MoveKeepsOrClears(dy, b, pla, loc);
      ko := None;
      var h := groupHead[loc];
      if board[loc] == pla {
        CountsExact(dy, Snap(), loc);
      } else {
        assert 0 !in rings;
      }
      if captured == 1 && groupStoneCount[h] == 1 && groupLibertyCount[h] == 1 {
        ko := Some(capLoc);
      }
    }

    method NumLiberties(loc: int) returns (n: int)
      requires Valid() && 0 <= loc < arrSize
      ensures n == if Stone(board[loc]) then LibCount(dy, board[..], loc) else 0
    {
      if board[loc] == EMPTY || board[loc] == WALL {
        return 0;
      }
      CountsExact(dy, Snap(), loc);
      n := groupLibertyCount[groupHead[loc]];
    }

    predicate IsOnBoard(loc: int)
      reads board
      requires board.Length == arrSize
    {
      0 <= loc < arrSize && board[loc] != WALL
    }

    /** Is adj empty, or a stone pla could capture at once? */
    method IsEmptyOrAtari(pla: int, adj: int) returns (r: bool)
      requires Valid() && Stone(pla) && 0 <= adj < arrSize
      ensures r <==> GivesLiberty(dy, board[..], pla, adj)
    {
      if board[adj] == EMPTY {
        return true;
      }
      if board[adj] != Opp(pla) {
        return false;
      }
      CountsExact(dy, Snap(), adj);
      return groupLibertyCount[groupHead[adj]] == 1;
    }

    method GetsLiberty(pla: int, loc: int) returns (r: bool)
      requires Valid() && Stone(pla) && 0 <= loc < arrSize && board[loc] == EMPTY
      ensures r <==> !NoneGives(dy, board[..], pla, loc, 4)
    {
      NbrsInRange(dy, board[..], loc);
      r := false;
      for i := 0 to 4
        invariant r <==> !NoneGives(dy, board[..], pla, loc, i)
      {
        NoneStep(dy, board[..], pla, loc, i);
        var gives := IsEmptyOrAtari(pla, Nbr(dy, loc, i));
        r := r || gives;
      }
    }

    method IsStrongAlly(pla: int, adj: int) returns (r: bool)
      requires Valid() && Stone(pla) && 0 <= adj < arrSize
      ensures r <==> StrongAlly(dy, board[..], pla, adj)
    {
      if board[adj] != pla {
        return false;
      }
      CountsExact(dy, Snap(), adj);
      return groupLibertyCount[groupHead[adj]] > 1;
    }

    method HasStrongAlly(pla: int, loc: int) returns (r: bool)
      requires Valid() && Stone(pla) && 0 <= loc < arrSize && board[loc] == EMPTY
      ensures r <==> !NoneStrong(dy, board[..], pla, loc, 4)
    {
      NbrsInRange(dy, board[..], loc);
      r := false;
      for i := 0 to 4
        invariant r <==> !NoneStrong(dy, board[..], pla, loc, i)
      {
        NoneStep(dy, board[..], pla, loc, i);
        var strong := IsStrongAlly(pla, Nbr(dy, loc, i));
        r := r || strong;
      }
    }

    method HasAlly(pla: int, loc: int) returns (r: bool)
      requires Valid() && Stone(pla) && 0 <= loc < arrSize && board[loc] == EMPTY
      ensures r <==> !NoneAllied(dy, board[..], pla, loc, 4)
    {
      NbrsInRange(dy, board[..], loc);
      r := false;
      for i := 0 to 4
        invariant r <==> !NoneAllied(dy, board[..], pla, loc, i)
      {
        NoneStep(dy, board[..], pla, loc, i);
        r := r || board[Nbr(dy, loc, i)] == pla;
      }
    }

    /** Would the new stone be gone after the move? */
    method WouldBeSuicide(pla: int, loc: int) returns (r: bool)
      requires Valid() && Stone(pla) && 0 <= loc < arrSize && board[loc] == EMPTY
      ensures r <==> Suicide(dy, board[..], pla, loc)
    {
      SuicideByNbrs(dy, board[..], pla, loc);
      var gets := GetsLiberty(pla, loc);
      if gets {
        return false;
      }
      var strong := HasStrongAlly(pla, loc);
      return !strong;
    }

    /** Would the move only remove the one stone it places? */
    method WouldBeSingleStoneSuicide(pla: int, loc: int) returns (r: bool)
      requires Valid() && Stone(pla) && 0 <= loc < arrSize && board[loc] == EMPTY
      ensures r <==> SingleStoneSuicide(dy, board[..], pla, loc)
    {
      SuicideByNbrs(dy, board[..], pla, loc);
      var gets := GetsLiberty(pla, loc);
      if gets {
        return false;
      }
      var ally := HasAlly(pla, loc);
      return !ally;
    }

    method WouldBeLegal(pla: int, loc: int) returns (r: bool)
      requires Valid()
      ensures r <==> Legal(dy, board[..], simpleKoPoint, pla, loc)
    {
      if pla != BLACK && pla != WHITE {
        return false;
      }
      if loc == PASS {
        return true;
      }
      if !IsOnBoard(loc) {
        return false;
      }
      if board[loc] != EMPTY {
        return false;
      }
      var suicide := WouldBeSingleStoneSuicide(pla, loc);
      if suicide {
        return false;
      }
      return simpleKoPoint != Some(loc);
    }

    lemma CapturedByHead(pla: int, loc: int, hs: seq<int>, p: int)
      requires Valid() && Stone(pla) && 0 <= loc < arrSize && board[loc] == EMPTY
      requires CapturedHeads(dy, board[..], groupHead[..], pla, loc, hs, 4)
      requires 0 <= p < arrSize && board[p] == Opp(pla)
      ensures groupHead[p] in hs <==> p in Captured(dy, board[..], pla, loc)
    {
      var b := board[..];
      ClassIsChain(dy, Snap(), p);
      if groupHead[p] in hs {
        var q :| q in Captured(dy, b, pla, loc) && 0 <= q < |b| && groupHead[q] == groupHead[p];
        ClassIsChain(dy, Snap(), q);
        CapturedChain(dy, b, pla, loc, q, p);
      }
      if p in Captured(dy, b, pla, loc) {
        var j := CapturedNbr(dy, b, pla, loc, p);
      }
    }

    method WouldBeEmpty(pla: int, p: int, capturedGroupHeads: seq<int>, ghost loc: int) returns (r: bool)
      requires Valid() && Stone(pla) && 0 <= loc < arrSize && board[loc] == EMPTY
      requires CapturedHeads(dy, board[..], groupHead[..], pla, loc, capturedGroupHeads, 4) && 0 <= p < arrSize
      ensures r <==> board[p] == EMPTY || p in Captured(dy, board[..], pla, loc)
    {
      if board[p] == EMPTY {
        return true;
      } else if board[p] == Opp(pla) {
        CapturedByHead(pla, loc, capturedGroupHeads, p);
        return groupHead[p] in capturedGroupHeads;
      }
      return false;
    }

    /** Collect the points next to loc that are empty or about to be captured, noting captured chains. */
    method ScanMove(pla: int, loc: int, maxLibs: int) returns (libs: seq<int>, full: bool, capturedGroupHeads: seq<int>)
      requires Valid() && Stone(pla) && 0 <= loc < arrSize && board[loc] == EMPTY
      ensures full ==> Reached(libs, NextLibs(dy, board[..], pla, loc), maxLibs)
      ensures !full ==> Collecting(libs, NextLibs(dy, board[..], pla, loc), maxLibs)
      ensures !full ==> Covered(dy, board[..], pla, loc, {loc}, libs)
      ensures !full ==> CapturedHeads(dy, board[..], groupHead[..], pla, loc, capturedGroupHeads, 4)
    {
      ghost var b := board[..];
      libs, full, capturedGroupHeads := [], false, [];
      NbrsInRange(dy, b, loc);
      for i := 0 to 4
        invariant Collecting(libs, NextLibs(dy, b, pla, loc), maxLibs)
        invariant CoveredNbrs(dy, b, pla, loc, loc, i, libs)
        invariant CapturedHeads(dy, b, groupHead[..], pla, loc, capturedGroupHeads, i)
        invariant !full
      {
        var adj := Nbr(dy, loc, i);
        NbrAdj(dy, loc, i);
        var heads;
        ghost var libs0 := libs;
        libs, full, heads := ScanNbr(pla, loc, adj, maxLibs, libs, capturedGroupHeads);
        if full {
          return;
        }
        CoveredStep(dy, b, pla, loc, loc, i, libs0, libs);
        CapturedHeadsStep(dy, b, groupHead[..], pla, loc, capturedGroupHeads, i, heads);
        capturedGroupHeads := heads;
      }
      CoveredAlone(dy, b, pla, loc, libs);
    }

    method ScanNbr(pla: int, loc: int, adj: int, maxLibs: int, libs0: seq<int>, heads0: seq<int>)
      returns (libs: seq<int>, full: bool, heads: seq<int>)
      requires Valid() && Stone(pla) && 0 <= loc < arrSize && board[loc] == EMPTY
      requires Adj(dy, loc, adj) && Adj(dy, adj, loc) && 0 <= adj < arrSize && adj != loc
      requires Collecting(libs0, NextLibs(dy, board[..], pla, loc), maxLibs)
      ensures full ==> Reached(libs, NextLibs(dy, board[..], pla, loc), maxLibs)
      ensures !full ==> Collecting(libs, NextLibs(dy, board[..], pla, loc), maxLibs) && libs0 <= libs
      ensures !full && Freed(dy, board[..], pla, loc, adj) ==> adj in libs
      ensures full || heads ==
        if adj in Captured(dy, board[..], pla, loc) && groupHead[adj] !in heads0 then heads0 + [groupHead[adj]] else heads0
    {
      ghost var X := NextLibs(dy, board[..], pla, loc);
      libs, full, heads := libs0, false, heads0;
      NextLibsIff(dy, board[..], pla, loc, adj);
      if board[adj] == Opp(pla) {
        AtariCaptured(dy, board[..], pla, loc, adj);
      }
      var n := NumLiberties(adj);
      if board[adj] == EMPTY {
        libs, full := Collect(libs0, adj, maxLibs, X);
      } else if board[adj] == Opp(pla) && n == 1 {
        libs, full := Collect(libs0, adj, maxLibs, X);
        if groupHead[adj] !in heads0 {
          heads := heads0 + [groupHead[adj]];
        }
      }
    }

    /** Collect the freed points next to one stone of an allied chain. */
    method ScanStone(pla: int, loc: int, cur: int, maxLibs: int, heads: seq<int>, libs0: seq<int>)
      returns (libs: seq<int>, full: bool)
      requires Valid() && Stone(pla) && 0 <= loc < arrSize && board[loc] == EMPTY
      requires CapturedHeads(dy, board[..], groupHead[..], pla, loc, heads, 4)
      requires 0 <= cur < arrSize && board[cur] == pla && cur in Allies(dy, board[..], pla, loc)
      requires Collecting(libs0, NextLibs(dy, board[..], pla, loc), maxLibs)
      ensures full ==> Reached(libs, NextLibs(dy, board[..], pla, loc), maxLibs)
      ensures !full ==> Collecting(libs, NextLibs(dy, board[..], pla, loc), maxLibs) && libs0 <= libs
      ensures !full ==> CoveredNbrs(dy, board[..], pla, loc, cur, 4, libs)
    {
      ghost var b, X := board[..], NextLibs(dy, board[..], pla, loc);
      libs, full := libs0, false;
      for k := 0 to 4
        invariant !full && Collecting(libs, X, maxLibs) && libs0 <= libs
        invariant CoveredNbrs(dy, b, pla, loc, cur, k, libs)
      {
        ghost var before := libs;
        NbrsInRange(dy, b, cur);
        NbrAdj(dy, cur, k);
        libs, full := ScanPoint(pla, loc, cur, Nbr(dy, cur, k), maxLibs, heads, libs);
        if full {
          return;
        }
        CoveredStep(dy, b, pla, loc, cur, k, before, libs);
      }
    }

    method ScanPoint(pla: int, loc: int, ghost cur: int, e: int, maxLibs: int, heads: seq<int>, libs0: seq<int>)
      returns (libs: seq<int>, full: bool)
      requires Valid() && Stone(pla) && 0 <= loc < arrSize && board[loc] == EMPTY
      requires CapturedHeads(dy, board[..], groupHead[..], pla, loc, heads, 4)
      requires cur in Allies(dy, board[..], pla, loc) && Adj(dy, e, cur) && 0 <= e < arrSize
      requires Collecting(libs0, NextLibs(dy, board[..], pla, loc), maxLibs)
      ensures full ==> Reached(libs, NextLibs(dy, board[..], pla, loc), maxLibs)
      ensures !full ==> Collecting(libs, NextLibs(dy, board[..], pla, loc), maxLibs) && libs0 <= libs
      ensures !full && Freed(dy, board[..], pla, loc, e) ==> e in libs
    {
      libs, full := libs0, false;
      var empty := WouldBeEmpty(pla, e, heads, loc);
      if e != loc && empty {
        NextLibsIff(dy, board[..], pla, loc, e);
        AdjTouches(dy, e, cur, Allies(dy, board[..], pla, loc));
        libs, full := Collect(libs0, e, maxLibs, NextLibs(dy, board[..], pla, loc));
      }
    }

    lemma AllyStone(pla: int, loc: int, adj: int, cur: int)
      requires Valid() && Stone(pla) && 0 <= loc < arrSize && board[loc] == EMPTY
      requires 0 <= adj < arrSize && board[adj] == pla && Adj(dy, loc, adj)
      requires cur in Class(groupHead[..], groupHead[adj])
      ensures 0 <= cur < arrSize && board[cur] == pla && cur in Allies(dy, board[..], pla, loc)
    {
      ClassIsChain(dy, Snap(), adj);
      ChainBasics(dy, board[..], adj);
    }

    /** Walk the ring of the allied chain at adj. */
    method ScanRing(pla: int, loc: int, adj: int, maxLibs: int, heads: seq<int>, libs0: seq<int>)
      returns (libs: seq<int>, full: bool)
      requires Valid() && Stone(pla) && 0 <= loc < arrSize && board[loc] == EMPTY
      requires CapturedHeads(dy, board[..], groupHead[..], pla, loc, heads, 4)
      requires 0 <= adj < arrSize && board[adj] == pla && Adj(dy, loc, adj)
      requires Collecting(libs0, NextLibs(dy, board[..], pla, loc), maxLibs)
      ensures full ==> Reached(libs, NextLibs(dy, board[..], pla, loc), maxLibs)
      ensures !full ==> Collecting(libs, NextLibs(dy, board[..], pla, loc), maxLibs) && libs0 <= libs
      ensures !full ==> Covered(dy, board[..], pla, loc, Class(groupHead[..], groupHead[adj]), libs)
    {
      ghost var b, X, r := board[..], NextLibs(dy, board[..], pla, loc), RingFrom(Snap(), adj);
      ghost var k := 0;
      libs, full := libs0, false;
      var cur := adj;
      CoveredNone(dy, b, pla, loc, r, libs);
      RingNonempty(Snap(), r, groupHead[adj]);
      hide Covered, Collecting, Reached, CapturedHeads, NextLibs, Ring, Maximal, AllBreathe, LibsOk, LinkedOk, RingsOk, Class, Elems;
      while true
        invariant 0 <= k < |r| && cur == r[k]
        invariant !full && Collecting(libs, X, maxLibs) && libs0 <= libs && Covered(dy, b, pla, loc, Elems(r[..k]), libs)
        decreases |r| - k
      {
        WalkStep(Snap(), r, groupHead[adj], k);
        libs, full := ScanNext(pla, loc, adj, cur, maxLibs, heads, libs, Elems(r[..k]));
        cur := groupNext[cur];
        k := k + 1;
        if full || cur == adj {
          break;
        }
      }
    }

    method ScanNext(pla: int, loc: int, ghost adj: int, cur: int, maxLibs: int, heads: seq<int>, libs0: seq<int>,
            ghost S: set<int>)
      returns (libs: seq<int>, full: bool)
      requires Valid() && Stone(pla) && 0 <= loc < arrSize && board[loc] == EMPTY
      requires CapturedHeads(dy, board[..], groupHead[..], pla, loc, heads, 4)
      requires 0 <= adj < arrSize && board[adj] == pla && Adj(dy, loc, adj) && cur in Class(groupHead[..], groupHead[adj])
      requires Collecting(libs0, NextLibs(dy, board[..], pla, loc), maxLibs) && Covered(dy, board[..], pla, loc, S, libs0)
      ensures full ==> Reached(libs, NextLibs(dy, board[..], pla, loc), maxLibs)
      ensures !full ==> Collecting(libs, NextLibs(dy, board[..], pla, loc), maxLibs) && libs0 <= libs
      ensures !full ==> Covered(dy, board[..], pla, loc, S + {cur}, libs)
    {
      AllyStone(pla, loc, adj, cur);
      libs, full := ScanStone(pla, loc, cur, maxLibs, heads, libs0);
      if !full {
        CoveredMore(dy, board[..], pla, loc, S, libs0, libs);
        CoveredPoint(dy, board[..], pla, loc, S, cur, libs);
      }
    }

    /** How many liberties a new stone's chain would have, counted up to maxLibs. */
    method GetLibertiesAfterPlay(pla: int, loc: int, maxLibs: int) returns (n: int)
      requires Valid() && Stone(pla) && 0 <= loc < arrSize && board[loc] == EMPTY
      ensures var k := |NextLibs(dy, board[..], pla, loc)|; n == if k == 0 || k <= maxLibs then k else maxLibs
    {
      ghost var X := NextLibs(dy, board[..], pla, loc);
      var libs, full, capturedGroupHeads := ScanMove(pla, loc, maxLibs);
      if full {
        ReachedCount(libs, X, maxLibs);
        return maxLibs;
      }
      libs, full := ScanAllies(pla, loc, maxLibs, capturedGroupHeads, libs);
      if full {
        ReachedCount(libs, X, maxLibs);
        return maxLibs;
      }
      CollectedCount(libs, X, maxLibs);
      return |libs|;
    }

    method ScanAllies(pla: int, loc: int, maxLibs: int, heads: seq<int>, libs0: seq<int>) returns (libs: seq<int>,
            full: bool)
      requires Valid() && Stone(pla) && 0 <= loc < arrSize && board[loc] == EMPTY
      requires CapturedHeads(dy, board[..], groupHead[..], pla, loc, heads, 4)
      requires Collecting(libs0, NextLibs(dy, board[..], pla, loc), maxLibs)
      requires Covered(dy, board[..], pla, loc, {loc}, libs0)
      ensures full ==> Reached(libs, NextLibs(dy, board[..], pla, loc), maxLibs)
      ensures !full ==> Collecting(libs, NextLibs(dy, board[..], pla, loc), maxLibs)
      ensures !full ==> forall e :: e in NextLibs(dy, board[..], pla, loc) ==> e in libs
    {
      libs, full := libs0, false;
      var connectingGroupHeads: seq<int> := [];
      for i := 0 to 4
        invariant !full && Collecting(libs, NextLibs(dy, board[..], pla, loc), maxLibs) && libs0 <= libs
        invariant Scanned(dy, board[..], groupHead[..], pla, loc, connectingGroupHeads, libs, i)
      {
        NbrsInRange(dy, board[..], loc);
        NbrAdj(dy, loc, i);
        var adj := Nbr(dy, loc, i);
        if board[adj] == pla && groupHead[adj] !in connectingGroupHeads {
          ghost var before := libs;
          libs, full := ScanRing(pla, loc, adj, maxLibs, heads, libs);
          if full {
            return;
          }
          ScannedMore(dy, board[..], groupHead[..], pla, loc, connectingGroupHeads, before, i, libs);
          connectingGroupHeads := connectingGroupHeads + [groupHead[adj]];
        } else {
          ScannedSkip(dy, board[..], groupHead[..], pla, loc, connectingGroupHeads, libs, i);
        }
      }
      CoveredMore(dy, board[..], pla, loc, {loc}, libs0, libs);
      ScannedAll(dy, Snap(), pla, loc, connectingGroupHeads, libs);
    }

    /** All stones of the chain at loc, in ring order. */
    method ChainStones(loc: int) returns (stones: seq<int>)
      requires Valid() && 0 <= loc < arrSize && Stone(board[loc])
      ensures Distinct(stones) && Elems(stones) == Class(groupHead[..], groupHead[loc])
    {
      ghost var r := RingFrom(Snap(), loc);
      stones := [];
      var cur := loc;
      ghost var k := 0;
      while true
        invariant 0 <= k < |r| && cur == r[k] && stones == r[..k]
        decreases |r| - k
      {
        WalkStep(Snap(), r, groupHead[loc], k);
        Snoc(r, k);
        stones := stones + [cur];
        k := k + 1;
        cur := groupNext[cur];
        if cur == loc {
          break;
        }
      }
    }

    /** Remove one stone: take its whole chain off and add the other stones back one by one. */
    method RemoveSingleStoneUnsafe(rloc: int)
      requires Valid() && 0 <= rloc < arrSize && Stone(board[rloc])
      modifies `rings, `simpleKoPoint, board, groupHead, groupStoneCount, groupLibertyCount, groupNext, groupPrev
      ensures Valid()
      ensures board[..] == old(board[..])[rloc := EMPTY]
      ensures simpleKoPoint == if Chain(dy, old(board[..]), rloc) == {rloc} then old(simpleKoPoint) else None
    {
      hide Valid, StoreValid, Maximal, AllBreathe, Position, Chain, Class;
      WholeChain(rloc);
      ghost var b, X := board[..], Chain(dy, board[..], rloc);
      var color := board[rloc];
      var stones := ChainStones(rloc);
      RemoveUnsafe(rloc);
      PartialChainBreathes(dy, b, rloc, X);
      ValidAgain();
      TailEnds(stones, rloc, b);
      for i := 0 to |stones|
        invariant Valid() && board[..] == Clear(b, Elems(stones[i..]) + {rloc})
        invariant simpleKoPoint == if Elems(stones[..i]) <= {rloc} then old(simpleKoPoint) else None
      {
        TailStep(stones, i, rloc);
        if stones[i] != rloc {
          AddBack(color, stones[i], rloc, b, Elems(stones[i..]) + {rloc});
        }
      }
    }

    lemma WholeChain(loc: int)
      requires Valid() && 0 <= loc < arrSize && Stone(board[loc])
      ensures Shape() && StoreValid() && Maximal(dy, board[..], groupHead[..]) && Position(dy, board[..])
      ensures Class(groupHead[..], groupHead[loc]) == Chain(dy, board[..], loc) && loc in Chain(dy, board[..], loc)
    {
      ClassIsChain(dy, Snap(), loc);
      ChainBasics(dy, board[..], loc);
    }

    lemma ValidAgain()
      requires StoreValid() && Maximal(dy, board[..], groupHead[..]) && Position(dy, board[..])
      ensures Valid()
    {
      hide StoreOk, Maximal;
    }

    /** Add back one stone of the chain of rloc in position b, of which the points Z are still out. */
    method AddBack(color: int, p: int, ghost rloc: int, ghost b: seq<int>, ghost Z: set<int>)
      requires Valid() && Position(dy, b) && 0 <= rloc < |b| && Stone(b[rloc])
      requires Z <= Chain(dy, b, rloc) && rloc in Z && p in Z && p != rloc && color == b[rloc]
      requires board[..] == Clear(b, Z)
      modifies `rings, `simpleKoPoint, board, groupHead, groupStoneCount, groupLibertyCount, groupNext, groupPrev
      ensures Valid()
      ensures board[..] == Clear(b, Z - {p}) && simpleKoPoint == None
    {
      assert rloc in Z - {p};
      RefillStep(dy, b, rloc, Z, p);
      AddUnsafe(color, p);
    }

    ghost function State(): GoState
      reads `simpleKoPoint, board
    {
      GoState(board[..], simpleKoPoint)
    }

    method PlayUnsafe(pla: int, loc: int)
      requires Valid() && Stone(pla) && (loc == PASS || (0 <= loc < arrSize && board[loc] == EMPTY))
      modifies `rings, `simpleKoPoint, `pla, board, groupHead, groupStoneCount, groupLibertyCount, groupNext, groupPrev
      ensures Valid() && State() == Step(dy, old(State()), pla, loc) && this.pla == Opp(pla)
      ensures loc == PASS ==> board[..] == old(board[..]) && simpleKoPoint == None
      ensures loc != PASS ==> board[..] == Move(dy, old(board[..]), pla, loc)
      ensures loc != PASS ==> simpleKoPoint == KoPoint(dy, old(board[..]), pla, loc)
    {
      hide StoreOk, Maximal, AllBreathe, Walled, Move, KoPoint;
      if loc == PASS {
        simpleKoPoint := None;
        this.pla := Opp(pla);
      } else {
        AddUnsafe(pla, loc);
        this.pla := Opp(pla);
      }
    }

    /** Play with legality checking; a refused move changes nothing. */
    method Play(pla: int, loc: int) returns (r: Outcome)
      requires Valid()
      modifies `rings, `simpleKoPoint, `pla, board, groupHead, groupStoneCount, groupLibertyCount, groupNext, groupPrev
      ensures Valid()
      ensures r.Done? <==> Legal(dy, old(board[..]), old(simpleKoPoint), pla, loc)
      ensures r.Done? ==> State() == Step(dy, old(State()), pla, loc) && this.pla == Opp(pla)
      ensures r.Done? && loc == PASS ==> board[..] == old(board[..]) && simpleKoPoint == None
      ensures r.Refused? ==> old(Snap()) == Snap() && old(State()) == State() && this.pla == old(this.pla)
      ensures r == Refused(InvalidPlayer) <==> !Stone(pla)
      ensures r == Refused(InvalidLocation) <==>
        Stone(pla) && loc != PASS && !(0 <= loc < arrSize && old(board[loc]) != WALL)
      ensures r == Refused(LocationNonempty) <==>
        Stone(pla) && loc != PASS && 0 <= loc < arrSize && old(board[loc]) != WALL && old(board[loc]) != EMPTY
      ensures r == Refused(SingleStoneSuicideMove) <==>
        Stone(pla) && 0 <= loc < arrSize && old(board[loc]) == EMPTY && Move(dy, old(board[..]), pla, loc) == old(board[..])
      ensures r == Refused(KoRecapture) <==>
        && Stone(pla) && 0 <= loc < arrSize && old(board[loc]) == EMPTY && Move(dy, old(board[..]), pla, loc) != old(board[..])
        && old(simpleKoPoint) == Some(loc)
    {
      hide StoreOk, AllBreathe, Move, KoPoint, SingleStoneSuicide;
      if pla != BLACK && pla != WHITE {
        return Refused(InvalidPlayer);
      }
      if loc != PASS {
        if !IsOnBoard(loc) {
          return Refused(InvalidLocation);
        }
        if board[loc] != EMPTY {
          return Refused(LocationNonempty);
        }
        ValidPosition();
        MoveChangesIff(dy, board[..], pla, loc);
        var suicide := WouldBeSingleStoneSuicide(pla, loc);
        if suicide {
          return Refused(SingleStoneSuicideMove);
        }
        if simpleKoPoint == Some(loc) {
          return Refused(KoRecapture);
        }
      }
      PlayUnsafe(pla, loc);
      return Done;
    }

    /** Set a point outright, and clear the ko point. A stone set on an empty point, or in place of an
        opposing stone, captures as a move does. */
    method SetStone(pla: int, loc: int) returns (r: Outcome)
      requires Valid()
      modifies `rings, `simpleKoPoint, board, groupHead, groupStoneCount, groupLibertyCount, groupNext, groupPrev
      ensures Valid()
      ensures r.Done? <==> (pla == EMPTY || Stone(pla)) && 0 <= loc < arrSize && old(board[loc]) != WALL
      ensures r.Refused? ==> old(Snap()) == Snap() && simpleKoPoint == old(simpleKoPoint)
      ensures r.Done? ==> simpleKoPoint == None
      ensures r.Refused? || board[..] ==
        if old(board[loc]) == pla then old(board[..])
        else if pla == EMPTY then old(board[..])[loc := EMPTY]
        else Move(dy, old(board[..])[loc := EMPTY], pla, loc)
    {
      if pla != EMPTY && pla != BLACK && pla != WHITE {
        return Refused(InvalidPlayer);
      }
      if !IsOnBoard(loc) {
        return Refused(InvalidLocation);
      }
      ghost var b := board[..];
      if board[loc] == pla {
      } else if board[loc] == EMPTY {
        assert b[loc := EMPTY] == b;
        AddUnsafe(pla, loc);
      } else if pla == EMPTY {
        RemoveSingleStoneUnsafe(loc);
      } else {
        RemoveSingleStoneUnsafe(loc);
        AddUnsafe(pla, loc);
      }
      simpleKoPoint := None;
      return Done;
    }

    /** Hand the point loc to the group of head, as its n-th stone, linked to the stone visited before. */
    method VisitPoint(head: int, tailTarget: int, loc: int)
      requires Shape() && 0 <= head < arrSize && 0 <= tailTarget < arrSize && 0 <= loc < arrSize
      modifies groupHead, groupStoneCount, groupNext, groupPrev
      ensures Visited(dy, old(Snap()), Snap(), head, loc, tailTarget, old(groupStoneCount[head]) + 1)
      ensures board[..] == old(board[..]) && groupLibertyCount[..] == old(groupLibertyCount[..])
    {
      groupHead[loc] := head;
      groupStoneCount[head] := groupStoneCount[head] + 1;
      groupNext[loc] := tailTarget;
      groupPrev[tailTarget] := loc;
    }

    /** Fill one point, eating the liberty from the opposing chains around it. */
    method FillPoint(head: int, tailTarget: int, loc: int, pla: int, ghost s: Store, ghost C: set<int>, ghost o: seq<int>)
      requires Shape() && Filling(dy, s, head, C, pla, o, Snap()) && loc in C && loc !in o && (o == [] ==> loc == head)
      requires tailTarget == Tail(o, head)
      modifies board, groupHead, groupStoneCount, groupLibertyCount, groupNext, groupPrev
      ensures Filling(dy, s, head, C, pla, o + [loc], Snap())
    {
      ghost var t := Snap();
      FillReady(dy, s, head, C, pla, o, t, loc);
      board[loc] := pla;
      VisitPoint(head, tailTarget, loc);
      ChangeSurroundingLiberties(loc, {Opp(pla)}, -1);
      FillStep(dy, s, head, C, pla, o, t, Snap(), loc);
    }

    /** What the fill finds next to a point just visited. */
    lemma FillFacts(head: int, pla: int, s: Store, C: set<int>, o: seq<int>, loc: int, i: int)
      requires Shape() && Filling(dy, s, head, C, pla, o, Snap()) && loc in C && 0 <= i < 4
      ensures var adj := Nbr(dy, loc, i);
        0 < adj < board.Length && (board[adj] == EMPTY <==> adj in C && adj !in o)
      ensures |o| <= |C| && Distinct(o)
    {
      hide StoreOk, Nbr;
      FillTest(dy, s, head, C, pla, o, Snap(), loc, i);
      VisitCount(C, o);
    }

    /** What the rebuild finds next to a stone just visited. */
    lemma RebuildFacts(head: int, pla: int, s: Store, P: set<int>, C: set<int>, o: seq<int>, loc: int, i: int)
      requires Shape() && Rebuilding(dy, s, P, head, C, pla, o, Snap()) && loc in C && 0 <= i < 4
      ensures var adj := Nbr(dy, loc, i);
        0 < adj < board.Length == groupHead.Length && (board[adj] == pla && groupHead[adj] != head <==> adj in C && adj !in o)
      ensures |o| <= |C| && Distinct(o)
    {
      hide StoreOk, Nbr;
      RebuildTest(dy, s, P, head, C, pla, o, Snap(), loc, i);
      VisitCount(C, o);
    }

    /** Fill the empty region C from loc on, depth first. The links made so far run along o. */
    method FloodFillStonesHelper(head: int, tailTarget: int, loc: int, pla: int, ghost s: Store, ghost C: set<int>,
            ghost o: seq<int>)
      returns (front: int, ghost o': seq<int>)
      requires Shape() && Filling(dy, s, head, C, pla, o, Snap()) && loc in C && loc !in o && (o == [] ==> loc == head)
      requires tailTarget == Tail(o, head)
      modifies board, groupHead, groupStoneCount, groupLibertyCount, groupNext, groupPrev
      ensures Filling(dy, s, head, C, pla, o', Snap()) && o + [loc] <= o' && front == Tail(o', head)
      ensures Settled(dy, C, o', |o|) && loc in o'
      decreases |C| - |o|
    {
      hide *;
      FillPoint(head, tailTarget, loc, pla, s, C, o);
      o' := o + [loc];
      front := loc;
      TailOf(o, loc, head);
      NoneSettled(dy, C, o');
      NbrsVisitedNone(dy, C, o', loc);
      for i := 0 to 4
        invariant Filling(dy, s, head, C, pla, o', Snap()) && o + [loc] <= o' && front == Tail(o', head)
        invariant Settled(dy, C, o', |o| + 1) && NbrsVisited(dy, C, o', loc, i)
      {
        var adj := Nbr(dy, loc, i);
        ghost var before := o';
        FillFacts(head, pla, s, C, o', loc, i);
        if board[adj] == EMPTY {
          front, o' := FloodFillStonesHelper(head, front, adj, pla, s, C, o');
          SettledMore(dy, C, before, o', |o| + 1);
        }
        NbrsVisitedStep(dy, C, before, o', loc, i);
      }
      assert o'[|o|] == loc;
      SettledRoot(dy, C, o', |o|);
    }

    /** Fill the empty region around loc with one chain of pla, assuming no stone of pla borders it. */
    method FloodFillStones(pla: int, loc: int, ghost C: set<int>)
      requires StoreValid() && FillSite(dy, Snap(), loc, C, pla)
      modifies `rings, board, groupHead, groupStoneCount, groupLibertyCount, groupNext, groupPrev
      ensures StoreValid() && Maximal(dy, board[..], groupHead[..])
      ensures board[..] == Relabel(old(board[..]), C, pla)
    {
      hide StoreValid, Filling, FillSite, StoreOk, Maximal, Settled, Relabel, Comp, Elems, Walled;
      ghost var s := Snap();
      FillBegins(pla, loc, C);
      groupLibertyCount[loc] := 0;
      groupStoneCount[loc] := 0;
      assert Snap() == s;
      var front; ghost var o;
      front, o := FloodFillStonesHelper(loc, loc, loc, pla, s, C, []);
      ghost var t := Snap();
      FillEnds(pla, loc, s, C, o, t);
      groupNext[loc] := front;
      groupPrev[front] := loc;
      rings := rings[loc := LineRing(o)];
      assert Snap() == t.(nxt := t.nxt[loc := front], prv := t.prv[front := loc], rings := t.rings[loc := LineRing(o)]);
      FillCloses(pla, loc, s, C, o, t);
    }

    lemma FillBegins(pla: int, loc: int, C: set<int>)
      requires StoreValid() && FillSite(dy, Snap(), loc, C, pla)
      ensures Shape() && 0 < loc < arrSize && groupLibertyCount[loc] == 0 && groupStoneCount[loc] == 0
      ensures Filling(dy, Snap(), loc, C, pla, [], Snap()) && loc in C && Walled(size, board[..])
    {
      hide Maximal, LinkedOk, Walled;
      FillStart(dy, Snap(), loc, C, pla);
      FillSiteFacts(dy, Snap(), loc, C, pla);
    }

    /** The walk has visited the whole region. */
    lemma FillEnds(pla: int, loc: int, s: Store, C: set<int>, o: seq<int>, t: Store)
      requires Filling(dy, s, loc, C, pla, o, t) && loc in o && Settled(dy, C, o, 0) && |s.cnt| == arrSize
      ensures o != [] && Elems(o) == C && 0 <= Tail(o, loc) < arrSize
    {
      hide StoreOk, Maximal, FillLibs, Settled, Comp;
      CompClosed(dy, Pts(s.b, EMPTY), loc);
      SettledAll(dy, Pts(s.b, EMPTY), loc, o);
    }

    /** Closing the ring completes the new chain. */
    lemma FillCloses(pla: int, loc: int, s: Store, C: set<int>, o: seq<int>, t: Store)
      requires Shape() && Filling(dy, s, loc, C, pla, o, t) && o != [] && Elems(o) == C && Walled(size, s.b)
      requires 0 <= loc < |t.nxt| && 0 <= Tail(o, loc) < |t.prv|
      requires Snap() == t.(nxt := t.nxt[loc := Tail(o, loc)], prv := t.prv[Tail(o, loc) := loc], rings := t.rings[loc := LineRing(o)])
      ensures StoreValid() && Maximal(dy, board[..], groupHead[..]) && board[..] == Relabel(s.b, C, pla)
    {
      assert Walled(size, Relabel(s.b, C, pla)) by {
        FillOnBoard(pla, loc, s, C);
      }
      hide StoreOk, Maximal, FillLibs, Settled, Comp, Walled, FillSite;
      FillDone(dy, s, loc, C, pla, o, t, Snap());
    }

    lemma FillOnBoard(pla: int, loc: int, s: Store, C: set<int>)
      requires Shape() && FillSite(dy, s, loc, C, pla) && Walled(size, s.b)
      ensures Walled(size, Relabel(s.b, C, pla))
    {
      FillSiteFacts(dy, s, loc, C, pla);
    }

    method RebuildPoint(head: int, tailTarget: int, loc: int, ghost pla: int, ghost s: Store, ghost P: set<int>,
            ghost C: set<int>, ghost o: seq<int>)
      requires Shape() && Rebuilding(dy, s, P, head, C, pla, o, Snap())
      requires loc in C && loc !in o && (o == [] ==> loc == head)
      requires tailTarget == Tail(o, head)
      modifies groupHead, groupStoneCount, groupLibertyCount, groupNext, groupPrev
      ensures Rebuilding(dy, s, P, head, C, pla, o + [loc], Snap())
    {
      hide Rebuilding, Visited, NewLibs, Class, Libs, Elems, Coloured;
      ghost var t := Snap();
      RebuildReady(dy, s, P, head, C, pla, o, t, loc);
      var gained := CountNewLiberties(head, loc);
      groupLibertyCount[head] := groupLibertyCount[head] + gained;
      assert Snap() == t.(lib := t.lib[head := t.lib[head] + gained]);
      VisitPoint(head, tailTarget, loc);
      RebuildStep(dy, s, P, head, C, pla, o, t, Snap(), loc, gained);
    }

    /** Walk the stones of chain C from loc on, depth first, giving them their head and counting liberties. */
    method RebuildChainHelper(head: int, tailTarget: int, loc: int, pla: int, ghost s: Store, ghost P: set<int>,
            ghost C: set<int>, ghost o: seq<int>)
      returns (front: int, ghost o': seq<int>)
      requires Shape() && Rebuilding(dy, s, P, head, C, pla, o, Snap())
      requires loc in C && loc !in o && (o == [] ==> loc == head)
      requires tailTarget == Tail(o, head)
      modifies groupHead, groupStoneCount, groupLibertyCount, groupNext, groupPrev
      ensures Rebuilding(dy, s, P, head, C, pla, o', Snap()) && o + [loc] <= o' && front == Tail(o', head)
      ensures Settled(dy, C, o', |o|) && loc in o'
      decreases |C| - |o|
    {
      hide *;
      RebuildPoint(head, tailTarget, loc, pla, s, P, C, o);
      o' := o + [loc];
      front := loc;
      TailOf(o, loc, head);
      NoneSettled(dy, C, o');
      NbrsVisitedNone(dy, C, o', loc);
      for i := 0 to 4
        invariant Rebuilding(dy, s, P, head, C, pla, o', Snap()) && o + [loc] <= o' && front == Tail(o', head)
        invariant Settled(dy, C, o', |o| + 1) && NbrsVisited(dy, C, o', loc, i)
      {
        var adj := Nbr(dy, loc, i);
        ghost var before := o';
        RebuildFacts(head, pla, s, P, C, o', loc, i);
        if board[adj] == pla && groupHead[adj] != head {
          front, o' := RebuildChainHelper(head, front, adj, pla, s, P, C, o');
          SettledMore(dy, C, before, o', |o| + 1);
        }
        NbrsVisitedStep(dy, C, before, o', loc, i);
      }
      assert o'[|o|] == loc;
      SettledRoot(dy, C, o', |o|);
    }

    /** Rebuild the pending chain of loc, with loc as its head. */
    method RebuildChain(pla: int, loc: int, ghost P: set<int>, ghost C: set<int>)
      requires Shape() && RebuildSite(dy, Snap(), P, loc, C, pla)
      modifies `rings, groupHead, groupStoneCount, groupLibertyCount, groupNext, groupPrev
      ensures Pending(dy, Snap(), P - C, pla)
    {
      ghost var s := Snap();
      RebuildStart(dy, s, P, loc, C, pla);
      groupLibertyCount[loc] := 0;
      groupStoneCount[loc] := 0;
      assert Rebuilding(dy, s, P, loc, C, pla, [], Snap());
      var front; ghost var o;
      front, o := RebuildChainHelper(loc, loc, loc, pla, s, P, C, []);
      SettledAll(dy, Pts(s.b, pla), loc, o);
      ghost var t := Snap();
      groupNext[loc] := front;
      groupPrev[front] := loc;
      rings := rings[loc := LineRing(o)];
      RebuildDone(dy, s, P, loc, C, pla, o, t, Snap());
    }

    /** The directions in which a move at loc captures. */
    method CaptureDirections(pla: int, loc: int) returns (capDirs: seq<int>)
      requires Valid() && Stone(pla) && (loc == PASS || (0 <= loc < arrSize && board[loc] == EMPTY))
      ensures if loc == PASS then capDirs == [] else CapDirs(dy, board[..], pla, loc, capDirs, 4)
    {
      capDirs := [];
      for i := 0 to 4
        invariant if loc == PASS then capDirs == [] else CapDirs(dy, board[..], pla, loc, capDirs, i)
      {
        var captures := CapturesToward(pla, loc, i);
        if loc != PASS {
          CapDirsStep(dy, board[..], pla, loc, capDirs, i);
        }
        if captures {
          capDirs := capDirs + [i];
        }
      }
    }

    method CapturesToward(pla: int, loc: int, i: int) returns (r: bool)
      requires Valid() && Stone(pla) && (loc == PASS || (0 <= loc < arrSize && board[loc] == EMPTY)) && 0 <= i < 4
      ensures r <==> loc != PASS && Nbr(dy, loc, i) in Captured(dy, board[..], pla, loc)
    {
      if loc == PASS {
        PassNbrs(size, board[..], i);
      } else {
        NbrsInRange(dy, board[..], loc);
        NbrAdj(dy, loc, i);
      }
      var adj := FromEnd(Nbr(dy, loc, i), arrSize);
      if board[adj] != Opp(pla) {
        return false;
      }
      CountsExact(dy, Snap(), adj);
      AtariCaptured(dy, board[..], pla, loc, adj);
      return groupLibertyCount[groupHead[adj]] == 1;
    }

    method PlayRecordedUnsafe(pla: int, loc: int) returns (rec: MoveRecord)
      requires Valid() && Stone(pla) && (loc == PASS || (0 <= loc < arrSize && board[loc] == EMPTY))
      modifies `rings, `simpleKoPoint, `pla, board, groupHead, groupStoneCount, groupLibertyCount, groupNext, groupPrev
      ensures Valid() && State() == Step(dy, old(State()), pla, loc) && this.pla == Opp(pla)
      ensures rec.pla == pla && rec.loc == loc && rec.simpleKoPoint == old(simpleKoPoint)
      ensures Records(dy, old(board[..]), rec)
    {
      var oldSimpleKoPoint := simpleKoPoint;
      var capDirs := CaptureDirections(pla, loc);
      PlayUnsafe(pla, loc);
      var selfCap := board[loc] == EMPTY;
      rec := MoveRecord(pla, loc, oldSimpleKoPoint, capDirs, selfCap);
    }

    /** Refill the captured chains of the recorded move on b. */
    method RefillCaptures(rec: MoveRecord, ghost b: seq<int>)
      requires Valid() && Position(dy, b) && Records(dy, b, rec) && rec.loc != PASS && !rec.selfCap
      requires board[..] == Move(dy, b, rec.pla, rec.loc)
      modifies `rings, board, groupHead, groupStoneCount, groupLibertyCount, groupNext, groupPrev
      ensures StoreValid() && Maximal(dy, board[..], groupHead[..]) && board[..] == b[rec.loc := rec.pla]
    {
      ghost var K := Captured(dy, b, rec.pla, rec.loc);
      UndoCases(dy, b, rec.pla, rec.loc);
      RefillBegin(dy, b, rec.pla, rec.loc, rec.capDirs);
      for i := 0 to |rec.capDirs|
        invariant StoreValid() && Maximal(dy, board[..], groupHead[..]) && board[..] == Clear(b[rec.loc := rec.pla], K)
        invariant Refilling(dy, b, rec.pla, rec.loc, K, rec.capDirs, i)
      {
        K := RefillToward(rec, i, b, K);
      }
      RefillDone(dy, b, rec.pla, rec.loc, K, rec.capDirs);
      ClearNone(b[rec.loc := rec.pla]);
    }

    method RefillToward(rec: MoveRecord, i: int, ghost b: seq<int>, ghost K: set<int>) returns (ghost K': set<int>)
      requires StoreValid() && Maximal(dy, board[..], groupHead[..])
      requires Position(dy, b) && Records(dy, b, rec) && rec.loc != PASS
      requires board[..] == Clear(b[rec.loc := rec.pla], K)
      requires 0 <= i < |rec.capDirs| && Refilling(dy, b, rec.pla, rec.loc, K, rec.capDirs, i)
      modifies `rings, board, groupHead, groupStoneCount, groupLibertyCount, groupNext, groupPrev
      ensures StoreValid() && Maximal(dy, board[..], groupHead[..]) && board[..] == Clear(b[rec.loc := rec.pla], K')
      ensures Refilling(dy, b, rec.pla, rec.loc, K', rec.capDirs, i + 1)
    {
      K' := K;
      assert rec.capDirs[i] in rec.capDirs;
      RefillTest(dy, b, rec.pla, rec.loc, K, rec.capDirs, i);
      var adj := Nbr(dy, rec.loc, rec.capDirs[i]);
      if board[adj] == EMPTY {
        ghost var C := Chain(dy, b[rec.loc := rec.pla], adj);
        DeadChainSite(dy, b[rec.loc := rec.pla], K, Snap(), adj, Opp(rec.pla));
        FloodFillStones(Opp(rec.pla), adj, C);
        K' := K - C;
      }
    }

    /** Refill the chain removed by a recorded suicide on b. */
    method RefillSuicide(rec: MoveRecord, ghost b: seq<int>)
      requires Valid() && Position(dy, b) && Records(dy, b, rec) && rec.loc != PASS && rec.selfCap
      requires board[..] == Move(dy, b, rec.pla, rec.loc)
      modifies `rings, board, groupHead, groupStoneCount, groupLibertyCount, groupNext, groupPrev
      ensures StoreValid() && Maximal(dy, board[..], groupHead[..]) && board[..] == b[rec.loc := rec.pla]
    {
      ghost var b1 := b[rec.loc := rec.pla];
      ghost var C := Chain(dy, b1, rec.loc);
      UndoCases(dy, b, rec.pla, rec.loc);
      ChainBasics(dy, b1, rec.loc);
      DeadChainSite(dy, b1, C, Snap(), rec.loc, rec.pla);
      assert C - C == {};
      ClearNone(b1);
      FloodFillStones(rec.pla, rec.loc, C);
    }

    /** Take every stone of the chain at loc out of its group. */
    method WipeHeads(loc: int, ghost s: Store)
      requires Shape() && HeadsOk(s.b, s.head) && RingsOk(s) && groupHead[..] == s.head && groupNext[..] == s.nxt
      requires 0 <= loc < arrSize && Stone(s.b[loc])
      modifies groupHead
      ensures groupHead[..] == Clear(s.head, Class(s.head, s.head[loc]))
    {
      ghost var r := RingFrom(s, loc);
      ghost var k := 0;
      var cur := loc;
      assert Elems(r[..0]) == {};
      ClearNone(s.head);
      while true
        invariant 0 <= k < |r| && cur == r[k] && groupHead[..] == Clear(s.head, Elems(r[..k]))
        decreases |r| - k
      {
        WalkStep(s, r, s.head[loc], k);
        ClearStep(s.head, Elems(r[..k]), cur);
        groupHead[cur] := PASS;
        cur := groupNext[cur];
        k := k + 1;
        if cur == loc {
          break;
        }
      }
    }

    /** Take the stone at loc off, give its liberty back to the opposing chains around it, and strip the
        rest of its chain of its head. */
    method DeleteStone(loc: int) returns (split: bool)
      requires StoreValid() && Maximal(dy, board[..], groupHead[..]) && 0 < loc < arrSize && Stone(board[loc])
      modifies `rings, board, groupHead, groupStoneCount, groupLibertyCount
      ensures board[..] == old(board[..])[loc := EMPTY]
      ensures Pending(dy, Snap().(head := groupHead[..][loc := 0]), old(Class(groupHead[..], groupHead[loc])) - {loc}, old(board[loc]))
      ensures split ==> groupHead[loc] == 0
      ensures !split ==> old(Class(groupHead[..], groupHead[loc])) == {loc}
    {
      ghost var s := Snap();
      var pla, head := board[loc], groupHead[loc];
      DeleteNbrs(dy, s, loc);
      assert head in s.rings;
      board[loc] := EMPTY;
      var stoneCount := groupStoneCount[head];
      groupStoneCount[head] := 0;
      groupLibertyCount[head] := 0;
      ChangeSurroundingLiberties(loc, {Opp(pla)}, 1);
      rings := rings - {head};
      split := stoneCount > 1;
      if split {
        WipeHeads(loc, s);
      }
      DeleteOutcome(dy, s, Snap(), loc, split);
    }

    /** Rebuild the chains that the deleted stone at loc had joined. */
    method RebuildAround(pla: int, loc: int, ghost P0: set<int>)
      requires Shape() && Pending(dy, Snap(), P0, pla) && 0 < loc < arrSize && board[loc] == EMPTY
      requires Rejoining(dy, board[..], pla, loc, P0, 0)
      modifies `rings, groupHead, groupStoneCount, groupLibertyCount, groupNext, groupPrev
      ensures Pending(dy, Snap(), {}, pla)
    {
      ghost var P := P0;
      for i := 0 to 4
        invariant Pending(dy, Snap(), P, pla) && Rejoining(dy, board[..], pla, loc, P, i)
      {
        var adj := Nbr(dy, loc, i);
        RejoinTest(dy, Snap(), pla, loc, P, i);
        RejoinStep(dy, board[..], pla, loc, P, i);
        if board[adj] == pla && groupHead[adj] == PASS {
          ghost var C := Chain(dy, board[..], adj);
          RebuildChain(pla, adj, P, C);
          P := P - C;
        }
      }
      RejoinDone(dy, board[..], pla, loc, P);
    }

    /** Take the move at loc on b back: delete its stone and rebuild the chains it had joined. */
    method Unplay(pla: int, loc: int, ghost b: seq<int>)
      requires StoreValid() && Maximal(dy, board[..], groupHead[..]) && Position(dy, b) && Stone(pla)
      requires 0 < loc < |b| && b[loc] == EMPTY && board[..] == b[loc := pla]
      modifies `rings, board, groupHead, groupStoneCount, groupLibertyCount, groupNext, groupPrev
      ensures Valid() && board[..] == b
    {
      DeleteAndRebuild(pla, loc, b);
      ClearLinks(loc, pla);
      NothingPending(dy, Snap(), pla);
    }

    method DeleteAndRebuild(pla: int, loc: int, ghost b: seq<int>)
      requires StoreValid() && Maximal(dy, board[..], groupHead[..]) && Position(dy, b) && Stone(pla)
      requires 0 < loc < |b| && b[loc] == EMPTY && board[..] == b[loc := pla]
      modifies `rings, board, groupHead, groupStoneCount, groupLibertyCount, groupNext, groupPrev
      ensures board[..] == b && Pending(dy, Snap().(head := groupHead[..][loc := 0]), {}, pla)
    {
      ghost var P := Allies(dy, b, pla, loc);
      ClassIsChain(dy, Snap(), loc);
      RejoinStart(dy, b, pla, loc);
      var split := DeleteStone(loc);
      assert board[..] == b;
      if split {
        assert groupHead[..][loc := 0] == groupHead[..];
        RebuildAround(pla, loc, P);
        HeadlessPoint(dy, Snap(), {}, pla, loc);
      } else {
        assert P == {};
      }
    }

    /** Reset the entries of the point loc. */
    method ClearLinks(loc: int, ghost pla: int)
      requires Shape() && 0 < loc < arrSize && board[loc] == EMPTY
      requires Pending(dy, Snap().(head := groupHead[..][loc := 0]), {}, pla)
      modifies groupHead, groupNext, groupPrev
      ensures Pending(dy, Snap(), {}, pla)
    {
      ghost var s := Snap().(head := groupHead[..][loc := 0]);
      groupHead[loc] := 0;
      groupNext[loc] := 0;
      groupPrev[loc] := 0;
      PendingLinks(dy, s, Snap(), {}, pla, loc);
    }

    /** Take back a recorded move: colours, ko point and the whole chain store are as before it. */
    method Undo(rec: MoveRecord, ghost b: seq<int>)
      requires Valid() && Position(dy, b) && Records(dy, b, rec)
      requires board[..] == if rec.loc == PASS then b else Move(dy, b, rec.pla, rec.loc)
      modifies `rings, `simpleKoPoint, `pla, board, groupHead, groupStoneCount, groupLibertyCount, groupNext, groupPrev
      ensures Valid() && State() == GoState(b, rec.simpleKoPoint) && pla == rec.pla
    {
      simpleKoPoint := rec.simpleKoPoint;
      pla := rec.pla;
      if rec.loc != PASS {
        UndoStones(rec, b);
      }
    }

    method UndoStones(rec: MoveRecord, ghost b: seq<int>)
      requires Valid() && Position(dy, b) && Records(dy, b, rec) && rec.loc != PASS
      requires board[..] == Move(dy, b, rec.pla, rec.loc)
      modifies `rings, board, groupHead, groupStoneCount, groupLibertyCount, groupNext, groupPrev
      ensures Valid() && board[..] == b
    {
      if rec.selfCap {
        RefillSuicide(rec, b);
      } else {
        RefillCaptures(rec, b);
      }
      Unplay(rec.pla, rec.loc, b);
    }

    /** Append the liberties of the chain at loc that are not in the buffer yet. */
    method FindLiberties(loc: int, buf0: seq<int>) returns (buf: seq<int>)
      requires Valid() && 0 <= loc < arrSize && Stone(board[loc])
      ensures Gathered(buf0, Libs(dy, board[..], Chain(dy, board[..], loc)), buf)
    {
      ghost var b, r := board[..], RingFrom(Snap(), loc);
      ghost var k := 0;
      buf := buf0;
      var cur := loc;
      ClassIsChain(dy, Snap(), loc);
      LibsOfNone(dy, b, r);
      while true
        invariant 0 <= k < |r| && cur == r[k] && Gathered(buf0, Libs(dy, b, Elems(r[..k])), buf)
        decreases |r| - k
      {
        WalkStep(Snap(), r, groupHead[loc], k);
        buf := FindLibertiesAt(cur, buf, buf0, Libs(dy, b, Elems(r[..k])));
        LibsByAll(dy, b, Elems(r[..k]), cur);
        cur := groupNext[cur];
        k := k + 1;
        if cur == loc {
          break;
        }
      }
    }

    method FindLibertiesAt(cur: int, buf1: seq<int>, ghost buf0: seq<int>, ghost S: set<int>) returns (buf: seq<int>)
      requires Valid() && 0 <= cur < arrSize && board[cur] != WALL && Gathered(buf0, S, buf1)
      ensures Gathered(buf0, S + LibsBy(dy, board[..], cur, 4), buf)
    {
      buf := buf1;
      NbrsInRange(dy, board[..], cur);
      assert LibsBy(dy, board[..], cur, 0) == {};
      for i := 0 to 4
        invariant Gathered(buf0, S + LibsBy(dy, board[..], cur, i), buf)
      {
        var lib := Nbr(dy, cur, i);
        LibsByStep(dy, board[..], cur, i);
        if board[lib] == EMPTY && lib !in buf {
          buf := buf + [lib];
        }
      }
    }

    /** Append the liberties of the opposing chains in atari around the chain at loc. */
    method FindLibertyGainingCaptures(loc: int, buf0: seq<int>) returns (buf: seq<int>)
      requires Valid() && 0 <= loc < arrSize && Stone(board[loc])
      ensures Gathered(buf0, CapturingMoves(dy, board[..], loc), buf)
    {
      ghost var b, r := board[..], RingFrom(Snap(), loc);
      ghost var k := 0;
      var opp := Opp(board[loc]);
      var chainHeadsChecked: seq<int> := [];
      buf := buf0;
      var cur := loc;
      ClassIsChain(dy, Snap(), loc);
      CapturesNone(dy, b, opp, r, loc);
      while true
        invariant 0 <= k < |r| && cur == r[k] && Gathered(buf0, CapturesNear(dy, b, opp, Elems(r[..k])), buf)
        invariant HeadsGathered(dy, b, groupHead[..], chainHeadsChecked, buf)
        decreases |r| - k
      {
        WalkStep(Snap(), r, groupHead[loc], k);
        buf, chainHeadsChecked := FindCapturesAt(cur, opp, chainHeadsChecked, buf, buf0, CapturesNear(dy, b, opp, Elems(r[..k])));
        CapturesNearStep(dy, b, opp, Elems(r[..k]), cur);
        cur := groupNext[cur];
        k := k + 1;
        if cur == loc {
          break;
        }
      }
    }

    method FindCapturesAt(cur: int, opp: int, heads0: seq<int>, buf1: seq<int>, ghost buf0: seq<int>, ghost S: set<int>)
      returns (buf: seq<int>, heads: seq<int>)
      requires Valid() && Stone(opp) && 0 <= cur < arrSize && board[cur] != WALL
      requires Gathered(buf0, S, buf1) && HeadsGathered(dy, board[..], groupHead[..], heads0, buf1)
      ensures Gathered(buf0, S + CapturesBy(dy, board[..], opp, cur, 4), buf)
      ensures HeadsGathered(dy, board[..], groupHead[..], heads, buf)
    {
      buf, heads := buf1, heads0;
      NbrsInRange(dy, board[..], cur);
      CapturesNone(dy, board[..], opp, [], cur);
      assert S + {} == S;
      for i := 0 to 4
        invariant Gathered(buf0, S + CapturesBy(dy, board[..], opp, cur, i), buf)
        invariant HeadsGathered(dy, board[..], groupHead[..], heads, buf)
      {
        buf, heads := FindCapturesToward(Nbr(dy, cur, i), opp, heads, buf, buf0, S + CapturesBy(dy, board[..], opp, cur, i));
        CapturesByStep(dy, board[..], opp, cur, i);
      }
    }

    method FindCapturesToward(adj: int, opp: int, heads0: seq<int>, buf1: seq<int>, ghost buf0: seq<int>,
            ghost S: set<int>)
      returns (buf: seq<int>, heads: seq<int>)
      requires Valid() && Stone(opp) && 0 <= adj < arrSize
      requires Gathered(buf0, S, buf1) && HeadsGathered(dy, board[..], groupHead[..], heads0, buf1)
      ensures Gathered(buf0, S + if InAtari(dy, board[..], opp, adj) then Libs(dy, board[..], Chain(dy, board[..], adj)) else {}, buf)
      ensures HeadsGathered(dy, board[..], groupHead[..], heads, buf)
    {
      buf, heads := buf1, heads0;
      if board[adj] == opp {
        var head := groupHead[adj];
        CountsExact(dy, Snap(), adj);
        if groupLibertyCount[head] == 1 {
          if head !in heads0 {
            buf := FindLiberties(adj, buf1);
            GatheredTwice(buf0, S, buf1, Libs(dy, board[..], Chain(dy, board[..], adj)), buf);
            HeadsGatheredMore(dy, Snap(), heads0, buf1, buf, adj);
            heads := heads0 + [head];
          } else {
            GatheredAgain(buf0, S, Libs(dy, board[..], Chain(dy, board[..], adj)), buf);
          }
        }
      }
    }

    /** Is the point not empty, surrounded by walls and opposing stones only, with just one side in atari, a
        single stone? On an empty point the answer is no. */
    method WouldBeKoCapture(loc: int, pla: int) returns (r: bool)
      requires Valid() && Stone(pla) && 0 <= loc < arrSize && board[loc] != WALL
      ensures r <==>
        board[loc] != EMPTY && HemmedIn(pla, loc, 4) && exists j :: 0 <= j < 4 && TakenBySingle(pla, loc, j)
    {
      hide Chain, Libs, Maximal, AllBreathe, Walled, RingsOk, LibsOk, LinkedOk;
      if board[loc] == EMPTY {
        return false;
      }
      NbrsInRange(dy, board[..], loc);
      var opp := Opp(pla);
      var oppCapturableLoc: Option<int> := None;
      ghost var at := 0;
      for i := 0 to 4
        invariant 0 <= at < 4
        invariant oppCapturableLoc.Some? ==> at < i && oppCapturableLoc == Some(Nbr(dy, loc, at)) && AtariAt(pla, loc, at)
        invariant HemmedIn(pla, loc, i)
        invariant forall j :: 0 <= j < i && AtariAt(pla, loc, j) ==> oppCapturableLoc.Some? && j == at
      {
        var adj := Nbr(dy, loc, i);
        if board[adj] != WALL && board[adj] != opp {
          return false;
        }
        var n := NumLiberties(adj);
        if board[adj] == opp && n == 1 {
          assert AtariAt(pla, loc, i);
          if oppCapturableLoc.Some? {
            return false;
          }
          oppCapturableLoc := Some(adj);
          at := i;
        }
      }
      if oppCapturableLoc.None? {
        return false;
      }
      CountsExact(dy, Snap(), oppCapturableLoc.value);
      r := groupStoneCount[groupHead[oppCapturableLoc.value]] == 1;
      assert r <==> TakenBySingle(pla, loc, at);
    }

    /** The first i neighbours of loc are walls or opposing stones. */
    ghost predicate HemmedIn(pla: int, loc: int, i: int)
      reads board
      requires board.Length == arrSize
    {
      forall j {:trigger Nbr(dy, loc, j)} :: 0 <= j < i ==>
        0 <= Nbr(dy, loc, j) < arrSize && (board[Nbr(dy, loc, j)] == WALL || board[Nbr(dy, loc, j)] == Opp(pla))
    }

    /** The i-th neighbour of loc is an opposing stone in atari. */
    ghost predicate AtariAt(pla: int, loc: int, i: int)
      reads board
      requires board.Length == arrSize
    {
      InAtari(dy, board[..], Opp(pla), Nbr(dy, loc, i))
    }

    /** The j-th neighbour is the only one in atari, and a single stone. */
    ghost predicate TakenBySingle(pla: int, loc: int, j: int)
      reads board
      requires board.Length == arrSize
    {
      && AtariAt(pla, loc, j) && |Chain(dy, board[..], Nbr(dy, loc, j))| == 1
      && forall i :: 0 <= i < 4 && AtariAt(pla, loc, i) ==> i == j
    }

    /** For each side of loc held by pla, how many liberties beyond one and a half its chain has. */
    method CountHeuristicConnectionLiberties(loc: int, pla: int) returns (count: real)
      requires Valid() && Stone(pla) && 0 <= loc < arrSize && board[loc] == EMPTY
      ensures count >= 0.0
    {
      NbrsInRange(dy, board[..], loc);
      count := 0.0;
      for i := 0 to 4
        invariant count >= 0.0
      {
        var adj := Nbr(dy, loc, i);
        if board[adj] == pla {
          var n := NumLiberties(adj);
          var beyond := n as real - 1.5;
          count := count + if beyond > 0.0 then beyond else 0.0;
        }
      }
    }

    predicate IsAdjacent(loc1: int, loc2: int)
    {
      loc1 == loc2 - dy || loc1 == loc2 - 1 || loc1 == loc2 + 1 || loc1 == loc2 + dy
    }

    /** The defender's moves at a level: captures around its chain first, then its liberties. */
    method OpenDefender(loc: int) returns (moves: seq<int>)
      requires Valid() && 0 <= loc < arrSize && Stone(board[loc]) && Decided(dy, State(), loc, true) == Unknown
      ensures Opened(dy, State(), loc, board[loc], true, moves) && Distinct(moves)
    {
      moves := FindLibertyGainingCaptures(loc, []);
      moves := FindLiberties(loc, moves);
      DefenderOpened(dy, State(), loc, moves);
    }

    /** The two liberties of a chain, in the order the walk finds them. */
    method FindTwoLiberties(loc: int) returns (move0: int, move1: int)
      requires Valid() && 0 <= loc < arrSize && Stone(board[loc]) && |Libs(dy, board[..], Chain(dy, board[..], loc))| == 2
      ensures Libs(dy, board[..], Chain(dy, board[..], loc)) == {move0, move1} && move0 != move1
      ensures 0 <= move0 < arrSize && 0 <= move1 < arrSize && board[move0] == board[move1] == EMPTY
    {
      var moves := FindLiberties(loc, []);
      ListedTwo(moves, Libs(dy, board[..], Chain(dy, board[..], loc)));
      move0, move1 := moves[0], moves[1];
      assert move0 in moves && move1 in moves;
    }

    /** The attacker's moves at a level. The list is empty when both escapes would gain the defender too much. */
    method OpenAttacker(loc: int) returns (moves: seq<int>)
      requires Valid() && 0 <= loc < arrSize && Stone(board[loc]) && Decided(dy, State(), loc, false) == Unknown
      ensures Opened(dy, State(), loc, board[loc], false, moves) && Distinct(moves)
    {
      DecidedTwo(dy, State(), loc);
      var move0, move1 := FindTwoLiberties(loc);
      var kept := PruneAttack(loc, move0, move1);
      moves := OrderMoves(kept, move0, move1, board[loc]);
      AttackerOpened(dy, State(), loc, move0, move1, moves);
    }

    /** When both moves are kept, put the more promising one first. */
    method OrderMoves(kept: seq<int>, move0: int, move1: int, pla: int) returns (moves: seq<int>)
      requires Valid() && Stone(pla) && 0 <= move0 < arrSize && 0 <= move1 < arrSize && move0 != move1
      requires board[move0] == board[move1] == EMPTY
      requires kept == [move0, move1] || kept == [move0] || kept == [move1] || kept == []
      ensures Distinct(moves) && forall m :: m in moves <==> m in kept
    {
      moves := kept;
      if |kept| > 1 {
        var swap := IsWorse(move0, move1, pla);
        if swap {
          moves := [move1, move0];
        }
      }
    }

    /** Leave out an attack that lets the defender reach three liberties at once. */
    method PruneAttack(loc: int, move0: int, move1: int) returns (moves: seq<int>)
      requires Valid() && 0 <= loc < arrSize && Stone(board[loc]) && 0 <= move0 < arrSize && 0 <= move1 < arrSize
      requires board[move0] == board[move1] == EMPTY && move0 != move1
      ensures moves == [move0, move1] || moves == [move0] || moves == [move1] || moves == []
      ensures forall m :: m in moves ==> m == move0 || m == move1
      ensures move0 in moves || (!Adj(dy, move0, move1) && |EmptyNbrs(dy, board[..], move1)| >= 3)
      ensures move1 in moves || (!Adj(dy, move1, move0) && |EmptyNbrs(dy, board[..], move0)| >= 3)
    {
      NbrsInRange(dy, board[..], move0);
      NbrsInRange(dy, board[..], move1);
      EmptyNbrsCount(dy, board[..], move0);
      EmptyNbrsCount(dy, board[..], move1);
      var libs0 := CountImmediateLiberties(move0);
      var libs1 := CountImmediateLiberties(move1);
      moves := [move0, move1];
      if !IsAdjacent(move0, move1) {
        if libs0 >= 3 && libs1 >= 3 {
          moves := [];
        } else if libs0 >= 3 {
          moves := [move0];
        } else if libs1 >= 3 {
          moves := [move1];
        }
      }
    }

    /** The ordering heuristic: should the second move be tried first? */
    method IsWorse(move0: int, move1: int, pla: int) returns (r: bool)
      requires Valid() && Stone(pla) && 0 <= move0 < arrSize
      requires 0 <= move1 < arrSize && board[move0] == board[move1] == EMPTY
    {
      NbrsInRange(dy, board[..], move0);
      NbrsInRange(dy, board[..], move1);
      var libs0 := CountImmediateLiberties(move0);
      var libs1 := CountImmediateLiberties(move1);
      var heuristic0 := CountHeuristicConnectionLiberties(move0, pla);
      var heuristic1 := CountHeuristicConnectionLiberties(move1, pla);
      r := libs1 as real + heuristic1 > libs0 as real + heuristic0;
    }

    /** The stored liberty count of the target, which is zero once it has been removed. */
    method TargetLibCount(loc: int) returns (n: int)
      requires Valid() && 0 <= loc < arrSize && (Stone(board[loc]) || board[loc] == EMPTY)
      ensures n == |TargetLibs(dy, board[..], loc)|
    {
      if board[loc] != EMPTY {
        CountsExact(dy, Snap(), loc);
      }
      n := groupLibertyCount[groupHead[loc]];
    }

    /** A level has just been entered: it is decided at once, or its moves are generated. */
    method EnterLevel(c: Context, i: int) returns (verdict: Option<bool>, moves: seq<int>)
      requires Valid() && c.dy == dy && TargetOk(c, State(), i)
      ensures verdict.Some? ==> Value(Ahead(c, i), dy, State(), c.loc, c.pla, IsDefender(c, i)) == Answer(verdict.value)
      ensures verdict.None? ==> Open(c, State(), Frame(moves, 0, None), i)
    {
      moves := [];
      var isDefender := IsDefender(c, i);
      var libs := TargetLibCount(c.loc);
      if Decided(dy, State(), c.loc, isDefender) != Unknown {
        DecidedValue(c, State(), i);
      }
      if !isDefender && libs <= 1 {
        return Some(true), moves;
      }
      if !isDefender && libs >= 3 {
        return Some(false), moves;
      }
      if isDefender && libs >= 2 {
        return Some(false), moves;
      }
      if isDefender && simpleKoPoint.Some? {
        return Some(false), moves;
      }
      verdict := None;
      if isDefender {
        moves := OpenDefender(c.loc);
      } else {
        moves := OpenAttacker(c.loc);
      }
    }

    function SearchLimit(): (k: nat)
      ensures size >= 0 ==> k == 2 * size * size
    {
      if size >= 0 && size * size >= 0 then size * size * 2 else 0
    }

    /** The search loop is between two rounds, at the last state of the path. */
    ghost predicate Searching(c: Context, frames: seq<Frame>, path: seq<GoState>, returnValue: bool, returned: bool)
      reads `rings, `simpleKoPoint, board, groupHead, groupStoneCount, groupLibertyCount, groupNext, groupPrev
    {
      && Valid() && c.dy == dy && c.depth == SearchLimit() + 2
      && |path| > 0 && State() == path[|path| - 1] && Running(c, frames, path, returnValue, returned)
    }

    /** The search from root ran into a line of play as long as the stack. */
    ghost predicate Overran(c: Context, root: GoState)
    {
      LongLine(SearchLimit(), dy, root, c.loc, c.pla, c.defenderFirst)
    }

    /** Search the move f.cur of the level on top of the stack, if there is one left. */
    method TryMove(c: Context, frames: seq<Frame>, f: Frame, ghost returned: bool, ghost path: seq<GoState>)
      returns (frames': seq<Frame>, returnValue: bool, returned': bool, overflow: bool, ghost path': seq<GoState>)
      requires Valid() && c.dy == dy && c.depth == SearchLimit() + 2 && |frames| <= SearchLimit()
      requires Ready(c, frames, f, path) && |path| > 0 && State() == path[|path| - 1]
      requires Lowered(frames, returned, f, arrSize)
      modifies `rings, `simpleKoPoint, `pla, board, groupHead, groupStoneCount, groupLibertyCount, groupNext, groupPrev
      ensures overflow || (Searching(c, frames', path', returnValue, returned') && path'[0] == path[0])
      ensures overflow ==> Overran(c, path[0])
      ensures overflow || Smaller(frames', returned', frames, returned, arrSize, SearchLimit())
    {
      hide StoreOk, Maximal, AllBreathe, Running, Smaller, Lowered, Ready, SingleStoneSuicide, TargetOk;
      ReadyFacts(c, frames, f, path);
      var s := |frames| - 1;
      var isDefender := IsDefender(c, s);
      overflow, path', returned' := false, path, true;
      if f.cur >= |f.moves| {
        TryLeave(c, frames, f, path, returned, arrSize, SearchLimit());
        frames', returnValue := frames[..s], isDefender;
      } else {
        var move, p := f.moves[f.cur], Mover(c.pla, isDefender);
        var legal := WouldBeLegal(p, move);
        if !legal {
          TryIllegal(c, frames, f, path, returned, arrSize, SearchLimit());
          frames', returnValue, returned' := frames[..s] + [f], isDefender, false;
        } else {
          returnValue := isDefender;
          frames', overflow, path' := Descend(c, frames, f, returned, path, returnValue, returned');
        }
      }
    }

    /** Play and record a legal move, and enter the next level if the stack has room. */
    method Descend(c: Context, frames: seq<Frame>, f: Frame, ghost returned: bool, ghost path: seq<GoState>,
          ghost returnValue: bool, ghost returned': bool)
      returns (frames': seq<Frame>, overflow: bool, ghost path': seq<GoState>)
      requires Valid() && c.dy == dy && c.depth == SearchLimit() + 2 && |frames| <= SearchLimit()
      requires Ready(c, frames, f, path) && |path| > 0 && State() == path[|path| - 1]
      requires Lowered(frames, returned, f, arrSize)
      requires 0 <= f.cur < |f.moves|
      requires Legal(dy, board[..], simpleKoPoint, Mover(c.pla, IsDefender(c, |frames| - 1)), f.moves[f.cur])
      modifies `rings, `simpleKoPoint, `pla, board, groupHead, groupStoneCount, groupLibertyCount, groupNext, groupPrev
      ensures overflow || (Searching(c, frames', path', returnValue, returned') && path'[0] == path[0])
      ensures overflow ==> Overran(c, path[0])
      ensures overflow || Smaller(frames', returned', frames, returned, arrSize, SearchLimit())
    {
      hide StoreOk, Maximal, AllBreathe, Running, Smaller, Lowered, Ready, Records, SingleStoneSuicide, Move, KoPoint, TargetOk;
      hide LongLine;
      ReadyFacts(c, frames, f, path);
      var s := |frames| - 1;
      var rec := PlayRecordedUnsafe(Mover(c.pla, IsDefender(c, s)), f.moves[f.cur]);
      frames', overflow, path' := frames[..s] + [f.(record := Some(rec)), Frame([], -1, None)], s + 1 >= SearchLimit(), path + [State()];
      if overflow {
        StackFull(c, frames, f, path, State(), rec);
      } else {
        TryDescend(c, frames, f, path, State(), rec, returned, returnValue, returned', arrSize, SearchLimit());
      }
    }

    /** One round of the search loop. */
    method SearchRound(c: Context, frames: seq<Frame>, returnValue: bool, returned: bool, ghost path: seq<GoState>)
      returns (frames': seq<Frame>, returnValue': bool, returned': bool, overflow: bool, ghost path': seq<GoState>)
      requires Searching(c, frames, path, returnValue, returned) && 1 <= |frames| <= SearchLimit()
      modifies `rings, `simpleKoPoint, `pla, board, groupHead, groupStoneCount, groupLibertyCount, groupNext, groupPrev
      ensures overflow || (Searching(c, frames', path', returnValue', returned') && path'[0] == path[0])
      ensures overflow ==> Overran(c, path[0])
      ensures overflow || Smaller(frames', returned', frames, returned, arrSize, SearchLimit())
    {
      if frames[|frames| - 1].cur == -1 {
        frames', returnValue', returned', overflow, path' := RoundEntered(c, frames, returnValue, returned, path);
      } else if returned {
        frames', returnValue', returned', overflow, path' := RoundReturned(c, frames, returnValue, path);
      } else {
        RoundSkipped(c, frames, path, returnValue, arrSize);
        var f := frames[|frames| - 1];
        frames', returnValue', returned', overflow, path' := TryMove(c, frames, f.(cur := f.cur + 1), false, path);
      }
    }

    /** A round that finds a level just entered. */
    method RoundEntered(c: Context, frames: seq<Frame>, ghost returnValue: bool, ghost returned: bool,
            ghost path: seq<GoState>)
      returns (frames': seq<Frame>, returnValue': bool, returned': bool, overflow: bool, ghost path': seq<GoState>)
      requires Searching(c, frames, path, returnValue, returned)
      requires 1 <= |frames| <= SearchLimit() && frames[|frames| - 1].cur == -1
      modifies `rings, `simpleKoPoint, `pla, board, groupHead, groupStoneCount, groupLibertyCount, groupNext, groupPrev
      ensures overflow || (Searching(c, frames', path', returnValue', returned') && path'[0] == path[0])
      ensures overflow ==> Overran(c, path[0])
      ensures overflow || Smaller(frames', returned', frames, returned, arrSize, SearchLimit())
    {
      hide Running, Value, LadderSearch.Line, Open, Smaller, Lowered, Ready, Left, StoreOk;
      EnteredFacts(c, frames, path, returnValue, returned);
      var s := |frames| - 1;
      var verdict, moves := EnterLevel(c, s);
      if verdict.Some? {
        RoundDecided(c, frames, path, verdict.value, returned, arrSize, SearchLimit());
        return frames[..s], verdict.value, true, false, path;
      }
      RoundOpened(c, frames, path, moves, returned, arrSize);
      frames', returnValue', returned', overflow, path' := TryMove(c, frames, Frame(moves, 0, None), returned, path);
    }

    /** A round that comes back from the level below: take the move back, then leave or move on. */
    method RoundReturned(c: Context, frames: seq<Frame>, returnValue: bool, ghost path: seq<GoState>)
      returns (frames': seq<Frame>, returnValue': bool, returned': bool, overflow: bool, ghost path': seq<GoState>)
      requires Searching(c, frames, path, returnValue, true)
      requires 1 <= |frames| <= SearchLimit() && frames[|frames| - 1].cur != -1
      modifies `rings, `simpleKoPoint, `pla, board, groupHead, groupStoneCount, groupLibertyCount, groupNext, groupPrev
      ensures overflow || (Searching(c, frames', path', returnValue', returned') && path'[0] == path[0])
      ensures overflow ==> Overran(c, path[0])
      ensures overflow || Smaller(frames', returned', frames, true, arrSize, SearchLimit())
    {
      hide Running, Value, LadderSearch.Line, Open, Smaller, Lowered, Ready, Left, StoreOk, Records, Move;
      TakeBackFacts(c, frames, path, returnValue);
      var s := |frames| - 1;
      var f := frames[s];
      Undo(f.record.value, path[s].b);
      if returnValue != IsDefender(c, s) {
        RoundWon(c, frames, path, returnValue, arrSize, SearchLimit());
        return frames[..s], returnValue, true, false, path[..s + 1];
      }
      RoundFailed(c, frames, path, returnValue, arrSize);
      frames', returnValue', returned', overflow, path' := TryMove(c, frames, f.(cur := f.cur + 1), true, path[..s + 1]);
    }

    /** Run the search loop from the root until the root has its answer. */
    method RunSearch(c: Context) returns (r: LadderResult)
      requires Valid() && c.dy == dy && c.depth == SearchLimit() + 2 && TargetOk(c, State(), 0)
      modifies `rings, `simpleKoPoint, `pla, board, groupHead, groupStoneCount, groupLibertyCount, groupNext, groupPrev
      ensures r.Answered? ==> Valid() && State() == old(State())
      ensures r.Answered? ==> Value(c.depth, dy, old(State()), c.loc, c.pla, c.defenderFirst) == Answer(r.captured)
      ensures r == StackOverflow ==> Overran(c, old(State()))
    {
      ghost var path := [State()];
      var frames, returnValue, returned := [Frame([], -1, None)], false, false;
      RootRunning(c, State(), returnValue);
      SearchLimitPositive();
      while |frames| > 0
        invariant Searching(c, frames, path, returnValue, returned)
        invariant |frames| <= SearchLimit() && path[0] == old(State())
        decreases Left(frames, returned, arrSize, SearchLimit())
      {
        var overflow;
        frames, returnValue, returned, overflow, path := SearchRound(c, frames, returnValue, returned, path);
        if overflow {
          return StackOverflow;
        }
      }
      RootAnswer(c, path, returnValue, returned);
      return Answered(returnValue);
    }

    lemma SearchLimitPositive()
      requires Shape()
      ensures SearchLimit() >= 1
    {
      MulMono(size, 0, size);
    }

    /** Can the chain at loc be caught in a ladder, with the given side to move? A search that answers leaves
        the position and the ko point as they were. */
    method SearchIsLadderCaptured(loc: int, defenderFirst: bool) returns (r: LadderResult)
      requires Valid()
      modifies `rings, `simpleKoPoint, `pla, board, groupHead, groupStoneCount, groupLibertyCount, groupNext, groupPrev
      ensures r.Answered? ==> Valid() && State() == old(State())
      ensures !(0 <= loc < arrSize && Stone(old(board[loc]))) ==> r == Answered(false)
      ensures r.Answered? && 0 <= loc < arrSize && Stone(old(board[loc])) ==>
        Value(SearchLimit() + 2, dy, if defenderFirst then GoState(old(board[..]), None) else old(State()),
              loc, old(board[loc]), defenderFirst)
          == if r.captured then Caught else Safe
      ensures r == StackOverflow ==> 0 <= loc < arrSize
      ensures r == StackOverflow && 0 <= loc < arrSize ==>
        LongLine(SearchLimit(), dy, if defenderFirst then GoState(old(board[..]), None) else old(State()),
                 loc, old(board[loc]), defenderFirst)
    {
      if !IsOnBoard(loc) {
        return Answered(false);
      }
      if board[loc] != BLACK && board[loc] != WHITE {
        return Answered(false);
      }
      hide Value, LongLine;
      ghost var c := Context(dy, loc, board[loc], defenderFirst, SearchLimit() + 2);
      var libs := TargetLibCount(loc);
      if libs > 2 || (defenderFirst && libs > 1) {
        DecidedValue(c, RootState(State(), defenderFirst), 0);
        return Answered(false);
      }
      r := SearchFromRoot(loc, defenderFirst);
    }

    /** Clear the ko point if the defender moves first, search, and put the ko point back. */
    method SearchFromRoot(loc: int, defenderFirst: bool) returns (r: LadderResult)
      requires Valid() && 0 <= loc < arrSize && Stone(board[loc])
      modifies `rings, `simpleKoPoint, `pla, board, groupHead, groupStoneCount, groupLibertyCount, groupNext, groupPrev
      ensures r.Answered? ==> Valid() && State() == old(State())
      ensures r.Answered? ==>
        Value(SearchLimit() + 2, dy, RootState(old(State()), defenderFirst), loc, old(board[loc]), defenderFirst) == Answer(r.captured)
      ensures r == StackOverflow ==>
        LongLine(SearchLimit(), dy, RootState(old(State()), defenderFirst), loc, old(board[loc]), defenderFirst)
    {
      hide Value, StoreOk, Maximal, AllBreathe, Walled, LongLine;
      var c := Context(dy, loc, board[loc], defenderFirst, SearchLimit() + 2);
      var savedSimpleKoPoint := simpleKoPoint;
      ValidPosition();
      simpleKoPoint := if defenderFirst then None else simpleKoPoint;
      assert State() == RootState(old(State()), defenderFirst);
      r := RunSearch(c);
      simpleKoPoint := savedSimpleKoPoint;
    }

    /** The attacks on a chain with two liberties that work; None when a search runs off its stack. */
    method SearchIsLadderCapturedAttackerFirst2Libs(loc: int) returns (r: Option<seq<int>>)
      requires Valid()
      modifies `rings, `simpleKoPoint, `pla, board, groupHead, groupStoneCount, groupLibertyCount, groupNext, groupPrev
      ensures r.Some? ==> Valid() && State() == old(State())
      ensures !(0 <= loc < arrSize && Stone(old(board[loc])) && LibCount(dy, old(board[..]), loc) == 2) ==> r == Some([])
      ensures r.Some? && 0 <= loc < arrSize && Stone(old(board[loc])) && LibCount(dy, old(board[..]), loc) == 2 ==>
        forall m :: m in r.value <==> m in WorkingMoves(SearchLimit() + 2, dy, old(State()), loc)
      ensures r.None? ==> 0 <= loc < arrSize && AttackOverruns(SearchLimit(), dy, old(State()), loc)
    {
      if !IsOnBoard(loc) {
        return Some([]);
      }
      if board[loc] != BLACK && board[loc] != WHITE {
        return Some([]);
      }
      var libs := TargetLibCount(loc);
      if libs != 2 {
        return Some([]);
      }
      r := TryBothAttacks(loc);
    }

    lemma ValidPosition()
      requires Valid()
      ensures Position(dy, board[..])
    {
    }

    method TryBothAttacks(loc: int) returns (r: Option<seq<int>>)
      requires Valid() && 0 <= loc < arrSize && Stone(board[loc]) && |Libs(dy, board[..], Chain(dy, board[..], loc))| == 2
      modifies `rings, `simpleKoPoint, `pla, board, groupHead, groupStoneCount, groupLibertyCount, groupNext, groupPrev
      ensures r.Some? ==> Valid() && State() == old(State())
      ensures r.Some? ==> forall m :: m in r.value <==> m in WorkingMoves(SearchLimit() + 2, dy, old(State()), loc)
      ensures r.None? ==> AttackOverruns(SearchLimit(), dy, old(State()), loc)
    {
      hide StoreOk, Maximal, AllBreathe, Walled, WorkingMoves, AttackWorks, Chain, Libs, OverrunsAfter;
      ghost var g := State();
      var move0, move1 := FindTwoLiberties(loc);
      assert move0 in {move0, move1} && move1 in {move0, move1};
      var works0 := TryAttack(loc, move0);
      if works0.None? {
        return None;
      }
      var works1 := TryAttack(loc, move1);
      if works1.None? {
        return None;
      }
      WorkingIs(SearchLimit() + 2, dy, g, loc, move0, move1, works0.value, works1.value);
      return Some((if works0.value then [move0] else []) + (if works1.value then [move1] else []));
    }

    /** Attack at one liberty, search with the defender to move, and take the attack back. */
    method TryAttack(loc: int, move: int) returns (works: Option<bool>)
      requires Valid() && 0 <= loc < arrSize && Stone(board[loc])
      requires move in Libs(dy, board[..], Chain(dy, board[..], loc))
      requires |Libs(dy, board[..], Chain(dy, board[..], loc))| == 2
      modifies `rings, `simpleKoPoint, `pla, board, groupHead, groupStoneCount, groupLibertyCount, groupNext, groupPrev
      ensures works.Some? ==> Valid() && State() == old(State())
      ensures works.Some? ==>
        (works.value <==> AttackWorks(SearchLimit() + 2, dy, old(State()), loc, old(board[loc]), move))
      ensures works.None? ==> OverrunsAfter(SearchLimit(), dy, old(State()), loc, move)
    {
      hide LongLine;
      var opp := Opp(board[loc]);
      var legal := WouldBeLegal(opp, move);
      if !legal {
        return Some(false);
      }
      works := AttackAndSearch(loc, opp, move);
    }

    method AttackAndSearch(loc: int, opp: int, move: int) returns (works: Option<bool>)
      requires Valid() && 0 <= loc < arrSize && Stone(board[loc]) && 0 <= move < arrSize && board[move] == EMPTY
      requires opp == Opp(board[loc]) && |Libs(dy, board[..], Chain(dy, board[..], loc))| == 2
      modifies `rings, `simpleKoPoint, `pla, board, groupHead, groupStoneCount, groupLibertyCount, groupNext, groupPrev
      ensures works.Some? ==> Valid() && State() == old(State())
      ensures works.Some? ==> (works.value <==>
        Value(SearchLimit() + 2, dy, RootState(Next(dy, old(State()), old(board[loc]), false, move), true), loc, old(board[loc]), true) == Caught)
      ensures works.None? ==>
        LongLine(SearchLimit(), dy, GoState(Step(dy, old(State()), opp, move).b, None), loc, old(board[loc]), true)
    {
      hide LongLine;
      hide Value, Move, KoPoint, Records, StoreOk, Maximal, AllBreathe, Walled, Chain, Libs, Decided;
      ghost var g := State();
      ValidPosition();
      TargetStays(dy, g.b, loc, move);
      var rec := PlayRecordedUnsafe(opp, move);
      var r := SearchIsLadderCaptured(loc, true);
      if r == StackOverflow {
        return None;
      }
      Undo(rec, g.b);
      return Some(r.captured);
    }

    method AddLiberties(apply: bool, h: int, delta: int)
      requires apply ==> 0 <= h < groupLibertyCount.Length
      modifies groupLibertyCount
      ensures groupLibertyCount[..] == Inc(old(groupLibertyCount[..]), apply, h, delta)
    {
      if apply {
        groupLibertyCount[h] := groupLibertyCount[h] + delta;
      }
    }
  }

  /** The walls set by the constructor's loop for all indices below i. */
  ghost predicate Wall(size: int, i: int, p: int)
    requires size >= 0
  {
    var d := size + 1;
    i >= 0 && (0 <= p <= i || d * d <= p <= d * d + i || (p % d == 0 && 0 <= p / d <= i + 1))
  }

  lemma WallBounds(size: int, i: int)
    requires size >= 2 && -1 <= i <= size
    ensures 0 <= Loc(size, i, -1) < ArrSize(size) && 0 <= Loc(size, i, size) < ArrSize(size)
    ensures 0 <= Loc(size, -1, i) < ArrSize(size) && 0 <= Loc(size, size, i) < ArrSize(size)
  {
    if i >= 0 {
      MulMono(size + 1, -1, i);
    }
    MulMono(size + 1, i, size + 1);
  }

  lemma MultipleIff(d: int, p: int, m: int)
    requires d > 0
    ensures p % d == 0 && p / d == m <==> p == d * m
  {
    MulDiv(d, m, 0);
    assert p == d * (p / d) + p % d;
  }

  lemma WallStep(size: int, i: int, p: int)
    requires size >= 2 && -1 <= i <= size && 0 <= p < ArrSize(size)
    ensures Wall(size, i + 1, p) <==>
      (Wall(size, i, p) || p == Loc(size, i, -1) || p == Loc(size, i, size) || p == Loc(size, -1, i) || p == Loc(size, size, i))
  {
    var d := size + 1;
    MultipleIff(d, p, i + 1);
    MultipleIff(d, p, i + 2);
    WallStepLinear(p, i, p / d, p % d, d * (i + 1), d * (i + 2), d * d, size);
  }

  lemma WallStepLinear(p: int, i: int, q: int, k: int, e1: int, e2: int, dd: int, size: int)
    requires i >= -1 && (k == 0 && q == i + 1 <==> p == e1)
    requires (k == 0 && q == i + 2 <==> p == e2) && (i == -1 ==> e1 == 0)
    ensures (0 <= p <= i + 1 || dd <= p <= dd + i + 1 || (k == 0 && 0 <= q <= i + 2)) <==>
      ((i >= 0 && (0 <= p <= i || dd <= p <= dd + i || (k == 0 && 0 <= q <= i + 1)))
        || p == i + 1 || p == i + 1 + dd || p == e1 || p == e2)
  {
  }

  lemma WallAll(size: int, p: int)
    requires size >= 2 && 0 <= p < ArrSize(size)
    ensures Wall(size, size + 1, p) <==> !OnBoard(size, p)
  {
    var d := size + 1;
    assert p == d * (p / d) + p % d;
    if p / d < 0 {
      MulMono(d, p / d, 0);
    }
    if p / d > d + 1 {
      MulMono(d, d + 1, p / d);
    }
  }

  lemma PlaceColoured(dy: int, size: int, b: seq<int>, loc: int, pla: int)
    requires size >= 0 && Coloured(dy, b) && Walled(size, b) && 0 <= loc < |b| && b[loc] == EMPTY && Stone(pla)
    ensures Coloured(dy, b[loc := pla]) && Walled(size, b[loc := pla])
  {
  }

  function Inc(l: seq<int>, c: bool, h: int, delta: int): (r: seq<int>)
    requires c ==> 0 <= h < |l|
  {
    if c then l[h := l[h] + delta] else l
  }

  lemma IncFour(l: seq<int>, c0: bool, h0: int, c1: bool, h1: int, c2: bool, h2: int, c3: bool, h3: int, delta: int)
    requires (c0 ==> 0 <= h0 < |l|) && (c1 ==> 0 <= h1 < |l|) && (c2 ==> 0 <= h2 < |l|) && (c3 ==> 0 <= h3 < |l|)
    requires (c1 && h0 == h1 ==> c0) && (c2 && h0 == h2 ==> c0) && (c3 && h0 == h3 ==> c0)
    requires (c2 && h1 == h2 ==> c1) && (c3 && h1 == h3 ==> c1) && (c3 && h2 == h3 ==> c2)
    ensures var r := Inc(Inc(Inc(Inc(l, c0, h0, delta), c1 && h1 != h0, h1, delta), c2 && h2 != h0 && h2 != h1, h2, delta),
                       c3 && h3 != h0 && h3 != h1 && h3 != h2, h3, delta);
      |r| == |l| && forall h :: 0 <= h < |l| ==>
        r[h] == l[h] + if (c0 && h0 == h) || (c1 && h1 == h) || (c2 && h2 == h) || (c3 && h3 == h) then delta else 0
  {
  }

  ghost predicate IncOnce(dy: int, b: seq<int>, head: seq<int>, loc: int, cs: set<int>, delta: int, l: seq<int>,
          r: seq<int>)
    requires 0 <= loc - dy && loc + dy < |b| == |head| && dy >= 3
    requires b[loc - dy] in cs ==> 0 <= head[loc - dy] < |l|
    requires b[loc - 1] in cs ==> 0 <= head[loc - 1] < |l|
    requires b[loc + 1] in cs ==> 0 <= head[loc + 1] < |l|
    requires b[loc + dy] in cs ==> 0 <= head[loc + dy] < |l|
  {
    var h0, h1, h2, h3 := head[loc - dy], head[loc - 1], head[loc + 1], head[loc + dy];
    r == Inc(Inc(Inc(Inc(l, b[loc - dy] in cs, h0, delta), b[loc - 1] in cs && h1 != h0, h1, delta),
                 b[loc + 1] in cs && h2 != h0 && h2 != h1, h2, delta),
             b[loc + dy] in cs && h3 != h0 && h3 != h1 && h3 != h2, h3, delta)
  }

  lemma IncFourBumps(dy: int, b: seq<int>, head: seq<int>, loc: int, cs: set<int>, delta: int, l: seq<int>, r: seq<int>)
    requires 0 <= loc - dy && loc + dy < |b| == |head| && dy >= 3
    requires |l| == |head| && NbrsTold(dy, b, head, loc, cs)
    requires assert Adj(dy, loc, loc - dy) && Adj(dy, loc, loc - 1) && Adj(dy, loc, loc + 1) && Adj(dy, loc, loc + dy);
      IncOnce(dy, b, head, loc, cs, delta, l, r)
    ensures Bumped(dy, b, head, loc, cs, delta, l, r)
  {
    assert Adj(dy, loc, loc - dy) && Adj(dy, loc, loc - 1) && Adj(dy, loc, loc + 1) && Adj(dy, loc, loc + dy);
    IncFour(l, b[loc - dy] in cs, head[loc - dy], b[loc - 1] in cs, head[loc - 1],
            b[loc + 1] in cs, head[loc + 1], b[loc + dy] in cs, head[loc + dy], delta);
  }
}
