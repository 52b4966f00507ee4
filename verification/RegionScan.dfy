/** The finished regions: what the tracer's lists say when the scan over the board is over. */
module RegionScan {
  import opened Grid
  import opened Components
  import opened Rules
  import opened ChainStore
  import opened Queries
  import opened Undoing
  import opened PassAlive
  import opened Claims
  import opened Tracing

  ghost function RegionOf(g: Ground, x: int): set<int>
  {
    Region(g.dy, g.s.b, g.pla, x)
  }

  /** The region of x is vital to the chain with head h. */
  ghost predicate VitalHead(g: Ground, x: int, h: int)
  {
    NextTo(g, x, h) && forall p :: p in RegionOf(g, x) ==> Suits(g, p, h)
  }

  ghost predicate VitalList(g: Ground, x: int, list: seq<int>)
  {
    Distinct(list) && forall h :: h in list <==> VitalHead(g, x, h)
  }

  /** The points o of region number i, in tracing order, are marked with its first point and linked in a ring. */
  ghost predicate PointsOk(g: Ground, t: Trace, i: int, o: seq<int>)
    requires 0 <= i < |t.heads|
  {
    var x := t.heads[i];
    && 0 < x < |g.s.b| && g.s.b[x] == EMPTY && o != [] && o[0] == x && Distinct(o) && Elems(o) == RegionOf(g, x)
    && (forall p :: p in o ==> 0 < p < |t.headOf| && t.headOf[p] == x)
    && x < |t.next| && Chained(t.next, o) && t.next[x] == o[|o| - 1]
  }

  ghost predicate RecordOk(g: Ground, t: Trace, i: int)
    requires ShapeOk(g, t) && 0 <= i < |t.heads|
  {
    var x := t.heads[i];
    && 0 <= t.start[i] && 0 <= t.len[i] && t.start[i] + t.len[i] <= |t.vital| && VitalList(g, x, ListAt(t, i))
    && (t.internal[i] <= 1 <==> AtMostOneInternal(g.dy, g.s.b, g.pla, RegionOf(g, x)))
    && (t.hasOpp[i] <==> HoldsStone(g.s.b, Opp(g.pla), RegionOf(g, x)))
  }

  ghost predicate RegionDone(g: Ground, t: Trace, i: int, o: seq<int>)
    requires ShapeOk(g, t)
  {
    0 <= i < |t.heads| && PointsOk(g, t, i, o) && RecordOk(g, t, i)
  }

  ghost predicate Reaches(os: seq<seq<int>>, p: int)
  {
    exists i :: 0 <= i < |os| && p in os[i]
  }

  /** Regions 0 to |os| are finished; os lists their points. */
  ghost predicate ScanOk(g: Ground, t: Trace, total: int, os: seq<seq<int>>)
  {
    && GroundOk(g) && ShapeOk(g, t) && |os| <= |t.heads| && |t.vital| == 4 * |t.heads| && 0 <= total <= 4 * |os|
    && (forall i :: 0 <= i < |os| ==> RegionDone(g, t, i, os[i]) && t.start[i] + t.len[i] <= total)
    && (forall i, j :: 0 <= i < j < |os| ==> t.heads[i] != t.heads[j])
    && (forall p :: 0 <= p < |t.headOf| && t.headOf[p] != PASS ==> Reaches(os, p))
  }

  /** The scan has passed all points below lim. */
  ghost predicate Passed(g: Ground, t: Trace, lim: int, somePla: bool)
  {
    && (forall p :: 0 <= p < lim && p < |g.s.b| && p < |t.headOf| && g.s.b[p] == EMPTY ==> t.headOf[p] != PASS)
    && (somePla <==> exists p :: 0 <= p < lim && p < |g.s.b| && g.s.b[p] == g.pla)
  }

  lemma RegionDoneFrame(g: Ground, t: Trace, u: Trace, i: int, o: seq<int>)
    requires ShapeOk(g, t) && ShapeOk(g, u) && RegionDone(g, t, i, o) && |u.heads| == |t.heads| && |u.vital| == |t.vital|
    requires u.heads[i] == t.heads[i] && u.start[i] == t.start[i] && u.len[i] == t.len[i]
    requires u.internal[i] == t.internal[i] && u.hasOpp[i] == t.hasOpp[i]
    requires forall p :: p in o && 0 <= p < |t.headOf| ==> u.headOf[p] == t.headOf[p] && u.next[p] == t.next[p]
    requires forall k :: 0 <= k < t.start[i] + t.len[i] && k < |t.vital| ==> u.vital[k] == t.vital[k]
    ensures RegionDone(g, u, i, o)
  {
    hide VitalList, AtMostOneInternal, HoldsStone, RegionOf;
    assert ListAt(u, i) == ListAt(t, i);
    assert t.heads[i] in o by {
      assert o[0] in o;
    }
    assert Chained(u.next, o) by {
      forall k | 0 < k < |o| && 0 <= o[k] < |u.next|
        ensures u.next[o[k]] == o[k - 1]
      {
        assert o[k] in o;
        assert t.next[o[k]] == o[k - 1];
      }
    }
  }

  // ----- starting a region

  /** A region starting at a point that no region has reached is new altogether. */
  lemma FreshRegion(g: Ground, t: Trace, total: int, os: seq<seq<int>>, x: int)
    requires ScanOk(g, t, total, os) && 0 <= x < |g.s.b| && g.s.b[x] == EMPTY && t.headOf[x] == PASS
    ensures forall p :: p in RegionOf(g, x) ==> 0 < p < |g.s.b| && t.headOf[p] == PASS
  {
    RegionBasics(g.dy, g.s.b, g.pla, x);
    forall p | p in RegionOf(g, x)
      ensures 0 < p < |g.s.b| && t.headOf[p] == PASS
    {
      assert g.s.b[0] == WALL;
      if t.headOf[p] != PASS {
        NewPointNotReached(g, t, total, os, x, p);
      }
    }
  }

  lemma NewPointNotReached(g: Ground, t: Trace, total: int, os: seq<seq<int>>, x: int, p: int)
    requires ScanOk(g, t, total, os) && 0 <= x < |g.s.b| && g.s.b[x] == EMPTY && t.headOf[x] == PASS
    requires p in RegionOf(g, x)
    ensures !Reaches(os, p)
  {
    hide RecordOk, StoreOk, Maximal, Region;
    RegionBasics(g.dy, g.s.b, g.pla, x);
    if i :| 0 <= i < |os| && p in os[i] {
      assert RegionDone(g, t, i, os[i]);
      assert p in Elems(os[i]);
      RegionsDisjoint(g.dy, g.s.b, g.pla, t.heads[i], x, p);
    }
  }

  // ----- finishing a region

  lemma {:induction false} InternalsCount(g: Ground, o: seq<int>)
    requires Distinct(o)
    ensures Internals(g, o) == 0 <==> forall p :: p in Elems(o) ==> !Internal(g.dy, g.s.b, g.pla, p)
    ensures Internals(g, o) <= 1 <==> AtMostOneInternal(g.dy, g.s.b, g.pla, Elems(o))
  {
    hide Internal;
    if o != [] {
      var n := |o| - 1;
      var q := o[..n];
      InternalsCount(g, q);
      assert o == q + [o[n]];
      assert Elems(o) == Elems(q) + {o[n]};
      assert o[n] !in q;
      assert o[n] !in Elems(q);
    }
  }

  lemma SuitAllPoints(g: Ground, o: seq<int>, h: int)
    ensures SuitAll(g, o, h) <==> forall p :: p in Elems(o) ==> Suits(g, p, h)
  {
    hide Suits;
    if SuitAll(g, o, h) {
      forall p | p in Elems(o)
        ensures Suits(g, p, h)
      {
        var k :| 0 <= k < |o| && o[k] == p;
      }
    } else {
      var k :| 0 <= k < |o| && !Suits(g, o[k], h);
      var p := o[k];
      assert p in Elems(o);
    }
  }

  lemma SomeOppPoints(g: Ground, o: seq<int>)
    ensures SomeOpp(g, o) <==> HoldsStone(g.s.b, Opp(g.pla), Elems(o))
  {
    if SomeOpp(g, o) {
      var k :| 0 <= k < |o| && 0 <= o[k] < |g.s.b| && g.s.b[o[k]] == Opp(g.pla);
      var p := o[k];
      assert p in Elems(o);
    }
    if p :| p in Elems(o) && 0 <= p < |g.s.b| && g.s.b[p] == Opp(g.pla) {
      var k :| 0 <= k < |o| && o[k] == p;
      assert 0 <= o[k] < |g.s.b| && g.s.b[o[k]] == Opp(g.pla);
    }
  }

  lemma VitalFinished(g: Ground, x: int, o: seq<int>, list: seq<int>)
    requires ListOk(g, x, o, list) && Elems(o) == RegionOf(g, x)
    ensures VitalList(g, x, list)
  {
    hide NextTo, Suits, RegionOf;
    forall h
      ensures h in list <==> VitalHead(g, x, h)
    {
      SuitAllPoints(g, o, h);
    }
  }

  /** The ring is closed: the region is finished. */
  lemma RegionFinished(g: Ground, s: Trace, i: int, x: int, C: set<int>, o: seq<int>, t: Trace, u: Trace)
    requires Traced(g, s, i, x, C, o, t) && Elems(o) == C && o != [] && s.heads[i] == x
    requires x < |t.next| && u == t.(next := t.next[x := o[|o| - 1]])
    ensures ShapeOk(g, u) && RegionDone(g, u, i, o)
  {
    hide GroundOk, ListOk, VitalList, SomeOpp, HoldsStone, AtMostOneInternal, Region;
    VitalFinished(g, x, o, ListAt(t, i));
    assert ListAt(u, i) == ListAt(t, i);
    InternalsCount(g, o);
    SomeOppPoints(g, o);
    forall p | p in o
      ensures 0 < p < |u.headOf| && u.headOf[p] == x
    {
      assert p in Elems(o);
    }
    assert Chained(u.next, o) by {
      forall k | 0 < k < |o| && 0 <= o[k] < |u.next|
        ensures u.next[o[k]] == o[k - 1]
      {
        assert o[k] != o[0];
        assert t.next[o[k]] == o[k - 1];
      }
    }
  }

  ghost predicate SameRecord(s: Trace, t: Trace, j: int)
    requires 0 <= j < |s.heads| == |s.start| == |s.len| == |s.internal| == |s.hasOpp|
    requires j < |t.heads| == |t.start| == |t.len| == |t.internal| == |t.hasOpp|
  {
    && t.heads[j] == s.heads[j] && t.start[j] == s.start[j] && t.len[j] == s.len[j]
    && t.internal[j] == s.internal[j] && t.hasOpp[j] == s.hasOpp[j]
  }

  lemma HeadFacts(g: Ground, t: Trace, total: int, os: seq<seq<int>>, i: int)
    requires ScanOk(g, t, total, os) && 0 <= i < |os|
    ensures var h := t.heads[i];
      0 < h < |g.s.b| && g.s.b[h] == EMPTY && t.headOf[h] == h
    ensures forall q :: q in RegionOf(g, t.heads[i]) ==> 0 < q < |t.headOf| && t.headOf[q] == t.heads[i]
  {
    hide GroundOk, RecordOk, Region;
    assert RegionDone(g, t, i, os[i]);
    forall q | q in RegionOf(g, t.heads[i])
      ensures 0 < q < |t.headOf| && t.headOf[q] == t.heads[i]
    {
      assert q in Elems(os[i]);
    }
    assert os[i][0] in os[i];
  }

  /** From the scan s0, region number |os| was started in s, traced through o in t, and closed in u. */
  ghost predicate Added(g: Ground, s0: Trace, total: int, os: seq<seq<int>>, s: Trace, x: int, C: set<int>,
          o: seq<int>, t: Trace, u: Trace)
  {
    && ScanOk(g, s0, total, os) && |os| < |s0.heads| && ShapeOk(g, s)
    && Traced(g, s, |os|, x, C, o, t) && Elems(o) == C && o != [] && s.heads[|os|] == x
    && s.headOf == s0.headOf && s.next == s0.next && |s.heads| == |s0.heads| && |s.vital| == |s0.vital|
    && (forall j :: 0 <= j < |os| ==> SameRecord(s0, s, j))
    && (forall k :: 0 <= k < total && k < |s.vital| ==> s.vital[k] == s0.vital[k])
    && s.start[|os|] == total && x < |t.next| && u == t.(next := t.next[x := o[|o| - 1]])
  }

  /** The scan with one more region. */
  lemma ScanStep(g: Ground, s0: Trace, total: int, os: seq<seq<int>>, s: Trace, x: int, C: set<int>, o: seq<int>,
          t: Trace, u: Trace)
    requires Added(g, s0, total, os, s, x, C, o, t, u)
    ensures |u.len| > |os| && ScanOk(g, u, total + u.len[|os|], os + [o])
  {
    hide Added, RegionDone, Reaches, GroundOk;
    AddedShape(g, s0, total, os, s, x, C, o, t, u);
    var r := os + [o];
    forall i | 0 <= i < |r|
      ensures RegionDone(g, u, i, r[i]) && u.start[i] + u.len[i] <= total + u.len[|os|]
    {
      AddedRegions(g, s0, total, os, s, x, C, o, t, u, i);
    }
    forall i, j | 0 <= i < j < |r|
      ensures u.heads[i] != u.heads[j]
    {
      AddedHeads(g, s0, total, os, s, x, C, o, t, u, i, j);
    }
    forall p | 0 <= p < |u.headOf| && u.headOf[p] != PASS
      ensures Reaches(r, p)
    {
      AddedReach(g, s0, total, os, s, x, C, o, t, u, p);
    }
  }

  lemma AddedShape(g: Ground, s0: Trace, total: int, os: seq<seq<int>>, s: Trace, x: int, C: set<int>, o: seq<int>,
          t: Trace, u: Trace)
    requires Added(g, s0, total, os, s, x, C, o, t, u)
    ensures GroundOk(g) && ShapeOk(g, u) && |os| < |u.heads| == |s0.heads| && |u.vital| == 4 * |u.heads|
    ensures 0 <= total <= 4 * |os| && 0 <= u.len[|os|] <= 4
  {
    hide RegionDone, Reaches, ListOk, Region, Chained;
  }

  lemma AddedRegions(g: Ground, s0: Trace, total: int, os: seq<seq<int>>, s: Trace, x: int, C: set<int>, o: seq<int>,
          t: Trace, u: Trace, i: int)
    requires Added(g, s0, total, os, s, x, C, o, t, u) && 0 <= i <= |os|
    ensures ShapeOk(g, u) && RegionDone(g, u, i, if i < |os| then os[i] else o)
    ensures u.start[i] + u.len[i] <= total + u.len[|os|]
  {
    hide GroundOk, Region, RecordOk, PointsOk, ListOk, Chained, SomeOpp, Internals, Reaches;
    if i < |os| {
      assert RegionDone(g, s0, i, os[i]) && SameRecord(s0, s, i);
      OldRegionKept(g, s0, total, os, s, x, C, o, t, u, i);
      RegionDoneFrame(g, s0, u, i, os[i]);
    } else {
      RegionFinished(g, s, |os|, x, C, o, t, u);
    }
  }

  lemma AddedHeads(g: Ground, s0: Trace, total: int, os: seq<seq<int>>, s: Trace, x: int, C: set<int>, o: seq<int>,
          t: Trace, u: Trace, i: int, j: int)
    requires Added(g, s0, total, os, s, x, C, o, t, u) && 0 <= i < j <= |os|
    ensures j < |u.heads| && u.heads[i] != u.heads[j]
  {
    hide GroundOk, Region, RegionDone, ListOk, Chained, SomeOpp, Internals, Reaches;
    assert SameRecord(s0, s, i) && o[0] in Elems(o);
    if j < |os| {
      assert SameRecord(s0, s, j);
    } else {
      HeadFacts(g, s0, total, os, i);
    }
  }

  lemma AddedReach(g: Ground, s0: Trace, total: int, os: seq<seq<int>>, s: Trace, x: int, C: set<int>, o: seq<int>,
          t: Trace, u: Trace, p: int)
    requires Added(g, s0, total, os, s, x, C, o, t, u) && 0 <= p < |u.headOf| && u.headOf[p] != PASS
    ensures Reaches(os + [o], p)
  {
    hide GroundOk, Region, RegionDone, ListOk, Chained, SomeOpp, Internals;
    var r := os + [o];
    if p in Elems(o) {
      assert p in r[|os|];
    } else {
      assert s0.headOf[p] != PASS;
      var i :| 0 <= i < |os| && p in os[i];
      assert p in r[i];
    }
  }

  lemma OldRegionKept(g: Ground, s0: Trace, total: int, os: seq<seq<int>>, s: Trace, x: int, C: set<int>, o: seq<int>,
          t: Trace, u: Trace, i: int)
    requires Added(g, s0, total, os, s, x, C, o, t, u) && 0 <= i < |os|
    ensures |u.next| == |u.headOf| == |s0.next| == |s0.headOf|
    ensures forall p :: p in os[i] && 0 <= p < |s0.headOf| ==> u.headOf[p] == s0.headOf[p] && u.next[p] == s0.next[p]
  {
    hide GroundOk, Region, RecordOk, ListOk, Chained, SomeOpp, Internals;
    assert RegionDone(g, s0, i, os[i]);
    forall p | p in os[i] && 0 <= p < |s0.headOf|
      ensures u.headOf[p] == s0.headOf[p] && u.next[p] == s0.next[p]
    {
      assert s0.headOf[p] != PASS;
      assert p !in C;
      assert x in C by {
        assert o[0] in Elems(o);
      }
    }
  }

  // ----- how many regions there can be

  /** The position of a point on a path that runs through the rows in alternating directions. */
  function Snake(n: int, x: int, y: int): int
  {
    n * y + if y % 2 == 0 then x else n - 1 - x
  }

  /** Consecutive points of the path are next to each other. */
  lemma SnakeNext(n: int, x: int, y: int, x': int, y': int)
    requires 0 <= x < n && 0 <= x' < n && Snake(n, x', y') == Snake(n, x, y) + 1
    ensures (y' == y && (x' == x + 1 || x' == x - 1)) || (y' == y + 1 && x' == x)
  {
    var u := if y % 2 == 0 then x else n - 1 - x;
    var v := if y' % 2 == 0 then x' else n - 1 - x';
    if u + 1 < n {
      DivideUniquely(n, y', v, y, u + 1);
    } else {
      assert n * (y + 1) == n * y + n;
      DivideUniquely(n, y', v, y + 1, 0);
    }
  }

  lemma SnakeInjective(n: int, x: int, y: int, x': int, y': int)
    requires 0 <= x < n && 0 <= x' < n && Snake(n, x', y') == Snake(n, x, y)
    ensures x' == x && y' == y
  {
    DivideUniquely(n, y', if y' % 2 == 0 then x' else n - 1 - x', y, if y % 2 == 0 then x else n - 1 - x);
  }

  /** The pair of path positions that a point of the board falls into. */
  function PairOf(n: int, p: int): int
    requires n >= 1
  {
    Snake(n, LocX(n, p), LocY(n, p)) / 2
  }

  lemma PairInRange(n: int, p: int)
    requires n >= 1 && OnBoard(n, p)
    ensures 0 <= PairOf(n, p) < (n * n + 1) / 2
  {
    var x, y := Coordinates(n, p);
    MulMono(n, y, n);
    MulMono(n, -1, y);
  }

  lemma PairAdjacent(n: int, p: int, q: int)
    requires n >= 1 && OnBoard(n, p) && OnBoard(n, q) && p != q && PairOf(n, p) == PairOf(n, q)
    ensures Adj(n + 1, p, q)
  {
    hide Snake, OnBoard;
    var x, y := Coordinates(n, p);
    var x', y' := Coordinates(n, q);
    if Snake(n, x', y') == Snake(n, x, y) {
      SnakeInjective(n, x, y, x', y');
    } else if Snake(n, x', y') == Snake(n, x, y) + 1 {
      SnakeNext(n, x, y, x', y');
      NextLocAdj(n, x, y, x', y');
    } else {
      SnakeNext(n, x', y', x, y);
      NextLocAdj(n, x', y', x, y);
    }
  }

  lemma NextLocAdj(n: int, x: int, y: int, x': int, y': int)
    requires n >= 1 && ((y' == y && (x' == x + 1 || x' == x - 1)) || (y' == y + 1 && x' == x))
    ensures Adj(n + 1, Loc(n, x, y), Loc(n, x', y')) && Adj(n + 1, Loc(n, x', y'), Loc(n, x, y))
  {
    assert (n + 1) * (y + 2) == (n + 1) * (y + 1) + (n + 1);
  }

  /** Points of the board no two of which are next to each other fill at most half of it, rounded up. */
  lemma IndependentPoints(n: int, xs: seq<int>)
    requires n >= 1 && Distinct(xs) && forall i :: 0 <= i < |xs| ==> OnBoard(n, xs[i])
    requires forall i, j :: 0 <= i < |xs| && 0 <= j < |xs| ==> !Adj(n + 1, xs[i], xs[j])
    ensures |xs| <= (n * n + 1) / 2
  {
    hide Adj, OnBoard, PairOf;
    var pairs := seq(|xs|, i requires 0 <= i < |xs| => PairOf(n, xs[i]));
    PairInRangeAll(n, xs, pairs);
    forall i, j | 0 <= i < j < |pairs|
      ensures pairs[i] != pairs[j]
    {
      if pairs[i] == pairs[j] {
        PairAdjacent(n, xs[i], xs[j]);
      }
    }
    DistinctSize(pairs, UpTo((n * n + 1) / 2));
  }

  lemma PairInRangeAll(n: int, xs: seq<int>, pairs: seq<int>)
    requires n >= 1 && forall i :: 0 <= i < |xs| ==> OnBoard(n, xs[i])
    requires |pairs| == |xs| && forall i :: 0 <= i < |xs| ==> pairs[i] == PairOf(n, xs[i])
    ensures n * n >= 0 && forall p :: p in pairs ==> p in UpTo((n * n + 1) / 2)
  {
    hide OnBoard, PairOf;
    MulMono(n, 0, n);
    forall p | p in pairs
      ensures p in UpTo((n * n + 1) / 2)
    {
      var i :| 0 <= i < |pairs| && pairs[i] == p;
      PairInRange(n, xs[i]);
    }
  }

  /** There is room in the buffers for one more region. */
  lemma RoomForRegion(size: int, g: Ground, t: Trace, total: int, os: seq<seq<int>>, x: int)
    requires size >= 2 && g.dy == size + 1 && Walled(size, g.s.b) && ScanOk(g, t, total, os)
    requires 0 <= x < |g.s.b| && g.s.b[x] == EMPTY && t.headOf[x] == PASS
    ensures |os| + 1 <= (size * size + 1) / 2
  {
    hide Adj, OnBoard, RecordOk, GroundOk, Region;
    var xs := seq(|os| + 1, i requires 0 <= i < |os| + 1 => if i < |os| then t.heads[i] else x);
    assert OnBoard(size, x);
    forall i | 0 <= i < |xs|
      ensures OnBoard(size, xs[i])
    {
      if i < |os| {
        assert RegionDone(g, t, i, os[i]);
      }
    }
    forall i, j | 0 <= i < |xs| && 0 <= j < |xs|
      ensures i < j ==> xs[i] != xs[j]
      ensures !Adj(size + 1, xs[i], xs[j])
    {
      HeadsApart(g, t, total, os, x, xs, i, j);
    }
    IndependentPoints(size, xs);
  }

  lemma HeadsApart(g: Ground, t: Trace, total: int, os: seq<seq<int>>, x: int, xs: seq<int>, i: int, j: int)
    requires ScanOk(g, t, total, os) && 0 <= x < |g.s.b| && g.s.b[x] == EMPTY && t.headOf[x] == PASS
    requires |xs| == |os| + 1 && forall k :: 0 <= k < |xs| ==> xs[k] == if k < |os| then t.heads[k] else x
    requires 0 <= i < |xs| && 0 <= j < |xs|
    ensures i < j ==> xs[i] != xs[j]
    ensures !Adj(g.dy, xs[i], xs[j])
  {
    hide RecordOk, Region, Maximal;
    if i < |os| {
      HeadFacts(g, t, total, os, i);
    }
    if j < |os| {
      HeadFacts(g, t, total, os, j);
    }
    if Adj(g.dy, xs[i], xs[j]) {
      if i < |os| {
        HeadReaches(g, xs[i], xs[j]);
      } else if j < |os| {
        HeadReaches(g, xs[j], xs[i]);
      }
    }
  }

  lemma HeadReaches(g: Ground, h: int, q: int)
    requires 0 <= h < |g.s.b| && g.s.b[h] == EMPTY && 0 <= q < |g.s.b| && g.s.b[q] == EMPTY
    requires Adj(g.dy, h, q) || Adj(g.dy, q, h)
    ensures q in RegionOf(g, h)
  {
    RegionBasics(g.dy, g.s.b, g.pla, h);
    assert Adj(g.dy, h, q);
  }

  // ----- the list of a new region

  lemma SeenHeadStep(g: Ground, p: int, i: int, h: int)
    requires 0 <= i && 0 <= Nbr(g.dy, p, i) < |g.s.b| == |g.s.head|
    ensures var q := Nbr(g.dy, p, i);
      SeenHead(g, p, h, i + 1) <==> SeenHead(g, p, h, i) || (g.s.b[q] == g.pla && g.s.head[q] == h)
  {
    if SeenHead(g, p, h, i + 1) {
      var j :| 0 <= j < i + 1 && var q := Nbr(g.dy, p, j);
        0 <= q < |g.s.b| && q < |g.s.head| && g.s.b[q] == g.pla && g.s.head[q] == h;
      if j < i {
        assert SeenHead(g, p, h, i);
      }
    }
  }

  /** The list holds the heads among the first i neighbours of p, each once. */
  ghost predicate Seen(g: Ground, p: int, i: int, list: seq<int>)
  {
    Distinct(list) && |list| <= i && forall h :: h in list <==> SeenHead(g, p, h, i)
  }

  lemma SeenStep(g: Ground, p: int, i: int, list: seq<int>, h: int)
    requires Seen(g, p, i, list) && 0 <= i && 0 <= Nbr(g.dy, p, i) < |g.s.b| == |g.s.head|
    requires g.s.b[Nbr(g.dy, p, i)] == g.pla ==> h == g.s.head[Nbr(g.dy, p, i)]
    ensures Seen(g, p, i + 1, if g.s.b[Nbr(g.dy, p, i)] == g.pla && h !in list then list + [h] else list)
  {
    hide SeenHead, Nbr;
    var q := Nbr(g.dy, p, i);
    var r := if g.s.b[q] == g.pla && h !in list then list + [h] else list;
    forall k
      ensures k in r <==> SeenHead(g, p, k, i + 1)
    {
      SeenHeadStep(g, p, i, k);
    }
  }

  lemma SeenNone(g: Ground, p: int)
    ensures Seen(g, p, 0, [])
  {
  }

  /** With a full list and nothing traced the region can be walked. */
  lemma TraceStart(g: Ground, s: Trace, i: int, x: int, C: set<int>)
    requires Site(g, s, i, x, C) && 0 <= s.len[i] <= 4 && Seen(g, x, 4, ListAt(s, i))
    requires s.internal[i] == 0 && !s.hasOpp[i]
    ensures Traced(g, s, i, x, C, [], s)
  {
    hide GroundOk, Region, SeenHead, NextTo;
    forall h
      ensures SeenHead(g, x, h, 4) <==> NextTo(g, x, h)
    {
      SeenAll(g, x, h);
    }
    assert Elems([]) == {};
    assert Relabel(s.headOf, {}, x) == s.headOf;
    assert s.internal == s.internal[i := UpToTwo(Internals(g, []))];
    assert s.hasOpp == s.hasOpp[i := SomeOpp(g, [])];
    assert s.len == s.len[i := s.len[i]];
  }

  /** From the scan s0, region number |os| has been entered into the lists, with nothing traced yet. */
  ghost predicate Started(g: Ground, s0: Trace, total: int, os: seq<seq<int>>, s: Trace, x: int)
  {
    var n := |os|;
    && ScanOk(g, s0, total, os) && n < |s0.heads|
    && 0 <= x < |g.s.b| && g.s.b[x] == EMPTY && s0.headOf[x] == PASS
    && s.headOf == s0.headOf && s.next == s0.next && s.heads == s0.heads[n := x] && s.start == s0.start[n := total]
    && |s.len| == |s0.len| && 0 <= s.len[n] <= 4 && s.len == s0.len[n := s.len[n]]
    && s.internal == s0.internal[n := 0] && s.hasOpp == s0.hasOpp[n := false]
    && |s.vital| == |s0.vital| && total + 4 <= |s.vital| && (forall k :: 0 <= k < total ==> s.vital[k] == s0.vital[k])
    && Seen(g, x, 4, ListAt(s, n))
  }

  lemma StartedIsTraced(g: Ground, s0: Trace, total: int, os: seq<seq<int>>, s: Trace, x: int)
    requires Started(g, s0, total, os, s, x)
    ensures Traced(g, s, |os|, x, RegionOf(g, x), [], s) && x in RegionOf(g, x)
  {
    hide GroundOk, Region, Seen, RegionDone, Reaches;
    FreshRegion(g, s0, total, os, x);
    RegionBasics(g.dy, g.s.b, g.pla, x);
    TraceStart(g, s, |os|, x, RegionOf(g, x));
  }

  lemma StartedToAdded(g: Ground, s0: Trace, total: int, os: seq<seq<int>>, s: Trace, x: int, o: seq<int>, t: Trace,
          u: Trace)
    requires Started(g, s0, total, os, s, x) && Traced(g, s, |os|, x, RegionOf(g, x), o, t)
    requires o != [] && Elems(o) == RegionOf(g, x)
    requires x < |t.next| && u == t.(next := t.next[x := o[|o| - 1]])
    ensures Added(g, s0, total, os, s, x, RegionOf(g, x), o, t, u)
  {
    hide GroundOk, Region, Seen, RegionDone, Reaches, ListOk, Chained, SomeOpp, Internals;
    forall j | 0 <= j < |os|
      ensures SameRecord(s0, s, j)
    {
    }
  }

  /** A walk that has settled everything has traced the region. */
  lemma WalkDone(g: Ground, s0: Trace, total: int, os: seq<seq<int>>, s: Trace, x: int, o: seq<int>, t: Trace, u: Trace)
    requires Started(g, s0, total, os, s, x) && Traced(g, s, |os|, x, RegionOf(g, x), o, t)
    requires o != [] && Settled(g.dy, RegionOf(g, x), o, 0)
    requires 0 <= x < |t.next| && u == t.(next := t.next[x := o[|o| - 1]])
    ensures |u.len| > |os| && ScanOk(g, u, total + u.len[|os|], os + [o])
    ensures x < |u.headOf| && u.headOf[x] != PASS
    ensures |u.headOf| == |s0.headOf| && forall p :: 0 <= p < |u.headOf| && s0.headOf[p] != PASS ==> u.headOf[p] != PASS
  {
    hide GroundOk, Seen, RegionDone, Reaches, ListOk, Chained, SomeOpp, Internals, Settled, ScanOk, Added, Comp;
    SettledAll(g.dy, Foreign(g.s.b, g.pla), x, o);
    StartedToAdded(g, s0, total, os, s, x, o, t, u);
    ScanStep(g, s0, total, os, s, x, RegionOf(g, x), o, t, u);
    assert o[0] in Elems(o);
  }

  // ----- the scan over the board

  lemma ScanNone(g: Ground, t: Trace)
    requires GroundOk(g) && ShapeOk(g, t) && |t.vital| == 4 * |t.heads|
    requires forall p :: 0 <= p < |t.headOf| ==> t.headOf[p] == PASS
    ensures ScanOk(g, t, 0, [])
  {
  }

  /** Points that are neither empty nor of pla can be passed over. */
  lemma PassOverPoints(g: Ground, t: Trace, lim: int, to: int, somePla: bool)
    requires Passed(g, t, lim, somePla) && 0 <= lim <= to
    requires forall p :: lim <= p < to && p < |g.s.b| ==> g.s.b[p] != EMPTY && g.s.b[p] != g.pla
    ensures Passed(g, t, to, somePla)
  {
  }

  lemma PassPoint(g: Ground, t: Trace, u: Trace, loc: int, somePla: bool)
    requires Passed(g, t, loc, somePla) && 0 <= loc < |g.s.b| == |u.headOf| == |t.headOf| && g.pla != EMPTY
    requires forall p :: 0 <= p < |t.headOf| && t.headOf[p] != PASS ==> u.headOf[p] != PASS
    requires g.s.b[loc] == EMPTY ==> u.headOf[loc] != PASS
    ensures Passed(g, u, loc + 1, somePla || g.s.b[loc] == g.pla)
  {
  }
}
