/** Breadth-first floods over areas of one owner, with one queue shared by all floods of a pass. */
module Floods {
  import opened Grid
  import opened Components
  import opened Rules
  import opened ChainStore
  import opened Queries

  /** Owners by point; only points of the board have owners. */
  ghost predicate AreaOk(dy: int, b: seq<int>, area: seq<int>)
  {
    && Coloured(dy, b) && |area| == |b|
    && forall p :: 0 <= p < |b| ==> (area[p] == EMPTY || Stone(area[p])) && (b[p] == WALL ==> area[p] == EMPTY)
  }

  /** Next to an empty point that nobody owns. */
  ghost predicate TouchesDame(dy: int, b: seq<int>, area: seq<int>, p: int)
  {
    exists q :: Adj(dy, p, q) && IsDame(b, area, q)
  }

  predicate IsDame(b: seq<int>, area: seq<int>, q: int)
  {
    0 <= q < |b| && q < |area| && b[q] == EMPTY && area[q] == EMPTY
  }

  /** The connected area of p's owner around p. */
  ghost function Holding(dy: int, area: seq<int>, p: int): set<int>
    requires 0 <= p < |area|
  {
    Comp(dy, Pts(area, area[p]), p)
  }

  /** Some point of p's area is next to dame. */
  ghost predicate DameTouching(dy: int, b: seq<int>, area: seq<int>, p: int)
    requires 0 <= p < |area|
  {
    exists q :: q in Holding(dy, area, p) && TouchesDame(dy, b, area, q)
  }

  /** The owned points whose areas touch dame, or do not. */
  ghost function Owned(dy: int, b: seq<int>, area: seq<int>, touching: bool): set<int>
  {
    set p | 0 <= p < |area| && area[p] != EMPTY && DameTouching(dy, b, area, p) == touching
  }

  /** A neighbour with the same owner touches dame along with p. */
  lemma TouchTogether(dy: int, b: seq<int>, area: seq<int>, p: int, q: int)
    requires 0 <= p < |area| && 0 <= q < |area| && Adj(dy, p, q) && area[p] == area[q]
    ensures DameTouching(dy, b, area, p) == DameTouching(dy, b, area, q)
  {
    hide TouchesDame;
    ChainStep(dy, area, p, q);
  }

  /** All same-owner neighbours of p, or the first i of them, are in M. */
  ghost predicate Spread(dy: int, area: seq<int>, M: set<int>, p: int, i: int)
  {
    forall j {:trigger Nbr(dy, p, j)} ::
      0 <= j < i && 0 <= p < |area| && 0 <= Nbr(dy, p, j) < |area| && area[Nbr(dy, p, j)] == area[p] ==> Nbr(dy, p, j) in M
  }

  /** The queue q has been served up to hd; its points are the marked ones, all of the kind wanted, and
      those waiting have owner c. */
  ghost predicate Flooding(dy: int, b: seq<int>, area: seq<int>, touching: bool, q: seq<int>, hd: int, c: int)
  {
    && 0 <= hd <= |q| && Distinct(q)
    && (forall k :: 0 <= k < |q| ==> q[k] in Owned(dy, b, area, touching))
    && (forall k :: hd <= k < |q| && 0 <= q[k] < |area| ==> area[q[k]] == c)
    && (forall k :: 0 <= k < hd ==> Spread(dy, area, Elems(q), q[k], 4))
  }

  lemma SpreadMore(dy: int, area: seq<int>, M: set<int>, N: set<int>, p: int, i: int)
    requires Spread(dy, area, M, p, i) && M <= N
    ensures Spread(dy, area, N, p, i)
  {
  }

  lemma SpreadStep(dy: int, area: seq<int>, M: set<int>, p: int, i: int)
    requires Spread(dy, area, M, p, i) && i >= 0 && 0 <= p < |area|
    requires 0 <= Nbr(dy, p, i) < |area| && area[Nbr(dy, p, i)] == area[p] ==> Nbr(dy, p, i) in M
    ensures Spread(dy, area, M, p, i + 1)
  {
  }

  /** The point at hd has been popped, and its first i neighbours looked at. */
  ghost predicate Serving(dy: int, b: seq<int>, area: seq<int>, touching: bool, q: seq<int>, hd: int, c: int, i: int)
  {
    0 <= hd < |q| && Flooding(dy, b, area, touching, q, hd, c) && Spread(dy, area, Elems(q), q[hd], i)
  }

  /** A point is appended to the queue. */
  lemma Enqueue(dy: int, b: seq<int>, area: seq<int>, touching: bool, q: seq<int>, hd: int, c: int, p: int)
    requires Flooding(dy, b, area, touching, q, hd, c) && p !in q
    requires p in Owned(dy, b, area, touching) && 0 <= p < |area| && area[p] == c
    ensures Flooding(dy, b, area, touching, q + [p], hd, c)
    ensures forall x, i :: Spread(dy, area, Elems(q), x, i) ==> Spread(dy, area, Elems(q + [p]), x, i)
  {
    hide Owned, Spread;
    var r := q + [p];
    assert Elems(r) == Elems(q) + {p};
    forall x, i | Spread(dy, area, Elems(q), x, i)
      ensures Spread(dy, area, Elems(r), x, i)
    {
      SpreadMore(dy, area, Elems(q), Elems(r), x, i);
    }
    forall k | 0 <= k < hd
      ensures Spread(dy, area, Elems(r), r[k], 4)
    {
      assert Spread(dy, area, Elems(q), q[k], 4);
    }
  }

  lemma OwnedRange(dy: int, b: seq<int>, area: seq<int>, touching: bool, p: int)
    requires AreaOk(dy, b, area) && p in Owned(dy, b, area, touching)
    ensures 0 < p < |area| && b[p] != WALL && Stone(area[p])
    ensures forall i {:trigger Nbr(dy, p, i)} :: 0 <= i < 4 ==> 0 < Nbr(dy, p, i) < |area|
  {
    NbrsInRange(dy, b, p);
  }

  /** One neighbour of the point being served: it is queued if it has the same owner and is not marked. */
  lemma ServeStep(dy: int, b: seq<int>, area: seq<int>, touching: bool, q: seq<int>, hd: int, c: int, i: int, r: seq<int>)
    requires AreaOk(dy, b, area) && Serving(dy, b, area, touching, q, hd, c, i) && 0 <= i < 4
    requires 0 <= Nbr(dy, q[hd], i) < |area|
    requires r == if area[Nbr(dy, q[hd], i)] == c && Nbr(dy, q[hd], i) !in q then q + [Nbr(dy, q[hd], i)] else q
    ensures Serving(dy, b, area, touching, r, hd, c, i + 1)
  {
    hide Spread, DameTouching, Nbr;
    var p, x := Nbr(dy, q[hd], i), q[hd];
    assert x in Owned(dy, b, area, touching) && area[x] == c;
    if area[p] == c && p !in q {
      NbrAdj(dy, x, i);
      TouchTogether(dy, b, area, x, p);
      Enqueue(dy, b, area, touching, q, hd, c, p);
      assert p in Elems(r);
    } else if p in q {
      assert p in Elems(q);
    }
    SpreadStep(dy, area, Elems(r), x, i);
  }

  lemma ServeStart(dy: int, b: seq<int>, area: seq<int>, touching: bool, q: seq<int>, hd: int, c: int)
    requires Flooding(dy, b, area, touching, q, hd, c) && hd < |q|
    ensures Serving(dy, b, area, touching, q, hd, c, 0) && q[hd] in Owned(dy, b, area, touching)
  {
  }

  lemma ServeEnd(dy: int, b: seq<int>, area: seq<int>, touching: bool, q: seq<int>, hd: int, c: int)
    requires Serving(dy, b, area, touching, q, hd, c, 4)
    ensures Flooding(dy, b, area, touching, q, hd + 1, c)
  {
    hide Spread, Owned;
  }

  /** There is room in the queue for a point that is not in it. */
  lemma QueueRoom(dy: int, b: seq<int>, area: seq<int>, touching: bool, q: seq<int>, hd: int, c: int)
    requires Flooding(dy, b, area, touching, q, hd, c)
    ensures |q| <= |area|
    ensures forall p :: p !in q && p in Owned(dy, b, area, touching) ==> |q| < |area|
  {
    hide DameTouching, Spread;
    var U := UpTo(|area|);
    forall p | p in q
      ensures p in U
    {
      assert p in Owned(dy, b, area, touching);
    }
    DistinctSize(q, U);
    forall p | p !in q && p in Owned(dy, b, area, touching)
      ensures |q| < |area|
    {
      var r := q + [p];
      forall x | x in r
        ensures x in U
      {
      }
      DistinctSize(r, U);
    }
  }

  // ----- a whole pass

  /** Between floods: the marked points are whole areas of the kind wanted, and include all of that kind
      that seed a flood below lim. */
  ghost predicate PassOk(dy: int, b: seq<int>, area: seq<int>, touching: bool, q: seq<int>, lim: int)
  {
    && Flooding(dy, b, area, touching, q, |q|, EMPTY)
    && forall p :: 0 <= p < lim && IsSeed(dy, b, area, touching, p) ==> p in q
  }

  /** In the first pass a flood starts at every owned point next to dame, in the second at every point
      of an area that does not touch dame. */
  ghost predicate IsSeed(dy: int, b: seq<int>, area: seq<int>, touching: bool, p: int)
  {
    0 <= p < |area| && area[p] != EMPTY && if touching then TouchesDame(dy, b, area, p) else !DameTouching(dy, b, area, p)
  }

  lemma SeedIsOwned(dy: int, b: seq<int>, area: seq<int>, touching: bool, p: int)
    requires IsSeed(dy, b, area, touching, p)
    ensures p in Owned(dy, b, area, touching)
  {
    CompClosed(dy, Pts(area, area[p]), p);
  }

  lemma PassNone(dy: int, b: seq<int>, area: seq<int>, touching: bool, lim: int)
    requires forall p :: 0 <= p < lim && p < |area| ==> area[p] == EMPTY
    ensures PassOk(dy, b, area, touching, [], lim)
  {
  }

  lemma PassOverArea(dy: int, b: seq<int>, area: seq<int>, touching: bool, q: seq<int>, lim: int, to: int)
    requires PassOk(dy, b, area, touching, q, lim) && lim <= to
    requires forall p :: lim <= p < to ==> !IsSeed(dy, b, area, touching, p) || p in q
    ensures PassOk(dy, b, area, touching, q, to)
  {
  }

  lemma SeedFlood(dy: int, b: seq<int>, area: seq<int>, touching: bool, q: seq<int>, lim: int, p: int)
    requires PassOk(dy, b, area, touching, q, lim) && IsSeed(dy, b, area, touching, p) && p !in q
    ensures Flooding(dy, b, area, touching, q + [p], |q|, area[p]) && p in Owned(dy, b, area, touching)
  {
    SeedIsOwned(dy, b, area, touching, p);
    Enqueue(dy, b, area, touching, q, |q|, area[p], p);
  }

  lemma FloodDone(dy: int, b: seq<int>, area: seq<int>, touching: bool, q: seq<int>, lim: int, r: seq<int>, c: int)
    requires PassOk(dy, b, area, touching, q, lim) && q <= r && Flooding(dy, b, area, touching, r, |r|, c)
    requires 0 <= lim && (IsSeed(dy, b, area, touching, lim) ==> lim in r)
    ensures PassOk(dy, b, area, touching, r, lim + 1)
  {
    hide IsSeed;
    forall p | p in q
      ensures p in r
    {
      var k :| 0 <= k < |q| && q[k] == p;
      assert r[k] == p;
    }
  }

  /** A finished pass has marked exactly the points of the kind wanted. */
  lemma PassDone(dy: int, b: seq<int>, area: seq<int>, touching: bool, q: seq<int>, p: int)
    requires PassOk(dy, b, area, touching, q, |area|)
    ensures p in q <==> p in Owned(dy, b, area, touching)
  {
    hide Spread, TouchesDame;
    if p in q {
      assert p in Owned(dy, b, area, touching);
    }
    if p in Owned(dy, b, area, touching) {
      if touching {
        var s :| s in Holding(dy, area, p) && TouchesDame(dy, b, area, s);
        ChainSame(dy, area, p, s);
        ChainBasics(dy, area, p);
        assert s in q;
        MarkedIsClosed(dy, b, area, touching, q, s);
        assert p in Elems(q);
      }
    }
  }

  lemma MarkedIsClosed(dy: int, b: seq<int>, area: seq<int>, touching: bool, q: seq<int>, s: int)
    requires PassOk(dy, b, area, touching, q, |area|) && s in q && 0 <= s < |area|
    ensures Holding(dy, area, s) <= Elems(q)
  {
    hide TouchesDame, DameTouching, IsSeed;
    var S := Elems(q) * Pts(area, area[s]);
    forall x, y | x in S && y in Pts(area, area[s]) && Adj(dy, x, y)
      ensures y in S
    {
      var k :| 0 <= k < |q| && q[k] == x;
      assert Spread(dy, area, Elems(q), q[k], 4);
      AllNbrs(dy, x, y);
    }
    CompLeast(dy, Pts(area, area[s]), s, S);
  }
}
