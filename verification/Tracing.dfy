/** Tracing the regions of one player: what the tracer's lists must say at every point. */
module Tracing {
  import opened Grid
  import opened Components
  import opened Rules
  import opened ChainStore
  import opened Queries
  import opened Undoing
  import opened PassAlive
  import opened Claims

  /** The board being analysed, and for whom. */
  datatype Ground = Ground(dy: int, s: Store, pla: int, suicideLegal: bool)

  ghost predicate GroundOk(g: Ground)
  {
    Stone(g.pla) && StoreOk(g.dy, g.s) && Maximal(g.dy, g.s.b, g.s.head)
  }

  /** A snapshot of the tracer's lists. */
  datatype Trace = Trace(
    headOf: seq<int>,    // the first point of each point's region, or PASS
    next: seq<int>,      // a ring through each region
    heads: seq<int>,     // by region number: its first point,
    start: seq<int>,     //   where its list of vital chains starts
    len: seq<int>,       //   and how long that is,
    internal: seq<int>,  //   its internal points, counted up to two,
    hasOpp: seq<bool>,   //   and whether it holds an opposing stone
    vital: seq<int>      // all lists of vital chains, one after the other
  )

  ghost predicate ShapeOk(g: Ground, t: Trace)
  {
    |t.headOf| == |t.next| == |g.s.b| && |t.heads| == |t.start| == |t.len| == |t.internal| == |t.hasOpp|
  }

  /** p is next to a stone of pla with head h. */
  ghost predicate NextTo(g: Ground, p: int, h: int)
  {
    exists q {:trigger g.s.head[q]} :: 0 <= q < |g.s.b| && q < |g.s.head| && Adj(g.dy, p, q) && g.s.b[q] == g.pla && g.s.head[q] == h
  }

  /** The point does not stop its region from being vital to h. */
  ghost predicate Suits(g: Ground, p: int, h: int)
  {
    Relevant(g.s.b, g.suicideLegal, p) ==> NextTo(g, p, h)
  }

  /** The chains next to x that all the points of o suit. */
  ghost predicate ListOk(g: Ground, x: int, o: seq<int>, list: seq<int>)
  {
    Distinct(list) && forall h :: h in list <==> NextTo(g, x, h) && SuitAll(g, o, h)
  }

  ghost predicate SuitAll(g: Ground, o: seq<int>, h: int)
  {
    forall k :: 0 <= k < |o| ==> Suits(g, o[k], h)
  }

  ghost function Internals(g: Ground, o: seq<int>): nat
  {
    if o == [] then 0
    else Internals(g, o[..|o| - 1]) + if Internal(g.dy, g.s.b, g.pla, o[|o| - 1]) then 1 else 0
  }

  function UpToTwo(n: nat): int { if n < 2 then n else 2 }

  ghost predicate SomeOpp(g: Ground, o: seq<int>)
  {
    exists k :: 0 <= k < |o| && 0 <= o[k] < |g.s.b| && g.s.b[o[k]] == Opp(g.pla)
  }

  ghost predicate Chained(next: seq<int>, o: seq<int>)
  {
    forall k {:trigger next[o[k]]} :: 0 < k < |o| && 0 <= o[k] < |next| ==> next[o[k]] == o[k - 1]
  }

  // ----- while one region is traced

  /** Region number i is about to be traced from the empty point x; C is the region. */
  ghost predicate Site(g: Ground, s: Trace, i: int, x: int, C: set<int>)
  {
    && GroundOk(g) && ShapeOk(g, s) && 0 <= i < |s.heads|
    && 0 < x < |g.s.b| && g.s.b[x] == EMPTY && C == Region(g.dy, g.s.b, g.pla, x)
    && (forall p :: p in C ==> 0 < p < |g.s.b| && s.headOf[p] == PASS)
    && 0 <= s.start[i] && s.start[i] + 4 <= |s.vital|
  }

  ghost predicate ListsKept(s: Trace, i: int, t: Trace)
    requires 0 <= i < |s.start| == |s.len|
  {
    && t.start == s.start && |t.len| == |s.len| && |t.vital| == |s.vital|
    && 0 <= t.len[i] <= 4 && 0 <= s.start[i] && s.start[i] + 4 <= |s.vital|
    && t.len == s.len[i := t.len[i]]
    && (forall k :: 0 <= k < s.start[i] ==> t.vital[k] == s.vital[k])
  }

  function ListAt(t: Trace, i: int): seq<int>
    requires 0 <= i < |t.start| == |t.len| && 0 <= t.start[i] && 0 <= t.len[i] && t.start[i] + t.len[i] <= |t.vital|
  {
    t.vital[t.start[i]..t.start[i] + t.len[i]]
  }

  /** t is s with the points of o traced. */
  ghost predicate Traced(g: Ground, s: Trace, i: int, x: int, C: set<int>, o: seq<int>, t: Trace)
  {
    && Site(g, s, i, x, C) && Distinct(o) && Elems(o) <= C && (o != [] ==> o[0] == x)
    && t.headOf == Relabel(s.headOf, Elems(o), x) && t.heads == s.heads
    && |t.next| == |s.next| && (forall p :: 0 <= p < |s.next| && p !in Elems(o) ==> t.next[p] == s.next[p]) && Chained(t.next, o)
    && ListsKept(s, i, t) && ListOk(g, x, o, ListAt(t, i))
    && t.internal == s.internal[i := UpToTwo(Internals(g, o))]
    && t.hasOpp == s.hasOpp[i := SomeOpp(g, o)]
  }

  /** What visiting p does to the list of vital chains: those p does not suit are filtered out. */
  ghost predicate Filtered(g: Ground, p: int, before: seq<int>, after: seq<int>)
  {
    && (Distinct(before) ==> Distinct(after)) && |after| <= |before|
    && forall h :: h in after <==> h in before && Suits(g, p, h)
  }

  lemma SuitMore(g: Ground, o: seq<int>, p: int, h: int)
    ensures SuitAll(g, o + [p], h) <==> SuitAll(g, o, h) && Suits(g, p, h)
  {
    var r := o + [p];
    if SuitAll(g, r, h) {
      forall k | 0 <= k < |o|
        ensures Suits(g, o[k], h)
      {
        assert r[k] == o[k];
      }
      assert r[|o|] == p;
    }
  }

  lemma ListStep(g: Ground, x: int, o: seq<int>, p: int, before: seq<int>, after: seq<int>)
    requires ListOk(g, x, o, before) && Filtered(g, p, before, after)
    ensures ListOk(g, x, o + [p], after)
  {
    hide NextTo, Suits;
    forall h
      ensures h in after <==> NextTo(g, x, h) && SuitAll(g, o + [p], h)
    {
      SuitMore(g, o, p, h);
    }
  }

  lemma SomeOppStep(g: Ground, o: seq<int>, p: int)
    requires 0 <= p < |g.s.b|
    ensures SomeOpp(g, o + [p]) <==> SomeOpp(g, o) || g.s.b[p] == Opp(g.pla)
  {
    var r := o + [p];
    assert r[|o|] == p;
    if k :| 0 <= k < |o| && 0 <= o[k] < |g.s.b| && g.s.b[o[k]] == Opp(g.pla) {
      assert r[k] == o[k];
    }
  }

  lemma ChainedStep(next: seq<int>, o: seq<int>, p: int, tail: int)
    requires Chained(next, o) && 0 <= p < |next| && p !in o && (o != [] ==> tail == o[|o| - 1])
    ensures Chained(next[p := tail], o + [p])
  {
  }

  /** One more point traced. */
  lemma TraceStep(g: Ground, s: Trace, i: int, x: int, C: set<int>, o: seq<int>, t: Trace, p: int, u: Trace, tail: int)
    requires Traced(g, s, i, x, C, o, t) && p in C && p !in o && (o == [] ==> p == x) && (o != [] ==> tail == o[|o| - 1])
    requires 0 <= p < |t.headOf| && u.headOf == t.headOf[p := x] && u.heads == t.heads
    requires p < |t.next| && u.next == t.next[p := tail]
    requires ListsKept(s, i, u) && Filtered(g, p, ListAt(t, i), ListAt(u, i))
    requires |t.internal| == |t.hasOpp| == |s.heads|
    requires u.internal == t.internal[i := if t.internal[i] < 2 && Internal(g.dy, g.s.b, g.pla, p) then t.internal[i] + 1 else t.internal[i]]
    requires p < |g.s.b| && u.hasOpp == t.hasOpp[i := t.hasOpp[i] || g.s.b[p] == Opp(g.pla)]
    ensures Traced(g, s, i, x, C, o + [p], u)
  {
    hide ListOk, SomeOpp, Chained, Filtered, Internal, GroundOk, Region;
    var r := o + [p];
    assert Elems(r) == Elems(o) + {p};
    RelabelStep(s.headOf, Elems(o), x, p);
    ChainedStep(t.next, o, p, tail);
    ListStep(g, x, o, p, ListAt(t, i), ListAt(u, i));
    SomeOppStep(g, o, p);
    assert r[..|r| - 1] == o;
    assert u.internal == s.internal[i := UpToTwo(Internals(g, r))];
    assert Distinct(r);
  }

  // ----- filtering a list in place

  lemma FilterStep(g: Ground, p: int, before: seq<int>, after: seq<int>, h: int)
    requires Filtered(g, p, before, after) && Relevant(g.s.b, g.suicideLegal, p)
    ensures Filtered(g, p, before + [h], if NextTo(g, p, h) then after + [h] else after)
  {
    hide NextTo;
    var r, u := before + [h], if NextTo(g, p, h) then after + [h] else after;
    forall x
      ensures x in u <==> x in r && Suits(g, p, x)
    {
    }
    if Distinct(r) {
      assert Distinct(before) by {
        forall j, k | 0 <= j < k < |before|
          ensures before[j] != before[k]
        {
          assert r[j] != r[k];
        }
      }
      assert h !in before by {
        forall j | 0 <= j < |before|
          ensures before[j] != h
        {
          assert r[j] != r[|before|];
        }
      }
    }
  }

  lemma FilterNone(g: Ground, p: int)
    ensures Filtered(g, p, [], [])
  {
  }

  lemma FilterNothing(g: Ground, p: int, list: seq<int>)
    requires !Relevant(g.s.b, g.suicideLegal, p)
    ensures Filtered(g, p, list, list)
  {
  }

  /** The neighbour test of the filter, over the first i neighbours. */
  ghost predicate SeenHead(g: Ground, p: int, h: int, i: int)
  {
    exists j {:trigger Nbr(g.dy, p, j)} :: 0 <= j < i && var q := Nbr(g.dy, p, j);
      0 <= q < |g.s.b| && q < |g.s.head| && g.s.b[q] == g.pla && g.s.head[q] == h
  }

  lemma SeenAll(g: Ground, p: int, h: int)
    ensures SeenHead(g, p, h, 4) <==> NextTo(g, p, h)
  {
    if SeenHead(g, p, h, 4) {
      var j :| 0 <= j < 4 && var q := Nbr(g.dy, p, j);
        0 <= q < |g.s.b| && q < |g.s.head| && g.s.b[q] == g.pla && g.s.head[q] == h;
      NbrAdj(g.dy, p, j);
    }
    if NextTo(g, p, h) {
      var q :| 0 <= q < |g.s.b| && q < |g.s.head| && Adj(g.dy, p, q) && g.s.b[q] == g.pla && g.s.head[q] == h;
      AllNbrs(g.dy, p, q);
    }
  }

  /** None of the first i neighbours of p is a stone of pla. */
  ghost predicate NoneOwn(dy: int, b: seq<int>, pla: int, p: int, i: int)
  {
    forall j {:trigger Nbr(dy, p, j)} :: 0 <= j < i ==> !(0 <= Nbr(dy, p, j) < |b| && b[Nbr(dy, p, j)] == pla)
  }

  lemma InternalByNbrs(dy: int, b: seq<int>, pla: int, p: int)
    ensures NoneOwn(dy, b, pla, p, 4) <==> Internal(dy, b, pla, p)
  {
    if Touches(dy, p, Pts(b, pla)) {
      var q := TouchesWitness(dy, p, Pts(b, pla));
      AllNbrs(dy, p, q);
    }
    forall j | 0 <= j < 4 && Nbr(dy, p, j) in Pts(b, pla)
      ensures !Internal(dy, b, pla, p)
    {
      NbrAdj(dy, p, j);
      AdjTouches(dy, p, Nbr(dy, p, j), Pts(b, pla));
    }
  }

  // ----- the depth-first walk

  /** The point and the region number are in range of all lists. */
  lemma TraceRange(g: Ground, s: Trace, i: int, x: int, C: set<int>, o: seq<int>, t: Trace, p: int)
    requires Traced(g, s, i, x, C, o, t) && p in C
    ensures 0 < p < |g.s.b| == |t.headOf| == |t.next| && g.s.b[p] != WALL
    ensures 0 <= i < |t.start| && |t.start| == |t.len| == |t.internal| == |t.hasOpp| == |s.heads|
    ensures ListsKept(s, i, t)
  {
    hide ListOk, StoreOk, Maximal, Region;
    RegionBasics(g.dy, g.s.b, g.pla, x);
  }

  lemma VisitedIff(g: Ground, s: Trace, i: int, x: int, C: set<int>, o: seq<int>, t: Trace, p: int)
    requires Traced(g, s, i, x, C, o, t) && p in C
    ensures 0 < p < |t.headOf| && Site(g, s, i, x, C)
    ensures t.headOf[p] != PASS <==> p in o
  {
    hide Region, ListOk, GroundOk;
    assert p in o <==> p in Elems(o);
  }

  lemma VisitedCount(g: Ground, s: Trace, i: int, x: int, C: set<int>, o: seq<int>, t: Trace)
    requires Traced(g, s, i, x, C, o, t)
    ensures |o| <= |C|
  {
    hide Region, ListOk, GroundOk;
    VisitCount(C, o);
  }

  /** A neighbour that is not pla or wall belongs to the region. */
  lemma ForeignNbr(g: Ground, s: Trace, i: int, x: int, C: set<int>, p: int, j: int)
    requires Site(g, s, i, x, C) && p in C && 0 <= j < 4
    ensures var q := Nbr(g.dy, p, j);
      0 < q < |g.s.b| && (g.s.b[q] == EMPTY || g.s.b[q] == Opp(g.pla) <==> q in C)
  {
    RegionBasics(g.dy, g.s.b, g.pla, x);
    NbrsInRange(g.dy, g.s.b, p);
    NbrAdj(g.dy, p, j);
  }
}
