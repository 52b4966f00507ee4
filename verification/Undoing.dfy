/** Taking a move back: flood-filling captured chains, deleting the stone played, and rebuilding the
    chains it had joined. */
module Undoing {
  import opened Grid
  import opened Components
  import opened Rules
  import opened ChainStore
  import opened Captures
  import opened Queries
  import opened Regrow

  // ----- refilling an empty region with one chain

  /** C is the empty region around x, and no stone of colour c is next to it. */
  ghost predicate FillSite(dy: int, s: Store, x: int, C: set<int>, c: int)
  {
    && StoreOk(dy, s) && Maximal(dy, s.b, s.head) && Stone(c)
    && x in C && C == Comp(dy, Pts(s.b, EMPTY), x)
    && forall q :: 0 <= q < |s.b| && s.b[q] == c ==> !Touches(dy, q, C)
  }

  ghost predicate FillLibs(dy: int, s: Store, x: int, F: set<int>, c: int, lib: seq<int>)
    requires |s.head| == |s.b|
  {
    && |lib| == |s.b|
    && forall g :: 0 <= g < |lib| ==>
        lib[g] == if g != x && s.head[g] == g then |Libs(dy, Relabel(s.b, F, c), Class(s.head, g))| else 0
  }

  /** t is s with the points of o filled so far. */
  ghost predicate Filling(dy: int, s: Store, x: int, C: set<int>, c: int, o: seq<int>, t: Store)
  {
    && FillSite(dy, s, x, C, c) && 0 <= x < |s.cnt| && Elems(o) <= C
    && Growing(s, x, o, t) && t.b == Relabel(s.b, Elems(o), c) && FillLibs(dy, s, x, Elems(o), c, t.lib)
  }

  lemma FillSiteFacts(dy: int, s: Store, x: int, C: set<int>, c: int)
    requires FillSite(dy, s, x, C, c)
    ensures forall p :: p in C ==> 0 < p < |s.b| && s.b[p] == EMPTY && s.head[p] == 0
    ensures Closed(dy, Pts(s.b, EMPTY), C)
    ensures forall p :: 0 <= p < |s.b| ==> s.head[p] != x
  {
    CompClosed(dy, Pts(s.b, EMPTY), x);
    NobodysHead(s.b, s.head, x);
  }

  lemma FillStart(dy: int, s: Store, x: int, C: set<int>, c: int)
    requires FillSite(dy, s, x, C, c)
    ensures 0 < x < |s.b| && s.b[x] == EMPTY
    ensures Filling(dy, s, x, C, c, [], s)
  {
    FillSiteFacts(dy, s, x, C, c);
    assert Elems([]) == {};
    assert Relabel(s.b, {}, c) == s.b && Relabel(s.head, {}, x) == s.head;
    assert s.head[x] != x;
    assert x !in s.rings;
    assert s.cnt[x := 0] == s.cnt;
  }

  /** What visiting one more point of the region writes. */
  ghost predicate Visited(dy: int, t: Store, u: Store, x: int, p: int, tail: int, n: int)
    requires 0 <= p < |t.head| && 0 <= x < |t.cnt| && p < |t.nxt| && 0 <= tail < |t.prv|
  {
    && u.head == t.head[p := x] && u.cnt == t.cnt[x := n] && u.rings == t.rings
    && u.nxt == t.nxt[p := tail] && u.prv == t.prv[tail := p]
  }

  lemma FillNbr(dy: int, s: Store, x: int, C: set<int>, c: int, F: set<int>, q: int)
    requires FillSite(dy, s, x, C, c) && F <= C && 0 < q < |s.b|
    ensures var b, head := Relabel(s.b, F, c), Relabel(s.head, F, x);
      && (b[q] == Opp(c) <==> s.b[q] == Opp(c))
      && (b[q] == Opp(c) ==> head[q] == s.head[q] && 0 < head[q] < |b| && head[q] != x && s.b[head[q]] == Opp(c))
      && (0 < head[q] < |b| && head[q] != x ==> head[q] == s.head[q] && b[q] == s.b[head[q]])
  {
    FillSiteFacts(dy, s, x, C, c);
    assert if Stone(s.b[q]) then 0 < s.head[q] < |s.b| && s.b[s.head[q]] == s.b[q] else s.head[q] == 0;
  }

  lemma FillNbrs(dy: int, s: Store, x: int, C: set<int>, c: int, F: set<int>, p: int)
    requires FillSite(dy, s, x, C, c) && F <= C && p in C
    ensures 0 <= p - dy && p + dy < |s.b|
    ensures NbrsTold(dy, Relabel(s.b, F, c), Relabel(s.head, F, x), p, {Opp(c)})
  {
    FillSiteFacts(dy, s, x, C, c);
    NbrsInRange(dy, s.b, p);
    forall q | Adj(dy, p, q)
      ensures var b, head := Relabel(s.b, F, c), Relabel(s.head, F, x);
        && (b[q] == Opp(c) ==> 0 < head[q] < |b| && head[q] != x && s.b[head[q]] == Opp(c))
        && (0 < head[q] < |b| && head[q] != x ==> b[q] == s.b[head[q]])
    {
      FillNbr(dy, s, x, C, c, F, q);
    }
  }

  lemma FillNbrOf(dy: int, s: Store, x: int, C: set<int>, c: int, F: set<int>, q: int, g: int)
    requires FillSite(dy, s, x, C, c) && F <= C && 0 < q < |s.b| && 0 <= g < |s.b|
    ensures Relabel(s.b, F, c)[q] == Opp(c) && Relabel(s.head, F, x)[q] == g <==>
      (g != x && s.head[g] == g && s.b[g] == Opp(c) && q in Class(s.head, g))
  {
    FillSiteFacts(dy, s, x, C, c);
    FillNbr(dy, s, x, C, c, F, q);
  }

  lemma FillNbrHead(dy: int, s: Store, x: int, C: set<int>, c: int, F: set<int>, p: int, g: int)
    requires FillSite(dy, s, x, C, c) && F <= C && p in C && 0 <= g < |s.b|
    ensures 0 <= p - dy && p + dy < |s.b|
    ensures NbrHead(dy, Relabel(s.b, F, c), Relabel(s.head, F, x), p, {Opp(c)}, g) <==>
      (g != x && s.head[g] == g && s.b[g] == Opp(c) && Touches(dy, p, Class(s.head, g)))
  {
    FillSiteFacts(dy, s, x, C, c);
    NbrsInRange(dy, s.b, p);
    forall q | Adj(dy, p, q)
      ensures Relabel(s.b, F, c)[q] == Opp(c) && Relabel(s.head, F, x)[q] == g <==>
        (g != x && s.head[g] == g && s.b[g] == Opp(c) && q in Class(s.head, g))
    {
      FillNbrOf(dy, s, x, C, c, F, q, g);
    }
    assert Adj(dy, p, p - dy) && Adj(dy, p, p - 1) && Adj(dy, p, p + 1) && Adj(dy, p, p + dy);
  }

  lemma FillOne(dy: int, s: Store, x: int, C: set<int>, c: int, F: set<int>, p: int, g: int)
    requires FillSite(dy, s, x, C, c) && F <= C && p in C && p !in F && 0 <= g < |s.b| && s.head[g] == g
    ensures |Libs(dy, Relabel(s.b, F + {p}, c), Class(s.head, g))| == |Libs(dy, Relabel(s.b, F, c), Class(s.head, g))|
      - if s.b[g] == Opp(c) && Touches(dy, p, Class(s.head, g)) then 1 else 0
  {
    FillSiteFacts(dy, s, x, C, c);
    var X := Class(s.head, g);
    var L, M := Libs(dy, Relabel(s.b, F, c), X), Libs(dy, Relabel(s.b, F + {p}, c), X);
    assert M == L - {p};
    assert p in L <==> Touches(dy, p, X);
    if Touches(dy, p, X) {
      var q := TouchesWitness(dy, p, X);
      assert Stone(s.b[q]) && s.b[q] == s.b[g];
      AdjTouches(dy, q, p, C);
    }
  }

  lemma FillLibsStep(dy: int, s: Store, x: int, C: set<int>, c: int, F: set<int>, p: int, lib: seq<int>, lib': seq<int>)
    requires FillSite(dy, s, x, C, c) && F <= C && p in C && p !in F && FillLibs(dy, s, x, F, c, lib)
    requires 0 <= p - dy && p + dy < |s.b|
    requires Bumped(dy, Relabel(s.b, F + {p}, c), Relabel(s.head, F + {p}, x), p, {Opp(c)}, -1, lib, lib')
    ensures FillLibs(dy, s, x, F + {p}, c, lib')
  {
    forall g | 0 <= g < |lib'|
      ensures lib'[g] == if g != x && s.head[g] == g then |Libs(dy, Relabel(s.b, F + {p}, c), Class(s.head, g))| else 0
    {
      FillNbrHead(dy, s, x, C, c, F + {p}, p, g);
      if s.head[g] == g {
        FillOne(dy, s, x, C, c, F, p, g);
      }
    }
  }

  lemma FillReady(dy: int, s: Store, x: int, C: set<int>, c: int, o: seq<int>, t: Store, p: int)
    requires Filling(dy, s, x, C, c, o, t) && p in C && p !in o && (o == [] ==> p == x)
    ensures 0 < p < |t.b| && 0 <= Tail(o, x) < |t.b| && 0 <= p - dy && p + dy < |t.b|
    ensures NbrsTold(dy, t.b[p := c], t.head[p := x], p, {Opp(c)})
    ensures |t.b| == |t.head| == |t.cnt| == |t.nxt| == |t.prv| == |t.lib|
    ensures 0 <= x < |t.b| && t.cnt[x] == |o|
  {
    FillSiteFacts(dy, s, x, C, c);
    assert p !in Elems(o);
    assert t.b[p := c] == Relabel(s.b, Elems(o) + {p}, c);
    RelabelStep(s.head, Elems(o), x, p);
    FillNbrs(dy, s, x, C, c, Elems(o) + {p}, p);
  }

  lemma FillStep(dy: int, s: Store, x: int, C: set<int>, c: int, o: seq<int>, t: Store, u: Store, p: int)
    requires Filling(dy, s, x, C, c, o, t) && p in C && p !in o && (o == [] ==> p == x)
    requires 0 < p < |t.b| == |t.head| == |t.cnt| == |t.nxt| == |t.prv| && 0 <= Tail(o, x) < |t.b|
    requires u.b == t.b[p := c] && Visited(dy, t, u, x, p, Tail(o, x), |o| + 1)
    requires 0 <= p - dy && p + dy < |t.b|
    requires Bumped(dy, u.b, u.head, p, {Opp(c)}, -1, t.lib, u.lib)
    ensures Filling(dy, s, x, C, c, o + [p], u)
  {
    assert p !in Elems(o);
    assert Elems(o + [p]) == Elems(o) + {p};
    RelabelStep(s.b, Elems(o), c, p);
    RelabelStep(s.head, Elems(o), x, p);
    GrowStep(s, x, o, t, u, p);
    FillLibsStep(dy, s, x, C, c, Elems(o), p, t.lib, u.lib);
  }

  lemma FillDone(dy: int, s: Store, x: int, C: set<int>, c: int, o: seq<int>, t: Store, u: Store)
    requires Filling(dy, s, x, C, c, o, t) && Elems(o) == C && o != []
    requires Grown(s, x, o, t, u) && u.b == t.b && u.lib == t.lib
    ensures StoreOk(dy, u) && Maximal(dy, u.b, u.head)
  {
    FillSiteFacts(dy, s, x, C, c);
    forall g | 0 <= g < |u.lib|
      ensures u.lib[g] == if u.head[g] == g then |Libs(dy, u.b, Class(u.head, g))| else 0
    {
      if g == x {
        assert Class(u.head, x) == C;
        NoLibsInside(dy, s.b, x, c);
      } else if s.head[g] == g {
        assert Class(u.head, g) == Class(s.head, g);
      }
    }
    GrownStore(dy, s, x, o, t, u, c, Pts(s.b, EMPTY));
  }

  lemma NoLibsInside(dy: int, b: seq<int>, x: int, c: int)
    requires Stone(c)
    ensures var C := Comp(dy, Pts(b, EMPTY), x); Libs(dy, Relabel(b, C, c), C) == {}
  {
    var C := Comp(dy, Pts(b, EMPTY), x);
    CompClosed(dy, Pts(b, EMPTY), x);
    if e :| e in Libs(dy, Relabel(b, C, c), C) {
      var q := TouchesWitness(dy, e, C);
    }
  }

  // ----- the depth-first walk over the region

  /** Every point visited after the first n has all its neighbours in the region visited. */
  ghost predicate Settled(dy: int, C: set<int>, o: seq<int>, n: int)
  {
    forall i, q {:trigger Adj(dy, o[i], q)} :: n <= i < |o| && 0 <= i && q in C && Adj(dy, o[i], q) ==> q in o
  }

  lemma TailOf(o: seq<int>, p: int, x: int)
    ensures Tail(o + [p], x) == p
  {
  }

  lemma NoneSettled(dy: int, C: set<int>, o: seq<int>)
    ensures Settled(dy, C, o, |o|)
  {
  }

  lemma SettledMore(dy: int, C: set<int>, o: seq<int>, o': seq<int>, n: int)
    requires 0 <= n <= |o| && o <= o' && Settled(dy, C, o, n) && Settled(dy, C, o', |o|)
    ensures Settled(dy, C, o', n)
  {
    forall i, q | n <= i < |o'| && q in C && Adj(dy, o'[i], q)
      ensures q in o'
    {
      if i < |o| {
        assert o'[i] == o[i];
        assert Adj(dy, o[i], q);
      }
    }
  }

  /** The first i neighbours of p that lie in the region have been visited. */
  ghost predicate NbrsVisited(dy: int, C: set<int>, o: seq<int>, p: int, i: int)
  {
    forall j {:trigger Nbr(dy, p, j)} :: 0 <= j < i && Nbr(dy, p, j) in C ==> Nbr(dy, p, j) in o
  }

  lemma NbrsVisitedNone(dy: int, C: set<int>, o: seq<int>, p: int)
    ensures NbrsVisited(dy, C, o, p, 0)
  {
  }

  lemma NbrsVisitedStep(dy: int, C: set<int>, o: seq<int>, o': seq<int>, p: int, i: int)
    requires 0 <= i && o <= o' && NbrsVisited(dy, C, o, p, i) && (Nbr(dy, p, i) in C ==> Nbr(dy, p, i) in o')
    ensures NbrsVisited(dy, C, o', p, i + 1)
  {
  }

  lemma SettledRoot(dy: int, C: set<int>, o: seq<int>, n: int)
    requires 0 <= n < |o| && NbrsVisited(dy, C, o, o[n], 4) && Settled(dy, C, o, n + 1)
    ensures Settled(dy, C, o, n)
  {
    forall i, q | n <= i < |o| && q in C && Adj(dy, o[i], q)
      ensures q in o
    {
      if i == n {
        AllNbrs(dy, o[n], q);
      }
    }
  }

  /** A finished walk has visited the whole component it started in. */
  lemma SettledAll(dy: int, U: set<int>, x: int, o: seq<int>)
    requires o != [] && o[0] == x && Elems(o) <= Comp(dy, U, x) && Settled(dy, Comp(dy, U, x), o, 0) && x in U
    ensures Elems(o) == Comp(dy, U, x)
  {
    var C := Comp(dy, U, x);
    CompClosed(dy, U, x);
    forall y, z | y in Elems(o) && z in U && Adj(dy, y, z)
      ensures z in Elems(o)
    {
      var i :| 0 <= i < |o| && o[i] == y;
      assert Adj(dy, o[i], z);
    }
    CompLeast(dy, U, x, Elems(o));
  }

  lemma VisitCount(C: set<int>, o: seq<int>)
    requires Distinct(o) && Elems(o) <= C
    ensures |C - Elems(o)| == |C| - |o|
  {
    DistinctSize(o, Elems(o));
    assert C == (C - Elems(o)) + Elems(o);
  }

  /** Whether a neighbour is still to be filled shows on its colour. */
  lemma FillTest(dy: int, s: Store, x: int, C: set<int>, c: int, o: seq<int>, t: Store, p: int, i: int)
    requires Filling(dy, s, x, C, c, o, t) && p in C && 0 <= i < 4
    ensures 0 < Nbr(dy, p, i) < |t.b|
    ensures t.b[Nbr(dy, p, i)] == EMPTY <==> Nbr(dy, p, i) in C && Nbr(dy, p, i) !in o
  {
    FillSiteFacts(dy, s, x, C, c);
    NbrsInRange(dy, s.b, p);
    NbrAdj(dy, p, i);
    assert Nbr(dy, p, i) in o <==> Nbr(dy, p, i) in Elems(o);
  }

  // ----- rebuilding chains whose heads were wiped

  /** The store with the pending stones P, which have no head at present, taken for wall. */
  ghost function Without(s: Store, P: set<int>): Store
  {
    s.(b := Relabel(s.b, P, WALL))
  }

  /** All stones outside P are in order; those in P, of colour c, have no head yet. */
  ghost predicate Pending(dy: int, s: Store, P: set<int>, c: int)
  {
    && Coloured(dy, s.b) && Stone(c) && (forall p :: p in P ==> 0 < p < |s.b| && s.b[p] == c)
    && StoreOk(dy, Without(s, P)) && Maximal(dy, Relabel(s.b, P, WALL), s.head)
  }

  /** C is a whole pending chain around x. */
  ghost predicate RebuildSite(dy: int, s: Store, P: set<int>, x: int, C: set<int>, c: int)
  {
    Pending(dy, s, P, c) && x in C && C <= P && C == Comp(dy, Pts(s.b, c), x)
  }

  /** t is s with the points of o rebuilt so far. */
  ghost predicate Rebuilding(dy: int, s: Store, P: set<int>, x: int, C: set<int>, c: int, o: seq<int>, t: Store)
  {
    RebuildSite(dy, s, P, x, C, c) && Elems(o) <= C && Rebuilt(dy, s, x, o, t)
  }

  ghost predicate Rebuilt(dy: int, s: Store, x: int, o: seq<int>, t: Store)
  {
    && 0 <= x < |s.cnt| && x < |s.lib|
    && t.b == s.b && Growing(s, x, o, t) && t.lib == s.lib[x := |Libs(dy, s.b, Elems(o))|]
  }

  lemma RebuiltStep(dy: int, s: Store, x: int, o: seq<int>, t: Store, u: Store, p: int, gained: int)
    requires dy >= 3 && Rebuilt(dy, s, x, o, t) && p !in o && (o == [] ==> p == x)
    requires 0 < p < |t.b| == |t.head| == |t.cnt| == |t.nxt| == |t.prv| == |t.lib| && 0 <= Tail(o, x) < |t.b|
    requires 0 < p - dy && p + dy < |t.b| && 0 <= x < |t.b|
    requires gained == |NewLibs(dy, t.b, Elems(o), p, 4)|
    requires u.b == t.b && Visited(dy, t, u, x, p, Tail(o, x), |o| + 1) && u.lib == t.lib[x := t.lib[x] + gained]
    ensures Rebuilt(dy, s, x, o + [p], u)
  {
    hide Libs, NewLibs, Line, Relabel;
    assert Elems(o + [p]) == Elems(o) + {p};
    GrowStep(s, x, o, t, u, p);
    NewLibsAll(dy, s.b, Elems(o), p);
  }

  lemma RebuildSiteFacts(dy: int, s: Store, P: set<int>, x: int, C: set<int>, c: int)
    requires RebuildSite(dy, s, P, x, C, c)
    ensures forall p :: p in C ==> 0 < p < |s.b| && s.b[p] == c && s.head[p] == 0
    ensures forall p, q {:trigger Adj(dy, p, q)} :: p in C && 0 <= q < |s.b| && s.b[q] == c && Adj(dy, p, q) ==> q in C
    ensures |s.head| == |s.cnt| == |s.lib| == |s.nxt| == |s.prv| == |s.b|
    ensures forall p :: 0 <= p < |s.b| ==> s.head[p] != x
    ensures s.lib[x] == 0 && s.cnt[x] == 0
  {
    CompClosed(dy, Pts(s.b, c), x);
    NobodysHead(Relabel(s.b, P, WALL), s.head, x);
    assert x !in s.rings;
    assert Closed(dy, Pts(s.b, c), C);
    assert s.head[x] != x;
  }

  lemma RebuildStart(dy: int, s: Store, P: set<int>, x: int, C: set<int>, c: int)
    requires RebuildSite(dy, s, P, x, C, c)
    ensures 0 < x < |s.b| && Rebuilding(dy, s, P, x, C, c, [], s)
  {
    RebuildSiteFacts(dy, s, P, x, C, c);
    assert Elems([]) == {};
    assert Relabel(s.head, {}, x) == s.head;
    assert Libs(dy, s.b, {}) == {};
    assert s.cnt[x := 0] == s.cnt && s.lib[x := 0] == s.lib;
  }

  lemma RebuildReady(dy: int, s: Store, P: set<int>, x: int, C: set<int>, c: int, o: seq<int>, t: Store, p: int)
    requires Rebuilding(dy, s, P, x, C, c, o, t) && p in C && (o == [] ==> p == x)
    ensures 0 < p < |t.b| && t.b[p] == c && 0 <= Tail(o, x) < |t.b| && Coloured(dy, t.b) && Stone(c)
    ensures 0 < p - dy && p + dy < |t.b|
    ensures |t.b| == |t.head| == |t.cnt| == |t.nxt| == |t.prv| == |t.lib|
    ensures 0 <= x < |t.b| && t.cnt[x] == |o| && t.lib[x] == |Libs(dy, t.b, Elems(o))|
    ensures Class(t.head, x) == Elems(o)
  {
    RebuildSiteFacts(dy, s, P, x, C, c);
    NbrsInRange(dy, s.b, p);
  }

  lemma RebuildStep(dy: int, s: Store, P: set<int>, x: int, C: set<int>, c: int, o: seq<int>, t: Store, u: Store,
          p: int, gained: int)
    requires Rebuilding(dy, s, P, x, C, c, o, t) && p in C && p !in o && (o == [] ==> p == x)
    requires 0 < p < |t.b| == |t.head| == |t.cnt| == |t.nxt| == |t.prv| == |t.lib| && 0 <= Tail(o, x) < |t.b|
    requires 0 < p - dy && p + dy < |t.b| && 0 <= x < |t.b|
    requires gained == |NewLibs(dy, t.b, Elems(o), p, 4)|
    requires u.b == t.b && Visited(dy, t, u, x, p, Tail(o, x), |o| + 1) && u.lib == t.lib[x := t.lib[x] + gained]
    ensures Rebuilding(dy, s, P, x, C, c, o + [p], u)
  {
    assert Elems(o + [p]) == Elems(o) + {p};
    RebuiltStep(dy, s, x, o, t, u, p, gained);
  }

  lemma RebuildTest(dy: int, s: Store, P: set<int>, x: int, C: set<int>, c: int, o: seq<int>, t: Store, p: int, i: int)
    requires Rebuilding(dy, s, P, x, C, c, o, t) && p in C && 0 <= i < 4
    ensures 0 < Nbr(dy, p, i) < |t.b| == |t.head|
    ensures t.b[Nbr(dy, p, i)] == c && t.head[Nbr(dy, p, i)] != x <==> Nbr(dy, p, i) in C && Nbr(dy, p, i) !in o
  {
    RebuildSiteFacts(dy, s, P, x, C, c);
    NbrsInRange(dy, s.b, p);
    NbrAdj(dy, p, i);
    assert Nbr(dy, p, i) in o <==> Nbr(dy, p, i) in Elems(o);
  }

  lemma RebuildDone(dy: int, s: Store, P: set<int>, x: int, C: set<int>, c: int, o: seq<int>, t: Store, u: Store)
    requires Rebuilding(dy, s, P, x, C, c, o, t) && Elems(o) == C && o != []
    requires Grown(s, x, o, t, u) && u.b == t.b && u.lib == t.lib
    ensures Pending(dy, u, P - C, c)
  {
    RebuildSiteFacts(dy, s, P, x, C, c);
    var v, w := Without(s, P), Without(u, P - C);
    assert w.b == Relabel(v.b, C, c);
    RebuildLibs(dy, s, P, x, C, c, u);
    forall q | 0 <= q < |v.b| && v.b[q] == c
      ensures !Touches(dy, q, C)
    {
      if Touches(dy, q, C) {
        var p := TouchesWitness(dy, q, C);
      }
    }
    GrownStore(dy, v, x, o, t.(b := v.b), w, c, Pts(s.b, c));
  }

  lemma RebuildLibs(dy: int, s: Store, P: set<int>, x: int, C: set<int>, c: int, u: Store)
    requires RebuildSite(dy, s, P, x, C, c) && |s.head| == |s.lib| == |s.b| && 0 <= x < |s.b|
    requires u.b == s.b && u.head == Relabel(s.head, C, x) && u.lib == s.lib[x := |Libs(dy, s.b, C)|]
    ensures LibsOk(dy, Relabel(u.b, P - C, WALL), u.head, u.lib)
  {
    RebuildSiteFacts(dy, s, P, x, C, c);
    var b, v := Relabel(u.b, P - C, WALL), Relabel(s.b, P, WALL);
    forall g | 0 <= g < |u.lib|
      ensures u.lib[g] == if u.head[g] == g then |Libs(dy, b, Class(u.head, g))| else 0
    {
      if g == x {
        assert Class(u.head, x) == C;
        assert Libs(dy, b, C) == Libs(dy, s.b, C);
      } else if s.head[g] == g {
        assert Class(u.head, g) == Class(s.head, g);
        assert Libs(dy, b, Class(s.head, g)) == Libs(dy, v, Class(s.head, g));
      }
    }
  }

  // ----- deleting the stone played

  lemma ChangeKeepsChain(dy: int, b: seq<int>, r: seq<int>, X: set<int>, p: int)
    requires |r| == |b| && 0 <= p < |b|
    requires forall q :: 0 <= q < |b| && q !in X ==> r[q] == b[q]
    requires forall q :: 0 <= q < |b| && q in X ==> r[q] != b[p]
    requires Chain(dy, b, p) !! X
    ensures p !in X && r[p] == b[p] && Chain(dy, r, p) == Chain(dy, b, p)
  {
    ChainBasics(dy, b, p);
    assert Pts(r, b[p]) == Pts(b, b[p]) - X;
    CompLocal(dy, Pts(b, b[p]), Pts(r, b[p]), p);
  }

  /** t is s after the stone at loc, of the group X with head h, has been taken off and the whole group
      has lost its head. */
  ghost predicate Deleted(dy: int, s: Store, t: Store, loc: int, h: int, X: set<int>)
    requires 0 <= loc < |s.b| == |s.head| && 0 <= h < |s.cnt| && h < |s.lib|
    requires 0 <= loc - dy && loc + dy < |s.b| && dy >= 3
  {
    && t.b == s.b[loc := EMPTY] && t.head == Clear(s.head, X) && t.cnt == s.cnt[h := 0] && t.rings == s.rings - {h}
    && |t.nxt| == |t.prv| == |s.nxt| == |s.prv|
    && (forall p :: 0 <= p < |t.nxt| && p !in X && p < |s.prv| ==> t.nxt[p] == s.nxt[p] && t.prv[p] == s.prv[p])
    && Bumped(dy, t.b, s.head, loc, {Opp(s.b[loc])}, 1, s.lib[h := 0], t.lib)
  }

  lemma DeleteNbrs(dy: int, s: Store, loc: int)
    requires StoreOk(dy, s) && 0 <= loc < |s.b| && Stone(s.b[loc])
    ensures 0 < loc - dy && loc + dy < |s.b|
    ensures NbrsTold(dy, s.b[loc := EMPTY], s.head, loc, {Opp(s.b[loc])})
  {
    HeadsTell(dy, s.b, s.head, loc, {Opp(s.b[loc])});
    NbrsInRange(dy, s.b, loc);
  }

  lemma DeleteNbrHead(dy: int, b: seq<int>, head: seq<int>, loc: int, g: int)
    requires Coloured(dy, b) && HeadsOk(b, head) && 0 <= loc < |b| && Stone(b[loc]) && 0 <= g < |b|
    ensures 0 <= loc - dy && loc + dy < |b|
    ensures NbrHead(dy, b[loc := EMPTY], head, loc, {Opp(b[loc])}, g) <==>
      (head[g] == g && b[g] == Opp(b[loc]) && Touches(dy, loc, Class(head, g)))
  {
    NbrsInRange(dy, b, loc);
    forall q | Adj(dy, loc, q)
      ensures b[loc := EMPTY][q] == Opp(b[loc]) && head[q] == g <==> (head[g] == g && b[g] == Opp(b[loc]) && q in Class(head, g))
    {
      assert if Stone(b[q]) then 0 < head[q] < |b| && b[head[q]] == b[q] && head[head[q]] == head[q] else head[q] == 0;
    }
    assert Adj(dy, loc, loc - dy) && Adj(dy, loc, loc - 1) && Adj(dy, loc, loc + 1) && Adj(dy, loc, loc + dy);
  }

  lemma DeleteLibs(dy: int, s: Store, t: Store, loc: int, h: int, X: set<int>)
    requires StoreOk(dy, s) && Maximal(dy, s.b, s.head) && 0 < loc < |s.b| && Stone(s.b[loc])
    requires h == s.head[loc] && X == Class(s.head, h)
    requires 0 <= loc - dy && loc + dy < |s.b| && Deleted(dy, s, t, loc, h, X)
    ensures LibsOk(dy, Relabel(t.b, X - {loc}, WALL), t.head, t.lib)
  {
    var v := Relabel(t.b, X - {loc}, WALL);
    forall g | 0 <= g < |t.lib|
      ensures t.lib[g] == if t.head[g] == g then |Libs(dy, v, Class(t.head, g))| else 0
    {
      DeleteNbrHead(dy, s.b, s.head, loc, g);
      if g == h {
      } else if s.head[g] == g {
        assert Class(t.head, g) == Class(s.head, g);
        DeleteLib(dy, s, t, loc, h, X, g);
      }
    }
  }

  lemma DeleteLib(dy: int, s: Store, t: Store, loc: int, h: int, X: set<int>, g: int)
    requires StoreOk(dy, s) && Maximal(dy, s.b, s.head) && 0 < loc < |s.b| && Stone(s.b[loc])
    requires h == s.head[loc] && X == Class(s.head, h) && t.b == s.b[loc := EMPTY]
    requires 0 <= g < |s.b| && g != h && s.head[g] == g
    ensures |Libs(dy, Relabel(t.b, X - {loc}, WALL), Class(s.head, g))| == |Libs(dy, s.b, Class(s.head, g))|
      + if s.b[g] == Opp(s.b[loc]) && Touches(dy, loc, Class(s.head, g)) then 1 else 0
  {
    hide RingsOk, LibsOk, LinkedOk, Coloured;
    var C, v := Class(s.head, g), Relabel(t.b, X - {loc}, WALL);
    if Touches(dy, loc, C) {
      var q := TouchesWitness(dy, loc, C);
      assert s.head[q] == g && s.b[q] == s.b[g] && s.b[q] != s.b[loc];
    }
    hide HeadsOk, Maximal;
    assert forall e :: 0 <= e < |v| ==> (v[e] == EMPTY <==> e == loc || s.b[e] == EMPTY) by {
      DeleteEmpties(dy, s, t, loc, h, X);
    }
    hide Relabel;
    MoreEmpty(dy, s.b, v, loc, C);
  }

  lemma DeleteEmpties(dy: int, s: Store, t: Store, loc: int, h: int, X: set<int>)
    requires StoreOk(dy, s) && 0 < loc < |s.b| && Stone(s.b[loc])
    requires h == s.head[loc] && X == Class(s.head, h) && t.b == s.b[loc := EMPTY]
    ensures var v := Relabel(t.b, X - {loc}, WALL);
      forall e :: 0 <= e < |v| ==> (v[e] == EMPTY <==> e == loc || s.b[e] == EMPTY)
  {
    hide RingsOk, LibsOk, LinkedOk, Coloured;
  }

  /** One more empty point is one more liberty for what it touches. */
  lemma MoreEmpty(dy: int, b: seq<int>, v: seq<int>, loc: int, C: set<int>)
    requires |v| == |b| && 0 <= loc < |b| && b[loc] != EMPTY
    requires forall e :: 0 <= e < |v| ==> (v[e] == EMPTY <==> e == loc || b[e] == EMPTY)
    ensures |Libs(dy, v, C)| == |Libs(dy, b, C)| + if Touches(dy, loc, C) then 1 else 0
  {
    if Touches(dy, loc, C) {
      assert Libs(dy, v, C) == Libs(dy, b, C) + {loc};
    } else {
      assert Libs(dy, v, C) == Libs(dy, b, C);
    }
  }

  lemma DeleteRings(s: Store, t: Store, h: int, X: set<int>)
    requires HeadsOk(s.b, s.head) && RingsOk(s) && h in s.rings && X == Class(s.head, h)
    requires |t.b| == |s.b| && t.head == Clear(s.head, X) && t.cnt == s.cnt[h := 0] && t.rings == s.rings - {h}
    requires |t.nxt| == |t.prv| == |s.nxt|
    requires forall p :: 0 <= p < |t.nxt| && p !in X ==> t.nxt[p] == s.nxt[p] && t.prv[p] == s.prv[p]
    ensures RingsOk(t)
  {
    forall g | g in t.rings
      ensures GroupOk(t.head, t.nxt, t.prv, t.cnt, t.rings[g], g)
    {
      GroupFrame(s.head, s.nxt, s.prv, s.cnt, t.head, t.nxt, t.prv, t.cnt, s.rings[g], g);
    }
  }

  lemma DeleteHeads(b: seq<int>, head: seq<int>, loc: int, h: int)
    requires HeadsOk(b, head) && 0 < loc < |b| && Stone(b[loc]) && h == head[loc]
    ensures var X := Class(head, h); HeadsOk(Relabel(b[loc := EMPTY], X - {loc}, WALL), Clear(head, X))
    ensures forall p :: p in Class(head, h) ==> 0 < p < |b| && b[p] == b[loc]
  {
  }

  lemma DeletePending(dy: int, s: Store, t: Store, loc: int, h: int, X: set<int>)
    requires StoreOk(dy, s) && Maximal(dy, s.b, s.head) && 0 < loc < |s.b| && Stone(s.b[loc])
    requires h == s.head[loc] && X == Class(s.head, h)
    requires 0 <= loc - dy && loc + dy < |s.b| && Deleted(dy, s, t, loc, h, X)
    ensures Pending(dy, t, X - {loc}, s.b[loc])
  {
    assert h in s.rings;
    var v := Relabel(t.b, X - {loc}, WALL);
    DeleteHeads(s.b, s.head, loc, h);
    DeleteRings(s, t.(b := s.b), h, X);
    assert RingsOk(t.(b := v));
    DeleteLibs(dy, s, t, loc, h, X);
    ClassIsChain(dy, s, loc);
    DeletedGroups(dy, s.b, s.head, v, X, loc);
  }

  /** Deleting a stone, whether it stood alone or its group's heads had to be wiped. */
  lemma DeleteOutcome(dy: int, s: Store, t: Store, loc: int, split: bool)
    requires StoreOk(dy, s) && Maximal(dy, s.b, s.head) && 0 < loc < |s.b| && Stone(s.b[loc])
    requires var h := s.head[loc];
      && 0 <= loc - dy && loc + dy < |s.b| && 0 <= h < |s.cnt| == |s.lib| == |s.head|
      && (split <==> s.cnt[h] > 1)
      && t.b == s.b[loc := EMPTY] && t.head == (if split then Clear(s.head, Class(s.head, h)) else s.head)
      && t.cnt == s.cnt[h := 0] && t.nxt == s.nxt && t.prv == s.prv && t.rings == s.rings - {h}
      && Bumped(dy, t.b, s.head, loc, {Opp(s.b[loc])}, 1, s.lib[h := 0], t.lib)
    ensures var X := Class(s.head, s.head[loc]);
      && Pending(dy, t.(head := t.head[loc := 0]), X - {loc}, s.b[loc])
      && (split ==> t.head[loc] == 0) && (!split ==> X == {loc})
  {
    var h := s.head[loc];
    var X := Class(s.head, h);
    assert h in s.rings;
    if !split {
      assert loc in s.rings[h];
      assert X == {loc};
    }
    assert t.head[loc := 0] == Clear(s.head, X);
    DeletePending(dy, s, t.(head := t.head[loc := 0]), loc, h, X);
  }

  lemma DeletedGroups(dy: int, b: seq<int>, head: seq<int>, v: seq<int>, X: set<int>, loc: int)
    requires Coloured(dy, b) && HeadsOk(b, head) && LinkedOk(dy, b, head) && Maximal(dy, b, head)
    requires 0 < loc < |b| == |v| && X == Chain(dy, b, loc) && Stone(b[loc])
    requires v == Relabel(b[loc := EMPTY], X - {loc}, WALL)
    ensures Coloured(dy, v) && Coloured(dy, b[loc := EMPTY])
    ensures LinkedOk(dy, v, Clear(head, X)) && Maximal(dy, v, Clear(head, X))
  {
    ChainBasics(dy, b, loc);
    var head' := Clear(head, X);
    forall p | 0 < p < |v| && Stone(v[p])
      ensures p !in X && v[p] == b[p] && head'[p] == head[p] && 0 < head[p]
    {
      assert Stone(b[p]);
    }
    forall p, q | 0 < p < |v| && 0 < q < |v| && Stone(v[p]) && head'[p] == head'[q]
      ensures q in Chain(dy, v, p)
    {
      DeletedChain(dy, b, v, X, loc, p);
    }
  }

  lemma DeletedChain(dy: int, b: seq<int>, v: seq<int>, X: set<int>, loc: int, p: int)
    requires 0 <= loc < |b| == |v| && 0 <= p < |b| && X == Chain(dy, b, loc) && Stone(b[loc])
    requires v == Relabel(b[loc := EMPTY], X - {loc}, WALL) && Stone(v[p])
    ensures Chain(dy, v, p) == Chain(dy, b, p)
  {
    ChainBasics(dy, b, loc);
    if x :| x in Chain(dy, b, p) && x in X {
      ChainSame(dy, b, p, x);
      ChainSame(dy, b, loc, x);
      ChainBasics(dy, b, p);
    }
    ChangeKeepsChain(dy, b, v, X, p);
  }

  /** Wiping the head of an empty point again changes nothing. */
  lemma HeadlessPoint(dy: int, s: Store, P: set<int>, c: int, loc: int)
    requires Pending(dy, s, P, c) && 0 < loc < |s.b| && s.b[loc] == EMPTY && loc !in P
    ensures |s.head| == |s.b| && s.head[loc := 0] == s.head
    ensures s.(head := s.head[loc := 0]) == s
  {
    assert !Stone(Relabel(s.b, P, WALL)[loc]);
  }

  lemma NothingPending(dy: int, s: Store, c: int)
    requires Pending(dy, s, {}, c)
    ensures StoreOk(dy, s) && Maximal(dy, s.b, s.head)
  {
    assert Relabel(s.b, {}, WALL) == s.b;
    assert Without(s, {}) == s;
  }

  /** The links of a point without a stone do not matter. */
  lemma PendingLinks(dy: int, s: Store, t: Store, P: set<int>, c: int, loc: int)
    requires Pending(dy, s, P, c) && 0 < loc < |s.b| && s.b[loc] == EMPTY && loc !in P
    requires t == s.(head := t.head, nxt := t.nxt, prv := t.prv)
    requires t.head == s.head[loc := 0] && |s.nxt| == |s.prv| == |s.b|
    requires t.nxt == s.nxt[loc := 0] && t.prv == s.prv[loc := 0]
    ensures Pending(dy, t, P, c)
  {
    var v := Without(s, P);
    assert v.b[loc] == EMPTY;
    assert !Stone(v.b[loc]);
    assert t.head == s.head;
    forall h | h in s.rings
      ensures GroupOk(t.head, t.nxt, t.prv, t.cnt, s.rings[h], h)
    {
      GroupFrame(s.head, s.nxt, s.prv, s.cnt, t.head, t.nxt, t.prv, t.cnt, s.rings[h], h);
    }
    assert RingsOk(Without(t, P));
  }

  // ----- refilling the captured chains

  /** Where a dead chain C of b1 has been cleared, together with other chains of its colour, its points
      form an empty region that can be filled. */
  lemma DeadChainSite(dy: int, b1: seq<int>, K: set<int>, s: Store, x: int, c: int)
    requires StoreOk(dy, s) && Maximal(dy, s.b, s.head) && s.b == Clear(b1, K) && Stone(c)
    requires 0 <= x < |b1| && b1[x] == c && Libs(dy, b1, Chain(dy, b1, x)) == {}
    requires forall q :: q in K ==> 0 <= q < |b1| && b1[q] == c
    requires Chain(dy, b1, x) <= K
    ensures FillSite(dy, s, x, Chain(dy, b1, x), c)
    ensures Relabel(s.b, Chain(dy, b1, x), c) == Clear(b1, K - Chain(dy, b1, x))
  {
    var C := Chain(dy, b1, x);
    ChainBasics(dy, b1, x);
    forall y, z | y in C && z in Pts(s.b, EMPTY) && Adj(dy, y, z)
      ensures z in C
    {
      assert Adj(dy, z, y);
      AdjTouches(dy, z, y, C);
      assert z !in Libs(dy, b1, C);
    }
    CompLocal(dy, Pts(b1, c), Pts(s.b, EMPTY), x);
    forall q | 0 <= q < |s.b| && s.b[q] == c
      ensures !Touches(dy, q, C)
    {
      if Touches(dy, q, C) {
        var p := TouchesWitness(dy, q, C);
      }
    }
  }

  /** K: the captured points not refilled yet, whole chains, none around the directions already done. */
  ghost predicate Refilling(dy: int, b: seq<int>, pla: int, loc: int, K: set<int>, dirs: seq<int>, i: int)
    requires 0 <= loc < |b| && 0 <= i <= |dirs|
  {
    && K <= Captured(dy, b, pla, loc)
    && (forall q :: q in K ==> 0 <= q < |b| && Chain(dy, b[loc := pla], q) <= K)
    && (forall j :: 0 <= j < i ==> Nbr(dy, loc, dirs[j]) !in K)
  }

  lemma RefillTest(dy: int, b: seq<int>, pla: int, loc: int, K: set<int>, dirs: seq<int>, i: int)
    requires Position(dy, b) && Stone(pla) && 0 <= loc < |b| && b[loc] == EMPTY
    requires 0 <= i < |dirs| && Refilling(dy, b, pla, loc, K, dirs, i)
    requires 0 <= dirs[i] < 4 && Nbr(dy, loc, dirs[i]) in Captured(dy, b, pla, loc)
    ensures var q, b1 := Nbr(dy, loc, dirs[i]), b[loc := pla];
      && 0 <= q < |b|
      && (Clear(b1, K)[q] == EMPTY <==> q in K)
      && (q in K ==> Refilling(dy, b, pla, loc, K - Chain(dy, b1, q), dirs, i + 1))
      && (q !in K ==> Refilling(dy, b, pla, loc, K, dirs, i + 1))
  {
    var q, b1 := Nbr(dy, loc, dirs[i]), b[loc := pla];
    if q in K {
      var C := Chain(dy, b1, q);
      ChainBasics(dy, b1, q);
      forall p | p in K - C
        ensures Chain(dy, b1, p) <= K - C
      {
        if x :| x in Chain(dy, b1, p) && x in C {
          ChainSame(dy, b1, p, x);
          ChainSame(dy, b1, q, x);
          ChainBasics(dy, b1, p);
        }
      }
    }
  }

  lemma RefillBegin(dy: int, b: seq<int>, pla: int, loc: int, dirs: seq<int>)
    requires 0 <= loc < |b|
    ensures Refilling(dy, b, pla, loc, Captured(dy, b, pla, loc), dirs, 0)
  {
    var b1 := b[loc := pla];
    forall q | q in Captured(dy, b, pla, loc)
      ensures Chain(dy, b1, q) <= Captured(dy, b, pla, loc)
    {
      forall p | p in Chain(dy, b1, q)
        ensures p in Captured(dy, b, pla, loc)
      {
        ChainSame(dy, b1, q, p);
      }
    }
  }

  lemma RefillDone(dy: int, b: seq<int>, pla: int, loc: int, K: set<int>, dirs: seq<int>)
    requires Position(dy, b) && Stone(pla) && 0 <= loc < |b| && b[loc] == EMPTY
    requires Refilling(dy, b, pla, loc, K, dirs, |dirs|)
    requires CapDirs(dy, b, pla, loc, dirs, 4)
    ensures K == {}
  {
    if p :| p in K {
      var j := CapturedNbr(dy, b, pla, loc, p);
      assert j in dirs;
      CapturedTouch(dy, b, pla, loc, p);
    }
  }

  /** A move that captures is no suicide; a suicide removes just the new stone's chain, dead as it is. */
  lemma UndoCases(dy: int, b: seq<int>, pla: int, loc: int)
    requires Position(dy, b) && Stone(pla) && 0 <= loc < |b| && b[loc] == EMPTY
    ensures Suicide(dy, b, pla, loc) ==> Captured(dy, b, pla, loc) == {}
    ensures var b1 := b[loc := pla]; Suicide(dy, b, pla, loc) ==>
      Libs(dy, b1, Chain(dy, b1, loc)) == {} && Move(dy, b, pla, loc) == Clear(b1, Chain(dy, b1, loc))
    ensures !Suicide(dy, b, pla, loc) ==> Move(dy, b, pla, loc) == Clear(b[loc := pla], Captured(dy, b, pla, loc))
  {
    SuicideTest(dy, b, pla, loc);
    NewChainKept(dy, b, pla, loc);
    if Suicide(dy, b, pla, loc) {
      if p :| p in Captured(dy, b, pla, loc) {
        var j := CapturedNbr(dy, b, pla, loc, p);
        NbrAdj(dy, loc, j);
        AtariCaptured(dy, b, pla, loc, Nbr(dy, loc, j));
        SuicideFails(dy, b, pla, loc, Nbr(dy, loc, j));
      }
      assert AfterCaptures(dy, b, pla, loc) == b[loc := pla];
    }
  }

  // ----- records

  datatype MoveRecord = MoveRecord(pla: int, loc: int, simpleKoPoint: Option<int>, capDirs: seq<int>, selfCap: bool)

  /** dirs lists the capturing ones among the first i directions. */
  ghost predicate CapDirs(dy: int, b: seq<int>, pla: int, loc: int, dirs: seq<int>, i: int)
    requires 0 <= loc < |b|
  {
    forall j {:trigger j in dirs} :: j in dirs <==> 0 <= j < i && Nbr(dy, loc, j) in Captured(dy, b, pla, loc)
  }

  lemma CapDirsStep(dy: int, b: seq<int>, pla: int, loc: int, dirs: seq<int>, i: int)
    requires 0 <= loc < |b| && 0 <= i && CapDirs(dy, b, pla, loc, dirs, i)
    ensures CapDirs(dy, b, pla, loc, if Nbr(dy, loc, i) in Captured(dy, b, pla, loc) then dirs + [i] else dirs, i + 1)
  {
  }

  /** rec records a move made on colouring b. */
  ghost predicate Records(dy: int, b: seq<int>, rec: MoveRecord)
  {
    && Stone(rec.pla)
    && (rec.loc != PASS ==>
          && 0 <= rec.loc < |b| && b[rec.loc] == EMPTY
          && CapDirs(dy, b, rec.pla, rec.loc, rec.capDirs, 4)
          && (rec.selfCap <==> Suicide(dy, b, rec.pla, rec.loc)))
  }

  // ----- rebuilding around the deleted stone

  /** P: the stones of the deleted stone's chain not rebuilt yet, whole chains of b, none around the first
      i neighbours of loc. */
  ghost predicate Rejoining(dy: int, b: seq<int>, pla: int, loc: int, P: set<int>, i: int)
    requires 0 <= loc < |b|
  {
    && P <= Allies(dy, b, pla, loc)
    && (forall q :: q in P ==> 0 < q < |b| && b[q] == pla && Chain(dy, b, q) <= P)
    && (forall j {:trigger Nbr(dy, loc, j)} :: 0 <= j < i ==> Nbr(dy, loc, j) !in P)
  }

  lemma RejoinStart(dy: int, b: seq<int>, pla: int, loc: int)
    requires Coloured(dy, b) && Stone(pla) && 0 <= loc < |b| && b[loc] == EMPTY
    ensures Chain(dy, b[loc := pla], loc) - {loc} == Allies(dy, b, pla, loc)
    ensures Rejoining(dy, b, pla, loc, Allies(dy, b, pla, loc), 0)
  {
    NewChain(dy, b, pla, loc);
    forall p | p in Allies(dy, b, pla, loc)
      ensures 0 < p < |b| && b[p] == pla && p != loc && Chain(dy, b, p) <= Allies(dy, b, pla, loc)
    {
      var q :| Adj(dy, loc, q) && 0 <= q < |b| && b[q] == pla && p in Chain(dy, b, q);
      ChainBasics(dy, b, q);
      ChainSame(dy, b, q, p);
    }
  }

  lemma RejoinTest(dy: int, s: Store, pla: int, loc: int, P: set<int>, i: int)
    requires Pending(dy, s, P, pla) && 0 <= loc < |s.b| && s.b[loc] == EMPTY && 0 <= i < 4
    ensures var q := Nbr(dy, loc, i);
      0 < q < |s.b| == |s.head| && (s.b[q] == pla && s.head[q] == 0 <==> q in P)
  {
    var q := Nbr(dy, loc, i);
    NbrsInRange(dy, s.b, loc);
    assert s.head[q] > 0 <==> Stone(Relabel(s.b, P, WALL)[q]);
  }

  lemma RejoinStep(dy: int, b: seq<int>, pla: int, loc: int, P: set<int>, i: int)
    requires 0 <= loc < |b| && Rejoining(dy, b, pla, loc, P, i) && i >= 0
    ensures var q := Nbr(dy, loc, i);
      if q in P
      then 0 <= q < |b| && b[q] == pla && q in Chain(dy, b, q) && Chain(dy, b, q) <= P
        && Rejoining(dy, b, pla, loc, P - Chain(dy, b, q), i + 1)
      else Rejoining(dy, b, pla, loc, P, i + 1)
  {
    var q := Nbr(dy, loc, i);
    if q in P {
      var C := Chain(dy, b, q);
      ChainBasics(dy, b, q);
      forall p | p in P - C
        ensures Chain(dy, b, p) <= P - C
      {
        if x :| x in Chain(dy, b, p) && x in C {
          ChainSame(dy, b, p, x);
          ChainSame(dy, b, q, x);
          ChainBasics(dy, b, p);
        }
      }
    }
  }

  lemma RejoinDone(dy: int, b: seq<int>, pla: int, loc: int, P: set<int>)
    requires 0 <= loc < |b| && Rejoining(dy, b, pla, loc, P, 4)
    ensures P == {}
  {
    if p :| p in P {
      var q :| Adj(dy, loc, q) && 0 <= q < |b| && b[q] == pla && p in Chain(dy, b, q);
      ChainSame(dy, b, q, p);
      ChainBasics(dy, b, q);
      AllNbrs(dy, loc, q);
    }
  }
}
