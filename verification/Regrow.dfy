/** Adding a whole group to the chain store by a depth-first walk, as undoing a move does twice over:
    over the empty points of a captured chain, and over the stones of a chain that has lost one. */
module Regrow {
  import opened Grid
  import opened Components
  import opened Rules
  import opened ChainStore

  // ----- the links a depth-first walk leaves

  /** o lists the visited points in order; each links back to the one visited before it. */
  ghost predicate Line(nxt: seq<int>, prv: seq<int>, o: seq<int>)
    requires |nxt| == |prv|
  {
    && (forall i :: 0 <= i < |o| ==> 0 <= o[i] < |nxt|)
    && (forall i {:trigger nxt[o[i]]} :: 0 < i < |o| ==> nxt[o[i]] == o[i - 1])
    && (forall i {:trigger prv[o[i]]} :: 0 <= i && i + 1 < |o| ==> prv[o[i]] == o[i + 1])
  }

  /** The ring that closing the line makes: its first point, then the others backwards. */
  ghost function LineRing(o: seq<int>): (r: seq<int>)
    requires |o| > 0
    ensures |r| == |o|
    ensures forall i :: 0 <= i < |r| ==> r[i] == if i == 0 then o[0] else o[|o| - i]
  {
    seq(|o|, i requires 0 <= i < |o| => if i == 0 then o[0] else o[|o| - i])
  }

  /** t is s with the points of o handed to head x, one after the other. */
  ghost predicate Growing(s: Store, x: int, o: seq<int>, t: Store)
    requires 0 <= x < |s.cnt|
  {
    && |t.nxt| == |t.prv| == |s.nxt| == |s.prv| == |s.head| == |s.cnt|
    && Distinct(o) && (o != [] ==> o[0] == x)
    && t.head == Relabel(s.head, Elems(o), x)
    && t.cnt == s.cnt[x := |o|]
    && t.rings == s.rings
    && (forall p :: 0 <= p < |t.nxt| && p !in o ==> t.nxt[p] == s.nxt[p] && t.prv[p] == s.prv[p])
    && Line(t.nxt, t.prv, o)
  }

  ghost function Tail(o: seq<int>, x: int): int { if o == [] then x else o[|o| - 1] }

  lemma GrowStep(s: Store, x: int, o: seq<int>, t: Store, u: Store, p: int)
    requires 0 <= x < |s.cnt| && Growing(s, x, o, t) && 0 <= p < |s.cnt| && p !in o && (o == [] ==> p == x)
    requires 0 <= Tail(o, x) < |t.prv| && 0 <= p < |t.head|
    requires u.head == t.head[p := x] && u.cnt == t.cnt[x := |o| + 1] && u.rings == t.rings
    requires u.nxt == t.nxt[p := Tail(o, x)] && u.prv == t.prv[Tail(o, x) := p]
    ensures Growing(s, x, o + [p], u)
  {
    var o' := o + [p];
    assert Elems(o') == Elems(o) + {p};
    RelabelStep(s.head, Elems(o), x, p);
    LineStep(t.nxt, t.prv, o, p, x);
    assert Distinct(o');
    assert forall q :: q !in o' ==> q !in o && q != p;
  }

  lemma LineStep(nxt: seq<int>, prv: seq<int>, o: seq<int>, p: int, x: int)
    requires |nxt| == |prv| && Line(nxt, prv, o) && Distinct(o) && 0 <= p < |nxt| && p !in o
    requires 0 <= Tail(o, x) < |prv| && (o == [] ==> p == x)
    ensures Line(nxt[p := Tail(o, x)], prv[Tail(o, x) := p], o + [p])
  {
    var o', nxt', prv' := o + [p], nxt[p := Tail(o, x)], prv[Tail(o, x) := p];
    forall i | 0 < i < |o'|
      ensures nxt'[o'[i]] == o'[i - 1]
    {
      if i < |o| {
        assert o'[i] == o[i] != p && o'[i - 1] == o[i - 1];
        assert nxt[o[i]] == o[i - 1];
      }
    }
    forall i | 0 <= i && i + 1 < |o'|
      ensures prv'[o'[i]] == o'[i + 1]
    {
      if i + 1 < |o| {
        assert o'[i] == o[i] != o[|o| - 1] && o'[i + 1] == o[i + 1];
        assert prv[o[i]] == o[i + 1];
      }
    }
  }

  lemma CloseLine(head: seq<int>, nxt: seq<int>, prv: seq<int>, o: seq<int>, x: int)
    requires |nxt| == |prv| == |head| && |o| > 0 && o[0] == x && Distinct(o) && Line(nxt, prv, o)
    requires forall p :: 0 <= p < |head| ==> (head[p] == x <==> p in o)
    requires forall p :: p in o ==> 0 < p
    ensures 0 <= x < |head| && 0 <= o[|o| - 1] < |head|
    ensures Ring(head, nxt[x := o[|o| - 1]], prv[o[|o| - 1] := x], LineRing(o), x)
  {
    var n, r := |o|, LineRing(o);
    var nxt', prv' := nxt[x := o[n - 1]], prv[o[n - 1] := x];
    forall i | 0 <= i < n
      ensures nxt'[r[i]] == r[Succ(i, n)] && prv'[r[Succ(i, n)]] == r[i]
    {
      if i == 0 {
      } else if i + 1 == n {
        assert r[i] == o[1] && nxt[o[1]] == o[1 - 1] && prv[o[0]] == o[0 + 1];
      } else {
        assert r[i] == o[n - i] && r[i + 1] == o[n - i - 1];
        assert nxt[o[n - i]] == o[n - i - 1] && prv[o[n - i - 1]] == o[n - i];
      }
    }
    LineRingMembers(o);
    forall i | 0 <= i < n
      ensures 0 < r[i] < |head| && head[r[i]] == x
    {
      assert r[i] in r;
    }
    assert forall p :: 0 <= p < |head| && head[p] == x ==> p in r;
  }

  lemma LineRingMembers(o: seq<int>)
    requires |o| > 0
    ensures forall p :: p in o <==> p in LineRing(o)
    ensures Distinct(o) ==> Distinct(LineRing(o))
  {
    var r := LineRing(o);
    forall p | p in o
      ensures p in r
    {
      var i :| 0 <= i < |o| && o[i] == p;
      assert r[if i == 0 then 0 else |o| - i] == p;
    }
  }

  // ----- the store with the new group

  /** u closes the line of t into a ring. */
  ghost predicate Grown(s: Store, x: int, o: seq<int>, t: Store, u: Store)
    requires 0 <= x < |s.cnt|
  {
    && o != [] && Growing(s, x, o, t) && 0 <= o[|o| - 1] < |t.prv| && x < |t.nxt|
    && u.head == t.head && u.cnt == t.cnt
    && u.nxt == t.nxt[x := o[|o| - 1]] && u.prv == t.prv[o[|o| - 1] := x]
    && u.rings == s.rings[x := LineRing(o)]
  }

  /** The new points belonged to nobody. */
  ghost predicate Unowned(s: Store, C: set<int>)
  {
    forall p :: p in C ==> 0 < p < |s.head| == |s.b| && !Stone(s.b[p])
  }

  lemma NobodysHead(b: seq<int>, head: seq<int>, x: int)
    requires HeadsOk(b, head) && 0 < x < |b| && !Stone(b[x])
    ensures forall p :: 0 <= p < |b| ==> head[p] != x
  {
  }

  lemma GrownHeads(b: seq<int>, head: seq<int>, x: int, C: set<int>, c: int)
    requires HeadsOk(b, head) && x in C && Stone(c)
    requires forall p :: p in C ==> 0 < p < |b| && !Stone(b[p])
    ensures HeadsOk(Relabel(b, C, c), Relabel(head, C, x))
  {
  }

  lemma GrownRings(s: Store, x: int, o: seq<int>, t: Store, u: Store, c: int)
    requires HeadsOk(s.b, s.head) && RingsOk(s) && 0 < x < |s.cnt|
    requires Grown(s, x, o, t, u) && Unowned(s, Elems(o)) && Stone(c)
    requires u.b == Relabel(s.b, Elems(o), c)
    ensures RingsOk(u)
  {
    NobodysHead(s.b, s.head, x);
    assert x !in s.rings;
    assert u.rings.Keys == s.rings.Keys + {x};
    forall h | h in u.rings
      ensures GroupOk(u.head, u.nxt, u.prv, u.cnt, u.rings[h], h)
    {
      GrownGroup(s, x, o, t, u, h);
    }
  }

  lemma GrownGroup(s: Store, x: int, o: seq<int>, t: Store, u: Store, h: int)
    requires HeadsOk(s.b, s.head) && RingsOk(s) && 0 < x < |s.cnt| && Grown(s, x, o, t, u) && Unowned(s, Elems(o))
    requires h in u.rings && 0 <= h < |s.head|
    ensures GroupOk(u.head, u.nxt, u.prv, u.cnt, u.rings[h], h)
  {
    NobodysHead(s.b, s.head, x);
    if h == x {
      CloseLine(u.head, t.nxt, t.prv, o, x);
    } else {
      assert forall p :: p in o ==> s.head[p] == 0 by {
        assert forall p :: p in o ==> p in Elems(o);
      }
      GroupFrame(s.head, s.nxt, s.prv, s.cnt, u.head, u.nxt, u.prv, u.cnt, s.rings[h], h);
    }
  }

  /** The new group is one chain, and the other chains are as before. */
  lemma GrownChains(dy: int, b: seq<int>, C: set<int>, c: int, x: int, U: set<int>, p: int)
    requires Stone(c) && x in U && Comp(dy, U, x) == C && 0 <= p < |b|
    requires forall q :: q in C ==> 0 <= q < |b| && !Stone(b[q])
    requires forall q :: 0 <= q < |b| && b[q] == c ==> !Touches(dy, q, C)
    ensures p in C ==> Chain(dy, Relabel(b, C, c), p) == C
    ensures p !in C && Stone(b[p]) ==> Chain(dy, Relabel(b, C, c), p) == Chain(dy, b, p)
  {
    var r := Relabel(b, C, c);
    CompClosed(dy, U, x);
    forall y, z | y in C && z in Pts(r, c) && Adj(dy, y, z)
      ensures z in C
    {
      assert Adj(dy, z, y);
      if z !in C {
        AdjTouches(dy, z, y, C);
      }
    }
    if p in C {
      assert Closed(dy, Pts(r, c), C);
      CompLocal(dy, U, Pts(r, c), x);
      ChainSame(dy, r, x, p);
    } else if Stone(b[p]) {
      OtherChainKept(dy, b, C, c, p);
    }
  }

  lemma OtherChainKept(dy: int, b: seq<int>, C: set<int>, c: int, p: int)
    requires Stone(c) && 0 <= p < |b| && Stone(b[p]) && p !in C
    requires forall q :: q in C ==> 0 <= q < |b| && !Stone(b[q])
    requires forall q :: 0 <= q < |b| && b[q] == c ==> !Touches(dy, q, C)
    ensures Chain(dy, Relabel(b, C, c), p) == Chain(dy, b, p)
  {
    var r := Relabel(b, C, c);
    ChainBasics(dy, b, p);
    if b[p] != c {
      assert Pts(r, b[p]) == Pts(b, b[p]);
    } else {
      assert Pts(r, c) == Pts(b, c) + C;
      forall y, z | y in Chain(dy, b, p) && z in Pts(r, c) && Adj(dy, y, z)
        ensures z in Chain(dy, b, p)
      {
        if z in C {
          AdjTouches(dy, y, z, C);
        }
      }
      CompLocal(dy, Pts(b, c), Pts(r, c), p);
    }
  }

  lemma GrownStore(dy: int, s: Store, x: int, o: seq<int>, t: Store, u: Store, c: int, U: set<int>)
    requires StoreOk(dy, s) && Maximal(dy, s.b, s.head) && 0 < x < |s.cnt|
    requires Grown(s, x, o, t, u) && Unowned(s, Elems(o)) && Stone(c)
    requires x in U && Comp(dy, U, x) == Elems(o)
    requires forall q :: 0 <= q < |s.b| && s.b[q] == c ==> !Touches(dy, q, Elems(o))
    requires u.b == Relabel(s.b, Elems(o), c) && Coloured(dy, u.b)
    requires LibsOk(dy, u.b, u.head, u.lib)
    ensures StoreOk(dy, u) && Maximal(dy, u.b, u.head)
  {
    var C := Elems(o);
    CompClosed(dy, U, x);
    GrownHeads(s.b, s.head, x, C, c);
    GrownRings(s, x, o, t, u, c);
    NobodysHead(s.b, s.head, x);
    forall p, q | 0 < p < |u.b| && 0 < q < |u.b| && Stone(u.b[p]) && u.head[p] == u.head[q]
      ensures q in Chain(dy, u.b, p)
    {
      GrownChains(dy, s.b, C, c, x, U, p);
    }
    forall p, q | 0 < p < |u.b| && 0 < q < |u.b| && Stone(u.b[p]) && u.b[p] == u.b[q] && Adj(dy, p, q)
      ensures u.head[p] == u.head[q]
    {
      assert Adj(dy, q, p);
      if p in C && q !in C {
        AdjTouches(dy, q, p, C);
      } else if p !in C && q in C {
        AdjTouches(dy, p, q, C);
      }
    }
  }
}
