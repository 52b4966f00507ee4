/** The chain store: what the six parallel arrays of the board must say about a colouring.

    `Store` is a snapshot of the arrays, together with the ring of every chain as a sequence. */
module ChainStore {
  import opened Grid
  import opened Components
  import opened Rules

  datatype Store = Store(
    b: seq<int>,               // colours
    head: seq<int>,            // the representative of each stone's chain
    cnt: seq<int>,             // stones in the chain, stored at the head
    lib: seq<int>,             // liberties of the chain, stored at the head
    nxt: seq<int>,             // ring links
    prv: seq<int>,
    rings: map<int, seq<int>>  // the ring of each head
  )

  ghost function Class(head: seq<int>, h: int): set<int>
  {
    set p | 0 <= p < |head| && head[p] == h
  }

  function Succ(i: int, n: int): int { if i + 1 == n then 0 else i + 1 }

  ghost predicate Distinct(r: seq<int>)
  {
    forall i, j :: 0 <= i < j < |r| ==> r[i] != r[j]
  }

  /** r lists each point with head h once, in the order of the links. */
  ghost predicate Ring(head: seq<int>, nxt: seq<int>, prv: seq<int>, r: seq<int>, h: int)
    requires |nxt| == |prv| == |head|
  {
    && |r| > 0 && Distinct(r)
    && (forall i :: 0 <= i < |r| ==> 0 < r[i] < |head| && head[r[i]] == h)
    && (forall p :: 0 <= p < |head| && head[p] == h ==> p in r)
    && (forall i {:trigger nxt[r[i]]} :: 0 <= i < |r| ==> nxt[r[i]] == r[Succ(i, |r|)])
    && (forall i {:trigger prv[r[Succ(i, |r|)]]} :: 0 <= i < |r| ==> prv[r[Succ(i, |r|)]] == r[i])
  }

  ghost predicate HeadsOk(b: seq<int>, head: seq<int>)
  {
    && |head| == |b| > 0 && head[0] == -1 && b[0] == WALL
    && forall p :: 0 < p < |b| ==>
        if Stone(b[p]) then 0 < head[p] < |b| && head[head[p]] == head[p] && b[head[p]] == b[p]
        else head[p] == 0
  }

  ghost predicate GroupOk(head: seq<int>, nxt: seq<int>, prv: seq<int>, cnt: seq<int>, r: seq<int>, h: int)
    requires |nxt| == |prv| == |head| == |cnt| && 0 <= h < |head|
  {
    Ring(head, nxt, prv, r, h) && r[0] == h && cnt[h] == |r|
  }

  ghost predicate RingsOk(s: Store)
  {
    && |s.nxt| == |s.prv| == |s.head| == |s.cnt| == |s.b|
    && (forall h {:trigger h in s.rings} :: h in s.rings <==> 0 < h < |s.head| && s.head[h] == h)
    && (forall h :: h in s.rings ==> GroupOk(s.head, s.nxt, s.prv, s.cnt, s.rings[h], h))
    && (forall p :: 0 <= p < |s.cnt| && p !in s.rings ==> s.cnt[p] == 0)
  }

  ghost predicate LibsOk(dy: int, b: seq<int>, head: seq<int>, lib: seq<int>)
  {
    && |lib| == |head| == |b|
    && forall h :: 0 <= h < |lib| ==> lib[h] == if head[h] == h then |Libs(dy, b, Class(head, h))| else 0
  }

  ghost predicate LinkedOk(dy: int, b: seq<int>, head: seq<int>)
    requires |head| == |b|
  {
    forall p, q :: 0 < p < |b| && 0 < q < |b| && Stone(b[p]) && head[p] == head[q] ==> q in Chain(dy, b, p)
  }

  /** Heads name disjoint linked groups of one colour, with exact rings and counts. */
  ghost predicate StoreOk(dy: int, s: Store)
  {
    Coloured(dy, s.b) && HeadsOk(s.b, s.head) && RingsOk(s) && LibsOk(dy, s.b, s.head, s.lib) && LinkedOk(dy, s.b, s.head)
  }

  /** No two adjacent stones of one colour have different heads. */
  ghost predicate Maximal(dy: int, b: seq<int>, head: seq<int>)
    requires |head| == |b|
  {
    forall p, q {:trigger Adj(dy, p, q)} ::
      0 < p < |b| && 0 < q < |b| && Stone(b[p]) && b[p] == b[q] && Adj(dy, p, q) ==> head[p] == head[q]
  }

  /** An array full of zeros describes a board without stones. */
  lemma BareStore(dy: int, s: Store)
    requires Coloured(dy, s.b) && |s.b| > 0 && s.b[0] == WALL && forall p :: 0 <= p < |s.b| ==> !Stone(s.b[p])
    requires |s.head| == |s.cnt| == |s.lib| == |s.nxt| == |s.prv| == |s.b| && s.rings == map[]
    requires s.head[0] == -1 && s.cnt[0] == 0 && s.lib[0] == 0
    requires forall p :: 0 < p < |s.b| ==> s.head[p] == s.cnt[p] == s.lib[p] == s.nxt[p] == s.prv[p] == 0
    ensures StoreOk(dy, s) && Maximal(dy, s.b, s.head) && AllBreathe(dy, s.b)
  {
    assert HeadsOk(s.b, s.head) && RingsOk(s);
  }

  // ----- classes and chains

  /** In a maximal store the heads cut the stones into exactly the chains. */
  lemma ClassIsChain(dy: int, s: Store, p: int)
    requires StoreOk(dy, s) && Maximal(dy, s.b, s.head) && 0 <= p < |s.b| && Stone(s.b[p])
    ensures Class(s.head, s.head[p]) == Chain(dy, s.b, p)
  {
    var C := Class(s.head, s.head[p]);
    assert Closed(dy, Pts(s.b, s.b[p]), C);
    CompLeast(dy, Pts(s.b, s.b[p]), p, C);
  }

  lemma DistinctSize(s: seq<int>, X: set<int>)
    requires Distinct(s) && forall p :: p in s ==> p in X
    ensures |s| <= |X|
    ensures (forall p :: p in X ==> p in s) ==> |s| == |X|
  {
    if s != [] {
      var n := |s| - 1;
      var t, Y := s[..n], X - {s[n]};
      assert forall p :: p in t ==> p in s;
      assert forall p :: p in Y && p in s ==> p in t;
      DistinctSize(t, Y);
    } else {
      assert forall p :: p !in s;
      assert (forall p :: p in X ==> p in s) ==> X == {};
    }
  }

  /** The numbers below n. */
  ghost function UpTo(n: nat): (r: set<int>)
    ensures |r| == n && forall m :: m in r <==> 0 <= m < n
  {
    if n == 0 then {} else UpTo(n - 1) + {n - 1}
  }

  /** What the counts at a head mean in a maximal store. */
  lemma CountsExact(dy: int, s: Store, p: int)
    requires StoreOk(dy, s) && Maximal(dy, s.b, s.head) && 0 <= p < |s.b| && Stone(s.b[p])
    ensures 0 < s.head[p] < |s.b| && s.head[p] in Chain(dy, s.b, p)
    ensures s.cnt[s.head[p]] == |Chain(dy, s.b, p)|
    ensures s.lib[s.head[p]] == |Libs(dy, s.b, Chain(dy, s.b, p))|
  {
    ClassIsChain(dy, s, p);
    var h := s.head[p];
    DistinctSize(s.rings[h], Chain(dy, s.b, p));
  }

  lemma HeadLibs(dy: int, s: Store, h: int)
    requires StoreOk(dy, s) && 0 < h < |s.b| && h < |s.head| && s.head[h] == h
    ensures h < |s.lib| && s.lib[h] == |Libs(dy, s.b, Class(s.head, h))|
  {
    hide RingsOk, LinkedOk, Coloured;
  }

  // ----- rings

  /** The ring of p's chain, rotated so that it starts at p. */
  ghost function RingFrom(s: Store, p: int): (r: seq<int>)
    requires RingsOk(s) && HeadsOk(s.b, s.head) && 0 <= p < |s.b| && Stone(s.b[p])
    ensures Ring(s.head, s.nxt, s.prv, r, s.head[p]) && r[0] == p && |r| == s.cnt[s.head[p]]
  {
    var r := s.rings[s.head[p]];
    var k :| 0 <= k < |r| && r[k] == p;
    Rotate(s.head, s.nxt, s.prv, r, s.head[p], k);
    Rotated(r, k)
  }

  /** A ring depends only on the heads and links of its own points. */
  lemma GroupFrame(head: seq<int>, nxt: seq<int>, prv: seq<int>, cnt: seq<int>,
        head': seq<int>, nxt': seq<int>, prv': seq<int>, cnt': seq<int>, r: seq<int>, h: int)
    requires |nxt| == |prv| == |head| == |cnt| == |head'| == |nxt'| == |prv'| == |cnt'| && 0 <= h < |head|
    requires GroupOk(head, nxt, prv, cnt, r, h) && cnt'[h] == cnt[h]
    requires forall p :: 0 <= p < |head| ==> (head'[p] == h <==> head[p] == h)
    requires forall p :: 0 <= p < |head| && head[p] == h ==> nxt'[p] == nxt[p] && prv'[p] == prv[p]
    ensures GroupOk(head', nxt', prv', cnt', r, h)
  {
  }

  ghost function Rotated(r: seq<int>, k: int): (t: seq<int>)
    requires 0 <= k < |r|
    ensures |t| == |r|
    ensures forall i :: 0 <= i < |r| ==> t[i] == r[Wrap(i + k, |r|)]
  {
    r[k..] + r[..k]
  }

  function Wrap(i: int, n: int): int { if i < n then i else i - n }

  lemma Rotate(head: seq<int>, nxt: seq<int>, prv: seq<int>, r: seq<int>, h: int, k: int)
    requires |nxt| == |prv| == |head|
    requires Ring(head, nxt, prv, r, h) && 0 <= k < |r|
    ensures Ring(head, nxt, prv, Rotated(r, k), h)
  {
    var t, n := Rotated(r, k), |r|;
    forall i | 0 <= i < n
      ensures nxt[t[i]] == t[Succ(i, n)] && prv[t[Succ(i, n)]] == t[i]
    {
      assert Wrap(Succ(i, n) + k, n) == Succ(Wrap(i + k, n), n);
    }
    RotateMembers(r, k);
  }

  lemma RotateMembers(r: seq<int>, k: int)
    requires 0 <= k < |r|
    ensures forall p :: p in r ==> p in Rotated(r, k)
    ensures Distinct(r) ==> Distinct(Rotated(r, k))
  {
    var t, n := Rotated(r, k), |r|;
    forall p | p in r
      ensures p in t
    {
      var i :| 0 <= i < n && r[i] == p;
      assert t[if i >= k then i - k else i + n - k] == p;
    }
  }

  /** Walking the ring: one link leads to the next position, and back to the start only at the end. */
  lemma RingStep(head: seq<int>, nxt: seq<int>, prv: seq<int>, r: seq<int>, h: int, k: int)
    requires |nxt| == |prv| == |head| && Ring(head, nxt, prv, r, h) && 0 <= k < |r|
    ensures 0 < r[k] < |head| && head[r[k]] == h && r[k] !in r[..k]
    ensures nxt[r[k]] == r[0] <==> k + 1 == |r|
    ensures k + 1 < |r| ==> nxt[r[k]] == r[k + 1]
  {
    assert nxt[r[k]] == r[Succ(k, |r|)];
  }

  ghost function Elems(r: seq<int>): set<int>
  {
    set p | p in r
  }

  lemma TailStep(r: seq<int>, i: int, x: int)
    requires Distinct(r) && 0 <= i < |r|
    ensures Elems(r[i..]) <= Elems(r) && r[i] in Elems(r[i..])
    ensures Elems(r[i + 1..]) + {x} == if r[i] == x then Elems(r[i..]) + {x} else Elems(r[i..]) + {x} - {r[i]}
  {
    assert r[i..] == [r[i]] + r[i + 1..];
  }

  lemma TailEnds(r: seq<int>, x: int, b: seq<int>)
    requires 0 <= x < |b|
    ensures Clear(b, Elems(r[|r|..]) + {x}) == b[x := EMPTY]
    ensures x in Elems(r) ==> Elems(r[0..]) + {x} == Elems(r)
  {
    assert r[0..] == r;
  }

  lemma Snoc(r: seq<int>, k: int)
    requires 0 <= k < |r|
    ensures r[..k] + [r[k]] == r[..k + 1]
    ensures r[..|r|] == r
  {
  }

  lemma ElemsStep(r: seq<int>, k: int)
    requires 0 <= k < |r|
    ensures Elems(r[..k + 1]) == Elems(r[..k]) + {r[k]}
  {
    assert r[..k + 1] == r[..k] + [r[k]];
  }

  lemma RingNonempty(s: Store, r: seq<int>, h: int)
    requires |s.nxt| == |s.prv| == |s.head| && Ring(s.head, s.nxt, s.prv, r, h)
    ensures |r| > 0 && Elems(r[..0]) == {}
  {
  }

  /** One step of a read-only walk around the ring r of head h. */
  lemma WalkStep(s: Store, r: seq<int>, h: int, k: int)
    requires |s.nxt| == |s.prv| == |s.head| && Ring(s.head, s.nxt, s.prv, r, h) && 0 <= k < |r|
    ensures 0 < r[k] < |s.head| && r[k] in Class(s.head, h) && Elems(r[..k + 1]) == Elems(r[..k]) + {r[k]}
    ensures s.nxt[r[k]] == r[0] <==> k + 1 == |r|
    ensures k + 1 < |r| ==> s.nxt[r[k]] == r[k + 1]
    ensures Elems(r[..|r|]) == Class(s.head, h)
  {
    RingStep(s.head, s.nxt, s.prv, r, h, k);
    ElemsStep(r, k);
    RingElems(s.head, s.nxt, s.prv, r, h);
  }

  lemma RingElems(head: seq<int>, nxt: seq<int>, prv: seq<int>, r: seq<int>, h: int)
    requires |nxt| == |prv| == |head| && Ring(head, nxt, prv, r, h)
    ensures Elems(r) == Class(head, h) && r[..|r|] == r
  {
  }

  /** The colours determine everything but the choice of heads and the order of rings: two maximal stores
      over the same colours have the same groups, with the same counts and rings around the same stones. */
  lemma ColoursDetermine(dy: int, s: Store, t: Store, p: int)
    requires StoreOk(dy, s) && Maximal(dy, s.b, s.head) && StoreOk(dy, t) && Maximal(dy, t.b, t.head)
    requires s.b == t.b && 0 <= p < |s.b| && Stone(s.b[p])
    ensures 0 < s.head[p] < |s.b| && 0 < t.head[p] < |t.b|
    ensures Class(s.head, s.head[p]) == Class(t.head, t.head[p])
    ensures s.cnt[s.head[p]] == t.cnt[t.head[p]] && s.lib[s.head[p]] == t.lib[t.head[p]]
    ensures Elems(RingFrom(s, p)) == Elems(RingFrom(t, p))
  {
    ClassIsChain(dy, s, p);
    ClassIsChain(dy, t, p);
    CountsExact(dy, s, p);
    CountsExact(dy, t, p);
    RingElems(s.head, s.nxt, s.prv, RingFrom(s, p), s.head[p]);
    RingElems(t.head, t.nxt, t.prv, RingFrom(t, p), t.head[p]);
  }

  ghost function Relabel(head: seq<int>, X: set<int>, h: int): (r: seq<int>)
    ensures |r| == |head|
    ensures forall p :: 0 <= p < |r| ==> r[p] == if p in X then h else head[p]
  {
    seq(|head|, p requires 0 <= p < |head| => if p in X then h else head[p])
  }

  lemma RelabelStep(head: seq<int>, X: set<int>, h: int, p: int)
    requires 0 <= p < |head|
    ensures Relabel(head, X, h)[p := h] == Relabel(head, X + {p}, h)
  {
  }

  lemma RelabelClass(head: seq<int>, X: set<int>, h: int)
    requires forall p :: p in X ==> 0 <= p < |head|
    ensures Class(Relabel(head, X, h), h) == Class(head, h) + X
    ensures Relabel(head, {}, h) == head
  {
  }

  lemma RelabelAll(s: Store, r: seq<int>, ph: int, ch: int)
    requires |s.nxt| == |s.prv| == |s.head| && Ring(s.head, s.nxt, s.prv, r, ch)
    ensures Elems(r[..|r|]) == Class(s.head, ch)
    ensures Relabel(s.head, Elems(r[..|r|]), ph) == MergeHeads(s.head, ph, ch)
    ensures Elems(r[..0]) == {} && Relabel(s.head, {}, ph) == s.head && Class(s.head, ph) + {} == Class(s.head, ph)
  {
    RingElems(s.head, s.nxt, s.prv, r, ch);
  }

  // ----- liberties around one point

  /** The empty ones among the first i neighbours of y that do not touch X. */
  ghost function NewLibs(dy: int, b: seq<int>, X: set<int>, y: int, i: int): set<int>
    requires 0 <= i <= 4 && 0 <= y - dy && y + dy < |b| && dy >= 3
  {
    set j | 0 <= j < i && b[Nbr(dy, y, j)] == EMPTY && !Touches(dy, Nbr(dy, y, j), X) :: Nbr(dy, y, j)
  }

  lemma NewLibsStep(dy: int, b: seq<int>, X: set<int>, y: int, i: int)
    requires 0 <= i < 4 && 0 <= y - dy && y + dy < |b| && dy >= 3
    ensures |NewLibs(dy, b, X, y, i + 1)| == |NewLibs(dy, b, X, y, i)| +
      (if b[Nbr(dy, y, i)] == EMPTY && !Touches(dy, Nbr(dy, y, i), X) then 1 else 0)
  {
    var e := Nbr(dy, y, i);
    var P, Q := NewLibs(dy, b, X, y, i), NewLibs(dy, b, X, y, i + 1);
    assert forall j :: 0 <= j < i ==> Nbr(dy, y, j) != e;
    if b[e] == EMPTY && !Touches(dy, e, X) {
      assert Q == P + {e};
    } else {
      assert Q == P;
    }
  }

  lemma NewLibsAll(dy: int, b: seq<int>, X: set<int>, y: int)
    requires 0 <= y - dy && y + dy < |b| && dy >= 3
    ensures |Libs(dy, b, X + {y})| == |Libs(dy, b, X)| + |NewLibs(dy, b, X, y, 4)|
  {
    var L, M, N := Libs(dy, b, X), Libs(dy, b, X + {y}), NewLibs(dy, b, X, y, 4);
    forall e | e in M && e !in L
      ensures e in N
    {
      assert e == Nbr(dy, y, 0) || e == Nbr(dy, y, 1) || e == Nbr(dy, y, 2) || e == Nbr(dy, y, 3);
    }
    assert M == L + N;
    assert L !! N;
  }

  /** One stone of a walk that hands the ring r to the head ph. */
  lemma AbsorbStep(dy: int, s: Store, r: seq<int>, ph: int, ch: int, k: int)
    requires Coloured(dy, s.b) && HeadsOk(s.b, s.head) && |s.nxt| == |s.prv| == |s.head|
    requires Ring(s.head, s.nxt, s.prv, r, ch) && 0 <= k < |r| && 0 < ch < |s.b| && Stone(s.b[ch])
    ensures 0 < r[k] < |s.b| && Stone(s.b[r[k]]) && 0 <= r[k] - dy && r[k] + dy < |s.b|
    ensures s.nxt[r[k]] == r[0] <==> k + 1 == |r|
    ensures k + 1 < |r| ==> s.nxt[r[k]] == r[k + 1]
    ensures var P, X, Y := Class(s.head, ph), Elems(r[..k]), Elems(r[..k + 1]);
      && Class(Relabel(s.head, X, ph), ph) == P + X
      && Relabel(s.head, X, ph)[r[k] := ph] == Relabel(s.head, Y, ph)
      && |Libs(dy, s.b, P + Y)| == |Libs(dy, s.b, P + X)| + |NewLibs(dy, s.b, P + X, r[k], 4)|
  {
    var P, X, Y := Class(s.head, ph), Elems(r[..k]), Elems(r[..k + 1]);
    RingStep(s.head, s.nxt, s.prv, r, ch, k);
    RelabelClass(s.head, X, ph);
    ElemsStep(r, k);
    RelabelStep(s.head, X, ph, r[k]);
    NewLibsAll(dy, s.b, P + X, r[k]);
    assert P + X + {r[k]} == P + Y;
  }

  // ----- changing the counts of the chains next to a point

  /** h is the head of a neighbour of loc whose colour is in cs. */
  ghost predicate NbrHead(dy: int, b: seq<int>, head: seq<int>, loc: int, cs: set<int>, h: int)
    requires 0 <= loc - dy && loc + dy < |b| == |head| && dy >= 3
  {
    || (b[loc - dy] in cs && head[loc - dy] == h)
    || (b[loc - 1] in cs && head[loc - 1] == h)
    || (b[loc + 1] in cs && head[loc + 1] == h)
    || (b[loc + dy] in cs && head[loc + dy] == h)
  }

  ghost predicate Bumped(dy: int, b: seq<int>, head: seq<int>, loc: int, cs: set<int>, delta: int, lib: seq<int>,
          r: seq<int>)
    requires 0 <= loc - dy && loc + dy < |b| == |head| && dy >= 3
  {
    && |r| == |lib|
    && forall h :: 0 <= h < |r| ==> r[h] == lib[h] + if NbrHead(dy, b, head, loc, cs, h) then delta else 0
  }

  /** The heads around a point tell apart the chains of the given colours. */
  ghost predicate NbrsTold(dy: int, b: seq<int>, head: seq<int>, loc: int, cs: set<int>)
    requires 0 <= loc - dy && loc + dy < |b| == |head| && dy >= 3
  {
    && (forall q :: Adj(dy, loc, q) && b[q] in cs ==> 0 <= head[q] < |head|)
    && (forall q, r {:trigger Adj(dy, loc, q), Adj(dy, loc, r)} ::
          Adj(dy, loc, q) && Adj(dy, loc, r) && b[q] in cs && head[r] == head[q] ==> b[r] in cs)
  }

  lemma NbrsInRange(dy: int, b: seq<int>, loc: int)
    requires Coloured(dy, b) && 0 <= loc < |b| && b[loc] != WALL
    ensures 0 < loc - dy && loc + dy < |b|
    ensures forall i {:trigger Nbr(dy, loc, i)} :: 0 <= i < 4 ==> 0 < Nbr(dy, loc, i) < |b| && Nbr(dy, loc, i) != loc
    ensures forall q :: Adj(dy, loc, q) ==> 0 < q < |b| && q != loc
  {
  }

  lemma HeadsTell(dy: int, b: seq<int>, head: seq<int>, loc: int, cs: set<int>)
    requires Coloured(dy, b) && HeadsOk(b, head) && 0 <= loc < |b| && b[loc] != WALL
    requires forall c :: c in cs ==> Stone(c)
    ensures 0 <= loc - dy && loc + dy < |b| && NbrsTold(dy, b, head, loc, cs)
  {
    NbrsInRange(dy, b, loc);
  }

  // ----- placing a stone

  lemma PlaceStore(dy: int, s: Store, t: Store, loc: int, pla: int, n: int)
    requires StoreOk(dy, s) && 0 < loc < |s.b| && s.b[loc] == EMPTY && Stone(pla)
    requires t.b == s.b[loc := pla] && t.head == s.head[loc := loc] && t.cnt == s.cnt[loc := 1]
    requires t.nxt == s.nxt[loc := loc] && t.prv == s.prv[loc := loc] && t.rings == s.rings[loc := [loc]]
    requires n == |NewLibs(dy, s.b, {}, loc, 4)|
    requires Bumped(dy, t.b, t.head, loc, {BLACK, WHITE}, -1, s.lib[loc := n], t.lib)
    ensures StoreOk(dy, t)
  {
    PlaceHeads(s.b, s.head, loc, pla);
    PlaceRings(s, t, loc, pla);
    PlaceLinked(dy, s, t, loc, pla);
    PlaceLibsOk(dy, s.b, s.head, s.lib, t.lib, loc, pla, n);
  }

  lemma PlaceLibsOk(dy: int, b: seq<int>, head: seq<int>, lib: seq<int>, lib': seq<int>, loc: int, pla: int, n: int)
    requires Coloured(dy, b) && HeadsOk(b, head) && LibsOk(dy, b, head, lib)
    requires 0 < loc < |b| && b[loc] == EMPTY && Stone(pla)
    requires n == |NewLibs(dy, b, {}, loc, 4)|
    requires Bumped(dy, b[loc := pla], head[loc := loc], loc, {BLACK, WHITE}, -1, lib[loc := n], lib')
    ensures LibsOk(dy, b[loc := pla], head[loc := loc], lib')
  {
    var b', head' := b[loc := pla], head[loc := loc];
    PlaceOwnLibs(dy, b, head, loc, pla);
    forall h | 0 <= h < |lib'|
      ensures lib'[h] == if head'[h] == h then |Libs(dy, b', Class(head', h))| else 0
    {
      PlaceNbrHead(dy, b, head, loc, pla, h);
      if h != loc && head[h] == h {
        assert Class(head', h) == Class(head, h);
        PlaceLibs(dy, b, pla, loc, Class(head, h));
      }
    }
  }

  lemma PlaceNbrHead(dy: int, b: seq<int>, head: seq<int>, loc: int, pla: int, h: int)
    requires Coloured(dy, b) && HeadsOk(b, head) && 0 < loc < |b| && b[loc] == EMPTY && Stone(pla) && 0 <= h < |b|
    ensures NbrHead(dy, b[loc := pla], head[loc := loc], loc, {BLACK, WHITE}, h)
      <==> h != loc && head[h] == h && Touches(dy, loc, Class(head, h))
  {
    forall q | Adj(dy, loc, q)
      ensures 0 < q < |b| && q != loc
      ensures b[q] in {BLACK, WHITE} && head[q] == h <==> h != loc && head[h] == h && q in Class(head, h)
    {
    }
    assert Adj(dy, loc, loc - dy) && Adj(dy, loc, loc - 1) && Adj(dy, loc, loc + 1) && Adj(dy, loc, loc + dy);
  }

  lemma PlaceOwnLibs(dy: int, b: seq<int>, head: seq<int>, loc: int, pla: int)
    requires Coloured(dy, b) && HeadsOk(b, head) && 0 < loc < |b| && b[loc] == EMPTY && Stone(pla)
    ensures |NewLibs(dy, b, {}, loc, 4)| == |Libs(dy, b[loc := pla], Class(head[loc := loc], loc))|
  {
    assert Class(head[loc := loc], loc) == {} + {loc};
    assert Libs(dy, b, {}) == {};
    NewLibsAll(dy, b, {}, loc);
    PlaceLibs(dy, b, pla, loc, {loc});
  }

  lemma PlaceHeads(b: seq<int>, head: seq<int>, loc: int, pla: int)
    requires HeadsOk(b, head) && 0 < loc < |b| && b[loc] == EMPTY && Stone(pla)
    ensures HeadsOk(b[loc := pla], head[loc := loc])
  {
  }

  lemma PlaceRings(s: Store, t: Store, loc: int, pla: int)
    requires HeadsOk(s.b, s.head) && RingsOk(s) && 0 < loc < |s.b| && s.b[loc] == EMPTY && Stone(pla)
    requires t.b == s.b[loc := pla] && t.head == s.head[loc := loc] && t.cnt == s.cnt[loc := 1]
    requires t.nxt == s.nxt[loc := loc] && t.prv == s.prv[loc := loc] && t.rings == s.rings[loc := [loc]]
    ensures RingsOk(t)
  {
    assert t.rings.Keys == s.rings.Keys + {loc};
    forall h | h in t.rings
      ensures GroupOk(t.head, t.nxt, t.prv, t.cnt, t.rings[h], h)
    {
      PlaceGroup(s, t, loc, pla, h);
    }
  }

  lemma PlaceGroup(s: Store, t: Store, loc: int, pla: int, h: int)
    requires HeadsOk(s.b, s.head) && RingsOk(s) && 0 < loc < |s.b| && s.b[loc] == EMPTY && Stone(pla)
    requires t.b == s.b[loc := pla] && t.head == s.head[loc := loc] && t.cnt == s.cnt[loc := 1]
    requires t.nxt == s.nxt[loc := loc] && t.prv == s.prv[loc := loc] && t.rings == s.rings[loc := [loc]]
    requires h in t.rings && 0 <= h < |t.head|
    ensures GroupOk(t.head, t.nxt, t.prv, t.cnt, t.rings[h], h)
  {
    if h != loc {
      GroupFrame(s.head, s.nxt, s.prv, s.cnt, t.head, t.nxt, t.prv, t.cnt, s.rings[h], h);
    }
  }

  lemma PlaceLinked(dy: int, s: Store, t: Store, loc: int, pla: int)
    requires HeadsOk(s.b, s.head) && LinkedOk(dy, s.b, s.head) && 0 < loc < |s.b| && s.b[loc] == EMPTY && Stone(pla)
    requires t.b == s.b[loc := pla] && t.head == s.head[loc := loc]
    ensures LinkedOk(dy, t.b, t.head)
  {
    forall p, q | 0 < p < |t.b| && 0 < q < |t.b| && Stone(t.b[p]) && t.head[p] == t.head[q]
      ensures q in Chain(dy, t.b, p)
    {
      if p == loc {
        ChainBasics(dy, t.b, p);
      } else {
        CompMono(dy, Pts(s.b, s.b[p]), Pts(t.b, s.b[p]), p);
      }
    }
  }

  // ----- merging two groups

  ghost function MergeHeads(head: seq<int>, ph: int, ch: int): (r: seq<int>)
    ensures |r| == |head|
    ensures forall p :: 0 <= p < |r| ==> r[p] == if head[p] == ch then ph else head[p]
  {
    seq(|head|, p requires 0 <= p < |head| => if head[p] == ch then ph else head[p])
  }

  /** t is s with the ring of ch spliced in behind the last stone of the ring of ph. */
  ghost predicate Spliced(s: Store, t: Store, ph: int, ch: int)
    requires RingsOk(s) && ph in s.rings && ch in s.rings
  {
    var plast, clast := s.rings[ph][|s.rings[ph]| - 1], s.rings[ch][|s.rings[ch]| - 1];
    && t.b == s.b && t.head == MergeHeads(s.head, ph, ch)
    && t.cnt == s.cnt[ch := 0][ph := s.cnt[ph] + s.cnt[ch]]
    && t.nxt == s.nxt[clast := ph][plast := ch]
    && t.prv == s.prv[ch := plast][ph := clast]
    && t.rings == (s.rings - {ch})[ph := s.rings[ph] + s.rings[ch]]
  }

  /** The heads after merging two groups: the one with more stones keeps its head, h0 on a tie. */
  ghost function Merged(head: seq<int>, cnt: seq<int>, h0: int, h1: int): (r: seq<int>)
    requires 0 <= h0 < |cnt| && 0 <= h1 < |cnt|
    ensures |r| == |head|
  {
    if cnt[h0] >= cnt[h1] then MergeHeads(head, h0, h1) else MergeHeads(head, h1, h0)
  }

  lemma MergeStore(dy: int, s: Store, t: Store, ph: int, ch: int, x: int, y: int)
    requires StoreOk(dy, s) && ph in s.rings && ch in s.rings && ph != ch && s.b[ph] == s.b[ch]
    requires 0 < x < |s.b| && 0 < y < |s.b| && s.head[x] == ph && s.head[y] == ch && Adj(dy, x, y)
    requires Spliced(s, t, ph, ch)
    requires t.lib == s.lib[ch := 0][ph := |Libs(dy, s.b, Class(s.head, ph) + Class(s.head, ch))|]
    ensures StoreOk(dy, t)
  {
    MergeHeadsOk(s.b, s.head, ph, ch);
    MergeRings(s, t, ph, ch);
    MergeLinked(dy, s, t, ph, ch, x, y);
    MergeLibs(dy, s.b, s.head, s.lib, t.lib, ph, ch);
  }

  lemma MergeHeadsOk(b: seq<int>, head: seq<int>, ph: int, ch: int)
    requires HeadsOk(b, head) && 0 < ph < |b| && 0 < ch < |b| && head[ph] == ph && head[ch] == ch && b[ph] == b[ch]
    ensures HeadsOk(b, MergeHeads(head, ph, ch))
  {
  }

  lemma MergeLibs(dy: int, b: seq<int>, head: seq<int>, lib: seq<int>, lib': seq<int>, ph: int, ch: int)
    requires |b| == |head| && LibsOk(dy, b, head, lib)
    requires 0 < ph < |b| && 0 < ch < |b| && head[ph] == ph && head[ch] == ch && ph != ch
    requires lib' == lib[ch := 0][ph := |Libs(dy, b, Class(head, ph) + Class(head, ch))|]
    ensures LibsOk(dy, b, MergeHeads(head, ph, ch), lib')
  {
    var head' := MergeHeads(head, ph, ch);
    forall h | 0 <= h < |lib'|
      ensures lib'[h] == if head'[h] == h then |Libs(dy, b, Class(head', h))| else 0
    {
      if h == ph {
        assert Class(head', h) == Class(head, ph) + Class(head, ch);
      } else if h != ch && head[h] == h {
        assert Class(head', h) == Class(head, h);
      }
    }
  }

  lemma MergeRings(s: Store, t: Store, ph: int, ch: int)
    requires HeadsOk(s.b, s.head) && RingsOk(s) && ph in s.rings && ch in s.rings && ph != ch && s.b[ph] == s.b[ch]
    requires Spliced(s, t, ph, ch)
    ensures RingsOk(t)
  {
    MergeKeys(s, t, ph, ch);
    forall h | h in t.rings
      ensures GroupOk(t.head, t.nxt, t.prv, t.cnt, t.rings[h], h)
    {
      MergeGroup(s, t, ph, ch, h);
    }
  }

  lemma MergeGroup(s: Store, t: Store, ph: int, ch: int, h: int)
    requires HeadsOk(s.b, s.head) && RingsOk(s) && ph in s.rings && ch in s.rings && ph != ch && s.b[ph] == s.b[ch]
    requires Spliced(s, t, ph, ch) && h in t.rings && 0 <= h < |t.head|
    ensures GroupOk(t.head, t.nxt, t.prv, t.cnt, t.rings[h], h)
  {
    if h == ph {
      var plast, clast := s.rings[ph][|s.rings[ph]| - 1], s.rings[ch][|s.rings[ch]| - 1];
      assert s.head[plast] == ph && s.head[clast] == ch;
      MergedRing(s.head, s.nxt, s.prv, t.nxt, t.prv, s.rings[ph], s.rings[ch], ph, ch);
    } else {
      MergeOther(s, t, ph, ch, h);
    }
  }

  /** The groups that are not merged keep their rings. */
  lemma MergeOther(s: Store, t: Store, ph: int, ch: int, h: int)
    requires HeadsOk(s.b, s.head) && RingsOk(s) && ph in s.rings && ch in s.rings && ph != ch
    requires Spliced(s, t, ph, ch) && h in t.rings && h != ph && 0 <= h < |t.head|
    ensures GroupOk(t.head, t.nxt, t.prv, t.cnt, t.rings[h], h)
  {
    RingLast(s, ph);
    RingLast(s, ch);
    MergeKeys(s, t, ph, ch);
    hide Ring;
    GroupFrame(s.head, s.nxt, s.prv, s.cnt, t.head, t.nxt, t.prv, t.cnt, s.rings[h], h);
  }

  lemma MergeKeys(s: Store, t: Store, ph: int, ch: int)
    requires HeadsOk(s.b, s.head) && RingsOk(s) && ph in s.rings && ch in s.rings && ph != ch
    requires Spliced(s, t, ph, ch)
    ensures t.rings.Keys == s.rings.Keys - {ch}
    ensures forall h :: h in s.rings.Keys - {ch} <==> 0 < h < |t.head| && t.head[h] == h
  {
  }

  lemma RingLast(s: Store, h: int)
    requires HeadsOk(s.b, s.head) && RingsOk(s) && 0 < h < |s.head| && s.head[h] == h
    ensures h in s.rings && s.prv[h] == s.rings[h][|s.rings[h]| - 1]
    ensures 0 < s.prv[h] < |s.head| && s.head[s.prv[h]] == h
  {
    var r := s.rings[h];
    assert r[Succ(|r| - 1, |r|)] == h;
  }

  lemma MergedRing(head: seq<int>, nxt: seq<int>, prv: seq<int>, nxt': seq<int>, prv': seq<int>,
        rp: seq<int>, rc: seq<int>, ph: int, ch: int)
    requires |nxt| == |prv| == |head|
    requires Ring(head, nxt, prv, rp, ph) && Ring(head, nxt, prv, rc, ch) && rp[0] == ph && rc[0] == ch && ph != ch
    requires nxt' == nxt[rc[|rc| - 1] := ph][rp[|rp| - 1] := ch]
    requires prv' == prv[ch := rp[|rp| - 1]][ph := rc[|rc| - 1]]
    ensures Ring(MergeHeads(head, ph, ch), nxt', prv', rp + rc, ph)
  {
    var r := rp + rc;
    var n, m := |rp|, |rp + rc|;
    forall i | 0 <= i < m
      ensures nxt'[r[i]] == r[Succ(i, m)] && prv'[r[Succ(i, m)]] == r[i]
    {
      if i < n {
        assert r[i] == rp[i] && nxt[rp[i]] == rp[Succ(i, n)] && prv[rp[Succ(i, n)]] == rp[i];
      } else {
        assert r[i] == rc[i - n] && nxt[rc[i - n]] == rc[Succ(i - n, |rc|)] && prv[rc[Succ(i - n, |rc|)]] == rc[i - n];
      }
    }
    assert Distinct(r);
  }

  lemma MergeLinked(dy: int, s: Store, t: Store, ph: int, ch: int, x: int, y: int)
    requires HeadsOk(s.b, s.head) && LinkedOk(dy, s.b, s.head)
    requires 0 < ph < |s.b| && 0 < ch < |s.b| && s.b[ph] == s.b[ch] && Stone(s.b[ph])
    requires 0 < x < |s.b| && 0 < y < |s.b| && s.head[x] == ph && s.head[y] == ch && Adj(dy, x, y)
    requires t.b == s.b && t.head == MergeHeads(s.head, ph, ch)
    ensures LinkedOk(dy, t.b, t.head)
  {
    ChainStep(dy, s.b, x, y);
    forall p, q | 0 < p < |t.b| && 0 < q < |t.b| && Stone(t.b[p]) && t.head[p] == t.head[q]
      ensures q in Chain(dy, t.b, p)
    {
      if s.head[p] != s.head[q] {
        var p', q' := if s.head[p] == ph then x else y, if s.head[q] == ph then x else y;
        assert p' in Chain(dy, s.b, p) && q' in Chain(dy, s.b, q);
        ChainSame(dy, s.b, p, p');
        ChainSame(dy, s.b, q, q');
        ChainBasics(dy, s.b, q);
      }
    }
  }

  // ----- removing a chain

  lemma RemoveStore(dy: int, s: Store, t: Store, h: int)
    requires StoreOk(dy, s) && Maximal(dy, s.b, s.head) && h in s.rings
    requires var X := Class(s.head, h);
      && t.b == Clear(s.b, X) && t.head == Clear(s.head, X) && t.nxt == Clear(s.nxt, X) && t.prv == Clear(s.prv, X)
    requires t.cnt == s.cnt[h := 0] && t.rings == s.rings - {h}
    requires |t.lib| == |s.lib| && t.lib[h] == 0
    requires forall g :: 0 <= g < |t.lib| && g != h ==>
      t.lib[g] == if s.head[g] == g then |Libs(dy, t.b, Class(s.head, g))| else 0
    ensures StoreOk(dy, t) && Maximal(dy, t.b, t.head)
  {
    var X := Class(s.head, h);
    RemoveRings(s, t, h);
    ClassIsChain(dy, s, h);
    forall g | 0 <= g < |t.lib|
      ensures t.lib[g] == if t.head[g] == g then |Libs(dy, t.b, Class(t.head, g))| else 0
    {
      if g != h && s.head[g] == g {
        assert Class(t.head, g) == Class(s.head, g);
      }
    }
    forall p, q | 0 < p < |t.b| && 0 < q < |t.b| && Stone(t.b[p]) && t.head[p] == t.head[q]
      ensures q in Chain(dy, t.b, p)
    {
      assert Chain(dy, s.b, p) !! X by {
        ClassIsChain(dy, s, p);
      }
      ClearKeepsChain(dy, s.b, X, p);
    }
  }

  lemma RemoveRings(s: Store, t: Store, h: int)
    requires HeadsOk(s.b, s.head) && RingsOk(s) && h in s.rings
    requires var X := Class(s.head, h);
      && t.b == Clear(s.b, X) && t.head == Clear(s.head, X) && t.nxt == Clear(s.nxt, X) && t.prv == Clear(s.prv, X)
    requires t.cnt == s.cnt[h := 0] && t.rings == s.rings - {h}
    ensures HeadsOk(t.b, t.head) && RingsOk(t)
  {
    assert HeadsOk(t.b, t.head);
    forall g | g in t.rings
      ensures GroupOk(t.head, t.nxt, t.prv, t.cnt, t.rings[g], g)
    {
      GroupFrame(s.head, s.nxt, s.prv, s.cnt, t.head, t.nxt, t.prv, t.cnt, s.rings[g], g);
    }
  }

  /** The liberty counts of the other groups while the points X of group h have been taken off. */
  ghost predicate RemovingLibs(dy: int, s: Store, h: int, X: set<int>, lib: seq<int>)
    requires |s.head| == |s.b|
  {
    && |lib| == |s.b|
    && forall g :: 0 <= g < |lib| && g != h ==>
        lib[g] == if s.head[g] == g then |Libs(dy, Clear(s.b, X), Class(s.head, g))| else 0
  }

  /** t is s with the points X of group h taken off, and the liberties they left handed out. */
  ghost predicate Removing(dy: int, s: Store, h: int, X: set<int>, t: Store)
    requires |s.head| == |s.b|
  {
    && t.b == Clear(s.b, X) && t.head == Clear(s.head, X) && t.nxt == Clear(s.nxt, X) && t.prv == Clear(s.prv, X)
    && t.cnt == s.cnt && t.rings == s.rings && RemovingLibs(dy, s, h, X, t.lib)
  }

  lemma RemovingNbr(b: seq<int>, head: seq<int>, h: int, X: set<int>, q: int)
    requires HeadsOk(b, head) && 0 < h < |b| && Stone(b[h]) && X <= Class(head, h)
    requires 0 < q < |b|
    ensures Clear(b, X)[q] == Opp(b[h]) <==> b[q] == Opp(b[h])
    ensures Clear(b, X)[q] == Opp(b[h]) ==> Clear(head, X)[q] == head[q] > 0
    ensures Clear(head, X)[q] > 0 ==> Clear(head, X)[q] == head[q] < |b| && Clear(b, X)[q] == b[q] == b[head[q]]
  {
    assert q in X ==> head[q] == h;
    assert if Stone(b[q]) then 0 < head[q] < |b| && b[head[q]] == b[q] else head[q] == 0;
  }

  /** Around a point of group h, the opposing chains seen while h is being removed are the ones of s. */
  lemma RemovingNbrs(dy: int, b: seq<int>, head: seq<int>, h: int, X: set<int>, p: int)
    requires Coloured(dy, b) && HeadsOk(b, head) && 0 < h < |b| && Stone(b[h]) && X <= Class(head, h)
    requires 0 < p < |b| && head[p] == h
    ensures 0 <= p - dy && p + dy < |b|
    ensures NbrsTold(dy, Clear(b, X), Clear(head, X), p, {Opp(b[h])})
  {
    NbrsInRange(dy, b, p);
    forall q | Adj(dy, p, q)
      ensures Clear(b, X)[q] == Opp(b[h]) ==> 0 < Clear(head, X)[q] < |b| && b[head[q]] == Opp(b[h])
      ensures Clear(head, X)[q] > 0 ==> Clear(head, X)[q] == head[q] < |b| && Clear(b, X)[q] == b[head[q]]
    {
      RemovingNbr(b, head, h, X, q);
    }
  }

  lemma RemovingNbrHead(dy: int, b: seq<int>, head: seq<int>, h: int, X: set<int>, p: int, g: int)
    requires Coloured(dy, b) && HeadsOk(b, head) && 0 < h < |b| && Stone(b[h]) && X <= Class(head, h)
    requires 0 < p < |b| && head[p] == h && 0 <= g < |b|
    ensures 0 <= p - dy && p + dy < |b|
    ensures NbrHead(dy, Clear(b, X), Clear(head, X), p, {Opp(b[h])}, g) <==>
      (head[g] == g && b[g] == Opp(b[h]) && Touches(dy, p, Class(head, g)))
  {
    NbrsInRange(dy, b, p);
    forall q | Adj(dy, p, q)
      ensures Clear(b, X)[q] == Opp(b[h]) && Clear(head, X)[q] == g <==>
        (head[g] == g && b[g] == Opp(b[h]) && q in Class(head, g))
    {
      RemovingNbr(b, head, h, X, q);
    }
    assert Adj(dy, p, p - dy) && Adj(dy, p, p - 1) && Adj(dy, p, p + 1) && Adj(dy, p, p + dy);
  }

  /** Taking one more point of group h off the board. */
  lemma RemovingLibsStep(dy: int, s: Store, h: int, X: set<int>, p: int, lib: seq<int>, lib': seq<int>)
    requires StoreOk(dy, s) && Maximal(dy, s.b, s.head) && h in s.rings && X <= Class(s.head, h)
    requires 0 < p < |s.b| && s.head[p] == h && p !in X
    requires RemovingLibs(dy, s, h, X, lib)
    requires 0 <= p - dy && p + dy < |s.b|
    requires Bumped(dy, Clear(s.b, X), Clear(s.head, X), p, {Opp(s.b[h])}, 1, lib, lib')
    ensures RemovingLibs(dy, s, h, X + {p}, lib')
  {
    forall g | 0 <= g < |lib'| && g != h
      ensures lib'[g] == if s.head[g] == g then |Libs(dy, Clear(s.b, X + {p}), Class(s.head, g))| else 0
    {
      RemovingNbrHead(dy, s.b, s.head, h, X, p, g);
      if s.head[g] == g {
        RemovingOne(dy, s, h, X, p, g);
      }
    }
  }

  lemma RingHead(s: Store, h: int)
    requires RingsOk(s) && h in s.rings
    ensures 0 < h < |s.head| && s.head[h] == h
  {
    hide GroupOk;
  }

  lemma RemovingOne(dy: int, s: Store, h: int, X: set<int>, p: int, g: int)
    requires StoreOk(dy, s) && Maximal(dy, s.b, s.head) && h in s.rings && X <= Class(s.head, h)
    requires 0 < p < |s.b| && s.head[p] == h && p !in X && 0 <= g < |s.b| && s.head[g] == g && g != h
    ensures |Libs(dy, Clear(s.b, X + {p}), Class(s.head, g))| == |Libs(dy, Clear(s.b, X), Class(s.head, g))|
      + if s.b[g] == Opp(s.b[h]) && Touches(dy, p, Class(s.head, g)) then 1 else 0
  {
    hide RingsOk, LibsOk, LinkedOk, Coloured;
    assert h in Class(s.head, h) && s.b[p] == s.b[h] by {
      RingHead(s, h);
    }
    var C := Class(s.head, g);
    var L, M := Libs(dy, Clear(s.b, X), C), Libs(dy, Clear(s.b, X + {p}), C);
    if Touches(dy, p, C) {
      var q := TouchesWitness(dy, p, C);
      assert s.b[q] == s.b[g] && s.b[q] != s.b[h];
      assert M == L + {p};
    } else {
      assert M == L;
    }
  }

  /** What erasing one stone writes. */
  ghost predicate Erased(dy: int, t: Store, u: Store, p: int, opp: int)
    requires 0 <= p - dy && p + dy < |t.b| == |t.head| && dy >= 3 && p < |t.nxt| == |t.prv|
  {
    && u.b == t.b[p := EMPTY] && u.head == t.head[p := 0] && u.nxt == t.nxt[p := 0] && u.prv == t.prv[p := 0]
    && u.cnt == t.cnt && u.rings == t.rings
    && Bumped(dy, t.b, t.head, p, {opp}, 1, t.lib, u.lib)
  }

  /** The walk that takes the ring r of head h off the board, before and after its k-th stone. */
  lemma RemoveReady(dy: int, s: Store, r: seq<int>, h: int, k: int, t: Store)
    requires StoreOk(dy, s) && h in s.rings && Ring(s.head, s.nxt, s.prv, r, h) && 0 <= k < |r|
    requires Removing(dy, s, h, Elems(r[..k]), t)
    ensures 0 <= r[k] - dy && r[k] + dy < |t.b| == |t.head| && r[k] < |t.nxt| == |t.prv|
    ensures NbrsTold(dy, t.b, t.head, r[k], {Opp(s.b[h])})
    ensures t.nxt[r[k]] == s.nxt[r[k]]
    ensures s.nxt[r[k]] == r[0] <==> k + 1 == |r|
    ensures k + 1 < |r| ==> s.nxt[r[k]] == r[k + 1]
  {
    RingStep(s.head, s.nxt, s.prv, r, h, k);
    RingElems(s.head, s.nxt, s.prv, r, h);
    assert Elems(r[..k]) <= Elems(r);
    RemovingNbrs(dy, s.b, s.head, h, Elems(r[..k]), r[k]);
  }

  lemma RemoveStep(dy: int, s: Store, r: seq<int>, h: int, k: int, t: Store, u: Store)
    requires StoreOk(dy, s) && Maximal(dy, s.b, s.head) && h in s.rings
    requires Ring(s.head, s.nxt, s.prv, r, h) && 0 <= k < |r|
    requires Removing(dy, s, h, Elems(r[..k]), t)
    requires 0 <= r[k] - dy && r[k] + dy < |t.b| == |t.head| && r[k] < |t.nxt| == |t.prv|
    requires Erased(dy, t, u, r[k], Opp(s.b[h]))
    ensures Removing(dy, s, h, Elems(r[..k + 1]), u)
  {
    var X, p := Elems(r[..k]), r[k];
    RingStep(s.head, s.nxt, s.prv, r, h, k);
    RingElems(s.head, s.nxt, s.prv, r, h);
    assert X <= Elems(r);
    ElemsStep(r, k);
    ClearStep(s.b, X, p);
    ClearStep(s.head, X, p);
    ClearStep(s.nxt, X, p);
    ClearStep(s.prv, X, p);
    RemovingLibsStep(dy, s, h, X, p, t.lib, u.lib);
  }

  lemma RemoveStart(dy: int, s: Store, r: seq<int>, h: int)
    requires StoreOk(dy, s)
    ensures Removing(dy, s, h, Elems(r[..0]), s)
  {
    assert Elems(r[..0]) == {};
    ClearNone(s.b);
    ClearNone(s.head);
    ClearNone(s.nxt);
    ClearNone(s.prv);
  }

  lemma ClearStep(b: seq<int>, X: set<int>, p: int)
    requires 0 <= p < |b|
    ensures Clear(b, X)[p := 0] == Clear(b, X + {p})
  {
  }

  lemma ClearNone(b: seq<int>)
    ensures Clear(b, {}) == b
  {
  }

  // ----- merging around a new stone

  /** Adjacent stones of one colour have one head, leaving out the stone at loc. */
  ghost predicate MaximalBut(dy: int, b: seq<int>, head: seq<int>, loc: int)
    requires |head| == |b|
  {
    forall p, q {:trigger Adj(dy, p, q)} ::
      0 < p < |b| && 0 < q < |b| && p != loc && q != loc && Stone(b[p]) && b[p] == b[q] && Adj(dy, p, q) ==> head[p] == head[q]
  }

  /** The first i neighbours of loc of its colour have its head. */
  ghost predicate Joined(dy: int, b: seq<int>, head: seq<int>, loc: int, i: int)
    requires |head| == |b| && 0 <= loc < |b|
  {
    forall j {:trigger Nbr(dy, loc, j)} :: 0 <= j < i && 0 <= Nbr(dy, loc, j) < |b| && b[Nbr(dy, loc, j)] == b[loc] ==>
      head[Nbr(dy, loc, j)] == head[loc]
  }

  lemma PlaceMaximalBut(dy: int, b: seq<int>, head: seq<int>, loc: int, pla: int)
    requires |head| == |b| && Maximal(dy, b, head) && 0 <= loc < |b|
    ensures MaximalBut(dy, b[loc := pla], head[loc := loc], loc)
  {
  }

  lemma MergeJoins(dy: int, b: seq<int>, head: seq<int>, cnt: seq<int>, loc: int, i: int)
    requires |head| == |b| == |cnt| && MaximalBut(dy, b, head, loc)
    requires 0 <= loc < |b| && 0 <= i < 4 && Joined(dy, b, head, loc, i)
    requires 0 <= Nbr(dy, loc, i) < |b| && 0 <= head[loc] < |b| && 0 <= head[Nbr(dy, loc, i)] < |b|
    ensures var r := Merged(head, cnt, head[loc], head[Nbr(dy, loc, i)]);
      MaximalBut(dy, b, r, loc) && Joined(dy, b, r, loc, i + 1)
  {
    var r := Merged(head, cnt, head[loc], head[Nbr(dy, loc, i)]);
    forall p, q | 0 <= p < |b| && 0 <= q < |b| && head[p] == head[q]
      ensures r[p] == r[q]
    {
    }
  }

  lemma JoinedSkip(dy: int, b: seq<int>, head: seq<int>, loc: int, i: int)
    requires |head| == |b| && 0 <= loc < |b| && i >= 0 && Joined(dy, b, head, loc, i)
    requires 0 <= Nbr(dy, loc, i) < |b| && b[Nbr(dy, loc, i)] != b[loc]
    ensures Joined(dy, b, head, loc, i + 1)
  {
  }

  lemma JoinedMaximal(dy: int, b: seq<int>, head: seq<int>, loc: int)
    requires |head| == |b| && MaximalBut(dy, b, head, loc) && 0 <= loc < |b| && Joined(dy, b, head, loc, 4)
    ensures Maximal(dy, b, head)
  {
    forall p, q | 0 < p < |b| && 0 < q < |b| && Stone(b[p]) && b[p] == b[q] && Adj(dy, p, q)
      ensures head[p] == head[q]
    {
      JoinedAdj(dy, b, head, loc, p);
      JoinedAdj(dy, b, head, loc, q);
      assert Adj(dy, q, p);
    }
  }

  lemma JoinedAdj(dy: int, b: seq<int>, head: seq<int>, loc: int, q: int)
    requires |head| == |b| && 0 <= loc < |b| && Joined(dy, b, head, loc, 4) && 0 <= q < |b|
    ensures Adj(dy, loc, q) && b[q] == b[loc] ==> head[q] == head[loc]
  {
    if Adj(dy, loc, q) {
      assert q == Nbr(dy, loc, 0) || q == Nbr(dy, loc, 1) || q == Nbr(dy, loc, 2) || q == Nbr(dy, loc, 3);
    }
  }
}
