/** Finding the pass-alive chains: kill chains with fewer than two vital regions until none is left. */
module Killing {
  import opened Grid
  import opened Components
  import opened Rules
  import opened ChainStore
  import opened Queries
  import opened PassAlive
  import opened Claims
  import opened Tracing
  import opened RegionScan
  import opened Regrow

  /** A finished trace of all regions, and the heads of all chains of pla. */
  datatype Survey = Survey(g: Ground, t: Trace, total: int, os: seq<seq<int>>, hs: seq<int>)

  ghost predicate IsPlaHead(g: Ground, h: int)
  {
    0 < h < |g.s.b| && h < |g.s.head| && g.s.b[h] == g.pla && g.s.head[h] == h
  }

  ghost predicate SurveyOk(v: Survey)
  {
    && ScanOk(v.g, v.t, v.total, v.os)
    && (forall p :: 0 <= p < |v.g.s.b| && v.g.s.b[p] == EMPTY ==> v.t.headOf[p] != PASS)
    && Distinct(v.hs) && (forall h :: h in v.hs <==> IsPlaHead(v.g, h))
  }

  /** A stone of the chain with head h touches the region of x. */
  ghost predicate Borders(g: Ground, h: int, x: int)
  {
    exists p :: p in Class(g.s.head, h) && Touches(g.dy, p, RegionOf(g, x))
  }

  ghost predicate KilledBorders(v: Survey, killed: seq<bool>, x: int)
  {
    exists k :: 0 <= k < |killed| && k < |v.hs| && killed[k] && Borders(v.g, v.hs[k], x)
  }

  ghost function AliveOf(g: Ground): set<int>
  {
    Alive(g.dy, g.s.b, g.pla, g.suicideLegal)
  }

  /** Regions next to a killed chain are flagged. */
  ghost predicate Flagged(v: Survey, killed: seq<bool>, borders: seq<bool>)
  {
    && |killed| == |v.hs| && |borders| == |v.g.s.b|
    && forall i :: 0 <= i < |v.os| && i < |v.t.heads| && 0 <= v.t.heads[i] < |borders| ==>
        (borders[v.t.heads[i]] <==> KilledBorders(v, killed, v.t.heads[i]))
  }

  /** No killed chain is pass-alive. */
  ghost predicate Justified(v: Survey, killed: seq<bool>)
  {
    forall k :: 0 <= k < |killed| && k < |v.hs| && killed[k] ==> Class(v.g.s.head, v.hs[k]) !! AliveOf(v.g)
  }

  /** Region i is unflagged and vital to h. */
  ghost predicate Counts(v: Survey, borders: seq<bool>, h: int, i: int)
  {
    0 <= i < |v.os| && i < |v.t.heads| && 0 <= v.t.heads[i] < |borders| && !borders[v.t.heads[i]] && VitalHead(v.g, v.t.heads[i], h)
  }

  /** How many of the first n regions are unflagged and vital to h. */
  ghost function VitalCount(v: Survey, borders: seq<bool>, h: int, n: nat): nat
  {
    if n == 0 then 0 else VitalCount(v, borders, h, n - 1) + if Counts(v, borders, h, n - 1) then 1 else 0
  }

  lemma {:induction false} CountOfNone(v: Survey, borders: seq<bool>, h: int, n: nat)
    ensures VitalCount(v, borders, h, n) == 0 <==> forall i :: 0 <= i < n ==> !Counts(v, borders, h, i)
  {
    hide Counts;
    if n > 0 {
      CountOfNone(v, borders, h, n - 1);
    }
  }

  lemma {:induction false} CountOfTwo(v: Survey, borders: seq<bool>, h: int, n: nat)
    ensures VitalCount(v, borders, h, n) >= 2 <==> exists i, j :: 0 <= i < j < n && Counts(v, borders, h, i) && Counts(v, borders, h, j)
  {
    hide Counts;
    if n > 0 {
      CountOfTwo(v, borders, h, n - 1);
      CountOfNone(v, borders, h, n - 1);
      if VitalCount(v, borders, h, n) >= 2 && VitalCount(v, borders, h, n - 1) < 2 {
        var i :| 0 <= i < n - 1 && Counts(v, borders, h, i);
        assert 0 <= i < n - 1 < n && Counts(v, borders, h, i) && Counts(v, borders, h, n - 1);
      }
    }
  }

  // ----- chains and regions of a survey

  lemma HeadChain(v: Survey, h: int)
    requires SurveyOk(v) && IsPlaHead(v.g, h)
    ensures Class(v.g.s.head, h) == Chain(v.g.dy, v.g.s.b, h)
  {
    hide ScanOk, RingsOk, LibsOk;
    assert GroundOk(v.g) by {
      SurveyGround(v);
    }
    ClassIsChain(v.g.dy, v.g.s, h);
  }

  lemma SurveyGround(v: Survey)
    requires SurveyOk(v)
    ensures GroundOk(v.g) && ShapeOk(v.g, v.t) && |v.os| <= |v.t.heads| && |v.g.s.head| == |v.g.s.b|
  {
    hide RegionDone, Reaches;
  }

  lemma SurveyRegion(v: Survey, i: int)
    requires SurveyOk(v) && 0 <= i < |v.os|
    ensures ShapeOk(v.g, v.t) && RegionDone(v.g, v.t, i, v.os[i]) && i < |v.t.heads|
    ensures 0 < v.t.heads[i] < |v.g.s.b| && v.g.s.b[v.t.heads[i]] == EMPTY
  {
    hide VitalList, Reaches, GroundOk, Region;
  }

  /** Every empty point lies in one of the regions. */
  lemma RegionFor(v: Survey, e: int) returns (i: int)
    requires SurveyOk(v) && 0 <= e < |v.g.s.b| && v.g.s.b[e] == EMPTY
    ensures 0 <= i < |v.os| && i < |v.t.heads| && e in RegionOf(v.g, v.t.heads[i])
    ensures RegionOf(v.g, e) == RegionOf(v.g, v.t.heads[i])
  {
    hide VitalList, GroundOk, Region;
    assert Reaches(v.os, e);
    i :| 0 <= i < |v.os| && e in v.os[i];
    SurveyRegion(v, i);
    assert e in Elems(v.os[i]);
    RegionSame(v.g.dy, v.g.s.b, v.g.pla, v.t.heads[i], e);
  }

  lemma RegionsDistinct(v: Survey, i: int, j: int)
    requires SurveyOk(v) && 0 <= i < j < |v.os|
    ensures j < |v.t.heads| && RegionOf(v.g, v.t.heads[i]) != RegionOf(v.g, v.t.heads[j])
  {
    hide GroundOk, RegionDone, Region, Reaches;
    HeadFacts(v.g, v.t, v.total, v.os, i);
    HeadFacts(v.g, v.t, v.total, v.os, j);
    RegionBasics(v.g.dy, v.g.s.b, v.g.pla, v.t.heads[i]);
  }

  /** Every stone of pla belongs to a listed chain. */
  lemma ChainFor(v: Survey, p: int) returns (k: int)
    requires SurveyOk(v) && 0 <= p < |v.g.s.b| && v.g.s.b[p] == v.g.pla
    ensures 0 <= k < |v.hs| && p in Class(v.g.s.head, v.hs[k]) && IsPlaHead(v.g, v.hs[k])
    ensures p < |v.g.s.head| && v.g.s.head[p] == v.hs[k]
  {
    hide ScanOk, RingsOk, LibsOk;
    SurveyGround(v);
    var h := v.g.s.head[p];
    assert IsPlaHead(v.g, h);
    assert h in v.hs;
    k :| 0 <= k < |v.hs| && v.hs[k] == h;
  }

  lemma NextToTouches(v: Survey, p: int, h: int)
    requires SurveyOk(v) && IsPlaHead(v.g, h)
    ensures NextTo(v.g, p, h) <==> Touches(v.g.dy, p, Class(v.g.s.head, h))
  {
    hide ScanOk, RingsOk, LibsOk;
    SurveyGround(v);
    if NextTo(v.g, p, h) {
      var q :| 0 <= q < |v.g.s.b| && q < |v.g.s.head| && Adj(v.g.dy, p, q) && v.g.s.b[q] == v.g.pla && v.g.s.head[q] == h;
      AdjTouches(v.g.dy, p, q, Class(v.g.s.head, h));
    }
    if Touches(v.g.dy, p, Class(v.g.s.head, h)) {
      var q := TouchesWitness(v.g.dy, p, Class(v.g.s.head, h));
      assert v.g.s.head[q] == h;
    }
  }

  /** The traced lists say vital in the sense of the definition. */
  lemma VitalHeadIsVital(v: Survey, x: int, h: int)
    requires SurveyOk(v) && IsPlaHead(v.g, h) && 0 <= x < |v.g.s.b| && v.g.s.b[x] == EMPTY
    ensures VitalHead(v.g, x, h) <==> Vital(v.g.dy, v.g.s.b, v.g.suicideLegal, RegionOf(v.g, x), Chain(v.g.dy, v.g.s.b, h))
  {
    hide SurveyOk, NextTo, Chain, Region;
    HeadChain(v, h);
    RegionBasics(v.g.dy, v.g.s.b, v.g.pla, x);
    forall p
      ensures NextTo(v.g, p, h) <==> Touches(v.g.dy, p, Chain(v.g.dy, v.g.s.b, h))
    {
      NextToTouches(v, p, h);
    }
    assert Relevant(v.g.s.b, v.g.suicideLegal, x);
  }

  /** A region with a flag is next to a killed chain; without one, only to living ones. */
  lemma UnflaggedEncloses(v: Survey, killed: seq<bool>, borders: seq<bool>, X: set<int>, i: int)
    requires SurveyOk(v) && Flagged(v, killed, borders) && 0 <= i < |v.os|
    requires forall k :: 0 <= k < |killed| && !killed[k] ==> Class(v.g.s.head, v.hs[k]) <= X
    requires forall k :: 0 <= k < |killed| && killed[k] ==> Class(v.g.s.head, v.hs[k]) !! X
    ensures i < |v.t.heads| && 0 < v.t.heads[i] < |borders|
    ensures !borders[v.t.heads[i]] <==> Enclosed(v.g.dy, v.g.s.b, v.g.pla, X, v.t.heads[i])
  {
    hide Region, ScanOk;
    SurveyRegion(v, i);
    var x := v.t.heads[i];
    var B := Border(v.g.dy, v.g.s.b, v.g.pla, RegionOf(v.g, x));
    if !borders[x] {
      forall p | p in B
        ensures p in X
      {
        var k := ChainFor(v, p);
        assert Borders(v.g, v.hs[k], x);
      }
    } else {
      var k :| 0 <= k < |killed| && k < |v.hs| && killed[k] && Borders(v.g, v.hs[k], x);
      FlaggedOpen(v, killed, X, x, k);
    }
  }

  lemma FlaggedOpen(v: Survey, killed: seq<bool>, X: set<int>, x: int, k: int)
    requires SurveyOk(v) && |killed| == |v.hs| && 0 <= k < |v.hs| && Borders(v.g, v.hs[k], x)
    requires Class(v.g.s.head, v.hs[k]) !! X
    ensures !(Border(v.g.dy, v.g.s.b, v.g.pla, RegionOf(v.g, x)) <= X)
  {
    hide Region, ScanOk;
    var p :| p in Class(v.g.s.head, v.hs[k]) && Touches(v.g.dy, p, RegionOf(v.g, x));
    assert v.hs[k] in v.hs;
    HeadChain(v, v.hs[k]);
    SurveyGround(v);
    ChainBasics(v.g.dy, v.g.s.b, v.hs[k]);
    assert p in Border(v.g.dy, v.g.s.b, v.g.pla, RegionOf(v.g, x));
  }

  // ----- killing is justified

  /** An eye of a pass-alive chain is a region that is still unflagged. */
  lemma EyeCounts(v: Survey, killed: seq<bool>, borders: seq<bool>, h: int, e: int) returns (i: int)
    requires SurveyOk(v) && Flagged(v, killed, borders) && Justified(v, killed) && IsPlaHead(v.g, h)
    requires Eye(v.g.dy, v.g.s.b, v.g.pla, v.g.suicideLegal, Chain(v.g.dy, v.g.s.b, h), AliveOf(v.g), e)
    ensures Counts(v, borders, h, i) && RegionOf(v.g, e) == RegionOf(v.g, v.t.heads[i])
  {
    hide Region, ScanOk, Alive, Chain, Vital, Borders, VitalHead;
    i := RegionFor(v, e);
    SurveyRegion(v, i);
    var x := v.t.heads[i];
    VitalHeadIsVital(v, x, h);
    if borders[x] {
      var k :| 0 <= k < |killed| && k < |v.hs| && killed[k] && Borders(v.g, v.hs[k], x);
      FlaggedOpen(v, killed, AliveOf(v.g), x, k);
    }
  }

  /** A chain with fewer than two unflagged vital regions is not pass-alive. */
  lemma KillJustified(v: Survey, killed: seq<bool>, borders: seq<bool>, h: int)
    requires SurveyOk(v) && Flagged(v, killed, borders) && Justified(v, killed) && h in v.hs
    requires VitalCount(v, borders, h, |v.os|) < 2
    ensures Class(v.g.s.head, h) !! AliveOf(v.g)
  {
    hide Region, ScanOk, Chain, Eye, Flagged, Justified, VitalHead, Alive;
    HeadChain(v, h);
    SurveyGround(v);
    var A := AliveOf(v.g);
    if p :| p in Class(v.g.s.head, h) && p in A {
      AliveIsGreatest(v.g.dy, v.g.s.b, v.g.pla, v.g.suicideLegal, {});
      ChainSame(v.g.dy, v.g.s.b, h, p);
      var C := Chain(v.g.dy, v.g.s.b, h);
      var e1, e2 :| Eye(v.g.dy, v.g.s.b, v.g.pla, v.g.suicideLegal, C, A, e1) && Eye(v.g.dy, v.g.s.b, v.g.pla, v.g.suicideLegal, C, A, e2)
        && Region(v.g.dy, v.g.s.b, v.g.pla, e1) != Region(v.g.dy, v.g.s.b, v.g.pla, e2);
      var i := EyeCounts(v, killed, borders, h, e1);
      var j := EyeCounts(v, killed, borders, h, e2);
      CountOfTwo(v, borders, h, |v.os|);
    }
  }

  // ----- when nothing more is killed

  /** The chains not killed. */
  ghost function Survivors(v: Survey, killed: seq<bool>): set<int>
  {
    set p | 0 <= p < |v.g.s.b| && v.g.s.b[p] == v.g.pla && Survives(v, killed, p)
  }

  ghost predicate Survives(v: Survey, killed: seq<bool>, p: int)
  {
    exists k :: 0 <= k < |killed| && k < |v.hs| && !killed[k] && p in Class(v.g.s.head, v.hs[k])
  }

  lemma ClassSurvives(v: Survey, killed: seq<bool>, k: int)
    requires SurveyOk(v) && |killed| == |v.hs| && 0 <= k < |v.hs|
    ensures !killed[k] ==> Class(v.g.s.head, v.hs[k]) <= Survivors(v, killed)
    ensures killed[k] ==> Class(v.g.s.head, v.hs[k]) !! Survivors(v, killed)
  {
    hide ScanOk, GroundOk;
    assert v.hs[k] in v.hs;
    HeadChain(v, v.hs[k]);
    ChainBasics(v.g.dy, v.g.s.b, v.hs[k]);
    if killed[k] {
      forall p | p in Class(v.g.s.head, v.hs[k]) && p in Survivors(v, killed)
        ensures false
      {
        var j :| 0 <= j < |killed| && j < |v.hs| && !killed[j] && p in Class(v.g.s.head, v.hs[j]);
      }
    }
  }

  /** When every survivor has two unflagged vital regions, the survivors sustain themselves. */
  lemma SurvivorsSustain(v: Survey, killed: seq<bool>, borders: seq<bool>)
    requires SurveyOk(v) && Flagged(v, killed, borders)
    requires forall k :: 0 <= k < |killed| && !killed[k] ==> VitalCount(v, borders, v.hs[k], |v.os|) >= 2
    ensures SelfSustaining(v.g.dy, v.g.s.b, v.g.pla, v.g.suicideLegal, Survivors(v, killed))
  {
    hide Region, ScanOk, Chain, TwoEyes, VitalCount, GroundOk;
    var X := Survivors(v, killed);
    forall p | p in X
      ensures 0 <= p < |v.g.s.b| && v.g.s.b[p] == v.g.pla
      ensures Chain(v.g.dy, v.g.s.b, p) <= X
      ensures TwoEyes(v.g.dy, v.g.s.b, v.g.pla, v.g.suicideLegal, Chain(v.g.dy, v.g.s.b, p), X)
    {
      var k :| 0 <= k < |killed| && k < |v.hs| && !killed[k] && p in Class(v.g.s.head, v.hs[k]);
      var h := v.hs[k];
      assert h in v.hs;
      HeadChain(v, h);
      ChainSame(v.g.dy, v.g.s.b, h, p);
      ClassSurvives(v, killed, k);
      SurvivorHasEyes(v, killed, borders, k);
    }
  }

  lemma SurvivorHasEyes(v: Survey, killed: seq<bool>, borders: seq<bool>, k: int)
    requires SurveyOk(v) && Flagged(v, killed, borders) && 0 <= k < |v.hs|
    requires VitalCount(v, borders, v.hs[k], |v.os|) >= 2
    ensures 0 <= v.hs[k] < |v.g.s.b|
    ensures TwoEyes(v.g.dy, v.g.s.b, v.g.pla, v.g.suicideLegal, Chain(v.g.dy, v.g.s.b, v.hs[k]), Survivors(v, killed))
  {
    hide Region, ScanOk, Chain, VitalCount, GroundOk, Eye, Counts;
    var h := v.hs[k];
    assert h in v.hs;
    CountOfTwo(v, borders, h, |v.os|);
    var i, j :| 0 <= i < j < |v.os| && Counts(v, borders, h, i) && Counts(v, borders, h, j);
    RegionsDistinct(v, i, j);
    CountedIsEye(v, killed, borders, h, i);
    CountedIsEye(v, killed, borders, h, j);
  }

  lemma CountedIsEye(v: Survey, killed: seq<bool>, borders: seq<bool>, h: int, i: int)
    requires SurveyOk(v) && Flagged(v, killed, borders) && IsPlaHead(v.g, h) && Counts(v, borders, h, i)
    ensures Eye(v.g.dy, v.g.s.b, v.g.pla, v.g.suicideLegal, Chain(v.g.dy, v.g.s.b, h), Survivors(v, killed), v.t.heads[i])
  {
    hide Region, ScanOk, Chain, GroundOk, Survivors, Vital, Enclosed, VitalHead;
    SurveyRegion(v, i);
    VitalHeadIsVital(v, v.t.heads[i], h);
    forall n | 0 <= n < |killed|
      ensures !killed[n] ==> Class(v.g.s.head, v.hs[n]) <= Survivors(v, killed)
      ensures killed[n] ==> Class(v.g.s.head, v.hs[n]) !! Survivors(v, killed)
    {
      ClassSurvives(v, killed, n);
    }
    UnflaggedEncloses(v, killed, borders, Survivors(v, killed), i);
  }

  /** At the fixpoint the survivors are exactly the pass-alive stones, and the unflagged regions exactly
      the enclosed ones. */
  lemma FixpointIsAlive(v: Survey, killed: seq<bool>, borders: seq<bool>)
    requires SurveyOk(v) && Flagged(v, killed, borders) && Justified(v, killed)
    requires forall k :: 0 <= k < |killed| && !killed[k] ==> VitalCount(v, borders, v.hs[k], |v.os|) >= 2
    ensures Survivors(v, killed) == AliveOf(v.g)
    ensures forall i :: 0 <= i < |v.os| ==> FlagMeansOpen(v, borders, i)
  {
    hide ScanOk, GroundOk, SelfSustaining, Enclosed, Flagged, Alive, VitalCount;
    FlaggedSize(v, killed, borders);
    SurvivorsSustain(v, killed, borders);
    AliveIsGreatest(v.g.dy, v.g.s.b, v.g.pla, v.g.suicideLegal, Survivors(v, killed));
    forall p | p in AliveOf(v.g)
      ensures p in Survivors(v, killed)
    {
      AliveColour(v.g.dy, v.g.s.b, v.g.pla, v.g.suicideLegal, p);
      var k := ChainFor(v, p);
      assert !killed[k];
    }
    assert Survivors(v, killed) == AliveOf(v.g);
    forall n | 0 <= n < |killed|
      ensures !killed[n] ==> Class(v.g.s.head, v.hs[n]) <= Survivors(v, killed)
      ensures killed[n] ==> Class(v.g.s.head, v.hs[n]) !! Survivors(v, killed)
    {
      ClassSurvives(v, killed, n);
    }
    forall i | 0 <= i < |v.os|
      ensures FlagMeansOpen(v, borders, i)
    {
      UnflaggedEncloses(v, killed, borders, AliveOf(v.g), i);
    }
  }

  /** Region i is flagged exactly if a chain that is not pass-alive borders it. */
  ghost predicate FlagMeansOpen(v: Survey, borders: seq<bool>, i: int)
  {
    && 0 <= i < |v.t.heads| && 0 < v.t.heads[i] < |borders|
    && (!borders[v.t.heads[i]] <==> Enclosed(v.g.dy, v.g.s.b, v.g.pla, AliveOf(v.g), v.t.heads[i]))
  }

  lemma FlaggedSize(v: Survey, killed: seq<bool>, borders: seq<bool>)
    requires Flagged(v, killed, borders)
    ensures |killed| == |v.hs| && |borders| == |v.g.s.b|
  {
  }

  // ----- flagging the regions next to a killed chain

  /** Some stone of S is next to a point whose region starts at x. */
  ghost predicate MarksHead(g: Ground, t: Trace, S: set<int>, x: int)
  {
    exists q, a {:trigger q in S, t.headOf[a]} ::
      q in S && a in Foreign(g.s.b, g.pla) && Adj(g.dy, q, a) && 0 <= a < |t.headOf| && t.headOf[a] == x
  }

  ghost predicate FlagsAdded(g: Ground, t: Trace, S: set<int>, before: seq<bool>, after: seq<bool>)
  {
    |after| == |before| && forall x :: 0 <= x < |after| ==> (after[x] <==> before[x] || MarksHead(g, t, S, x))
  }

  lemma HeadOfIff(v: Survey, i: int, a: int)
    requires SurveyOk(v) && 0 <= i < |v.os| && 0 <= a < |v.g.s.b|
    ensures ShapeOk(v.g, v.t) && i < |v.t.heads|
    ensures v.t.headOf[a] == v.t.heads[i] <==> a in RegionOf(v.g, v.t.heads[i])
  {
    hide GroundOk, Region, VitalList;
    HeadFacts(v.g, v.t, v.total, v.os, i);
    if v.t.headOf[a] == v.t.heads[i] {
      var j :| 0 <= j < |v.os| && a in v.os[j];
      SurveyRegion(v, j);
      HeadFacts(v.g, v.t, v.total, v.os, j);
      assert a in Elems(v.os[j]);
    }
  }

  lemma MarksIsBorders(v: Survey, h: int, i: int)
    requires SurveyOk(v) && 0 <= i < |v.os| && i < |v.t.heads|
    ensures MarksHead(v.g, v.t, Class(v.g.s.head, h), v.t.heads[i]) <==> Borders(v.g, h, v.t.heads[i])
  {
    hide ScanOk, SurveyOk, Region;
    var x := v.t.heads[i];
    SurveyRegion(v, i);
    RegionBasics(v.g.dy, v.g.s.b, v.g.pla, x);
    if MarksHead(v.g, v.t, Class(v.g.s.head, h), x) {
      var q, a :| q in Class(v.g.s.head, h) && a in Foreign(v.g.s.b, v.g.pla) && Adj(v.g.dy, q, a)
        && 0 <= a < |v.t.headOf| && v.t.headOf[a] == x;
      HeadOfIff(v, i, a);
      AdjTouches(v.g.dy, q, a, RegionOf(v.g, x));
    }
    if Borders(v.g, h, x) {
      var q :| q in Class(v.g.s.head, h) && Touches(v.g.dy, q, RegionOf(v.g, x));
      var a := TouchesWitness(v.g.dy, q, RegionOf(v.g, x));
      HeadOfIff(v, i, a);
    }
  }

  /** Killing chain number k. */
  lemma KillStep(v: Survey, killed: seq<bool>, borders: seq<bool>, k: int, borders': seq<bool>)
    requires SurveyOk(v) && Flagged(v, killed, borders) && Justified(v, killed) && 0 <= k < |killed|
    requires Class(v.g.s.head, v.hs[k]) !! AliveOf(v.g)
    requires FlagsAdded(v.g, v.t, Class(v.g.s.head, v.hs[k]), borders, borders')
    ensures Flagged(v, killed[k := true], borders') && Justified(v, killed[k := true])
  {
    hide ScanOk, SurveyOk, Borders, Alive, MarksHead;
    var killed' := killed[k := true];
    forall i | 0 <= i < |v.os| && i < |v.t.heads| && 0 <= v.t.heads[i] < |borders|
      ensures borders'[v.t.heads[i]] <==> KilledBorders(v, killed', v.t.heads[i])
    {
      var x := v.t.heads[i];
      MarksIsBorders(v, v.hs[k], i);
      KilledMore(v, killed, k, x);
    }
  }

  lemma KilledMore(v: Survey, killed: seq<bool>, k: int, x: int)
    requires |killed| == |v.hs| && 0 <= k < |killed|
    ensures KilledBorders(v, killed[k := true], x) <==> KilledBorders(v, killed, x) || Borders(v.g, v.hs[k], x)
  {
    hide Borders;
    var killed' := killed[k := true];
    if KilledBorders(v, killed', x) {
      var j :| 0 <= j < |killed'| && j < |v.hs| && killed'[j] && Borders(v.g, v.hs[j], x);
      assert j == k || killed[j];
    }
    if KilledBorders(v, killed, x) {
      var j :| 0 <= j < |killed| && j < |v.hs| && killed[j] && Borders(v.g, v.hs[j], x);
      assert killed'[j];
    }
    assert killed'[k];
  }

  lemma NothingKilled(v: Survey, killed: seq<bool>, borders: seq<bool>)
    requires |killed| == |v.hs| && |borders| == |v.g.s.b|
    requires (forall k :: 0 <= k < |killed| ==> !killed[k]) && (forall p :: 0 <= p < |borders| ==> !borders[p])
    ensures Flagged(v, killed, borders) && Justified(v, killed)
  {
  }

  // ----- the walk along a killed chain

  /** The foreign ones among the first i neighbours of q have been flagged as well. */
  ghost predicate FlagsAddedAt(g: Ground, t: Trace, S: set<int>, q: int, i: int, before: seq<bool>, after: seq<bool>)
  {
    |after| == |before| && forall x :: 0 <= x < |after| ==> (after[x] <==> before[x] || MarksHead(g, t, S, x) || MarksBy(g, t, q, i, x))
  }

  ghost predicate MarksBy(g: Ground, t: Trace, q: int, i: int, x: int)
  {
    exists j {:trigger Nbr(g.dy, q, j)} :: 0 <= j < i && var a := Nbr(g.dy, q, j);
      a in Foreign(g.s.b, g.pla) && a < |t.headOf| && t.headOf[a] == x
  }

  lemma MarksByStep(g: Ground, t: Trace, q: int, i: int, x: int)
    requires i >= 0
    ensures var a := Nbr(g.dy, q, i);
      MarksBy(g, t, q, i + 1, x) <==> MarksBy(g, t, q, i, x) || (a in Foreign(g.s.b, g.pla) && a < |t.headOf| && t.headOf[a] == x)
  {
    if MarksBy(g, t, q, i + 1, x) {
      var j :| 0 <= j < i + 1 && var a := Nbr(g.dy, q, j); a in Foreign(g.s.b, g.pla) && a < |t.headOf| && t.headOf[a] == x;
      if j < i {
        assert MarksBy(g, t, q, i, x);
      }
    }
  }

  lemma FlagNbr(g: Ground, t: Trace, S: set<int>, q: int, i: int, before: seq<bool>, after: seq<bool>, after': seq<bool>)
    requires FlagsAddedAt(g, t, S, q, i, before, after) && i >= 0
    requires var a := Nbr(g.dy, q, i);
      if a in Foreign(g.s.b, g.pla) then a < |t.headOf| && 0 <= t.headOf[a] < |after| && after' == after[t.headOf[a] := true]
      else after' == after
    ensures FlagsAddedAt(g, t, S, q, i + 1, before, after')
  {
    hide MarksHead, MarksBy, Nbr, Foreign;
    forall x | 0 <= x < |after'|
      ensures after'[x] <==> before[x] || MarksHead(g, t, S, x) || MarksBy(g, t, q, i + 1, x)
    {
      MarksByStep(g, t, q, i, x);
    }
  }

  lemma FlagStone(g: Ground, t: Trace, S: set<int>, q: int, before: seq<bool>, after: seq<bool>)
    requires FlagsAddedAt(g, t, S, q, 4, before, after)
    ensures FlagsAdded(g, t, S + {q}, before, after)
  {
    forall x | 0 <= x < |after|
      ensures after[x] <==> before[x] || MarksHead(g, t, S + {q}, x)
    {
      MarksMore(g, t, S, q, x);
    }
  }

  lemma MarksMore(g: Ground, t: Trace, S: set<int>, q: int, x: int)
    ensures MarksHead(g, t, S + {q}, x) <==> MarksHead(g, t, S, x) || MarksBy(g, t, q, 4, x)
  {
    hide Nbr;
    if MarksHead(g, t, S + {q}, x) {
      var p, a :| p in S + {q} && a in Foreign(g.s.b, g.pla) && Adj(g.dy, p, a) && 0 <= a < |t.headOf| && t.headOf[a] == x;
      if p == q {
        AllNbrs(g.dy, q, a);
      } else {
        assert p in S;
      }
    }
    if MarksHead(g, t, S, x) {
      var p, a :| p in S && a in Foreign(g.s.b, g.pla) && Adj(g.dy, p, a) && 0 <= a < |t.headOf| && t.headOf[a] == x;
      assert p in S + {q};
    }
    if MarksBy(g, t, q, 4, x) {
      var j :| 0 <= j < 4 && var a := Nbr(g.dy, q, j); a in Foreign(g.s.b, g.pla) && a < |t.headOf| && t.headOf[a] == x;
      NbrAdj(g.dy, q, j);
      assert q in S + {q};
    }
  }

  lemma FlagsNone(g: Ground, t: Trace, before: seq<bool>)
    ensures FlagsAdded(g, t, {}, before, before)
  {
  }

  lemma FlagsStart(g: Ground, t: Trace, S: set<int>, q: int, before: seq<bool>, after: seq<bool>)
    requires FlagsAdded(g, t, S, before, after)
    ensures FlagsAddedAt(g, t, S, q, 0, before, after)
  {
  }

  // ----- marking the result

  lemma SurvivorsStep(v: Survey, killed: seq<bool>, n: int)
    requires SurveyOk(v) && |killed| == |v.hs| && 0 <= n < |killed|
    ensures Survivors(v, killed[..n + 1]) ==
      if killed[n] then Survivors(v, killed[..n]) else Survivors(v, killed[..n]) + Class(v.g.s.head, v.hs[n])
  {
    hide ScanOk, GroundOk;
    assert v.hs[n] in v.hs;
    HeadChain(v, v.hs[n]);
    ChainBasics(v.g.dy, v.g.s.b, v.hs[n]);
    var a, b := killed[..n], killed[..n + 1];
    forall p
      ensures Survives(v, b, p) <==> Survives(v, a, p) || (!killed[n] && p in Class(v.g.s.head, v.hs[n]))
    {
      if Survives(v, b, p) {
        var k :| 0 <= k < |b| && k < |v.hs| && !b[k] && p in Class(v.g.s.head, v.hs[k]);
        assert k < n ==> !a[k];
      }
      if Survives(v, a, p) {
        var k :| 0 <= k < |a| && k < |v.hs| && !a[k] && p in Class(v.g.s.head, v.hs[k]);
        assert !b[k];
      }
      if !killed[n] {
        assert !b[n];
      }
    }
  }

  lemma SurvivorsEnds(v: Survey, killed: seq<bool>)
    ensures Survivors(v, killed[..0]) == {} && Survivors(v, killed[..|killed|]) == Survivors(v, killed)
  {
    assert killed[..|killed|] == killed;
  }

  ghost predicate MarkedRegion(v: Survey, rules: AreaRules, i: int)
  {
    0 <= i < |v.t.heads| && Marked(v.g.dy, v.g.s.b, v.g.pla, rules, v.t.heads[i])
  }

  ghost predicate MarkedBelow(v: Survey, rules: AreaRules, n: int, p: int)
  {
    exists i :: 0 <= i < n && MarkedRegion(v, rules, i) && p in RegionOf(v.g, v.t.heads[i])
  }

  /** The points of the marked ones among the first n regions. */
  ghost function MarkedPoints(v: Survey, rules: AreaRules, n: int): set<int>
  {
    set p | 0 <= p < |v.g.s.b| && MarkedBelow(v, rules, n, p)
  }

  lemma MarkedStep(v: Survey, rules: AreaRules, n: int)
    requires SurveyOk(v) && 0 <= n < |v.os|
    ensures n < |v.t.heads|
    ensures MarkedPoints(v, rules, n + 1) ==
      MarkedPoints(v, rules, n) + if MarkedRegion(v, rules, n) then RegionOf(v.g, v.t.heads[n]) else {}
  {
    hide ScanOk, Marked, Region;
    SurveyRegion(v, n);
    RegionBasics(v.g.dy, v.g.s.b, v.g.pla, v.t.heads[n]);
    forall p
      ensures MarkedBelow(v, rules, n + 1, p) <==> MarkedBelow(v, rules, n, p) || (MarkedRegion(v, rules, n) && p in RegionOf(v.g, v.t.heads[n]))
    {
      if MarkedBelow(v, rules, n + 1, p) {
        var i :| 0 <= i < n + 1 && MarkedRegion(v, rules, i) && p in RegionOf(v.g, v.t.heads[i]);
        assert i < n || i == n;
      }
    }
  }

  lemma MarkedNone(v: Survey, rules: AreaRules)
    ensures MarkedPoints(v, rules, 0) == {}
  {
  }

  /** Survivors and marked regions together are what the player claims. */
  lemma ClaimFound(v: Survey, rules: AreaRules, killed: seq<bool>)
    requires SurveyOk(v) && Survivors(v, killed) == AliveOf(v.g) && rules.suicideLegal == v.g.suicideLegal
    ensures Claim(v.g.dy, v.g.s.b, v.g.pla, rules) == Survivors(v, killed) + MarkedPoints(v, rules, |v.os|)
  {
    hide ScanOk, Alive, Survivors, Region, Marked;
    forall p | 0 <= p < |v.g.s.b|
      ensures InMarked(v.g.dy, v.g.s.b, v.g.pla, rules, p) <==> MarkedBelow(v, rules, |v.os|, p)
    {
      if InMarked(v.g.dy, v.g.s.b, v.g.pla, rules, p) {
        var e :| Marked(v.g.dy, v.g.s.b, v.g.pla, rules, e) && p in Region(v.g.dy, v.g.s.b, v.g.pla, e);
        MarkedAtHead(v, rules, e, p);
      }
      if MarkedBelow(v, rules, |v.os|, p) {
        var i :| 0 <= i < |v.os| && MarkedRegion(v, rules, i) && p in RegionOf(v.g, v.t.heads[i]);
      }
    }
    forall p | p in AliveOf(v.g)
      ensures 0 <= p < |v.g.s.b|
    {
      AliveColour(v.g.dy, v.g.s.b, v.g.pla, v.g.suicideLegal, p);
    }
  }

  lemma MarkedAtHead(v: Survey, rules: AreaRules, e: int, p: int)
    requires SurveyOk(v) && Marked(v.g.dy, v.g.s.b, v.g.pla, rules, e) && p in RegionOf(v.g, e)
    ensures MarkedBelow(v, rules, |v.os|, p)
  {
    hide ScanOk, Alive, Region, AtMostOneInternal, HoldsStone, HasStone, Border;
    var i := RegionFor(v, e);
    SurveyRegion(v, i);
    assert MarkedRegion(v, rules, i);
  }

  /** The marking test, on what the trace recorded. */
  lemma ShouldMarkIff(v: Survey, rules: AreaRules, borders: seq<bool>, i: int, somePla: bool)
    requires SurveyOk(v) && 0 <= i < |v.os| && FlagMeansOpen(v, borders, i) && rules.suicideLegal == v.g.suicideLegal
    requires somePla <==> HasStone(v.g.s.b, v.g.pla)
    ensures ShapeOk(v.g, v.t) && MarkedRegion(v, rules, i) <==> (
      || (v.t.internal[i] <= 1 && somePla && !borders[v.t.heads[i]])
      || (rules.safeBigTerritories && somePla && !v.t.hasOpp[i] && !borders[v.t.heads[i]])
      || (rules.unsafeBigTerritories && somePla && !v.t.hasOpp[i]))
  {
    hide ScanOk, SurveyOk, VitalList, Alive, Region, AtMostOneInternal, HoldsStone, HasStone, Border;
    SurveyRegion(v, i);
  }

  lemma RelabelTwice(r: seq<int>, A: set<int>, B: set<int>, c: int)
    ensures Relabel(Relabel(r, A, c), B, c) == Relabel(r, A + B, c) && Relabel(r, {}, c) == r
  {
  }

  /** The tracing order of a region, as its ring is walked. */
  lemma RegionRing(v: Survey, i: int) returns (r: seq<int>)
    requires SurveyOk(v) && 0 <= i < |v.os|
    ensures i < |v.t.heads| && |r| > 0 && r[0] == v.t.heads[i] && Elems(r) == RegionOf(v.g, v.t.heads[i]) && Distinct(r)
    ensures |v.t.next| == |v.g.s.b|
    ensures forall k :: 0 <= k < |r| ==> 0 < r[k] < |v.g.s.b| && v.t.next[r[k]] == r[Succ(k, |r|)]
  {
    hide ScanOk, RecordOk, Region;
    SurveyRegion(v, i);
    var o := v.os[i];
    r := LineRing(o);
    LineRingMembers(o);
    assert forall p :: p in Elems(r) <==> p in Elems(o);
    forall k | 0 <= k < |r|
      ensures 0 < r[k] < |v.g.s.b| && v.t.next[r[k]] == r[Succ(k, |r|)]
    {
      assert r[k] in r;
      if k > 0 {
        assert r[k] == o[|o| - k] && v.t.next[o[|o| - k]] == o[|o| - k - 1];
      }
    }
  }
}
