/** Putting part of a removed chain back, stone by stone. */
module Refill {
  import opened Grid
  import opened Components
  import opened Rules

  /** A colouring that differs from a position only by the points Z of one chain being empty,
      at least one of them: every chain on it has a liberty. */
  lemma PartialChainBreathes(dy: int, b: seq<int>, r: int, Z: set<int>)
    requires Position(dy, b) && 0 <= r < |b| && Stone(b[r])
    requires Z <= Chain(dy, b, r) && Z != {}
    ensures Position(dy, Clear(b, Z))
  {
    var b1, X := Clear(b, Z), Chain(dy, b, r);
    ChainBasics(dy, b, r);
    forall d | 0 <= d < |b1| && Stone(b1[d])
      ensures Libs(dy, b1, Chain(dy, b1, d)) != {}
    {
      if d in X {
        PartOfChain(dy, b, r, Z, d);
      } else {
        OtherChain(dy, b, r, Z, d);
      }
    }
  }

  lemma OtherChain(dy: int, b: seq<int>, r: int, Z: set<int>, d: int)
    requires Position(dy, b) && 0 <= r < |b| && Stone(b[r]) && Z <= Chain(dy, b, r)
    requires 0 <= d < |b| && Stone(b[d]) && d !in Chain(dy, b, r)
    ensures Chain(dy, Clear(b, Z), d) == Chain(dy, b, d)
    ensures Libs(dy, Clear(b, Z), Chain(dy, b, d)) != {}
  {
    if x :| x in Chain(dy, b, d) && x in Chain(dy, b, r) {
      ChainSame(dy, b, d, x);
      ChainSame(dy, b, r, x);
      ChainBasics(dy, b, d);
    }
    ClearKeepsChain(dy, b, Z, d);
  }

  /** A component of what is left of the chain still touches a point that was taken out. */
  lemma PartOfChain(dy: int, b: seq<int>, r: int, Z: set<int>, d: int)
    requires Coloured(dy, b) && 0 <= r < |b| && Stone(b[r]) && Z <= Chain(dy, b, r) && Z != {}
    requires d in Chain(dy, b, r) && d !in Z
    ensures 0 <= d < |b| && Libs(dy, Clear(b, Z), Chain(dy, Clear(b, Z), d)) != {}
  {
    var b1, X := Clear(b, Z), Chain(dy, b, r);
    ChainBasics(dy, b, r);
    var D := Chain(dy, b1, d);
    ChainBasics(dy, b1, d);
    var z :| z in Z;
    if Libs(dy, b1, D) == {} {
      forall x, y | x in D && y in Pts(b, b[r]) && Adj(dy, x, y)
        ensures y in D
      {
        assert Adj(dy, y, x);
        AdjTouches(dy, y, x, D);
        assert y in Z ==> y in Libs(dy, b1, D);
      }
      ChainSame(dy, b, r, d);
      CompLeast(dy, Pts(b, b[r]), d, D);
      assert false;
    }
  }

  /** A move that leaves every chain a liberty captures nothing and is no suicide. */
  lemma QuietMove(dy: int, b: seq<int>, pla: int, p: int)
    requires Stone(pla) && 0 <= p < |b| && b[p] == EMPTY
    requires Position(dy, b[p := pla])
    ensures Move(dy, b, pla, p) == b[p := pla]
    ensures Captured(dy, b, pla, p) == {}
  {
    var b1 := b[p := pla];
    assert Captured(dy, b, pla, p) == {};
    assert AfterCaptures(dy, b, pla, p) == b1;
    assert Dead(dy, b1, pla) == {};
  }

  /** Re-adding one more stone of the chain, while a point of it stays open, changes just that point. */
  lemma RefillStep(dy: int, b: seq<int>, r: int, Z: set<int>, p: int)
    requires Position(dy, b) && 0 <= r < |b| && Stone(b[r])
    requires Z <= Chain(dy, b, r) && p in Z && Z - {p} != {}
    ensures 0 <= p < |b| && Clear(b, Z)[p] == EMPTY
    ensures Position(dy, Clear(b, Z)) && Position(dy, Clear(b, Z - {p}))
    ensures Move(dy, Clear(b, Z), b[r], p) == Clear(b, Z - {p})
    ensures KoPoint(dy, Clear(b, Z), b[r], p) == None
  {
    ChainBasics(dy, b, r);
    assert Clear(b, Z)[p := b[r]] == Clear(b, Z - {p});
    PartialChainBreathes(dy, b, r, Z);
    PartialChainBreathes(dy, b, r, Z - {p});
    QuietMove(dy, Clear(b, Z), b[r], p);
  }
}
