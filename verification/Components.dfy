/** Connected components of a set of points under grid adjacency. */
module Components {
  import opened Grid

  /** S cannot be left by stepping to an adjacent point of U. */
  ghost predicate Closed(dy: int, U: set<int>, S: set<int>)
  {
    forall p, q {:trigger Adj(dy, p, q)} :: p in S && q in U && Adj(dy, p, q) ==> q in S
  }

  /** q lies in every closed set around p. */
  ghost predicate Linked(dy: int, U: set<int>, p: int, q: int)
  {
    forall S: set<int> {:trigger Closed(dy, U, S)} :: p in S && Closed(dy, U, S) ==> q in S
  }

  ghost function Comp(dy: int, U: set<int>, p: int): set<int>
  {
    set q | q in U && Linked(dy, U, p, q)
  }

  lemma CompClosed(dy: int, U: set<int>, p: int)
    ensures Closed(dy, U, Comp(dy, U, p))
    ensures Comp(dy, U, p) <= U
    ensures p in U ==> p in Comp(dy, U, p)
  {
    forall x, y | x in Comp(dy, U, p) && y in U && Adj(dy, x, y)
      ensures y in Comp(dy, U, p)
    {
      forall S: set<int> | p in S && Closed(dy, U, S)
        ensures y in S
      {
        assert x in S;
      }
    }
  }

  /** A component is the least closed set around its point. */
  lemma CompLeast(dy: int, U: set<int>, p: int, S: set<int>)
    requires p in S && Closed(dy, U, S)
    ensures Comp(dy, U, p) <= S
  {
  }

  /** Any point of a component generates the same component. */
  lemma CompSame(dy: int, U: set<int>, p: int, q: int)
    requires p in U && q in Comp(dy, U, p)
    ensures Comp(dy, U, q) == Comp(dy, U, p)
  {
    var P, Q := Comp(dy, U, p), Comp(dy, U, q);
    CompClosed(dy, U, p);
    CompClosed(dy, U, q);
    CompLeast(dy, U, q, P);
    if p !in Q {
      forall x, y | x in U - Q && y in U && Adj(dy, x, y)
        ensures y in U - Q
      {
        assert Adj(dy, y, x);
      }
      assert Closed(dy, U, U - Q);
      CompLeast(dy, U, p, U - Q);
      assert false;
    }
    CompLeast(dy, U, p, Q);
  }

  lemma CompStep(dy: int, U: set<int>, p: int, x: int, y: int)
    requires x in Comp(dy, U, p) && y in U && Adj(dy, x, y)
    ensures y in Comp(dy, U, p)
  {
    CompClosed(dy, U, p);
  }

  lemma CompMono(dy: int, U: set<int>, V: set<int>, p: int)
    requires U <= V
    ensures Comp(dy, U, p) <= Comp(dy, V, p)
  {
    var P := Comp(dy, V, p);
    CompClosed(dy, V, p);
    forall q | q in Comp(dy, U, p)
      ensures q in P
    {
      forall S: set<int> | p in S && Closed(dy, V, S)
        ensures q in S
      {
        assert Closed(dy, U, S);
      }
    }
  }

  /** A component survives any change of U that leaves its points in and opens no way out. */
  lemma CompLocal(dy: int, U: set<int>, V: set<int>, p: int)
    requires p in U
    requires Comp(dy, U, p) <= V
    requires Closed(dy, V, Comp(dy, U, p))
    ensures Comp(dy, V, p) == Comp(dy, U, p)
  {
    var C, D := Comp(dy, U, p), Comp(dy, V, p);
    CompClosed(dy, U, p);
    CompClosed(dy, V, p);
    CompLeast(dy, V, p, C);
    assert Closed(dy, U, D);
    CompLeast(dy, U, p, D);
  }

  // ----- the same components, by paths

  ghost predicate IsPath(dy: int, U: set<int>, s: seq<int>, p: int, q: int)
  {
    && |s| > 0 && s[0] == p && s[|s| - 1] == q
    && (forall i :: 0 <= i < |s| ==> s[i] in U)
    && (forall i :: 0 < i < |s| ==> Adj(dy, s[i - 1], s[i]))
  }

  lemma {:induction false} PathStays(dy: int, U: set<int>, s: seq<int>, p: int, q: int, S: set<int>)
    requires IsPath(dy, U, s, p, q) && p in S && Closed(dy, U, S)
    ensures q in S
  {
    if |s| > 1 {
      var t := s[..|s| - 1];
      PathStays(dy, U, t, p, t[|t| - 1], S);
      assert Adj(dy, s[|s| - 2], s[|s| - 1]);
    }
  }

  /** The component of p holds exactly the points that a path inside U reaches from p. */
  lemma CompIsReachability(dy: int, U: set<int>, p: int, q: int)
    requires p in U
    ensures q in Comp(dy, U, p) <==> exists s :: IsPath(dy, U, s, p, q)
  {
    if s :| IsPath(dy, U, s, p, q) {
      CompClosed(dy, U, p);
      PathStays(dy, U, s, p, q, Comp(dy, U, p));
    }
    if q in Comp(dy, U, p) {
      var R := set x | x in U && exists s :: IsPath(dy, U, s, p, x);
      assert IsPath(dy, U, [p], p, p);
      forall x, y | x in R && y in U && Adj(dy, x, y)
        ensures y in R
      {
        var s :| IsPath(dy, U, s, p, x);
        assert IsPath(dy, U, s + [y], p, y);
      }
      CompLeast(dy, U, p, R);
    }
  }
}
