/** Best-first search over an implicitly given finite graph with unit edge costs. The room graph
    (heuristic zero) and the tile grid (Manhattan heuristic) are both searched with it. */
module Search {
  import opened Wrappers

  /** `p` walks along edges of `succ` from `a` to `b`. */
  ghost predicate IsPath<N(!new)>(succ: N -> seq<N>, p: seq<N>, a: N, b: N) {
    && |p| > 0
    && p[0] == a
    && p[|p| - 1] == b
    && forall i :: 0 < i < |p| ==> IsEdge(succ, p, i)
  }

  predicate IsEdge<N(==)>(succ: N -> seq<N>, p: seq<N>, i: nat)
    requires 0 < i < |p|
  {
    p[i] in succ(p[i - 1])
  }

  /** `p` is a path, and no path between the same ends has fewer nodes. */
  ghost predicate IsShortest<N(!new)>(succ: N -> seq<N>, p: seq<N>, a: N, b: N) {
    && IsPath(succ, p, a, b)
    && forall q :: IsPath(succ, q, a, b) ==> |p| <= |q|
  }

  ghost predicate ClosedUnder<N(!new)>(succ: N -> seq<N>, universe: set<N>) {
    forall u, v :: u in universe && v in succ(u) ==> v in universe
  }

  /** The heuristic never drops by more than one along an edge. */
  ghost predicate Consistent<N(!new)>(succ: N -> seq<N>, h: N -> nat, universe: set<N>) {
    forall u, v :: u in universe && v in succ(u) ==> h(u) <= h(v) + 1
  }

  /** Node `n` of the frontier comes before `m` in the expansion order. */
  predicate NotAfter<N(==)>(best: map<N, seq<N>>, h: N -> nat, n: N, m: N)
    requires n in best && m in best
  {
    |best[n]| + h(n) <= |best[m]| + h(m)
  }

  /** What the search knows between two expansions. */
  ghost predicate Explored<N(!new)>(succ: N -> seq<N>, h: N -> nat, from: N,
                                    best: map<N, seq<N>>, open: set<N>, closed: set<N>) {
    && open !! closed
    && best.Keys == open + closed
    && from in best && best[from] == [from]
    && (forall n :: n in best ==> IsPath(succ, best[n], from, n))
    && (forall u, v :: u in closed && v in succ(u) ==> v in best && |best[v]| <= |best[u]| + 1)
    && (forall u, w :: u in closed && w in open ==> NotAfter(best, h, u, w))
  }

  /** Any path to an unexpanded node crosses the frontier at a node reached as cheaply as the path does. */
  lemma {:induction false} PathMeetsFrontier<N(!new)>(succ: N -> seq<N>, h: N -> nat, from: N, best: map<N, seq<N>>,
                                                      open: set<N>, closed: set<N>, q: seq<N>, to: N, k: nat)
    returns (i: nat)
    requires Explored(succ, h, from, best, open, closed)
    requires IsPath(succ, q, from, to) && to !in closed
    requires k < |q| && q[k] in best && |best[q[k]]| <= k + 1
    ensures k <= i < |q| && q[i] in open && |best[q[i]]| <= i + 1
    decreases |q| - k
  {
    if q[k] in open {
      return k;
    }
    assert IsEdge(succ, q, k + 1);
    i := PathMeetsFrontier(succ, h, from, best, open, closed, q, to, k + 1);
  }

  /** Along a path inside the universe the heuristic drops at most one per edge. */
  lemma {:induction false} HeuristicAlongPath<N(!new)>(succ: N -> seq<N>, h: N -> nat, universe: set<N>, q: seq<N>,
                                                       from: N, to: N, i: nat)
    requires ClosedUnder(succ, universe) && Consistent(succ, h, universe)
    requires IsPath(succ, q, from, to) && i < |q| && q[i] in universe
    ensures h(q[i]) <= |q| - 1 - i + h(to)
    decreases |q| - i
  {
    if i + 1 < |q| {
      assert IsEdge(succ, q, i + 1);
      HeuristicAlongPath(succ, h, universe, q, from, to, i + 1);
    }
  }

  /** A frontier node that comes first in the expansion order. */
  method First<N(==, !new)>(best: map<N, seq<N>>, h: N -> nat, open: set<N>) returns (n: N)
    requires open != {} && open <= best.Keys
    ensures n in open
    ensures forall m :: m in open ==> NotAfter(best, h, n, m)
  {
    n :| n in open;
    var rest := open - {n};
    while rest != {}
      invariant rest <= open && n in open
      invariant forall m :: m in open - rest ==> NotAfter(best, h, n, m)
      decreases rest
    {
      var m :| m in rest;
      rest := rest - {m};
      if !NotAfter(best, h, n, m) {
        forall x | x in open - rest
          ensures NotAfter(best, h, m, x)
        {
          assert x == m || NotAfter(best, h, n, x);
        }
        n := m;
      }
    }
  }

  /** A path with the fewest nodes, or `None` exactly when there is no path at all. */
  method AStar<N(==, !new)>(succ: N -> seq<N>, h: N -> nat, from: N, to: N, ghost universe: set<N>)
    returns (r: Option<seq<N>>)
    requires from in universe && ClosedUnder(succ, universe) && Consistent(succ, h, universe)
    ensures r.Some? ==> IsShortest(succ, r.value, from, to)
    ensures r.None? ==> forall q :: !IsPath(succ, q, from, to)
  {
    var best: map<N, seq<N>> := map[from := [from]];
    var open, closed := {from}, {};
    while open != {}
      invariant Explored(succ, h, from, best, open, closed)
      invariant best.Keys <= universe
      invariant to !in closed
      decreases universe - closed
    {
      var n := First(best, h, open);
      if n == to {
        forall q | IsPath(succ, q, from, to)
          ensures |best[n]| <= |q|
        {
          var i := PathMeetsFrontier(succ, h, from, best, open, closed, q, to, 0);
          HeuristicAlongPath(succ, h, universe, q, from, to, i);
          assert NotAfter(best, h, n, q[i]);
        }
        return Some(best[n]);
      }
      best, open, closed := Expand(succ, h, from, universe, best, open, closed, n);
    }
    forall q
      ensures !IsPath(succ, q, from, to)
    {
      if IsPath(succ, q, from, to) {
        var i := PathMeetsFrontier(succ, h, from, best, open, closed, q, to, 0);
      }
    }
    return None;
  }

  /** While the edges of `n` are being relaxed: what holds of the improved table `best`. */
  ghost predicate Relaxing<N(!new)>(succ: N -> seq<N>, h: N -> nat, from: N, best0: map<N, seq<N>>, closed: set<N>,
                                    best: map<N, seq<N>>, open: set<N>, n: N) {
    && open !! closed
    && best.Keys == open + closed
    && n in closed
    && from in best && best[from] == [from]
    && closed <= best0.Keys <= best.Keys
    && (forall x :: x in best ==> IsPath(succ, best[x], from, x))
    && (forall x :: x in best0 ==> |best[x]| <= |best0[x]|)
    && (forall x :: x in closed ==> best[x] == best0[x])
    && (forall w :: w in open ==> NotAfter(best, h, n, w))
  }

  /** Recording a strictly better path to a successor of `n` keeps the table consistent. */
  lemma RelaxStep<N(!new)>(succ: N -> seq<N>, h: N -> nat, from: N, best0: map<N, seq<N>>, closed: set<N>,
                           best: map<N, seq<N>>, open: set<N>, n: N, v: N)
    requires Relaxing(succ, h, from, best0, closed, best, open, n)
    requires v in succ(n) && v !in closed && h(n) <= h(v) + 1
    requires v !in best || |best[n]| + 1 < |best[v]|
    ensures Relaxing(succ, h, from, best0, closed, best[v := best[n] + [v]], open + {v}, n)
  {
    var p := best[n] + [v];
    forall i | 0 < i < |p|
      ensures IsEdge(succ, p, i)
    {
      assert i < |best[n]| ==> IsEdge(succ, best[n], i);
    }
    assert v != from;
  }

  /** Moves `n` off the frontier and relaxes its outgoing edges. */
  method Expand<N(==, !new)>(succ: N -> seq<N>, h: N -> nat, ghost from: N, ghost universe: set<N>,
                             best0: map<N, seq<N>>, open0: set<N>, closed0: set<N>, n: N)
    returns (best: map<N, seq<N>>, open: set<N>, closed: set<N>)
    requires ClosedUnder(succ, universe) && Consistent(succ, h, universe)
    requires Explored(succ, h, from, best0, open0, closed0) && best0.Keys <= universe
    requires n in open0 && forall m :: m in open0 ==> NotAfter(best0, h, n, m)
    ensures Explored(succ, h, from, best, open, closed) && best.Keys <= universe
    ensures closed == closed0 + {n}
  {
    best, open, closed := best0, open0 - {n}, closed0 + {n};
    var next := succ(n);
    for k := 0 to |next|
      invariant Relaxing(succ, h, from, best0, closed, best, open, n)
      invariant best.Keys <= universe
      invariant forall i :: 0 <= i < k ==> next[i] in best && |best[next[i]]| <= |best[n]| + 1
    {
      var v := next[k];
      if v !in best || |best[n]| + 1 < |best[v]| {
        ClosedIsFinal(succ, h, from, universe, best0, open0, closed0, n, v);
        RelaxStep(succ, h, from, best0, closed, best, open, n, v);
        best := best[v := best[n] + [v]];
        open := open + {v};
      }
    }
    ExpansionDone(succ, h, from, best0, open0, closed0, best, open, n);
  }

  /** Consistency makes the cost of an expanded node final: no successor of `n` among them can be improved. */
  lemma ClosedIsFinal<N(!new)>(succ: N -> seq<N>, h: N -> nat, from: N, universe: set<N>, best0: map<N, seq<N>>,
                               open0: set<N>, closed0: set<N>, n: N, v: N)
    requires Consistent(succ, h, universe) && best0.Keys <= universe
    requires Explored(succ, h, from, best0, open0, closed0)
    requires n in open0 && v in succ(n)
    ensures v in closed0 + {n} ==> |best0[v]| <= |best0[n]| + 1
    ensures h(n) <= h(v) + 1
  {
    if v in closed0 {
      assert NotAfter(best0, h, v, n);
    }
  }

  /** Once every edge of `n` is relaxed, the search invariant holds with `n` expanded. */
  lemma ExpansionDone<N(!new)>(succ: N -> seq<N>, h: N -> nat, from: N, best0: map<N, seq<N>>, open0: set<N>,
                               closed0: set<N>, best: map<N, seq<N>>, open: set<N>, n: N)
    requires Explored(succ, h, from, best0, open0, closed0) && n in open0
    requires Relaxing(succ, h, from, best0, closed0 + {n}, best, open, n)
    requires forall v :: v in succ(n) ==> v in best && |best[v]| <= |best[n]| + 1
    ensures Explored(succ, h, from, best, open, closed0 + {n})
  {
    forall u, w | u in closed0 + {n} && w in open
      ensures NotAfter(best, h, u, w)
    {
      assert NotAfter(best, h, n, w);
      if u != n {
        assert NotAfter(best0, h, u, n);
      }
    }
  }
}
