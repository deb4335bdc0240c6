/** Directed graphs given by the targets of every node. Targets need not be nodes themselves. */
module Digraph {

  type Graph<T> = map<T, set<T>>

  predicate Arc<T(==)>(g: Graph<T>, a: T, b: T) {
    a in g && b in g[a]
  }

  predicate Walk<T(==)>(g: Graph<T>, p: seq<T>) {
    p != [] && forall i | 0 <= i < |p| - 1 :: Arc(g, p[i], p[i + 1])
  }

  predicate WalkFrom<T(==)>(g: Graph<T>, p: seq<T>, a: T, b: T) {
    Walk(g, p) && p[0] == a && p[|p| - 1] == b
  }

  /** A walk of at least one arc that ends where it starts. */
  predicate Cycle<T(==)>(g: Graph<T>, p: seq<T>) {
    |p| > 1 && Walk(g, p) && p[0] == p[|p| - 1]
  }

  ghost predicate Acyclic<T(!new)>(g: Graph<T>) {
    forall p: seq<T> :: !Cycle(g, p)
  }

  ghost predicate Reaches<T(!new)>(g: Graph<T>, a: T, b: T) {
    exists p: seq<T> :: WalkFrom(g, p, a, b)
  }

  /** Every node stands after all of its targets. */
  predicate Topological<T(==)>(g: Graph<T>, order: seq<T>) {
    forall i | 0 <= i < |order| && order[i] in g :: forall b | b in g[order[i]] :: b in order[..i]
  }

  // ---------------------------------------------------------------- walks

  lemma JoinWalks<T>(g: Graph<T>, p: seq<T>, q: seq<T>)
    requires Walk(g, p) && Walk(g, q) && p[|p| - 1] == q[0]
    ensures WalkFrom(g, p + q[1..], p[0], q[|q| - 1])
  {
    var r := p + q[1..];
    forall i | 0 <= i < |r| - 1 ensures Arc(g, r[i], r[i + 1]) {
      if i >= |p| - 1 { assert r[i] == q[i - |p| + 1] && r[i + 1] == q[i - |p| + 2]; }
    }
  }

  lemma PartOfWalk<T>(g: Graph<T>, p: seq<T>, i: nat, j: nat)
    requires Walk(g, p) && i < j <= |p|
    ensures WalkFrom(g, p[i..j], p[i], p[j - 1])
  {
    forall k | 0 <= k < j - i - 1 ensures Arc(g, p[i..j][k], p[i..j][k + 1]) {
      assert Arc(g, p[i + k], p[i + k + 1]);
    }
  }

  lemma ReachesTransitive<T(!new)>(g: Graph<T>, a: T, b: T, c: T)
    requires Reaches(g, a, b) && Reaches(g, b, c)
    ensures Reaches(g, a, c)
  {
    var p: seq<T> :| WalkFrom(g, p, a, b);
    var q: seq<T> :| WalkFrom(g, q, b, c);
    JoinWalks(g, p, q);
  }

  lemma ReachesItself<T(!new)>(g: Graph<T>, a: T)
    ensures Reaches(g, a, a)
  {
    assert WalkFrom(g, [a], a, a);
  }

  /** A set of nodes that no arc leaves holds all it reaches. */
  lemma {:induction false} ClosedUnderWalks<T>(g: Graph<T>, s: set<T>, p: seq<T>)
    requires forall a, b | a in s && Arc(g, a, b) :: b in s
    requires Walk(g, p) && p[0] in s
    ensures p[|p| - 1] in s
    decreases |p|
  {
    if |p| > 1 {
      PartOfWalk(g, p, 0, |p| - 1);
      ClosedUnderWalks(g, s, p[0..|p| - 1]);
    }
  }

  // ---------------------------------------------------------------- an order excludes cycles

  lemma {:induction false} WalksDescend<T>(g: Graph<T>, order: seq<T>, p: seq<T>, i: nat)
    requires Topological(g, order) && Walk(g, p) && |p| > 1
    requires i < |order| && order[i] == p[0]
    ensures p[|p| - 1] in order[..i]
    decreases |p|
  {
    assert Arc(g, p[0], p[1]);
    var j :| 0 <= j < i && order[j] == p[1];
    if |p| > 2 {
      PartOfWalk(g, p, 1, |p|);
      WalksDescend(g, order, p[1..], j);
    }
  }

  lemma {:induction false} NoCycleFrom<T>(g: Graph<T>, order: seq<T>, p: seq<T>, i: nat)
    requires |p| > 1 && Topological(g, order) && i < |order| && order[i] == p[0]
    ensures !Cycle(g, p)
    decreases i
  {
    if Cycle(g, p) {
      WalksDescend(g, order, p, i);
      var j :| 0 <= j < i && order[j] == p[0];
      NoCycleFrom(g, order, p, j);
    }
  }

  lemma TopologicalIsAcyclic<T(!new)>(g: Graph<T>, order: seq<T>)
    requires Topological(g, order) && forall a | a in g :: a in order
    ensures Acyclic(g)
  {
    forall p: seq<T> ensures !Cycle(g, p) {
      if Cycle(g, p) {
        assert Arc(g, p[0], p[1]);
        var i :| 0 <= i < |order| && order[i] == p[0];
        NoCycleFrom(g, order, p, i);
      }
    }
  }

  // ---------------------------------------------------------------- where every node leads on

  lemma {:induction false} LongWalk<T>(g: Graph<T>, s: set<T>, a: T, n: nat) returns (p: seq<T>)
    requires a in s && forall b | b in s :: b in g && g[b] * s != {}
    ensures |p| == n + 1 && Walk(g, p) && forall b | b in p :: b in s
    decreases n
  {
    if n == 0 {
      p := [a];
    } else {
      var b :| b in g[a] * s;
      var q := LongWalk(g, s, a, n - 1);
      var last := q[n - 1];
      var next :| next in g[last] * s;
      p := q + [next];
      assert forall i | 0 <= i < n - 1 :: Arc(g, q[i], q[i + 1]);
      assert Arc(g, last, next);
    }
  }

  lemma {:induction false} Pigeonhole<T>(p: seq<T>, s: set<T>) returns (i: nat, j: nat)
    requires |p| > |s| && forall a | a in p :: a in s
    ensures i < j < |p| && p[i] == p[j]
    decreases |p|
  {
    var last := |p| - 1;
    if k :| 0 <= k < last && p[k] == p[last] {
      i, j := k, last;
    } else {
      i, j := Pigeonhole(p[..last], s - {p[last]});
    }
  }

  lemma LeadingOnMakesACycle<T(!new)>(g: Graph<T>, s: set<T>)
    requires s != {} && forall b | b in s :: b in g && g[b] * s != {}
    ensures !Acyclic(g)
  {
    var a :| a in s;
    var p := LongWalk(g, s, a, |s|);
    var i, j := Pigeonhole(p, s);
    PartOfWalk(g, p, i, j + 1);
    assert Cycle(g, p[i..j + 1]);
  }

  // ---------------------------------------------------------------- one more arc

  /** `g` with an arc from `a` to `b`. */
  function WithArc<T(==)>(g: Graph<T>, a: T, b: T): Graph<T> {
    g[a := (if a in g then g[a] else {}) + {b}]
  }

  lemma {:induction false} WalkUntilArc<T(!new)>(g: Graph<T>, a: T, b: T, p: seq<T>)
    requires Walk(WithArc(g, a, b), p)
    ensures Walk(g, p) || Reaches(g, p[0], a)
    decreases |p|
  {
    if |p| == 1 {
    } else if p[0] == a {
      ReachesItself(g, a);
    } else {
      PartOfWalk(WithArc(g, a, b), p, 1, |p|);
      WalkUntilArc(g, a, b, p[1..]);
      assert Arc(WithArc(g, a, b), p[0], p[1]);
      assert Arc(g, p[0], p[1]);
      if Walk(g, p[1..]) {
        assert forall i | 1 <= i < |p| - 1 :: Arc(g, p[1..][i - 1], p[1..][i]);
      } else {
        assert WalkFrom(g, [p[0], p[1]], p[0], p[1]);
        ReachesTransitive(g, p[0], p[1], a);
      }
    }
  }

  lemma {:induction false} WalkSinceArc<T(!new)>(g: Graph<T>, a: T, b: T, p: seq<T>)
    requires Walk(WithArc(g, a, b), p)
    ensures Walk(g, p) || Reaches(g, b, p[|p| - 1])
    decreases |p|
  {
    var n := |p| - 1;
    if n > 0 {
      var x, y := p[n - 1], p[n];
      PartOfWalk(WithArc(g, a, b), p, 0, n);
      WalkSinceArc(g, a, b, p[0..n]);
      assert Arc(WithArc(g, a, b), x, y);
      if !Arc(g, x, y) {
        assert y == b;
        ReachesItself(g, b);
      } else if Walk(g, p[0..n]) {
        assert forall i | 0 <= i < n - 1 :: Arc(g, p[0..n][i], p[0..n][i + 1]);
      } else {
        assert WalkFrom(g, [x, y], x, y);
        ReachesTransitive(g, b, x, y);
      }
    }
  }

  /** An arc from `a` to `b` keeps a graph acyclic exactly when `b` does not reach `a` without it. */
  lemma ArcKeepsAcyclic<T(!new)>(g: Graph<T>, a: T, b: T)
    requires Acyclic(g)
    ensures Acyclic(WithArc(g, a, b)) <==> !Reaches(g, b, a)
  {
    if Reaches(g, b, a) {
      var p: seq<T> :| WalkFrom(g, p, b, a);
      var c := p + [b];
      forall i | 0 <= i < |c| - 1 ensures Arc(WithArc(g, a, b), c[i], c[i + 1]) {
        if i < |p| - 1 { assert Arc(g, p[i], p[i + 1]); }
      }
      assert Cycle(WithArc(g, a, b), c);
    } else {
      forall p: seq<T> ensures !Cycle(WithArc(g, a, b), p) {
        if Cycle(WithArc(g, a, b), p) {
          assert !Cycle(g, p);
          WalkUntilArc(g, a, b, p);
          WalkSinceArc(g, a, b, p);
          ReachesTransitive(g, b, p[0], a);
        }
      }
    }
  }

  /** Fewer arcs, fewer walks. */
  ghost predicate Subgraph<T(!new)>(g: Graph<T>, h: Graph<T>) {
    forall a | a in g :: g[a] == {} || (a in h && g[a] <= h[a])
  }

  lemma SubgraphWalks<T(!new)>(g: Graph<T>, h: Graph<T>, p: seq<T>)
    requires Subgraph(g, h) && Walk(g, p)
    ensures Walk(h, p)
  {
    forall i | 0 <= i < |p| - 1 ensures Arc(h, p[i], p[i + 1]) {
      assert Arc(g, p[i], p[i + 1]);
    }
  }

  lemma SubgraphAcyclic<T(!new)>(g: Graph<T>, h: Graph<T>)
    requires Subgraph(g, h) && Acyclic(h)
    ensures Acyclic(g)
  {
    forall p: seq<T> ensures !Cycle(g, p) {
      if Cycle(g, p) {
        SubgraphWalks(g, h, p);
        assert Cycle(h, p);
      }
    }
  }

  // ---------------------------------------------------------------- one more node

  lemma {:induction false} WalkToFresh<T(!new)>(g: Graph<T>, s: T, us: set<T>, p: seq<T>)
    requires s !in g && Walk(g[s := us], p) && p[|p| - 1] == s
    ensures Reaches(g, p[0], s)
    decreases |p|
  {
    if p[0] == s {
      ReachesItself(g, s);
    } else {
      assert Arc(g[s := us], p[0], p[1]);
      PartOfWalk(g[s := us], p, 1, |p|);
      WalkToFresh(g, s, us, p[1..]);
      assert WalkFrom(g, [p[0], p[1]], p[0], p[1]);
      ReachesTransitive(g, p[0], p[1], s);
    }
  }

  lemma {:induction false} FreshNodeStaysAcyclic<T(!new)>(g: Graph<T>, s: T, us: set<T>)
    requires Acyclic(g) && s !in g && forall u | u in us :: !Reaches(g, u, s)
    ensures Acyclic(g[s := us])
    decreases us
  {
    if us == {} {
      SubgraphAcyclic(g[s := us], g);
    } else {
      var u :| u in us;
      var h := g[s := us - {u}];
      FreshNodeStaysAcyclic(g, s, us - {u});
      if Reaches(h, u, s) {
        var p: seq<T> :| WalkFrom(h, p, u, s);
        WalkToFresh(g, s, us - {u}, p);
      }
      ArcKeepsAcyclic(h, s, u);
      assert (us - {u}) + {u} == us;
      assert WithArc(h, s, u) == g[s := us];
    }
  }

  /**
   A new node with several targets keeps a graph acyclic exactly when none of the targets reaches the
   node in the graph as it was, so the targets can be checked one at a time.
   */
  lemma FreshNodeCheck<T(!new)>(g: Graph<T>, s: T, us: set<T>)
    requires Acyclic(g) && s !in g
    ensures Acyclic(g[s := us]) <==> forall u | u in us :: !Reaches(g, u, s)
  {
    if u :| u in us && Reaches(g, u, s) {
      var p: seq<T> :| WalkFrom(g, p, u, s);
      var c := [s] + p;
      forall i | 0 <= i < |c| - 1 ensures Arc(g[s := us], c[i], c[i + 1]) {
        if i > 0 { assert Arc(g, p[i - 1], p[i]); }
      }
      assert Cycle(g[s := us], c);
    } else {
      FreshNodeStaysAcyclic(g, s, us);
    }
  }
}
