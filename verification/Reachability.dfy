/** Walks in a directed graph, and the search behind upstream and downstream datasets. */
module Reachability {

  /** A walk of exactly `n` edges. */
  ghost predicate Walk<T(!new)>(edges: set<(T, T)>, n: nat, a: T, b: T) {
    if n == 0 then a == b else exists m :: Walk(edges, n - 1, a, m) && (m, b) in edges
  }

  ghost predicate Reaches<T(!new)>(edges: set<(T, T)>, a: T, b: T) {
    exists n: nat :: Walk(edges, n, a, b)
  }

  /** Each node leads to the next. */
  ghost predicate Path<T(!new)>(edges: set<(T, T)>, p: seq<T>) {
    p != [] && forall i :: 0 <= i < |p| - 1 ==> (p[i], p[i + 1]) in edges
  }

  lemma {:induction false} WalkHasPath<T(!new)>(edges: set<(T, T)>, n: nat, a: T, b: T) returns (p: seq<T>)
    requires Walk(edges, n, a, b)
    ensures Path(edges, p) && |p| == n + 1 && p[0] == a && p[n] == b
  {
    if n == 0 {
      p := [a];
    } else {
      var m :| Walk(edges, n - 1, a, m) && (m, b) in edges;
      p := WalkHasPath(edges, n - 1, a, m);
      p := p + [b];
    }
  }

  lemma {:induction false} PathIsWalk<T(!new)>(edges: set<(T, T)>, p: seq<T>, n: nat)
    requires Path(edges, p) && n < |p|
    ensures Walk(edges, n, p[0], p[n])
  {
    if n > 0 {
      PathIsWalk(edges, p, n - 1);
      assert (p[n - 1], p[n - 1 + 1]) in edges;
    }
  }

  /** Reaching is being the other end of a path. */
  lemma ReachesByPath<T(!new)>(edges: set<(T, T)>, a: T, b: T)
    ensures Reaches(edges, a, b) <==> exists p :: Path(edges, p) && p[0] == a && p[|p| - 1] == b
  {
    if Reaches(edges, a, b) {
      var n: nat :| Walk(edges, n, a, b);
      var p := WalkHasPath(edges, n, a, b);
    }
    if p :| Path(edges, p) && p[0] == a && p[|p| - 1] == b {
      PathIsWalk(edges, p, |p| - 1);
    }
  }

  function Reverse<T(==)>(edges: set<(T, T)>): set<(T, T)> {
    set e | e in edges :: (e.1, e.0)
  }

  lemma WalkSnoc<T(!new)>(edges: set<(T, T)>, n: nat, a: T, m: T, b: T)
    requires Walk(edges, n, a, m) && (m, b) in edges
    ensures Walk(edges, n + 1, a, b)
  {
  }

  lemma {:induction false} WalkCons<T(!new)>(edges: set<(T, T)>, n: nat, a: T, m: T, b: T)
    requires (a, m) in edges && Walk(edges, n, m, b)
    ensures Walk(edges, n + 1, a, b)
  {
    if n == 0 {
      assert Walk(edges, 0, a, a);
      WalkSnoc(edges, 0, a, a, b);
    } else {
      var p :| Walk(edges, n - 1, m, p) && (p, b) in edges;
      WalkCons(edges, n - 1, a, m, p);
      WalkSnoc(edges, n, a, p, b);
    }
  }

  /** Every walk is one of the reversed graph, from its other end. */
  lemma {:induction false} WalkReverses<T(!new)>(edges: set<(T, T)>, n: nat, a: T, b: T)
    requires Walk(edges, n, a, b)
    ensures Walk(Reverse(edges), n, b, a)
  {
    if n > 0 {
      var m :| Walk(edges, n - 1, a, m) && (m, b) in edges;
      WalkReverses(edges, n - 1, a, m);
      var e := (m, b);
      assert (e.1, e.0) in Reverse(edges);
      WalkCons(Reverse(edges), n - 1, b, m, a);
    }
  }

  lemma ReverseTwice<T>(edges: set<(T, T)>)
    ensures Reverse(Reverse(edges)) == edges
  {
    forall e | e in edges ensures e in Reverse(Reverse(edges)) {
      assert (e.1, e.0) in Reverse(edges);
      assert ((e.1, e.0).1, (e.1, e.0).0) == e;
    }
  }

  /** `a` reaches `b` exactly when `b` reaches `a` against the edges, cycles included. */
  lemma ReachesReverses<T(!new)>(edges: set<(T, T)>, a: T, b: T)
    ensures Reaches(edges, a, b) <==> Reaches(Reverse(edges), b, a)
  {
    if Reaches(edges, a, b) {
      var n: nat :| Walk(edges, n, a, b);
      WalkReverses(edges, n, a, b);
    }
    if Reaches(Reverse(edges), b, a) {
      var n: nat :| Walk(Reverse(edges), n, b, a);
      WalkReverses(Reverse(edges), n, b, a);
      ReverseTwice(edges);
    }
  }

  /** A set that holds `a` and is closed under the edges holds everything `a` reaches. */
  lemma {:induction false} ClosedHoldsWalks<T(!new)>(edges: set<(T, T)>, s: set<T>, n: nat, a: T, b: T)
    requires a in s && forall e :: e in edges && e.0 in s ==> e.1 in s
    requires Walk(edges, n, a, b)
    ensures b in s
  {
    if n > 0 {
      var m :| Walk(edges, n - 1, a, m) && (m, b) in edges;
      ClosedHoldsWalks(edges, s, n - 1, a, m);
      assert (m, b).0 in s;
    }
  }

  /** `descendants`: every node reached from `start`, without `start` itself. */
  method Descendants<T(==, !new)>(edges: set<(T, T)>, start: T) returns (r: set<T>)
    ensures forall x :: x in r <==> x != start && Reaches(edges, start, x)
  {
    var reached := {start};
    var nodes := {start} + set e | e in edges :: e.1;
    var next := set e | e in edges && e.0 in reached && e.1 !in reached :: e.1;
    assert Walk(edges, 0, start, start);
    while next != {}
      invariant start in reached && reached <= nodes
      invariant next == set e | e in edges && e.0 in reached && e.1 !in reached :: e.1
      invariant forall x :: x in reached ==> Reaches(edges, start, x)
      decreases nodes - reached
    {
      forall x | x in next ensures Reaches(edges, start, x) && x in nodes && x !in reached {
        var e :| e in edges && e.0 in reached && e.1 == x;
        var n: nat :| Walk(edges, n, start, e.0);
        WalkSnoc(edges, n, start, e.0, x);
      }
      var x :| x in next;
      assert x in nodes - reached && x !in nodes - (reached + next);
      reached := reached + next;
      next := set e | e in edges && e.0 in reached && e.1 !in reached :: e.1;
    }
    forall x | Reaches(edges, start, x) ensures x in reached {
      var n: nat :| Walk(edges, n, start, x);
      forall e | e in edges && e.0 in reached ensures e.1 in reached {
        assert e.1 in reached || e.1 in next;
      }
      ClosedHoldsWalks(edges, reached, n, start, x);
    }
    r := reached - {start};
  }
}
