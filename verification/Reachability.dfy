/** Paths in a directed graph given by its successor function. */
module Reachability {

  type Graph<!N> = N -> seq<N>

  ghost predicate IsPath<N>(succ: Graph<N>, p: seq<N>) {
    p != [] && forall i :: 0 <= i < |p| - 1 ==> p[i + 1] in succ(p[i])
  }

  ghost predicate PathFrom<N>(succ: Graph<N>, a: N, p: seq<N>, b: N) {
    IsPath(succ, p) && p[0] == a && p[|p| - 1] == b
  }

  /** b can be reached from a, in any number of steps, none included. */
  ghost predicate Reaches<N(!new)>(succ: Graph<N>, a: N, b: N) {
    exists p :: PathFrom(succ, a, p, b)
  }

  ghost predicate Acyclic<N(!new)>(succ: Graph<N>) {
    forall a, b :: b in succ(a) ==> !Reaches(succ, b, a)
  }

  ghost predicate Closed<N(!new)>(succ: Graph<N>, s: set<N>) {
    forall a, b :: a in s && b in succ(a) ==> b in s
  }

  /** A rank strictly decreases along every edge. */
  ghost predicate IsRank<N(!new)>(succ: Graph<N>, rank: N -> nat) {
    forall a, b :: b in succ(a) ==> rank(b) < rank(a)
  }

  lemma {:induction false} RankFalls<N(!new)>(succ: Graph<N>, rank: N -> nat, p: seq<N>, i: nat)
    requires IsRank(succ, rank) && IsPath(succ, p) && i < |p|
    ensures rank(p[i]) <= rank(p[0])
  {
    if i > 0 {
      RankFalls(succ, rank, p, i - 1);
      assert p[i - 1 + 1] in succ(p[i - 1]);
    }
  }

  lemma RankedIsAcyclic<N(!new)>(succ: Graph<N>, rank: N -> nat)
    requires IsRank(succ, rank)
    ensures Acyclic(succ)
  {
    forall a, b | b in succ(a) ensures !Reaches(succ, b, a) {
      if Reaches(succ, b, a) {
        var p :| PathFrom(succ, b, p, a);
        RankFalls(succ, rank, p, |p| - 1);
      }
    }
  }

  lemma ReachesSelf<N(!new)>(succ: Graph<N>, a: N)
    ensures Reaches(succ, a, a)
  {
    assert PathFrom(succ, a, [a], a);
  }

  lemma ReachesStep<N(!new)>(succ: Graph<N>, a: N, b: N, c: N)
    requires Reaches(succ, a, b) && c in succ(b)
    ensures Reaches(succ, a, c)
  {
    var p :| PathFrom(succ, a, p, b);
    assert PathFrom(succ, a, p + [c], c);
  }

  lemma ReachesFirst<N(!new)>(succ: Graph<N>, a: N, b: N, c: N)
    requires b in succ(a) && Reaches(succ, b, c)
    ensures Reaches(succ, a, c)
  {
    var p :| PathFrom(succ, b, p, c);
    assert PathFrom(succ, a, [a] + p, c);
  }

  lemma {:induction false} ReachesTransitive<N(!new)>(succ: Graph<N>, a: N, b: N, c: N)
    requires Reaches(succ, a, b) && Reaches(succ, b, c)
    ensures Reaches(succ, a, c)
  {
    var p :| PathFrom(succ, a, p, b);
    var q :| PathFrom(succ, b, q, c);
    var r := p + q[1..];
    assert PathFrom(succ, a, r, c);
  }

  /** A closed set holds everything below its members. */
  lemma {:induction false} ClosedHoldsReachable<N(!new)>(succ: Graph<N>, s: set<N>, a: N, b: N)
    requires Closed(succ, s) && a in s && Reaches(succ, a, b)
    ensures b in s
  {
    var p :| PathFrom(succ, a, p, b);
    PathStaysInClosed(succ, s, p, |p| - 1);
  }

  lemma {:induction false} PathStaysInClosed<N(!new)>(succ: Graph<N>, s: set<N>, p: seq<N>, i: nat)
    requires Closed(succ, s) && IsPath(succ, p) && p[0] in s && i < |p|
    ensures p[i] in s
  {
    if i > 0 {
      PathStaysInClosed(succ, s, p, i - 1);
      assert p[i - 1 + 1] in succ(p[i - 1]);
    }
  }

  ghost function Below<N(!new)>(succ: Graph<N>, nodes: set<N>, a: N): set<N> {
    set b | b in nodes && Reaches(succ, a, b)
  }

  /** On a finite node set closed under successors, counting the nodes below is a rank iff there is no cycle. */
  lemma BelowShrinks<N(!new)>(succ: Graph<N>, nodes: set<N>, a: N, b: N)
    requires Acyclic(succ) && Closed(succ, nodes) && a in nodes && b in succ(a)
    ensures |Below(succ, nodes, b)| < |Below(succ, nodes, a)|
  {
    forall c | c in Below(succ, nodes, b)
      ensures c in Below(succ, nodes, a) - {a}
    {
      ReachesFirst(succ, a, b, c);
    }
    ReachesSelf(succ, a);
    SubsetSize(Below(succ, nodes, b), Below(succ, nodes, a) - {a});
  }

  lemma {:induction false} SubsetSize<T>(s: set<T>, t: set<T>)
    requires s <= t
    ensures |s| <= |t|
  {
    if s != {} {
      var x :| x in s;
      SubsetSize(s - {x}, t - {x});
    }
  }
}
