/** The upward search for root nodes, and what an extended copy of everything below them brings over. */
module ExtendedCopy {
  import opened Descriptors
  import opened Reachability
  import opened CopyProtocol
  import opened CopyResults

  /** FindPredecessors; None stands for a lookup that fails. */
  type Predecessors = Key -> Option<seq<Descriptor>>

  function Up(preds: Predecessors): Graph<Key> {
    k => match preds(k) case Some(ds) => Keys(ds) case None => []
  }

  datatype NodeInfo = NodeInfo(node: Descriptor, depth: nat)

  /** b is reached from a by following n predecessor edges. */
  ghost predicate ReachesIn(up: Graph<Key>, a: Key, b: Key, n: nat) {
    exists p :: PathFrom(up, a, p, b) && |p| == n + 1
  }

  lemma ReachesInStep(up: Graph<Key>, a: Key, b: Key, c: Key, n: nat)
    requires ReachesIn(up, a, b, n) && c in up(b)
    ensures ReachesIn(up, a, c, n + 1)
  {
    var p :| PathFrom(up, a, p, b) && |p| == n + 1;
    assert PathFrom(up, a, p + [c], c) && |p + [c]| == n + 2;
  }

  ghost predicate Stacked(stack: seq<NodeInfo>, k: Key) {
    exists i :: 0 <= i < |stack| && FromOCI(stack[i].node) == k
  }

  /** Every visited node is a root or has all its predecessors visited or waiting. */
  ghost predicate Explored(up: Graph<Key>, visited: set<Key>, roots: set<Key>, stack: seq<NodeInfo>) {
    forall v :: v in visited && v !in roots ==>
      up(v) != [] && forall u :: u in up(v) ==> u in visited || Stacked(stack, u)
  }

  /** What the search knows about the stack, the visited nodes and the roots found so far. */
  ghost predicate SearchOk(preds: Predecessors, start: Key, limit: int,
                           visited: set<Key>, rootMap: map<Key, Descriptor>, stack: seq<NodeInfo>)
  {
    var up := Up(preds);
    && (forall i :: 0 <= i < |stack| ==>
          && ReachesIn(up, start, FromOCI(stack[i].node), stack[i].depth)
          && (limit > 0 ==> stack[i].depth <= limit))
    && (forall v :: v in visited ==> Reaches(up, start, v) && (limit <= 0 ==> preds(v).Some?))
    && (start in visited || Stacked(stack, start))
    && rootMap.Keys <= visited
    && (forall k :: k in rootMap ==>
          && FromOCI(rootMap[k]) == k
          && (preds(k) == Some([]) || (limit > 0 && ReachesIn(up, start, k, limit)))
          && (limit > 0 ==> exists n: nat :: n <= limit && ReachesIn(up, start, k, n)))
    && Explored(up, visited, rootMap.Keys, stack)
  }

  /** The start itself or what a lookup returned, with all its fields. */
  ghost predicate Given(preds: Predecessors, node: Descriptor, d: Descriptor) {
    d == node || exists k :: preds(k).Some? && d in preds(k).value
  }

  ghost predicate AllGiven(preds: Predecessors, node: Descriptor, rootMap: map<Key, Descriptor>, stack: seq<NodeInfo>) {
    (forall k :: k in rootMap ==> Given(preds, node, rootMap[k])) && forall i :: 0 <= i < |stack| ==> Given(preds, node, stack[i].node)
  }

  ghost predicate Inside(universe: set<Key>, visited: set<Key>, stack: seq<NodeInfo>) {
    visited <= universe && forall i :: 0 <= i < |stack| ==> FromOCI(stack[i].node) in universe
  }

  function AddRoot(rootMap: map<Key, Descriptor>, d: Descriptor): map<Key, Descriptor> {
    if FromOCI(d) in rootMap then rootMap else rootMap[FromOCI(d) := d]
  }

  /** Pushes the predecessors that were not visited, one level deeper. */
  method PushAll(stack: seq<NodeInfo>, visited: set<Key>, depth: nat, found: seq<Descriptor>) returns (pushed: seq<NodeInfo>)
    ensures stack <= pushed
    ensures forall i :: |stack| <= i < |pushed| ==> pushed[i].depth == depth && pushed[i].node in found
    ensures forall d :: d in found ==> FromOCI(d) in visited || Stacked(pushed, FromOCI(d))
  {
    pushed := stack;
    for j := 0 to |found|
      invariant stack <= pushed
      invariant forall i :: |stack| <= i < |pushed| ==> pushed[i].depth == depth && pushed[i].node in found
      invariant forall m :: 0 <= m < j ==> FromOCI(found[m]) in visited || Stacked(pushed, FromOCI(found[m]))
    {
      if FromOCI(found[j]) !in visited {
        ghost var before := pushed;
        pushed := pushed + [NodeInfo(found[j], depth)];
        StackedGrows(before, pushed);
        assert FromOCI(pushed[|pushed| - 1].node) == FromOCI(found[j]);
      }
    }
  }

  lemma StackedGrows(stack: seq<NodeInfo>, pushed: seq<NodeInfo>)
    requires stack <= pushed
    ensures forall k :: Stacked(stack, k) ==> Stacked(pushed, k)
  {
    forall k | Stacked(stack, k) ensures Stacked(pushed, k) {
      var i :| 0 <= i < |stack| && FromOCI(stack[i].node) == k;
      assert pushed[i] == stack[i];
    }
  }

  /** Popping the top loses no key but that of the top. */
  lemma Unstack(stack: seq<NodeInfo>)
    requires stack != []
    ensures forall k :: Stacked(stack, k) ==> Stacked(stack[..|stack| - 1], k) || k == FromOCI(stack[|stack| - 1].node)
  {
    forall k | Stacked(stack, k) && k != FromOCI(stack[|stack| - 1].node) ensures Stacked(stack[..|stack| - 1], k) {
      var i :| 0 <= i < |stack| && FromOCI(stack[i].node) == k;
      assert stack[..|stack| - 1][i] == stack[i];
    }
  }

  /** The values of the root map, in an arbitrary order. */
  method Values(rootMap: map<Key, Descriptor>) returns (list: seq<Descriptor>)
    requires forall k :: k in rootMap ==> FromOCI(rootMap[k]) == k
    ensures |list| == |rootMap|
    ensures forall k :: k in Keys(list) <==> k in rootMap
    ensures forall i :: 0 <= i < |list| ==> FromOCI(list[i]) in rootMap && list[i] == rootMap[FromOCI(list[i])]
  {
    list := [];
    var left := rootMap.Keys;
    while left != {}
      invariant left <= rootMap.Keys && |list| + |left| == |rootMap|
      invariant forall k :: k in Keys(list) <==> k in rootMap && k !in left
      invariant forall i :: 0 <= i < |list| ==> FromOCI(list[i]) in rootMap && list[i] == rootMap[FromOCI(list[i])]
      decreases left
    {
      var k :| k in left;
      assert Keys(list + [rootMap[k]]) == Keys(list) + [k];
      list := list + [rootMap[k]];
      left := left - {k};
    }
  }

  lemma {:induction false} PushKeepsSearch(preds: Predecessors, start: Key, limit: int, visited: set<Key>,
                                           rootMap: map<Key, Descriptor>, stack: seq<NodeInfo>,
                                           current: NodeInfo, pushed: seq<NodeInfo>)
    requires SearchOk(preds, start, limit, visited, rootMap, stack + [current])
    requires var k := FromOCI(current.node); k !in visited && preds(k).Some? && preds(k).value != []
    requires limit > 0 ==> current.depth < limit
    requires stack <= pushed
    requires forall i :: |stack| <= i < |pushed| ==> pushed[i].depth == current.depth + 1 && pushed[i].node in preds(FromOCI(current.node)).value
    requires forall d :: d in preds(FromOCI(current.node)).value ==>
               FromOCI(d) in visited + {FromOCI(current.node)} || Stacked(pushed, FromOCI(d))
    ensures SearchOk(preds, start, limit, visited + {FromOCI(current.node)}, rootMap, pushed)
  {
    var up := Up(preds);
    var k := FromOCI(current.node);
    var full := stack + [current];
    var found := preds(k).value;
    assert full[|stack|] == current;
    assert ReachesIn(up, start, k, current.depth);
    Unstack(full);
    assert full[..|stack|] == stack;
    StackedGrows(stack, pushed);
    forall i | 0 <= i < |pushed| ensures ReachesIn(up, start, FromOCI(pushed[i].node), pushed[i].depth) {
      if i < |stack| {
        assert full[i] == pushed[i];
      } else {
        var j :| 0 <= j < |found| && found[j] == pushed[i].node;
        assert Keys(found)[j] in up(k);
        ReachesInStep(up, start, k, FromOCI(pushed[i].node), current.depth);
      }
    }
    forall i | 0 <= i < |pushed| && limit > 0 ensures pushed[i].depth <= limit {
      if i < |stack| {
        assert full[i] == pushed[i];
      }
    }
    forall u | u in up(k) ensures u in visited + {k} || Stacked(pushed, u) {
      var j :| 0 <= j < |Keys(found)| && Keys(found)[j] == u;
      assert found[j] in found;
    }
  }

  /** A node without predecessors, or at the depth limit, becomes a root. */
  lemma RootKeepsSearch(preds: Predecessors, start: Key, limit: int, visited: set<Key>,
                        rootMap: map<Key, Descriptor>, stack: seq<NodeInfo>, current: NodeInfo)
    requires SearchOk(preds, start, limit, visited, rootMap, stack + [current])
    requires FromOCI(current.node) !in visited
    requires preds(FromOCI(current.node)) == Some([]) || (limit > 0 && current.depth == limit)
    ensures SearchOk(preds, start, limit, visited + {FromOCI(current.node)}, AddRoot(rootMap, current.node), stack)
  {
    var up := Up(preds);
    var k := FromOCI(current.node);
    var full := stack + [current];
    assert full[|stack|] == current;
    assert ReachesIn(up, start, k, current.depth);
    Unstack(full);
    assert full[..|stack|] == stack;
    forall i | 0 <= i < |stack| ensures ReachesIn(up, start, FromOCI(stack[i].node), stack[i].depth) && (limit > 0 ==> stack[i].depth <= limit) {
      assert full[i] == stack[i];
    }
  }

  lemma SkipKeepsSearch(preds: Predecessors, start: Key, limit: int, visited: set<Key>,
                        rootMap: map<Key, Descriptor>, stack: seq<NodeInfo>, current: NodeInfo)
    requires SearchOk(preds, start, limit, visited, rootMap, stack + [current])
    requires FromOCI(current.node) in visited
    ensures SearchOk(preds, start, limit, visited, rootMap, stack)
  {
    var full := stack + [current];
    Unstack(full);
    assert full[..|stack|] == stack;
    forall i | 0 <= i < |stack|
      ensures ReachesIn(Up(preds), start, FromOCI(stack[i].node), stack[i].depth) && (limit > 0 ==> stack[i].depth <= limit)
    {
      assert full[i] == stack[i];
    }
  }

  lemma PopKeepsGiven(preds: Predecessors, node: Descriptor, rootMap: map<Key, Descriptor>, stack: seq<NodeInfo>, current: NodeInfo)
    requires AllGiven(preds, node, rootMap, stack + [current])
    ensures AllGiven(preds, node, rootMap, stack) && AllGiven(preds, node, AddRoot(rootMap, current.node), stack)
  {
    var full := stack + [current];
    assert full[|stack|] == current && forall i :: 0 <= i < |stack| ==> full[i] == stack[i];
    hide Given;
  }

  lemma PushKeepsGiven(preds: Predecessors, node: Descriptor, rootMap: map<Key, Descriptor>, stack: seq<NodeInfo>, k: Key, pushed: seq<NodeInfo>)
    requires AllGiven(preds, node, rootMap, stack) && preds(k).Some? && stack <= pushed
    requires forall i :: |stack| <= i < |pushed| ==> pushed[i].node in preds(k).value
    ensures AllGiven(preds, node, rootMap, pushed)
  {
    forall i | 0 <= i < |pushed| ensures Given(preds, node, pushed[i].node) {
      assert i < |stack| ==> pushed[i] == stack[i];
    }
  }

  /** The lookup fails for a node at or above the start, and below the depth limit if there is one. */
  ghost predicate LookupFails(preds: Predecessors, start: Key, limit: int) {
    exists k, n: nat :: ReachesIn(Up(preds), start, k, n) && preds(k).None? && (limit > 0 ==> n < limit)
  }

  /** One turn of the search loop: pops a node and, if it is new, makes it a root or pushes its predecessors. */
  method Visit(preds: Predecessors, ghost node: Descriptor, ghost start: Key, limit: int, visited: set<Key>, rootMap: map<Key, Descriptor>,
               stack: seq<NodeInfo>, ghost universe: set<Key>)
    returns (ok: bool, visited': set<Key>, rootMap': map<Key, Descriptor>, stack': seq<NodeInfo>)
    requires stack != [] && SearchOk(preds, start, limit, visited, rootMap, stack)
    requires Inside(universe, visited, stack) && Closed(Up(preds), universe) && AllGiven(preds, node, rootMap, stack)
    ensures ok ==> AllGiven(preds, node, rootMap', stack')
    ensures ok ==> SearchOk(preds, start, limit, visited', rootMap', stack') && Inside(universe, visited', stack')
    ensures ok ==> visited < visited' || (visited == visited' && |stack'| < |stack|)
    ensures !ok ==> LookupFails(preds, start, limit)
  {
    var current := stack[|stack| - 1];
    var rest := stack[..|stack| - 1];
    var currentKey := FromOCI(current.node);
    assert stack == rest + [current];
    PopKeepsGiven(preds, node, rootMap, rest, current);
    hide AllGiven;
    if currentKey in visited {
      SkipKeepsSearch(preds, start, limit, visited, rootMap, rest, current);
      return true, visited, rootMap, rest;
    }
    if limit > 0 && current.depth == limit {
      RootKeepsSearch(preds, start, limit, visited, rootMap, rest, current);
      return true, visited + {currentKey}, AddRoot(rootMap, current.node), rest;
    }
    var found := preds(currentKey);
    if found.None? {
      assert ReachesIn(Up(preds), start, currentKey, current.depth) && (limit > 0 ==> current.depth < limit);
      return false, visited, rootMap, rest;
    }
    if found.value == [] {
      RootKeepsSearch(preds, start, limit, visited, rootMap, rest, current);
      return true, visited + {currentKey}, AddRoot(rootMap, current.node), rest;
    }
    var pushed := PushAll(rest, visited + {currentKey}, current.depth + 1, found.value);
    PushKeepsSearch(preds, start, limit, visited, rootMap, rest, current, pushed);
    PushStaysInside(preds, universe, rest, currentKey, found.value, pushed);
    PushKeepsGiven(preds, node, rootMap, rest, currentKey, pushed);
    return true, visited + {currentKey}, rootMap, pushed;
  }

  lemma PushStaysInside(preds: Predecessors, universe: set<Key>, rest: seq<NodeInfo>, k: Key, found: seq<Descriptor>, pushed: seq<NodeInfo>)
    requires Closed(Up(preds), universe) && k in universe && preds(k) == Some(found)
    requires rest <= pushed && forall i :: 0 <= i < |rest| ==> FromOCI(rest[i].node) in universe
    requires forall i :: |rest| <= i < |pushed| ==> pushed[i].node in found
    ensures forall i :: 0 <= i < |pushed| ==> FromOCI(pushed[i].node) in universe
  {
    forall i | 0 <= i < |pushed| ensures FromOCI(pushed[i].node) in universe {
      if |rest| <= i {
        var j :| 0 <= j < |found| && found[j] == pushed[i].node;
        assert Keys(found)[j] in Up(preds)(k);
      }
    }
  }

  /**
   Depth-first search upwards.  `universe` is any finite set of keys that holds the start and is closed under
   predecessors; it bounds the search.  Returns None only if a lookup failed.  A root has no predecessors, or a path of
   exactly the limit leads up to it.
   */
  method FindRoots(preds: Predecessors, node: Descriptor, limit: int, ghost universe: set<Key>)
    returns (roots: Option<seq<Descriptor>>, ghost visited: set<Key>)
    requires FromOCI(node) in universe && Closed(Up(preds), universe)
    ensures roots.None? ==> LookupFails(preds, FromOCI(node), limit)
    ensures roots.Some? && limit <= 0 ==>
              forall k :: Reaches(Up(preds), FromOCI(node), k) ==> preds(k).Some?
    ensures roots.Some? && limit <= 0 ==>
              forall k :: k in Keys(roots.value) <==> Reaches(Up(preds), FromOCI(node), k) && preds(k) == Some([])
    ensures roots.Some? && limit > 0 ==>
              forall k :: k in Keys(roots.value) ==> exists n: nat :: n <= limit && ReachesIn(Up(preds), FromOCI(node), k, n)
    ensures roots.Some? && limit > 0 ==>
              forall k :: k in Keys(roots.value) ==> preds(k) == Some([]) || ReachesIn(Up(preds), FromOCI(node), k, limit)
    ensures roots.Some? ==> forall i :: 0 <= i < |roots.value| ==> Given(preds, node, roots.value[i])
    ensures roots.Some? ==>
              && FromOCI(node) in visited && visited <= universe
              && Explored(Up(preds), visited, KeySet(roots.value), [])
  {
    ghost var start := FromOCI(node);
    visited := {};
    var seen: set<Key> := {};
    var rootMap: map<Key, Descriptor> := map[];
    var stack := [NodeInfo(node, 0)];
    assert PathFrom(Up(preds), start, [start], start);
    assert FromOCI(stack[0].node) == start;
    while stack != []
      invariant SearchOk(preds, start, limit, seen, rootMap, stack) && Inside(universe, seen, stack)
      invariant AllGiven(preds, node, rootMap, stack)
      decreases universe - seen, |stack|
    {
      var ok;
      ok, seen, rootMap, stack := Visit(preds, node, start, limit, seen, rootMap, stack, universe);
      if !ok {
        return None, seen;
      }
    }
    visited := seen;
    NothingLeft(preds, start, limit, seen, rootMap);
    var list := Values(rootMap);
    assert rootMap.Keys == KeySet(list);
    roots := Some(list);
  }

  lemma NothingLeft(preds: Predecessors, start: Key, limit: int, visited: set<Key>, rootMap: map<Key, Descriptor>)
    requires SearchOk(preds, start, limit, visited, rootMap, [])
    ensures limit <= 0 ==> forall k :: Reaches(Up(preds), start, k) <==> k in visited
    ensures limit <= 0 ==> forall k :: k in rootMap <==> k in visited && preds(k) == Some([])
  {
    if limit <= 0 {
      forall k | Reaches(Up(preds), start, k) ensures k in visited {
        ClosedHoldsReachable(Up(preds), visited, start, k);
      }
    }
  }

  /** In an acyclic graph every visited node lies at or below some root that was found. */
  lemma {:induction false} RootAbove(up: Graph<Key>, universe: set<Key>, visited: set<Key>, roots: set<Key>, v: Key) returns (r: Key)
    requires Acyclic(up) && Closed(up, universe) && visited <= universe && v in visited
    requires Explored(up, visited, roots, [])
    ensures r in roots && Reaches(up, v, r)
    decreases |Below(up, universe, v)|
  {
    if v in roots {
      ReachesSelf(up, v);
      r := v;
    } else {
      var u := up(v)[0];
      assert u in up(v);
      BelowShrinks(up, universe, v, u);
      r := RootAbove(up, universe, visited, roots, u);
      ReachesFirst(up, v, u, r);
    }
  }

  /** The predecessor lookup only reports nodes that list the node among the successors to copy. */
  ghost predicate Consistent(cfg: Config, preds: Predecessors) {
    forall k, p :: p in Up(preds)(k) ==> k in Edges(cfg)(p)
  }

  lemma {:induction false} PathDown(cfg: Config, preds: Predecessors, p: seq<Key>, i: nat)
    requires Consistent(cfg, preds) && IsPath(Up(preds), p) && i < |p|
    ensures Reaches(Edges(cfg), p[i], p[0])
  {
    if i == 0 {
      ReachesSelf(Edges(cfg), p[0]);
    } else {
      PathDown(cfg, preds, p, i - 1);
      assert p[i - 1 + 1] in Up(preds)(p[i - 1]);
      ReachesFirst(Edges(cfg), p[i], p[i - 1], p[0]);
    }
  }

  lemma UpIsDown(cfg: Config, preds: Predecessors, a: Key, b: Key)
    requires Consistent(cfg, preds) && Reaches(Up(preds), a, b)
    ensures Reaches(Edges(cfg), b, a)
  {
    var p :| PathFrom(Up(preds), a, p, b);
    PathDown(cfg, preds, p, |p| - 1);
  }

  lemma UpIsAcyclic(cfg: Config, preds: Predecessors)
    requires Consistent(cfg, preds) && Acyclic(Edges(cfg))
    ensures Acyclic(Up(preds))
  {
    forall a, b | b in Up(preds)(a) ensures !Reaches(Up(preds), b, a) {
      assert a in Edges(cfg)(b);
      if Reaches(Up(preds), b, a) {
        UpIsDown(cfg, preds, b, a);
      }
    }
  }

  function DispatchAll(roots: seq<Descriptor>): seq<Job> {
    seq(|roots|, i requires 0 <= i < |roots| => Dispatch(FromOCI(roots[i])))
  }

  /** A nil return of an extended copy brings over everything below every visited node, whatever the depth limit was. */
  lemma VisitedIsCopied(cfg: Config, preds: Predecessors, universe: set<Key>, visited: set<Key>, roots: seq<Descriptor>,
                        states: seq<State>, steps: seq<Step>, i: nat, v: Key, k: Key)
    requires Acyclic(Edges(cfg)) && Consistent(cfg, preds) && Closed(Up(preds), universe) && visited <= universe
    requires Explored(Up(preds), visited, KeySet(roots), [])
    requires cfg.jobs == DispatchAll(roots) && Closed(Edges(cfg), cfg.dst0)
    requires IsRun(cfg, states, steps) && i < |states| && states[i].groups != [] && states[i].groups[0].status == Finished(true)
    requires v in visited && Reaches(Edges(cfg), v, k)
    ensures k in states[i].dst
  {
    UpIsAcyclic(cfg, preds);
    var r := RootAbove(Up(preds), universe, visited, KeySet(roots), v);
    UpIsDown(cfg, preds, v, r);
    ReachesTransitive(Edges(cfg), r, v, k);
    var j :| 0 <= j < |roots| && FromOCI(roots[j]) == r;
    assert cfg.jobs[j].node == r;
    NilMeansCopied(cfg, states, steps, i, j, k);
  }

  /** Without a depth limit, an extended copy brings over all ancestors of the node and everything below them. */
  lemma AncestorsAreCopied(cfg: Config, preds: Predecessors, universe: set<Key>, node: Key, roots: seq<Descriptor>,
                           states: seq<State>, steps: seq<Step>, i: nat, a: Key, k: Key)
    requires Acyclic(Edges(cfg)) && Consistent(cfg, preds) && Closed(Up(preds), universe) && node in universe
    requires forall r :: Reaches(Up(preds), node, r) ==> preds(r).Some?
    requires forall r :: r in Keys(roots) <==> Reaches(Up(preds), node, r) && preds(r) == Some([])
    requires cfg.jobs == DispatchAll(roots) && Closed(Edges(cfg), cfg.dst0)
    requires IsRun(cfg, states, steps) && i < |states| && states[i].groups != [] && states[i].groups[0].status == Finished(true)
    requires Reaches(Up(preds), node, a) && Reaches(Edges(cfg), a, k)
    ensures k in states[i].dst
  {
    var up := Up(preds);
    var visited := Below(up, universe, node);
    forall v | v in visited && v !in KeySet(roots) ensures up(v) != [] && forall u :: u in up(v) ==> u in visited {
      forall u | u in up(v) ensures u in visited {
        ReachesStep(up, node, v, u);
      }
    }
    ClosedHoldsReachable(up, universe, node, a);
    VisitedIsCopied(cfg, preds, universe, visited, roots, states, steps, i, a, k);
  }
}
