/** The in-memory predecessor index of a content store. */
module GraphMemory {
  import opened Descriptors
  import opened Reachability
  import opened Sequences

  /** The decoded manifest behind a key: its subject, the other descriptors it lists, and what describes it as a referrer. */
  datatype Content = Content(
    subject: Option<Descriptor>,
    rest: seq<Descriptor>,
    artifactType: string,
    configMediaType: string,
    annotations: map<string, string>)

  /** Content addressing: what a key stands for never changes. */
  type Contents = Key -> Content

  function Subject(contents: Contents, k: Key): Option<Descriptor> {
    if CanHaveSubject(k.mediaType) then contents(k).subject else None
  }

  /** content.Successors, once the content has been fetched. */
  function Successors(contents: Contents, k: Key): seq<Descriptor> {
    if !IsManifest(k.mediaType) then []
    else match Subject(contents, k)
      case Some(s) => [s] + contents(k).rest
      case None => contents(k).rest
  }

  /** The manifest behind k names x: among the descriptors it lists, or as its subject if its type can have one. */
  ghost predicate Names(contents: Contents, k: Key, x: Key) {
    && IsManifest(k.mediaType)
    && (|| (exists d :: d in contents(k).rest && FromOCI(d) == x)
        || (CanHaveSubject(k.mediaType) && contents(k).subject.Some? && FromOCI(contents(k).subject.value) == x))
  }

  lemma SuccessorsAreNamed(contents: Contents, k: Key, x: Key)
    ensures x in Keys(Successors(contents, k)) <==> Names(contents, k, x)
  {
    var listed := Successors(contents, k);
    if x in Keys(listed) {
      var i :| 0 <= i < |listed| && Keys(listed)[i] == x;
      assert listed[i] in listed;
    }
    if Names(contents, k, x) {
      if d :| d in contents(k).rest && FromOCI(d) == x {
        ListedKey(listed, d);
      } else {
        ListedKey(listed, contents(k).subject.value);
      }
    }
  }

  ghost function SuccessorKeys(contents: Contents, k: Key): set<Key> {
    set x | x in Keys(Successors(contents, k))
  }

  function ToSet(ks: seq<Key>): set<Key> {
    set k | k in ks
  }

  /** Indexing a key succeeds unless it is a manifest that is not stored. */
  predicate Indexable(storage: set<Key>, k: Key) {
    IsManifest(k.mediaType) ==> k in storage
  }

  function OnlyIndexable(storage: set<Key>, ks: seq<Key>): (r: seq<Key>)
    ensures forall k :: k in r <==> k in ks && Indexable(storage, k)
  {
    if ks == [] then [] else
    OnlyIndexable(storage, ks[..|ks| - 1]) + if Indexable(storage, ks[|ks| - 1]) then [ks[|ks| - 1]] else []
  }

  /** The edges an indexing traversal follows: stored manifests to what can be indexed below them. */
  function StoredEdges(contents: Contents, storage: set<Key>): Graph<Key> {
    k => if k in storage then OnlyIndexable(storage, Keys(Successors(contents, k))) else []
  }

  /** n stored manifests, each naming the next, lead from the root to k, and all on the way can be indexed. */
  ghost predicate BelowIn(contents: Contents, storage: set<Key>, root: Key, k: Key, n: nat)
    decreases n
  {
    if n == 0 then k == root
    else exists m :: BelowIn(contents, storage, root, m, n - 1) && m in storage && Names(contents, m, k) && Indexable(storage, k)
  }

  /** k is the root or named by stored manifests below it. */
  ghost predicate IsBelow(contents: Contents, storage: set<Key>, root: Key, k: Key) {
    Indexable(storage, root) && exists n: nat :: BelowIn(contents, storage, root, k, n)
  }

  lemma EdgesAreNamed(contents: Contents, storage: set<Key>, m: Key, k: Key)
    ensures k in StoredEdges(contents, storage)(m) <==> m in storage && Names(contents, m, k) && Indexable(storage, k)
  {
    SuccessorsAreNamed(contents, m, k);
  }

  lemma {:induction false} BelowReaches(contents: Contents, storage: set<Key>, root: Key, k: Key, n: nat)
    requires BelowIn(contents, storage, root, k, n)
    ensures Reaches(StoredEdges(contents, storage), root, k)
    decreases n
  {
    hide StoredEdges, Names;
    if n == 0 {
      ReachesSelf(StoredEdges(contents, storage), root);
    } else {
      var m :| BelowIn(contents, storage, root, m, n - 1) && m in storage && Names(contents, m, k) && Indexable(storage, k);
      BelowReaches(contents, storage, root, m, n - 1);
      EdgesAreNamed(contents, storage, m, k);
      ReachesStep(StoredEdges(contents, storage), root, m, k);
    }
  }

  lemma {:induction false} PathIsBelow(contents: Contents, storage: set<Key>, p: seq<Key>, i: nat)
    requires IsPath(StoredEdges(contents, storage), p) && i < |p|
    ensures BelowIn(contents, storage, p[0], p[i], i)
  {
    hide StoredEdges, Names;
    if i > 0 {
      PathIsBelow(contents, storage, p, i - 1);
      assert p[i - 1 + 1] in StoredEdges(contents, storage)(p[i - 1]);
      EdgesAreNamed(contents, storage, p[i - 1], p[i]);
    }
  }

  lemma BelowIsReachable(contents: Contents, storage: set<Key>, root: Key, k: Key)
    ensures IsBelow(contents, storage, root, k) <==> Indexable(storage, root) && Reaches(StoredEdges(contents, storage), root, k)
  {
    hide StoredEdges, BelowIn;
    if n: nat :| BelowIn(contents, storage, root, k, n) {
      BelowReaches(contents, storage, root, k, n);
    }
    if Reaches(StoredEdges(contents, storage), root, k) {
      var p :| PathFrom(StoredEdges(contents, storage), root, p, k);
      PathIsBelow(contents, storage, p, |p| - 1);
    }
  }

  /** What is below the root, spelled out: a manifest has to be stored, and all but the root is named by a stored manifest below the root. */
  lemma BelowUnfolds(contents: Contents, storage: set<Key>, root: Key, x: Key)
    requires IsManifest(root.mediaType) ==> root in storage
    ensures IsBelow(contents, storage, root, x) <==>
              && (IsManifest(x.mediaType) ==> x in storage)
              && (x == root || exists k :: IsBelow(contents, storage, root, k) && k in storage && Names(contents, k, x))
  {
    hide Names;
    if n: nat :| BelowIn(contents, storage, root, x, n) {
      if n > 0 {
        var k :| BelowIn(contents, storage, root, k, n - 1) && k in storage && Names(contents, k, x) && Indexable(storage, x);
        assert IsBelow(contents, storage, root, k);
      }
    }
    if IsManifest(x.mediaType) ==> x in storage {
      if x == root {
        assert BelowIn(contents, storage, root, x, 0);
      } else if k :| IsBelow(contents, storage, root, k) && k in storage && Names(contents, k, x) {
        var n: nat :| BelowIn(contents, storage, root, k, n);
        assert BelowIn(contents, storage, root, x, n + 1);
      }
    }
  }

  /** Everything a traversal from the root over the given storage can come across. */
  ghost function Universe(contents: Contents, storage: set<Key>, root: Key): set<Key> {
    {root} + set k, i | k in storage && 0 <= i < |Successors(contents, k)| :: FromOCI(Successors(contents, k)[i])
  }

  type Relation = map<Key, set<Key>>

  ghost predicate Linked(r: Relation, a: Key, b: Key) {
    a in r && b in r[a]
  }

  ghost predicate NoEmptyEntries(r: Relation) {
    forall a :: a in r ==> r[a] != {}
  }

  function AddLink(r: Relation, a: Key, b: Key): (r': Relation)
    ensures forall x, y :: Linked(r', x, y) <==> Linked(r, x, y) || (x == a && y == b)
    ensures NoEmptyEntries(r) ==> NoEmptyEntries(r')
  {
    r[a := (if a in r then r[a] else {}) + {b}]
  }

  /** Removes the pair, and the entry with it when nothing else is left. */
  function DropLink(r: Relation, a: Key, b: Key): (r': Relation)
    requires a in r
    ensures forall x, y :: Linked(r', x, y) <==> Linked(r, x, y) && !(x == a && y == b)
    ensures NoEmptyEntries(r) ==> NoEmptyEntries(r')
    ensures a !in r' <==> forall y :: Linked(r, a, y) ==> y == b
  {
    var entry := r[a] - {b};
    if entry == {} then
      assert forall y :: Linked(r, a, y) && y != b ==> y in entry;
      r - {a}
    else
      var y :| y in entry;
      assert Linked(r, a, y);
      r[a := entry]
  }

  ghost predicate Awaited(waiting: set<Descriptor>, k: Key) {
    exists d :: d in waiting && FromOCI(d) == k
  }

  /** What a traversal has seen and still has to visit: all of it below the root, and nothing below the seen part missing. */
  ghost predicate Found(contents: Contents, storage: set<Key>, root: Key, seen: set<Key>, waiting: set<Descriptor>) {
    var edges := StoredEdges(contents, storage);
    && (root in seen || Awaited(waiting, root))
    && (forall d :: d in waiting ==> FromOCI(d) in Universe(contents, storage, root))
    && (!Indexable(storage, root) ==> seen <= {root} && forall d :: d in waiting ==> FromOCI(d) == root)
    && (forall k :: (k in seen || Awaited(waiting, k)) && Indexable(storage, k) ==> Reaches(edges, root, k))
    && (forall k, x :: k in seen && x in edges(k) ==> x in seen || Awaited(waiting, x))
  }

  lemma EdgeIsListed(contents: Contents, storage: set<Key>, key: Key, x: Key)
    requires x in StoredEdges(contents, storage)(key)
    ensures Awaited((set d | d in Successors(contents, key)), x)
  {
    var listed := Successors(contents, key);
    var i :| 0 <= i < |listed| && Keys(listed)[i] == x;
    assert listed[i] in (set d | d in listed);
  }

  lemma ListedInUniverse(contents: Contents, storage: set<Key>, root: Key, key: Key, d: Descriptor)
    requires Indexable(storage, key) && d in Successors(contents, key)
    ensures FromOCI(d) in Universe(contents, storage, root)
  {
    var listed := Successors(contents, key);
    var i :| 0 <= i < |listed| && listed[i] == d;
    assert key in storage;
  }

  lemma FoundIndexed(contents: Contents, storage: set<Key>, root: Key, seen: set<Key>, waiting: set<Descriptor>, desc: Descriptor)
    requires Found(contents, storage, root, seen, waiting) && desc in waiting && Indexable(storage, FromOCI(desc))
    ensures Found(contents, storage, root, seen + {FromOCI(desc)}, waiting - {desc} + set d | d in Successors(contents, FromOCI(desc)))
  {
    hide StoredEdges, Successors, Universe;
    var edges := StoredEdges(contents, storage);
    var key := FromOCI(desc);
    var listed := Successors(contents, key);
    var more := set d | d in listed;
    var seen', waiting' := seen + {key}, waiting - {desc} + more;
    assert Awaited(waiting, key);
    forall k | Awaited(waiting, k) ensures k in seen' || Awaited(waiting', k) {
      var d :| d in waiting && FromOCI(d) == k;
      assert d == desc || d in waiting';
    }
    forall d | d in listed ensures FromOCI(d) in Universe(contents, storage, root) {
      ListedInUniverse(contents, storage, root, key, d);
    }
    forall k | Awaited(waiting', k) && Indexable(storage, k) ensures Reaches(edges, root, k) {
      AwaitedReachable(contents, storage, root, waiting, desc, k);
    }
    forall x | x in edges(key) ensures Awaited(waiting', x) {
      EdgeIsListed(contents, storage, key, x);
      var d :| d in more && FromOCI(d) == x;
      assert d in waiting';
    }
  }

  lemma AwaitedReachable(contents: Contents, storage: set<Key>, root: Key, waiting: set<Descriptor>, desc: Descriptor, k: Key)
    requires forall x :: Awaited(waiting, x) && Indexable(storage, x) ==> Reaches(StoredEdges(contents, storage), root, x)
    requires desc in waiting && Indexable(storage, FromOCI(desc)) && Indexable(storage, k)
    requires Awaited(waiting - {desc} + (set d | d in Successors(contents, FromOCI(desc))), k)
    ensures Reaches(StoredEdges(contents, storage), root, k)
  {
    var edges, key := StoredEdges(contents, storage), FromOCI(desc);
    var d :| d in waiting - {desc} + (set d | d in Successors(contents, key)) && FromOCI(d) == k;
    assert Awaited(waiting, key);
    if d in waiting {
      assert Awaited(waiting, k);
    } else {
      ListedKey(Successors(contents, key), d);
      assert k in edges(key);
      ReachesStep(edges, root, key, k);
    }
  }

  /** A goroutine that finds its node taken, or not stored, only leaves. */
  lemma FoundSkipped(contents: Contents, storage: set<Key>, root: Key, seen: set<Key>, waiting: set<Descriptor>, desc: Descriptor)
    requires Found(contents, storage, root, seen, waiting) && desc in waiting
    requires FromOCI(desc) in seen || !Indexable(storage, FromOCI(desc))
    ensures Found(contents, storage, root, seen + {FromOCI(desc)}, waiting - {desc})
  {
    forall k | Awaited(waiting, k) ensures k in seen + {FromOCI(desc)} || Awaited(waiting - {desc}, k) {
      var d :| d in waiting && FromOCI(d) == k;
      assert d == desc || d in waiting - {desc};
    }
    assert forall k :: Awaited(waiting - {desc}, k) ==> Awaited(waiting, k);
  }

  lemma ListedKey(listed: seq<Descriptor>, d: Descriptor)
    requires d in listed
    ensures FromOCI(d) in Keys(listed)
  {
    var i :| 0 <= i < |listed| && listed[i] == d;
    assert Keys(listed)[i] == FromOCI(d);
  }

  lemma FoundAll(contents: Contents, storage: set<Key>, root: Key, seen: set<Key>)
    requires Found(contents, storage, root, seen, {})
    ensures forall k :: k in seen && Indexable(storage, k) <==> IsBelow(contents, storage, root, k)
  {
    var edges := StoredEdges(contents, storage);
    assert forall k :: !Awaited({}, k);
    assert Closed(edges, seen);
    assert root in seen;
    forall k ensures k in seen && Indexable(storage, k) <==> IsBelow(contents, storage, root, k) {
      BelowIsReachable(contents, storage, root, k);
      hide IsBelow, StoredEdges;
      if Indexable(storage, root) && Reaches(edges, root, k) {
        ClosedHoldsReachable(edges, seen, root, k);
        ReachableIsIndexable(contents, storage, root, k);
      }
    }
  }

  lemma ReachableIsIndexable(contents: Contents, storage: set<Key>, root: Key, k: Key)
    requires Indexable(storage, root) && Reaches(StoredEdges(contents, storage), root, k)
    ensures Indexable(storage, k)
  {
    var edges := StoredEdges(contents, storage);
    var p :| PathFrom(edges, root, p, k);
    if |p| > 1 {
      assert p[|p| - 2 + 1] in edges(p[|p| - 2]);
    }
  }

  class Memory {
    var nodes: map<Key, Descriptor>
    var predecessors: Relation
    var successors: Relation

    /** Predecessors are exactly the inverse of successors, without empty entries; successors are known for exactly the nodes. */
    ghost predicate Valid()
      reads this
    {
      && successors.Keys == nodes.Keys
      && (forall k :: k in nodes ==> FromOCI(nodes[k]) == k)
      && NoEmptyEntries(predecessors)
      && (forall k, n :: Linked(predecessors, k, n) <==> Linked(successors, n, k))
    }

    /** The successors of every node are those its content lists. */
    ghost predicate Faithful(contents: Contents)
      reads this
    {
      Valid() && forall k :: k in successors ==> successors[k] == SuccessorKeys(contents, k)
    }

    constructor ()
      ensures Valid() && nodes == map[] && successors == map[] && predecessors == map[]
    {
      nodes, predecessors, successors := map[], map[], map[];
    }

    /** Indexes a node and its direct successors; a node indexed again lists the same successors, as its content is fixed. */
    method Index(node: Descriptor, listed: seq<Descriptor>)
      requires Valid()
      requires FromOCI(node) in successors ==> successors[FromOCI(node)] == ToSet(Keys(listed))
      modifies this
      ensures Valid()
      ensures nodes == old(nodes)[FromOCI(node) := node]
      ensures successors == old(successors)[FromOCI(node) := ToSet(Keys(listed))]
    {
      var nodeKey := FromOCI(node);
      nodes := nodes[nodeKey := node];
      var successorSet: set<Key> := {};
      successors := successors[nodeKey := successorSet];
      for i := 0 to |listed|
        invariant nodes == old(nodes)[nodeKey := node]
        invariant successors == old(successors)[nodeKey := successorSet]
        invariant successorSet == ToSet(Keys(listed)[..i])
        invariant NoEmptyEntries(predecessors)
        invariant forall k, n :: Linked(predecessors, k, n) <==>
                    Linked(old(successors), n, k) || (n == nodeKey && k in successorSet)
      {
        var successorKey := FromOCI(listed[i]);
        assert Keys(listed)[..i + 1] == Keys(listed)[..i] + [successorKey];
        successorSet := successorSet + {successorKey};
        successors := successors[nodeKey := successorSet];
        predecessors := AddLink(predecessors, successorKey, nodeKey);
      }
      assert Keys(listed)[..|listed|] == Keys(listed);
    }

    /** Indexes a node by its content. */
    method IndexStored(contents: Contents, node: Descriptor)
      requires Faithful(contents)
      modifies this
      ensures Faithful(contents) && nodes == old(nodes)[FromOCI(node) := node]
      ensures forall x, k :: Linked(predecessors, x, k) <==> k in nodes && Names(contents, k, x)
    {
      assert SuccessorKeys(contents, FromOCI(node)) == ToSet(Keys(Successors(contents, FromOCI(node))));
      Index(node, Successors(contents, FromOCI(node)));
      LinksAreNamed(contents);
    }

    /** The predecessors of a key are exactly the indexed manifests that name it. */
    lemma LinksAreNamed(contents: Contents)
      requires Faithful(contents)
      ensures forall x, k :: Linked(predecessors, x, k) <==> k in nodes && Names(contents, k, x)
    {
      forall x, k ensures Linked(predecessors, x, k) <==> k in nodes && Names(contents, k, x) {
        SuccessorsAreNamed(contents, k, x);
        assert Linked(predecessors, x, k) <==> Linked(successors, k, x);
      }
    }

    /**
     Indexes everything below the root.  Each turn runs one of the waiting goroutines, whichever comes first; indexing
     one node is a critical section, so this covers every interleaving.
     */
    method IndexAll(contents: Contents, storage: set<Key>, root: Descriptor)
      requires Faithful(contents)
      modifies this
      ensures Faithful(contents)
      ensures forall k :: k in nodes <==>
                k in old(nodes) || IsBelow(contents, storage, FromOCI(root), k)
      ensures forall x, k :: Linked(predecessors, x, k) <==> k in nodes && Names(contents, k, x)
    {
      ghost var rootKey := FromOCI(root);
      ghost var edges := StoredEdges(contents, storage);
      ghost var universe := Universe(contents, storage, rootKey);
      var tracker: set<Key> := {};
      var waiting := {root};
      ReachesSelf(edges, rootKey);
      while waiting != {}
        invariant Faithful(contents) && tracker <= universe
        invariant forall k :: k in nodes <==> k in old(nodes) || (k in tracker && Indexable(storage, k))
        invariant Found(contents, storage, rootKey, tracker, waiting)
        decreases universe - tracker, waiting
      {
        var desc :| desc in waiting;
        var key := FromOCI(desc);
        if key in tracker || !Indexable(storage, key) {
          FoundSkipped(contents, storage, rootKey, tracker, waiting, desc);
          tracker, waiting := tracker + {key}, waiting - {desc};
        } else {
          FoundIndexed(contents, storage, rootKey, tracker, waiting, desc);
          IndexStored(contents, desc);
          tracker, waiting := tracker + {key}, waiting - {desc} + set d | d in Successors(contents, key);
        }
      }
      FoundAll(contents, storage, rootKey, tracker);
      LinksAreNamed(contents);
    }

    /** Removes a node and returns the indexed nodes it leaves without predecessors. */
    method Remove(node: Descriptor) returns (danglings: seq<Descriptor>)
      requires Valid()
      modifies this
      ensures Valid()
      ensures nodes == old(nodes) - {FromOCI(node)}
      ensures successors == old(successors) - {FromOCI(node)}
      ensures forall x :: x in Keys(danglings) <==>
                && Linked(old(successors), FromOCI(node), x)
                && x in old(nodes)
                && forall n :: !Linked(successors, n, x)
      ensures NoDuplicates(Keys(danglings))
    {
      var nodeKey := FromOCI(node);
      danglings := [];
      var left := if nodeKey in successors then successors[nodeKey] else {};
      ghost var all := left;
      while left != {}
        invariant left <= all && nodes == old(nodes) && successors == old(successors)
        invariant NoEmptyEntries(predecessors)
        invariant forall k, n :: Linked(predecessors, k, n) <==> Linked(successors, n, k) && (n == nodeKey ==> k in left)
        invariant forall x :: x in Keys(danglings) <==>
                    x in all - left && x in nodes && forall n :: n != nodeKey ==> !Linked(successors, n, x)
        invariant NoDuplicates(Keys(danglings))
        decreases left
      {
        var successorKey :| successorKey in left;
        assert Linked(successors, nodeKey, successorKey);
        assert Linked(predecessors, successorKey, nodeKey);
        ghost var before := predecessors;
        predecessors := DropLink(predecessors, successorKey, nodeKey);
        assert successorKey !in predecessors <==> forall n :: n != nodeKey ==> !Linked(successors, n, successorKey) by {
          assert forall n :: Linked(before, successorKey, n) <==> Linked(successors, n, successorKey);
        }
        if successorKey !in predecessors && successorKey in nodes {
          assert Keys(danglings + [nodes[successorKey]]) == Keys(danglings) + [successorKey];
          NoDuplicatesConcat(Keys(danglings), [successorKey]);
          danglings := danglings + [nodes[successorKey]];
        }
        left := left - {successorKey};
      }
      assert all - left == all;
      successors := successors - {nodeKey};
      nodes := nodes - {nodeKey};
      assert forall n, x :: Linked(successors, n, x) <==> n != nodeKey && Linked(old(successors), n, x);
    }

    /** The indexed nodes that list the given key, in an arbitrary order. */
    method Predecessors(node: Descriptor) returns (found: seq<Descriptor>)
      requires Valid()
      ensures forall n :: n in Keys(found) <==> Linked(successors, n, FromOCI(node))
      ensures forall i :: 0 <= i < |found| ==> FromOCI(found[i]) in nodes && found[i] == nodes[FromOCI(found[i])]
      ensures NoDuplicates(Keys(found))
    {
      var key := FromOCI(node);
      found := [];
      assert forall n :: Linked(predecessors, key, n) <==> Linked(successors, n, key);
      if key !in predecessors {
        return;
      }
      var left := predecessors[key];
      while left != {}
        invariant left <= predecessors[key]
        invariant forall n :: n in Keys(found) <==> Linked(predecessors, key, n) && n !in left
        invariant forall i :: 0 <= i < |found| ==> FromOCI(found[i]) in nodes && found[i] == nodes[FromOCI(found[i])]
        invariant NoDuplicates(Keys(found))
        decreases left
      {
        var k :| k in left;
        assert Linked(predecessors, key, k);
        assert Keys(found + [nodes[k]]) == Keys(found) + [k];
        NoDuplicatesConcat(Keys(found), [k]);
        found := found + [nodes[k]];
        left := left - {k};
      }
    }
  }
}
