/** Cleaning of authorization scopes of the form type:name:action,action. */
module Scopes {
  import opened Descriptors
  import opened Sequences
  import opened Strings

  datatype Scope = Scope(resourceType: string, name: string, actions: string)

  /** The type ends at the first colon and the actions start after the last one; two colons are needed. */
  function Parse(scope: string): Option<Scope> {
    var i := Index(scope, ':');
    if i == -1 then None else
    var rest := scope[i + 1..];
    var j := LastIndex(rest, ':');
    if j == -1 then None else Some(Scope(scope[..i], rest[..j], rest[j + 1..]))
  }

  function Render(s: Scope): string {
    s.resourceType + [':'] + (s.name + [':'] + s.actions)
  }

  lemma RenderParse(scope: string)
    requires Parse(scope).Some?
    ensures var s := Parse(scope).value; Render(s) == scope && ':' !in s.resourceType && ':' !in s.actions
  {
    var i := Index(scope, ':');
    var rest := scope[i + 1..];
    CutAt(scope, i);
    CutAt(rest, LastIndex(rest, ':'));
  }

  lemma ParseRender(s: Scope)
    requires ':' !in s.resourceType && ':' !in s.actions
    ensures Parse(Render(s)) == Some(s)
  {
    var rest := s.name + [':'] + s.actions;
    IndexAt(s.resourceType, ':', rest);
    LastIndexAt(s.name, ':', s.actions);
    var scope := s.resourceType + [':'] + rest;
    assert scope[|s.resourceType| + 1..] == rest && scope[..|s.resourceType|] == s.resourceType;
    assert rest[|s.name| + 1..] == s.actions && rest[..|s.name|] == s.name;
  }

  /** The actions listed, leaving out empty ones. */
  function Actions(list: string): set<string> {
    set a | a in Split(list, ',') && a != ""
  }

  function Listed(scope: string, resourceType: string, name: string): set<string> {
    match Parse(scope)
    case Some(s) => if s.resourceType == resourceType && s.name == name then Actions(s.actions) else {}
    case None => {}
  }

  /** All actions the scopes list for a resource. */
  function Requested(scopes: seq<string>, resourceType: string, name: string): (r: set<string>)
    ensures forall a :: a in r <==> exists i :: 0 <= i < |scopes| && a in Listed(scopes[i], resourceType, name)
  {
    if scopes == [] then {} else
    var front := scopes[..|scopes| - 1];
    assert scopes == front + [scopes[|scopes| - 1]];
    Requested(front, resourceType, name) + Listed(scopes[|scopes| - 1], resourceType, name)
  }

  /** The wildcard stands for every action. */
  function Absorb(actions: set<string>): set<string> {
    if "*" in actions then {"*"} else actions
  }

  /** What the scopes grant on a resource. */
  function Granted(scopes: seq<string>, resourceType: string, name: string): set<string> {
    Absorb(Requested(scopes, resourceType, name))
  }

  /** The elements of a set in ascending order. */
  ghost function Ascending(actions: set<string>): (r: seq<string>)
    ensures multiset(r) == multiset(actions)
  {
    if actions == {} then [] else
    var a :| a in actions;
    assert actions == (actions - {a}) + {a};
    Insert(a, Ascending(actions - {a}))
  }

  lemma {:induction false} AscendingSorted(actions: set<string>)
    ensures Sorted(Ascending(actions))
  {
    if actions != {} {
      var a :| a in actions && Ascending(actions) == Insert(a, Ascending(actions - {a}));
      AscendingSorted(actions - {a});
      InsertSorted(a, Ascending(actions - {a}));
    }
  }

  lemma AscendingUnique(actions: set<string>, s: seq<string>)
    requires Sorted(s) && NoDuplicates(s) && forall a :: a in s <==> a in actions
    ensures s == Ascending(actions)
  {
    AscendingSorted(actions);
    DistinctMultiset(s);
    assert (set x | x in s) == actions;
    SortedUnique(s, Ascending(actions));
  }

  lemma AscendingHolds(actions: set<string>, a: string)
    ensures a in Ascending(actions) <==> a in actions
  {
    assert a in Ascending(actions) <==> a in multiset(Ascending(actions));
  }

  lemma AscendingEmpty(actions: set<string>)
    ensures Ascending(actions) == [] <==> actions == {}
  {
    assert |Ascending(actions)| == |multiset(Ascending(actions))| == |multiset(actions)|;
  }

  /** Actions come out of a comma-separated list without colons. */
  predicate Plain(actions: set<string>) {
    forall a :: a in actions ==> a != "" && ',' !in a && ':' !in a
  }

  ghost function Canonical(resourceType: string, name: string, actions: set<string>): string {
    Render(Scope(resourceType, name, Join(Ascending(actions), ',')))
  }

  lemma ActionsPlain(list: string)
    requires ':' !in list
    ensures Plain(Actions(list))
  {
  }

  lemma RequestedPlain(scopes: seq<string>, resourceType: string, name: string)
    ensures Plain(Requested(scopes, resourceType, name)) && Plain(Granted(scopes, resourceType, name))
  {
    forall a | a in Requested(scopes, resourceType, name) ensures a != "" && ',' !in a && ':' !in a {
      var i :| 0 <= i < |scopes| && a in Listed(scopes[i], resourceType, name);
      RenderParse(scopes[i]);
      ActionsPlain(Parse(scopes[i]).value.actions);
    }
  }

  lemma RequestedTyped(scopes: seq<string>, resourceType: string, name: string)
    requires Requested(scopes, resourceType, name) != {}
    ensures ':' !in resourceType
  {
    var a :| a in Requested(scopes, resourceType, name);
    var i :| 0 <= i < |scopes| && a in Listed(scopes[i], resourceType, name);
    RenderParse(scopes[i]);
  }

  lemma JoinedPlain(parts: seq<string>)
    requires forall i :: 0 <= i < |parts| ==> ':' !in parts[i]
    ensures ':' !in Join(parts, ',')
  {
    if ':' in Join(parts, ',') {
      JoinHolds(parts, ',', ':');
    }
  }

  lemma ActionsJoin(actions: set<string>)
    requires Plain(actions) && actions != {}
    ensures ':' !in Join(Ascending(actions), ',') && Actions(Join(Ascending(actions), ',')) == actions
  {
    var parts := Ascending(actions);
    forall x ensures x in parts <==> x in actions { AscendingHolds(actions, x); }
    hide Ascending;
    assert forall i :: 0 <= i < |parts| ==> parts[i] in actions;
    JoinedPlain(parts);
    SplitJoin(parts, ',');
  }

  /** A canonical scope reads back as what it was written from. */
  lemma CanonicalReads(resourceType: string, name: string, actions: set<string>)
    requires ':' !in resourceType && Plain(actions) && actions != {}
    ensures Parse(Canonical(resourceType, name, actions)) == Some(Scope(resourceType, name, Join(Ascending(actions), ',')))
    ensures Actions(Join(Ascending(actions), ',')) == actions
  {
    ActionsJoin(actions);
    ParseRender(Scope(resourceType, name, Join(Ascending(actions), ',')));
  }

  /** The scopes with fewer than two colons, in order. */
  function Unrecognized(scopes: seq<string>): seq<string> {
    if scopes == [] then [] else
    var front := Unrecognized(scopes[..|scopes| - 1]);
    if Parse(scopes[|scopes| - 1]).None? then front + [scopes[|scopes| - 1]] else front
  }

  ghost predicate Grants(scopes: seq<string>, scope: string) {
    exists t, n :: Granted(scopes, t, n) != {} && scope == Canonical(t, n, Granted(scopes, t, n))
  }

  /** One canonical scope for each resource something is granted on. */
  ghost predicate IsMerged(scopes: seq<string>, merged: seq<string>) {
    NoDuplicates(merged) && forall s :: s in merged <==> Grants(scopes, s)
  }

  /** The outcome of cleaning: the unrecognized scopes as they are and the merged ones, in ascending order. */
  ghost predicate IsClean(scopes: seq<string>, result: seq<string>) {
    Sorted(result) && exists merged :: IsMerged(scopes, merged) && multiset(result) == multiset(Unrecognized(scopes)) + multiset(merged)
  }

  /** cleanActions: sorts the slice, then compacts it in place; a wildcard found on the way replaces everything. */
  method CleanActions(actions: array<string>) returns (cleaned: seq<string>)
    modifies actions
    ensures cleaned == Ascending(Absorb(set a | a in old(actions[..]) && a != ""))
  {
    ghost var wanted := set a | a in old(actions[..]) && a != "";
    if actions.Length == 0 {
      return [];
    }
    if actions.Length == 1 {
      cleaned := if actions[0] == "" then [] else [actions[0]];
      AscendingUnique(Absorb(wanted), cleaned);
      return;
    }
    SortInPlace(actions);
    SortSorted(old(actions[..]));
    ghost var sorted := actions[..];
    assert wanted == NonEmpty(sorted) by {
      forall a ensures a in sorted <==> a in old(actions[..]) { SameElements(sorted, old(actions[..]), a); }
    }
    var starred, n := Compact(actions);
    if starred {
      AscendingUnique({"*"}, ["*"]);
      return ["*"];
    }
    cleaned := if actions[0] == "" then actions[1..n] else actions[..n];
    Trimmed(sorted, actions[..n]);
    AscendingUnique(wanted, cleaned);
  }

  ghost function NonEmpty(s: seq<string>): set<string> {
    set a | a in s && a != ""
  }

  /** The empty string can only come first. */
  lemma Trimmed(sorted: seq<string>, kept: seq<string>)
    requires kept != [] && Sorted(kept) && NoDuplicates(kept) && Same(kept, sorted)
    ensures var cleaned := if kept[0] == "" then kept[1..] else kept;
            Sorted(cleaned) && NoDuplicates(cleaned) && forall a :: a in cleaned <==> a in NonEmpty(sorted)
  {
    assert kept == [kept[0]] + kept[1..];
    assert forall i :: 0 <= i < |kept| ==> i == 0 || Le(kept[0], kept[i]);
    assert forall a :: a in kept[1..] ==> a != kept[0];
  }

  method SortInPlace(a: array<string>)
    modifies a
    ensures a[..] == Sort(old(a[..]))
  {
    var sorted := Sort(a[..]);
    SortLength(a[..]);
    hide Sort;
    for i := 0 to a.Length
      invariant a[..i] == sorted[..i]
    {
      a[i] := sorted[i];
    }
    assert a[..] == a[..a.Length] && sorted == sorted[..a.Length];
  }

  lemma SortLength(s: seq<string>)
    ensures |Sort(s)| == |s|
  {
    assert |multiset(Sort(s))| == |multiset(s)|;
  }

  /** After looking at the first i elements of a sorted slice, its first n + 1 places hold them without repetition. */
  ghost predicate Compacted(sorted: seq<string>, i: nat, now: seq<string>, n: nat) {
    && |now| == |sorted| && n < |now| && n <= i <= |sorted| && (i > 0 ==> n < i)
    && now[i..] == sorted[i..]
    && Sorted(now[..n + 1]) && NoDuplicates(now[..n + 1])
    && Same(now[..n + 1], Seen(sorted, i))
  }

  ghost predicate Same(a: seq<string>, b: seq<string>) {
    forall x :: x in a <==> x in b
  }

  ghost function Seen(sorted: seq<string>, i: nat): seq<string>
    requires i <= |sorted| && sorted != []
  {
    if i == 0 then sorted[..1] else sorted[..i]
  }

  lemma SeenStep(sorted: seq<string>, i: nat)
    requires i < |sorted|
    ensures Same(Seen(sorted, i + 1), Seen(sorted, i) + [sorted[i]])
  {
    if i > 0 {
      assert sorted[..i + 1] == sorted[..i] + [sorted[i]];
    }
  }

  /** What was seen is no larger than the next element, and equal to it only in the last place. */
  lemma NextIsLarger(sorted: seq<string>, i: nat, now: seq<string>, n: nat, k: nat)
    requires Sorted(sorted) && i < |sorted| && Compacted(sorted, i, now, n) && k <= n
    ensures now[i] == sorted[i] && Le(now[k], sorted[i]) && (k < n ==> now[k] != sorted[i])
  {
    assert now[i..][0] == sorted[i..][0];
    SeenIsSmaller(sorted, i, now[..n + 1][k]);
    SeenIsSmaller(sorted, i, now[..n + 1][n]);
    if k < n {
      assert Le(now[..n + 1][k], now[..n + 1][n]) && now[..n + 1][k] != now[..n + 1][n];
      if now[k] == sorted[i] {
        LeAntisymmetric(now[k], now[n]);
      }
    }
  }

  lemma SeenIsSmaller(sorted: seq<string>, i: nat, x: string)
    requires Sorted(sorted) && i < |sorted| && x in Seen(sorted, i)
    ensures Le(x, sorted[i])
  {
    var j :| 0 <= j < |Seen(sorted, i)| && Seen(sorted, i)[j] == x;
    if j >= i {
      LeTotal(x, x);
    }
  }

  lemma CompactStep(sorted: seq<string>, i: nat, now: seq<string>, n: nat)
    requires Sorted(sorted) && i < |sorted| && Compacted(sorted, i, now, n)
    ensures now[i] == sorted[i]
    ensures if now[i] == now[n] then Compacted(sorted, i + 1, now, n)
            else n + 1 <= i && Compacted(sorted, i + 1, now[n + 1 := now[i]], n + 1)
  {
    NextIsLarger(sorted, i, now, n, n);
    SeenStep(sorted, i);
    assert sorted[i + 1..] == sorted[i..][1..];
    assert now[i + 1..] == now[i..][1..];
    if now[i] == now[n] {
      assert now[..n + 1][n] == now[i];
      assert Same(now[..n + 1], Seen(sorted, i + 1));
    } else {
      var next := now[n + 1 := now[i]];
      assert next[..n + 2] == now[..n + 1] + [now[i]];
      forall k | 0 <= k <= n ensures Le(now[k], now[i]) && now[k] != now[i] {
        NextIsLarger(sorted, i, now, n, k);
      }
      AppendLarger(now[..n + 1], now[i]);
      assert next[i + 1..] == now[i + 1..];
      assert Same(next[..n + 2], Seen(sorted, i + 1));
    }
  }

  lemma AppendLarger(s: seq<string>, x: string)
    requires Sorted(s) && NoDuplicates(s) && forall k :: 0 <= k < |s| ==> Le(s[k], x) && s[k] != x
    ensures Sorted(s + [x]) && NoDuplicates(s + [x])
  {
  }

  /** The compaction loop; stops at a wildcard. */
  method Compact(a: array<string>) returns (starred: bool, n: nat)
    requires a.Length > 0 && Sorted(a[..])
    modifies a
    ensures starred <==> "*" in old(a[..])
    ensures !starred ==> 0 < n <= a.Length && Sorted(a[..n]) && NoDuplicates(a[..n]) && Same(a[..n], old(a[..]))
  {
    ghost var sorted := a[..];
    n := 0;
    for i := 0 to a.Length
      invariant Compacted(sorted, i, a[..], n) && "*" !in sorted[..i]
    {
      ghost var now := a[..];
      CompactStep(sorted, i, now, n);
      hide Compacted, Sorted, NoDuplicates;
      if a[i] == "*" {
        return true, n;
      }
      if a[i] != a[n] {
        n := n + 1;
        if n != i {
          a[n] := a[i];
        }
        assert a[..] == now[n := now[i]];
      }
    }
    assert Seen(sorted, a.Length) == sorted;
    return false, n + 1;
  }

  /** Actions by resource name by resource type. */
  type Tree = map<string, map<string, set<string>>>

  function Lookup(tree: Tree, t: string, n: string): set<string> {
    if t in tree && n in tree[t] then tree[t][n] else {}
  }

  ghost predicate Collects(tree: Tree, scopes: seq<string>) {
    forall t, n :: Lookup(tree, t, n) == Requested(scopes, t, n)
  }

  method AddActions(known: set<string>, list: string) returns (actions: set<string>)
    ensures actions == known + Actions(list)
  {
    actions := known;
    var pieces := Split(list, ',');
    for i := 0 to |pieces|
      invariant actions == known + set a | a in pieces[..i] && a != ""
    {
      assert pieces[..i + 1] == pieces[..i] + [pieces[i]];
      if pieces[i] != "" {
        actions := actions + {pieces[i]};
      }
    }
    assert pieces[..|pieces|] == pieces;
  }

  function Named(tree: Tree, t: string): map<string, set<string>> {
    if t in tree then tree[t] else map[]
  }

  lemma LookupUpdated(tree: Tree, t: string, n: string, actions: set<string>, t': string, n': string)
    ensures Lookup(tree[t := Named(tree, t)[n := actions]], t', n') == if t' == t && n' == n then actions else Lookup(tree, t', n')
  {
  }

  lemma AddedCollects(tree: Tree, scopes: seq<string>, scope: string)
    requires Collects(tree, scopes) && Parse(scope).Some?
    ensures var s := Parse(scope).value;
            Collects(tree[s.resourceType := Named(tree, s.resourceType)[s.name := Lookup(tree, s.resourceType, s.name) + Actions(s.actions)]], scopes + [scope])
  {
    var s := Parse(scope).value;
    var actions := Lookup(tree, s.resourceType, s.name) + Actions(s.actions);
    var tree' := tree[s.resourceType := Named(tree, s.resourceType)[s.name := actions]];
    forall t, n ensures Lookup(tree', t, n) == Lookup(tree, t, n) + Listed(scope, t, n) {
      LookupUpdated(tree, s.resourceType, s.name, actions, t, n);
    }
    CollectsStep(tree, tree', scopes, scope);
  }

  /** A scope without actions adds nothing. */
  lemma SkippedCollects(tree: Tree, scopes: seq<string>, scope: string)
    requires Collects(tree, scopes) && (Parse(scope).Some? ==> Parse(scope).value.actions == "")
    ensures Collects(tree, scopes + [scope])
  {
    assert Actions("") == {};
    forall t, n ensures Lookup(tree, t, n) == Lookup(tree, t, n) + Listed(scope, t, n) {
    }
    CollectsStep(tree, tree, scopes, scope);
  }

  lemma CollectsStep(tree: Tree, tree': Tree, scopes: seq<string>, scope: string)
    requires Collects(tree, scopes)
    requires forall t, n :: Lookup(tree', t, n) == Lookup(tree, t, n) + Listed(scope, t, n)
    ensures Collects(tree', scopes + [scope])
  {
    assert (scopes + [scope])[..|scopes|] == scopes;
  }

  /** Adds a recognizable scope to the tree; one without actions is dropped. */
  method MergeScope(tree: Tree, scope: string, ghost scopes: seq<string>) returns (tree': Tree)
    requires Collects(tree, scopes) && Parse(scope).Some?
    ensures Collects(tree', scopes + [scope])
  {
    var s := Parse(scope).value;
    if s.actions == "" {
      SkippedCollects(tree, scopes, scope);
      return tree;
    }
    AddedCollects(tree, scopes, scope);
    hide Collects, Actions, Parse;
    var actions := AddActions(Lookup(tree, s.resourceType, s.name), s.actions);
    tree' := tree[s.resourceType := Named(tree, s.resourceType)[s.name := actions]];
  }

  /** The merging loop of the slow path. */
  method MergeScopes(scopes: seq<string>) returns (unrecognized: seq<string>, tree: Tree)
    ensures unrecognized == Unrecognized(scopes) && Collects(tree, scopes)
  {
    unrecognized, tree := [], map[];
    assert Collects(tree, []);
    hide Collects, Parse, Unrecognized;
    for i := 0 to |scopes|
      invariant unrecognized == Unrecognized(scopes[..i]) && Collects(tree, scopes[..i])
    {
      UnrecognizedStep(scopes, i);
      if Parse(scopes[i]).None? {
        SkippedCollects(tree, scopes[..i], scopes[i]);
        unrecognized := unrecognized + [scopes[i]];
      } else {
        tree := MergeScope(tree, scopes[i], scopes[..i]);
      }
    }
    assert scopes[..|scopes|] == scopes;
  }

  lemma UnrecognizedStep(scopes: seq<string>, i: nat)
    requires i < |scopes|
    ensures scopes[..i + 1] == scopes[..i] + [scopes[i]]
    ensures Unrecognized(scopes[..i + 1]) == if Parse(scopes[i]).None? then Unrecognized(scopes[..i]) + [scopes[i]] else Unrecognized(scopes[..i])
  {
    assert scopes[..i + 1][..i] == scopes[..i];
  }

  /** The actions of one resource, in whatever order the set yields them; stops at a wildcard. */
  method ListActions(actionSet: set<string>) returns (actions: seq<string>)
    ensures NoDuplicates(actions) && forall a :: a in actions <==> a in Absorb(actionSet)
  {
    actions := [];
    var left := actionSet;
    while left != {}
      invariant left <= actionSet && NoDuplicates(actions)
      invariant forall a :: a in actions <==> a in actionSet && a !in left
      invariant "*" !in actions
      decreases left
    {
      var action :| action in left;
      if action == "*" {
        return ["*"];
      }
      actions := actions + [action];
      left := left - {action};
    }
  }

  lemma SortIsAscending(actions: seq<string>, elements: set<string>)
    requires NoDuplicates(actions) && forall a :: a in actions <==> a in elements
    ensures Sort(actions) == Ascending(elements)
  {
    SortSorted(actions);
    AscendingSorted(elements);
    DistinctMultiset(actions);
    assert (set x | x in actions) == elements;
    SortedUnique(Sort(actions), Ascending(elements));
  }

  method RenderResource(t: string, n: string, actionSet: set<string>) returns (scope: string)
    ensures scope == Canonical(t, n, Absorb(actionSet))
  {
    var actions := ListActions(actionSet);
    SortIsAscending(actions, Absorb(actionSet));
    scope := Render(Scope(t, n, Join(Sort(actions), ',')));
  }

  ghost predicate Emitted(scopes: seq<string>, done: set<(string, string)>, scope: string) {
    exists p :: p in done && Granted(scopes, p.0, p.1) != {} && scope == Canonical(p.0, p.1, Granted(scopes, p.0, p.1))
  }

  /** Canonical scopes of different resources differ. */
  lemma CanonicalInjective(scopes: seq<string>, t: string, n: string, t': string, n': string)
    requires Granted(scopes, t, n) != {} && Granted(scopes, t', n') != {}
    requires Canonical(t, n, Granted(scopes, t, n)) == Canonical(t', n', Granted(scopes, t', n'))
    ensures t == t' && n == n'
  {
    GrantedReads(scopes, t, n);
    GrantedReads(scopes, t', n');
  }

  lemma GrantedReads(scopes: seq<string>, t: string, n: string)
    requires Granted(scopes, t, n) != {}
    ensures var s := Canonical(t, n, Granted(scopes, t, n));
            && Parse(s).Some? && Parse(s).value.resourceType == t && Parse(s).value.name == n
            && Listed(s, t, n) == Granted(scopes, t, n)
  {
    RequestedPlain(scopes, t, n);
    RequestedTyped(scopes, t, n);
    CanonicalReads(t, n, Granted(scopes, t, n));
  }

  lemma EmitStep(scopes: seq<string>, done: set<(string, string)>, merged: seq<string>, t: string, n: string)
    requires NoDuplicates(merged) && (forall s :: s in merged <==> Emitted(scopes, done, s)) && (t, n) !in done
    ensures var merged' := if Granted(scopes, t, n) == {} then merged else merged + [Canonical(t, n, Granted(scopes, t, n))];
            NoDuplicates(merged') && forall s :: s in merged' <==> Emitted(scopes, done + {(t, n)}, s)
  {
    var scope := Canonical(t, n, Granted(scopes, t, n));
    forall s ensures Emitted(scopes, done + {(t, n)}, s) <==> Emitted(scopes, done, s) || (Granted(scopes, t, n) != {} && s == scope) {
      if Emitted(scopes, done, s) {
        var p :| p in done && Granted(scopes, p.0, p.1) != {} && s == Canonical(p.0, p.1, Granted(scopes, p.0, p.1));
        assert p in done + {(t, n)};
      } else if Granted(scopes, t, n) != {} && s == scope {
        assert (t, n) in done + {(t, n)};
      }
    }
    if Granted(scopes, t, n) != {} && Emitted(scopes, done, scope) {
      var p :| p in done && Granted(scopes, p.0, p.1) != {} && scope == Canonical(p.0, p.1, Granted(scopes, p.0, p.1));
      CanonicalInjective(scopes, t, n, p.0, p.1);
    }
  }

  /** The reconstruction loops of the slow path; both maps may be iterated in any order. */
  method Reconstruct(tree: Tree, ghost scopes: seq<string>) returns (merged: seq<string>)
    requires Collects(tree, scopes)
    ensures IsMerged(scopes, merged)
  {
    merged := [];
    ghost var done: set<(string, string)> := {};
    var types := tree.Keys;
    while types != {}
      invariant types <= tree.Keys && NoDuplicates(merged) && forall s :: s in merged <==> Emitted(scopes, done, s)
      invariant forall t, n :: (t, n) in done <==> t in tree && t !in types && n in tree[t]
      decreases types
    {
      var t :| t in types;
      types := types - {t};
      var names := tree[t].Keys;
      while names != {}
        invariant names <= tree[t].Keys && NoDuplicates(merged) && forall s :: s in merged <==> Emitted(scopes, done, s)
        invariant forall t', n :: (t', n) in done <==> t' in tree && t' !in types && n in tree[t'] && (t' == t ==> n !in names)
        decreases names
      {
        var n :| n in names;
        names := names - {n};
        EmitStep(scopes, done, merged, t, n);
        assert tree[t][n] == Lookup(tree, t, n) == Requested(scopes, t, n);
        if tree[t][n] != {} {
          var scope := RenderResource(t, n, tree[t][n]);
          merged := merged + [scope];
        }
        done := done + {(t, n)};
      }
    }
    AllEmitted(tree, scopes, done, merged);
  }

  lemma AllEmitted(tree: Tree, scopes: seq<string>, done: set<(string, string)>, merged: seq<string>)
    requires Collects(tree, scopes) && NoDuplicates(merged) && forall s :: s in merged <==> Emitted(scopes, done, s)
    requires forall t, n :: (t, n) in done <==> t in tree && n in tree[t]
    ensures IsMerged(scopes, merged)
  {
    forall s | Grants(scopes, s) ensures Emitted(scopes, done, s) {
      var t, n :| Granted(scopes, t, n) != {} && s == Canonical(t, n, Granted(scopes, t, n));
      assert Lookup(tree, t, n) == Requested(scopes, t, n);
      assert (t, n) in done;
    }
  }

  /** Exactly one colon: the slow path does not look at the actions of such a scope, the fast path does. */
  predicate SingleColon(scope: string) {
    ':' in scope && Parse(scope).None?
  }

  /** The outcome of the fast path for one scope. */
  ghost function Fast(scope: string): seq<string> {
    var i := LastIndex(scope, ':');
    if i == -1 then [scope] else
    var actions := Absorb(Actions(scope[i + 1..]));
    if actions == {} then [] else [scope[..i + 1] + Join(Ascending(actions), ',')]
  }

  method CleanList(list: string) returns (cleaned: seq<string>)
    ensures cleaned == Ascending(Absorb(Actions(list)))
  {
    var pieces := Split(list, ',');
    var actionList := new string[|pieces|](j requires 0 <= j < |pieces| => pieces[j]);
    assert actionList[..] == pieces;
    hide Ascending, Absorb;
    cleaned := CleanActions(actionList);
  }

  method CleanOne(scope: string) returns (result: seq<string>)
    ensures result == Fast(scope)
  {
    var i := LastIndex(scope, ':');
    if i == -1 {
      return [scope];
    }
    var cleaned := CleanList(scope[i + 1..]);
    AscendingEmpty(Absorb(Actions(scope[i + 1..])));
    hide Absorb, Actions, Ascending, Join;
    result := if cleaned == [] then [] else [scope[..i + 1] + Join(cleaned, ',')];
  }

  lemma Regroup(a: string, b: string, c: string)
    ensures var front := a + [':'] + b; var whole := a + [':'] + (b + [':'] + c);
            && whole == front + [':'] + c && whole[|front| + 1..] == c && whole[..|front| + 1] == front + [':']
  {
    var front := a + [':'] + b;
    var whole := a + [':'] + (b + [':'] + c);
    assert whole == front + [':'] + c;
  }

  lemma FastRecognized(s: Scope)
    requires ':' !in s.resourceType && ':' !in s.actions
    ensures Fast(Render(s)) == var actions := Absorb(Actions(s.actions));
                               if actions == {} then [] else [Canonical(s.resourceType, s.name, actions)]
  {
    var front := s.resourceType + [':'] + s.name;
    var list := Join(Ascending(Absorb(Actions(s.actions))), ',');
    hide Actions, Absorb, Ascending, Join;
    Regroup(s.resourceType, s.name, s.actions);
    Regroup(s.resourceType, s.name, list);
    LastIndexAt(front, ':', s.actions);
  }

  lemma OneScope(scope: string)
    ensures Unrecognized([scope]) == if Parse(scope).None? then [scope] else []
    ensures forall t, n :: Granted([scope], t, n) == Absorb(Listed(scope, t, n))
  {
    assert [scope][..0] == [];
  }

  lemma SortedOne(scope: string)
    ensures Sorted([]) && Sorted([scope]) && NoDuplicates<string>([]) && NoDuplicates([scope])
  {
  }

  /** On anything but a single-colon scope the fast path does what the slow path does. */
  lemma FastIsClean(scope: string)
    requires !SingleColon(scope)
    ensures IsClean([scope], Fast(scope))
  {
    OneScope(scope);
    SortedOne(scope);
    if Parse(scope).None? {
      assert !exists s :: Grants([scope], s);
      assert IsMerged([scope], []);
      assert [scope] + [] == [scope];
    } else {
      var s := Parse(scope).value;
      RenderParse(scope);
      FastRecognized(s);
      OneMerged(scope);
      SortedOne(Canonical(s.resourceType, s.name, Absorb(Actions(s.actions))));
    }
  }

  lemma OnlyGrant(scopes: seq<string>, t0: string, n0: string, actions: set<string>)
    requires Granted(scopes, t0, n0) == actions
    requires forall t, n :: t != t0 || n != n0 ==> Granted(scopes, t, n) == {}
    ensures IsMerged(scopes, if actions == {} then [] else [Canonical(t0, n0, actions)])
  {
    hide Canonical, Granted;
    forall x ensures Grants(scopes, x) <==> actions != {} && x == Canonical(t0, n0, actions) {
    }
  }

  lemma OneMerged(scope: string)
    requires Parse(scope).Some?
    ensures var s := Parse(scope).value; var actions := Absorb(Actions(s.actions));
            IsMerged([scope], if actions == {} then [] else [Canonical(s.resourceType, s.name, actions)])
  {
    OneScope(scope);
    var s := Parse(scope).value;
    OnlyGrant([scope], s.resourceType, s.name, Absorb(Actions(s.actions)));
  }

  lemma NothingMerged(scopes: seq<string>, merged: seq<string>)
    requires IsMerged(scopes, merged) && forall s :: !Grants(scopes, s)
    ensures merged == []
  {
    HasFirst(merged);
  }

  /** A single-colon scope is cleaned by the fast path, but the slow path would leave it alone. */
  lemma SingleColonStays(scope: string, result: seq<string>)
    requires SingleColon(scope)
    ensures IsClean([scope], result) <==> result == [scope]
  {
    OneScope(scope);
    SortedOne(scope);
    assert !exists s :: Grants([scope], s);
    assert IsMerged([scope], []);
    if IsClean([scope], result) {
      var merged :| IsMerged([scope], merged) && multiset(result) == multiset([scope]) + multiset(merged);
      NothingMerged([scope], merged);
      assert multiset(result) == multiset([scope]);
      SortedUnique(result, [scope]);
    }
  }

  /** The actions of the list in canonical form: not empty, ascending, without repetition, and a wildcard alone. */
  ghost predicate IsCanonicalList(list: string) {
    Absorb(Actions(list)) != {} && Join(Ascending(Absorb(Actions(list))), ',') == list
  }

  /** On a single-colon scope the paths agree if and only if its actions are in canonical form. */
  lemma SingleColonAgreesIff(scope: string)
    requires SingleColon(scope)
    ensures IsClean([scope], Fast(scope)) <==> IsCanonicalList(scope[LastIndex(scope, ':') + 1..])
  {
    SingleColonStays(scope, Fast(scope));
    FastKeepsIff(scope);
  }

  lemma FastKeepsIff(scope: string)
    requires ':' in scope
    ensures Fast(scope) == [scope] <==> IsCanonicalList(scope[LastIndex(scope, ':') + 1..])
  {
    var i := LastIndex(scope, ':');
    var actions := Absorb(Actions(scope[i + 1..]));
    var cleaned := Join(Ascending(actions), ',');
    hide Actions, Absorb, Ascending, Join, LastIndex;
    SameFront(scope, i + 1, cleaned);
    var fast := scope[..i + 1] + cleaned;
    assert fast == scope <==> [fast] == [scope] by { assert [fast][0] == fast; }
  }

  lemma SameFront(s: string, i: nat, t: string)
    requires i <= |s|
    ensures s[..i] + t == s <==> t == s[i..]
  {
    assert (s[..i] + t)[i..] == t && s == s[..i] + s[i..];
  }

  /** The fast path agrees with the slow path if and only if the scope has no single colon or canonical actions. */
  lemma FastAgreesIff(scope: string)
    ensures IsClean([scope], Fast(scope)) <==> !SingleColon(scope) || IsCanonicalList(scope[LastIndex(scope, ':') + 1..])
  {
    if SingleColon(scope) {
      SingleColonAgreesIff(scope);
    } else {
      FastIsClean(scope);
    }
  }

  lemma FastDiffers()
    ensures SingleColon("a:,") && Fast("a:,") == [] && !IsClean(["a:,"], Fast("a:,"))
  {
    assert "a:," == "a" + [':'] + "," && ':' !in "a" && ':' !in ",";
    IndexAt("a", ':', ",");
    LastIndexAt("a", ':', ",");
    assert "a:,"[2..] == ",";
    assert Split("", ',') == [""];
    SplitFirst("", "", ',');
    assert "" + [','] + "" == ",";
    assert Actions(",") == {};
    SingleColonStays("a:,", []);
  }

  /** CleanScopes. */
  method CleanScopes(scopes: seq<string>) returns (result: seq<string>)
    ensures !(|scopes| == 1 && SingleColon(scopes[0])) ==> IsClean(scopes, result)
    ensures |scopes| == 1 ==> result == Fast(scopes[0])
  {
    if |scopes| == 0 {
      SortedOne("");
      assert forall t, n :: Granted([], t, n) == {};
      assert IsMerged([], []);
      return [];
    }
    if |scopes| == 1 {
      assert scopes == [scopes[0]];
      result := CleanOne(scopes[0]);
      if !SingleColon(scopes[0]) {
        FastIsClean(scopes[0]);
      }
      return;
    }
    hide IsMerged, Unrecognized, Collects;
    var unrecognized, tree := MergeScopes(scopes);
    var merged := Reconstruct(tree, scopes);
    result := Sort(unrecognized + merged);
    SortSorted(unrecognized + merged);
  }
}
