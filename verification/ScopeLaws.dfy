/** What cleaning scopes keeps, and that its outcome depends on nothing else. */
module ScopeLaws {
  import opened Sequences
  import opened Strings
  import opened Scopes

  ghost predicate SameGrants(a: seq<string>, b: seq<string>) {
    forall t, n :: Granted(a, t, n) == Granted(b, t, n)
  }

  /** The same scopes outside the type:name:actions form, in any order. */
  ghost predicate SameRest(a: seq<string>, b: seq<string>) {
    multiset(Unrecognized(a)) == multiset(Unrecognized(b))
  }

  lemma SameGrantsSame(a: seq<string>, b: seq<string>, s: string)
    requires SameGrants(a, b) && Grants(a, s)
    ensures Grants(b, s)
  {
    var t, n :| Granted(a, t, n) != {} && s == Canonical(t, n, Granted(a, t, n));
    assert Granted(b, t, n) == Granted(a, t, n);
  }

  lemma MergedUnique(a: seq<string>, b: seq<string>, ma: seq<string>, mb: seq<string>)
    requires SameGrants(a, b) && IsMerged(a, ma) && IsMerged(b, mb)
    ensures multiset(ma) == multiset(mb)
  {
    forall s | Grants(a, s) ensures Grants(b, s) { SameGrantsSame(a, b, s); }
    forall s | Grants(b, s) ensures Grants(a, s) { SameGrantsSame(b, a, s); }
    hide Grants, SameGrants;
    DistinctMultiset(ma);
    DistinctMultiset(mb);
    assert (set x | x in ma) == (set x | x in mb);
  }

  /** Inputs that grant the same give identical output. */
  lemma SameMeaningSameOutput(a: seq<string>, b: seq<string>, ra: seq<string>, rb: seq<string>)
    requires SameGrants(a, b) && SameRest(a, b) && IsClean(a, ra) && IsClean(b, rb)
    ensures ra == rb
  {
    var ma :| IsMerged(a, ma) && multiset(ra) == multiset(Unrecognized(a)) + multiset(ma);
    var mb :| IsMerged(b, mb) && multiset(rb) == multiset(Unrecognized(b)) + multiset(mb);
    MergedUnique(a, b, ma, mb);
    SortedUnique(ra, rb);
  }

  lemma {:induction false} UnrecognizedCount(scopes: seq<string>, x: string)
    ensures multiset(Unrecognized(scopes))[x] == if Parse(x).None? then multiset(scopes)[x] else 0
  {
    hide Parse;
    if scopes != [] {
      var front, last := scopes[..|scopes| - 1], scopes[|scopes| - 1];
      UnrecognizedCount(front, x);
      assert scopes == front + [last];
      assert multiset(scopes) == multiset(front) + multiset{last};
      if Parse(last).None? {
        assert Unrecognized(scopes) == Unrecognized(front) + [last];
        assert multiset(Unrecognized(scopes)) == multiset(Unrecognized(front)) + multiset{last};
      }
    }
  }

  lemma RequestedBySome(scopes: seq<string>, t: string, n: string, a: string)
    ensures a in Requested(scopes, t, n) <==> exists s :: s in scopes && a in Listed(s, t, n)
  {
    if a in Requested(scopes, t, n) {
      var i :| 0 <= i < |scopes| && a in Listed(scopes[i], t, n);
      assert scopes[i] in scopes;
    }
    if s :| s in scopes && a in Listed(s, t, n) {
      var i :| 0 <= i < |scopes| && scopes[i] == s;
    }
  }

  /** The order of the scopes does not matter. */
  lemma OrderDoesNotMatter(a: seq<string>, b: seq<string>)
    requires multiset(a) == multiset(b)
    ensures SameGrants(a, b) && SameRest(a, b)
  {
    forall t, n ensures Granted(a, t, n) == Granted(b, t, n) {
      forall x ensures x in Requested(a, t, n) <==> x in Requested(b, t, n) {
        RequestedBySome(a, t, n, x);
        RequestedBySome(b, t, n, x);
        forall s ensures s in a <==> s in b { SameElements(a, b, s); }
      }
      assert Requested(a, t, n) == Requested(b, t, n);
    }
    forall x ensures multiset(Unrecognized(a))[x] == multiset(Unrecognized(b))[x] {
      UnrecognizedCount(a, x);
      UnrecognizedCount(b, x);
    }
  }

  /** A cleaned scope is an unrecognized one of the input or the canonical scope of a resource. */
  lemma CleanedFrom(scopes: seq<string>, result: seq<string>, s: string)
    requires IsClean(scopes, result)
    ensures s in result <==> s in Unrecognized(scopes) || Grants(scopes, s)
  {
    var merged :| IsMerged(scopes, merged) && multiset(result) == multiset(Unrecognized(scopes)) + multiset(merged);
    assert s in result <==> s in multiset(result);
    assert s in Unrecognized(scopes) <==> s in multiset(Unrecognized(scopes));
    assert s in merged <==> s in multiset(merged);
  }

  lemma UnrecognizedHolds(scopes: seq<string>, s: string)
    ensures s in Unrecognized(scopes) <==> s in scopes && Parse(s).None?
  {
    UnrecognizedCount(scopes, s);
    assert s in Unrecognized(scopes) <==> s in multiset(Unrecognized(scopes));
    assert s in scopes <==> s in multiset(scopes);
  }

  /** On each resource the cleaned scopes list exactly what the original ones grant. */
  lemma CleanedRequests(scopes: seq<string>, result: seq<string>, t: string, n: string)
    requires IsClean(scopes, result)
    ensures Requested(result, t, n) == Granted(scopes, t, n)
  {
    forall a | a in Requested(result, t, n) ensures a in Granted(scopes, t, n) {
      RequestedBySome(result, t, n, a);
      var s :| s in result && a in Listed(s, t, n);
      CleanedFrom(scopes, result, s);
      UnrecognizedHolds(scopes, s);
      var t', n' :| Granted(scopes, t', n') != {} && s == Canonical(t', n', Granted(scopes, t', n'));
      GrantedReads(scopes, t', n');
    }
    forall a | a in Granted(scopes, t, n) ensures a in Requested(result, t, n) {
      var s := Canonical(t, n, Granted(scopes, t, n));
      GrantedReads(scopes, t, n);
      assert Grants(scopes, s);
      CleanedFrom(scopes, result, s);
      RequestedBySome(result, t, n, a);
    }
  }

  /** Cleaning grants what was granted before and keeps the unrecognized scopes. */
  lemma CleanKeepsMeaning(scopes: seq<string>, result: seq<string>)
    requires IsClean(scopes, result)
    ensures SameGrants(scopes, result) && SameRest(scopes, result)
  {
    forall t, n ensures Granted(result, t, n) == Granted(scopes, t, n) {
      CleanedRequests(scopes, result, t, n);
    }
    var merged :| IsMerged(scopes, merged) && multiset(result) == multiset(Unrecognized(scopes)) + multiset(merged);
    forall x ensures multiset(Unrecognized(result))[x] == multiset(Unrecognized(scopes))[x] {
      UnrecognizedCount(result, x);
      UnrecognizedCount(scopes, x);
      MergedIsRecognized(scopes, merged, x);
    }
  }

  lemma MergedIsRecognized(scopes: seq<string>, merged: seq<string>, x: string)
    requires IsMerged(scopes, merged)
    ensures Parse(x).None? ==> multiset(merged)[x] == 0
  {
    if x in merged {
      var t, n :| Granted(scopes, t, n) != {} && x == Canonical(t, n, Granted(scopes, t, n));
      GrantedReads(scopes, t, n);
    }
  }

  /** Cleaning again changes nothing. */
  lemma CleanIsIdempotent(scopes: seq<string>, once: seq<string>, twice: seq<string>)
    requires IsClean(scopes, once) && IsClean(once, twice)
    ensures twice == once
  {
    CleanKeepsMeaning(scopes, once);
    SameMeaningSameOutput(scopes, once, once, twice);
  }

  /** Cleaning makes no single-colon scopes, so a second pass is covered if the first was. */
  lemma NoSingleColonMade(scopes: seq<string>, result: seq<string>, s: string)
    requires IsClean(scopes, result) && s in result && SingleColon(s)
    ensures s in scopes
  {
    CleanedFrom(scopes, result, s);
    UnrecognizedHolds(scopes, s);
    if Grants(scopes, s) {
      var t, n :| Granted(scopes, t, n) != {} && s == Canonical(t, n, Granted(scopes, t, n));
      GrantedReads(scopes, t, n);
    }
  }

  /** If every scope has two colons the outcome is also free of duplicates. */
  lemma CleanIsDistinct(scopes: seq<string>, result: seq<string>)
    requires IsClean(scopes, result) && forall s :: s in scopes ==> Parse(s).Some?
    ensures Sorted(result) && NoDuplicates(result)
  {
    var merged :| IsMerged(scopes, merged) && multiset(result) == multiset(Unrecognized(scopes)) + multiset(merged);
    forall x ensures multiset(Unrecognized(scopes))[x] == 0 {
      UnrecognizedCount(scopes, x);
      assert x in scopes <==> x in multiset(scopes);
    }
    assert multiset(result) == multiset(merged);
    DistinctMultiset(merged);
    MultisetOfSetIsDistinct(result, set x | x in merged);
  }
}
