/** Parsing and printing artifact references. */
module References {
  import opened Descriptors
  import opened Strings

  datatype Reference = Reference(registry: string, repository: string, reference: string)

  /** The validators: URL parsing for registries, regular expressions for repositories and tags, digest parsing. */
  datatype Rules = Rules(registry: string -> bool, repository: string -> bool, tag: string -> bool, digest: string -> bool)

  /** What the validators are known to exclude. */
  ghost predicate Sane(rules: Rules) {
    && (forall s :: rules.registry(s) ==> '/' !in s)
    && (forall s :: rules.repository(s) ==> s != "" && '@' !in s && ':' !in s)
    && (forall s :: rules.tag(s) ==> s != "" && '@' !in s && ':' !in s)
    && (forall s :: rules.digest(s) ==> ':' in s)
  }

  function Before(s: string, c: char): string {
    var i := Index(s, c);
    if i == -1 then s else s[..i]
  }

  /** ParseReference: cuts at the first slash, then at the first '@', or else at the first colon. */
  function ParseReference(rules: Rules, artifact: string): Option<Reference> {
    var slash := Index(artifact, '/');
    if slash == -1 then None else ParsePath(rules, artifact[..slash], artifact[slash + 1..])
  }

  function ParsePath(rules: Rules, registry: string, path: string): Option<Reference> {
    var at, colon := Index(path, '@'), Index(path, ':');
    if at != -1 then
      Checked(rules, Reference(registry, Before(path[..at], ':'), path[at + 1..]), false)
    else if colon != -1 then
      Checked(rules, Reference(registry, path[..colon], path[colon + 1..]), true)
    else
      Checked(rules, Reference(registry, path, ""), false)
  }

  function Checked(rules: Rules, r: Reference, isTag: bool): Option<Reference> {
    if !rules.registry(r.registry) || !rules.repository(r.repository) then None
    else if r.reference == "" then Some(r)
    else if if isTag then rules.tag(r.reference) else rules.digest(r.reference) then Some(r)
    else None
  }

  /** Reference.Validate: a reference with a colon has to be a digest, any other a tag. */
  predicate Valid(rules: Rules, r: Reference) {
    && rules.registry(r.registry) && rules.repository(r.repository)
    && (r.reference == "" || if ':' in r.reference then rules.digest(r.reference) else rules.tag(r.reference))
  }

  /** Reference.String. */
  function Print(rules: Rules, r: Reference): string {
    if r.repository == "" then r.registry else
    var base := r.registry + ['/'] + r.repository;
    if r.reference == "" then base
    else if rules.digest(r.reference) then base + ['@'] + r.reference
    else base + [':'] + r.reference
  }

  /** The ways to write the part after the registry: REPOSITORY, :TAG, @DIGEST, or :ANYTHING@DIGEST. */
  ghost predicate Path(rules: Rules, path: string, r: Reference) {
    || (path == r.repository && r.reference == "")
    || (path == r.repository + [':'] + r.reference && (r.reference == "" || rules.tag(r.reference)))
    || ((r.reference == "" || rules.digest(r.reference)) && Pinned(path, r))
  }

  ghost predicate Pinned(path: string, r: Reference) {
    exists front :: path == front + ['@'] + r.reference && '@' !in front && Before(front, ':') == r.repository
  }

  ghost predicate Spells(rules: Rules, s: string, r: Reference) {
    exists path :: s == r.registry + ['/'] + path && Path(rules, path, r)
  }

  lemma Cut(front: string, c: char, rest: string)
    requires c !in front
    ensures var s := front + [c] + rest; Index(s, c) == |front| && s[..|front|] == front && s[|front| + 1..] == rest
  {
    IndexAt(front, c, rest);
  }

  lemma ParsedPath(rules: Rules, registry: string, path: string, r: Reference)
    requires Sane(rules) && ParsePath(rules, registry, path) == Some(r)
    ensures r.registry == registry && Valid(rules, r) && Path(rules, path, r)
  {
    var at, colon := Index(path, '@'), Index(path, ':');
    if at != -1 {
      CutAt(path, at);
      PinnedBy(path, path[..at], r);
    } else if colon != -1 {
      CutAt(path, colon);
    }
  }

  lemma PinnedBy(path: string, front: string, r: Reference)
    requires path == front + ['@'] + r.reference && '@' !in front && Before(front, ':') == r.repository
    ensures Pinned(path, r)
  {
  }

  /** What comes out of parsing is what the string spells. */
  lemma ParsedSpells(rules: Rules, s: string, r: Reference)
    requires Sane(rules) && ParseReference(rules, s) == Some(r)
    ensures Valid(rules, r) && Spells(rules, s, r)
  {
    var slash := Index(s, '/');
    CutAt(s, slash);
    ParsedPath(rules, s[..slash], s[slash + 1..], r);
    hide ParsePath, Path, Valid;
    assert s == r.registry + ['/'] + s[slash + 1..];
  }

  lemma PathParses(rules: Rules, path: string, r: Reference)
    requires Sane(rules) && Valid(rules, r) && Path(rules, path, r)
    ensures ParseReference(rules, r.registry + ['/'] + path) == Some(r)
  {
    Cut(r.registry, '/', path);
    if (r.reference == "" || rules.digest(r.reference)) && Pinned(path, r) {
      var front :| path == front + ['@'] + r.reference && '@' !in front && Before(front, ':') == r.repository;
      Cut(front, '@', r.reference);
    } else if path == r.repository && r.reference == "" {
      assert Index(path, '@') == -1 && Index(path, ':') == -1;
    } else {
      Cut(r.repository, ':', r.reference);
      assert '@' !in path;
    }
  }

  /** Every printed reference starts with the registry, and is the registry alone exactly if there is no repository. */
  lemma PrintsRegistryFirst(rules: Rules, r: Reference)
    ensures r.registry <= Print(rules, r) && (Print(rules, r) == r.registry <==> r.repository == "")
  {
    var base := r.registry + ['/'] + r.repository;
    assert r.registry <= base && |base| > |r.registry|;
    assert base <= base + [':'] + r.reference && base <= base + ['@'] + r.reference;
  }

  /** Parsing accepts exactly the spellings of valid references. */
  lemma ParseIffSpells(rules: Rules, s: string, r: Reference)
    requires Sane(rules)
    ensures ParseReference(rules, s) == Some(r) <==> Valid(rules, r) && Spells(rules, s, r)
  {
    if ParseReference(rules, s) == Some(r) {
      ParsedSpells(rules, s, r);
    }
    if Valid(rules, r) && Spells(rules, s, r) {
      var path :| s == r.registry + ['/'] + path && Path(rules, path, r);
      PathParses(rules, path, r);
    }
  }

  lemma Regroup(a: string, b: string, c: char, d: string)
    ensures a + ['/'] + b + [c] + d == a + ['/'] + (b + [c] + d)
  {
  }

  /** A valid reference reads back as itself after printing. */
  lemma PrintParses(rules: Rules, r: Reference)
    requires Sane(rules) && Valid(rules, r)
    ensures ParseReference(rules, Print(rules, r)) == Some(r)
  {
    var separator := if rules.digest(r.reference) then '@' else ':';
    var path := if r.reference == "" then r.repository else r.repository + [separator] + r.reference;
    Regroup(r.registry, r.repository, separator, r.reference);
    assert Print(rules, r) == r.registry + ['/'] + path;
    if r.reference != "" && rules.digest(r.reference) {
      PinnedBy(path, r.repository, r);
    }
    assert Path(rules, path, r);
    hide Print, Path, Valid, ParseReference;
    PathParses(rules, path, r);
  }

  /** Printing what was parsed gives a string with the same meaning. */
  lemma Canonical(rules: Rules, s: string)
    requires Sane(rules) && ParseReference(rules, s).Some?
    ensures ParseReference(rules, Print(rules, ParseReference(rules, s).value)) == ParseReference(rules, s)
  {
    ParsedSpells(rules, s, ParseReference(rules, s).value);
    PrintParses(rules, ParseReference(rules, s).value);
  }
}
