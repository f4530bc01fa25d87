/** The active-link resolver of the navigation bar: given the current route (possibly
    absent) and an item's href, decides whether the item is highlighted. */
module ActiveLink {
  import opened Wrappers
  import opened Types

  /** Character-by-character prefix test, as a string's `startsWith` performs it:
      every leading character of `prefix` must equal the character of `s` at the
      same position. */
  function StartsWith(s: string, prefix: string): bool
    decreases |prefix|
  {
    if |prefix| == 0 then true
    else if |s| == 0 then false
    else s[0] == prefix[0] && StartsWith(s[1..], prefix[1..])
  }

  /** `StartsWith` is exactly the sequence-prefix relation, in both directions. */
  lemma {:induction false} StartsWithIsPrefix(s: string, prefix: string)
    ensures StartsWith(s, prefix) <==> prefix <= s
    decreases |prefix|
  {
    if |prefix| == 0 || |s| == 0 {
    } else {
      StartsWithIsPrefix(s[1..], prefix[1..]);
      if prefix <= s {
        assert prefix[1..] <= s[1..];
      }
    }
  }

  /** A route value the routing layer reports as present: neither absent nor the
      empty string (an empty string is falsy and is treated like an absent route). */
  predicate HasPath(path: Option<string>)
  {
    path.Some? && path.value != ""
  }

  /** Whether the item with the given href is highlighted on the given route.
      Total: an absent or empty route highlights nothing; the root href matches
      the root route only; any other href matches every route it is a prefix of. */
  function IsActive(path: Option<string>, href: string): (r: bool)
    ensures !HasPath(path) ==> !r
    ensures href == Root ==> (r <==> path == Some(Root))
    ensures href != Root ==> (r <==> HasPath(path) && href <= path.value)
  {
    if !HasPath(path) then false
    else if href == Root then path.value == Root
    else
      StartsWithIsPrefix(path.value, href);
      StartsWith(path.value, href)
  }

  /** Two hrefs that can be highlighted together on some route. */
  predicate Conflict(a: string, b: string)
  {
    if a == Root then b == Root || b == ""
    else if b == Root then a == ""
    else a <= b || b <= a
  }

  /** A route on which two conflicting hrefs are both highlighted. */
  function SharedPath(a: string, b: string): string
  {
    if a == Root || b == Root then Root
    else if |a| <= |b| then (if b == "" then Root else b)
    else a
  }

  /** Two prefixes of the same string are prefixes of one another. */
  lemma PrefixesComparable(a: string, b: string, s: string)
    requires a <= s && b <= s
    ensures a <= b || b <= a
  {
    if |a| <= |b| {
      assert a == s[..|a|] == b[..|a|];
    } else {
      assert b == s[..|b|] == a[..|b|];
    }
  }

  /** Hrefs that do not conflict are never highlighted on the same route. */
  lemma ExclusiveWithoutConflict(path: Option<string>, a: string, b: string)
    requires !Conflict(a, b)
    ensures !(IsActive(path, a) && IsActive(path, b))
  {
    if IsActive(path, a) && IsActive(path, b) {
      if a != Root && b != Root {
        PrefixesComparable(a, b, path.value);
      }
    }
  }

  /** Conflicting hrefs are both highlighted on `SharedPath`. */
  lemma ConflictHasSharedPath(a: string, b: string)
    requires Conflict(a, b)
    ensures IsActive(Some(SharedPath(a, b)), a) && IsActive(Some(SharedPath(a, b)), b)
  {
    if a != Root && b != Root && |a| <= |b| && b != "" {
      if b <= a {
        assert |a| == |b|;
      }
    }
  }

  /** `Conflict` holds exactly when some route highlights both hrefs. */
  lemma ConflictIffSharedRoute(a: string, b: string)
    ensures Conflict(a, b) <==> exists path: Option<string> :: IsActive(path, a) && IsActive(path, b)
  {
    if Conflict(a, b) {
      ConflictHasSharedPath(a, b);
    } else {
      forall path: Option<string> ensures !(IsActive(path, a) && IsActive(path, b)) {
        ExclusiveWithoutConflict(path, a, b);
      }
    }
  }

  /** The root item is highlighted on the root route. */
  lemma ScenarioRootOnRoot()
    ensures IsActive(Some("/"), "/")
  {
  }

  /** The root item is not highlighted on a section route. */
  lemma ScenarioRootOnSection()
    ensures !IsActive(Some("/components"), "/")
  {
    assert "/components" != Root by { assert |"/components"| != |Root|; }
  }

  /** A section item is highlighted on a deeper route of that section. */
  lemma ScenarioSectionOnDeeperRoute()
    ensures IsActive(Some("/docs/getting-started"), "/docs")
  {
    assert "/docs" == "/docs/getting-started"[..5];
  }

  /** The prefix-overlap caveat: a sibling route that merely shares the href as a
      prefix is highlighted too, although it is not inside the section. */
  lemma ScenarioPrefixOverlap()
    ensures IsActive(Some("/docsearch"), "/docs")
  {
    assert "/docs" == "/docsearch"[..5];
  }

  /** `/documentation` diverges from `/docs` at its fifth character, so it does not
      highlight the docs item. */
  lemma ScenarioDocumentationNotDocs()
    ensures !IsActive(Some("/documentation"), "/docs")
  {
    assert "/documentation"[4] != "/docs"[4];
  }
}
