/** Properties of the whole navigation bar: when a table of items can highlight two
    links at once, and when it never does. */
module Highlight {
  import opened Wrappers
  import opened Types
  import opened ActiveLink
  import opened Navigation

  /** No two distinct items of the table can be highlighted on the same route. */
  predicate Unambiguous(items: seq<NavigationItem>)
  {
    forall i, j :: 0 <= i < |items| && 0 <= j < |items| && i != j ==>
      !Conflict(items[i].href, items[j].href)
  }

  /** At most one link of a rendered list is highlighted. */
  predicate AtMostOneActive(links: seq<LinkView>)
  {
    forall i, j :: 0 <= i < |links| && 0 <= j < |links| && links[i].active && links[j].active ==> i == j
  }

  /** An unambiguous table highlights at most one link on every route. */
  lemma UnambiguousHighlightsAtMostOne(items: seq<NavigationItem>, path: Option<string>)
    requires Unambiguous(items)
    ensures AtMostOneActive(Links(items, path))
  {
    var links := Links(items, path);
    forall i, j | 0 <= i < |links| && 0 <= j < |links| && links[i].active && links[j].active
      ensures i == j
    {
      if i != j {
        ExclusiveWithoutConflict(path, items[i].href, items[j].href);
      }
    }
  }

  /** Two distinct conflicting items are both highlighted on their shared route, so
      that route breaks the at-most-one guarantee. */
  lemma ConflictHighlightsTwo(items: seq<NavigationItem>, m: nat, n: nat)
    requires m < |items| && n < |items| && m != n
    requires Conflict(items[m].href, items[n].href)
    ensures Links(items, Some(SharedPath(items[m].href, items[n].href)))[m].active
    ensures Links(items, Some(SharedPath(items[m].href, items[n].href)))[n].active
    ensures !AtMostOneActive(Links(items, Some(SharedPath(items[m].href, items[n].href))))
  {
    ConflictHasSharedPath(items[m].href, items[n].href);
    var path := Some(SharedPath(items[m].href, items[n].href));
    LinkFlag(items, path, m);
    LinkFlag(items, path, n);
  }

  /** A table is unambiguous exactly when every route highlights at most one link. */
  lemma UnambiguousIffAtMostOne(items: seq<NavigationItem>)
    ensures Unambiguous(items) <==> forall path: Option<string> :: AtMostOneActive(Links(items, path))
  {
    if Unambiguous(items) {
      forall path: Option<string> ensures AtMostOneActive(Links(items, path)) {
        UnambiguousHighlightsAtMostOne(items, path);
      }
    } else {
      var i, j :| 0 <= i < |items| && 0 <= j < |items| && i != j && Conflict(items[i].href, items[j].href);
      ConflictHighlightsTwo(items, i, j);
      assert !AtMostOneActive(Links(items, Some(SharedPath(items[i].href, items[j].href))));
    }
  }
}
