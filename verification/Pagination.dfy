/** Reading a whole listing page by page. */
module Pagination {
  import opened Wrappers

  datatype Page<+T> = Page(items: seq<T>, hasMore: bool, nextCursor: Option<string>)

  /** `load(k, c)` is the page the service returns to the k-th request, made with cursor `c`. */
  type Loader<!T> = (nat, Option<string>) -> Page<T>

  const MAX_PAGES := 100

  /** The cursor of the k-th request of a client that follows cursors. */
  function CursorAt<T>(load: Loader<T>, k: nat): Option<string>
    decreases k, 0
  {
    if k == 0 then None else PageAt(load, k - 1).nextCursor
  }

  function PageAt<T>(load: Loader<T>, k: nat): Page<T>
    decreases k, 1
  {
    load(k, CursorAt(load, k))
  }

  /** The items of the first `n` pages, in order. */
  function ItemsTo<T>(load: Loader<T>, n: nat): seq<T> {
    if n == 0 then [] else ItemsTo(load, n - 1) + PageAt(load, n - 1).items
  }

  ghost predicate DistinctBy<T>(items: seq<T>, identity: T -> string) {
    forall i, j | 0 <= i < j < |items| :: identity(items[i]) != identity(items[j])
  }

  /** The first `n` pages all continue, with cursors never used before, and repeat no item. */
  ghost predicate Continues<T>(load: Loader<T>, identity: T -> string, n: nat) {
    && DistinctBy(ItemsTo(load, n), identity)
    && (forall k | 0 <= k < n :: PageAt(load, k).hasMore && PageAt(load, k).nextCursor.Some?)
    && (forall j, k | 0 <= j < k < n :: PageAt(load, j).nextCursor != PageAt(load, k).nextCursor)
  }

  /** Page `n` is the last of a well-behaved listing. */
  ghost predicate Ends<T>(load: Loader<T>, identity: T -> string, n: nat) {
    && Continues(load, identity, n)
    && DistinctBy(ItemsTo(load, n + 1), identity)
    && !PageAt(load, n).hasMore && PageAt(load, n).nextCursor.None?
  }

  /** The items grow with the pages. */
  lemma {:induction false} ItemsPrefix<T>(load: Loader<T>, m: nat, n: nat)
    requires m <= n
    ensures ItemsTo(load, m) <= ItemsTo(load, n)
    decreases n
  {
    if m < n {
      ItemsPrefix(load, m, n - 1);
    }
  }

  lemma DistinctPrefix<T>(whole: seq<T>, part: seq<T>, identity: T -> string)
    requires part <= whole && DistinctBy(whole, identity)
    ensures DistinctBy(part, identity)
  {
    assert forall k | 0 <= k < |part| :: part[k] == whole[k];
  }

  /** A listing that breaks a rule within its first `n` pages has no well-behaved end from there on. */
  lemma BreaksFor<T>(load: Loader<T>, identity: T -> string, n: nat, e: nat)
    requires n <= e && Ends(load, identity, e)
    ensures Continues(load, identity, n) && DistinctBy(ItemsTo(load, n + 1), identity)
    ensures n < e ==> Continues(load, identity, n + 1)
  {
    ItemsPrefix(load, n + 1, e + 1);
    DistinctPrefix(ItemsTo(load, e + 1), ItemsTo(load, n + 1), identity);
    ItemsPrefix(load, n, e + 1);
    DistinctPrefix(ItemsTo(load, e + 1), ItemsTo(load, n), identity);
  }

  function Ids<T>(items: seq<T>, identity: T -> string): set<string> {
    set i | 0 <= i < |items| :: identity(items[i])
  }

  lemma OneMore<T>(items: seq<T>, item: T, identity: T -> string)
    requires DistinctBy(items, identity)
    ensures DistinctBy(items + [item], identity) <==> identity(item) !in Ids(items, identity)
    ensures Ids(items + [item], identity) == Ids(items, identity) + {identity(item)}
  {
    var more := items + [item];
    assert forall i | 0 <= i < |items| :: identity(more[i]) == identity(items[i]);
    assert identity(more[|items|]) == identity(item);
    if identity(item) in Ids(items, identity) {
      var i :| 0 <= i < |items| && identity(items[i]) == identity(item);
      assert identity(more[i]) == identity(more[|items|]);
    }
    forall x | x in Ids(more, identity) ensures x in Ids(items, identity) + {identity(item)} {
      var i :| 0 <= i < |more| && identity(more[i]) == x;
      if i < |items| {
        assert identity(items[i]) == x;
      }
    }
    forall x | x in Ids(items, identity) ensures x in Ids(more, identity) {
      var i :| 0 <= i < |items| && identity(items[i]) == x;
      assert identity(more[i]) == x;
    }
  }

  /** Adds one page's items to those collected, unless one was seen before. */
  method TakePage<T>(before: seq<T>, seenBefore: set<string>, page: seq<T>, identity: T -> string)
    returns (unseen: bool, items: seq<T>, seen: set<string>)
    requires DistinctBy(before, identity) && seenBefore == Ids(before, identity)
    ensures unseen <==> DistinctBy(before + page, identity)
    ensures unseen ==> items == before + page && seen == Ids(items, identity)
  {
    items, seen := before, seenBefore;
    for i := 0 to |page|
      invariant items == before + page[..i]
      invariant DistinctBy(items, identity) && seen == Ids(items, identity)
    {
      var id := identity(page[i]);
      OneMore(items, page[i], identity);
      assert items + [page[i]] == before + page[..i + 1];
      if id in seen {
        if DistinctBy(before + page, identity) {
          DistinctPrefix(before + page, before + page[..i + 1], identity);
        }
        return false, items, seen;
      }
      seen := seen + {id};
      items := items + [page[i]];
    }
    assert page[..|page|] == page;
    unseen := true;
  }

  function CursorsTo<T>(load: Loader<T>, n: nat): set<Option<string>> {
    set k | 0 <= k < n :: PageAt(load, k).nextCursor
  }

  lemma ContinuesNext<T>(load: Loader<T>, identity: T -> string, n: nat)
    requires Continues(load, identity, n)
    ensures Continues(load, identity, n + 1) <==>
            && DistinctBy(ItemsTo(load, n + 1), identity)
            && PageAt(load, n).hasMore && PageAt(load, n).nextCursor.Some?
            && PageAt(load, n).nextCursor !in CursorsTo(load, n)
  {
    hide DistinctBy;
  }

  /** What the next page decides: whether the listing goes on, and whether it ends well. */
  lemma PageStep<T>(load: Loader<T>, identity: T -> string, n: nat)
    requires Continues(load, identity, n)
    ensures PageAt(load, n) == load(n, CursorAt(load, n)) && CursorAt(load, n + 1) == PageAt(load, n).nextCursor
    ensures ItemsTo(load, n + 1) == ItemsTo(load, n) + PageAt(load, n).items
    ensures CursorsTo(load, n + 1) == CursorsTo(load, n) + {PageAt(load, n).nextCursor}
    ensures DistinctBy(ItemsTo(load, n), identity)
    ensures Continues(load, identity, n + 1) <==>
            && DistinctBy(ItemsTo(load, n + 1), identity)
            && PageAt(load, n).hasMore && PageAt(load, n).nextCursor.Some?
            && PageAt(load, n).nextCursor !in CursorsTo(load, n)
    ensures Ends(load, identity, n) <==>
            && DistinctBy(ItemsTo(load, n + 1), identity)
            && !PageAt(load, n).hasMore && PageAt(load, n).nextCursor.None?
  {
    hide DistinctBy;
    ContinuesNext(load, identity, n);
  }

  lemma NothingYet<T>(load: Loader<T>, identity: T -> string)
    ensures Continues(load, identity, 0) && Ids(ItemsTo(load, 0), identity) == {} && CursorsTo(load, 0) == {}
  {
  }

  /** A listing has at most one well-behaved end. */
  lemma EndsOnce<T>(load: Loader<T>, identity: T -> string, d: nat, e: nat)
    requires Ends(load, identity, d) && Ends(load, identity, e)
    ensures d == e
  {
    hide DistinctBy;
  }

  /** Follows cursors until the listing ends, checking every page. */
  method CollectPages<T>(load: Loader<T>, identity: T -> string) returns (r: Result<seq<T>>, loads: nat)
    ensures loads <= 100
    ensures r.Ok? ==> loads > 0 && Ends(load, identity, loads - 1) && r.value == ItemsTo(load, loads)
    ensures r.Err? ==> forall e | 0 <= e < 100 :: !Ends(load, identity, e)
  {
    hide DistinctBy, Ids, Continues, Ends, PageAt, CursorsTo;
    NothingYet(load, identity);
    var items: seq<T>, seenItems: set<string>, seenCursors: set<Option<string>> := [], {}, {};
    var cursor: Option<string> := None;
    loads := 0;
    while loads < MAX_PAGES
      invariant loads <= MAX_PAGES
      invariant cursor == CursorAt(load, loads)
      invariant items == ItemsTo(load, loads) && seenItems == Ids(items, identity)
      invariant Continues(load, identity, loads) && seenCursors == CursorsTo(load, loads)
      invariant forall e | 0 <= e < loads :: !Ends(load, identity, e)
    {
      var page := load(loads, cursor);
      PageStep(load, identity, loads);
      var unseen;
      unseen, items, seenItems := TakePage(items, seenItems, page.items, identity);
      loads := loads + 1;
      if !unseen {
        NeverEnds(load, identity, loads - 1);
        return Err("duplicate_inventory_item"), loads;
      }
      if !page.hasMore {
        if page.nextCursor.Some? {
          NeverEnds(load, identity, loads - 1);
          return Err("invalid_pagination"), loads;
        }
        return Ok(items), loads;
      }
      if page.nextCursor.None? || page.nextCursor in seenCursors {
        NeverEnds(load, identity, loads - 1);
        return Err("invalid_pagination"), loads;
      }
      seenCursors := seenCursors + {page.nextCursor};
      cursor := page.nextCursor;
    }
    return Err("pagination_limit_exceeded"), loads;
  }

  lemma NeverEnds<T>(load: Loader<T>, identity: T -> string, n: nat)
    requires forall e | 0 <= e < n :: !Ends(load, identity, e)
    requires !Ends(load, identity, n)
    requires !DistinctBy(ItemsTo(load, n + 1), identity) || !Continues(load, identity, n + 1)
    ensures forall e: nat :: !Ends(load, identity, e)
  {
    forall e: nat ensures !Ends(load, identity, e) {
      if Ends(load, identity, e) && n < e {
        BreaksFor(load, identity, n, e);
      }
    }
  }

  // ----- a service that keeps its promise -----

  function Flatten<T>(parts: seq<seq<T>>): seq<T> {
    if parts == [] then [] else Flatten(parts[..|parts| - 1]) + parts[|parts| - 1]
  }

  /** The listing is cut into `parts`, each but the last pointing to the next by its own cursor. */
  ghost predicate Serves<T>(load: Loader<T>, parts: seq<seq<T>>, cursors: seq<string>) {
    && |parts| == |cursors| + 1
    && (forall j, k | 0 <= j < k < |cursors| :: cursors[j] != cursors[k])
    && (forall k | 0 <= k < |parts| ::
          load(k, if k == 0 then None else Some(cursors[k - 1]))
          == Page(parts[k], k < |cursors|, if k < |cursors| then Some(cursors[k]) else None))
  }

  lemma {:induction false} ServedPage<T>(load: Loader<T>, parts: seq<seq<T>>, cursors: seq<string>, k: nat)
    requires Serves(load, parts, cursors) && k < |parts|
    ensures CursorAt(load, k) == if k == 0 then None else Some(cursors[k - 1])
    ensures PageAt(load, k) == Page(parts[k], k < |cursors|, if k < |cursors| then Some(cursors[k]) else None)
  {
    var cursor := if k == 0 then None else Some(cursors[k - 1]);
    if k > 0 {
      ServedPage(load, parts, cursors, k - 1);
      assert CursorAt(load, k) == PageAt(load, k - 1).nextCursor == Some(cursors[k - 1]);
    }
    assert CursorAt(load, k) == cursor;
    assert PageAt(load, k) == load(k, cursor);
    assert parts[k] == load(k, cursor).items;
  }

  lemma {:induction false} ServedItems<T>(load: Loader<T>, parts: seq<seq<T>>, cursors: seq<string>, n: nat)
    requires Serves(load, parts, cursors) && n <= |parts|
    ensures ItemsTo(load, n) == Flatten(parts[..n])
  {
    if n > 0 {
      ServedItems(load, parts, cursors, n - 1);
      ServedPage(load, parts, cursors, n - 1);
      assert parts[..n][..n - 1] == parts[..n - 1];
    }
  }

  lemma ServedListingContinues<T>(load: Loader<T>, identity: T -> string, parts: seq<seq<T>>, cursors: seq<string>)
    requires Serves(load, parts, cursors) && DistinctBy(ItemsTo(load, |parts| - 1), identity)
    ensures Continues(load, identity, |parts| - 1)
  {
    hide DistinctBy, ItemsTo;
    var n := |parts| - 1;
    forall k | 0 <= k < n ensures PageAt(load, k).nextCursor == Some(cursors[k]) && PageAt(load, k).hasMore {
      ServedPage(load, parts, cursors, k);
    }
    forall j, k | 0 <= j < k < n ensures PageAt(load, j).nextCursor != PageAt(load, k).nextCursor {
      assert cursors[j] != cursors[k];
    }
  }

  /** Such a listing, without duplicates, ends at its last page and yields exactly its items. */
  lemma ServedListingEnds<T>(load: Loader<T>, identity: T -> string, parts: seq<seq<T>>, cursors: seq<string>)
    requires Serves(load, parts, cursors) && DistinctBy(Flatten(parts), identity)
    ensures Ends(load, identity, |parts| - 1)
    ensures ItemsTo(load, |parts|) == Flatten(parts)
  {
    hide DistinctBy, Flatten, ItemsTo;
    ServedPage(load, parts, cursors, |parts| - 1);
    ServedItems(load, parts, cursors, |parts|);
    assert parts[..|parts|] == parts;
    ItemsPrefix(load, |parts| - 1, |parts|);
    DistinctPrefix(ItemsTo(load, |parts|), ItemsTo(load, |parts| - 1), identity);
    ServedListingContinues(load, identity, parts, cursors);
  }

  /** Reading it succeeds exactly when it has at most a hundred pages. */
  method ReadServed<T>(load: Loader<T>, identity: T -> string, ghost parts: seq<seq<T>>, ghost cursors: seq<string>)
    returns (r: Result<seq<T>>)
    requires Serves(load, parts, cursors) && DistinctBy(Flatten(parts), identity)
    ensures r.Ok? <==> |parts| <= 100
    ensures r.Ok? ==> r.value == Flatten(parts)
  {
    ServedListingEnds(load, identity, parts, cursors);
    var loads;
    r, loads := CollectPages(load, identity);
    if r.Ok? {
      EndsOnce(load, identity, loads - 1, |parts| - 1);
    }
  }
}
