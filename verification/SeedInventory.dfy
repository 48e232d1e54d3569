/** The account read through paged listings, as the seeding program reads it. */
module SeedInventory {
  import opened Wrappers
  import opened Portfolio
  import opened DemoServer
  import opened Pagination
  import opened Seeder
  import opened SeedRun

  /** How a service cuts a duplicate-free list into pages. */
  ghost predicate Pages<T(!new)>(load: Loader<T>, items: seq<T>, identity: T -> string, count: nat) {
    && DistinctBy(items, identity)
    && exists parts, cursors :: Serves(load, parts, cursors) && Flatten(parts) == items && |parts| == count
  }

  /** The eight listings, each with the identity its items are told apart by. */
  datatype Listings = Listings(
    spaces: Loader<Space>,
    tags: Loader<Tag>,
    notes: Loader<Note>,
    deletedNotes: Loader<Note>,
    captures: Loader<string>,
    openReviews: Loader<string>,
    resolvedReviews: Loader<string>,
    dismissedReviews: Loader<string>,
    spaceId: Space -> string,
    tagId: Tag -> string,
    noteId: Note -> string)

  function Itself(id: string): string {
    id
  }

  /** What an account holds besides fixtures, item by item; captures and reviews are known by their ids. */
  datatype Strangers = Strangers(
    deletedNotes: seq<Note>,
    captures: seq<string>,
    openReviews: seq<string>,
    resolvedReviews: seq<string>,
    dismissedReviews: seq<string>)

  predicate CountedBy(held: Strangers, foreign: Foreign) {
    && foreign.deletedNotes == |held.deletedNotes|
    && foreign.captures == |held.captures|
    && foreign.reviewItems == |held.openReviews| + |held.resolvedReviews| + |held.dismissedReviews|
  }

  /** The service serves every listing of the account, in that many pages each. */
  ghost predicate Lists(listings: Listings, a: Account, held: Strangers, pages: seq<nat>) {
    && |pages| == 8 && CountedBy(held, a.foreign)
    && Pages(listings.spaces, a.spaces, listings.spaceId, pages[0])
    && Pages(listings.tags, a.tags, listings.tagId, pages[1])
    && Pages(listings.notes, a.notes, listings.noteId, pages[2])
    && Pages(listings.deletedNotes, held.deletedNotes, listings.noteId, pages[3])
    && Pages(listings.captures, held.captures, Itself, pages[4])
    && Pages(listings.openReviews, held.openReviews, Itself, pages[5])
    && Pages(listings.resolvedReviews, held.resolvedReviews, Itself, pages[6])
    && Pages(listings.dismissedReviews, held.dismissedReviews, Itself, pages[7])
  }

  method ReadListing<T(!new)>(load: Loader<T>, identity: T -> string, ghost items: seq<T>, ghost count: nat)
    returns (r: Result<seq<T>>)
    requires Pages(load, items, identity, count)
    ensures r.Ok? <==> count <= 100
    ensures r.Ok? ==> r.value == items
  {
    hide Serves, Flatten, DistinctBy;
    ghost var parts, cursors :| Serves(load, parts, cursors) && Flatten(parts) == items && |parts| == count;
    r := ReadServed(load, identity, parts, cursors);
  }

  /**
    The inventory check over paged listings is the check on the account itself when every listing has at
    most a hundred pages, and is refused otherwise.
   */
  method ReadExpectedByPages(listings: Listings, routingRules: nat, providerKey: bool, m: Manifest, ghost a: Account,
                             ghost held: Strangers, ghost pages: seq<nat>)
    returns (r: Result<Existing>)
    requires 0 < |m.notes| && Lists(listings, a, held, pages)
    requires routingRules == a.foreign.routingRules && providerKey == a.foreign.providerKey
    ensures if forall k | 0 <= k < 8 :: pages[k] <= 100 then r == ExpectedMaps(m, a) else r.Err?
  {
    hide ExpectedMaps, Pages;
    var spaces :- ReadListing(listings.spaces, listings.spaceId, a.spaces, pages[0]);
    var tags :- ReadListing(listings.tags, listings.tagId, a.tags, pages[1]);
    var notes :- ReadListing(listings.notes, listings.noteId, a.notes, pages[2]);
    var deletedNotes :- ReadListing(listings.deletedNotes, listings.noteId, held.deletedNotes, pages[3]);
    var captures :- ReadListing(listings.captures, Itself, held.captures, pages[4]);
    var open :- ReadListing(listings.openReviews, Itself, held.openReviews, pages[5]);
    var resolved :- ReadListing(listings.resolvedReviews, Itself, held.resolvedReviews, pages[6]);
    var dismissed :- ReadListing(listings.dismissedReviews, Itself, held.dismissedReviews, pages[7]);
    var foreign := Foreign(|captures|, |deletedNotes|, |open + resolved + dismissed|, routingRules, providerKey);
    r := CheckInventory(Inventory(spaces, tags, notes, foreign), m, a);
  }
}
