/** The portfolio itself, read off manifest and account field by field, and the checks measured against it. */
module SeedPortfolio {
  import opened Wrappers
  import opened Portfolio
  import opened DemoServer
  import opened Seeder
  import opened SeedMeaning
  import opened SeedProgress
  import D = SeedDelays
  import T = SeedTheorems

  // ----- what refers to what -----

  /** The account's space named as the manifest space with this key. */
  ghost predicate SpaceIs(m: Manifest, a: Account, key: string, s: Space) {
    exists i, k | 0 <= i < |m.spaces| && 0 <= k < |a.spaces| ::
      m.spaces[i].key == key && a.spaces[k] == s && s.name == m.spaces[i].name
  }

  ghost predicate TagIs(m: Manifest, a: Account, key: string, t: Tag) {
    exists i, k | 0 <= i < |m.tags| && 0 <= k < |a.tags| ::
      m.tags[i].key == key && a.tags[k] == t && t.name == m.tags[i].name
  }

  ghost predicate NoteIs(m: Manifest, a: Account, key: string, n: Note) {
    exists i, k | 0 <= i < |m.notes| && 0 <= k < |a.notes| ::
      m.notes[i].key == key && a.notes[k] == n && n.title == m.notes[i].title
  }

  ghost predicate InItsSpace(m: Manifest, a: Account, spec: NoteSpec, n: Note) {
    match spec.space
    case None => n.spaceId == None
    case Some(key) => exists s :: SpaceIs(m, a, key, s) && n.spaceId == Some(s.id)
  }

  ghost predicate UnderItsTags(m: Manifest, a: Account, spec: NoteSpec, n: Note) {
    exists tags: seq<Tag> ::
      && |tags| == |spec.tags| && (forall t | 0 <= t < |tags| :: TagIs(m, a, spec.tags[t], tags[t]))
      && multiset(n.tagIds) == multiset(Ids(tags))
  }

  function Ids(tags: seq<Tag>): seq<nat> {
    seq(|tags|, t requires 0 <= t < |tags| => tags[t].id)
  }

  ghost predicate LinkedAsPlanned(m: Manifest, a: Account, spec: NoteSpec, n: Note) {
    match spec.linkTo
    case None => n.links == []
    case Some(key) => exists to :: NoteIs(m, a, key, to) && n.links == [Link("related", to.id)]
  }

  /** The note holds what the manifest says, in this body, revision and structure. */
  ghost predicate Filed(m: Manifest, a: Account, spec: NoteSpec, n: Note, body: string, revision: nat,
                        structured: Structured) {
    && n.title == spec.title && n.noteType == spec.noteType && n.privacy == spec.privacy
    && n.body == body && n.revision == revision && n.structured == structured
    && !n.archived && !n.deleted
    && InItsSpace(m, a, spec, n) && UnderItsTags(m, a, spec, n) && LinkedAsPlanned(m, a, spec, n)
  }

  /** As it is in the end: with its second body where it has one. */
  ghost predicate FiledForGood(m: Manifest, a: Account, spec: NoteSpec, n: Note) {
    match spec.updateBody
    case None => Filed(m, a, spec, n, spec.body, 1, spec.structured)
    case Some(second) => Filed(m, a, spec, n, second, 2, spec.structured)
  }

  /** As it may be found on the way: created, its second body still to come. */
  ghost predicate FiledAtFirst(m: Manifest, a: Account, spec: NoteSpec, n: Note) {
    spec.updateBody.Some? && Filed(m, a, spec, n, spec.body, 1, Entries([]))
  }

  // ----- what the account holds -----

  /** No captures, deleted notes, review items, rules or provider keys. */
  predicate NothingForeign(f: Foreign) {
    f.captures == 0 && f.deletedNotes == 0 && f.reviewItems == 0 && f.routingRules == 0 && !f.providerKey
  }

  ghost predicate SpacePlanned(m: Manifest, name: string) {
    exists i | 0 <= i < |m.spaces| :: m.spaces[i].name == name
  }

  ghost predicate TagPlanned(m: Manifest, name: string) {
    exists i | 0 <= i < |m.tags| :: m.tags[i].name == name
  }

  ghost predicate NotePlanned(m: Manifest, title: string) {
    exists i | 0 <= i < |m.notes| :: m.notes[i].title == title
  }

  /** Every space, tag and note is named in the manifest, and no two of a kind share a name. */
  ghost predicate OnlyNamed(m: Manifest, a: Account) {
    && (forall k | 0 <= k < |a.spaces| :: SpacePlanned(m, a.spaces[k].name))
    && (forall j, k | 0 <= j < k < |a.spaces| :: a.spaces[j].name != a.spaces[k].name)
    && (forall k | 0 <= k < |a.tags| :: TagPlanned(m, a.tags[k].name))
    && (forall j, k | 0 <= j < k < |a.tags| :: a.tags[j].name != a.tags[k].name)
    && (forall k | 0 <= k < |a.notes| :: NotePlanned(m, a.notes[k].title))
    && (forall j, k | 0 <= j < k < |a.notes| :: a.notes[j].title != a.notes[k].title)
  }

  /** Spaces stand at the top, unarchived, in their order. */
  ghost predicate SpacesInPlace(m: Manifest, a: Account) {
    forall k, i | 0 <= k < |a.spaces| && 0 <= i < |m.spaces| && a.spaces[k].name == m.spaces[i].name ::
      a.spaces[k].parentId == None && !a.spaces[k].archived && a.spaces[k].sortKey == m.spaces[i].sortKey
  }

  ghost predicate HasSpace(a: Account, name: string) {
    exists k | 0 <= k < |a.spaces| :: a.spaces[k].name == name
  }

  ghost predicate HasTag(a: Account, name: string) {
    exists k | 0 <= k < |a.tags| :: a.tags[k].name == name
  }

  ghost predicate HasNote(a: Account, title: string) {
    exists k | 0 <= k < |a.notes| :: a.notes[k].title == title
  }

  /** What preflight is to accept. */
  ghost predicate Beginning(m: Manifest, a: Account)
    requires 0 < |m.notes|
  {
    && NothingForeign(a.foreign) && OnlyNamed(m, a) && SpacesInPlace(m, a)
    && (a.spaces != [] || a.tags != [] || a.notes != [] ==> HasNote(a, m.notes[0].title))
    && forall i, k | 0 <= i < |m.notes| && 0 <= k < |a.notes| && a.notes[k].title == m.notes[i].title ::
         FiledForGood(m, a, m.notes[i], a.notes[k]) || FiledAtFirst(m, a, m.notes[i], a.notes[k])
  }

  /** What the final census is to accept: each fixture once, as planned, and nothing besides. */
  ghost predicate IsPortfolio(m: Manifest, a: Account) {
    && NothingForeign(a.foreign) && OnlyNamed(m, a) && SpacesInPlace(m, a)
    && (forall i | 0 <= i < |m.spaces| :: HasSpace(a, m.spaces[i].name))
    && (forall i | 0 <= i < |m.tags| :: HasTag(a, m.tags[i].name))
    && (forall i | 0 <= i < |m.notes| :: HasNote(a, m.notes[i].title))
    && (forall i, k | 0 <= i < |m.notes| && 0 <= k < |a.notes| && a.notes[k].title == m.notes[i].title ::
          FiledForGood(m, a, m.notes[i], a.notes[k]))
    && a.settings.locale == m.settings.locale && a.settings.timezone == m.settings.timezone
  }

  // ----- names -----

  ghost predicate PairNamed(pairs: seq<Pair>, name: string) {
    exists i | 0 <= i < |pairs| :: pairs[i].name == name
  }

  lemma NamedMeaning<T(!new)>(items: seq<T>, name: T -> string, pairs: seq<Pair>)
    ensures Named(items, name, Names(pairs)) <==>
              && (forall k | 0 <= k < |items| :: PairNamed(pairs, name(items[k])))
              && (forall j, k | 0 <= j < k < |items| :: name(items[j]) != name(items[k]))
  {
    forall n ensures n in Names(pairs) <==> PairNamed(pairs, n) {
      if n in Names(pairs) {
        var p :| p in pairs && p.name == n;
        var i :| 0 <= i < |pairs| && pairs[i] == p;
      }
      if PairNamed(pairs, n) {
        var i :| 0 <= i < |pairs| && pairs[i].name == n;
        assert pairs[i] in pairs;
      }
    }
  }

  lemma PairNames(m: Manifest, n: string)
    ensures PairNamed(SpacePairs(m), n) <==> SpacePlanned(m, n)
    ensures PairNamed(TagPairs(m), n) <==> TagPlanned(m, n)
    ensures PairNamed(NotePairs(m), n) <==> NotePlanned(m, n)
  {
    assert forall i | 0 <= i < |m.spaces| :: SpacePairs(m)[i].name == m.spaces[i].name;
    assert forall i | 0 <= i < |m.tags| :: TagPairs(m)[i].name == m.tags[i].name;
    assert forall i | 0 <= i < |m.notes| :: NotePairs(m)[i].name == m.notes[i].title;
  }

  lemma OnlyNamedMeaning(m: Manifest, a: Account)
    ensures OnlyNamed(m, a) <==>
              && Named(a.spaces, SpaceName, Names(SpacePairs(m)))
              && Named(a.tags, TagName, Names(TagPairs(m)))
              && Named(a.notes, NoteTitle, Names(NotePairs(m)))
  {
    hide Named, Names, PairNamed, SpacePlanned, TagPlanned, NotePlanned;
    NamedMeaning(a.spaces, SpaceName, SpacePairs(m));
    NamedMeaning(a.tags, TagName, TagPairs(m));
    NamedMeaning(a.notes, NoteTitle, NotePairs(m));
    forall n
      ensures PairNamed(SpacePairs(m), n) <==> SpacePlanned(m, n)
      ensures PairNamed(TagPairs(m), n) <==> TagPlanned(m, n)
      ensures PairNamed(NotePairs(m), n) <==> NotePlanned(m, n)
    {
      PairNames(m, n);
    }
    assert forall k | 0 <= k < |a.spaces| :: SpaceName(a.spaces[k]) == a.spaces[k].name;
    assert forall k | 0 <= k < |a.tags| :: TagName(a.tags[k]) == a.tags[k].name;
    assert forall k | 0 <= k < |a.notes| :: NoteTitle(a.notes[k]) == a.notes[k].title;
  }

  /** Among items named apart, a name finds its own item. */
  lemma NameFinds<T(!new)>(items: seq<T>, name: T -> string, allowed: set<string>, k: nat)
    requires Named(items, name, allowed) && k < |items|
    ensures name(items[k]) in NameMap(items, name) && NameMap(items, name)[name(items[k])] == items[k]
  {
    hide NameMap;
    NameMapFinds(items, name);
  }

  lemma NameFound<T(!new)>(items: seq<T>, name: T -> string, n: string) returns (k: nat)
    requires n in NameMap(items, name)
    ensures k < |items| && items[k] == NameMap(items, name)[n] && name(items[k]) == n
  {
    hide NameMap;
    NameMapFinds(items, name);
    var item := NameMap(items, name)[n];
    k :| k < |items| && items[k] == item;
  }

  // ----- what the client's lookups come to -----

  lemma SpaceLookup(m: Manifest, a: Account, key: string, s: Space)
    requires WellFormed(m) && Named(a.spaces, SpaceName, Names(SpacePairs(m)))
    ensures SpaceIs(m, a, key, s) ==> key in Snapshot(m, a).spaces && Snapshot(m, a).spaces[key] == s
    ensures SpaceDefined(m, key) && key in Snapshot(m, a).spaces ==> SpaceIs(m, a, key, Snapshot(m, a).spaces[key])
  {
    hide NameMap, ByKey, Named, Snapshot;
    SnapshotFinds(m, a);
    if SpaceIs(m, a, key, s) {
      var i, k :| 0 <= i < |m.spaces| && 0 <= k < |a.spaces| &&
        m.spaces[i].key == key && a.spaces[k] == s && s.name == m.spaces[i].name;
      NameFinds(a.spaces, SpaceName, Names(SpacePairs(m)), k);
    }
    if SpaceDefined(m, key) && key in Snapshot(m, a).spaces {
      var i :| 0 <= i < |m.spaces| && m.spaces[i].key == key;
      var k := NameFound(a.spaces, SpaceName, m.spaces[i].name);
      assert m.spaces[i].key == key && a.spaces[k] == Snapshot(m, a).spaces[key];
    }
  }

  lemma TagLookup(m: Manifest, a: Account, key: string, t: Tag)
    requires WellFormed(m) && Named(a.tags, TagName, Names(TagPairs(m)))
    ensures TagIs(m, a, key, t) ==> key in Snapshot(m, a).tags && Snapshot(m, a).tags[key] == t
    ensures TagDefined(m, key) && key in Snapshot(m, a).tags ==> TagIs(m, a, key, Snapshot(m, a).tags[key])
  {
    hide NameMap, ByKey, Named, Snapshot;
    SnapshotFinds(m, a);
    if TagIs(m, a, key, t) {
      var i, k :| 0 <= i < |m.tags| && 0 <= k < |a.tags| &&
        m.tags[i].key == key && a.tags[k] == t && t.name == m.tags[i].name;
      NameFinds(a.tags, TagName, Names(TagPairs(m)), k);
    }
    if TagDefined(m, key) && key in Snapshot(m, a).tags {
      var i :| 0 <= i < |m.tags| && m.tags[i].key == key;
      var k := NameFound(a.tags, TagName, m.tags[i].name);
      assert m.tags[i].key == key && a.tags[k] == Snapshot(m, a).tags[key];
    }
  }

  lemma NoteLookup(m: Manifest, a: Account, key: string, n: Note)
    requires WellFormed(m) && Named(a.notes, NoteTitle, Names(NotePairs(m)))
    ensures NoteIs(m, a, key, n) ==> key in Snapshot(m, a).notes && Snapshot(m, a).notes[key] == n
    ensures (exists i :: 0 <= i < |m.notes| && m.notes[i].key == key) && key in Snapshot(m, a).notes ==>
              NoteIs(m, a, key, Snapshot(m, a).notes[key])
  {
    hide NameMap, ByKey, Named, Snapshot;
    SnapshotFinds(m, a);
    if NoteIs(m, a, key, n) {
      var i, k :| 0 <= i < |m.notes| && 0 <= k < |a.notes| &&
        m.notes[i].key == key && a.notes[k] == n && n.title == m.notes[i].title;
      NameFinds(a.notes, NoteTitle, Names(NotePairs(m)), k);
    }
    if (exists i :: 0 <= i < |m.notes| && m.notes[i].key == key) && key in Snapshot(m, a).notes {
      var i :| 0 <= i < |m.notes| && m.notes[i].key == key;
      var k := NameFound(a.notes, NoteTitle, m.notes[i].title);
      assert m.notes[i].key == key && a.notes[k] == Snapshot(m, a).notes[key];
    }
  }

  lemma SpaceAgrees(m: Manifest, a: Account, i: nat, n: Note)
    requires WellFormed(m) && i < |m.notes| && Named(a.spaces, SpaceName, Names(SpacePairs(m)))
    ensures var spec, ctx := m.notes[i], Snapshot(m, a);
            InItsSpace(m, a, spec, n) <==>
              match spec.space
              case None => n.spaceId == None
              case Some(key) => key in ctx.spaces && n.spaceId == Some(ctx.spaces[key].id)
  {
    hide Snapshot, Named, SpaceIs;
    var spec, ctx := m.notes[i], Snapshot(m, a);
    assert SpecResolves(m, i);
    if spec.space.Some? {
      var key := spec.space.value;
      forall s ensures SpaceIs(m, a, key, s) ==> key in ctx.spaces && ctx.spaces[key] == s {
        SpaceLookup(m, a, key, s);
      }
      if key in ctx.spaces {
        SpaceLookup(m, a, key, ctx.spaces[key]);
      }
    }
  }

  lemma LinksAgree(m: Manifest, a: Account, i: nat, n: Note)
    requires WellFormed(m) && i < |m.notes| && Named(a.notes, NoteTitle, Names(NotePairs(m)))
    ensures var spec, ctx := m.notes[i], Snapshot(m, a);
            LinkedAsPlanned(m, a, spec, n) <==>
              match spec.linkTo
              case None => n.links == []
              case Some(key) => key in ctx.notes && n.links == [Link("related", ctx.notes[key].id)]
  {
    hide Snapshot, Named, NoteIs;
    var spec, ctx := m.notes[i], Snapshot(m, a);
    assert SpecResolves(m, i);
    if spec.linkTo.Some? {
      var key := spec.linkTo.value;
      var d :| 0 <= d < i && m.notes[d].key == key;
      forall to ensures NoteIs(m, a, key, to) ==> key in ctx.notes && ctx.notes[key] == to {
        NoteLookup(m, a, key, to);
      }
      if key in ctx.notes {
        NoteLookup(m, a, key, ctx.notes[key]);
      }
    }
  }

  /** The tags known to the client under the keys of a spec. */
  function Known(ctx: Context, keys: seq<string>): seq<Tag>
    requires forall t | t in keys :: t in ctx.tags
  {
    seq(|keys|, t requires 0 <= t < |keys| => assert keys[t] in keys; ctx.tags[keys[t]])
  }

  lemma TagsAgree(m: Manifest, a: Account, i: nat, n: Note)
    requires WellFormed(m) && i < |m.notes| && Named(a.tags, TagName, Names(TagPairs(m)))
    ensures var spec, ctx := m.notes[i], Snapshot(m, a);
            UnderItsTags(m, a, spec, n) <==>
              && (forall t | t in spec.tags :: t in ctx.tags)
              && multiset(n.tagIds) == multiset(Ids(Known(ctx, spec.tags)))
  {
    hide Snapshot, Named, TagIs;
    var spec, ctx := m.notes[i], Snapshot(m, a);
    assert SpecResolves(m, i);
    if UnderItsTags(m, a, spec, n) {
      var tags: seq<Tag> :| |tags| == |spec.tags| && (forall t | 0 <= t < |tags| :: TagIs(m, a, spec.tags[t], tags[t]))
        && multiset(n.tagIds) == multiset(Ids(tags));
      forall t | 0 <= t < |tags| ensures spec.tags[t] in ctx.tags && ctx.tags[spec.tags[t]] == tags[t] {
        TagLookup(m, a, spec.tags[t], tags[t]);
      }
      assert forall t | t in spec.tags :: t in ctx.tags;
      assert Known(ctx, spec.tags) == tags;
    }
    if (forall t | t in spec.tags :: t in ctx.tags) && multiset(n.tagIds) == multiset(Ids(Known(ctx, spec.tags))) {
      var tags := Known(ctx, spec.tags);
      forall t | 0 <= t < |tags| ensures TagIs(m, a, spec.tags[t], tags[t]) {
        assert spec.tags[t] in spec.tags;
        TagLookup(m, a, spec.tags[t], tags[t]);
      }
      assert UnderItsTags(m, a, spec, n);
    }
  }

  /** The form the client checks for is the one read off the manifest. */
  lemma CarriesMeaning(m: Manifest, a: Account, i: nat, n: Note, body: string, revision: nat, structured: Structured)
    requires WellFormed(m) && i < |m.notes| && OnlyNamed(m, a)
    ensures Carries(n, m.notes[i], Snapshot(m, a), body, revision, structured) <==>
            Filed(m, a, m.notes[i], n, body, revision, structured)
  {
    hide Snapshot, Named, InItsSpace, UnderItsTags, LinkedAsPlanned, WellFormed, OnlyNamed, Names;
    var spec, ctx := m.notes[i], Snapshot(m, a);
    OnlyNamedMeaning(m, a);
    SpaceAgrees(m, a, i, n);
    TagsAgree(m, a, i, n);
    LinksAgree(m, a, i, n);
    if forall t | t in spec.tags :: t in ctx.tags {
      if DesiredIds(spec, ctx).Ok? {
        assert DesiredIds(spec, ctx).value.tagIds == Ids(Known(ctx, spec.tags));
      }
    }
  }

  // ----- the checks, measured -----

  lemma SpacesMeaning(m: Manifest, a: Account)
    requires WellFormed(m) && OnlyNamed(m, a)
    ensures SpacesInPlace(m, a) <==>
            forall i | 0 <= i < |m.spaces| && m.spaces[i].name in SpacesOf(a) ::
              SpaceFits(SpacesOf(a)[m.spaces[i].name], m.spaces[i])
  {
    hide NameMap, Named, Names, WellFormed, OnlyNamed;
    OnlyNamedMeaning(m, a);
    forall i | 0 <= i < |m.spaces| && m.spaces[i].name in SpacesOf(a)
      ensures exists k | 0 <= k < |a.spaces| ::
                a.spaces[k] == SpacesOf(a)[m.spaces[i].name] && a.spaces[k].name == m.spaces[i].name
    {
      var k := NameFound(a.spaces, SpaceName, m.spaces[i].name);
      assert a.spaces[k] == SpacesOf(a)[m.spaces[i].name] && a.spaces[k].name == m.spaces[i].name;
    }
    forall k | 0 <= k < |a.spaces|
      ensures a.spaces[k].name in SpacesOf(a) && SpacesOf(a)[a.spaces[k].name] == a.spaces[k]
    {
      NameFinds(a.spaces, SpaceName, Names(SpacePairs(m)), k);
    }
  }

  lemma Holding(m: Manifest, a: Account, name: string)
    ensures name in SpacesOf(a) <==> HasSpace(a, name)
    ensures name in TagsOf(a) <==> HasTag(a, name)
    ensures name in NotesOf(a) <==> HasNote(a, name)
  {
    hide NameMap;
    NameMapFinds(a.spaces, SpaceName);
    NameMapFinds(a.tags, TagName);
    NameMapFinds(a.notes, NoteTitle);
    assert forall k | 0 <= k < |a.spaces| :: SpaceName(a.spaces[k]) == a.spaces[k].name;
    assert forall k | 0 <= k < |a.tags| :: TagName(a.tags[k]) == a.tags[k].name;
    assert forall k | 0 <= k < |a.notes| :: NoteTitle(a.notes[k]) == a.notes[k].title;
  }

  lemma OnlyFixturesMeaning(m: Manifest, a: Account)
    requires WellFormed(m)
    ensures OnlyFixtures(m, a) <==>
              && NothingForeign(a.foreign) && OnlyNamed(m, a) && SpacesInPlace(m, a)
              && (a.spaces != [] || a.tags != [] || a.notes != [] ==> HasNote(a, m.notes[0].title))
  {
    hide Named, Names, NameMap, OnlyNamed, SpacesInPlace, HasNote;
    OnlyNamedMeaning(m, a);
    if OnlyNamed(m, a) {
      SpacesMeaning(m, a);
    }
    Holding(m, a, m.notes[0].title);
  }

  /** The one note of a title. */
  lemma NoteOfTitle(m: Manifest, a: Account, i: nat)
    requires OnlyNamed(m, a) && i < |m.notes|
    ensures forall k | 0 <= k < |a.notes| && a.notes[k].title == m.notes[i].title ::
              m.notes[i].title in NotesOf(a) && NotesOf(a)[m.notes[i].title] == a.notes[k]
    ensures m.notes[i].title in NotesOf(a) ==>
              exists k | 0 <= k < |a.notes| ::
                a.notes[k].title == m.notes[i].title && NotesOf(a)[m.notes[i].title] == a.notes[k]
  {
    hide NameMap, Named, Names, OnlyNamed;
    OnlyNamedMeaning(m, a);
    forall k | 0 <= k < |a.notes| && a.notes[k].title == m.notes[i].title
      ensures m.notes[i].title in NotesOf(a) && NotesOf(a)[m.notes[i].title] == a.notes[k]
    {
      NameFinds(a.notes, NoteTitle, Names(NotePairs(m)), k);
    }
    if m.notes[i].title in NotesOf(a) {
      var k := NameFound(a.notes, NoteTitle, m.notes[i].title);
      assert a.notes[k].title == m.notes[i].title && NotesOf(a)[m.notes[i].title] == a.notes[k];
    }
  }

  lemma FormsMeaning(m: Manifest, a: Account, i: nat, n: Note)
    requires WellFormed(m) && i < |m.notes| && OnlyNamed(m, a)
    ensures Finished(n, m.notes[i], Snapshot(m, a)) <==> FiledForGood(m, a, m.notes[i], n)
    ensures HalfDone(n, m.notes[i], Snapshot(m, a)) <==> FiledAtFirst(m, a, m.notes[i], n)
  {
    hide Snapshot, Carries, Filed, WellFormed, OnlyNamed;
    var spec := m.notes[i];
    CarriesMeaning(m, a, i, n, spec.FinalBody(), spec.FinalRevision(), spec.structured);
    CarriesMeaning(m, a, i, n, spec.body, 1, Entries([]));
  }

  lemma NotesMeaning(m: Manifest, a: Account, allow: bool)
    requires WellFormed(m) && OnlyNamed(m, a)
    ensures NotesFit(m, a, Snapshot(m, a), allow) <==>
            forall i, k | 0 <= i < |m.notes| && 0 <= k < |a.notes| && a.notes[k].title == m.notes[i].title ::
              FiledForGood(m, a, m.notes[i], a.notes[k]) || (allow && FiledAtFirst(m, a, m.notes[i], a.notes[k]))
  {
    hide Snapshot, Finished, HalfDone, FiledForGood, FiledAtFirst, WellFormed, OnlyNamed, NameMap;
    forall i | 0 <= i < |m.notes|
      ensures (forall k | 0 <= k < |a.notes| && a.notes[k].title == m.notes[i].title ::
                 m.notes[i].title in NotesOf(a) && NotesOf(a)[m.notes[i].title] == a.notes[k])
      ensures m.notes[i].title in NotesOf(a) ==>
                exists k | 0 <= k < |a.notes| ::
                  a.notes[k].title == m.notes[i].title && NotesOf(a)[m.notes[i].title] == a.notes[k]
    {
      NoteOfTitle(m, a, i);
    }
    forall i, k | 0 <= i < |m.notes| && 0 <= k < |a.notes|
      ensures Finished(a.notes[k], m.notes[i], Snapshot(m, a)) <==> FiledForGood(m, a, m.notes[i], a.notes[k])
      ensures HalfDone(a.notes[k], m.notes[i], Snapshot(m, a)) <==> FiledAtFirst(m, a, m.notes[i], a.notes[k])
    {
      FormsMeaning(m, a, i, a.notes[k]);
    }
  }

  /** Preflight accepts exactly the beginnings of the portfolio. */
  lemma PreflightAcceptsBeginnings(m: Manifest, a: Account)
    requires WellFormed(m) && Consistent(a)
    ensures Preflight(m, a).Ok? <==> Beginning(m, a)
  {
    hide WellFormed, Consistent, OnlyFixtures, NotesFit, Snapshot, Preflight, OnlyNamed, SpacesInPlace, FiledForGood,
      FiledAtFirst;
    MarkerThere(m);
    PreflightMeaning(m, a);
    OnlyFixturesMeaning(m, a);
    if OnlyNamed(m, a) {
      NotesMeaning(m, a, true);
    }
  }

  /** A listing is refused for its first item that is not to be there, or is there already. */
  lemma {:induction false} ListingRefusal<T(!new)>(items: seq<T>, name: T -> string, allowed: set<string>)
    ensures UniqueByName(items, name, allowed).Err? ==>
              exists k | 0 <= k < |items| ::
                && Named(items[..k], name, allowed)
                && UniqueByName(items, name, allowed) ==
                   if name(items[k]) !in allowed then Err("unexpected_account_data")
                   else Err("duplicate_inventory_item")
  {
    if items != [] {
      var n := |items| - 1;
      ListingRefusal(items[..n], name, allowed);
      UniqueByNameAccepts(items[..n], name, allowed);
      if UniqueByName(items[..n], name, allowed).Ok? {
        assert Named(items[..n], name, allowed);
      } else {
        var k :| 0 <= k < n && Named(items[..n][..k], name, allowed)
          && UniqueByName(items[..n], name, allowed) ==
             if name(items[..n][k]) !in allowed then Err("unexpected_account_data")
             else Err("duplicate_inventory_item");
        assert items[..n][..k] == items[..k] && items[..n][k] == items[k];
      }
    }
  }

  /** What the inventory check refuses an account with: what is foreign comes first, then names, marker, spaces. */
  lemma InventoryRefusal(m: Manifest, a: Account)
    requires WellFormed(m)
    ensures var r := ExpectedMaps(m, a);
            if !NothingForeign(a.foreign) then r == Err("account_not_pristine")
            else if !OnlyNamed(m, a) then r in {Err("unexpected_account_data"), Err("duplicate_inventory_item")}
            else if (a.spaces != [] || a.tags != [] || a.notes != []) && !HasNote(a, m.notes[0].title)
            then r == Err("fixture_marker_missing")
            else if !SpacesInPlace(m, a) then r == Err("fixture_mismatch")
            else r.Ok?
  {
    hide NameMap, UniqueByName, Named, Names, SpacePairs, TagPairs, NotePairs, SpaceFits, OnlyNamed, SpacesInPlace,
      HasNote, WellFormed;
    MarkerThere(m);
    OnlyNamedMeaning(m, a);
    ListingRefusal(a.spaces, SpaceName, Names(SpacePairs(m)));
    ListingRefusal(a.tags, TagName, Names(TagPairs(m)));
    ListingRefusal(a.notes, NoteTitle, Names(NotePairs(m)));
    UniqueByNameAccepts(a.spaces, SpaceName, Names(SpacePairs(m)));
    UniqueByNameAccepts(a.tags, TagName, Names(TagPairs(m)));
    UniqueByNameAccepts(a.notes, NoteTitle, Names(NotePairs(m)));
    NameMapEmpty(a.spaces, SpaceName);
    NameMapEmpty(a.tags, TagName);
    NameMapEmpty(a.notes, NoteTitle);
    assert |SpacesOf(a)| > 0 <==> SpacesOf(a) != map[];
    assert |TagsOf(a)| > 0 <==> TagsOf(a) != map[];
    assert |NotesOf(a)| > 0 <==> NotesOf(a) != map[];
    Holding(m, a, m.notes[0].title);
    if OnlyNamed(m, a) {
      SpacesMeaning(m, a);
    }
  }

  lemma MarkerThere(m: Manifest)
    requires WellFormed(m)
    ensures 0 < |m.notes| && IsMarker(m.notes[0])
  {
  }

  /** The census accepts exactly the portfolio. */
  lemma CensusAcceptsPortfolio(m: Manifest, a: Account)
    requires WellFormed(m) && Consistent(a)
    ensures VerifyComplete(m, a).Ok? <==> IsPortfolio(m, a)
  {
    hide WellFormed, Consistent, OnlyFixtures, NotesFit, Snapshot, VerifyComplete, OnlyNamed, SpacesInPlace,
      FiledForGood, FiledAtFirst, NameMap, Done, HasSpace, HasTag, HasNote;
    MarkerThere(m);
    T.CompleteMeaning(m, a);
    T.AllDoneMeans(m, a);
    T.FinishedOnly(m, a);
    OnlyFixturesMeaning(m, a);
    if OnlyNamed(m, a) {
      NotesMeaning(m, a, false);
    }
    forall i | 0 <= i < |m.spaces| ensures m.spaces[i].name in SpacesOf(a) <==> HasSpace(a, m.spaces[i].name) {
      Holding(m, a, m.spaces[i].name);
    }
    forall i | 0 <= i < |m.tags| ensures m.tags[i].name in TagsOf(a) <==> HasTag(a, m.tags[i].name) {
      Holding(m, a, m.tags[i].name);
    }
    forall i | 0 <= i < |m.notes| ensures m.notes[i].title in NotesOf(a) <==> HasNote(a, m.notes[i].title) {
      Holding(m, a, m.notes[i].title);
    }
  }

  /** So that is what crash and resume end in: every note in its space, under its tags, linked as planned. */
  lemma CrashResumeEndsInPortfolio(world: World, base: Account, schedules: seq<seq<Fault>>, faults: seq<Fault>)
    requires WellFormed(world.manifest) && Structures(world) && T.Empty(world.manifest, base)
    requires forall f | f in faults :: f == Delivered
    ensures var a := T.AfterRuns(world, base, schedules);
            Beginning(world.manifest, a) && IsPortfolio(world.manifest, ExecutePortfolio(world, a, faults).account)
  {
    hide WellFormed, Structures, T.Empty, Beginning, IsPortfolio, Preflight, VerifyComplete, T.Reach, T.AfterRuns,
      ExecutePortfolio, Consistent, Recognised, Done, D.Resumable;
    MarkerThere(world.manifest);
    var n := T.RunsStopAtPrefix(world, base, schedules);
    T.ReachAtPrefix(world, base, n);
    T.ReachAtPrefix(world, base, |Plan(world.manifest)|);
    T.UndisturbedRunCompletes(world, base, n, faults);
    PreflightMeaning(world.manifest, T.Reach(world, base, n));
    PreflightAcceptsBeginnings(world.manifest, T.Reach(world, base, n));
    CensusAcceptsPortfolio(world.manifest, T.Reach(world, base, |Plan(world.manifest)|));
  }

  /** And it is what runs over a network that also delivers late end in, from any account they can work on. */
  lemma DelayedRunsEndInPortfolio(world: World, a: Account, schedules: seq<D.Schedule>, last: D.Schedule)
    requires WellFormed(world.manifest) && Structures(world) && D.Resumable(world.manifest, a)
    requires D.Answered(last.turns)
    ensures var (found, sent) := D.AfterLateRuns(world, a, [], schedules);
            Beginning(world.manifest, found)
            && IsPortfolio(world.manifest, D.ExecuteLate(world, found, sent, last).account)
  {
    hide WellFormed, Structures, Beginning, IsPortfolio, Preflight, VerifyComplete, Consistent, Recognised, Done,
      D.Grown, D.ExecuteLate, D.AfterLateRuns, D.NetOk, D.Resumable, D.Answered;
    MarkerThere(world.manifest);
    D.NothingSent(world, a);
    D.RunsGo(world, a, [], schedules);
    var (found, sent) := D.AfterLateRuns(world, a, [], schedules);
    var run := D.ExecuteLate(world, found, sent, last);
    D.RunGoes(world, found, sent, last);
    D.ResumableParts(world, found, sent);
    D.ResumableParts(world, run.account, run.sent);
    PreflightMeaning(world.manifest, found);
    PreflightAcceptsBeginnings(world.manifest, found);
    CensusAcceptsPortfolio(world.manifest, run.account);
  }
}
