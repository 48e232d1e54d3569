/** What the seeder's checks accept, stated without the checks. */
module SeedMeaning {
  import opened Wrappers
  import opened Portfolio
  import opened DemoServer
  import opened Seeder

  function SpacesOf(a: Account): map<string, Space> { NameMap(a.spaces, SpaceName) }
  function TagsOf(a: Account): map<string, Tag> { NameMap(a.tags, TagName) }
  function NotesOf(a: Account): map<string, Note> { NameMap(a.notes, NoteTitle) }

  /** The account's fixtures by manifest key. */
  function Snapshot(m: Manifest, a: Account): Context {
    Context(ByKey(SpacePairs(m), SpacesOf(a)), ByKey(TagPairs(m), TagsOf(a)), ByKey(NotePairs(m), NotesOf(a)))
  }

  // ----- sorted comparison is comparison as multisets -----

  predicate Ascending(s: seq<nat>) {
    forall i, j | 0 <= i < j < |s| :: s[i] <= s[j]
  }

  lemma {:induction false} InsertAdds(x: nat, s: seq<nat>)
    ensures multiset(Insert(x, s)) == multiset(s) + multiset{x}
  {
    if s != [] && s[0] < x {
      InsertAdds(x, s[1..]);
      assert s == [s[0]] + s[1..];
    }
  }

  lemma {:induction false} InsertKeepsBound(x: nat, s: seq<nat>, low: nat)
    requires low <= x && forall i | 0 <= i < |s| :: low <= s[i]
    ensures forall i | 0 <= i < |Insert(x, s)| :: low <= Insert(x, s)[i]
  {
    if s != [] && s[0] < x {
      InsertKeepsBound(x, s[1..], low);
    }
  }

  lemma {:induction false} InsertSorts(x: nat, s: seq<nat>)
    requires Ascending(s)
    ensures Ascending(Insert(x, s))
  {
    if s != [] && s[0] < x {
      InsertSorts(x, s[1..]);
      InsertKeepsBound(x, s[1..], s[0]);
    }
  }

  lemma {:induction false} SortSorts(s: seq<nat>)
    ensures Ascending(Sort(s)) && multiset(Sort(s)) == multiset(s)
  {
    if s != [] {
      SortSorts(s[1..]);
      InsertSorts(s[0], Sort(s[1..]));
      InsertAdds(s[0], Sort(s[1..]));
      assert s == [s[0]] + s[1..];
    }
  }

  lemma FirstIsLeast(s: seq<nat>, x: nat)
    requires Ascending(s) && x in multiset(s)
    ensures s != [] && s[0] <= x
  {
    assert x in s;
  }

  lemma Tail(s: seq<nat>)
    requires Ascending(s) && s != []
    ensures Ascending(s[1..]) && multiset(s[1..]) == multiset(s) - multiset{s[0]}
  {
    assert s == [s[0]] + s[1..];
  }

  lemma {:induction false} AscendingUnique(s: seq<nat>, t: seq<nat>)
    requires Ascending(s) && Ascending(t) && multiset(s) == multiset(t)
    ensures s == t
  {
    hide Ascending;
    assert |multiset(s)| == |s| && |multiset(t)| == |t|;
    if s != [] {
      assert s[0] in multiset(s) && t[0] in multiset(t);
      FirstIsLeast(t, s[0]);
      FirstIsLeast(s, t[0]);
      assert s[0] == t[0];
      Tail(s);
      Tail(t);
      AscendingUnique(s[1..], t[1..]);
      assert s == [s[0]] + s[1..] && t == [t[0]] + t[1..];
    }
  }

  /** Order is ignored, repetition is not. */
  lemma SameValuesMeaning(left: seq<nat>, right: seq<nat>)
    ensures SameValues(left, right) <==> multiset(left) == multiset(right)
  {
    SortSorts(left);
    SortSorts(right);
    if multiset(left) == multiset(right) {
      AscendingUnique(Sort(left), Sort(right));
    }
    if SameValues(left, right) {
      assert Sort(left) == Sort(right);
    }
  }

  // ----- acceptable notes -----

  ghost predicate Carries(note: Note, spec: NoteSpec, ctx: Context, body: string, revision: nat,
                          structured: Structured) {
    var d := DesiredIds(spec, ctx);
    && d.Ok?
    && note.title == spec.title && note.noteType == spec.noteType && note.privacy == spec.privacy
    && note.spaceId == d.value.spaceId && note.links == d.value.links
    && multiset(note.tagIds) == multiset(d.value.tagIds)
    && !note.archived && !note.deleted
    && note.body == body && note.revision == revision && note.structured == structured
  }

  /** The form a note has when its writes are done. */
  ghost predicate Finished(note: Note, spec: NoteSpec, ctx: Context) {
    Carries(note, spec, ctx, spec.FinalBody(), spec.FinalRevision(), spec.structured)
  }

  /** The one intermediate form allowed: created, not yet updated. */
  ghost predicate HalfDone(note: Note, spec: NoteSpec, ctx: Context) {
    spec.updateBody.Some? && Carries(note, spec, ctx, spec.body, 1, Entries([]))
  }

  lemma VerifyNoteMeaning(note: Note, spec: NoteSpec, ctx: Context, allow: bool)
    ensures VerifyNote(note, spec, ctx, allow) == Ok(Complete) <==> Finished(note, spec, ctx)
    ensures VerifyNote(note, spec, ctx, allow) == Ok(IncompleteWorkout) <==> allow && HalfDone(note, spec, ctx)
  {
    var d := DesiredIds(spec, ctx);
    if d.Ok? {
      SameValuesMeaning(note.tagIds, d.value.tagIds);
      if |note.links| == |d.value.links| && !exists i ::
          0 <= i < |note.links| && i < |d.value.links| && note.links[i] != d.value.links[i] {
        assert forall i | 0 <= i < |note.links| :: note.links[i] == d.value.links[i];
        assert note.links == d.value.links;
      }
    }
  }

  // ----- acceptable accounts -----

  ghost predicate Pristine(f: Foreign) {
    f.captures == 0 && f.deletedNotes == 0 && f.reviewItems == 0 && f.routingRules == 0 && !f.providerKey
  }

  ghost predicate OnlyFixtures(m: Manifest, a: Account)
    requires 0 < |m.notes|
  {
    && Pristine(a.foreign)
    && Named(a.spaces, SpaceName, Names(SpacePairs(m)))
    && Named(a.tags, TagName, Names(TagPairs(m)))
    && Named(a.notes, NoteTitle, Names(NotePairs(m)))
    && (a.spaces != [] || a.tags != [] || a.notes != [] ==> m.notes[0].title in NotesOf(a))
    && forall i | 0 <= i < |m.spaces| && m.spaces[i].name in SpacesOf(a) ::
        SpaceFits(SpacesOf(a)[m.spaces[i].name], m.spaces[i])
  }

  ghost predicate NotesFit(m: Manifest, a: Account, ctx: Context, allow: bool) {
    forall i | 0 <= i < |m.notes| && m.notes[i].title in NotesOf(a) ::
      var note := NotesOf(a)[m.notes[i].title];
      Finished(note, m.notes[i], ctx) || (allow && HalfDone(note, m.notes[i], ctx))
  }

  /** Nothing outside the manifest, the marker beside any fixture, every fixture in a known form. */
  ghost predicate Recognised(m: Manifest, a: Account)
    requires 0 < |m.notes|
  {
    OnlyFixtures(m, a) && NotesFit(m, a, Snapshot(m, a), true)
  }

  lemma PairsDistinct(m: Manifest)
    requires WellFormed(m)
    ensures DistinctPairs(SpacePairs(m)) && DistinctPairs(TagPairs(m)) && DistinctPairs(NotePairs(m))
  {
  }

  lemma NameMapEmpty<T(!new)>(items: seq<T>, name: T -> string)
    ensures NameMap(items, name) == map[] <==> items == []
  {
    if items != [] {
      assert name(items[|items| - 1]) in NameMap(items, name);
    }
  }

  lemma ExpectedMapsMeaning(m: Manifest, a: Account)
    requires 0 < |m.notes|
    ensures ExpectedMaps(m, a).Ok? <==> OnlyFixtures(m, a)
    ensures ExpectedMaps(m, a).Ok? ==> ExpectedMaps(m, a).value == Existing(SpacesOf(a), TagsOf(a), NotesOf(a))
  {
    hide NameMap, UniqueByName, Named, Names, SpacePairs, TagPairs, NotePairs, SpaceFits;
    UniqueByNameAccepts(a.spaces, SpaceName, Names(SpacePairs(m)));
    UniqueByNameAccepts(a.tags, TagName, Names(TagPairs(m)));
    UniqueByNameAccepts(a.notes, NoteTitle, Names(NotePairs(m)));
    NameMapEmpty(a.spaces, SpaceName);
    NameMapEmpty(a.tags, TagName);
    NameMapEmpty(a.notes, NoteTitle);
    assert |SpacesOf(a)| > 0 <==> SpacesOf(a) != map[];
    assert |TagsOf(a)| > 0 <==> TagsOf(a) != map[];
    assert |NotesOf(a)| > 0 <==> NotesOf(a) != map[];
  }

  lemma NoteIndexFinds(a: Account, note: Note)
    requires Consistent(a) && note in a.notes
    ensures NoteIndex(a.notes, note.id).Some? && a.notes[NoteIndex(a.notes, note.id).value] == note
  {
    var i :| 0 <= i < |a.notes| && a.notes[i] == note;
  }

  lemma ListedNoteFetched(a: Account, title: string)
    requires Consistent(a) && title in NotesOf(a)
    ensures var at := NoteIndex(a.notes, NotesOf(a)[title].id);
            at.Some? && a.notes[at.value] == NotesOf(a)[title]
  {
    NameMapFinds(a.notes, NoteTitle);
    NoteIndexFinds(a, NotesOf(a)[title]);
  }

  lemma {:induction false} FetchNotesMeaning(m: Manifest, a: Account, n: nat)
    requires Consistent(a) && n <= |m.notes|
    ensures FetchNotes(m, a, NotesOf(a), n) == Ok(ByKey(NotePairs(m)[..n], NotesOf(a)))
  {
    hide Consistent, NameMap;
    if n > 0 {
      FetchNotesMeaning(m, a, n - 1);
      assert NotePairs(m)[..n][..n - 1] == NotePairs(m)[..n - 1];
      if m.notes[n - 1].title in NotesOf(a) {
        ListedNoteFetched(a, m.notes[n - 1].title);
      }
    }
  }

  lemma {:induction false} VerifyNotesMeaning(m: Manifest, ctx: Context, n: nat, allow: bool)
    requires n <= |m.notes|
    ensures VerifyNotes(m, ctx, n, allow).Ok? <==>
            forall i | 0 <= i < n && m.notes[i].key in ctx.notes ::
                VerifyNote(ctx.notes[m.notes[i].key], m.notes[i], ctx, allow).Ok?
  {
    if n > 0 {
      VerifyNotesMeaning(m, ctx, n - 1, allow);
    }
  }

  lemma SnapshotFinds(m: Manifest, a: Account)
    requires WellFormed(m)
    ensures forall i | 0 <= i < |m.spaces| ::
              (m.spaces[i].key in Snapshot(m, a).spaces <==> m.spaces[i].name in SpacesOf(a))
              && (m.spaces[i].name in SpacesOf(a) ==>
                  Snapshot(m, a).spaces[m.spaces[i].key] == SpacesOf(a)[m.spaces[i].name])
    ensures forall i | 0 <= i < |m.tags| ::
              (m.tags[i].key in Snapshot(m, a).tags <==> m.tags[i].name in TagsOf(a))
              && (m.tags[i].name in TagsOf(a) ==> Snapshot(m, a).tags[m.tags[i].key] == TagsOf(a)[m.tags[i].name])
    ensures forall i | 0 <= i < |m.notes| ::
              (m.notes[i].key in Snapshot(m, a).notes <==> m.notes[i].title in NotesOf(a))
              && (m.notes[i].title in NotesOf(a) ==>
                  Snapshot(m, a).notes[m.notes[i].key] == NotesOf(a)[m.notes[i].title])
  {
    PairsDistinct(m);
    KeysFound(SpacePairs(m), SpacesOf(a));
    KeysFound(TagPairs(m), TagsOf(a));
    KeysFound(NotePairs(m), NotesOf(a));
    forall i | 0 <= i < |m.spaces| ensures SpacePairs(m)[i] == Pair(m.spaces[i].key, m.spaces[i].name) {}
    forall i | 0 <= i < |m.tags| ensures TagPairs(m)[i] == Pair(m.tags[i].key, m.tags[i].name) {}
    forall i | 0 <= i < |m.notes| ensures NotePairs(m)[i] == Pair(m.notes[i].key, m.notes[i].title) {}
  }

  lemma KeysFound<T>(pairs: seq<Pair>, existing: map<string, T>)
    requires DistinctPairs(pairs)
    ensures forall i | 0 <= i < |pairs| ::
              (pairs[i].key in ByKey(pairs, existing) <==> pairs[i].name in existing)
              && (pairs[i].name in existing ==> ByKey(pairs, existing)[pairs[i].key] == existing[pairs[i].name])
  {
    ByKeyFinds(pairs, existing);
    forall i | 0 <= i < |pairs| && pairs[i].key in ByKey(pairs, existing) ensures pairs[i].name in existing {
      var j :| 0 <= j < |pairs| && pairs[j].key == pairs[i].key && pairs[j].name in existing;
      assert i == j;
    }
  }

  /** The reading phase accepts exactly the accounts it should, and then knows the account. */
  lemma InspectMeaning(m: Manifest, a: Account, allow: bool)
    requires WellFormed(m) && Consistent(a)
    ensures Inspect(m, a, allow).Ok? <==> OnlyFixtures(m, a) && NotesFit(m, a, Snapshot(m, a), allow)
    ensures Inspect(m, a, allow).Ok? ==> Inspect(m, a, allow).value == Snapshot(m, a)
  {
    ExpectedMapsMeaning(m, a);
    FetchNotesMeaning(m, a, |m.notes|);
    assert NotePairs(m)[..|m.notes|] == NotePairs(m);
    var ctx := Snapshot(m, a);
    VerifyNotesMeaning(m, ctx, |m.notes|, allow);
    SnapshotFinds(m, a);
    forall i | 0 <= i < |m.notes| && m.notes[i].title in NotesOf(a)
      ensures VerifyNote(NotesOf(a)[m.notes[i].title], m.notes[i], ctx, allow).Ok? <==>
              (Finished(NotesOf(a)[m.notes[i].title], m.notes[i], ctx)
               || (allow && HalfDone(NotesOf(a)[m.notes[i].title], m.notes[i], ctx)))
    {
      VerifyNoteMeaning(NotesOf(a)[m.notes[i].title], m.notes[i], ctx, allow);
    }
  }

  /** Preflight accepts an account exactly when it is recognised. */
  lemma PreflightMeaning(m: Manifest, a: Account)
    requires WellFormed(m) && Consistent(a)
    ensures Preflight(m, a).Ok? <==> Recognised(m, a)
    ensures Preflight(m, a).Ok? ==> Preflight(m, a).value == Snapshot(m, a)
  {
    InspectMeaning(m, a, true);
  }

  /** An account that is not recognised is refused before anything is sent. */
  lemma RefusalLeavesNoTrace(world: World, a: Account, faults: seq<Fault>)
    requires WellFormed(world.manifest) && Consistent(a) && !Recognised(world.manifest, a)
    ensures var run := ExecutePortfolio(world, a, faults);
            run.failure.Some? && run.account == a && run.faults == faults && run.summary == Summary(0, 0, 0)
  {
    PreflightMeaning(world.manifest, a);
  }

  // ----- accounting -----

  lemma {:induction false} StepsCount(world: World, seen: Settings, writes: seq<Write>, run: Run)
    requires AllPlanned(world.manifest, writes)
    requires Steps(world, seen, writes, run).failure.None?
    ensures var after := Steps(world, seen, writes, run);
            && run.failure.None?
            && after.summary.attempted + after.summary.skipped == run.summary.attempted + run.summary.skipped + |writes|
            && after.summary.replayed - run.summary.replayed <= after.summary.attempted - run.summary.attempted
  {
    if writes != [] {
      var prefix := writes[..|writes| - 1];
      var before := Steps(world, seen, prefix, run);
      assert before.failure.None?;
      StepsCount(world, seen, prefix, run);
    }
  }

  /** A run that ends well has attempted or skipped every planned write, whatever it started from. */
  lemma WriteAccounting(world: World, a: Account, faults: seq<Fault>)
    requires 0 < |world.manifest.notes| && IsMarker(world.manifest.notes[0])
    requires ExecutePortfolio(world, a, faults).failure.None?
    ensures var s := ExecutePortfolio(world, a, faults).summary;
            s.attempted + s.skipped == PlannedWrites(world.manifest) && s.replayed <= s.attempted
  {
    var m := world.manifest;
    forall k | 0 <= k < |Plan(m)| ensures Planned(m, Plan(m)[k]) { PlanPositions(m, k); }
    StepsCount(world, a.settings, Plan(m), Run(a, faults, Preflight(m, a).value, Summary(0, 0, 0), None));
    PlanLength(m);
  }
}
