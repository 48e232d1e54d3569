/** One planned write on a recognised account: what it changes, and what it leaves alone. */
module SeedProgress {
  import opened Wrappers
  import opened Portfolio
  import opened DemoServer
  import opened Seeder
  import opened SeedMeaning

  /** The service structures each note of the manifest the way the seeder expects. */
  ghost predicate Structures(world: World) {
    forall i | 0 <= i < |world.manifest.notes| ::
      var spec := world.manifest.notes[i];
      && world.derive(spec.noteType, spec.FinalBody()) == spec.structured
      && (spec.updateBody.Some? ==> world.derive(spec.noteType, spec.body) == Entries([]))
  }

  ghost predicate Done(m: Manifest, a: Account, w: Write)
    requires Planned(m, w)
  {
    match w
    case SettingsWrite => SettingsMatch(m, a.settings)
    case SpaceWrite(i) => m.spaces[i].name in SpacesOf(a)
    case TagWrite(i) => m.tags[i].name in TagsOf(a)
    case NoteWrite(i) => m.notes[i].title in NotesOf(a)
    case UpdateWrite(i) => m.notes[i].title in NotesOf(a) && NotesOf(a)[m.notes[i].title].revision == 2
  }

  /** Everything the write refers to is in place. */
  ghost predicate Ready(m: Manifest, a: Account, w: Write)
    requires 0 < |m.notes| && Planned(m, w)
  {
    && (w != NoteWrite(0) ==> Done(m, a, NoteWrite(0)))
    && (w.NoteWrite? && w.i > 0 ==>
          && (forall i | 0 <= i < |m.spaces| :: Done(m, a, SpaceWrite(i)))
          && (forall i | 0 <= i < |m.tags| :: Done(m, a, TagWrite(i)))
          && (forall i | 0 <= i < w.i :: Done(m, a, NoteWrite(i))))
    && (w.UpdateWrite? ==> Done(m, a, NoteWrite(w.i)))
  }

  /** The client that knows `a` issues the write, the service takes it, the client accepts the
      answer and knows `b`, and nothing but this write is done that was not. */
  ghost predicate Advances(world: World, seen: Settings, a: Account, w: Write, b: Account)
    requires 0 < |world.manifest.notes| && Planned(world.manifest, w)
  {
    var m := world.manifest;
    && Satisfied(m, Snapshot(m, a), seen, w) == Ok(false)
    && RequestFor(m, Snapshot(m, a), seen, w).Ok?
    && var served := Serve(world.derive, a, RequestFor(m, Snapshot(m, a), seen, w).value);
    && served.0 == b
    && !served.1.Refused? && !served.1.replayed
    && CheckAnswer(m, Snapshot(m, a), seen, w, served.1) == Ok(Snapshot(m, b))
    && Recognised(m, b)
    && b.log == a.log + [KeyOf(m, w)]
    && (w.SettingsWrite? || b.settings == a.settings)
    && forall x | Planned(m, x) :: Done(m, b, x) <==> Done(m, a, x) || x == w
  }

  // ----- knowing more -----

  ghost predicate Extends(ctx: Context, more: Context) {
    && (forall k | k in ctx.spaces :: k in more.spaces && more.spaces[k].id == ctx.spaces[k].id)
    && (forall k | k in ctx.tags :: k in more.tags && more.tags[k].id == ctx.tags[k].id)
    && (forall k | k in ctx.notes :: k in more.notes && more.notes[k].id == ctx.notes[k].id)
  }

  lemma DesiredStable(spec: NoteSpec, ctx: Context, more: Context)
    requires Extends(ctx, more) && DesiredIds(spec, ctx).Ok?
    ensures DesiredIds(spec, more) == DesiredIds(spec, ctx)
  {
    var d, e := DesiredIds(spec, ctx), DesiredIds(spec, more);
    assert forall t | t in spec.tags :: t in ctx.tags && t in more.tags;
    assert d.value.tagIds == e.value.tagIds by {
      forall i | 0 <= i < |spec.tags| ensures d.value.tagIds[i] == e.value.tagIds[i] {
        assert spec.tags[i] in spec.tags;
      }
    }
  }

  /** Notes that were acceptable stay so when more is known. */
  lemma FormsStable(note: Note, spec: NoteSpec, ctx: Context, more: Context)
    requires Extends(ctx, more)
    ensures Finished(note, spec, ctx) ==> Finished(note, spec, more)
    ensures HalfDone(note, spec, ctx) ==> HalfDone(note, spec, more)
  {
    if DesiredIds(spec, ctx).Ok? {
      DesiredStable(spec, ctx, more);
    }
  }

  lemma NamedAppend<T(!new)>(items: seq<T>, name: T -> string, allowed: set<string>, item: T)
    requires Named(items, name, allowed) && name(item) in allowed && name(item) !in NameMap(items, name)
    ensures Named(items + [item], name, allowed)
    ensures NameMap(items + [item], name) == NameMap(items, name)[name(item) := item]
  {
    NameMapFinds(items, name);
    assert (items + [item])[..|items|] == items;
    NamedSplits(items + [item], name, allowed);
    forall i | 0 <= i < |items| ensures name(items[i]) != name(item) {
      assert name(items[i]) in NameMap(items, name);
    }
  }

  lemma NameAllowed(pairs: seq<Pair>, i: nat)
    requires i < |pairs|
    ensures pairs[i].name in Names(pairs)
  {
    assert pairs[i] in pairs;
  }

  lemma Unsatisfied(m: Manifest, seen: Settings, a: Account, w: Write)
    requires WellFormed(m) && Planned(m, w) && !w.SettingsWrite? && !w.UpdateWrite? && !Done(m, a, w)
    ensures Satisfied(m, Snapshot(m, a), seen, w) == Ok(false)
  {
    SnapshotFinds(m, a);
  }

  lemma UpdateUnsatisfied(m: Manifest, seen: Settings, a: Account, i: nat)
    requires WellFormed(m) && Planned(m, UpdateWrite(i)) && m.notes[i].title in NotesOf(a)
    requires VerifyNote(NotesOf(a)[m.notes[i].title], m.notes[i], Snapshot(m, a), true) == Ok(IncompleteWorkout)
    ensures Satisfied(m, Snapshot(m, a), seen, UpdateWrite(i)) == Ok(false)
  {
    hide VerifyNote;
    SnapshotFinds(m, a);
  }

  // ----- the five kinds of write -----

  lemma SettingsAdvances(world: World, a: Account)
    requires WellFormed(world.manifest) && Recognised(world.manifest, a)
    requires !Done(world.manifest, a, SettingsWrite)
    requires KeyOf(world.manifest, SettingsWrite) !in a.replies
    ensures exists b :: Advances(world, a.settings, a, SettingsWrite, b)
  {
    hide NameMap, ByKey, VerifyNote, NotesFit, OnlyFixtures;
    var m := world.manifest;
    var q := RequestFor(m, Snapshot(m, a), a.settings, SettingsWrite).value;
    var b := Serve(world.derive, a, q).0;
    SameRecognised(m, a, b);
    forall x | Planned(m, x) ensures Done(m, b, x) <==> Done(m, a, x) || x == SettingsWrite {
      match x {
        case _ =>
      }
    }
    assert Advances(world, a.settings, a, SettingsWrite, b);
  }

  /** Whether an account is recognised does not depend on its settings. */
  lemma SameRecognised(m: Manifest, a: Account, b: Account)
    requires 0 < |m.notes| && Recognised(m, a)
    requires b.spaces == a.spaces && b.tags == a.tags && b.notes == a.notes && b.foreign == a.foreign
    ensures Recognised(m, b) && Snapshot(m, b) == Snapshot(m, a)
  {
    hide NameMap, ByKey, VerifyNote;
  }

  lemma SpaceKnown(m: Manifest, a: Account, b: Account, i: nat, s: Space)
    requires WellFormed(m) && i < |m.spaces| && Named(a.spaces, SpaceName, Names(SpacePairs(m)))
    requires s.name == m.spaces[i].name && s.name !in SpacesOf(a)
    requires b.spaces == a.spaces + [s] && b.tags == a.tags && b.notes == a.notes
    ensures Named(b.spaces, SpaceName, Names(SpacePairs(m)))
    ensures SpacesOf(b) == SpacesOf(a)[s.name := s]
    ensures Snapshot(m, b) == Snapshot(m, a).(spaces := Snapshot(m, a).spaces[m.spaces[i].key := s])
  {
    PairsDistinct(m);
    assert SpacePairs(m)[i] == Pair(m.spaces[i].key, m.spaces[i].name);
    NameAllowed(SpacePairs(m), i);
    NamedAppend(a.spaces, SpaceName, Names(SpacePairs(m)), s);
    ByKeyAdds(SpacePairs(m), SpacesOf(a), i, s);
  }

  lemma SpaceRecognised(m: Manifest, a: Account, b: Account, i: nat, s: Space)
    requires WellFormed(m) && i < |m.spaces| && Recognised(m, a)
    requires s.name == m.spaces[i].name && s.name !in SpacesOf(a) && SpaceFits(s, m.spaces[i])
    requires b.spaces == a.spaces + [s] && b.tags == a.tags && b.notes == a.notes && b.foreign == a.foreign
    requires m.notes[0].title in NotesOf(a)
    ensures Recognised(m, b)
  {
    hide OnlyFixtures, SpaceFits, Snapshot, SpecResolves, DistinctKeys;
    SpaceOnlyFixtures(m, a, b, i, s);
    SpaceSnapshotGrows(m, a, b, i, s);
    KeepsNotes(m, a, b);
  }

  lemma SpaceOnlyFixtures(m: Manifest, a: Account, b: Account, i: nat, s: Space)
    requires WellFormed(m) && i < |m.spaces| && OnlyFixtures(m, a)
    requires s.name == m.spaces[i].name && s.name !in SpacesOf(a) && SpaceFits(s, m.spaces[i])
    requires b.spaces == a.spaces + [s] && b.tags == a.tags && b.notes == a.notes && b.foreign == a.foreign
    requires m.notes[0].title in NotesOf(a)
    ensures OnlyFixtures(m, b)
  {
    hide Snapshot, SpaceFits;
    SpaceKnown(m, a, b, i, s);
  }

  lemma SpaceSnapshotGrows(m: Manifest, a: Account, b: Account, i: nat, s: Space)
    requires WellFormed(m) && i < |m.spaces| && OnlyFixtures(m, a)
    requires s.name == m.spaces[i].name && s.name !in SpacesOf(a)
    requires b.spaces == a.spaces + [s] && b.tags == a.tags && b.notes == a.notes
    ensures Extends(Snapshot(m, a), Snapshot(m, b))
  {
    SpaceKnown(m, a, b, i, s);
    SnapshotFinds(m, a);
  }

  lemma SpaceFrame(m: Manifest, a: Account, b: Account, i: nat, s: Space)
    requires WellFormed(m) && i < |m.spaces|
    requires SpacesOf(b) == SpacesOf(a)[m.spaces[i].name := s]
    requires b.tags == a.tags && b.notes == a.notes && b.settings == a.settings
    ensures forall x | Planned(m, x) :: Done(m, b, x) <==> Done(m, a, x) || x == SpaceWrite(i)
  {
    forall x | Planned(m, x) ensures Done(m, b, x) <==> Done(m, a, x) || x == SpaceWrite(i) {
      if x.SpaceWrite? && x.i != i {
        assert m.spaces[x.i].name != m.spaces[i].name;
      }
    }
  }

  lemma SpaceExchange(world: World, seen: Settings, a: Account, i: nat, s: Space, b: Account)
    requires WellFormed(world.manifest) && i < |world.manifest.spaces|
    requires !Done(world.manifest, a, SpaceWrite(i)) && KeyOf(world.manifest, SpaceWrite(i)) !in a.replies
    requires var m := world.manifest;
             && s == Space(a.nextId, m.spaces[i].name, None, false, m.spaces[i].sortKey)
             && b == Recorded(a.(spaces := a.spaces + [s], nextId := a.nextId + 1), m.spaces[i].idempotencyKey,
                 SpaceAnswer(s, false))
             && Snapshot(m, b) == Snapshot(m, a).(spaces := Snapshot(m, a).spaces[m.spaces[i].key := s])
             && Recognised(m, b)
             && forall x | Planned(m, x) :: Done(m, b, x) <==> Done(m, a, x) || x == SpaceWrite(i)
    ensures exists c :: Advances(world, seen, a, SpaceWrite(i), c)
  {
    hide Recognised, Done, VerifyNote, Satisfied, NameMap, ByKey;
    var m := world.manifest;
    Unsatisfied(m, seen, a, SpaceWrite(i));
    assert Advances(world, seen, a, SpaceWrite(i), b);
  }

  lemma SpaceAdvances(world: World, seen: Settings, a: Account, i: nat)
    requires WellFormed(world.manifest) && Recognised(world.manifest, a)
    requires i < |world.manifest.spaces| && !Done(world.manifest, a, SpaceWrite(i))
    requires Ready(world.manifest, a, SpaceWrite(i))
    requires KeyOf(world.manifest, SpaceWrite(i)) !in a.replies
    ensures exists b :: Advances(world, seen, a, SpaceWrite(i), b)
  {
    var m := world.manifest;
    var s := Space(a.nextId, m.spaces[i].name, None, false, m.spaces[i].sortKey);
    var b := Recorded(a.(spaces := a.spaces + [s], nextId := a.nextId + 1), m.spaces[i].idempotencyKey,
        SpaceAnswer(s, false));
    SpaceKnown(m, a, b, i, s);
    SpaceRecognised(m, a, b, i, s);
    SpaceFrame(m, a, b, i, s);
    SpaceExchange(world, seen, a, i, s, b);
  }

  lemma TagKnown(m: Manifest, a: Account, b: Account, i: nat, t: Tag)
    requires WellFormed(m) && i < |m.tags| && Named(a.tags, TagName, Names(TagPairs(m)))
    requires t.name == m.tags[i].name && t.name !in TagsOf(a)
    requires b.tags == a.tags + [t] && b.spaces == a.spaces && b.notes == a.notes
    ensures Named(b.tags, TagName, Names(TagPairs(m)))
    ensures TagsOf(b) == TagsOf(a)[t.name := t]
    ensures Snapshot(m, b) == Snapshot(m, a).(tags := Snapshot(m, a).tags[m.tags[i].key := t])
  {
    PairsDistinct(m);
    assert TagPairs(m)[i] == Pair(m.tags[i].key, m.tags[i].name);
    NameAllowed(TagPairs(m), i);
    NamedAppend(a.tags, TagName, Names(TagPairs(m)), t);
    ByKeyAdds(TagPairs(m), TagsOf(a), i, t);
  }

  lemma TagRecognised(m: Manifest, a: Account, b: Account, i: nat, t: Tag)
    requires WellFormed(m) && i < |m.tags| && Recognised(m, a)
    requires t.name == m.tags[i].name && t.name !in TagsOf(a)
    requires b.tags == a.tags + [t] && b.spaces == a.spaces && b.notes == a.notes && b.foreign == a.foreign
    requires m.notes[0].title in NotesOf(a)
    ensures Recognised(m, b)
  {
    TagKnown(m, a, b, i, t);
    SnapshotFinds(m, a);
    assert Extends(Snapshot(m, a), Snapshot(m, b));
    KeepsNotes(m, a, b);
  }

  lemma TagFrame(m: Manifest, a: Account, b: Account, i: nat, t: Tag)
    requires WellFormed(m) && i < |m.tags|
    requires TagsOf(b) == TagsOf(a)[m.tags[i].name := t]
    requires b.spaces == a.spaces && b.notes == a.notes && b.settings == a.settings
    ensures forall x | Planned(m, x) :: Done(m, b, x) <==> Done(m, a, x) || x == TagWrite(i)
  {
    forall x | Planned(m, x) ensures Done(m, b, x) <==> Done(m, a, x) || x == TagWrite(i) {
      if x.TagWrite? && x.i != i {
        assert m.tags[x.i].name != m.tags[i].name;
      }
    }
  }

  lemma TagExchange(world: World, seen: Settings, a: Account, i: nat, t: Tag, b: Account)
    requires WellFormed(world.manifest) && i < |world.manifest.tags|
    requires !Done(world.manifest, a, TagWrite(i)) && KeyOf(world.manifest, TagWrite(i)) !in a.replies
    requires var m := world.manifest;
             && t == Tag(a.nextId, m.tags[i].name)
             && b == Recorded(a.(tags := a.tags + [t], nextId := a.nextId + 1), m.tags[i].idempotencyKey,
                 TagAnswer(t, false))
             && Snapshot(m, b) == Snapshot(m, a).(tags := Snapshot(m, a).tags[m.tags[i].key := t])
             && Recognised(m, b)
             && forall x | Planned(m, x) :: Done(m, b, x) <==> Done(m, a, x) || x == TagWrite(i)
    ensures exists c :: Advances(world, seen, a, TagWrite(i), c)
  {
    hide Recognised, Done, VerifyNote, Satisfied, NameMap, ByKey;
    var m := world.manifest;
    Unsatisfied(m, seen, a, TagWrite(i));
    assert Advances(world, seen, a, TagWrite(i), b);
  }

  lemma TagAdvances(world: World, seen: Settings, a: Account, i: nat)
    requires WellFormed(world.manifest) && Recognised(world.manifest, a)
    requires i < |world.manifest.tags| && !Done(world.manifest, a, TagWrite(i))
    requires Ready(world.manifest, a, TagWrite(i))
    requires KeyOf(world.manifest, TagWrite(i)) !in a.replies
    ensures exists b :: Advances(world, seen, a, TagWrite(i), b)
  {
    var m := world.manifest;
    var t := Tag(a.nextId, m.tags[i].name);
    var b := Recorded(a.(tags := a.tags + [t], nextId := a.nextId + 1), m.tags[i].idempotencyKey, TagAnswer(t, false));
    TagKnown(m, a, b, i, t);
    TagRecognised(m, a, b, i, t);
    TagFrame(m, a, b, i, t);
    TagExchange(world, seen, a, i, t, b);
  }

  lemma KeepsNotes(m: Manifest, a: Account, b: Account)
    requires 0 < |m.notes| && NotesFit(m, a, Snapshot(m, a), true)
    requires NotesOf(b) == NotesOf(a) && Extends(Snapshot(m, a), Snapshot(m, b))
    ensures NotesFit(m, b, Snapshot(m, b), true)
  {
    forall i | 0 <= i < |m.notes| && m.notes[i].title in NotesOf(b)
      ensures Finished(NotesOf(b)[m.notes[i].title], m.notes[i], Snapshot(m, b))
              || HalfDone(NotesOf(b)[m.notes[i].title], m.notes[i], Snapshot(m, b))
    {
      FormsStable(NotesOf(a)[m.notes[i].title], m.notes[i], Snapshot(m, a), Snapshot(m, b));
    }
  }

  lemma DesiredReady(m: Manifest, a: Account, i: nat)
    requires WellFormed(m) && i < |m.notes| && Ready(m, a, NoteWrite(i))
    ensures DesiredIds(m.notes[i], Snapshot(m, a)).Ok?
  {
    var spec, ctx := m.notes[i], Snapshot(m, a);
    SnapshotFinds(m, a);
    assert SpecResolves(m, i);
    if i > 0 {
      if spec.space.Some? {
        var j :| 0 <= j < |m.spaces| && m.spaces[j].key == spec.space.value;
        assert Done(m, a, SpaceWrite(j));
      }
      forall t | t in spec.tags ensures t in ctx.tags {
        assert TagDefined(m, t);
        var j :| 0 <= j < |m.tags| && m.tags[j].key == t;
        assert Done(m, a, TagWrite(j));
      }
      if spec.linkTo.Some? {
        var j :| 0 <= j < i && m.notes[j].key == spec.linkTo.value;
        assert Done(m, a, NoteWrite(j));
      }
    }
  }

  lemma OtherNotesFit(m: Manifest, a: Account, b: Account, i: nat, n: Note)
    requires WellFormed(m) && i < |m.notes| && NotesFit(m, a, Snapshot(m, a), true)
    requires NotesOf(b) == NotesOf(a)[m.notes[i].title := n] && Extends(Snapshot(m, a), Snapshot(m, b))
    requires Finished(n, m.notes[i], Snapshot(m, b)) || HalfDone(n, m.notes[i], Snapshot(m, b))
    ensures NotesFit(m, b, Snapshot(m, b), true)
  {
    forall j | 0 <= j < |m.notes| && m.notes[j].title in NotesOf(b)
      ensures Finished(NotesOf(b)[m.notes[j].title], m.notes[j], Snapshot(m, b))
              || HalfDone(NotesOf(b)[m.notes[j].title], m.notes[j], Snapshot(m, b))
    {
      if j != i {
        assert m.notes[j].title != m.notes[i].title;
        FormsStable(NotesOf(a)[m.notes[j].title], m.notes[j], Snapshot(m, a), Snapshot(m, b));
      }
    }
  }

  lemma NoteFrame(m: Manifest, a: Account, b: Account, w: Write, n: Note)
    requires WellFormed(m) && Planned(m, w) && (w.NoteWrite? || w.UpdateWrite?)
    requires n.revision == (if w.UpdateWrite? then 2 else 1)
    requires w.NoteWrite? ==> m.notes[w.i].title !in NotesOf(a)
    requires w.UpdateWrite? ==> m.notes[w.i].title in NotesOf(a)
    requires b.spaces == a.spaces && b.tags == a.tags && b.settings == a.settings
    requires NotesOf(b) == NotesOf(a)[m.notes[w.i].title := n]
    ensures forall x | Planned(m, x) :: Done(m, b, x) <==> Done(m, a, x) || x == w
  {
    forall x | Planned(m, x) ensures Done(m, b, x) <==> Done(m, a, x) || x == w {
      if (x.NoteWrite? || x.UpdateWrite?) && x.i != w.i {
        assert m.notes[x.i].title != m.notes[w.i].title;
      }
    }
  }

  lemma NoteKnown(m: Manifest, a: Account, b: Account, i: nat, n: Note)
    requires WellFormed(m) && i < |m.notes| && Named(a.notes, NoteTitle, Names(NotePairs(m)))
    requires n.title == m.notes[i].title && n.title !in NotesOf(a)
    requires b.notes == a.notes + [n] && b.spaces == a.spaces && b.tags == a.tags
    ensures Named(b.notes, NoteTitle, Names(NotePairs(m)))
    ensures NotesOf(b) == NotesOf(a)[n.title := n]
    ensures Snapshot(m, b) == Snapshot(m, a).(notes := Snapshot(m, a).notes[m.notes[i].key := n])
    ensures Extends(Snapshot(m, a), Snapshot(m, b))
  {
    PairsDistinct(m);
    assert NotePairs(m)[i] == Pair(m.notes[i].key, m.notes[i].title);
    NameAllowed(NotePairs(m), i);
    NamedAppend(a.notes, NoteTitle, Names(NotePairs(m)), n);
    ByKeyAdds(NotePairs(m), NotesOf(a), i, n);
    SnapshotFinds(m, a);
  }

  lemma NoteRecognised(m: Manifest, a: Account, b: Account, i: nat, n: Note)
    requires WellFormed(m) && i < |m.notes| && Recognised(m, a)
    requires n.title == m.notes[i].title && n.title !in NotesOf(a)
    requires b.notes == a.notes + [n] && b.spaces == a.spaces && b.tags == a.tags && b.foreign == a.foreign
    requires i == 0 || m.notes[0].title in NotesOf(a)
    requires Finished(n, m.notes[i], Snapshot(m, b)) || HalfDone(n, m.notes[i], Snapshot(m, b))
    ensures Recognised(m, b)
  {
    NoteKnown(m, a, b, i, n);
    OtherNotesFit(m, a, b, i, n);
  }

  lemma NoteAdvances(world: World, seen: Settings, a: Account, i: nat)
    requires WellFormed(world.manifest) && Structures(world) && Recognised(world.manifest, a)
    requires i < |world.manifest.notes| && !Done(world.manifest, a, NoteWrite(i))
    requires Ready(world.manifest, a, NoteWrite(i))
    requires KeyOf(world.manifest, NoteWrite(i)) !in a.replies
    ensures exists b :: Advances(world, seen, a, NoteWrite(i), b)
  {
    var m := world.manifest;
    var w := NoteWrite(i);
    var spec := m.notes[i];
    var ctx := Snapshot(m, a);
    DesiredReady(m, a, i);
    var d := DesiredIds(spec, ctx).value;
    var n := Note(a.nextId, spec.title, spec.noteType, spec.privacy, d.spaceId, d.tagIds, d.links, false, false,
                  spec.body, 1, world.derive(spec.noteType, spec.body));
    var b := Recorded(a.(notes := a.notes + [n], nextId := a.nextId + 1), spec.idempotencyKey,
                      NoteAnswer(n, Revision(n.id, 1, n), false));
    NoteKnown(m, a, b, i, n);
    DesiredStable(spec, ctx, Snapshot(m, b));
    VerifyNoteMeaning(n, spec, Snapshot(m, b), i != 0);
    assert if spec.updateBody.Some? then HalfDone(n, spec, Snapshot(m, b)) else Finished(n, spec, Snapshot(m, b));
    NoteRecognised(m, a, b, i, n);
    NoteFrame(m, a, b, w, n);
    NoteExchange(world, seen, a, i, n, b);
  }

  lemma NoteExchange(world: World, seen: Settings, a: Account, i: nat, n: Note, b: Account)
    requires WellFormed(world.manifest) && i < |world.manifest.notes|
    requires !Done(world.manifest, a, NoteWrite(i))
    requires KeyOf(world.manifest, NoteWrite(i)) !in a.replies
    requires var m := world.manifest; var spec := m.notes[i];
             && DesiredIds(spec, Snapshot(m, a)).Ok?
             && var d := DesiredIds(spec, Snapshot(m, a)).value;
             && n == Note(a.nextId, spec.title, spec.noteType, spec.privacy, d.spaceId, d.tagIds, d.links, false, false,
                          spec.body, 1, world.derive(spec.noteType, spec.body))
             && b == Recorded(a.(notes := a.notes + [n], nextId := a.nextId + 1), spec.idempotencyKey,
                              NoteAnswer(n, Revision(n.id, 1, n), false))
             && Snapshot(m, b) == Snapshot(m, a).(notes := Snapshot(m, a).notes[spec.key := n])
             && VerifyNote(n, spec, Snapshot(m, b), i != 0).Ok?
             && Recognised(m, b)
             && forall x | Planned(m, x) :: Done(m, b, x) <==> Done(m, a, x) || x == NoteWrite(i)
    ensures exists c :: Advances(world, seen, a, NoteWrite(i), c)
  {
    hide Recognised, Done, VerifyNote, Satisfied, NameMap, ByKey, DesiredIds;
    var m := world.manifest;
    Unsatisfied(m, seen, a, NoteWrite(i));
    assert Advances(world, seen, a, NoteWrite(i), b);
  }

  lemma NamedReplace(items: seq<Note>, allowed: set<string>, k: nat, item: Note)
    requires Named(items, NoteTitle, allowed) && k < |items| && items[k].title == item.title
    ensures Named(items[k := item], NoteTitle, allowed)
  {
    assert forall i | 0 <= i < |items| :: NoteTitle(items[k := item][i]) == NoteTitle(items[i]);
  }

  lemma {:induction false} NameMapReplace(items: seq<Note>, allowed: set<string>, k: nat, item: Note)
    requires Named(items, NoteTitle, allowed) && k < |items| && items[k].title == item.title
    ensures NameMap(items[k := item], NoteTitle) == NameMap(items, NoteTitle)[item.title := item]
  {
    var n := |items| - 1;
    var last := items[n];
    if k == n {
      assert items[k := item][..n] == items[..n];
    } else {
      NamedSplits(items, NoteTitle, allowed);
      assert items[k := item][..n] == items[..n][k := item];
      NameMapReplace(items[..n], allowed, k, item);
      assert NoteTitle(items[..n][k]) == item.title;
      assert last.title != item.title;
    }
  }

  lemma UpdateKnown(m: Manifest, a: Account, b: Account, i: nat, k: nat, n: Note)
    requires WellFormed(m) && i < |m.notes| && Named(a.notes, NoteTitle, Names(NotePairs(m)))
    requires k < |a.notes| && a.notes[k].title == n.title == m.notes[i].title && a.notes[k].id == n.id
    requires b.notes == a.notes[k := n] && b.spaces == a.spaces && b.tags == a.tags
    ensures Named(b.notes, NoteTitle, Names(NotePairs(m)))
    ensures NotesOf(b) == NotesOf(a)[n.title := n]
    ensures Snapshot(m, b) == Snapshot(m, a).(notes := Snapshot(m, a).notes[m.notes[i].key := n])
    ensures Extends(Snapshot(m, a), Snapshot(m, b))
  {
    NamedReplace(a.notes, Names(NotePairs(m)), k, n);
    NameMapReplace(a.notes, Names(NotePairs(m)), k, n);
    PairsDistinct(m);
    assert NotePairs(m)[i] == Pair(m.notes[i].key, m.notes[i].title);
    ByKeyAdds(NotePairs(m), NotesOf(a), i, n);
    SnapshotFinds(m, a);
    NameMapFinds(a.notes, NoteTitle);
    assert NotesOf(a)[NoteTitle(a.notes[k])] == a.notes[k];
  }

  lemma UpdateRecognised(m: Manifest, a: Account, b: Account, i: nat, k: nat, n: Note)
    requires WellFormed(m) && i < |m.notes| && Recognised(m, a)
    requires k < |a.notes| && a.notes[k].title == n.title == m.notes[i].title && a.notes[k].id == n.id
    requires b.notes == a.notes[k := n] && b.spaces == a.spaces && b.tags == a.tags && b.foreign == a.foreign
    requires Finished(n, m.notes[i], Snapshot(m, b))
    ensures Recognised(m, b)
  {
    UpdateKnown(m, a, b, i, k, n);
    OtherNotesFit(m, a, b, i, n);
  }

  lemma UpdateAdvances(world: World, seen: Settings, a: Account, i: nat)
    requires WellFormed(world.manifest) && Structures(world) && Consistent(a) && Recognised(world.manifest, a)
    requires Planned(world.manifest, UpdateWrite(i)) && !Done(world.manifest, a, UpdateWrite(i))
    requires Ready(world.manifest, a, UpdateWrite(i))
    requires KeyOf(world.manifest, UpdateWrite(i)) !in a.replies
    ensures exists b :: Advances(world, seen, a, UpdateWrite(i), b)
  {
    var m := world.manifest;
    var spec := m.notes[i];
    var ctx := Snapshot(m, a);
    assert SpecResolves(m, i);
    var note := NotesOf(a)[spec.title];
    VerifyNoteMeaning(note, spec, ctx, true);
    assert HalfDone(note, spec, ctx);
    NameMapFinds(a.notes, NoteTitle);
    NoteIndexFinds(a, note);
    var k := NoteIndex(a.notes, note.id).value;
    var n := note.(body := spec.updateBody.value, revision := 2, structured := world.derive(note.noteType,
        spec.updateBody.value));
    var b := Recorded(a.(notes := a.notes[k := n]), spec.updateKey.value, NoteAnswer(n, Revision(n.id, 2, n), false));
    UpdateKnown(m, a, b, i, k, n);
    DesiredStable(spec, ctx, Snapshot(m, b));
    assert Finished(n, spec, Snapshot(m, b));
    VerifyNoteMeaning(n, spec, Snapshot(m, b), false);
    UpdateRecognised(m, a, b, i, k, n);
    NoteFrame(m, a, b, UpdateWrite(i), n);
    UpdateExchange(world, seen, a, i, k, n, b);
  }

  lemma UpdateExchange(world: World, seen: Settings, a: Account, i: nat, k: nat, n: Note, b: Account)
    requires WellFormed(world.manifest) && Planned(world.manifest, UpdateWrite(i))
    requires KeyOf(world.manifest, UpdateWrite(i)) !in a.replies
    requires var m := world.manifest; var spec := m.notes[i];
             && spec.updateKey.Some?
             && spec.title in NotesOf(a)
             && var note := NotesOf(a)[spec.title];
             && NoteIndex(a.notes, note.id) == Some(k) && a.notes[k] == note && note.revision == 1
             && VerifyNote(note, spec, Snapshot(m, a), true) == Ok(IncompleteWorkout)
             && n == note.(body := spec.updateBody.value, revision := 2,
                           structured := world.derive(note.noteType, spec.updateBody.value))
             && b == Recorded(a.(notes := a.notes[k := n]), spec.updateKey.value, NoteAnswer(n, Revision(n.id, 2, n),
                 false))
             && Snapshot(m, b) == Snapshot(m, a).(notes := Snapshot(m, a).notes[spec.key := n])
             && VerifyNote(n, spec, Snapshot(m, b), false).Ok?
             && Recognised(m, b)
             && forall x | Planned(m, x) :: Done(m, b, x) <==> Done(m, a, x) || x == UpdateWrite(i)
    ensures exists c :: Advances(world, seen, a, UpdateWrite(i), c)
  {
    hide Recognised, Done, VerifyNote, Satisfied, NameMap, ByKey;
    var m := world.manifest;
    SnapshotFinds(m, a);
    UpdateUnsatisfied(m, seen, a, i);
    assert Advances(world, seen, a, UpdateWrite(i), b);
  }

  /** Any planned write that is ready and not done advances the account by itself alone. */
  lemma WriteAdvances(world: World, seen: Settings, a: Account, w: Write)
    requires WellFormed(world.manifest) && Structures(world) && Consistent(a) && Recognised(world.manifest, a)
    requires Planned(world.manifest, w) && !Done(world.manifest, a, w) && Ready(world.manifest, a, w)
    requires KeyOf(world.manifest, w) !in a.replies
    requires w.SettingsWrite? ==> seen == a.settings
    ensures exists b :: Advances(world, seen, a, w, b)
  {
    match w {
      case SettingsWrite => SettingsAdvances(world, a);
      case SpaceWrite(i) => SpaceAdvances(world, seen, a, i);
      case TagWrite(i) => TagAdvances(world, seen, a, i);
      case NoteWrite(i) => NoteAdvances(world, seen, a, i);
      case UpdateWrite(i) => UpdateAdvances(world, seen, a, i);
    }
  }

  /** A write that is done is recognised as done. */
  lemma DoneIsSkipped(m: Manifest, seen: Settings, a: Account, w: Write)
    requires WellFormed(m) && Recognised(m, a) && Planned(m, w) && Done(m, a, w)
    requires w.SettingsWrite? ==> seen == a.settings
    ensures Satisfied(m, Snapshot(m, a), seen, w) == Ok(true)
  {
    SnapshotFinds(m, a);
    if w.NoteWrite? || w.UpdateWrite? {
      var note := NotesOf(a)[m.notes[w.i].title];
      VerifyNoteMeaning(note, m.notes[w.i], Snapshot(m, a), true);
      VerifyNoteMeaning(note, m.notes[w.i], Snapshot(m, a), false);
    }
  }
}
