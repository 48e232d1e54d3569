/** The manifest that ships with the seeder, and that it is well formed. */
module ShippedPortfolio {
  import opened Wrappers
  import opened Portfolio
  import opened DemoServer
  import opened Seeder
  import opened SeedProgress
  import SeedMeaning
  import SeedTheorems

  const SPACES: seq<SpaceSpec> :=
    [ SpaceSpec(Key("space-life"), "life", "Life", "demo-01-life"),
      SpaceSpec(Key("space-projects"), "projects", "Projects", "demo-02-projects") ]

  const TAGS: seq<TagSpec> :=
    [ TagSpec(Key("tag-synthetic"), "synthetic", "synthetic-demo"),
      TagSpec(Key("tag-shopping"), "shopping", "shopping"),
      TagSpec(Key("tag-fitness"), "fitness", "fitness"),
      TagSpec(Key("tag-mindset"), "mindset", "mindset"),
      TagSpec(Key("tag-project"), "project", "project") ]

  /** The fixture texts, which no property here depends on: the body each note is created with, the
      workout log it is updated to, and the structure expected of the finished note. */
  datatype Texts = Texts(body: nat -> string, workoutLog: string, structured: nat -> Structured)

  function Notes(t: Texts): seq<NoteSpec> {
    [
      NoteSpec(Key("note-account-label"), "account-label", "Synthetic demo data", Generic, PrivateManual,
               t.body(0),
               None, [], None,
               None, None,
               t.structured(0)),
      NoteSpec(Key("note-shopping"), "shopping", "Shopping", List, AiAssisted,
               t.body(1),
               Some("life"), ["synthetic", "shopping"], None,
               None, None,
               t.structured(1)),
      NoteSpec(Key("note-workout"), "workout", "Push workout", Log, AiAssisted,
               t.body(2),
               Some("life"), ["synthetic", "fitness"], None,
               Some(t.workoutLog), Some(Key("note-workout-structure")),
               t.structured(2)),
      NoteSpec(Key("note-mindset"), "mindset", "Mindset", Principle, AiAssisted,
               t.body(3),
               Some("life"), ["synthetic", "mindset"], None,
               None, None,
               t.structured(3)),
      NoteSpec(Key("note-weekend-errands"), "weekend-errands", "Weekend errands", List, PrivateManual,
               t.body(4),
               Some("life"), ["synthetic"], None,
               None, None,
               t.structured(4)),
      NoteSpec(Key("note-project"), "project", "Unfiled demo polish", Project, PrivateManual,
               t.body(5),
               Some("projects"), ["synthetic", "project"], None,
               None, None,
               t.structured(5)),
      NoteSpec(Key("note-garden"), "garden", "Garden notes", Generic, AiAssisted,
               t.body(6),
               Some("projects"), ["synthetic", "project"], Some("weekend-errands"),
               None, None,
               t.structured(6))
    ]
  }

  function Shipped(t: Texts): Manifest {
    Manifest(SettingsSpec(Key("settings-locale-timezone"), "en-US", "America/Los_Angeles"), SPACES, TAGS, Notes(t))
  }

  function Suffix(t: Texts, w: Write): string
    requires Planned(Shipped(t), w)
  {
    if w == NoteWrite(0) then "note-account-label" else
    if w == SettingsWrite then "settings-locale-timezone" else
    if w == SpaceWrite(0) then "space-life" else
    if w == SpaceWrite(1) then "space-projects" else
    if w == TagWrite(0) then "tag-synthetic" else
    if w == TagWrite(1) then "tag-shopping" else
    if w == TagWrite(2) then "tag-fitness" else
    if w == TagWrite(3) then "tag-mindset" else
    if w == TagWrite(4) then "tag-project" else
    if w == NoteWrite(1) then "note-shopping" else
    if w == NoteWrite(2) then "note-workout" else
    if w == UpdateWrite(2) then "note-workout-structure" else
    if w == NoteWrite(3) then "note-mindset" else
    if w == NoteWrite(4) then "note-weekend-errands" else
    if w == NoteWrite(5) then "note-project" else
    "note-garden"
  }

  /** The write whose key has this length and these characters at positions 4 and 5. */
  function WriteOf(length: nat, c: char, d: char): Write {
    if (length, c, d) == (18, '-', 'a') then NoteWrite(0) else
    if (length, c, d) == (24, 'i', 'n') then SettingsWrite else
    if (length, c, d) == (10, 'e', '-') then SpaceWrite(0) else
    if (length, c, d) == (14, 'e', '-') then SpaceWrite(1) else
    if (length, c, d) == (13, 's', 'y') then TagWrite(0) else
    if (length, c, d) == (12, 's', 'h') then TagWrite(1) else
    if (length, c, d) == (11, 'f', 'i') then TagWrite(2) else
    if (length, c, d) == (11, 'm', 'i') then TagWrite(3) else
    if (length, c, d) == (11, 'p', 'r') then TagWrite(4) else
    if (length, c, d) == (13, '-', 's') then NoteWrite(1) else
    if (length, c, d) == (12, '-', 'w') then NoteWrite(2) else
    if (length, c, d) == (22, '-', 'w') then UpdateWrite(2) else
    if (length, c, d) == (12, '-', 'm') then NoteWrite(3) else
    if (length, c, d) == (20, '-', 'w') then NoteWrite(4) else
    if (length, c, d) == (12, '-', 'p') then NoteWrite(5) else
    NoteWrite(6)
  }

  lemma PlannedShipped(t: Texts, w: Write)
    requires Planned(Shipped(t), w)
    ensures w in [
      NoteWrite(0), SettingsWrite, SpaceWrite(0), SpaceWrite(1),
      TagWrite(0), TagWrite(1), TagWrite(2), TagWrite(3), TagWrite(4),
      NoteWrite(1), NoteWrite(2), UpdateWrite(2), NoteWrite(3), NoteWrite(4), NoteWrite(5), NoteWrite(6)
    ]
  {
    assert forall i | 0 <= i < 7 && i != 2 :: Notes(t)[i].updateBody.None?;
    match w {
      case NoteWrite(i) => assert i in {0, 1, 2, 3, 4, 5, 6};
      case SpaceWrite(i) => assert i in {0, 1};
      case TagWrite(i) => assert i in {0, 1, 2, 3, 4};
      case UpdateWrite(i) => assert i == 2;
      case SettingsWrite =>
    }
  }

  lemma NoteSuffixKey(t: Texts, i: nat)
    requires i < 7
    ensures Notes(t)[i].idempotencyKey == Key(Suffix(t, NoteWrite(i)))
  {
    hide Key;
    var w := Suffix(t, NoteWrite(i));
    assert i == 0 ==> w == "note-account-label";
    assert i == 1 ==> w == "note-shopping";
    assert i == 2 ==> w == "note-workout";
    assert i == 3 ==> w == "note-mindset";
    assert i == 4 ==> w == "note-weekend-errands";
    assert i == 5 ==> w == "note-project";
    assert i == 6 ==> w == "note-garden";
  }

  lemma TagSuffixKey(t: Texts, i: nat)
    requires i < |TAGS|
    ensures TAGS[i].idempotencyKey == Key(Suffix(t, TagWrite(i)))
  {
    hide Key, Notes;
  }

  lemma OtherSuffixKey(t: Texts, w: Write)
    requires Planned(Shipped(t), w) && (w.SpaceWrite? || w.SettingsWrite? || w.UpdateWrite?)
    ensures KeyOf(Shipped(t), w) == Key(Suffix(t, w))
  {
    hide Key;
    PlannedShipped(t, w);
  }

  lemma SuffixKey(t: Texts, w: Write)
    requires Planned(Shipped(t), w)
    ensures KeyOf(Shipped(t), w) == Key(Suffix(t, w))
  {
    hide Key, Suffix, Notes;
    match w {
      case NoteWrite(i) =>
        assert |Shipped(t).notes| == 7 by { NotesCount(t); }
        NoteSuffixKey(t, i);
      case TagWrite(i) => TagSuffixKey(t, i);
      case _ => OtherSuffixKey(t, w);
    }
  }

  lemma NotesCount(t: Texts)
    ensures |Notes(t)| == 7
  {
  }

  ghost predicate Tells(t: Texts, w: Write)
    requires Planned(Shipped(t), w)
  {
    var s := Suffix(t, w);
    |s| >= 6 && WriteOf(|s|, s[4], s[5]) == w
  }

  lemma NoteSuffixTells(t: Texts, i: nat)
    requires i < 7
    ensures Tells(t, NoteWrite(i))
  {
    hide Key, Notes;
    assert i in {0, 1, 2, 3, 4, 5, 6};
  }

  lemma SpaceSuffixTells(t: Texts, w: Write)
    requires Planned(Shipped(t), w) && w.SpaceWrite?
    ensures Tells(t, w)
  {
    hide Key, Notes;
    PlannedShipped(t, w);
  }

  lemma SettingsSuffixTells(t: Texts)
    ensures Tells(t, SettingsWrite)
  {
    hide Key, Notes;
  }

  lemma UpdateSuffixTells(t: Texts, w: Write)
    requires Planned(Shipped(t), w) && w.UpdateWrite?
    ensures Tells(t, w)
  {
    hide Key, Notes;
    PlannedShipped(t, w);
  }

  lemma TagSuffixTells(t: Texts, i: nat)
    requires i < |TAGS|
    ensures Tells(t, TagWrite(i))
  {
    hide Key, Notes;
  }

  lemma SuffixTells(t: Texts, w: Write)
    requires Planned(Shipped(t), w)
    ensures Tells(t, w)
  {
    hide Key, Tells;
    match w {
      case NoteWrite(i) => NoteSuffixTells(t, i);
      case TagWrite(i) => TagSuffixTells(t, i);
      case SpaceWrite(_) => SpaceSuffixTells(t, w);
      case SettingsWrite => SettingsSuffixTells(t);
      case UpdateWrite(_) => UpdateSuffixTells(t, w);
    }
  }

  lemma ShippedKeys(t: Texts)
    ensures DistinctKeys(Shipped(t))
  {
    hide Key, Suffix, WriteOf;
    forall v, w | Planned(Shipped(t), v) && Planned(Shipped(t), w) && KeyOf(Shipped(t), v) == KeyOf(Shipped(t), w)
      ensures v == w
    {
      SuffixKey(t, v);
      SuffixKey(t, w);
      KeyInjective(Suffix(t, v), Suffix(t, w));
      SuffixTells(t, v);
      SuffixTells(t, w);
    }
  }

  lemma ShippedSpacesDiffer(t: Texts)
    ensures DistinctSpaces(Shipped(t))
  {
    hide Key;
    assert |SPACES[0].key| != |SPACES[1].key| && |SPACES[0].name| != |SPACES[1].name|;
  }

  function Mark(s: string): (nat, char) {
    (|s|, if s == [] then ' ' else s[0])
  }

  lemma ShippedTagsDiffer(t: Texts)
    ensures DistinctTags(Shipped(t))
  {
    hide Key;
    forall i, j | 0 <= i < j < |TAGS| ensures TAGS[i].key != TAGS[j].key && TAGS[i].name != TAGS[j].name {
      assert Mark(TAGS[i].key) != Mark(TAGS[j].key) && Mark(TAGS[i].name) != Mark(TAGS[j].name);
    }
  }

  lemma ShippedNoteKeysDiffer(t: Texts)
    ensures forall i, j | 0 <= i < j < 7 :: Notes(t)[i].key != Notes(t)[j].key
  {
    hide Key;
    forall i, j | 0 <= i < j < 7 ensures Notes(t)[i].key != Notes(t)[j].key {
      assert Mark(Notes(t)[i].key) != Mark(Notes(t)[j].key);
    }
  }

  lemma ShippedNoteTitlesDiffer(t: Texts)
    ensures forall i, j | 0 <= i < j < 7 :: Notes(t)[i].title != Notes(t)[j].title
  {
    hide Key;
    forall i, j | 0 <= i < j < 7 ensures Notes(t)[i].title != Notes(t)[j].title {
      assert Mark(Notes(t)[i].title) != Mark(Notes(t)[j].title);
    }
  }

  lemma ShippedResolves(t: Texts, i: nat)
    requires i < 7
    ensures SpecResolves(Shipped(t), i)
  {
    hide Key;
    assert SPACES[0].key == "life" && SPACES[1].key == "projects";
    assert TAGS[0].key == "synthetic" && TAGS[1].key == "shopping" && TAGS[2].key == "fitness";
    assert TAGS[3].key == "mindset" && TAGS[4].key == "project";
    assert Notes(t)[4].key == "weekend-errands";
  }

  /** The dry run announces sixteen writes. */
  lemma ShippedSize(t: Texts)
    ensures PlannedWrites(Shipped(t)) == 16
  {
    hide Key;
    var n := Notes(t);
    assert n[..1][..0] == [] && UpdatedNotes(n[..1]) == 0;
    assert n[..2][..1] == n[..1] && UpdatedNotes(n[..2]) == 0;
    assert n[..3][..2] == n[..2] && UpdatedNotes(n[..3]) == 1;
    assert n[..4][..3] == n[..3] && UpdatedNotes(n[..4]) == 1;
    assert n[..5][..4] == n[..4] && UpdatedNotes(n[..5]) == 1;
    assert n[..6][..5] == n[..5] && UpdatedNotes(n[..6]) == 1;
    assert n[..7][..6] == n[..6] && UpdatedNotes(n[..7]) == 1;
    assert n[..7] == n;
  }

  /** The shipped manifest is one the seeding theorems speak about. */
  lemma ShippedWellFormed(t: Texts)
    ensures WellFormed(Shipped(t))
  {
    hide Key, KeyOf, DistinctKeys, DistinctSpaces, DistinctTags, SpecResolves;
    ShippedKeys(t);
    ShippedSpacesDiffer(t);
    ShippedTagsDiffer(t);
    ShippedNoteKeysDiffer(t);
    ShippedNoteTitlesDiffer(t);
    forall i | 0 <= i < 7 ensures SpecResolves(Shipped(t), i) { ShippedResolves(t, i); }
  }

  /** Sixteen writes are accounted for by the run that completes the shipped portfolio, after any
      number of disturbed runs. */
  lemma ShippedCrashResume(t: Texts, derive: Derive, base: Account, schedules: seq<seq<Fault>>, faults: seq<Fault>)
    requires Structures(World(Shipped(t), derive)) && SeedTheorems.Empty(Shipped(t), base) && AllDelivered(faults)
    ensures 0 < |Shipped(t).notes|
    ensures var world := World(Shipped(t), derive);
            var last := ExecutePortfolio(world, SeedTheorems.AfterRuns(world, base, schedules), faults);
            && last.failure.None? && VerifyComplete(Shipped(t), last.account).Ok?
            && last.summary.replayed == 0
            && last.summary.attempted + last.summary.skipped == 16
  {
    hide Shipped, ExecutePortfolio, VerifyComplete, Preflight, SeedTheorems.Reach, SeedTheorems.AfterRuns,
      SeedTheorems.Effects;
    var world := World(Shipped(t), derive);
    ShippedWellFormed(t);
    SeedTheorems.CrashResume(world, base, schedules, faults);
    ShippedSize(t);
    SeedMeaning.WriteAccounting(world, SeedTheorems.AfterRuns(world, base, schedules), faults);
  }
}
