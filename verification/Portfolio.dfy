/**
  The demo portfolio: what a manifest is, when it is well formed, the sequence of writes it plans,
  and the shipped manifest.
 */
module Portfolio {
  import opened Wrappers

  datatype NoteType = Generic | List | Log | Principle | Project
  datatype Privacy = PrivateManual | AiAssisted

  /** The structured data the service derives from a note body: no structure beyond the schema
      version, checklist rows, or log entries. */
  datatype Structured = Plain | Rows(rows: seq<string>) | Entries(entries: seq<string>)

  datatype SpaceSpec = SpaceSpec(idempotencyKey: string, key: string, name: string, sortKey: string)
  datatype TagSpec = TagSpec(idempotencyKey: string, key: string, name: string)
  datatype SettingsSpec = SettingsSpec(idempotencyKey: string, locale: string, timezone: string)

  /** `structured` is the structure the seeder expects of the finished note. */
  datatype NoteSpec = NoteSpec(
    idempotencyKey: string,
    key: string,
    title: string,
    noteType: NoteType,
    privacy: Privacy,
    body: string,
    space: Option<string>,
    tags: seq<string>,
    linkTo: Option<string>,
    updateBody: Option<string>,
    updateKey: Option<string>,
    structured: Structured)
  {
    function FinalBody(): string {
      if updateBody.Some? then updateBody.value else body
    }

    function FinalRevision(): nat {
      if updateBody.Some? then 2 else 1
    }
  }

  datatype Manifest = Manifest(
    settings: SettingsSpec,
    spaces: seq<SpaceSpec>,
    tags: seq<TagSpec>,
    notes: seq<NoteSpec>)

  const MARKER_KEY := "account-label"

  /** One write of the plan; the indices point into the manifest's lists. */
  datatype Write =
    | NoteWrite(i: nat)
    | SettingsWrite
    | SpaceWrite(i: nat)
    | TagWrite(i: nat)
    | UpdateWrite(i: nat)

  predicate Planned(m: Manifest, w: Write) {
    match w
    case NoteWrite(i) => i < |m.notes|
    case SettingsWrite => true
    case SpaceWrite(i) => i < |m.spaces|
    case TagWrite(i) => i < |m.tags|
    case UpdateWrite(i) => 1 <= i < |m.notes| && m.notes[i].updateBody.Some?
  }

  function KeyOf(m: Manifest, w: Write): string
    requires Planned(m, w)
  {
    match w
    case NoteWrite(i) => m.notes[i].idempotencyKey
    case SettingsWrite => m.settings.idempotencyKey
    case SpaceWrite(i) => m.spaces[i].idempotencyKey
    case TagWrite(i) => m.tags[i].idempotencyKey
    case UpdateWrite(i) => if m.notes[i].updateKey.Some? then m.notes[i].updateKey.value else ""
  }

  predicate IsMarker(spec: NoteSpec) {
    spec.key == MARKER_KEY && spec.space.None? && spec.tags == [] && spec.linkTo.None? && spec.updateBody.None?
  }

  ghost predicate SpaceDefined(m: Manifest, key: string) {
    exists j | 0 <= j < |m.spaces| :: m.spaces[j].key == key
  }

  ghost predicate TagDefined(m: Manifest, key: string) {
    exists j | 0 <= j < |m.tags| :: m.tags[j].key == key
  }

  ghost predicate NoteDefinedBefore(m: Manifest, i: nat, key: string)
    requires i <= |m.notes|
  {
    exists j | 0 <= j < i :: m.notes[j].key == key
  }

  ghost predicate SpecResolves(m: Manifest, i: nat)
    requires i < |m.notes|
  {
    var spec := m.notes[i];
    && (spec.space.Some? ==> SpaceDefined(m, spec.space.value))
    && (forall t | t in spec.tags :: TagDefined(m, t))
    && (spec.linkTo.Some? ==> NoteDefinedBefore(m, i, spec.linkTo.value))
    && (spec.updateBody.Some? <==> spec.updateKey.Some?)
  }

  ghost predicate DistinctSpaces(m: Manifest) {
    && (forall i, j | 0 <= i < j < |m.spaces| :: m.spaces[i].key != m.spaces[j].key)
    && (forall i, j | 0 <= i < j < |m.spaces| :: m.spaces[i].name != m.spaces[j].name)
  }

  ghost predicate DistinctTags(m: Manifest) {
    && (forall i, j | 0 <= i < j < |m.tags| :: m.tags[i].key != m.tags[j].key)
    && (forall i, j | 0 <= i < j < |m.tags| :: m.tags[i].name != m.tags[j].name)
  }

  ghost predicate DistinctNotes(m: Manifest) {
    && (forall i, j | 0 <= i < j < |m.notes| :: m.notes[i].key != m.notes[j].key)
    && (forall i, j | 0 <= i < j < |m.notes| :: m.notes[i].title != m.notes[j].title)
  }

  ghost predicate DistinctKeys(m: Manifest) {
    forall v, w | Planned(m, v) && Planned(m, w) && KeyOf(m, v) == KeyOf(m, w) :: v == w
  }

  /** A manifest the theorems speak about. The first note is the marker. */
  ghost predicate WellFormed(m: Manifest) {
    && 0 < |m.notes|
    && IsMarker(m.notes[0])
    && DistinctSpaces(m)
    && DistinctTags(m)
    && DistinctNotes(m)
    && DistinctKeys(m)
    && forall i | 0 <= i < |m.notes| :: SpecResolves(m, i)
  }

  // ----- the plan -----

  function NoteWrites(m: Manifest, i: nat): seq<Write>
    requires i < |m.notes|
  {
    [NoteWrite(i)] + if m.notes[i].updateBody.Some? then [UpdateWrite(i)] else []
  }

  function SpaceWrites(m: Manifest): seq<Write> {
    seq(|m.spaces|, i requires 0 <= i => SpaceWrite(i))
  }

  function TagWrites(m: Manifest): seq<Write> {
    seq(|m.tags|, i requires 0 <= i => TagWrite(i))
  }

  function Head(m: Manifest): seq<Write> {
    [NoteWrite(0), SettingsWrite] + SpaceWrites(m) + TagWrites(m)
  }

  /** The writes for the notes with index 1 up to `n`, in manifest order. */
  function BodyTo(m: Manifest, n: nat): seq<Write>
    requires n <= |m.notes|
  {
    if n <= 1 then [] else BodyTo(m, n - 1) + NoteWrites(m, n - 1)
  }

  function PlanTo(m: Manifest, n: nat): seq<Write>
    requires n <= |m.notes|
  {
    Head(m) + BodyTo(m, n)
  }

  /** Every write of a run, in the order the seeder issues them. */
  function Plan(m: Manifest): seq<Write> {
    PlanTo(m, |m.notes|)
  }

  function UpdatedNotes(notes: seq<NoteSpec>): nat {
    if notes == [] then 0
    else UpdatedNotes(notes[..|notes| - 1]) + if notes[|notes| - 1].updateBody.Some? then 1 else 0
  }

  function PlannedWrites(m: Manifest): nat {
    1 + |m.spaces| + |m.tags| + |m.notes| + UpdatedNotes(m.notes)
  }

  lemma {:induction false} BodyLength(m: Manifest, n: nat)
    requires 1 <= n <= |m.notes| && IsMarker(m.notes[0])
    ensures |BodyTo(m, n)| == n - 1 + UpdatedNotes(m.notes[..n])
  {
    if n == 1 {
      assert m.notes[..1][..0] == [];
    } else {
      BodyLength(m, n - 1);
      assert m.notes[..n][..n - 1] == m.notes[..n - 1];
    }
  }

  /** The dry run's count is the length of the plan. */
  lemma PlanLength(m: Manifest)
    requires 0 < |m.notes| && IsMarker(m.notes[0])
    ensures |Plan(m)| == PlannedWrites(m)
  {
    BodyLength(m, |m.notes|);
    assert m.notes[..|m.notes|] == m.notes;
  }

  /** Where a write stands in the plan. */
  function Pos(m: Manifest, w: Write): nat
    requires Planned(m, w)
  {
    match w
    case NoteWrite(i) => if i == 0 then 0 else |PlanTo(m, i)|
    case SettingsWrite => 1
    case SpaceWrite(i) => 2 + i
    case TagWrite(i) => 2 + |m.spaces| + i
    case UpdateWrite(i) => |PlanTo(m, i)| + 1
  }

  lemma {:induction false} BodyGrows(m: Manifest, i: nat, n: nat)
    requires 1 <= i <= n <= |m.notes|
    ensures |BodyTo(m, i)| <= |BodyTo(m, n)|
    ensures i < n ==> |BodyTo(m, i)| + |NoteWrites(m, i)| <= |BodyTo(m, n)|
    decreases n
  {
    if i < n {
      BodyGrows(m, i, n - 1);
    }
  }

  lemma {:induction false} BodyAt(m: Manifest, n: nat, k: nat)
    requires n <= |m.notes| && k < |BodyTo(m, n)|
    ensures var w := BodyTo(m, n)[k];
            && (w.NoteWrite? || w.UpdateWrite?) && 1 <= w.i < n && Planned(m, w)
            && k == |BodyTo(m, w.i)| + (if w.UpdateWrite? then 1 else 0)
  {
    if k < |BodyTo(m, n - 1)| {
      BodyAt(m, n - 1, k);
    }
  }

  lemma {:induction false} BodyHas(m: Manifest, n: nat, i: nat)
    requires 1 <= i < n <= |m.notes|
    ensures |BodyTo(m, i)| < |BodyTo(m, n)|
    ensures BodyTo(m, n)[|BodyTo(m, i)|] == NoteWrite(i)
    ensures m.notes[i].updateBody.Some? ==>
              |BodyTo(m, i)| + 1 < |BodyTo(m, n)| && BodyTo(m, n)[|BodyTo(m, i)| + 1] == UpdateWrite(i)
    decreases n
  {
    if i < n - 1 {
      BodyHas(m, n - 1, i);
    }
  }

  /** The plan lists every planned write exactly once, at its position. */
  lemma PlanPositions(m: Manifest, k: nat)
    requires 0 < |m.notes| && k < |Plan(m)|
    ensures Planned(m, Plan(m)[k]) && Pos(m, Plan(m)[k]) == k
  {
    var h := |Head(m)|;
    if k >= h {
      assert Plan(m)[k] == BodyTo(m, |m.notes|)[k - h];
      BodyAt(m, |m.notes|, k - h);
    }
  }

  lemma PlanHas(m: Manifest, w: Write)
    requires 0 < |m.notes| && Planned(m, w)
    ensures Pos(m, w) < |Plan(m)| && Plan(m)[Pos(m, w)] == w
  {
    if (w.NoteWrite? && w.i > 0) || w.UpdateWrite? {
      BodyHas(m, |m.notes|, w.i);
    }
  }

  /** What a write needs comes before it. */
  lemma PlanOrder(m: Manifest, v: Write, w: Write)
    requires 0 < |m.notes| && Planned(m, v) && Planned(m, w)
    ensures v == NoteWrite(0) && w != v ==> Pos(m, v) < Pos(m, w)
    ensures (v.SpaceWrite? || v.TagWrite?) && w.NoteWrite? && w.i > 0 ==> Pos(m, v) < Pos(m, w)
    ensures v.NoteWrite? && w.NoteWrite? && v.i < w.i ==> Pos(m, v) < Pos(m, w)
    ensures v.NoteWrite? && w.UpdateWrite? && v.i == w.i ==> Pos(m, v) < Pos(m, w)
    ensures v.UpdateWrite? && w.NoteWrite? && v.i < w.i ==> Pos(m, v) < Pos(m, w)
  {
    if (v.NoteWrite? || v.UpdateWrite?) && w.NoteWrite? && 0 < v.i < w.i {
      BodyGrows(m, v.i, w.i);
    }
  }

  // ----- the shipped manifest -----

  const VERSION := "g-demo-2026-09-02-v1"

  function Key(suffix: string): string {
    VERSION + "-" + suffix
  }

  lemma KeyInjective(a: string, b: string)
    ensures Key(a) == Key(b) ==> a == b
  {
    var n := |VERSION| + 1;
    assert Key(a)[n..] == a && Key(b)[n..] == b;
  }
}
