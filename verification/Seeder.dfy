/**
  The seeding client: what it reads, what it refuses, and what each write of the plan does.
  A run is a fold of `Step` over the plan; the methods in `SeedRun` compute this fold.
 */
module Seeder {
  import opened Wrappers
  import opened Portfolio
  import opened DemoServer

  /** The manifest, and how the service structures note bodies. */
  datatype World = World(manifest: Manifest, derive: Derive)

  /** What the client knows by manifest key. */
  datatype Context = Context(spaces: map<string, Space>, tags: map<string, Tag>, notes: map<string, Note>)

  /** What the client read, by name. */
  datatype Existing = Existing(spaces: map<string, Space>, tags: map<string, Tag>, notes: map<string, Note>)

  function SpaceName(s: Space): string { s.name }
  function TagName(t: Tag): string { t.name }
  function NoteTitle(n: Note): string { n.title }

  // ----- reading lists by name -----

  function NameMap<T>(items: seq<T>, name: T -> string): map<string, T> {
    if items == [] then map[]
    else
      var last := items[|items| - 1];
      NameMap(items[..|items| - 1], name)[name(last) := last]
  }

  function UniqueByName<T>(items: seq<T>, name: T -> string, allowed: set<string>): Result<map<string, T>> {
    if items == [] then Ok(map[])
    else
      var last := items[|items| - 1];
      var rest :- UniqueByName(items[..|items| - 1], name, allowed);
      if name(last) !in allowed then Err("unexpected_account_data")
      else if name(last) in rest then Err("duplicate_inventory_item")
      else Ok(rest[name(last) := last])
  }

  /** Every item has an allowed name and no two share one. */
  ghost predicate Named<T(!new)>(items: seq<T>, name: T -> string, allowed: set<string>) {
    && (forall i | 0 <= i < |items| :: name(items[i]) in allowed)
    && (forall i, j | 0 <= i < j < |items| :: name(items[i]) != name(items[j]))
  }

  ghost predicate HasName<T>(items: seq<T>, name: T -> string, k: string) {
    exists i | 0 <= i < |items| :: name(items[i]) == k
  }

  lemma {:induction false} NameMapFinds<T(!new)>(items: seq<T>, name: T -> string)
    ensures forall k :: k in NameMap(items, name) <==> exists i | 0 <= i < |items| :: name(items[i]) == k
    ensures forall k :: k in NameMap(items, name) ==>
                          NameMap(items, name)[k] in items && name(NameMap(items, name)[k]) == k
    ensures (forall i, j | 0 <= i < j < |items| :: name(items[i]) != name(items[j])) ==>
              forall i | 0 <= i < |items| :: NameMap(items, name)[name(items[i])] == items[i]
  {
    if items != [] {
      var prefix := items[..|items| - 1];
      var last := items[|items| - 1];
      NameMapFinds(prefix, name);
      assert forall i | 0 <= i < |prefix| :: prefix[i] == items[i];
      forall k ensures k in NameMap(items, name) <==> HasName(items, name, k) {
        HasOneMore(prefix, last, items, name, k);
        assert k in NameMap(prefix, name) <==> HasName(prefix, name, k);
      }
      forall k ensures HasName(items, name, k) <==> exists i | 0 <= i < |items| :: name(items[i]) == k {
      }
    }
  }

  /** One more item adds its name. */
  lemma HasOneMore<T>(prefix: seq<T>, last: T, items: seq<T>, name: T -> string, k: string)
    requires items == prefix + [last]
    ensures HasName(items, name, k) <==> HasName(prefix, name, k) || k == name(last)
  {
    if HasName(prefix, name, k) {
      var i :| 0 <= i < |prefix| && name(prefix[i]) == k;
      assert name(items[i]) == k;
    }
    assert name(items[|prefix|]) == name(last);
  }

  lemma NamedSplits<T(!new)>(items: seq<T>, name: T -> string, allowed: set<string>)
    requires items != []
    ensures var prefix, last := items[..|items| - 1], items[|items| - 1];
            Named(items, name, allowed) <==>
            Named(prefix, name, allowed) && name(last) in allowed && forall i | 0 <= i < |prefix| ::
                name(prefix[i]) != name(last)
  {
    var prefix, last := items[..|items| - 1], items[|items| - 1];
    assert forall i | 0 <= i < |prefix| :: prefix[i] == items[i];
    if Named(prefix, name, allowed) && name(last) in allowed && forall i | 0 <= i < |prefix| ::
        name(prefix[i]) != name(last) {
      forall i | 0 <= i < |items| ensures name(items[i]) in allowed {
        assert i < |prefix| ==> name(prefix[i]) in allowed;
      }
      forall i, j | 0 <= i < j < |items| ensures name(items[i]) != name(items[j]) {
        assert name(prefix[i]) == name(items[i]);
        if j < |prefix| {
          assert name(prefix[j]) == name(items[j]);
        }
      }
    } else if Named(items, name, allowed) {
      assert Named(prefix, name, allowed);
    }
  }

  /** A listing is accepted exactly when every name is allowed and none repeats. */
  lemma {:induction false} UniqueByNameAccepts<T(!new)>(items: seq<T>, name: T -> string, allowed: set<string>)
    ensures UniqueByName(items, name, allowed).Ok? <==> Named(items, name, allowed)
    ensures UniqueByName(items, name, allowed).Ok? ==> UniqueByName(items, name, allowed).value == NameMap(items, name)
  {
    if items != [] {
      var prefix := items[..|items| - 1];
      UniqueByNameAccepts(prefix, name, allowed);
      NameMapFinds(prefix, name);
      NamedSplits(items, name, allowed);
    }
  }

  // ----- from names to manifest keys -----

  datatype Pair = Pair(key: string, name: string)

  function ByKey<T>(pairs: seq<Pair>, existing: map<string, T>): map<string, T> {
    if pairs == [] then map[]
    else
      var rest := ByKey(pairs[..|pairs| - 1], existing);
      var last := pairs[|pairs| - 1];
      if last.name in existing then rest[last.key := existing[last.name]] else rest
  }

  ghost predicate DistinctPairs(pairs: seq<Pair>) {
    && (forall i, j | 0 <= i < j < |pairs| :: pairs[i].key != pairs[j].key)
    && (forall i, j | 0 <= i < j < |pairs| :: pairs[i].name != pairs[j].name)
  }

  lemma {:induction false} ByKeyFinds<T>(pairs: seq<Pair>, existing: map<string, T>)
    requires DistinctPairs(pairs)
    ensures forall k :: k in ByKey(pairs, existing) <==>
                          exists i | 0 <= i < |pairs| :: pairs[i].key == k && pairs[i].name in existing
    ensures forall i | 0 <= i < |pairs| && pairs[i].name in existing ::
              pairs[i].key in ByKey(pairs, existing) && ByKey(pairs, existing)[pairs[i].key] == existing[pairs[i].name]
  {
    if pairs != [] {
      var prefix := pairs[..|pairs| - 1];
      var last := pairs[|pairs| - 1];
      ByKeyFinds(prefix, existing);
      assert forall i | 0 <= i < |prefix| :: prefix[i] == pairs[i];
      forall k ensures k in ByKey(pairs, existing) <==>
                       exists i | 0 <= i < |pairs| :: pairs[i].key == k && pairs[i].name in existing {
        if k in ByKey(prefix, existing) {
          var i :| 0 <= i < |prefix| && prefix[i].key == k && prefix[i].name in existing;
          assert pairs[i].key == k;
        } else if exists i | 0 <= i < |pairs| :: pairs[i].key == k && pairs[i].name in existing {
          var i :| 0 <= i < |pairs| && pairs[i].key == k && pairs[i].name in existing;
          assert i == |pairs| - 1;
        } else if last.name in existing {
          assert pairs[|pairs| - 1].key == last.key;
        }
      }
    }
  }

  /** Learning one more item by name is learning it by key. */
  lemma ByKeyAdds<T>(pairs: seq<Pair>, existing: map<string, T>, i: nat, item: T)
    requires DistinctPairs(pairs) && i < |pairs|
    ensures ByKey(pairs, existing[pairs[i].name := item]) == ByKey(pairs, existing)[pairs[i].key := item]
  {
    var more := existing[pairs[i].name := item];
    ByKeyFinds(pairs, existing);
    ByKeyFinds(pairs, more);
    var left, right := ByKey(pairs, more), ByKey(pairs, existing)[pairs[i].key := item];
    forall k ensures k in left <==> k in right {
      if k in left {
        var j :| 0 <= j < |pairs| && pairs[j].key == k && pairs[j].name in more;
        assert j != i ==> pairs[j].name in existing;
      }
      if k in ByKey(pairs, existing) {
        var j :| 0 <= j < |pairs| && pairs[j].key == k && pairs[j].name in existing;
        assert pairs[j].name in more;
      }
    }
    forall k | k in left ensures left[k] == right[k] {
      var j :| 0 <= j < |pairs| && pairs[j].key == k && pairs[j].name in more;
      if j != i {
        assert pairs[j].name in existing;
      }
    }
  }

  function SpacePairs(m: Manifest): seq<Pair> {
    seq(|m.spaces|, i requires 0 <= i < |m.spaces| => Pair(m.spaces[i].key, m.spaces[i].name))
  }

  function TagPairs(m: Manifest): seq<Pair> {
    seq(|m.tags|, i requires 0 <= i < |m.tags| => Pair(m.tags[i].key, m.tags[i].name))
  }

  function NotePairs(m: Manifest): seq<Pair> {
    seq(|m.notes|, i requires 0 <= i < |m.notes| => Pair(m.notes[i].key, m.notes[i].title))
  }

  function Names(pairs: seq<Pair>): set<string> {
    set p | p in pairs :: p.name
  }

  // ----- verifying a note -----

  function Insert(x: nat, s: seq<nat>): seq<nat> {
    if s == [] || x <= s[0] then [x] + s else [s[0]] + Insert(x, s[1..])
  }

  function Sort(s: seq<nat>): seq<nat> {
    if s == [] then [] else Insert(s[0], Sort(s[1..]))
  }

  /** Both lists sorted agree position by position. */
  predicate SameValues(left: seq<nat>, right: seq<nat>) {
    var l, r := Sort(left), Sort(right);
    |l| == |r| && forall i | 0 <= i < |l| :: l[i] == r[i]
  }

  /** Identifiers the note must carry; none when a dependency is not known yet. */
  datatype Desired = Desired(spaceId: Option<nat>, tagIds: seq<nat>, links: seq<Link>)

  function DesiredIds(spec: NoteSpec, ctx: Context): Result<Desired> {
    if spec.space.Some? && spec.space.value !in ctx.spaces then Err("fixture_dependency_missing")
    else if exists t :: t in spec.tags && t !in ctx.tags then Err("fixture_dependency_missing")
    else if spec.linkTo.Some? && spec.linkTo.value !in ctx.notes then Err("fixture_dependency_missing")
    else Ok(Desired(
        if spec.space.Some? then Some(ctx.spaces[spec.space.value].id) else None,
        seq(|spec.tags|,
            i requires 0 <= i < |spec.tags| => assert spec.tags[i] in spec.tags; ctx.tags[spec.tags[i]].id),
        if spec.linkTo.Some? then [Link("related", ctx.notes[spec.linkTo.value].id)] else []))
  }

  datatype Progress = Complete | IncompleteWorkout

  function VerifyNote(note: Note, spec: NoteSpec, ctx: Context, allowIncomplete: bool): Result<Progress> {
    var desired :- DesiredIds(spec, ctx);
    var incomplete := allowIncomplete && spec.updateBody.Some? && note.body == spec.body && note.revision == 1;
    if note.title != spec.title || note.noteType != spec.noteType || note.privacy != spec.privacy
       || note.spaceId != desired.spaceId || note.archived || note.deleted
       || !SameValues(note.tagIds, desired.tagIds)
       || |note.links| != |desired.links|
       || (exists i :: 0 <= i < |note.links| && i < |desired.links| && note.links[i] != desired.links[i])
       || (!incomplete && (note.body != spec.FinalBody() || note.revision != spec.FinalRevision()))
    then Err("fixture_mismatch")
    else if incomplete then
      if note.structured == Entries([]) then Ok(IncompleteWorkout) else Err("fixture_schema_mismatch")
    else if note.structured != spec.structured then Err("fixture_schema_mismatch")
    else Ok(Complete)
  }

  // ----- preflight and postflight -----

  function ExpectedMaps(m: Manifest, a: Account): Result<Existing>
    requires 0 < |m.notes|
  {
    if a.foreign.captures > 0 || a.foreign.deletedNotes > 0 || a.foreign.reviewItems > 0
       || a.foreign.routingRules > 0 || a.foreign.providerKey
    then Err("account_not_pristine")
    else
      var spaces :- UniqueByName(a.spaces, SpaceName, Names(SpacePairs(m)));
      var tags :- UniqueByName(a.tags, TagName, Names(TagPairs(m)));
      var notes :- UniqueByName(a.notes, NoteTitle, Names(NotePairs(m)));
      if (|spaces| > 0 || |tags| > 0 || |notes| > 0) && m.notes[0].title !in notes then Err("fixture_marker_missing")
      else if exists i :: 0 <= i < |m.spaces| && m.spaces[i].name in spaces
                          && !SpaceFits(spaces[m.spaces[i].name], m.spaces[i])
      then Err("fixture_mismatch")
      else Ok(Existing(spaces, tags, notes))
  }

  predicate SpaceFits(space: Space, spec: SpaceSpec) {
    space.parentId.None? && !space.archived && space.sortKey == spec.sortKey
  }

  /** Reads, one by one, the notes listed under the titles of the first `n` specs. */
  function FetchNotes(m: Manifest, a: Account, existing: map<string, Note>, n: nat): Result<map<string, Note>>
    requires n <= |m.notes|
  {
    if n == 0 then Ok(map[])
    else
      var rest :- FetchNotes(m, a, existing, n - 1);
      var spec := m.notes[n - 1];
      if spec.title !in existing then Ok(rest)
      else
        var at := NoteIndex(a.notes, existing[spec.title].id);
        if at.None? then Err("remote_api_error") else Ok(rest[spec.key := a.notes[at.value]])
  }

  function VerifyNotes(m: Manifest, ctx: Context, n: nat, allowIncomplete: bool): Result<()>
    requires n <= |m.notes|
  {
    if n == 0 then Ok(())
    else
      var _ :- VerifyNotes(m, ctx, n - 1, allowIncomplete);
      var spec := m.notes[n - 1];
      if spec.key !in ctx.notes then Ok(())
      else var _ :- VerifyNote(ctx.notes[spec.key], spec, ctx, allowIncomplete); Ok(())
  }

  /** The whole reading phase: what the client knows when every note it found is in order. */
  function Inspect(m: Manifest, a: Account, allowIncomplete: bool): Result<Context>
    requires 0 < |m.notes|
  {
    var existing :- ExpectedMaps(m, a);
    var notes :- FetchNotes(m, a, existing.notes, |m.notes|);
    var ctx := Context(ByKey(SpacePairs(m), existing.spaces), ByKey(TagPairs(m), existing.tags), notes);
    var _ :- VerifyNotes(m, ctx, |m.notes|, allowIncomplete);
    Ok(ctx)
  }

  function Preflight(m: Manifest, a: Account): Result<Context>
    requires 0 < |m.notes|
  {
    Inspect(m, a, true)
  }

  predicate SettingsMatch(m: Manifest, s: Settings) {
    s.locale == m.settings.locale && s.timezone == m.settings.timezone
  }

  function VerifyComplete(m: Manifest, a: Account): Result<()>
    requires 0 < |m.notes|
  {
    var existing :- ExpectedMaps(m, a);
    if |existing.spaces| != |m.spaces| || |existing.tags| != |m.tags| || |existing.notes| != |m.notes|
    then Err("postflight_fixture_incomplete")
    else if !SettingsMatch(m, a.settings) then Err("fixture_settings_mismatch")
    else var _ :- Inspect(m, a, false); Ok(())
  }

  // ----- one write -----

  /** Whether the write is already in place, for the client that knows `ctx` and read `seen`. */
  function Satisfied(m: Manifest, ctx: Context, seen: Settings, w: Write): Result<bool>
    requires Planned(m, w)
  {
    match w
    case SettingsWrite => Ok(SettingsMatch(m, seen))
    case SpaceWrite(i) => Ok(m.spaces[i].key in ctx.spaces)
    case TagWrite(i) => Ok(m.tags[i].key in ctx.tags)
    case NoteWrite(i) =>
      var spec := m.notes[i];
      if spec.key !in ctx.notes then Ok(false)
      else var _ :- VerifyNote(ctx.notes[spec.key], spec, ctx, i != 0); Ok(true)
    case UpdateWrite(i) =>
      var spec := m.notes[i];
      if spec.key !in ctx.notes then Err("fixture_dependency_missing")
      else var p :- VerifyNote(ctx.notes[spec.key], spec, ctx, true); Ok(p == Complete)
  }

  function RequestFor(m: Manifest, ctx: Context, seen: Settings, w: Write): Result<Request>
    requires Planned(m, w)
  {
    match w
    case SettingsWrite =>
      Ok(UpdateSettings(m.settings.idempotencyKey, m.settings.locale, m.settings.timezone, seen.revision))
    case SpaceWrite(i) => Ok(CreateSpace(m.spaces[i].idempotencyKey, m.spaces[i].name, m.spaces[i].sortKey))
    case TagWrite(i) => Ok(CreateTag(m.tags[i].idempotencyKey, m.tags[i].name))
    case NoteWrite(i) =>
      var spec := m.notes[i];
      var d :- DesiredIds(spec, ctx);
      Ok(CreateNote(spec.idempotencyKey, spec.title, spec.noteType, spec.privacy, spec.body,
                    d.spaceId, d.tagIds, d.links))
    case UpdateWrite(i) =>
      var spec := m.notes[i];
      if spec.updateKey.None? then Err("fixture_mismatch")
      else if spec.key !in ctx.notes then Err("fixture_dependency_missing")
      else Ok(UpdateNote(spec.updateKey.value, ctx.notes[spec.key].id, spec.updateBody.value, 1))
  }

  /** The record returned with a note mutation describes that note at that revision. */
  predicate Bound(note: Note, record: Revision, expectedId: Option<nat>, revision: nat) {
    && (expectedId.Some? ==> note.id == expectedId.value)
    && note.id == record.noteId
    && note.revision == revision
    && record.revision == revision
    && record.snapshot == note
  }

  function CheckAnswer(m: Manifest, ctx: Context, seen: Settings, w: Write, answer: Answer): Result<Context>
    requires Planned(m, w)
  {
    match (w, answer)
    case (SettingsWrite, SettingsAnswer(s, _)) =>
      if s.revision != seen.revision + 1 || !SettingsMatch(m, s) then Err("fixture_settings_mismatch") else Ok(ctx)
    case (SpaceWrite(i), SpaceAnswer(s, _)) =>
      if s.name != m.spaces[i].name || !SpaceFits(s, m.spaces[i]) then Err("fixture_mismatch")
      else Ok(ctx.(spaces := ctx.spaces[m.spaces[i].key := s]))
    case (TagWrite(i), TagAnswer(t, _)) =>
      if t.name != m.tags[i].name then Err("fixture_mismatch")
      else Ok(ctx.(tags := ctx.tags[m.tags[i].key := t]))
    case (NoteWrite(i), NoteAnswer(n, record, _)) =>
      if !Bound(n, record, None, 1) then Err("response_identity_mismatch")
      else
        var more := ctx.(notes := ctx.notes[m.notes[i].key := n]);
        var _ :- VerifyNote(n, m.notes[i], more, i != 0);
        Ok(more)
    case (UpdateWrite(i), NoteAnswer(n, record, _)) =>
      var key := m.notes[i].key;
      if key !in ctx.notes || !Bound(n, record, Some(ctx.notes[key].id), 2) then Err("response_identity_mismatch")
      else
        var more := ctx.(notes := ctx.notes[key := n]);
        var _ :- VerifyNote(n, m.notes[i], more, false);
        Ok(more)
    case _ => Err("remote_api_error")
  }

  // ----- a run -----

  datatype Summary = Summary(attempted: nat, replayed: nat, skipped: nat)

  datatype Run = Run(account: Account, faults: seq<Fault>, ctx: Context, summary: Summary, failure: Option<string>)

  function Attempt(world: World, seen: Settings, w: Write, q: Request, run: Run): Run
    requires Planned(world.manifest, w)
  {
    var (account, answer) := Exchange(world.derive, run.account, NextFault(run.faults), q);
    var sent := run.(account := account, faults := LaterFaults(run.faults));
    if answer.None? then sent.(failure := Some("unexpected_failure"))
    else
      match CheckAnswer(world.manifest, run.ctx, seen, w, answer.value)
      case Err(code) => sent.(failure := Some(code))
      case Ok(ctx) =>
        assert !answer.value.Refused?;
        sent.(ctx := ctx,
              summary := run.summary.(attempted := run.summary.attempted + 1,
                                      replayed := run.summary.replayed + if answer.value.replayed then 1 else 0))
  }

  /** One write of the plan: skip it, or issue it and check the answer. A failed run stays failed. */
  function Step(world: World, seen: Settings, w: Write, run: Run): Run
    requires Planned(world.manifest, w)
  {
    if run.failure.Some? then run
    else
      match Satisfied(world.manifest, run.ctx, seen, w)
      case Err(code) => run.(failure := Some(code))
      case Ok(true) => run.(summary := run.summary.(skipped := run.summary.skipped + 1))
      case Ok(false) =>
        match RequestFor(world.manifest, run.ctx, seen, w)
        case Err(code) => run.(failure := Some(code))
        case Ok(q) => Attempt(world, seen, w, q, run)
  }

  predicate AllPlanned(m: Manifest, writes: seq<Write>) {
    forall i | 0 <= i < |writes| :: Planned(m, writes[i])
  }

  function Steps(world: World, seen: Settings, writes: seq<Write>, run: Run): Run
    requires AllPlanned(world.manifest, writes)
  {
    if writes == [] then run
    else Step(world, seen, writes[|writes| - 1], Steps(world, seen, writes[..|writes| - 1], run))
  }

  const NOTHING := Context(map[], map[], map[])

  /** The write phase, after a preflight that must pass. */
  function SeedPortfolio(world: World, a: Account, faults: seq<Fault>): Run
    requires 0 < |world.manifest.notes|
  {
    var m := world.manifest;
    assert AllPlanned(m, Plan(m)) by {
      forall k | 0 <= k < |Plan(m)| ensures Planned(m, Plan(m)[k]) { PlanPositions(m, k); }
    }
    match Preflight(m, a)
    case Err(code) => Run(a, faults, NOTHING, Summary(0, 0, 0), Some(code))
    case Ok(ctx) => Steps(world, a.settings, Plan(m), Run(a, faults, ctx, Summary(0, 0, 0), None))
  }

  /** A whole portfolio run: preflight, writes, and the final census. */
  function ExecutePortfolio(world: World, a: Account, faults: seq<Fault>): Run
    requires 0 < |world.manifest.notes|
  {
    var run := SeedPortfolio(world, a, faults);
    if run.failure.Some? then run
    else
      match VerifyComplete(world.manifest, run.account)
      case Err(code) => run.(failure := Some(code))
      case Ok(_) => run
  }
}
