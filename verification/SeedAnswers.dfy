/** What the client believes: which answers it takes, whoever gives them, and what it learns from each. */
module SeedAnswers {
  import opened Wrappers
  import opened Portfolio
  import opened DemoServer
  import opened Seeder
  import opened SeedMeaning

  /** The note is the manifest's, in this body, revision and structure, as far as the client knows the rest. */
  ghost predicate AsPlanned(n: Note, spec: NoteSpec, ctx: Context, body: string, revision: nat,
                            structured: Structured) {
    && n.title == spec.title && n.noteType == spec.noteType && n.privacy == spec.privacy
    && n.body == body && n.revision == revision && n.structured == structured
    && !n.archived && !n.deleted
    && (match spec.space
        case None => n.spaceId == None
        case Some(key) => key in ctx.spaces && n.spaceId == Some(ctx.spaces[key].id))
    && (match spec.linkTo
        case None => n.links == []
        case Some(key) => key in ctx.notes && n.links == [Link("related", ctx.notes[key].id)])
    && (forall t | 0 <= t < |spec.tags| :: spec.tags[t] in ctx.tags)
    && exists ids: seq<nat> ::
         && |ids| == |spec.tags| && (forall t | 0 <= t < |ids| :: ids[t] == ctx.tags[spec.tags[t]].id)
         && multiset(n.tagIds) == multiset(ids)
  }

  lemma CarriesPlanned(n: Note, spec: NoteSpec, ctx: Context, body: string, revision: nat, structured: Structured)
    ensures Carries(n, spec, ctx, body, revision, structured) <==> AsPlanned(n, spec, ctx, body, revision, structured)
  {
    var d := DesiredIds(spec, ctx);
    if AsPlanned(n, spec, ctx, body, revision, structured) {
      var ids: seq<nat> :|
        && |ids| == |spec.tags| && (forall t | 0 <= t < |ids| :: ids[t] == ctx.tags[spec.tags[t]].id)
        && multiset(n.tagIds) == multiset(ids);
      assert d.value.tagIds == ids;
    }
    if Carries(n, spec, ctx, body, revision, structured) {
      assert forall t | 0 <= t < |spec.tags| :: spec.tags[t] in spec.tags;
      assert |d.value.tagIds| == |spec.tags|;
    }
  }

  /** What the client knows once it believes the answer: one more item under its key, and nothing else. */
  function Learned(m: Manifest, ctx: Context, w: Write, answer: Answer): Context
    requires Planned(m, w)
  {
    match (w, answer)
    case (SpaceWrite(i), SpaceAnswer(s, _)) => Context(ctx.spaces[m.spaces[i].key := s], ctx.tags, ctx.notes)
    case (TagWrite(i), TagAnswer(t, _)) => Context(ctx.spaces, ctx.tags[m.tags[i].key := t], ctx.notes)
    case (NoteWrite(i), NoteAnswer(n, _, _)) => Context(ctx.spaces, ctx.tags, ctx.notes[m.notes[i].key := n])
    case (UpdateWrite(i), NoteAnswer(n, _, _)) => Context(ctx.spaces, ctx.tags, ctx.notes[m.notes[i].key := n])
    case _ => ctx
  }

  /** The record is of this very note, as it is now. */
  predicate RecordOf(n: Note, record: Revision) {
    record.noteId == n.id && record.revision == n.revision && record.snapshot == n
  }

  /** The answer is to this write and shows it done. */
  ghost predicate Believable(m: Manifest, ctx: Context, seen: Settings, w: Write, answer: Answer)
    requires Planned(m, w)
  {
    match w
    case SettingsWrite =>
      && answer.SettingsAnswer? && answer.settings.revision == seen.revision + 1
      && answer.settings.locale == m.settings.locale && answer.settings.timezone == m.settings.timezone
    case SpaceWrite(i) =>
      && answer.SpaceAnswer? && answer.space.name == m.spaces[i].name && answer.space.parentId == None
      && !answer.space.archived && answer.space.sortKey == m.spaces[i].sortKey
    case TagWrite(i) => answer.TagAnswer? && answer.tag.name == m.tags[i].name
    case NoteWrite(i) =>
      && answer.NoteAnswer? && RecordOf(answer.note, answer.record)
      && (var spec, known := m.notes[i], Learned(m, ctx, w, answer);
          if spec.updateBody == None then AsPlanned(answer.note, spec, known, spec.body, 1, spec.structured)
          else i > 0 && AsPlanned(answer.note, spec, known, spec.body, 1, Entries([])))
    case UpdateWrite(i) =>
      && answer.NoteAnswer? && RecordOf(answer.note, answer.record)
      && m.notes[i].key in ctx.notes && answer.note.id == ctx.notes[m.notes[i].key].id
      && AsPlanned(answer.note, m.notes[i], Learned(m, ctx, w, answer), m.notes[i].updateBody.value, 2,
                   m.notes[i].structured)
  }

  /** An answer, from whatever service, is taken exactly if it shows the write done, and teaches just that. */
  lemma TakenExactly(m: Manifest, ctx: Context, seen: Settings, w: Write, answer: Answer, known: Context)
    requires Planned(m, w)
    ensures CheckAnswer(m, ctx, seen, w, answer) == Ok(known) <==>
            Believable(m, ctx, seen, w, answer) && known == Learned(m, ctx, w, answer)
  {
    hide VerifyNote, AsPlanned;
    match w {
      case NoteWrite(i) =>
        if answer.NoteAnswer? {
          CreatedTaken(answer.note, m.notes[i], Learned(m, ctx, w, answer), i != 0);
        }
      case UpdateWrite(i) =>
        if answer.NoteAnswer? {
          UpdatedTaken(answer.note, m.notes[i], Learned(m, ctx, w, answer));
        }
      case _ =>
    }
  }

  lemma CreatedTaken(n: Note, spec: NoteSpec, ctx: Context, allow: bool)
    ensures VerifyNote(n, spec, ctx, allow).Ok? && n.revision == 1 <==>
            if spec.updateBody == None then AsPlanned(n, spec, ctx, spec.body, 1, spec.structured)
            else allow && AsPlanned(n, spec, ctx, spec.body, 1, Entries([]))
  {
    hide VerifyNote, AsPlanned, Carries;
    VerifyNoteMeaning(n, spec, ctx, allow);
    CarriesPlanned(n, spec, ctx, spec.FinalBody(), spec.FinalRevision(), spec.structured);
    CarriesPlanned(n, spec, ctx, spec.body, 1, Entries([]));
    CarriedRevision(n, spec, ctx);
    match VerifyNote(n, spec, ctx, allow) {
      case Ok(Complete) =>
      case Ok(IncompleteWorkout) =>
      case Err(_) =>
    }
  }

  lemma UpdatedTaken(n: Note, spec: NoteSpec, ctx: Context)
    requires spec.updateBody.Some?
    ensures VerifyNote(n, spec, ctx, false).Ok? <==> AsPlanned(n, spec, ctx, spec.updateBody.value, 2, spec.structured)
    ensures AsPlanned(n, spec, ctx, spec.updateBody.value, 2, spec.structured) ==> n.revision == 2
  {
    hide VerifyNote, Carries;
    VerifyNoteMeaning(n, spec, ctx, false);
    CarriesPlanned(n, spec, ctx, spec.FinalBody(), spec.FinalRevision(), spec.structured);
    match VerifyNote(n, spec, ctx, false) {
      case Ok(Complete) =>
      case Ok(IncompleteWorkout) =>
      case Err(_) =>
    }
  }

  lemma CarriedRevision(n: Note, spec: NoteSpec, ctx: Context)
    ensures Carries(n, spec, ctx, spec.FinalBody(), spec.FinalRevision(), spec.structured) ==>
              n.revision == if spec.updateBody == None then 1 else 2
    ensures AsPlanned(n, spec, ctx, spec.body, 1, Entries([])) || AsPlanned(n, spec, ctx, spec.body, 1, spec.structured)
            ==> n.revision == 1
  {
  }

  /** A run goes on exactly if an answer arrives that can be believed; it then counts the write once, as replayed
      if the service says so, and otherwise neither learns nor counts anything. */
  lemma AttemptExactly(world: World, seen: Settings, w: Write, q: Request, run: Run)
    requires Planned(world.manifest, w) && run.failure == None
    ensures var (account, answer) := Exchange(world.derive, run.account, NextFault(run.faults), q);
            var after := Attempt(world, seen, w, q, run);
            && after.account == account && after.faults == LaterFaults(run.faults)
            && (after.failure == None <==>
                  answer.Some? && Believable(world.manifest, run.ctx, seen, w, answer.value))
            && (after.failure == None ==>
                  && after.ctx == Learned(world.manifest, run.ctx, w, answer.value)
                  && after.summary.attempted == run.summary.attempted + 1
                  && after.summary.replayed == run.summary.replayed + (if answer.value.replayed then 1 else 0)
                  && after.summary.skipped == run.summary.skipped)
            && (after.failure != None ==> after.ctx == run.ctx && after.summary == run.summary)
  {
    hide CheckAnswer, Believable, Learned;
    var answer := Exchange(world.derive, run.account, NextFault(run.faults), q).1;
    if answer.Some? {
      var m := world.manifest;
      TakenExactly(m, run.ctx, seen, w, answer.value, Learned(m, run.ctx, w, answer.value));
      match CheckAnswer(m, run.ctx, seen, w, answer.value) {
        case Ok(known) => TakenExactly(m, run.ctx, seen, w, answer.value, known);
        case Err(_) =>
      }
    }
  }
}
