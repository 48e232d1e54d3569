/** Accounts that no run can complete: a write is missing whose key the service has already answered. */
module SeedBlocked {
  import opened Wrappers
  import opened Portfolio
  import opened DemoServer
  import opened Seeder
  import opened SeedMeaning
  import opened SeedProgress
  import opened SeedDelays
  import T = SeedTheorems

  /** The write is missing, yet the service would only repeat an earlier answer to it: what it made is
      gone, or was made elsewhere. */
  ghost predicate Blocked(m: Manifest, a: Account, w: Write)
    requires Planned(m, w)
  {
    KeyOf(m, w) in a.replies && !Done(m, a, w)
  }

  // ----- notes keep their titles -----

  /** The id has been issued, and a note that carries it has this title. */
  ghost predicate Titled(a: Account, id: nat, title: string) {
    id < a.nextId && forall i | 0 <= i < |a.notes| && a.notes[i].id == id :: a.notes[i].title == title
  }

  /** Recorded answers tell the titles of the notes they are about; notes may have gone since. */
  ghost predicate Honest(a: Account) {
    forall k | k in a.replies && a.replies[k].NoteAnswer? :: Titled(a, a.replies[k].note.id, a.replies[k].note.title)
  }

  lemma TitledStays(derive: Derive, a: Account, q: Request, id: nat, title: string)
    requires Titled(a, id, title)
    ensures Titled(Serve(derive, a, q).0, id, title)
  {
  }

  /** The service keeps its records honest. */
  lemma ServeKeepsHonest(derive: Derive, a: Account, q: Request)
    requires Consistent(a) && Honest(a)
    ensures Honest(Serve(derive, a, q).0)
    ensures var (b, answer) := Serve(derive, a, q);
            answer.NoteAnswer? ==> Titled(b, answer.note.id, answer.note.title)
  {
    var (b, answer) := Serve(derive, a, q);
    if q.key !in a.replies && answer.NoteAnswer? {
      CommittedTitled(derive, a, q);
    }
    forall k | k in b.replies && b.replies[k].NoteAnswer?
      ensures Titled(b, b.replies[k].note.id, b.replies[k].note.title)
    {
      if k in a.replies && (q.key in a.replies || k != q.key) {
        TitledStays(derive, a, q, a.replies[k].note.id, a.replies[k].note.title);
      }
    }
  }

  lemma CommittedTitled(derive: Derive, a: Account, q: Request)
    requires Consistent(a) && Commit(derive, a, q).1.NoteAnswer?
    ensures var (b, answer) := Commit(derive, a, q); Titled(b, answer.note.id, answer.note.title)
  {
  }

  // ----- what the client knows and asks for -----

  /** What the client takes for a note of the manifest has its title. */
  ghost predicate Knows(m: Manifest, a: Account, ctx: Context) {
    forall j | 0 <= j < |m.notes| && m.notes[j].key in ctx.notes ::
      Titled(a, ctx.notes[m.notes[j].key].id, m.notes[j].title)
  }

  /** A request the client makes for some planned write; an update goes to a note of that title. */
  ghost predicate Ours(m: Manifest, a: Account, q: Request) {
    exists v, ctx, seen :: AsksFor(m, a, ctx, seen, v, q)
  }

  ghost predicate AsksFor(m: Manifest, a: Account, ctx: Context, seen: Settings, v: Write, q: Request) {
    Planned(m, v) && RequestFor(m, ctx, seen, v) == Ok(q) && (v.UpdateWrite? ==> Titled(a, q.id, m.notes[v.i].title))
  }

  /** The account is in order, the write blocked, and nothing foreign is outstanding. */
  ghost predicate Stuck(m: Manifest, a: Account, sent: seq<Request>, w: Write) {
    && Planned(m, w) && Blocked(m, a, w)
    && Consistent(a) && Honest(a)
    && forall q | q in sent :: Ours(m, a, q)
  }

  lemma SameNames<T(!new)>(items: seq<T>, more: seq<T>, name: T -> string, key: string)
    requires |items| <= |more| && forall i | 0 <= i < |items| :: name(more[i]) == name(items[i])
    requires forall i | |items| <= i < |more| :: name(more[i]) != key
    ensures key in NameMap(more, name) <==> key in NameMap(items, name)
  {
    NameMapFinds(items, name);
    NameMapFinds(more, name);
    if key in NameMap(items, name) {
      var i :| 0 <= i < |items| && name(items[i]) == key;
      assert name(more[i]) == key;
    }
    if key in NameMap(more, name) {
      var i :| 0 <= i < |more| && name(more[i]) == key;
      assert name(items[i]) == key;
    }
  }

  /** Replacing an item of another name does not change what a name finds. */
  lemma {:induction false} SameFind(items: seq<Note>, k: nat, n: Note, title: string)
    requires k < |items| && n.title == items[k].title != title
    ensures title in NameMap(items, NoteTitle) <==> title in NameMap(items[k := n], NoteTitle)
    ensures title in NameMap(items, NoteTitle) ==>
              NameMap(items[k := n], NoteTitle)[title] == NameMap(items, NoteTitle)[title]
  {
    var last := |items| - 1;
    if k < last {
      SameFind(items[..last], k, n, title);
      assert items[k := n][..last] == items[..last][k := n];
    } else {
      assert items[k := n][..last] == items[..last];
    }
  }

  /** A request for another write does not put this one in place. */
  lemma OthersDoNotHelp(derive: Derive, m: Manifest, a: Account, ctx: Context, seen: Settings, v: Write, q: Request,
                        w: Write)
    requires WellFormed(m) && AsksFor(m, a, ctx, seen, v, q)
    requires Planned(m, w) && v != w && !Done(m, a, w)
    ensures !Done(m, Commit(derive, a, q).0, w)
  {
    hide NameMap;
    var b := Commit(derive, a, q).0;
    match w
    case SettingsWrite =>
    case SpaceWrite(i) => SameNames(a.spaces, b.spaces, SpaceName, m.spaces[i].name);
    case TagWrite(i) => SameNames(a.tags, b.tags, TagName, m.tags[i].name);
    case NoteWrite(i) => SameNames(a.notes, b.notes, NoteTitle, m.notes[i].title);
    case UpdateWrite(i) => UpdateStaysAway(derive, m, a, ctx, seen, v, q, i);
  }

  lemma UpdateStaysAway(derive: Derive, m: Manifest, a: Account, ctx: Context, seen: Settings, v: Write, q: Request,
                        i: nat)
    requires WellFormed(m) && AsksFor(m, a, ctx, seen, v, q)
    requires Planned(m, UpdateWrite(i)) && v != UpdateWrite(i) && !Done(m, a, UpdateWrite(i))
    ensures !Done(m, Commit(derive, a, q).0, UpdateWrite(i))
  {
    hide Titled, NameMap, WellFormed, Commit;
    RequestKind(m, ctx, seen, v, q);
    TitlesDiffer(m);
    CommitNotes(derive, a, q);
    var b, title := Commit(derive, a, q).0, m.notes[i].title;
    if q.CreateNote? {
      NameMapGrows(a.notes, b.notes);
    } else if q.UpdateNote? && b.notes != a.notes {
      var at := NoteIndex(a.notes, q.id).value;
      NoteTitled(a, at, m.notes[v.i].title);
      SameFind(a.notes, at, b.notes[at], title);
    }
  }

  /** The request fits the write. */
  lemma RequestKind(m: Manifest, ctx: Context, seen: Settings, v: Write, q: Request)
    requires Planned(m, v) && RequestFor(m, ctx, seen, v) == Ok(q)
    ensures v.UpdateWrite? <==> q.UpdateNote?
    ensures v.NoteWrite? <==> q.CreateNote?
    ensures v.NoteWrite? ==> q.title == m.notes[v.i].title
  {
    hide DesiredIds;
  }

  lemma TitlesDiffer(m: Manifest)
    requires WellFormed(m)
    ensures forall i, j | 0 <= i < |m.notes| && 0 <= j < |m.notes| && m.notes[i].title == m.notes[j].title :: i == j
  {
  }

  /** What a request does to the notes. */
  lemma CommitNotes(derive: Derive, a: Account, q: Request)
    ensures var b := Commit(derive, a, q).0;
            && (!q.CreateNote? && !q.UpdateNote? ==> b.notes == a.notes)
            && (q.CreateNote? ==>
                  |b.notes| == |a.notes| + 1 && b.notes[..|a.notes|] == a.notes
                  && b.notes[|a.notes|].title == q.title && b.notes[|a.notes|].revision == 1)
            && (q.UpdateNote? && b.notes != a.notes ==>
                  var at := NoteIndex(a.notes, q.id);
                  && at.Some? && |b.notes| == |a.notes| && b.notes == a.notes[at.value := b.notes[at.value]]
                  && b.notes[at.value].title == a.notes[at.value].title)
  {
  }

  lemma NameMapGrows(items: seq<Note>, more: seq<Note>)
    requires |more| == |items| + 1 && more[..|items|] == items
    ensures NameMap(more, NoteTitle) == NameMap(items, NoteTitle)[more[|items|].title := more[|items|]]
  {
  }

  lemma NoteTitled(a: Account, at: nat, title: string)
    requires at < |a.notes| && Titled(a, a.notes[at].id, title)
    ensures a.notes[at].title == title
  {
  }

  lemma ServedStuck(derive: Derive, m: Manifest, a: Account, sent: seq<Request>, q: Request, w: Write)
    requires WellFormed(m) && Stuck(m, a, sent, w) && Ours(m, a, q)
    ensures Stuck(m, Serve(derive, a, q).0, sent, w)
  {
    hide Done, Honest, Ours, Serve, Consistent;
    var b := Serve(derive, a, q).0;
    ServeKeepsConsistent(derive, a, q);
    ServeKeepsHonest(derive, a, q);
    RepliesGrow(derive, a, q);
    StillMissing(derive, m, a, q, w);
    forall p | p in sent ensures Ours(m, b, p) {
      OursStays(derive, m, a, q, p);
    }
  }

  lemma StillMissing(derive: Derive, m: Manifest, a: Account, q: Request, w: Write)
    requires WellFormed(m) && Planned(m, w) && Blocked(m, a, w) && Ours(m, a, q)
    ensures !Done(m, Serve(derive, a, q).0, w)
  {
    hide Done, Commit, RequestFor;
    if q.key !in a.replies {
      var v, ctx, seen :| AsksFor(m, a, ctx, seen, v, q);
      RequestKey(m, ctx, seen, v);
      OthersDoNotHelp(derive, m, a, ctx, seen, v, q, w);
    }
  }

  lemma OursStays(derive: Derive, m: Manifest, a: Account, q: Request, p: Request)
    requires Ours(m, a, p)
    ensures Ours(m, Serve(derive, a, q).0, p)
  {
    hide Serve, Titled, RequestFor;
    var v, ctx, seen :| AsksFor(m, a, ctx, seen, v, p);
    RequestKind(m, ctx, seen, v, p);
    if v.UpdateWrite? {
      TitledStays(derive, a, q, p.id, m.notes[v.i].title);
    }
    assert AsksFor(m, Serve(derive, a, q).0, ctx, seen, v, p);
  }

  lemma KnowsStill(derive: Derive, m: Manifest, a: Account, q: Request, ctx: Context)
    requires Knows(m, a, ctx)
    ensures Knows(m, Serve(derive, a, q).0, ctx)
  {
    hide Serve, Titled;
    forall j | 0 <= j < |m.notes| && m.notes[j].key in ctx.notes
      ensures Titled(Serve(derive, a, q).0, ctx.notes[m.notes[j].key].id, m.notes[j].title)
    {
      TitledStays(derive, a, q, ctx.notes[m.notes[j].key].id, m.notes[j].title);
    }
  }

  lemma {:induction false} ArrivalsStuck(derive: Derive, m: Manifest, a: Account, sent: seq<Request>, picks: seq<nat>,
                                         ctx: Context, w: Write)
    requires WellFormed(m) && Stuck(m, a, sent, w) && Knows(m, a, ctx)
    ensures Stuck(m, Redeliver(derive, a, sent, picks), sent, w) && Knows(m, Redeliver(derive, a, sent, picks), ctx)
  {
    hide Stuck, Serve, Ours, Knows;
    if picks != [] {
      ArrivalsStuck(derive, m, a, sent, picks[..|picks| - 1], ctx, w);
      var b, p := Redeliver(derive, a, sent, picks[..|picks| - 1]), picks[|picks| - 1];
      if p < |sent| {
        SentAreOurs(m, b, sent, w, p);
        ServedStuck(derive, m, b, sent, sent[p], w);
        KnowsStill(derive, m, b, sent[p], ctx);
      }
    }
  }

  lemma SentAreOurs(m: Manifest, a: Account, sent: seq<Request>, w: Write, p: nat)
    requires Stuck(m, a, sent, w) && p < |sent|
    ensures Ours(m, a, sent[p])
  {
    hide Ours, Honest;
    assert sent[p] in sent;
  }

  lemma OneMoreSent(m: Manifest, a: Account, sent: seq<Request>, q: Request, w: Write)
    requires Stuck(m, a, sent, w) && Ours(m, a, q)
    ensures Stuck(m, a, sent + [q], w)
  {
    hide Ours, Honest;
  }

  lemma ClientRequest(m: Manifest, a: Account, ctx: Context, seen: Settings, v: Write)
    requires Planned(m, v) && Knows(m, a, ctx) && RequestFor(m, ctx, seen, v).Ok?
    ensures Ours(m, a, RequestFor(m, ctx, seen, v).value)
  {
    hide Titled;
    assert AsksFor(m, a, ctx, seen, v, RequestFor(m, ctx, seen, v).value);
  }

  /** An accepted answer about a note is about one with the title asked for. */
  lemma AnswerKnown(m: Manifest, a: Account, ctx: Context, seen: Settings, v: Write, answer: Answer)
    requires WellFormed(m) && Planned(m, v) && Knows(m, a, ctx) && CheckAnswer(m, ctx, seen, v, answer).Ok?
    requires answer.NoteAnswer? ==> Titled(a, answer.note.id, answer.note.title)
    ensures Knows(m, a, CheckAnswer(m, ctx, seen, v, answer).value)
  {
    hide Titled, SameValues, DesiredIds;
  }

  // ----- runs -----

  lemma AttemptStuck(world: World, seen: Settings, v: Write, q: Request, run: DelayedRun, w: Write)
    requires WellFormed(world.manifest) && Planned(world.manifest, v)
    requires RequestFor(world.manifest, run.ctx, seen, v) == Ok(q)
    requires Stuck(world.manifest, run.account, run.sent, w) && Knows(world.manifest, run.account, run.ctx)
    ensures var next := AttemptLate(world, seen, v, q, run);
            Stuck(world.manifest, next.account, next.sent, w) && Knows(world.manifest, next.account, next.ctx)
  {
    hide Stuck, Knows, Serve, Redeliver, CheckAnswer, Ours, RequestFor, Titled;
    var m := world.manifest;
    var found := Redeliver(world.derive, run.account, run.sent, NextTurn(run.turns).late);
    var (b, answer) := Serve(world.derive, found, q);
    ArrivalsStuck(world.derive, m, run.account, run.sent, NextTurn(run.turns).late, run.ctx, w);
    ClientRequest(m, found, run.ctx, seen, v);
    ServedStuck(world.derive, m, found, run.sent, q, w);
    KnowsStill(world.derive, m, found, q, run.ctx);
    OursStays(world.derive, m, found, q, q);
    OneMoreSent(m, found, run.sent, q, w);
    OneMoreSent(m, b, run.sent, q, w);
    StuckIsInOrder(m, found, run.sent, w);
    ServeKeepsHonest(world.derive, found, q);
    if CheckAnswer(m, run.ctx, seen, v, answer).Ok? {
      AnswerKnown(m, b, run.ctx, seen, v, answer);
    }
  }

  lemma StuckIsInOrder(m: Manifest, a: Account, sent: seq<Request>, w: Write)
    requires Stuck(m, a, sent, w)
    ensures Consistent(a) && Honest(a) && Planned(m, w) && !Done(m, a, w)
  {
    hide Consistent, Honest, Done, Ours;
  }

  lemma {:induction false} StepsStuck(world: World, seen: Settings, k: nat, run: DelayedRun, w: Write)
    requires WellFormed(world.manifest) && k <= |Plan(world.manifest)|
    requires Stuck(world.manifest, run.account, run.sent, w) && Knows(world.manifest, run.account, run.ctx)
    ensures var next := StepsLate(world, seen, k, run);
            Stuck(world.manifest, next.account, next.sent, w) && Knows(world.manifest, next.account, next.ctx)
  {
    hide Stuck, Knows, AttemptLate, Satisfied, RequestFor, Plan;
    if k > 0 {
      var m := world.manifest;
      PlanPositions(m, k - 1);
      StepsStuck(world, seen, k - 1, run, w);
      var before, v := StepsLate(world, seen, k - 1, run), Plan(m)[k - 1];
      var request := RequestFor(m, before.ctx, seen, v);
      if request.Ok? {
        AttemptStuck(world, seen, v, request.value, before, w);
      }
    }
  }

  /** What the preflight reads has the titles it was looked up by. */
  lemma PreflightKnows(m: Manifest, a: Account)
    requires WellFormed(m) && Consistent(a) && Preflight(m, a).Ok?
    ensures Knows(m, a, Preflight(m, a).value)
  {
    hide Recognised, Preflight, NameMap, ByKey;
    PreflightMeaning(m, a);
    SnapshotFinds(m, a);
    NameMapFinds(a.notes, NoteTitle);
    forall j | 0 <= j < |m.notes| && m.notes[j].key in Snapshot(m, a).notes
      ensures Titled(a, Snapshot(m, a).notes[m.notes[j].key].id, m.notes[j].title)
    {
      var n := NotesOf(a)[m.notes[j].title];
      var at :| 0 <= at < |a.notes| && a.notes[at] == n;
    }
  }

  lemma NothingKnown(m: Manifest, a: Account)
    ensures Knows(m, a, NOTHING)
  {
  }

  lemma CensusRefuses(m: Manifest, a: Account, sent: seq<Request>, w: Write)
    requires WellFormed(m) && Stuck(m, a, sent, w)
    ensures VerifyComplete(m, a).Err?
  {
    hide Done, Recognised, VerifyComplete, Honest, Ours, Consistent;
    T.CompleteMeaning(m, a);
  }

  lemma RunStuck(world: World, a: Account, sent: seq<Request>, s: Schedule, w: Write)
    requires WellFormed(world.manifest) && Stuck(world.manifest, a, sent, w)
    ensures var run := ExecuteLate(world, a, sent, s);
            run.failure.Some? && Stuck(world.manifest, run.account, run.sent, w)
  {
    hide Stuck, Knows, Redeliver, Preflight, VerifyComplete, StepsLate, Plan, Consistent;
    var m := world.manifest;
    var found := Redeliver(world.derive, a, sent, s.before);
    NothingKnown(m, a);
    ArrivalsStuck(world.derive, m, a, sent, s.before, NOTHING, w);
    if Preflight(m, found).Ok? {
      StuckIsInOrder(m, found, sent, w);
      PreflightKnows(m, found);
      var start := DelayedRun(found, sent, s.turns, Preflight(m, found).value, Summary(0, 0, 0), None);
      var run := StepsLate(world, found.settings, |Plan(m)|, start);
      StepsStuck(world, found.settings, |Plan(m)|, start, w);
      ArrivalsStuck(world.derive, m, run.account, run.sent, s.after, run.ctx, w);
      CensusRefuses(m, Redeliver(world.derive, run.account, run.sent, s.after), run.sent, w);
    }
  }

  lemma {:induction false} RunsStuck(world: World, a: Account, sent: seq<Request>, schedules: seq<Schedule>, w: Write)
    requires WellFormed(world.manifest) && Stuck(world.manifest, a, sent, w)
    ensures var after := AfterLateRuns(world, a, sent, schedules);
            Stuck(world.manifest, after.0, after.1, w)
  {
    hide Stuck, ExecuteLate;
    if schedules != [] {
      var before := schedules[..|schedules| - 1];
      RunsStuck(world, a, sent, before, w);
      var reached := AfterLateRuns(world, a, sent, before);
      RunStuck(world, reached.0, reached.1, schedules[|schedules| - 1], w);
    }
  }

  /** A missing write whose key has been used stays missing through all runs, and every run fails. */
  lemma NeverCompletes(world: World, a: Account, w: Write, schedules: seq<Schedule>, last: Schedule)
    requires WellFormed(world.manifest) && Consistent(a) && Honest(a)
    requires Planned(world.manifest, w) && Blocked(world.manifest, a, w)
    ensures var (found, sent) := AfterLateRuns(world, a, [], schedules);
            var run := ExecuteLate(world, found, sent, last);
            run.failure.Some? && !Done(world.manifest, run.account, w)
  {
    hide ExecuteLate, AfterLateRuns;
    assert Stuck(world.manifest, a, [], w);
    RunsStuck(world, a, [], schedules, w);
    var (found, sent) := AfterLateRuns(world, a, [], schedules);
    RunStuck(world, found, sent, last, w);
  }

  /** The seeder can complete a recognised account exactly when every missing write has an unused key. */
  lemma CompletableExactly(world: World, a: Account)
    requires WellFormed(world.manifest) && Structures(world)
    requires Consistent(a) && Honest(a) && Recognised(world.manifest, a)
    ensures (exists s :: ExecuteLate(world, a, [], s).failure.None?) <==> Resumable(world.manifest, a)
  {
    hide ExecuteLate, AfterLateRuns, Recognised, Done, Structures, Consistent, Honest;
    var m := world.manifest;
    NoRunsYet(world, a);
    if Resumable(m, a) {
      var prompt := Schedule([], [], []);
      ConvergesDespiteDelays(world, a, [], prompt);
      assert ExecuteLate(world, a, [], prompt).failure.None?;
    } else {
      var w :| Planned(m, w) && !Done(m, a, w) && KeyOf(m, w) in a.replies;
      forall s ensures ExecuteLate(world, a, [], s).failure.Some? {
        NeverCompletes(world, a, w, [], s);
      }
    }
  }

  lemma NoRunsYet(world: World, a: Account)
    requires 0 < |world.manifest.notes|
    ensures AfterLateRuns(world, a, [], []) == (a, [])
  {
  }
}
