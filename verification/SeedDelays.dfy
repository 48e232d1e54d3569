/**
  Runs over a network that may also deliver an unanswered request at any later time, again and again,
  from any account the seeder can work on.
 */
module SeedDelays {
  import opened Wrappers
  import opened Portfolio
  import opened DemoServer
  import opened Seeder
  import opened SeedMeaning
  import opened SeedProgress
  import T = SeedTheorems

  // ----- the network -----

  /** Requests sent earlier that arrive just before an exchange, and how the exchange itself goes. */
  datatype Turn = Turn(late: seq<nat>, fault: Fault)

  /** What arrives before a run reads the account, its exchanges, and what arrives before its census. */
  datatype Schedule = Schedule(before: seq<nat>, turns: seq<Turn>, after: seq<nat>)

  datatype DelayedRun = DelayedRun(
    account: Account,
    sent: seq<Request>,
    turns: seq<Turn>,
    ctx: Context,
    summary: Summary,
    failure: Option<string>)

  /** Serves earlier requests, in any order and any number of times. */
  function Redeliver(derive: Derive, a: Account, sent: seq<Request>, picks: seq<nat>): Account {
    if picks == [] then a
    else
      var b := Redeliver(derive, a, sent, picks[..|picks| - 1]);
      var p := picks[|picks| - 1];
      if p < |sent| then Serve(derive, b, sent[p]).0 else b
  }

  /** A schedule that has run out delivers at once and nothing else. */
  function NextTurn(turns: seq<Turn>): Turn {
    if turns == [] then Turn([], Delivered) else turns[0]
  }

  function LaterTurns(turns: seq<Turn>): seq<Turn> {
    if turns == [] then [] else turns[1..]
  }

  function AttemptLate(world: World, seen: Settings, w: Write, q: Request, run: DelayedRun): DelayedRun
    requires Planned(world.manifest, w)
  {
    var turn := NextTurn(run.turns);
    var found := Redeliver(world.derive, run.account, run.sent, turn.late);
    var (account, answer) := Exchange(world.derive, found, turn.fault, q);
    var after := run.(account := account, sent := run.sent + [q], turns := LaterTurns(run.turns));
    if answer.None? then after.(failure := Some("unexpected_failure"))
    else
      match CheckAnswer(world.manifest, run.ctx, seen, w, answer.value)
      case Err(code) => after.(failure := Some(code))
      case Ok(ctx) =>
        assert !answer.value.Refused?;
        after.(ctx := ctx,
               summary := run.summary.(attempted := run.summary.attempted + 1,
                                       replayed := run.summary.replayed + if answer.value.replayed then 1 else 0))
  }

  /** One write of the plan, as the seeder handles it. */
  function StepLate(world: World, seen: Settings, w: Write, run: DelayedRun): DelayedRun
    requires Planned(world.manifest, w)
  {
    if run.failure.Some? then run
    else
      match Satisfied(world.manifest, run.ctx, seen, w)
      case Err(code) => run.(failure := Some(code))
      case Ok(true) => run.(summary := run.summary.(skipped := run.summary.skipped + 1))
      case Ok(false) =>
        match RequestFor(world.manifest, run.ctx, seen, w)
        case Err(code) => run.(failure := Some(code))
        case Ok(q) => AttemptLate(world, seen, w, q, run)
  }

  /** The run after the first `k` writes of the plan. */
  function StepsLate(world: World, seen: Settings, k: nat, run: DelayedRun): DelayedRun
    requires 0 < |world.manifest.notes| && k <= |Plan(world.manifest)|
  {
    if k == 0 then run
    else
      PlanPositions(world.manifest, k - 1);
      StepLate(world, seen, Plan(world.manifest)[k - 1], StepsLate(world, seen, k - 1, run))
  }

  /** A whole run: preflight, writes, census. */
  function ExecuteLate(world: World, a: Account, sent: seq<Request>, s: Schedule): DelayedRun
    requires 0 < |world.manifest.notes|
  {
    var m := world.manifest;
    var found := Redeliver(world.derive, a, sent, s.before);
    match Preflight(m, found)
    case Err(code) => DelayedRun(found, sent, s.turns, NOTHING, Summary(0, 0, 0), Some(code))
    case Ok(ctx) =>
      var start := DelayedRun(found, sent, s.turns, ctx, Summary(0, 0, 0), None);
      var run := StepsLate(world, found.settings, |Plan(m)|, start);
      if run.failure.Some? then run
      else
        var settled := run.(account := Redeliver(world.derive, run.account, run.sent, s.after));
        match VerifyComplete(m, settled.account)
        case Err(code) => settled.(failure := Some(code))
        case Ok(_) => settled
  }

  /** Account and outstanding requests after a series of runs. */
  function AfterLateRuns(world: World, a: Account, sent: seq<Request>, schedules: seq<Schedule>)
    : (Account, seq<Request>)
    requires 0 < |world.manifest.notes|
  {
    if schedules == [] then (a, sent)
    else
      var before := AfterLateRuns(world, a, sent, schedules[..|schedules| - 1]);
      var run := ExecuteLate(world, before.0, before.1, schedules[|schedules| - 1]);
      (run.account, run.sent)
  }

  // ----- accounts the seeder can work on -----

  /** Recognised, with an unused key for every write that is missing. */
  ghost predicate Resumable(m: Manifest, a: Account)
    requires 0 < |m.notes|
  {
    Consistent(a) && Recognised(m, a) && forall w | Planned(m, w) && !Done(m, a, w) :: KeyOf(m, w) !in a.replies
  }

  /** An untouched account is one of them. */
  lemma EmptyIsResumable(m: Manifest, a: Account)
    requires WellFormed(m) && T.Empty(m, a)
    ensures Resumable(m, a)
  {
  }

  /** The first write from `k` on that the account lacks. */
  ghost function Missing(m: Manifest, a: Account, k: nat): (f: nat)
    requires 0 < |m.notes| && k <= |Plan(m)|
    ensures k <= f <= |Plan(m)|
    decreases |Plan(m)| - k
  {
    if k == |Plan(m)| then k
    else
      PlanPositions(m, k);
      if Done(m, a, Plan(m)[k]) then Missing(m, a, k + 1) else k
  }

  ghost predicate DoneTo(m: Manifest, a: Account, k: nat)
    requires 0 < |m.notes| && k <= |Plan(m)|
  {
    forall w | Planned(m, w) && Pos(m, w) < k :: Done(m, a, w)
  }

  lemma {:induction false} MissingMeaning(m: Manifest, a: Account, k: nat)
    requires 0 < |m.notes| && k <= |Plan(m)| && DoneTo(m, a, k)
    ensures DoneTo(m, a, Missing(m, a, k))
    ensures Missing(m, a, k) < |Plan(m)| ==>
              Planned(m, Plan(m)[Missing(m, a, k)]) && !Done(m, a, Plan(m)[Missing(m, a, k)])
    decreases |Plan(m)| - k
  {
    hide Done;
    if k < |Plan(m)| {
      PlanPositions(m, k);
      if Done(m, a, Plan(m)[k]) {
        DoneNext(m, a, k);
        MissingMeaning(m, a, k + 1);
      }
    }
  }

  lemma DoneNext(m: Manifest, a: Account, k: nat)
    requires 0 < |m.notes| && k < |Plan(m)| && DoneTo(m, a, k)
    requires Planned(m, Plan(m)[k]) && Done(m, a, Plan(m)[k])
    ensures DoneTo(m, a, k + 1)
  {
    hide Done, Pos, Plan;
    forall w | Planned(m, w) && Pos(m, w) < k + 1 ensures Done(m, a, w) {
      if Pos(m, w) == k {
        PlanHas(m, w);
      }
    }
  }

  /** What comes before a write in the plan is what it needs. */
  lemma ReadyAt(m: Manifest, a: Account, w: Write)
    requires WellFormed(m) && Planned(m, w) && Pos(m, w) < |Plan(m)| && DoneTo(m, a, Pos(m, w))
    ensures Ready(m, a, w)
  {
    hide Done, Plan;
    PlanOrder(m, NoteWrite(0), w);
    if w.NoteWrite? && w.i > 0 {
      forall i | 0 <= i < |m.spaces| ensures Done(m, a, SpaceWrite(i)) { PlanOrder(m, SpaceWrite(i), w); }
      forall i | 0 <= i < |m.tags| ensures Done(m, a, TagWrite(i)) { PlanOrder(m, TagWrite(i), w); }
      forall i | 0 <= i < w.i ensures Done(m, a, NoteWrite(i)) { PlanOrder(m, NoteWrite(i), w); }
    } else if w.UpdateWrite? {
      PlanOrder(m, NoteWrite(w.i), w);
    }
  }

  // ----- one write from such an account -----

  /** The write is the first one missing, and `q` is the request a client that knows the account sends for it. */
  ghost predicate Pending(world: World, a: Account, w: Write, q: Request)
    requires 0 < |world.manifest.notes|
  {
    var m := world.manifest;
    && Planned(m, w) && Pos(m, w) < |Plan(m)| && DoneTo(m, a, Pos(m, w)) && !Done(m, a, w)
    && RequestFor(m, Snapshot(m, a), a.settings, w) == Ok(q)
  }

  /** The account with the write committed. */
  ghost predicate Commits(world: World, a: Account, w: Write, q: Request, b: Account)
    requires 0 < |world.manifest.notes|
  {
    var m := world.manifest;
    && Planned(m, w)
    && Advances(world, a.settings, a, w, b)
    && RequestFor(m, Snapshot(m, a), a.settings, w) == Ok(q)
    && q.key == KeyOf(m, w)
    && b == Serve(world.derive, a, q).0
    && q.key !in a.replies && q.key in b.replies && b.replies[q.key] == Serve(world.derive, a, q).1
    && Resumable(m, b)
  }

  lemma WriteCommits(world: World, a: Account, w: Write) returns (q: Request, b: Account)
    requires WellFormed(world.manifest) && Structures(world) && Resumable(world.manifest, a)
    requires Planned(world.manifest, w) && Pos(world.manifest, w) < |Plan(world.manifest)|
    requires DoneTo(world.manifest, a, Pos(world.manifest, w)) && !Done(world.manifest, a, w)
    ensures Pending(world, a, w, q) && Commits(world, a, w, q, b)
  {
    hide Done, Ready, Recognised, DoneTo, Plan, Structures;
    var m := world.manifest;
    ReadyAt(m, a, w);
    WriteAdvances(world, a.settings, a, w);
    b :| Advances(world, a.settings, a, w, b);
    q := RequestFor(m, Snapshot(m, a), a.settings, w).value;
    RequestKey(m, Snapshot(m, a), a.settings, w);
    ServeKeepsConsistent(world.derive, a, q);
    ServedIsRecorded(world.derive, a, q);
    KeysStayUnused(m, a, w, b);
  }

  lemma RequestKey(m: Manifest, ctx: Context, seen: Settings, w: Write)
    requires Planned(m, w) && RequestFor(m, ctx, seen, w).Ok?
    ensures RequestFor(m, ctx, seen, w).value.key == KeyOf(m, w)
  {
  }

  lemma ServedIsRecorded(derive: Derive, a: Account, q: Request)
    requires q.key !in a.replies && !Serve(derive, a, q).1.Refused?
    ensures q.key in Serve(derive, a, q).0.replies && Serve(derive, a, q).0.replies[q.key] == Serve(derive, a, q).1
  {
  }

  lemma KeysStayUnused(m: Manifest, a: Account, w: Write, b: Account)
    requires WellFormed(m) && Resumable(m, a) && Planned(m, w)
    requires Consistent(b) && Recognised(m, b) && b.log == a.log + [KeyOf(m, w)]
    requires forall x | Planned(m, x) :: Done(m, b, x) <==> Done(m, a, x) || x == w
    ensures Resumable(m, b)
  {
    hide Recognised, Done;
    forall x | Planned(m, x) && !Done(m, b, x) ensures KeyOf(m, x) !in b.replies {
      assert KeyOf(m, x) !in a.log;
      assert KeyOf(m, x) != KeyOf(m, w);
    }
  }

  /** Sent again, the request is answered from the record, and the client accepts that answer alike. */
  lemma SentAgain(world: World, a: Account, w: Write, q: Request, b: Account, seen: Settings)
    requires 0 < |world.manifest.notes| && Commits(world, a, w, q, b)
    requires w.SettingsWrite? ==> seen == a.settings
    ensures var served := Serve(world.derive, b, q);
            && served.0 == b && !served.1.Refused? && served.1.replayed
            && CheckAnswer(world.manifest, Snapshot(world.manifest, a), seen, w, served.1) ==
                Ok(Snapshot(world.manifest, b))
  {
    hide Recognised, Done, Snapshot, VerifyNote, Resumable;
    var m := world.manifest;
    var answer := Serve(world.derive, a, q).1;
    ReplayOf(world.derive, a, q);
    SameCheck(m, Snapshot(m, a), a.settings, w, answer, Replay(answer, q));
    SeenOnlyMatters(m, Snapshot(m, a), a.settings, seen, w, Replay(answer, q));
  }

  lemma ReplayOf(derive: Derive, a: Account, q: Request)
    requires q.key !in a.replies && !Serve(derive, a, q).1.Refused?
    ensures var answer := Serve(derive, a, q).1;
            var again := Replay(answer, q);
            !again.Refused? && again.replayed && SameAnswer(answer, again)
  {
  }

  lemma SameCheck(m: Manifest, ctx: Context, seen: Settings, w: Write, one: Answer, other: Answer)
    requires Planned(m, w) && SameAnswer(one, other)
    ensures CheckAnswer(m, ctx, seen, w, one) == CheckAnswer(m, ctx, seen, w, other)
  {
    hide VerifyNote;
  }

  /** Settings read earlier matter to the settings write alone. */
  lemma SeenOnlyMatters(m: Manifest, ctx: Context, seen: Settings, other: Settings, w: Write, answer: Answer)
    requires Planned(m, w) && (w.SettingsWrite? ==> seen == other)
    ensures Satisfied(m, ctx, seen, w) == Satisfied(m, ctx, other, w)
    ensures RequestFor(m, ctx, seen, w) == RequestFor(m, ctx, other, w)
    ensures CheckAnswer(m, ctx, seen, w, answer) == CheckAnswer(m, ctx, other, w, answer)
  {
    hide VerifyNote, DesiredIds;
  }

  // ----- what is outstanding -----

  ghost predicate Settled(a: Account, sent: seq<Request>) {
    forall q | q in sent :: q.key in a.replies
  }

  /** Every request ever sent has taken effect or is the one for the first missing write. */
  ghost predicate NetOk(world: World, a: Account, sent: seq<Request>)
    requires 0 < |world.manifest.notes|
  {
    && Resumable(world.manifest, a)
    && forall q | q in sent :: q.key in a.replies || exists w :: Pending(world, a, w, q)
  }

  lemma OnePending(world: World, a: Account, w: Write, q: Request, v: Write, p: Request)
    requires 0 < |world.manifest.notes| && Pending(world, a, w, q) && Pending(world, a, v, p)
    ensures v == w && p == q
  {
    hide Done, Plan;
    PlanHas(world.manifest, w);
    PlanHas(world.manifest, v);
    assert Pos(world.manifest, v) == Pos(world.manifest, w);
  }

  lemma {:induction false} SettledStays(derive: Derive, a: Account, sent: seq<Request>, picks: seq<nat>)
    requires Settled(a, sent)
    ensures Redeliver(derive, a, sent, picks) == a
  {
    if picks != [] {
      SettledStays(derive, a, sent, picks[..|picks| - 1]);
      var p := picks[|picks| - 1];
      if p < |sent| {
        assert sent[p] in sent;
      }
    }
  }

  lemma CommitSettles(world: World, a: Account, sent: seq<Request>, w: Write, q: Request, b: Account)
    requires WellFormed(world.manifest) && NetOk(world, a, sent) && Pending(world, a, w, q) &&
        Commits(world, a, w, q, b)
    ensures Settled(b, sent + [q]) && NetOk(world, b, sent + [q])
  {
    hide Done, Recognised, Resumable, Advances, Pending;
    RepliesGrow(world.derive, a, q);
    forall p | p in sent + [q] ensures p.key in b.replies {
      if p in sent && p.key !in a.replies {
        var v :| Pending(world, a, v, p);
        OnePending(world, a, w, q, v, p);
      }
    }
  }

  lemma RepliesGrow(derive: Derive, a: Account, q: Request)
    ensures forall k | k in a.replies :: k in Serve(derive, a, q).0.replies
  {
  }

  /** Late arrivals change nothing or commit the first missing write. */
  lemma {:induction false} LateArrivals(world: World, a: Account, sent: seq<Request>, picks: seq<nat>)
    requires WellFormed(world.manifest) && Structures(world) && NetOk(world, a, sent)
    ensures var b := Redeliver(world.derive, a, sent, picks);
            b == a || exists w, q :: Pending(world, a, w, q) && q in sent && Commits(world, a, w, q, b)
  {
    hide Done, Recognised, Resumable, Advances, Pending, Commits, Structures, Serve, Settled;
    if picks != [] {
      var rest, p := picks[..|picks| - 1], picks[|picks| - 1];
      LateArrivals(world, a, sent, rest);
      var b := Redeliver(world.derive, a, sent, rest);
      if b != a {
        var w, q :| Pending(world, a, w, q) && q in sent && Commits(world, a, w, q, b);
        CommitSettles(world, a, sent, w, q, b);
        SettledPart(b, sent, q);
        LateAgain(world.derive, b, sent, p);
      } else if p < |sent| {
        LateFirst(world, a, sent, p);
      }
    }
  }

  lemma SettledPart(a: Account, sent: seq<Request>, q: Request)
    requires Settled(a, sent + [q])
    ensures Settled(a, sent)
  {
    forall p | p in sent ensures p.key in a.replies {
      assert p in sent + [q];
    }
  }

  lemma LateAgain(derive: Derive, a: Account, sent: seq<Request>, p: nat)
    requires Settled(a, sent)
    ensures p < |sent| ==> Serve(derive, a, sent[p]).0 == a
  {
    if p < |sent| {
      assert sent[p] in sent;
    }
  }

  lemma LateFirst(world: World, a: Account, sent: seq<Request>, p: nat)
    requires WellFormed(world.manifest) && Structures(world) && NetOk(world, a, sent) && p < |sent|
    ensures var b := Serve(world.derive, a, sent[p]).0;
            b == a || exists w, q :: Pending(world, a, w, q) && q in sent && Commits(world, a, w, q, b)
  {
    hide Done, Recognised, Resumable, Advances, Structures, Plan;
    var q := sent[p];
    assert q in sent;
    if q.key !in a.replies {
      var w :| Pending(world, a, w, q);
      var r, b := WriteCommits(world, a, w);
      assert r == q;
    }
  }

  // ----- a run -----

  /** Where a run stands before write `k`: in step with the account, whatever is outstanding. */
  ghost predicate InStep(world: World, seen: Settings, k: nat, run: DelayedRun)
    requires 0 < |world.manifest.notes| && k <= |Plan(world.manifest)|
  {
    var m := world.manifest;
    && run.failure.None?
    && NetOk(world, run.account, run.sent)
    && DoneTo(m, run.account, k)
    && run.ctx == Snapshot(m, run.account)
    && (k <= 1 ==> seen == run.account.settings)
    && run.summary.attempted + run.summary.skipped == k
    && run.summary.replayed <= run.summary.attempted
  }

  predicate Answered(turns: seq<Turn>) {
    forall t | t in turns :: t.fault == Delivered
  }

  /** The key of a write that the account lacks. */
  ghost predicate MissingKey(m: Manifest, a: Account, key: string) {
    exists w :: Planned(m, w) && !Done(m, a, w) && key == KeyOf(m, w)
  }

  /** Nothing done is undone, and the log has grown by keys of missing writes only. */
  ghost predicate Grown(m: Manifest, a: Account, b: Account) {
    && (forall w | Planned(m, w) && Done(m, a, w) :: Done(m, b, w))
    && a.log <= b.log
    && forall i | |a.log| <= i < |b.log| :: MissingKey(m, a, b.log[i])
  }

  /** Sending the first missing write: committed, replayed after a late arrival, or lost. */
  lemma AttemptGoes(world: World, seen: Settings, w: Write, q: Request, run: DelayedRun, b: Account)
    requires WellFormed(world.manifest) && Structures(world)
    requires run.failure.None? && NetOk(world, run.account, run.sent)
        && run.ctx == Snapshot(world.manifest, run.account)
    requires Pending(world, run.account, w, q) && Commits(world, run.account, w, q, b)
    requires w.SettingsWrite? ==> seen == run.account.settings
    ensures var next := AttemptLate(world, seen, w, q, run);
            && next.sent == run.sent + [q]
            && next.turns == LaterTurns(run.turns)
            && (next.account == b || (next.account == run.account && next.failure.Some?))
            && (next.failure.None? ==>
                  && next.ctx == Snapshot(world.manifest, b)
                  && next.summary.attempted == run.summary.attempted + 1 && next.summary.skipped == run.summary.skipped
                  && run.summary.replayed <= next.summary.replayed <= run.summary.replayed + 1)
            && (NextTurn(run.turns).fault == Delivered ==> next.failure.None?)
            && (Redeliver(world.derive, run.account, run.sent, NextTurn(run.turns).late) == b && next.failure.None? ==>
                  next.summary.replayed == run.summary.replayed + 1)
  {
    hide Done, Recognised, Resumable, Pending, NetOk, Structures, Snapshot, Redeliver, Serve, Replay, CheckAnswer,
      VerifyNote;
    var m := world.manifest;
    var a := run.account;
    var found := Redeliver(world.derive, a, run.sent, NextTurn(run.turns).late);
    LateArrivals(world, a, run.sent, NextTurn(run.turns).late);
    if found != a {
      var v, p :| Pending(world, a, v, p) && p in run.sent && Commits(world, a, v, p, found);
      OnePending(world, a, w, q, v, p);
      assert found == b;
    }
    SentAgain(world, a, w, q, b, seen);
    SeenOnlyMatters(m, run.ctx, a.settings, seen, w, Serve(world.derive, a, q).1);
  }

  /** What handling one write leaves: outstanding requests in order, and either a failure or the next step. */
  lemma StepGoes(world: World, seen: Settings, k: nat, run: DelayedRun)
    requires WellFormed(world.manifest) && Structures(world)
    requires k < |Plan(world.manifest)| && InStep(world, seen, k, run)
    ensures Planned(world.manifest, Plan(world.manifest)[k])
    ensures var next := StepLate(world, seen, Plan(world.manifest)[k], run);
            && NetOk(world, next.account, next.sent)
            && Grown(world.manifest, run.account, next.account)
            && (next.failure.None? ==> InStep(world, seen, k + 1, next))
            && (Answered(run.turns) ==> next.failure.None? && Answered(next.turns))
  {
    hide Done, Recognised, Resumable, NetOk, Structures, Snapshot, Redeliver, DoneTo, Plan, AttemptLate, Commits,
      Pending,
      Satisfied, RequestFor, Advances;
    var m := world.manifest;
    var w := Plan(m)[k];
    PlanPositions(m, k);
    SettingsComeSecond(m, k);
    ResumableParts(world, run.account, run.sent);
    if Done(m, run.account, w) {
      DoneIsSkipped(m, seen, run.account, w);
      DoneNext(m, run.account, k);
    } else {
      var q, b := WriteCommits(world, run.account, w);
      CommitMeans(world, run.account, w, q, b);
      SeenAlike(m, run.ctx, run.account.settings, seen, w);
      AttemptGoes(world, seen, w, q, run, b);
      CommitSettles(world, run.account, run.sent, w, q, b);
      StillOk(world, run.account, run.sent, w, q);
      if Answered(run.turns) {
        AnsweredLater(run.turns);
      }
      DoneBy(m, run.account, w, b, k);
    }
  }

  lemma SettingsComeSecond(m: Manifest, k: nat)
    requires 0 < |m.notes| && k < |Plan(m)|
    ensures Plan(m)[k].SettingsWrite? <==> k == 1
  {
    PlanPositions(m, k);
  }

  lemma ResumableParts(world: World, a: Account, sent: seq<Request>)
    requires 0 < |world.manifest.notes| && NetOk(world, a, sent)
    ensures Resumable(world.manifest, a) && Recognised(world.manifest, a) && Consistent(a)
  {
  }

  lemma SeenAlike(m: Manifest, ctx: Context, seen: Settings, other: Settings, w: Write)
    requires Planned(m, w) && (w.SettingsWrite? ==> seen == other)
    ensures Satisfied(m, ctx, seen, w) == Satisfied(m, ctx, other, w)
    ensures RequestFor(m, ctx, seen, w) == RequestFor(m, ctx, other, w)
  {
    SeenOnlyMatters(m, ctx, seen, other, w, Refused);
  }

  lemma CommitMeans(world: World, a: Account, w: Write, q: Request, b: Account)
    requires 0 < |world.manifest.notes| && Commits(world, a, w, q, b)
    ensures Planned(world.manifest, w)
    ensures Satisfied(world.manifest, Snapshot(world.manifest, a), a.settings, w) == Ok(false)
    ensures RequestFor(world.manifest, Snapshot(world.manifest, a), a.settings, w) == Ok(q)
    ensures b.log == a.log + [KeyOf(world.manifest, w)]
    ensures w.SettingsWrite? || b.settings == a.settings
    ensures forall x | Planned(world.manifest, x) :: Done(world.manifest, b, x) <==>
        Done(world.manifest, a, x) || x == w
  {
    hide Satisfied, RequestFor, Snapshot, Recognised, CheckAnswer, Serve;
  }

  /** Sending the first missing write once more leaves what is outstanding in order. */
  lemma StillOk(world: World, a: Account, sent: seq<Request>, w: Write, q: Request)
    requires 0 < |world.manifest.notes| && NetOk(world, a, sent) && Pending(world, a, w, q)
    ensures NetOk(world, a, sent + [q])
  {
    hide Pending, Resumable;
  }

  lemma AnsweredLater(turns: seq<Turn>)
    requires Answered(turns)
    ensures NextTurn(turns).fault == Delivered && Answered(LaterTurns(turns))
  {
    if turns != [] {
      assert turns[0] in turns;
    }
  }

  lemma DoneBy(m: Manifest, a: Account, w: Write, b: Account, k: nat)
    requires 0 < |m.notes| && k < |Plan(m)| && Planned(m, w) && Pos(m, w) == k && DoneTo(m, a, k) && !Done(m, a, w)
    requires b.log == a.log + [KeyOf(m, w)]
    requires forall x | Planned(m, x) :: Done(m, b, x) <==> Done(m, a, x) || x == w
    ensures DoneTo(m, b, k + 1) && Grown(m, a, b)
  {
    hide Done, Plan, Pos;
    forall x | Planned(m, x) && Pos(m, x) < k + 1 ensures Done(m, b, x) {
      if Pos(m, x) == k {
        PlanHas(m, x);
        PlanHas(m, w);
      }
    }
  }

  lemma GrownOn(m: Manifest, a: Account, b: Account, c: Account)
    requires Grown(m, a, b) && Grown(m, b, c)
    ensures Grown(m, a, c)
  {
    hide Done;
    assert c.log[..|b.log|] == b.log && b.log[..|a.log|] == a.log;
    forall i | |a.log| <= i < |c.log| ensures MissingKey(m, a, c.log[i]) {
      if i < |b.log| {
        assert c.log[i] == c.log[..|b.log|][i];
        assert MissingKey(m, a, b.log[i]);
      } else {
        assert MissingKey(m, b, c.log[i]);
        var w :| Planned(m, w) && !Done(m, b, w) && c.log[i] == KeyOf(m, w);
        assert !Done(m, a, w);
      }
    }
  }

  lemma {:induction false} StepsGo(world: World, seen: Settings, k: nat, start: DelayedRun)
    requires WellFormed(world.manifest) && Structures(world)
    requires k <= |Plan(world.manifest)| && InStep(world, seen, 0, start)
    ensures var run := StepsLate(world, seen, k, start);
            && NetOk(world, run.account, run.sent)
            && Grown(world.manifest, start.account, run.account)
            && (run.failure.None? ==> InStep(world, seen, k, run))
            && (Answered(start.turns) ==> run.failure.None? && Answered(run.turns))
  {
    hide Done, NetOk, Structures, StepLate, Plan, Grown, Snapshot, DoneTo, Answered;
    if k == 0 {
      GrownNot(world.manifest, start.account);
    } else {
      StepsGo(world, seen, k - 1, start);
      var run := StepsLate(world, seen, k - 1, start);
      PlanPositions(world.manifest, k - 1);
      if run.failure.None? {
        StepGoes(world, seen, k - 1, run);
        GrownOn(world.manifest, start.account, run.account, StepsLate(world, seen, k, start).account);
      } else {
        FailedStays(world, seen, Plan(world.manifest)[k - 1], run);
      }
    }
  }

  lemma GrownNot(m: Manifest, a: Account)
    ensures Grown(m, a, a)
  {
  }

  lemma FailedStays(world: World, seen: Settings, w: Write, run: DelayedRun)
    requires Planned(world.manifest, w) && run.failure.Some?
    ensures StepLate(world, seen, w, run) == run
  {
  }

  /** Late arrivals keep everything in order. */
  lemma ArrivalsGo(world: World, a: Account, sent: seq<Request>, picks: seq<nat>)
    requires WellFormed(world.manifest) && Structures(world) && NetOk(world, a, sent)
    ensures var b := Redeliver(world.derive, a, sent, picks);
            NetOk(world, b, sent) && Grown(world.manifest, a, b)
  {
    hide Done, Recognised, Resumable, Pending, Commits, Structures, Redeliver, DoneTo, NetOk, Grown, Settled, Plan;
    var m := world.manifest;
    var b := Redeliver(world.derive, a, sent, picks);
    LateArrivals(world, a, sent, picks);
    GrownNot(m, a);
    if b != a {
      var w, q :| Pending(world, a, w, q) && q in sent && Commits(world, a, w, q, b);
      CommitSettles(world, a, sent, w, q, b);
      SettledPart(b, sent, q);
      SettledIsOk(world, b, sent, q);
      CommitMeans(world, a, w, q, b);
      PendingMeans(world, a, w, q);
      DoneBy(m, a, w, b, Pos(m, w));
    }
  }

  lemma SettledIsOk(world: World, a: Account, sent: seq<Request>, q: Request)
    requires 0 < |world.manifest.notes| && NetOk(world, a, sent + [q]) && Settled(a, sent)
    ensures NetOk(world, a, sent)
  {
    hide Pending, Resumable;
  }

  lemma PendingMeans(world: World, a: Account, w: Write, q: Request)
    requires 0 < |world.manifest.notes| && Pending(world, a, w, q)
    ensures var m := world.manifest;
            Planned(m, w) && Pos(m, w) < |Plan(m)| && DoneTo(m, a, Pos(m, w)) && !Done(m, a, w)
  {
  }

  /** A whole run keeps the account workable; if every exchange is answered, it completes the portfolio. */
  lemma RunGoes(world: World, a: Account, sent: seq<Request>, s: Schedule)
    requires WellFormed(world.manifest) && Structures(world) && NetOk(world, a, sent)
    ensures var run := ExecuteLate(world, a, sent, s);
            && NetOk(world, run.account, run.sent)
            && Grown(world.manifest, a, run.account)
            && (Answered(s.turns) ==> run.failure.None?)
            && (run.failure.None? ==>
                  && VerifyComplete(world.manifest, run.account).Ok?
                  && run.summary.attempted + run.summary.skipped == PlannedWrites(world.manifest)
                  && run.summary.replayed <= run.summary.attempted)
  {
    hide Done, Recognised, Structures, Redeliver, Preflight, VerifyComplete, StepsLate, Snapshot, NetOk, Grown, Plan;
    var m := world.manifest;
    var found := Redeliver(world.derive, a, sent, s.before);
    ArrivalsGo(world, a, sent, s.before);
    ResumableParts(world, found, sent);
    PreflightMeaning(m, found);
    var start := DelayedRun(found, sent, s.turns, Preflight(m, found).value, Summary(0, 0, 0), None);
    var run := StepsLate(world, found.settings, |Plan(m)|, start);
    StepsGo(world, found.settings, |Plan(m)|, start);
    GrownOn(m, a, found, run.account);
    if run.failure.None? {
      ArrivalsGo(world, run.account, run.sent, s.after);
      var last := Redeliver(world.derive, run.account, run.sent, s.after);
      GrownOn(m, a, run.account, last);
      ResumableParts(world, last, run.sent);
      AllDoneAtEnd(m, run.account, last);
      T.CompleteMeaning(m, last);
      PlanLength(m);
    }
  }

  lemma AllDoneAtEnd(m: Manifest, a: Account, b: Account)
    requires 0 < |m.notes| && DoneTo(m, a, |Plan(m)|) && Grown(m, a, b)
    ensures T.AllDone(m, b)
  {
    hide Done, Plan, Pos;
    forall w | Planned(m, w) ensures Done(m, b, w) {
      PlanHas(m, w);
    }
  }

  lemma {:induction false} RunsGo(world: World, a: Account, sent: seq<Request>, schedules: seq<Schedule>)
    requires WellFormed(world.manifest) && Structures(world) && NetOk(world, a, sent)
    ensures var after := AfterLateRuns(world, a, sent, schedules);
            NetOk(world, after.0, after.1) && Grown(world.manifest, a, after.0)
  {
    hide NetOk, Grown, ExecuteLate, Structures;
    if schedules == [] {
      GrownNot(world.manifest, a);
    } else {
      var before := schedules[..|schedules| - 1];
      RunsGo(world, a, sent, before);
      var reached := AfterLateRuns(world, a, sent, before);
      RunGoes(world, reached.0, reached.1, schedules[|schedules| - 1]);
      GrownOn(world.manifest, a, reached.0, AfterLateRuns(world, a, sent, schedules).0);
    }
  }

  /**
    Convergence: from any account the seeder can work on, after any number of runs whose requests were
    lost, unanswered, or delivered at any later time and again, the account is still one that passes
    preflight; one run that gets its answers completes the portfolio, whatever arrives late meanwhile; and
    over all runs each key took effect at most once, for writes that were missing and no others.
   */
  lemma ConvergesDespiteDelays(world: World, a: Account, schedules: seq<Schedule>, last: Schedule)
    requires WellFormed(world.manifest) && Structures(world) && Resumable(world.manifest, a)
    requires Answered(last.turns)
    ensures var m := world.manifest;
            var (found, sent) := AfterLateRuns(world, a, [], schedules);
            var run := ExecuteLate(world, found, sent, last);
            && Resumable(m, found) && Preflight(m, found).Ok?
            && run.failure.None? && VerifyComplete(m, run.account).Ok?
            && run.summary.attempted + run.summary.skipped ==
                PlannedWrites(m) && run.summary.replayed <= run.summary.attempted
            && Grown(m, a, run.account)
            && forall i, j | 0 <= i < j < |run.account.log| :: run.account.log[i] != run.account.log[j]
  {
    hide NetOk, Grown, ExecuteLate, AfterLateRuns, Structures, Recognised, Preflight, VerifyComplete;
    var m := world.manifest;
    NothingSent(world, a);
    RunsGo(world, a, [], schedules);
    var (found, sent) := AfterLateRuns(world, a, [], schedules);
    var run := ExecuteLate(world, found, sent, last);
    ResumableParts(world, found, sent);
    PreflightMeaning(m, found);
    RunGoes(world, found, sent, last);
    ResumableParts(world, run.account, run.sent);
    GrownOn(m, a, found, run.account);
  }

  lemma NothingSent(world: World, a: Account)
    requires 0 < |world.manifest.notes| && Resumable(world.manifest, a)
    ensures NetOk(world, a, [])
  {
  }

  /**
    Replays do happen: when the first missing write arrived late, after the client had read the account,
    the client sends it again, gets the recorded answer, and goes on in step.
   */
  lemma LateArrivalIsReplayed(world: World, seen: Settings, k: nat, run: DelayedRun, w: Write, p: nat)
    requires WellFormed(world.manifest) && Structures(world)
    requires k < |Plan(world.manifest)| && InStep(world, seen, k, run)
    requires w == Plan(world.manifest)[k] && p < |run.sent| && Pending(world, run.account, w, run.sent[p])
    requires NextTurn(run.turns) == Turn([p], Delivered)
    ensures var next := StepLate(world, seen, w, run);
            next.failure.None? && next.summary.replayed == run.summary.replayed + 1 && InStep(world, seen, k + 1, next)
  {
    hide Done, Recognised, Resumable, NetOk, Structures, Snapshot, DoneTo, Plan, AttemptLate, Satisfied, RequestFor,
      Advances;
    var m := world.manifest;
    var a := run.account;
    StepGoes(world, seen, k, run);
    SettingsComeSecond(m, k);
    ResumableParts(world, a, run.sent);
    PendingMeans(world, a, w, run.sent[p]);
    var q, b := WriteCommits(world, a, w);
    OnePending(world, a, w, run.sent[p], w, q);
    CommitMeans(world, a, w, q, b);
    SeenAlike(m, run.ctx, a.settings, seen, w);
    OneArrival(world.derive, a, run.sent, p);
    AttemptGoes(world, seen, w, q, run, b);
  }

  lemma OneArrival(derive: Derive, a: Account, sent: seq<Request>, p: nat)
    requires p < |sent|
    ensures Redeliver(derive, a, sent, [p]) == Serve(derive, a, sent[p]).0
  {
    assert [p][..0] == [];
    assert Redeliver(derive, a, sent, [p][..0]) == a;
  }

  // ----- without late arrivals -----

  /** Turns with nothing late. */
  function Prompt(faults: seq<Fault>): (turns: seq<Turn>)
    ensures |turns| == |faults|
  {
    seq(|faults|, i requires 0 <= i < |faults| => Turn([], faults[i]))
  }

  /** The delayed run stands where the run of the seeder does. */
  predicate Alike(late: DelayedRun, run: Run) {
    && late.account == run.account && late.turns == Prompt(run.faults)
    && late.ctx == run.ctx && late.summary == run.summary && late.failure == run.failure
  }

  lemma PromptTurns(faults: seq<Fault>)
    ensures NextTurn(Prompt(faults)) == Turn([], NextFault(faults))
    ensures LaterTurns(Prompt(faults)) == Prompt(LaterFaults(faults))
  {
  }

  lemma StepAlike(world: World, seen: Settings, w: Write, late: DelayedRun, run: Run)
    requires Planned(world.manifest, w) && Alike(late, run)
    ensures Alike(StepLate(world, seen, w, late), Step(world, seen, w, run))
  {
    hide Satisfied, RequestFor, CheckAnswer, Exchange, Prompt, NextTurn, LaterTurns, NextFault, LaterFaults;
    PromptTurns(run.faults);
  }

  lemma {:induction false} StepsAlike(world: World, seen: Settings, k: nat, late: DelayedRun, run: Run)
    requires 0 < |world.manifest.notes| && k <= |Plan(world.manifest)| && Alike(late, run)
    ensures AllPlanned(world.manifest, Plan(world.manifest)[..k])
    ensures Alike(StepsLate(world, seen, k, late), Steps(world, seen, Plan(world.manifest)[..k], run))
  {
    hide StepLate, Step, Plan, Alike;
    var plan := Plan(world.manifest);
    forall i | 0 <= i < k ensures Planned(world.manifest, plan[..k][i]) {
      PlanPositions(world.manifest, i);
    }
    if k > 0 {
      StepsAlike(world, seen, k - 1, late, run);
      assert plan[..k][..k - 1] == plan[..k - 1];
      StepAlike(world, seen, plan[k - 1], StepsLate(world, seen, k - 1, late), Steps(world, seen, plan[..k - 1], run));
    }
  }

  /** A schedule without late arrivals gives the run of the seeder under the same faults, whatever is
      outstanding. */
  lemma PromptRun(world: World, a: Account, sent: seq<Request>, faults: seq<Fault>)
    requires 0 < |world.manifest.notes|
    ensures Alike(ExecuteLate(world, a, sent, Schedule([], Prompt(faults), [])), ExecutePortfolio(world, a, faults))
  {
    hide Preflight, VerifyComplete, StepsLate, Steps, Plan;
    var m := world.manifest;
    if Preflight(m, a).Ok? {
      var ctx := Preflight(m, a).value;
      StepsAlike(world, a.settings, |Plan(m)|, DelayedRun(a, sent, Prompt(faults), ctx, Summary(0, 0, 0), None),
          Run(a, faults, ctx, Summary(0, 0, 0), None));
      assert Plan(m)[..|Plan(m)|] == Plan(m);
    }
  }
}
