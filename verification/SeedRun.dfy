/**
  The seeding program with its loops and counters, computing the fold defined in `Seeder`. Judging one write,
  building its request and checking its answer are the functions of `Seeder` themselves.
 */
module SeedRun {
  import opened Wrappers
  import opened Portfolio
  import opened DemoServer
  import opened Seeder

  /** The counters a run keeps. */
  class Tally {
    var attempted: nat
    var replayed: nat
    var skipped: nat

    constructor ()
      ensures Value() == Summary(0, 0, 0)
    {
      attempted, replayed, skipped := 0, 0, 0;
    }

    function Value(): Summary
      reads this
    {
      Summary(attempted, replayed, skipped)
    }
  }

  // ----- folds stop at the first failure -----

  lemma {:induction false} NamesStuck<T>(items: seq<T>, name: T -> string, allowed: set<string>, i: nat)
    requires i <= |items| && UniqueByName(items[..i], name, allowed).Err?
    ensures UniqueByName(items, name, allowed) == UniqueByName(items[..i], name, allowed)
    decreases |items|
  {
    if i < |items| {
      assert items[..|items| - 1][..i] == items[..i];
      NamesStuck(items[..|items| - 1], name, allowed, i);
    } else {
      assert items[..i] == items;
    }
  }

  lemma {:induction false} StepsStuck(world: World, seen: Settings, writes: seq<Write>, i: nat, run: Run)
    requires AllPlanned(world.manifest, writes) && i <= |writes|
    requires Steps(world, seen, writes[..i], run).failure.Some?
    ensures Steps(world, seen, writes, run) == Steps(world, seen, writes[..i], run)
    decreases |writes|
  {
    hide Satisfied, RequestFor, Attempt;
    if i < |writes| {
      assert writes[..|writes| - 1][..i] == writes[..i];
      StepsStuck(world, seen, writes[..|writes| - 1], i, run);
    } else {
      assert writes[..i] == writes;
    }
  }

  lemma {:induction false} StepsAppend(world: World, seen: Settings, first: seq<Write>, second: seq<Write>, run: Run)
    requires AllPlanned(world.manifest, first) && AllPlanned(world.manifest, second)
    ensures AllPlanned(world.manifest, first + second)
    ensures Steps(world, seen, first + second, run) == Steps(world, seen, second, Steps(world, seen, first, run))
    decreases |second|
  {
    hide Step;
    if second == [] {
      assert first + second == first;
    } else {
      var prefix := second[..|second| - 1];
      StepsAppend(world, seen, first, prefix, run);
      assert (first + second)[..|first + second| - 1] == first + prefix;
    }
  }

  lemma StepsNext(world: World, seen: Settings, writes: seq<Write>, i: nat, run: Run)
    requires AllPlanned(world.manifest, writes) && i < |writes|
    ensures Steps(world, seen, writes[..i + 1], run) ==
        Step(world, seen, writes[i], Steps(world, seen, writes[..i], run))
  {
    hide Step;
    assert writes[..i + 1][..i] == writes[..i];
  }

  // ----- reading -----

  method IndexByName<T>(items: seq<T>, name: T -> string, allowed: set<string>) returns (r: Result<map<string, T>>)
    ensures r == UniqueByName(items, name, allowed)
  {
    var result := map[];
    for i := 0 to |items|
      invariant UniqueByName(items[..i], name, allowed) == Ok(result)
    {
      var value := name(items[i]);
      assert items[..i + 1][..i] == items[..i];
      if value !in allowed || value in result {
        NamesStuck(items, name, allowed, i + 1);
        return Err(if value !in allowed then "unexpected_account_data" else "duplicate_inventory_item");
      }
      result := result[value := items[i]];
    }
    assert items[..|items|] == items;
    return Ok(result);
  }

  method SpacesFit(m: Manifest, spaces: map<string, Space>) returns (fit: bool)
    ensures fit <==> !exists i :: 0 <= i < |m.spaces| && m.spaces[i].name in spaces
                                  && !SpaceFits(spaces[m.spaces[i].name], m.spaces[i])
  {
    hide SpaceFits;
    for i := 0 to |m.spaces|
      invariant forall j | 0 <= j < i && m.spaces[j].name in spaces :: SpaceFits(spaces[m.spaces[j].name], m.spaces[j])
    {
      if m.spaces[i].name in spaces && !SpaceFits(spaces[m.spaces[i].name], m.spaces[i]) {
        return false;
      }
    }
    fit := true;
  }

  /** What the listings of an account hold. */
  datatype Inventory = Inventory(spaces: seq<Space>, tags: seq<Tag>, notes: seq<Note>, foreign: Foreign)

  ghost predicate Lists(inventory: Inventory, a: Account) {
    inventory == Inventory(a.spaces, a.tags, a.notes, a.foreign)
  }

  /** The checks on a listed account. */
  method CheckInventory(inventory: Inventory, m: Manifest, ghost a: Account) returns (r: Result<Existing>)
    requires 0 < |m.notes| && Lists(inventory, a)
    ensures r == ExpectedMaps(m, a)
  {
    hide UniqueByName, Names, SpacePairs, TagPairs, NotePairs, SpaceFits, NoteTitle, SpaceName, TagName;
    var foreign := inventory.foreign;
    if foreign.captures > 0 || foreign.deletedNotes > 0 || foreign.reviewItems > 0 || foreign.routingRules > 0
      || foreign.providerKey {
      return Err("account_not_pristine");
    }
    var spaces :- IndexByName(inventory.spaces, SpaceName, Names(SpacePairs(m)));
    var tags :- IndexByName(inventory.tags, TagName, Names(TagPairs(m)));
    var notes :- IndexByName(inventory.notes, NoteTitle, Names(NotePairs(m)));
    if (|spaces| > 0 || |tags| > 0 || |notes| > 0) && m.notes[0].title !in notes {
      return Err("fixture_marker_missing");
    }
    var fit := SpacesFit(m, spaces);
    if !fit {
      return Err("fixture_mismatch");
    }
    return Ok(Existing(spaces, tags, notes));
  }

  method ReadExpected(server: Server, m: Manifest) returns (r: Result<Existing>)
    requires 0 < |m.notes|
    ensures r == ExpectedMaps(m, server.account)
  {
    var a := server.account;
    r := CheckInventory(Inventory(a.spaces, a.tags, a.notes, a.foreign), m, a);
  }

  lemma {:induction false} FetchStuck(m: Manifest, a: Account, existing: map<string, Note>, i: nat, n: nat)
    requires i <= n <= |m.notes| && FetchNotes(m, a, existing, i).Err?
    ensures FetchNotes(m, a, existing, n) == FetchNotes(m, a, existing, i)
    decreases n
  {
    if i < n {
      FetchStuck(m, a, existing, i, n - 1);
    }
  }

  lemma {:induction false} VerifyStuck(m: Manifest, ctx: Context, i: nat, n: nat, allow: bool)
    requires i <= n <= |m.notes| && VerifyNotes(m, ctx, i, allow).Err?
    ensures VerifyNotes(m, ctx, n, allow) == VerifyNotes(m, ctx, i, allow)
    decreases n
  {
    hide VerifyNote;
    if i < n {
      VerifyStuck(m, ctx, i, n - 1, allow);
    }
  }

  method ReadNotes(server: Server, m: Manifest, existing: map<string, Note>) returns (r: Result<map<string, Note>>)
    ensures r == FetchNotes(m, server.account, existing, |m.notes|)
  {
    var notes := map[];
    for i := 0 to |m.notes|
      invariant FetchNotes(m, server.account, existing, i) == Ok(notes)
    {
      var spec := m.notes[i];
      if spec.title in existing {
        var note := server.GetNote(existing[spec.title].id);
        if note.None? {
          FetchStuck(m, server.account, existing, i + 1, |m.notes|);
          return Err("remote_api_error");
        }
        notes := notes[spec.key := note.value];
      }
    }
    return Ok(notes);
  }

  /** Reads and checks every fixture present. */
  method InspectAccount(server: Server, m: Manifest, allowIncomplete: bool) returns (r: Result<Context>)
    requires 0 < |m.notes|
    ensures r == Inspect(m, server.account, allowIncomplete)
  {
    hide VerifyNote, ExpectedMaps, FetchNotes;
    var existing :- ReadExpected(server, m);
    var notes :- ReadNotes(server, m, existing.notes);
    var ctx := Context(ByKey(SpacePairs(m), existing.spaces), ByKey(TagPairs(m), existing.tags), notes);
    for i := 0 to |m.notes|
      invariant VerifyNotes(m, ctx, i, allowIncomplete).Ok?
    {
      var spec := m.notes[i];
      if spec.key in notes {
        var verdict := VerifyNote(notes[spec.key], spec, ctx, allowIncomplete);
        if verdict.Err? {
          VerifyStuck(m, ctx, i + 1, |m.notes|, allowIncomplete);
          return Err(verdict.code);
        }
      }
    }
    return Ok(ctx);
  }

  // ----- writing -----

  /** The program state stands for the run `run`: all of it while the run goes well, and the
      account, the network and the failure once it has failed. */
  ghost predicate Computes(server: Server, tally: Tally, r: Result<Context>, run: Run)
    reads server, tally
  {
    && server.account == run.account
    && server.faults == run.faults
    && match r
       case Ok(ctx) => run.failure.None? && run.ctx == ctx && run.summary == tally.Value()
       case Err(code) => run.failure == Some(code)
  }

  /** Skips the write or issues it and checks the answer. */
  method Perform(server: Server, world: World, seen: Settings, w: Write, ctx: Context, tally: Tally)
    returns (r: Result<Context>)
    requires Planned(world.manifest, w) && server.derive == world.derive
    modifies server, tally
    ensures Computes(server, tally, r,
                     Step(world, seen, w, Run(old(server.account), old(server.faults), ctx, old(tally.Value()), None)))
  {
    hide Satisfied, RequestFor, CheckAnswer, Exchange;
    var m := world.manifest;
    var satisfied :- Satisfied(m, ctx, seen, w);
    if satisfied {
      tally.skipped := tally.skipped + 1;
      return Ok(ctx);
    }
    var q :- RequestFor(m, ctx, seen, w);
    var answer := server.Send(q);
    if answer.None? {
      return Err("unexpected_failure");
    }
    var more :- CheckAnswer(m, ctx, seen, w, answer.value);
    AnswerNotRefused(m, ctx, seen, w, answer.value);
    tally.attempted := tally.attempted + 1;
    if answer.value.replayed {
      tally.replayed := tally.replayed + 1;
    }
    return Ok(more);
  }

  lemma AnswerNotRefused(m: Manifest, ctx: Context, seen: Settings, w: Write, answer: Answer)
    requires Planned(m, w) && CheckAnswer(m, ctx, seen, w, answer).Ok?
    ensures !answer.Refused?
  {
  }

  /** Works through a list of writes, stopping at the first failure. */
  method PerformAll(server: Server, world: World, seen: Settings, writes: seq<Write>, ctx: Context, tally: Tally)
    returns (r: Result<Context>)
    requires AllPlanned(world.manifest, writes) && server.derive == world.derive
    modifies server, tally
    ensures Computes(server, tally, r,
                     Steps(world, seen, writes, Run(old(server.account), old(server.faults), ctx, old(tally.Value()),
                         None)))
  {
    hide Step;
    ghost var start := Run(server.account, server.faults, ctx, tally.Value(), None);
    var known := ctx;
    for i := 0 to |writes|
      invariant server.derive == world.derive
      invariant Computes(server, tally, Ok(known), Steps(world, seen, writes[..i], start))
    {
      StepsNext(world, seen, writes, i, start);
      var step := Perform(server, world, seen, writes[i], known, tally);
      if step.Err? {
        StepsStuck(world, seen, writes, i + 1, start);
        return Err(step.code);
      }
      known := step.value;
    }
    assert writes[..|writes|] == writes;
    return Ok(known);
  }

  lemma PlanParts(m: Manifest)
    requires 0 < |m.notes|
    ensures AllPlanned(m, [NoteWrite(0), SettingsWrite]) && AllPlanned(m, SpaceWrites(m)) && AllPlanned(m, TagWrites(m))
    ensures AllPlanned(m, BodyTo(m, |m.notes|)) && AllPlanned(m, Plan(m))
    ensures Plan(m) == [NoteWrite(0), SettingsWrite] + SpaceWrites(m) + TagWrites(m) + BodyTo(m, |m.notes|)
  {
    forall k | 0 <= k < |BodyTo(m, |m.notes|)| ensures Planned(m, BodyTo(m, |m.notes|)[k]) { BodyAt(m, |m.notes|, k); }
    forall k | 0 <= k < |Plan(m)| ensures Planned(m, Plan(m)[k]) { PlanPositions(m, k); }
  }

  /** Marker and settings, then spaces, then tags, then the notes with their updates. */
  method IssuePlan(server: Server, world: World, seen: Settings, ctx: Context,
                   tally: Tally) returns (r: Result<Context>)
    requires 0 < |world.manifest.notes| && server.derive == world.derive
    requires AllPlanned(world.manifest, Plan(world.manifest))
    modifies server, tally
    ensures Computes(server, tally, r,
                     Steps(world, seen, Plan(world.manifest),
                           Run(old(server.account), old(server.faults), ctx, old(tally.Value()), None)))
  {
    hide Step, Steps;
    var m := world.manifest;
    PlanParts(m);
    ghost var start := Run(server.account, server.faults, ctx, tally.Value(), None);
    var head, spaces, tags, notes := [NoteWrite(0), SettingsWrite], SpaceWrites(m), TagWrites(m), BodyTo(m, |m.notes|);
    StepsAppend(world, seen, head, spaces, start);
    StepsAppend(world, seen, head + spaces, tags, start);
    StepsAppend(world, seen, head + spaces + tags, notes, start);
    ghost var rest1, rest2 := head + spaces, head + spaces + tags;
    assert Plan(m)[..|head|] == head && Plan(m)[..|rest1|] == rest1 && Plan(m)[..|rest2|] == rest2;
    r := PerformAll(server, world, seen, head, ctx, tally);
    if r.Err? {
      StepsStuck(world, seen, Plan(m), |head|, start);
      return;
    }
    r := PerformAll(server, world, seen, spaces, r.value, tally);
    if r.Err? {
      StepsStuck(world, seen, Plan(m), |rest1|, start);
      return;
    }
    r := PerformAll(server, world, seen, tags, r.value, tally);
    if r.Err? {
      StepsStuck(world, seen, Plan(m), |rest2|, start);
      return;
    }
    r := PerformAll(server, world, seen, notes, r.value, tally);
  }

  method Seed(server: Server, world: World, tally: Tally) returns (r: Result<Context>)
    requires 0 < |world.manifest.notes| && server.derive == world.derive && tally.Value() == Summary(0, 0, 0)
    modifies server, tally
    ensures Computes(server, tally, r, SeedPortfolio(world, old(server.account), old(server.faults)))
  {
    hide Step, Steps, Inspect;
    PlanParts(world.manifest);
    var ctx :- InspectAccount(server, world.manifest, true);
    r := IssuePlan(server, world, server.account.settings, ctx, tally);
  }

  method VerifyCompleteAccount(server: Server, m: Manifest) returns (r: Result<()>)
    requires 0 < |m.notes|
    ensures r == VerifyComplete(m, server.account)
  {
    hide ExpectedMaps, Inspect;
    var existing :- ReadExpected(server, m);
    if |existing.spaces| != |m.spaces| || |existing.tags| != |m.tags| || |existing.notes| != |m.notes| {
      return Err("postflight_fixture_incomplete");
    }
    if !SettingsMatch(m, server.account.settings) {
      return Err("fixture_settings_mismatch");
    }
    var _ :- InspectAccount(server, m, false);
    return Ok(());
  }

  datatype Profile = Fresh | Demo

  predicate Bare(a: Account) {
    && a.spaces == [] && a.tags == [] && a.notes == []
    && a.foreign.captures == 0 && a.foreign.deletedNotes == 0 && a.foreign.reviewItems == 0
    && a.foreign.routingRules == 0 && !a.foreign.providerKey
  }

  /** The command: the owner must be allowed; the fresh profile only checks; the demo profile seeds
      and then takes the final census. */
  method ExecuteSeed(server: Server, world: World, email: string, allowedEmails: set<string>, profile: Profile)
    returns (r: Result<Summary>)
    requires 0 < |world.manifest.notes| && server.derive == world.derive
    modifies server
    ensures email !in allowedEmails ==>
              r == Err("account_not_allowlisted") && server.account == old(server.account)
                  && server.faults == old(server.faults)
    ensures email in allowedEmails && profile == Fresh ==>
              && server.account == old(server.account) && server.faults == old(server.faults)
              && r == if Bare(server.account) then Ok(Summary(0, 0, 0)) else Err("fresh_account_not_empty")
    ensures email in allowedEmails && profile == Demo ==>
              var run := ExecutePortfolio(world, old(server.account), old(server.faults));
              && server.account == run.account && server.faults == run.faults
              && r == if run.failure.Some? then Err(run.failure.value) else Ok(run.summary)
  {
    hide SeedPortfolio, VerifyComplete;
    if email !in allowedEmails {
      return Err("account_not_allowlisted");
    }
    if profile == Fresh {
      return if Bare(server.account) then Ok(Summary(0, 0, 0)) else Err("fresh_account_not_empty");
    }
    var tally := new Tally();
    var seeded := Seed(server, world, tally);
    if seeded.Err? {
      return Err(seeded.code);
    }
    var _ :- VerifyCompleteAccount(server, world.manifest);
    return Ok(tally.Value());
  }
}
