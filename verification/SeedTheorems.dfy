/** Whole runs: crashes, resumption and completion. */
module SeedTheorems {
  import opened Wrappers
  import opened Portfolio
  import opened DemoServer
  import opened Seeder
  import opened SeedMeaning
  import opened SeedProgress

  /** An account no fixture and no key of the manifest has touched. */
  ghost predicate Empty(m: Manifest, a: Account) {
    && a.spaces == [] && a.tags == [] && a.notes == []
    && Pristine(a.foreign)
    && Consistent(a)
    && forall w | Planned(m, w) :: KeyOf(m, w) !in a.replies
  }

  lemma PlanPlanned(m: Manifest)
    requires 0 < |m.notes|
    ensures AllPlanned(m, Plan(m))
  {
    forall k | 0 <= k < |Plan(m)| ensures Planned(m, Plan(m)[k]) { PlanPositions(m, k); }
  }

  /** The effect of one planned write on the service; settings that already match are left alone. */
  function Apply(world: World, a: Account, w: Write): Account
    requires Planned(world.manifest, w)
  {
    var m := world.manifest;
    if w.SettingsWrite? && SettingsMatch(m, a.settings) then a
    else
      match RequestFor(m, Snapshot(m, a), a.settings, w)
      case Ok(q) => Serve(world.derive, a, q).0
      case Err(_) => a
  }

  /** The account after the first `n` planned writes. */
  function Reach(world: World, base: Account, n: nat): Account
    requires 0 < |world.manifest.notes| && n <= |Plan(world.manifest)|
  {
    if n == 0 then base
    else
      PlanPositions(world.manifest, n - 1);
      Apply(world, Reach(world, base, n - 1), Plan(world.manifest)[n - 1])
  }

  /** The keys those writes leave in the log. */
  function Effects(m: Manifest, base: Account, n: nat): seq<string>
    requires 0 < |m.notes| && n <= |Plan(m)|
  {
    if n == 0 then []
    else
      PlanPositions(m, n - 1);
      var w := Plan(m)[n - 1];
      Effects(m, base, n - 1) + if w.SettingsWrite? && SettingsMatch(m, base.settings) then [] else [KeyOf(m, w)]
  }

  ghost predicate DoneBefore(m: Manifest, base: Account, w: Write, n: nat)
    requires Planned(m, w)
  {
    Pos(m, w) < n || (w.SettingsWrite? && SettingsMatch(m, base.settings))
  }

  ghost predicate AtPrefix(world: World, base: Account, a: Account, n: nat)
    requires 0 < |world.manifest.notes| && n <= |Plan(world.manifest)|
  {
    var m := world.manifest;
    && Consistent(a)
    && Recognised(m, a)
    && (n <= 1 ==> a.settings == base.settings)
    && a.log == base.log + Effects(m, base, n)
    && (forall w | Planned(m, w) :: Done(m, a, w) <==> DoneBefore(m, base, w, n))
    && (forall w | Planned(m, w) && n <= Pos(m, w) :: KeyOf(m, w) !in a.replies)
  }

  lemma EmptyAtPrefix(world: World, base: Account)
    requires WellFormed(world.manifest) && Empty(world.manifest, base)
    ensures AtPrefix(world, base, base, 0)
  {
  }

  lemma NotesThere(m: Manifest)
    requires WellFormed(m)
    ensures 0 < |m.notes|
  {
  }

  lemma ReadyAtPrefix(world: World, base: Account, a: Account, n: nat)
    requires WellFormed(world.manifest) && n < |Plan(world.manifest)| && AtPrefix(world, base, a, n)
    ensures Planned(world.manifest, Plan(world.manifest)[n]) && Ready(world.manifest, a, Plan(world.manifest)[n])
  {
    hide Done, Plan, WellFormed;
    var m := world.manifest;
    NotesThere(m);
    var w := Plan(m)[n];
    PlanPositions(m, n);
    PlanOrder(m, NoteWrite(0), w);
    if w.NoteWrite? && w.i > 0 {
      forall i | 0 <= i < |m.spaces| ensures Done(m, a, SpaceWrite(i)) { PlanOrder(m, SpaceWrite(i), w); }
      forall i | 0 <= i < |m.tags| ensures Done(m, a, TagWrite(i)) { PlanOrder(m, TagWrite(i), w); }
      forall i | 0 <= i < w.i ensures Done(m, a, NoteWrite(i)) { PlanOrder(m, NoteWrite(i), w); }
    } else if w.UpdateWrite? {
      PlanOrder(m, NoteWrite(w.i), w);
    }
  }

  lemma DoneNext(m: Manifest, base: Account, a: Account, n: nat, w: Write, b: Account)
    requires WellFormed(m) && n < |Plan(m)| && Planned(m, w) && Plan(m)[n] == w && Pos(m, w) == n
    requires forall x | Planned(m, x) :: Done(m, a, x) <==> DoneBefore(m, base, x, n)
    requires forall x | Planned(m, x) :: Done(m, b, x) <==> Done(m, a, x) || x == w
    ensures forall x | Planned(m, x) :: Done(m, b, x) <==> DoneBefore(m, base, x, n + 1)
  {
    forall x | Planned(m, x) ensures Done(m, b, x) <==> DoneBefore(m, base, x, n + 1) {
      if Pos(m, x) == n {
        PlanHas(m, x);
      }
    }
  }

  lemma KeysNext(m: Manifest, a: Account, n: nat, w: Write, b: Account)
    requires DistinctKeys(m) && Planned(m, w) && Pos(m, w) == n && 0 < |m.notes|
    requires Consistent(a) && Consistent(b) && b.log == a.log + [KeyOf(m, w)]
    requires forall x | Planned(m, x) && n <= Pos(m, x) :: KeyOf(m, x) !in a.replies
    ensures forall x | Planned(m, x) && n + 1 <= Pos(m, x) :: KeyOf(m, x) !in b.replies
  {
    forall x | Planned(m, x) && n + 1 <= Pos(m, x) ensures KeyOf(m, x) !in b.replies {
      assert KeyOf(m, x) !in a.log;
      assert KeyOf(m, x) != KeyOf(m, w);
    }
  }

  lemma NextAtPrefix(world: World, base: Account, a: Account, n: nat, w: Write, b: Account)
    requires WellFormed(world.manifest) && n < |Plan(world.manifest)| && AtPrefix(world, base, a, n)
    requires Planned(world.manifest, w) && w == Plan(world.manifest)[n] && Pos(world.manifest, w) == n
    requires !(w.SettingsWrite? && SettingsMatch(world.manifest, base.settings))
    requires Consistent(b) && Recognised(world.manifest, b)
    requires b.log == a.log + [KeyOf(world.manifest, w)]
    requires w.SettingsWrite? || b.settings == a.settings
    requires forall x | Planned(world.manifest, x) :: Done(world.manifest, b, x) <==>
        Done(world.manifest, a, x) || x == w
    ensures AtPrefix(world, base, b, n + 1)
  {
    hide Recognised, Done;
    DoneNext(world.manifest, base, a, n, w, b);
    KeysNext(world.manifest, a, n, w, b);
  }

  /** Settings that already matched leave the account at the next prefix as it is. */
  lemma SettingsAlong(world: World, base: Account, a: Account, n: nat)
    requires WellFormed(world.manifest)
    requires n < |Plan(world.manifest)| && AtPrefix(world, base, a, n)
    requires Plan(world.manifest)[n].SettingsWrite? && SettingsMatch(world.manifest, base.settings)
    ensures Apply(world, a, SettingsWrite) == a && Done(world.manifest, a, SettingsWrite)
    ensures AtPrefix(world, base, a, n + 1)
  {
    hide Recognised, Snapshot;
    var m := world.manifest;
    PlanPositions(m, n);
    assert Pos(m, SettingsWrite) == n;
    forall x | Planned(m, x) ensures Done(m, a, x) <==> DoneBefore(m, base, x, n + 1) {
      if Pos(m, x) == n {
        PlanHas(m, x);
      }
    }
  }

  /** One step along the plan: either the settings already match, or the write advances. */
  lemma StepAlong(world: World, base: Account, seen: Settings, a: Account, n: nat)
    requires WellFormed(world.manifest) && Structures(world)
    requires n < |Plan(world.manifest)| && AtPrefix(world, base, a, n)
    requires Plan(world.manifest)[n].SettingsWrite? ==> seen == a.settings
    ensures Planned(world.manifest, Plan(world.manifest)[n])
    ensures var w := Plan(world.manifest)[n];
            var b := Apply(world, a, w);
            AtPrefix(world, base, b, n + 1)
            && if w.SettingsWrite?
                && SettingsMatch(world.manifest, base.settings) then b == a && Done(world.manifest, a, w)
               else Advances(world, seen, a, w, b) && |b.log| == |a.log| + 1
  {
    var m := world.manifest;
    var w := Plan(m)[n];
    PlanPositions(m, n);
    ReadyAtPrefix(world, base, a, n);
    if w.SettingsWrite? && SettingsMatch(m, base.settings) {
      SettingsAlong(world, base, a, n);
    } else {
      WriteAdvances(world, seen, a, w);
      var b :| Advances(world, seen, a, w, b);
      var q := RequestFor(m, Snapshot(m, a), seen, w).value;
      assert RequestFor(m, Snapshot(m, a), a.settings, w) == Ok(q);
      assert b == Apply(world, a, w);
      ServeKeepsConsistent(world.derive, a, q);
      NextAtPrefix(world, base, a, n, w, b);
    }
  }

  lemma ReachNext(world: World, base: Account, n: nat)
    requires WellFormed(world.manifest) && Structures(world) && n < |Plan(world.manifest)|
    requires AtPrefix(world, base, Reach(world, base, n), n)
    ensures AtPrefix(world, base, Reach(world, base, n + 1), n + 1)
  {
    hide AtPrefix, Apply, Advances, Plan, Structures, SpecResolves, DistinctKeys, DistinctNotes;
    PlanPositions(world.manifest, n);
    StepAlong(world, base, Reach(world, base, n).settings, Reach(world, base, n), n);
  }

  lemma {:induction false} ReachAtPrefix(world: World, base: Account, n: nat)
    requires WellFormed(world.manifest) && Structures(world) && Empty(world.manifest, base)
    requires n <= |Plan(world.manifest)|
    ensures AtPrefix(world, base, Reach(world, base, n), n)
  {
    hide AtPrefix, Apply, Plan, Empty, Structures, SpecResolves, DistinctKeys, DistinctNotes;
    if n == 0 {
      EmptyAtPrefix(world, base);
    } else {
      ReachAtPrefix(world, base, n - 1);
      ReachNext(world, base, n - 1);
    }
  }

  function Max(i: nat, j: nat): nat { if i < j then j else i }

  /** Where a run that started after `n0` writes stands after handling `k` of the plan. */
  ghost predicate InStep(world: World, base: Account, n0: nat, k: nat, run: Run)
    requires 0 < |world.manifest.notes| && k <= |Plan(world.manifest)| && n0 <= |Plan(world.manifest)|
  {
    var a := Reach(world, base, Max(n0, k));
    && run.failure.None?
    && run.account == a
    && run.ctx == Snapshot(world.manifest, a)
    && run.summary.replayed == 0
    && run.summary.attempted + |Reach(world, base, n0).log| == |a.log|
  }

  lemma StepSkips(world: World, seen: Settings, w: Write, run: Run)
    requires Planned(world.manifest, w) && run.failure.None?
    requires Satisfied(world.manifest, run.ctx, seen, w) == Ok(true)
    ensures Step(world, seen, w, run) == run.(summary := run.summary.(skipped := run.summary.skipped + 1))
  {
  }

  lemma AttemptOutcome(world: World, seen: Settings, w: Write, q: Request, run: Run, b: Account, answer: Answer,
                       more: Context)
    requires Planned(world.manifest, w) && run.failure.None?
    requires Serve(world.derive, run.account, q) == (b, answer) && !answer.Refused? && !answer.replayed
    requires CheckAnswer(world.manifest, run.ctx, seen, w, answer) == Ok(more)
    ensures Attempt(world, seen, w, q, run)
            == match NextFault(run.faults)
               case Delivered => Run(b, LaterFaults(run.faults), more,
                   run.summary.(attempted := run.summary.attempted + 1), None)
               case LostRequest => run.(faults := LaterFaults(run.faults), failure := Some("unexpected_failure"))
               case LostReply => run.(account := b, faults := LaterFaults(run.faults),
                   failure := Some("unexpected_failure"))
  {
  }

  lemma StepAttempts(world: World, seen: Settings, w: Write, q: Request, run: Run)
    requires Planned(world.manifest, w) && run.failure.None?
    requires Satisfied(world.manifest, run.ctx, seen, w) == Ok(false)
    requires RequestFor(world.manifest, run.ctx, seen, w) == Ok(q)
    ensures Step(world, seen, w, run) == Attempt(world, seen, w, q, run)
  {
  }

  lemma StepSends(world: World, seen: Settings, w: Write, run: Run, b: Account)
    requires 0 < |world.manifest.notes| && Planned(world.manifest, w)
    requires run.failure.None? && run.ctx == Snapshot(world.manifest, run.account)
    requires Advances(world, seen, run.account, w, b)
    ensures Step(world, seen, w, run)
            == match NextFault(run.faults)
               case Delivered => Run(b, LaterFaults(run.faults), Snapshot(world.manifest, b),
                                     run.summary.(attempted := run.summary.attempted + 1), None)
               case LostRequest => run.(faults := LaterFaults(run.faults), failure := Some("unexpected_failure"))
               case LostReply => run.(account := b, faults := LaterFaults(run.faults),
                   failure := Some("unexpected_failure"))
  {
    var q := RequestFor(world.manifest, run.ctx, seen, w).value;
    var answer := Serve(world.derive, run.account, q).1;
    StepAttempts(world, seen, w, q, run);
    AttemptOutcome(world, seen, w, q, run, b, answer, Snapshot(world.manifest, b));
  }

  lemma HandledAlready(world: World, base: Account, n0: nat, k: nat)
    requires WellFormed(world.manifest) && Structures(world) && Empty(world.manifest, base)
    requires k < n0 <= |Plan(world.manifest)|
    ensures Planned(world.manifest, Plan(world.manifest)[k])
    ensures var a := Reach(world, base, n0);
            Satisfied(world.manifest, Snapshot(world.manifest, a), a.settings, Plan(world.manifest)[k]) == Ok(true)
  {
    hide Satisfied, Reach;
    var m := world.manifest;
    PlanPositions(m, k);
    ReachAtPrefix(world, base, n0);
    DoneIsSkipped(m, Reach(world, base, n0).settings, Reach(world, base, n0), Plan(m)[k]);
  }

  /** The client's next step, when write `k` has not been done: it is skipped or it advances. */
  lemma HandledNow(world: World, base: Account, n0: nat, k: nat)
    requires WellFormed(world.manifest) && Structures(world) && Empty(world.manifest, base)
    requires n0 <= k < |Plan(world.manifest)|
    ensures Planned(world.manifest, Plan(world.manifest)[k])
    ensures var w, a, b := Plan(world.manifest)[k], Reach(world, base, k), Reach(world, base, k + 1);
            var seen := Reach(world, base, n0).settings;
            (b == a && Satisfied(world.manifest, Snapshot(world.manifest, a), seen, w) == Ok(true))
            || (Advances(world, seen, a, w, b) && |b.log| == |a.log| + 1)
  {
    hide Satisfied, Recognised, Advances, Apply, Snapshot;
    var m := world.manifest;
    var a := Reach(world, base, k);
    var seen := Reach(world, base, n0).settings;
    PlanPositions(m, k);
    ReachAtPrefix(world, base, k);
    if Plan(m)[k].SettingsWrite? {
      SeenSettings(world, base, n0, k);
    }
    StepAlong(world, base, seen, a, k);
    if Plan(m)[k].SettingsWrite? && SettingsMatch(m, base.settings) {
      DoneIsSkipped(m, seen, a, Plan(m)[k]);
    }
  }

  lemma HandleOne(world: World, base: Account, n0: nat, k: nat, run: Run) returns (n: nat)
    requires WellFormed(world.manifest) && Structures(world) && Empty(world.manifest, base)
    requires n0 <= |Plan(world.manifest)| && k < |Plan(world.manifest)|
    requires InStep(world, base, n0, k, run)
    ensures Planned(world.manifest, Plan(world.manifest)[k])
    ensures n0 <= n <= |Plan(world.manifest)|
    ensures var next := Step(world, Reach(world, base, n0).settings, Plan(world.manifest)[k], run);
            && next.account == Reach(world, base, n)
            && (next.failure.None? ==> InStep(world, base, n0, k + 1, next))
            && (AllDelivered(run.faults) ==> next.failure.None? && AllDelivered(next.faults))
  {
    hide Satisfied, Advances, Step, Empty, Structures;
    var seen := Reach(world, base, n0).settings;
    var w := Plan(world.manifest)[k];
    if k < n0 {
      HandledAlready(world, base, n0, k);
      StepSkips(world, seen, w, run);
      n := n0;
    } else {
      HandledNow(world, base, n0, k);
      var b := Reach(world, base, k + 1);
      if Advances(world, seen, run.account, w, b) && |b.log| == |run.account.log| + 1 {
        StepSends(world, seen, w, run, b);
        Sent(world, base, n0, k, run, b, Step(world, seen, w, run));
        n := if Step(world, seen, w, run).account == b then k + 1 else k;
      } else {
        StepSkips(world, seen, w, run);
        n := k + 1;
      }
    }
  }

  lemma Sent(world: World, base: Account, n0: nat, k: nat, run: Run, b: Account, next: Run)
    requires 0 < |world.manifest.notes| && n0 <= k < |Plan(world.manifest)| && InStep(world, base, n0, k, run)
    requires b == Reach(world, base, k + 1) && |b.log| == |run.account.log| + 1
    requires next == match NextFault(run.faults)
                     case Delivered => Run(b, LaterFaults(run.faults), Snapshot(world.manifest, b),
                                           run.summary.(attempted := run.summary.attempted + 1), None)
                     case LostRequest => run.(faults := LaterFaults(run.faults), failure := Some("unexpected_failure"))
                     case LostReply => run.(account := b, faults := LaterFaults(run.faults),
                         failure := Some("unexpected_failure"))
    ensures next.account == run.account || next.account == b
    ensures next.failure.None? ==> InStep(world, base, n0, k + 1, next)
    ensures AllDelivered(run.faults) ==> next.failure.None? && AllDelivered(next.faults)
  {
    if run.faults != [] {
      assert run.faults[0] in run.faults;
      assert forall f | f in run.faults[1..] :: f in run.faults;
    }
  }

  /** The settings read at the start are still the account's when the settings write comes up. */
  lemma SeenSettings(world: World, base: Account, n0: nat, k: nat)
    requires WellFormed(world.manifest) && Structures(world) && Empty(world.manifest, base)
    requires n0 <= |Plan(world.manifest)| && k < |Plan(world.manifest)| && Plan(world.manifest)[k].SettingsWrite?
    ensures Reach(world, base, n0).settings == Reach(world, base, Max(n0, k)).settings
  {
    PlanPositions(world.manifest, k);
    ReachAtPrefix(world, base, n0);
    ReachAtPrefix(world, base, Max(n0, k));
  }

  /** The run after the client has handled the first `k` planned writes. */
  function Handled(world: World, seen: Settings, k: nat, start: Run): Run
    requires 0 < |world.manifest.notes| && k <= |Plan(world.manifest)|
  {
    PlanPlanned(world.manifest);
    Steps(world, seen, Plan(world.manifest)[..k], start)
  }

  lemma HandledNext(world: World, seen: Settings, k: nat, start: Run)
    requires 0 < |world.manifest.notes| && k < |Plan(world.manifest)|
    ensures Planned(world.manifest, Plan(world.manifest)[k])
    ensures Handled(world, seen, k + 1, start) ==
        Step(world, seen, Plan(world.manifest)[k], Handled(world, seen, k, start))
    ensures Handled(world, seen, k, start).failure.Some? ==>
        Handled(world, seen, k + 1, start) == Handled(world, seen, k, start)
  {
    hide Plan, Attempt, Satisfied, RequestFor;
    PlanPlanned(world.manifest);
    assert Plan(world.manifest)[..k + 1][..k] == Plan(world.manifest)[..k];
  }

  lemma HandledNone(world: World, seen: Settings, start: Run)
    requires 0 < |world.manifest.notes|
    ensures Handled(world, seen, 0, start) == start
  {
  }

  /** A run from a prefix of the plan ends, crashed or not, at a prefix at least as long. */
  lemma {:induction false} HandleMany(world: World, base: Account, n0: nat, k: nat, start: Run) returns (n: nat)
    requires WellFormed(world.manifest) && Structures(world) && Empty(world.manifest, base)
    requires n0 <= |Plan(world.manifest)| && k <= |Plan(world.manifest)|
    requires InStep(world, base, n0, 0, start)
    ensures n0 <= n <= |Plan(world.manifest)|
    ensures var run := Handled(world, Reach(world, base, n0).settings, k, start);
            && run.account == Reach(world, base, n)
            && (run.failure.None? ==> InStep(world, base, n0, k, run))
            && (AllDelivered(start.faults) ==> run.failure.None? && AllDelivered(run.faults))
  {
    hide Step, Steps, Handled, Reach, Empty, Structures, SpecResolves, DistinctKeys;
    var seen := Reach(world, base, n0).settings;
    if k == 0 {
      HandledNone(world, seen, start);
      n := n0;
    } else {
      n := HandleMany(world, base, n0, k - 1, start);
      HandledNext(world, seen, k - 1, start);
      if Handled(world, seen, k - 1, start).failure.None? {
        n := HandleOne(world, base, n0, k - 1, Handled(world, seen, k - 1, start));
      }
    }
  }

  /** A whole run from a prefix of the plan. */
  lemma RunFromPrefix(world: World, base: Account, n0: nat, faults: seq<Fault>) returns (n: nat)
    requires WellFormed(world.manifest) && Structures(world) && Empty(world.manifest, base)
    requires n0 <= |Plan(world.manifest)|
    ensures n0 <= n <= |Plan(world.manifest)|
    ensures var run := SeedPortfolio(world, Reach(world, base, n0), faults);
            && run.account == Reach(world, base, n)
            && (run.failure.None? ==> InStep(world, base, n0, |Plan(world.manifest)|, run))
            && (AllDelivered(faults) ==> run.failure.None?)
  {
    var m := world.manifest;
    var a := Reach(world, base, n0);
    ReachAtPrefix(world, base, n0);
    PreflightMeaning(m, a);
    var start := Run(a, faults, Snapshot(m, a), Summary(0, 0, 0), None);
    n := HandleMany(world, base, n0, |Plan(m)|, start);
    assert Plan(m)[..|Plan(m)|] == Plan(m);
  }

  // ----- completeness -----

  lemma NamesSplit(pairs: seq<Pair>)
    requires DistinctPairs(pairs) && pairs != []
    ensures var n := |pairs| - 1;
            DistinctPairs(pairs[..n])
                && Names(pairs) == Names(pairs[..n]) + {pairs[n].name} && pairs[n].name !in Names(pairs[..n])
  {
    var n := |pairs| - 1;
    forall x | x in Names(pairs) ensures x in Names(pairs[..n]) + {pairs[n].name} {
      var i :| 0 <= i < |pairs| && pairs[i].name == x;
      if i < n {
        NameAllowed(pairs[..n], i);
      }
    }
    forall x | x in Names(pairs[..n]) ensures x in Names(pairs) && x != pairs[n].name {
      var i :| 0 <= i < n && pairs[..n][i].name == x;
      NameAllowed(pairs, i);
    }
    NameAllowed(pairs, n);
  }

  lemma {:induction false} NamesCounted(pairs: seq<Pair>)
    requires DistinctPairs(pairs)
    ensures |Names(pairs)| == |pairs|
  {
    if pairs != [] {
      NamesSplit(pairs);
      NamesCounted(pairs[..|pairs| - 1]);
    }
  }

  lemma CountMeans<T(!new)>(items: seq<T>, name: T -> string, pairs: seq<Pair>)
    requires DistinctPairs(pairs) && Named(items, name, Names(pairs))
    ensures |NameMap(items, name)| == |pairs| <==> forall i | 0 <= i < |pairs| :: pairs[i].name in NameMap(items, name)
  {
    NamesCounted(pairs);
    NameMapFinds(items, name);
    var found := NameMap(items, name).Keys;
    assert found <= Names(pairs) by {
      forall k | k in found ensures k in Names(pairs) {
        var i :| 0 <= i < |items| && name(items[i]) == k;
      }
    }
    assert |found| == |NameMap(items, name)|;
    if forall i | 0 <= i < |pairs| :: pairs[i].name in NameMap(items, name) {
      assert Names(pairs) <= found;
      assert found == Names(pairs);
    } else {
      var i :| 0 <= i < |pairs| && pairs[i].name !in NameMap(items, name);
      NameAllowed(pairs, i);
      SubsetSmaller(found, Names(pairs), pairs[i].name);
    }
  }

  lemma SubsetSmaller(s: set<string>, t: set<string>, x: string)
    requires s <= t && x in t && x !in s
    ensures |s| < |t|
  {
    var rest := t - (s + {x});
    assert t == (s + {x}) + rest;
  }

  lemma SizesMean(m: Manifest, a: Account)
    requires WellFormed(m) && OnlyFixtures(m, a)
    ensures |SpacesOf(a)| == |m.spaces| <==> forall i | 0 <= i < |m.spaces| :: m.spaces[i].name in SpacesOf(a)
    ensures |TagsOf(a)| == |m.tags| <==> forall i | 0 <= i < |m.tags| :: m.tags[i].name in TagsOf(a)
    ensures |NotesOf(a)| == |m.notes| <==> forall i | 0 <= i < |m.notes| :: m.notes[i].title in NotesOf(a)
  {
    PairsDistinct(m);
    CountMeans(a.spaces, SpaceName, SpacePairs(m));
    CountMeans(a.tags, TagName, TagPairs(m));
    CountMeans(a.notes, NoteTitle, NotePairs(m));
    forall i | 0 <= i < |m.spaces| ensures SpacePairs(m)[i].name == m.spaces[i].name {}
    forall i | 0 <= i < |m.tags| ensures TagPairs(m)[i].name == m.tags[i].name {}
    forall i | 0 <= i < |m.notes| ensures NotePairs(m)[i].name == m.notes[i].title {}
  }

  ghost predicate AllDone(m: Manifest, a: Account) {
    forall w | Planned(m, w) :: Done(m, a, w)
  }

  lemma AllDoneMeans(m: Manifest, a: Account)
    requires 0 < |m.notes| && IsMarker(m.notes[0])
    ensures AllDone(m, a) <==>
            && SettingsMatch(m, a.settings)
            && (forall i | 0 <= i < |m.spaces| :: m.spaces[i].name in SpacesOf(a))
            && (forall i | 0 <= i < |m.tags| :: m.tags[i].name in TagsOf(a))
            && (forall i | 0 <= i < |m.notes| :: m.notes[i].title in NotesOf(a))
            && (forall i | 0 <= i < |m.notes| && m.notes[i].updateBody.Some? && m.notes[i].title in NotesOf(a) ::
                  NotesOf(a)[m.notes[i].title].revision == 2)
  {
    if AllDone(m, a) {
      assert Done(m, a, SettingsWrite);
      forall i | 0 <= i < |m.spaces| ensures m.spaces[i].name in SpacesOf(a) { assert Done(m, a, SpaceWrite(i)); }
      forall i | 0 <= i < |m.tags| ensures m.tags[i].name in TagsOf(a) { assert Done(m, a, TagWrite(i)); }
      forall i | 0 <= i < |m.notes| ensures m.notes[i].title in NotesOf(a) { assert Done(m, a, NoteWrite(i)); }
      forall i | 0 <= i < |m.notes| && m.notes[i].updateBody.Some? ensures NotesOf(a)[m.notes[i].title].revision == 2 {
        assert i != 0 && Done(m, a, UpdateWrite(i));
      }
    }
  }

  lemma FinishedOnly(m: Manifest, a: Account)
    requires 0 < |m.notes|
    ensures NotesFit(m, a, Snapshot(m, a), false) <==>
            && NotesFit(m, a, Snapshot(m, a), true)
            && (forall i | 0 <= i < |m.notes| && m.notes[i].updateBody.Some? && m.notes[i].title in NotesOf(a) ::
                  NotesOf(a)[m.notes[i].title].revision == 2)
  {
  }

  /** The final census accepts exactly the accounts in which every planned write is done and
      nothing unknown is present. */
  lemma CompleteMeaning(m: Manifest, a: Account)
    requires WellFormed(m) && Consistent(a)
    ensures VerifyComplete(m, a).Ok? <==> Recognised(m, a) && AllDone(m, a)
  {
    ExpectedMapsMeaning(m, a);
    InspectMeaning(m, a, false);
    if OnlyFixtures(m, a) {
      SizesMean(m, a);
      AllDoneMeans(m, a);
      FinishedOnly(m, a);
    }
  }

  lemma PlanFitsPositions(m: Manifest)
    requires 0 < |m.notes|
    ensures forall w | Planned(m, w) :: Pos(m, w) < |Plan(m)|
  {
    forall w | Planned(m, w) ensures Pos(m, w) < |Plan(m)| { PlanHas(m, w); }
  }

  /** An undisturbed run from any prefix of the plan completes the portfolio. */
  lemma UndisturbedRunCompletes(world: World, base: Account, n0: nat, faults: seq<Fault>)
    requires WellFormed(world.manifest) && Structures(world) && Empty(world.manifest, base)
    requires n0 <= |Plan(world.manifest)| && AllDelivered(faults)
    ensures var run := ExecutePortfolio(world, Reach(world, base, n0), faults);
            && run.failure.None?
            && run.account == Reach(world, base, |Plan(world.manifest)|)
            && VerifyComplete(world.manifest, run.account).Ok?
            && run.summary.replayed == 0
            && run.summary.attempted == |run.account.log| - |Reach(world, base, n0).log|
  {
    var m := world.manifest;
    var n := RunFromPrefix(world, base, n0, faults);
    ReachAtPrefix(world, base, |Plan(m)|);
    PlanFitsPositions(m);
    CompleteMeaning(m, Reach(world, base, |Plan(m)|));
  }

  /** The account after a series of runs, each under its own schedule of network faults. */
  function AfterRuns(world: World, a: Account, schedules: seq<seq<Fault>>): Account
    requires 0 < |world.manifest.notes|
  {
    if schedules == [] then a
    else ExecutePortfolio(world, AfterRuns(world, a, schedules[..|schedules| - 1]), schedules[|schedules| - 1]).account
  }

  lemma {:induction false} RunsStopAtPrefix(world: World, base: Account, schedules: seq<seq<Fault>>) returns (n: nat)
    requires WellFormed(world.manifest) && Structures(world) && Empty(world.manifest, base)
    ensures n <= |Plan(world.manifest)| && AfterRuns(world, base, schedules) == Reach(world, base, n)
  {
    if schedules == [] {
      n := 0;
    } else {
      var before := RunsStopAtPrefix(world, base, schedules[..|schedules| - 1]);
      n := RunFromPrefix(world, base, before, schedules[|schedules| - 1]);
    }
  }

  /** Crash and resume: whatever the network did to any number of earlier runs, the account holds a
      prefix of the plan, passes preflight, and each planned write took effect at most once; one
      undisturbed run then completes the portfolio, replaying nothing. */
  lemma CrashResume(world: World, base: Account, schedules: seq<seq<Fault>>, faults: seq<Fault>)
    requires WellFormed(world.manifest) && Structures(world) && Empty(world.manifest, base)
    requires AllDelivered(faults)
    ensures var m := world.manifest;
            var a := AfterRuns(world, base, schedules);
            var last := ExecutePortfolio(world, a, faults);
            && (exists n | 0 <= n <= |Plan(m)| :: a == Reach(world, base, n) && a.log == base.log + Effects(m, base, n))
            && Preflight(m, a).Ok?
            && last.failure.None?
            && VerifyComplete(m, last.account).Ok?
            && last.summary.replayed == 0
            && last.account.log == base.log + Effects(m, base, |Plan(m)|)
            && (forall i, j | 0 <= i < j < |last.account.log| :: last.account.log[i] != last.account.log[j])
  {
    var n := RunsStopAtPrefix(world, base, schedules);
    ReachAtPrefix(world, base, n);
    ReachAtPrefix(world, base, |Plan(world.manifest)|);
    PreflightMeaning(world.manifest, Reach(world, base, n));
    UndisturbedRunCompletes(world, base, n, faults);
  }

  /** Writes already in place are counted as skipped and nothing else happens. */
  lemma {:induction false} PrefixSkipped(world: World, base: Account, n0: nat, k: nat, start: Run)
    requires WellFormed(world.manifest) && Structures(world) && Empty(world.manifest, base)
    requires k <= n0 <= |Plan(world.manifest)|
    requires start.failure.None? && start.ctx == Snapshot(world.manifest, Reach(world, base, n0))
    ensures Handled(world, Reach(world, base, n0).settings, k, start)
            == start.(summary := start.summary.(skipped := start.summary.skipped + k))
  {
    hide Step, Steps, Handled, Reach, Empty, Structures, SpecResolves, DistinctKeys, Satisfied;
    var seen := Reach(world, base, n0).settings;
    if k == 0 {
      HandledNone(world, seen, start);
    } else {
      PrefixSkipped(world, base, n0, k - 1, start);
      HandledNext(world, seen, k - 1, start);
      HandledAlready(world, base, n0, k - 1);
      StepSkips(world, seen, Plan(world.manifest)[k - 1], Handled(world, seen, k - 1, start));
    }
  }

  /** Running again after completion succeeds whatever the network does: it sends nothing, changes
      nothing, and skips every planned write. */
  lemma RerunIsIdle(world: World, base: Account, faults: seq<Fault>)
    requires WellFormed(world.manifest) && Structures(world) && Empty(world.manifest, base)
    ensures var m := world.manifest;
            var done := Reach(world, base, |Plan(m)|);
            ExecutePortfolio(world, done, faults)
            == Run(done, faults, Snapshot(m, done), Summary(0, 0, PlannedWrites(m)), None)
  {
    hide Step, Steps, VerifyComplete, Reach, Preflight, Snapshot;
    var m := world.manifest;
    var done := Reach(world, base, |Plan(m)|);
    ReachAtPrefix(world, base, |Plan(m)|);
    PreflightMeaning(m, done);
    PrefixSkipped(world, base, |Plan(m)|, |Plan(m)|, Run(done, faults, Snapshot(m, done), Summary(0, 0, 0), None));
    assert Plan(m)[..|Plan(m)|] == Plan(m);
    PlanLength(m);
    UndisturbedRunCompletes(world, base, |Plan(m)|, []);
  }
}
