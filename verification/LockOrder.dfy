/**
  The locking discipline of the encrypted-content commands: any number of transactions, each taking
  exclusive locks one at a time, blocking in arrival order or, where it only tries, giving up.
 */
module LockOrder {

  /** Tables whose rows are locked, in the order commands lock them. */
  datatype Table = Jobs | Captures | Notes | Mutations | ReviewItems

  datatype Lock =
    | WriteAdvisory(owner: nat)
    | RolloutAdvisory(owner: nat)
    | Row(table: Table, id: nat)

  function TableRank(t: Table): nat {
    match t
    case Jobs => 0
    case Captures => 1
    case Notes => 2
    case Mutations => 3
    case ReviewItems => 4
  }

  function Class(l: Lock): nat {
    match l
    case WriteAdvisory(_) => 0
    case RolloutAdvisory(_) => 1
    case Row(t, _) => 2 + TableRank(t)
  }

  function Number(l: Lock): nat {
    if l.Row? then l.id else l.owner
  }

  /** The one order all commands follow: write advisory, rollout advisory, then rows by table and id. */
  predicate Before(a: Lock, b: Lock) {
    Class(a) < Class(b) || (Class(a) == Class(b) && Number(a) < Number(b))
  }

  // ----- programs -----

  /** `Take` waits for the lock; `Try` aborts the transaction when the lock is not free at once. */
  datatype Instr = Take(lock: Lock) | Try(lock: Lock)

  type Program = seq<Instr>

  function LocksOf(p: Program): set<Lock> {
    set k | 0 <= k < |p| :: p[k].lock
  }

  predicate Ascending(p: Program) {
    forall j, k | 0 <= j < k < |p| :: Before(p[j].lock, p[k].lock)
  }

  /** A command that takes its owner's advisories first and then its rows in order. */
  ghost predicate AdvisoryFirst(p: Program) {
    && Ascending(p)
    && (forall k | 0 <= k < |p| :: p[k].Take?)
    && (exists owner: nat :: AdvisoriesOf(p, owner))
  }

  predicate AdvisoriesOf(p: Program, owner: nat) {
    && (exists k :: 0 <= k < |p| && p[k].lock == RolloutAdvisory(owner))
    && forall k | 0 <= k < |p| && !p[k].lock.Row? :: p[k].lock.owner == owner
  }

  /** A writer that already holds its row when the trigger asks for the rollout advisory. */
  predicate RowFirst(p: Program) {
    |p| == 2 && p[0].Take? && p[0].lock.Row? && p[1].Try? && p[1].lock.RolloutAdvisory?
  }

  ghost predicate Disciplined(p: Program) {
    AdvisoryFirst(p) || RowFirst(p)
  }

  /** Whatever it waits for comes after everything it holds by then. */
  predicate WaitsUpward(p: Program) {
    forall j, k | 0 <= j < k < |p| && p[k].Take? :: Before(p[j].lock, p[k].lock)
  }

  lemma DisciplineWaitsUpward(p: Program)
    requires Disciplined(p)
    ensures WaitsUpward(p)
  {
  }

  /** The order is total: two different locks come one before the other, and never both ways. */
  lemma OneOrder(a: Lock, b: Lock, c: Lock)
    ensures Before(a, b) || Before(b, a) || a == b
    ensures Before(a, b) ==> !Before(b, a) && a != b
    ensures Before(a, b) && Before(b, c) ==> Before(a, c)
  {
  }

  function RowsOf(t: Table, ids: seq<nat>): Program {
    seq(|ids|, k requires 0 <= k < |ids| => Take(Row(t, ids[k])))
  }

  predicate Increasing(ids: seq<nat>) {
    forall j, k | 0 <= j < k < |ids| :: ids[j] < ids[k]
  }

  /** A command of the owner whose locks so far come before those of the table. */
  predicate Reaches(p: Program, owner: nat, t: Table) {
    && Ascending(p) && AdvisoriesOf(p, owner)
    && forall k | 0 <= k < |p| :: p[k].Take? && Class(p[k].lock) < Class(Row(t, 0))
  }

  lemma RowsFollow(p: Program, owner: nat, t: Table, ids: seq<nat>, next: Table)
    requires Reaches(p, owner, t) && Increasing(ids) && Class(Row(t, 0)) < Class(Row(next, 0))
    ensures Reaches(p + RowsOf(t, ids), owner, next)
  {
    FollowingAscends(p, owner, t, ids);
    var q := p + RowsOf(t, ids);
    var k :| 0 <= k < |p| && p[k].lock == RolloutAdvisory(owner);
    assert q[k].lock == RolloutAdvisory(owner);
  }

  lemma FollowingAscends(p: Program, owner: nat, t: Table, ids: seq<nat>)
    requires Reaches(p, owner, t) && Increasing(ids)
    ensures Ascending(p + RowsOf(t, ids))
  {
    var q := p + RowsOf(t, ids);
    forall j, k | 0 <= j < k < |q| ensures Before(q[j].lock, q[k].lock) {
      assert |p| <= j ==> ids[j - |p|] < ids[k - |p|];
    }
  }

  /** The commands follow the discipline: the owner's advisories, then jobs, captures, notes, mutations and
      review items, each in the order of their ids. */
  lemma CommandIsAdvisoryFirst(owner: nat, jobs: seq<nat>, captures: seq<nat>, notes: seq<nat>, mutations: seq<nat>,
                               reviews: seq<nat>)
    requires Increasing(jobs) && Increasing(captures) && Increasing(notes)
    requires Increasing(mutations) && Increasing(reviews)
    ensures AdvisoryFirst([Take(WriteAdvisory(owner)), Take(RolloutAdvisory(owner))] + RowsOf(Jobs, jobs)
                          + RowsOf(Captures, captures) + RowsOf(Notes, notes) + RowsOf(Mutations, mutations)
                          + RowsOf(ReviewItems, reviews))
  {
    hide RowsOf, Increasing, Ascending, AdvisoriesOf;
    var advisories := [Take(WriteAdvisory(owner)), Take(RolloutAdvisory(owner))];
    AdvisoriesReach(owner);
    var p1 := advisories + RowsOf(Jobs, jobs);
    RowsFollow(advisories, owner, Jobs, jobs, Captures);
    var p2 := p1 + RowsOf(Captures, captures);
    RowsFollow(p1, owner, Captures, captures, Notes);
    var p3 := p2 + RowsOf(Notes, notes);
    RowsFollow(p2, owner, Notes, notes, Mutations);
    var p4 := p3 + RowsOf(Mutations, mutations);
    RowsFollow(p3, owner, Mutations, mutations, ReviewItems);
    LastRowsFollow(p4, owner, reviews);
  }

  lemma AdvisoriesReach(owner: nat)
    ensures Reaches([Take(WriteAdvisory(owner)), Take(RolloutAdvisory(owner))], owner, Jobs)
  {
    assert [Take(WriteAdvisory(owner)), Take(RolloutAdvisory(owner))][1].lock == RolloutAdvisory(owner);
  }

  lemma LastRowsFollow(p: Program, owner: nat, ids: seq<nat>)
    requires Reaches(p, owner, ReviewItems) && Increasing(ids)
    ensures AdvisoryFirst(p + RowsOf(ReviewItems, ids))
  {
    FollowingAscends(p, owner, ReviewItems, ids);
    var q := p + RowsOf(ReviewItems, ids);
    var k :| 0 <= k < |p| && p[k].lock == RolloutAdvisory(owner);
    assert q[k].lock == RolloutAdvisory(owner);
    assert AdvisoriesOf(q, owner);
  }

  // ----- states and steps -----

  datatype Status = Running | Waiting | Committed | Aborted

  datatype Session = Session(program: Program, pc: nat, held: set<Lock>, status: Status) {
    predicate Finished() {
      status == Committed || status == Aborted
    }

    predicate Asks() {
      !Finished() && pc < |program|
    }

    function Wanted(): Lock
      requires pc < |program|
    {
      program[pc].lock
    }

    function Acquired(): Session
      requires pc < |program|
    {
      this.(pc := pc + 1, held := held + {program[pc].lock}, status := Running)
    }

    function Ended(how: Status): Session {
      this.(held := {}, status := how)
    }
  }

  /** `queue` lists the waiting sessions in the order they began to wait. */
  datatype State = State(sessions: seq<Session>, queue: seq<nat>)

  /** `Proceed` runs the session's next instruction or commits; `Grant` wakes a waiter; `Cancel` is a
      timeout, a failed statement or a rollback. */
  datatype Event = Proceed(i: nat) | Grant(i: nat) | Cancel(i: nat)

  predicate Holds(s: State, i: nat, l: Lock) {
    i < |s.sessions| && l in s.sessions[i].held
  }

  predicate WaitsOn(s: State, i: nat, l: Lock) {
    i < |s.sessions| && s.sessions[i].status == Waiting && s.sessions[i].Asks() && s.sessions[i].Wanted() == l
  }

  predicate Unheld(s: State, l: Lock) {
    forall j | 0 <= j < |s.sessions| :: !Holds(s, j, l)
  }

  predicate Unwanted(s: State, l: Lock) {
    forall j | 0 <= j < |s.sessions| :: !WaitsOn(s, j, l)
  }

  function Place(q: seq<nat>, i: nat): (p: nat)
    ensures p <= |q|
    ensures i in q ==> p < |q| && q[p] == i
  {
    if q == [] then 0 else if q[0] == i then 0 else 1 + Place(q[1..], i)
  }

  predicate First(s: State, i: nat, l: Lock) {
    forall j | 0 <= j < |s.sessions| && j != i && WaitsOn(s, j, l) :: Place(s.queue, i) < Place(s.queue, j)
  }

  function Without(q: seq<nat>, i: nat): seq<nat> {
    if q == [] then [] else (if q[0] == i then [] else [q[0]]) + Without(q[1..], i)
  }

  predicate Enabled(s: State, e: Event) {
    e.i < |s.sessions| &&
    var session := s.sessions[e.i];
    match e
    case Proceed(_) => session.status == Running
    case Grant(_) =>
      session.status == Waiting && session.Asks() && Unheld(s, session.Wanted()) && First(s, e.i, session.Wanted())
    case Cancel(_) => !session.Finished()
  }

  function Next(s: State, e: Event): State
    requires Enabled(s, e)
  {
    var i := e.i;
    var session := s.sessions[i];
    match e
    case Proceed(_) =>
      if session.pc >= |session.program| then s.(sessions := s.sessions[i := session.Ended(Committed)])
      else
        var l := session.Wanted();
        if Unheld(s, l) && Unwanted(s, l) then s.(sessions := s.sessions[i := session.Acquired()])
        else if session.program[session.pc].Try? then s.(sessions := s.sessions[i := session.Ended(Aborted)])
        else State(s.sessions[i := session.(status := Waiting)], s.queue + [i])
    case Grant(_) => State(s.sessions[i := session.Acquired()], Without(s.queue, i))
    case Cancel(_) => State(s.sessions[i := session.Ended(Aborted)], Without(s.queue, i))
  }

  function Start(programs: seq<Program>): State {
    State(seq(|programs|, i requires 0 <= i < |programs| => Session(programs[i], 0, {}, Running)), [])
  }

  predicate CanRun(s: State, events: seq<Event>)
    decreases |events|
  {
    events == [] || (Enabled(s, events[0]) && CanRun(Next(s, events[0]), events[1..]))
  }

  function After(s: State, events: seq<Event>): State
    requires CanRun(s, events)
    decreases |events|
  {
    if events == [] then s else After(Next(s, events[0]), events[1..])
  }

  // ----- what every state keeps -----

  predicate SessionOk(x: Session) {
    && x.pc <= |x.program|
    && WaitsUpward(x.program)
    && (if x.Finished() then x.held == {} else x.held == LocksOf(x.program[..x.pc]))
    && (x.status == Waiting ==> x.pc < |x.program| && x.program[x.pc].Take?)
  }

  predicate Distinct(q: seq<nat>) {
    forall a, b | 0 <= a < b < |q| :: q[a] != q[b]
  }

  ghost predicate Inv(s: State) {
    && (forall i | 0 <= i < |s.sessions| :: SessionOk(s.sessions[i]))
    && (forall i, j, l | 0 <= i < j < |s.sessions| && Holds(s, i, l) :: !Holds(s, j, l))
    && Distinct(s.queue)
    && (forall i: nat :: i in s.queue <==> i < |s.sessions| && s.sessions[i].status == Waiting)
  }

  lemma StartInv(programs: seq<Program>)
    requires forall i | 0 <= i < |programs| :: Disciplined(programs[i])
    ensures Inv(Start(programs))
  {
    forall i | 0 <= i < |programs| ensures SessionOk(Start(programs).sessions[i]) {
      DisciplineWaitsUpward(programs[i]);
      assert programs[i][..0] == [];
    }
  }

  lemma {:induction false} WithoutMeaning(q: seq<nat>, i: nat)
    ensures forall j :: j in Without(q, i) <==> j in q && j != i
    ensures Distinct(q) ==> Distinct(Without(q, i))
    ensures |Without(q, i)| <= |q|
  {
    if q != [] {
      WithoutMeaning(q[1..], i);
      assert q == [q[0]] + q[1..];
      if Distinct(q) {
        assert Distinct(q[1..]) by {
          forall a, b | 0 <= a < b < |q[1..]| ensures q[1..][a] != q[1..][b] {
            assert q[1..][a] == q[a + 1] && q[1..][b] == q[b + 1];
          }
        }
        assert q[0] !in q[1..];
      }
    }
  }

  lemma AcquiredOk(x: Session)
    requires SessionOk(x) && x.Asks()
    ensures SessionOk(x.Acquired())
  {
    var p, n := x.program, x.pc;
    var l := p[n].lock;
    assert p[..n + 1][n].lock == l;
    forall k | 0 <= k < n ensures p[..n + 1][k] == p[..n][k] {}
    assert LocksOf(p[..n + 1]) == LocksOf(p[..n]) + {l} by {
      forall x | x in LocksOf(p[..n]) ensures x in LocksOf(p[..n + 1]) {
        var k :| 0 <= k < n && p[..n][k].lock == x;
        assert p[..n + 1][k].lock == x;
      }
      forall x | x in LocksOf(p[..n + 1]) ensures x in LocksOf(p[..n]) + {l} {
        var k :| 0 <= k < n + 1 && p[..n + 1][k].lock == x;
        assert k < n ==> p[..n][k].lock == x;
      }
    }
  }

  /** Replacing one session by one that holds no more than before, plus locks nobody holds, keeps
      every lock with one holder. */
  lemma ReplaceKeeps(s: State, i: nat, x: Session, q: seq<nat>)
    requires Inv(s) && i < |s.sessions| && SessionOk(x)
    requires forall l | l in x.held :: l in s.sessions[i].held || Unheld(s, l)
    requires Distinct(q)
    requires forall j: nat :: j in q <==> if j == i then x.status == Waiting else j in s.queue
    ensures Inv(State(s.sessions[i := x], q))
  {
    var t := State(s.sessions[i := x], q);
    forall j, l | 0 <= j < |s.sessions| && j != i && l in x.held ensures !Holds(s, j, l) {
      assert l in s.sessions[i].held ==> Holds(s, i, l);
    }
    assert forall j, l | 0 <= j < |s.sessions| && j != i :: Holds(t, j, l) <==> Holds(s, j, l);
    assert forall l :: Holds(t, i, l) <==> l in x.held;
  }

  lemma StepKeepsInv(s: State, e: Event)
    requires Inv(s) && Enabled(s, e)
    ensures Inv(Next(s, e))
  {
    var i := e.i;
    var x := s.sessions[i];
    WithoutMeaning(s.queue, i);
    match e {
      case Proceed(_) =>
        if x.pc >= |x.program| {
          ReplaceKeeps(s, i, x.Ended(Committed), s.queue);
        } else if Unheld(s, x.Wanted()) && Unwanted(s, x.Wanted()) {
          AcquiredOk(x);
          ReplaceKeeps(s, i, x.Acquired(), s.queue);
        } else if x.program[x.pc].Try? {
          ReplaceKeeps(s, i, x.Ended(Aborted), s.queue);
        } else {
          assert i !in s.queue;
          ReplaceKeeps(s, i, x.(status := Waiting), s.queue + [i]);
        }
      case Grant(_) =>
        AcquiredOk(x);
        ReplaceKeeps(s, i, x.Acquired(), Without(s.queue, i));
      case Cancel(_) =>
        ReplaceKeeps(s, i, x.Ended(Aborted), Without(s.queue, i));
    }
  }

  lemma {:induction false} RunKeepsInv(s: State, events: seq<Event>)
    requires Inv(s) && CanRun(s, events)
    ensures Inv(After(s, events)) && |After(s, events).sessions| == |s.sessions|
    decreases |events|
  {
    if events != [] {
      StepKeepsInv(s, events[0]);
      RunKeepsInv(Next(s, events[0]), events[1..]);
    }
  }

  // ----- no deadlock -----

  /** Session `i` cannot move before `j` does: `j` holds the lock it wants or stands before it. */
  predicate WaitsFor(s: State, i: nat, j: nat) {
    i != j && j < |s.sessions| && i < |s.sessions|
    && s.sessions[i].status == Waiting && s.sessions[i].Asks()
    && var l := s.sessions[i].Wanted();
    (Holds(s, j, l) || (WaitsOn(s, j, l) && Place(s.queue, j) < Place(s.queue, i)))
  }

  /** A cycle of sessions each waiting for the next. */
  predicate Cycle(s: State, path: seq<nat>) {
    |path| >= 2 && path[0] == path[|path| - 1]
    && forall k | 0 <= k < |path| - 1 :: WaitsFor(s, path[k], path[k + 1])
  }

  predicate Stuck(s: State, i: nat) {
    i < |s.sessions| && s.sessions[i].status == Waiting && s.sessions[i].Asks()
  }

  /** Waiting higher in the lock order, or for the same lock and closer to it. */
  predicate Above(s: State, i: nat, j: nat) {
    Stuck(s, i) && Stuck(s, j) &&
    (Before(s.sessions[i].Wanted(), s.sessions[j].Wanted())
     || (s.sessions[i].Wanted() == s.sessions[j].Wanted() && Place(s.queue, j) < Place(s.queue, i)))
  }

  /** Waiting for a session that is itself waiting leads upward. */
  lemma WaitsForAbove(s: State, i: nat, j: nat)
    requires Inv(s) && WaitsFor(s, i, j) && Stuck(s, j)
    ensures Above(s, i, j)
  {
    var l := s.sessions[i].Wanted();
    var y := s.sessions[j];
    assert SessionOk(y);
    if Holds(s, j, l) {
      var k :| 0 <= k < y.pc && y.program[..y.pc][k].lock == l;
      assert Before(y.program[k].lock, y.program[y.pc].lock);
    }
  }

  lemma AboveTransitive(s: State, i: nat, j: nat, k: nat)
    requires Above(s, i, j) && Above(s, j, k)
    ensures Above(s, i, k)
  {
  }

  lemma {:induction false} PathClimbs(s: State, path: seq<nat>, k: nat)
    requires Inv(s) && 1 <= k < |path|
    requires forall m | 0 <= m < |path| - 1 :: WaitsFor(s, path[m], path[m + 1])
    requires Stuck(s, path[|path| - 1])
    ensures Above(s, path[0], path[k])
  {
    assert WaitsFor(s, path[k - 1], path[k]);
    assert k < |path| - 1 ==> WaitsFor(s, path[k], path[k + 1]);
    WaitsForAbove(s, path[k - 1], path[k]);
    if k > 1 {
      PathClimbs(s, path, k - 1);
    }
  }

  /** No state keeping the invariant contains a deadlock. */
  lemma NoCycle(s: State, path: seq<nat>)
    requires Inv(s)
    ensures !Cycle(s, path)
  {
    if Cycle(s, path) {
      assert WaitsFor(s, path[0], path[1]);
      PathClimbs(s, path, |path| - 1);
    }
  }

  /** Deadlock freedom: whatever disciplined sessions do, in any order and with any timeouts. */
  lemma DeadlockFree(programs: seq<Program>, events: seq<Event>, path: seq<nat>)
    requires forall i | 0 <= i < |programs| :: Disciplined(programs[i])
    requires CanRun(Start(programs), events)
    ensures !Cycle(After(Start(programs), events), path)
  {
    StartInv(programs);
    RunKeepsInv(Start(programs), events);
    NoCycle(After(Start(programs), events), path);
  }

  lemma {:induction false} ProgramsStay(s: State, events: seq<Event>)
    requires CanRun(s, events)
    ensures |After(s, events).sessions| == |s.sessions|
    ensures forall i | 0 <= i < |s.sessions| :: After(s, events).sessions[i].program == s.sessions[i].program
    decreases |events|
  {
    if events != [] {
      ProgramsStay(Next(s, events[0]), events[1..]);
    }
  }

  /** A row-first writer never waits with a lock in hand. */
  lemma RowFirstWaitsEmptyHanded(s: State, i: nat)
    requires Inv(s) && i < |s.sessions| && RowFirst(s.sessions[i].program) && s.sessions[i].status == Waiting
    ensures s.sessions[i].held == {}
  {
    assert SessionOk(s.sessions[i]);
  }

  /** In every reachable state a row-first writer that holds a lock can go on, and has given its locks
      back after at most two steps of its own. */
  lemma RowFirstHoldsBriefly(programs: seq<Program>, events: seq<Event>, i: nat)
    requires forall k | 0 <= k < |programs| :: Disciplined(programs[k])
    requires CanRun(Start(programs), events) && i < |programs| && RowFirst(programs[i])
    requires exists l :: Holds(After(Start(programs), events), i, l)
    ensures var s := After(Start(programs), events);
            && Enabled(s, Proceed(i))
            && (var t := Next(s, Proceed(i));
                || t.sessions[i].Finished()
                || (Enabled(t, Proceed(i)) && Next(t, Proceed(i)).sessions[i].Finished()))
  {
    var s := After(Start(programs), events);
    StartInv(programs);
    RunKeepsInv(Start(programs), events);
    ProgramsStay(Start(programs), events);
    assert SessionOk(s.sessions[i]);
    if s.sessions[i].status == Waiting {
      RowFirstWaitsEmptyHanded(s, i);
    }
  }

  // ----- every session finishes -----

  predicate AllFinished(s: State) {
    forall i | 0 <= i < |s.sessions| :: s.sessions[i].Finished()
  }

  function Higher(s: State, i: nat): set<nat> {
    set k | 0 <= k < |s.sessions| && Above(s, i, k)
  }

  lemma HigherShrinks(s: State, i: nat, j: nat)
    requires Above(s, i, j)
    ensures Higher(s, j) < Higher(s, i)
  {
    forall k | k in Higher(s, j) ensures k in Higher(s, i) {
      AboveTransitive(s, i, j, k);
    }
    assert j in Higher(s, i) && j !in Higher(s, j);
  }

  lemma WantsAnother(s: State, i: nat)
    requires Inv(s) && Stuck(s, i)
    ensures s.sessions[i].Wanted() !in s.sessions[i].held
  {
    var x := s.sessions[i];
    assert SessionOk(x);
    forall k | 0 <= k < x.pc ensures x.program[..x.pc][k].lock != x.Wanted() {
      assert Before(x.program[k].lock, x.program[x.pc].lock);
    }
  }

  /** From a waiting session, climb to one that can be granted or to one that is running. */
  lemma SomeoneMoves(s: State, i: nat) returns (e: Event)
    requires Inv(s) && Stuck(s, i)
    ensures Enabled(s, e) && !e.Cancel?
    decreases Higher(s, i)
  {
    var l := s.sessions[i].Wanted();
    if Enabled(s, Grant(i)) {
      return Grant(i);
    }
    var j: nat;
    if !Unheld(s, l) {
      j :| j < |s.sessions| && Holds(s, j, l);
      WantsAnother(s, i);
    } else {
      j :| j < |s.sessions| && j != i && WaitsOn(s, j, l) && Place(s.queue, j) <= Place(s.queue, i);
      assert i in s.queue && j in s.queue;
    }
    if s.sessions[j].status == Running {
      return Proceed(j);
    }
    assert SessionOk(s.sessions[j]);
    assert WaitsFor(s, i, j);
    WaitsForAbove(s, i, j);
    HigherShrinks(s, i, j);
    e := SomeoneMoves(s, j);
  }

  /** Unless everyone has finished, someone can move without anyone being cancelled. */
  lemma Progress(s: State) returns (e: Event)
    requires Inv(s) && !AllFinished(s)
    ensures Enabled(s, e) && !e.Cancel?
  {
    var i :| 0 <= i < |s.sessions| && !s.sessions[i].Finished();
    if s.sessions[i].status == Running {
      e := Proceed(i);
    } else {
      assert SessionOk(s.sessions[i]);
      e := SomeoneMoves(s, i);
    }
  }

  function Cost(x: Session): nat {
    if x.Finished() then 0
    else 1 + 2 * (if x.pc <= |x.program| then |x.program| - x.pc else 0) + if x.status == Running then 1 else 0
  }

  function Work(sessions: seq<Session>): nat {
    if sessions == [] then 0 else Cost(sessions[0]) + Work(sessions[1..])
  }

  lemma {:induction false} WorkReplaced(sessions: seq<Session>, i: nat, x: Session)
    requires i < |sessions|
    ensures Work(sessions[i := x]) == Work(sessions) - Cost(sessions[i]) + Cost(x)
  {
    if i == 0 {
      assert sessions[0 := x][1..] == sessions[1..];
    } else {
      assert sessions[i := x][1..] == sessions[1..][i - 1 := x];
      WorkReplaced(sessions[1..], i - 1, x);
    }
  }

  lemma StepCosts(s: State, e: Event)
    requires Inv(s) && Enabled(s, e)
    ensures Work(Next(s, e).sessions) < Work(s.sessions)
  {
    var x := s.sessions[e.i];
    assert SessionOk(x);
    WorkReplaced(s.sessions, e.i, Next(s, e).sessions[e.i]);
    assert Next(s, e).sessions == s.sessions[e.i := Next(s, e).sessions[e.i]];
  }

  /** Every run is finite: it has at most as many steps as there is work at the start. */
  lemma {:induction false} RunsEnd(s: State, events: seq<Event>)
    requires Inv(s) && CanRun(s, events)
    ensures |events| + Work(After(s, events).sessions) <= Work(s.sessions)
    decreases |events|
  {
    if events != [] {
      StepKeepsInv(s, events[0]);
      StepCosts(s, events[0]);
      RunsEnd(Next(s, events[0]), events[1..]);
    }
  }

  function Instructions(programs: seq<Program>): nat {
    if programs == [] then 0 else |programs[0]| + Instructions(programs[1..])
  }

  lemma {:induction false} WorkAtStart(programs: seq<Program>)
    ensures Work(Start(programs).sessions) == 2 * (Instructions(programs) + |programs|)
  {
    if programs != [] {
      assert Start(programs).sessions[1..] == Start(programs[1..]).sessions;
      WorkAtStart(programs[1..]);
    }
  }

  /** A run takes at most two steps for each instruction and each session, and one that cannot be extended
      without cancelling has finished every session. */
  lemma EverySessionFinishes(programs: seq<Program>, events: seq<Event>)
    requires forall i | 0 <= i < |programs| :: Disciplined(programs[i])
    requires CanRun(Start(programs), events)
    ensures |events| <= 2 * (Instructions(programs) + |programs|)
    ensures (forall e: Event | Enabled(After(Start(programs), events), e) :: e.Cancel?) ==>
        AllFinished(After(Start(programs), events))
  {
    StartInv(programs);
    RunKeepsInv(Start(programs), events);
    RunsEnd(Start(programs), events);
    WorkAtStart(programs);
    if !AllFinished(After(Start(programs), events)) {
      var e := Progress(After(Start(programs), events));
    }
  }

  lemma {:induction false} OnlyTryingAborts(s: State, events: seq<Event>, i: nat)
    requires CanRun(s, events) && i < |s.sessions|
    requires forall k | 0 <= k < |events| :: !events[k].Cancel?
    requires s.sessions[i].status != Aborted && forall k | 0 <= k < |s.sessions[i].program| ::
        s.sessions[i].program[k].Take?
    ensures i < |After(s, events).sessions|
    ensures After(s, events).sessions[i].status != Aborted
    decreases |events|
  {
    if events != [] {
      OnlyTryingAborts(Next(s, events[0]), events[1..], i);
    }
  }

  /** Without cancellation a command that takes its advisories first commits. */
  lemma AdvisoryFirstCommits(programs: seq<Program>, events: seq<Event>, i: nat)
    requires i < |programs| && AdvisoryFirst(programs[i])
    requires CanRun(Start(programs), events) && forall k | 0 <= k < |events| :: !events[k].Cancel?
    requires AllFinished(After(Start(programs), events))
    ensures i < |After(Start(programs), events).sessions|
    ensures After(Start(programs), events).sessions[i].status == Committed
  {
    OnlyTryingAborts(Start(programs), events, i);
  }

  /** A row-first writer that finds the advisory busy fails at once, and the session first in line
      for its row can go on. */
  lemma RowFirstFailsFast(s: State, i: nat, j: nat)
    requires Inv(s) && i < |s.sessions| && RowFirst(s.sessions[i].program)
    requires s.sessions[i].status == Running && s.sessions[i].pc == 1
    requires !Unheld(s, s.sessions[i].Wanted())
    ensures var t := Next(s, Proceed(i));
            && t.sessions[i].status == Aborted
            && (WaitsOn(s, j, s.sessions[i].program[0].lock) && First(s, j, s.sessions[i].program[0].lock) ==>
                  Enabled(t, Grant(j)))
  {
    var x := s.sessions[i];
    var t := Next(s, Proceed(i));
    var row := x.program[0].lock;
    assert SessionOk(x);
    assert x.program[..1][0].lock == row;
    assert Holds(s, i, row);
    if WaitsOn(s, j, row) && First(s, j, row) {
      assert j != i;
      assert forall k | 0 <= k < |s.sessions| && k != i :: Holds(t, k, row) <==> Holds(s, k, row);
      assert forall k | 0 <= k < |s.sessions| && k != i :: !Holds(s, k, row);
      forall k | 0 <= k < |t.sessions| && k != j && WaitsOn(t, k, row) ensures Place(t.queue, j) < Place(t.queue, k) {
        assert WaitsOn(s, k, row);
      }
    }
  }

  // ----- what a step does -----

  /** Some other session holds the lock or waits for it. */
  predicate Busy(s: State, i: nat, l: Lock) {
    exists j | 0 <= j < |s.sessions| :: j != i && (Holds(s, j, l) || WaitsOn(s, j, l))
  }

  /** A session takes a lock exactly when no other holds it or waits for it; else it gives up a try, or waits
      at the end of the line. Done with its program it commits, and whoever finishes holds nothing. */
  lemma ProceedOutcome(s: State, i: nat)
    requires Inv(s) && i < |s.sessions| && s.sessions[i].status == Running
    requires s.sessions[i].pc < |s.sessions[i].program| ==> s.sessions[i].Wanted() !in s.sessions[i].held
    ensures var x, t := s.sessions[i], Next(s, Proceed(i));
            && |t.sessions| == |s.sessions|
            && (forall j | 0 <= j < |s.sessions| && j != i :: t.sessions[j] == s.sessions[j])
            && t.sessions[i].program == x.program
            && (t.sessions[i].status == Committed <==> x.pc == |x.program|)
            && (t.sessions[i].Finished() ==> t.sessions[i].held == {} && t.queue == s.queue)
            && (x.pc < |x.program| ==>
                  var l := x.program[x.pc].lock;
                  && (t.sessions[i].status == Running <==> !Busy(s, i, l))
                  && (!Busy(s, i, l) ==>
                        t.sessions[i].held == x.held + {l} && t.sessions[i].pc == x.pc + 1 && t.queue == s.queue)
                  && (t.sessions[i].status == Aborted <==> Busy(s, i, l) && x.program[x.pc].Try?)
                  && (t.sessions[i].status == Waiting <==> Busy(s, i, l) && x.program[x.pc].Take?)
                  && (t.sessions[i].status == Waiting ==>
                        t.sessions[i].held == x.held && t.sessions[i].pc == x.pc && t.queue == s.queue + [i]))
  {
    var x := s.sessions[i];
    assert SessionOk(x);
    if x.pc < |x.program| {
      var l := x.Wanted();
      if !Busy(s, i, l) {
        forall j | 0 <= j < |s.sessions| ensures !Holds(s, j, l) && !WaitsOn(s, j, l) {
          assert j != i ==> !(Holds(s, j, l) || WaitsOn(s, j, l));
        }
      } else {
        var j :| 0 <= j < |s.sessions| && j != i && (Holds(s, j, l) || WaitsOn(s, j, l));
        assert !Unheld(s, l) || !Unwanted(s, l);
      }
    }
  }

  // ----- when a writer gives up -----

  /** In a run from `s`, a step of session `i` tries a lock that another session holds or waits for. */
  predicate TriesBusy(s: State, events: seq<Event>, i: nat)
    requires CanRun(s, events)
    decreases |events|
  {
    events != [] && i < |s.sessions| &&
    var x := s.sessions[i];
    || (events[0] == Proceed(i) && x.pc < |x.program| && x.program[x.pc].Try? && Busy(s, i, x.Wanted()))
    || TriesBusy(Next(s, events[0]), events[1..], i)
  }

  /** No session tries a lock it holds. */
  predicate NoRetry(p: Program) {
    forall j, k | 0 <= j < k < |p| :: p[j].lock != p[k].lock
  }

  lemma NotYetHeld(x: Session)
    requires SessionOk(x) && !x.Finished() && x.pc < |x.program| && NoRetry(x.program)
    ensures x.Wanted() !in x.held
  {
    forall k | 0 <= k < x.pc ensures x.program[..x.pc][k].lock != x.Wanted() {
    }
  }

  lemma {:induction false} OnlyBusyAborts(s: State, events: seq<Event>, i: nat)
    requires Inv(s) && CanRun(s, events) && i < |s.sessions| && NoRetry(s.sessions[i].program)
    requires forall k | 0 <= k < |events| :: !events[k].Cancel?
    requires s.sessions[i].status != Aborted
    ensures |After(s, events).sessions| == |s.sessions|
    ensures After(s, events).sessions[i].status == Aborted <==> TriesBusy(s, events, i)
    decreases |events|
  {
    hide Busy;
    if events != [] {
      StepKeepsInv(s, events[0]);
      var t := Next(s, events[0]);
      if events[0] == Proceed(i) {
        assert SessionOk(s.sessions[i]);
        if s.sessions[i].pc < |s.sessions[i].program| {
          NotYetHeld(s.sessions[i]);
        }
        ProceedOutcome(s, i);
      }
      if t.sessions[i].status != Aborted {
        OnlyBusyAborts(t, events[1..], i);
      } else {
        RunKeepsInv(t, events[1..]);
        AbortedStays(t, events[1..], i);
      }
    }
  }

  lemma {:induction false} AbortedStays(s: State, events: seq<Event>, i: nat)
    requires CanRun(s, events) && i < |s.sessions| && s.sessions[i].status == Aborted
    ensures i < |After(s, events).sessions| && After(s, events).sessions[i].status == Aborted
    decreases |events|
  {
    if events != [] {
      AbortedStays(Next(s, events[0]), events[1..], i);
    }
  }

  /** Without cancellation a writer gives up exactly where, at its try, another session held the advisory or
      waited for it. */
  lemma WriterGivesUpWhenBusy(programs: seq<Program>, events: seq<Event>, i: nat)
    requires forall k | 0 <= k < |programs| :: Disciplined(programs[k])
    requires i < |programs| && RowFirst(programs[i])
    requires CanRun(Start(programs), events) && forall k | 0 <= k < |events| :: !events[k].Cancel?
    ensures |After(Start(programs), events).sessions| == |programs|
    ensures After(Start(programs), events).sessions[i].status == Aborted <==> TriesBusy(Start(programs), events, i)
  {
    StartInv(programs);
    OnlyBusyAborts(Start(programs), events, i);
  }

  /** No other program names the lock. */
  predicate Alone(programs: seq<Program>, i: nat, l: Lock) {
    forall j, k | 0 <= j < |programs| && j != i && 0 <= k < |programs[j]| :: programs[j][k].lock != l
  }

  function Programs(s: State): seq<Program> {
    seq(|s.sessions|, i requires 0 <= i < |s.sessions| => s.sessions[i].program)
  }

  lemma {:induction false} NeverBusyAlone(s: State, events: seq<Event>, i: nat)
    requires Inv(s) && CanRun(s, events) && i < |s.sessions| && RowFirst(s.sessions[i].program)
    requires Alone(Programs(s), i, s.sessions[i].program[1].lock)
    ensures !TriesBusy(s, events, i)
    decreases |events|
  {
    if events != [] {
      var l := s.sessions[i].program[1].lock;
      StepKeepsInv(s, events[0]);
      assert Programs(Next(s, events[0])) == Programs(s);
      forall j | 0 <= j < |s.sessions| && j != i ensures !Holds(s, j, l) && !WaitsOn(s, j, l) {
        var y := s.sessions[j];
        assert SessionOk(y) && Programs(s)[j] == y.program;
        assert forall k | 0 <= k < y.pc :: y.program[..y.pc][k] == y.program[k];
      }
      NeverBusyAlone(Next(s, events[0]), events[1..], i);
    }
  }

  /** So a writer whose advisory no other session asks for commits, in every finished run without cancellation. */
  lemma LoneWriterCommits(programs: seq<Program>, events: seq<Event>, i: nat)
    requires forall k | 0 <= k < |programs| :: Disciplined(programs[k])
    requires i < |programs| && RowFirst(programs[i]) && Alone(programs, i, programs[i][1].lock)
    requires CanRun(Start(programs), events) && forall k | 0 <= k < |events| :: !events[k].Cancel?
    requires AllFinished(After(Start(programs), events))
    ensures i < |After(Start(programs), events).sessions|
    ensures After(Start(programs), events).sessions[i].status == Committed
  {
    StartInv(programs);
    assert Programs(Start(programs)) == programs;
    WriterGivesUpWhenBusy(programs, events, i);
    NeverBusyAlone(Start(programs), events, i);
  }

  // ----- first come, first served -----

  /** Session `i` waits for the lock all along a run. */
  predicate KeepsWaiting(s: State, events: seq<Event>, i: nat, l: Lock)
    requires CanRun(s, events)
    decreases |events|
  {
    WaitsOn(s, i, l) && (events != [] ==> KeepsWaiting(Next(s, events[0]), events[1..], i, l))
  }

  /** `j` is not before `i` in line for the lock and does not hold it. */
  predicate Behind(s: State, i: nat, j: nat, l: Lock) {
    i != j && !Holds(s, j, l) && (WaitsOn(s, j, l) ==> Place(s.queue, i) < Place(s.queue, j))
  }

  lemma {:induction false} PlaceWithout(q: seq<nat>, x: nat, i: nat, j: nat)
    requires i in q && j in q && i != x && j != x
    ensures Place(Without(q, x), i) < Place(Without(q, x), j) <==> Place(q, i) < Place(q, j)
    decreases q
  {
    WithoutMeaning(q, x);
    WithoutMeaning(q[1..], x);
    assert q == [q[0]] + q[1..];
    var out := (if q[0] == x then [] else [q[0]]) + Without(q[1..], x);
    if q[0] == x {
      assert out == Without(q[1..], x);
      PlaceWithout(q[1..], x, i, j);
    } else {
      assert out[1..] == Without(q[1..], x);
      if q[0] != i && q[0] != j {
        PlaceWithout(q[1..], x, i, j);
      }
    }
  }

  lemma {:induction false} PlaceAppend(q: seq<nat>, i: nat, j: nat)
    requires i in q
    ensures Place(q + [j], i) == Place(q, i)
    ensures j !in q ==> Place(q + [j], j) == |q|
  {
    assert q == [q[0]] + q[1..];
    assert (q + [j])[1..] == q[1..] + [j];
    if i in q[1..] {
      PlaceAppend(q[1..], i, j);
    } else if q[1..] != [] {
      PlaceAppend(q[1..], q[1], j);
    }
  }

  lemma StaysBehind(s: State, e: Event, i: nat, j: nat, l: Lock)
    requires Inv(s) && Enabled(s, e) && WaitsOn(s, i, l) && Behind(s, i, j, l) && WaitsOn(Next(s, e), i, l)
    ensures Behind(Next(s, e), i, j, l)
  {
    StillWithout(s, e, i, j, l);
    if WaitsOn(Next(s, e), j, l) {
      StillLater(s, e, i, j, l);
    }
  }

  lemma StillWithout(s: State, e: Event, i: nat, j: nat, l: Lock)
    requires Enabled(s, e) && WaitsOn(s, i, l) && Behind(s, i, j, l)
    ensures !Holds(Next(s, e), j, l)
  {
    hide Place, Without;
  }

  lemma StillLater(s: State, e: Event, i: nat, j: nat, l: Lock)
    requires Inv(s) && Enabled(s, e) && WaitsOn(s, i, l) && Behind(s, i, j, l) && WaitsOn(Next(s, e), i, l)
    requires WaitsOn(Next(s, e), j, l)
    ensures Place(Next(s, e).queue, i) < Place(Next(s, e).queue, j)
  {
    hide Place, Without, Unheld, Unwanted, First, SessionOk, Holds;
    assert i in s.queue;
    if e.i == j {
      assert e.Proceed? && j !in s.queue && Next(s, e).queue == s.queue + [j];
      PlaceAppend(s.queue, i, j);
    } else {
      assert e.i != i && WaitsOn(s, j, l) && j in s.queue;
      if e.Proceed? {
        PlaceAppend(s.queue, i, e.i);
        PlaceAppend(s.queue, j, e.i);
      } else {
        PlaceWithout(s.queue, e.i, i, j);
      }
    }
  }

  /** While a session waits for a lock, no session behind it gets the lock. */
  lemma {:induction false} NoOvertaking(s: State, events: seq<Event>, i: nat, j: nat, l: Lock)
    requires Inv(s) && CanRun(s, events) && KeepsWaiting(s, events, i, l) && Behind(s, i, j, l)
    ensures !Holds(After(s, events), j, l)
    decreases |events|
  {
    hide Behind, WaitsOn, Inv;
    if events == [] {
      NotHolding(s, i, j, l);
    } else {
      StepKeepsInv(s, events[0]);
      assert KeepsWaiting(Next(s, events[0]), events[1..], i, l);
      StaysBehind(s, events[0], i, j, l);
      NoOvertaking(Next(s, events[0]), events[1..], i, j, l);
    }
  }

  lemma NotHolding(s: State, i: nat, j: nat, l: Lock)
    requires Behind(s, i, j, l)
    ensures !Holds(s, j, l)
  {
  }

  // ----- why the writer only tries -----

  /** Were the row-first writer to wait for the advisory, two sessions could deadlock. */
  lemma BlockingWriterDeadlocks(row: Lock, owner: nat)
    requires row.Row?
    ensures var writer, command := [Take(row), Take(RolloutAdvisory(owner))], [Take(RolloutAdvisory(owner)), Take(row)];
            AdvisoryFirst(command)
            && exists events :: CanRun(Start([writer, command]), events)
                                && Cycle(After(Start([writer, command]), events), [0, 1, 0])
  {
    var rollout := RolloutAdvisory(owner);
    var writer, command := [Take(row), Take(rollout)], [Take(rollout), Take(row)];
    assert command[0].lock == rollout;
    assert AdvisoriesOf(command, owner);
    var s0 := Start([writer, command]);
    var s1 := Next(s0, Proceed(0));
    assert s1.sessions[0] == Session(writer, 1, {row}, Running);
    var s2 := Next(s1, Proceed(1));
    assert s2.sessions[1] == Session(command, 1, {rollout}, Running);
    var s3 := Next(s2, Proceed(1));
    assert Holds(s2, 0, row);
    assert s3.sessions[1].status == Waiting;
    var s4 := Next(s3, Proceed(0));
    assert Holds(s3, 1, rollout);
    assert s4.sessions[0].status == Waiting;
    var events := [Proceed(0), Proceed(1), Proceed(1), Proceed(0)];
    assert events[1..] == [Proceed(1), Proceed(1), Proceed(0)];
    assert events[1..][1..] == [Proceed(1), Proceed(0)];
    assert events[1..][1..][1..] == [Proceed(0)];
    assert events[1..][1..][1..][1..] == [];
    assert CanRun(s4, []) && CanRun(s3, [Proceed(0)]) && CanRun(s2, [Proceed(1), Proceed(0)]);
    assert After(s0, events) == s4;
    assert WaitsFor(s4, 0, 1) && WaitsFor(s4, 1, 0);
    assert Cycle(s4, [0, 1, 0]);
  }

  // ----- the lock manager at work -----

  /** Sessions and their queue, updated step by step. */
  class Database {
    var sessions: seq<Session>
    var queue: seq<nat>

    constructor (programs: seq<Program>)
      ensures Value() == Start(programs)
    {
      sessions := Start(programs).sessions;
      queue := [];
    }

    function Value(): State
      reads this
    {
      State(sessions, queue)
    }

    /** The session runs its next instruction: it gets the lock, waits, gives up, or commits. */
    method Proceed(i: nat)
      requires Enabled(Value(), Event.Proceed(i))
      modifies this
      ensures Value() == Next(old(Value()), Event.Proceed(i))
    {
      var session := sessions[i];
      if session.pc >= |session.program| {
        sessions := sessions[i := session.Ended(Committed)];
        return;
      }
      var l := session.Wanted();
      var free := Unheld(Value(), l) && Unwanted(Value(), l);
      if free {
        sessions := sessions[i := session.Acquired()];
      } else if session.program[session.pc].Try? {
        sessions := sessions[i := session.Ended(Aborted)];
      } else {
        sessions := sessions[i := session.(status := Waiting)];
        queue := queue + [i];
      }
    }

    method Grant(i: nat)
      requires Enabled(Value(), Event.Grant(i))
      modifies this
      ensures Value() == Next(old(Value()), Event.Grant(i))
    {
      sessions := sessions[i := sessions[i].Acquired()];
      queue := Without(queue, i);
    }

    /** Lets sessions move, in some order, until none can: then all have finished. */
    method Drain()
      requires Inv(Value())
      modifies this
      ensures Inv(Value()) && AllFinished(Value()) && |sessions| == old(|sessions|)
    {
      while !AllFinished(Value())
        invariant Inv(Value()) && |sessions| == old(|sessions|)
        decreases Work(sessions)
      {
        ghost var hint := Progress(Value());
        var i: nat :| i < |sessions| && (Enabled(Value(), Event.Proceed(i)) || Enabled(Value(), Event.Grant(i)));
        if Enabled(Value(), Event.Proceed(i)) {
          StepKeepsInv(Value(), Event.Proceed(i));
          StepCosts(Value(), Event.Proceed(i));
          Proceed(i);
        } else {
          StepKeepsInv(Value(), Event.Grant(i));
          StepCosts(Value(), Event.Grant(i));
          Grant(i);
        }
      }
    }
  }
}
