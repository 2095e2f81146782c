/**
  What becomes of a plan whose layer is switched off. Its driver leaves the pending rows
  for a resume; every start meanwhile retires them. So a paused plan survives exactly if
  no start reaches it.
 */
module WavePause {
  import opened Common
  import opened WaveLedger

  // ----- Drivers and groups hold rows of their own target

  /** The driver's rows are in the store, and are its target's. */
  ghost predicate Owns(d: Driver, rows: seq<Row>) {
    forall i :: 0 <= i < |d.ids| && !d.ids[i].NoRow? ==> d.ids[i].id < |rows| && rows[d.ids[i].id].at == d.at
  }

  ghost predicate AllOwn(s: State) {
    forall k :: 0 <= k < |s.drivers| ==> Owns(s.drivers[k], s.rows)
  }

  /** No row is lost or changes its target. */
  ghost predicate SameTargets(r: seq<Row>, t: seq<Row>) {
    |r| <= |t| && forall id :: 0 <= id < |r| ==> t[id].at == r[id].at
  }

  /** A driver's step leaves the rows alone, sets the status of one of its own or adds one of its target's. */
  ghost predicate Touches(d: Driver, r: seq<Row>, t: seq<Row>) {
    || t == r
    || (exists row: Row :: row.at == d.at && t == r + [row])
    || exists i, status :: 0 <= i < |d.ids| && d.ids[i].Known? && t == Set(r, d.ids[i].id, status)
  }

  lemma {:induction false} FinishTouches(s: State, d: Driver, i: nat, status: Status, e: Env)
    requires i < |d.ids|
    ensures Touches(d, s.rows, Finish(s, IdOf(d.ids[i]), status, e).rows)
  {
  }

  lemma {:induction false} MarkTouches(s: State, d: Driver, i: nat, e: Env)
    requires i < |d.ids| && d.ids[i].Known?
    ensures Touches(d, s.rows, Mark(s, d.ids[i].id, e).rows)
  {
  }

  lemma {:induction false} MarkStepTouches(s: State, k: nat, i: nat, e: Env)
    requires k < |s.drivers| && i < |s.drivers[k].ids|
    ensures Touches(s.drivers[k], s.rows, MarkStep(s, k, i, e).rows)
  {
    var d := s.drivers[k];
    if d.ids[i].Known? {
      MarkTouches(s, d, i, e);
    }
  }

  lemma {:induction false} ScheduleTouches(s: State, k: nat, e: Env)
    requires k < |s.drivers|
    ensures Touches(s.drivers[k], s.rows, ScheduleOne(s, k, e).rows)
  {
  }

  lemma {:induction false} RetireTouches(s: State, k: nat, e: Env)
    requires k < |s.drivers| && s.drivers[k].pc.Retiring? && s.drivers[k].pc.i < |s.drivers[k].ids|
    ensures Touches(s.drivers[k], s.rows, DriverStep(s, k, e).rows)
  {
    FinishTouches(s, s.drivers[k], s.drivers[k].pc.i, Skipped, e);
  }

  lemma {:induction false} FireTouches(s: State, k: nat, e: Env)
    requires k < |s.drivers| && s.drivers[k].pc.Marked? && s.drivers[k].pc.i < |s.drivers[k].ids|
    ensures Touches(s.drivers[k], s.rows, DriverStep(s, k, e).rows)
  {
    FinishTouches(s, s.drivers[k], s.drivers[k].pc.i, Skipped, e);
  }

  lemma {:induction false} ReportTouches(s: State, k: nat, e: Env)
    requires k < |s.drivers| && s.drivers[k].pc.Fetching? && s.drivers[k].pc.i < |s.drivers[k].ids|
    ensures Touches(s.drivers[k], s.rows, DriverStep(s, k, e).rows)
  {
    FinishTouches(s, s.drivers[k], s.drivers[k].pc.i, if e.fetchOk then Status.Ok else Fail, e);
  }

  lemma {:induction false} DriverStepTouches(s: State, k: nat, e: Env)
    requires k < |s.drivers|
    ensures Touches(s.drivers[k], s.rows, DriverStep(s, k, e).rows)
  {
    var d := s.drivers[k];
    if d.pc.Scheduling? {
      ScheduleTouches(s, k, e);
    } else if d.pc.Marking? {
      if d.pc.i < |d.ids| {
        MarkStepTouches(s, k, d.pc.i, e);
      }
    } else if d.pc.Retiring? && d.pc.i < |d.ids| {
      RetireTouches(s, k, e);
    } else if d.pc.Marked? && d.pc.i < |d.ids| {
      FireTouches(s, k, e);
    } else if d.pc.Fetching? && d.pc.i < |d.ids| {
      ReportTouches(s, k, e);
    }
  }

  /** Of the drivers, the step moves one on to its next point. */
  ghost predicate Moves(s: State, k: nat, t: State)
    requires k < |s.drivers|
  {
    && |t.drivers| == |s.drivers| && t.drivers == s.drivers[k := s.drivers[k].(pc := t.drivers[k].pc)]
    && t.up == s.up && t.boot == s.boot && t.enabled == s.enabled
  }

  lemma {:induction false} MoveMoves(s: State, u: State, k: nat, pc: Pc)
    requires k < |s.drivers| && u.drivers == s.drivers && u.up == s.up && u.boot == s.boot && u.enabled == s.enabled
    ensures Moves(s, k, Move(u, k, pc))
  {
  }

  lemma {:induction false} MarkStepMoves(s: State, k: nat, i: nat, e: Env)
    requires k < |s.drivers| && i < |s.drivers[k].ids|
    ensures Moves(s, k, MarkStep(s, k, i, e))
  {
    var d := s.drivers[k];
    MoveMoves(s, s, k, AtWave(i + 1));
    MoveMoves(s, s, k, Marked(i));
    MoveMoves(s, s, k, Exited);
    if d.ids[i].Known? {
      var m := Mark(s, d.ids[i].id, e);
      MoveMoves(s, m, k, Exited);
      MoveMoves(s, m, k, Marked(i));
      MoveMoves(s, m.(log := s.log + [Doubted(d.ids[i].id)]), k, Marked(i));
    }
  }

  lemma {:induction false} FireStepMoves(s: State, k: nat, i: nat, e: Env)
    requires k < |s.drivers| && i < |s.drivers[k].ids|
    ensures Moves(s, k, FireStep(s, k, i, e))
  {
    MoveMoves(s, Finish(s, IdOf(s.drivers[k].ids[i]), Skipped, e), k, AtWave(i + 1));
    MoveMoves(s, Note(s, s.drivers[k].ids[i]), k, Fetching(i));
  }

  /** A driver's step changes no other driver, and gains a row only by an insert. */
  lemma {:induction false} DriverStepMoves(s: State, k: nat, e: Env)
    requires k < |s.drivers|
    ensures Moves(s, k, DriverStep(s, k, e)) || DriverStep(s, k, e) == ScheduleOne(s, k, e)
  {
    if s.drivers[k].pc.New? || s.drivers[k].pc.Scheduling? || s.drivers[k].pc.AtWave? || s.drivers[k].pc.Exited? {
      QuietStepMoves(s, k, e);
    } else {
      StoreStepMoves(s, k, e);
    }
  }

  lemma {:induction false} QuietStepMoves(s: State, k: nat, e: Env)
    requires k < |s.drivers|
    requires s.drivers[k].pc.New? || s.drivers[k].pc.Scheduling? || s.drivers[k].pc.AtWave? || s.drivers[k].pc.Exited?
    ensures Moves(s, k, DriverStep(s, k, e)) || DriverStep(s, k, e) == ScheduleOne(s, k, e)
  {
    MoveMoves(s, s, k, Scheduling);
    MoveMoves(s, s, k, AtWave(0));
    MoveMoves(s, s, k, Retiring(0));
    MoveMoves(s, s, k, Exited);
    if s.drivers[k].pc.AtWave? {
      MoveMoves(s, s, k, Marking(s.drivers[k].pc.i));
    }
  }

  lemma {:induction false} StoreStepMoves(s: State, k: nat, e: Env)
    requires k < |s.drivers|
    requires s.drivers[k].pc.Retiring? || s.drivers[k].pc.Marking? || s.drivers[k].pc.Marked? || s.drivers[k].pc.Fetching?
    ensures Moves(s, k, DriverStep(s, k, e))
  {
    if s.drivers[k].pc.Retiring? || s.drivers[k].pc.Fetching? {
      ReportStepMoves(s, k, e);
    } else {
      MoveMoves(s, s, k, s.drivers[k].pc);
      if s.drivers[k].pc.i < |s.drivers[k].ids| {
        MarkStepMoves(s, k, s.drivers[k].pc.i, e);
        FireStepMoves(s, k, s.drivers[k].pc.i, e);
      }
    }
  }

  lemma {:induction false} ReportStepMoves(s: State, k: nat, e: Env)
    requires k < |s.drivers| && (s.drivers[k].pc.Retiring? || s.drivers[k].pc.Fetching?)
    ensures Moves(s, k, DriverStep(s, k, e))
  {
    var d := s.drivers[k];
    var i := d.pc.i;
    MoveMoves(s, s, k, Exited);
    if i < |d.ids| {
      MoveMoves(s, Finish(s, IdOf(d.ids[i]), Skipped, e), k, Retiring(i + 1));
      MoveMoves(s, Finish(s, IdOf(d.ids[i]), if e.fetchOk then Status.Ok else Fail, e), k,
                if d.live && !e.fetchOk then Exited else AtWave(i + 1));
    }
  }

  /** No other driver changes, and neither does the target of the one. */
  ghost predicate Alone(s: State, k: nat, t: State)
    requires k < |s.drivers|
  {
    && |t.drivers| == |s.drivers| && t.drivers[k].at == s.drivers[k].at
    && t.up == s.up && t.boot == s.boot && t.enabled == s.enabled
    && forall j :: 0 <= j < |s.drivers| && j != k ==> t.drivers[j] == s.drivers[j]
  }

  lemma {:induction false} ScheduleAlone(s: State, k: nat, e: Env)
    requires k < |s.drivers|
    ensures Alone(s, k, ScheduleOne(s, k, e))
  {
  }

  lemma {:induction false} DriverStepAlone(s: State, k: nat, e: Env)
    requires k < |s.drivers|
    ensures Alone(s, k, DriverStep(s, k, e))
  {
    DriverStepMoves(s, k, e);
    ScheduleAlone(s, k, e);
  }

  lemma {:induction false} ScheduleOwns(s: State, k: nat, e: Env)
    requires k < |s.drivers| && Owns(s.drivers[k], s.rows)
    ensures Owns(ScheduleOne(s, k, e).drivers[k], ScheduleOne(s, k, e).rows)
  {
  }

  lemma {:induction false} TouchedOwns(d: Driver, r: seq<Row>, t: seq<Row>)
    requires Owns(d, r) && Touches(d, r, t)
    ensures SameTargets(r, t) && Owns(d, t)
  {
  }

  lemma {:induction false} DriverStepOwns(s: State, k: nat, e: Env)
    requires k < |s.drivers| && Owns(s.drivers[k], s.rows)
    ensures var t := DriverStep(s, k, e);
            Alone(s, k, t) && SameTargets(s.rows, t.rows) && Owns(t.drivers[k], t.rows)
  {
    DriverStepTouches(s, k, e);
    TouchedOwns(s.drivers[k], s.rows, DriverStep(s, k, e).rows);
    DriverStepMoves(s, k, e);
    ScheduleAlone(s, k, e);
    ScheduleOwns(s, k, e);
  }

  lemma OwnsLater(d: Driver, r: seq<Row>, t: seq<Row>)
    requires Owns(d, r) && SameTargets(r, t)
    ensures Owns(d, t)
  {
  }

  lemma {:induction false} SpawnOwns(s: State, d: Driver)
    requires AllOwn(s) && Owns(d, s.rows)
    ensures AllOwn(Spawn(s, d))
  {
  }

  /** The rows of a group are in the store, and are its target's. */
  ghost predicate GroupOwns(g: Group, rows: seq<Row>) {
    forall id :: id in g.plan ==> id < |rows| && rows[id].at == g.at
  }

  ghost predicate GroupsOwn(groups: seq<Group>, rows: seq<Row>) {
    forall i :: 0 <= i < |groups| ==> GroupOwns(groups[i], rows)
  }

  ghost predicate BootOwns(boot: Boot, rows: seq<Row>) {
    match boot
    case Reclaiming(left) => GroupsOwn(left, rows)
    case Discarding(_, left) => GroupsOwn(left, rows)
    case _ => true
  }

  lemma {:induction false} GroupsOwnLater(groups: seq<Group>, r: seq<Row>, t: seq<Row>)
    requires GroupsOwn(groups, r) && SameTargets(r, t)
    ensures GroupsOwn(groups, t)
  {
    forall i | 0 <= i < |groups| ensures GroupOwns(groups[i], t) {
      assert GroupOwns(groups[i], r);
    }
  }

  lemma {:induction false} BootOwnsLater(boot: Boot, r: seq<Row>, t: seq<Row>)
    requires BootOwns(boot, r) && SameTargets(r, t)
    ensures BootOwns(boot, t)
  {
    match boot
    case Reclaiming(left) => GroupsOwnLater(left, r, t);
    case Discarding(ids, left) => GroupsOwnLater(left, r, t);
    case _ =>
  }

  lemma {:induction false} ListedOwn(rows: seq<Row>, groups: seq<Group>)
    requires IsListing(rows, groups)
    ensures GroupsOwn(groups, rows)
  {
    forall i | 0 <= i < |groups| ensures GroupOwns(groups[i], rows) {
      var g := groups[i];
      assert g in groups;
      forall id | id in g.plan ensures id < |rows| && rows[id].at == g.at {
        var k :| 0 <= k < |g.plan| && g.plan[k] == id;
        assert InPlan(rows, g.at, Some(g.cycle), g.plan[k]);
      }
    }
  }

  lemma {:induction false} GivenOwns(at: Target, cycle: string, plan: seq<RowId>, rows: seq<Row>)
    requires GroupOwns(Group(at, cycle, plan), rows)
    ensures Owns(Driver(at, cycle, false, |plan|, Given(plan), New), rows)
  {
    forall i | 0 <= i < |plan| ensures plan[i] < |rows| && rows[plan[i]].at == at {
      assert plan[i] in plan;
    }
  }

  lemma {:induction false} ReclaimOwns(s: State, groups: seq<Group>, malformed: bool, e: Env)
    requires AllOwn(s) && BootOwns(s.boot, s.rows)
    ensures var t := ReclaimStep(s, groups, malformed, e);
            AllOwn(t) && SameTargets(s.rows, t.rows)
  {
    var t := ReclaimStep(s, groups, malformed, e);
    if s.boot.Reclaiming? && t.drivers != s.drivers {
      var g := s.boot.left[0];
      GivenOwns(g.at, g.cycle, g.plan, s.rows);
      SpawnOwns(s, Driver(g.at, g.cycle, false, |g.plan|, Given(g.plan), New));
      assert t.drivers == Spawn(s, Driver(g.at, g.cycle, false, |g.plan|, Given(g.plan), New)).drivers;
    } else {
      AllOwnLater(s, t);
    }
  }

  lemma {:induction false} ReclaimBootOwns(s: State, groups: seq<Group>, malformed: bool, e: Env)
    requires BootOwns(s.boot, s.rows)
    ensures var t := ReclaimStep(s, groups, malformed, e); BootOwns(t.boot, t.rows)
  {
    var t := ReclaimStep(s, groups, malformed, e);
    match s.boot
    case Done =>
    case Listing =>
      if t.boot.Reclaiming? {
        ListedOwn(s.rows, groups);
      }
    case Reclaiming(left) =>
      if left != [] {
        TailOwns(left, s.rows);
      }
    case Discarding(ids, left) => GroupsOwnLater(left, s.rows, t.rows);
  }

  lemma TailOwns(groups: seq<Group>, rows: seq<Row>)
    requires GroupsOwn(groups, rows) && groups != []
    ensures GroupOwns(groups[0], rows) && GroupsOwn(groups[1..], rows)
  {
    forall i | 0 <= i < |groups| - 1 ensures GroupOwns(groups[1..][i], rows) {
      assert groups[1..][i] == groups[i + 1];
    }
  }

  lemma {:induction false} StepOwns(s: State, a: Action)
    requires AllOwn(s) && BootOwns(s.boot, s.rows)
    ensures AllOwn(Step(s, a)) && SameTargets(s.rows, Step(s, a).rows)
  {
    var t := Step(s, a);
    match a
    case Reclaim(groups, malformed, e) =>
      if s.up {
        ReclaimOwns(s, groups, malformed, e);
      }
    case Begin(at, cycle, waves) => SpawnOwns(s, Driver(at, cycle, true, waves, [], New));
    case Resume(at, plan) =>
      if t != s {
        SpawnOwns(s, Driver(at, "", false, |plan|, Given(plan), New));
      }
    case Drive(k, e) =>
      if s.up && k < |s.drivers| {
        DriverStepOwns(s, k, e);
        forall j | 0 <= j < |t.drivers| ensures Owns(t.drivers[j], t.rows) {
          OwnsLater(s.drivers[j], s.rows, t.rows);
        }
      }
    case Switch(at, on) =>
    case Crash =>
    case Startup(e) => AllOwnLater(s, t);
    case Supersede(at, keep, e) => AllOwnLater(s, t);
  }

  lemma {:induction false} AllOwnLater(s: State, t: State)
    requires AllOwn(s) && t.drivers == s.drivers && SameTargets(s.rows, t.rows)
    ensures AllOwn(t)
  {
    forall k | 0 <= k < |t.drivers| ensures Owns(t.drivers[k], t.rows) {
      OwnsLater(s.drivers[k], s.rows, t.rows);
    }
  }

  lemma {:induction false} StepBootOwns(s: State, a: Action)
    requires AllOwn(s) && BootOwns(s.boot, s.rows)
    ensures BootOwns(Step(s, a).boot, Step(s, a).rows)
  {
    var t := Step(s, a);
    StepOwns(s, a);
    if a.Reclaim? && s.up {
      ReclaimBootOwns(s, a.groups, a.malformed, a.e);
    } else if t.boot == s.boot {
      BootOwnsLater(s.boot, s.rows, t.rows);
    }
  }

  lemma {:induction false} RunOwns(s: State, actions: seq<Action>)
    requires AllOwn(s) && BootOwns(s.boot, s.rows)
    ensures AllOwn(Run(s, actions)) && BootOwns(Run(s, actions).boot, Run(s, actions).rows)
  {
    if actions != [] {
      var t := Run(s, actions[..|actions| - 1]);
      RunOwns(s, actions[..|actions| - 1]);
      StepOwns(t, actions[|actions| - 1]);
      StepBootOwns(t, actions[|actions| - 1]);
    }
  }

  // ----- What other targets and starts do to the rows of a paused one

  /** The step is about another target, or part of a crash or a start of the whole process. */
  ghost predicate Elsewhere(s: State, a: Action, at: Target) {
    match a
    case Switch(b, _) => b != at
    case Crash => true
    case Startup(_) => true
    case Reclaim(_, _, _) => true
    case Supersede(b, _, _) => b != at
    case Begin(b, _, _) => b != at
    case Resume(b, _) => b != at
    case Drive(k, _) => k < |s.drivers| ==> s.drivers[k].at != at
  }

  ghost predicate AllElsewhere(s: State, actions: seq<Action>, at: Target) {
    actions == [] || (
      && AllElsewhere(s, actions[..|actions| - 1], at)
      && Elsewhere(Run(s, actions[..|actions| - 1]), actions[|actions| - 1], at))
  }

  /** The step is one in which a start retires a pending row of the target. */
  ghost predicate Retires(s: State, a: Action, at: Target) {
    && a.Reclaim? && s.up && s.boot.Discarding? && s.boot.ids != [] && (!a.e.dbErr || a.e.applied)
    && IsPending(s.rows, s.boot.ids[0]) && s.rows[s.boot.ids[0]].at == at
  }

  ghost predicate RetiresIn(s: State, actions: seq<Action>, at: Target) {
    actions != [] && (
      || RetiresIn(s, actions[..|actions| - 1], at)
      || Retires(Run(s, actions[..|actions| - 1]), actions[|actions| - 1], at))
  }

  ghost predicate RowStill(x: Row, y: Row, at: Target) {
    y.at == x.at && y.cycle == x.cycle && y.wave == x.wave && (x.at == at ==> (y.status == Pending <==> x.status == Pending))
  }

  /** The target's pending rows are the same. */
  ghost predicate RowsStill(r: seq<Row>, t: seq<Row>, at: Target) {
    && |r| <= |t|
    && (forall id :: 0 <= id < |r| ==> RowStill(r[id], t[id], at))
    && forall id :: |r| <= id < |t| ==> t[id].at != at
  }

  lemma RowsStillTransitive(r: seq<Row>, t: seq<Row>, u: seq<Row>, at: Target)
    requires RowsStill(r, t, at) && RowsStill(t, u, at)
    ensures RowsStill(r, u, at)
  {
    forall id | 0 <= id < |r| ensures RowStill(r[id], u[id], at) {
      assert RowStill(r[id], t[id], at) && RowStill(t[id], u[id], at);
    }
    forall id | |r| <= id < |u| ensures u[id].at != at {
      if id < |t| {
        assert RowStill(t[id], u[id], at);
      }
    }
  }

  lemma {:induction false} TouchedStill(d: Driver, r: seq<Row>, t: seq<Row>, at: Target)
    requires Owns(d, r) && Touches(d, r, t) && d.at != at
    ensures RowsStill(r, t, at)
  {
  }

  lemma {:induction false} ReclaimStill(s: State, groups: seq<Group>, malformed: bool, e: Env, at: Target)
    requires at !in s.enabled && s.up && !Retires(s, Reclaim(groups, malformed, e), at)
    ensures RowsStill(s.rows, ReclaimStep(s, groups, malformed, e).rows, at)
  {
  }

  lemma {:induction false} StepStill(s: State, a: Action, at: Target)
    requires AllOwn(s) && Elsewhere(s, a, at) && at !in s.enabled && !Retires(s, a, at)
    ensures RowsStill(s.rows, Step(s, a).rows, at)
  {
    if a.Drive? && s.up && a.k < |s.drivers| {
      DriverStepTouches(s, a.k, a.e);
      TouchedStill(s.drivers[a.k], s.rows, DriverStep(s, a.k, a.e).rows, at);
    } else if a.Reclaim? && s.up {
      ReclaimStill(s, a.groups, a.malformed, a.e, at);
    }
  }

  ghost predicate Idle(s: State, at: Target) {
    at !in s.enabled && !DriverActive(s, at)
  }

  lemma {:induction false} ReclaimIdle(s: State, groups: seq<Group>, malformed: bool, e: Env, at: Target)
    requires Idle(s, at)
    ensures Idle(ReclaimStep(s, groups, malformed, e), at)
  {
    var t := ReclaimStep(s, groups, malformed, e);
    forall k | 0 <= k < |t.drivers| && t.drivers[k].at == at ensures !Active(t.drivers[k]) {
      if k < |s.drivers| {
        assert t.drivers[k] == s.drivers[k];
      }
    }
  }

  lemma {:induction false} StepIdle(s: State, a: Action, at: Target)
    requires Elsewhere(s, a, at) && Idle(s, at)
    ensures Idle(Step(s, a), at)
  {
    if a.Drive? && s.up && a.k < |s.drivers| {
      DriverStepAlone(s, a.k, a.e);
    } else if a.Reclaim? && s.up {
      ReclaimIdle(s, a.groups, a.malformed, a.e, at);
    }
  }

  lemma {:induction false} RunIdle(s: State, actions: seq<Action>, at: Target)
    requires AllElsewhere(s, actions, at) && Idle(s, at)
    ensures Idle(Run(s, actions), at)
  {
    if actions != [] {
      RunIdle(s, actions[..|actions| - 1], at);
      StepIdle(Run(s, actions[..|actions| - 1]), actions[|actions| - 1], at);
    }
  }

  lemma {:induction false} RunStill(s: State, actions: seq<Action>, at: Target)
    requires AllOwn(s) && BootOwns(s.boot, s.rows) && AllElsewhere(s, actions, at) && Idle(s, at) && !RetiresIn(s, actions, at)
    ensures RowsStill(s.rows, Run(s, actions).rows, at)
  {
    if actions != [] {
      var init := actions[..|actions| - 1];
      var t := Run(s, init);
      RunStill(s, init, at);
      RunOwns(s, init);
      RunIdle(s, init, at);
      StepStill(t, actions[|actions| - 1], at);
      RowsStillTransitive(s.rows, t.rows, Run(s, actions).rows, at);
    }
  }

  lemma {:induction false} PlanStill(r: seq<Row>, t: seq<Row>, at: Target, plan: seq<RowId>)
    requires RowsStill(r, t, at) && IsPlan(r, at, None, plan)
    ensures IsPlan(t, at, None, plan)
  {
    forall id: RowId ensures InPlan(t, at, None, id) <==> InPlan(r, at, None, id) {
      if id < |r| {
        assert RowStill(r[id], t[id], at);
      }
    }
    forall i, j | 0 <= i < j < |plan| ensures t[plan[i]].wave <= t[plan[j]].wave {
      assert InPlan(r, at, None, plan[i]) && InPlan(r, at, None, plan[j]);
      assert RowStill(r[plan[i]], t[plan[i]], at) && RowStill(r[plan[j]], t[plan[j]], at);
    }
  }

  /** A row of the plan is pending no more. */
  ghost predicate PlanBroken(rows: seq<Row>, plan: seq<RowId>) {
    exists i :: 0 <= i < |plan| && Taken(rows, plan[i])
  }

  lemma BrokenIsNoPlan(rows: seq<Row>, at: Target, plan: seq<RowId>)
    requires PlanBroken(rows, plan)
    ensures !IsPlan(rows, at, None, plan)
  {
    var i :| 0 <= i < |plan| && Taken(rows, plan[i]);
    assert !InPlan(rows, at, None, plan[i]);
  }

  lemma {:induction false} BrokenStays(s: State, a: Action, plan: seq<RowId>)
    requires PlanBroken(s.rows, plan)
    ensures PlanBroken(Step(s, a).rows, plan)
  {
    var i :| 0 <= i < |plan| && Taken(s.rows, plan[i]);
    StepAges(s, a, plan[i]);
  }

  lemma {:induction false} RetireBreaks(s: State, a: Action, at: Target, plan: seq<RowId>)
    requires IsPlan(s.rows, at, None, plan) && Retires(s, a, at)
    ensures PlanBroken(Step(s, a).rows, plan)
  {
    var id := s.boot.ids[0];
    assert InPlan(s.rows, at, None, id);
    var i :| 0 <= i < |plan| && plan[i] == id;
    assert Taken(Step(s, a).rows, plan[i]);
  }

  lemma {:induction false} RetiredBreaks(s: State, actions: seq<Action>, at: Target, plan: seq<RowId>)
    requires AllOwn(s) && BootOwns(s.boot, s.rows) && AllElsewhere(s, actions, at) && Idle(s, at) && RetiresIn(s, actions, at)
    requires IsPlan(s.rows, at, None, plan)
    ensures PlanBroken(Run(s, actions).rows, plan)
  {
    var init := actions[..|actions| - 1];
    var t := Run(s, init);
    if RetiresIn(s, init, at) {
      RetiredBreaks(s, init, at, plan);
      BrokenStays(t, actions[|actions| - 1], plan);
    } else {
      RunStill(s, init, at);
      PlanStill(s.rows, t.rows, at, plan);
      RetireBreaks(t, actions[|actions| - 1], at, plan);
    }
  }

  /** The driver has stopped because its layer is off, no other works on the target, and the list is what it left pending. */
  ghost predicate Paused(s: State, at: Target, plan: seq<RowId>) {
    AllOwn(s) && BootOwns(s.boot, s.rows) && Idle(s, at) && plan != [] && IsPlan(s.rows, at, None, plan)
  }

  /** A driver that finds its layer switched off changes no row. */
  lemma {:induction false} PauseChangesNothing(before: seq<Action>, k: nat, e: Env, plan: seq<RowId>)
    requires var s := Run(Init, before);
             && s.up && k < |s.drivers| && s.drivers[k].pc.AtWave? && s.drivers[k].at !in s.enabled
             && (forall j :: 0 <= j < |s.drivers| && j != k ==> s.drivers[j].at != s.drivers[k].at || !Active(s.drivers[j]))
             && plan != [] && IsPlan(s.rows, s.drivers[k].at, None, plan)
    ensures var s := Run(Init, before);
            var paused := Step(s, Drive(k, e));
            paused.rows == s.rows && paused.log == s.log && Paused(paused, s.drivers[k].at, plan)
  {
    var s := Run(Init, before);
    RunOwns(Init, before);
    StepOwns(s, Drive(k, e));
    StepBootOwns(s, Drive(k, e));
  }

  /**
    Whatever other targets do meanwhile, and however often the process crashes and
    starts, what was left pending is what a resume drives when the layer is switched on
    again, exactly if no start in between retired a row of it.
   */
  lemma {:induction false} PauseKeepsThePlanIff(paused: State, at: Target, plan: seq<RowId>, between: seq<Action>)
    requires Paused(paused, at, plan) && AllElsewhere(paused, between, at)
    ensures var on := Step(Run(paused, between), Switch(at, true));
            && (IsPlan(on.rows, at, None, plan) <==> !RetiresIn(paused, between, at))
            && (Started(on) && IsPlan(on.rows, at, None, plan) ==>
                  Step(on, Resume(at, plan)) == Spawn(on, Driver(at, "", false, |plan|, Given(plan), New)))
  {
    var t := Run(paused, between);
    RunIdle(paused, between, at);
    assert !DriverActive(Step(t, Switch(at, true)), at);
    if RetiresIn(paused, between, at) {
      RetiredBreaks(paused, between, at, plan);
      BrokenIsNoPlan(t.rows, at, plan);
    } else {
      RunStill(paused, between, at);
      PlanStill(paused.rows, t.rows, at, plan);
    }
  }

  // ----- A start with the layer off retires all of the plan

  predicate Covers(boot: Boot, id: RowId) {
    match boot
    case Done => false
    case Listing => true
    case Reclaiming(left) => exists i :: 0 <= i < |left| && id in left[i].plan
    case Discarding(ids, left) => id in ids || exists i :: 0 <= i < |left| && id in left[i].plan
  }

  /** All pending rows of the target are still before the start under way. */
  ghost predicate Facing(s: State, at: Target) {
    s.up ==> forall id: RowId :: InPlan(s.rows, at, None, id) ==> Covers(s.boot, id)
  }

  lemma {:induction false} FewerPending(r: seq<Row>, t: seq<Row>, at: Target, id: RowId)
    requires RowsStill(r, t, at) && InPlan(t, at, None, id)
    ensures InPlan(r, at, None, id)
  {
    if id < |r| {
      assert RowStill(r[id], t[id], at);
    }
  }

  lemma {:induction false} ListingFaces(s: State, groups: seq<Group>, id: RowId)
    requires IsListing(s.rows, groups) && IsPending(s.rows, id)
    ensures Covers(Reclaiming(groups), id)
  {
    var g :| g in groups && id in g.plan;
    var i :| 0 <= i < |groups| && groups[i] == g;
  }

  lemma {:induction false} GroupFaces(s: State, malformed: bool, at: Target, id: RowId)
    requires s.boot.Reclaiming? && s.boot.left != [] && GroupsOwn(s.boot.left, s.rows) && at !in s.enabled
    requires InPlan(s.rows, at, None, id) && Covers(s.boot, id)
    ensures Covers(ReclaimGroup(s, s.boot.left[0], s.boot.left[1..], malformed).boot, id)
  {
    var left := s.boot.left;
    var i :| 0 <= i < |left| && id in left[i].plan;
    if i > 0 {
      assert left[1..][i - 1] == left[i];
    } else {
      assert GroupOwns(left[0], s.rows);
    }
  }

  lemma {:induction false} DiscardFaces(s: State, e: Env, at: Target, id: RowId)
    requires s.boot.Discarding? && !e.dbErr && Covers(s.boot, id)
    requires InPlan(ReclaimStep(s, [], false, e).rows, at, None, id)
    ensures Covers(ReclaimStep(s, [], false, e).boot, id)
  {
  }

  lemma {:induction false} ReclaimFaces(s: State, groups: seq<Group>, malformed: bool, e: Env, at: Target)
    requires s.up && Facing(s, at) && BootOwns(s.boot, s.rows) && at !in s.enabled && !e.dbErr
    ensures Facing(ReclaimStep(s, groups, malformed, e), at)
  {
    var t := ReclaimStep(s, groups, malformed, e);
    forall id: RowId | InPlan(t.rows, at, None, id) ensures Covers(t.boot, id) {
      assert InPlan(s.rows, at, None, id);
      match s.boot
      case Done =>
      case Listing =>
        if t.boot.Reclaiming? {
          ListingFaces(s, groups, id);
        }
      case Reclaiming(left) =>
        if left != [] {
          GroupFaces(s, malformed, at, id);
        }
      case Discarding(ids, left) => DiscardFaces(s, e, at, id);
    }
  }

  lemma {:induction false} StepFaces(s: State, a: Action, at: Target)
    requires AllOwn(s) && BootOwns(s.boot, s.rows) && Elsewhere(s, a, at) && Idle(s, at)
    requires a.Reclaim? ==> !a.e.dbErr
    requires Facing(s, at) || a.Crash?
    ensures Facing(Step(s, a), at)
  {
    var t := Step(s, a);
    if a.Reclaim? {
      if s.up {
        ReclaimFaces(s, a.groups, a.malformed, a.e, at);
      }
    } else if !a.Crash? {
      StepStill(s, a, at);
      if a.Drive? && s.up && a.k < |s.drivers| {
        DriverStepAlone(s, a.k, a.e);
      }
      forall id: RowId | t.up && InPlan(t.rows, at, None, id) ensures Covers(t.boot, id) {
        FewerPending(s.rows, t.rows, at, id);
      }
    }
  }

  ghost predicate ReclaimsSucceed(actions: seq<Action>) {
    forall a :: a in actions && a.Reclaim? ==> !a.e.dbErr
  }

  lemma {:induction false} CrashFaces(s: State, actions: seq<Action>, at: Target)
    requires AllOwn(s) && BootOwns(s.boot, s.rows) && AllElsewhere(s, actions, at) && Idle(s, at)
    requires ReclaimsSucceed(actions) && Crash in actions
    ensures Facing(Run(s, actions), at)
  {
    var init, last := actions[..|actions| - 1], actions[|actions| - 1];
    assert actions == init + [last];
    RunOwns(s, init);
    RunIdle(s, init, at);
    if !last.Crash? {
      CrashFaces(s, init, at);
    }
    StepFaces(Run(s, init), last, at);
  }

  lemma {:induction false} NoCrashNoRetire(s: State, actions: seq<Action>, at: Target)
    requires Started(s) && Crash !in actions
    ensures Started(Run(s, actions)) && !RetiresIn(s, actions, at)
  {
    if actions != [] {
      var init, last := actions[..|actions| - 1], actions[|actions| - 1];
      assert actions == init + [last];
      NoCrashNoRetire(s, init, at);
      if last.Drive? && last.k < |Run(s, init).drivers| {
        DriverStepAlone(Run(s, init), last.k, last.e);
      }
    }
  }

  /**
    So where the starts' own store calls succeed, a paused plan outlives what happens to
    the process exactly if the process does not crash; and a crash leaves nothing of it.
   */
  lemma {:induction false} PausedPlanSurvivesIffNoCrash(paused: State, at: Target, plan: seq<RowId>, between: seq<Action>)
    requires Paused(paused, at, plan) && Started(paused) && AllElsewhere(paused, between, at) && ReclaimsSucceed(between)
    requires Started(Run(paused, between))
    ensures var on := Step(Run(paused, between), Switch(at, true));
            && (IsPlan(on.rows, at, None, plan) <==> Crash !in between)
            && (Crash in between ==> IsPlan(on.rows, at, None, []))
  {
    var t := Run(paused, between);
    PauseKeepsThePlanIff(paused, at, plan, between);
    if Crash in between {
      CrashFaces(paused, between, at);
      assert forall id: RowId :: !InPlan(t.rows, at, None, id);
      assert !InPlan(t.rows, at, None, plan[0]);
    } else {
      NoCrashNoRetire(paused, between, at);
    }
  }

  // ----- A run that loses a plan

  function OneRow(at: Target): Row {
    Row(at, "c", 1, Pending)
  }

  ghost predicate OnePaused(s: State, at: Target) {
    && Started(s) && s.enabled == {} && s.rows == [OneRow(at)]
    && s.drivers == [Driver(at, "c", true, 1, [Known(0)], Exited)]
  }

  lemma {:induction false} OneIsPaused(s: State, at: Target)
    requires OnePaused(s, at)
    ensures Paused(s, at, [0])
  {
    assert IsPlan(s.rows, at, None, [0]);
  }

  lemma {:induction false} ReachPause(at: Target) returns (actions: seq<Action>)
    ensures OnePaused(Run(Init, actions), at)
  {
    actions := LiveStart(at);
    LiveSchedules(Run(Init, actions), at);
    RunMore(Init, actions, Drive(0, Fine));
    actions := actions + [Drive(0, Fine)];
    assert OneLive(Run(Init, actions), at, [OneRow(at)], [Known(0)], Scheduling);
    actions := RunTwo(actions, Drive(0, Fine), Switch(at, false));
    RunMore(Init, actions, Drive(0, Fine));
    actions := actions + [Drive(0, Fine)];
  }

  /** A crash, and all of the start that follows. */
  function Restart(at: Target): seq<Action> {
    var reclaim := Reclaim([Group(at, "c", [0])], false, Fine);
    [Crash, Startup(Fine)] + [reclaim, reclaim] + [reclaim, reclaim] + [reclaim]
  }

  lemma RunPair(s: State, actions: seq<Action>, a: Action, b: Action)
    ensures Run(s, actions + [a, b]) == Step(Step(Run(s, actions), a), b)
  {
    var first := actions + [a];
    assert actions + [a, b] == first + [b];
    RunMore(s, actions, a);
    RunMore(s, first, b);
  }

  /** A start under way with the one row and the layer off. */
  function OneStarting(at: Target, status: Status, boot: Boot, log: seq<Event>): State {
    State([OneRow(at).(status := status)], [], {}, true, true, log, boot)
  }

  lemma {:induction false} RestartLists(s: State, at: Target)
    requires OnePaused(s, at)
    ensures var reclaim := Reclaim([Group(at, "c", [0])], false, Fine);
            var t := Step(Step(s, Crash), Startup(Fine));
            Step(Step(t, reclaim), reclaim) == OneStarting(at, Pending, Discarding([0], []), s.log)
  {
    var reclaim := Reclaim([Group(at, "c", [0])], false, Fine);
    var t := Step(Step(s, Crash), Startup(Fine));
    assert t == OneStarting(at, Pending, Listing, s.log);
    OneListing(at, OneRow(at));
    assert Step(t, reclaim) == OneStarting(at, Pending, Reclaiming([Group(at, "c", [0])]), s.log);
    assert [Group(at, "c", [0])][1..] == [];
  }

  lemma {:induction false} RestartDiscards(at: Target, reclaim: Action, log: seq<Event>)
    requires reclaim.Reclaim? && reclaim.e == Fine
    ensures var t := OneStarting(at, Pending, Discarding([0], []), log);
            && Step(Step(t, reclaim), reclaim) == OneStarting(at, Skipped, Reclaiming([]), log)
            && Step(OneStarting(at, Skipped, Reclaiming([]), log), reclaim) == OneStarting(at, Skipped, Done, log)
  {
    var t := OneStarting(at, Pending, Discarding([0], []), log);
    assert [0 as RowId][1..] == [] && t.rows[0 := OneRow(at).(status := Skipped)] == [OneRow(at).(status := Skipped)];
    assert Step(t, reclaim) == OneStarting(at, Skipped, Discarding([], []), log);
  }

  lemma {:induction false} RestartRetires(s: State, at: Target)
    requires OnePaused(s, at)
    ensures Run(s, Restart(at)) == OneStarting(at, Skipped, Done, s.log)
  {
    var reclaim := Reclaim([Group(at, "c", [0])], false, Fine);
    var first := [Crash, Startup(Fine)];
    assert [] + first == first;
    RunPair(s, [], Crash, Startup(Fine));
    RunPair(s, first, reclaim, reclaim);
    RestartLists(s, at);
    RunPair(s, first + [reclaim, reclaim], reclaim, reclaim);
    RunMore(s, first + [reclaim, reclaim] + [reclaim, reclaim], reclaim);
    RestartDiscards(at, reclaim, s.log);
  }

  /** One restart with the layer off loses a plan that was paused to be resumed. */
  lemma {:induction false} RestartLosesThePlan(at: Target) returns (before: seq<Action>)
    ensures var s, t := Run(Init, before), Run(Run(Init, before), Restart(at));
            && Paused(s, at, [0]) && AllElsewhere(s, Restart(at), at)
            && !IsPlan(t.rows, at, None, [0]) && IsPlan(t.rows, at, None, [])
  {
    before := ReachPause(at);
    var s := Run(Init, before);
    OneIsPaused(s, at);
    RestartRetires(s, at);
    StartsAreElsewhere(s, Restart(at), at);
    assert !InPlan(Run(s, Restart(at)).rows, at, None, 0);
    assert [0 as RowId][0] == 0;
  }

  lemma {:induction false} StartsAreElsewhere(s: State, actions: seq<Action>, at: Target)
    requires forall a :: a in actions ==> a.Crash? || a.Startup? || a.Reclaim?
    ensures AllElsewhere(s, actions, at)
  {
    if actions != [] {
      StartsAreElsewhere(s, actions[..|actions| - 1], at);
      assert actions[|actions| - 1] in actions;
    }
  }
}
