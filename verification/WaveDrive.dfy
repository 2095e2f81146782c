/**
  What a driver gets done. Whatever the other drivers, loops and switches do between its
  steps, a driver that nothing disturbs fires its waves in order, records each with the
  outcome of its fetch and comes to an end: a live one at the first failed fetch, a
  reclaim driver after its last wave.
 */
module WaveDrive {
  import opened Common
  import opened WaveLedger
  import opened WavePause

  /** The rows a driver has, known or not. */
  ghost function Own(d: Driver): set<RowId> {
    set slot | slot in d.ids && !slot.NoRow? :: slot.id
  }

  /** The fetches made for these rows, in order. */
  ghost function Firings(log: seq<Event>, own: set<RowId>): seq<RowId> {
    if log == [] then [] else
    var last := log[|log| - 1];
    Firings(log[..|log| - 1], own) + if last.Fired? && last.id in own then [last.id] else []
  }

  lemma {:induction false} FiringsMore(log: seq<Event>, own: set<RowId>, x: Event)
    ensures Firings(log + [x], own) == Firings(log, own) + if x.Fired? && x.id in own then [x.id] else []
  {
    assert (log + [x])[..|log|] == log;
  }

  lemma {:induction false} FiringsOfFewer(log: seq<Event>, own: set<RowId>, id: RowId)
    requires forall x :: x in log ==> x.id != id
    ensures Firings(log, own + {id}) == Firings(log, own)
  {
    if log != [] {
      assert log[|log| - 1] in log;
      FiringsOfFewer(log[..|log| - 1], own, id);
    }
  }

  lemma {:induction false} NoneOwnNoFirings(log: seq<Event>)
    ensures Firings(log, {}) == []
  {
    if log != [] {
      NoneOwnNoFirings(log[..|log| - 1]);
    }
  }

  // ----- The run

  /**
    Nothing disturbs the driver in this step: the process lives, the layer stays on, its
    own calls succeed and are not cancelled, its rows are not superseded, and no second
    driver is given them, which a resume does only before it has entered or after its end.
   */
  ghost predicate Undisturbed(s: State, a: Action, k: nat)
    requires k < |s.drivers|
  {
    var d := s.drivers[k];
    match a
    case Crash => false
    case Switch(at, on) => at == d.at ==> on
    case Supersede(at, keep, e) => at == d.at ==> forall id :: id in Own(d) && id < |s.rows| ==> s.rows[id].cycle == keep
    case Resume(at, plan) => at == d.at ==> Active(d) || d.ids == []
    case Drive(j, e) => j == k ==> !e.dbErr && !e.cancelled
    case _ => true
  }

  ghost predicate AllUndisturbed(s: State, actions: seq<Action>, k: nat) {
    forall n: nat :: n < |actions| ==>
      var before := Run(s, actions[..n]);
      k < |before.drivers| && Undisturbed(before, actions[n], k)
  }

  function OwnSteps(actions: seq<Action>, k: nat): nat {
    if actions == [] then 0 else
    var last := actions[|actions| - 1];
    OwnSteps(actions[..|actions| - 1], k) + if last.Drive? && last.k == k then 1 else 0
  }

  /** The outcomes of the driver's fetches, in order. */
  ghost function Fetches(s: State, actions: seq<Action>, k: nat): seq<bool> {
    if actions == [] then [] else
    var init, last := actions[..|actions| - 1], actions[|actions| - 1];
    Fetches(s, init, k) + Fetched(Run(s, init), last, k)
  }

  ghost function Fetched(s: State, a: Action, k: nat): seq<bool> {
    if a.Drive? && a.k == k && k < |s.drivers| && s.drivers[k].pc.Fetching? then [a.e.fetchOk] else []
  }

  // ----- Rows that are the driver's alone

  ghost predicate InBoot(boot: Boot, id: RowId) {
    match boot
    case Done => false
    case Listing => false
    case Reclaiming(left) => InGroups(left, id)
    case Discarding(ids, left) => id in ids || InGroups(left, id)
  }

  /** The other driver is at its end, or has none of the rows. */
  ghost predicate Apart(d: Driver, other: Driver) {
    other.pc.Exited? || Own(other) !! Own(d)
  }

  /** Rows that drivers, the start or the log know of are in the store. */
  ghost predicate Stored(s: State) {
    AllOwn(s) && BootOwns(s.boot, s.rows) && forall x :: x in s.log ==> x.id < |s.rows|
  }

  /** Nobody else who is still at work has the driver's rows. */
  ghost predicate Sole(s: State, k: nat) {
    && k < |s.drivers| && s.up && Stored(s)
    && !s.boot.Listing? && (s.drivers[k].live ==> s.boot.Done?)
    && (forall j: nat :: j < |s.drivers| && j != k ==> Apart(s.drivers[k], s.drivers[j]))
    && (forall id :: id in Own(s.drivers[k]) ==> !InBoot(s.boot, id))
  }

  // ----- Steps of others

  ghost predicate LogBeside(before: seq<Event>, after: seq<Event>, own: set<RowId>) {
    after == before || exists x: Event :: x.id !in own && after == before + [x]
  }

  /** The step left the driver, its rows and the record of its fetches as they were. */
  ghost predicate Beside(s: State, t: State, k: nat)
    requires k < |s.drivers|
  {
    && k < |t.drivers| && t.drivers[k] == s.drivers[k]
    && |s.rows| <= |t.rows|
    && (forall id :: id in Own(s.drivers[k]) && id < |s.rows| ==> t.rows[id] == s.rows[id])
    && LogBeside(s.log, t.log, Own(s.drivers[k]))
  }

  lemma {:induction false} BesideFirings(before: seq<Event>, after: seq<Event>, own: set<RowId>)
    requires LogBeside(before, after, own)
    ensures Firings(after, own) == Firings(before, own)
  {
    if after != before {
      var x: Event :| x.id !in own && after == before + [x];
      FiringsMore(before, own, x);
    }
  }

  lemma OwnMore(d: Driver, slot: Slot)
    ensures Own(d.(ids := d.ids + [slot])) == Own(d) + if slot.NoRow? then {} else {slot.id}
  {
    var more := d.(ids := d.ids + [slot]);
    forall id | id in Own(d) ensures id in Own(more) {
      var x :| x in d.ids && !x.NoRow? && x.id == id;
      assert x in more.ids;
    }
    assert slot in more.ids;
  }

  lemma OwnIs(d: Driver, i: nat)
    requires i < |d.ids| && !d.ids[i].NoRow?
    ensures d.ids[i].id in Own(d)
  {
    assert d.ids[i] in d.ids;
  }

  lemma OwnsOwn(d: Driver, rows: seq<Row>, id: RowId)
    requires Owns(d, rows) && id in Own(d)
    ensures id < |rows| && rows[id].at == d.at
  {
    var slot :| slot in d.ids && !slot.NoRow? && slot.id == id;
    var i :| 0 <= i < |d.ids| && d.ids[i] == slot;
  }

  /** A driver's step logs nothing, a row of its own, or one that it adds. */
  ghost predicate LogsOwn(d: Driver, s: State, t: State) {
    t.log == s.log
    || exists x: Event :: t.log == s.log + [x] && (x.id in Own(d) || (x.id == |s.rows| && |s.rows| < |t.rows|))
  }

  lemma {:induction false} MarkLogs(s: State, k: nat, i: nat, e: Env)
    requires k < |s.drivers| && i < |s.drivers[k].ids|
    ensures LogsOwn(s.drivers[k], s, MarkStep(s, k, i, e))
  {
    var d := s.drivers[k];
    if d.ids[i].Known? {
      OwnIs(d, i);
      assert Doubted(d.ids[i].id).id in Own(d);
    }
  }

  lemma {:induction false} FireLogs(s: State, k: nat, i: nat, e: Env)
    requires k < |s.drivers| && i < |s.drivers[k].ids|
    ensures LogsOwn(s.drivers[k], s, FireStep(s, k, i, e))
  {
    var d := s.drivers[k];
    if !d.ids[i].NoRow? {
      OwnIs(d, i);
      assert Fired(d.ids[i].id).id in Own(d);
    }
  }

  lemma {:induction false} ScheduleLogs(s: State, k: nat, e: Env)
    requires k < |s.drivers|
    ensures LogsOwn(s.drivers[k], s, ScheduleOne(s, k, e))
  {
    assert Doubted(|s.rows|).id == |s.rows|;
  }

  lemma {:induction false} DriverLogs(s: State, k: nat, e: Env)
    requires k < |s.drivers|
    ensures LogsOwn(s.drivers[k], s, DriverStep(s, k, e))
  {
    var d := s.drivers[k];
    if d.pc.Scheduling? {
      ScheduleLogs(s, k, e);
    } else if d.pc.Marking? && d.pc.i < |d.ids| {
      MarkLogs(s, k, d.pc.i, e);
    } else if d.pc.Marked? && d.pc.i < |d.ids| {
      FireLogs(s, k, d.pc.i, e);
    }
  }

  lemma {:induction false} StepStored(s: State, a: Action)
    requires Stored(s)
    ensures Stored(Step(s, a))
  {
    var t := Step(s, a);
    StepOwns(s, a);
    StepBootOwns(s, a);
    if t.log != s.log {
      assert a.Drive? && t == DriverStep(s, a.k, a.e);
      DriverLogs(s, a.k, a.e);
      var x: Event :| t.log == s.log + [x] && (x.id in Own(s.drivers[a.k]) || (x.id == |s.rows| && |s.rows| < |t.rows|));
      if x.id in Own(s.drivers[a.k]) {
        OwnsOwn(s.drivers[a.k], s.rows, x.id);
      }
    }
  }

  lemma {:induction false} RunStored(actions: seq<Action>)
    ensures Stored(Run(Init, actions))
  {
    if actions != [] {
      RunStored(actions[..|actions| - 1]);
      StepStored(Run(Init, actions[..|actions| - 1]), actions[|actions| - 1]);
    }
  }

  lemma {:induction false} TouchedBeside(d: Driver, r: seq<Row>, t: seq<Row>, id: RowId)
    requires Touches(d, r, t) && id !in Own(d) && id < |r|
    ensures |r| <= |t| && t[id] == r[id]
  {
    if i, status :| 0 <= i < |d.ids| && d.ids[i].Known? && t == Set(r, d.ids[i].id, status) {
      OwnIs(d, i);
    }
  }

  lemma {:induction false} OtherDrives(s: State, k: nat, j: nat, e: Env)
    requires Sole(s, k) && j < |s.drivers| && j != k
    ensures Beside(s, DriverStep(s, j, e), k) && Sole(DriverStep(s, j, e), k)
  {
    var t, d, other := DriverStep(s, j, e), s.drivers[k], s.drivers[j];
    if other.pc.Exited? {
      assert t == s;
    } else {
      DriverStepAlone(s, j, e);
      OtherTouches(s, k, j, e);
      StepStored(s, Drive(j, e));
      assert Step(s, Drive(j, e)) == t;
      OtherOwn(s, k, j, e);
      assert Apart(d, other);
    }
  }

  lemma {:induction false} OtherTouches(s: State, k: nat, j: nat, e: Env)
    requires Sole(s, k) && j < |s.drivers| && j != k && !s.drivers[j].pc.Exited?
    ensures Beside(s, DriverStep(s, j, e), k)
  {
    var t, d, other := DriverStep(s, j, e), s.drivers[k], s.drivers[j];
    assert Apart(d, other);
    DriverStepAlone(s, j, e);
    DriverStepTouches(s, j, e);
    DriverStepOwns(s, j, e);
    forall id | id in Own(d) && id < |s.rows| ensures t.rows[id] == s.rows[id] {
      TouchedBeside(other, s.rows, t.rows, id);
    }
    DriverLogs(s, j, e);
    if t.log != s.log {
      var x: Event :| t.log == s.log + [x] && (x.id in Own(other) || (x.id == |s.rows| && |s.rows| < |t.rows|));
      if x.id in Own(d) {
        OwnsOwn(d, s.rows, x.id);
      }
    }
  }

  lemma {:induction false} OtherOwn(s: State, k: nat, j: nat, e: Env)
    requires Sole(s, k) && j < |s.drivers| && j != k && !s.drivers[j].pc.Exited?
    requires |DriverStep(s, j, e).drivers| == |s.drivers|
    ensures Apart(s.drivers[k], DriverStep(s, j, e).drivers[j])
  {
    var t, d, other := DriverStep(s, j, e), s.drivers[k], s.drivers[j];
    assert Apart(d, other);
    DriverStepMoves(s, j, e);
    if t == ScheduleOne(s, j, e) {
      OwnMore(other, Inserted(|s.rows|, e));
      if |s.rows| in Own(d) {
        OwnsOwn(d, s.rows, |s.rows|);
      }
    } else {
      assert t.drivers[j].ids == other.ids;
    }
  }

  lemma {:induction false} OwnGiven(at: Target, cycle: string, waves: nat, plan: seq<RowId>)
    ensures forall id :: id in Own(Driver(at, cycle, false, waves, Given(plan), New)) <==> id in plan
  {
    var d := Driver(at, cycle, false, waves, Given(plan), New);
    forall id | id in plan ensures id in Own(d) {
      var i :| 0 <= i < |plan| && plan[i] == id;
      OwnIs(d, i);
    }
    forall id | id in Own(d) ensures id in plan {
      var slot :| slot in d.ids && !slot.NoRow? && slot.id == id;
      var i :| 0 <= i < |d.ids| && d.ids[i] == slot;
      assert plan[i] == id;
    }
  }

  lemma {:induction false} SpawnBeside(s: State, d: Driver, k: nat)
    requires Sole(s, k) && Stored(Spawn(s, d)) && Own(d) !! Own(s.drivers[k])
    ensures Beside(s, Spawn(s, d), k) && Sole(Spawn(s, d), k)
  {
    var t := Spawn(s, d);
    forall j: nat | j < |t.drivers| && j != k ensures Apart(t.drivers[k], t.drivers[j]) {
      assert j < |s.drivers| ==> Apart(s.drivers[k], s.drivers[j]);
    }
  }

  lemma {:induction false} ResumeBeside(s: State, k: nat, at: Target, plan: seq<RowId>)
    requires Sole(s, k) && Undisturbed(s, Resume(at, plan), k)
    ensures var t := Step(s, Resume(at, plan)); Beside(s, t, k) && Sole(t, k)
  {
    var t, d, next := Step(s, Resume(at, plan)), s.drivers[k], Driver(at, "", false, |plan|, Given(plan), New);
    if t != s {
      StepStored(s, Resume(at, plan));
      OwnGiven(at, "", |plan|, plan);
      forall id | id in Own(next) ensures id !in Own(d) {
        var i :| 0 <= i < |plan| && plan[i] == id;
        assert InPlan(s.rows, at, None, plan[i]);
        if id in Own(d) {
          OwnsOwn(d, s.rows, id);
        }
      }
      SpawnBeside(s, next, k);
    }
  }

  lemma {:induction false} ReclaimBeside(s: State, k: nat, groups: seq<Group>, malformed: bool, e: Env)
    requires Sole(s, k)
    ensures var t := Step(s, Reclaim(groups, malformed, e)); Beside(s, t, k) && Sole(t, k)
  {
    var t, d := Step(s, Reclaim(groups, malformed, e)), s.drivers[k];
    StepStored(s, Reclaim(groups, malformed, e));
    match s.boot
    case Done =>
    case Reclaiming(left) =>
      if left != [] {
        GroupBeside(s, k, malformed);
      }
    case Discarding(ids, left) =>
      if ids != [] {
        assert InBoot(s.boot, ids[0]);
        forall id | InBoot(t.boot, id) ensures InBoot(s.boot, id) {
        }
      }
  }

  lemma {:induction false} GroupBeside(s: State, k: nat, malformed: bool)
    requires Sole(s, k) && s.boot.Reclaiming? && s.boot.left != []
    requires Stored(ReclaimGroup(s, s.boot.left[0], s.boot.left[1..], malformed))
    ensures var t := ReclaimGroup(s, s.boot.left[0], s.boot.left[1..], malformed); Beside(s, t, k) && Sole(t, k)
  {
    var left := s.boot.left;
    var t, g := ReclaimGroup(s, left[0], left[1..], malformed), left[0];
    var next := Driver(g.at, g.cycle, false, |g.plan|, Given(g.plan), New);
    assert g in left;
    forall id | InBoot(t.boot, id) ensures InBoot(s.boot, id) {
      if h :| h in left[1..] && id in h.plan {
        assert h in left;
      }
    }
    OwnGiven(g.at, g.cycle, |g.plan|, g.plan);
    forall id | id in Own(next) ensures id !in Own(s.drivers[k]) {
      assert InBoot(s.boot, id);
    }
    if t.drivers != s.drivers {
      assert t == Spawn(s, next).(boot := t.boot);
      forall j: nat | j < |t.drivers| && j != k ensures Apart(t.drivers[k], t.drivers[j]) {
        assert j < |s.drivers| ==> Apart(s.drivers[k], s.drivers[j]);
      }
    }
  }

  lemma {:induction false} SupersedeBeside(s: State, k: nat, at: Target, keep: string, e: Env)
    requires Sole(s, k) && Undisturbed(s, Supersede(at, keep, e), k)
    ensures var t := Step(s, Supersede(at, keep, e)); Beside(s, t, k) && Sole(t, k)
  {
    var t, d := Step(s, Supersede(at, keep, e)), s.drivers[k];
    StepStored(s, Supersede(at, keep, e));
    forall id | id in Own(d) && id < |s.rows| ensures t.rows[id] == s.rows[id] {
      OwnsOwn(d, s.rows, id);
    }
  }

  /** Whatever others do leaves the driver alone with its rows. */
  lemma {:induction false} OthersBeside(s: State, a: Action, k: nat)
    requires Sole(s, k) && (Undisturbed(s, a, k) || a.Switch?) && !(a.Drive? && a.k == k)
    ensures Beside(s, Step(s, a), k) && Sole(Step(s, a), k)
    ensures Undisturbed(s, a, k) && s.drivers[k].at in s.enabled ==> s.drivers[k].at in Step(s, a).enabled
  {
    StepStored(s, a);
    match a
    case Switch(at, on) =>
    case Startup(e) =>
    case Reclaim(groups, malformed, e) => ReclaimBeside(s, k, groups, malformed, e);
    case Supersede(at, keep, e) => SupersedeBeside(s, k, at, keep, e);
    case Begin(at, cycle, waves) =>
      if Started(s) {
        SpawnBeside(s, Driver(at, cycle, true, waves, [], New), k);
      }
    case Resume(at, plan) => ResumeBeside(s, k, at, plan);
    case Drive(j, e) =>
      if j < |s.drivers| {
        DriverStepAlone(s, j, e);
        OtherDrives(s, k, j, e);
      }
  }

  // ----- How far the driver is

  ghost predicate AllKnown(ids: seq<Slot>) {
    forall j :: 0 <= j < |ids| ==> ids[j].Known?
  }

  ghost predicate Distinct(ids: seq<Slot>) {
    forall i, j :: 0 <= i < j < |ids| ==> ids[i] != ids[j]
  }

  /** The rows of the first n waves, in order. */
  ghost function FirstRows(ids: seq<Slot>, n: nat): (r: seq<RowId>)
    requires n <= |ids| && AllKnown(ids)
    ensures |r| == n && forall j :: 0 <= j < n ==> r[j] == ids[j].id
  {
    seq(n, j requires 0 <= j < n => ids[j].id)
  }

  /** The status of the driver's j-th wave, after fetches with these outcomes. */
  ghost function StatusOf(d: Driver, oks: seq<bool>, j: nat): Status {
    if j < |oks| then if oks[j] then Status.Ok else Fail
    else if j == |oks| && (d.pc.Marked? || d.pc.Fetching?) then Running
    else Pending
  }

  /** The rows of a live driver are those of its cycle, numbered from one. */
  ghost predicate WaveRow(s: State, d: Driver, oks: seq<bool>, j: nat)
    requires j < |d.ids|
  {
    && d.ids[j].Known? && d.ids[j].id < |s.rows|
    && s.rows[d.ids[j].id].at == d.at
    && s.rows[d.ids[j].id].status == StatusOf(d, oks, j)
    && (d.live ==> s.rows[d.ids[j].id].cycle == d.cycle && s.rows[d.ids[j].id].wave == j + 1)
  }

  /** The driver is where fetches with these outcomes bring it. */
  ghost predicate PcFits(d: Driver, oks: seq<bool>) {
    match d.pc
    case New => oks == [] && (d.live ==> d.ids == [])
    case Scheduling => oks == [] && d.live && |d.ids| <= d.waves
    case Retiring(_) => false
    case AtWave(i) => i == |oks| <= |d.ids| && (d.live ==> AllOk(oks) && |d.ids| == d.waves)
    case Marking(i) => i == |oks| < |d.ids| && (d.live ==> AllOk(oks) && |d.ids| == d.waves)
    case Marked(i) => i == |oks| < |d.ids| && (d.live ==> AllOk(oks) && |d.ids| == d.waves)
    case Fetching(i) => i == |oks| < |d.ids| && (d.live ==> AllOk(oks) && |d.ids| == d.waves)
    case Exited => Ended(d, oks)
  }

  ghost predicate AllOk(oks: seq<bool>) {
    forall j :: 0 <= j < |oks| ==> oks[j]
  }

  /**
    How a driver ends: a reclaim driver has fetched for every wave, a live one until a
    fetch failed.
   */
  ghost predicate Ended(d: Driver, oks: seq<bool>) {
    if d.live then
      && |oks| <= |d.ids| == d.waves
      && (if |oks| == 0 || oks[|oks| - 1] then |oks| == d.waves && AllOk(oks) else AllOk(oks[..|oks| - 1]))
    else |oks| == |d.ids|
  }

  ghost function FiredWaves(d: Driver, oks: seq<bool>): nat {
    |oks| + if d.pc.Fetching? then 1 else 0
  }

  /** The driver is as fetches with these outcomes leave it, and the fetches were for its first waves, in order. */
  ghost predicate Driven(s: State, k: nat, before: seq<RowId>, oks: seq<bool>) {
    && k < |s.drivers|
    && var d := s.drivers[k];
    && PcFits(d, oks) && AllKnown(d.ids) && Distinct(d.ids)
    && (forall j: nat :: j < |d.ids| ==> WaveRow(s, d, oks, j))
    && FiredWaves(d, oks) <= |d.ids|
    && Firings(s.log, Own(d)) == before + FirstRows(d.ids, FiredWaves(d, oks))
    && (d.live ==> before == [])
    && d.at in s.enabled
  }

  /** What the driver still has to do, in steps of its own. */
  ghost function Left(d: Driver): int {
    var n := if d.live then d.waves else |d.ids|;
    match d.pc
    case New => if d.live then 5 * n + 3 else 4 * n + 2
    case Scheduling => (n - |d.ids|) + 4 * n + 2
    case Retiring(i) => 0
    case AtWave(i) => 4 * (n - i) + 1
    case Marking(i) => 4 * (n - i)
    case Marked(i) => 4 * (n - i) - 1
    case Fetching(i) => 4 * (n - i) - 2
    case Exited => 0
  }

  lemma {:induction false} BesideDriven(s: State, t: State, k: nat, before: seq<RowId>, oks: seq<bool>)
    requires Driven(s, k, before, oks) && Beside(s, t, k) && s.drivers[k].at in t.enabled
    ensures Driven(t, k, before, oks)
  {
    var d := s.drivers[k];
    BesideFirings(s.log, t.log, Own(d));
    forall j: nat | j < |d.ids| ensures WaveRow(t, d, oks, j) {
      assert WaveRow(s, d, oks, j);
      OwnIs(d, j);
    }
  }

  // ----- The driver's own steps

  lemma {:induction false} OwnStepSole(s: State, k: nat, e: Env)
    requires Sole(s, k) && (s.drivers[k].live || !s.drivers[k].pc.Scheduling?)
    ensures Sole(DriverStep(s, k, e), k)
  {
    var t, d := DriverStep(s, k, e), s.drivers[k];
    StepStored(s, Drive(k, e));
    assert Step(s, Drive(k, e)) == t;
    DriverStepAlone(s, k, e);
    OwnStepRows(s, k, e);
    forall j: nat | j < |t.drivers| && j != k ensures Apart(t.drivers[k], t.drivers[j]) {
      assert Apart(d, s.drivers[j]);
      if |s.rows| in Own(s.drivers[j]) {
        OwnsOwn(s.drivers[j], s.rows, |s.rows|);
      }
    }
  }

  lemma {:induction false} OwnStepRows(s: State, k: nat, e: Env)
    requires k < |s.drivers|
    ensures var t, d := DriverStep(s, k, e), s.drivers[k];
            && |t.drivers| == |s.drivers| && t.drivers[k].live == d.live
            && Own(t.drivers[k]) <= Own(d) + {|s.rows|}
            && (!d.pc.Scheduling? ==> t.drivers[k].ids == d.ids)
  {
    var t, d := DriverStep(s, k, e), s.drivers[k];
    if d.pc.Scheduling? {
      OwnMore(d, Inserted(|s.rows|, e));
    } else if d.pc.Retiring? || d.pc.Marking? || d.pc.Marked? || d.pc.Fetching? {
      StoreStepMoves(s, k, e);
    }
  }

  /** The driver is at another point, and nothing else has changed. */
  ghost predicate JustMoved(s: State, t: State, k: nat)
    requires k < |s.drivers|
  {
    && |t.drivers| == |s.drivers| && t.drivers[k] == s.drivers[k].(pc := t.drivers[k].pc)
    && t.rows == s.rows && t.log == s.log && t.enabled == s.enabled
  }

  lemma {:induction false} MovedDriven(s: State, t: State, k: nat, before: seq<RowId>, oks: seq<bool>)
    requires Driven(s, k, before, oks) && JustMoved(s, t, k) && PcFits(t.drivers[k], oks)
    requires !s.drivers[k].pc.Marked? && !s.drivers[k].pc.Fetching?
    requires !t.drivers[k].pc.Marked? && !t.drivers[k].pc.Fetching?
    ensures Driven(t, k, before, oks)
  {
    var d := t.drivers[k];
    assert d.ids == s.drivers[k].ids;
    assert Own(d) == Own(s.drivers[k]);
    forall j: nat | j < |d.ids| ensures WaveRow(t, d, oks, j) {
      assert WaveRow(s, s.drivers[k], oks, j);
    }
  }

  lemma {:induction false} QuietDriven(s: State, k: nat, e: Env, before: seq<RowId>, oks: seq<bool>)
    requires Driven(s, k, before, oks) && !e.dbErr && !e.cancelled
    requires s.drivers[k].pc.New? || s.drivers[k].pc.AtWave? || s.drivers[k].pc.Exited?
             || (s.drivers[k].pc.Scheduling? && |s.drivers[k].ids| >= s.drivers[k].waves)
    ensures var t := DriverStep(s, k, e); Driven(t, k, before, oks) && (Left(t.drivers[k]) < Left(s.drivers[k]) || s.drivers[k].pc.Exited?)
  {
    var t := DriverStep(s, k, e);
    assert JustMoved(s, t, k);
    MovedDriven(s, t, k, before, oks);
  }

  lemma {:induction false} ScheduleDriven(s: State, k: nat, e: Env, before: seq<RowId>, oks: seq<bool>)
    requires Driven(s, k, before, oks) && Stored(s) && !e.dbErr
    requires s.drivers[k].pc.Scheduling? && |s.drivers[k].ids| < s.drivers[k].waves
    ensures var t := DriverStep(s, k, e); Driven(t, k, before, oks) && Left(t.drivers[k]) < Left(s.drivers[k])
  {
    var t, d := DriverStep(s, k, e), s.drivers[k];
    var after := t.drivers[k];
    OwnMore(d, Known(|s.rows|));
    FiringsOfFewer(s.log, Own(d), |s.rows|);
    forall j: nat | j < |after.ids| ensures WaveRow(t, after, oks, j) {
      if j < |d.ids| {
        assert WaveRow(s, d, oks, j);
      }
    }
    assert FirstRows(after.ids, 0) == FirstRows(d.ids, 0);
    forall j: nat | j < |d.ids| ensures after.ids[j] != after.ids[|d.ids|] {
      assert WaveRow(s, d, oks, j);
    }
  }

  /** One row of the driver's has a new status, and the driver is at another point. */
  ghost predicate RowMoved(s: State, t: State, k: nat, i: nat, status: Status)
    requires k < |s.drivers| && i < |s.drivers[k].ids| && s.drivers[k].ids[i].Known?
  {
    && |t.drivers| == |s.drivers| && t.drivers[k] == s.drivers[k].(pc := t.drivers[k].pc)
    && t.rows == Set(s.rows, s.drivers[k].ids[i].id, status) && t.log == s.log && t.enabled == s.enabled
  }

  lemma {:induction false} RowMovedDriven(s: State, t: State, k: nat, before: seq<RowId>, oks: seq<bool>, after: seq<bool>)
    requires Driven(s, k, before, oks) && |oks| < |s.drivers[k].ids|
    requires |s.drivers[k].ids| > |oks| && s.drivers[k].ids[|oks|].Known?
    requires k < |t.drivers| && RowMoved(s, t, k, |oks|, StatusOf(t.drivers[k], after, |oks|))
    requires PcFits(t.drivers[k], after) && FiredWaves(t.drivers[k], after) == FiredWaves(s.drivers[k], oks)
    requires |oks| <= |after| && after[..|oks|] == oks
    requires forall j: nat :: |oks| < j < |s.drivers[k].ids| ==> StatusOf(t.drivers[k], after, j) == Pending
    ensures Driven(t, k, before, after)
  {
    var i, d := |oks|, t.drivers[k];
    assert d.ids == s.drivers[k].ids;
    assert Own(d) == Own(s.drivers[k]);
    forall j: nat | j < |d.ids| ensures WaveRow(t, d, after, j) {
      assert WaveRow(s, s.drivers[k], oks, j);
      if j < i {
        assert after[j] == oks[j];
      }
    }
  }

  lemma {:induction false} MarkDriven(s: State, k: nat, e: Env, before: seq<RowId>, oks: seq<bool>)
    requires Driven(s, k, before, oks) && s.drivers[k].pc.Marking? && !e.dbErr && !e.cancelled
    ensures var t := DriverStep(s, k, e); Driven(t, k, before, oks) && Left(t.drivers[k]) < Left(s.drivers[k])
  {
    var t := DriverStep(s, k, e);
    assert WaveRow(s, s.drivers[k], oks, |oks|);
    RowMovedDriven(s, t, k, before, oks, oks);
  }

  lemma {:induction false} ReportDriven(s: State, k: nat, e: Env, before: seq<RowId>, oks: seq<bool>)
    requires Driven(s, k, before, oks) && s.drivers[k].pc.Fetching? && !e.dbErr && !e.cancelled
    ensures var t := DriverStep(s, k, e);
            Driven(t, k, before, oks + [e.fetchOk]) && Left(t.drivers[k]) < Left(s.drivers[k])
  {
    var t := DriverStep(s, k, e);
    var after := oks + [e.fetchOk];
    assert WaveRow(s, s.drivers[k], oks, |oks|);
    assert after[..|oks|] == oks;
    RowMovedDriven(s, t, k, before, oks, after);
  }

  lemma {:induction false} FireDriven(s: State, k: nat, e: Env, before: seq<RowId>, oks: seq<bool>)
    requires Driven(s, k, before, oks) && s.drivers[k].pc.Marked? && !e.dbErr && !e.cancelled
    ensures var t := DriverStep(s, k, e); Driven(t, k, before, oks) && Left(t.drivers[k]) < Left(s.drivers[k])
  {
    var t := DriverStep(s, k, e);
    assert t == Move(Note(s, s.drivers[k].ids[|oks|]), k, Fetching(|oks|));
    OneMoreFired(s, k, before, oks);
    FiredDriven(s, t, k, before, oks);
  }

  lemma {:induction false} OneMoreFired(s: State, k: nat, before: seq<RowId>, oks: seq<bool>)
    requires Driven(s, k, before, oks) && s.drivers[k].pc.Marked?
    ensures Firings(s.log + [Fired(s.drivers[k].ids[|oks|].id)], Own(s.drivers[k])) == before + FirstRows(s.drivers[k].ids, |oks| + 1)
  {
    var d, i := s.drivers[k], |oks|;
    FiringsMore(s.log, Own(d), Fired(d.ids[i].id));
    OwnIs(d, i);
    assert FirstRows(d.ids, i) + [d.ids[i].id] == FirstRows(d.ids, i + 1);
    assert before + FirstRows(d.ids, i) + [d.ids[i].id] == before + (FirstRows(d.ids, i) + [d.ids[i].id]);
  }

  lemma {:induction false} FiredDriven(s: State, t: State, k: nat, before: seq<RowId>, oks: seq<bool>)
    requires Driven(s, k, before, oks) && s.drivers[k].pc.Marked?
    requires |t.drivers| == |s.drivers| && t.drivers[k] == s.drivers[k].(pc := Fetching(|oks|))
    requires t.rows == s.rows && t.enabled == s.enabled
    requires Firings(t.log, Own(s.drivers[k])) == before + FirstRows(s.drivers[k].ids, |oks| + 1)
    ensures Driven(t, k, before, oks)
  {
    var d, after := s.drivers[k], t.drivers[k];
    assert after.ids == d.ids && Own(after) == Own(d);
    forall j: nat | j < |d.ids| ensures WaveRow(t, after, oks, j) {
      assert WaveRow(s, d, oks, j);
    }
  }

  /** An own step of an undisturbed driver brings it on. */
  lemma {:induction false} OwnStepDriven(s: State, k: nat, e: Env, before: seq<RowId>, oks: seq<bool>)
    requires Sole(s, k) && Driven(s, k, before, oks) && !e.dbErr && !e.cancelled
    ensures var t := Step(s, Drive(k, e));
            && Sole(t, k) && Driven(t, k, before, oks + Fetched(s, Drive(k, e), k))
            && (Left(t.drivers[k]) < Left(s.drivers[k]) || (s.drivers[k].pc.Exited? && t.drivers[k].pc.Exited?))
  {
    var d := s.drivers[k];
    OwnStepSole(s, k, e);
    assert oks + [] == oks;
    if d.pc.Fetching? {
      ReportDriven(s, k, e, before, oks);
    } else if d.pc.Marking? {
      MarkDriven(s, k, e, before, oks);
    } else if d.pc.Marked? {
      FireDriven(s, k, e, before, oks);
    } else if d.pc.Scheduling? && |d.ids| < d.waves {
      ScheduleDriven(s, k, e, before, oks);
    } else {
      QuietDriven(s, k, e, before, oks);
    }
  }

  // ----- Whole runs

  /** While nothing disturbs it, the driver is where its fetches have brought it, and each own step brings it on. */
  lemma {:induction false} RunDriven(s: State, actions: seq<Action>, k: nat, before: seq<RowId>)
    requires Sole(s, k) && Driven(s, k, before, []) && AllUndisturbed(s, actions, k)
    ensures var t := Run(s, actions);
            && Sole(t, k) && Driven(t, k, before, Fetches(s, actions, k))
            && (t.drivers[k].pc.Exited? || Left(t.drivers[k]) + OwnSteps(actions, k) <= Left(s.drivers[k]))
  {
    if actions != [] {
      var init, last := actions[..|actions| - 1], actions[|actions| - 1];
      InitUndisturbed(s, actions, k);
      RunDriven(s, init, k, before);
      StepDriven(Run(s, init), last, k, before, Fetches(s, init, k));
    }
  }

  lemma {:induction false} InitUndisturbed(s: State, actions: seq<Action>, k: nat)
    requires AllUndisturbed(s, actions, k) && actions != []
    ensures AllUndisturbed(s, actions[..|actions| - 1], k)
    ensures var b := Run(s, actions[..|actions| - 1]); k < |b.drivers| && Undisturbed(b, actions[|actions| - 1], k)
  {
    var init := actions[..|actions| - 1];
    forall n: nat | n < |init|
      ensures var b := Run(s, init[..n]); k < |b.drivers| && Undisturbed(b, init[n], k)
    {
      assert actions[..n] == init[..n] && actions[n] == init[n];
    }
  }

  lemma {:induction false} StepDriven(s: State, a: Action, k: nat, before: seq<RowId>, oks: seq<bool>)
    requires Sole(s, k) && Driven(s, k, before, oks) && Undisturbed(s, a, k)
    ensures var t := Step(s, a);
            && Sole(t, k) && Driven(t, k, before, oks + Fetched(s, a, k))
            && (t.drivers[k].pc.Exited?
                || Left(t.drivers[k]) + (if a.Drive? && a.k == k then 1 else 0) <= Left(s.drivers[k]))
  {
    if a.Drive? && a.k == k {
      OwnStepDriven(s, k, a.e, before, oks);
    } else {
      OthersBeside(s, a, k);
      BesideDriven(s, Step(s, a), k, before, oks);
      assert oks + [] == oks;
    }
  }

  /** The waves the fetches were for are finished, each with the outcome of its fetch, and the later ones still wait. */
  ghost predicate Recorded(s: State, ids: seq<Slot>, oks: seq<bool>) {
    AllKnown(ids) && Distinct(ids) && forall j: nat :: j < |ids| ==> RecordedAt(s, ids, oks, j)
  }

  ghost predicate RecordedAt(s: State, ids: seq<Slot>, oks: seq<bool>, j: nat)
    requires j < |ids| && AllKnown(ids)
  {
    && ids[j].id < |s.rows|
    && s.rows[ids[j].id].status == if j < |oks| then if oks[j] then Status.Ok else Fail else Pending
  }

  /** The driver's rows are its target's and its cycle's, numbered from one. */
  ghost predicate Numbered(s: State, d: Driver) {
    AllKnown(d.ids) && forall j: nat :: j < |d.ids| ==> NumberedAt(s, d, j)
  }

  ghost predicate NumberedAt(s: State, d: Driver, j: nat)
    requires j < |d.ids| && AllKnown(d.ids)
  {
    && d.ids[j].id < |s.rows|
    && var row := s.rows[d.ids[j].id]; row.at == d.at && row.cycle == d.cycle && row.wave == j + 1
  }

  /** Fetched in order were the first waves, as many as there were fetches, and no others. */
  ghost predicate FiredFirst(s: State, d: Driver, before: seq<RowId>, oks: seq<bool>) {
    AllKnown(d.ids) && |oks| <= |d.ids| && Firings(s.log, Own(d)) == before + FirstRows(d.ids, |oks|)
  }

  /** Every fetch worked, or the last one failed and no other. */
  ghost predicate UpToFailure(oks: seq<bool>, waves: nat) {
    if AllOk(oks) then |oks| == waves
    else |oks| <= waves && !oks[|oks| - 1] && AllOk(oks[..|oks| - 1])
  }

  lemma {:induction false} ExitedRecorded(s: State, k: nat, before: seq<RowId>, oks: seq<bool>)
    requires Driven(s, k, before, oks) && s.drivers[k].pc.Exited?
    ensures Recorded(s, s.drivers[k].ids, oks) && FiredFirst(s, s.drivers[k], before, oks)
  {
    var d := s.drivers[k];
    forall j: nat | j < |d.ids| ensures RecordedAt(s, d.ids, oks, j) {
      assert WaveRow(s, d, oks, j);
    }
  }

  lemma {:induction false} LiveNumbered(s: State, k: nat, before: seq<RowId>, oks: seq<bool>)
    requires Driven(s, k, before, oks) && s.drivers[k].live
    ensures Numbered(s, s.drivers[k])
  {
    var d := s.drivers[k];
    forall j: nat | j < |d.ids| ensures NumberedAt(s, d, j) {
      assert WaveRow(s, d, oks, j);
    }
  }

  /** What a driver is for does not change. */
  lemma {:induction false} RunKeepsPlan(s: State, actions: seq<Action>, k: nat, before: seq<RowId>)
    requires Sole(s, k) && Driven(s, k, before, []) && AllUndisturbed(s, actions, k)
    ensures var t := Run(s, actions);
            && k < |t.drivers| && SamePlan(s.drivers[k], t.drivers[k])
  {
    if actions != [] {
      var init, last := actions[..|actions| - 1], actions[|actions| - 1];
      InitUndisturbed(s, actions, k);
      RunKeepsPlan(s, init, k, before);
      RunDriven(s, init, k, before);
      StepKeepsPlan(Run(s, init), last, k, before, Fetches(s, init, k));
    }
  }

  ghost predicate SamePlan(d: Driver, e: Driver) {
    e.at == d.at && e.cycle == d.cycle && e.live == d.live && e.waves == d.waves && (!d.live ==> e.ids == d.ids)
  }

  lemma {:induction false} StepKeepsPlan(s: State, a: Action, k: nat, before: seq<RowId>, oks: seq<bool>)
    requires Sole(s, k) && Driven(s, k, before, oks) && Undisturbed(s, a, k)
    ensures k < |Step(s, a).drivers| && SamePlan(s.drivers[k], Step(s, a).drivers[k])
  {
    if a.Drive? && a.k == k {
      DriverStepMoves(s, k, a.e);
    } else {
      OthersBeside(s, a, k);
    }
  }

  lemma {:induction false} BeginsSole(s: State, at: Target, cycle: string, waves: nat)
    requires Stored(s) && Started(s)
    ensures Sole(Step(s, Begin(at, cycle, waves)), |s.drivers|)
  {
    var b := Step(s, Begin(at, cycle, waves));
    StepStored(s, Begin(at, cycle, waves));
    assert Own(b.drivers[|s.drivers|]) == {};
  }

  lemma {:induction false} BeginsDriven(b: State, k: nat)
    requires k < |b.drivers| && b.drivers[k].pc.New? && b.drivers[k].live && b.drivers[k].ids == []
    requires b.drivers[k].at in b.enabled
    ensures Driven(b, k, [], [])
  {
    var d := b.drivers[k];
    assert Own(d) == {};
    NoneOwnNoFirings(b.log);
    assert [] + FirstRows(d.ids, 0) == [];
  }

  lemma {:induction false} LiveEnds(t: State, k: nat, oks: seq<bool>)
    requires Driven(t, k, [], oks) && t.drivers[k].pc.Exited? && t.drivers[k].live
    ensures LiveEnd(t, t.drivers[k], t.drivers[k].waves, oks)
  {
    ExitedRecorded(t, k, [], oks);
    LiveNumbered(t, k, [], oks);
    if oks != [] && oks[|oks| - 1] {
      assert AllOk(oks);
    }
  }

  /** The end of a live driver after fetches with these outcomes. */
  ghost predicate LiveEnd(t: State, d: Driver, waves: nat, oks: seq<bool>) {
    |d.ids| == waves && UpToFailure(oks, waves) && Numbered(t, d) && Recorded(t, d.ids, oks) && FiredFirst(t, d, [], oks)
  }

  /**
    A live driver that nothing disturbs ends after at most five steps of its own for each
    wave and three more. By then it has fired its waves in order up to the first whose fetch
    failed, that one is recorded as failed, those before it as ok, and those behind it wait.
   */
  lemma {:induction false} LiveDriverRuns(before: seq<Action>, at: Target, cycle: string, waves: nat, actions: seq<Action>)
    requires Started(Run(Init, before)) && at in Run(Init, before).enabled
    requires AllUndisturbed(Step(Run(Init, before), Begin(at, cycle, waves)), actions, |Run(Init, before).drivers|)
    ensures var k, b := |Run(Init, before).drivers|, Step(Run(Init, before), Begin(at, cycle, waves));
            var t := Run(b, actions);
            && k < |t.drivers| && t.drivers[k].at == at && t.drivers[k].cycle == cycle
            && (OwnSteps(actions, k) >= 5 * waves + 3 ==> t.drivers[k].pc.Exited?)
            && (t.drivers[k].pc.Exited? ==> LiveEnd(t, t.drivers[k], waves, Fetches(b, actions, k)))
  {
    var s := Run(Init, before);
    RunStored(before);
    LiveRuns(s, Step(s, Begin(at, cycle, waves)), at, cycle, waves, actions);
  }

  lemma {:induction false} LiveRuns(s: State, b: State, at: Target, cycle: string, waves: nat, actions: seq<Action>)
    requires Stored(s) && Started(s) && at in s.enabled && b == Step(s, Begin(at, cycle, waves))
    requires AllUndisturbed(b, actions, |s.drivers|)
    ensures var k, t := |s.drivers|, Run(b, actions);
            && k < |t.drivers| && t.drivers[k].at == at && t.drivers[k].cycle == cycle
            && (OwnSteps(actions, k) >= 5 * waves + 3 ==> t.drivers[k].pc.Exited?)
            && (t.drivers[k].pc.Exited? ==> LiveEnd(t, t.drivers[k], waves, Fetches(b, actions, k)))
  {
    var k, t := |s.drivers|, Run(b, actions);
    BeginsSole(s, at, cycle, waves);
    assert b.drivers[k] == Driver(at, cycle, true, waves, [], New);
    BeginsDriven(b, k);
    RunDriven(b, actions, k, []);
    RunKeepsPlan(b, actions, k, []);
    if t.drivers[k].pc.Exited? {
      LiveEnds(t, k, Fetches(b, actions, k));
    } else {
      LeftPositive(t, k, [], Fetches(b, actions, k));
    }
  }

  lemma {:induction false} LeftPositive(s: State, k: nat, before: seq<RowId>, oks: seq<bool>)
    requires Driven(s, k, before, oks) && !s.drivers[k].pc.Exited?
    ensures Left(s.drivers[k]) > 0
  {
  }

  // ----- Drivers that are given their rows

  ghost predicate Waiting(s: State, d: Driver) {
    AllKnown(d.ids) && forall j: nat :: j < |d.ids| ==> IsPending(s.rows, d.ids[j].id)
  }

  lemma {:induction false} GivenDriven(s: State, k: nat)
    requires Sole(s, k) && s.drivers[k].pc.New? && !s.drivers[k].live && s.drivers[k].at in s.enabled
    requires Waiting(s, s.drivers[k]) && Distinct(s.drivers[k].ids)
    ensures Driven(s, k, Firings(s.log, Own(s.drivers[k])), [])
  {
    var d := s.drivers[k];
    var before := Firings(s.log, Own(d));
    assert before + FirstRows(d.ids, 0) == before;
    forall j: nat | j < |d.ids| ensures WaveRow(s, d, [], j) {
      assert IsPending(s.rows, d.ids[j].id);
      OwnIs(d, j);
      OwnsOwn(d, s.rows, d.ids[j].id);
    }
  }

  /**
    A driver that is given waiting rows, and that nothing disturbs, ends after at most four
    steps of its own for each wave and two more. By then it has fired every wave once, in
    order, and each is recorded as ok exactly if its fetch was.
   */
  lemma {:induction false} ReclaimDriverRuns(s: State, k: nat, actions: seq<Action>)
    requires Sole(s, k) && s.drivers[k].pc.New? && !s.drivers[k].live && s.drivers[k].at in s.enabled
    requires Waiting(s, s.drivers[k]) && Distinct(s.drivers[k].ids) && AllUndisturbed(s, actions, k)
    ensures var d, t, oks := s.drivers[k], Run(s, actions), Fetches(s, actions, k);
            && k < |t.drivers| && t.drivers[k] == d.(pc := t.drivers[k].pc)
            && (OwnSteps(actions, k) >= 4 * |d.ids| + 2 ==> t.drivers[k].pc.Exited?)
            && (t.drivers[k].pc.Exited? ==>
                  |oks| == |d.ids| && Recorded(t, d.ids, oks) && FiredFirst(t, d, Firings(s.log, Own(d)), oks))
  {
    var d, t, oks := s.drivers[k], Run(s, actions), Fetches(s, actions, k);
    var before := Firings(s.log, Own(d));
    GivenDriven(s, k);
    RunDriven(s, actions, k, before);
    RunKeepsPlan(s, actions, k, before);
    if t.drivers[k].pc.Exited? {
      ExitedRecorded(t, k, before, oks);
      assert Own(t.drivers[k]) == Own(d);
    } else {
      LeftPositive(t, k, before, oks);
    }
  }

  /** The driver has exactly the waiting rows of its target, of one cycle if given, in the order of their waves. */
  ghost predicate HasWaiting(s: State, d: Driver, cycle: Option<string>) {
    && d.pc.New? && !d.live && Waiting(s, d) && Distinct(d.ids)
    && (forall id: RowId :: id in Own(d) <==>
          IsPending(s.rows, id) && s.rows[id].at == d.at && (cycle.None? || s.rows[id].cycle == cycle.value))
    && (forall i: nat, j: nat :: i < j < |d.ids| ==> s.rows[d.ids[i].id].wave <= s.rows[d.ids[j].id].wave)
  }

  lemma {:induction false} PlanIsWaiting(s: State, d: Driver, cycle: Option<string>, plan: seq<RowId>)
    requires IsPlan(s.rows, d.at, cycle, plan) && d == Driver(d.at, d.cycle, false, d.waves, Given(plan), New)
    ensures HasWaiting(s, d, cycle)
  {
    OwnGiven(d.at, d.cycle, d.waves, plan);
    forall j: nat | j < |d.ids| ensures IsPending(s.rows, d.ids[j].id) && d.ids[j].id == plan[j] {
      assert InPlan(s.rows, d.at, cycle, plan[j]);
    }
    forall id: RowId ensures id in plan <==> InPlan(s.rows, d.at, cycle, id) {
      if id in plan {
        var i :| 0 <= i < |plan| && plan[i] == id;
        assert InPlan(s.rows, d.at, cycle, plan[i]);
      }
    }
  }

  /** A resume in any reachable state gives such a driver, if no other driver of the target is still at work or about to be. */
  lemma {:induction false} ResumeGivesWaiting(before: seq<Action>, at: Target, plan: seq<RowId>)
    requires var s := Run(Init, before);
             && Started(s) && plan != [] && IsPlan(s.rows, at, None, plan)
             && forall d :: d in s.drivers && d.at == at ==> d.pc.Exited?
    ensures var s, k := Run(Init, before), |Run(Init, before).drivers|;
            var b := Step(s, Resume(at, plan));
            |b.drivers| == k + 1 && b.drivers[k].at == at && HasWaiting(b, b.drivers[k], None) && Sole(b, k)
  {
    var s := Run(Init, before);
    RunStored(before);
    ResumedWaits(s, Step(s, Resume(at, plan)), at, plan);
  }

  lemma {:induction false} ResumedWaits(s: State, b: State, at: Target, plan: seq<RowId>)
    requires Stored(s) && Started(s) && plan != [] && IsPlan(s.rows, at, None, plan) && b == Step(s, Resume(at, plan))
    requires forall d :: d in s.drivers && d.at == at ==> d.pc.Exited?
    ensures var k := |s.drivers|;
            |b.drivers| == k + 1 && b.drivers[k].at == at && HasWaiting(b, b.drivers[k], None) && Sole(b, k)
  {
    var k, d := |s.drivers|, Driver(at, "", false, |plan|, Given(plan), New);
    assert !DriverActive(s, at);
    assert b == Spawn(s, d);
    StepStored(s, Resume(at, plan));
    OwnGiven(at, "", |plan|, plan);
    forall j: nat | j < |b.drivers| && j != k ensures Apart(d, b.drivers[j]) {
      var other := s.drivers[j];
      assert other in s.drivers;
      forall id | id in Own(d) && other.at != at ensures id !in Own(other) {
        var i :| 0 <= i < |plan| && plan[i] == id;
        assert InPlan(s.rows, at, None, plan[i]);
        if id in Own(other) {
          OwnsOwn(other, s.rows, id);
        }
      }
    }
    PlanIsWaiting(b, d, None, plan);
  }

  // ----- Layers that are off

  /** Of a driver's waves those from lo to hi are skipped; its other rows, and its fetches, are as they were. */
  ghost predicate SkippedTo(s: State, t: State, k: nat, lo: nat, hi: nat) {
    && k < |s.drivers| && k < |t.drivers|
    && var d := s.drivers[k];
    && t.drivers[k] == d.(pc := t.drivers[k].pc) && AllKnown(d.ids) && Distinct(d.ids)
    && |s.rows| <= |t.rows|
    && Firings(t.log, Own(d)) == Firings(s.log, Own(d))
    && forall j: nat :: j < |d.ids| ==> SkippedAt(s, t, d.ids[j].id, lo <= j < hi)
  }

  ghost predicate SkippedAt(s: State, t: State, id: RowId, skipped: bool) {
    && id < |s.rows| <= |t.rows|
    && t.rows[id] == if skipped then s.rows[id].(status := Skipped) else s.rows[id]
  }

  lemma {:induction false} BesideSkipped(s: State, t: State, u: State, k: nat, lo: nat, hi: nat)
    requires SkippedTo(s, t, k, lo, hi) && Beside(t, u, k)
    ensures SkippedTo(s, u, k, lo, hi)
  {
    var d := s.drivers[k];
    assert Own(t.drivers[k]) == Own(d);
    BesideFirings(t.log, u.log, Own(d));
    forall j: nat | j < |d.ids| ensures SkippedAt(s, u, d.ids[j].id, lo <= j < hi) {
      assert SkippedAt(s, t, d.ids[j].id, lo <= j < hi);
      OwnIs(t.drivers[k], j);
    }
  }

  lemma {:induction false} SkipOne(s: State, t: State, u: State, k: nat, lo: nat, hi: nat)
    requires SkippedTo(s, t, k, lo, hi) && lo <= hi < |t.drivers[k].ids|
    requires t.drivers[k].ids[hi].Known? && RowMoved(t, u, k, hi, Skipped)
    ensures SkippedTo(s, u, k, lo, hi + 1)
  {
    var d := s.drivers[k];
    forall j: nat | j < |d.ids| ensures SkippedAt(s, u, d.ids[j].id, lo <= j < hi + 1) {
      assert SkippedAt(s, t, d.ids[j].id, lo <= j < hi);
    }
  }

  lemma {:induction false} NothingSkipped(s: State, k: nat, i: nat)
    requires Sole(s, k) && AllKnown(s.drivers[k].ids) && Distinct(s.drivers[k].ids)
    ensures SkippedTo(s, s, k, i, i)
  {
    forall j: nat | j < |s.drivers[k].ids| ensures SkippedAt(s, s, s.drivers[k].ids[j].id, i <= j < i) {
      OwnIs(s.drivers[k], j);
      OwnsOwn(s.drivers[k], s.rows, s.drivers[k].ids[j].id);
    }
  }

  lemma {:induction false} MovedSkipped(s: State, t: State, u: State, k: nat, lo: nat, hi: nat)
    requires SkippedTo(s, t, k, lo, hi) && JustMoved(t, u, k)
    ensures SkippedTo(s, u, k, lo, hi)
  {
    var d := s.drivers[k];
    forall j: nat | j < |d.ids| ensures SkippedAt(s, u, d.ids[j].id, lo <= j < hi) {
      assert SkippedAt(s, t, d.ids[j].id, lo <= j < hi);
    }
  }

  /** The driver is done with retiring its first waves. */
  ghost predicate RetiredTo(s: State, t: State, k: nat, i: nat) {
    && SkippedTo(s, t, k, 0, i)
    && (t.drivers[k].pc == Retiring(i) || (t.drivers[k].pc.Exited? && i == |t.drivers[k].ids|))
    && i <= |t.drivers[k].ids|
  }

  ghost predicate AllUnhindered(s: State, actions: seq<Action>, k: nat) {
    forall n: nat :: n < |actions| ==>
      var before := Run(s, actions[..n]);
      k < |before.drivers| && (Undisturbed(before, actions[n], k) || actions[n].Switch?)
  }

  lemma {:induction false} InitUnhindered(s: State, actions: seq<Action>, k: nat)
    requires AllUnhindered(s, actions, k) && actions != []
    ensures AllUnhindered(s, actions[..|actions| - 1], k)
    ensures var b := Run(s, actions[..|actions| - 1]);
            k < |b.drivers| && (Undisturbed(b, actions[|actions| - 1], k) || actions[|actions| - 1].Switch?)
  {
    var init := actions[..|actions| - 1];
    forall n: nat | n < |init|
      ensures var b := Run(s, init[..n]); k < |b.drivers| && (Undisturbed(b, init[n], k) || init[n].Switch?)
    {
      assert actions[..n] == init[..n] && actions[n] == init[n];
    }
  }

  lemma {:induction false} RetireOne(s: State, t: State, k: nat, e: Env, i: nat)
    requires RetiredTo(s, t, k, i) && Sole(t, k) && !e.dbErr
    ensures var u := Step(t, Drive(k, e));
            && Sole(u, k)
            && (RetiredTo(s, u, k, i + 1) || (i == |t.drivers[k].ids| && RetiredTo(s, u, k, i) && u.drivers[k].pc.Exited?))
  {
    var u := DriverStep(t, k, e);
    OwnStepSole(t, k, e);
    if t.drivers[k].pc.Retiring? && i < |t.drivers[k].ids| {
      assert t.drivers[k].ids[i].Known?;
      SkipOne(s, t, u, k, 0, i);
    }
  }

  lemma {:induction false} RetiringSkips(s: State, k: nat, actions: seq<Action>) returns (i: nat)
    requires Sole(s, k) && s.drivers[k].pc == Retiring(0) && !s.drivers[k].live
    requires AllKnown(s.drivers[k].ids) && Distinct(s.drivers[k].ids) && AllUnhindered(s, actions, k)
    ensures var t := Run(s, actions);
            Sole(t, k) && RetiredTo(s, t, k, i) && (OwnSteps(actions, k) >= |s.drivers[k].ids| + 1 ==> t.drivers[k].pc.Exited?)
            && (t.drivers[k].pc.Exited? || i == OwnSteps(actions, k))
  {
    if actions == [] {
      i := 0;
      NothingSkipped(s, k, 0);
    } else {
      var init, last := actions[..|actions| - 1], actions[|actions| - 1];
      InitUnhindered(s, actions, k);
      i := RetiringSkips(s, k, init);
      i := RetireStep(s, Run(s, init), k, last, i);
    }
  }

  lemma {:induction false} RetireStep(s: State, t: State, k: nat, a: Action, i: nat) returns (j: nat)
    requires RetiredTo(s, t, k, i) && Sole(t, k) && (Undisturbed(t, a, k) || a.Switch?)
    ensures var u, own := Step(t, a), if a.Drive? && a.k == k then 1 else 0;
            && Sole(u, k) && RetiredTo(s, u, k, j)
            && (u.drivers[k].pc.Exited? || (t.drivers[k].pc.Retiring? && j == i + own))
  {
    j := i;
    if a.Drive? && a.k == k {
      RetireOne(s, t, k, a.e, i);
      if t.drivers[k].pc.Retiring? && i < |t.drivers[k].ids| {
        j := i + 1;
      }
    } else {
      OthersBeside(t, a, k);
      BesideSkipped(s, t, Step(t, a), k, 0, i);
    }
  }

  /** A revived driver whose layer is off ends with every row it was given skipped, and has fired none. */
  lemma {:induction false} RetiringSkipsAll(s: State, k: nat, actions: seq<Action>)
    requires Sole(s, k) && s.drivers[k].pc == Retiring(0) && !s.drivers[k].live
    requires AllKnown(s.drivers[k].ids) && Distinct(s.drivers[k].ids) && AllUnhindered(s, actions, k)
    requires OwnSteps(actions, k) >= |s.drivers[k].ids| + 1
    ensures var t := Run(s, actions);
            && k < |t.drivers| && t.drivers[k].pc.Exited? && SkippedTo(s, t, k, 0, |s.drivers[k].ids|)
  {
    var i := RetiringSkips(s, k, actions);
  }

  /** The driver has taken its i-th wave, found its layer off, and skips that wave only. */
  ghost predicate TurnedAway(s: State, t: State, k: nat, i: nat) {
    && k < |s.drivers| && k < |t.drivers| && s.drivers[k].at !in t.enabled
    && (if t.drivers[k].pc == Marked(i) then SkippedTo(s, t, k, i, i)
        else (t.drivers[k].pc == AtWave(i + 1) || t.drivers[k].pc.Exited?) && SkippedTo(s, t, k, i, i + 1))
  }

  ghost function Ahead(d: Driver): nat {
    if d.pc.Marked? || d.pc.Marking? then 2 else if d.pc.Exited? then 0 else 1
  }

  lemma {:induction false} TurnAwayOne(s: State, t: State, k: nat, e: Env, i: nat)
    requires TurnedAway(s, t, k, i) && Sole(t, k) && !e.dbErr && i < |t.drivers[k].ids| && !t.drivers[k].live
    ensures var u := Step(t, Drive(k, e));
            && Sole(u, k) && TurnedAway(s, u, k, i)
            && (Ahead(u.drivers[k]) < Ahead(t.drivers[k]) || u.drivers[k].pc.Exited?)
  {
    var u := DriverStep(t, k, e);
    OwnStepSole(t, k, e);
    if t.drivers[k].pc.Marked? {
      assert t.drivers[k].ids[i].Known?;
      SkipOne(s, t, u, k, i, i);
    } else {
      MovedSkipped(s, t, u, k, i, i + 1);
    }
  }

  /**
    A layer switched off after a revived wave was taken, and before it was fetched: the
    driver ends with that wave skipped, fetches nothing, and leaves the later rows waiting.
   */
  lemma {:induction false} LateDisableSkips(s: State, k: nat, i: nat, actions: seq<Action>)
    requires Sole(s, k) && s.drivers[k].pc == Marked(i) && !s.drivers[k].live && s.drivers[k].at !in s.enabled
    requires AllKnown(s.drivers[k].ids) && Distinct(s.drivers[k].ids) && i < |s.drivers[k].ids|
    requires AllUnhindered(s, actions, k)
    requires forall a :: a in actions && a.Switch? && a.on ==> a.at != s.drivers[k].at
    ensures var t := Run(s, actions);
            && k < |t.drivers| && Sole(t, k) && TurnedAway(s, t, k, i)
            && (OwnSteps(actions, k) >= 2 ==> t.drivers[k].pc.Exited? && SkippedTo(s, t, k, i, i + 1))
            && (t.drivers[k].pc.Exited? || Ahead(t.drivers[k]) + OwnSteps(actions, k) <= 2)
  {
    if actions == [] {
      NothingSkipped(s, k, i);
    } else {
      var init, last := actions[..|actions| - 1], actions[|actions| - 1];
      InitUnhindered(s, actions, k);
      LateDisableSkips(s, k, i, init);
      var b := Run(s, init);
      if last.Drive? && last.k == k {
        TurnAwayOne(s, b, k, last.e, i);
      } else {
        assert last in actions;
        OthersTurnAway(s, b, last, k, i);
      }
    }
  }

  lemma {:induction false} OthersTurnAway(s: State, t: State, a: Action, k: nat, i: nat)
    requires TurnedAway(s, t, k, i) && Sole(t, k) && !(a.Drive? && a.k == k)
    requires Undisturbed(t, a, k) || a.Switch?
    requires a.Switch? && a.on ==> a.at != t.drivers[k].at
    ensures Sole(Step(t, a), k) && TurnedAway(s, Step(t, a), k, i) && Step(t, a).drivers[k] == t.drivers[k]
  {
    OthersBeside(t, a, k);
    StaysOff(t, a, t.drivers[k].at);
    BesideTurned(s, t, Step(t, a), k, i);
  }

  lemma {:induction false} StaysOff(s: State, a: Action, at: Target)
    requires at !in s.enabled && (a.Switch? && a.on ==> a.at != at)
    ensures at !in Step(s, a).enabled
  {
    if a.Drive? && a.k < |s.drivers| {
      DriverStepAlone(s, a.k, a.e);
    }
  }

  lemma {:induction false} BesideTurned(s: State, t: State, u: State, k: nat, i: nat)
    requires TurnedAway(s, t, k, i) && Beside(t, u, k) && t.drivers[k].at !in u.enabled
    ensures TurnedAway(s, u, k, i)
  {
    BesideSkipped(s, t, u, k, i, if t.drivers[k].pc == Marked(i) then i else i + 1);
  }

  // ----- Drivers that are cancelled

  /** A cancelled driver before its next wave. A live one that has passed its checks goes on to the fetch. */
  ghost predicate CallingOff(s: State, t: State, k: nat) {
    && SkippedTo(s, t, k, 0, 0)
    && (t.drivers[k].pc.AtWave? || t.drivers[k].pc.Exited?
        || (t.drivers[k].pc.Marking? && !t.drivers[k].live && t.drivers[k].pc.i < |t.drivers[k].ids|))
  }

  ghost predicate AllCancelled(s: State, actions: seq<Action>, k: nat) {
    forall n: nat :: n < |actions| ==> CancelledAt(Run(s, actions[..n]), actions[n], k)
  }

  ghost predicate CancelledAt(s: State, a: Action, k: nat) {
    k < |s.drivers| && if a.Drive? && a.k == k then a.e.cancelled else Undisturbed(s, a, k) || a.Switch?
  }

  lemma {:induction false} CallOffOne(s: State, t: State, k: nat, e: Env)
    requires CallingOff(s, t, k) && Sole(t, k) && e.cancelled
    ensures var u := Step(t, Drive(k, e));
            && Sole(u, k) && CallingOff(s, u, k)
            && (Ahead(u.drivers[k]) < Ahead(t.drivers[k]) || u.drivers[k].pc.Exited?)
  {
    var u := DriverStep(t, k, e);
    OwnStepSole(t, k, e);
    MovedSkipped(s, t, u, k, 0, 0);
  }

  /** A cancelled driver takes no further wave: it ends, and its rows and the record of its fetches are as they were. */
  lemma {:induction false} CancelledTakesNone(s: State, k: nat, actions: seq<Action>)
    requires Sole(s, k) && AllKnown(s.drivers[k].ids) && Distinct(s.drivers[k].ids) && AllCancelled(s, actions, k)
    requires s.drivers[k].pc.AtWave?
             || (s.drivers[k].pc.Marking? && !s.drivers[k].live && s.drivers[k].pc.i < |s.drivers[k].ids|)
    ensures var t := Run(s, actions);
            && Sole(t, k) && CallingOff(s, t, k)
            && (OwnSteps(actions, k) >= 2 ==> t.drivers[k].pc.Exited?)
            && (t.drivers[k].pc.Exited? || Ahead(t.drivers[k]) + OwnSteps(actions, k) <= 2)
  {
    if actions == [] {
      NothingSkipped(s, k, 0);
    } else {
      var init, last := actions[..|actions| - 1], actions[|actions| - 1];
      forall n: nat | n < |init| ensures CancelledAt(Run(s, init[..n]), init[n], k) {
        assert actions[..n] == init[..n] && actions[n] == init[n];
      }
      CancelledTakesNone(s, k, init);
      var b := Run(s, init);
      assert CancelledAt(b, last, k);
      if last.Drive? && last.k == k {
        CallOffOne(s, b, k, last.e);
      } else {
        OthersBeside(b, last, k);
        BesideSkipped(s, b, Step(b, last), k, 0, 0);
      }
    }
  }

  // ----- What a start revives

  ghost function LeftOf(boot: Boot): seq<Group> {
    match boot
    case Reclaiming(left) => left
    case Discarding(_, left) => left
    case _ => []
  }

  /** The group is one cycle's pending rows, and no driver has any of them. */
  ghost predicate Untouched(s: State, g: Group) {
    && IsPlan(s.rows, g.at, Some(g.cycle), g.plan)
    && forall d, id :: d in s.drivers && id in Own(d) ==> id !in g.plan
  }

  ghost predicate OtherKeys(groups: seq<Group>) {
    forall i, j :: 0 <= i < j < |groups| ==> groups[i].at != groups[j].at || groups[i].cycle != groups[j].cycle
  }

  ghost predicate ReclaimsOnly(s: State) {
    forall d :: d in s.drivers ==> !d.live && !d.pc.Scheduling?
  }

  /** While a start is at its reclaim, only reclaim drivers run, and the groups still to come are untouched. */
  ghost predicate BootFits(s: State) {
    && (!s.up || s.boot.Listing? ==> s.drivers == [])
    && (!s.boot.Done? ==> ReclaimsOnly(s))
    && OtherKeys(LeftOf(s.boot))
    && (forall g :: g in LeftOf(s.boot) ==> Untouched(s, g))
    && (s.boot.Discarding? ==> forall g, id :: g in s.boot.left && id in s.boot.ids ==> id !in g.plan)
  }

  lemma {:induction false} InPlanOf(rows: seq<Row>, g: Group, id: RowId)
    requires IsPlan(rows, g.at, Some(g.cycle), g.plan)
    ensures id in g.plan <==> InPlan(rows, g.at, Some(g.cycle), id)
  {
    if id in g.plan {
      var i :| 0 <= i < |g.plan| && g.plan[i] == id;
      assert InPlan(rows, g.at, Some(g.cycle), g.plan[i]);
    }
  }

  /** No row is new, and rows only change their status, not back to pending. */
  ghost predicate OnlyStatus(r: seq<Row>, t: seq<Row>) {
    |t| == |r| && forall id :: 0 <= id < |r| ==> StatusOnly(r[id], t[id])
  }

  ghost predicate StatusOnly(x: Row, y: Row) {
    y == x.(status := y.status) && (y.status == Pending ==> x.status == Pending)
  }

  lemma {:induction false} PlanKept(r: seq<Row>, t: seq<Row>, g: Group)
    requires IsPlan(r, g.at, Some(g.cycle), g.plan) && OnlyStatus(r, t)
    requires forall id: RowId :: id in g.plan && id < |r| ==> t[id] == r[id]
    ensures IsPlan(t, g.at, Some(g.cycle), g.plan)
  {
    forall id: RowId ensures InPlan(t, g.at, Some(g.cycle), id) <==> InPlan(r, g.at, Some(g.cycle), id) {
      InPlanOf(r, g, id);
      assert id < |r| ==> StatusOnly(r[id], t[id]);
    }
    forall i | 0 <= i < |g.plan| ensures InPlan(t, g.at, Some(g.cycle), g.plan[i]) && t[g.plan[i]] == r[g.plan[i]] {
      assert InPlan(r, g.at, Some(g.cycle), g.plan[i]);
      assert g.plan[i] in g.plan;
    }
  }

  lemma {:induction false} FinishStatus(s: State, id: Option<RowId>, status: Status, e: Env)
    requires status != Pending
    ensures OnlyStatus(s.rows, Finish(s, id, status, e).rows)
  {
  }

  lemma {:induction false} MarkStatus(s: State, k: nat, i: nat, e: Env)
    requires k < |s.drivers| && i < |s.drivers[k].ids|
    ensures OnlyStatus(s.rows, MarkStep(s, k, i, e).rows)
  {
  }

  lemma {:induction false} FireStatus(s: State, k: nat, i: nat, e: Env)
    requires k < |s.drivers| && i < |s.drivers[k].ids|
    ensures OnlyStatus(s.rows, FireStep(s, k, i, e).rows)
  {
    FinishStatus(s, IdOf(s.drivers[k].ids[i]), Skipped, e);
  }

  lemma {:induction false} DriverStatus(s: State, k: nat, e: Env)
    requires k < |s.drivers| && !s.drivers[k].pc.Scheduling?
    ensures OnlyStatus(s.rows, DriverStep(s, k, e).rows)
  {
    var d := s.drivers[k];
    if d.pc.Marking? && d.pc.i < |d.ids| {
      MarkStatus(s, k, d.pc.i, e);
    } else if d.pc.Marked? && d.pc.i < |d.ids| {
      FireStatus(s, k, d.pc.i, e);
    } else if (d.pc.Retiring? || d.pc.Fetching?) && d.pc.i < |d.ids| {
      FinishStatus(s, IdOf(d.ids[d.pc.i]), if d.pc.Retiring? then Skipped else if e.fetchOk then Status.Ok else Fail, e);
    } else {
      assert DriverStep(s, k, e).rows == s.rows;
    }
  }

  lemma {:induction false} DriverFits(s: State, k: nat, e: Env)
    requires BootFits(s) && Stored(s) && s.up && k < |s.drivers|
    ensures BootFits(DriverStep(s, k, e))
  {
    var t, d := DriverStep(s, k, e), s.drivers[k];
    DriverStepAlone(s, k, e);
    assert d in s.drivers;
    if !s.boot.Done? {
      DriverStatus(s, k, e);
      OwnStepRows(s, k, e);
      ReclaimsOn(s, k, e);
      forall g | g in LeftOf(s.boot) ensures Untouched(t, g) {
        DriverKeepsGroup(s, k, e, g);
      }
    }
  }

  lemma {:induction false} StaysReclaim(s: State, k: nat, e: Env)
    requires k < |s.drivers| && !s.drivers[k].live && !s.drivers[k].pc.Scheduling?
    ensures var t := DriverStep(s, k, e); k < |t.drivers| && !t.drivers[k].live && !t.drivers[k].pc.Scheduling?
  {
    var d := s.drivers[k];
    OwnStepRows(s, k, e);
    if d.pc.Marking? && d.pc.i < |d.ids| {
      MarksOn(s, k, d.pc.i, e);
    } else if d.pc.Marked? && d.pc.i < |d.ids| {
      FiresOn(s, k, d.pc.i, e);
    }
  }

  lemma {:induction false} MarksOn(s: State, k: nat, i: nat, e: Env)
    requires k < |s.drivers| && i < |s.drivers[k].ids|
    ensures var t := MarkStep(s, k, i, e); k < |t.drivers| && !t.drivers[k].pc.Scheduling?
  {
  }

  lemma {:induction false} FiresOn(s: State, k: nat, i: nat, e: Env)
    requires k < |s.drivers| && i < |s.drivers[k].ids|
    ensures var t := FireStep(s, k, i, e); k < |t.drivers| && !t.drivers[k].pc.Scheduling?
  {
  }

  lemma {:induction false} ReclaimsOn(s: State, k: nat, e: Env)
    requires ReclaimsOnly(s) && k < |s.drivers|
    ensures ReclaimsOnly(DriverStep(s, k, e))
  {
    var t, d := DriverStep(s, k, e), s.drivers[k];
    assert d in s.drivers;
    DriverStepAlone(s, k, e);
    StaysReclaim(s, k, e);
    forall x | x in t.drivers ensures !x.live && !x.pc.Scheduling? {
      var j :| 0 <= j < |t.drivers| && t.drivers[j] == x;
      if j != k {
        assert s.drivers[j] in s.drivers;
      }
    }
  }

  lemma {:induction false} DriverKeepsGroup(s: State, k: nat, e: Env, g: Group)
    requires ReclaimsOnly(s) && k < |s.drivers| && Untouched(s, g)
    ensures Untouched(DriverStep(s, k, e), g)
  {
    var t, d := DriverStep(s, k, e), s.drivers[k];
    assert d in s.drivers;
    DriverStepAlone(s, k, e);
    DriverStepTouches(s, k, e);
    DriverStatus(s, k, e);
    OwnStepRows(s, k, e);
    forall id: RowId | id in g.plan && id < |s.rows| ensures t.rows[id] == s.rows[id] {
      TouchedBeside(d, s.rows, t.rows, id);
    }
    PlanKept(s.rows, t.rows, g);
    forall x, id | x in t.drivers && id in Own(x) ensures id !in g.plan {
      var j :| 0 <= j < |t.drivers| && t.drivers[j] == x;
      assert s.drivers[j] in s.drivers;
      assert Own(x) == Own(s.drivers[j]);
    }
  }

  lemma {:induction false} ListingFits(s: State, groups: seq<Group>)
    requires s.drivers == [] && IsListing(s.rows, groups) && s.up
    ensures BootFits(s.(boot := Reclaiming(groups)))
  {
  }

  lemma {:induction false} NextGroupFits(s: State, malformed: bool)
    requires BootFits(s) && s.up && s.boot.Reclaiming? && s.boot.left != []
    ensures BootFits(ReclaimGroup(s, s.boot.left[0], s.boot.left[1..], malformed))
  {
    var left := s.boot.left;
    var g, rest := left[0], left[1..];
    var t := ReclaimGroup(s, g, rest, malformed);
    assert g in left && Untouched(s, g);
    OwnGiven(g.at, g.cycle, |g.plan|, g.plan);
    forall h | h in rest ensures Untouched(t, h) && forall id :: id in g.plan ==> id !in h.plan {
      var i :| 0 <= i < |rest| && rest[i] == h;
      assert left[i + 1] == h && h in left;
      assert Untouched(s, h);
      forall id | id in g.plan ensures id !in h.plan {
        InPlanOf(s.rows, g, id);
        InPlanOf(s.rows, h, id);
      }
    }
  }

  lemma {:induction false} DiscardFits(s: State, e: Env)
    requires BootFits(s) && s.up && s.boot.Discarding? && s.boot.ids != []
    ensures BootFits(Finish(s, Some(s.boot.ids[0]), Skipped, e).(boot := Discarding(s.boot.ids[1..], s.boot.left)))
  {
    var t := Finish(s, Some(s.boot.ids[0]), Skipped, e).(boot := Discarding(s.boot.ids[1..], s.boot.left));
    FinishStatus(s, Some(s.boot.ids[0]), Skipped, e);
    assert s.boot.ids[0] in s.boot.ids;
    forall id | id in s.boot.ids[1..] ensures id in s.boot.ids {
    }
    forall g | g in s.boot.left ensures Untouched(t, g) {
      assert Untouched(s, g);
      PlanKept(s.rows, t.rows, g);
    }
  }

  lemma {:induction false} ReclaimFits(s: State, groups: seq<Group>, malformed: bool, e: Env)
    requires BootFits(s) && s.up
    ensures BootFits(ReclaimStep(s, groups, malformed, e))
  {
    match s.boot
    case Done =>
    case Listing =>
      if !e.dbErr && IsListing(s.rows, groups) {
        ListingFits(s, groups);
      }
    case Reclaiming(left) =>
      if left != [] {
        NextGroupFits(s, malformed);
      }
    case Discarding(ids, left) =>
      if ids != [] {
        DiscardFits(s, e);
      }
  }

  lemma {:induction false} StepFits(s: State, a: Action)
    requires BootFits(s) && Stored(s)
    ensures BootFits(Step(s, a))
  {
    match a
    case Reclaim(groups, malformed, e) =>
      if s.up {
        ReclaimFits(s, groups, malformed, e);
      }
    case Drive(k, e) =>
      if s.up && k < |s.drivers| {
        DriverFits(s, k, e);
      }
    case _ =>
  }

  lemma {:induction false} RunFits(actions: seq<Action>)
    ensures BootFits(Run(Init, actions))
  {
    if actions != [] {
      RunFits(actions[..|actions| - 1]);
      RunStored(actions[..|actions| - 1]);
      StepFits(Run(Init, actions[..|actions| - 1]), actions[|actions| - 1]);
    }
  }

  /**
    Of every group that a start does not discard, a driver gets the whole plan: all the
    pending rows of that cycle, in the order of their waves, and nobody else has one.
   */
  lemma {:induction false} ReviveGivesWaiting(before: seq<Action>, groups: seq<Group>, malformed: bool, e: Env)
    requires var s := Run(Init, before);
             && s.up && s.boot.Reclaiming? && s.boot.left != []
             && s.boot.left[0].at in s.enabled && !(s.boot.left[0].at.layer.L3? && malformed)
    ensures var s, k := Run(Init, before), |Run(Init, before).drivers|;
            var b, g := Step(s, Reclaim(groups, malformed, e)), s.boot.left[0];
            && |b.drivers| == k + 1 && b.drivers[k].at == g.at
            && HasWaiting(b, b.drivers[k], Some(g.cycle)) && Sole(b, k)
  {
    var s := Run(Init, before);
    RunStored(before);
    RunFits(before);
    StepStored(s, Reclaim(groups, malformed, e));
    RevivedWaits(s, Step(s, Reclaim(groups, malformed, e)), malformed);
  }

  lemma {:induction false} RevivedWaits(s: State, b: State, malformed: bool)
    requires BootFits(s) && Stored(b) && s.up && s.boot.Reclaiming? && s.boot.left != []
    requires s.boot.left[0].at in s.enabled && !(s.boot.left[0].at.layer.L3? && malformed)
    requires b == ReclaimGroup(s, s.boot.left[0], s.boot.left[1..], malformed)
    ensures var k, g := |s.drivers|, s.boot.left[0];
            && |b.drivers| == k + 1 && b.drivers[k].at == g.at
            && HasWaiting(b, b.drivers[k], Some(g.cycle)) && Sole(b, k)
  {
    var k, left, g := |s.drivers|, s.boot.left, s.boot.left[0];
    var d := Driver(g.at, g.cycle, false, |g.plan|, Given(g.plan), New);
    assert b == Spawn(s, d).(boot := Reclaiming(left[1..]));
    assert g in left && Untouched(s, g);
    OwnGiven(g.at, g.cycle, |g.plan|, g.plan);
    PlanIsWaiting(b, d, Some(g.cycle), g.plan);
    forall j: nat | j < |b.drivers| && j != k ensures Apart(d, b.drivers[j]) {
      assert s.drivers[j] in s.drivers;
    }
    forall h, id | h in left[1..] && id in Own(d) ensures id !in h.plan {
      var i :| 0 <= i < |left| - 1 && left[1..][i] == h;
      assert left[i + 1] == h && h in left;
      assert Untouched(s, h);
      InPlanOf(s.rows, g, id);
      InPlanOf(s.rows, h, id);
    }
  }
}
