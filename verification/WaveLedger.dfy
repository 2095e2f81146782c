/**
  The wave ledger as a state machine. Rows live in the store and outlive the process;
  drivers are goroutines that die with it. Every step is one store call, one depth check
  or one fetch, and steps of all drivers, supersedes, depth switches, crashes and
  starts interleave freely. A start goes through the pending rows before the other loops
  run: what a layer still wants it revives, the rest it retires. Store calls may fail,
  before or after taking effect.
 */
module WaveLedger {
  import opened Common

  datatype Layer = L2 | L3
  datatype Target = Target(layer: Layer, bucket: string, sub: string)
  datatype Status = Pending | Running | Ok | Fail | Skipped
  datatype Row = Row(at: Target, cycle: string, wave: nat, status: Status)

  type RowId = nat

  datatype Pc =
    | New
    | Scheduling
    | Retiring(i: nat)   // orphan guard: marking the i-th wave skipped
    | AtWave(i: nat)     // before the checks for the i-th wave
    | Marking(i: nat)    // checks passed, before TryMarkRunning
    | Marked(i: nat)     // may fire
    | Fetching(i: nat)   // fired
    | Exited

  /**
    The row of a driver's wave. A live driver schedules its rows itself: an insert that
    fails leaves it without the row's id, whether there is no row or one it does not
    know of. A reclaim driver is given its rows.
   */
  datatype Slot = NoRow | Known(id: RowId) | Unsure(id: RowId)

  datatype Driver = Driver(at: Target, cycle: string, live: bool, waves: nat, ids: seq<Slot>, pc: Pc)

  datatype Event =
    | Fired(id: RowId)
    | Doubted(id: RowId)  // TryMarkRunning failed and the reclaim driver went on, or an insert took effect and failed

  /** The pending rows of one cycle, as the start lists them. */
  datatype Group = Group(at: Target, cycle: string, plan: seq<RowId>)

  /** What is left of the reclaim that a start begins with. */
  datatype Boot =
    | Done
    | Listing
    | Reclaiming(left: seq<Group>)
    | Discarding(ids: seq<RowId>, left: seq<Group>)  // retiring the rows of a group that is not revived

  /** clean: no store write has failed since the last successful start. */
  datatype State = State(rows: seq<Row>, drivers: seq<Driver>, enabled: set<Target>, up: bool, clean: bool, log: seq<Event>,
                         boot: Boot)

  /** What the environment decides in one step. */
  datatype Env = Env(cancelled: bool, dbErr: bool, applied: bool, fetchOk: bool)

  datatype Action =
    | Switch(at: Target, on: bool)
    | Crash
    | Startup(e: Env)
    | Reclaim(groups: seq<Group>, malformed: bool, e: Env)  // the next step of the reclaim
    | Supersede(at: Target, keep: string, e: Env)
    | Begin(at: Target, cycle: string, waves: nat)
    | Resume(at: Target, plan: seq<RowId>)
    | Drive(k: nat, e: Env)

  const Init := State([], [], {}, false, true, [], Done)

  // ----- The store

  function Set(rows: seq<Row>, id: RowId, status: Status): (r: seq<Row>)
    ensures |r| == |rows|
  {
    if id < |rows| then rows[id := rows[id].(status := status)] else rows
  }

  /** MarkFinished: unconditional. */
  function Finish(s: State, id: Option<RowId>, status: Status, e: Env): State {
    if id.None? then s
    else s.(rows := if !e.dbErr || e.applied then Set(s.rows, id.value, status) else s.rows,
            clean := s.clean && !e.dbErr)
  }

  predicate IsPending(rows: seq<Row>, id: RowId) {
    id < |rows| && rows[id].status == Pending
  }

  /** TryMarkRunning: a compare-and-set from pending. */
  function Mark(s: State, id: RowId, e: Env): State {
    s.(rows := if IsPending(s.rows, id) && (!e.dbErr || e.applied) then Set(s.rows, id, Running) else s.rows,
       clean := s.clean && !e.dbErr)
  }

  /** The row is among those SupersedePending demotes. */
  predicate Demoted(row: Row, at: Target, keep: string) {
    row.status == Pending && row.at == at && row.cycle != keep
  }

  function Demote(rows: seq<Row>, at: Target, keep: string): (r: seq<Row>)
    ensures |r| == |rows|
    ensures forall i :: 0 <= i < |rows| ==> r[i] == if Demoted(rows[i], at, keep) then rows[i].(status := Skipped) else rows[i]
  {
    if rows == [] then [] else
    var last := rows[|rows| - 1];
    Demote(rows[..|rows| - 1], at, keep) + [if Demoted(last, at, keep) then last.(status := Skipped) else last]
  }

  function FailRunning(rows: seq<Row>): (r: seq<Row>)
    ensures |r| == |rows|
    ensures forall i :: 0 <= i < |rows| ==> r[i] == if rows[i].status == Running then rows[i].(status := Fail) else rows[i]
  {
    if rows == [] then [] else
    var last := rows[|rows| - 1];
    FailRunning(rows[..|rows| - 1]) + [if last.status == Running then last.(status := Fail) else last]
  }

  /** The list holds exactly the target's pending rows (of one cycle, if given), each once, in wave order. */
  ghost predicate IsPlan(rows: seq<Row>, at: Target, cycle: Option<string>, plan: seq<RowId>) {
    && (forall i, j :: 0 <= i < j < |plan| ==> plan[i] != plan[j])
    && (forall i :: 0 <= i < |plan| ==> InPlan(rows, at, cycle, plan[i]))
    && (forall id: RowId :: InPlan(rows, at, cycle, id) ==> id in plan)
    && (forall i, j :: 0 <= i < j < |plan| ==> rows[plan[i]].wave <= rows[plan[j]].wave)
  }

  ghost predicate InPlan(rows: seq<Row>, at: Target, cycle: Option<string>, id: RowId) {
    IsPending(rows, id) && rows[id].at == at && (cycle.Some? ==> rows[id].cycle == cycle.value)
  }

  ghost predicate InGroups(groups: seq<Group>, id: RowId) {
    exists g :: g in groups && id in g.plan
  }

  /** The list holds every pending row, one group for each cycle of a target. */
  ghost predicate IsListing(rows: seq<Row>, groups: seq<Group>) {
    && (forall g :: g in groups ==> g.plan != [] && IsPlan(rows, g.at, Some(g.cycle), g.plan))
    && (forall id: RowId :: IsPending(rows, id) ==> InGroups(groups, id))
    && (forall i, j :: 0 <= i < j < |groups| ==> groups[i].at != groups[j].at || groups[i].cycle != groups[j].cycle)
  }

  // ----- The drivers

  ghost function Given(plan: seq<RowId>): (r: seq<Slot>)
    ensures |r| == |plan| && forall i :: 0 <= i < |r| ==> r[i] == Known(plan[i])
  {
    if plan == [] then [] else Given(plan[..|plan| - 1]) + [Known(plan[|plan| - 1])]
  }

  /** The id the driver has for its wave. */
  function IdOf(slot: Slot): Option<RowId> {
    if slot.Known? then Some(slot.id) else None
  }

  /** Between driverEnter and driverExit. */
  predicate Active(d: Driver) {
    !d.pc.New? && !d.pc.Exited?
  }

  ghost predicate DriverActive(s: State, at: Target) {
    exists k :: 0 <= k < |s.drivers| && s.drivers[k].at == at && Active(s.drivers[k])
  }

  function Spawn(s: State, d: Driver): State {
    s.(drivers := s.drivers + [d])
  }

  function Move(s: State, k: nat, pc: Pc): State
    requires k < |s.drivers|
  {
    s.(drivers := s.drivers[k := s.drivers[k].(pc := pc)])
  }

  /** A fetch for the wave is one for its row, known or not. */
  function Note(s: State, slot: Slot): State {
    if slot.NoRow? then s else s.(log := s.log + [Fired(slot.id)])
  }

  /** One step of a driver. */
  function DriverStep(s: State, k: nat, e: Env): State
    requires k < |s.drivers|
  {
    var d := s.drivers[k];
    match d.pc
    case New =>
      if d.live then Move(s, k, Scheduling)
      else if d.at in s.enabled then Move(s, k, AtWave(0))
      else Move(s, k, Retiring(0))
    case Scheduling =>
      if |d.ids| >= d.waves then Move(s, k, AtWave(0))
      else ScheduleOne(s, k, e)
    case Retiring(i) =>
      if i >= |d.ids| then Move(s, k, Exited)
      else Move(Finish(s, IdOf(d.ids[i]), Skipped, e), k, Retiring(i + 1))
    case AtWave(i) =>
      if i >= |d.ids| || e.cancelled || d.at !in s.enabled then Move(s, k, Exited)
      else Move(s, k, Marking(i))
    case Marking(i) => if i >= |d.ids| then s else MarkStep(s, k, i, e)
    case Marked(i) => if i >= |d.ids| then s else FireStep(s, k, i, e)
    case Fetching(i) =>
      if i >= |d.ids| then s
      else Move(Finish(s, IdOf(d.ids[i]), if e.fetchOk then Status.Ok else Fail, e), k,
                if d.live && !e.fetchOk then Exited else AtWave(i + 1))
    case Exited => s
  }

  /** What a live driver has of an insert. */
  function Inserted(id: RowId, e: Env): Slot {
    if !e.dbErr then Known(id) else if e.applied then Unsure(id) else NoRow
  }

  /** One insert. */
  function ScheduleOne(s: State, k: nat, e: Env): State
    requires k < |s.drivers|
  {
    var d := s.drivers[k];
    var row := Row(d.at, d.cycle, |d.ids| + 1, Pending);
    s.(rows := if !e.dbErr || e.applied then s.rows + [row] else s.rows,
       drivers := s.drivers[k := d.(ids := d.ids + [Inserted(|s.rows|, e)])],
       log := if e.dbErr && e.applied then s.log + [Doubted(|s.rows|)] else s.log,
       clean := s.clean && !e.dbErr)
  }

  /** driveWaves stops on a failed mark, resumePendingWave goes on; both stop when the row was not pending. */
  function MarkStep(s: State, k: nat, i: nat, e: Env): State
    requires k < |s.drivers| && i < |s.drivers[k].ids|
  {
    var d := s.drivers[k];
    if !d.live && e.cancelled then Move(s, k, AtWave(i + 1))
    else if !d.ids[i].Known? then Move(s, k, Marked(i))
    else
      var id := d.ids[i].id;
      if e.dbErr then
        if d.live then Move(Mark(s, id, e), k, Exited)
        else Move(Mark(s, id, e).(log := s.log + [Doubted(id)]), k, Marked(i))
      else if IsPending(s.rows, id) then Move(Mark(s, id, e), k, Marked(i))
      else Move(s, k, Exited)
  }

  /** A revived wave looks at the depth once more before it fetches. */
  function FireStep(s: State, k: nat, i: nat, e: Env): State
    requires k < |s.drivers| && i < |s.drivers[k].ids|
  {
    var d := s.drivers[k];
    if !d.live && d.at !in s.enabled then Move(Finish(s, IdOf(d.ids[i]), Skipped, e), k, AtWave(i + 1))
    else Move(Note(s, d.ids[i]), k, Fetching(i))
  }

  /** A group whose layer is off, or an L3 group whose plan is malformed, is discarded; any other gets a driver. */
  ghost function ReclaimGroup(s: State, g: Group, rest: seq<Group>, malformed: bool): State {
    if g.at !in s.enabled || (g.at.layer.L3? && malformed) then s.(boot := Discarding(g.plan, rest))
    else Spawn(s, Driver(g.at, g.cycle, false, |g.plan|, Given(g.plan), New)).(boot := Reclaiming(rest))
  }

  /** One step of reclaimPendingRuns. A discarded row is marked skipped, whatever its status by then. */
  ghost function ReclaimStep(s: State, groups: seq<Group>, malformed: bool, e: Env): State {
    match s.boot
    case Done => s
    case Listing =>
      if e.dbErr then s.(boot := Done)
      else if IsListing(s.rows, groups) then s.(boot := Reclaiming(groups)) else s
    case Reclaiming(left) =>
      if left == [] then s.(boot := Done) else ReclaimGroup(s, left[0], left[1..], malformed)
    case Discarding(ids, left) =>
      if ids == [] then s.(boot := Reclaiming(left))
      else Finish(s, Some(ids[0]), Skipped, e).(boot := Discarding(ids[1..], left))
  }

  /** The loops that begin cycles, supersede and resume run once the reclaim is over. */
  predicate Started(s: State) {
    s.up && s.boot.Done?
  }

  ghost function Step(s: State, a: Action): State {
    match a
    case Switch(at, on) => s.(enabled := if on then s.enabled + {at} else s.enabled - {at})
    case Crash => s.(drivers := [], up := false, boot := Done)
    case Startup(e) =>
      if s.up then s
      else s.(rows := if !e.dbErr || e.applied then FailRunning(s.rows) else s.rows, up := true, clean := !e.dbErr,
                   boot := Listing)
    case Reclaim(groups, malformed, e) => if s.up then ReclaimStep(s, groups, malformed, e) else s
    case Supersede(at, keep, e) =>
      if Started(s) then s.(rows := if !e.dbErr || e.applied then Demote(s.rows, at, keep) else s.rows,
                      clean := s.clean && !e.dbErr) else s
    case Begin(at, cycle, waves) => if Started(s) then Spawn(s, Driver(at, cycle, true, waves, [], New)) else s
    case Resume(at, plan) =>
      if Started(s) && !DriverActive(s, at) && IsPlan(s.rows, at, None, plan) && plan != []
      then Spawn(s, Driver(at, "", false, |plan|, Given(plan), New)) else s
    case Drive(k, e) => if s.up && k < |s.drivers| then DriverStep(s, k, e) else s
  }

  ghost function Run(s: State, actions: seq<Action>): State {
    if actions == [] then s else Step(Run(s, actions[..|actions| - 1]), actions[|actions| - 1])
  }

  // ----- Counting

  ghost function Count(log: seq<Event>, e: Event): nat {
    if log == [] then 0 else Count(log[..|log| - 1], e) + if log[|log| - 1] == e then 1 else 0
  }

  lemma CountAppend(log: seq<Event>, e: Event, x: Event)
    ensures Count(log + [x], e) == Count(log, e) + if x == e then 1 else 0
  {
    assert (log + [x])[..|log + [x]| - 1] == log;
  }

  /** The first wave a driver may still fire. */
  function Cursor(d: Driver): nat {
    match d.pc
    case AtWave(i) => i
    case Marking(i) => i
    case Marked(i) => i
    case Fetching(i) => i + 1
    case Exited => |d.ids|
    case _ => 0
  }

  /** Waves from one on whose row the driver does not know of. */
  ghost function Unsures(ids: seq<Slot>, lo: nat, id: RowId): nat
    decreases |ids| - lo
  {
    if lo >= |ids| then 0 else (if ids[lo] == Unsure(id) then 1 else 0) + Unsures(ids, lo + 1, id)
  }

  lemma {:induction false} UnsuresFall(ids: seq<Slot>, lo: nat, hi: nat, id: RowId)
    requires lo <= hi
    ensures Unsures(ids, hi, id) <= Unsures(ids, lo, id)
    decreases hi
  {
    if lo < hi {
      UnsuresFall(ids, lo, hi - 1, id);
    }
  }

  lemma {:induction false} UnsuresAppend(ids: seq<Slot>, slot: Slot, lo: nat, id: RowId)
    requires lo <= |ids|
    ensures Unsures(ids + [slot], lo, id) == Unsures(ids, lo, id) + if slot == Unsure(id) then 1 else 0
    decreases |ids| - lo
  {
    if lo < |ids| {
      UnsuresAppend(ids, slot, lo + 1, id);
    } else {
      assert Unsures(ids + [slot], lo + 1, id) == 0;
    }
  }

  lemma {:induction false} NoneUnsure(ids: seq<Slot>, lo: nat, id: RowId)
    requires forall i :: 0 <= i < |ids| ==> !ids[i].Unsure?
    ensures Unsures(ids, lo, id) == 0
    decreases |ids| - lo
  {
    if lo < |ids| {
      NoneUnsure(ids, lo + 1, id);
    }
  }

  /** The driver has marked the row and may fire it. */
  predicate HasMarked(d: Driver, id: RowId) {
    d.pc.Marked? && d.pc.i < |d.ids| && d.ids[d.pc.i] == Known(id)
  }

  /** Fetches the driver may make for the row without asking the store again. */
  ghost function Claims(d: Driver, id: RowId): nat {
    Unsures(d.ids, Cursor(d), id) + if HasMarked(d, id) then 1 else 0
  }

  ghost function Holders(drivers: seq<Driver>, id: RowId): nat {
    if drivers == [] then 0 else Holders(drivers[..|drivers| - 1], id) + Claims(drivers[|drivers| - 1], id)
  }

  lemma {:induction false} HoldersUpdate(drivers: seq<Driver>, k: nat, d: Driver, id: RowId)
    requires k < |drivers|
    ensures Holders(drivers[k := d], id) + Claims(drivers[k], id) == Holders(drivers, id) + Claims(d, id)
  {
    var n := |drivers| - 1;
    if k == n {
      assert drivers[k := d][..n] == drivers[..n];
    } else {
      assert drivers[k := d][..n] == drivers[..n][k := d];
      HoldersUpdate(drivers[..n], k, d, id);
    }
  }

  lemma HoldersAppend(drivers: seq<Driver>, d: Driver, id: RowId)
    ensures Holders(drivers + [d], id) == Holders(drivers, id) + Claims(d, id)
  {
    assert (drivers + [d])[..|drivers + [d]| - 1] == drivers;
  }

  /** Fetches made or granted for the row. */
  ghost function Spent(s: State, id: RowId): nat {
    Count(s.log, Fired(id)) + Holders(s.drivers, id)
  }

  ghost function Doubts(s: State, id: RowId): nat {
    Count(s.log, Doubted(id))
  }

  /** The row was taken out of pending. */
  predicate Taken(rows: seq<Row>, id: RowId) {
    id < |rows| && rows[id].status != Pending
  }

  /** Leaving pending buys one fetch, a failed compare-and-set or an unsure insert one more. */
  ghost predicate Accounted(s: State, id: RowId) {
    Spent(s, id) <= Doubts(s, id) + if Taken(s.rows, id) then 1 else 0
  }

  /** A row taken before it was ever granted a fetch. */
  ghost predicate Dead(s: State, id: RowId) {
    Taken(s.rows, id) && Spent(s, id) <= Doubts(s, id)
  }

  // ----- One step

  /** From s to t the row's account stays in order, and neither taken nor dead is undone. */
  ghost predicate Ages(s: State, t: State, id: RowId) {
    && (Accounted(s, id) ==> Accounted(t, id))
    && (Dead(s, id) ==> Dead(t, id))
    && (Taken(s.rows, id) ==> Taken(t.rows, id))
  }

  lemma AgesTransitive(s: State, t: State, u: State, id: RowId)
    requires Ages(s, t, id) && Ages(t, u, id)
    ensures Ages(s, u, id)
  {
  }

  /** What a driver step may do to the account of a row. */
  lemma {:induction false} MoveAccount(s: State, k: nat, pc: Pc, id: RowId)
    requires k < |s.drivers|
    ensures var d := s.drivers[k];
            Spent(Move(s, k, pc), id) + Claims(d, id) == Spent(s, id) + Claims(d.(pc := pc), id)
  {
    HoldersUpdate(s.drivers, k, s.drivers[k].(pc := pc), id);
  }

  lemma {:induction false} MoveAges(s: State, k: nat, pc: Pc, id: RowId)
    requires k < |s.drivers| && !pc.Marked? && Cursor(s.drivers[k]) <= Cursor(s.drivers[k].(pc := pc))
    ensures Ages(s, Move(s, k, pc), id)
  {
    var d := s.drivers[k];
    MoveAccount(s, k, pc, id);
    UnsuresFall(d.ids, Cursor(d), Cursor(d.(pc := pc)), id);
  }

  /** A driver that is done fires no more. */
  lemma {:induction false} ExitAges(s: State, k: nat, id: RowId)
    requires k < |s.drivers|
    ensures Ages(s, Move(s, k, Exited), id)
  {
    var d := s.drivers[k];
    MoveAccount(s, k, Exited, id);
    assert Unsures(d.ids, |d.ids|, id) == 0;
  }

  lemma {:induction false} FinishAges(s: State, x: Option<RowId>, status: Status, e: Env, id: RowId)
    requires status != Pending
    ensures Ages(s, Finish(s, x, status, e), id)
  {
  }

  lemma {:induction false} FinishMoveAges(s: State, k: nat, x: Option<RowId>, status: Status, e: Env, pc: Pc, id: RowId)
    requires k < |s.drivers| && !pc.Marked? && status != Pending
    requires pc.Exited? || Cursor(s.drivers[k]) <= Cursor(s.drivers[k].(pc := pc))
    ensures Ages(s, Move(Finish(s, x, status, e), k, pc), id)
  {
    var m := Finish(s, x, status, e);
    FinishAges(s, x, status, e, id);
    if pc.Exited? {
      ExitAges(m, k, id);
    } else {
      MoveAges(m, k, pc, id);
    }
    AgesTransitive(s, m, Move(m, k, pc), id);
  }

  /** An insert of which the driver is unsure is a doubt of its row. */
  lemma {:induction false} ScheduleAges(s: State, k: nat, e: Env, id: RowId)
    requires k < |s.drivers| && s.drivers[k].pc.Scheduling?
    ensures Ages(s, ScheduleOne(s, k, e), id)
  {
    var d := s.drivers[k];
    var slot := Inserted(|s.rows|, e);
    UnsuresAppend(d.ids, slot, 0, id);
    HoldersUpdate(s.drivers, k, d.(ids := d.ids + [slot]), id);
    CountAppend(s.log, Doubted(id), Doubted(|s.rows|));
    CountAppend(s.log, Fired(id), Doubted(|s.rows|));
  }

  /** Taking a pending row pays for the fetch it grants. */
  lemma {:induction false} MarkPendingAges(s: State, k: nat, i: nat, e: Env, id: RowId)
    requires k < |s.drivers| && s.drivers[k].pc == Marking(i) && i < |s.drivers[k].ids|
    requires s.drivers[k].ids[i].Known? && IsPending(s.rows, s.drivers[k].ids[i].id) && !e.dbErr
    ensures Ages(s, Move(Mark(s, s.drivers[k].ids[i].id, e), k, Marked(i)), id)
  {
    MoveAccount(Mark(s, s.drivers[k].ids[i].id, e), k, Marked(i), id);
  }

  lemma {:induction false} MarkOnlyAges(s: State, x: RowId, e: Env, id: RowId)
    ensures Ages(s, Mark(s, x, e), id)
  {
  }

  /** Going on after a failed mark is what the doubt pays for. */
  lemma {:induction false} DoubtAges(s: State, k: nat, i: nat, id: RowId)
    requires k < |s.drivers| && s.drivers[k].pc == Marking(i) && i < |s.drivers[k].ids| && s.drivers[k].ids[i].Known?
    ensures Ages(s, Move(s.(log := s.log + [Doubted(s.drivers[k].ids[i].id)]), k, Marked(i)), id)
  {
    var x := s.drivers[k].ids[i].id;
    CountAppend(s.log, Doubted(id), Doubted(x));
    CountAppend(s.log, Fired(id), Doubted(x));
    MoveAccount(s.(log := s.log + [Doubted(x)]), k, Marked(i), id);
  }

  lemma {:induction false} MarkAges(s: State, k: nat, i: nat, e: Env, id: RowId)
    requires k < |s.drivers| && s.drivers[k].pc == Marking(i) && i < |s.drivers[k].ids|
    ensures Ages(s, MarkStep(s, k, i, e), id)
  {
    var d := s.drivers[k];
    if !d.live && e.cancelled {
      MoveAges(s, k, AtWave(i + 1), id);
    } else if !d.ids[i].Known? {
      MoveAccount(s, k, Marked(i), id);
    } else {
      var x := d.ids[i].id;
      var m := Mark(s, x, e);
      MarkOnlyAges(s, x, e, id);
      if e.dbErr && d.live {
        ExitAges(m, k, id);
        AgesTransitive(s, m, Move(m, k, Exited), id);
      } else if e.dbErr {
        DoubtAges(m, k, i, id);
        AgesTransitive(s, m, Move(m.(log := s.log + [Doubted(x)]), k, Marked(i)), id);
      } else if IsPending(s.rows, x) {
        MarkPendingAges(s, k, i, e, id);
      } else {
        ExitAges(s, k, id);
      }
    }
  }

  lemma {:induction false} NoteAges(s: State, k: nat, i: nat, id: RowId)
    requires k < |s.drivers| && s.drivers[k].pc == Marked(i) && i < |s.drivers[k].ids|
    ensures Ages(s, Move(Note(s, s.drivers[k].ids[i]), k, Fetching(i)), id)
  {
    MoveAccount(s, k, Fetching(i), id);
    if !s.drivers[k].ids[i].NoRow? {
      var x := s.drivers[k].ids[i].id;
      CountAppend(s.log, Doubted(id), Fired(x));
      CountAppend(s.log, Fired(id), Fired(x));
    }
  }

  lemma {:induction false} DriverStepAges(s: State, k: nat, e: Env, id: RowId)
    requires k < |s.drivers|
    ensures Ages(s, DriverStep(s, k, e), id)
  {
    var d := s.drivers[k];
    match d.pc
    case New =>
      MoveAges(s, k, Scheduling, id);
      MoveAges(s, k, AtWave(0), id);
      MoveAges(s, k, Retiring(0), id);
    case Scheduling =>
      MoveAges(s, k, AtWave(0), id);
      ScheduleAges(s, k, e, id);
    case Retiring(i) =>
      ExitAges(s, k, id);
      if i < |d.ids| {
        RetireAges(s, k, i, e, id);
      }
    case AtWave(i) =>
      ExitAges(s, k, id);
      MoveAges(s, k, Marking(i), id);
    case Marking(i) =>
      if i < |d.ids| {
        MarkAges(s, k, i, e, id);
      }
    case Marked(i) =>
      if i < |d.ids| {
        FireAges(s, k, i, e, id);
      }
    case Fetching(i) =>
      if i < |d.ids| {
        ReportAges(s, k, i, e, id);
      }
    case Exited =>
  }

  lemma {:induction false} RetireAges(s: State, k: nat, i: nat, e: Env, id: RowId)
    requires k < |s.drivers| && s.drivers[k].pc == Retiring(i) && i < |s.drivers[k].ids|
    ensures Ages(s, Move(Finish(s, IdOf(s.drivers[k].ids[i]), Skipped, e), k, Retiring(i + 1)), id)
  {
    FinishMoveAges(s, k, IdOf(s.drivers[k].ids[i]), Skipped, e, Retiring(i + 1), id);
  }

  lemma {:induction false} FireAges(s: State, k: nat, i: nat, e: Env, id: RowId)
    requires k < |s.drivers| && s.drivers[k].pc == Marked(i) && i < |s.drivers[k].ids|
    ensures Ages(s, FireStep(s, k, i, e), id)
  {
    FinishMoveAges(s, k, IdOf(s.drivers[k].ids[i]), Skipped, e, AtWave(i + 1), id);
    NoteAges(s, k, i, id);
  }

  lemma {:induction false} ReportAges(s: State, k: nat, i: nat, e: Env, id: RowId)
    requires k < |s.drivers| && s.drivers[k].pc == Fetching(i) && i < |s.drivers[k].ids|
    ensures var d := s.drivers[k];
            Ages(s, Move(Finish(s, IdOf(d.ids[i]), if e.fetchOk then Status.Ok else Fail, e), k,
                         if d.live && !e.fetchOk then Exited else AtWave(i + 1)), id)
  {
    var d := s.drivers[k];
    FinishMoveAges(s, k, IdOf(d.ids[i]), if e.fetchOk then Status.Ok else Fail, e,
                   if d.live && !e.fetchOk then Exited else AtWave(i + 1), id);
  }

  lemma {:induction false} SameAccountAges(s: State, t: State, id: RowId)
    requires t.rows == s.rows && t.log == s.log && Holders(t.drivers, id) == Holders(s.drivers, id)
    ensures Ages(s, t, id)
  {
  }

  lemma {:induction false} SpawnAges(s: State, d: Driver, id: RowId)
    requires d.pc.New? && forall i :: 0 <= i < |d.ids| ==> !d.ids[i].Unsure?
    ensures Ages(s, Spawn(s, d), id)
  {
    NoneUnsure(d.ids, 0, id);
    HoldersAppend(s.drivers, d, id);
    SameAccountAges(s, Spawn(s, d), id);
  }

  lemma {:induction false} ReclaimAges(s: State, groups: seq<Group>, malformed: bool, e: Env, id: RowId)
    ensures Ages(s, ReclaimStep(s, groups, malformed, e), id)
  {
    var t := ReclaimStep(s, groups, malformed, e);
    match s.boot
    case Done =>
    case Listing => SameAccountAges(s, t, id);
    case Reclaiming(left) =>
      if left != [] && t.drivers != s.drivers {
        var g := left[0];
        var d := Driver(g.at, g.cycle, false, |g.plan|, Given(g.plan), New);
        SpawnAges(s, d, id);
        SameAccountAges(Spawn(s, d), t, id);
        AgesTransitive(s, Spawn(s, d), t, id);
      } else {
        SameAccountAges(s, t, id);
      }
    case Discarding(ids, left) =>
      if ids != [] {
        var m := Finish(s, Some(ids[0]), Skipped, e);
        FinishAges(s, Some(ids[0]), Skipped, e, id);
        SameAccountAges(m, t, id);
        AgesTransitive(s, m, t, id);
      } else {
        SameAccountAges(s, t, id);
      }
  }

  lemma {:induction false} StepAges(s: State, a: Action, id: RowId)
    ensures Ages(s, Step(s, a), id)
  {
    match a
    case Reclaim(groups, malformed, e) =>
      if s.up {
        ReclaimAges(s, groups, malformed, e, id);
      }
    case Begin(at, cycle, waves) => SpawnAges(s, Driver(at, cycle, true, waves, [], New), id);
    case Resume(at, plan) => SpawnAges(s, Driver(at, "", false, |plan|, Given(plan), New), id);
    case Drive(k, e) =>
      if s.up && k < |s.drivers| {
        DriverStepAges(s, k, e, id);
      }
    case Switch(at, on) =>
    case Crash =>
    case Startup(e) =>
    case Supersede(at, keep, e) =>
  }

  // ----- Every run

  lemma {:induction false} RunAges(s: State, actions: seq<Action>, id: RowId)
    ensures Ages(s, Run(s, actions), id)
  {
    if actions != [] {
      var t := Run(s, actions[..|actions| - 1]);
      RunAges(s, actions[..|actions| - 1], id);
      StepAges(t, actions[|actions| - 1], id);
      AgesTransitive(s, t, Step(t, actions[|actions| - 1]), id);
    }
  }

  /**
    Over any run a ledgered wave fires at most once, plus once for each failed
    compare-and-set a reclaim driver ignored and for an insert that took effect though
    its driver was told it failed.
   */
  lemma {:induction false} FiresAtMostOnce(actions: seq<Action>, id: RowId)
    ensures var s := Run(Init, actions);
            && Count(s.log, Fired(id)) <= 1 + Doubts(s, id)
            && (IsPending(s.rows, id) ==> Count(s.log, Fired(id)) <= Doubts(s, id))
  {
    RunAges(Init, actions, id);
  }

  /** A row that left pending never returns to it, whatever fails. */
  lemma {:induction false} PendingNeverReturns(s: State, actions: seq<Action>, id: RowId)
    requires Taken(s.rows, id)
    ensures !IsPending(Run(s, actions).rows, id)
  {
    RunAges(s, actions, id);
  }

  /** A wave pending when its cycle was superseded never starts, unless its compare-and-set or its insert was doubted. */
  lemma {:induction false} SupersededNeverStarts(before: seq<Action>, at: Target, keep: string, e: Env, after: seq<Action>, id: RowId)
    requires var s := Run(Init, before);
             Started(s) && IsPending(s.rows, id) && s.rows[id].at == at && s.rows[id].cycle != keep && (!e.dbErr || e.applied)
    ensures var t := Run(Step(Run(Init, before), Supersede(at, keep, e)), after);
            && Count(t.log, Fired(id)) <= Doubts(t, id)
            && t.rows != [] && Taken(t.rows, id)
  {
    var s := Run(Init, before);
    RunAges(Init, before, id);
    var m := Step(s, Supersede(at, keep, e));
    assert Dead(m, id);
    RunAges(m, after, id);
  }

  // ----- The ledger does not lie

  /** The driver is between marking the row and reporting it. */
  predicate Works(d: Driver, id: RowId) {
    (d.pc.Marked? || d.pc.Fetching?) && d.pc.i < |d.ids| && d.ids[d.pc.i] == Known(id)
  }

  ghost predicate Held(drivers: seq<Driver>, id: RowId) {
    exists k :: 0 <= k < |drivers| && Works(drivers[k], id)
  }

  predicate IsRunning(rows: seq<Row>, id: RowId) {
    id < |rows| && rows[id].status == Running
  }

  /** While no store write has failed, a row is running only if a driver of this process is at work on it. */
  ghost predicate Honest(s: State, id: RowId) {
    s.up && s.clean && IsRunning(s.rows, id) ==> Held(s.drivers, id)
  }

  lemma {:induction false} HeldMoves(drivers: seq<Driver>, k: nat, d: Driver, id: RowId)
    requires k < |drivers| && Held(drivers, id)
    requires Works(drivers[k], id) ==> Works(d, id)
    ensures Held(drivers[k := d], id)
  {
    var j :| 0 <= j < |drivers| && Works(drivers[j], id);
    assert Works(drivers[k := d][j], id);
  }

  lemma HeldStarts(drivers: seq<Driver>, k: nat, d: Driver, id: RowId)
    requires k < |drivers| && Works(d, id)
    ensures Held(drivers[k := d], id)
  {
    assert Works(drivers[k := d][k], id);
  }

  lemma {:induction false} HeldJoins(drivers: seq<Driver>, d: Driver, id: RowId)
    requires Held(drivers, id)
    ensures Held(drivers + [d], id)
  {
    var j :| 0 <= j < |drivers| && Works(drivers[j], id);
    assert Works((drivers + [d])[j], id);
  }

  /** A step of a driver that is not at work on the row and does not set it running. */
  lemma {:induction false} IdleHonest(s: State, t: State, k: nat, pc: Pc, id: RowId)
    requires k < |s.drivers| && !Works(s.drivers[k], id) && Honest(s, id)
    requires t.up == s.up && t.drivers == s.drivers && (t.clean ==> s.clean) && (IsRunning(t.rows, id) ==> IsRunning(s.rows, id))
    ensures Honest(Move(t, k, pc), id)
  {
    if s.up && t.clean && IsRunning(t.rows, id) {
      HeldMoves(s.drivers, k, s.drivers[k].(pc := pc), id);
    }
  }

  lemma {:induction false} MarkHonest(s: State, k: nat, i: nat, e: Env, id: RowId)
    requires k < |s.drivers| && s.drivers[k].pc == Marking(i) && i < |s.drivers[k].ids| && Honest(s, id)
    ensures Honest(MarkStep(s, k, i, e), id)
  {
    var d := s.drivers[k];
    IdleHonest(s, s, k, AtWave(i + 1), id);
    IdleHonest(s, s, k, Marked(i), id);
    IdleHonest(s, s, k, Exited, id);
    if d.ids[i] == Known(id) {
      HeldStarts(s.drivers, k, d.(pc := Marked(i)), id);
    } else if d.ids[i].Known? {
      IdleHonest(s, Mark(s, d.ids[i].id, e), k, Marked(i), id);
      IdleHonest(s, Mark(s, d.ids[i].id, e), k, Exited, id);
    }
  }

  /** Reporting a row takes it out of running, or leaves the ledger unclean. */
  lemma {:induction false} FinishHonest(s: State, k: nat, x: Option<RowId>, status: Status, e: Env, pc: Pc, id: RowId)
    requires k < |s.drivers| && Honest(s, id) && status != Running
    requires Works(s.drivers[k], id) ==> x == Some(id)
    ensures Honest(Move(Finish(s, x, status, e), k, pc), id)
  {
    if x != Some(id) {
      IdleHonest(s, Finish(s, x, status, e), k, pc, id);
    }
  }

  lemma {:induction false} FireHonest(s: State, k: nat, i: nat, e: Env, id: RowId)
    requires k < |s.drivers| && s.drivers[k].pc == Marked(i) && i < |s.drivers[k].ids| && Honest(s, id)
    ensures Honest(FireStep(s, k, i, e), id)
  {
    var d := s.drivers[k];
    FinishHonest(s, k, IdOf(d.ids[i]), Skipped, e, AtWave(i + 1), id);
    if Held(s.drivers, id) {
      HeldMoves(s.drivers, k, d.(pc := Fetching(i)), id);
    }
  }

  lemma {:induction false} DriverStepHonest(s: State, k: nat, e: Env, id: RowId)
    requires k < |s.drivers| && Honest(s, id)
    ensures Honest(DriverStep(s, k, e), id)
  {
    var d := s.drivers[k];
    match d.pc
    case New =>
      IdleHonest(s, s, k, Scheduling, id);
      IdleHonest(s, s, k, AtWave(0), id);
      IdleHonest(s, s, k, Retiring(0), id);
    case Scheduling =>
      IdleHonest(s, s, k, AtWave(0), id);
      if Held(s.drivers, id) {
        HeldMoves(s.drivers, k, d.(ids := d.ids + [Inserted(|s.rows|, e)]), id);
      }
    case Retiring(i) =>
      IdleHonest(s, s, k, Exited, id);
      if i < |d.ids| {
        FinishHonest(s, k, IdOf(d.ids[i]), Skipped, e, Retiring(i + 1), id);
      }
    case AtWave(i) =>
      IdleHonest(s, s, k, Exited, id);
      IdleHonest(s, s, k, Marking(i), id);
    case Marking(i) =>
      if i < |d.ids| {
        MarkHonest(s, k, i, e, id);
      }
    case Marked(i) =>
      if i < |d.ids| {
        FireHonest(s, k, i, e, id);
      }
    case Fetching(i) =>
      if i < |d.ids| {
        FinishHonest(s, k, IdOf(d.ids[i]), if e.fetchOk then Status.Ok else Fail, e,
                     if d.live && !e.fetchOk then Exited else AtWave(i + 1), id);
      }
    case Exited =>
  }

  lemma {:induction false} SpawnHonest(s: State, d: Driver, id: RowId)
    requires Honest(s, id)
    ensures Honest(Spawn(s, d), id)
  {
    if Held(s.drivers, id) {
      HeldJoins(s.drivers, d, id);
    }
  }

  lemma {:induction false} StepHonest(s: State, a: Action, id: RowId)
    requires Honest(s, id)
    ensures Honest(Step(s, a), id)
  {
    match a
    case Reclaim(groups, malformed, e) =>
      if s.up && s.boot.Reclaiming? && s.boot.left != [] {
        var g := s.boot.left[0];
        SpawnHonest(s, Driver(g.at, g.cycle, false, |g.plan|, Given(g.plan), New), id);
      }
    case Begin(at, cycle, waves) => SpawnHonest(s, Driver(at, cycle, true, waves, [], New), id);
    case Resume(at, plan) => SpawnHonest(s, Driver(at, "", false, |plan|, Given(plan), New), id);
    case Drive(k, e) =>
      if s.up && k < |s.drivers| {
        DriverStepHonest(s, k, e, id);
      }
    case Switch(at, on) =>
    case Crash =>
    case Startup(e) =>
    case Supersede(at, keep, e) =>
  }

  /** In every reachable state with no failed write since the last start, each running row has its driver. */
  lemma {:induction false} LedgerIsHonest(actions: seq<Action>, id: RowId)
    ensures Honest(Run(Init, actions), id)
  {
    if actions != [] {
      LedgerIsHonest(actions[..|actions| - 1], id);
      StepHonest(Run(Init, actions[..|actions| - 1]), actions[|actions| - 1], id);
    }
  }

  // ----- What takes a row out of pending

  predicate AtRow(d: Driver, id: RowId) {
    match d.pc
    case Retiring(i) => i < |d.ids| && d.ids[i] == Known(id)
    case Marking(i) => i < |d.ids| && d.ids[i] == Known(id)
    case Marked(i) => i < |d.ids| && d.ids[i] == Known(id)
    case Fetching(i) => i < |d.ids| && d.ids[i] == Known(id)
    case _ => false
  }

  /** The steps that may take a row out of pending. */
  ghost predicate MayTake(s: State, a: Action, id: RowId) {
    || (a.Drive? && a.k < |s.drivers| && AtRow(s.drivers[a.k], id))
    || (a.Supersede? && id < |s.rows| && s.rows[id].at == a.at && s.rows[id].cycle != a.keep)
    || (a.Reclaim? && s.boot.Discarding? && s.boot.ids != [] && s.boot.ids[0] == id)
  }

  /** Nothing else does: not a disable or a crash, nor a driver busy with another wave. */
  lemma {:induction false} OnlyTheseTake(s: State, a: Action, id: RowId)
    requires IsPending(s.rows, id) && !MayTake(s, a, id)
    ensures IsPending(Step(s, a).rows, id) && Step(s, a).rows[id] == s.rows[id]
  {
    if a.Drive? && s.up && a.k < |s.drivers| {
      OthersLeavePending(s, a.k, a.e, id);
    }
  }

  lemma {:induction false} OthersLeavePending(s: State, k: nat, e: Env, id: RowId)
    requires k < |s.drivers| && IsPending(s.rows, id) && !AtRow(s.drivers[k], id)
    ensures var t := DriverStep(s, k, e); id < |t.rows| && t.rows[id] == s.rows[id]
  {
    match s.drivers[k].pc
    case New =>
    case Scheduling =>
    case Retiring(i) =>
    case AtWave(i) =>
    case Marking(i) =>
    case Marked(i) =>
    case Fetching(i) =>
    case Exited =>
  }

  // ----- What other steps record

  /** What takes a pending row without a driver skips it; nothing but a start or a retirement changes one that runs. */
  lemma {:induction false} OthersSkip(s: State, a: Action, id: RowId)
    requires id < |s.rows| && !a.Drive?
    ensures var t := Step(s, a);
            && id < |t.rows|
            && (t.rows[id] == s.rows[id]
                || (t.rows[id] == s.rows[id].(status := Skipped)
                    && ((a.Supersede? && IsPending(s.rows, id)) || (a.Reclaim? && s.boot.Discarding? && id in s.boot.ids)))
                || (t.rows[id] == s.rows[id].(status := Fail) && a.Startup? && IsRunning(s.rows, id)))
  {
    if a.Reclaim? && s.up && s.boot.Discarding? && s.boot.ids != [] {
      assert s.boot.ids[0] in s.boot.ids;
    }
  }

  /** A supersede that reaches the store skips exactly the target's pending rows of other cycles. */
  lemma {:induction false} SupersedeSkips(s: State, at: Target, keep: string, e: Env, id: RowId)
    requires Started(s) && id < |s.rows| && (!e.dbErr || e.applied)
    ensures var t := Step(s, Supersede(at, keep, e));
            && |t.rows| == |s.rows|
            && t.rows[id] == if s.rows[id].status == Pending && s.rows[id].at == at && s.rows[id].cycle != keep
                             then s.rows[id].(status := Skipped) else s.rows[id]
  {
  }

  /** A wave that was running when the process died is recorded as failed by the next start, and never starts again. */
  lemma {:induction false} CrashedWaveFails(before: seq<Action>, e: Env, after: seq<Action>, id: RowId)
    requires IsRunning(Run(Init, before).rows, id) && (!e.dbErr || e.applied)
    ensures var s := Step(Step(Run(Init, before), Crash), Startup(e));
            && id < |s.rows| && s.rows[id].status == Fail
            && !IsPending(Run(s, after).rows, id)
  {
    var s := Step(Step(Run(Init, before), Crash), Startup(e));
    PendingNeverReturns(s, after, id);
  }

  // ----- What a failed compare-and-set costs

  const Fine := Env(false, false, false, true)
  const Failing := Env(false, true, false, true)

  lemma RunMore(s: State, actions: seq<Action>, a: Action)
    ensures Run(s, actions + [a]) == Step(Run(s, actions), a)
  {
    assert (actions + [a])[..|actions + [a]| - 1] == actions;
  }

  ghost predicate Crashed(s: State, at: Target, row: Row) {
    !s.up && s.drivers == [] && at in s.enabled && s.rows == [row] && row.at == at
  }

  ghost predicate OneDriver(s: State, at: Target, row: Row, pc: Pc) {
    && s.up && at in s.enabled && s.rows == [row] && row.at == at
    && s.drivers == [Driver(at, row.cycle, false, 1, Given([0]), pc)]
  }

  lemma {:induction false} ReviveStep(s: State, at: Target, row: Row)
    requires Crashed(s, at, row) && row.status == Pending
    ensures var listing := Reclaim([Group(at, row.cycle, [0])], false, Fine);
            var t := Step(Step(Step(s, Startup(Fine)), listing), listing);
            OneDriver(t, at, row, New) && t.log == s.log
  {
    var groups := [Group(at, row.cycle, [0])];
    var up := Step(s, Startup(Fine));
    assert up.rows == [row] && up.boot == Listing;
    ListsOne(up, at, row, groups);
    RevivesOne(up.(boot := Reclaiming(groups)), at, row, groups);
  }

  lemma {:induction false} ListsOne(s: State, at: Target, row: Row, groups: seq<Group>)
    requires s.up && s.boot == Listing && groups == [Group(at, row.cycle, [0])]
    requires s.rows == [row] && row.at == at && row.status == Pending
    ensures Step(s, Reclaim(groups, false, Fine)) == s.(boot := Reclaiming(groups))
  {
    OneListing(at, row);
  }

  lemma {:induction false} RevivesOne(s: State, at: Target, row: Row, groups: seq<Group>)
    requires s.up && s.boot == Reclaiming(groups) && groups == [Group(at, row.cycle, [0])]
    requires s.drivers == [] && at in s.enabled && s.rows == [row] && row.at == at
    ensures var t := Step(s, Reclaim(groups, false, Fine)); OneDriver(t, at, row, New) && t.log == s.log
  {
    var d := Driver(at, row.cycle, false, 1, Given([0]), New);
    assert [] + [d] == [d];
  }

  lemma {:induction false} OneListing(at: Target, row: Row)
    requires row.status == Pending && row.at == at
    ensures IsListing([row], [Group(at, row.cycle, [0])])
  {
    var groups := [Group(at, row.cycle, [0])];
    assert IsPlan([row], at, Some(row.cycle), [0]);
    forall id: RowId | IsPending([row], id) ensures InGroups(groups, id) {
      assert groups[0] in groups && id in groups[0].plan;
    }
  }

  lemma {:induction false} ReachMark(s: State, at: Target, row: Row)
    requires OneDriver(s, at, row, New)
    ensures var t := Step(Step(s, Drive(0, Fine)), Drive(0, Fine));
            OneDriver(t, at, row, Marking(0)) && t.log == s.log
  {
    assert OneDriver(Step(s, Drive(0, Fine)), at, row, AtWave(0));
  }

  lemma {:induction false} MarkAndFire(s: State, at: Target, row: Row, e: Env)
    requires OneDriver(s, at, row, Marking(0)) && row.status == Pending && !e.cancelled && !e.applied
    ensures var t := Step(Step(Step(s, Drive(0, e)), Drive(0, Fine)), Crash);
            && Crashed(t, at, row.(status := if e.dbErr then Pending else Running))
            && t.log == s.log + (if e.dbErr then [Doubted(0)] else []) + [Fired(0)]
  {
    var m := Step(s, Drive(0, e));
    assert OneDriver(m, at, row.(status := if e.dbErr then Pending else Running), Marked(0));
  }

  /** After a crash the one pending row is revived and fired, whatever the mark answers. */
  lemma {:induction false} RevivedFires(actions: seq<Action>, at: Target, row: Row, e: Env) returns (more: seq<Action>)
    requires Crashed(Run(Init, actions), at, row) && row.status == Pending
    requires !e.cancelled && !e.applied
    ensures var s, t := Run(Init, actions), Run(Init, more);
            && Crashed(t, at, row.(status := if e.dbErr then Pending else Running))
            && t.log == s.log + (if e.dbErr then [Doubted(0)] else []) + [Fired(0)]
  {
    var s := Run(Init, actions);
    var listing := Reclaim([Group(at, row.cycle, [0])], false, Fine);
    more := RunTwo(actions, Startup(Fine), listing);
    RunMore(Init, more, listing);
    more := more + [listing];
    ReviveStep(s, at, row);
    var s1 := Run(Init, more);
    more := RunTwo(more, Drive(0, Fine), Drive(0, Fine));
    ReachMark(s1, at, row);
    var s2 := Run(Init, more);
    more := RunTwo(more, Drive(0, e), Drive(0, Fine));
    RunMore(Init, more, Crash);
    more := more + [Crash];
    MarkAndFire(s2, at, row, e);
  }

  lemma RunTwo(actions: seq<Action>, a: Action, b: Action) returns (more: seq<Action>)
    ensures Run(Init, more) == Step(Step(Run(Init, actions), a), b)
  {
    more := actions + [a];
    RunMore(Init, actions, a);
    RunMore(Init, more, b);
    more := more + [b];
  }

  /** A start on an empty ledger. */
  lemma {:induction false} FreshStart(at: Target) returns (actions: seq<Action>)
    ensures Run(Init, actions) == State([], [], {at}, true, true, [], Done)
  {
    actions := RunTwo([], Switch(at, true), Startup(Fine));
    assert Run(Init, actions) == State([], [], {at}, true, true, [], Listing);
    actions := RunTwo(actions, Reclaim([], false, Fine), Reclaim([], false, Fine));
    assert IsListing([], []);
  }

  ghost predicate OneLive(s: State, at: Target, rows: seq<Row>, ids: seq<Slot>, pc: Pc) {
    Started(s) && s.enabled == {at} && s.rows == rows && s.drivers == [Driver(at, "c", true, 1, ids, pc)]
  }

  lemma {:induction false} LiveStart(at: Target) returns (actions: seq<Action>)
    ensures OneLive(Run(Init, actions), at, [], [], Scheduling) && Run(Init, actions).log == []
  {
    actions := FreshStart(at);
    actions := RunTwo(actions, Begin(at, "c", 1), Drive(0, Fine));
  }

  lemma {:induction false} LiveSchedules(s: State, at: Target)
    requires OneLive(s, at, [], [], Scheduling)
    ensures var t := Step(s, Drive(0, Fine));
            OneLive(t, at, [Row(at, "c", 1, Pending)], [Known(0)], Scheduling) && t.log == s.log
  {
    assert [] + [Known(0)] == [Known(0)] && [] + [Row(at, "c", 1, Pending)] == [Row(at, "c", 1, Pending)];
  }

  lemma {:induction false} OneScheduledRow(at: Target) returns (actions: seq<Action>)
    ensures var s := Run(Init, actions);
            && Crashed(s, at, Row(at, "c", 1, Pending)) && s.log == []
  {
    actions := LiveStart(at);
    LiveSchedules(Run(Init, actions), at);
    actions := RunTwo(actions, Drive(0, Fine), Crash);
  }

  lemma CountPair(log: seq<Event>, d: Event, f: Event, x: Event)
    ensures Count(log + [d] + [f], x) == Count(log, x) + (if x == d then 1 else 0) + if x == f then 1 else 0
  {
    CountAppend(log, x, d);
    CountAppend(log + [d], x, f);
  }

  /** Any number of revivals, each with a failed mark that is ignored. */
  lemma {:induction false} FailingRevivals(at: Target, n: nat) returns (actions: seq<Action>)
    ensures var s := Run(Init, actions);
            && Crashed(s, at, Row(at, "c", 1, Pending)) && Count(s.log, Fired(0)) == n && Doubts(s, 0) == n
  {
    if n == 0 {
      actions := OneScheduledRow(at);
    } else {
      actions := FailingRevivals(at, n - 1);
      var log := Run(Init, actions).log;
      actions := RevivedFires(actions, at, Row(at, "c", 1, Pending), Failing);
      CountPair(log, Doubted(0), Fired(0), Fired(0));
      CountPair(log, Doubted(0), Fired(0), Doubted(0));
    }
  }

  /** The bound of FiresAtMostOnce is met for every number of ignored failures: with n of them one wave can fire n + 1 times. */
  lemma {:induction false} BoundIsMet(at: Target, n: nat) returns (actions: seq<Action>)
    ensures var s := Run(Init, actions);
            Count(s.log, Fired(0)) == n + 1 && Doubts(s, 0) == n
  {
    actions := FailingRevivals(at, n);
    var log := Run(Init, actions).log;
    actions := RevivedFires(actions, at, Row(at, "c", 1, Pending), Fine);
    assert log + [] == log;
    CountAppend(log, Fired(0), Fired(0));
    CountAppend(log, Doubted(0), Fired(0));
  }

  /** One ignored failure lets one ledgered wave fire twice. */
  lemma IgnoredFailureFiresTwice(at: Target) returns (actions: seq<Action>)
    ensures var s := Run(Init, actions);
            Count(s.log, Fired(0)) == 2 && Doubts(s, 0) == 1
  {
    actions := BoundIsMet(at, 1);
  }

  const Unacknowledged := Env(false, true, true, true)

  lemma {:induction false} UnsureToMarked(s: State, at: Target)
    requires OneLive(s, at, [], [], Scheduling) && s.log == []
    ensures var row := Row(at, "c", 1, Pending);
            var t := Step(Step(s, Drive(0, Unacknowledged)), Drive(0, Fine));
            var u := Step(Step(t, Drive(0, Fine)), Drive(0, Fine));
            && OneLive(t, at, [row], [Unsure(0)], AtWave(0)) && t.log == [Doubted(0)]
            && OneLive(u, at, [row], [Unsure(0)], Marked(0)) && u.log == [Doubted(0)]
  {
    var row := Row(at, "c", 1, Pending);
    var m := Step(s, Drive(0, Unacknowledged));
    assert [] + [Unsure(0)] == [Unsure(0)] && [] + [row] == [row] && [] + [Doubted(0)] == [Doubted(0)];
    assert OneLive(m, at, [row], [Unsure(0)], Scheduling) && m.log == [Doubted(0)];
    var t := Step(m, Drive(0, Fine));
    assert OneLive(Step(t, Drive(0, Fine)), at, [row], [Unsure(0)], Marking(0));
  }

  lemma {:induction false} UnsureFires(s: State, at: Target)
    requires OneLive(s, at, [Row(at, "c", 1, Pending)], [Unsure(0)], Marked(0)) && s.log == [Doubted(0)]
    ensures var t := Step(Step(s, Drive(0, Fine)), Crash);
            Crashed(t, at, Row(at, "c", 1, Pending)) && t.log == [Doubted(0)] + [Fired(0)]
  {
  }

  /** So does one insert that took effect although its driver was told it failed: the driver fires, and the revived row again. */
  lemma {:induction false} UnsureInsertFiresTwice(at: Target) returns (actions: seq<Action>)
    ensures var s := Run(Init, actions);
            Count(s.log, Fired(0)) == 2 && Doubts(s, 0) == 1
  {
    actions := LiveStart(at);
    var s := Run(Init, actions);
    UnsureToMarked(s, at);
    actions := RunTwo(actions, Drive(0, Unacknowledged), Drive(0, Fine));
    actions := RunTwo(actions, Drive(0, Fine), Drive(0, Fine));
    UnsureFires(Run(Init, actions), at);
    actions := RunTwo(actions, Drive(0, Fine), Crash);
    actions := RevivedFires(actions, at, Row(at, "c", 1, Pending), Fine);
    var two := [Doubted(0)] + [Fired(0)];
    assert two + [] == two;
    TwoFirings(0);
  }

  lemma {:induction false} TwoFirings(id: RowId)
    ensures var log := [Doubted(id)] + [Fired(id)] + [Fired(id)];
            Count(log, Fired(id)) == 2 && Count(log, Doubted(id)) == 1
  {
    var one, two := [Doubted(id)], [Doubted(id)] + [Fired(id)];
    assert [] + one == one;
    CountAppend([], Fired(id), Doubted(id));
    CountAppend([], Doubted(id), Doubted(id));
    CountPair(one, Fired(id), Fired(id), Fired(id));
    CountPair(one, Fired(id), Fired(id), Doubted(id));
  }
}
