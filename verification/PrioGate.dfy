/**
  The priority gate of the media downloader. Writers register a priority; a writer waits
  while a strictly better one is registered, parked on the gate's current channel. Every
  change of the register replaces that channel under the lock and closes the old one
  after the lock is released, so a closer can be delayed arbitrarily.
 */
module PrioGate {
  import opened Common

  datatype Priority = Priority(gen: int, kind: int, long: bool)

  const KindAudio := 0
  const KindVideo := 1

  /** Strictly better: not long first, then newer, then audio. */
  predicate Better(a: Priority, b: Priority) {
    if a.long != b.long then !a.long
    else if a.gen != b.gen then a.gen > b.gen
    else a.kind < b.kind
  }

  /** Better is a strict total order: of two different priorities exactly one is better, and it is transitive. */
  lemma BetterIsTotalOrder(a: Priority, b: Priority, c: Priority)
    ensures !Better(a, a)
    ensures Better(a, b) && Better(b, c) ==> Better(a, c)
    ensures a == b || Better(a, b) || Better(b, a)
    ensures !(Better(a, b) && Better(b, a))
  {
  }

  type ChanId = nat

  /** The gate's fields; channels are numbered in the order they were made. */
  datatype Gate = Gate(entries: map<nat, Priority>, nextID: nat, ch: ChanId)

  ghost predicate Blocked(entries: map<nat, Priority>, mine: Priority) {
    exists id :: id in entries && Better(entries[id], mine)
  }

  /** A short download waits for newer short ones, and for sound of its own generation, but never for a long one. */
  lemma ShortWaitsFor(entries: map<nat, Priority>, mine: Priority)
    requires !mine.long
    ensures Blocked(entries, mine) <==>
            exists id :: id in entries && !entries[id].long
                         && (entries[id].gen > mine.gen || (entries[id].gen == mine.gen && entries[id].kind < mine.kind))
  {
    if Blocked(entries, mine) {
      var id :| id in entries && Better(entries[id], mine);
      assert !entries[id].long;
    }
    if id :| id in entries && !entries[id].long
             && (entries[id].gen > mine.gen || (entries[id].gen == mine.gen && entries[id].kind < mine.kind)) {
      assert Better(entries[id], mine);
    }
  }

  /** A long one waits for every short one, however old, and for newer long ones and their sound. */
  lemma LongWaitsFor(entries: map<nat, Priority>, mine: Priority)
    requires mine.long
    ensures Blocked(entries, mine) <==>
            exists id :: id in entries
                         && (!entries[id].long || entries[id].gen > mine.gen
                             || (entries[id].gen == mine.gen && entries[id].kind < mine.kind))
  {
    if id :| id in entries && (!entries[id].long || entries[id].gen > mine.gen
                               || (entries[id].gen == mine.gen && entries[id].kind < mine.kind)) {
      assert Better(entries[id], mine);
    }
  }

  /** The sound of the newest short request never waits, and its video waits only for sound. */
  lemma NewestGoesFirst(entries: map<nat, Priority>, mine: Priority)
    requires !mine.long && forall id :: id in entries ==> entries[id].gen <= mine.gen && entries[id].kind in {KindAudio, KindVideo}
    ensures mine.kind == KindAudio ==> !Blocked(entries, mine)
    ensures mine.kind == KindVideo && Blocked(entries, mine) ==>
              exists id :: id in entries && entries[id] == Priority(mine.gen, KindAudio, false)
  {
    if Blocked(entries, mine) {
      ShortWaitsFor(entries, mine);
      var id :| id in entries && !entries[id].long
                && (entries[id].gen > mine.gen || (entries[id].gen == mine.gen && entries[id].kind < mine.kind));
      assert entries[id] == Priority(mine.gen, entries[id].kind, false);
    }
  }

  ghost predicate IsBest(entries: map<nat, Priority>, best: Option<Priority>) {
    match best
    case None => entries == map[]
    case Some(p) => (exists id :: id in entries && entries[id] == p) && !Blocked(entries, p)
  }

  /** The locked part of register; the old channel is left for the caller to close. */
  function Registered(g: Gate, p: Priority): Gate {
    Gate(g.entries[g.nextID + 1 := p], g.nextID + 1, g.ch + 1)
  }

  function Unregistered(g: Gate, id: nat): Gate {
    if id in g.entries then Gate(g.entries - {id}, g.nextID, g.ch + 1) else g
  }

  class PrioGate {
    var entries: map<nat, Priority>
    var nextID: nat
    var ch: ChanId

    ghost function Value(): Gate
      reads this
    {
      Gate(entries, nextID, ch)
    }

    constructor ()
      ensures Value() == Gate(map[], 0, 0)
    {
      entries, nextID, ch := map[], 0, 0;
    }

    method Register(p: Priority) returns (id: nat, prev: ChanId)
      modifies this
      ensures Value() == Registered(old(Value()), p) && id == nextID && prev == old(ch)
    {
      nextID := nextID + 1;
      id := nextID;
      entries := entries[id := p];
      prev := ch;
      ch := ch + 1;
    }

    method Unregister(id: nat) returns (prev: Option<ChanId>)
      modifies this
      ensures Value() == Unregistered(old(Value()), id)
      ensures prev == if id in old(entries) then Some(old(ch)) else None
    {
      if id !in entries {
        return None;
      }
      entries := entries - {id};
      prev := Some(ch);
      ch := ch + 1;
    }

    /** The best registered entry is one that nothing registered beats. */
    method Snapshot() returns (best: Option<Priority>, c: ChanId)
      ensures IsBest(entries, best) && c == ch
    {
      best := None;
      var ids := entries.Keys;
      while ids != {}
        invariant ids <= entries.Keys
        invariant best.None? ==> ids == entries.Keys
        invariant best.Some? ==> exists id :: id in entries && entries[id] == best.value
        invariant best.Some? ==> forall id :: id in entries && id !in ids ==> !Better(entries[id], best.value)
        decreases |ids|
      {
        var id :| id in ids;
        var p := entries[id];
        if best.None? || Better(p, best.value) {
          forall x | x in entries && x !in ids ensures !Better(entries[x], p) {
            BetterIsTotalOrder(entries[x], p, if best.Some? then best.value else p);
          }
          best := Some(p);
        }
        ids := ids - {id};
      }
      c := ch;
    }

    /** One round of wait: the writer may go exactly when nothing registered is better than it. */
    method MayGo(mine: Priority) returns (go: bool, c: ChanId)
      ensures go == !Blocked(entries, mine) && c == ch
    {
      var best;
      best, c := Snapshot();
      go := best.None? || !Better(best.value, mine);
      if go && best.Some? {
        forall id | id in entries ensures !Better(entries[id], mine) {
          BetterIsTotalOrder(entries[id], mine, best.value);
          BetterIsTotalOrder(mine, entries[id], best.value);
          BetterIsTotalOrder(entries[id], best.value, mine);
          BetterIsTotalOrder(best.value, mine, entries[id]);
        }
      }
    }
  }

  // ----- Any number of writers

  datatype Waiter =
    | Checking(mine: Priority)            // about to take a snapshot
    | Parked(mine: Priority, on: ChanId)  // in the select
    | Granted(mine: Priority)
    | Cancelled

  datatype State = State(gate: Gate, closed: set<ChanId>, closing: set<ChanId>, waiters: map<nat, Waiter>)

  datatype Action =
    | Register(p: Priority)
    | Unregister(id: nat)
    | Close(c: ChanId)                  // a register or unregister gets to its close
    | Arrive(w: nat, mine: Priority)    // a writer calls wait
    | Check(w: nat)                     // its snapshot and comparison
    | Wake(w: nat)                      // it finds its channel closed
    | Cancel(w: nat)                    // its context ends

  const Init := State(Gate(map[], 0, 0), {}, {}, map[])

  ghost function Step(s: State, a: Action): State {
    match a
    case Register(p) => s.(gate := Registered(s.gate, p), closing := s.closing + {s.gate.ch})
    case Unregister(id) =>
      if id in s.gate.entries then s.(gate := Unregistered(s.gate, id), closing := s.closing + {s.gate.ch}) else s
    case Close(c) => if c in s.closing then s.(closing := s.closing - {c}, closed := s.closed + {c}) else s
    case Arrive(w, mine) => if w in s.waiters then s else s.(waiters := s.waiters[w := Checking(mine)])
    case Check(w) =>
      if w in s.waiters && s.waiters[w].Checking? then
        var mine := s.waiters[w].mine;
        s.(waiters := s.waiters[w := if Blocked(s.gate.entries, mine) then Parked(mine, s.gate.ch) else Granted(mine)])
      else s
    case Wake(w) =>
      if w in s.waiters && s.waiters[w].Parked? && s.waiters[w].on in s.closed
      then s.(waiters := s.waiters[w := Checking(s.waiters[w].mine)]) else s
    case Cancel(w) => if w in s.waiters && s.waiters[w].Parked? then s.(waiters := s.waiters[w := Cancelled]) else s
  }

  ghost function Run(actions: seq<Action>): State {
    if actions == [] then Init else Step(Run(actions[..|actions| - 1]), actions[|actions| - 1])
  }

  /** Each old channel is closed or has its one closer in flight, and the current one is neither. */
  ghost predicate ChannelsInOrder(s: State) {
    && s.closed !! s.closing
    && forall c: ChanId :: Closes(s, c) <==> c < s.gate.ch
  }

  ghost predicate Closes(s: State, c: ChanId) {
    c in s.closed || c in s.closing
  }

  /** A waiter parked on the current channel is blocked by an entry that is still registered. */
  ghost predicate WaiterSafe(s: State, w: nat) {
    w in s.waiters && s.waiters[w].Parked? ==>
      s.waiters[w].on <= s.gate.ch && (s.waiters[w].on == s.gate.ch ==> Blocked(s.gate.entries, s.waiters[w].mine))
  }

  ghost predicate Inv(s: State) {
    && ChannelsInOrder(s)
    && (forall w: nat :: WaiterSafe(s, w))
    && forall id :: id in s.gate.entries ==> id <= s.gate.nextID
  }

  lemma {:induction false} StepKeepsInv(s: State, a: Action)
    requires Inv(s)
    ensures Inv(Step(s, a))
  {
    var t := Step(s, a);
    forall w: nat ensures WaiterSafe(t, w) {
      assert WaiterSafe(s, w);
    }
    forall c: ChanId ensures Closes(t, c) <==> c < t.gate.ch {
      assert Closes(s, c) <==> c < s.gate.ch;
    }
    assert !Closes(s, s.gate.ch);
  }

  lemma {:induction false} InvHolds(actions: seq<Action>)
    ensures Inv(Run(actions))
  {
    if actions != [] {
      InvHolds(actions[..|actions| - 1]);
      StepKeepsInv(Run(actions[..|actions| - 1]), actions[|actions| - 1]);
    }
  }

  /** No wake-up is lost: a parked waiter has a better entry on the current channel, or its channel is closed or being closed. */
  lemma {:induction false} NoLostWakeUp(actions: seq<Action>, w: nat)
    ensures var s := Run(actions);
            w in s.waiters && s.waiters[w].Parked? ==>
              || (s.waiters[w].on == s.gate.ch && Blocked(s.gate.entries, s.waiters[w].mine))
              || s.waiters[w].on in s.closed
              || s.waiters[w].on in s.closing
  {
    InvHolds(actions);
    var s := Run(actions);
    assert WaiterSafe(s, w);
    if w in s.waiters && s.waiters[w].Parked? {
      assert Closes(s, s.waiters[w].on) <==> s.waiters[w].on < s.gate.ch;
    }
  }

  /** No channel is closed twice: a close in flight is never for a channel already closed, and a new one never for one in flight. */
  lemma {:induction false} ClosedOnce(actions: seq<Action>, c: ChanId)
    ensures var s := Run(actions);
            && (c in s.closing ==> c !in s.closed)
            && s.gate.ch !in s.closing && s.gate.ch !in s.closed
  {
    InvHolds(actions);
    assert !Closes(Run(actions), Run(actions).gate.ch);
  }

  /** The steps that take waiter w to its grant, once every close in flight is done. */
  ghost function CloseAll(s: State): State {
    s.(closing := {}, closed := s.closed + s.closing)
  }

  /** A writer that nothing registered beats is let through: after the closes in flight it can wake, check and go. */
  lemma {:induction false} UnbeatenGetsThrough(actions: seq<Action>, w: nat)
    requires var s := Run(actions); w in s.waiters && (s.waiters[w].Parked? || s.waiters[w].Checking?) && !Blocked(s.gate.entries, s.waiters[w].mine)
    ensures var s := CloseAll(Run(actions));
            var t := Step(Step(s, Wake(w)), Check(w));
            t.waiters[w] == Granted(s.waiters[w].mine)
  {
    InvHolds(actions);
    var s := Run(actions);
    assert WaiterSafe(s, w);
    if s.waiters[w].Parked? {
      assert Closes(s, s.waiters[w].on);
    }
  }

  lemma {:induction false} CloseOne(actions: seq<Action>, c: ChanId) returns (more: seq<Action>)
    requires c in Run(actions).closing
    ensures Run(more) == Step(Run(actions), Close(c))
  {
    more := actions + [Close(c)];
    assert more[..|more| - 1] == actions;
  }

  lemma CloseAllSame(s: State, c: ChanId)
    requires c in s.closing
    ensures CloseAll(Step(s, Close(c))) == CloseAll(s) && |Step(s, Close(c)).closing| < |s.closing|
  {
    assert Step(s, Close(c)).closing == s.closing - {c};
    assert s.closed + {c} + (s.closing - {c}) == s.closed + s.closing;
  }

  /** The closes in flight can all be carried out. */
  lemma {:induction false} ClosersFinish(actions: seq<Action>) returns (more: seq<Action>)
    ensures Run(more) == CloseAll(Run(actions))
    decreases |Run(actions).closing|
  {
    var s := Run(actions);
    if s.closing == {} {
      more := actions;
    } else {
      var c :| c in s.closing;
      var next := CloseOne(actions, c);
      CloseAllSame(s, c);
      more := ClosersFinish(next);
    }
  }

  /** Among registered writers there is one that nothing beats, so the gate never blocks them all. */
  lemma {:induction false} SomeoneIsUnbeaten(entries: map<nat, Priority>) returns (id: nat)
    requires entries != map[]
    ensures id in entries && !Blocked(entries, entries[id])
    decreases |entries|
  {
    id :| id in entries;
    var rest := entries - {id};
    assert entries.Keys == rest.Keys + {id};
    assert |rest.Keys| < |entries.Keys|;
    if rest != map[] {
      var other := SomeoneIsUnbeaten(rest);
      BestOfTwo(entries, id, other);
      if Better(entries[other], entries[id]) {
        id := other;
      }
    }
  }

  lemma {:induction false} BestOfTwo(entries: map<nat, Priority>, id: nat, other: nat)
    requires id in entries && other in entries - {id} && !Blocked(entries - {id}, entries[other])
    ensures !Blocked(entries, entries[if Better(entries[other], entries[id]) then other else id])
  {
    var rest := entries - {id};
    var best := if Better(entries[other], entries[id]) then other else id;
    forall x | x in entries ensures !Better(entries[x], entries[best]) {
      if x != id {
        assert x in rest && rest[x] == entries[x];
      }
      BetterIsTotalOrder(entries[x], entries[id], entries[other]);
      BetterIsTotalOrder(entries[other], entries[id], entries[x]);
    }
  }
}
