/**
  Coalescing of concurrent calls by key. The lock protects the map of calls in flight;
  running the function, removing the call from the map and closing its channel are
  separate steps, and callers of any key interleave freely.
 */
module SingleFlight {
  import opened Common

  type Key = string
  type CallId = nat
  type Pid = nat

  /** What a function gives: a value and perhaps an error, or a panic. */
  datatype Outcome = Gave(val: string, err: Option<string>) | Panicked(reason: string)

  /** The result fields of a call. */
  datatype Answer = Answer(val: string, err: Option<string>)

  /** A panic is recorded as an error, with no value. */
  function AnswerOf(o: Outcome): Answer {
    match o
    case Gave(val, err) => Answer(val, err)
    case Panicked(reason) => Answer("", Some(reason))
  }

  /** A flightCall; the leader is the caller that made it. */
  datatype Call = Call(key: Key, leader: Pid, answer: Answer, done: bool)

  datatype Proc =
    | Running(call: CallId)                      // the function runs
    | Ran(call: CallId, outcome: Outcome)        // its result is recorded
    | Removed(call: CallId, outcome: Outcome)    // the map entry is gone
    | Following(call: CallId)                    // blocked on the channel
    | Led(call: CallId, outcome: Outcome)        // returned, or panicked on
    | Followed(call: CallId, answer: Answer)

  datatype State = State(calls: seq<Call>, inFlight: map<Key, CallId>, procs: map<Pid, Proc>)

  datatype Action =
    | Do(p: Pid, key: Key)
    | Finish(p: Pid, outcome: Outcome)
    | Remove(p: Pid)
    | Close(p: Pid)
    | Receive(p: Pid)

  const Init := State([], map[], map[])

  function Step(s: State, a: Action): State {
    match a
    case Do(p, key) =>
      if p in s.procs then s
      else if key in s.inFlight then s.(procs := s.procs[p := Following(s.inFlight[key])])
      else State(s.calls + [Call(key, p, Answer("", None), false)], s.inFlight[key := |s.calls|], s.procs[p := Running(|s.calls|)])
    case Finish(p, outcome) =>
      if p in s.procs && s.procs[p].Running? && s.procs[p].call < |s.calls| then
        var c := s.procs[p].call;
        s.(calls := s.calls[c := s.calls[c].(answer := AnswerOf(outcome))], procs := s.procs[p := Ran(c, outcome)])
      else s
    case Remove(p) =>
      if p in s.procs && s.procs[p].Ran? && s.procs[p].call < |s.calls| then
        var c := s.procs[p].call;
        s.(inFlight := s.inFlight - {s.calls[c].key}, procs := s.procs[p := Removed(c, s.procs[p].outcome)])
      else s
    case Close(p) =>
      if p in s.procs && s.procs[p].Removed? && s.procs[p].call < |s.calls| then
        var c := s.procs[p].call;
        s.(calls := s.calls[c := s.calls[c].(done := true)], procs := s.procs[p := Led(c, s.procs[p].outcome)])
      else s
    case Receive(p) =>
      if p in s.procs && s.procs[p].Following? && s.procs[p].call < |s.calls| && s.calls[s.procs[p].call].done then
        s.(procs := s.procs[p := Followed(s.procs[p].call, s.calls[s.procs[p].call].answer)])
      else s
  }

  ghost function Run(actions: seq<Action>): State {
    if actions == [] then Init else Step(Run(actions[..|actions| - 1]), actions[|actions| - 1])
  }

  // ----- The invariant

  /** The leader of a call is where the call's state says. */
  ghost predicate CallOk(s: State, c: CallId) {
    c < |s.calls| ==>
      var call := s.calls[c];
      && call.leader in s.procs && LeadsFor(s.procs[call.leader], c)
      && (call.done <==> s.procs[call.leader].Led?)
      && (!s.procs[call.leader].Running? ==> call.answer == AnswerOf(s.procs[call.leader].outcome))
      && (s.procs[call.leader].Running? || s.procs[call.leader].Ran? <==> call.key in s.inFlight && s.inFlight[call.key] == c)
  }

  predicate LeadsFor(p: Proc, c: CallId) {
    (p.Running? || p.Ran? || p.Removed? || p.Led?) && p.call == c
  }

  ghost predicate ProcOk(s: State, p: Pid) {
    p in s.procs ==>
      var proc := s.procs[p];
      && proc.call < |s.calls|
      && (LeadsFor(proc, proc.call) ==> s.calls[proc.call].leader == p)
      && (proc.Followed? ==> s.calls[proc.call].done && proc.answer == s.calls[proc.call].answer)
  }

  ghost predicate MapOk(s: State, key: Key) {
    key in s.inFlight ==> s.inFlight[key] < |s.calls| && s.calls[s.inFlight[key]].key == key
  }

  ghost predicate Inv(s: State) {
    && (forall c: CallId :: CallOk(s, c))
    && (forall p: Pid :: ProcOk(s, p))
    && forall key: Key :: MapOk(s, key)
  }

  lemma {:induction false} DoKeeps(s: State, p: Pid, key: Key)
    requires Inv(s)
    ensures Inv(Step(s, Do(p, key)))
  {
    var t := Step(s, Do(p, key));
    assert MapOk(s, key);
    forall c: CallId ensures CallOk(t, c) {
      assert CallOk(s, c);
    }
    forall q: Pid ensures ProcOk(t, q) {
      assert ProcOk(s, q);
    }
    forall k: Key ensures MapOk(t, k) {
      assert MapOk(s, k);
    }
  }

  /** A step of a leader on its own call. */
  lemma {:induction false} LeaderKeeps(s: State, a: Action)
    requires Inv(s) && !a.Do? && !a.Receive?
    ensures Inv(Step(s, a))
  {
    var t := Step(s, a);
    if t != s {
      var c := s.procs[a.p].call;
      assert ProcOk(s, a.p) && CallOk(s, c);
      forall d: CallId ensures CallOk(t, d) {
        assert CallOk(s, d);
      }
      forall q: Pid ensures ProcOk(t, q) {
        assert ProcOk(s, q);
      }
      forall k: Key ensures MapOk(t, k) {
        assert MapOk(s, k);
      }
    }
  }

  lemma {:induction false} ReceiveKeeps(s: State, p: Pid)
    requires Inv(s)
    ensures Inv(Step(s, Receive(p)))
  {
    var t := Step(s, Receive(p));
    forall c: CallId ensures CallOk(t, c) {
      assert CallOk(s, c);
    }
    forall q: Pid ensures ProcOk(t, q) {
      assert ProcOk(s, q);
    }
    forall k: Key ensures MapOk(t, k) {
      assert MapOk(s, k);
    }
  }

  lemma {:induction false} InvHolds(actions: seq<Action>)
    ensures Inv(Run(actions))
  {
    if actions != [] {
      var s, a := Run(actions[..|actions| - 1]), actions[|actions| - 1];
      InvHolds(actions[..|actions| - 1]);
      match a
      case Do(p, key) => DoKeeps(s, p, key);
      case Receive(p) => ReceiveKeeps(s, p);
      case Finish(_, _) => LeaderKeeps(s, a);
      case Remove(_) => LeaderKeeps(s, a);
      case Close(_) => LeaderKeeps(s, a);
    }
  }

  // ----- Main results

  /** At most one function runs for a key at any time. */
  lemma {:induction false} OneRunPerKey(actions: seq<Action>, p: Pid, q: Pid)
    requires var s := Run(actions);
             && p in s.procs && q in s.procs && s.procs[p].Running? && s.procs[q].Running?
             && s.procs[p].call < |s.calls| && s.procs[q].call < |s.calls|
             && s.calls[s.procs[p].call].key == s.calls[s.procs[q].call].key
    ensures p == q
  {
    InvHolds(actions);
    var s := Run(actions);
    assert ProcOk(s, p) && ProcOk(s, q) && CallOk(s, s.procs[p].call) && CallOk(s, s.procs[q].call);
  }

  /** A follower returns its leader's value and error, a panic as an error; the leader has returned by then. */
  lemma {:induction false} FollowersGetTheAnswer(actions: seq<Action>, p: Pid)
    requires p in Run(actions).procs && Run(actions).procs[p].Followed?
    ensures var s := Run(actions);
            var c := s.procs[p].call;
            && c < |s.calls|
            && s.calls[c].leader in s.procs
            && s.procs[s.calls[c].leader].Led?
            && match s.procs[s.calls[c].leader].outcome
               case Gave(val, err) => s.procs[p].answer.val == val && s.procs[p].answer.err == err
               case Panicked(reason) => s.procs[p].answer.val == "" && s.procs[p].answer.err == Some(reason)
  {
    InvHolds(actions);
    var s := Run(actions);
    assert ProcOk(s, p) && CallOk(s, s.procs[p].call);
  }

  /** How far a leader still has to go. */
  function StepsLeft(p: Proc): nat {
    match p
    case Running(_) => 3
    case Ran(_, _) => 2
    case Removed(_, _) => 1
    case _ => 0
  }

  /** The leader's next step, if its function gives this outcome. */
  function NextOf(p: Pid, proc: Proc, outcome: Outcome): Action {
    if proc.Running? then Finish(p, outcome) else if proc.Ran? then Remove(p) else Close(p)
  }

  lemma {:induction false} LeaderAdvances(s: State, p: Pid, outcome: Outcome)
    requires Inv(s) && p in s.procs && StepsLeft(s.procs[p]) > 0
    ensures var t := Step(s, NextOf(p, s.procs[p], outcome));
            && p in t.procs && StepsLeft(t.procs[p]) == StepsLeft(s.procs[p]) - 1 && t.procs[p].call == s.procs[p].call
            && |t.calls| == |s.calls| && t.procs.Keys == s.procs.Keys
            && forall q :: q in s.procs && q != p ==> t.procs[q] == s.procs[q]
  {
    assert ProcOk(s, p);
  }

  /** No follower is stuck: its call is done, or has a leader that three steps of its own bring to the close. */
  lemma {:induction false} FollowerCanReturn(actions: seq<Action>, p: Pid, outcome: Outcome) returns (more: seq<Action>)
    requires p in Run(actions).procs && Run(actions).procs[p].Following?
    ensures |more| <= |actions| + 4 && actions <= more
    ensures forall i :: |actions| <= i < |more| - 1 ==> !more[i].Do? && !more[i].Receive?
    ensures p in Run(more).procs && Run(more).procs[p].Followed?
  {
    var s := Run(actions);
    InvHolds(actions);
    assert ProcOk(s, p);
    var c := s.procs[p].call;
    assert CallOk(s, c);
    var leader := s.calls[c].leader;
    more := DriveLeader(actions, p, c, leader, outcome);
    InvHolds(more);
    var t := Run(more);
    assert ProcOk(t, leader) && CallOk(t, c);
    var last := more + [Receive(p)];
    assert last[..|last| - 1] == more;
    more := last;
  }

  lemma {:induction false} DriveLeader(actions: seq<Action>, p: Pid, c: CallId, leader: Pid, outcome: Outcome) returns (more: seq<Action>)
    requires var s := Run(actions);
             && p in s.procs && s.procs[p] == Following(c) && leader in s.procs && LeadsFor(s.procs[leader], c)
    ensures |more| == |actions| + StepsLeft(Run(actions).procs[leader]) && actions <= more
    ensures forall i :: |actions| <= i < |more| ==> !more[i].Do? && !more[i].Receive?
    ensures var t := Run(more);
            && p in t.procs && t.procs[p] == Following(c) && leader in t.procs && t.procs[leader].Led? && t.procs[leader].call == c
    decreases StepsLeft(Run(actions).procs[leader])
  {
    var s := Run(actions);
    InvHolds(actions);
    if StepsLeft(s.procs[leader]) == 0 {
      more := actions;
    } else {
      LeaderAdvances(s, leader, outcome);
      var next := actions + [NextOf(leader, s.procs[leader], outcome)];
      assert next[..|next| - 1] == actions;
      more := DriveLeader(next, p, c, leader, outcome);
    }
  }

  /** A call is closed once: the step that closes it finds it open. */
  lemma {:induction false} ClosedOnce(actions: seq<Action>, p: Pid)
    requires p in Run(actions).procs && Run(actions).procs[p].Removed?
    ensures var s := Run(actions); s.procs[p].call < |s.calls| && !s.calls[s.procs[p].call].done
  {
    InvHolds(actions);
    var s := Run(actions);
    assert ProcOk(s, p) && CallOk(s, s.procs[p].call);
  }

  /** Of the caller's calls it is the first that counts, and it is for this key. */
  ghost predicate Asks(actions: seq<Action>, p: Pid, key: Key) {
    exists i :: 0 <= i < |actions| && actions[i] == Do(p, key) && forall j :: 0 <= j < i ==> !(actions[j].Do? && actions[j].p == p)
  }

  /** Nobody is given the answer of another key: the call that a caller leads or follows is for the key it asked for. */
  lemma {:induction false} AnswersItsKey(actions: seq<Action>, p: Pid, key: Key)
    requires Asks(actions, p, key)
    ensures var s := Run(actions); p in s.procs && s.procs[p].call < |s.calls| && s.calls[s.procs[p].call].key == key
  {
    var init, a := actions[..|actions| - 1], actions[|actions| - 1];
    var s := Run(init);
    InvHolds(init);
    var i :| 0 <= i < |actions| && actions[i] == Do(p, key) && forall j :: 0 <= j < i ==> !(actions[j].Do? && actions[j].p == p);
    if i < |init| {
      assert init[i] == Do(p, key);
      AnswersItsKey(init, p, key);
      StepKeepsKey(s, a, p);
    } else {
      NotYet(init, p);
      assert MapOk(s, key);
    }
  }

  lemma {:induction false} NotYet(actions: seq<Action>, p: Pid)
    requires forall j :: 0 <= j < |actions| ==> !(actions[j].Do? && actions[j].p == p)
    ensures p !in Run(actions).procs
  {
    if actions != [] {
      NotYet(actions[..|actions| - 1], p);
    }
  }

  lemma {:induction false} StepKeepsKey(s: State, a: Action, p: Pid)
    requires p in s.procs && s.procs[p].call < |s.calls|
    ensures var t := Step(s, a);
            && p in t.procs && t.procs[p].call == s.procs[p].call < |t.calls|
            && t.calls[t.procs[p].call].key == s.calls[s.procs[p].call].key
  {
  }
}
