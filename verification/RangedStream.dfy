/**
  The ranged downloader: it pulls a file in chunks by Range requests (section 14 of
  RFC 9110), resumes a body that was cut short where it broke off, and passes every
  byte on as it arrives. The server and the moments of cancellation are arbitrary.
 */
module RangedStream {
  import opened Common

  type byte = bv8

  const streamReadRetries := 2
  const maxStreamBytes := 0x8000_0000

  /** An answered request; total is what its Content-Range says (negative when unknown), cut that the body broke off. */
  datatype Reply =
    | NoAnswer
    | Response(status: int, total: int, body: seq<byte>, cut: bool)

  /** The answer to the k-th request, for the bytes from an offset. */
  type Server = (nat, nat) -> Reply

  /** Whether the caller has given up by the k-th request. */
  type Cancelled = nat -> bool

  datatype Failure = Unreachable | BadStatus(code: int) | TooLarge | BrokenBody

  /** How a download without error came to its end. */
  datatype End = WholeBody | EmptyBody | ReachedTotal | ShortChunk | RefusedMore

  datatype Outcome = Outcome(status: int, total: int, out: seq<byte>, end: Ending)
  datatype Ending = Fine(how: End) | Failed(why: Failure)

  datatype State = State(offset: nat, out: seq<byte>, total: int, status: int, retries: nat, calls: nat)

  datatype Turn = Again(s: State) | Stop(o: Outcome)

  predicate Good(status: int) {
    status == 200 || status == 206
  }

  // ----- The specification: one turn of the loop, and the whole download

  /** A chunk's request is repeated while nothing answers, three times at most. */
  ghost function Open(server: Server, cancelled: Cancelled, offset: nat, calls: nat, attempt: nat): (Reply, nat)
    requires attempt <= streamReadRetries
    decreases streamReadRetries - attempt
  {
    var reply := server(calls, offset);
    if !reply.NoAnswer? || attempt >= streamReadRetries || cancelled(calls) then (reply, calls + 1)
    else Open(server, cancelled, offset, calls + 1, attempt + 1)
  }

  ghost function Take(s: State, reply: Reply, calls: nat, gaveUp: bool, chunk: nat): Turn {
    if reply.NoAnswer? then Stop(Outcome(s.status, s.total, s.out, Failed(Unreachable)))
    else if !Good(reply.status) then
      if s.status != 0 && s.out != [] then Stop(Outcome(s.status, s.total, s.out, Fine(RefusedMore)))
      else Stop(Outcome(reply.status, s.total, s.out, Failed(BadStatus(reply.status))))
    else
      var status := if s.status == 0 then reply.status else s.status;
      var total := if s.status == 0 then reply.total else s.total;
      Pass(State(s.offset + |reply.body|, s.out + reply.body, total, status, s.retries, calls), reply, gaveUp, chunk)
  }

  /** After the body has been passed on. */
  ghost function Pass(s: State, reply: Reply, gaveUp: bool, chunk: nat): Turn
    requires reply.Response?
  {
    if |s.out| > maxStreamBytes then Stop(Outcome(s.status, s.total, s.out, Failed(TooLarge)))
    else if reply.cut then
      if s.total > 0 && s.offset < s.total && s.retries < streamReadRetries && !gaveUp then Again(s.(retries := s.retries + 1))
      else Stop(Outcome(s.status, s.total, s.out, Failed(BrokenBody)))
    else if s.status == 200 then Stop(Outcome(s.status, s.total, s.out, Fine(WholeBody)))
    else if |reply.body| == 0 then Stop(Outcome(s.status, s.total, s.out, Fine(EmptyBody)))
    else if s.total >= 0 && s.offset >= s.total then Stop(Outcome(s.status, s.total, s.out, Fine(ReachedTotal)))
    else if s.total < 0 && |reply.body| < chunk then Stop(Outcome(s.status, s.total, s.out, Fine(ShortChunk)))
    else Again(s)
  }

  ghost function TurnOf(server: Server, cancelled: Cancelled, chunk: nat, s: State): Turn {
    var (reply, calls) := Open(server, cancelled, s.offset, s.calls, 0);
    Take(s, reply, calls, calls > 0 && cancelled(calls - 1), chunk)
  }

  /** A turn that goes on has moved bytes, or used up a retry. */
  lemma {:induction false} TurnDecreases(server: Server, cancelled: Cancelled, chunk: nat, s: State)
    requires TurnOf(server, cancelled, chunk, s).Again?
    ensures var t := TurnOf(server, cancelled, chunk, s).s;
            && |s.out| <= |t.out| <= maxStreamBytes && s.retries <= t.retries
            && (|t.out| > |s.out| || (s.retries < t.retries <= streamReadRetries))
  {
  }

  ghost function Download(server: Server, cancelled: Cancelled, chunk: nat, s: State): Outcome
    decreases maxStreamBytes + 1 - |s.out|, streamReadRetries + 1 - s.retries
  {
    match TurnOf(server, cancelled, chunk, s)
    case Stop(o) => o
    case Again(t) =>
      TurnDecreases(server, cancelled, chunk, s);
      Download(server, cancelled, chunk, t)
  }

  function Begin(start: nat): State {
    State(start, [], -1, 0, 0, 0)
  }

  // ----- The program

  method OpenChunk(server: Server, cancelled: Cancelled, offset: nat, calls0: nat) returns (reply: Reply, calls: nat)
    ensures (reply, calls) == Open(server, cancelled, offset, calls0, 0) && calls > 0
  {
    var attempt := 0;
    calls := calls0;
    while true
      invariant attempt <= streamReadRetries
      invariant Open(server, cancelled, offset, calls, attempt) == Open(server, cancelled, offset, calls0, 0)
      decreases streamReadRetries - attempt
    {
      reply := server(calls, offset);
      calls := calls + 1;
      if !reply.NoAnswer? || attempt >= streamReadRetries || cancelled(calls - 1) {
        return;
      }
      attempt := attempt + 1;
    }
  }

  // the checks before a turn's body is read
  method CheckReply(s0: State, reply: Reply) returns (s: State, done: Option<Outcome>)
    ensures done.Some? ==> forall calls, gaveUp, chunk: nat :: Take(s0, reply, calls, gaveUp, chunk) == Stop(done.value)
    ensures done.None? ==> reply.Response? && Good(reply.status)
    ensures done.None? ==> s == if s0.status == 0 then s0.(status := reply.status, total := reply.total) else s0
  {
    s := s0;
    if reply.NoAnswer? {
      return s, Some(Outcome(s.status, s.total, s.out, Failed(Unreachable)));
    }
    if s.status == 0 {
      if reply.status != 200 && reply.status != 206 {
        return s, Some(Outcome(reply.status, s.total, s.out, Failed(BadStatus(reply.status))));
      }
      s := s.(status := reply.status, total := reply.total);
    }
    if reply.status != 200 && reply.status != 206 {
      if |s.out| > 0 {
        return s, Some(Outcome(s.status, s.total, s.out, Fine(RefusedMore)));
      }
      return s, Some(Outcome(reply.status, s.total, s.out, Failed(BadStatus(reply.status))));
    }
    return s, None;
  }

  // what follows a turn's io.Copy: retry, stop or go on
  method AfterBody(s0: State, n: nat, reply: Reply, gaveUp: bool, chunk: nat) returns (s: State, done: Option<Outcome>)
    requires reply.Response? && n == |reply.body|
    ensures Pass(s0, reply, gaveUp, chunk) == if done.Some? then Stop(done.value) else Again(s)
  {
    s := s0;
    if |s.out| > maxStreamBytes {
      return s, Some(Outcome(s.status, s.total, s.out, Failed(TooLarge)));
    }
    if reply.cut {
      if s.total > 0 && s.offset < s.total && s.retries < streamReadRetries && !gaveUp {
        s := s.(retries := s.retries + 1);
        return s, None;
      }
      return s, Some(Outcome(s.status, s.total, s.out, Failed(BrokenBody)));
    }
    if s.status == 200 {
      return s, Some(Outcome(s.status, s.total, s.out, Fine(WholeBody)));
    }
    if n == 0 {
      return s, Some(Outcome(s.status, s.total, s.out, Fine(EmptyBody)));
    }
    if s.total >= 0 && s.offset >= s.total {
      return s, Some(Outcome(s.status, s.total, s.out, Fine(ReachedTotal)));
    }
    if s.total < 0 && n < chunk {
      return s, Some(Outcome(s.status, s.total, s.out, Fine(ShortChunk)));
    }
    return s, None;
  }

  // one turn of the loop
  method TakeTurn(server: Server, cancelled: Cancelled, chunk: nat, s0: State) returns (s: State, done: Option<Outcome>)
    ensures TurnOf(server, cancelled, chunk, s0) == if done.Some? then Stop(done.value) else Again(s)
  {
    var reply, calls := OpenChunk(server, cancelled, s0.offset, s0.calls);
    s, done := CheckReply(s0, reply);
    if done.Some? {
      return;
    }
    var n := |reply.body|;
    s := s.(out := s.out + reply.body, offset := s.offset + n, calls := calls);
    s, done := AfterBody(s, n, reply, cancelled(calls - 1), chunk);
  }

  method StreamRangedTo(server: Server, cancelled: Cancelled, chunk: nat, start: nat) returns (o: Outcome)
    ensures o == Download(server, cancelled, chunk, Begin(start))
  {
    var s := Begin(start);
    while true
      invariant Download(server, cancelled, chunk, s) == Download(server, cancelled, chunk, Begin(start))
      decreases maxStreamBytes + 1 - |s.out|, streamReadRetries + 1 - s.retries
    {
      var t, done := TakeTurn(server, cancelled, chunk, s);
      if done.Some? {
        return done.value;
      }
      TurnDecreases(server, cancelled, chunk, s);
      s := t;
    }
  }

  // ----- No gap and no repeat

  ghost predicate StartsAt(part: seq<byte>, content: seq<byte>, at: nat) {
    at + |part| <= |content| && part == content[at..at + |part|]
  }

  /** Range is honoured: a 206 holds bytes from the offset asked for, a 200 the file from its start, and only when asked for that. */
  ghost predicate HonoursRange(server: Server, content: seq<byte>) {
    forall k, at :: Honest(server(k, at), content, at)
  }

  ghost predicate Honest(reply: Reply, content: seq<byte>, at: nat) {
    reply.Response? && Good(reply.status) ==>
      && StartsAt(reply.body, content, at)
      && (reply.status == 200 ==> at == 0)
  }

  /** What was passed on so far is the content from the start up to the offset. */
  ghost predicate OnTrack(s: State, content: seq<byte>, start: nat) {
    s.offset == start + |s.out| && (s.out != [] ==> StartsAt(s.out, content, start))
  }

  lemma {:induction false} OpenAnswers(server: Server, cancelled: Cancelled, offset: nat, calls: nat, attempt: nat) returns (k: nat)
    requires attempt <= streamReadRetries
    ensures Open(server, cancelled, offset, calls, attempt).0 == server(k, offset)
    decreases streamReadRetries - attempt
  {
    var reply := server(calls, offset);
    if !reply.NoAnswer? || attempt >= streamReadRetries || cancelled(calls) {
      k := calls;
    } else {
      k := OpenAnswers(server, cancelled, offset, calls + 1, attempt + 1);
    }
  }

  lemma StartsConcat(a: seq<byte>, b: seq<byte>, content: seq<byte>, at: nat)
    requires StartsAt(a, content, at) && StartsAt(b, content, at + |a|)
    ensures StartsAt(a + b, content, at)
  {
  }

  lemma {:induction false} PassKeeps(s: State, reply: Reply, gaveUp: bool, chunk: nat)
    requires reply.Response?
    ensures var turn := Pass(s, reply, gaveUp, chunk);
            && (turn.Again? ==> turn.s.out == s.out && turn.s.offset == s.offset)
            && (turn.Stop? ==> turn.o.out == s.out)
  {
  }

  lemma {:induction false} MoreOnTrack(s: State, t: State, body: seq<byte>, content: seq<byte>, start: nat)
    requires OnTrack(s, content, start) && StartsAt(body, content, s.offset)
    requires t.out == s.out + body && t.offset == s.offset + |body|
    ensures OnTrack(t, content, start)
  {
    if s.out == [] {
      assert s.out + body == body;
    } else {
      StartsConcat(s.out, body, content, start);
    }
  }

  lemma {:induction false} TakeOnTrack(s: State, reply: Reply, calls: nat, gaveUp: bool, chunk: nat, content: seq<byte>, start: nat)
    requires OnTrack(s, content, start) && Honest(reply, content, s.offset)
    ensures var turn := Take(s, reply, calls, gaveUp, chunk);
            && (turn.Again? ==> OnTrack(turn.s, content, start))
            && (turn.Stop? ==> turn.o.out == [] || StartsAt(turn.o.out, content, start))
  {
    if reply.Response? && Good(reply.status) {
      var t := State(s.offset + |reply.body|, s.out + reply.body, if s.status == 0 then reply.total else s.total,
                     if s.status == 0 then reply.status else s.status, s.retries, calls);
      PassKeeps(t, reply, gaveUp, chunk);
      MoreOnTrack(s, t, reply.body, content, start);
    }
  }

  /** Whatever is cut, refused or cancelled, what was passed on is the content from the start, without gap or repeat. */
  lemma {:induction false} NoGapNoRepeat(server: Server, cancelled: Cancelled, chunk: nat, s: State, content: seq<byte>, start: nat)
    requires HonoursRange(server, content) && OnTrack(s, content, start)
    ensures var o := Download(server, cancelled, chunk, s);
            o.out == [] || StartsAt(o.out, content, start)
    decreases maxStreamBytes + 1 - |s.out|, streamReadRetries + 1 - s.retries
  {
    var k := OpenAnswers(server, cancelled, s.offset, s.calls, 0);
    var (reply, calls) := Open(server, cancelled, s.offset, s.calls, 0);
    TakeOnTrack(s, reply, calls, calls > 0 && cancelled(calls - 1), chunk, content, start);
    var turn := TurnOf(server, cancelled, chunk, s);
    if turn.Again? {
      TurnDecreases(server, cancelled, chunk, s);
      NoGapNoRepeat(server, cancelled, chunk, turn.s, content, start);
    }
  }

  // ----- Completeness

  /**
    Beyond honouring Range: more is refused only past the end, totals are always given
    (and right) or never, and a body that is not cut holds something, which without a
    total must be its whole chunk.
   */
  ghost predicate ServesAll(server: Server, content: seq<byte>, chunk: nat, known: bool) {
    forall k, at :: Serves(server(k, at), content, at, chunk, known)
  }

  ghost predicate Serves(reply: Reply, content: seq<byte>, at: nat, chunk: nat, known: bool) {
    reply.Response? ==>
      && (!Good(reply.status) ==> at >= |content|)
      && (reply.status == 206 ==> RightTotal(reply.total, content, known))
      && (reply.status == 206 && !reply.cut && at < |content| ==>
            if known then reply.body != []
            else |reply.body| == if at + chunk <= |content| then chunk else |content| - at)
      && (reply.status == 200 ==> reply.total < 0 && (!reply.cut ==> |reply.body| == |content|))
  }

  ghost predicate RightTotal(total: int, content: seq<byte>, known: bool) {
    if known then total == |content| else total < 0
  }

  /** Nothing was answered so far, or a 206 with the total that is given throughout. */
  ghost predicate TotalIs(s: State, content: seq<byte>, known: bool) {
    if s.status == 0 then s.out == [] else s.status == 206 && RightTotal(s.total, content, known)
  }

  lemma {:induction false} TakeCompletes(s: State, reply: Reply, calls: nat, gaveUp: bool, chunk: nat, content: seq<byte>, start: nat,
                                         known: bool)
    requires OnTrack(s, content, start) && Honest(reply, content, s.offset) && Serves(reply, content, s.offset, chunk, known)
    requires chunk > 0 && start <= |content| && TotalIs(s, content, known)
    ensures var turn := Take(s, reply, calls, gaveUp, chunk);
            && (turn.Again? ==> TotalIs(turn.s, content, known))
            && (turn.Stop? && turn.o.end.Fine? ==> start + |turn.o.out| == |content|)
  {
  }

  /** A download that reports no error is complete: with a total known, non-empty answers are enough. */
  lemma {:induction false} NoErrorIsComplete(server: Server, cancelled: Cancelled, chunk: nat, s: State, content: seq<byte>, start: nat,
                                             known: bool)
    requires HonoursRange(server, content) && ServesAll(server, content, chunk, known) && chunk > 0 && start <= |content|
    requires OnTrack(s, content, start) && TotalIs(s, content, known)
    ensures var o := Download(server, cancelled, chunk, s);
            o.end.Fine? ==> start + |o.out| == |content|
    decreases maxStreamBytes + 1 - |s.out|, streamReadRetries + 1 - s.retries
  {
    var k := OpenAnswers(server, cancelled, s.offset, s.calls, 0);
    var (reply, calls) := Open(server, cancelled, s.offset, s.calls, 0);
    var gaveUp := calls > 0 && cancelled(calls - 1);
    TakeOnTrack(s, reply, calls, gaveUp, chunk, content, start);
    TakeCompletes(s, reply, calls, gaveUp, chunk, content, start, known);
    var turn := TurnOf(server, cancelled, chunk, s);
    if turn.Again? {
      TurnDecreases(server, cancelled, chunk, s);
      NoErrorIsComplete(server, cancelled, chunk, turn.s, content, start, known);
    }
  }

  // ----- What the end of a download says when the server stops early

  /** The server honours Range with 206s only, and gives the right total in all of them or in none. */
  ghost predicate PartialOnly(server: Server, content: seq<byte>, known: bool) {
    forall k, at :: Partial(server(k, at), content, known)
  }

  ghost predicate Partial(reply: Reply, content: seq<byte>, known: bool) {
    reply.Response? && Good(reply.status) ==> reply.status == 206 && RightTotal(reply.total, content, known)
  }

  /** Not all was delivered, or the download cannot know that it was. */
  ghost predicate ShortOf(s: State, content: seq<byte>, known: bool) {
    && s.offset <= |content| && (known || s.out == [] ==> s.offset < |content|)
    && |s.out| <= maxStreamBytes && TotalIs(s, content, known)
  }

  /** The answer to a turn's request at the offset asked for, and whether the caller had given up by then. */
  datatype Asked = Asked(at: nat, reply: Reply, gaveUp: bool)

  /** The answers a download meets, turn by turn. */
  ghost function Met(server: Server, cancelled: Cancelled, chunk: nat, s: State): seq<Asked>
    decreases maxStreamBytes + 1 - |s.out|, streamReadRetries + 1 - s.retries
  {
    var turn := TurnOf(server, cancelled, chunk, s);
    [AskedAt(server, cancelled, s)]
    + if turn.Stop? then []
      else
        TurnDecreases(server, cancelled, chunk, s);
        Met(server, cancelled, chunk, turn.s)
  }

  ghost function AskedAt(server: Server, cancelled: Cancelled, s: State): Asked {
    var (reply, calls) := Open(server, cancelled, s.offset, s.calls, 0);
    Asked(s.offset, reply, calls > 0 && cancelled(calls - 1))
  }

  predicate Body(a: Asked) {
    a.reply.Response? && Good(a.reply.status)
  }

  predicate Cut(a: Asked) {
    Body(a) && a.reply.cut
  }

  predicate Reaches(a: Asked, content: seq<byte>)
    requires Body(a)
  {
    a.at + |a.reply.body| >= |content|
  }

  predicate TooMuch(a: Asked, start: nat)
    requires Body(a)
  {
    a.at + |a.reply.body| - start > maxStreamBytes
  }

  /**
    Asked for bytes before the end, the server refuses after it gave some, or stops
    short without breaking off: with nothing, or when no total is given with less than
    a chunk.
   */
  ghost predicate Lapse(a: Asked, content: seq<byte>, start: nat, chunk: nat, known: bool) {
    && a.at < |content| && a.reply.Response?
    && if Good(a.reply.status)
       then !a.reply.cut && !Reaches(a, content) && !TooMuch(a, start)
            && (a.reply.body == [] || (!known && |a.reply.body| < chunk))
       else a.at > start
  }

  /**
    A body breaks off, and the call does not ask again: the third to do so in the whole
    call, or one that has reached the end, or after the caller gave up, or without a total.
   */
  ghost predicate Breaks(a: Asked, cuts: nat, content: seq<byte>, start: nat, known: bool) {
    && Cut(a) && !TooMuch(a, start)
    && (!known || Reaches(a, content) || a.gaveUp || cuts >= streamReadRetries)
  }

  /** All has been delivered, and yet the body breaks off or is one too many, or the request past the end gets no answer. */
  ghost predicate Wasted(a: Asked, content: seq<byte>, start: nat) {
    if Body(a) then Reaches(a, content) && (a.reply.cut || TooMuch(a, start))
    else a.reply.NoAnswer? && a.at == |content|
  }

  ghost predicate Lapses(met: seq<Asked>, content: seq<byte>, start: nat, chunk: nat, known: bool) {
    exists i :: 0 <= i < |met| && Lapse(met[i], content, start, chunk, known)
  }

  ghost function Cuts(met: seq<Asked>): nat {
    if met == [] then 0 else (if Cut(met[0]) then 1 else 0) + Cuts(met[1..])
  }

  /** The i-th answer breaks the call, given the cuts before it. */
  ghost predicate BreaksAt(met: seq<Asked>, cuts: nat, i: nat, content: seq<byte>, start: nat, known: bool)
    requires i < |met|
  {
    Breaks(met[i], cuts + Cuts(met[..i]), content, start, known)
  }

  ghost predicate BreaksIn(met: seq<Asked>, cuts: nat, content: seq<byte>, start: nat, known: bool) {
    exists i: nat :: i < |met| && BreaksAt(met, cuts, i, content, start, known)
  }

  ghost predicate WastedIn(met: seq<Asked>, content: seq<byte>, start: nat) {
    exists i :: 0 <= i < |met| && Wasted(met[i], content, start)
  }

  /** What one turn makes of its answer when it goes on, and when it ends. */
  lemma {:induction false} TakeAgain(s: State, reply: Reply, calls: nat, gaveUp: bool, chunk: nat, content: seq<byte>, start: nat,
                                     known: bool)
    requires OnTrack(s, content, start) && Honest(reply, content, s.offset) && Partial(reply, content, known)
    requires ShortOf(s, content, known) && Take(s, reply, calls, gaveUp, chunk).Again?
    ensures var t, a := Take(s, reply, calls, gaveUp, chunk).s, Asked(s.offset, reply, gaveUp);
            && ShortOf(t, content, known) && t.retries == s.retries + (if Cut(a) then 1 else 0)
            && !Lapse(a, content, start, chunk, known) && !Breaks(a, s.retries, content, start, known)
            && !Wasted(a, content, start)
  {
  }

  lemma {:induction false} TakeStop(s: State, reply: Reply, calls: nat, gaveUp: bool, chunk: nat, content: seq<byte>, start: nat,
                                    known: bool)
    requires OnTrack(s, content, start) && Honest(reply, content, s.offset) && Partial(reply, content, known)
    requires ShortOf(s, content, known) && Take(s, reply, calls, gaveUp, chunk).Stop?
    ensures var o, a := Take(s, reply, calls, gaveUp, chunk).o, Asked(s.offset, reply, gaveUp);
            && (o.end.Fine? && start + |o.out| != |content| <==> Lapse(a, content, start, chunk, known))
            && (o.end == Failed(BrokenBody) <==> Breaks(a, s.retries, content, start, known))
            && (o.end.Failed? && start + |o.out| == |content| <==> Wasted(a, content, start))
  {
  }

  lemma LapsesFirst(a: Asked, rest: seq<Asked>, content: seq<byte>, start: nat, chunk: nat, known: bool)
    ensures Lapses([a] + rest, content, start, chunk, known)
       <==> Lapse(a, content, start, chunk, known) || Lapses(rest, content, start, chunk, known)
  {
    if Lapse(a, content, start, chunk, known) {
      assert ([a] + rest)[0] == a;
    }
    if Lapses(rest, content, start, chunk, known) {
      var i :| 0 <= i < |rest| && Lapse(rest[i], content, start, chunk, known);
      assert ([a] + rest)[i + 1] == rest[i];
    }
  }

  lemma WastedFirst(a: Asked, rest: seq<Asked>, content: seq<byte>, start: nat)
    ensures WastedIn([a] + rest, content, start) <==> Wasted(a, content, start) || WastedIn(rest, content, start)
  {
    if Wasted(a, content, start) {
      assert ([a] + rest)[0] == a;
    }
    if WastedIn(rest, content, start) {
      var i :| 0 <= i < |rest| && Wasted(rest[i], content, start);
      assert ([a] + rest)[i + 1] == rest[i];
    }
  }

  lemma CutsFirst(a: Asked, rest: seq<Asked>, i: nat)
    requires i <= |rest|
    ensures Cuts(([a] + rest)[..i + 1]) == (if Cut(a) then 1 else 0) + Cuts(rest[..i])
  {
    assert ([a] + rest)[..i + 1][1..] == rest[..i];
  }

  lemma BreaksLater(a: Asked, rest: seq<Asked>, cuts: nat, i: nat, content: seq<byte>, start: nat, known: bool)
    requires i < |rest|
    ensures BreaksAt([a] + rest, cuts, i + 1, content, start, known)
       <==> BreaksAt(rest, cuts + (if Cut(a) then 1 else 0), i, content, start, known)
  {
    CutsFirst(a, rest, i);
    assert ([a] + rest)[i + 1] == rest[i];
  }

  lemma BreaksFirst(a: Asked, rest: seq<Asked>, cuts: nat, content: seq<byte>, start: nat, known: bool)
    ensures BreaksIn([a] + rest, cuts, content, start, known)
       <==> Breaks(a, cuts, content, start, known)
            || BreaksIn(rest, cuts + (if Cut(a) then 1 else 0), content, start, known)
  {
    var met, more := [a] + rest, cuts + if Cut(a) then 1 else 0;
    assert met[..0] == [] && met[0] == a;
    assert Breaks(a, cuts, content, start, known) <==> BreaksAt(met, cuts, 0, content, start, known);
    if BreaksIn(rest, more, content, start, known) {
      var i: nat :| i < |rest| && BreaksAt(rest, more, i, content, start, known);
      BreaksLater(a, rest, cuts, i, content, start, known);
    }
    if BreaksIn(met, cuts, content, start, known) {
      var i: nat :| i < |met| && BreaksAt(met, cuts, i, content, start, known);
      if i > 0 {
        BreaksLater(a, rest, cuts, i - 1, content, start, known);
      }
    }
  }

  /** The end of a download, told from the answers it met. */
  ghost predicate EndsBy(o: Outcome, met: seq<Asked>, cuts: nat, content: seq<byte>, start: nat, chunk: nat, known: bool) {
    && (o.end.Fine? && start + |o.out| != |content| <==> Lapses(met, content, start, chunk, known))
    && (o.end == Failed(BrokenBody) <==> BreaksIn(met, cuts, content, start, known))
    && (o.end.Failed? && start + |o.out| == |content| <==> WastedIn(met, content, start))
  }

  lemma EndsByFirst(o: Outcome, a: Asked, rest: seq<Asked>, cuts: nat, content: seq<byte>, start: nat, chunk: nat, known: bool)
    requires !Lapse(a, content, start, chunk, known) && !Breaks(a, cuts, content, start, known) && !Wasted(a, content, start)
    requires EndsBy(o, rest, cuts + (if Cut(a) then 1 else 0), content, start, chunk, known)
    ensures EndsBy(o, [a] + rest, cuts, content, start, chunk, known)
  {
    LapsesFirst(a, rest, content, start, chunk, known);
    BreaksFirst(a, rest, cuts, content, start, known);
    WastedFirst(a, rest, content, start);
  }

  lemma EndsByOne(o: Outcome, a: Asked, cuts: nat, content: seq<byte>, start: nat, chunk: nat, known: bool)
    requires o.end.Fine? && start + |o.out| != |content| <==> Lapse(a, content, start, chunk, known)
    requires o.end == Failed(BrokenBody) <==> Breaks(a, cuts, content, start, known)
    requires o.end.Failed? && start + |o.out| == |content| <==> Wasted(a, content, start)
    ensures EndsBy(o, [a], cuts, content, start, chunk, known)
  {
    assert [a] + [] == [a];
    LapsesFirst(a, [], content, start, chunk, known);
    BreaksFirst(a, [], cuts, content, start, known);
    WastedFirst(a, [], content, start);
  }

  lemma {:induction false} DownloadEndsBy(server: Server, cancelled: Cancelled, chunk: nat, s: State, content: seq<byte>, start: nat,
                                          known: bool)
    requires HonoursRange(server, content) && PartialOnly(server, content, known)
    requires OnTrack(s, content, start) && ShortOf(s, content, known)
    ensures EndsBy(Download(server, cancelled, chunk, s), Met(server, cancelled, chunk, s), s.retries, content, start, chunk, known)
    decreases maxStreamBytes + 1 - |s.out|, streamReadRetries + 1 - s.retries
  {
    var k := OpenAnswers(server, cancelled, s.offset, s.calls, 0);
    var (reply, calls) := Open(server, cancelled, s.offset, s.calls, 0);
    var gaveUp := calls > 0 && cancelled(calls - 1);
    var a := AskedAt(server, cancelled, s);
    TakeOnTrack(s, reply, calls, gaveUp, chunk, content, start);
    var turn := TurnOf(server, cancelled, chunk, s);
    if turn.Again? {
      TakeAgain(s, reply, calls, gaveUp, chunk, content, start, known);
      TurnDecreases(server, cancelled, chunk, s);
      DownloadEndsBy(server, cancelled, chunk, turn.s, content, start, known);
      EndsByFirst(Download(server, cancelled, chunk, s), a, Met(server, cancelled, chunk, turn.s), s.retries, content, start,
                  chunk, known);
    } else {
      TakeStop(s, reply, calls, gaveUp, chunk, content, start, known);
      EndsByOne(turn.o, a, s.retries, content, start, chunk, known);
      assert [a] + [] == [a];
    }
  }

  /**
    A download reports success on an incomplete file if and only if it met a lapse: a
    refusal after the first byte, or an answer that stops short without breaking off.
   */
  lemma TruncatedIffLapse(server: Server, cancelled: Cancelled, chunk: nat, content: seq<byte>, start: nat, known: bool)
    requires HonoursRange(server, content) && PartialOnly(server, content, known) && start < |content|
    ensures var o := Download(server, cancelled, chunk, Begin(start));
            o.end.Fine? && start + |o.out| != |content|
            <==> Lapses(Met(server, cancelled, chunk, Begin(start)), content, start, chunk, known)
  {
    DownloadEndsBy(server, cancelled, chunk, Begin(start), content, start, known);
  }

  /**
    It fails over a broken body if and only if it met a third one in the whole call, one
    that had reached the end, one after the caller gave up, or any one without a total.
   */
  lemma BrokenIffThirdCut(server: Server, cancelled: Cancelled, chunk: nat, content: seq<byte>, start: nat, known: bool)
    requires HonoursRange(server, content) && PartialOnly(server, content, known) && start < |content|
    ensures Download(server, cancelled, chunk, Begin(start)).end == Failed(BrokenBody)
            <==> BreaksIn(Met(server, cancelled, chunk, Begin(start)), 0, content, start, known)
  {
    DownloadEndsBy(server, cancelled, chunk, Begin(start), content, start, known);
  }

  /** It fails although all was delivered if and only if an answer was wasted. */
  lemma FailedCompleteIff(server: Server, cancelled: Cancelled, chunk: nat, content: seq<byte>, start: nat, known: bool)
    requires HonoursRange(server, content) && PartialOnly(server, content, known) && start < |content|
    ensures var o := Download(server, cancelled, chunk, Begin(start));
            o.end.Failed? && start + |o.out| == |content|
            <==> WastedIn(Met(server, cancelled, chunk, Begin(start)), content, start)
  {
    DownloadEndsBy(server, cancelled, chunk, Begin(start), content, start, known);
  }

  /** The server answers every request before the end with bytes, or breaks off. */
  ghost predicate NeverLapses(server: Server, content: seq<byte>) {
    forall k: nat, at: nat :: at < |content| && server(k, at).Response? ==>
      Good(server(k, at).status) && (server(k, at).cut || server(k, at).body != [])
  }

  /** So against a server that gives totals and answers before the end with non-empty 206s, success means a complete file. */
  lemma {:induction false} NonEmptyIsComplete(server: Server, cancelled: Cancelled, chunk: nat, content: seq<byte>, start: nat)
    requires HonoursRange(server, content) && PartialOnly(server, content, true) && NeverLapses(server, content)
    requires start < |content|
    ensures var o := Download(server, cancelled, chunk, Begin(start));
            o.end.Fine? ==> start + |o.out| == |content|
  {
    TruncatedIffLapse(server, cancelled, chunk, content, start, true);
    NoLapseMet(server, cancelled, chunk, Begin(start), content, start);
  }

  lemma {:induction false} NoLapseMet(server: Server, cancelled: Cancelled, chunk: nat, s: State, content: seq<byte>, start: nat)
    requires NeverLapses(server, content)
    ensures !Lapses(Met(server, cancelled, chunk, s), content, start, chunk, true)
    decreases maxStreamBytes + 1 - |s.out|, streamReadRetries + 1 - s.retries
  {
    var k := OpenAnswers(server, cancelled, s.offset, s.calls, 0);
    var a := AskedAt(server, cancelled, s);
    var turn := TurnOf(server, cancelled, chunk, s);
    assert a.reply == server(k, s.offset);
    if turn.Again? {
      TurnDecreases(server, cancelled, chunk, s);
      NoLapseMet(server, cancelled, chunk, turn.s, content, start);
      LapsesFirst(a, Met(server, cancelled, chunk, turn.s), content, start, chunk, true);
    } else {
      LapsesFirst(a, [], content, start, chunk, true);
      assert [a] + [] == [a];
    }
  }

  // ----- Over the calls to the server

  ghost function Repeated(at: nat, n: nat): (r: seq<nat>)
    ensures |r| == n && forall i :: 0 <= i < n ==> r[i] == at
  {
    if n == 0 then [] else Repeated(at, n - 1) + [at]
  }

  /** What the repetition of a chunk's request comes to. */
  lemma {:induction false} OpenIs(server: Server, cancelled: Cancelled, offset: nat, calls: nat, attempt: nat)
    requires attempt <= 2
    ensures var (reply, after) := Open(server, cancelled, offset, calls, attempt);
            && calls < after <= calls + 3 - attempt && reply == server(after - 1, offset)
            && (forall k: nat :: calls <= k < after - 1 ==> server(k, offset).NoAnswer? && !cancelled(k))
            && (reply.NoAnswer? ==> after == calls + 3 - attempt || cancelled(after - 1))
    decreases 2 - attempt
  {
    if server(calls, offset).NoAnswer? && attempt < 2 && !cancelled(calls) {
      OpenIs(server, cancelled, offset, calls + 1, attempt + 1);
    }
  }

  /** The offsets a download asks for, call by call. */
  ghost function Calls(server: Server, cancelled: Cancelled, chunk: nat, s: State): seq<nat>
    decreases maxStreamBytes + 1 - |s.out|, streamReadRetries + 1 - s.retries
  {
    OpenIs(server, cancelled, s.offset, s.calls, 0);
    var made := Repeated(s.offset, Open(server, cancelled, s.offset, s.calls, 0).1 - s.calls);
    var turn := TurnOf(server, cancelled, chunk, s);
    if turn.Stop? then made
    else
      TurnDecreases(server, cancelled, chunk, s);
      made + Calls(server, cancelled, chunk, turn.s)
  }

  /** The k-th of these calls, the first of which is numbered base, went unanswered. */
  ghost predicate Silent(server: Server, calls: seq<nat>, base: nat, k: nat) {
    k < |calls| && server(base + k, calls[k]).NoAnswer?
  }

  /** A call went unanswered after the caller gave up, or as the third in a row for one offset. */
  ghost predicate GivesUp(server: Server, cancelled: Cancelled, calls: seq<nat>, base: nat, k: nat) {
    && Silent(server, calls, base, k)
    && (cancelled(base + k)
        || (k >= 2 && calls[k - 2] == calls[k - 1] == calls[k]
            && Silent(server, calls, base, k - 1) && Silent(server, calls, base, k - 2)))
  }

  ghost predicate GivesUpIn(server: Server, cancelled: Cancelled, calls: seq<nat>, base: nat) {
    exists k: nat :: GivesUp(server, cancelled, calls, base, k)
  }

  lemma {:induction false} SilentLater(server: Server, made: seq<nat>, rest: seq<nat>, base: nat, k: nat)
    ensures Silent(server, made + rest, base, |made| + k) <==> Silent(server, rest, base + |made|, k)
    ensures k < |made| ==> (Silent(server, made + rest, base, k) <==> Silent(server, made, base, k))
  {
  }

  /** Calls that end with an answer say nothing of those that follow. */
  lemma {:induction false} GivesUpLater(server: Server, cancelled: Cancelled, made: seq<nat>, rest: seq<nat>, base: nat)
    requires made != [] && !Silent(server, made, base, |made| - 1) && !GivesUpIn(server, cancelled, made, base)
    ensures GivesUpIn(server, cancelled, made + rest, base) <==> GivesUpIn(server, cancelled, rest, base + |made|)
  {
    var all, next := made + rest, base + |made|;
    if k: nat :| GivesUp(server, cancelled, all, base, k) {
      LaterGivesUp(server, cancelled, made, rest, base, k);
    }
    if k: nat :| GivesUp(server, cancelled, rest, next, k) {
      SilentLater(server, made, rest, base, k);
      if k >= 2 {
        SilentLater(server, made, rest, base, k - 1);
        SilentLater(server, made, rest, base, k - 2);
      }
      assert GivesUp(server, cancelled, all, base, |made| + k);
    }
  }

  lemma {:induction false} EarlierGivesUp(server: Server, cancelled: Cancelled, made: seq<nat>, rest: seq<nat>, base: nat, k: nat)
    requires k < |made| && GivesUp(server, cancelled, made + rest, base, k)
    ensures GivesUp(server, cancelled, made, base, k)
  {
    SilentLater(server, made, rest, base, k);
    if k >= 2 {
      SilentLater(server, made, rest, base, k - 1);
      SilentLater(server, made, rest, base, k - 2);
    }
  }

  lemma {:induction false} LaterGivesUp(server: Server, cancelled: Cancelled, made: seq<nat>, rest: seq<nat>, base: nat, k: nat)
    requires made != [] && !Silent(server, made, base, |made| - 1) && !GivesUpIn(server, cancelled, made, base)
    requires GivesUp(server, cancelled, made + rest, base, k)
    ensures GivesUpIn(server, cancelled, rest, base + |made|)
  {
    SilentLater(server, made, rest, base, |made| - 1);
    SilentLater(server, made, rest, base, k);
    if k < |made| {
      EarlierGivesUp(server, cancelled, made, rest, base, k);
    } else {
      var j := k - |made|;
      SilentLater(server, made, rest, base, j);
      if j >= 2 {
        SilentLater(server, made, rest, base, j - 1);
        SilentLater(server, made, rest, base, j - 2);
      }
      assert GivesUp(server, cancelled, rest, base + |made|, j);
    }
  }

  /** The calls of one turn give up exactly when the last of them went unanswered. */
  lemma {:induction false} TurnGivesUp(server: Server, cancelled: Cancelled, offset: nat, calls: nat)
    ensures var (reply, after) := Open(server, cancelled, offset, calls, 0);
            && calls < after
            && var made := Repeated(offset, after - calls);
            && (Silent(server, made, calls, |made| - 1) <==> reply.NoAnswer?)
            && (GivesUpIn(server, cancelled, made, calls) <==> reply.NoAnswer?)
  {
    OpenIs(server, cancelled, offset, calls, 0);
    var (reply, after) := Open(server, cancelled, offset, calls, 0);
    var made := Repeated(offset, after - calls);
    if reply.NoAnswer? {
      assert |made| == 3 ==> Silent(server, made, calls, 0) && Silent(server, made, calls, 1);
      assert GivesUp(server, cancelled, made, calls, |made| - 1);
    }
    if !reply.NoAnswer? {
      forall k: nat ensures !GivesUp(server, cancelled, made, calls, k) {
      }
    }
  }

  lemma {:induction false} TakeUnreachable(s: State, reply: Reply, calls: nat, gaveUp: bool, chunk: nat)
    ensures var turn := Take(s, reply, calls, gaveUp, chunk);
            && (turn.Stop? && turn.o.end == Failed(Unreachable) <==> reply.NoAnswer?)
            && (turn.Again? ==> turn.s.calls == calls)
  {
  }

  lemma {:induction false} UnreachableIffSilent(server: Server, cancelled: Cancelled, chunk: nat, s: State)
    ensures Download(server, cancelled, chunk, s).end == Failed(Unreachable)
            <==> GivesUpIn(server, cancelled, Calls(server, cancelled, chunk, s), s.calls)
    decreases maxStreamBytes + 1 - |s.out|, streamReadRetries + 1 - s.retries
  {
    var (reply, calls) := Open(server, cancelled, s.offset, s.calls, 0);
    TurnGivesUp(server, cancelled, s.offset, s.calls);
    TakeUnreachable(s, reply, calls, calls > 0 && cancelled(calls - 1), chunk);
    var turn := TurnOf(server, cancelled, chunk, s);
    if turn.Again? {
      TurnDecreases(server, cancelled, chunk, s);
      UnreachableIffSilent(server, cancelled, chunk, turn.s);
      GivesUpLater(server, cancelled, Repeated(s.offset, calls - s.calls), Calls(server, cancelled, chunk, turn.s), s.calls);
    }
  }

  /**
    A download ends without an answer exactly when three calls in a row for one offset went
    unanswered, or one did after the caller gave up.
   */
  lemma {:induction false} UnreachableIff(server: Server, cancelled: Cancelled, chunk: nat, start: nat)
    ensures Download(server, cancelled, chunk, Begin(start)).end == Failed(Unreachable)
            <==> exists k: nat :: GivesUp(server, cancelled, Calls(server, cancelled, chunk, Begin(start)), 0, k)
  {
    UnreachableIffSilent(server, cancelled, chunk, Begin(start));
  }

  /** So a server that answers one of any three calls in a row is always reached, if the caller does not give up. */
  lemma {:induction false} OneOfThreeIsReached(server: Server, cancelled: Cancelled, chunk: nat, start: nat)
    requires forall k: nat :: !cancelled(k)
    requires forall k: nat, at: nat :: server(k, at).Response? || server(k + 1, at).Response? || server(k + 2, at).Response?
    ensures Download(server, cancelled, chunk, Begin(start)).end != Failed(Unreachable)
  {
    UnreachableIff(server, cancelled, chunk, start);
    var calls := Calls(server, cancelled, chunk, Begin(start));
    if k: nat :| GivesUp(server, cancelled, calls, 0, k) {
      var at := calls[k];
      assert server(k - 2, at).NoAnswer? && server(k - 2 + 1, at).NoAnswer? && server(k - 2 + 2, at).NoAnswer?;
    }
  }

  // ----- The whole outcome, told from the answers

  ghost function Bodies(met: seq<Asked>): seq<byte> {
    if met == [] then [] else (if Body(met[0]) then met[0].reply.body else []) + Bodies(met[1..])
  }

  /** The last answer is the one that ends the download. */
  ghost predicate EndIs(o: Outcome, last: Asked, out: seq<byte>) {
    && (o.end == Failed(Unreachable) <==> last.reply.NoAnswer?)
    && (o.end == Fine(RefusedMore) <==> last.reply.Response? && !Good(last.reply.status) && out != [])
    && (forall code :: o.end == Failed(BadStatus(code)) <==>
          last.reply.Response? && last.reply.status == code && !Good(code) && out == [])
    && (o.end == Failed(TooLarge) <==> Body(last) && |out| > maxStreamBytes)
  }

  /** Each answer but the last one is a body, asked for where the bodies before it end. */
  ghost predicate AskedOn(met: seq<Asked>, from: nat) {
    met == [] || (met[0].at == from && (|met| > 1 ==> Body(met[0]) && AskedOn(met[1..], from + |met[0].reply.body|)))
  }

  /** The status reported is the first answer's, or that of a refusal before any byte; the total is the first body's. */
  ghost predicate ReportIs(o: Outcome, s: State, met: seq<Asked>) {
    met != [] &&
    var last, out := met[|met| - 1], s.out + Bodies(met);
    && o.status == (if last.reply.Response? && !Good(last.reply.status) && out == [] then last.reply.status
                    else if s.status != 0 then s.status
                    else if Body(met[0]) then met[0].reply.status else 0)
    && o.total == (if s.status == 0 && Body(met[0]) then met[0].reply.total else s.total)
  }

  lemma {:induction false} TakeEnds(s: State, reply: Reply, calls: nat, gaveUp: bool, chunk: nat)
    requires (s.out != [] ==> s.status != 0) && (s.status == 0 || Good(s.status))
    ensures var turn, a := Take(s, reply, calls, gaveUp, chunk), Asked(s.offset, reply, gaveUp);
            && (turn.Stop? ==> turn.o.out == s.out + Bodies([a]) && EndIs(turn.o, a, turn.o.out) && ReportIs(turn.o, s, [a]))
            && (turn.Again? ==> Body(a) && turn.s.out == s.out + Bodies([a]) && turn.s.offset == s.offset + |reply.body|
                                && Good(turn.s.status) && turn.s.status == (if s.status == 0 then reply.status else s.status)
                                && turn.s.total == (if s.status == 0 then reply.total else s.total))
  {
    var a := Asked(s.offset, reply, gaveUp);
    assert [a][1..] == [] && Bodies([]) == [];
    assert Bodies([a]) == if Body(a) then reply.body else [];
    assert s.out + [] == s.out;
  }

  /**
    What was passed on are the bodies met, whoever the server is, each asked for where the
    ones before it end; and how the download ends is told by the last answer.
   */
  lemma {:induction false} MetTellsFrom(server: Server, cancelled: Cancelled, chunk: nat, s: State)
    requires (s.out != [] ==> s.status != 0) && (s.status == 0 || Good(s.status))
    ensures var o, met := Download(server, cancelled, chunk, s), Met(server, cancelled, chunk, s);
            && met != [] && o.out == s.out + Bodies(met) && AskedOn(met, s.offset)
            && EndIs(o, met[|met| - 1], o.out) && ReportIs(o, s, met)
    decreases maxStreamBytes + 1 - |s.out|, streamReadRetries + 1 - s.retries
  {
    var (reply, calls) := Open(server, cancelled, s.offset, s.calls, 0);
    var gaveUp := calls > 0 && cancelled(calls - 1);
    var a := AskedAt(server, cancelled, s);
    TakeEnds(s, reply, calls, gaveUp, chunk);
    var turn := TurnOf(server, cancelled, chunk, s);
    if turn.Again? {
      TurnDecreases(server, cancelled, chunk, s);
      MetTellsFrom(server, cancelled, chunk, turn.s);
      MetFirst(Download(server, cancelled, chunk, turn.s), s, turn.s, a, Met(server, cancelled, chunk, turn.s));
    } else {
      assert [a] + [] == [a];
    }
  }

  lemma {:induction false} MetFirst(o: Outcome, s: State, t: State, a: Asked, rest: seq<Asked>)
    requires rest != [] && Body(a) && a.at == s.offset && AskedOn(rest, t.offset)
    requires t.out == s.out + Bodies([a]) && t.offset == s.offset + |a.reply.body|
    requires Good(t.status) && t.status == (if s.status == 0 then a.reply.status else s.status)
    requires t.total == (if s.status == 0 then a.reply.total else s.total)
    requires o.out == t.out + Bodies(rest) && EndIs(o, rest[|rest| - 1], o.out) && ReportIs(o, t, rest)
    ensures var met := [a] + rest;
            && o.out == s.out + Bodies(met) && AskedOn(met, s.offset)
            && EndIs(o, met[|met| - 1], o.out) && ReportIs(o, s, met)
  {
    var met := [a] + rest;
    assert met[1..] == rest && [a][1..] == [] && Bodies([]) == [];
    assert Bodies([a]) == a.reply.body;
    assert s.out + (a.reply.body + Bodies(rest)) == s.out + a.reply.body + Bodies(rest);
  }

  lemma {:induction false} MetTells(server: Server, cancelled: Cancelled, chunk: nat, start: nat)
    ensures var o, met := Download(server, cancelled, chunk, Begin(start)), Met(server, cancelled, chunk, Begin(start));
            && met != [] && o.out == Bodies(met) && AskedOn(met, start)
            && EndIs(o, met[|met| - 1], o.out) && ReportIs(o, Begin(start), met)
  {
    MetTellsFrom(server, cancelled, chunk, Begin(start));
    var met := Met(server, cancelled, chunk, Begin(start));
    assert [] + Bodies(met) == Bodies(met);
  }

  function TwoReplies(first: Reply, then_: Reply): Server {
    (k: nat, at: nat) => if k == 0 then first else then_
  }

  function Never(): Cancelled {
    (k: nat) => false
  }

  lemma {:induction false} TwoTurns(first: Reply, then_: Reply, chunk: nat, s: State)
    requires first.Response? && then_.Response? && s.calls == 0
    ensures var server := TwoReplies(first, then_);
            var turn := Take(s, first, 1, false, chunk);
            && TurnOf(server, Never(), chunk, s) == turn
            && (turn.Again? && turn.s.calls == 1 && Take(turn.s, then_, 2, false, chunk).Stop? ==>
                  Download(server, Never(), chunk, s) == Take(turn.s, then_, 2, false, chunk).o)
  {
    var server := TwoReplies(first, then_);
    assert Open(server, Never(), s.offset, 0, 0) == (first, 1);
    var turn := Take(s, first, 1, false, chunk);
    if turn.Again? && turn.s.calls == 1 {
      assert Open(server, Never(), turn.s.offset, 1, 0) == (then_, 2);
    }
  }

  /** A refusal in mid-file is reported as success, with the rest of the file missing. */
  lemma RefusalTruncates()
    ensures Download(TwoReplies(Response(206, 2, [1], false), Response(403, -1, [], false)), Never(), 1, Begin(0))
            == Outcome(206, 2, [1], Fine(RefusedMore))
  {
    var first, then_ := Response(206, 2, [1], false), Response(403, -1, [], false);
    TwoTurns(first, then_, 1, Begin(0));
    assert [] + [1 as byte] == [1];
  }

  /** A server whose every body breaks off after one byte. */
  function Dribble(content: seq<byte>): Server {
    (k: nat, at: nat) => if at < |content| then Response(206, |content|, [content[at]], true) else NoAnswer
  }

  lemma {:induction false} DribbleTurn(content: seq<byte>, s: State, chunk: nat)
    requires s.offset < |content| <= maxStreamBytes && |s.out| == s.offset && (s.status == 206 ==> s.total == |content|)
    requires s.status == 206 || s.status == 0
    ensures var out := s.out + [content[s.offset]];
            TurnOf(Dribble(content), Never(), chunk, s)
            == if s.offset + 1 < |content| && s.retries < streamReadRetries
               then Again(State(s.offset + 1, out, |content|, 206, s.retries + 1, s.calls + 1))
               else Stop(Outcome(206, |content|, out, Failed(BrokenBody)))
  {
    assert Open(Dribble(content), Never(), s.offset, s.calls, 0)
        == (Response(206, |content|, [content[s.offset]], true), s.calls + 1);
  }

  /** Three bodies cut at different places end the call, though each chunk was cut only once. */
  lemma ThreeCutsFail(chunk: nat)
    ensures Download(Dribble([1, 2, 3, 4]), Never(), chunk, Begin(0)) == Outcome(206, 4, [1, 2, 3], Failed(BrokenBody))
  {
    var content: seq<byte> := [1, 2, 3, 4];
    DribbleTurn(content, Begin(0), chunk);
    assert [] + [1 as byte] == [1] && [1 as byte] + [2] == [1, 2] && [1 as byte, 2] + [3] == [1, 2, 3];
    DribbleTurn(content, State(1, [1], 4, 206, 1, 1), chunk);
    DribbleTurn(content, State(2, [1, 2], 4, 206, 2, 2), chunk);
  }

  /** A body that breaks off right behind the last byte is a failure, with all delivered. */
  lemma CutAtEndFails(chunk: nat)
    ensures Download(Dribble([1]), Never(), chunk, Begin(0)) == Outcome(206, 1, [1], Failed(BrokenBody))
  {
    DribbleTurn([1], Begin(0), chunk);
    assert [] + [1 as byte] == [1];
  }

  /** A continuation that ignores Range is appended whole: success, with the first byte twice. */
  lemma WholeAnswerRepeats()
    ensures Download(TwoReplies(Response(206, 3, [1], false), Response(200, -1, [1, 2, 3], false)), Never(), 1, Begin(0))
            == Outcome(206, 3, [1, 1, 2, 3], Fine(ReachedTotal))
  {
    var first, then_ := Response(206, 3, [1], false), Response(200, -1, [1, 2, 3], false);
    TwoTurns(first, then_, 1, Begin(0));
    assert [] + [1 as byte] == [1];
    assert [1 as byte] + [1, 2, 3] == [1, 1, 2, 3];
  }
}
