/**
  The bandwidth limiter: a token bucket shared by all downloads, and the writer that
  pays for every byte in two buckets before it passes the byte on. Floating point is
  modelled by reals; times are whole nanoseconds.
 */
module Bandwidth {
  type byte = bv8

  const second: int := 1_000_000_000
  const prioChunkSize := 32768

  /** rate is in tokens per second. */
  datatype Bucket = Bucket(rate: real, capacity: real, tokens: real, last: int)

  ghost predicate Valid(b: Bucket) {
    b.rate > 0.0 && b.capacity >= 1.0 && 0.0 <= b.tokens <= b.capacity
  }

  /** Tokens that accrue in so many nanoseconds. */
  function Scale(ns: real, rate: real): real {
    ns / second as real * rate
  }

  /** Tokens that accrue from one time to a later one. */
  function Accrued(rate: real, from: int, to: int): real {
    Scale((to - from) as real, rate)
  }

  function MinReal(a: real, b: real): real {
    if a < b then a else b
  }

  function Refilled(b: Bucket, now: int): Bucket {
    if now > b.last then b.(tokens := MinReal(b.tokens + Accrued(b.rate, b.last, now), b.capacity), last := now) else b
  }

  /** What a call takes out, which may be a fraction more than it grants. */
  function Taken(b: Bucket, want: nat, now: int): real {
    var r := Refilled(b, now);
    if r.tokens >= 1.0 then MinReal(want as real, r.tokens) else 0.0
  }

  function After(b: Bucket, want: nat, now: int): Bucket {
    var r := Refilled(b, now);
    r.(tokens := r.tokens - Taken(b, want, now))
  }

  function Grant(b: Bucket, want: nat, now: int): nat
    requires Valid(b)
  {
    RefillValid(b, now);
    Taken(b, want, now).Floor
  }

  /** Nanoseconds until the first whole token. */
  function NeedTime(rate: real, tokens: real): real
    requires rate > 0.0
  {
    (1.0 - tokens) / rate * second as real
  }

  /** How long a refused caller is told to wait, in whole nanoseconds, rounded down. */
  function Wait(b: Bucket, now: int): nat
    requires Valid(b)
  {
    var r := Refilled(b, now);
    if r.tokens >= 1.0 then 0
    else
      RefillValid(b, now);
      WaitPositive(r);
      NeedTime(r.rate, r.tokens).Floor
  }

  lemma AccruedPositive(rate: real, from: int, to: int)
    requires rate > 0.0 && from <= to
    ensures Accrued(rate, from, to) >= 0.0
  {
    var d := (to - from) as real / second as real;
    assert d >= 0.0;
  }

  lemma RefillValid(b: Bucket, now: int)
    requires Valid(b)
    ensures Valid(Refilled(b, now)) && Refilled(b, now).last >= b.last
  {
    if now > b.last {
      AccruedPositive(b.rate, b.last, now);
    }
  }

  lemma WaitPositive(r: Bucket)
    requires Valid(r) && r.tokens < 1.0
    ensures NeedTime(r.rate, r.tokens) >= 0.0
  {
    assert (1.0 - r.tokens) / r.rate >= 0.0;
  }

  // ----- Any sequence of calls, by any number of downloads

  datatype Call = Call(want: nat, now: int)

  ghost function AfterCalls(b: Bucket, calls: seq<Call>): Bucket {
    if calls == [] then b else
    var c := calls[|calls| - 1];
    After(AfterCalls(b, calls[..|calls| - 1]), c.want, c.now)
  }

  ghost function Granted(b: Bucket, calls: seq<Call>): nat
    requires Valid(b)
  {
    if calls == [] then 0 else
    var c := calls[|calls| - 1];
    CallsValid(b, calls[..|calls| - 1]);
    Granted(b, calls[..|calls| - 1]) + Grant(AfterCalls(b, calls[..|calls| - 1]), c.want, c.now)
  }

  lemma {:induction false} AfterValid(b: Bucket, want: nat, now: int)
    requires Valid(b)
    ensures var a := After(b, want, now);
            && Valid(a) && a.rate == b.rate && a.capacity == b.capacity && a.last >= b.last
    ensures Grant(b, want, now) as real <= Taken(b, want, now) < Grant(b, want, now) as real + 1.0
    ensures Grant(b, want, now) <= want
    ensures want >= 1 ==> (Grant(b, want, now) == 0 <==> Refilled(b, now).tokens < 1.0)
  {
    RefillValid(b, now);
  }

  lemma {:induction false} CallsValid(b: Bucket, calls: seq<Call>)
    requires Valid(b)
    ensures var a := AfterCalls(b, calls);
            Valid(a) && a.rate == b.rate && a.capacity == b.capacity && a.last >= b.last
  {
    if calls != [] {
      CallsValid(b, calls[..|calls| - 1]);
      AfterValid(AfterCalls(b, calls[..|calls| - 1]), calls[|calls| - 1].want, calls[|calls| - 1].now);
    }
  }

  lemma AccruedAdds(rate: real, from: int, mid: int, to: int)
    ensures Accrued(rate, from, mid) + Accrued(rate, mid, to) == Accrued(rate, from, to)
  {
    var s := second as real;
    assert (mid - from) as real / s + (to - mid) as real / s == (to - from) as real / s;
    Distribute((mid - from) as real / s, (to - mid) as real / s, rate);
  }

  lemma Distribute(a: real, b: real, c: real)
    ensures a * c + b * c == (a + b) * c
  {
  }

  /** One call: what leaves and what stays is at most what was there and what accrued. */
  lemma {:induction false} CallBudget(b: Bucket, want: nat, now: int)
    requires Valid(b)
    ensures var a := After(b, want, now);
            Grant(b, want, now) as real + a.tokens <= b.tokens + Accrued(b.rate, b.last, a.last)
  {
    AfterValid(b, want, now);
    if now <= b.last {
      AccruedPositive(b.rate, b.last, b.last);
    }
  }

  /** Over any calls, at any times, the grants are within the initial tokens plus what the elapsed time accrues. */
  lemma {:induction false} GrantsWithinBudget(b: Bucket, calls: seq<Call>)
    requires Valid(b)
    ensures var a := AfterCalls(b, calls);
            Granted(b, calls) as real + a.tokens <= b.tokens + Accrued(b.rate, b.last, a.last)
  {
    if calls == [] {
      AccruedPositive(b.rate, b.last, b.last);
    } else {
      var init, c := calls[..|calls| - 1], calls[|calls| - 1];
      var m := AfterCalls(b, init);
      GrantsWithinBudget(b, init);
      CallsValid(b, init);
      CallBudget(m, c.want, c.now);
      AccruedAdds(b.rate, b.last, m.last, After(m, c.want, c.now).last);
    }
  }

  /** So a bucket never passes more than its capacity plus its rate times the elapsed time, and its tokens stay in bounds. */
  lemma {:induction false} GrantsWithinRate(b: Bucket, calls: seq<Call>)
    requires Valid(b)
    ensures var a := AfterCalls(b, calls);
            && Granted(b, calls) as real <= b.capacity + Accrued(b.rate, b.last, a.last)
            && 0.0 <= a.tokens <= b.capacity
  {
    GrantsWithinBudget(b, calls);
    CallsValid(b, calls);
  }

  /** A fraction of a token can be paid without being granted: the account is an inequality. */
  lemma FractionLost()
    ensures var b := Bucket(1.0, 2.0, 1.5, 0);
            Valid(b) && Grant(b, 2, 0) == 1 && After(b, 2, 0).tokens == 0.0
  {
    var b := Bucket(1.0, 2.0, 1.5, 0);
    assert Taken(b, 2, 0) == 1.5;
  }

  /** The wait given to a refused caller is right to the nanosecond: after it and one more a token is there, and any shorter wait is in vain. */
  lemma {:induction false} WaitIsRight(b: Bucket, now: int, d: nat)
    requires Valid(b) && now >= b.last && Refilled(b, now).tokens < 1.0
    ensures var r := Refilled(b, now);
            && (d > Wait(b, now) ==> Refilled(r, now + d).tokens >= 1.0)
            && (d < Wait(b, now) ==> Refilled(r, now + d).tokens < 1.0)
  {
    var r := Refilled(b, now);
    RefillValid(b, now);
    WaitPositive(r);
    var need := NeedTime(r.rate, r.tokens);
    assert Wait(b, now) as real <= need < Wait(b, now) as real + 1.0;
    NeedScaled(r.rate, r.tokens);
    if d > Wait(b, now) {
      ScaleMono(need, d as real, r.rate);
      LaterTokens(r, now, d, Scale(d as real, r.rate));
    } else if d < Wait(b, now) {
      ScaleMono(d as real, need, r.rate);
      LaterTokens(r, now, d, Scale(d as real, r.rate));
    }
  }

  /** In the time needed, exactly what is missing accrues. */
  lemma NeedScaled(rate: real, tokens: real)
    requires rate > 0.0
    ensures Scale(NeedTime(rate, tokens), rate) == 1.0 - tokens
  {
    var q := (1.0 - tokens) / rate;
    assert q * second as real / second as real == q;
    assert q * rate == 1.0 - tokens;
  }

  lemma ScaleMono(a: real, b: real, rate: real)
    requires a <= b && rate > 0.0
    ensures Scale(a, rate) <= Scale(b, rate)
    ensures a < b ==> Scale(a, rate) < Scale(b, rate)
  {
    var x, y := a / second as real, b / second as real;
    assert x <= y && (a < b ==> x < y);
    TimesMono(x, y, rate);
  }

  lemma TimesMono(x: real, y: real, rate: real)
    requires x <= y && rate > 0.0
    ensures x * rate <= y * rate && (x < y ==> x * rate < y * rate)
  {
    assert (y - x) * rate >= 0.0 && (x < y ==> (y - x) * rate > 0.0);
    assert (y - x) * rate == y * rate - x * rate;
  }

  lemma LaterTokens(r: Bucket, now: int, d: nat, more: real)
    requires r.last == now && more == Scale(d as real, r.rate) && r.capacity >= 1.0
    ensures d > 0 && more >= 1.0 - r.tokens ==> Refilled(r, now + d).tokens >= 1.0
    ensures r.tokens < 1.0 && more < 1.0 - r.tokens ==> Refilled(r, now + d).tokens < 1.0
  {
    assert Accrued(r.rate, now, now + d) == more;
  }

  // ----- What is granted at least

  /** What a call finds: all that accrued, or a full bucket. */
  lemma {:induction false} FindsAll(b: Bucket, now: int)
    requires Valid(b) && now >= b.last
    ensures var there, r := b.tokens + Accrued(b.rate, b.last, now), Refilled(b, now);
            && r.tokens <= there && r.tokens <= b.capacity
            && (r.tokens < there ==> r.tokens == b.capacity)
  {
    assert now == b.last ==> Accrued(b.rate, b.last, now) == 0.0;
  }

  /** The grant is the largest whole number that is asked for and there. */
  lemma {:induction false} GrantIsLargest(b: Bucket, want: nat, now: int, n: nat)
    requires Valid(b)
    ensures n <= Grant(b, want, now) <==> n <= want && n as real <= Refilled(b, now).tokens
  {
    RefillValid(b, now);
    AfterValid(b, want, now);
  }

  /** No call comes when more has accrued than the bucket holds. */
  ghost predicate NeverOverflows(b: Bucket, calls: seq<Call>) {
    calls == [] || (
      && NeverOverflows(b, calls[..|calls| - 1])
      && var m, c := AfterCalls(b, calls[..|calls| - 1]), calls[|calls| - 1];
         c.now > m.last ==> m.tokens + Accrued(m.rate, m.last, c.now) <= m.capacity)
  }

  lemma {:induction false} CallKeepsAccount(b: Bucket, want: nat, now: int)
    requires Valid(b) && (now > b.last ==> b.tokens + Accrued(b.rate, b.last, now) <= b.capacity)
    ensures var a := After(b, want, now);
            Grant(b, want, now) as real + 1.0 + a.tokens > b.tokens + Accrued(b.rate, b.last, a.last)
  {
    AfterValid(b, want, now);
    if now <= b.last {
      assert Accrued(b.rate, b.last, b.last) == 0.0;
    }
  }

  /** While the bucket does not overflow, all that accrues is granted or still there, up to a fraction of a token for each call. */
  lemma {:induction false} GrantsAtLeast(b: Bucket, calls: seq<Call>)
    requires Valid(b) && NeverOverflows(b, calls)
    ensures var a := AfterCalls(b, calls);
            Granted(b, calls) as real + |calls| as real + a.tokens >= b.tokens + Accrued(b.rate, b.last, a.last)
  {
    if calls == [] {
      assert Accrued(b.rate, b.last, b.last) == 0.0;
    } else {
      var init, c := calls[..|calls| - 1], calls[|calls| - 1];
      var m := AfterCalls(b, init);
      GrantsAtLeast(b, init);
      CallsValid(b, init);
      CallKeepsAccount(m, c.want, c.now);
      AccruedAdds(b.rate, b.last, m.last, After(m, c.want, c.now).last);
    }
  }
}
