/**
  The bucket object, the blocking wait on it, and the limited writer. A run of the
  environment is given as data: at each wake-up of a wait, the calls other downloads have
  made on the bucket meanwhile, the time, and whether the context has ended. A script
  that ends before the operation does is an execution watched only so far.
 */
module LimitedWriter {
  import opened Bandwidth

  datatype Tick = Tick(others: seq<Call>, now: int, cancelled: bool)

  datatype WaitEnd = Paid | Cancelled | StillWaiting

  /** A call on the bucket, and whether this wait made it. */
  datatype Made = Made(call: Call, ours: bool)

  ghost function CallsOf(made: seq<Made>): seq<Call> {
    if made == [] then [] else CallsOf(made[..|made| - 1]) + [made[|made| - 1].call]
  }

  /** The tokens granted to, and taken by, this wait. */
  ghost function OursGranted(b: Bucket, made: seq<Made>): nat
    requires Valid(b)
  {
    if made == [] then 0 else
    var init, m := made[..|made| - 1], made[|made| - 1];
    CallsValid(b, CallsOf(init));
    OursGranted(b, init) + if m.ours then Grant(AfterCalls(b, CallsOf(init)), m.call.want, m.call.now) else 0
  }

  ghost function OursTaken(b: Bucket, made: seq<Made>): real {
    if made == [] then 0.0 else
    var init, m := made[..|made| - 1], made[|made| - 1];
    OursTaken(b, init) + if m.ours then Taken(AfterCalls(b, CallsOf(init)), m.call.want, m.call.now) else 0.0
  }

  lemma CallsOfMore(made: seq<Made>, m: Made)
    ensures CallsOf(made + [m]) == CallsOf(made) + [m.call]
  {
    assert (made + [m])[..|made + [m]| - 1] == made;
  }

  lemma AfterMore(b: Bucket, calls: seq<Call>, c: Call)
    ensures AfterCalls(b, calls + [c]) == After(AfterCalls(b, calls), c.want, c.now)
  {
    assert (calls + [c])[..|calls + [c]| - 1] == calls;
  }

  lemma {:induction false} OursMore(b: Bucket, made: seq<Made>, m: Made)
    requires Valid(b)
    ensures var a := AfterCalls(b, CallsOf(made));
            && Valid(a)
            && AfterCalls(b, CallsOf(made + [m])) == After(a, m.call.want, m.call.now)
            && OursGranted(b, made + [m]) == OursGranted(b, made) + if m.ours then Grant(a, m.call.want, m.call.now) else 0
  {
    CallsValid(b, CallsOf(made));
    CallsOfMore(made, m);
    AfterMore(b, CallsOf(made), m.call);
    assert (made + [m])[..|made + [m]| - 1] == made;
  }

  /** What is paid covers what is granted. */
  lemma {:induction false} PaidCoversGrant(b: Bucket, made: seq<Made>)
    requires Valid(b)
    ensures OursGranted(b, made) as real <= OursTaken(b, made)
  {
    if made != [] {
      var init, m := made[..|made| - 1], made[|made| - 1];
      PaidCoversGrant(b, init);
      CallsValid(b, CallsOf(init));
      AfterValid(AfterCalls(b, CallsOf(init)), m.call.want, m.call.now);
    }
  }

  /** And what one wait is granted is within what all callers are granted. */
  lemma {:induction false} OursWithinAll(b: Bucket, made: seq<Made>)
    requires Valid(b)
    ensures OursGranted(b, made) <= Granted(b, CallsOf(made))
  {
    if made != [] {
      var init, m := made[..|made| - 1], made[|made| - 1];
      OursWithinAll(b, init);
      CallsValid(b, CallsOf(init));
      assert (CallsOf(init) + [m.call])[..|CallsOf(init) + [m.call]| - 1] == CallsOf(init);
    }
  }

  class TokenBucket {
    const rate: real
    const capacity: real
    var tokens: real
    var last: int
    ghost var made: seq<Made>
    ghost const first: Bucket

    ghost function Value(): Bucket
      reads this
    {
      Bucket(rate, capacity, tokens, last)
    }

    /** The state is what the calls made so far leave of the first one. */
    ghost predicate Ok()
      reads this
    {
      Valid(first) && Value() == AfterCalls(first, CallsOf(made))
    }

    constructor (rate: nat, capacity: nat, now: int)
      requires rate > 0 && capacity > 0
      ensures Ok() && made == [] && first == Bucket(rate as real, capacity as real, capacity as real, now)
    {
      this.rate, this.capacity := rate as real, capacity as real;
      tokens, last := capacity as real, now;
      made := [];
      first := Bucket(rate as real, capacity as real, capacity as real, now);
    }

    method Refill(now: int)
      modifies this
      ensures Value() == Refilled(old(Value()), now) && made == old(made)
    {
      if now > last {
        tokens := tokens + Accrued(rate, last, now);
        if tokens > capacity {
          tokens := capacity;
        }
        last := now;
      }
    }

    method Reserve(want: nat, now: int, ghost ours: bool) returns (granted: nat, wait: nat)
      requires Ok()
      modifies this
      ensures Ok() && made == old(made) + [Made(Call(want, now), ours)]
      ensures Valid(old(Value()))
      ensures granted == Grant(old(Value()), want, now)
      ensures wait == Wait(old(Value()), now)
    {
      CallsValid(first, CallsOf(made));
      OursMore(first, made, Made(Call(want, now), ours));
      RefillValid(Value(), now);
      made := made + [Made(Call(want, now), ours)];
      Refill(now);
      if tokens >= 1.0 {
        var take := want as real;
        if take > tokens {
          take := tokens;
        }
        tokens := tokens - take;
        return take.Floor, 0;
      }
      WaitPositive(Value());
      return 0, NeedTime(rate, tokens).Floor;
    }

    /** Other downloads call reserve in the meantime. */
    method Interleave(calls: seq<Call>)
      requires Ok()
      modifies this
      ensures Ok() && OursGranted(first, made) == OursGranted(first, old(made))
    {
      for i := 0 to |calls|
        invariant Ok() && OursGranted(first, made) == OursGranted(first, old(made))
      {
        OursMore(first, made, Made(calls[i], false));
        var granted, wait := Reserve(calls[i].want, calls[i].now, false);
      }
    }

    /** A wait that is paid has been granted exactly n tokens, whatever others took in between; one that is not, fewer. */
    method WaitN(n: nat, ticks: seq<Tick>) returns (end: WaitEnd)
      requires Ok()
      modifies this
      ensures Ok()
      ensures var got := OursGranted(first, made) - OursGranted(first, old(made));
              && 0 <= got <= n && (end == Paid <==> got == n)
    {
      var remaining := n;
      var i := 0;
      while remaining > 0
        invariant Ok() && 0 <= remaining <= n && i <= |ticks|
        invariant OursGranted(first, made) == OursGranted(first, old(made)) + n - remaining
        decreases |ticks| - i
      {
        if i == |ticks| {
          return StillWaiting;
        }
        Interleave(ticks[i].others);
        if ticks[i].cancelled {
          return Cancelled;
        }
        CallsValid(first, CallsOf(made));
        AfterValid(Value(), remaining, ticks[i].now);
        OursMore(first, made, Made(Call(remaining, ticks[i].now), true));
        var got, wait := Reserve(remaining, ticks[i].now, true);
        i := i + 1;
        if got > 0 {
          remaining := remaining - got;
          continue;
        }
      }
      return Paid;
    }
  }

  // ----- The writer

  class Sink {
    var data: seq<byte>

    /** An io.Writer: all of the bytes, or an error and some of them. */
    method Write(bytes: seq<byte>, accepts: nat, fails: bool) returns (n: nat, ok: bool)
      modifies this
      ensures n <= |bytes| && data == old(data) + bytes[..n]
      ensures ok == !fails && (ok ==> n == |bytes|)
    {
      n := if fails && accepts < |bytes| then accepts else |bytes|;
      data := data + bytes[..n];
      ok := !fails;
    }
  }

  /** What happens around one slice: whether the gate opens before the context ends, the ticks of the two waits, the sink's answer. */
  datatype SliceEnv = SliceEnv(gateOpens: bool, liveTicks: seq<Tick>, ticks: seq<Tick>, accepts: nat, fails: bool)

  datatype WriteEnd = Written | GateClosed | NotPaid | SinkFailed | NotYet

  class LimitedWriter {
    const out: Sink
    const bucket: TokenBucket
    const live: TokenBucket?
    const gated: bool

    constructor (out: Sink, bucket: TokenBucket, live: TokenBucket?, gated: bool)
      ensures this.out == out && this.bucket == bucket && this.live == live && this.gated == gated
    {
      this.out, this.bucket, this.live, this.gated := out, bucket, live, gated;
    }

    ghost predicate Ok()
      reads this, bucket, live
    {
      bucket.Ok() && (live != null ==> live.Ok() && live != bucket)
    }

    /** No slice of so many bytes went out but through the open gate, which is asked before each. */
    ghost predicate PassedGate(total: nat, script: seq<SliceEnv>) {
      forall j: nat {:trigger script[j]} :: j * prioChunkSize < total ==> j < |script| && (gated ==> script[j].gateOpens)
    }

    lemma SlicePassed(total: nat, n: nat, script: seq<SliceEnv>, i: nat)
      requires PassedGate(total, script) && i < |script| && total == i * prioChunkSize && n <= prioChunkSize
      requires n > 0 && gated ==> script[i].gateOpens
      ensures PassedGate(total + n, script)
    {
      forall j: nat {:trigger script[j]} | j * prioChunkSize < total + n ensures j < |script| && (gated ==> script[j].gateOpens) {
        if j * prioChunkSize >= total {
          assert j == i;
        }
      }
    }

    /** What arrived downstream is a prefix of the buffer, in order; all of it on success; and every byte was paid for in each bucket first. */
    method Write(p: seq<byte>, script: seq<SliceEnv>) returns (total: nat, end: WriteEnd)
      requires Ok()
      modifies out, bucket, live
      ensures Ok()
      ensures total <= |p| && out.data == old(out.data) + p[..total]
      ensures end == Written && p != [] ==> total == |p|
      ensures p != [] ==> total <= OursGranted(bucket.first, bucket.made) - OursGranted(bucket.first, old(bucket.made))
      ensures p != [] && live != null ==>
                total <= OursGranted(live.first, live.made) - OursGranted(live.first, old(live.made))
      ensures end == Written && p != [] ==>
                OursGranted(bucket.first, bucket.made) - OursGranted(bucket.first, old(bucket.made)) == |p|
      ensures p != [] ==> PassedGate(total, script) && (end == GateClosed ==> gated)
    {
      if p == [] {
        if script == [] {
          return 0, NotYet;
        }
        var n, ok := out.Write(p, script[0].accepts, script[0].fails);
        return n, if ok then Written else SinkFailed;
      }
      total, end := WriteSlices(p, script);
    }

    // the loop of Write
    method WriteSlices(p: seq<byte>, script: seq<SliceEnv>) returns (total: nat, end: WriteEnd)
      requires Ok()
      modifies out, bucket, live
      ensures Ok()
      ensures total <= |p| && out.data == old(out.data) + p[..total]
      ensures total <= OursGranted(bucket.first, bucket.made) - OursGranted(bucket.first, old(bucket.made))
      ensures live != null ==>
                total <= OursGranted(live.first, live.made) - OursGranted(live.first, old(live.made))
      ensures end == Written ==>
                total == |p| && OursGranted(bucket.first, bucket.made) - OursGranted(bucket.first, old(bucket.made)) == |p|
      ensures PassedGate(total, script) && (end == GateClosed ==> gated)
    {
      total := 0;
      var i := 0;
      while total < |p|
        invariant Ok() && total <= |p| && i <= |script|
        invariant out.data == old(out.data) + p[..total]
        invariant OursGranted(bucket.first, bucket.made) == OursGranted(bucket.first, old(bucket.made)) + total
        invariant live != null ==> OursGranted(live.first, live.made) == OursGranted(live.first, old(live.made)) + total
        invariant (total == |p| || total == i * prioChunkSize) && PassedGate(total, script)
        decreases |script| - i
      {
        if i == |script| {
          return total, NotYet;
        }
        var chunk := |p| - total;
        if chunk > prioChunkSize {
          chunk := prioChunkSize;
        }
        var n, sliceEnd := WriteSlice(p[total..total + chunk], script[i]);
        SlicePassed(total, n, script, i);
        i := i + 1;
        Continues(p, total, chunk, n);
        total := total + n;
        if sliceEnd != Written {
          return total, sliceEnd;
        }
      }
      return total, Written;
    }

    lemma Continues(p: seq<byte>, total: nat, chunk: nat, n: nat)
      requires total + chunk <= |p| && n <= chunk
      ensures p[..total] + p[total..total + chunk][..n] == p[..total + n]
    {
    }

    // one turn of the loop of Write
    method WriteSlice(slice: seq<byte>, e: SliceEnv) returns (n: nat, end: WriteEnd)
      requires Ok()
      modifies out, bucket, live
      ensures Ok()
      ensures n <= |slice| && out.data == old(out.data) + slice[..n] && (end == Written ==> n == |slice|)
      ensures var paid := OursGranted(bucket.first, bucket.made) - OursGranted(bucket.first, old(bucket.made));
              n <= paid && (end == Written ==> paid == |slice|)
      ensures live != null ==>
                var paid := OursGranted(live.first, live.made) - OursGranted(live.first, old(live.made));
                n <= paid && (end == Written ==> paid == |slice|)
      ensures end == GateClosed <==> gated && !e.gateOpens
      ensures end == GateClosed || end == NotPaid ==> n == 0
      ensures end == Written || end == SinkFailed ==> (end == SinkFailed <==> e.fails)
    {
      if gated && !e.gateOpens {
        return 0, GateClosed;
      }
      if live != null {
        var paid := live.WaitN(|slice|, e.liveTicks);
        if paid != Paid {
          return 0, NotPaid;
        }
      }
      var paid := bucket.WaitN(|slice|, e.ticks);
      if paid != Paid {
        return 0, NotPaid;
      }
      var ok;
      n, ok := out.Write(slice, e.accepts, e.fails);
      end := if ok then Written else SinkFailed;
    }
  }
}
