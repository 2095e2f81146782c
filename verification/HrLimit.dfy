/**
  The human-and-robots rate limit: three tiers of tumbling windows kept in Redis. Every
  upstream call is counted in each tier; a counter at its threshold sets a cooldown to
  the end of the next window; human calls are admitted only outside every cooldown.
 */
module HrLimit {
  datatype Tier = Tier(window: nat, threshold: nat)

  ghost predicate ValidTier(t: Tier) {
    t.window >= 1 && t.threshold >= 1
  }

  /** A key with its expiry. */
  datatype Counter = Counter(count: nat, expires: int)

  /** The Redis keys of one tier; the cooldown key is set while now < until. */
  datatype Keys = Keys(counters: map<int, Counter>, until: int)

  function Bucket(now: int, window: nat): int
    requires window >= 1
  {
    now / window
  }

  /** The body of recordScript for one tier. */
  function Record(t: Tier, k: Keys, now: int): Keys
    requires t.window >= 1
  {
    var b := Bucket(now, t.window);
    var live := b in k.counters && now < k.counters[b].expires;
    var cur := if live then k.counters[b].count + 1 else 1;
    var expires := if cur == 1 then now + t.window * 2 else k.counters[b].expires;
    var ttl := t.window - now % t.window + t.window;
    Keys(k.counters[b := Counter(cur, expires)], if cur >= t.threshold then now + ttl else k.until)
  }

  function Cooling(k: Keys, now: int): bool {
    now < k.until
  }

  // ----- Any traffic

  datatype Event = Human(now: int) | Background(now: int)

  /** The keys of each tier, and the times of admitted human calls and of all recorded calls. */
  datatype State = State(keys: seq<Keys>, human: seq<int>, all: seq<int>)

  ghost predicate Fits(tiers: seq<Tier>, s: State) {
    |s.keys| == |tiers| && forall i :: 0 <= i < |tiers| ==> ValidTier(tiers[i])
  }

  ghost predicate Admitted(s: State, now: int) {
    forall i :: 0 <= i < |s.keys| ==> !Cooling(s.keys[i], now)
  }

  ghost function RecordAll(tiers: seq<Tier>, keys: seq<Keys>, now: int): (r: seq<Keys>)
    requires |keys| == |tiers| && forall i :: 0 <= i < |tiers| ==> ValidTier(tiers[i])
    ensures |r| == |keys|
  {
    if keys == [] then [] else
    var n := |keys| - 1;
    assert ValidTier(tiers[n]);
    RecordAll(tiers[..n], keys[..n], now) + [Record(tiers[n], keys[n], now)]
  }

  lemma {:induction false} RecordAllAt(tiers: seq<Tier>, keys: seq<Keys>, now: int, i: nat)
    requires |keys| == |tiers| && i < |keys| && forall i :: 0 <= i < |tiers| ==> ValidTier(tiers[i])
    ensures RecordAll(tiers, keys, now)[i] == Record(tiers[i], keys[i], now)
  {
    if i < |keys| - 1 {
      RecordAllAt(tiers[..|keys| - 1], keys[..|keys| - 1], now, i);
    }
  }

  /** Admission and recording of a human call happen together; background calls are only recorded. */
  ghost function Step(tiers: seq<Tier>, s: State, e: Event): (t: State)
    requires Fits(tiers, s)
    ensures Fits(tiers, t)
  {
    if e.Human? && !Admitted(s, e.now) then s
    else State(RecordAll(tiers, s.keys, e.now), if e.Human? then s.human + [e.now] else s.human, s.all + [e.now])
  }

  ghost function Fresh(tiers: seq<Tier>): (s: State)
    requires forall i :: 0 <= i < |tiers| ==> ValidTier(tiers[i])
    ensures Fits(tiers, s)
  {
    State(Empty(|tiers|), [], [])
  }

  ghost function Empty(n: nat): (r: seq<Keys>)
    ensures |r| == n
  {
    if n == 0 then [] else Empty(n - 1) + [Keys(map[], 0)]
  }

  lemma {:induction false} EmptyAt(n: nat, i: nat)
    requires i < n
    ensures Empty(n)[i] == Keys(map[], 0)
  {
    if i < n - 1 {
      EmptyAt(n - 1, i);
    }
  }

  ghost function Run(tiers: seq<Tier>, events: seq<Event>): (s: State)
    requires forall i :: 0 <= i < |tiers| ==> ValidTier(tiers[i])
    ensures Fits(tiers, s)
  {
    if events == [] then Fresh(tiers) else Step(tiers, Run(tiers, events[..|events| - 1]), events[|events| - 1])
  }

  /** The clock does not run backwards, and starts at or after zero. */
  ghost predicate InOrder(events: seq<Event>) {
    events == [] || (
      && InOrder(events[..|events| - 1])
      && 0 <= events[|events| - 1].now
      && (|events| > 1 ==> events[|events| - 2].now <= events[|events| - 1].now))
  }

  ghost function Last(events: seq<Event>): int {
    if events == [] then 0 else events[|events| - 1].now
  }

  // ----- Counting by bucket

  ghost function CountIn(times: seq<int>, window: nat, b: int): nat
    requires window >= 1
  {
    if times == [] then 0 else
    CountIn(times[..|times| - 1], window, b) + if Bucket(times[|times| - 1], window) == b then 1 else 0
  }

  lemma CountMore(times: seq<int>, now: int, window: nat, b: int)
    requires window >= 1
    ensures CountIn(times + [now], window, b) == CountIn(times, window, b) + if Bucket(now, window) == b then 1 else 0
  {
    assert (times + [now])[..|times + [now]| - 1] == times;
  }

  lemma BucketBounds(now: int, window: nat)
    requires window >= 1
    ensures Bucket(now, window) * window <= now < (Bucket(now, window) + 1) * window
    ensures now + (window - now % window + window) == (Bucket(now, window) + 2) * window
  {
    var b := now / window;
    assert now == window * b + now % window;
    assert (b + 1) * window == b * window + window && (b + 2) * window == b * window + 2 * window;
  }

  lemma BucketMonotone(a: int, b: int, window: nat)
    requires window >= 1 && a <= b
    ensures Bucket(a, window) <= Bucket(b, window)
  {
    BucketBounds(a, window);
    BucketBounds(b, window);
    if Bucket(a, window) > Bucket(b, window) {
      TimesMono(Bucket(b, window) + 1, Bucket(a, window), window);
    }
  }

  lemma TimesMono(a: int, b: int, w: nat)
    requires a <= b
    ensures a * w <= b * w
  {
  }

  // ----- One tier

  ghost predicate CounterRight(k: Keys, all: seq<int>, w: nat, b: int)
    requires w >= 1
  {
    if b in k.counters then k.counters[b].count == CountIn(all, w, b) > 0 && k.counters[b].expires >= (b + 1) * w
    else CountIn(all, w, b) == 0
  }

  /** What is known of a bucket: its human calls, and the cooldown if it is saturated. */
  ghost predicate BucketOk(t: Tier, k: Keys, human: seq<int>, all: seq<int>, last: int, b: int)
    requires t.window >= 1
  {
    var n, h := CountIn(all, t.window, b), CountIn(human, t.window, b);
    && CounterRight(k, all, t.window, b)
    && h <= n && h <= t.threshold
    && (n >= t.threshold ==> k.until >= (b + 2) * t.window && CountIn(human, t.window, b + 1) == 0)
    && (b > Bucket(last, t.window) ==> n == 0)
  }

  ghost predicate TierInv(t: Tier, k: Keys, human: seq<int>, all: seq<int>, last: int)
    requires t.window >= 1
  {
    && (forall b :: BucketOk(t, k, human, all, last, b))
    && k.until <= (Bucket(last, t.window) + 2) * t.window
    && last >= 0
  }

  /** The counter never lapses while its bucket lasts, so the script counts exactly. */
  lemma {:induction false} RecordCounts(t: Tier, k: Keys, all: seq<int>, now: int, b: int)
    requires ValidTier(t) && CounterRight(k, all, t.window, b)
    ensures CounterRight(Record(t, k, now), all + [now], t.window, b)
    ensures b == Bucket(now, t.window) ==>
              b in Record(t, k, now).counters && Record(t, k, now).counters[b].count == CountIn(all, t.window, b) + 1
  {
    CountMore(all, now, t.window, b);
    BucketBounds(now, t.window);
  }

  lemma {:induction false} RecordUntil(t: Tier, k: Keys, all: seq<int>, now: int)
    requires ValidTier(t) && CounterRight(k, all, t.window, Bucket(now, t.window))
    ensures var b := Bucket(now, t.window);
            Record(t, k, now).until == if CountIn(all, t.window, b) + 1 >= t.threshold then (b + 2) * t.window else k.until
  {
    RecordCounts(t, k, all, now, Bucket(now, t.window));
    BucketBounds(now, t.window);
  }

  /** The cooldown never moves earlier. */
  lemma {:induction false} UntilGrows(t: Tier, k: Keys, human: seq<int>, all: seq<int>, last: int, now: int)
    requires ValidTier(t) && TierInv(t, k, human, all, last) && last <= now
    ensures k.until <= Record(t, k, now).until <= (Bucket(now, t.window) + 2) * t.window
  {
    var b := Bucket(now, t.window);
    assert BucketOk(t, k, human, all, last, b);
    RecordUntil(t, k, all, now);
    BucketMonotone(last, now, t.window);
    TimesMono(Bucket(last, t.window) + 2, b + 2, t.window);
  }

  /** Recording a background call keeps what is known of each bucket. */
  lemma {:induction false} BackgroundKeeps(t: Tier, k: Keys, human: seq<int>, all: seq<int>, last: int, now: int, b: int)
    requires ValidTier(t) && TierInv(t, k, human, all, last) && last <= now
    ensures BucketOk(t, Record(t, k, now), human, all + [now], now, b)
  {
    var w := t.window;
    var c := Bucket(now, w);
    assert BucketOk(t, k, human, all, last, b);
    assert BucketOk(t, k, human, all, last, c);
    NextBucketEmpty(t, k, human, all, last, now);
    RecordCounts(t, k, all, now, b);
    RecordUntil(t, k, all, now);
    UntilGrows(t, k, human, all, last, now);
    CountMore(all, now, w, b);
    BucketMonotone(last, now, w);
  }

  /** Nothing has been recorded in a bucket yet to come. */
  lemma {:induction false} NextBucketEmpty(t: Tier, k: Keys, human: seq<int>, all: seq<int>, last: int, now: int)
    requires ValidTier(t) && TierInv(t, k, human, all, last) && last <= now
    ensures CountIn(human, t.window, Bucket(now, t.window) + 1) == 0
  {
    BucketMonotone(last, now, t.window);
    assert BucketOk(t, k, human, all, last, Bucket(now, t.window) + 1);
  }

  /** Counting one more human call outside the cooldown. */
  lemma {:induction false} HumanKeeps(t: Tier, k: Keys, human: seq<int>, all: seq<int>, last: int, now: int, b: int)
    requires ValidTier(t) && TierInv(t, k, human, all, last) && last <= now && !Cooling(k, now)
    ensures BucketOk(t, Record(t, k, now), human + [now], all + [now], now, b)
  {
    var w := t.window;
    assert BucketOk(t, k, human, all, last, b);
    BackgroundKeeps(t, k, human, all, last, now, b);
    HumanFinds(t, k, human, all, last, now);
    CountMore(all, now, w, b);
    CountMore(human, now, w, b);
    CountMore(human, now, w, b + 1);
  }

  lemma {:induction false} RecordKeeps(t: Tier, k: Keys, human: seq<int>, all: seq<int>, last: int, now: int, isHuman: bool, b: int)
    requires ValidTier(t) && TierInv(t, k, human, all, last) && last <= now
    requires isHuman ==> !Cooling(k, now)
    ensures BucketOk(t, Record(t, k, now), if isHuman then human + [now] else human, all + [now], now, b)
  {
    if isHuman {
      HumanKeeps(t, k, human, all, last, now, b);
    } else {
      BackgroundKeeps(t, k, human, all, last, now, b);
    }
  }

  /** Outside the cooldown neither this bucket nor the one before is saturated. */
  lemma {:induction false} HumanFinds(t: Tier, k: Keys, human: seq<int>, all: seq<int>, last: int, now: int)
    requires ValidTier(t) && TierInv(t, k, human, all, last) && last <= now && !Cooling(k, now)
    ensures var c := Bucket(now, t.window);
            CountIn(all, t.window, c) < t.threshold && CountIn(all, t.window, c - 1) < t.threshold
  {
    var c := Bucket(now, t.window);
    assert BucketOk(t, k, human, all, last, c);
    assert BucketOk(t, k, human, all, last, c - 1);
    BucketBounds(now, t.window);
    TimesMono(c + 1, c + 2, t.window);
  }

  lemma {:induction false} RecordTierInv(t: Tier, k: Keys, human: seq<int>, all: seq<int>, last: int, now: int, isHuman: bool)
    requires ValidTier(t) && TierInv(t, k, human, all, last) && last <= now
    requires isHuman ==> !Cooling(k, now)
    ensures TierInv(t, Record(t, k, now), if isHuman then human + [now] else human, all + [now], now)
  {
    var r, h, a := Record(t, k, now), if isHuman then human + [now] else human, all + [now];
    forall b ensures BucketOk(t, r, h, a, now, b) {
      RecordKeeps(t, k, human, all, last, now, isHuman, b);
    }
    UntilGrows(t, k, human, all, last, now);
  }

  lemma {:induction false} TimePasses(t: Tier, k: Keys, human: seq<int>, all: seq<int>, last: int, now: int)
    requires ValidTier(t) && TierInv(t, k, human, all, last) && last <= now
    ensures TierInv(t, k, human, all, now)
  {
    BucketMonotone(last, now, t.window);
    TimesMono(Bucket(last, t.window) + 2, Bucket(now, t.window) + 2, t.window);
    forall b ensures BucketOk(t, k, human, all, now, b) {
      assert BucketOk(t, k, human, all, last, b);
    }
  }

  lemma {:induction false} RunInv(tiers: seq<Tier>, events: seq<Event>, i: nat)
    requires i < |tiers| && InOrder(events) && forall i :: 0 <= i < |tiers| ==> ValidTier(tiers[i])
    ensures var s := Run(tiers, events); TierInv(tiers[i], s.keys[i], s.human, s.all, Last(events))
  {
    if events == [] {
      FreshInv(tiers, i);
    } else {
      var init, e := events[..|events| - 1], events[|events| - 1];
      RunInv(tiers, init, i);
      var s := Run(tiers, init);
      assert Last(init) <= e.now;
      if e.Human? && !Admitted(s, e.now) {
        TimePasses(tiers[i], s.keys[i], s.human, s.all, Last(init), e.now);
      } else {
        RecordAllAt(tiers, s.keys, e.now, i);
        RecordTierInv(tiers[i], s.keys[i], s.human, s.all, Last(init), e.now, e.Human?);
      }
    }
  }

  lemma {:induction false} FreshInv(tiers: seq<Tier>, i: nat)
    requires i < |tiers| && forall i :: 0 <= i < |tiers| ==> ValidTier(tiers[i])
    ensures var s := Fresh(tiers); TierInv(tiers[i], s.keys[i], s.human, s.all, 0)
  {
    EmptyAt(|tiers|, i);
    var w := tiers[i].window;
    assert Bucket(0, w) == 0;
  }

  /** For every tier and bucket: at most the threshold of human calls, and none in the bucket after a saturated one. */
  lemma {:induction false} BucketCap(tiers: seq<Tier>, events: seq<Event>, i: nat, b: int)
    requires i < |tiers| && InOrder(events) && forall i :: 0 <= i < |tiers| ==> ValidTier(tiers[i])
    ensures var s, w, t := Run(tiers, events), tiers[i].window, tiers[i].threshold;
            && CountIn(s.human, w, b) <= t
            && (CountIn(s.all, w, b) >= t ==> CountIn(s.human, w, b + 1) == 0)
            && (CountIn(s.human, w, b) == t ==> CountIn(s.human, w, b + 1) == 0)
  {
    RunInv(tiers, events, i);
    var s := Run(tiers, events);
    assert BucketOk(tiers[i], s.keys[i], s.human, s.all, Last(events), b);
  }

  ghost function Span(times: seq<int>, window: nat, b: int, m: nat): nat
    requires window >= 1
    decreases m
  {
    if m == 0 then 0 else CountIn(times, window, b) + Span(times, window, b + 1, m - 1)
  }

  /** Any m consecutive buckets: at most m(t-1)+1 human calls when t is at least two, and (m+1)/2 when it is one. */
  lemma {:induction false} SpanCap(tiers: seq<Tier>, events: seq<Event>, i: nat, b: int, m: nat)
    requires i < |tiers| && InOrder(events) && forall i :: 0 <= i < |tiers| ==> ValidTier(tiers[i])
    ensures var s, w, t := Run(tiers, events), tiers[i].window, tiers[i].threshold;
            && (t >= 2 ==> Span(s.human, w, b, m) <= m * (t - 1) + 1)
            && (t == 1 ==> Span(s.human, w, b, m) <= (m + 1) / 2)
    decreases m
  {
    var s, w, t := Run(tiers, events), tiers[i].window, tiers[i].threshold;
    if m > 0 {
      BucketCap(tiers, events, i, b);
      SpanCap(tiers, events, i, b + 1, m - 1);
      assert m * (t - 1) == (m - 1) * (t - 1) + (t - 1);
      if m > 1 {
        SpanCap(tiers, events, i, b + 2, m - 2);
        assert (m - 1) * (t - 1) == (m - 2) * (t - 1) + (t - 1);
      }
    }
  }

  /** No event moves a tier's cooldown earlier. */
  lemma {:induction false} CooldownNeverEarlier(tiers: seq<Tier>, events: seq<Event>, e: Event, i: nat)
    requires i < |tiers| && InOrder(events) && e.now >= Last(events) && forall i :: 0 <= i < |tiers| ==> ValidTier(tiers[i])
    ensures Run(tiers, events).keys[i].until <= Step(tiers, Run(tiers, events), e).keys[i].until
  {
    RunInv(tiers, events, i);
    var s := Run(tiers, events);
    RecordAllAt(tiers, s.keys, e.now, i);
    UntilGrows(tiers[i], s.keys[i], s.human, s.all, Last(events), e.now);
  }

  // ----- Who is refused

  ghost predicate Saturated(t: Tier, all: seq<int>, b: int)
    requires t.window >= 1
  {
    CountIn(all, t.window, b) >= t.threshold
  }

  /** A cooldown ends with the bucket after a saturated one. */
  ghost predicate UntilFrom(t: Tier, k: Keys, all: seq<int>, last: int)
    requires t.window >= 1
  {
    k.until == 0 || exists b :: b <= Bucket(last, t.window) && Saturated(t, all, b) && k.until == (b + 2) * t.window
  }

  lemma {:induction false} RecordUntilFrom(t: Tier, k: Keys, human: seq<int>, all: seq<int>, last: int, now: int)
    requires ValidTier(t) && TierInv(t, k, human, all, last) && last <= now && UntilFrom(t, k, all, last)
    ensures UntilFrom(t, Record(t, k, now), all + [now], now)
  {
    var c := Bucket(now, t.window);
    assert BucketOk(t, k, human, all, last, c);
    RecordUntil(t, k, all, now);
    BucketMonotone(last, now, t.window);
    CountMore(all, now, t.window, c);
    if CountIn(all, t.window, c) + 1 >= t.threshold {
      assert Saturated(t, all + [now], c);
    } else if k.until != 0 {
      var b :| b <= Bucket(last, t.window) && Saturated(t, all, b) && k.until == (b + 2) * t.window;
      CountMore(all, now, t.window, b);
      assert Saturated(t, all + [now], b);
    }
  }

  lemma {:induction false} RunUntilFrom(tiers: seq<Tier>, events: seq<Event>, i: nat)
    requires i < |tiers| && InOrder(events) && forall i :: 0 <= i < |tiers| ==> ValidTier(tiers[i])
    ensures var s := Run(tiers, events); UntilFrom(tiers[i], s.keys[i], s.all, Last(events))
  {
    if events == [] {
      EmptyAt(|tiers|, i);
    } else {
      var init, e := events[..|events| - 1], events[|events| - 1];
      var s := Run(tiers, init);
      RunUntilFrom(tiers, init, i);
      RunInv(tiers, init, i);
      if e.Human? && !Admitted(s, e.now) {
        BucketMonotone(Last(init), e.now, tiers[i].window);
      } else {
        RecordAllAt(tiers, s.keys, e.now, i);
        RecordUntilFrom(tiers[i], s.keys[i], s.human, s.all, Last(init), e.now);
      }
    }
  }

  /** A tier is cooling exactly in a saturated bucket, after it became so, and in the one behind it. */
  lemma {:induction false} CoolingIff(tiers: seq<Tier>, events: seq<Event>, i: nat, now: int)
    requires i < |tiers| && InOrder(events) && now >= Last(events) && forall i :: 0 <= i < |tiers| ==> ValidTier(tiers[i])
    ensures var s, t := Run(tiers, events), tiers[i];
            Cooling(s.keys[i], now) <==> Saturated(t, s.all, Bucket(now, t.window)) || Saturated(t, s.all, Bucket(now, t.window) - 1)
  {
    var s, t := Run(tiers, events), tiers[i];
    RunInv(tiers, events, i);
    RunUntilFrom(tiers, events, i);
    if Cooling(s.keys[i], now) {
      var b :| b <= Bucket(Last(events), t.window) && Saturated(t, s.all, b) && s.keys[i].until == (b + 2) * t.window;
      BucketMonotone(Last(events), now, t.window);
      BucketBounds(now, t.window);
      if Bucket(now, t.window) >= b + 2 {
        TimesMono(b + 2, Bucket(now, t.window), t.window);
      }
    } else {
      HumanFinds(t, s.keys[i], s.human, s.all, Last(events), now);
    }
  }

  /**
    A human call is admitted exactly when no tier has had its threshold of calls, human or
    not, in the current bucket or the one before.
   */
  lemma {:induction false} AdmittedIff(tiers: seq<Tier>, events: seq<Event>, now: int)
    requires InOrder(events) && now >= Last(events) && forall i :: 0 <= i < |tiers| ==> ValidTier(tiers[i])
    ensures var s := Run(tiers, events);
            Admitted(s, now) <==>
            forall i :: 0 <= i < |tiers| ==>
              && CountIn(s.all, tiers[i].window, now / tiers[i].window) < tiers[i].threshold
              && CountIn(s.all, tiers[i].window, now / tiers[i].window - 1) < tiers[i].threshold
  {
    var s := Run(tiers, events);
    forall i | 0 <= i < |tiers|
      ensures Cooling(s.keys[i], now) <==>
              CountIn(s.all, tiers[i].window, now / tiers[i].window) >= tiers[i].threshold
              || CountIn(s.all, tiers[i].window, now / tiers[i].window - 1) >= tiers[i].threshold
    {
      CoolingIff(tiers, events, i, now);
    }
  }

  // ----- The manager and its backoff while Redis is down

  const redisBackoffMin := 1
  const redisBackoffMax := 30

  function Grown(backoff: nat): nat {
    if backoff == 0 then redisBackoffMin
    else if backoff * 2 > redisBackoffMax then redisBackoffMax else backoff * 2
  }

  /** The backoff after so many failed probes in a row. */
  ghost function BackoffAfter(failures: nat): nat {
    if failures == 0 then 0 else Grown(BackoffAfter(failures - 1))
  }

  ghost function Power2(n: nat): nat {
    if n == 0 then 1 else 2 * Power2(n - 1)
  }

  /** It doubles from one second and stays at thirty. */
  lemma {:induction false} BackoffIs(failures: nat)
    ensures failures > 0 ==>
              BackoffAfter(failures) == if Power2(failures - 1) < redisBackoffMax then Power2(failures - 1) else redisBackoffMax
  {
    if failures > 1 {
      BackoffIs(failures - 1);
    }
  }

  datatype Verdict = Admit | RedisDown | CoolingDown(tier: nat)

  /** The tier named is the most severe one that is cooling. */
  ghost predicate RightVerdict(v: Verdict, keys: seq<Keys>, now: int) {
    match v
    case Admit => forall i :: 0 <= i < |keys| ==> !Cooling(keys[i], now)
    case CoolingDown(n) =>
      && 1 <= n <= |keys| && Cooling(keys[n - 1], now)
      && forall i :: n <= i < |keys| ==> !Cooling(keys[i], now)
    case RedisDown => false
  }

  class Manager {
    const tiers: seq<Tier>
    const enabled: bool
    var keys: seq<Keys>
    var backoff: nat
    var nextProbe: int
    ghost var failures: nat

    ghost predicate Valid()
      reads this
    {
      && |keys| == |tiers| && (forall i :: 0 <= i < |tiers| ==> ValidTier(tiers[i]))
      && backoff == BackoffAfter(failures)
    }

    constructor (tiers: seq<Tier>, enabled: bool)
      requires forall i :: 0 <= i < |tiers| ==> ValidTier(tiers[i])
      ensures Valid() && failures == 0 && keys == Empty(|tiers|)
      ensures this.tiers == tiers && this.enabled == enabled
    {
      this.tiers, this.enabled := tiers, enabled;
      keys := seq(|tiers|, i => Keys(map[], 0));
      backoff, nextProbe, failures := 0, 0, 0;
      new;
      forall i | 0 <= i < |tiers| ensures keys[i] == Empty(|tiers|)[i] {
        EmptyAt(|tiers|, i);
      }
    }

    method FailClosed(now: int)
      requires Valid()
      modifies this`backoff, this`nextProbe, this`failures
      ensures Valid() && failures == old(failures) + 1 && nextProbe == now + backoff
    {
      failures := failures + 1;
      if backoff == 0 {
        backoff := redisBackoffMin;
      } else {
        backoff := backoff * 2;
        if backoff > redisBackoffMax {
          backoff := redisBackoffMax;
        }
      }
      nextProbe := now + backoff;
    }

    method Recover()
      requires Valid()
      modifies this`backoff, this`nextProbe, this`failures
      ensures Valid() && failures == 0
    {
      backoff, nextProbe, failures := 0, 0, 0;
    }

    /** While Redis is down everything is refused, and it is probed only at the end of each backoff; one answer lifts it. */
    method Admit(now: int, redisUp: bool) returns (v: Verdict, probed: bool)
      requires Valid()
      modifies this`backoff, this`nextProbe, this`failures
      ensures Valid()
      ensures !enabled ==> v == Verdict.Admit && !probed && failures == old(failures)
      ensures enabled ==> (probed <==> old(failures) == 0 || now >= old(nextProbe))
      ensures enabled && !probed ==> v == RedisDown && failures == old(failures) && nextProbe == old(nextProbe)
      ensures probed && !redisUp ==> v == RedisDown && failures == old(failures) + 1 && nextProbe == now + backoff
      ensures probed && redisUp ==> failures == 0 && RightVerdict(v, keys, now)
    {
      if !enabled {
        return Verdict.Admit, false;
      }
      BackoffZero(failures);
      if backoff > 0 && now < nextProbe {
        return RedisDown, false;
      }
      probed := true;
      if !redisUp {
        FailClosed(now);
        return RedisDown, true;
      }
      Recover();
      var i := |keys|;
      while i > 0
        invariant 0 <= i <= |keys| && forall j :: i <= j < |keys| ==> !Cooling(keys[j], now)
      {
        i := i - 1;
        if Cooling(keys[i], now) {
          return CoolingDown(i + 1), true;
        }
      }
      return Verdict.Admit, true;
    }

    /** Every tier counts the call. */
    method RecordUpstream(now: int, redisUp: bool)
      requires Valid()
      modifies this`keys
      ensures Valid()
      ensures keys == if enabled && redisUp then RecordAll(tiers, old(keys), now) else old(keys)
    {
      if !enabled || !redisUp {
        return;
      }
      ghost var before := keys;
      for i := 0 to |tiers|
        invariant |keys| == |tiers|
        invariant forall j :: 0 <= j < i ==> keys[j] == Record(tiers[j], before[j], now)
        invariant forall j :: i <= j < |keys| ==> keys[j] == before[j]
      {
        keys := keys[i := Record(tiers[i], keys[i], now)];
      }
      forall j | 0 <= j < |keys| ensures keys[j] == RecordAll(tiers, before, now)[j] {
        RecordAllAt(tiers, before, now, j);
      }
    }

    method RedisDownReset(now: int, redisUp: bool) returns (down: bool, until: int)
      requires Valid()
      modifies this`backoff, this`nextProbe, this`failures
      ensures Valid()
      ensures down ==> enabled && failures > 0 && until == nextProbe > now
      ensures down <==> enabled && old(failures) > 0 && (now < old(nextProbe) || !redisUp)
      ensures !down && enabled ==> failures == 0
      ensures enabled && old(failures) > 0 && now < old(nextProbe) ==> failures == old(failures) && until == old(nextProbe)
    {
      BackoffZero(failures);
      if !enabled || backoff == 0 {
        return false, 0;
      }
      if now < nextProbe {
        return true, nextProbe;
      }
      if !redisUp {
        FailClosed(now);
        BackoffZero(failures);
        return true, nextProbe;
      }
      Recover();
      return false, 0;
    }
  }

  lemma {:induction false} BackoffZero(failures: nat)
    ensures BackoffAfter(failures) == 0 <==> failures == 0
  {
    if failures > 0 {
      BackoffZero(failures - 1);
    }
  }
}
