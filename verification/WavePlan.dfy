/**
  The wave planner of the prefetch scheduler: how a cycle's post count is cut into
  bounded chunks, when each wave goes out, and the check that recognises a stored plan
  as one of this planner's. Random draws are parameters, so every statement holds for
  all of them; floating point is modelled by reals.
 */
module WavePlan {
  import opened Common

  const l3WaveTarget := 5
  const l3WaveCap := 10
  const l3MaxWaves := 64
  const l2WavesPerCycle := 5
  const l2WaveCap := 100

  // ----- Sums and cells

  function Sum(s: seq<int>): int {
    if s == [] then 0 else Sum(s[..|s| - 1]) + s[|s| - 1]
  }

  lemma {:induction false} SumUpdate(s: seq<int>, i: nat, v: int)
    requires i < |s|
    ensures Sum(s[i := v]) == Sum(s) - s[i] + v
  {
    var init := s[..|s| - 1];
    if i == |s| - 1 {
      assert s[i := v][..|s| - 1] == init;
    } else {
      assert s[i := v][..|s| - 1] == init[i := v];
      SumUpdate(init, i, v);
    }
  }

  lemma {:induction false} SumConcat(s: seq<int>, t: seq<int>)
    ensures Sum(s + t) == Sum(s) + Sum(t)
  {
    if t == [] {
      assert s + t == s;
    } else {
      assert (s + t)[..|s + t| - 1] == s + t[..|t| - 1];
      SumConcat(s, t[..|t| - 1]);
    }
  }

  /** Every cell lies in lo..hi. */
  ghost predicate Within(s: seq<int>, lo: int, hi: int) {
    forall i :: 0 <= i < |s| ==> lo <= s[i] <= hi
  }

  ghost predicate InRange(bins: seq<nat>, n: nat) {
    forall k :: 0 <= k < |bins| ==> bins[k] < n
  }

  ghost predicate PairsInRange(pairs: seq<(nat, nat)>, n: nat) {
    forall k :: 0 <= k < |pairs| ==> pairs[k].0 < n && pairs[k].1 < n
  }

  /** A draw of rand.Perm. */
  ghost predicate IsPerm(perm: seq<nat>, n: nat) {
    |perm| == n && InRange(perm, n) && Distinct(perm)
  }

  ghost predicate Distinct(bins: seq<nat>) {
    forall i, j :: 0 <= i < j < |bins| ==> bins[i] != bins[j]
  }

  // ----- splitL3

  function Even(waves: nat, base: int): (r: seq<int>)
    ensures |r| == waves && forall i :: 0 <= i < waves ==> r[i] == base
  {
    seq(waves, _ => base)
  }

  lemma {:induction false} EvenSum(waves: nat, base: int)
    ensures Sum(Even(waves, base)) == waves * base
  {
    if waves > 0 {
      assert Even(waves, base)[..waves - 1] == Even(waves - 1, base);
      EvenSum(waves - 1, base);
    }
  }

  /** One more for each drawn bin that is below the cap. */
  ghost function HandOut(s: seq<int>, bins: seq<nat>, cap: int): (r: seq<int>)
    requires InRange(bins, |s|)
    ensures |r| == |s|
  {
    if bins == [] then s else
    var r, i := HandOut(s, bins[..|bins| - 1], cap), bins[|bins| - 1];
    if r[i] < cap then r[i := r[i] + 1] else r
  }

  /** One transfer between two bins, where both stay in bounds. */
  function Transfer(s: seq<int>, a: nat, b: nat, cap: int): (r: seq<int>)
    requires a < |s| && b < |s|
    ensures |r| == |s|
  {
    if a != b && s[a] > 0 && s[b] < cap then s[a := s[a] - 1][b := s[b] + 1] else s
  }

  ghost function Jitter(s: seq<int>, moves: seq<(nat, nat)>, cap: int): (r: seq<int>)
    requires PairsInRange(moves, |s|)
    ensures |r| == |s|
  {
    if moves == [] then s else
    var last := moves[|moves| - 1];
    Transfer(Jitter(s, moves[..|moves| - 1], cap), last.0, last.1, cap)
  }

  lemma {:induction false} HandOutIs(waves: nat, base: int, bins: seq<nat>, cap: int)
    requires InRange(bins, waves) && Distinct(bins) && base <= cap
    ensures var r := HandOut(Even(waves, base), bins, cap);
            && Within(r, base, cap)
            && (forall i :: 0 <= i < waves && i !in bins ==> r[i] == base)
            && Sum(r) == Sum(Even(waves, base)) + if base < cap then |bins| else 0
  {
    if bins != [] {
      var init, i := bins[..|bins| - 1], bins[|bins| - 1];
      LastIsNew(bins);
      HandOutIs(waves, base, init, cap);
      var r := HandOut(Even(waves, base), init, cap);
      SumUpdate(r, i, r[i] + 1);
    }
  }

  lemma LastIsNew(bins: seq<nat>)
    requires Distinct(bins) && bins != []
    ensures Distinct(bins[..|bins| - 1]) && bins[|bins| - 1] !in bins[..|bins| - 1]
    ensures forall i :: i !in bins ==> i !in bins[..|bins| - 1] && i != bins[|bins| - 1]
  {
  }

  lemma {:induction false} TransferKeeps(s: seq<int>, a: nat, b: nat, cap: int)
    requires a < |s| && b < |s| && Within(s, 0, cap)
    ensures Within(Transfer(s, a, b, cap), 0, cap)
    ensures Sum(Transfer(s, a, b, cap)) == Sum(s)
  {
    if a != b && s[a] > 0 && s[b] < cap {
      SumUpdate(s, a, s[a] - 1);
      SumUpdate(s[a := s[a] - 1], b, s[b] + 1);
    }
  }

  lemma {:induction false} JitterKeeps(s: seq<int>, moves: seq<(nat, nat)>, cap: int)
    requires PairsInRange(moves, |s|) && Within(s, 0, cap)
    ensures Within(Jitter(s, moves, cap), 0, cap)
    ensures Sum(Jitter(s, moves, cap)) == Sum(s)
  {
    if moves != [] {
      var init, last := moves[..|moves| - 1], moves[|moves| - 1];
      JitterKeeps(s, init, cap);
      TransferKeeps(Jitter(s, init, cap), last.0, last.1, cap);
    }
  }

  function Min(a: int, b: int): int {
    if a <= b then a else b
  }

  /** The partition the draws give. */
  ghost function SplitL3Spec(postCount: int, waves: nat, cap0: int, perm: seq<nat>, moves: seq<(nat, nat)>): seq<int>
    requires waves > 0 && postCount > 0 && IsPerm(perm, waves) && PairsInRange(moves, waves)
  {
    var cap := if cap0 < 1 then 1 else cap0;
    var base, rem := if postCount / waves > cap then cap else postCount / waves,
                     if postCount / waves > cap then 0 else postCount % waves;
    PermPrefix(perm, waves, rem);
    Jitter(HandOut(Even(waves, base), perm[..rem], cap), moves, cap)
  }

  lemma PermPrefix(perm: seq<nat>, waves: nat, k: nat)
    requires IsPerm(perm, waves) && k <= waves
    ensures InRange(perm[..k], waves) && Distinct(perm[..k])
  {
  }

  /** Whatever the draws, the chunks are in bounds and nothing is dropped below saturation. */
  lemma {:induction false} SplitL3Covers(postCount: int, waves: nat, cap: int, perm: seq<nat>, moves: seq<(nat, nat)>)
    requires waves > 0 && postCount > 0 && cap >= 1 && IsPerm(perm, waves) && PairsInRange(moves, waves)
    ensures var r := SplitL3Spec(postCount, waves, cap, perm, moves);
            |r| == waves && Within(r, 0, cap) && Sum(r) == Min(postCount, waves * cap)
  {
    var full := postCount / waves > cap;
    var base, rem := if full then cap else postCount / waves, if full then 0 else postCount % waves;
    PermPrefix(perm, waves, rem);
    var handed := HandOut(Even(waves, base), perm[..rem], cap);
    SharesAddUp(postCount, waves, cap, perm[..rem]);
    JitterKeeps(handed, moves, cap);
  }

  lemma {:induction false} SharesAddUp(postCount: int, waves: nat, cap: int, bins: seq<nat>)
    requires waves > 0 && postCount > 0 && cap >= 1 && InRange(bins, waves) && Distinct(bins)
    requires |bins| == if postCount / waves > cap then 0 else postCount % waves
    ensures var r := HandOut(Even(waves, if postCount / waves > cap then cap else postCount / waves), bins, cap);
            Within(r, 0, cap) && Sum(r) == Min(postCount, waves * cap)
  {
    var base := if postCount / waves > cap then cap else postCount / waves;
    ShareArithmetic(postCount, waves, cap, base, |bins|);
    EvenSum(waves, base);
    HandOutIs(waves, base, bins, cap);
  }

  lemma ShareArithmetic(n: int, waves: nat, cap: int, base: int, rem: nat)
    requires waves > 0 && n > 0 && cap >= 1
    requires base == if n / waves > cap then cap else n / waves
    requires rem == if n / waves > cap then 0 else n % waves
    ensures 0 <= base <= cap
    ensures waves * base + (if base < cap then rem else 0) == Min(n, waves * cap)
  {
    Saturation(n, waves, cap);
  }

  lemma Saturation(n: int, waves: nat, cap: int)
    requires waves > 0 && n > 0
    ensures n / waves > cap ==> n >= waves * cap
    ensures n / waves == cap ==> n >= waves * cap
    ensures n / waves < cap ==> n <= waves * cap
    ensures n == waves * (n / waves) + n % waves
  {
    var q := n / waves;
    assert n == waves * q + n % waves;
    if q >= cap {
      MulMono(waves, cap, q);
    } else {
      MulMono(waves, q + 1, cap);
      assert waves * (q + 1) == waves * q + waves;
    }
  }

  lemma MulMono(k: nat, a: int, b: int)
    requires a <= b
    ensures k * a <= k * b
  {
  }

  lemma FullIff(n: int, waves: nat, cap: int)
    requires waves > 0 && n > 0
    ensures n / waves >= cap <==> n >= waves * cap
  {
    Saturation(n, waves, cap);
    if n / waves < cap {
      MulMono(waves, n / waves + 1, cap);
      OneMoreTimes(waves, n / waves);
    }
  }

  lemma {:induction false} EvenShare(postCount: int, waves: nat, cap: int, perm: seq<nat>, i: nat)
    requires waves > 0 && postCount > 0 && cap >= 1 && IsPerm(perm, waves) && i < waves
    ensures var r, share := SplitL3Spec(postCount, waves, cap, perm, []), postCount / waves;
            |r| == waves && r[i] == if share >= cap then cap else share + if i in perm[..postCount % waves] then 1 else 0
  {
    var base, rem := Min(postCount / waves, cap), if postCount / waves > cap then 0 else postCount % waves;
    PermPrefix(perm, waves, rem);
    HandOutIs(waves, base, perm[..rem], cap);
    HandedOut(waves, base, perm[..rem], cap, i);
  }

  /** Before the transfers all chunks are the even share, and the drawn ones have one of the remainder. */
  lemma {:induction false} EvenShares(postCount: int, waves: nat, cap: int, perm: seq<nat>, i: nat)
    requires waves > 0 && postCount > 0 && cap >= 1 && IsPerm(perm, waves) && i < waves
    ensures var r := SplitL3Spec(postCount, waves, cap, perm, []);
            && |r| == waves
            && r[i] == (if postCount >= waves * cap then cap
                        else postCount / waves + if i in perm[..postCount % waves] then 1 else 0)
  {
    EvenShare(postCount, waves, cap, perm, i);
    FullIff(postCount, waves, cap);
  }

  lemma {:induction false} HandedOut(waves: nat, base: int, bins: seq<nat>, cap: int, i: nat)
    requires InRange(bins, waves) && Distinct(bins) && base <= cap && i < waves
    ensures HandOut(Even(waves, base), bins, cap)[i] == base + if i in bins && base < cap then 1 else 0
  {
    if bins != [] {
      var init, last := bins[..|bins| - 1], bins[|bins| - 1];
      LastIsNew(bins);
      HandedOut(waves, base, init, cap, i);
      HandedOut(waves, base, init, cap, last);
      assert bins == init + [last];
    }
  }

  /** A transfer moves one post from a chunk that has one to another that has room. */
  lemma {:induction false} NextTransfer(postCount: int, waves: nat, cap: int, perm: seq<nat>, moves: seq<(nat, nat)>, a: nat, b: nat)
    requires waves > 0 && postCount > 0 && cap >= 1 && IsPerm(perm, waves) && PairsInRange(moves, waves)
    requires a < waves && b < waves
    ensures PairsInRange(moves + [(a, b)], waves)
    ensures var r, t := SplitL3Spec(postCount, waves, cap, perm, moves), SplitL3Spec(postCount, waves, cap, perm, moves + [(a, b)]);
            && |t| == |r| == waves
            && if a == b || r[a] == 0 || r[b] == cap then t == r
               else t[a] == r[a] - 1 && t[b] == r[b] + 1 && forall i :: 0 <= i < waves && i != a && i != b ==> t[i] == r[i]
  {
    assert (moves + [(a, b)])[..|moves|] == moves;
    SplitL3Covers(postCount, waves, cap, perm, moves);
  }

  method SplitL3(postCount: int, waves: nat, cap0: int, perm: seq<nat>, moves: seq<(nat, nat)>)
      returns (chunks: seq<int>)
    requires IsPerm(perm, waves) && PairsInRange(moves, waves) && |moves| == waves * 2
    ensures |chunks| == waves
    ensures waves == 0 || postCount <= 0 ==> chunks == Even(waves, 0)
    ensures waves > 0 && postCount > 0 ==> chunks == SplitL3Spec(postCount, waves, cap0, perm, moves)
  {
    var out := new int[waves](_ => 0);
    if waves == 0 || postCount <= 0 {
      return out[..];
    }
    var cap := cap0;
    if cap < 1 {
      cap := 1;
    }
    var base, rem := postCount / waves, postCount % waves;
    if base > cap {
      base, rem := cap, 0;
    }
    for i := 0 to waves
      invariant forall j :: 0 <= j < i ==> out[j] == base
    {
      out[i] := base;
    }
    assert out[..] == Even(waves, base);
    GiveRemainder(out, perm, rem, cap);
    Transfers(out, moves, cap);
    return out[..];
  }

  // the remainder loop of splitL3
  method GiveRemainder(out: array<int>, perm: seq<nat>, rem: nat, cap: int)
    requires IsPerm(perm, out.Length) && rem <= out.Length
    modifies out
    ensures InRange(perm[..rem], out.Length) && out[..] == HandOut(old(out[..]), perm[..rem], cap)
  {
    for k := 0 to |perm|
      invariant k <= rem
      invariant InRange(perm[..k], out.Length) && out[..] == HandOut(old(out[..]), perm[..k], cap)
    {
      if k >= rem {
        break;
      }
      var i := perm[k];
      assert perm[..k + 1][..k] == perm[..k];
      if out[i] < cap {
        out[i] := out[i] + 1;
      }
    }
  }

  // the jitter loop of splitL3
  method Transfers(out: array<int>, moves: seq<(nat, nat)>, cap: int)
    requires PairsInRange(moves, out.Length)
    modifies out
    ensures out[..] == Jitter(old(out[..]), moves, cap)
  {
    for t := 0 to |moves|
      invariant PairsInRange(moves[..t], out.Length) && out[..] == Jitter(old(out[..]), moves[..t], cap)
    {
      var (a, b) := moves[t];
      assert moves[..t + 1][..t] == moves[..t];
      if a != b && out[a] > 0 && out[b] < cap {
        out[a] := out[a] - 1;
        out[b] := out[b] + 1;
      }
    }
    assert moves[..|moves|] == moves;
  }

  // ----- Offsets

  /** Conversion of a float to an integer, toward zero. */
  function Truncate(x: real): int {
    if x >= 0.0 then x.Floor else -((-x).Floor)
  }

  ghost predicate AreDraws(draws: seq<real>, n: nat) {
    |draws| == n && forall i :: 0 <= i < n ==> 0.0 <= draws[i] < 1.0
  }

  ghost predicate Ascending(s: seq<int>) {
    forall i, j :: 0 <= i < j < |s| ==> s[i] <= s[j]
  }

  function Insert(s: seq<int>, x: int): (r: seq<int>)
    ensures |r| == |s| + 1
  {
    if s == [] || s[|s| - 1] <= x then s + [x] else Insert(s[..|s| - 1], x) + [s[|s| - 1]]
  }

  function Sorted(s: seq<int>): (r: seq<int>)
    ensures |r| == |s|
  {
    if s == [] then [] else Insert(Sorted(s[..|s| - 1]), s[|s| - 1])
  }

  lemma {:induction false} InsertElements(s: seq<int>, x: int)
    ensures multiset(Insert(s, x)) == multiset(s) + multiset{x}
  {
    if s != [] && s[|s| - 1] > x {
      InsertElements(s[..|s| - 1], x);
      InitElements(s);
    }
  }

  lemma {:induction false} InsertKeepsOrder(s: seq<int>, x: int)
    requires Ascending(s)
    ensures Ascending(Insert(s, x))
  {
    if s != [] && s[|s| - 1] > x {
      var init := s[..|s| - 1];
      InsertKeepsOrder(init, x);
      InsertElements(init, x);
      var r := Insert(init, x);
      forall i | 0 <= i < |r| ensures r[i] <= s[|s| - 1] {
        assert r[i] in multiset(r);
      }
    }
  }

  lemma {:induction false} SortedIs(s: seq<int>)
    ensures Ascending(Sorted(s)) && multiset(Sorted(s)) == multiset(s)
  {
    if s != [] {
      var init := s[..|s| - 1];
      assert s == init + [s[|s| - 1]];
      SortedIs(init);
      InsertKeepsOrder(Sorted(init), s[|s| - 1]);
      InsertElements(Sorted(init), s[|s| - 1]);
    }
  }

  lemma {:induction false} LastIsLargest(s: seq<int>, x: int)
    requires Ascending(s) && x in multiset(s)
    ensures s != [] && x <= s[|s| - 1]
  {
    var i :| 0 <= i < |s| && s[i] == x;
  }

  lemma {:induction false} InitElements(s: seq<int>)
    requires s != []
    ensures multiset(s) == multiset(s[..|s| - 1]) + multiset{s[|s| - 1]}
  {
    assert s == s[..|s| - 1] + [s[|s| - 1]];
  }

  lemma {:induction false} SameLast(s: seq<int>, t: seq<int>)
    requires Ascending(s) && Ascending(t) && multiset(s) == multiset(t) && s != []
    ensures t != [] && s[|s| - 1] == t[|t| - 1]
    ensures multiset(s[..|s| - 1]) == multiset(t[..|t| - 1])
  {
    InitElements(s);
    assert s[|s| - 1] in multiset(t);
    LastIsLargest(t, s[|s| - 1]);
    InitElements(t);
    LastIsLargest(s, t[|t| - 1]);
    TakeAway(multiset(s[..|s| - 1]), multiset(t[..|t| - 1]), s[|s| - 1]);
  }

  lemma TakeAway(a: multiset<int>, b: multiset<int>, x: int)
    requires a + multiset{x} == b + multiset{x}
    ensures a == b
  {
    assert a == (a + multiset{x}) - multiset{x};
    assert b == (b + multiset{x}) - multiset{x};
  }

  /** Any sorting routine gives this sequence: a sorted permutation is unique. */
  lemma {:induction false} SortedUnique(s: seq<int>, t: seq<int>)
    requires Ascending(s) && Ascending(t) && multiset(s) == multiset(t)
    ensures s == t
  {
    if s == [] {
      assert t == [] by {
        assert |multiset(t)| == 0;
      }
    } else {
      SameLast(s, t);
      SortedUnique(s[..|s| - 1], t[..|t| - 1]);
      assert s == s[..|s| - 1] + [s[|s| - 1]];
      assert t == t[..|t| - 1] + [t[|t| - 1]];
    }
  }

  function DrawAt(draw: real, span: int): int {
    Truncate(draw * (span as real))
  }

  function Drawn(draws: seq<real>, span: int): (r: seq<int>)
    ensures |r| == |draws| && forall i :: 0 <= i < |r| ==> r[i] == DrawAt(draws[i], span)
  {
    seq(|draws|, i requires 0 <= i < |draws| => DrawAt(draws[i], span))
  }

  /** Sorted draws over the span, the i-th one moved up by i gaps. */
  ghost predicate Dispersed(offsets: seq<int>, draws: seq<real>, span: int, gap: int) {
    && |offsets| == |draws|
    && forall i :: 0 <= i < |offsets| ==> offsets[i] == Sorted(Drawn(draws, span))[i] + i * gap
  }

  ghost predicate Spaced(offsets: seq<int>, gap: int) {
    forall i :: 0 < i < |offsets| ==> offsets[i] - offsets[i - 1] >= gap
  }

  lemma DrawBelow(d: real, span: int)
    requires 0.0 <= d < 1.0 && span >= 0
    ensures 0 <= DrawAt(d, span) <= span
    ensures span > 0 ==> DrawAt(d, span) < span
  {
    var s := span as real;
    assert d * s >= 0.0;
    assert (1.0 - d) * s >= 0.0;
    assert s - d * s == (1.0 - d) * s;
    if span > 0 {
      assert (1.0 - d) * s > 0.0;
    }
  }

  lemma {:induction false} SortedWithin(s: seq<int>, hi: int)
    requires Within(s, 0, hi)
    ensures Within(Sorted(s), 0, hi)
  {
    SortedIs(s);
    var r := Sorted(s);
    forall i | 0 <= i < |r| ensures 0 <= r[i] <= hi {
      assert r[i] in multiset(r);
    }
  }

  lemma {:induction false} DispersedIs(offsets: seq<int>, draws: seq<real>, span: int, gap: int)
    requires AreDraws(draws, |draws|) && span >= 0 && gap >= 0 && Dispersed(offsets, draws, span, gap)
    ensures Spaced(offsets, gap)
    ensures forall i :: 0 <= i < |offsets| ==> i * gap <= offsets[i] <= i * gap + if span > 0 then span - 1 else 0
  {
    var hi := if span > 0 then span - 1 else 0;
    var drawn := Drawn(draws, span);
    forall i | 0 <= i < |drawn| ensures 0 <= drawn[i] <= hi {
      DrawBelow(draws[i], span);
    }
    SortedWithin(drawn, hi);
    SortedIs(drawn);
    forall i | 0 < i < |offsets| ensures offsets[i] - offsets[i - 1] >= gap {
      assert i * gap == (i - 1) * gap + gap;
    }
  }

  // the draw, sort and shift loops that the two offset planners share
  method Disperse(draws: seq<real>, span: int, gap: int) returns (r: seq<int>)
    ensures Dispersed(r, draws, span, gap)
  {
    var offsets := new int[|draws|];
    for i := 0 to offsets.Length
      invariant forall j :: 0 <= j < i ==> offsets[j] == DrawAt(draws[j], span)
    {
      offsets[i] := DrawAt(draws[i], span);
    }
    assert offsets[..] == Drawn(draws, span);
    var sorted := Sorted(offsets[..]);
    for i := 0 to offsets.Length
      invariant forall j :: 0 <= j < i ==> offsets[j] == sorted[j] + j * gap
    {
      offsets[i] := sorted[i] + i * gap;
    }
    return offsets[..];
  }

  /** The part of the period that L3 plans into. */
  function Usable(period: int): int {
    Truncate(period as real * 0.95)
  }

  function L3Gap(period: int, waves: nat): int
    requires waves > 0
  {
    Usable(period) / waves / 2
  }

  method PlanL3WaveOffsets(period: int, waves: nat, draws: seq<real>) returns (offsets: seq<int>)
    requires AreDraws(draws, waves)
    ensures |offsets| == waves
    ensures Usable(period) <= 0 ==> offsets == Even(waves, 0)
    ensures Usable(period) > 0 && waves > 0 ==>
              var gap := L3Gap(period, waves);
              Dispersed(offsets, draws, Usable(period) - (waves - 1) * gap, gap)
  {
    if waves == 0 {
      return [];
    }
    var usable := Usable(period);
    if usable <= 0 {
      return Even(waves, 0);
    }
    var slice := usable / waves;
    var minGap := slice / 2;
    var reserved := (waves - 1) * minGap;
    var randomSpan := usable - reserved;
    L3SpanPositive(usable, waves);
    if randomSpan < 0 {
      randomSpan := 0;
    }
    offsets := Disperse(draws, randomSpan, minGap);
  }

  /** The gaps take less than the usable part, so a random span is always left. */
  lemma L3SpanPositive(usable: int, waves: nat)
    requires usable > 0 && waves > 0
    ensures usable - (waves - 1) * (usable / waves / 2) > 0
  {
    var slice := usable / waves;
    var gap := slice / 2;
    assert waves * slice <= usable;
    assert 2 * gap <= slice;
    MulMono(waves, 2 * gap, slice);
    assert waves * (2 * gap) == 2 * (waves * gap);
    assert waves * gap == (waves - 1) * gap + gap;
    assert waves * gap >= 0;
  }

  lemma UsableIs(period: int)
    requires Usable(period) > 0
    ensures 95 * period - 100 < 100 * Usable(period) <= 95 * period
  {
    var x := period as real * 0.95;
    assert x.Floor as real <= x;
  }

  /** All L3 waves go out in order, a gap apart, and before the last twentieth of the period. */
  lemma {:induction false} L3OffsetsFit(period: int, waves: nat, draws: seq<real>, offsets: seq<int>)
    requires waves > 0 && AreDraws(draws, waves) && Usable(period) > 0
    requires var gap := L3Gap(period, waves);
             Dispersed(offsets, draws, Usable(period) - (waves - 1) * gap, gap)
    ensures Spaced(offsets, L3Gap(period, waves)) && Ascending(offsets)
    ensures forall i :: 0 <= i < |offsets| ==> 0 <= offsets[i] < Usable(period)
    ensures 100 * Usable(period) <= 95 * period
  {
    L3SpanPositive(Usable(period), waves);
    FitsIn(Usable(period), waves, draws, offsets, L3Gap(period, waves));
    UsableIs(period);
  }

  lemma StepsFit(i: nat, waves: nat, gap: int)
    requires i < waves && gap >= 0
    ensures 0 <= i * gap <= (waves - 1) * gap
  {
    MulMono(gap, i, waves - 1);
    MulMono(gap, 0, i);
  }

  /** Draws over what the gaps leave of the room stay inside the room. */
  lemma {:induction false} FitsIn(room: int, waves: nat, draws: seq<real>, offsets: seq<int>, gap: int)
    requires waves > 0 && AreDraws(draws, waves) && gap >= 0
    requires room - (waves - 1) * gap > 0 && Dispersed(offsets, draws, room - (waves - 1) * gap, gap)
    ensures Spaced(offsets, gap) && Ascending(offsets)
    ensures forall i :: 0 <= i < |offsets| ==> 0 <= offsets[i] < room
  {
    DispersedIs(offsets, draws, room - (waves - 1) * gap, gap);
    forall i | 0 <= i < |offsets| ensures 0 <= offsets[i] < room {
      StepsFit(i, waves, gap);
    }
    SpacedAscends(offsets, gap);
  }

  lemma {:induction false} SpacedAscends(offsets: seq<int>, gap: int)
    requires Spaced(offsets, gap) && gap >= 0
    ensures Ascending(offsets)
  {
    if offsets != [] {
      var init := offsets[..|offsets| - 1];
      SpacedAscends(init, gap);
      forall i, j | 0 <= i < j < |offsets| ensures offsets[i] <= offsets[j] {
        if j == |offsets| - 1 && i < j - 1 {
          assert init[i] <= init[j - 1];
        } else if j < |offsets| - 1 {
          assert init[i] <= init[j];
        }
      }
    }
  }

  // ----- The L2 planner

  function L2Gap(period: int): int {
    var gap := Truncate(period as real * 0.10);
    if gap < 0 then 0 else gap
  }

  method PlanWaveOffsets(period: int, waves: nat, draws: seq<real>) returns (offsets: seq<int>)
    requires AreDraws(draws, waves)
    ensures var span := period - (waves - 1) * L2Gap(period);
            Dispersed(offsets, draws, if span < 0 then 0 else span, L2Gap(period))
  {
    var minGap := Truncate(period as real * 0.10);
    if minGap < 0 {
      minGap := 0;
    }
    var reserved := (waves - 1) * minGap;
    var randomSpan := period - reserved;
    if randomSpan < 0 {
      randomSpan := 0;
    }
    offsets := Disperse(draws, randomSpan, minGap);
  }

  /** A fixed gap of a tenth works for the five L2 waves. */
  lemma {:induction false} L2OffsetsFit(period: int, draws: seq<real>, offsets: seq<int>)
    requires period > 0 && AreDraws(draws, l2WavesPerCycle)
    requires Dispersed(offsets, draws, period - (l2WavesPerCycle - 1) * L2Gap(period), L2Gap(period))
    ensures Spaced(offsets, L2Gap(period)) && Ascending(offsets)
    ensures forall i :: 0 <= i < |offsets| ==> 0 <= offsets[i] < period
  {
    L2GapIs(period);
    FitsIn(period, l2WavesPerCycle, draws, offsets, L2Gap(period));
  }

  lemma L2GapIs(period: int)
    requires period >= 0
    ensures 0 <= 10 * L2Gap(period) <= period < 10 * (L2Gap(period) + 1)
  {
    var x := period as real * 0.10;
    assert x.Floor as real <= x;
  }

  /** For a longer list of waves the same scheme leaves the period: the reason L3 has its own. */
  lemma {:induction false} FixedGapFitsIff(period: int, waves: nat, draws: seq<real>, offsets: seq<int>)
    requires waves > 0 && period > 0 && AreDraws(draws, waves)
    requires var span := period - (waves - 1) * L2Gap(period);
             Dispersed(offsets, draws, if span < 0 then 0 else span, L2Gap(period))
    ensures offsets[waves - 1] <= period <==> (waves - 1) * L2Gap(period) <= period
  {
    var span := period - (waves - 1) * L2Gap(period);
    L2GapIs(period);
    DispersedIs(offsets, draws, if span < 0 then 0 else span, L2Gap(period));
  }

  // ----- Which offsets can be drawn

  /** The offset without the gaps before it. */
  ghost function Base(offsets: seq<int>, gap: int, i: nat): int
    requires i < |offsets|
  {
    offsets[i] - i * gap
  }

  lemma {:induction false} BasesAscend(offsets: seq<int>, gap: int, i: nat, j: nat)
    requires Spaced(offsets, gap) && i <= j < |offsets|
    ensures Base(offsets, gap, i) <= Base(offsets, gap, j)
    decreases j
  {
    if i < j {
      BasesAscend(offsets, gap, i, j - 1);
      assert j * gap == (j - 1) * gap + gap;
    }
  }

  lemma DrawFor(base: int, span: int)
    requires 0 <= base < span
    ensures 0.0 <= base as real / span as real < 1.0 && DrawAt(base as real / span as real, span) == base
  {
    assert base as real / span as real * span as real == base as real;
  }

  /** Every list that is spaced and inside the room can be drawn. */
  lemma {:induction false} CanBeDrawn(offsets: seq<int>, span: int, gap: int) returns (draws: seq<real>)
    requires span > 0 && Spaced(offsets, gap) && offsets != []
    requires 0 <= offsets[0] && Base(offsets, gap, |offsets| - 1) < span
    ensures AreDraws(draws, |offsets|) && Dispersed(offsets, draws, span, gap)
  {
    var n := |offsets|;
    draws := seq(n, i requires 0 <= i < n => Base(offsets, gap, i) as real / span as real);
    var drawn := Drawn(draws, span);
    forall i: nat | i < n ensures 0.0 <= draws[i] < 1.0 && drawn[i] == Base(offsets, gap, i) {
      BasesAscend(offsets, gap, 0, i);
      BasesAscend(offsets, gap, i, n - 1);
      DrawFor(Base(offsets, gap, i), span);
    }
    forall i: nat, j: nat | i < j < n ensures drawn[i] <= drawn[j] {
      BasesAscend(offsets, gap, i, j);
    }
    SortedIs(drawn);
    SortedUnique(Sorted(drawn), drawn);
  }

  ghost predicate Drawable(offsets: seq<int>, waves: nat, span: int, gap: int) {
    exists draws :: AreDraws(draws, waves) && Dispersed(offsets, draws, span, gap)
  }

  lemma {:induction false} DrawableIff(offsets: seq<int>, waves: nat, room: int, gap: int)
    requires waves > 0 && gap >= 0 && room - (waves - 1) * gap > 0
    ensures Drawable(offsets, waves, room - (waves - 1) * gap, gap)
       <==> |offsets| == waves && Spaced(offsets, gap) && 0 <= offsets[0] && offsets[waves - 1] < room
  {
    var span := room - (waves - 1) * gap;
    if draws :| AreDraws(draws, waves) && Dispersed(offsets, draws, span, gap) {
      FitsIn(room, waves, draws, offsets, gap);
    }
    if |offsets| == waves && Spaced(offsets, gap) && 0 <= offsets[0] && offsets[waves - 1] < room {
      var draws := CanBeDrawn(offsets, span, gap);
    }
  }

  lemma L3GapIs(period: int, waves: nat)
    requires Usable(period) > 0 && waves > 0
    ensures 2 * waves * L3Gap(period, waves) <= Usable(period) < 2 * waves * (L3Gap(period, waves) + 1)
  {
    var usable, gap := Usable(period), L3Gap(period, waves);
    var slice := usable / waves;
    assert waves * slice <= usable < waves * slice + waves;
    OneMoreTimes(waves, slice);
    MulMono(waves, 2 * gap, slice);
    MulMono(waves, slice + 1, 2 * (gap + 1));
    TwiceTimes(waves, gap);
    TwiceTimes(waves, gap + 1);
  }

  lemma TwiceTimes(k: nat, x: int)
    ensures k * (2 * x) == 2 * k * x
  {
  }

  lemma OneMoreTimes(k: nat, x: int)
    ensures k * (x + 1) == k * x + k
  {
  }

  /** L3 can draw exactly the lists that keep half an even share between waves and end inside the usable part. */
  lemma {:induction false} L3OffsetsIff(period: int, waves: nat, offsets: seq<int>)
    requires waves > 0 && Usable(period) > 0
    ensures var gap := L3Gap(period, waves);
            && (Drawable(offsets, waves, Usable(period) - (waves - 1) * gap, gap)
                <==> |offsets| == waves && Spaced(offsets, gap) && 0 <= offsets[0] && offsets[waves - 1] < Usable(period))
            && 2 * waves * gap <= Usable(period) < 2 * waves * (gap + 1)
            && 95 * period - 100 < 100 * Usable(period) <= 95 * period
  {
    L3SpanPositive(Usable(period), waves);
    L3GapIs(period, waves);
    DrawableIff(offsets, waves, Usable(period), L3Gap(period, waves));
    UsableIs(period);
  }

  /** And L2 exactly the five that keep a tenth of the period between them and end inside it. */
  lemma {:induction false} L2OffsetsIff(period: int, offsets: seq<int>)
    requires period > 0
    ensures var gap := L2Gap(period);
            && (Drawable(offsets, 5, period - 4 * gap, gap)
                <==> |offsets| == 5 && Spaced(offsets, gap) && 0 <= offsets[0] && offsets[4] < period)
            && 10 * gap <= period < 10 * (gap + 1)
  {
    L2GapIs(period);
    DrawableIff(offsets, 5, period, L2Gap(period));
  }

  ghost predicate Weights(weights: seq<real>) {
    forall i :: 0 <= i < |weights| ==> 0.1 <= weights[i] < 1.1
  }

  ghost function Total(weights: seq<real>): real {
    if weights == [] then 0.0 else Total(weights[..|weights| - 1]) + weights[|weights| - 1]
  }

  lemma {:induction false} TotalPositive(weights: seq<real>)
    requires Weights(weights)
    ensures Total(weights) >= 0.0 && (weights != [] ==> Total(weights) > 0.0)
  {
    if weights != [] {
      TotalPositive(weights[..|weights| - 1]);
    }
  }

  /** What a weight is worth out of n. */
  function Portion(weight: real, sum: real, n: real): real
    requires sum > 0.0
  {
    weight / sum * n
  }

  /** The cell of a wave other than the last. */
  function Share(weight: real, sum: real, remaining: int, cap: int): int
    requires sum > 0.0
  {
    Min(1 + Truncate(Portion(weight, sum, remaining as real)), cap)
  }

  ghost function Shares(weights: seq<real>, sum: real, remaining: int, cap: int): (r: seq<int>)
    requires sum > 0.0
    ensures |r| == |weights|
  {
    if weights == [] then [] else
    Shares(weights[..|weights| - 1], sum, remaining, cap) + [Share(weights[|weights| - 1], sum, remaining, cap)]
  }

  /** What is left for the last wave before it is clamped. */
  ghost function Residual(postCount: int, weights: seq<real>, cap: int): int
    requires Weights(weights) && weights != []
  {
    TotalPositive(weights);
    postCount - Sum(Shares(weights[..|weights| - 1], Total(weights), postCount - |weights|, cap))
  }

  lemma ShareIs(w: real, sum: real, remaining: int, cap: int)
    requires 0.0 < w <= sum && remaining >= 0 && cap >= 1
    ensures 1 <= Share(w, sum, remaining, cap) <= cap
    ensures Share(w, sum, remaining, cap) as real <= 1.0 + Portion(w, sum, remaining as real)
  {
    assert w / sum >= 0.0;
    assert w / sum * (remaining as real) >= 0.0;
  }

  lemma {:induction false} SharesAre(weights: seq<real>, sum: real, remaining: int, cap: int)
    requires Weights(weights) && Total(weights) <= sum && sum > 0.0 && remaining >= 0 && cap >= 1
    ensures Within(Shares(weights, sum, remaining, cap), 1, cap)
    ensures |weights| <= Sum(Shares(weights, sum, remaining, cap))
    ensures Sum(Shares(weights, sum, remaining, cap)) as real
            <= |weights| as real + Portion(Total(weights), sum, remaining as real)
  {
    if weights != [] {
      var init, w := weights[..|weights| - 1], weights[|weights| - 1];
      TotalPositive(init);
      SharesAre(init, sum, remaining, cap);
      ShareIs(w, sum, remaining, cap);
      Spread(Total(init), w, sum, remaining as real);
      SharesAdd(Shares(init, sum, remaining, cap), Share(w, sum, remaining, cap), 1, cap);
    }
  }

  lemma SharesAdd(s: seq<int>, x: int, lo: int, hi: int)
    requires Within(s, lo, hi) && lo <= x <= hi
    ensures Within(s + [x], lo, hi) && Sum(s + [x]) == Sum(s) + x
  {
    assert (s + [x])[..|s + [x]| - 1] == s;
  }

  lemma Spread(a: real, b: real, sum: real, n: real)
    requires sum > 0.0
    ensures Portion(a + b, sum, n) == Portion(a, sum, n) + Portion(b, sum, n)
  {
    assert (a + b) / sum == a / sum + b / sum;
  }

  lemma Fraction(a: real, sum: real, n: real)
    requires 0.0 <= a < sum && n >= 0.0
    ensures Portion(a, sum, n) <= n
  {
    assert a / sum <= 1.0;
    assert (1.0 - a / sum) * n >= 0.0;
  }

  /** The last wave always has something to do, so its lower clamp never acts. */
  lemma {:induction false} ResidualPositive(postCount: int, weights: seq<real>, cap: int)
    requires Weights(weights) && weights != [] && postCount > |weights| && cap >= 1
    ensures 1 <= Residual(postCount, weights, cap) <= postCount - |weights| + 1
  {
    TotalPositive(weights);
    var init := weights[..|weights| - 1];
    TotalPositive(init);
    SharesAre(init, Total(weights), postCount - |weights|, cap);
    Fraction(Total(init), Total(weights), (postCount - |weights|) as real);
  }

  ghost function SwapAt(s: seq<int>, i: nat, j: nat): (r: seq<int>)
    requires i < |s| && j < |s|
    ensures |r| == |s|
  {
    s[i := s[j]][j := s[i]]
  }

  ghost function Shuffled(s: seq<int>, swaps: seq<(nat, nat)>): (r: seq<int>)
    requires PairsInRange(swaps, |s|)
    ensures |r| == |s|
  {
    if swaps == [] then s else
    var last := swaps[|swaps| - 1];
    SwapAt(Shuffled(s, swaps[..|swaps| - 1]), last.0, last.1)
  }

  lemma {:induction false} ShuffleKeeps(s: seq<int>, swaps: seq<(nat, nat)>, lo: int, hi: int)
    requires PairsInRange(swaps, |s|) && Within(s, lo, hi)
    ensures Within(Shuffled(s, swaps), lo, hi) && Sum(Shuffled(s, swaps)) == Sum(s)
  {
    if swaps != [] {
      var init, last := swaps[..|swaps| - 1], swaps[|swaps| - 1];
      ShuffleKeeps(s, init, lo, hi);
      var r := Shuffled(s, init);
      SumUpdate(r, last.0, r[last.1]);
      SumUpdate(r[last.0 := r[last.1]], last.1, r[last.0]);
    }
  }

  /** A swap exchanges two chunks. */
  lemma {:induction false} NextSwap(s: seq<int>, swaps: seq<(nat, nat)>, i: nat, j: nat, k: nat)
    requires PairsInRange(swaps, |s|) && i < |s| && j < |s| && k < |s|
    ensures PairsInRange(swaps + [(i, j)], |s|) && Shuffled(s, []) == s
    ensures Shuffled(s, swaps + [(i, j)])[k] == Shuffled(s, swaps)[if k == i then j else if k == j then i else k]
  {
    assert (swaps + [(i, j)])[..|swaps|] == swaps;
  }

  method Shuffle(a: array<int>, swaps: seq<(nat, nat)>)
    requires PairsInRange(swaps, a.Length)
    modifies a
    ensures a[..] == Shuffled(old(a[..]), swaps)
  {
    for t := 0 to |swaps|
      invariant PairsInRange(swaps[..t], a.Length) && a[..] == Shuffled(old(a[..]), swaps[..t])
    {
      assert swaps[..t + 1][..t] == swaps[..t];
      var (i, j) := swaps[t];
      a[i], a[j] := a[j], a[i];
    }
    assert swaps[..|swaps|] == swaps;
  }

  /** The cells before shuffling. */
  ghost function Cells(postCount: int, weights: seq<real>, cap: int): (r: seq<int>)
    requires Weights(weights) && weights != [] && cap >= 1
    ensures |r| == |weights|
  {
    if postCount <= |weights| then seq(|weights|, i => if i < postCount then 1 else 0)
    else
      TotalPositive(weights);
      Shares(weights[..|weights| - 1], Total(weights), postCount - |weights|, cap)
      + [Min(Residual(postCount, weights, cap), cap)]
  }

  method SplitNonUniform(postCount: int, waves: nat, maxPerWave0: int, draws: seq<real>, swaps: seq<(nat, nat)>)
      returns (chunks: seq<int>)
    requires AreDraws(draws, waves) && PairsInRange(swaps, waves)
    ensures |chunks| == waves
    ensures waves == 0 || postCount <= 0 ==> chunks == Even(waves, 0)
    ensures waves > 0 && postCount > 0 ==>
              chunks == Shuffled(Cells(postCount, WeightsOf(draws), if maxPerWave0 < 1 then 1 else maxPerWave0), swaps)
  {
    var out := new int[waves](_ => 0);
    if waves == 0 || postCount <= 0 {
      return out[..];
    }
    var maxPerWave := maxPerWave0;
    if maxPerWave < 1 {
      maxPerWave := 1;
    }
    if postCount <= waves {
      for i := 0 to postCount
        invariant forall j :: 0 <= j < waves ==> out[j] == if j < i then 1 else 0
      {
        out[i] := 1;
      }
      assert out[..] == Cells(postCount, WeightsOf(draws), maxPerWave);
      Shuffle(out, swaps);
      return out[..];
    }
    var weights, sum := DrawWeights(draws);
    FillCells(out, postCount, weights, sum, maxPerWave);
    Shuffle(out, swaps);
    return out[..];
  }

  // the weighted part of splitNonUniform
  method FillCells(out: array<int>, postCount: int, weights: seq<real>, sum: real, maxPerWave: int)
    requires Weights(weights) && sum == Total(weights) && out.Length == |weights| > 0
    requires postCount > |weights| && maxPerWave >= 1
    modifies out
    ensures out[..] == Cells(postCount, weights, maxPerWave)
  {
    var waves := out.Length;
    TotalPositive(weights);
    var given := FillShares(out, weights, sum, postCount - waves, maxPerWave);
    ResidualPositive(postCount, weights, maxPerWave);
    var last := postCount - given;
    if last < 1 {
      last := 1;
    }
    if last > maxPerWave {
      last := maxPerWave;
    }
    out[waves - 1] := last;
    assert out[..] == out[..waves - 1] + [last];
  }

  // its loop over all waves but the last
  method FillShares(out: array<int>, weights: seq<real>, sum: real, remaining: int, maxPerWave: int) returns (given: int)
    requires sum > 0.0 && out.Length == |weights| > 0
    modifies out
    ensures out[..out.Length - 1] == Shares(weights[..|weights| - 1], sum, remaining, maxPerWave)
    ensures given == Sum(out[..out.Length - 1])
  {
    given := 0;
    ghost var init := weights[..|weights| - 1];
    ghost var shares := [];
    for i := 0 to |weights| - 1
      invariant shares == Shares(init[..i], sum, remaining, maxPerWave) && given == Sum(shares)
      invariant forall k :: 0 <= k < i ==> out[k] == shares[k]
    {
      ShareStep(init, i, sum, remaining, maxPerWave);
      SetShare(out, i, weights[i], sum, remaining, maxPerWave);
      given := given + out[i];
      shares := shares + [out[i]];
    }
    assert init[..|init|] == init;
    assert out[..|init|] == shares;
  }

  // the body of that loop
  method SetShare(out: array<int>, i: nat, weight: real, sum: real, remaining: int, maxPerWave: int)
    requires sum > 0.0 && i < out.Length
    modifies out
    ensures out[i] == Share(weight, sum, remaining, maxPerWave)
    ensures forall k :: 0 <= k < out.Length && k != i ==> out[k] == old(out[k])
  {
    var share := Truncate(Portion(weight, sum, remaining as real));
    out[i] := 1 + share;
    if out[i] > maxPerWave {
      out[i] := maxPerWave;
    }
  }

  lemma ShareStep(weights: seq<real>, i: nat, sum: real, remaining: int, cap: int)
    requires i < |weights| && sum > 0.0
    ensures var shares, x := Shares(weights[..i], sum, remaining, cap), Share(weights[i], sum, remaining, cap);
            && Shares(weights[..i + 1], sum, remaining, cap) == shares + [x]
            && Sum(shares + [x]) == Sum(shares) + x
  {
    assert weights[..i + 1][..i] == weights[..i];
    var shares := Shares(weights[..i], sum, remaining, cap);
    assert (shares + [Share(weights[i], sum, remaining, cap)])[..i] == shares;
  }

  ghost function WeightsOf(draws: seq<real>): (r: seq<real>)
    requires AreDraws(draws, |draws|)
    ensures |r| == |draws| && Weights(r)
  {
    if draws == [] then [] else WeightsOf(draws[..|draws| - 1]) + [draws[|draws| - 1] + 0.1]
  }

  method DrawWeights(draws: seq<real>) returns (weights: seq<real>, sum: real)
    requires AreDraws(draws, |draws|)
    ensures weights == WeightsOf(draws) && sum == Total(weights)
  {
    weights, sum := [], 0.0;
    for i := 0 to |draws|
      invariant AreDraws(draws[..i], i) && weights == WeightsOf(draws[..i]) && sum == Total(weights)
    {
      assert draws[..i + 1][..i] == draws[..i];
      var w := draws[i] + 0.1;
      assert (weights + [w])[..|weights|] == weights;
      weights := weights + [w];
      sum := sum + w;
    }
    assert draws[..|draws|] == draws;
  }

  lemma {:induction false} CellsAre(postCount: int, weights: seq<real>, cap: int)
    requires Weights(weights) && weights != [] && cap >= 1 && postCount > 0
    ensures var r := Cells(postCount, weights, cap);
            && Within(r, if postCount <= |weights| then 0 else 1, cap)
            && Sum(r) == if postCount <= |weights| then postCount
                         else postCount - Residual(postCount, weights, cap) + Min(Residual(postCount, weights, cap), cap)
  {
    if postCount <= |weights| {
      OnesSum(|weights|, postCount);
      assert Cells(postCount, weights, cap) == Ones(|weights|, postCount);
    } else {
      TotalPositive(weights);
      TotalPositive(weights[..|weights| - 1]);
      ResidualPositive(postCount, weights, cap);
      SharesAre(weights[..|weights| - 1], Total(weights), postCount - |weights|, cap);
      SharesAdd(Shares(weights[..|weights| - 1], Total(weights), postCount - |weights|, cap),
                Min(Residual(postCount, weights, cap), cap), 1, cap);
    }
  }

  ghost function Ones(n: nat, k: nat): (r: seq<int>)
    ensures |r| == n && forall i :: 0 <= i < n ==> r[i] == if i < k then 1 else 0
  {
    seq(n, i => if i < k then 1 else 0)
  }

  lemma {:induction false} OnesSum(n: nat, k: nat)
    requires k <= n
    ensures Sum(Ones(n, k)) == k
  {
    if n > 0 {
      assert Ones(n, k)[..n - 1] == Ones(n - 1, Min(k, n - 1));
      OnesSum(n - 1, Min(k, n - 1));
    }
  }

  /** The L2 chunks: in bounds, and covering every post exactly when the residual fits the last wave. */
  lemma {:induction false} L2CoversIff(postCount: int, waves: nat, cap: int, draws: seq<real>, swaps: seq<(nat, nat)>)
    requires postCount > 0 && waves > 0 && cap >= 1 && AreDraws(draws, waves) && PairsInRange(swaps, waves)
    ensures var weights := WeightsOf(draws);
            var r := Shuffled(Cells(postCount, weights, cap), swaps);
            && |r| == waves
            && Within(r, if postCount <= waves then 0 else 1, cap)
            && Sum(r) <= postCount
            && (Sum(r) == postCount <==> postCount <= waves || Residual(postCount, weights, cap) <= cap)
    ensures postCount < cap + waves ==>
              Sum(Shuffled(Cells(postCount, WeightsOf(draws), cap), swaps)) == postCount
  {
    var weights := WeightsOf(draws);
    CellsAre(postCount, weights, cap);
    ShuffleKeeps(Cells(postCount, weights, cap), swaps, if postCount <= waves then 0 else 1, cap);
    if postCount > waves {
      ResidualPositive(postCount, weights, cap);
    }
  }

  /** An uneven draw drops posts although all five waves together have room for more than three times as many. */
  lemma UnevenDrawDropsPosts()
    ensures var draws := [0.0, 0.0, 0.0, 0.0, 0.99];
            && AreDraws(draws, l2WavesPerCycle)
            && Sum(Shuffled(Cells(150, WeightsOf(draws), l2WaveCap), [])) == 140
  {
    var draws := [0.0, 0.0, 0.0, 0.0, 0.99];
    var weights := [0.1, 0.1, 0.1, 0.1, 1.09];
    WeightsOfDraws(draws);
    assert WeightsOf(draws) == weights;
    assert weights[..4] == [0.1, 0.1, 0.1, 0.1];
    TotalFour();
    assert Total(weights) == 1.49;
    assert Portion(0.1, 1.49, 145.0) == 14.5 / 1.49;
    assert (14.5 / 1.49).Floor == 9;
    assert Share(0.1, 1.49, 145, 100) == 10;
    SharesFour();
    assert Residual(150, weights, 100) == 110;
    CellsAre(150, weights, 100);
  }

  lemma {:induction false} WeightsOfDraws(draws: seq<real>)
    requires AreDraws(draws, |draws|)
    ensures forall i :: 0 <= i < |draws| ==> WeightsOf(draws)[i] == draws[i] + 0.1
  {
    if draws != [] {
      WeightsOfDraws(draws[..|draws| - 1]);
    }
  }

  lemma TotalFour()
    ensures Total([0.1, 0.1, 0.1, 0.1]) == 0.4
  {
    assert [0.1, 0.1, 0.1, 0.1][..3] == [0.1, 0.1, 0.1];
    assert [0.1, 0.1, 0.1][..2] == [0.1, 0.1];
    assert [0.1, 0.1][..1] == [0.1];
  }

  lemma SharesFour()
    requires Share(0.1, 1.49, 145, 100) == 10
    ensures Sum(Shares([0.1, 0.1, 0.1, 0.1], 1.49, 145, 100)) == 40
  {
    assert [0.1, 0.1, 0.1, 0.1][..3] == [0.1, 0.1, 0.1];
    assert [0.1, 0.1, 0.1][..2] == [0.1, 0.1];
    assert [0.1, 0.1][..1] == [0.1];
    var one := Shares([0.1], 1.49, 145, 100);
    assert one == [10];
    var two := Shares([0.1, 0.1], 1.49, 145, 100);
    assert two == [10, 10];
    var three := Shares([0.1, 0.1, 0.1], 1.49, 145, 100);
    assert three == [10, 10, 10];
    assert Shares([0.1, 0.1, 0.1, 0.1], 1.49, 145, 100) == [10, 10, 10, 10];
    assert [10, 10, 10, 10][..3] == [10, 10, 10];
    assert [10, 10, 10][..2] == [10, 10];
    assert [10, 10][..1] == [10];
  }

  method PlanWaves(postCount: int, period: int, times: seq<real>, sizes: seq<real>, swaps: seq<(nat, nat)>)
      returns (chunks: seq<int>, offsets: seq<int>)
    requires AreDraws(times, l2WavesPerCycle) && AreDraws(sizes, l2WavesPerCycle) && PairsInRange(swaps, l2WavesPerCycle)
    ensures |chunks| == |offsets| == l2WavesPerCycle && Within(chunks, 0, l2WaveCap)
    ensures period > 0 ==> Spaced(offsets, L2Gap(period)) && Within(offsets, 0, period - 1)
    ensures postCount <= 0 ==> Sum(chunks) == 0
    ensures 0 < postCount ==> 0 < Sum(chunks) <= postCount
    ensures 0 < postCount < l2WaveCap + l2WavesPerCycle ==> Sum(chunks) == postCount
  {
    offsets := PlanWaveOffsets(period, l2WavesPerCycle, times);
    chunks := SplitNonUniform(postCount, l2WavesPerCycle, l2WaveCap, sizes, swaps);
    if postCount > 0 {
      L2CoversIff(postCount, l2WavesPerCycle, l2WaveCap, sizes, swaps);
      SomethingPlanned(chunks, postCount);
    } else {
      EvenSum(l2WavesPerCycle, 0);
    }
    if period > 0 {
      L2GapIs(period);
      L2OffsetsFit(period, times, offsets);
    }
  }

  lemma {:induction false} SumWithin(s: seq<int>, lo: int, hi: int)
    requires Within(s, lo, hi)
    ensures lo * |s| <= Sum(s) <= hi * |s|
  {
    if s != [] {
      SumWithin(s[..|s| - 1], lo, hi);
      assert lo * |s| == lo * (|s| - 1) + lo;
      assert hi * |s| == hi * (|s| - 1) + hi;
    }
  }

  lemma {:induction false} SomethingPlanned(chunks: seq<int>, postCount: int)
    requires |chunks| == l2WavesPerCycle && postCount > 0
    requires Within(chunks, if postCount <= l2WavesPerCycle then 0 else 1, l2WaveCap)
    requires postCount <= l2WavesPerCycle ==> Sum(chunks) == postCount
    ensures Sum(chunks) > 0
  {
    if postCount > l2WavesPerCycle {
      SumWithin(chunks, 1, l2WaveCap);
    }
  }

  // ----- The L3 plan and its check

  /** One wave per five posts, at least one and at most 64. */
  ghost function L3WaveCount(postCount: int): nat {
    if postCount <= 0 then 0 else Min((postCount + 4) / 5, 64)
  }

  /** The chunks of the L3 plan that the draws give. */
  ghost function L3Chunks(postCount: int, perm: seq<nat>, moves: seq<(nat, nat)>): seq<int>
    requires IsPerm(perm, L3WaveCount(postCount)) && PairsInRange(moves, L3WaveCount(postCount))
  {
    if postCount <= 0 then [] else SplitL3Spec(postCount, L3WaveCount(postCount), l3WaveCap, perm, moves)
  }

  method PlanL3Waves(postCount: int, period: int, times: seq<real>, perm: seq<nat>, moves: seq<(nat, nat)>)
      returns (chunks: seq<int>, offsets: seq<int>)
    requires var waves := L3WaveCount(postCount);
             AreDraws(times, waves) && IsPerm(perm, waves) && PairsInRange(moves, waves) && |moves| == waves * 2
    ensures |chunks| == |offsets| == L3WaveCount(postCount)
    ensures chunks == L3Chunks(postCount, perm, moves)
    ensures Within(chunks, 0, l3WaveCap)
    ensures Sum(chunks) == if postCount <= 0 then 0 else Min(postCount, l3MaxWaves * l3WaveCap)
    ensures Usable(period) > 0 && postCount > 0 ==>
              && Spaced(offsets, L3Gap(period, L3WaveCount(postCount)))
              && Within(offsets, 0, Usable(period) - 1)
              && 100 * Usable(period) <= 95 * period
  {
    if postCount <= 0 {
      return [], [];
    }
    var waves := (postCount + l3WaveTarget - 1) / l3WaveTarget;
    if waves < 1 {
      waves := 1;
    }
    if waves > l3MaxWaves {
      waves := l3MaxWaves;
    }
    offsets := PlanL3WaveOffsets(period, waves, times);
    chunks := SplitL3(postCount, waves, l3WaveCap, perm, moves);
    SplitL3Covers(postCount, waves, l3WaveCap, perm, moves);
    if Usable(period) > 0 {
      L3OffsetsFit(period, waves, times, offsets);
    }
  }

  datatype Hangover = OverCap(chunk: int) | UnderCovers(sum: int, postCount: int) | Overshoots(postCount: int, l1Count: int)

  /** Full coverage, up to what the planner can place in one cycle, within the cap. */
  ghost predicate ValidChunks(chunks: seq<int>, postCount: int) {
    || postCount <= 0
    || (&& (forall i :: 0 <= i < |chunks| ==> chunks[i] <= l3WaveCap)
        && (postCount <= l3MaxWaves * l3WaveCap ==> Sum(chunks) >= postCount))
  }

  method L3CycleChunksInvalid(chunks: seq<int>, postCount: int) returns (reason: Option<Hangover>)
    ensures reason.None? <==> ValidChunks(chunks, postCount)
    ensures reason.Some? && reason.value.OverCap? ==> reason.value.chunk in chunks && reason.value.chunk > l3WaveCap
    ensures reason.Some? && !reason.value.OverCap? ==> reason.value == UnderCovers(Sum(chunks), postCount)
  {
    if postCount <= 0 {
      return None;
    }
    var sum, maxChunk := 0, 0;
    for i := 0 to |chunks|
      invariant sum == Sum(chunks[..i])
      invariant forall j :: 0 <= j < i ==> chunks[j] <= maxChunk
      invariant maxChunk == 0 || maxChunk in chunks
    {
      assert chunks[..i + 1][..i] == chunks[..i];
      sum := sum + chunks[i];
      if chunks[i] > maxChunk {
        maxChunk := chunks[i];
      }
    }
    assert chunks[..|chunks|] == chunks;
    if maxChunk > l3WaveCap {
      return Some(OverCap(maxChunk));
    }
    if postCount <= l3MaxWaves * l3WaveCap && sum < postCount {
      return Some(UnderCovers(sum, postCount));
    }
    return None;
  }

  /** The part of a ledger row's payload that describes the plan. */
  datatype RowMeta = RowMeta(chunk: int, postCount: int)

  ghost function RowChunks(rows: seq<RowMeta>): (r: seq<int>)
    ensures |r| == |rows| && forall i :: 0 <= i < |r| ==> r[i] == rows[i].chunk
  {
    if rows == [] then [] else RowChunks(rows[..|rows| - 1]) + [rows[|rows| - 1].chunk]
  }

  /** The largest post count of the rows, or zero. */
  ghost function CycleCount(rows: seq<RowMeta>): nat {
    if rows == [] then 0 else
    var n, last := CycleCount(rows[..|rows| - 1]), rows[|rows| - 1];
    if last.postCount > n then last.postCount else n
  }

  method L3PlanHangover(rows: seq<RowMeta>, l1Count: int) returns (reason: Option<Hangover>)
    ensures reason.None? <==> ValidChunks(RowChunks(rows), CycleCount(rows)) && (l1Count <= 0 || CycleCount(rows) <= l1Count)
    ensures reason.Some? && reason.value.Overshoots? ==>
              reason.value == Overshoots(CycleCount(rows), l1Count) && ValidChunks(RowChunks(rows), CycleCount(rows))
  {
    var postCount := 0;
    var chunks := [];
    for i := 0 to |rows|
      invariant postCount == CycleCount(rows[..i]) && chunks == RowChunks(rows[..i])
    {
      assert rows[..i + 1][..i] == rows[..i];
      if rows[i].postCount > postCount {
        postCount := rows[i].postCount;
      }
      chunks := chunks + [rows[i].chunk];
    }
    assert rows[..|rows|] == rows;
    reason := L3CycleChunksInvalid(chunks, postCount);
    if reason.Some? {
      return;
    }
    if l1Count > 0 && postCount > l1Count {
      reason := Some(Overshoots(postCount, l1Count));
    }
  }

  /** The rows of the kept waves, as driveWaves stores them. */
  ghost function KeptRows(chunks: seq<int>, postCount: int, keep: seq<bool>): seq<RowMeta>
    requires |keep| == |chunks|
  {
    if chunks == [] then [] else
    var n := |chunks| - 1;
    KeptRows(chunks[..n], postCount, keep[..n]) + if keep[n] then [RowMeta(chunks[n], postCount)] else []
  }

  /** No wave with work in it is missing. */
  ghost predicate LosesNothing(chunks: seq<int>, keep: seq<bool>)
    requires |keep| == |chunks|
  {
    forall i :: 0 <= i < |chunks| && chunks[i] != 0 ==> keep[i]
  }

  lemma {:induction false} KeptAre(chunks: seq<int>, postCount: int, keep: seq<bool>, cap: int)
    requires |keep| == |chunks| && Within(chunks, 0, cap)
    ensures var rows := KeptRows(chunks, postCount, keep);
            && Within(RowChunks(rows), 0, cap)
            && (forall i :: 0 <= i < |rows| ==> rows[i].postCount == postCount)
            && Sum(RowChunks(rows)) <= Sum(chunks)
            && (Sum(RowChunks(rows)) == Sum(chunks) <==> LosesNothing(chunks, keep))
  {
    if chunks != [] {
      var n := |chunks| - 1;
      KeptAre(chunks[..n], postCount, keep[..n], cap);
      var rows := KeptRows(chunks[..n], postCount, keep[..n]);
      if keep[n] {
        OneMoreRow(rows, chunks[n], postCount, cap);
      } else {
        assert KeptRows(chunks, postCount, keep) == rows;
      }
      LosesNothingSplit(chunks, keep);
    }
  }

  lemma {:induction false} OneMoreRow(rows: seq<RowMeta>, chunk: int, postCount: int, cap: int)
    requires Within(RowChunks(rows), 0, cap) && 0 <= chunk <= cap
    requires forall i :: 0 <= i < |rows| ==> rows[i].postCount == postCount
    ensures var more := rows + [RowMeta(chunk, postCount)];
            && Within(RowChunks(more), 0, cap) && Sum(RowChunks(more)) == Sum(RowChunks(rows)) + chunk
            && forall i :: 0 <= i < |more| ==> more[i].postCount == postCount
  {
    assert (rows + [RowMeta(chunk, postCount)])[..|rows|] == rows;
    SharesAdd(RowChunks(rows), chunk, 0, cap);
  }

  lemma LosesNothingSplit(chunks: seq<int>, keep: seq<bool>)
    requires |keep| == |chunks| > 0
    ensures var n := |chunks| - 1;
            LosesNothing(chunks, keep) <==> LosesNothing(chunks[..n], keep[..n]) && (chunks[n] != 0 ==> keep[n])
  {
    var n := |chunks| - 1;
    if LosesNothing(chunks[..n], keep[..n]) && (chunks[n] != 0 ==> keep[n]) {
      forall i | 0 <= i < |chunks| && chunks[i] != 0 ensures keep[i] {
        if i < n {
          assert chunks[..n][i] == chunks[i] && keep[..n][i] == keep[i];
        }
      }
    }
    if LosesNothing(chunks, keep) {
      forall i | 0 <= i < n && chunks[..n][i] != 0 ensures keep[..n][i] {
        assert chunks[i] != 0;
      }
    }
  }

  /** Whatever the draws, the check does not reject what the planner made. */
  lemma {:induction false} PlansAreValid(postCount: int, perm: seq<nat>, moves: seq<(nat, nat)>)
    requires IsPerm(perm, L3WaveCount(postCount)) && PairsInRange(moves, L3WaveCount(postCount))
    ensures ValidChunks(L3Chunks(postCount, perm, moves), postCount)
  {
    if postCount > 0 {
      SplitL3Covers(postCount, L3WaveCount(postCount), l3WaveCap, perm, moves);
    }
  }

  lemma {:induction false} CycleCountOf(rows: seq<RowMeta>, n: int)
    requires rows != [] && n >= 0 && forall i :: 0 <= i < |rows| ==> rows[i].postCount == n
    ensures CycleCount(rows) == n
  {
    if |rows| > 1 {
      CycleCountOf(rows[..|rows| - 1], n);
    }
  }

  /** Of a stored plan it accepts exactly the row sets that still hold every wave with work in them. */
  lemma {:induction false} HangoverIff(postCount: int, chunks: seq<int>, keep: seq<bool>)
    requires 0 < postCount <= l3MaxWaves * l3WaveCap
    requires Within(chunks, 0, l3WaveCap) && Sum(chunks) == postCount && |keep| == |chunks|
    requires KeptRows(chunks, postCount, keep) != []
    ensures var rows := KeptRows(chunks, postCount, keep);
            && CycleCount(rows) == postCount
            && (ValidChunks(RowChunks(rows), CycleCount(rows)) <==> LosesNothing(chunks, keep))
  {
    KeptAre(chunks, postCount, keep, l3WaveCap);
    CycleCountOf(KeptRows(chunks, postCount, keep), postCount);
  }
}
