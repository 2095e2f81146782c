/**
  The progressive sample tables: the run-length and list writers of the muxer,
  and the demuxer that ISO/IEC 14496-12 attaches to the tables they write.
 */
module SampleTables {
  import opened Common
  import opened FragmentSamples

  datatype Run = Run(count: Uint32, value: int)

  datatype CttsEntry = CttsEntry(count: Uint32, offsetV0: Uint32, offsetV1: Int32)

  datatype Ctts = Ctts(version: nat, entries: seq<CttsEntry>)

  datatype StscEntry = StscEntry(firstChunk: Uint32, samplesPerChunk: Uint32, sampleDescriptionIndex: nat)

  datatype SampleTable = SampleTable(stts: seq<Run>, ctts: Option<Ctts>, stss: Option<seq<Uint32>>,
                                     stsc: seq<StscEntry>, stsz: seq<Uint32>, co64: seq<nat>)

  // ----- Reading the tables, by ISO/IEC 14496-12

  /** The value of item i in a run-length table (8.6.1.2, 8.6.1.3). */
  function RunAt(runs: seq<Run>, i: nat): Option<int> {
    if runs == [] then None
    else if i < runs[0].count then Some(runs[0].value)
    else RunAt(runs[1..], i - runs[0].count)
  }

  /** A composition table's runs, read by its version: unsigned in 0, signed in 1. */
  function CttsRuns(c: Ctts): (runs: seq<Run>)
    ensures |runs| == |c.entries|
  {
    seq(|c.entries|, i requires 0 <= i < |c.entries| =>
      Run(c.entries[i].count, if c.version == 0 then c.entries[i].offsetV0 else c.entries[i].offsetV1))
  }

  /** Without a composition table every offset is zero. */
  function CtoAt(ctts: Option<Ctts>, i: nat): Option<int> {
    if ctts.None? then Some(0) else RunAt(CttsRuns(ctts.value), i)
  }

  /** Without a sync table every sample is a sync sample (8.6.2.1); numbers start at 1. */
  predicate SyncAt(stss: Option<seq<Uint32>>, i: nat) {
    stss.None? || i + 1 in stss.value
  }

  /** Samples in chunk number `chunk`: the last entry that starts at or before it (8.7.4). */
  function SamplesInChunk(stsc: seq<StscEntry>, chunk: nat): (n: nat) {
    if stsc == [] then 0
    else if stsc[|stsc| - 1].firstChunk <= chunk then stsc[|stsc| - 1].samplesPerChunk
    else SamplesInChunk(stsc[..|stsc| - 1], chunk)
  }

  datatype Place = Place(chunk: nat, firstSample: nat)

  /** The chunk holding sample i, searching from `at` over chunk numbers up to `chunks`. */
  function Locate(stsc: seq<StscEntry>, chunks: nat, i: nat, at: Place): Option<Place>
    decreases chunks + 1 - at.chunk
  {
    if at.chunk > chunks then None
    else if i < at.firstSample + SamplesInChunk(stsc, at.chunk) then Some(at)
    else Locate(stsc, chunks, i, Place(at.chunk + 1, at.firstSample + SamplesInChunk(stsc, at.chunk)))
  }

  /** Total of sizes[lo..hi]. */
  function Span(sizes: seq<Uint32>, lo: nat, hi: nat): (total: nat)
    requires lo <= hi <= |sizes|
  {
    if lo == hi then 0 else Span(sizes, lo, hi - 1) + sizes[hi - 1]
  }

  /** The n bytes of `data` at offset `at`, read one by one. */
  function Slice(data: seq<bv8>, at: nat, n: nat): (r: seq<bv8>)
    requires at + n <= |data|
    ensures |r| == n
  {
    if n == 0 then [] else Slice(data, at, n - 1) + [data[at + n - 1]]
  }

  lemma {:induction false} SliceIsSubsequence(data: seq<bv8>, at: nat, n: nat)
    requires at + n <= |data|
    ensures Slice(data, at, n) == data[at..at + n]
  {
    if n > 0 {
      SliceIsSubsequence(data, at, n - 1);
    }
  }

  datatype Demuxed = Demuxed(bytes: seq<bv8>, size: Uint32, duration: int, cto: int, isSync: bool)

  /** Sample i of a track, read out of `file` through its table; None if the table cannot place it. */
  function DemuxSample(file: seq<bv8>, t: SampleTable, i: nat): Option<Demuxed>
    requires i < |t.stsz|
  {
    var place := Locate(t.stsc, |t.co64|, i, Place(1, 0));
    var duration := RunAt(t.stts, i);
    var cto := CtoAt(t.ctts, i);
    if place.None? || duration.None? || cto.None? || place.value.chunk == 0 || place.value.firstSample > i
      || place.value.chunk > |t.co64| then None else
    var at := t.co64[place.value.chunk - 1] + Span(t.stsz, place.value.firstSample, i);
    if at + t.stsz[i] > |file| then None else
    Some(Demuxed(Slice(file, at, t.stsz[i]), t.stsz[i], duration.value, cto.value, SyncAt(t.stss, i)))
  }

  function Demux(file: seq<bv8>, t: SampleTable): (track: seq<Option<Demuxed>>)
    ensures |track| == |t.stsz|
  {
    seq(|t.stsz|, i requires 0 <= i < |t.stsz| => DemuxSample(file, t, i))
  }

  // ----- Run-length expansion

  function Repeat(n: nat, v: int): (s: seq<int>)
    ensures |s| == n
  {
    seq(n, _ => v)
  }

  function Expand(runs: seq<Run>): seq<int> {
    if runs == [] then [] else Repeat(runs[0].count, runs[0].value) + Expand(runs[1..])
  }

  /** No empty run and no two neighbours with one value. */
  predicate Canonical(runs: seq<Run>) {
    && (forall i :: 0 <= i < |runs| ==> runs[i].count > 0)
    && (forall i :: 0 < i < |runs| ==> runs[i - 1].value != runs[i].value)
  }

  lemma {:induction false} ExpandSnoc(runs: seq<Run>, r: Run)
    ensures Expand(runs + [r]) == Expand(runs) + Repeat(r.count, r.value)
  {
    if runs == [] {
      assert [r][1..] == [];
    } else {
      assert (runs + [r])[1..] == runs[1..] + [r];
      ExpandSnoc(runs[1..], r);
    }
  }

  lemma {:induction false} RunAtIsExpand(runs: seq<Run>, i: nat)
    ensures RunAt(runs, i) == if i < |Expand(runs)| then Some(Expand(runs)[i]) else None
  {
    if runs != [] && i >= runs[0].count {
      RunAtIsExpand(runs[1..], i - runs[0].count);
    }
  }

  /** A canonical table is determined by the sequence it stands for. */
  lemma {:induction false} CanonicalUnique(a: seq<Run>, b: seq<Run>)
    requires Canonical(a) && Canonical(b) && Expand(a) == Expand(b)
    ensures a == b
  {
    if a == [] {
      assert Expand(a) == [];
      assert b != [] ==> |Expand(b)| > 0;
    } else {
      assert |Expand(a)| > 0;
      assert b == [] ==> Expand(b) == [];
      FirstRunNotLonger(a, b);
      FirstRunNotLonger(b, a);
      assert Expand(a)[0] == a[0].value && Expand(b)[0] == b[0].value;
      assert Expand(a[1..]) == Expand(a)[a[0].count..];
      assert Expand(b[1..]) == Expand(b)[b[0].count..];
      CanonicalUnique(a[1..], b[1..]);
      assert a == [a[0]] + a[1..] && b == [b[0]] + b[1..];
    }
  }

  lemma {:induction false} FirstRunEnds(a: seq<Run>)
    requires Canonical(a) && a != []
    ensures a[0].count <= |Expand(a)|
    ensures a[0].count < |Expand(a)| ==> Expand(a)[a[0].count] != a[0].value
    ensures forall i :: 0 <= i < a[0].count ==> Expand(a)[i] == a[0].value
  {
    if |a| > 1 {
      assert a[1..][0] == a[1];
      assert Expand(a[1..])[0] == a[1].value;
    }
  }

  lemma {:induction false} FirstRunNotLonger(a: seq<Run>, b: seq<Run>)
    requires Canonical(a) && Canonical(b) && Expand(a) == Expand(b)
    requires a != [] && b != []
    ensures b[0].count <= a[0].count
  {
    FirstRunEnds(a);
    FirstRunEnds(b);
    var all := Expand(a);
    assert all[0] == a[0].value && Expand(b)[0] == b[0].value;
    var next := if a[0].count < |all| then all[a[0].count] else 0;
  }

  /** The number of stretches of one value. */
  ghost function Stretches(s: seq<int>): nat {
    if s == [] then 0
    else if |s| == 1 then 1
    else Stretches(s[1..]) + if s[0] != s[1] then 1 else 0
  }

  lemma {:induction false} StretchesAfterRun(n: nat, v: int, rest: seq<int>)
    requires n > 0
    ensures Stretches(Repeat(n, v) + rest) == if rest == [] then 1 else Stretches(rest) + if rest[0] != v then 1 else 0
  {
    var s := Repeat(n, v) + rest;
    if n > 1 {
      assert s[1..] == Repeat(n - 1, v) + rest;
      StretchesAfterRun(n - 1, v, rest);
    } else {
      assert s[1..] == rest;
    }
  }

  /** Any table has a run for each stretch of what it stands for, and a canonical one has no other. */
  lemma {:induction false} RunsCoverStretches(runs: seq<Run>)
    ensures Stretches(Expand(runs)) <= |runs|
    ensures Canonical(runs) ==> Stretches(Expand(runs)) == |runs|
  {
    if runs != [] {
      RunsCoverStretches(runs[1..]);
      var rest := Expand(runs[1..]);
      if runs[0].count == 0 {
        assert Expand(runs) == rest;
      } else {
        StretchesAfterRun(runs[0].count, runs[0].value, rest);
      }
      if Canonical(runs) && |runs| > 1 {
        assert runs[1..][0] == runs[1] && runs[1].count > 0;
        assert rest[0] == runs[1].value;
      }
    }
  }

  /** A canonical table is the shortest of all that stand for its sequence. */
  lemma {:induction false} CanonicalShortest(a: seq<Run>, b: seq<Run>)
    requires Canonical(a) && Expand(a) == Expand(b)
    ensures |a| <= |b|
  {
    RunsCoverStretches(a);
    RunsCoverStretches(b);
  }

  // ----- The fragments, flattened

  function Flat(frags: seq<Fragment>): (s: Fragment) {
    if frags == [] then [] else Flat(frags[..|frags| - 1]) + frags[|frags| - 1]
  }

  /** The 32-bit counts of the box format hold this many samples and chunks. */
  predicate FitsBoxes(frags: seq<Fragment>) {
    |frags| < 0x1_0000_0000 && |Flat(frags)| < 0x1_0000_0000
  }

  function Durations(s: Fragment): (d: seq<int>)
    ensures |d| == |s|
  {
    seq(|s|, i requires 0 <= i < |s| => s[i].duration)
  }

  function Ctos(s: Fragment): (d: seq<int>)
    ensures |d| == |s|
  {
    seq(|s|, i requires 0 <= i < |s| => s[i].cto)
  }

  function Sizes(s: Fragment): (d: seq<Uint32>)
    ensures |d| == |s|
  {
    seq(|s|, i requires 0 <= i < |s| => s[i].size)
  }

  lemma {:induction false} FlatPrefix(frags: seq<Fragment>, k: nat)
    requires k <= |frags|
    ensures Flat(frags[..k]) <= Flat(frags)
    decreases |frags|
  {
    if k < |frags| {
      FlatPrefix(frags[..|frags| - 1], k);
      assert frags[..|frags| - 1][..k] == frags[..k];
    } else {
      assert frags[..k] == frags;
    }
  }

  lemma {:induction false} FlatStep(frags: seq<Fragment>, k: nat)
    requires k < |frags|
    ensures Flat(frags[..k + 1]) == Flat(frags[..k]) + frags[k]
    ensures |Flat(frags[..k])| + |frags[k]| <= |Flat(frags)|
  {
    assert frags[..k + 1][..k] == frags[..k];
    FlatPrefix(frags, k + 1);
  }

  /** The samples a nested walk has passed when it is at sample j of fragment i. */
  ghost function Upto(frags: seq<Fragment>, i: nat, j: nat): Fragment
    requires i < |frags| && j <= |frags[i]|
  {
    Flat(frags[..i]) + frags[i][..j]
  }

  lemma {:induction false} UptoStep(frags: seq<Fragment>, i: nat, j: nat)
    requires i < |frags| && j <= |frags[i]|
    ensures j == 0 ==> Upto(frags, i, j) == Flat(frags[..i])
    ensures j < |frags[i]| ==> Upto(frags, i, j + 1) == Upto(frags, i, j) + [frags[i][j]]
    ensures j == |frags[i]| ==> Upto(frags, i, j) == Flat(frags[..i + 1])
    ensures |Upto(frags, i, j)| == |Flat(frags[..i])| + j
    ensures |Flat(frags[..i])| + |frags[i]| <= |Flat(frags)|
  {
    FlatStep(frags, i);
    if j == |frags[i]| {
      assert frags[i][..j] == frags[i];
    }
  }

  // ----- The run-length writers

  /** A run-length writer between two samples: finished runs, and the run it is counting. */
  datatype RunState = RunState(runs: seq<Run>, count: Uint32, value: int)

  ghost function Push(st: RunState, x: int): RunState
    requires st.count + 1 < 0x1_0000_0000
  {
    if st.count == 0 then RunState(st.runs, 1, x)
    else if x == st.value then st.(count := st.count + 1)
    else RunState(st.runs + [Run(st.count, st.value)], 1, x)
  }

  ghost function Scan(items: seq<int>): (st: RunState)
    requires |items| < 0x1_0000_0000
    ensures st.count <= |items|
  {
    if items == [] then RunState([], 0, 0) else Push(Scan(items[..|items| - 1]), items[|items| - 1])
  }

  ghost function Finish(st: RunState): seq<Run> {
    if st.count > 0 then st.runs + [Run(st.count, st.value)] else st.runs
  }

  lemma {:induction false} ScanSnoc(items: seq<int>, x: int)
    requires |items| + 1 < 0x1_0000_0000
    ensures Scan(items + [x]) == Push(Scan(items), x)
  {
    assert (items + [x])[..|items|] == items;
  }

  lemma {:induction false} CanonicalSnoc(runs: seq<Run>, r: Run)
    ensures Canonical(runs + [r]) <==>
      Canonical(runs) && r.count > 0 && (runs != [] ==> runs[|runs| - 1].value != r.value)
  {
    var all := runs + [r];
    assert all[|runs|] == r && forall i :: 0 <= i < |runs| ==> all[i] == runs[i];
  }

  lemma {:induction false} PushIsCanonical(st: RunState, x: int)
    requires st.count + 1 < 0x1_0000_0000
    requires Canonical(Finish(st)) && (st.count == 0 ==> st.runs == [])
    ensures Canonical(Finish(Push(st, x)))
    ensures Expand(Finish(Push(st, x))) == Expand(Finish(st)) + [x]
  {
    if st.count > 0 && x == st.value {
      GrowRun(st.runs, st.count, x);
    } else {
      assert Finish(Push(st, x)) == Finish(st) + [Run(1, x)];
      CanonicalSnoc(Finish(st), Run(1, x));
      ExpandSnoc(Finish(st), Run(1, x));
      assert Repeat(1, x) == [x];
    }
  }

  lemma {:induction false} GrowRun(runs: seq<Run>, count: Uint32, x: int)
    requires 0 < count && count + 1 < 0x1_0000_0000
    requires Canonical(runs + [Run(count, x)])
    ensures Canonical(runs + [Run(count + 1, x)])
    ensures Expand(runs + [Run(count + 1, x)]) == Expand(runs + [Run(count, x)]) + [x]
  {
    CanonicalSnoc(runs, Run(count, x));
    CanonicalSnoc(runs, Run(count + 1, x));
    ExpandSnoc(runs, Run(count, x));
    ExpandSnoc(runs, Run(count + 1, x));
    assert Repeat(count + 1, x) == Repeat(count, x) + [x];
  }

  /** Finishing a scan gives the canonical table of the scanned items. */
  lemma {:induction false} ScanIsCanonical(items: seq<int>)
    requires |items| < 0x1_0000_0000
    ensures Canonical(Finish(Scan(items))) && Expand(Finish(Scan(items))) == items
    ensures Scan(items).count == 0 ==> Scan(items).runs == []
  {
    if items != [] {
      var rest, x := items[..|items| - 1], items[|items| - 1];
      ScanIsCanonical(rest);
      PushIsCanonical(Scan(rest), x);
      assert items == rest + [x];
    }
  }

  // writeStts
  method WriteStts(frags: seq<Fragment>) returns (entries: seq<Run>)
    requires FitsBoxes(frags)
    ensures Canonical(entries)
    ensures Expand(entries) == Durations(Flat(frags))
  {
    entries := [];
    var curDur := 0;
    var curCount: Uint32 := 0;
    for i := 0 to |frags|
      invariant |Flat(frags[..i])| <= |Flat(frags)|
      invariant RunState(entries, curCount, curDur) == Scan(Durations(Flat(frags[..i])))
    {
      UptoStep(frags, i, 0);
      var f := frags[i];
      for j := 0 to |f|
        invariant |Upto(frags, i, j)| <= |Flat(frags)|
        invariant RunState(entries, curCount, curDur) == Scan(Durations(Upto(frags, i, j)))
      {
        var s := f[j];
        UptoStep(frags, i, j);
        assert Durations(Upto(frags, i, j + 1)) == Durations(Upto(frags, i, j)) + [s.duration];
        ScanSnoc(Durations(Upto(frags, i, j)), s.duration);
        if curCount == 0 {
          curDur := s.duration;
          curCount := 1;
          continue;
        }
        if s.duration == curDur {
          curCount := curCount + 1;
          continue;
        }
        entries := entries + [Run(curCount, curDur)];
        curDur := s.duration;
        curCount := 1;
      }
      UptoStep(frags, i, |f|);
    }
    assert frags[..|frags|] == frags;
    ScanIsCanonical(Durations(Flat(frags)));
    if curCount > 0 {
      entries := entries + [Run(curCount, curDur)];
    }
  }

  ghost predicate Reordered(s: Fragment) {
    exists i :: 0 <= i < |s| && s[i].cto != 0
  }

  ghost predicate NonNegative(s: Fragment) {
    forall i :: 0 <= i < |s| ==> s[i].cto >= 0
  }

  ghost predicate AllSync(s: Fragment) {
    forall i :: 0 <= i < |s| ==> s[i].isSync
  }

  lemma {:induction false} ScanStep(s: Fragment, x: SampleInfo)
    ensures Reordered(s + [x]) <==> Reordered(s) || x.cto != 0
    ensures NonNegative(s + [x]) <==> NonNegative(s) && x.cto >= 0
    ensures AllSync(s + [x]) <==> AllSync(s) && x.isSync
  {
    var t := s + [x];
    assert t[|s|] == x && forall i :: 0 <= i < |s| ==> t[i] == s[i];
  }

  // analyzeCtts
  method AnalyzeCtts(frags: seq<Fragment>) returns (has: bool, allNonNegative: bool)
    ensures has <==> Reordered(Flat(frags))
    ensures allNonNegative <==> NonNegative(Flat(frags))
  {
    has, allNonNegative := false, true;
    for i := 0 to |frags|
      invariant has <==> Reordered(Flat(frags[..i]))
      invariant allNonNegative <==> NonNegative(Flat(frags[..i]))
    {
      UptoStep(frags, i, 0);
      var f := frags[i];
      for j := 0 to |f|
        invariant has <==> Reordered(Upto(frags, i, j))
        invariant allNonNegative <==> NonNegative(Upto(frags, i, j))
      {
        UptoStep(frags, i, j);
        ScanStep(Upto(frags, i, j), f[j]);
        if f[j].cto != 0 {
          has := true;
        }
        if f[j].cto < 0 {
          allNonNegative := false;
        }
      }
      UptoStep(frags, i, |f|);
    }
    assert frags[..|frags|] == frags;
  }

  predicate Int32Ctos(s: Fragment) {
    forall i :: 0 <= i < |s| ==> -0x8000_0000 <= s[i].cto < 0x8000_0000
  }

  // writeCtts
  method WriteCtts(frags: seq<Fragment>, allNonNegative: bool) returns (ctts: Ctts)
    requires FitsBoxes(frags) && Int32Ctos(Flat(frags))
    requires allNonNegative <==> NonNegative(Flat(frags))
    ensures ctts.version == if allNonNegative then 0 else 1
    ensures Canonical(CttsRuns(ctts))
    ensures Expand(CttsRuns(ctts)) == Ctos(Flat(frags))
  {
    var runs := CttsRunList(frags);
    var entries: seq<CttsEntry> := [];
    for i := 0 to |runs|
      invariant |entries| == i
      invariant forall k :: 0 <= k < i ==>
        CttsRuns(Ctts(if allNonNegative then 0 else 1, entries))[k] == runs[k]
    {
      RunValueOccurs(runs, i);
      var r := runs[i];
      if allNonNegative {
        entries := entries + [CttsEntry(r.count, r.value, 0)];
      } else {
        entries := entries + [CttsEntry(r.count, 0, r.value)];
      }
    }
    ctts := Ctts(0, entries);
    if !allNonNegative {
      ctts := ctts.(version := 1);
    }
    assert CttsRuns(ctts) == runs;
  }

  lemma {:induction false} RunValueOccurs(runs: seq<Run>, i: nat)
    requires Canonical(runs) && i < |runs|
    ensures exists p :: 0 <= p < |Expand(runs)| && Expand(runs)[p] == runs[i].value
  {
    if i == 0 {
      assert Expand(runs)[0] == runs[0].value;
    } else {
      RunValueOccurs(runs[1..], i - 1);
      var p :| 0 <= p < |Expand(runs[1..])| && Expand(runs[1..])[p] == runs[1..][i - 1].value;
      assert Expand(runs)[runs[0].count + p] == runs[i].value;
    }
  }

  // the body of the first loop of writeCtts
  method PushOffset(runs0: seq<Run>, curCount0: Uint32, curOff0: int, first0: bool, cto: int)
      returns (runs: seq<Run>, curCount: Uint32, curOff: int, first: bool)
    requires (first0 <==> curCount0 == 0) && curCount0 < 0xFFFF_FFFF
    ensures RunState(runs, curCount, curOff) == Push(RunState(runs0, curCount0, curOff0), cto)
    ensures !first && curCount > 0
  {
    runs, curCount, curOff, first := runs0, curCount0, curOff0, first0;
    if first {
      curOff := cto;
      curCount := 1;
      first := false;
      return;
    }
    if cto == curOff {
      curCount := curCount + 1;
      return;
    }
    runs := runs + [Run(curCount, curOff)];
    curOff := cto;
    curCount := 1;
  }

  // the first loop of writeCtts
  method CttsRunList(frags: seq<Fragment>) returns (runs: seq<Run>)
    requires FitsBoxes(frags)
    ensures Canonical(runs)
    ensures Expand(runs) == Ctos(Flat(frags))
  {
    runs := [];
    var curCount: Uint32 := 0;
    var curOff := 0;
    var first := true;
    for i := 0 to |frags|
      invariant |Flat(frags[..i])| <= |Flat(frags)|
      invariant RunState(runs, curCount, curOff) == Scan(Ctos(Flat(frags[..i])))
      invariant first <==> curCount == 0
    {
      UptoStep(frags, i, 0);
      var f := frags[i];
      for j := 0 to |f|
        invariant |Upto(frags, i, j)| <= |Flat(frags)|
        invariant RunState(runs, curCount, curOff) == Scan(Ctos(Upto(frags, i, j)))
        invariant first <==> curCount == 0
      {
        var s := f[j];
        UptoStep(frags, i, j);
        assert Ctos(Upto(frags, i, j + 1)) == Ctos(Upto(frags, i, j)) + [s.cto];
        ScanSnoc(Ctos(Upto(frags, i, j)), s.cto);
        runs, curCount, curOff, first := PushOffset(runs, curCount, curOff, first, s.cto);
      }
      UptoStep(frags, i, |f|);
    }
    assert frags[..|frags|] == frags;
    ScanIsCanonical(Ctos(Flat(frags)));
    if curCount > 0 {
      runs := runs + [Run(curCount, curOff)];
    }
  }

  // ----- The list writers

  /** The sync table of a sample list: its numbers are exactly the sync samples, in order. */
  ghost predicate SyncTableFor(syncs: seq<Uint32>, s: Fragment) {
    && (forall n: Uint32 :: n in syncs <==> 1 <= n <= |s| && s[n - 1].isSync)
    && (forall k, l :: 0 <= k < l < |syncs| ==> syncs[k] < syncs[l])
  }

  /** The numbers of the sync samples, in order. */
  ghost function SyncNumbers(s: Fragment): seq<Uint32>
    requires |s| < 0x1_0000_0000
  {
    if s == [] then []
    else SyncNumbers(s[..|s| - 1]) + if s[|s| - 1].isSync then [|s|] else []
  }

  lemma {:induction false} SyncNumbersSnoc(s: Fragment, x: SampleInfo)
    requires |s| + 1 < 0x1_0000_0000
    ensures SyncNumbers(s + [x]) == SyncNumbers(s) + if x.isSync then [|s| + 1] else []
  {
    assert (s + [x])[..|s|] == s;
  }

  lemma {:induction false} SyncNumbersTable(s: Fragment)
    requires |s| < 0x1_0000_0000
    ensures SyncTableFor(SyncNumbers(s), s)
  {
    if s != [] {
      var r, x := s[..|s| - 1], s[|s| - 1];
      SyncNumbersTable(r);
      var syncs, t := SyncNumbers(r), SyncNumbers(s);
      forall n: Uint32 ensures n in t <==> 1 <= n <= |s| && s[n - 1].isSync {
        assert n in t <==> n in syncs || (x.isSync && n == |s|);
      }
      forall k, l | 0 <= k < l < |t| ensures t[k] < t[l] {
        if l == |syncs| {
          assert syncs[k] in syncs;
        }
      }
    }
  }

  // writeStss: None when the box is omitted
  method WriteStss(frags: seq<Fragment>) returns (stss: Option<seq<Uint32>>)
    requires FitsBoxes(frags)
    ensures forall i :: 0 <= i < |Flat(frags)| ==> (SyncAt(stss, i) <==> Flat(frags)[i].isSync)
    ensures stss.None? <==> AllSync(Flat(frags))
    ensures stss.Some? ==> SyncTableFor(stss.value, Flat(frags))
  {
    var syncs: seq<Uint32> := [];
    var allSync := true;
    var sampleNum: Uint32 := 0;
    for i := 0 to |frags|
      invariant |Flat(frags[..i])| == sampleNum
      invariant syncs == SyncNumbers(Flat(frags[..i]))
      invariant allSync <==> AllSync(Flat(frags[..i]))
    {
      FlatStep(frags, i);
      syncs, allSync, sampleNum := StssFragment(frags[i], syncs, allSync, sampleNum, Flat(frags[..i]));
    }
    assert frags[..|frags|] == frags;
    SyncNumbersTable(Flat(frags));
    if allSync {
      return None;
    }
    stss := Some(syncs);
  }

  // the inner loop of writeStss
  method StssFragment(f: Fragment, syncs0: seq<Uint32>, allSync0: bool, num0: Uint32, ghost done: Fragment)
      returns (syncs: seq<Uint32>, allSync: bool, sampleNum: Uint32)
    requires num0 == |done| && |done| + |f| < 0x1_0000_0000
    requires syncs0 == SyncNumbers(done) && (allSync0 <==> AllSync(done))
    ensures sampleNum == |done + f|
    ensures syncs == SyncNumbers(done + f) && (allSync <==> AllSync(done + f))
  {
    syncs, allSync, sampleNum := syncs0, allSync0, num0;
    ghost var s := done;
    for j := 0 to |f|
      invariant s == done + f[..j] && sampleNum == |s|
      invariant syncs == SyncNumbers(s)
      invariant allSync <==> AllSync(s)
    {
      ScanStep(s, f[j]);
      SyncNumbersSnoc(s, f[j]);
      sampleNum := sampleNum + 1;
      if f[j].isSync {
        syncs := syncs + [sampleNum];
      } else {
        allSync := false;
      }
      s := s + [f[j]];
    }
    assert s == done + f;
  }

  lemma {:induction false} SamplesInChunkSnoc(stsc: seq<StscEntry>, e: StscEntry, chunk: nat)
    ensures SamplesInChunk(stsc + [e], chunk)
         == if e.firstChunk <= chunk then e.samplesPerChunk else SamplesInChunk(stsc, chunk)
  {
    assert (stsc + [e])[..|stsc|] == stsc;
  }

  // writeStsc
  method WriteStsc(frags: seq<Fragment>) returns (entries: seq<StscEntry>)
    requires FitsBoxes(frags)
    ensures forall k :: 0 <= k < |frags| ==> SamplesInChunk(entries, k + 1) == |frags[k]|
    ensures forall e :: 0 < e < |entries| ==>
      entries[e - 1].firstChunk < entries[e].firstChunk && entries[e - 1].samplesPerChunk != entries[e].samplesPerChunk
    ensures frags != [] ==> entries != [] && entries[0].firstChunk == 1
  {
    entries := [];
    var prevCount: Uint32 := 0;
    for i := 0 to |frags|
      invariant forall k :: 0 <= k < i ==> SamplesInChunk(entries, k + 1) == |frags[k]|
      invariant if i == 0 then entries == [] else entries != [] && entries[0].firstChunk == 1
      invariant entries != [] ==> entries[|entries| - 1].firstChunk <= i && entries[|entries| - 1].samplesPerChunk == prevCount
      invariant forall e :: 0 < e < |entries| ==>
        entries[e - 1].firstChunk < entries[e].firstChunk && entries[e - 1].samplesPerChunk != entries[e].samplesPerChunk
    {
      FlatStep(frags, i);
      var c: Uint32 := |frags[i]|;
      if i == 0 || c != prevCount {
        var e := StscEntry(i + 1, c, 1);
        forall k | 0 <= k <= i ensures SamplesInChunk(entries + [e], k + 1) == |frags[k]| {
          SamplesInChunkSnoc(entries, e, k + 1);
        }
        ghost var before := entries;
        entries := entries + [e];
        assert entries[|before|] == e;
        assert forall m :: 0 <= m < |before| ==> entries[m] == before[m];
        prevCount := c;
      }
    }
  }

  // writeStsz
  method WriteStsz(frags: seq<Fragment>) returns (sizes: seq<Uint32>)
    ensures sizes == Sizes(Flat(frags))
  {
    sizes := [];
    for i := 0 to |frags|
      invariant sizes == Sizes(Flat(frags[..i]))
    {
      UptoStep(frags, i, 0);
      var f := frags[i];
      for j := 0 to |f|
        invariant sizes == Sizes(Upto(frags, i, j))
      {
        UptoStep(frags, i, j);
        sizes := sizes + [f[j].size];
      }
      UptoStep(frags, i, |f|);
    }
    assert frags[..|frags|] == frags;
  }
}
