/**
  The fragment side of the progressive muxer: how one moof's track runs become a
  list of samples, and what ISO/IEC 14496-12 says that list is.
 */
module FragmentSamples {
  import opened Common

  type Uint32 = n: int | 0 <= n < 0x1_0000_0000

  type Int32 = n: int | -0x8000_0000 <= n < 0x8000_0000

  /** One sample's place in its source file, with its timing and sync data. */
  datatype SampleInfo = SampleInfo(srcOffset: int, size: Uint32, duration: Uint32, isSync: bool, cto: int)

  /** One source fragment; it becomes one chunk of the output. */
  type Fragment = seq<SampleInfo>

  datatype Defaults = Defaults(duration: Uint32, size: Uint32, flags: Uint32)

  /** A track fragment header; an absent optional field is None. */
  datatype Tfhd = Tfhd(trackID: Uint32, baseDataOffset: Option<int>, defaultBaseIsMoof: bool,
                       duration: Option<Uint32>, size: Option<Uint32>, flags: Option<Uint32>)

  datatype TrunEntry = TrunEntry(duration: Uint32, size: Uint32, flags: Uint32, ctoV0: Uint32, ctoV1: Int32)

  /** A track run. The `has` fields are the per-entry presence bits of its flags. */
  datatype Trun = Trun(version: int, dataOffset: Option<Int32>, firstSampleFlags: Option<Uint32>,
                       hasDuration: bool, hasSize: bool, hasFlags: bool, hasCto: bool,
                       entries: seq<TrunEntry>)

  datatype Traf = Traf(tfhds: seq<Tfhd>, truns: seq<Trun>)

  datatype Moof = Moof(offset: nat, trafs: seq<Traf>)

  // ----- What a run means, apart from where its data starts

  /** The defaults in force for a track fragment: tfhd overrides trex field by field. */
  function InForce(trex: map<Uint32, Defaults>, h: Tfhd): Defaults {
    var d := if h.trackID in trex then trex[h.trackID] else Defaults(0, 0, 0);
    Defaults(if h.duration.Some? then h.duration.value else d.duration,
             if h.size.Some? then h.size.value else d.size,
             if h.flags.Some? then h.flags.value else d.flags)
  }

  function EntrySize(t: Trun, d: Defaults, i: nat): Uint32
    requires i < |t.entries|
  {
    if t.hasSize then t.entries[i].size else d.size
  }

  /** Total size of the first `n` samples of a run. */
  function SizeBefore(t: Trun, d: Defaults, n: nat): (total: nat)
    requires n <= |t.entries|
  {
    if n == 0 then 0 else SizeBefore(t, d, n - 1) + EntrySize(t, d, n - 1)
  }

  /** The flags of sample i: first-sample-flags, then per-sample flags, then the default (8.8.8.1). */
  function EntryFlags(t: Trun, d: Defaults, i: nat): Uint32
    requires i < |t.entries|
  {
    if i == 0 && t.firstSampleFlags.Some? then t.firstSampleFlags.value
    else if t.hasFlags then t.entries[i].flags
    else d.flags
  }

  /** sample_is_non_sync_sample is bit 16 of the flags (8.8.3.1). */
  predicate IsSync(flags: Uint32) {
    (flags / 0x1_0000) % 2 == 0
  }

  /** Composition offset by 8.8.8.2: unsigned in version 0, signed otherwise. */
  function IsoCto(t: Trun, i: nat): int
    requires i < |t.entries|
  {
    if !t.hasCto then 0
    else if t.version == 0 then t.entries[i].ctoV0
    else t.entries[i].ctoV1
  }

  /** The same offset after the program's int32 conversion of the version-0 field. */
  function CastCto(t: Trun, i: nat): int
    requires i < |t.entries|
  {
    if t.hasCto && t.version == 0 then ToInt32(t.entries[i].ctoV0) else IsoCto(t, i)
  }

  function ToInt32(u: Uint32): Int32 {
    if u < 0x8000_0000 then u else u - 0x1_0000_0000
  }

  function SampleWith(t: Trun, d: Defaults, start: int, i: nat, cto: int): SampleInfo
    requires i < |t.entries|
  {
    SampleInfo(start + SizeBefore(t, d, i), EntrySize(t, d, i),
               if t.hasDuration then t.entries[i].duration else d.duration,
               IsSync(EntryFlags(t, d, i)), cto)
  }

  // ----- ISO/IEC 14496-12: data of a run without an offset follows the previous run (8.8.8.2)

  function IsoStart(truns: seq<Trun>, d: Defaults, base: int, k: nat): int
    requires k < |truns|
  {
    if truns[k].dataOffset.Some? then base + truns[k].dataOffset.value
    else if k == 0 then base
    else IsoStart(truns, d, base, k - 1) + SizeBefore(truns[k - 1], d, |truns[k - 1].entries|)
  }

  function IsoRun(truns: seq<Trun>, d: Defaults, base: int, k: nat): (f: Fragment)
    requires k < |truns|
  {
    var t := truns[k];
    seq(|t.entries|, i requires 0 <= i < |t.entries| => SampleWith(t, d, IsoStart(truns, d, base, k), i, IsoCto(t, i)))
  }

  function IsoSamples(truns: seq<Trun>, d: Defaults, base: int, n: nat): Fragment
    requires n <= |truns|
  {
    if n == 0 then [] else IsoSamples(truns, d, base, n - 1) + IsoRun(truns, d, base, n - 1)
  }

  /** The flags are those of the first sample, of the entry, of the fragment or of the track: the first that are given count. */
  predicate FlagsInForce(flags: Uint32, trex: map<Uint32, Defaults>, h: Tfhd, t: Trun, i: nat)
    requires i < |t.entries|
  {
    && (i == 0 && t.firstSampleFlags.Some? ==> flags == t.firstSampleFlags.value)
    && ((i > 0 || t.firstSampleFlags.None?) ==>
          && (t.hasFlags ==> flags == t.entries[i].flags)
          && (!t.hasFlags && h.flags.Some? ==> flags == h.flags.value)
          && (!t.hasFlags && h.flags.None? && h.trackID in trex ==> flags == trex[h.trackID].flags)
          && (!t.hasFlags && h.flags.None? && h.trackID !in trex ==> flags == 0))
  }

  /** A field that the run may give for each sample, the fragment for all of them and the track for all its fragments. */
  predicate FieldInForce(value: Uint32, has: bool, own: Uint32, inFragment: Option<Uint32>, inTrack: Option<Uint32>) {
    && (has ==> value == own)
    && (!has && inFragment.Some? ==> value == inFragment.value)
    && (!has && inFragment.None? && inTrack.Some? ==> value == inTrack.value)
    && (!has && inFragment.None? && inTrack.None? ==> value == 0)
  }

  /** Sample i of run k, field by field as the standard gives it (8.8.3.1, 8.8.7, 8.8.8). */
  lemma {:induction false} SampleByTheRules(trex: map<Uint32, Defaults>, h: Tfhd, truns: seq<Trun>, base: int, k: nat, i: nat)
      returns (flags: Uint32)
    requires k < |truns| && i < |truns[k].entries|
    ensures var t, own, s := truns[k], truns[k].entries[i], IsoRun(truns, InForce(trex, h), base, k)[i];
            var ofTrack := if h.trackID in trex then Some(trex[h.trackID]) else None;
            && FieldInForce(s.size, t.hasSize, own.size, h.size, if ofTrack.Some? then Some(ofTrack.value.size) else None)
            && FieldInForce(s.duration, t.hasDuration, own.duration, h.duration,
                            if ofTrack.Some? then Some(ofTrack.value.duration) else None)
            && FlagsInForce(flags, trex, h, t, i) && (s.isSync <==> flags % 0x2_0000 < 0x1_0000)
            && s.cto == (if !t.hasCto then 0 else if t.version == 0 then own.ctoV0 else own.ctoV1)
    ensures var run := IsoRun(truns, InForce(trex, h), base, k);
            && (i > 0 ==> run[i].srcOffset == run[i - 1].srcOffset + run[i - 1].size)
            && (i == 0 && truns[k].dataOffset.Some? ==> run[0].srcOffset == base + truns[k].dataOffset.value)
            && (i == 0 && truns[k].dataOffset.None? && k == 0 ==> run[0].srcOffset == base)
            && (i == 0 && truns[k].dataOffset.None? && k > 0 && truns[k - 1].entries != [] ==>
                  var before := IsoRun(truns, InForce(trex, h), base, k - 1);
                  run[0].srcOffset == before[|before| - 1].srcOffset + before[|before| - 1].size)
  {
    flags := EntryFlags(truns[k], InForce(trex, h), i);
    BitSixteen(flags);
  }

  lemma BitSixteen(flags: Uint32)
    ensures IsSync(flags) <==> flags % 0x2_0000 < 0x1_0000
  {
    var q := flags / 0x1_0000;
    assert flags == q * 0x1_0000 + flags % 0x1_0000;
    assert q == q / 2 * 2 + q % 2;
    assert flags == q / 2 * 0x2_0000 + (q % 2 * 0x1_0000 + flags % 0x1_0000);
  }

  // ----- The program: a run without an offset starts over at the base

  function RunStart(t: Trun, base: int): int {
    if t.dataOffset.Some? then base + t.dataOffset.value else base
  }

  function ParsedRun(t: Trun, d: Defaults, base: int): (f: Fragment) {
    seq(|t.entries|, i requires 0 <= i < |t.entries| => SampleWith(t, d, RunStart(t, base), i, CastCto(t, i)))
  }

  function ParsedSamples(truns: seq<Trun>, d: Defaults, base: int, n: nat): Fragment
    requires n <= |truns|
  {
    if n == 0 then [] else ParsedSamples(truns, d, base, n - 1) + ParsedRun(truns[n - 1], d, base)
  }

  function BaseOffset(h: Tfhd, moofOffset: nat): int {
    if h.baseDataOffset.Some? then h.baseDataOffset.value else moofOffset
  }

  /** What the program reads from a moof: the last traf counts, and in it the last tfhd. */
  function Parsed(moof: Moof, trex: map<Uint32, Defaults>): Result<Option<Fragment>> {
    if |moof.trafs| == 0 then Ok(None) else
    var traf := moof.trafs[|moof.trafs| - 1];
    if |traf.tfhds| == 0 then Err("traf without tfhd") else
    var h := traf.tfhds[|traf.tfhds| - 1];
    Ok(Some(ParsedSamples(traf.truns, InForce(trex, h), BaseOffset(h, moof.offset), |traf.truns|)))
  }

  // the body of the run loop in parseMoofIntoSamples
  method ParseRun(trun: Trun, defs: Defaults, base: int) returns (run: Fragment)
    ensures run == ParsedRun(trun, defs, base)
  {
    run := [];
    var offset := base;
    if trun.dataOffset.Some? {
      offset := base + trun.dataOffset.value;
    }
    var firstFlags := defs.flags;
    if trun.firstSampleFlags.Some? {
      firstFlags := trun.firstSampleFlags.value;
    }
    for i := 0 to |trun.entries|
      invariant |run| == i && offset == RunStart(trun, base) + SizeBefore(trun, defs, i)
      invariant forall j :: 0 <= j < i ==> run[j] == ParsedRun(trun, defs, base)[j]
    {
      var e := trun.entries[i];
      var size := if trun.hasSize then e.size else defs.size;
      var dur := if trun.hasDuration then e.duration else defs.duration;
      var sf := defs.flags;
      if i == 0 && trun.firstSampleFlags.Some? {
        sf := firstFlags;
      } else if trun.hasFlags {
        sf := e.flags;
      }
      var cto: Int32 := 0;
      if trun.hasCto {
        if trun.version == 0 {
          cto := ToInt32(e.ctoV0);
        } else {
          cto := e.ctoV1;
        }
      }
      run := run + [SampleInfo(offset, size, dur, (sf / 0x1_0000) % 2 == 0, cto)];
      offset := offset + size;
    }
  }

  // parseMoofIntoSamples
  method ParseMoofIntoSamples(moof: Moof, trexDefs: map<Uint32, Defaults>) returns (r: Result<Option<Fragment>>)
    ensures r == Parsed(moof, trexDefs)
  {
    var trafBox: Option<Traf> := None;
    for i := 0 to |moof.trafs|
      invariant trafBox == if i == 0 then None else Some(moof.trafs[i - 1])
    {
      trafBox := Some(moof.trafs[i]);
    }
    if trafBox.None? {
      return Ok(None);
    }
    var traf := trafBox.value;
    var tfhd: Option<Tfhd> := None;
    for i := 0 to |traf.tfhds|
      invariant tfhd == if i == 0 then None else Some(traf.tfhds[i - 1])
    {
      tfhd := Some(traf.tfhds[i]);
    }
    if tfhd.None? {
      return Err("traf without tfhd");
    }
    var h := tfhd.value;

    var defs := if h.trackID in trexDefs then trexDefs[h.trackID] else Defaults(0, 0, 0);
    var defDur, defSize, defFlags := defs.duration, defs.size, defs.flags;
    if h.duration.Some? { defDur := h.duration.value; }
    if h.size.Some? { defSize := h.size.value; }
    if h.flags.Some? { defFlags := h.flags.value; }
    var d := Defaults(defDur, defSize, defFlags);

    var base: int;
    if h.baseDataOffset.Some? {
      base := h.baseDataOffset.value;
    } else if h.defaultBaseIsMoof {
      base := moof.offset;
    } else {
      base := moof.offset;
    }

    var samples: Fragment := [];
    for k := 0 to |traf.truns|
      invariant samples == ParsedSamples(traf.truns, d, base, k)
    {
      var run := ParseRun(traf.truns[k], d, base);
      samples := samples + run;
    }
    r := Ok(Some(samples));
  }

  // ----- Where the two agree

  /**
    A run is at fault when it has samples and the program starts it elsewhere: it has
    a data offset and the bases differ, or it has none and the standard's start, the
    end of the data before it or the standard's base, is not the program's base.
   */
  predicate Misplaced(truns: seq<Trun>, d: Defaults, base: int, isoBase: int, k: nat)
    requires k < |truns|
  {
    truns[k].entries != [] && if truns[k].dataOffset.Some? then base != isoBase else IsoStart(truns, d, isoBase, k) != base
  }

  predicate WrapsCto(t: Trun) {
    t.hasCto && t.version == 0 && exists i :: 0 <= i < |t.entries| && t.entries[i].ctoV0 >= 0x8000_0000
  }

  lemma {:induction false} RunAgreesIff(truns: seq<Trun>, d: Defaults, base: int, isoBase: int, k: nat)
    requires k < |truns|
    ensures ParsedRun(truns[k], d, base) == IsoRun(truns, d, isoBase, k)
       <==> !Misplaced(truns, d, base, isoBase, k) && !WrapsCto(truns[k])
  {
    var t := truns[k];
    var p, q := ParsedRun(t, d, base), IsoRun(truns, d, isoBase, k);
    if p == q {
      if t.entries != [] {
        assert p[0].srcOffset == RunStart(t, base) && q[0].srcOffset == IsoStart(truns, d, isoBase, k);
      }
      forall i | 0 <= i < |t.entries| && t.hasCto && t.version == 0
        ensures t.entries[i].ctoV0 < 0x8000_0000
      {
        assert p[i].cto == q[i].cto;
      }
    }
    if !Misplaced(truns, d, base, isoBase, k) && !WrapsCto(t) {
      assert t.entries != [] ==> RunStart(t, base) == IsoStart(truns, d, isoBase, k);
      forall i | 0 <= i < |t.entries| ensures p[i] == q[i] {
        assert CastCto(t, i) == IsoCto(t, i);
      }
    }
  }

  /**
    The program reads the runs of a track fragment as the standard does exactly when
    none with samples is misplaced and no version-0 composition offset reaches 2^31.
   */
  lemma {:induction false} ParsedAgreesIff(truns: seq<Trun>, d: Defaults, base: int, isoBase: int, n: nat)
    requires n <= |truns|
    ensures |ParsedSamples(truns, d, base, n)| == |IsoSamples(truns, d, isoBase, n)|
    ensures ParsedSamples(truns, d, base, n) == IsoSamples(truns, d, isoBase, n)
       <==> forall k :: 0 <= k < n ==> !Misplaced(truns, d, base, isoBase, k) && !WrapsCto(truns[k])
  {
    if n > 0 {
      ParsedAgreesIff(truns, d, base, isoBase, n - 1);
      RunAgreesIff(truns, d, base, isoBase, n - 1);
      var a, b := ParsedSamples(truns, d, base, n - 1), ParsedRun(truns[n - 1], d, base);
      var c, e := IsoSamples(truns, d, isoBase, n - 1), IsoRun(truns, d, isoBase, n - 1);
      if a + b == c + e {
        assert a == (a + b)[..|a|] == (c + e)[..|c|] == c;
        assert b == (a + b)[|a|..] == (c + e)[|c|..] == e;
      }
    }
  }

  /** Two one-sample runs, the second without an offset: the program reads its data from the first run. */
  lemma {:induction false} SecondRunReadsFirstRunsData()
    ensures var t := Trun(0, None, None, false, false, false, false, [TrunEntry(0, 0, 0, 0, 0)]);
            var d := Defaults(1, 10, 0);
            var p, q := ParsedSamples([t, t], d, 100, 2), IsoSamples([t, t], d, 100, 2);
            |p| == |q| == 2 && p[1].srcOffset == 100 && q[1].srcOffset == 110
  {
    var t := Trun(0, None, None, false, false, false, false, [TrunEntry(0, 0, 0, 0, 0)]);
    var d := Defaults(1, 10, 0);
    var truns := [t, t];
    assert ParsedSamples(truns, d, 100, 1) == ParsedRun(t, d, 100);
    assert IsoSamples(truns, d, 100, 1) == IsoRun(truns, d, 100, 0);
    assert SizeBefore(t, d, 1) == 10;
    assert IsoStart(truns, d, 100, 1) == 110;
    assert ParsedSamples(truns, d, 100, 2)[1] == ParsedRun(t, d, 100)[0];
    assert IsoSamples(truns, d, 100, 2)[1] == IsoRun(truns, d, 100, 1)[0];
  }
}
