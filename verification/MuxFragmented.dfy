/**
  The whole muxer: read the fragments of both files, write mdat, build both sample
  tables. Demuxing the result gives each track's source samples, and for regular
  input those are the samples the fragmented files themselves denote.
 */
module MuxFragmented {
  import opened Boxes
  import opened Common
  import opened FragmentSamples
  import opened SampleTables
  import opened ProgressiveMux

  /** A fragmented input of one track: its bytes, the track's id, its movie fragments in order and its trex defaults. */
  datatype FragmentedFile = FragmentedFile(bytes: seq<bv8>, track: Uint32, moofs: seq<Moof>, trex: map<Uint32, Defaults>)

  /** The fragments of the first n moofs; one without a traf contributes none. */
  function FragmentsOf(f: FragmentedFile, n: nat): Result<seq<Fragment>>
    requires n <= |f.moofs|
  {
    if n == 0 then Ok([]) else
    var before := FragmentsOf(f, n - 1);
    if before.Err? then before else
    match Parsed(f.moofs[n - 1], f.trex)
    case Err(e) => Err(e)
    case Ok(None) => before
    case Ok(Some(frag)) => Ok(before.value + [frag])
  }

  function Fragments(f: FragmentedFile): Result<seq<Fragment>> {
    FragmentsOf(f, |f.moofs|)
  }

  // readFragmentSamples
  method ReadFragmentSamples(f: FragmentedFile) returns (r: Result<seq<Fragment>>)
    ensures r == Fragments(f)
  {
    var out: seq<Fragment> := [];
    for i := 0 to |f.moofs|
      invariant FragmentsOf(f, i) == Ok(out)
    {
      var group := ParseMoofIntoSamples(f.moofs[i], f.trex);
      if group.Err? {
        StaysErr(f, i + 1, |f.moofs|);
        return Err(group.reason);
      }
      if group.value.Some? {
        out := out + [group.value.value];
      }
    }
    r := Ok(out);
  }

  lemma {:induction false} StaysErr(f: FragmentedFile, i: nat, n: nat)
    requires i <= n <= |f.moofs| && FragmentsOf(f, i).Err?
    ensures FragmentsOf(f, n) == FragmentsOf(f, i)
    decreases n - i
  {
    if i < n {
      StaysErr(f, i, n - 1);
    }
  }

  // ----- Offsets the parser can produce

  lemma {:induction false} ParsedCtosFit(truns: seq<Trun>, d: Defaults, base: int, n: nat)
    requires n <= |truns|
    ensures Int32Ctos(ParsedSamples(truns, d, base, n))
  {
    if n > 0 {
      ParsedCtosFit(truns, d, base, n - 1);
    }
  }

  lemma {:induction false} FragmentCtosFit(f: FragmentedFile, n: nat)
    requires n <= |f.moofs| && FragmentsOf(f, n).Ok?
    ensures Int32Ctos(Flat(FragmentsOf(f, n).value))
  {
    if n > 0 {
      FragmentCtosFit(f, n - 1);
      var moof, before := f.moofs[n - 1], FragmentsOf(f, n - 1).value;
      if Parsed(moof, f.trex).value.Some? {
        var traf := moof.trafs[|moof.trafs| - 1];
        var h := traf.tfhds[|traf.tfhds| - 1];
        ParsedCtosFit(traf.truns, InForce(f.trex, h), BaseOffset(h, moof.offset), |traf.truns|);
        var frag := Parsed(moof, f.trex).value.value;
        assert (before + [frag])[..|before|] == before;
      }
    }
  }

  // ----- The sample table of one track

  // the table half of writeTrak
  method WriteTrak(frags: seq<Fragment>, chunkOffsets: seq<nat>) returns (t: SampleTable)
    requires FitsBoxes(frags) && Int32Ctos(Flat(frags)) && |chunkOffsets| == |frags|
    ensures Describes(t, frags) && t.co64 == chunkOffsets
    ensures Canonical(t.stts) && (t.stss.None? <==> AllSync(Flat(frags)))
    ensures t.ctts.Some? <==> Reordered(Flat(frags))
  {
    var stts := WriteStts(frags);
    var hasCtts, allNonNegative := AnalyzeCtts(frags);
    var ctts: Option<Ctts> := None;
    if hasCtts {
      var box := WriteCtts(frags, allNonNegative);
      ctts := Some(box);
    }
    var stss := WriteStss(frags);
    var stsc := WriteStsc(frags);
    var stsz := WriteStsz(frags);
    t := SampleTable(stts, ctts, stss, stsc, stsz, chunkOffsets);
  }

  // ----- muxFragmentedMP4

  datatype Muxed = Muxed(video: SampleTable, audio: SampleTable)

  /** Both inputs parse, each has a fragment, and every sample lies inside its file. */
  ghost predicate Muxable(v: FragmentedFile, a: FragmentedFile) {
    && Fragments(v).Ok? && Fragments(v).value != [] && Readables(v.bytes, Fragments(v).value)
    && Fragments(a).Ok? && Fragments(a).value != [] && Readables(a.bytes, Fragments(a).value)
  }

  ghost predicate Countable(f: FragmentedFile) {
    Fragments(f).Ok? ==> FitsBoxes(Fragments(f).value)
  }

  /** Whatever follows (the moov box), the track read through its table is the source track. */
  ghost predicate DemuxesTo(data: seq<bv8>, t: SampleTable, f: FragmentedFile)
    requires Fragments(f).Ok? && AllReadable(f.bytes, Flat(Fragments(f).value))
  {
    forall tail: seq<bv8> :: Demux(data + tail, t) == SourceTrack(f.bytes, Flat(Fragments(f).value))
  }

  lemma {:induction false} FlatReadable(src: seq<bv8>, frags: seq<Fragment>)
    requires Readables(src, frags)
    ensures AllReadable(src, Flat(frags))
  {
    if frags != [] {
      FlatReadable(src, frags[..|frags| - 1]);
    }
  }

  lemma {:induction false} DemuxesAfterTail(data: seq<bv8>, t: SampleTable, f: FragmentedFile)
    requires Fragments(f).Ok? && Readables(f.bytes, Fragments(f).value)
    requires Describes(t, Fragments(f).value)
    requires LaidOut(data, t.co64, Chunks(f.bytes, Fragments(f).value), |Fragments(f).value|)
    ensures AllReadable(f.bytes, Flat(Fragments(f).value)) && DemuxesTo(data, t, f)
  {
    var frags := Fragments(f).value;
    FlatReadable(f.bytes, frags);
    forall tail: seq<bv8> ensures Demux(data + tail, t) == SourceTrack(f.bytes, Flat(frags)) {
      LaidOutGrows(data, tail, t.co64, Chunks(f.bytes, frags), |frags|);
      DemuxGivesSource(data + tail, t, f.bytes, frags);
    }
  }

  // writeProgressiveFtyp
  method WriteProgressiveFtyp(out: OutFile)
    requires out.pos == |out.data|
    modifies out
    ensures out.pos == |out.data| && out.data == old(out.data) + ProgressiveFtyp()
  {
    var box := ProgressiveFtyp();
    out.Write(box);
  }

  /** Whatever is written behind, a reader walks from the file type box over the media data to that. */
  ghost predicate WalksOver(data: seq<bv8>) {
    forall tail: seq<bv8> ::
      BoxesFrom(data + tail, 0)
      == [Box(ftypKind, 0, 8, 32), Box(mdatKind, 32, 48, |data|)] + BoxesFrom(data + tail, |data|)
  }

  lemma {:induction false} FoundWalksOver(data: seq<bv8>)
    requires ProgressiveFtyp() < data && Small(data) ==> MdatFound(ProgressiveFtyp(), data)
    ensures ProgressiveFtyp() < data && Small(data) ==> WalksOver(data)
  {
    if ProgressiveFtyp() < data && Small(data) {
      FoundThenWalks(data);
    }
  }

  lemma {:induction false} FoundThenWalks(data: seq<bv8>)
    requires ProgressiveFtyp() < data && MdatFound(ProgressiveFtyp(), data)
    ensures WalksOver(data)
  {
    FtypReadBack([]);
    forall tail: seq<bv8>
      ensures BoxesFrom(data + tail, 0)
           == [Box(ftypKind, 0, 8, 32), Box(mdatKind, 32, 48, |data|)] + BoxesFrom(data + tail, |data|)
    {
      FtypInFront(data, tail);
      WalkTwo(data + tail, Box(ftypKind, 0, 8, 32), Box(mdatKind, 32, 48, |data|));
    }
  }

  lemma {:induction false} FtypInFront(data: seq<bv8>, tail: seq<bv8>)
    requires ProgressiveFtyp() < data
    ensures BoxAt(data + tail, 0) == Some(Box(ftypKind, 0, 8, 32))
  {
    var ftyp := ProgressiveFtyp();
    SplitAt(ftyp, data, tail);
    FtypReadBack(data[|ftyp|..] + tail);
  }

  lemma SplitAt(front: seq<bv8>, data: seq<bv8>, tail: seq<bv8>)
    requires front <= data
    ensures data + tail == front + (data[|front|..] + tail)
  {
  }

  /** What the muxer writes for two readable inputs. */
  ghost predicate MuxedInto(data: seq<bv8>, m: Muxed, v: FragmentedFile, a: FragmentedFile)
    requires Muxable(v, a)
  {
    && AllReadable(v.bytes, Flat(Fragments(v).value)) && DemuxesTo(data, m.video, v)
    && AllReadable(a.bytes, Flat(Fragments(a).value)) && DemuxesTo(data, m.audio, a)
    && MdatFor(ProgressiveFtyp(), data, MdatResult(m.video.co64, m.audio.co64, |data|),
               v.bytes, a.bytes, Fragments(v).value, Fragments(a).value)
  }

  // the half of muxFragmentedMP4 that writes
  method WriteOutput(v: FragmentedFile, a: FragmentedFile, vFrags: seq<Fragment>, aFrags: seq<Fragment>, out: OutFile)
      returns (r: Option<Muxed>)
    requires Fragments(v) == Ok(vFrags) && Fragments(a) == Ok(aFrags) && vFrags != [] && aFrags != []
    requires FitsBoxes(vFrags) && FitsBoxes(aFrags)
    requires out.data == [] && out.pos == 0
    modifies out
    ensures r.Some? <==> Muxable(v, a)
    ensures r.Some? ==> MuxedInto(out.data, r.value, v, a) && (Small(out.data) ==> WalksOver(out.data))
  {
    WriteProgressiveFtyp(out);
    assert out.data == ProgressiveFtyp();
    var mdat := WriteMdat(out, v.bytes, a.bytes, vFrags, aFrags);
    if mdat.None? {
      return None;
    }
    FragmentCtosFit(v, |v.moofs|);
    FragmentCtosFit(a, |a.moofs|);
    var vTable := WriteTrak(vFrags, mdat.value.vOffsets);
    var aTable := WriteTrak(aFrags, mdat.value.aOffsets);
    DemuxesAfterTail(out.data, vTable, v);
    DemuxesAfterTail(out.data, aTable, a);
    FoundWalksOver(out.data);
    r := Some(Muxed(vTable, aTable));
  }

  // muxFragmentedMP4, from the opened files to the tables of the moov box
  method MuxFragmentedMP4(v: FragmentedFile, a: FragmentedFile, out: OutFile) returns (r: Result<Muxed>)
    requires Countable(v) && Countable(a)
    requires out.data == [] && out.pos == 0
    modifies out
    ensures r.Ok? <==> Muxable(v, a)
    ensures r.Ok? ==> MuxedInto(out.data, r.value, v, a) && (Small(out.data) ==> WalksOver(out.data))
  {
    var vFrags := ReadFragmentSamples(v);
    if vFrags.Err? {
      return Err(vFrags.reason);
    }
    var aFrags := ReadFragmentSamples(a);
    if aFrags.Err? {
      return Err(aFrags.reason);
    }
    if |vFrags.value| == 0 {
      return Err("video has no fragments");
    }
    if |aFrags.value| == 0 {
      return Err("audio has no fragments");
    }
    var written := WriteOutput(v, a, vFrags.value, aFrags.value, out);
    if written.None? {
      return Err("write mdat");
    }
    r := Ok(written.value);
  }

  // ----- The compiler preserves meaning

  /** Every track fragment has its one header and belongs to the file's one track. */
  predicate ValidMoof(moof: Moof, track: Uint32) {
    forall j :: 0 <= j < |moof.trafs| ==> |moof.trafs[j].tfhds| == 1 && moof.trafs[j].tfhds[0].trackID == track
  }

  /**
    The base of track fragment j (8.8.7.1): explicit, or the moof for the first and for
    those that ask for it, or else the end of the data of the fragment before.
   */
  function IsoBase(moof: Moof, trex: map<Uint32, Defaults>, track: Uint32, j: nat): int
    requires ValidMoof(moof, track) && j < |moof.trafs|
    decreases j, 0
  {
    var h := moof.trafs[j].tfhds[0];
    if h.baseDataOffset.Some? then h.baseDataOffset.value
    else if h.defaultBaseIsMoof || j == 0 then moof.offset
    else IsoEnd(moof, trex, track, j - 1)
  }

  function IsoEnd(moof: Moof, trex: map<Uint32, Defaults>, track: Uint32, j: nat): int
    requires ValidMoof(moof, track) && j < |moof.trafs|
    decreases j, 1
  {
    var truns, d, base := moof.trafs[j].truns, InForce(trex, moof.trafs[j].tfhds[0]), IsoBase(moof, trex, track, j);
    if truns == [] then base
    else IsoStart(truns, d, base, |truns| - 1) + SizeBefore(truns[|truns| - 1], d, |truns[|truns| - 1].entries|)
  }

  function IsoTraf(moof: Moof, trex: map<Uint32, Defaults>, track: Uint32, j: nat): Fragment
    requires ValidMoof(moof, track) && j < |moof.trafs|
  {
    var traf := moof.trafs[j];
    IsoSamples(traf.truns, InForce(trex, traf.tfhds[0]), IsoBase(moof, trex, track, j), |traf.truns|)
  }

  function IsoTrafs(moof: Moof, trex: map<Uint32, Defaults>, track: Uint32, n: nat): Fragment
    requires ValidMoof(moof, track) && n <= |moof.trafs|
  {
    if n == 0 then [] else IsoTrafs(moof, trex, track, n - 1) + IsoTraf(moof, trex, track, n - 1)
  }

  /** A moof as ISO/IEC 14496-12 reads it: the samples of all its track fragments in order (8.8.6, 8.8.8). */
  function IsoFragment(moof: Moof, trex: map<Uint32, Defaults>, track: Uint32): Result<Option<Fragment>> {
    if |moof.trafs| == 0 then Ok(None)
    else if !ValidMoof(moof, track) then Err("invalid moof")
    else Ok(Some(IsoTrafs(moof, trex, track, |moof.trafs|)))
  }

  /** Both fail, or both read the same. */
  predicate SameReading(p: Result<Option<Fragment>>, q: Result<Option<Fragment>>) {
    (p.Err? && q.Err?) || p == q
  }

  predicate NoSamples(traf: Traf) {
    forall k :: 0 <= k < |traf.truns| ==> traf.truns[k].entries == []
  }

  /** No run of the last track fragment is misplaced, given the standard's base for it, and no offset wraps. */
  ghost predicate LastRegular(moof: Moof, trex: map<Uint32, Defaults>, track: Uint32)
    requires |moof.trafs| > 0 && ValidMoof(moof, track)
  {
    var last := |moof.trafs| - 1;
    var traf := moof.trafs[last];
    var h := traf.tfhds[0];
    forall k :: 0 <= k < |traf.truns| ==>
      && !Misplaced(traf.truns, InForce(trex, h), BaseOffset(h, moof.offset), IsoBase(moof, trex, track, last), k)
      && !WrapsCto(traf.truns[k])
  }

  /** All samples are in the last track fragment, and that one is regular; an invalid moof shows in a missing last header. */
  ghost predicate Regular(moof: Moof, trex: map<Uint32, Defaults>, track: Uint32) {
    |moof.trafs| > 0 ==>
      if !ValidMoof(moof, track) then moof.trafs[|moof.trafs| - 1].tfhds == []
      else
        && (forall j :: 0 <= j < |moof.trafs| - 1 ==> NoSamples(moof.trafs[j]))
        && LastRegular(moof, trex, track)
  }

  lemma {:induction false} SamplesNone(truns: seq<Trun>, d: Defaults, base: int, n: nat)
    requires n <= |truns|
    ensures IsoSamples(truns, d, base, n) == [] <==> forall k :: 0 <= k < n ==> truns[k].entries == []
  {
    if n > 0 {
      SamplesNone(truns, d, base, n - 1);
    }
  }

  lemma {:induction false} TrafsNone(moof: Moof, trex: map<Uint32, Defaults>, track: Uint32, n: nat)
    requires ValidMoof(moof, track) && n <= |moof.trafs|
    ensures IsoTrafs(moof, trex, track, n) == [] <==> forall j :: 0 <= j < n ==> NoSamples(moof.trafs[j])
  {
    if n > 0 {
      TrafsNone(moof, trex, track, n - 1);
      var traf := moof.trafs[n - 1];
      SamplesNone(traf.truns, InForce(trex, traf.tfhds[0]), IsoBase(moof, trex, track, n - 1), |traf.truns|);
    }
  }

  /** Of a valid moof the program reads the last track fragment, so at most what the moof denotes. */
  lemma {:induction false} ReadsLastTraf(moof: Moof, trex: map<Uint32, Defaults>, track: Uint32)
    requires |moof.trafs| > 0 && ValidMoof(moof, track)
    ensures var p := Parsed(moof, trex);
            var last := |moof.trafs| - 1;
            && p.Ok? && p.value.Some?
            && |p.value.value| == |IsoTraf(moof, trex, track, last)|
            && (p.value.value == IsoTraf(moof, trex, track, last) <==> LastRegular(moof, trex, track))
            && |IsoTrafs(moof, trex, track, last + 1)| == |IsoTrafs(moof, trex, track, last)| + |p.value.value|
  {
    var last := |moof.trafs| - 1;
    var traf := moof.trafs[last];
    var h := traf.tfhds[0];
    ParsedAgreesIff(traf.truns, InForce(trex, h), BaseOffset(h, moof.offset), IsoBase(moof, trex, track, last), |traf.truns|);
  }

  /** The muxer reads a moof as the standard does exactly when the moof is regular. */
  lemma {:induction false} ReadAsStandardIff(moof: Moof, trex: map<Uint32, Defaults>, track: Uint32)
    ensures SameReading(Parsed(moof, trex), IsoFragment(moof, trex, track)) <==> Regular(moof, trex, track)
  {
    if |moof.trafs| > 0 && ValidMoof(moof, track) {
      var last := |moof.trafs| - 1;
      ReadsLastTraf(moof, trex, track);
      TrafsNone(moof, trex, track, last);
      var earlier, part := IsoTrafs(moof, trex, track, last), IsoTraf(moof, trex, track, last);
      assert IsoTrafs(moof, trex, track, last + 1) == earlier + part;
      assert earlier == [] ==> earlier + part == part;
    }
  }

  function OneSampleAt(offset: Int32): Trun {
    Trun(0, Some(offset), None, false, false, false, false, [TrunEntry(0, 0, 0, 0, 0)])
  }

  /** Two track fragments of one sample each. */
  function TwoTrafs(): Moof {
    var h := Tfhd(1, None, true, None, None, None);
    Moof(0, [Traf([h], [OneSampleAt(100)]), Traf([h], [OneSampleAt(110)])])
  }

  lemma OneSampleRun(offset: Int32)
    ensures var d, sample := Defaults(1, 10, 0), SampleInfo(offset, 10, 1, true, 0);
            && ParsedSamples([OneSampleAt(offset)], d, 0, 1) == [sample]
            && IsoSamples([OneSampleAt(offset)], d, 0, 1) == [sample]
  {
    var d, t := Defaults(1, 10, 0), OneSampleAt(offset);
    assert ParsedRun(t, d, 0) == [SampleInfo(offset, 10, 1, true, 0)];
    assert IsoRun([t], d, 0, 0) == [SampleInfo(offset, 10, 1, true, 0)];
    assert ParsedSamples([t], d, 0, 0) == [] && IsoSamples([t], d, 0, 0) == [];
  }

  /** Each of them is regular by itself, but the program reads the second only. */
  lemma EarlierTrafIsDropped()
    ensures var trex: map<Uint32, Defaults> := map[1 := Defaults(1, 10, 0)];
            && ValidMoof(TwoTrafs(), 1) && LastRegular(TwoTrafs(), trex, 1)
            && Parsed(TwoTrafs(), trex) == Ok(Some([SampleInfo(110, 10, 1, true, 0)]))
            && IsoFragment(TwoTrafs(), trex, 1)
               == Ok(Some([SampleInfo(100, 10, 1, true, 0), SampleInfo(110, 10, 1, true, 0)]))
  {
    var trex: map<Uint32, Defaults> := map[1 := Defaults(1, 10, 0)];
    var moof := TwoTrafs();
    OneSampleRun(100);
    OneSampleRun(110);
    assert InForce(trex, moof.trafs[0].tfhds[0]) == Defaults(1, 10, 0);
    assert IsoBase(moof, trex, 1, 0) == 0 && IsoBase(moof, trex, 1, 1) == 0;
    assert IsoTraf(moof, trex, 1, 0) == [SampleInfo(100, 10, 1, true, 0)];
    assert IsoTraf(moof, trex, 1, 1) == [SampleInfo(110, 10, 1, true, 0)];
    assert IsoTrafs(moof, trex, 1, 0) == [];
    assert IsoTrafs(moof, trex, 1, 1) == [SampleInfo(100, 10, 1, true, 0)];
    assert IsoTrafs(moof, trex, 1, 2) == [SampleInfo(100, 10, 1, true, 0)] + [SampleInfo(110, 10, 1, true, 0)];
    assert ValidMoof(moof, 1);
    var both := [SampleInfo(100, 10, 1, true, 0)] + [SampleInfo(110, 10, 1, true, 0)];
    assert both == [SampleInfo(100, 10, 1, true, 0), SampleInfo(110, 10, 1, true, 0)];
  }

  /** The samples a fragmented file denotes. */
  function IsoTrackOf(f: FragmentedFile, n: nat): Result<Fragment>
    requires n <= |f.moofs|
  {
    if n == 0 then Ok([]) else
    var before := IsoTrackOf(f, n - 1);
    if before.Err? then before else
    match IsoFragment(f.moofs[n - 1], f.trex, f.track)
    case Err(e) => Err(e)
    case Ok(None) => before
    case Ok(Some(frag)) => Ok(before.value + frag)
  }

  /** The samples the first n moofs were read as are those the file denotes. */
  ghost predicate ReadAsDenoted(f: FragmentedFile, n: nat)
    requires n <= |f.moofs| && FragmentsOf(f, n).Ok?
  {
    IsoTrackOf(f, n).Ok? && IsoTrackOf(f, n).value == Flat(FragmentsOf(f, n).value)
  }

  /** Nothing the muxer reads of a moof goes beyond what the moof denotes. */
  lemma {:induction false} ReadsNoMore(f: FragmentedFile, n: nat)
    requires n <= |f.moofs| && FragmentsOf(f, n).Ok? && IsoTrackOf(f, n).Ok?
    ensures |Flat(FragmentsOf(f, n).value)| <= |IsoTrackOf(f, n).value|
  {
    if n > 0 {
      ReadsNoMore(f, n - 1);
      var moof := f.moofs[n - 1];
      if |moof.trafs| > 0 {
        ReadsLastTraf(moof, f.trex, f.track);
        FlatMore(FragmentsOf(f, n - 1).value, Parsed(moof, f.trex).value.value);
      }
    }
  }

  lemma FlatMore(before: seq<Fragment>, frag: Fragment)
    ensures Flat(before + [frag]) == Flat(before) + frag
  {
    assert (before + [frag])[..|before|] == before;
  }

  /** What the muxer compiles is what its input denotes if and only if every moof is regular. */
  lemma {:induction false} CompilesTheDenotedTrack(f: FragmentedFile, n: nat)
    requires n <= |f.moofs| && FragmentsOf(f, n).Ok?
    ensures ReadAsDenoted(f, n) <==> forall i :: 0 <= i < n ==> Regular(f.moofs[i], f.trex, f.track)
  {
    if n > 0 {
      CompilesTheDenotedTrack(f, n - 1);
      OneMoreMoof(f, n);
    }
  }

  lemma {:induction false} OneMoreMoof(f: FragmentedFile, n: nat)
    requires 0 < n <= |f.moofs| && FragmentsOf(f, n).Ok?
    ensures FragmentsOf(f, n - 1).Ok?
    ensures ReadAsDenoted(f, n) <==> ReadAsDenoted(f, n - 1) && Regular(f.moofs[n - 1], f.trex, f.track)
  {
    var moof := f.moofs[n - 1];
    ReadAsStandardIff(moof, f.trex, f.track);
    if |moof.trafs| > 0 && ValidMoof(moof, f.track) && IsoTrackOf(f, n - 1).Ok? {
      ReadsNoMore(f, n - 1);
      ReadsLastTraf(moof, f.trex, f.track);
      FlatMore(FragmentsOf(f, n - 1).value, Parsed(moof, f.trex).value.value);
      SameHalves(Flat(FragmentsOf(f, n - 1).value), Parsed(moof, f.trex).value.value,
                 IsoTrackOf(f, n - 1).value, IsoTrafs(moof, f.trex, f.track, |moof.trafs|));
    }
  }

  /** Two joins whose halves are no longer on the left agree exactly when the halves do. */
  lemma SameHalves(a: Fragment, b: Fragment, c: Fragment, d: Fragment)
    requires |a| <= |c| && |b| <= |d|
    ensures a + b == c + d <==> a == c && b == d
  {
    if a + b == c + d {
      assert |a| == |c| && |b| == |d|;
      assert a == (a + b)[..|a|] == (c + d)[..|c|] == c;
      assert b == (a + b)[|a|..] == (c + d)[|c|..] == d;
    }
  }

  /** So demuxing the output, with anything written behind it, gives the samples the regular input denotes. */
  lemma {:induction false} DemuxedIsDenoted(f: FragmentedFile, data: seq<bv8>, t: SampleTable, tail: seq<bv8>)
    requires Fragments(f).Ok? && AllReadable(f.bytes, Flat(Fragments(f).value)) && DemuxesTo(data, t, f)
    requires forall i :: 0 <= i < |f.moofs| ==> Regular(f.moofs[i], f.trex, f.track)
    ensures var denoted := IsoTrackOf(f, |f.moofs|);
            && denoted.Ok? && AllReadable(f.bytes, denoted.value)
            && Demux(data + tail, t) == SourceTrack(f.bytes, denoted.value)
  {
    CompilesTheDenotedTrack(f, |f.moofs|);
  }
}
