/**
  The progressive muxer as a compiler: two fragmented tracks in, one interleaved
  mdat and two sample tables out. The main result is that demuxing the output by
  ISO/IEC 14496-12 gives back the source samples of both tracks.
 */
module ProgressiveMux {
  import opened Boxes
  import opened Common
  import opened FragmentSamples
  import opened SampleTables

  // ----- The output file

  function Overwrite(data: seq<bv8>, at: nat, bytes: seq<bv8>): (r: seq<bv8>)
    requires at <= |data|
  {
    data[..at] + bytes + if at + |bytes| < |data| then data[at + |bytes|..] else []
  }

  /** An open file: its bytes and the position the next write goes to. */
  class OutFile {
    var data: seq<bv8>
    var pos: nat

    constructor ()
      ensures data == [] && pos == 0
    {
      data, pos := [], 0;
    }

    method Write(bytes: seq<bv8>)
      requires pos <= |data|
      modifies this
      ensures data == Overwrite(old(data), old(pos), bytes)
      ensures old(pos) == |old(data)| ==> data == old(data) + bytes
      ensures pos == old(pos) + |bytes| <= |data|
    {
      data := Overwrite(data, pos, bytes);
      pos := pos + |bytes|;
    }

    method WriteAt(bytes: seq<bv8>, at: nat)
      requires at <= |data|
      modifies this`data
      ensures data == Overwrite(old(data), at, bytes)
    {
      data := Overwrite(data, at, bytes);
    }
  }

  // ----- One byte string inside another

  ghost predicate ByteIn(file: seq<bv8>, at: nat, chunk: seq<bv8>, i: nat)
    requires i < |chunk| && at + |chunk| <= |file|
  {
    file[at + i] == chunk[i]
  }

  /** The bytes of `chunk` stand in `file` from offset `at` on. */
  ghost predicate ChunkAt(file: seq<bv8>, at: nat, chunk: seq<bv8>) {
    at + |chunk| <= |file| && forall i: nat {:trigger ByteIn(file, at, chunk, i)} :: i < |chunk| ==> ByteIn(file, at, chunk, i)
  }

  lemma {:induction false} ChunkAtSlice(file: seq<bv8>, at: nat, chunk: seq<bv8>)
    requires ChunkAt(file, at, chunk)
    ensures Slice(file, at, |chunk|) == chunk
  {
    SliceIsSubsequence(file, at, |chunk|);
    forall i: nat | i < |chunk| ensures file[at + i] == chunk[i] {
      assert ByteIn(file, at, chunk, i);
    }
  }

  lemma {:induction false} ChunkAtEnd(head: seq<bv8>, chunk: seq<bv8>)
    ensures ChunkAt(head + chunk, |head|, chunk)
  {
  }

  lemma {:induction false} ChunkAtGrows(file: seq<bv8>, tail: seq<bv8>, at: nat, chunk: seq<bv8>)
    requires ChunkAt(file, at, chunk)
    ensures ChunkAt(file + tail, at, chunk)
  {
    forall i: nat | i < |chunk| ensures ByteIn(file + tail, at, chunk, i) {
      assert ByteIn(file, at, chunk, i);
    }
  }

  lemma {:induction false} ChunkAtPatched(file: seq<bv8>, at: nat, patch: seq<bv8>, off: nat, chunk: seq<bv8>)
    requires at + |patch| <= off && ChunkAt(file, off, chunk)
    ensures ChunkAt(Overwrite(file, at, patch), off, chunk)
  {
    forall i: nat | i < |chunk| ensures ByteIn(Overwrite(file, at, patch), off, chunk, i) {
      assert ByteIn(file, off, chunk, i);
    }
  }

  lemma {:induction false} PartAt(file: seq<bv8>, off: nat, chunk: seq<bv8>, at: nat, part: seq<bv8>)
    requires ChunkAt(file, off, chunk) && ChunkAt(chunk, at, part)
    ensures ChunkAt(file, off + at, part)
  {
    forall i: nat {:trigger ByteIn(file, off + at, part, i)} | i < |part| ensures ByteIn(file, off + at, part, i) {
      assert ByteIn(chunk, at, part, i) && ByteIn(file, off, chunk, at + i);
    }
  }

  // ----- Sample bytes in the source

  /** The bytes of a sample can be read: its seek is legal and the copy does not fall short. */
  predicate Readable(src: seq<bv8>, s: SampleInfo) {
    s.srcOffset >= 0 && (s.size > 0 ==> s.srcOffset + s.size <= |src|)
  }

  predicate AllReadable(src: seq<bv8>, f: Fragment) {
    forall j :: 0 <= j < |f| ==> Readable(src, f[j])
  }

  function SampleBytes(src: seq<bv8>, s: SampleInfo): (b: seq<bv8>)
    requires Readable(src, s)
    ensures |b| == s.size
  {
    if s.size == 0 then [] else Slice(src, s.srcOffset, s.size)
  }

  /** The first n parts, end to end. */
  function Concat(parts: seq<seq<bv8>>, n: nat): (b: seq<bv8>)
    requires n <= |parts|
    ensures |b| == LengthOf(parts, n)
  {
    if n == 0 then [] else Concat(parts, n - 1) + parts[n - 1]
  }

  function LengthOf(parts: seq<seq<bv8>>, n: nat): nat
    requires n <= |parts|
  {
    if n == 0 then 0 else LengthOf(parts, n - 1) + |parts[n - 1]|
  }

  lemma {:induction false} PartInside(parts: seq<seq<bv8>>, j: nat, n: nat)
    requires j < n <= |parts|
    ensures LengthOf(parts, j) + |parts[j]| <= LengthOf(parts, n)
    ensures ChunkAt(Concat(parts, n), LengthOf(parts, j), parts[j])
  {
    if j < n - 1 {
      PartInside(parts, j, n - 1);
      ChunkAtGrows(Concat(parts, n - 1), parts[n - 1], LengthOf(parts, j), parts[j]);
    } else {
      ChunkAtEnd(Concat(parts, j), parts[j]);
    }
  }

  /** The bytes of a fragment's samples, one part per sample. */
  function Parts(src: seq<bv8>, f: Fragment): (parts: seq<seq<bv8>>)
    requires AllReadable(src, f)
    ensures |parts| == |f|
  {
    seq(|f|, i requires 0 <= i < |f| => SampleBytes(src, f[i]))
  }

  predicate Readables(src: seq<bv8>, frags: seq<Fragment>) {
    forall k :: 0 <= k < |frags| ==> AllReadable(src, frags[k])
  }

  /** The bytes of a track's fragments, one chunk per fragment. */
  function Chunks(src: seq<bv8>, frags: seq<Fragment>): (chunks: seq<seq<bv8>>)
    requires Readables(src, frags)
    ensures |chunks| == |frags|
  {
    seq(|frags|, k requires 0 <= k < |frags| => Concat(Parts(src, frags[k]), |frags[k]|))
  }

  lemma {:induction false} PartsLength(src: seq<bv8>, f: Fragment, n: nat)
    requires n <= |f| && AllReadable(src, f)
    ensures LengthOf(Parts(src, f), n) == Span(Sizes(f), 0, n)
  {
    if n > 0 {
      PartsLength(src, f, n - 1);
    }
  }

  lemma {:induction false} SampleInsideChunk(src: seq<bv8>, frags: seq<Fragment>, k: nat, j: nat)
    requires Readables(src, frags) && k < |frags| && j < |frags[k]|
    ensures ChunkAt(Chunks(src, frags)[k], Span(Sizes(frags[k]), 0, j), SampleBytes(src, frags[k][j]))
  {
    PartInside(Parts(src, frags[k]), j, |frags[k]|);
    PartsLength(src, frags[k], j);
  }

  // ----- What the demuxer must return

  /** A sample as its source has it. */
  function SourceSample(src: seq<bv8>, s: SampleInfo): Demuxed
    requires Readable(src, s)
  {
    Demuxed(SampleBytes(src, s), s.size, s.duration, s.cto, s.isSync)
  }

  function SourceTrack(src: seq<bv8>, f: Fragment): (track: seq<Option<Demuxed>>)
    requires AllReadable(src, f)
    ensures |track| == |f|
  {
    seq(|f|, i requires 0 <= i < |f| => Some(SourceSample(src, f[i])))
  }

  /** A table describes a fragment list, each box by what a reader gets out of it. */
  ghost predicate Describes(t: SampleTable, frags: seq<Fragment>) {
    var all := Flat(frags);
    && Expand(t.stts) == Durations(all)
    && (if t.ctts.None? then !Reordered(all) else Expand(CttsRuns(t.ctts.value)) == Ctos(all))
    && (forall i :: 0 <= i < |all| ==> (SyncAt(t.stss, i) <==> all[i].isSync))
    && (forall k :: 0 <= k < |frags| ==> SamplesInChunk(t.stsc, k + 1) == |frags[k]|)
    && t.stsz == Sizes(all)
    && |t.co64| == |frags|
  }

  /** The first n chunks lie in the file at their recorded offsets. */
  ghost predicate LaidOut(file: seq<bv8>, offsets: seq<nat>, chunks: seq<seq<bv8>>, n: nat)
    requires n <= |chunks| && n <= |offsets|
  {
    forall k :: 0 <= k < n ==> ChunkAt(file, offsets[k], chunks[k])
  }

  lemma {:induction false} FlatAt(frags: seq<Fragment>, k: nat, j: nat)
    requires k < |frags| && j < |frags[k]|
    ensures |Flat(frags[..k])| + |frags[k]| <= |Flat(frags)|
    ensures Flat(frags)[|Flat(frags[..k])| + j] == frags[k][j]
  {
    FlatStep(frags, k);
    FlatPrefix(frags, k + 1);
  }

  /** Every flattened sample belongs to some fragment. */
  lemma {:induction false} FlatFind(frags: seq<Fragment>, i: nat) returns (k: nat, j: nat)
    requires i < |Flat(frags)|
    ensures k < |frags| && j < |frags[k]|
    ensures i == |Flat(frags[..k])| + j
    decreases |frags|
  {
    var n := |frags| - 1;
    var before := Flat(frags[..n]);
    if i < |before| {
      k, j := FlatFind(frags[..n], i);
      assert frags[..n][..k] == frags[..k];
    } else {
      k, j := n, i - |before|;
    }
  }

  /** The chunk search of the demuxer ends at the chunk that holds the sample. */
  lemma {:induction false} LocateFinds(stsc: seq<StscEntry>, frags: seq<Fragment>, k: nat, j: nat, c: nat)
    requires forall x :: 0 <= x < |frags| ==> SamplesInChunk(stsc, x + 1) == |frags[x]|
    requires k < |frags| && j < |frags[k]| && c <= k
    ensures Locate(stsc, |frags|, |Flat(frags[..k])| + j, Place(c + 1, |Flat(frags[..c])|))
         == Some(Place(k + 1, |Flat(frags[..k])|))
    decreases k - c
  {
    if c < k {
      FlatStep(frags[..k], c);
      assert frags[..k][..c + 1] == frags[..c + 1] && frags[..k][..c] == frags[..c];
      LocateFinds(stsc, frags, k, j, c + 1);
    }
  }

  lemma {:induction false} SizesOfPart(frags: seq<Fragment>, k: nat, j: nat)
    requires k < |frags| && j < |frags[k]|
    ensures var b := |Flat(frags[..k])|;
            b + j <= |Flat(frags)| && Span(Sizes(Flat(frags)), b, b + j) == Span(Sizes(frags[k]), 0, j)
  {
    FlatAt(frags, k, j);
    if j > 0 {
      SizesOfPart(frags, k, j - 1);
      FlatAt(frags, k, j - 1);
    }
  }

  /** The demuxer finds the chunk of a sample and its offset in the chunk. */
  lemma {:induction false} PlaceAt(t: SampleTable, frags: seq<Fragment>, k: nat, j: nat)
    requires Describes(t, frags) && k < |frags| && j < |frags[k]|
    ensures var b := |Flat(frags[..k])|;
            && b + j < |t.stsz| && t.stsz[b + j] == frags[k][j].size
            && Locate(t.stsc, |t.co64|, b + j, Place(1, 0)) == Some(Place(k + 1, b))
            && Span(t.stsz, b, b + j) == Span(Sizes(frags[k]), 0, j)
  {
    FlatAt(frags, k, j);
    LocateFinds(t.stsc, frags, k, j, 0);
    SizesOfPart(frags, k, j);
  }

  /** The bytes of a sample lie that far into the file behind its chunk's offset. */
  lemma {:induction false} BytesAt(file: seq<bv8>, offsets: seq<nat>, src: seq<bv8>, frags: seq<Fragment>, k: nat, j: nat)
    requires |offsets| == |frags| && Readables(src, frags)
    requires LaidOut(file, offsets, Chunks(src, frags), |frags|)
    requires k < |frags| && j < |frags[k]|
    ensures ChunkAt(file, offsets[k] + Span(Sizes(frags[k]), 0, j), SampleBytes(src, frags[k][j]))
  {
    SampleInsideChunk(src, frags, k, j);
    PartAt(file, offsets[k], Chunks(src, frags)[k], Span(Sizes(frags[k]), 0, j), SampleBytes(src, frags[k][j]));
  }

  /** The demuxer finds the timing and sync data of a sample. */
  lemma {:induction false} TimingAt(t: SampleTable, frags: seq<Fragment>, i: nat)
    requires Describes(t, frags) && i < |Flat(frags)|
    ensures var s := Flat(frags)[i];
            && RunAt(t.stts, i) == Some(s.duration)
            && CtoAt(t.ctts, i) == Some(s.cto)
            && (SyncAt(t.stss, i) <==> s.isSync)
  {
    RunAtIsExpand(t.stts, i);
    if t.ctts.Some? {
      RunAtIsExpand(CttsRuns(t.ctts.value), i);
    }
  }

  lemma {:induction false} DemuxFrom(file: seq<bv8>, t: SampleTable, i: nat, place: Place, found: Demuxed)
    requires i < |t.stsz| && Locate(t.stsc, |t.co64|, i, Place(1, 0)) == Some(place)
    requires 1 <= place.chunk <= |t.co64| && place.firstSample <= i
    requires ChunkAt(file, t.co64[place.chunk - 1] + Span(t.stsz, place.firstSample, i), found.bytes)
    requires |found.bytes| == found.size == t.stsz[i]
    requires RunAt(t.stts, i) == Some(found.duration) && CtoAt(t.ctts, i) == Some(found.cto)
    requires SyncAt(t.stss, i) <==> found.isSync
    ensures DemuxSample(file, t, i) == Some(found)
  {
    ChunkAtSlice(file, t.co64[place.chunk - 1] + Span(t.stsz, place.firstSample, i), found.bytes);
  }

  lemma {:induction false} DemuxOneAt(file: seq<bv8>, t: SampleTable, src: seq<bv8>, frags: seq<Fragment>, k: nat, j: nat)
    requires Describes(t, frags) && Readables(src, frags)
    requires LaidOut(file, t.co64, Chunks(src, frags), |frags|)
    requires k < |frags| && j < |frags[k]|
    ensures |Flat(frags[..k])| + j < |t.stsz| && Readable(src, frags[k][j])
    ensures DemuxSample(file, t, |Flat(frags[..k])| + j) == Some(SourceSample(src, frags[k][j]))
  {
    FlatAt(frags, k, j);
    assert AllReadable(src, frags[k]);
    DemuxAt(file, t, src, frags, k, j, |Flat(frags[..k])| + j, SourceSample(src, frags[k][j]));
  }

  lemma {:induction false} DemuxAt(file: seq<bv8>, t: SampleTable, src: seq<bv8>, frags: seq<Fragment>, k: nat, j: nat, i: nat,
                                   found: Demuxed)
    requires Describes(t, frags) && Readables(src, frags)
    requires LaidOut(file, t.co64, Chunks(src, frags), |frags|)
    requires k < |frags| && j < |frags[k]| && i == |Flat(frags[..k])| + j < |Flat(frags)| && Flat(frags)[i] == frags[k][j]
    requires Readable(src, frags[k][j]) && found == SourceSample(src, frags[k][j])
    ensures i < |t.stsz| && DemuxSample(file, t, i) == Some(found)
  {
    PlaceAt(t, frags, k, j);
    BytesAt(file, t.co64, src, frags, k, j);
    TimingAt(t, frags, i);
    DemuxFrom(file, t, i, Place(k + 1, |Flat(frags[..k])|), found);
  }

  lemma {:induction false} DemuxOneSample(file: seq<bv8>, t: SampleTable, src: seq<bv8>, frags: seq<Fragment>, i: nat)
    requires Describes(t, frags) && Readables(src, frags)
    requires LaidOut(file, t.co64, Chunks(src, frags), |frags|)
    requires i < |Flat(frags)|
    ensures i < |t.stsz| && Readable(src, Flat(frags)[i])
    ensures DemuxSample(file, t, i) == Some(SourceSample(src, Flat(frags)[i]))
  {
    var k, j := FlatFind(frags, i);
    FlatAt(frags, k, j);
    DemuxOneAt(file, t, src, frags, k, j);
  }

  /**
    A table that describes the fragments, over a file that holds their chunks at the
    table's offsets, demuxes to exactly the source samples, in order and no others.
   */
  lemma {:induction false} DemuxGivesSource(file: seq<bv8>, t: SampleTable, src: seq<bv8>, frags: seq<Fragment>)
    requires Describes(t, frags) && Readables(src, frags)
    requires LaidOut(file, t.co64, Chunks(src, frags), |frags|)
    ensures AllReadable(src, Flat(frags))
    ensures Demux(file, t) == SourceTrack(src, Flat(frags))
  {
    forall i | 0 <= i < |Flat(frags)|
      ensures Readable(src, Flat(frags)[i])
      ensures Demux(file, t)[i] == Some(SourceSample(src, Flat(frags)[i]))
    {
      DemuxOneSample(file, t, src, frags, i);
    }
  }

  // ----- Writing the media data

  lemma {:induction false} ConcatStep(head: seq<bv8>, parts: seq<seq<bv8>>, j: nat)
    requires j < |parts|
    ensures head + Concat(parts, j) + parts[j] == head + Concat(parts, j + 1)
  {
  }

  // writeChunk; None when a source read fails
  method WriteChunk(out: OutFile, src: seq<bv8>, samples: Fragment) returns (chunkOff: Option<nat>)
    requires out.pos == |out.data|
    modifies out
    ensures out.pos == |out.data| >= |old(out.data)|
    ensures chunkOff.Some? <==> AllReadable(src, samples)
    ensures chunkOff.Some? ==>
      && chunkOff.value == |old(out.data)|
      && out.data == old(out.data) + Concat(Parts(src, samples), |samples|)
  {
    var start := out.pos;
    for j := 0 to |samples|
      invariant out.pos == |out.data| >= |old(out.data)|
      invariant forall x :: 0 <= x < j ==> Readable(src, samples[x])
      invariant AllReadable(src, samples) ==> out.data == old(out.data) + Concat(Parts(src, samples), j)
    {
      var s := samples[j];
      if s.srcOffset < 0 {
        return None;
      }
      // a copy that runs off the end of the source writes what there is and fails
      if s.size > 0 && s.srcOffset + s.size > |src| {
        if s.srcOffset < |src| {
          out.Write(src[s.srcOffset..]);
        }
        return None;
      }
      out.Write(SampleBytes(src, s));
      if AllReadable(src, samples) {
        ConcatStep(old(out.data), Parts(src, samples), j);
      }
    }
    return Some(start);
  }

  ghost function Cut(n: nat, limit: nat): nat {
    if n < limit then n else limit
  }

  /** Payload order: chunk i of the video, then chunk i of the audio. */
  ghost function Interleaved(v: seq<seq<bv8>>, a: seq<seq<bv8>>, n: nat): (p: seq<bv8>)
    ensures |p| == LengthOf(v, Cut(n, |v|)) + LengthOf(a, Cut(n, |a|))
  {
    if n == 0 then [] else
    Interleaved(v, a, n - 1)
    + Nth(v, n - 1) + Nth(a, n - 1)
  }

  ghost function Nth(chunks: seq<seq<bv8>>, i: nat): (c: seq<bv8>) {
    if i < |chunks| then chunks[i] else []
  }

  ghost function TotalSize(frags: seq<Fragment>): nat {
    Span(Sizes(Flat(frags)), 0, |Flat(frags)|)
  }

  lemma {:induction false} SpanConcat(a: seq<Uint32>, b: seq<Uint32>, n: nat)
    requires n <= |a| + |b|
    ensures Span(a + b, 0, n) == if n <= |a| then Span(a, 0, n) else Span(a, 0, |a|) + Span(b, 0, n - |a|)
  {
    if n > 0 {
      SpanConcat(a, b, n - 1);
    }
  }

  lemma {:induction false} TotalSizeStep(frags: seq<Fragment>, k: nat)
    requires k < |frags|
    ensures TotalSize(frags[..k + 1]) == TotalSize(frags[..k]) + Span(Sizes(frags[k]), 0, |frags[k]|)
  {
    FlatStep(frags, k);
    var a, b := Sizes(Flat(frags[..k])), Sizes(frags[k]);
    assert Sizes(Flat(frags[..k + 1])) == a + b;
    SpanConcat(a, b, |a| + |b|);
  }

  lemma {:induction false} ChunkLength(src: seq<bv8>, frags: seq<Fragment>, k: nat)
    requires Readables(src, frags) && k < |frags|
    ensures |Chunks(src, frags)[k]| == Span(Sizes(frags[k]), 0, |frags[k]|)
  {
    PartsLength(src, frags[k], |frags[k]|);
  }

  /** The chunks of a track add up to the sizes of its samples. */
  lemma {:induction false} ChunksLength(chunks: seq<seq<bv8>>, frags: seq<Fragment>, n: nat)
    requires n <= |frags| == |chunks|
    requires forall k :: 0 <= k < |frags| ==> |chunks[k]| == Span(Sizes(frags[k]), 0, |frags[k]|)
    ensures LengthOf(chunks, n) == TotalSize(frags[..n])
  {
    if n > 0 {
      ChunksLength(chunks, frags, n - 1);
      TotalSizeStep(frags, n - 1);
    }
  }

  lemma {:induction false} TrackLength(src: seq<bv8>, frags: seq<Fragment>)
    requires Readables(src, frags)
    ensures LengthOf(Chunks(src, frags), |frags|) == TotalSize(frags)
  {
    forall k | 0 <= k < |frags| ensures |Chunks(src, frags)[k]| == Span(Sizes(frags[k]), 0, |frags[k]|) {
      ChunkLength(src, frags, k);
    }
    ChunksLength(Chunks(src, frags), frags, |frags|);
    assert frags[..|frags|] == frags;
  }

  /** Appending to the file leaves its chunks where they are. */
  lemma {:induction false} LaidOutGrows(file: seq<bv8>, tail: seq<bv8>, offsets: seq<nat>, chunks: seq<seq<bv8>>, n: nat)
    requires n <= |chunks| && n <= |offsets|
    requires LaidOut(file, offsets, chunks, n)
    ensures LaidOut(file + tail, offsets, chunks, n)
  {
    forall k | 0 <= k < n ensures ChunkAt(file + tail, offsets[k], chunks[k]) {
      ChunkAtGrows(file, tail, offsets[k], chunks[k]);
    }
  }

  lemma {:induction false} LaidOutStep(file: seq<bv8>, offsets: seq<nat>, chunks: seq<seq<bv8>>)
    requires |offsets| < |chunks|
    requires LaidOut(file, offsets, chunks, |offsets|)
    ensures LaidOut(file + chunks[|offsets|], offsets + [|file|], chunks, |offsets| + 1)
  {
    LaidOutGrows(file, chunks[|offsets|], offsets, chunks, |offsets|);
    ChunkAtEnd(file, chunks[|offsets|]);
  }

  /** Patching bytes below every chunk leaves the chunks alone. */
  lemma {:induction false} LaidOutPatched(file: seq<bv8>, at: nat, patch: seq<bv8>, offsets: seq<nat>,
                                          chunks: seq<seq<bv8>>)
    requires |offsets| == |chunks| && at <= |file|
    requires forall k :: 0 <= k < |offsets| ==> at + |patch| <= offsets[k]
    requires LaidOut(file, offsets, chunks, |chunks|)
    ensures LaidOut(Overwrite(file, at, patch), offsets, chunks, |chunks|)
  {
    forall k | 0 <= k < |chunks| ensures ChunkAt(Overwrite(file, at, patch), offsets[k], chunks[k]) {
      ChunkAtPatched(file, at, patch, offsets[k], chunks[k]);
    }
  }

  datatype MdatResult = MdatResult(vOffsets: seq<nat>, aOffsets: seq<nat>, end: nat)

  /** One track's part of the streaming loop: its first n chunks are placed, all behind `low`. */
  ghost predicate Placed(data: seq<bv8>, low: nat, chunks: seq<seq<bv8>>, offsets: seq<nat>, n: nat) {
    && |offsets| == Cut(n, |chunks|)
    && LaidOut(data, offsets, chunks, |offsets|)
    && (forall k :: 0 <= k < |offsets| ==> offsets[k] >= low)
  }

  lemma {:induction false} PlacedGrows(data: seq<bv8>, tail: seq<bv8>, low: nat, chunks: seq<seq<bv8>>,
                                       offsets: seq<nat>, n: nat)
    requires Placed(data, low, chunks, offsets, n)
    ensures Placed(data + tail, low, chunks, offsets, n)
  {
    LaidOutGrows(data, tail, offsets, chunks, |offsets|);
  }

  lemma {:induction false} PlacedStep(data: seq<bv8>, low: nat, chunks: seq<seq<bv8>>, offsets: seq<nat>, n: nat)
    requires Placed(data, low, chunks, offsets, n) && n < |chunks| && low <= |data|
    ensures Placed(data + chunks[n], low, chunks, offsets + [|data|], n + 1)
  {
    LaidOutStep(data, offsets, chunks);
  }

  // one pass of the loop of writeMdat for one track
  method StreamTrack(out: OutFile, src: seq<bv8>, frags: seq<Fragment>, i: nat, offsets0: seq<nat>, ghost low: nat,
                     ghost chunks: seq<seq<bv8>>)
      returns (ok: bool, offsets: seq<nat>)
    requires out.pos == |out.data| && low <= |out.data|
    modifies out
    ensures out.pos == |out.data| >= |old(out.data)|
    ensures ok <==> (i < |frags| ==> AllReadable(src, frags[i]))
    ensures ok && Readables(src, frags) && chunks == Chunks(src, frags) ==>
      && out.data == old(out.data) + Nth(chunks, i)
      && (old(Placed(out.data, low, chunks, offsets0, i)) ==> Placed(out.data, low, chunks, offsets, i + 1))
  {
    offsets := offsets0;
    if i < |frags| {
      var off := WriteChunk(out, src, frags[i]);
      if off.None? {
        return false, offsets;
      }
      offsets := offsets + [off.value];
      if Readables(src, frags) && chunks == Chunks(src, frags) && old(Placed(out.data, low, chunks, offsets0, i)) {
        PlacedStep(old(out.data), low, chunks, offsets0, i);
      }
    }
    ok := true;
  }

  lemma {:induction false} PatchHeader(before: seq<bv8>, gap: seq<bv8>, payload: seq<bv8>, hdr: seq<bv8>)
    requires |gap| == |hdr| == 16
    ensures Overwrite(before + gap + payload, |before|, hdr) == before + hdr + payload
  {
  }

  datatype Streamed = Streamed(vOffsets: seq<nat>, aOffsets: seq<nat>)

  // the loop of writeMdat; None when a source read fails
  method StreamPayload(out: OutFile, vSrc: seq<bv8>, aSrc: seq<bv8>, vFrags: seq<Fragment>, aFrags: seq<Fragment>,
                       n: nat, ghost v: seq<seq<bv8>>, ghost a: seq<seq<bv8>>)
      returns (r: Option<Streamed>)
    requires out.pos == |out.data| && |vFrags| <= n && |aFrags| <= n
    requires Readables(vSrc, vFrags) && Readables(aSrc, aFrags) ==> v == Chunks(vSrc, vFrags) && a == Chunks(aSrc, aFrags)
    modifies out
    ensures out.pos == |out.data|
    ensures r.Some? <==> Readables(vSrc, vFrags) && Readables(aSrc, aFrags)
    ensures r.Some? ==>
      && out.data == old(out.data) + Interleaved(v, a, n)
      && Placed(out.data, |old(out.data)|, v, r.value.vOffsets, n)
      && Placed(out.data, |old(out.data)|, a, r.value.aOffsets, n)
  {
    ghost var head, low := out.data, |out.data|;
    ghost var readable := Readables(vSrc, vFrags) && Readables(aSrc, aFrags);
    var vOff: seq<nat> := [];
    var aOff: seq<nat> := [];
    for i := 0 to n
      invariant out.pos == |out.data| && low <= |out.data|
      invariant ReadableUpto(vSrc, vFrags, i) && ReadableUpto(aSrc, aFrags, i)
      invariant readable ==> Streaming(out.data, head, v, a, vOff, aOff, i)
    {
      var ok: bool;
      ok, vOff, aOff := StreamRound(out, vSrc, aSrc, vFrags, aFrags, i, vOff, aOff, head, v, a);
      ReadableStep(vSrc, vFrags, i);
      ReadableStep(aSrc, aFrags, i);
      if !ok {
        return None;
      }
    }
    ReadableAll(vSrc, vFrags, n);
    ReadableAll(aSrc, aFrags, n);
    return Some(Streamed(vOff, aOff));
  }

  /** The first i fragments can be read. */
  ghost predicate ReadableUpto(src: seq<bv8>, frags: seq<Fragment>, i: nat) {
    forall k :: 0 <= k < i && k < |frags| ==> AllReadable(src, frags[k])
  }

  lemma ReadableStep(src: seq<bv8>, frags: seq<Fragment>, i: nat)
    ensures i < |frags| && !AllReadable(src, frags[i]) ==> !Readables(src, frags)
    ensures ReadableUpto(src, frags, i) && (i < |frags| ==> AllReadable(src, frags[i])) ==> ReadableUpto(src, frags, i + 1)
  {
  }

  lemma ReadableAll(src: seq<bv8>, frags: seq<Fragment>, n: nat)
    requires n >= |frags| && ReadableUpto(src, frags, n)
    ensures Readables(src, frags)
  {
  }

  /** The file after i rounds of the loop of writeMdat. */
  ghost predicate Streaming(data: seq<bv8>, head: seq<bv8>, v: seq<seq<bv8>>, a: seq<seq<bv8>>,
                            vOff: seq<nat>, aOff: seq<nat>, i: nat) {
    && data == head + Interleaved(v, a, i)
    && Placed(data, |head|, v, vOff, i) && Placed(data, |head|, a, aOff, i)
  }

  // one round of the loop of writeMdat
  method StreamRound(out: OutFile, vSrc: seq<bv8>, aSrc: seq<bv8>, vFrags: seq<Fragment>, aFrags: seq<Fragment>, i: nat,
                     vOff0: seq<nat>, aOff0: seq<nat>, ghost head: seq<bv8>, ghost v: seq<seq<bv8>>, ghost a: seq<seq<bv8>>)
      returns (ok: bool, vOff: seq<nat>, aOff: seq<nat>)
    requires out.pos == |out.data| && |head| <= |out.data|
    modifies out
    ensures out.pos == |out.data| >= |old(out.data)|
    ensures ok <==> (i < |vFrags| ==> AllReadable(vSrc, vFrags[i])) && (i < |aFrags| ==> AllReadable(aSrc, aFrags[i]))
    ensures ok && Readables(vSrc, vFrags) && Readables(aSrc, aFrags) && v == Chunks(vSrc, vFrags) && a == Chunks(aSrc, aFrags) ==>
              old(Streaming(out.data, head, v, a, vOff0, aOff0, i)) ==> Streaming(out.data, head, v, a, vOff, aOff, i + 1)
  {
    ghost var d0 := out.data;
    ok, vOff := StreamTrack(out, vSrc, vFrags, i, vOff0, |head|, v);
    aOff := aOff0;
    if !ok {
      return;
    }
    ghost var d1 := out.data;
    ok, aOff := StreamTrack(out, aSrc, aFrags, i, aOff0, |head|, a);
    if ok && Streaming(d0, head, v, a, vOff0, aOff0, i) && d1 == d0 + Nth(v, i) && out.data == d1 + Nth(a, i) {
      InterleavedStep(head, v, a, i);
      PlacedGrows(d0, Nth(v, i), |head|, a, aOff0, i);
      if Placed(d1, |head|, v, vOff, i + 1) {
        PlacedGrows(d1, Nth(a, i), |head|, v, vOff, i + 1);
      }
    }
  }

  lemma {:induction false} InterleavedStep(head: seq<bv8>, v: seq<seq<bv8>>, a: seq<seq<bv8>>, i: nat)
    ensures head + Interleaved(v, a, i) + Nth(v, i) + Nth(a, i)
         == head + Interleaved(v, a, i + 1)
  {
  }

  /** The file after writeMdat: what was there, the header, and n rounds of chunks. */
  ghost predicate MdatWritten(data: seq<bv8>, before: seq<bv8>, total: nat, v: seq<seq<bv8>>, a: seq<seq<bv8>>, n: nat) {
    data == before + MdatHeader(total) + Interleaved(v, a, n)
  }

  /**
    What writeMdat promises: behind the bytes that were there, a header carrying 16 plus
    the sizes of all samples and then the chunks in turn, each at its recorded offset.
   */
  ghost predicate MdatFor(before: seq<bv8>, data: seq<bv8>, r: MdatResult, vSrc: seq<bv8>, aSrc: seq<bv8>,
                          vFrags: seq<Fragment>, aFrags: seq<Fragment>)
    requires Readables(vSrc, vFrags) && Readables(aSrc, aFrags)
  {
    && MdatWritten(data, before, 16 + TotalSize(vFrags) + TotalSize(aFrags), Chunks(vSrc, vFrags),
                   Chunks(aSrc, aFrags), if |vFrags| < |aFrags| then |aFrags| else |vFrags|)
    && r.end == |data| == |before| + 16 + TotalSize(vFrags) + TotalSize(aFrags)
    && |r.vOffsets| == |vFrags| && LaidOut(data, r.vOffsets, Chunks(vSrc, vFrags), |vFrags|)
    && |r.aOffsets| == |aFrags| && LaidOut(data, r.aOffsets, Chunks(aSrc, aFrags), |aFrags|)
  }

  lemma {:induction false} MdatIs(before: seq<bv8>, data: seq<bv8>, r: MdatResult, vSrc: seq<bv8>, aSrc: seq<bv8>,
                                  vFrags: seq<Fragment>, aFrags: seq<Fragment>, total: nat, n: nat)
    requires Readables(vSrc, vFrags) && Readables(aSrc, aFrags)
    requires n == if |vFrags| < |aFrags| then |aFrags| else |vFrags|
    requires MdatWritten(data, before, total, Chunks(vSrc, vFrags), Chunks(aSrc, aFrags), n)
    requires r.end == |data| == |before| + total
    requires |r.vOffsets| == |vFrags| && LaidOut(data, r.vOffsets, Chunks(vSrc, vFrags), |vFrags|)
    requires |r.aOffsets| == |aFrags| && LaidOut(data, r.aOffsets, Chunks(aSrc, aFrags), |aFrags|)
    ensures MdatFor(before, data, r, vSrc, aSrc, vFrags, aFrags)
  {
    MdatTotal(before, data, vSrc, aSrc, vFrags, aFrags, total, n);
  }

  lemma {:induction false} MdatTotal(before: seq<bv8>, data: seq<bv8>, vSrc: seq<bv8>, aSrc: seq<bv8>,
                                     vFrags: seq<Fragment>, aFrags: seq<Fragment>, total: nat, n: nat)
    requires Readables(vSrc, vFrags) && Readables(aSrc, aFrags) && n >= |vFrags| && n >= |aFrags|
    requires MdatWritten(data, before, total, Chunks(vSrc, vFrags), Chunks(aSrc, aFrags), n)
    requires |data| == |before| + total
    ensures total == 16 + TotalSize(vFrags) + TotalSize(aFrags)
  {
    TrackLength(vSrc, vFrags);
    TrackLength(aSrc, aFrags);
    MdatLength(data, before, total, Chunks(vSrc, vFrags), Chunks(aSrc, aFrags), n);
  }

  lemma {:induction false} MdatLength(data: seq<bv8>, before: seq<bv8>, total: nat,
                                      v: seq<seq<bv8>>, a: seq<seq<bv8>>, n: nat)
    requires MdatWritten(data, before, total, v, a, n) && n >= |v| && n >= |a|
    ensures |data| == |before| + 16 + LengthOf(v, |v|) + LengthOf(a, |a|)
  {
  }

  /** All sizes fit the 64 bits of the size field. */
  predicate Small(data: seq<bv8>) {
    |data| < 0x1_0000_0000_0000_0000
  }

  /** Whatever is written behind, a reader finds one mdat box that ends where the samples do. */
  ghost predicate MdatFound(before: seq<bv8>, data: seq<bv8>) {
    forall tail: seq<bv8> :: BoxAt(data + tail, |before|) == Some(Box(mdatKind, |before|, |before| + 16, |data|))
  }

  lemma {:induction false} WrittenIsFound(data: seq<bv8>, before: seq<bv8>, total: nat, v: seq<seq<bv8>>, a: seq<seq<bv8>>, n: nat)
    requires MdatWritten(data, before, total, v, a, n) && |data| == |before| + total && Small(data)
    ensures MdatFound(before, data)
  {
    HeaderIsFound(before, total, Interleaved(v, a, n));
  }

  lemma {:induction false} HeaderIsFound(before: seq<bv8>, total: nat, payload: seq<bv8>)
    requires total == 16 + |payload| < 0x1_0000_0000_0000_0000
    ensures MdatFound(before, before + MdatHeader(total) + payload)
  {
    var data := before + MdatHeader(total) + payload;
    forall tail: seq<bv8> ensures BoxAt(data + tail, |before|) == Some(Box(mdatKind, |before|, |before| + 16, |data|)) {
      MdatReadBack(before, total, payload, tail);
    }
  }

  // the start of writeMdat: hold 16 bytes for the header
  method ReserveHeader(out: OutFile) returns (ghost gap: seq<bv8>)
    requires out.pos == |out.data|
    modifies out
    ensures out.pos == |out.data| && |gap| == 16 && out.data == old(out.data) + gap
  {
    var zeros := seq(16, _ => 0);
    out.Write(zeros);
    gap := zeros;
  }

  // the end of writeMdat: write the header now that the total is known
  method BackPatch(out: OutFile, headerStart: nat, totalSize: nat, ghost before: seq<bv8>,
                   ghost gap: seq<bv8>, ghost v: seq<seq<bv8>>, ghost a: seq<seq<bv8>>, ghost n: nat, ghost vOff: seq<nat>, ghost aOff: seq<nat>)
    requires headerStart == |before| && |gap| == 16 && out.data == before + gap + Interleaved(v, a, n)
    requires |vOff| == |v| && Placed(out.data, headerStart + 16, v, vOff, |v|)
    requires |aOff| == |a| && Placed(out.data, headerStart + 16, a, aOff, |a|)
    modifies out`data
    ensures MdatWritten(out.data, before, totalSize, v, a, n)
    ensures LaidOut(out.data, vOff, v, |v|) && LaidOut(out.data, aOff, a, |a|)
  {
    var hdr := MdatHeader(totalSize);
    LaidOutPatched(out.data, headerStart, hdr, vOff, v);
    LaidOutPatched(out.data, headerStart, hdr, aOff, a);
    PatchHeader(before, gap, Interleaved(v, a, n), hdr);
    out.WriteAt(hdr, headerStart);
  }

  // writeMdat; None when a source read fails
  method WriteMdat(out: OutFile, vSrc: seq<bv8>, aSrc: seq<bv8>, vFrags: seq<Fragment>, aFrags: seq<Fragment>)
      returns (r: Option<MdatResult>)
    requires out.pos == |out.data|
    modifies out
    ensures out.pos == |out.data|
    ensures r.Some? <==> Readables(vSrc, vFrags) && Readables(aSrc, aFrags)
    ensures r.Some? ==> MdatFor(old(out.data), out.data, r.value, vSrc, aSrc, vFrags, aFrags)
    ensures r.Some? && Small(out.data) ==> MdatFound(old(out.data), out.data)
  {
    var headerStart := out.pos;
    ghost var gap := ReserveHeader(out);
    ghost var readable := Readables(vSrc, vFrags) && Readables(aSrc, aFrags);
    ghost var v := if readable then Chunks(vSrc, vFrags) else [];
    ghost var a := if readable then Chunks(aSrc, aFrags) else [];
    var n := |vFrags|;
    if |aFrags| > n {
      n := |aFrags|;
    }
    var streamed := StreamPayload(out, vSrc, aSrc, vFrags, aFrags, n, v, a);
    if streamed.None? {
      return None;
    }
    var vOff, aOff := streamed.value.vOffsets, streamed.value.aOffsets;
    var payloadEnd := out.pos;
    var totalSize := payloadEnd - headerStart;
    BackPatch(out, headerStart, totalSize, old(out.data), gap, v, a, n, vOff, aOff);
    r := Some(MdatResult(vOff, aOff, payloadEnd));
    MdatIs(old(out.data), out.data, r.value, vSrc, aSrc, vFrags, aFrags, totalSize, n);
    if Small(out.data) {
      WrittenIsFound(out.data, old(out.data), totalSize, v, a, n);
    }
  }
}
