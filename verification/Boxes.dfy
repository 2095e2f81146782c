/**
  The two boxes the muxer writes byte by byte, and how a reader finds them. A file is a
  sequence of boxes (section 4.2 of ISO/IEC 14496-12), each with its size and type in
  front; a size field of 1 says that a 64-bit size follows the type.
 */
module Boxes {
  import opened Common
  import Bytes

  // ----- Reading

  function Read32(data: seq<bv8>, at: nat): nat
    requires at + 4 <= |data|
  {
    data[at] as nat * 0x100_0000 + data[at + 1] as nat * 0x1_0000 + data[at + 2] as nat * 0x100 + data[at + 3] as nat
  }

  function Read64(data: seq<bv8>, at: nat): nat
    requires at + 8 <= |data|
  {
    Read32(data, at) * 0x1_0000_0000 + Read32(data, at + 4)
  }

  /** A box: its type, where it begins, where its payload begins, and where the next box begins. */
  datatype Box = Box(kind: seq<bv8>, at: nat, payload: nat, end: nat)

  function BoxAt(data: seq<bv8>, at: nat): (b: Option<Box>)
    ensures b.Some? ==> at < b.value.payload <= b.value.end <= |data|
  {
    if at + 8 > |data| then None
    else
      var size, kind := Read32(data, at), data[at + 4..at + 8];
      if size == 0 then Some(Box(kind, at, at + 8, |data|))
      else if size == 1 then
        if at + 16 > |data| || Read64(data, at + 8) < 16 || at + Read64(data, at + 8) > |data| then None
        else Some(Box(kind, at, at + 16, at + Read64(data, at + 8)))
      else if size < 8 || at + size > |data| then None
      else Some(Box(kind, at, at + 8, at + size))
  }

  /** The walk over a file from one box to the next. */
  function BoxesFrom(data: seq<bv8>, at: nat): seq<Box>
    decreases if at < |data| then |data| - at else 0
  {
    if at >= |data| || BoxAt(data, at).None? then []
    else [BoxAt(data, at).value] + BoxesFrom(data, BoxAt(data, at).value.end)
  }

  /** The compatible brands of a file type box stand behind its major brand and version (4.3). */
  function Brands(data: seq<bv8>, lo: nat, hi: nat): seq<seq<bv8>>
    requires lo <= hi <= |data|
    decreases hi - lo
  {
    if lo + 4 > hi then [] else [data[lo..lo + 4]] + Brands(data, lo + 4, hi)
  }

  const ftypKind: seq<bv8> := [0x66, 0x74, 0x79, 0x70]
  const mdatKind: seq<bv8> := [0x6d, 0x64, 0x61, 0x74]
  const isom: seq<bv8> := [0x69, 0x73, 0x6f, 0x6d]
  const mp41: seq<bv8> := [0x6d, 0x70, 0x34, 0x31]
  const mp42: seq<bv8> := [0x6d, 0x70, 0x34, 0x32]
  const avc1: seq<bv8> := [0x61, 0x76, 0x63, 0x31]

  // ----- Writing

  /** PutUint32 and PutUint64: the last bytes of the number, the most significant first. */
  function BigEndian(n: nat, width: nat): (b: seq<bv8>)
    ensures |b| == width
  {
    if width == 0 then [] else BigEndian(n / 256, width - 1) + [(n % 256) as bv8]
  }

  /** The number the bytes stand for, digit by digit. */
  ghost function Value(b: seq<bv8>): nat {
    if b == [] then 0 else Value(b[..|b| - 1]) * 256 + b[|b| - 1] as nat
  }

  ghost function Power(k: nat): nat {
    if k == 0 then 1 else 256 * Power(k - 1)
  }

  lemma ValueSnoc(b: seq<bv8>, x: bv8)
    ensures Value(b + [x]) == Value(b) * 256 + x as nat
  {
    assert (b + [x])[..|b|] == b;
  }

  lemma {:induction false} ValueBack(n: nat, width: nat)
    requires n < Power(width)
    ensures Value(BigEndian(n, width)) == n
  {
    if width > 0 {
      ValueBack(n / 256, width - 1);
      ValueSnoc(BigEndian(n / 256, width - 1), (n % 256) as bv8);
      Bytes.ByteOf(n % 256);
    }
  }

  lemma {:induction false} ValueFour(a: bv8, b: bv8, c: bv8, d: bv8, more: seq<bv8>)
    ensures Value(more + [a] + [b] + [c] + [d])
         == Value(more) * 0x1_0000_0000 + (a as nat * 0x100_0000 + b as nat * 0x1_0000 + c as nat * 0x100 + d as nat)
  {
    ValueSnoc(more, a);
    ValueSnoc(more + [a], b);
    ValueSnoc(more + [a] + [b], c);
    ValueSnoc(more + [a] + [b] + [c], d);
  }

  lemma {:induction false} ReadIsValue(data: seq<bv8>, lo: nat, at: nat)
    requires lo <= at && at + 4 <= |data|
    ensures Value(data[lo..at + 4]) == Value(data[lo..at]) * 0x1_0000_0000 + Read32(data, at)
  {
    assert data[lo..at + 4] == data[lo..at] + [data[at]] + [data[at + 1]] + [data[at + 2]] + [data[at + 3]];
    ValueFour(data[at], data[at + 1], data[at + 2], data[at + 3], data[lo..at]);
  }

  /** A 32-bit field written and read back, and a 64-bit one. */
  lemma {:induction false} ReadBack32(before: seq<bv8>, n: nat, after: seq<bv8>)
    requires n < 0x1_0000_0000
    ensures Read32(before + BigEndian(n, 4) + after, |before|) == n
  {
    var data, at := before + BigEndian(n, 4) + after, |before|;
    assert data[at..at] == [] && data[at..at + 4] == BigEndian(n, 4);
    ReadIsValue(data, at, at);
    PowerFour();
    ValueBack(n, 4);
  }

  lemma {:induction false} ReadBack64(before: seq<bv8>, n: nat, after: seq<bv8>)
    requires n < 0x1_0000_0000_0000_0000
    ensures Read64(before + BigEndian(n, 8) + after, |before|) == n
  {
    var data, at := before + BigEndian(n, 8) + after, |before|;
    assert data[at..at] == [] && data[at..at + 4 + 4] == BigEndian(n, 8);
    ReadIsValue(data, at, at);
    ReadIsValue(data, at, at + 4);
    PowerFour();
    ValueBack(n, 8);
  }

  lemma PowerFour()
    ensures Power(4) == 0x1_0000_0000 && Power(8) == 0x1_0000_0000_0000_0000
  {
    assert Power(2) == 256 * Power(1) == 0x1_0000;
    assert Power(4) == 256 * Power(3) && Power(3) == 256 * Power(2);
    assert Power(6) == 256 * Power(5) && Power(5) == 256 * Power(4);
    assert Power(8) == 256 * Power(7) && Power(7) == 256 * Power(6);
  }

  /** The large-size mdat header: size field 1, type 'mdat', then the 64-bit total. */
  function MdatHeader(total: nat): (b: seq<bv8>)
    ensures |b| == 16
  {
    BigEndian(1, 4) + [0x6d, 0x64, 0x61, 0x74] + BigEndian(total, 8)
  }

  /** A size field, written in front of the rest, is read back, and so is the type behind it. */
  lemma {:induction false} SizeReadBack(before: seq<bv8>, size: nat, kind: seq<bv8>, rest: seq<bv8>)
    requires size < 0x1_0000_0000 && |kind| == 4
    ensures var data, at := before + BigEndian(size, 4) + kind + rest, |before|;
            Read32(data, at) == size && data[at + 4..at + 8] == kind
  {
    ReadBack32(before, size, kind + rest);
    assert before + BigEndian(size, 4) + (kind + rest) == before + BigEndian(size, 4) + kind + rest;
  }

  lemma {:induction false} LargeSizeReadBack(before: seq<bv8>, total: nat, rest: seq<bv8>)
    requires total < 0x1_0000_0000_0000_0000
    ensures var data, at := before + MdatHeader(total) + rest, |before|;
            Read32(data, at) == 1 && data[at + 4..at + 8] == mdatKind && Read64(data, at + 8) == total
  {
    var front := before + BigEndian(1, 4) + mdatKind;
    assert before + MdatHeader(total) + rest == front + BigEndian(total, 8) + rest;
    ReadBack64(front, total, rest);
    SizeReadBack(before, 1, mdatKind, BigEndian(total, 8) + rest);
    assert front + (BigEndian(total, 8) + rest) == front + BigEndian(total, 8) + rest;
  }

  /** A reader finds the box where it was written, whatever follows. */
  lemma {:induction false} MdatReadBack(before: seq<bv8>, total: nat, payload: seq<bv8>, tail: seq<bv8>)
    requires total == 16 + |payload| < 0x1_0000_0000_0000_0000
    ensures var data := before + MdatHeader(total) + payload + tail;
            BoxAt(data, |before|) == Some(Box(mdatKind, |before|, |before| + 16, |before| + total))
  {
    LargeSizeReadBack(before, total, payload + tail);
    assert before + MdatHeader(total) + (payload + tail) == before + MdatHeader(total) + payload + tail;
  }

  // writeProgressiveFtyp: the box as it is built up
  function ProgressiveFtyp(): (b: seq<bv8>) {
    var body := [0x6d, 0x70, 0x34, 0x32] + [0, 0, 0, 0]
                + [0x69, 0x73, 0x6f, 0x6d] + [0x6d, 0x70, 0x34, 0x31] + [0x6d, 0x70, 0x34, 0x32] + [0x61, 0x76, 0x63, 0x31];
    BigEndian(8 + |body|, 4) + [0x66, 0x74, 0x79, 0x70] + body
  }

  /** A progressive file type box of 32 bytes: major brand mp42, and no brand of a fragmented file. */
  lemma {:induction false} FtypReadBack(tail: seq<bv8>)
    ensures |ProgressiveFtyp()| == 32
    ensures var data := ProgressiveFtyp() + tail;
            && BoxAt(data, 0) == Some(Box(ftypKind, 0, 8, 32))
            && data[8..12] == mp42 && Brands(data, 16, 32) == [isom, mp41, mp42, avc1]
  {
    FtypParts();
    FtypParsed(BigEndian(32, 4), [0, 0, 0, 0], isom + mp41 + mp42 + avc1, tail);
    BrandsBehind(BigEndian(32, 4) + ftypKind + mp42 + [0, 0, 0, 0], tail);
  }

  lemma {:induction false} FtypParts()
    ensures ProgressiveFtyp() == BigEndian(32, 4) + ftypKind + mp42 + [0, 0, 0, 0] + (isom + mp41 + mp42 + avc1)
  {
  }

  lemma {:induction false} FtypParsed(size: seq<bv8>, version: seq<bv8>, brands: seq<bv8>, tail: seq<bv8>)
    requires size == BigEndian(32, 4) && |version| == 4 && |brands| == 16
    ensures var data := size + ftypKind + mp42 + version + brands + tail;
            BoxAt(data, 0) == Some(Box(ftypKind, 0, 8, 32)) && data[8..12] == mp42
  {
    SizeReadBack([], 32, ftypKind, mp42 + version + brands + tail);
    assert [] + size + ftypKind + (mp42 + version + brands + tail) == size + ftypKind + mp42 + version + brands + tail;
  }

  lemma {:induction false} BrandsBehind(front: seq<bv8>, tail: seq<bv8>)
    requires |front| == 16
    ensures Brands(front + (isom + mp41 + mp42 + avc1) + tail, 16, 32) == [isom, mp41, mp42, avc1]
  {
    var data := front + (isom + mp41 + mp42 + avc1) + tail;
    assert data[16..20] == isom && data[20..24] == mp41 && data[24..28] == mp42 && data[28..32] == avc1;
    FourBrands(data);
  }

  lemma {:induction false} FourBrands(data: seq<bv8>)
    requires |data| >= 32
    ensures Brands(data, 16, 32) == [data[16..20], data[20..24], data[24..28], data[28..32]]
  {
    assert Brands(data, 28, 32) == [data[28..32]] + Brands(data, 32, 32) == [data[28..32]];
    assert Brands(data, 24, 32) == [data[24..28]] + Brands(data, 28, 32);
    assert Brands(data, 20, 32) == [data[20..24]] + Brands(data, 24, 32);
  }

  lemma {:induction false} WalkTwo(data: seq<bv8>, a: Box, b: Box)
    requires BoxAt(data, 0) == Some(a) && a.end < |data| && BoxAt(data, a.end) == Some(b)
    ensures BoxesFrom(data, 0) == [a, b] + BoxesFrom(data, b.end)
  {
    var rest := BoxesFrom(data, b.end);
    assert BoxesFrom(data, a.end) == [b] + rest;
    assert [a] + ([b] + rest) == [a, b] + rest;
  }
}
