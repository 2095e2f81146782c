/** The string functions of the settings grammar, on ASCII text. */
module Texts {

  predicate IsSpace(c: char) {
    c == ' ' || c == '\t' || c == '\n' || c == '\r' || c == 11 as char || c == 12 as char
  }

  function LowerChar(c: char): char {
    if 'A' <= c <= 'Z' then ((c as int) + 32) as char else c
  }

  function Lower(s: string): (r: string)
    ensures |r| == |s|
  {
    if s == "" then "" else Lower(s[..|s| - 1]) + [LowerChar(s[|s| - 1])]
  }

  function TrimRight(s: string): string {
    if s != "" && IsSpace(s[|s| - 1]) then TrimRight(s[..|s| - 1]) else s
  }

  /** The place of the first character that is not a space. */
  function SpacesBefore(s: string, i: nat): (k: nat)
    requires i <= |s|
    ensures i <= k <= |s|
    decreases |s| - i
  {
    if i < |s| && IsSpace(s[i]) then SpacesBefore(s, i + 1) else i
  }

  function Trim(s: string): string {
    TrimRight(s[SpacesBefore(s, 0)..])
  }

  /** The place of the first c from i on, or the length. */
  function IndexFrom(s: string, c: char, i: nat): (k: nat)
    requires i <= |s|
    ensures i <= k <= |s|
    ensures k < |s| ==> s[k] == c
    ensures forall j :: i <= j < k ==> s[j] != c
    decreases |s| - i
  {
    if i == |s| || s[i] == c then i else IndexFrom(s, c, i + 1)
  }

  function Index(s: string, c: char): nat {
    IndexFrom(s, c, 0)
  }

  predicate Lacks(s: string, c: char) {
    forall i :: 0 <= i < |s| ==> s[i] != c
  }

  /** Nothing to trim at either end. */
  predicate Tight(s: string) {
    s == "" || (!IsSpace(s[0]) && !IsSpace(s[|s| - 1]))
  }

  predicate NoCapital(s: string) {
    forall i :: 0 <= i < |s| ==> LowerChar(s[i]) == s[i]
  }

  lemma {:induction false} TrimTight(s: string)
    requires Tight(s)
    ensures Trim(s) == s
  {
    assert SpacesBefore(s, 0) == 0;
    assert s[0..] == s;
  }

  lemma {:induction false} LowerAt(s: string, i: nat)
    requires i < |s|
    ensures Lower(s)[i] == LowerChar(s[i])
  {
    if i < |s| - 1 {
      LowerAt(s[..|s| - 1], i);
    }
  }

  lemma {:induction false} LowerSame(s: string)
    requires NoCapital(s)
    ensures Lower(s) == s
  {
    forall i | 0 <= i < |s| ensures Lower(s)[i] == s[i] {
      LowerAt(s, i);
    }
  }

  lemma {:induction false} LowerHasNoCapital(s: string)
    ensures NoCapital(Lower(s))
  {
    forall i | 0 <= i < |s| ensures LowerChar(Lower(s)[i]) == Lower(s)[i] {
      LowerAt(s, i);
    }
  }

  lemma {:induction false} IndexAfter(a: string, c: char, b: string)
    requires Lacks(a, c)
    ensures Index(a + [c] + b, c) == |a|
  {
    var s := a + [c] + b;
    assert s[|a|] == c;
    assert forall j :: 0 <= j < |a| ==> s[j] == a[j];
  }

  /** strings.Join. */
  function Join(parts: seq<string>, sep: char): string {
    if parts == [] then ""
    else if |parts| == 1 then parts[0]
    else Join(parts[..|parts| - 1], sep) + [sep] + parts[|parts| - 1]
  }

  lemma {:induction false} JoinMore(parts: seq<string>, sep: char, p: string)
    ensures Join(parts + [p], sep) == if parts == [] then p else Join(parts, sep) + [sep] + p
  {
    assert (parts + [p])[..|parts + [p]| - 1] == parts;
  }

  // ----- Splitting

  /** Whether the character at the second place separates, for a piece begun at the first. */
  type Cut = (nat, nat) -> bool

  /** The finished pieces of the first i characters, and where the open piece begins. */
  ghost function Pieces(s: string, cut: Cut, i: nat): (r: (seq<string>, nat))
    requires i <= |s|
    ensures r.1 <= i
  {
    if i == 0 then ([], 0) else
    var (done, start) := Pieces(s, cut, i - 1);
    if cut(start, i - 1) then (done + [s[start..i - 1]], i) else (done, start)
  }

  ghost function Split(s: string, cut: Cut): seq<string> {
    var (done, start) := Pieces(s, cut, |s|);
    done + [s[start..]]
  }

  /** The part stands in s at this place, nothing cuts inside it, and it ends s or a cut follows. */
  ghost predicate Stands(s: string, cut: Cut, at: nat, part: string) {
    && at + |part| <= |s| && s[at..at + |part|] == part
    && (forall i: nat :: at <= i < at + |part| ==> !cut(at, i))
    && (at + |part| < |s| ==> cut(at, at + |part|))
  }

  lemma {:induction false} InsidePart(s: string, cut: Cut, at: nat, part: string, done: seq<string>, k: nat)
    requires Stands(s, cut, at, part) && Pieces(s, cut, at) == (done, at) && k <= |part|
    ensures Pieces(s, cut, at + k) == (done, at)
  {
    if k > 0 {
      InsidePart(s, cut, at, part, done, k - 1);
    }
  }

  /** Where the m-th part begins. */
  ghost function Place(parts: seq<string>, m: nat): nat
    requires m <= |parts|
  {
    if m == 0 then 0 else Place(parts, m - 1) + |parts[m - 1]| + 1
  }

  ghost predicate AllStand(s: string, cut: Cut, parts: seq<string>) {
    && parts != [] && Place(parts, |parts|) == |s| + 1
    && forall m: nat :: m < |parts| ==> PartStands(s, cut, parts, m)
  }

  ghost predicate PartStands(s: string, cut: Cut, parts: seq<string>, m: nat)
    requires m < |parts|
  {
    Stands(s, cut, Place(parts, m), parts[m])
  }

  lemma {:induction false} PlaceGrows(parts: seq<string>, m: nat, n: nat)
    requires m < n <= |parts|
    ensures Place(parts, m) + |parts[m]| + 1 <= Place(parts, n)
  {
    if m < n - 1 {
      PlaceGrows(parts, m, n - 1);
    }
  }

  lemma {:induction false} PiecesAt(s: string, cut: Cut, parts: seq<string>, m: nat)
    requires AllStand(s, cut, parts) && m < |parts|
    ensures Place(parts, m) <= |s| && Pieces(s, cut, Place(parts, m)) == (parts[..m], Place(parts, m))
  {
    PlaceGrows(parts, m, |parts|);
    if m > 0 {
      PiecesAt(s, cut, parts, m - 1);
      var at := Place(parts, m - 1);
      assert PartStands(s, cut, parts, m - 1);
      NextPiece(s, cut, at, parts[m - 1], parts[..m - 1]);
      assert parts[..m - 1] + [parts[m - 1]] == parts[..m];
    }
  }

  lemma {:induction false} NextPiece(s: string, cut: Cut, at: nat, part: string, done: seq<string>)
    requires Stands(s, cut, at, part) && Pieces(s, cut, at) == (done, at) && at + |part| < |s|
    ensures Pieces(s, cut, at + |part| + 1) == (done + [part], at + |part| + 1)
  {
    InsidePart(s, cut, at, part, done, |part|);
  }

  /** Splitting gives back parts that stand in the string one after the other. */
  lemma {:induction false} SplitStanding(s: string, cut: Cut, parts: seq<string>)
    requires AllStand(s, cut, parts)
    ensures Split(s, cut) == parts
  {
    var m := |parts| - 1;
    PiecesAt(s, cut, parts, m);
    var at := Place(parts, m);
    assert PartStands(s, cut, parts, m);
    InsidePart(s, cut, at, parts[m], parts[..m], |parts[m]|);
    assert s[at..] == s[at..at + |parts[m]|];
    assert parts[..m] + [parts[m]] == parts;
  }

  /** In the joined string, each part is where it should be, with a separator before the next. */
  lemma {:induction false} JoinPlaces(parts: seq<string>, sep: char, m: nat)
    requires m < |parts|
    ensures var s, at := Join(parts, sep), Place(parts, m);
            && |s| + 1 == Place(parts, |parts|)
            && at + |parts[m]| <= |s| && s[at..at + |parts[m]|] == parts[m]
            && (m < |parts| - 1 ==> at + |parts[m]| < |s| && s[at + |parts[m]|] == sep)
            && (m == |parts| - 1 ==> at + |parts[m]| == |s|)
  {
    var n := |parts| - 1;
    if n > 0 {
      var init := parts[..n];
      JoinPlaces(init, sep, if m < n then m else n - 1);
      PlaceInit(parts, n);
      PlaceInit(parts, n - 1);
      PlaceInit(parts, m);
      var s, at := Join(parts, sep), Place(parts, m);
      assert s == Join(init, sep) + [sep] + parts[n];
      if m < n {
        assert s[at..at + |parts[m]|] == Join(init, sep)[at..at + |parts[m]|];
      }
    }
  }

  lemma {:induction false} PlaceInit(parts: seq<string>, m: nat)
    requires m < |parts|
    ensures Place(parts[..|parts| - 1], m) == Place(parts, m)
  {
    if m > 0 {
      PlaceInit(parts, m - 1);
    }
  }

  /** strings.Split on one character. */
  function CutAt(s: string, sep: char): Cut {
    (start: nat, i: nat) => i < |s| && s[i] == sep
  }

  lemma {:induction false} SplitJoin(parts: seq<string>, sep: char)
    requires parts != [] && forall m :: 0 <= m < |parts| ==> Lacks(parts[m], sep)
    ensures Split(Join(parts, sep), CutAt(Join(parts, sep), sep)) == parts
  {
    var s := Join(parts, sep);
    var cut := CutAt(s, sep);
    forall m: nat | m < |parts| ensures PartStands(s, cut, parts, m) {
      JoinPlaces(parts, sep, m);
      var at := Place(parts, m);
      forall i: nat | at <= i < at + |parts[m]| ensures !cut(at, i) {
        assert s[i] == s[at..at + |parts[m]|][i - at] == parts[m][i - at];
      }
    }
    JoinPlaces(parts, sep, 0);
    SplitStanding(s, cut, parts);
  }

  method SplitByChar(s: string, sep: char) returns (parts: seq<string>)
    ensures parts == Split(s, CutAt(s, sep))
  {
    parts := [];
    var start := 0;
    for i := 0 to |s|
      invariant start <= i && (parts, start) == Pieces(s, CutAt(s, sep), i)
    {
      if s[i] == sep {
        parts, start := parts + [s[start..i]], i + 1;
      }
    }
    parts := parts + [s[start..]];
  }
}
