/**
  Titles as sorted token sets, and the similarity that repost folding and search
  session dedup share. Floating point is modelled by reals.
 */
module TitleTokens {
  import opened Common

  const minClusterTokens := 3
  const jaccardThreshold := 0.72
  const jaccardThresholdSameAuthor := 0.72
  const containmentThresholdSameAuthor := 0.55
  const minContainmentTokens := 15

  const repostStopwords: set<string> := {
    "the", "and", "for", "you", "are", "was", "with", "that", "this", "have", "has", "but",
    "not", "can", "all", "got", "why", "what", "who", "how", "when", "where", "his", "her",
    "she", "him", "they", "them", "their", "our", "its", "into", "from", "more", "most", "some",
    "any", "will", "would", "could", "should", "just", "like", "only", "also", "very", "much",
    "many", "one", "two", "out", "off", "now", "new", "old", "yes", "let", "may",
    "see", "way", "use", "did", "had", "hey", "ive", "youre", "dont",
    "yours", "mine", "ours", "ourselves", "theirs", "themselves", "myself", "yourself",
    "himself", "herself", "itself", "post", "comment", "reddit", "sub", "subreddit"
  }

  // ----- The order of strings

  /** Byte-wise lexicographic order on what follows a common prefix of length i. */
  function LessFrom(a: string, b: string, i: nat): bool
    requires i <= |a| && i <= |b|
    decreases |a| - i
  {
    if i == |b| then false
    else if i == |a| then true
    else if a[i] != b[i] then a[i] < b[i]
    else LessFrom(a, b, i + 1)
  }

  function Less(a: string, b: string): bool {
    LessFrom(a, b, 0)
  }

  lemma {:induction false} LessIsTotal(a: string, b: string, i: nat)
    requires i <= |a| && i <= |b| && a[..i] == b[..i]
    ensures LessFrom(a, b, i) || LessFrom(b, a, i) || a == b
    decreases |a| - i
  {
    if i < |a| && i < |b| && a[i] == b[i] {
      assert a[..i + 1] == a[..i] + [a[i]] && b[..i + 1] == b[..i] + [b[i]];
      LessIsTotal(a, b, i + 1);
    } else if i == |a| == |b| {
      assert a == a[..i] && b == b[..i];
    }
  }

  lemma {:induction false} LessIsStrict(a: string, b: string, i: nat)
    requires i <= |a| && i <= |b| && LessFrom(a, b, i)
    ensures !LessFrom(b, a, i) && a != b
    decreases |a| - i
  {
    if i < |a| && a[i] == b[i] {
      LessIsStrict(a, b, i + 1);
    }
  }

  lemma {:induction false} LessIsTransitive(a: string, b: string, c: string, i: nat)
    requires i <= |a| && i <= |b| && i <= |c| && LessFrom(a, b, i) && LessFrom(b, c, i)
    ensures LessFrom(a, c, i)
    decreases |a| - i
  {
    if i < |a| && a[i] == b[i] && b[i] == c[i] {
      LessIsTransitive(a, b, c, i + 1);
    }
  }

  // ----- Sorted token lists

  ghost predicate At(s: seq<string>, i: nat, x: string) {
    i < |s| && s[i] == x
  }

  ghost function Elems(s: seq<string>): set<string> {
    set x | x in s
  }

  /** Strictly increasing. */
  ghost predicate StrictlySorted(s: seq<string>) {
    s == [] || (StrictlySorted(s[..|s| - 1]) && AllBelow(s[..|s| - 1], s[|s| - 1]))
  }

  ghost predicate AllBelow(s: seq<string>, x: string) {
    forall y :: y in s ==> Less(y, x)
  }

  lemma {:induction false} SortedCut(s: seq<string>, i: nat, j: nat)
    requires StrictlySorted(s) && i < j < |s|
    ensures Less(s[i], s[j])
  {
    if j == |s| - 1 {
      assert s[..|s| - 1][i] == s[i];
    } else {
      SortedCut(s[..|s| - 1], i, j);
    }
  }

  lemma {:induction false} ElemsSize(s: seq<string>)
    requires StrictlySorted(s)
    ensures |Elems(s)| == |s|
  {
    if s != [] {
      var init, last := s[..|s| - 1], s[|s| - 1];
      ElemsSize(init);
      if last in init {
        LessIsStrict(last, last, 0);
      }
      assert Elems(s) == Elems(init) + {last};
    }
  }

  function InsertToken(s: seq<string>, x: string): (r: seq<string>) {
    if s == [] || Less(s[|s| - 1], x) then s + [x]
    else if s[|s| - 1] == x then s
    else InsertToken(s[..|s| - 1], x) + [s[|s| - 1]]
  }

  function SortTokens(s: seq<string>): (r: seq<string>) {
    if s == [] then [] else InsertToken(SortTokens(s[..|s| - 1]), s[|s| - 1])
  }

  lemma {:induction false} ElemsMore(s: seq<string>)
    requires s != []
    ensures Elems(s) == Elems(s[..|s| - 1]) + {s[|s| - 1]}
  {
    assert s == s[..|s| - 1] + [s[|s| - 1]];
  }

  lemma {:induction false} InsertElems(s: seq<string>, x: string)
    ensures Elems(InsertToken(s, x)) == Elems(s) + {x}
  {
    if s != [] {
      var init, last := s[..|s| - 1], s[|s| - 1];
      assert Elems(s) == Elems(init) + {last};
      if !Less(last, x) && last != x {
        InsertElems(init, x);
        assert Elems(InsertToken(init, x) + [last]) == Elems(InsertToken(init, x)) + {last};
      }
    }
  }

  lemma {:induction false} SortedMore(s: seq<string>, x: string)
    requires StrictlySorted(s) && AllBelow(s, x)
    ensures StrictlySorted(s + [x])
  {
    assert (s + [x])[..|s + [x]| - 1] == s;
  }

  lemma {:induction false} InsertSorted(s: seq<string>, x: string)
    requires StrictlySorted(s)
    ensures StrictlySorted(InsertToken(s, x))
  {
    if s == [] {
      assert InsertToken(s, x) == [x];
    } else {
      var init, last := s[..|s| - 1], s[|s| - 1];
      if Less(last, x) {
        forall y | y in s ensures Less(y, x) {
          if y != last {
            assert y in init;
            LessIsTransitive(y, last, x, 0);
          }
        }
        SortedMore(s, x);
      } else if last != x {
        LessIsTotal(last, x, 0);
        InsertSorted(init, x);
        InsertElems(init, x);
        var r := InsertToken(init, x);
        forall y | y in r ensures Less(y, last) {
          assert y in Elems(r);
        }
        SortedMore(r, last);
      }
    }
  }

  lemma {:induction false} SortTokensIs(s: seq<string>)
    ensures StrictlySorted(SortTokens(s)) && Elems(SortTokens(s)) == Elems(s)
  {
    if s != [] {
      var init := s[..|s| - 1];
      SortTokensIs(init);
      InsertSorted(SortTokens(init), s[|s| - 1]);
      InsertElems(SortTokens(init), s[|s| - 1]);
      ElemsMore(s);
    }
  }

  /** A set has one sorted list, so equal token sets give equal lists. */
  lemma {:induction false} SortedListUnique(s: seq<string>, t: seq<string>)
    requires StrictlySorted(s) && StrictlySorted(t) && Elems(s) == Elems(t)
    ensures s == t
  {
    ElemsSize(s);
    ElemsSize(t);
    if s != [] {
      var a, b := s[|s| - 1], t[|t| - 1];
      SameGreatest(s, t);
      ElemsInit(s);
      ElemsInit(t);
      SortedListUnique(s[..|s| - 1], t[..|t| - 1]);
      assert s == s[..|s| - 1] + [a] && t == t[..|t| - 1] + [b];
    }
  }

  lemma {:induction false} SameGreatest(s: seq<string>, t: seq<string>)
    requires StrictlySorted(s) && StrictlySorted(t) && Elems(s) == Elems(t) && s != [] && t != []
    ensures s[|s| - 1] == t[|t| - 1]
  {
    var a, b := s[|s| - 1], t[|t| - 1];
    if a != b {
      assert a in Elems(t) && b in Elems(s);
      assert a in t[..|t| - 1] && b in s[..|s| - 1];
      LessIsStrict(a, b, 0);
    }
  }

  lemma {:induction false} ElemsInit(s: seq<string>)
    requires StrictlySorted(s) && s != []
    ensures Elems(s[..|s| - 1]) == Elems(s) - {s[|s| - 1]}
  {
    var init, last := s[..|s| - 1], s[|s| - 1];
    assert Elems(s) == Elems(init) + {last};
    if last in init {
      LessIsStrict(last, last, 0);
    }
  }

  // ----- Titles

  /** Letters and digits, lowercased; anything else separates. */
  function FoldChar(r: char): char {
    if 'a' <= r <= 'z' || '0' <= r <= '9' then r
    else if 'A' <= r <= 'Z' then ((r as int) + 32) as char
    else ' '
  }

  /** strings.Fields on a string whose only white space is ' ': the finished fields and the open one. */
  ghost function Split(s: string): (seq<string>, string) {
    if s == "" then ([], "") else
    var (fields, open), c := Split(s[..|s| - 1]), s[|s| - 1];
    if c != ' ' then (fields, open + [c])
    else if open == "" then (fields, "")
    else (fields + [open], "")
  }

  ghost function Fields(s: string): seq<string> {
    var (fields, open) := Split(s);
    if open == "" then fields else fields + [open]
  }

  ghost function Folded(title: string): string {
    if title == "" then "" else Folded(title[..|title| - 1]) + [FoldChar(title[|title| - 1])]
  }

  predicate Distinctive(f: string) {
    |f| >= 3 && f !in repostStopwords
  }

  /** The distinctive words of a title. */
  ghost function WordSet(title: string): set<string> {
    set f | f in Fields(Folded(title)) && Distinctive(f)
  }

  /** The sorted token list; too few tokens count as none. */
  ghost function TokensOf(title: string): Option<seq<string>> {
    var tokens := SortTokens(Gathered(Fields(Folded(title))));
    if |tokens| < minClusterTokens then None else Some(tokens)
  }

  ghost function Gathered(fields: seq<string>): seq<string> {
    if fields == [] then [] else
    var out, f := Gathered(fields[..|fields| - 1]), fields[|fields| - 1];
    if Distinctive(f) && f !in out then out + [f] else out
  }

  ghost function DistinctiveOnes(fields: seq<string>): set<string> {
    set f | f in fields && Distinctive(f)
  }

  lemma {:induction false} GatheredIs(fields: seq<string>)
    ensures Elems(Gathered(fields)) == DistinctiveOnes(fields)
    ensures |Gathered(fields)| == |DistinctiveOnes(fields)|
  {
    if fields != [] {
      var init, f := fields[..|fields| - 1], fields[|fields| - 1];
      GatheredIs(init);
      assert forall x :: x in fields <==> x in init || x == f;
      if Distinctive(f) {
        assert DistinctiveOnes(fields) == DistinctiveOnes(init) + {f};
        assert f in Gathered(init) <==> f in Elems(Gathered(init));
        assert f !in Gathered(init) ==> Elems(Gathered(init) + [f]) == Elems(Gathered(init)) + {f};
      } else {
        assert DistinctiveOnes(fields) == DistinctiveOnes(init);
      }
    }
  }

  /** The tokens are the distinctive words, sorted, each once; a title with fewer than three has none. */
  lemma {:induction false} TokensAre(title: string)
    ensures TokensOf(title).Some? <==> |WordSet(title)| >= minClusterTokens
    ensures TokensOf(title).Some? ==>
              StrictlySorted(TokensOf(title).value) && Elems(TokensOf(title).value) == WordSet(title)
              && |TokensOf(title).value| >= minClusterTokens
  {
    var fields := Fields(Folded(title));
    GatheredIs(fields);
    SortTokensIs(Gathered(fields));
    ElemsSize(SortTokens(Gathered(fields)));
    assert WordSet(title) == DistinctiveOnes(fields);
  }

  /** Word order, repetition, case and punctuation do not matter. */
  lemma {:induction false} SameWordsSameTokens(t1: string, t2: string)
    requires WordSet(t1) == WordSet(t2)
    ensures TokensOf(t1) == TokensOf(t2)
  {
    TokensAre(t1);
    TokensAre(t2);
    if TokensOf(t1).Some? {
      SortedListUnique(TokensOf(t1).value, TokensOf(t2).value);
    }
  }

  method SplitFields(s: string) returns (fields: seq<string>)
    ensures fields == Fields(s)
  {
    fields := [];
    var open := "";
    for i := 0 to |s|
      invariant (fields, open) == Split(s[..i])
    {
      assert s[..i + 1][..i] == s[..i];
      if s[i] != ' ' {
        open := open + [s[i]];
      } else if open != "" {
        fields, open := fields + [open], "";
      }
    }
    assert s[..|s|] == s;
    if open != "" {
      fields := fields + [open];
    }
  }

  method TitleTokens(title: string) returns (tokens: Option<seq<string>>)
    ensures tokens == TokensOf(title)
  {
    var b := "";
    for i := 0 to |title|
      invariant b == Folded(title[..i])
    {
      assert title[..i + 1][..i] == title[..i];
      b := b + [FoldChar(title[i])];
    }
    assert title[..|title|] == title;
    var fields := SplitFields(b);
    var seen, out := {}, [];
    for i := 0 to |fields|
      invariant out == Gathered(fields[..i]) && seen == Elems(out)
    {
      assert fields[..i + 1][..i] == fields[..i];
      var f := fields[i];
      if |f| < 3 || f in repostStopwords || f in seen {
        continue;
      }
      assert Elems(out + [f]) == Elems(out) + {f};
      seen := seen + {f};
      out := out + [f];
    }
    assert fields[..|fields|] == fields;
    GatheredIs(fields);
    SortTokensIs(out);
    ElemsSize(SortTokens(out));
    if |out| < minClusterTokens {
      return None;
    }
    return Some(SortTokens(out));
  }

  // ----- Similarity

  ghost function Shared(a: seq<string>, b: seq<string>): set<string> {
    Elems(a) * Elems(b)
  }

  /** The Jaccard index of two token sets. */
  ghost function Jaccard(a: seq<string>, b: seq<string>): real {
    if a == [] || b == [] then 0.0
    else
      assert a[0] in Elems(a) + Elems(b);
      |Shared(a, b)| as real / |Elems(a) + Elems(b)| as real
  }

  function MinLen(a: seq<string>, b: seq<string>): nat {
    if |b| < |a| then |b| else |a|
  }

  ghost function Containment(a: seq<string>, b: seq<string>): real {
    if a == [] || b == [] then 0.0 else |Shared(a, b)| as real / MinLen(a, b) as real
  }

  /** No token left in the one list equals one passed over in the other. */
  ghost predicate PassedOver(a: seq<string>, i: nat, b: seq<string>, j: nat) {
    forall p: nat, q: nat, x :: p < i && q >= j && At(a, p, x) ==> !At(b, q, x)
  }

  // the merge loop of both similarity functions
  method CountShared(a: seq<string>, b: seq<string>) returns (inter: nat)
    requires StrictlySorted(a) && StrictlySorted(b)
    ensures inter == |Shared(a, b)|
  {
    var i, j := 0, 0;
    inter := 0;
    while i < |a| && j < |b|
      invariant i <= |a| && j <= |b|
      invariant inter == |Shared(a[..i], b[..j])|
      invariant PassedOver(a, i, b, j) && PassedOver(b, j, a, i)
    {
      if a[i] == b[j] {
        MatchStep(a, i, b, j);
        inter, i, j := inter + 1, i + 1, j + 1;
      } else if Less(a[i], b[j]) {
        SkipStep(a, i, b, j);
        i := i + 1;
      } else {
        LessIsTotal(a[i], b[j], 0);
        SkipStep(b, j, a, i);
        assert Shared(a[..i], b[..j]) == Shared(b[..j], a[..i]);
        assert Shared(a[..i], b[..j + 1]) == Shared(b[..j + 1], a[..i]);
        j := j + 1;
      }
    }
    AllShared(a, i, b, j);
  }

  lemma {:induction false} AllShared(a: seq<string>, i: nat, b: seq<string>, j: nat)
    requires i <= |a| && j <= |b| && (i == |a| || j == |b|)
    requires PassedOver(a, i, b, j) && PassedOver(b, j, a, i)
    ensures Shared(a[..i], b[..j]) == Shared(a, b)
  {
    forall x | x in Shared(a, b) ensures x in Shared(a[..i], b[..j]) {
      var p :| 0 <= p < |a| && a[p] == x;
      var q :| 0 <= q < |b| && b[q] == x;
      assert At(a, p, x) && At(b, q, x);
      assert p < i && q < j;
      assert a[..i][p] == x && b[..j][q] == x;
    }
    forall x | x in Shared(a[..i], b[..j]) ensures x in Shared(a, b) {
      assert x in a && x in b;
    }
  }

  lemma {:induction false} MatchStep(a: seq<string>, i: nat, b: seq<string>, j: nat)
    requires StrictlySorted(a) && StrictlySorted(b) && i < |a| && j < |b| && a[i] == b[j]
    requires PassedOver(a, i, b, j) && PassedOver(b, j, a, i)
    ensures |Shared(a[..i + 1], b[..j + 1])| == |Shared(a[..i], b[..j])| + 1
    ensures PassedOver(a, i + 1, b, j + 1) && PassedOver(b, j + 1, a, i + 1)
  {
    var x := a[i];
    assert a[..i + 1] == a[..i] + [x] && b[..j + 1] == b[..j] + [x];
    NotBefore(a, i);
    assert Shared(a[..i + 1], b[..j + 1]) == Shared(a[..i], b[..j]) + {x};
    MatchPasses(a, i, b, j);
    MatchPasses(b, j, a, i);
  }

  lemma {:induction false} NotBefore(a: seq<string>, i: nat)
    requires StrictlySorted(a) && i < |a|
    ensures a[i] !in a[..i]
  {
    if a[i] in a[..i] {
      var k :| 0 <= k < i && a[..i][k] == a[i];
      SortedCut(a, k, i);
      LessIsStrict(a[k], a[i], 0);
    }
  }

  lemma {:induction false} MatchPasses(a: seq<string>, i: nat, b: seq<string>, j: nat)
    requires StrictlySorted(b) && i < |a| && j < |b| && a[i] == b[j] && PassedOver(a, i, b, j)
    ensures PassedOver(a, i + 1, b, j + 1)
  {
    forall p: nat, q: nat, x | p < i + 1 && q >= j + 1 && At(a, p, x) ensures !At(b, q, x) {
      if p == i && At(b, q, x) {
        SortedCut(b, j, q);
        LessIsStrict(b[j], b[q], 0);
      }
    }
  }

  /** The smaller head matches nothing that is left, and nothing passed over. */
  lemma {:induction false} SkipStep(a: seq<string>, i: nat, b: seq<string>, j: nat)
    requires StrictlySorted(a) && StrictlySorted(b) && i < |a| && j < |b| && Less(a[i], b[j])
    requires PassedOver(a, i, b, j) && PassedOver(b, j, a, i)
    ensures Shared(a[..i + 1], b[..j]) == Shared(a[..i], b[..j])
    ensures PassedOver(a, i + 1, b, j) && PassedOver(b, j, a, i + 1)
  {
    var x := a[i];
    assert a[..i + 1] == a[..i] + [x];
    assert At(a, i, x);
    if x in b[..j] {
      var q :| 0 <= q < j && b[..j][q] == x;
      assert At(b, q, x);
    }
    forall p: nat, q: nat, y | p < i + 1 && q >= j && At(a, p, y) ensures !At(b, q, y) {
      if p == i && At(b, q, y) {
        if q > j {
          SortedCut(b, j, q);
          LessIsTransitive(a[i], b[j], b[q], 0);
        }
        LessIsStrict(a[i], b[q], 0);
      }
    }
  }

  method JaccardTokens(a: seq<string>, b: seq<string>) returns (sim: real)
    requires StrictlySorted(a) && StrictlySorted(b)
    ensures sim == Jaccard(a, b)
  {
    if |a| == 0 || |b| == 0 {
      return 0.0;
    }
    var inter := CountShared(a, b);
    UnionSize(a, b);
    var union := |a| + |b| - inter;
    assert a[0] in Elems(a) + Elems(b);
    return inter as real / union as real;
  }

  method ContainmentTokens(a: seq<string>, b: seq<string>) returns (sim: real)
    requires StrictlySorted(a) && StrictlySorted(b)
    ensures sim == Containment(a, b)
  {
    if |a| == 0 || |b| == 0 {
      return 0.0;
    }
    var inter := CountShared(a, b);
    var minLen := |a|;
    if |b| < minLen {
      minLen := |b|;
    }
    return inter as real / minLen as real;
  }

  lemma {:induction false} UnionSize(a: seq<string>, b: seq<string>)
    requires StrictlySorted(a) && StrictlySorted(b)
    ensures |Elems(a) + Elems(b)| == |a| + |b| - |Shared(a, b)|
  {
    ElemsSize(a);
    ElemsSize(b);
  }

  /** What dedup knows of a post: tokens, media key and author. */
  datatype Fingerprint = Fingerprint(tokens: seq<string>, mediaKey: string, author: string)

  /** The policy: same content if alike with the same media or author, or, for long titles of one author, mostly contained. */
  ghost predicate Similar(x: Fingerprint, y: Fingerprint) {
    var sim := Jaccard(x.tokens, y.tokens);
    var sameAuthor := x.author != "" && y.author == x.author;
    || (sim >= jaccardThreshold && (y.mediaKey == x.mediaKey || (sameAuthor && sim >= jaccardThresholdSameAuthor)))
    || (sameAuthor && |x.tokens| >= minContainmentTokens && |y.tokens| >= minContainmentTokens
        && Containment(x.tokens, y.tokens) >= containmentThresholdSameAuthor)
  }

  lemma {:induction false} SimilarIsSymmetric(x: Fingerprint, y: Fingerprint)
    ensures Similar(x, y) <==> Similar(y, x)
  {
    assert Shared(x.tokens, y.tokens) == Shared(y.tokens, x.tokens);
    assert Elems(x.tokens) + Elems(y.tokens) == Elems(y.tokens) + Elems(x.tokens);
  }

  /** A tokenised post resembles every post with its tokens and media key, whoever wrote it. */
  lemma {:induction false} SimilarIsReflexive(x: Fingerprint, y: Fingerprint)
    requires x.tokens != [] && x.tokens == y.tokens && x.mediaKey == y.mediaKey
    ensures Similar(x, y)
  {
    assert Shared(x.tokens, y.tokens) == Elems(x.tokens) + Elems(y.tokens);
    assert x.tokens[0] in Elems(x.tokens);
  }

  // the test shared by FoldReposts and matchesSeen
  method TestSimilar(x: Fingerprint, y: Fingerprint) returns (same: bool)
    requires StrictlySorted(x.tokens) && StrictlySorted(y.tokens)
    ensures same == Similar(x, y)
  {
    var sim := JaccardTokens(x.tokens, y.tokens);
    if sim >= jaccardThreshold {
      if y.mediaKey == x.mediaKey {
        return true;
      }
      if x.author != "" && y.author == x.author && sim >= jaccardThresholdSameAuthor {
        return true;
      }
    }
    if x.author != "" && y.author == x.author && |x.tokens| >= minContainmentTokens && |y.tokens| >= minContainmentTokens {
      var share := ContainmentTokens(x.tokens, y.tokens);
      return share >= containmentThresholdSameAuthor;
    }
    return false;
  }

  // ----- The policy in terms of the words shared

  lemma ShareIs(part: nat, whole: nat, hundredths: nat, threshold: real)
    requires whole > 0 && threshold == hundredths as real / 100.0
    ensures part as real / whole as real >= threshold <==> 100 * part >= hundredths * whole
  {
    var share := part as real / whole as real;
    assert share * whole as real == part as real;
    if 100 * part >= hundredths * whole {
      assert 100.0 * part as real >= hundredths as real * whole as real;
    } else {
      assert 100.0 * part as real < hundredths as real * whole as real;
    }
  }

  /** The titles share so many words: 72 of every hundred that either has. */
  ghost predicate AlikeWords(a: set<string>, b: set<string>) {
    100 * |a * b| >= 72 * |a + b|
  }

  /** Long titles: 55 of every hundred words of the shorter one are in the other. */
  ghost predicate ContainedWords(a: set<string>, b: set<string>) {
    |a| >= 15 && |b| >= 15 && (100 * |a * b| >= 55 * |a| || 100 * |a * b| >= 55 * |b|)
  }

  lemma {:induction false} JaccardIff(a: seq<string>, b: seq<string>)
    requires a != [] && b != []
    ensures Jaccard(a, b) >= 0.72 <==> AlikeWords(Elems(a), Elems(b))
  {
    assert a[0] in Elems(a) + Elems(b);
    ShareIs(|Shared(a, b)|, |Elems(a) + Elems(b)|, 72, 0.72);
  }

  lemma {:induction false} ContainmentIff(a: seq<string>, b: seq<string>)
    requires a != [] && b != [] && StrictlySorted(a) && StrictlySorted(b)
    ensures Containment(a, b) >= 0.55 <==> 100 * |Elems(a) * Elems(b)| >= 55 * |Elems(a)| || 100 * |Elems(a) * Elems(b)| >= 55 * |Elems(b)|
  {
    ElemsSize(a);
    ElemsSize(b);
    ShareIs(|Shared(a, b)|, MinLen(a, b), 55, 0.55);
  }

  /**
    Posts are the same content exactly when their titles share enough words and either
    their media or their author agree, or when one author wrote both, the titles are long,
    and the one is mostly contained in the other.
   */
  lemma {:induction false} SimilarIff(x: Fingerprint, y: Fingerprint)
    requires x.tokens != [] && y.tokens != [] && StrictlySorted(x.tokens) && StrictlySorted(y.tokens)
    ensures var a, b := Elems(x.tokens), Elems(y.tokens);
            var sameAuthor := x.author == y.author && x.author != "";
            Similar(x, y) <==> (AlikeWords(a, b) && (x.mediaKey == y.mediaKey || sameAuthor)) || (ContainedWords(a, b) && sameAuthor)
  {
    JaccardIff(x.tokens, y.tokens);
    ContainmentIff(x.tokens, y.tokens);
    ElemsSize(x.tokens);
    ElemsSize(y.tokens);
  }

  // ----- What a word of a title is

  /** The small letter or digit itself, or the small form of the capital. */
  ghost predicate Spells(c: char, r: char) {
    || (r == c && ('a' <= c <= 'z' || '0' <= c <= '9'))
    || ('A' <= c <= 'Z' && 'a' <= r <= 'z' && r as int - 'a' as int == c as int - 'A' as int)
  }

  ghost predicate Separates(c: char) {
    !('a' <= c <= 'z') && !('A' <= c <= 'Z') && !('0' <= c <= '9')
  }

  /** The word stands in the title at these places, between separators or the title's ends. */
  ghost predicate WordAt(title: string, i: nat, j: nat, word: string) {
    && i < j <= |title| && |word| == j - i
    && (i == 0 || Separates(title[i - 1])) && (j == |title| || Separates(title[j]))
    && forall k: nat :: k < |word| ==> Spells(title[i + k], word[k])
  }

  ghost predicate IsWord(title: string, word: string) {
    exists i: nat, j: nat :: WordAt(title, i, j, word)
  }

  lemma {:induction false} FoldSpells(c: char)
    ensures FoldChar(c) == ' ' <==> Separates(c)
    ensures forall r :: Spells(c, r) <==> !Separates(c) && r == FoldChar(c)
  {
  }

  lemma {:induction false} FoldedAt(title: string, k: nat)
    requires k < |title|
    ensures |Folded(title)| == |title| && Folded(title)[k] == FoldChar(title[k])
  {
    FoldedLength(title);
    if k < |title| - 1 {
      FoldedAt(title[..|title| - 1], k);
    } else {
      FoldedLength(title[..|title| - 1]);
    }
  }

  lemma {:induction false} FoldedLength(title: string)
    ensures |Folded(title)| == |title|
  {
    if title != "" {
      FoldedLength(title[..|title| - 1]);
    }
  }

  /** A field of the string, ending before or at its end. */
  ghost predicate FieldAt(s: string, i: nat, j: nat, f: string) {
    i < j <= |s| && s[i..j] == f && ' ' !in f && (i == 0 || s[i - 1] == ' ') && (j == |s| || s[j] == ' ')
  }

  ghost predicate Closed(s: string, f: string) {
    exists i: nat, j: nat :: j < |s| && FieldAt(s, i, j, f)
  }

  /** What Split leaves open is the field that the end of the string cuts. */
  ghost predicate Open(s: string, open: string) {
    |open| <= |s| && s[|s| - |open|..] == open && ' ' !in open && (|open| == |s| || s[|s| - |open| - 1] == ' ')
  }

  lemma {:induction false} OpenMore(s: string, open: string, c: char)
    requires Open(s, open)
    ensures Open(s + [c], if c == ' ' then "" else open + [c])
  {
  }

  lemma {:induction false} ClosedMore(s: string, open: string, c: char, f: string)
    requires Open(s, open)
    ensures Closed(s + [c], f) <==> Closed(s, f) || (c == ' ' && open != "" && f == open)
  {
    var t := s + [c];
    if i: nat, j: nat :| j < |t| && FieldAt(t, i, j, f) {
      if j < |s| {
        assert s[i..j] == t[i..j];
        assert FieldAt(s, i, j, f);
      } else {
        OpenIs(s, open, i, f);
      }
    }
    if i: nat, j: nat :| j < |s| && FieldAt(s, i, j, f) {
      assert s[i..j] == t[i..j];
      assert FieldAt(t, i, j, f);
    }
    if c == ' ' && open != "" {
      assert t[|s| - |open|..|s|] == open;
      assert FieldAt(t, |s| - |open|, |s|, open);
    }
  }

  lemma {:induction false} OpenIs(s: string, open: string, i: nat, f: string)
    requires Open(s, open) && i < |s| && s[i..] == f && ' ' !in f && (i == 0 || s[i - 1] == ' ')
    ensures f == open && f != ""
  {
    var k := |s| - |open|;
    forall n | i <= n < |s| ensures s[n] != ' ' {
      assert s[n] == f[n - i];
    }
    assert i >= k;
  }

  lemma {:induction false} SplitIs(s: string)
    ensures Open(s, Split(s).1)
    ensures forall f :: f in Split(s).0 <==> Closed(s, f)
  {
    if s != "" {
      var init, c := s[..|s| - 1], s[|s| - 1];
      assert s == init + [c];
      SplitIs(init);
      OpenMore(init, Split(init).1, c);
      forall f ensures f in Split(s).0 <==> Closed(s, f) {
        ClosedMore(init, Split(init).1, c, f);
      }
    }
  }

  lemma {:induction false} FieldsAre(s: string, f: string)
    ensures f in Fields(s) <==> exists i: nat, j: nat :: FieldAt(s, i, j, f)
  {
    var open := Split(s).1;
    SplitIs(s);
    if open != "" {
      assert s[|s| - |open|..|s|] == open;
      assert FieldAt(s, |s| - |open|, |s|, open);
    }
    if i: nat, j: nat :| FieldAt(s, i, j, f) {
      if j == |s| {
        assert s[i..] == s[i..j];
        OpenIs(s, open, i, f);
      } else {
        assert Closed(s, f);
      }
    }
  }

  lemma {:induction false} WordIsField(title: string, i: nat, j: nat, word: string)
    ensures WordAt(title, i, j, word) <==> FieldAt(Folded(title), i, j, word)
  {
    var s := Folded(title);
    FoldedLength(title);
    if i < j <= |title| && |word| == j - i {
      if i > 0 {
        FoldedAt(title, i - 1);
        FoldSpells(title[i - 1]);
      }
      if j < |title| {
        FoldedAt(title, j);
        FoldSpells(title[j]);
      }
      forall k: nat | k < |word| ensures Spells(title[i + k], word[k]) <==> word[k] == s[i + k] && word[k] != ' ' {
        FoldedAt(title, i + k);
        FoldSpells(title[i + k]);
      }
      assert WordAt(title, i, j, word) ==> forall k: nat :: k < |word| ==> word[k] == s[i + k] && word[k] != ' ';
      assert FieldAt(s, i, j, word) ==> forall k: nat :: k < |word| ==> word[k] == s[i..j][k] == s[i + k] && word[k] in word;
    }
  }

  /**
    The distinctive words of a title are its runs of letters and digits, in small letters,
    that have three or more and are no stopword.
   */
  lemma {:induction false} WordsAre(title: string, word: string)
    ensures word in WordSet(title) <==> IsWord(title, word) && |word| >= 3 && word !in repostStopwords
  {
    FieldsAre(Folded(title), word);
    if i: nat, j: nat :| WordAt(title, i, j, word) {
      WordIsField(title, i, j, word);
    }
    if i: nat, j: nat :| FieldAt(Folded(title), i, j, word) {
      WordIsField(title, i, j, word);
    }
  }
}
