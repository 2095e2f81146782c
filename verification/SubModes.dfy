/**
  The per-subreddit override grammar `sub=sort:top&time:day+sub2=depth:l2+l3`: its
  parser, its canonical form, and the scheduler's own scanners of that form. '+' both
  separates clauses and joins the two halves of a depth.
 */
module SubModes {
  import opened Common
  import opened Texts

  /** An empty field inherits the global setting. */
  datatype Override = Override(sub: string, sort: string, timeframe: string, depth: string)

  datatype Reason =
    | MissingEquals | InvalidName | MissingColon | BadSort | BadTime | BadDepth | UnknownKey | NothingUsable

  datatype Reject = Reject(raw: string, reason: Reason)

  predicate ValidSort(v: string) {
    v == "hot" || v == "new" || v == "top" || v == "rising" || v == "controversial"
  }

  predicate ValidTimeframe(v: string) {
    v == "hour" || v == "day" || v == "week" || v == "month" || v == "year" || v == "all"
  }

  predicate ValidDepth(v: string) {
    v == "none" || v == "l2" || v == "l3" || v == "l2+l3"
  }

  predicate AlphaNum(c: char) {
    'A' <= c <= 'Z' || 'a' <= c <= 'z' || '0' <= c <= '9'
  }

  /** ^[A-Za-z0-9][A-Za-z0-9_]{1,20}$ */
  predicate ValidSubName(s: string) {
    2 <= |s| <= 21 && AlphaNum(s[0]) && forall i :: 0 <= i < |s| ==> AlphaNum(s[i]) || s[i] == '_'
  }

  function RemoveBlanks(s: string): string {
    if s == "" then "" else RemoveBlanks(s[..|s| - 1]) + if s[|s| - 1] == ' ' then "" else [s[|s| - 1]]
  }

  function CanonicalizeDepth(raw: string): (r: Option<string>)
    ensures r.Some? ==> ValidDepth(r.value)
  {
    DepthNamed(RemoveBlanks(Lower(Trim(raw))))
  }

  function DepthNamed(v: string): (r: Option<string>)
    ensures r.Some? ==> ValidDepth(r.value)
  {
    if v == "none" || v == "off" || v == "l1" then Some("none")
    else if v == "l2" then Some("l2")
    else if v == "l3" then Some("l3")
    else if v == "l2+l3" || v == "l3+l2" then Some("l2+l3")
    else None
  }

  // ----- Clauses

  predicate IsMark(c: char) {
    c == '=' || c == '&'
  }

  predicate IsStop(c: char) {
    c == '&' || c == '+'
  }

  /** The last '=' or '&' from start up to j, or -1. */
  ghost function LastMark(raw: string, start: nat, j: int): (r: int)
    requires -1 <= j < |raw|
    ensures r == -1 || (start <= r <= j && IsMark(raw[r]))
    ensures forall i: nat :: start <= i <= j && r < i ==> !IsMark(raw[i])
    decreases j + 1
  {
    if j < start then -1 else if IsMark(raw[j]) then j else LastMark(raw, start, j - 1)
  }

  /** The next '&' or '+' from k on, or the end. */
  ghost function NextStop(raw: string, k: nat): (r: nat)
    requires k <= |raw|
    ensures k <= r <= |raw| && (r < |raw| ==> IsStop(raw[r]))
    ensures forall i :: k <= i < r ==> !IsStop(raw[i])
    decreases |raw| - k
  {
    if k == |raw| || IsStop(raw[k]) then k else NextStop(raw, k + 1)
  }

  predicate DepthHead(kv: string) {
    kv == "depth:l2" || kv == "depth:l3" || kv == "d:l2" || kv == "d:l3"
  }

  predicate DepthTail(tail: string) {
    tail == "l2" || tail == "l3"
  }

  /** The '+' joins the two halves of a depth value. */
  ghost predicate DepthJoin(raw: string, start: nat, plus: nat)
    requires plus < |raw|
  {
    var j := LastMark(raw, start, plus - 1);
    && j >= 0
    && DepthHead(Lower(raw[j + 1..plus]))
    && DepthTail(Lower(raw[plus + 1..NextStop(raw, plus + 1)]))
  }

  ghost function TopCut(raw: string): Cut {
    (start: nat, i: nat) => i < |raw| && raw[i] == '+' && !DepthJoin(raw, start, i)
  }

  ghost function Clauses(raw: string): seq<string> {
    if raw == "" then [] else Split(raw, TopCut(raw))
  }

  method IsDepthValueJoin(raw: string, segStart: nat, plus: nat) returns (joins: bool)
    requires segStart <= plus < |raw|
    ensures joins == DepthJoin(raw, segStart, plus)
  {
    var j: int := plus - 1;
    while j >= segStart && raw[j] != '=' && raw[j] != '&'
      invariant -1 <= j < plus && LastMark(raw, segStart, j) == LastMark(raw, segStart, plus - 1)
    {
      j := j - 1;
    }
    if j < segStart {
      return false;
    }
    if !DepthHead(Lower(raw[j + 1..plus])) {
      return false;
    }
    var k := plus + 1;
    while k < |raw| && raw[k] != '&' && raw[k] != '+'
      invariant plus < k <= |raw| && NextStop(raw, k) == NextStop(raw, plus + 1)
    {
      k := k + 1;
    }
    return DepthTail(Lower(raw[plus + 1..k]));
  }

  method SplitTopLevelClauses(raw: string) returns (clauses: seq<string>)
    ensures clauses == Clauses(raw)
  {
    if raw == "" {
      return [];
    }
    clauses := [];
    var start := 0;
    for i := 0 to |raw|
      invariant start <= i && (clauses, start) == Pieces(raw, TopCut(raw), i)
    {
      if raw[i] != '+' {
        continue;
      }
      var joins := IsDepthValueJoin(raw, start, i);
      if joins {
        continue;
      }
      clauses, start := clauses + [raw[start..i]], i + 1;
    }
    clauses := clauses + [raw[start..]];
  }

  // ----- Parsing

  /** Key and value of a field with a colon. */
  function KeyOf(kv: string): string {
    Lower(Trim(kv[..Index(kv, ':')]))
  }

  function ValueOf(kv: string): string
    requires Index(kv, ':') < |kv|
  {
    Lower(Trim(kv[Index(kv, ':') + 1..]))
  }

  datatype Fields = Fields(ov: Override, anyOK: bool, bad: seq<Reject>)

  /** One field of a clause. */
  function ReadField(st: Fields, raw: string): Fields {
    var kv := Trim(raw);
    if kv == "" then st
    else if Index(kv, ':') == |kv| then st.(bad := st.bad + [Reject(kv, MissingColon)])
    else SetField(st, kv, KeyOf(kv), ValueOf(kv))
  }

  function SetField(st: Fields, kv: string, key: string, val: string): Fields {
    if key == "sort" then
      if ValidSort(val) then st.(ov := st.ov.(sort := val), anyOK := true)
      else st.(bad := st.bad + [Reject(kv, BadSort)])
    else if key == "time" || key == "t" || key == "timeframe" then
      if ValidTimeframe(val) then st.(ov := st.ov.(timeframe := val), anyOK := true)
      else st.(bad := st.bad + [Reject(kv, BadTime)])
    else if key == "depth" || key == "d" then
      match CanonicalizeDepth(val)
      case Some(canon) => st.(ov := st.ov.(depth := canon), anyOK := true)
      case None => st.(bad := st.bad + [Reject(kv, BadDepth)])
    else st.(bad := st.bad + [Reject(kv, UnknownKey)])
  }

  ghost function ReadFields(sub: string, kvs: seq<string>): Fields {
    if kvs == [] then Fields(Override(sub, "", "", ""), false, [])
    else ReadField(ReadFields(sub, kvs[..|kvs| - 1]), kvs[|kvs| - 1])
  }

  datatype ClauseResult = ClauseResult(ov: Option<Override>, bad: seq<Reject>)

  ghost function SplitFields(body: string): seq<string> {
    Split(body, CutAt(body, '&'))
  }

  ghost function ReadClause(raw: string): ClauseResult {
    var clause := Trim(raw);
    var eq := Index(clause, '=');
    if clause == "" then ClauseResult(None, [])
    else if eq == |clause| then ClauseResult(None, [Reject(clause, MissingEquals)])
    else
      var sub, body := Lower(Trim(clause[..eq])), Trim(clause[eq + 1..]);
      if !ValidSubName(sub) then ClauseResult(None, [Reject(clause, InvalidName)])
      else
        var st := ReadFields(sub, SplitFields(body));
        if st.anyOK then ClauseResult(Some(st.ov), st.bad)
        else ClauseResult(None, st.bad + [Reject(clause, NothingUsable)])
  }

  ghost function IndexOf(os: seq<Override>, sub: string): nat {
    if os == [] then 0 else
    var n := |os| - 1;
    var k := IndexOf(os[..n], sub);
    if k < n then k else if os[n].sub == sub then n else n + 1
  }

  /** A later clause for the same name takes the place of the earlier one. */
  ghost function Put(os: seq<Override>, ov: Override): seq<Override> {
    var k := IndexOf(os, ov.sub);
    if k < |os| then os[k := ov] else os + [ov]
  }

  ghost function ReadClauses(clauses: seq<string>): (seq<Override>, seq<Reject>) {
    if clauses == [] then ([], []) else
    var (os, bad) := ReadClauses(clauses[..|clauses| - 1]);
    var r := ReadClause(clauses[|clauses| - 1]);
    (if r.ov.Some? then Put(os, r.ov.value) else os, bad + r.bad)
  }

  ghost function Parse(raw: string): (seq<Override>, seq<Reject>) {
    ReadClauses(Clauses(Trim(raw)))
  }

  // the field loop
  method ParseFields(sub: string, body: string) returns (st: Fields)
    ensures st == ReadFields(sub, SplitFields(body))
  {
    var kvs := SplitByChar(body, '&');
    st := Fields(Override(sub, "", "", ""), false, []);
    for i := 0 to |kvs|
      invariant st == ReadFields(sub, kvs[..i])
    {
      assert kvs[..i + 1][..i] == kvs[..i];
      st := ReadField(st, kvs[i]);
    }
    assert kvs[..|kvs|] == kvs;
  }

  // the body of the clause loop
  method ParseClause(raw: string) returns (r: ClauseResult)
    ensures r == ReadClause(raw)
  {
    var clause := Trim(raw);
    if clause == "" {
      return ClauseResult(None, []);
    }
    var eq := Index(clause, '=');
    if eq == |clause| {
      return ClauseResult(None, [Reject(clause, MissingEquals)]);
    }
    var sub, body := Lower(Trim(clause[..eq])), Trim(clause[eq + 1..]);
    if !ValidSubName(sub) {
      return ClauseResult(None, [Reject(clause, InvalidName)]);
    }
    var st := ParseFields(sub, body);
    if !st.anyOK {
      return ClauseResult(None, st.bad + [Reject(clause, NothingUsable)]);
    }
    return ClauseResult(Some(st.ov), st.bad);
  }

  /** The map of overrides and the order of their names hold this list. */
  ghost predicate Holds(byName: map<string, Override>, order: seq<string>, os: seq<Override>) {
    && |order| == |os|
    && (forall i :: 0 <= i < |os| ==> order[i] == os[i].sub && order[i] in byName && byName[order[i]] == os[i])
    && (forall name :: name in byName ==> name in order)
    && forall i, j :: 0 <= i < j < |order| ==> order[i] != order[j]
  }

  lemma {:induction false} IndexOfIs(os: seq<Override>, sub: string)
    ensures IndexOf(os, sub) <= |os|
    ensures IndexOf(os, sub) < |os| ==> os[IndexOf(os, sub)].sub == sub
    ensures forall i :: 0 <= i < IndexOf(os, sub) ==> os[i].sub != sub
  {
    if os != [] {
      IndexOfIs(os[..|os| - 1], sub);
    }
  }

  lemma {:induction false} PutHolds(byName: map<string, Override>, order: seq<string>, os: seq<Override>, ov: Override)
    requires Holds(byName, order, os)
    ensures Holds(byName[ov.sub := ov], if ov.sub in byName then order else order + [ov.sub], Put(os, ov))
  {
    IndexOfIs(os, ov.sub);
    if ov.sub in byName {
      var i :| 0 <= i < |order| && order[i] == ov.sub;
      assert os[i].sub == ov.sub;
      ReplaceHolds(byName, order, os, ov, IndexOf(os, ov.sub));
    } else {
      forall i | 0 <= i < |os| ensures os[i].sub != ov.sub {
        assert order[i] in byName;
      }
      AppendHolds(byName, order, os, ov);
    }
  }

  lemma {:induction false} ReplaceHolds(byName: map<string, Override>, order: seq<string>, os: seq<Override>, ov: Override, k: nat)
    requires Holds(byName, order, os) && k < |os| && os[k].sub == ov.sub
    ensures Holds(byName[ov.sub := ov], order, os[k := ov])
  {
  }

  lemma {:induction false} AppendHolds(byName: map<string, Override>, order: seq<string>, os: seq<Override>, ov: Override)
    requires Holds(byName, order, os) && ov.sub !in byName
    ensures Holds(byName[ov.sub := ov], order + [ov.sub], os + [ov])
  {
  }

  method ParsePrefetchSubModes(raw0: string) returns (out: seq<Override>, bad: seq<Reject>)
    ensures (out, bad) == Parse(raw0)
  {
    var raw := Trim(raw0);
    out, bad := [], [];
    if raw == "" {
      return;
    }
    var clauses := SplitTopLevelClauses(raw);
    var byName, order;
    byName, order, bad := ParseClauses(clauses);
    ghost var os := ReadClauses(clauses).0;
    for i := 0 to |order|
      invariant out == os[..i]
    {
      out := out + [byName[order[i]]];
    }
    assert os[..|os|] == os;
  }

  // the clause loop
  method ParseClauses(clauses: seq<string>) returns (byName: map<string, Override>, order: seq<string>, bad: seq<Reject>)
    ensures Holds(byName, order, ReadClauses(clauses).0) && bad == ReadClauses(clauses).1
  {
    byName, order, bad := map[], [], [];
    for i := 0 to |clauses|
      invariant Holds(byName, order, ReadClauses(clauses[..i]).0) && bad == ReadClauses(clauses[..i]).1
    {
      var r := ParseClause(clauses[i]);
      ReadClausesStep(clauses, i);
      bad := bad + r.bad;
      if r.ov.Some? {
        PutHolds(byName, order, ReadClauses(clauses[..i]).0, r.ov.value);
        if r.ov.value.sub !in byName {
          order := order + [r.ov.value.sub];
        }
        byName := byName[r.ov.value.sub := r.ov.value];
      }
    }
    assert clauses[..|clauses|] == clauses;
  }

  lemma ReadClausesStep(clauses: seq<string>, i: nat)
    requires i < |clauses|
    ensures var (os, bad), r := ReadClauses(clauses[..i]), ReadClause(clauses[i]);
            ReadClauses(clauses[..i + 1]) == (if r.ov.Some? then Put(os, r.ov.value) else os, bad + r.bad)
  {
    assert clauses[..i + 1][..i] == clauses[..i];
  }

  // ----- The canonical form

  function FieldTexts(o: Override): seq<string> {
    (if o.sort != "" then ["sort:" + o.sort] else [])
    + (if o.timeframe != "" then ["time:" + o.timeframe] else [])
    + (if o.depth != "" then ["depth:" + o.depth] else [])
  }

  function ClauseText(o: Override): string {
    o.sub + "=" + Join(FieldTexts(o), '&')
  }

  ghost function ClauseTexts(os: seq<Override>): seq<string> {
    if os == [] then [] else
    ClauseTexts(os[..|os| - 1]) + if FieldTexts(os[|os| - 1]) == [] then [] else [ClauseText(os[|os| - 1])]
  }

  ghost function Canonical(os: seq<Override>): string {
    Join(ClauseTexts(os), '+')
  }

  method CanonicalPrefetchSubModes(overrides: seq<Override>) returns (s: string)
    ensures s == Canonical(overrides)
  {
    if |overrides| == 0 {
      return "";
    }
    var parts: seq<string> := [];
    for i := 0 to |overrides|
      invariant parts == ClauseTexts(overrides[..i])
    {
      assert overrides[..i + 1][..i] == overrides[..i];
      var o := overrides[i];
      var kvs: seq<string> := [];
      if o.sort != "" {
        kvs := kvs + ["sort:" + o.sort];
      }
      if o.timeframe != "" {
        kvs := kvs + ["time:" + o.timeframe];
      }
      if o.depth != "" {
        kvs := kvs + ["depth:" + o.depth];
      }
      assert kvs == FieldTexts(o);
      if |kvs| == 0 {
        continue;
      }
      parts := parts + [o.sub + "=" + Join(kvs, '&')];
    }
    assert overrides[..|overrides|] == overrides;
    return Join(parts, '+');
  }

  // ----- Valid lists

  /** A lower-case valid name, at least one field, and canonical values. */
  ghost predicate ValidOverride(o: Override) {
    && ValidSubName(o.sub) && NoCapital(o.sub)
    && (o.sort == "" || ValidSort(o.sort)) && (o.timeframe == "" || ValidTimeframe(o.timeframe))
    && (o.depth == "" || ValidDepth(o.depth))
    && (o.sort != "" || o.timeframe != "" || o.depth != "")
  }

  ghost predicate ValidList(os: seq<Override>) {
    && (forall i :: 0 <= i < |os| ==> ValidOverride(os[i]))
    && forall i, j :: 0 <= i < j < |os| ==> os[i].sub != os[j].sub
  }

  ghost predicate ValidSoFar(sub: string, st: Fields) {
    && st.ov.sub == sub
    && (st.ov.sort == "" || ValidSort(st.ov.sort)) && (st.ov.timeframe == "" || ValidTimeframe(st.ov.timeframe))
    && (st.ov.depth == "" || ValidDepth(st.ov.depth))
    && (st.anyOK ==> st.ov.sort != "" || st.ov.timeframe != "" || st.ov.depth != "")
  }

  lemma {:induction false} SetFieldValid(sub: string, st: Fields, kv: string, key: string, val: string)
    requires ValidSoFar(sub, st)
    ensures ValidSoFar(sub, SetField(st, kv, key, val))
  {
  }

  lemma {:induction false} ReadFieldValid(sub: string, st: Fields, raw: string)
    requires ValidSoFar(sub, st)
    ensures ValidSoFar(sub, ReadField(st, raw))
  {
    var kv := Trim(raw);
    if Index(kv, ':') < |kv| {
      SetFieldValid(sub, st, kv, KeyOf(kv), ValueOf(kv));
    }
  }

  lemma {:induction false} ReadFieldsValid(sub: string, kvs: seq<string>)
    ensures ValidSoFar(sub, ReadFields(sub, kvs))
  {
    if kvs != [] {
      ReadFieldsValid(sub, kvs[..|kvs| - 1]);
      ReadFieldValid(sub, ReadFields(sub, kvs[..|kvs| - 1]), kvs[|kvs| - 1]);
    }
  }

  lemma {:induction false} ReadClauseValid(raw: string)
    ensures ReadClause(raw).ov.Some? ==> ValidOverride(ReadClause(raw).ov.value)
  {
    var clause := Trim(raw);
    var eq := Index(clause, '=');
    if eq < |clause| {
      var sub := Lower(Trim(clause[..eq]));
      LowerHasNoCapital(Trim(clause[..eq]));
      ReadFieldsValid(sub, SplitFields(Trim(clause[eq + 1..])));
    }
  }

  lemma {:induction false} PutValid(os: seq<Override>, ov: Override)
    requires ValidList(os) && ValidOverride(ov)
    ensures ValidList(Put(os, ov))
  {
    IndexOfIs(os, ov.sub);
  }

  /** Whatever the text, the parsed list is valid: distinct lower-case names, each with a usable field. */
  lemma {:induction false} ParseIsValid(clauses: seq<string>)
    ensures ValidList(ReadClauses(clauses).0)
  {
    if clauses != [] {
      ParseIsValid(clauses[..|clauses| - 1]);
      ReadClauseValid(clauses[|clauses| - 1]);
      if ReadClause(clauses[|clauses| - 1]).ov.Some? {
        PutValid(ReadClauses(clauses[..|clauses| - 1]).0, ReadClause(clauses[|clauses| - 1]).ov.value);
      }
    }
  }

  // ----- Reading back one field

  predicate PlainChar(c: char) {
    'a' <= c <= 'z' || '0' <= c <= '9' || c == '_' || c == '+'
  }

  /** Lower case and free of spaces and of every separator but '+'. */
  predicate Plain(s: string) {
    s != "" && forall i :: 0 <= i < |s| ==> PlainChar(s[i])
  }

  lemma {:induction false} PlainIs(s: string)
    requires Plain(s)
    ensures Trim(s) == s && Lower(s) == s && Tight(s) && NoCapital(s)
    ensures Lacks(s, ':') && Lacks(s, '=') && Lacks(s, '&') && Lacks(s, ' ')
  {
    PlainTight(s);
    PlainLacks(s);
    TrimTight(s);
    LowerSame(s);
  }

  lemma {:induction false} PlainTight(s: string)
    requires Plain(s)
    ensures Tight(s)
  {
    assert PlainChar(s[0]) && PlainChar(s[|s| - 1]);
  }

  lemma {:induction false} PlainLacks(s: string)
    requires Plain(s)
    ensures NoCapital(s) && Lacks(s, ':') && Lacks(s, '=') && Lacks(s, '&') && Lacks(s, ' ')
  {
  }

  lemma ValuesArePlain()
    ensures Plain("sort") && Plain("time") && Plain("depth")
    ensures forall v :: ValidSort(v) ==> Plain(v)
    ensures forall v :: ValidTimeframe(v) ==> Plain(v)
    ensures forall v :: ValidDepth(v) ==> Plain(v)
  {
  }

  lemma {:induction false} NameIsPlain(o: Override)
    requires ValidOverride(o)
    ensures Plain(o.sub) && Lacks(o.sub, '+')
  {
    forall i | 0 <= i < |o.sub| ensures PlainChar(o.sub[i]) {
      assert LowerChar(o.sub[i]) == o.sub[i];
    }
  }

  /** A field of plain parts reads back as its key and value. */
  lemma {:induction false} FieldReads(key: string, val: string)
    requires Plain(key) && Plain(val)
    ensures var kv := key + ":" + val;
            Trim(kv) == kv && kv != "" && Index(kv, ':') == |key| && KeyOf(kv) == key && ValueOf(kv) == val
    ensures Lacks(key + ":" + val, '&') && Lacks(key + ":" + val, '=') && Tight(key + ":" + val)
  {
    var kv := key + ":" + val;
    PlainIs(key);
    PlainIs(val);
    assert Tight(kv);
    TrimTight(kv);
    IndexAfter(key, ':', val);
    assert kv == key + [':'] + val;
    assert kv[..|key|] == key && kv[|key| + 1..] == val;
  }

  lemma {:induction false} BlanksGone(s: string)
    requires Lacks(s, ' ')
    ensures RemoveBlanks(s) == s
  {
    if s != "" {
      BlanksGone(s[..|s| - 1]);
      assert s == s[..|s| - 1] + [s[|s| - 1]];
    }
  }

  lemma {:induction false} DepthIsCanonical(v: string)
    requires ValidDepth(v)
    ensures CanonicalizeDepth(v) == Some(v)
  {
    DepthIsRead(v, v);
  }

  lemma {:induction false} DepthTextPlain(text: string, v: string)
    requires DepthText(text, v)
    ensures Plain(text)
  {
  }

  lemma {:induction false} DepthTextNamed(text: string, v: string)
    requires DepthText(text, v)
    ensures DepthNamed(text) == Some(v)
  {
  }

  lemma {:induction false} PlainUntouched(s: string)
    requires Plain(s)
    ensures RemoveBlanks(Lower(Trim(s))) == s
  {
    PlainIs(s);
    BlanksGone(s);
  }

  lemma {:induction false} DepthIsRead(text: string, v: string)
    requires DepthText(text, v)
    ensures CanonicalizeDepth(text) == Some(v) && Plain(text)
  {
    DepthTextPlain(text, v);
    DepthTextNamed(text, v);
    PlainUntouched(text);
  }

  /** Reading a plain field sets it. */
  lemma {:induction false} FieldSets(st: Fields, key: string, val: string)
    requires Plain(key) && Plain(val)
    ensures ReadField(st, key + ":" + val) == SetField(st, key + ":" + val, key, val)
  {
    FieldReads(key, val);
  }

  lemma ReadSort(st: Fields, v: string)
    requires ValidSort(v)
    ensures ReadField(st, "sort:" + v) == st.(ov := st.ov.(sort := v), anyOK := true)
  {
    ValuesArePlain();
    FieldSets(st, "sort", v);
    assert "sort:" == "sort" + ":";
  }

  lemma ReadTime(st: Fields, key: string, v: string)
    requires TimeKey(key) && ValidTimeframe(v)
    ensures ReadField(st, key + ":" + v) == st.(ov := st.ov.(timeframe := v), anyOK := true)
  {
    ValuesArePlain();
    FieldSets(st, key, v);
  }

  lemma SetDepth(st: Fields, kv: string, key: string, text: string, v: string)
    requires DepthKey(key) && CanonicalizeDepth(text) == Some(v)
    ensures SetField(st, kv, key, text) == st.(ov := st.ov.(depth := v), anyOK := true)
  {
  }

  lemma ReadDepth(st: Fields, key: string, text: string, v: string)
    requires DepthKey(key) && CanonicalizeDepth(text) == Some(v) && Plain(text)
    ensures ReadField(st, key + ":" + text) == st.(ov := st.ov.(depth := v), anyOK := true)
  {
    FieldSets(st, key, text);
    SetDepth(st, key + ":" + text, key, text, v);
  }

  // ----- Ways to write an override

  predicate TimeKey(key: string) {
    key == "time" || key == "t" || key == "timeframe"
  }

  predicate DepthKey(key: string) {
    key == "depth" || key == "d"
  }

  /** The texts that mean a depth. */
  predicate DepthText(text: string, depth: string) {
    || (depth == "none" && (text == "none" || text == "off" || text == "l1"))
    || (depth == "l2" && text == "l2")
    || (depth == "l3" && text == "l3")
    || (depth == "l2+l3" && (text == "l2+l3" || text == "l3+l2"))
  }

  /** An override with the keys and the text of the depth that someone chose for it. */
  datatype Written = Written(o: Override, timeKey: string, depthKey: string, depthText: string)

  ghost predicate WellWritten(w: Written) {
    && ValidOverride(w.o) && TimeKey(w.timeKey) && DepthKey(w.depthKey)
    && (w.o.depth != "" ==> DepthText(w.depthText, w.o.depth))
  }

  /** As the canonical form has it. */
  function Plainly(o: Override): Written {
    Written(o, "time", "depth", o.depth)
  }

  function SortField(w: Written): seq<string> {
    if w.o.sort != "" then ["sort:" + w.o.sort] else []
  }

  function TimeField(w: Written): seq<string> {
    if w.o.timeframe != "" then [w.timeKey + ":" + w.o.timeframe] else []
  }

  function DepthField(w: Written): seq<string> {
    if w.o.depth != "" then [w.depthKey + ":" + w.depthText] else []
  }

  function WrittenFields(w: Written): seq<string> {
    SortField(w) + TimeField(w) + DepthField(w)
  }

  function WrittenClause(w: Written): string {
    w.o.sub + "=" + Join(WrittenFields(w), '&')
  }

  lemma WrittenPlainly(o: Override)
    ensures WrittenFields(Plainly(o)) == FieldTexts(o) && WrittenClause(Plainly(o)) == ClauseText(o)
    ensures ValidOverride(o) ==> WellWritten(Plainly(o))
  {
    assert "time" + ":" + o.timeframe == "time:" + o.timeframe;
    assert "depth" + ":" + o.depth == "depth:" + o.depth;
  }

  // ----- Reading back one clause

  function SortText(o: Override): seq<string> {
    if o.sort != "" then ["sort:" + o.sort] else []
  }

  function TimeText(o: Override): seq<string> {
    if o.timeframe != "" then ["time:" + o.timeframe] else []
  }

  lemma FieldTextsAre(o: Override)
    ensures FieldTexts(o) == SortText(o) + TimeText(o) + if o.depth != "" then ["depth:" + o.depth] else []
  {
  }

  lemma {:induction false} ReadOneMore(sub: string, kvs: seq<string>, kv: string)
    ensures ReadFields(sub, kvs + [kv]) == ReadField(ReadFields(sub, kvs), kv)
  {
    assert (kvs + [kv])[..|kvs + [kv]| - 1] == kvs;
  }

  /** The fields of a valid override, however written, read back as the override, with nothing rejected. */
  lemma {:induction false} FieldsReadBack(w: Written)
    requires WellWritten(w)
    ensures ReadFields(w.o.sub, WrittenFields(w)) == Fields(w.o, true, [])
  {
    var o := w.o;
    var s0 := Fields(Override(o.sub, "", "", ""), false, []);
    var a := SortField(w);
    assert ReadFields(o.sub, []) == s0;
    var s1 := Fields(Override(o.sub, o.sort, "", ""), o.sort != "", []);
    if o.sort != "" {
      ReadOneMore(o.sub, [], "sort:" + o.sort);
      assert [] + ["sort:" + o.sort] == a;
      ReadSort(s0, o.sort);
    }
    assert ReadFields(o.sub, a) == s1;
    var b := a + TimeField(w);
    var s2 := Fields(Override(o.sub, o.sort, o.timeframe, ""), o.sort != "" || o.timeframe != "", []);
    if o.timeframe != "" {
      ReadOneMore(o.sub, a, w.timeKey + ":" + o.timeframe);
      ReadTime(s1, w.timeKey, o.timeframe);
    } else {
      assert b == a;
    }
    assert ReadFields(o.sub, b) == s2;
    if o.depth != "" {
      ReadOneMore(o.sub, b, w.depthKey + ":" + w.depthText);
      DepthIsRead(w.depthText, o.depth);
      ReadDepth(s2, w.depthKey, w.depthText, o.depth);
    } else {
      assert WrittenFields(w) == b;
    }
  }

  /** Every field is a plain key and value. */
  ghost predicate PlainField(kv: string) {
    exists key, val :: Plain(key) && Plain(val) && kv == key + ":" + val
  }

  lemma {:induction false} FieldsPlain(w: Written)
    requires WellWritten(w)
    ensures WrittenFields(w) != [] && AllPlain(WrittenFields(w))
  {
    var o := w.o;
    ValuesArePlain();
    if o.sort != "" {
      PlainFieldMade("sort", o.sort, "sort:" + o.sort);
    }
    if o.timeframe != "" {
      PlainFieldMade(w.timeKey, o.timeframe, w.timeKey + ":" + o.timeframe);
    }
    if o.depth != "" {
      DepthIsRead(w.depthText, o.depth);
      PlainFieldMade(w.depthKey, w.depthText, w.depthKey + ":" + w.depthText);
    }
    AllPlainConcat(SortField(w), TimeField(w));
    AllPlainConcat(SortField(w) + TimeField(w), DepthField(w));
  }

  ghost predicate AllPlain(texts: seq<string>) {
    forall m :: 0 <= m < |texts| ==> PlainField(texts[m])
  }

  lemma AllPlainConcat(a: seq<string>, b: seq<string>)
    requires AllPlain(a) && AllPlain(b)
    ensures AllPlain(a + b)
  {
  }

  lemma PlainFieldMade(key: string, val: string, kv: string)
    requires Plain(key) && Plain(val) && kv == key + ":" + val
    ensures PlainField(kv)
  {
  }

  lemma {:induction false} PlainFieldIs(kv: string)
    requires PlainField(kv)
    ensures kv != "" && Tight(kv) && Lacks(kv, '&') && Lacks(kv, '=')
  {
    var key, val :| Plain(key) && Plain(val) && kv == key + ":" + val;
    FieldReads(key, val);
  }

  lemma {:induction false} JoinTight(parts: seq<string>)
    requires parts != [] && forall m :: 0 <= m < |parts| ==> parts[m] != "" && Tight(parts[m])
    ensures Join(parts, '&') != "" && Tight(Join(parts, '&'))
  {
    if |parts| > 1 {
      JoinTight(parts[..|parts| - 1]);
    }
  }

  lemma {:induction false} WrittenReadsBack(w: Written)
    requires WellWritten(w)
    ensures var body := Join(WrittenFields(w), '&');
            body != "" && Tight(body) && SplitFields(body) == WrittenFields(w)
  {
    FieldsPlain(w);
    forall m | 0 <= m < |WrittenFields(w)|
      ensures WrittenFields(w)[m] != "" && Tight(WrittenFields(w)[m]) && Lacks(WrittenFields(w)[m], '&')
    {
      PlainFieldIs(WrittenFields(w)[m]);
    }
    JoinTight(WrittenFields(w));
    SplitJoin(WrittenFields(w), '&');
  }

  lemma {:induction false} BodyReadsBack(o: Override)
    requires ValidOverride(o)
    ensures var body := Join(FieldTexts(o), '&');
            body != "" && Tight(body) && SplitFields(body) == FieldTexts(o)
  {
    WrittenPlainly(o);
    WrittenReadsBack(Plainly(o));
  }

  /** The parts of a clause. */
  lemma {:induction false} ClauseParts(sub: string, body: string)
    requires Plain(sub) && body != "" && Tight(body)
    ensures var c := sub + "=" + body;
            && Trim(c) == c && c != "" && Index(c, '=') == |sub| < |c|
            && Lower(Trim(c[..|sub|])) == sub && Trim(c[|sub| + 1..]) == body
  {
    var c := sub + "=" + body;
    PlainIs(sub);
    IndexAfter(sub, '=', body);
    assert c == sub + ['='] + body;
    TightEnds(sub, body);
    TrimTight(c);
    TrimTight(body);
    assert c[..|sub|] == sub && c[|sub| + 1..] == body;
  }

  lemma {:induction false} ClauseReadsBack(w: Written)
    requires WellWritten(w)
    ensures ReadClause(WrittenClause(w)) == ClauseResult(Some(w.o), [])
  {
    NameIsPlain(w.o);
    WrittenReadsBack(w);
    ClauseParts(w.o.sub, Join(WrittenFields(w), '&'));
    FieldsReadBack(w);
  }

  // ----- Splitting

  lemma {:induction false} JoinLacks(parts: seq<string>, sep: char, c: char)
    requires sep != c && forall m :: 0 <= m < |parts| ==> Lacks(parts[m], c)
    ensures Lacks(Join(parts, sep), c)
  {
    if |parts| > 1 {
      JoinLacks(parts[..|parts| - 1], sep, c);
    }
  }

  /** A depth of two halves, with its key. */
  ghost predicate TwoHalves(d: string) {
    exists head, tail :: Halves(d, head, tail)
  }

  ghost predicate Halves(d: string, head: string, tail: string) {
    DepthHead(head) && DepthTail(tail) && d == head + "+" + tail
  }

  /** In a well written clause a '+' occurs only inside a depth that ends it. */
  ghost predicate OneDepthAtMost(c: string) {
    Lacks(c, '+') || exists p: string, d: string :: EndsInDepth(c, p, d)
  }

  ghost predicate EndsInDepth(c: string, p: string, d: string) {
    p != "" && Lacks(p, '+') && IsMark(p[|p| - 1]) && TwoHalves(d) && c == p + d
  }

  lemma {:induction false} FieldLacksPlus(key: string, val: string)
    requires Lacks(key, '+') && Lacks(val, '+')
    ensures Lacks(key + ":" + val, '+')
  {
  }

  lemma {:induction false} OtherFieldsLackPlus(w: Written)
    requires WellWritten(w)
    ensures forall m :: 0 <= m < |SortField(w) + TimeField(w)| ==> Lacks((SortField(w) + TimeField(w))[m], '+')
    ensures w.o.depth != "" && w.o.depth != "l2+l3" ==> Lacks(w.depthKey + ":" + w.depthText, '+')
    ensures w.o.depth == "l2+l3" ==> TwoHalves(w.depthKey + ":" + w.depthText)
  {
    SortLacksPlus(w);
    TimeLacksPlus(w);
    DepthLacksPlus(w);
    HalvesWritten(w);
  }

  lemma {:induction false} SortLacksPlus(w: Written)
    requires WellWritten(w)
    ensures forall m :: 0 <= m < |SortField(w)| ==> Lacks(SortField(w)[m], '+')
  {
  }

  lemma {:induction false} TimeLacksPlus(w: Written)
    requires WellWritten(w)
    ensures forall m :: 0 <= m < |TimeField(w)| ==> Lacks(TimeField(w)[m], '+')
  {
    if w.o.timeframe != "" {
      FieldLacksPlus(w.timeKey, w.o.timeframe);
    }
  }

  lemma {:induction false} DepthLacksPlus(w: Written)
    requires WellWritten(w)
    ensures w.o.depth != "" && w.o.depth != "l2+l3" ==> Lacks(w.depthKey + ":" + w.depthText, '+')
  {
    if w.o.depth != "" && w.o.depth != "l2+l3" {
      FieldLacksPlus(w.depthKey, w.depthText);
    }
  }

  lemma {:induction false} HalvesWritten(w: Written)
    requires WellWritten(w)
    ensures w.o.depth == "l2+l3" ==> TwoHalves(w.depthKey + ":" + w.depthText)
  {
    if w.o.depth == "l2+l3" {
      var tail := if w.depthText == "l2+l3" then "l3" else "l2";
      var head := w.depthKey + ":" + if w.depthText == "l2+l3" then "l2" else "l3";
      assert w.depthText == w.depthText[..2] + "+" + tail;
      assert Halves(w.depthKey + ":" + w.depthText, head, tail);
    }
  }

  lemma {:induction false} ClauseShape(w: Written)
    requires WellWritten(w)
    ensures OneDepthAtMost(WrittenClause(w))
  {
    NameIsPlain(w.o);
    OtherFieldsLackPlus(w);
    var init := SortField(w) + TimeField(w);
    if w.o.depth == "" {
      assert WrittenFields(w) == init;
      JoinLacks(init, '&', '+');
    } else if w.o.depth != "l2+l3" {
      JoinLacks(WrittenFields(w), '&', '+');
    } else {
      DepthClauseShape(w.o.sub, init, w.depthKey + ":" + w.depthText);
    }
  }

  lemma {:induction false} DepthClauseShape(sub: string, init: seq<string>, d: string)
    requires Lacks(sub, '+') && TwoHalves(d) && forall m :: 0 <= m < |init| ==> Lacks(init[m], '+')
    ensures OneDepthAtMost(sub + "=" + Join(init + [d], '&'))
  {
    JoinLacks(init, '&', '+');
    JoinMore(init, '&', d);
    var c := sub + "=" + Join(init + [d], '&');
    var p := sub + "=" + if init == [] then "" else Join(init, '&') + "&";
    assert c == p + d;
    assert EndsInDepth(c, p, d);
  }

  lemma HeadIs(head: string)
    requires DepthHead(head)
    ensures Lower(head) == head && Lacks(head, '+') && Lacks(head, '=') && Lacks(head, '&')
  {
    LowerSame(head);
  }

  lemma TailIs(tail: string)
    requires DepthTail(tail)
    ensures Lower(tail) == tail && |tail| == 2 && Lacks(tail, '+') && Lacks(tail, '&')
  {
    LowerSame(tail);
  }

  lemma {:induction false} HalvesAreDepth(d: string)
    requires TwoHalves(d)
    ensures var n := |d| - 3;
            && n >= 0 && DepthHead(Lower(d[..n])) && d[n] == '+' && DepthTail(Lower(d[n + 1..]))
            && (forall i :: 0 <= i < |d| && i != n ==> d[i] != '+')
            && (forall i :: 0 <= i < n ==> !IsMark(d[i])) && (forall i :: n < i < |d| ==> !IsStop(d[i]))
  {
    var head, tail :| Halves(d, head, tail);
    HeadIs(head);
    TailIs(tail);
    assert d[..|head|] == head && d[|head| + 1..] == tail;
  }

  /** A depth of two halves stands at q. */
  ghost predicate DepthAt(raw: string, q: nat, d: string) {
    TwoHalves(d) && q + |d| <= |raw| && raw[q..q + |d|] == d && (q + |d| < |raw| ==> raw[q + |d|] == '+')
  }

  lemma {:induction false} DepthChars(raw: string, q: nat, d: string)
    requires DepthAt(raw, q, d)
    ensures var n := |d| - 3;
            && n >= 0 && DepthHead(Lower(raw[q..q + n])) && DepthTail(Lower(raw[q + n + 1..q + |d|]))
            && (forall i: nat :: q <= i < q + n ==> !IsMark(raw[i]))
            && (forall i: nat :: q + n < i < q + |d| ==> !IsStop(raw[i]))
  {
    var n := |d| - 3;
    HalvesAreDepth(d);
    forall i: nat | q <= i < q + |d| ensures raw[i] == d[i - q] {
      assert raw[i] == raw[q..q + |d|][i - q];
    }
    assert raw[q..q + n] == raw[q..q + |d|][..n];
    assert raw[q + n + 1..q + |d|] == raw[q..q + |d|][n + 1..];
  }

  lemma {:induction false} MarkBeforeDepth(raw: string, at: nat, q: nat, d: string)
    requires DepthAt(raw, q, d) && at < q && IsMark(raw[q - 1])
    ensures |d| >= 3 && LastMark(raw, at, q + |d| - 4) == q - 1
  {
    DepthChars(raw, q, d);
    var r := LastMark(raw, at, q + |d| - 4);
    assert r < q;
  }

  lemma {:induction false} StopAfterDepth(raw: string, q: nat, d: string)
    requires DepthAt(raw, q, d)
    ensures |d| >= 3 && NextStop(raw, q + |d| - 2) == q + |d|
  {
    DepthChars(raw, q, d);
    var r := NextStop(raw, q + |d| - 2);
  }

  lemma {:induction false} DepthAtJoins(raw: string, at: nat, q: nat, d: string)
    requires DepthAt(raw, q, d) && at < q && IsMark(raw[q - 1])
    ensures |d| >= 3 && DepthJoin(raw, at, q + |d| - 3)
  {
    MarkBeforeDepth(raw, at, q, d);
    StopAfterDepth(raw, q, d);
    DepthChars(raw, q, d);
  }

  /** The text has this part at this place. */
  ghost predicate Sits(raw: string, at: nat, c: string) {
    at + |c| <= |raw| && raw[at..at + |c|] == c
  }

  lemma SitsChar(raw: string, at: nat, c: string, k: nat)
    requires Sits(raw, at, c) && k < |c|
    ensures raw[at + k] == c[k]
  {
    assert raw[at + k] == raw[at..at + |c|][k];
  }

  /** The '+' inside a clause that stands in the text is taken for what it is. */
  lemma {:induction false} InnerPlusJoins(raw: string, at: nat, c: string, i: nat)
    requires Sits(raw, at, c) && OneDepthAtMost(c)
    requires at + |c| < |raw| ==> raw[at + |c|] == '+'
    requires at <= i < at + |c| && raw[i] == '+'
    ensures DepthJoin(raw, at, i)
  {
    SitsChar(raw, at, c, i - at);
    var p: string, d: string :| EndsInDepth(c, p, d);
    EndingPlusJoins(raw, at, c, p, d);
    PlusPlace(c, p, d, i - at);
  }

  lemma {:induction false} EndingPlusJoins(raw: string, at: nat, c: string, p: string, d: string)
    requires Sits(raw, at, c) && EndsInDepth(c, p, d)
    requires at + |c| < |raw| ==> raw[at + |c|] == '+'
    ensures |d| >= 3 && at + |p| + |d| - 3 < |raw| && DepthJoin(raw, at, at + |p| + |d| - 3)
  {
    SamePlaces(raw, at, c, p, d);
    DepthAtJoins(raw, at, at + |p|, d);
  }

  lemma {:induction false} PlusPlace(c: string, p: string, d: string, k: nat)
    requires EndsInDepth(c, p, d) && k < |c| && c[k] == '+'
    ensures k == |p| + |d| - 3
  {
    HalvesAreDepth(d);
    if k >= |p| {
      assert c[k] == d[k - |p|];
    }
  }

  lemma {:induction false} SamePlaces(raw: string, at: nat, c: string, p: string, d: string)
    requires Sits(raw, at, c) && EndsInDepth(c, p, d)
    requires at + |c| < |raw| ==> raw[at + |c|] == '+'
    ensures IsMark(raw[at + |p| - 1]) && DepthAt(raw, at + |p|, d)
  {
    SitsChar(raw, at, c, |p| - 1);
    assert raw[at + |p|..at + |p| + |d|] == raw[at..at + |c|][|p|..] == c[|p|..];
  }

  /** A '+' before another clause separates: what follows up to the next stop holds a '='. */
  lemma {:induction false} OuterPlusCuts(raw: string, at: nat, plus: nat, e: nat)
    requires at <= plus < |raw| && plus + 1 + e < |raw| && raw[plus + 1 + e] == '='
    requires forall k :: plus + 1 <= k < plus + 1 + e ==> !IsStop(raw[k])
    ensures !DepthJoin(raw, at, plus)
  {
    var k := NextStop(raw, plus + 1);
    assert k > plus + 1 + e;
    var tail := raw[plus + 1..k];
    LowerAt(tail, e);
    assert Lower(tail)[e] == '=';
  }

  /** What the splitter relies on. */
  ghost predicate ClauseLike(c: string) {
    c != "" && Tight(c) && OneDepthAtMost(c) && exists e: nat :: NameEnds(c, e)
  }

  ghost predicate NameEnds(c: string, e: nat) {
    e < |c| && c[e] == '=' && forall k :: 0 <= k < e ==> !IsStop(c[k])
  }

  lemma {:induction false} TextIsClauseLike(w: Written)
    requires WellWritten(w)
    ensures ClauseLike(WrittenClause(w))
  {
    var c := WrittenClause(w);
    ClauseShape(w);
    ClauseEnds(w);
    NameIsPlain(w.o);
    PlainIs(w.o.sub);
    assert NameEnds(c, |w.o.sub|);
  }

  lemma {:induction false} NextCuts(raw: string, at: nat, plus: nat, c: string)
    requires ClauseLike(c) && at <= plus < |raw|
    requires Sits(raw, plus + 1, c)
    ensures !DepthJoin(raw, at, plus)
  {
    var e: nat :| NameEnds(c, e);
    SitsChar(raw, plus + 1, c, e);
    forall k | plus + 1 <= k < plus + 1 + e ensures !IsStop(raw[k]) {
      SitsChar(raw, plus + 1, c, k - plus - 1);
    }
    OuterPlusCuts(raw, at, plus, e);
  }

  lemma {:induction false} NothingCutsInside(raw: string, at: nat, c: string)
    requires OneDepthAtMost(c) && Sits(raw, at, c)
    requires at + |c| < |raw| ==> raw[at + |c|] == '+'
    ensures forall i: nat :: at <= i < at + |c| ==> !TopCut(raw)(at, i)
  {
    forall i: nat | at <= i < at + |c| ensures !TopCut(raw)(at, i) {
      if raw[i] == '+' {
        InnerPlusJoins(raw, at, c, i);
      }
    }
  }

  /** A clause stands where its text does, if the text ends there or a '+' and another clause follow. */
  lemma {:induction false} OneStands(raw: string, at: nat, c: string, next: string)
    requires ClauseLike(c) && Sits(raw, at, c)
    requires at + |c| < |raw| ==> raw[at + |c|] == '+' && ClauseLike(next) && Sits(raw, at + |c| + 1, next)
    ensures Stands(raw, TopCut(raw), at, c)
  {
    NothingCutsInside(raw, at, c);
    if at + |c| < |raw| {
      NextCuts(raw, at, at + |c|, next);
    }
  }

  lemma {:induction false} ClauseLikeStands(parts: seq<string>, m: nat)
    requires m < |parts| && forall k :: 0 <= k < |parts| ==> ClauseLike(parts[k])
    ensures PartStands(Join(parts, '+'), TopCut(Join(parts, '+')), parts, m)
  {
    var raw, at := Join(parts, '+'), Place(parts, m);
    JoinPlaces(parts, '+', m);
    if m + 1 < |parts| {
      JoinPlaces(parts, '+', m + 1);
      assert Place(parts, m + 1) == at + |parts[m]| + 1;
      OneStands(raw, at, parts[m], parts[m + 1]);
    } else {
      OneStands(raw, at, parts[m], "");
    }
  }

  lemma {:induction false} ClausesSplit(parts: seq<string>)
    requires parts != [] && forall k :: 0 <= k < |parts| ==> ClauseLike(parts[k])
    ensures Clauses(Join(parts, '+')) == parts
  {
    var raw := Join(parts, '+');
    forall m: nat | m < |parts| ensures PartStands(raw, TopCut(raw), parts, m) {
      ClauseLikeStands(parts, m);
    }
    JoinPlaces(parts, '+', 0);
    SplitStanding(raw, TopCut(raw), parts);
  }

  lemma {:induction false} ClausesTight(parts: seq<string>)
    requires parts != [] && forall k :: 0 <= k < |parts| ==> ClauseLike(parts[k])
    ensures Trim(Join(parts, '+')) == Join(parts, '+')
  {
    var raw, n := Join(parts, '+'), |parts| - 1;
    JoinPlaces(parts, '+', 0);
    JoinPlaces(parts, '+', n);
    var at := Place(parts, n);
    assert raw[0] == raw[0..|parts[0]|][0];
    assert raw[|raw| - 1] == raw[at..at + |parts[n]|][|parts[n]| - 1];
    TrimTight(raw);
  }

  lemma {:induction false} ClauseTextsMore(os: seq<Override>)
    requires os != [] && ValidOverride(os[|os| - 1])
    ensures ClauseTexts(os) == ClauseTexts(os[..|os| - 1]) + [ClauseText(os[|os| - 1])]
  {
    WrittenPlainly(os[|os| - 1]);
    FieldsPlain(Plainly(os[|os| - 1]));
  }

  // ----- Whole texts

  function WrittenClauses(ws: seq<Written>): (r: seq<string>)
    ensures |r| == |ws| && forall m :: 0 <= m < |ws| ==> r[m] == WrittenClause(ws[m])
  {
    if ws == [] then [] else WrittenClauses(ws[..|ws| - 1]) + [WrittenClause(ws[|ws| - 1])]
  }

  function Overrides(ws: seq<Written>): (r: seq<Override>)
    ensures |r| == |ws| && forall m :: 0 <= m < |ws| ==> r[m] == ws[m].o
  {
    if ws == [] then [] else Overrides(ws[..|ws| - 1]) + [ws[|ws| - 1].o]
  }

  function AllPlainly(os: seq<Override>): (r: seq<Written>)
    ensures |r| == |os| && forall m :: 0 <= m < |os| ==> r[m] == Plainly(os[m])
  {
    if os == [] then [] else AllPlainly(os[..|os| - 1]) + [Plainly(os[|os| - 1])]
  }

  ghost predicate WellWrittenList(ws: seq<Written>) {
    && (forall i :: 0 <= i < |ws| ==> WellWritten(ws[i]))
    && forall i, j :: 0 <= i < j < |ws| ==> ws[i].o.sub != ws[j].o.sub
  }

  /** The splitter recovers the clauses of a well written text. */
  lemma {:induction false} WrittenSplits(ws: seq<Written>)
    requires WellWrittenList(ws)
    ensures Clauses(Join(WrittenClauses(ws), '+')) == WrittenClauses(ws)
    ensures Trim(Join(WrittenClauses(ws), '+')) == Join(WrittenClauses(ws), '+')
  {
    var parts := WrittenClauses(ws);
    if parts != [] {
      forall k | 0 <= k < |parts| ensures ClauseLike(parts[k]) {
        TextIsClauseLike(ws[k]);
      }
      ClausesSplit(parts);
      ClausesTight(parts);
    }
  }

  lemma {:induction false} CanonicalIsWritten(os: seq<Override>)
    requires ValidList(os)
    ensures WellWrittenList(AllPlainly(os)) && WrittenClauses(AllPlainly(os)) == ClauseTexts(os) && Overrides(AllPlainly(os)) == os
  {
    forall i | 0 <= i < |os| ensures WellWritten(AllPlainly(os)[i]) {
      WrittenPlainly(os[i]);
    }
    if os != [] {
      ValidInit(os);
      CanonicalIsWritten(os[..|os| - 1]);
      ClauseTextsMore(os);
      WrittenPlainly(os[|os| - 1]);
    }
  }

  /** The splitter recovers the clauses of the canonical form. */
  lemma {:induction false} CanonicalSplits(os: seq<Override>)
    requires ValidList(os)
    ensures Clauses(Canonical(os)) == ClauseTexts(os)
    ensures Trim(Canonical(os)) == Canonical(os)
  {
    CanonicalIsWritten(os);
    WrittenSplits(AllPlainly(os));
  }

  // ----- Round trip

  lemma {:induction false} ClauseEnds(w: Written)
    requires WellWritten(w)
    ensures WrittenClause(w) != "" && Tight(WrittenClause(w))
  {
    NameIsPlain(w.o);
    PlainTight(w.o.sub);
    WrittenReadsBack(w);
    TightEnds(w.o.sub, Join(WrittenFields(w), '&'));
  }

  lemma {:induction false} TightEnds(a: string, b: string)
    requires a != "" && b != "" && Tight(a) && Tight(b)
    ensures Tight(a + "=" + b)
  {
    assert (a + "=" + b)[0] == a[0];
  }

  lemma ReadMore(texts: seq<string>, text: string, os: seq<Override>, o: Override)
    requires ReadClauses(texts) == (os, []) && ReadClause(text) == ClauseResult(Some(o), [])
    ensures ReadClauses(texts + [text]) == (Put(os, o), [])
  {
    assert (texts + [text])[..|texts + [text]| - 1] == texts;
    var none: seq<Reject> := [];
    assert none + none == none;
  }

  lemma {:induction false} PutNew(os: seq<Override>, o: Override)
    requires forall i :: 0 <= i < |os| ==> os[i].sub != o.sub
    ensures Put(os, o) == os + [o]
  {
    IndexOfIs(os, o.sub);
  }

  lemma {:induction false} ReadBackStep(texts: seq<string>, init: seq<Override>, w: Written)
    requires ReadClauses(texts) == (init, []) && WellWritten(w) && forall i :: 0 <= i < |init| ==> init[i].sub != w.o.sub
    ensures ReadClauses(texts + [WrittenClause(w)]) == (init + [w.o], [])
  {
    ClauseReadsBack(w);
    ReadMore(texts, WrittenClause(w), init, w.o);
    PutNew(init, w.o);
  }

  lemma WrittenInit(ws: seq<Written>)
    requires WellWrittenList(ws) && ws != []
    ensures var init, last := ws[..|ws| - 1], ws[|ws| - 1];
            WellWrittenList(init) && WellWritten(last) && forall i :: 0 <= i < |Overrides(init)| ==> Overrides(init)[i].sub != last.o.sub
  {
  }

  lemma {:induction false} AllReadBack(ws: seq<Written>)
    requires WellWrittenList(ws)
    ensures ReadClauses(WrittenClauses(ws)) == (Overrides(ws), [])
  {
    if ws != [] {
      WrittenInit(ws);
      AllReadBack(ws[..|ws| - 1]);
      ReadBackStep(WrittenClauses(ws[..|ws| - 1]), Overrides(ws[..|ws| - 1]), ws[|ws| - 1]);
    }
  }

  lemma ValidInit(os: seq<Override>)
    requires ValidList(os) && os != []
    ensures var init, last := os[..|os| - 1], os[|os| - 1];
            && ValidList(init) && ValidOverride(last) && init + [last] == os
            && forall i :: 0 <= i < |init| ==> init[i].sub != last.sub
  {
  }

  /** However a valid list is written, with whatever names of its keys and depths, it parses to the list. */
  lemma {:induction false} WrittenParses(ws: seq<Written>)
    requires WellWrittenList(ws)
    ensures Parse(Join(WrittenClauses(ws), '+')) == (Overrides(ws), [])
  {
    WrittenSplits(ws);
    AllReadBack(ws);
  }

  /** Parsing the canonical form of a valid list gives the list back and rejects nothing. */
  lemma {:induction false} RoundTrip(os: seq<Override>)
    requires ValidList(os)
    ensures Parse(Canonical(os)) == (os, [])
  {
    CanonicalIsWritten(os);
    WrittenParses(AllPlainly(os));
  }

  /** Saving settings twice changes nothing: normalising any text is idempotent. */
  lemma {:induction false} NormalizeIsIdempotent(raw: string)
    ensures var stored := Canonical(Parse(raw).0);
            && Parse(stored) == (Parse(raw).0, [])
            && Canonical(Parse(stored).0) == stored
  {
    ParseIsValid(Clauses(Trim(raw)));
    RoundTrip(Parse(raw).0);
  }

  // ----- Nothing is ignored

  ghost predicate Rejects(st: Fields, r: Fields, kv: string) {
    r.ov == st.ov && r.anyOK == st.anyOK && exists reason :: r.bad == st.bad + [Reject(kv, reason)]
  }

  ghost predicate Sets(st: Fields, r: Fields) {
    r.anyOK && r.bad == st.bad && r.ov.sub == st.ov.sub
  }

  lemma {:induction false} Rejected(st: Fields, kv: string, reason: Reason)
    ensures Rejects(st, st.(bad := st.bad + [Reject(kv, reason)]), kv)
  {
  }

  lemma {:induction false} SetFieldAnswered(st: Fields, kv: string, key: string, val: string)
    ensures Sets(st, SetField(st, kv, key, val)) || Rejects(st, SetField(st, kv, key, val), kv)
  {
    Rejected(st, kv, BadSort);
    Rejected(st, kv, BadTime);
    Rejected(st, kv, BadDepth);
    Rejected(st, kv, UnknownKey);
  }

  /** A field that is not blank either sets something, or is rejected and sets nothing. */
  lemma {:induction false} FieldAnswered(st: Fields, raw: string)
    ensures var r := ReadField(st, raw);
            if Trim(raw) == "" then r == st else Sets(st, r) || Rejects(st, r, Trim(raw))
  {
    var kv := Trim(raw);
    if kv != "" {
      if Index(kv, ':') == |kv| {
        Rejected(st, kv, MissingColon);
      } else {
        SetFieldAnswered(st, kv, KeyOf(kv), ValueOf(kv));
      }
    }
  }

  /** A clause that is not blank gives an override or a reject. */
  lemma {:induction false} ClauseAnswered(raw: string)
    ensures Trim(raw) != "" ==> ReadClause(raw).ov.Some? || ReadClause(raw).bad != []
    ensures Trim(raw) == "" ==> ReadClause(raw) == ClauseResult(None, [])
  {
  }

  /** A later clause for a subreddit takes the place of the earlier one, and no other override changes. */
  lemma {:induction false} LaterClauseWins(clauses: seq<string>, text: string, i: nat)
    requires ReadClause(text).ov.Some?
    ensures var os, after, o := ReadClauses(clauses).0, ReadClauses(clauses + [text]).0, ReadClause(text).ov.value;
            && (i < |os| && os[i].sub == o.sub ==> after == os[i := o])
            && ((forall j :: 0 <= j < |os| ==> os[j].sub != o.sub) ==> after == os + [o])
  {
    var os, o := ReadClauses(clauses).0, ReadClause(text).ov.value;
    assert (clauses + [text])[..|clauses|] == clauses;
    ParseIsValid(clauses);
    IndexOfIs(os, o.sub);
    if i < |os| && os[i].sub == o.sub {
      assert IndexOf(os, o.sub) == i;
    }
  }
}
