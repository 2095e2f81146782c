/**
  The scheduler's scanners of the stored override text. They find a subreddit's clause
  and read its fields on their own, without the settings parser.
 */
module SubModeReaders {
  import opened Common
  import opened Texts
  import opened SubModes

  datatype SubMode = SubMode(sort: string, timeframe: string)

  datatype Settings = Settings(sort: string, timeframe: string, depth: string, subModes: string)

  // ----- Specification

  predicate Names(raw: string, target: string) {
    var clause := Trim(raw);
    var eq := Index(clause, '=');
    eq < |clause| && Lower(Trim(clause[..eq])) == target
  }

  function BodyOf(raw: string): string
    requires Index(Trim(raw), '=') < |Trim(raw)|
  {
    Trim(Trim(raw)[Index(Trim(raw), '=') + 1..])
  }

  /** The body of the first clause for the name. */
  ghost function FindBody(clauses: seq<string>, target: string): Option<string> {
    if clauses == [] then None else
    var r, last := FindBody(clauses[..|clauses| - 1], target), clauses[|clauses| - 1];
    if r.Some? then r else if Names(last, target) then Some(BodyOf(last)) else None
  }

  function ReadParam(m: SubMode, kv: string): SubMode {
    if Index(kv, ':') == |kv| then m else SetParam(m, KeyOf(kv), ValueOf(kv))
  }

  function SetParam(m: SubMode, key: string, val: string): SubMode {
    if key == "sort" then m.(sort := val)
    else if key == "time" || key == "t" || key == "timeframe" then m.(timeframe := val)
    else m
  }

  ghost function ReadParams(m: SubMode, kvs: seq<string>): SubMode {
    if kvs == [] then m else ReadParam(ReadParams(m, kvs[..|kvs| - 1]), kvs[|kvs| - 1])
  }

  function DepthIn(kv: string): Option<string> {
    if Index(kv, ':') == |kv| then None else DepthUnder(KeyOf(kv), ValueOf(kv))
  }

  function DepthUnder(key: string, val: string): Option<string> {
    if key == "depth" || key == "d" then CanonicalizeDepth(val) else None
  }

  /** The first usable depth. */
  ghost function FindDepth(kvs: seq<string>): Option<string> {
    if kvs == [] then None else
    var r := FindDepth(kvs[..|kvs| - 1]);
    if r.Some? then r else DepthIn(kvs[|kvs| - 1])
  }

  function GlobalMode(settings: Settings): SubMode {
    SubMode(if settings.sort != "" then settings.sort else "hot",
            if settings.timeframe != "" then settings.timeframe else "day")
  }

  function GlobalDepth(settings: Settings): string {
    var v := Trim(settings.depth);
    if v == "" then "l2+l3"
    else match CanonicalizeDepth(v) case Some(c) => c case None => "l2+l3"
  }

  ghost function ParamsOf(settings: Settings, sub: string): SubMode {
    match FindBody(Clauses(settings.subModes), Lower(sub))
    case None => GlobalMode(settings)
    case Some(body) => ReadParams(GlobalMode(settings), SplitFields(body))
  }

  ghost function DepthOf(settings: Settings, sub: string): string {
    var body := if Lower(Trim(sub)) == "" then None else FindBody(Clauses(settings.subModes), Lower(Trim(sub)));
    var depth := if body.Some? then FindDepth(SplitFields(body.value)) else None;
    if depth.Some? then depth.value else GlobalDepth(settings)
  }

  // ----- The scanners

  method FindClause(raw: string, target: string) returns (body: Option<string>)
    ensures body == FindBody(Clauses(raw), target)
  {
    var clauses := SplitTopLevelClauses(raw);
    for i := 0 to |clauses|
      invariant FindBody(clauses[..i], target) == None
    {
      assert clauses[..i + 1][..i] == clauses[..i];
      var clause := Trim(clauses[i]);
      var eq := Index(clause, '=');
      if eq == |clause| || Lower(Trim(clause[..eq])) != target {
        continue;
      }
      FirstBody(clauses, target, i);
      return Some(Trim(clause[eq + 1..]));
    }
    assert clauses[..|clauses|] == clauses;
    return None;
  }

  lemma {:induction false} FirstBody(clauses: seq<string>, target: string, i: nat)
    requires i < |clauses| && FindBody(clauses[..i], target) == None && Names(clauses[i], target)
    ensures FindBody(clauses, target) == Some(BodyOf(clauses[i]))
  {
    var n := |clauses| - 1;
    if i < n {
      assert clauses[..n][..i] == clauses[..i];
      FirstBody(clauses[..n], target, i);
    }
  }

  method ResolveSubParams(settings: Option<Settings>, sub: string) returns (mode: SubMode)
    ensures mode == if settings.None? then SubMode("hot", "day") else ParamsOf(settings.value, sub)
  {
    mode := SubMode("hot", "day");
    if settings.None? {
      return;
    }
    if settings.value.sort != "" {
      mode := mode.(sort := settings.value.sort);
    }
    if settings.value.timeframe != "" {
      mode := mode.(timeframe := settings.value.timeframe);
    }
    var raw := settings.value.subModes;
    if raw != "" {
      var body := FindClause(raw, Lower(sub));
      if body.Some? {
        var kvs := SplitByChar(body.value, '&');
        ghost var m0 := mode;
        for i := 0 to |kvs|
          invariant mode == ReadParams(m0, kvs[..i])
        {
          assert kvs[..i + 1][..i] == kvs[..i];
          mode := ReadParam(mode, kvs[i]);
        }
        assert kvs[..|kvs|] == kvs;
      }
    }
  }

  method ScanDepth(body: string) returns (depth: Option<string>)
    ensures depth == FindDepth(SplitFields(body))
  {
    var kvs := SplitByChar(body, '&');
    for i := 0 to |kvs|
      invariant FindDepth(kvs[..i]) == None
    {
      assert kvs[..i + 1][..i] == kvs[..i];
      var found := DepthIn(kvs[i]);
      if found.Some? {
        FirstDepth(kvs, i);
        return found;
      }
    }
    assert kvs[..|kvs|] == kvs;
    return None;
  }

  lemma {:induction false} FirstDepth(kvs: seq<string>, i: nat)
    requires i < |kvs| && FindDepth(kvs[..i]) == None && DepthIn(kvs[i]).Some?
    ensures FindDepth(kvs) == DepthIn(kvs[i])
  {
    var n := |kvs| - 1;
    if i < n {
      assert kvs[..n][..i] == kvs[..i];
      FirstDepth(kvs[..n], i);
    }
  }

  method ResolveSubDepth(settings: Option<Settings>, sub: string) returns (depth: string)
    ensures depth == if settings.None? then "l2+l3" else DepthOf(settings.value, sub)
  {
    if settings.None? {
      return "l2+l3";
    }
    var target := Lower(Trim(sub));
    var raw := settings.value.subModes;
    if raw != "" && target != "" {
      var body := FindClause(raw, target);
      if body.Some? {
        var found := ScanDepth(body.value);
        if found.Some? {
          return found.value;
        }
      }
    }
    return GlobalDepth(settings.value);
  }

  // ----- The scanners read what the parser parsed

  lemma {:induction false} ClauseNames(o: Override, target: string)
    requires ValidOverride(o)
    ensures Names(ClauseText(o), target) <==> o.sub == target
    ensures Index(Trim(ClauseText(o)), '=') < |Trim(ClauseText(o))| && BodyOf(ClauseText(o)) == Join(FieldTexts(o), '&')
  {
    NameIsPlain(o);
    BodyReadsBack(o);
    ClauseParts(o.sub, Join(FieldTexts(o), '&'));
  }

  lemma {:induction false} FindBodyMore(texts: seq<string>, text: string, target: string)
    ensures FindBody(texts + [text], target)
            == if FindBody(texts, target).Some? then FindBody(texts, target)
               else if Names(text, target) then Some(BodyOf(text)) else None
  {
    assert (texts + [text])[..|texts + [text]| - 1] == texts;
  }

  lemma {:induction false} BodyFound(os: seq<Override>, target: string)
    requires ValidList(os)
    ensures FindBody(ClauseTexts(os), target)
            == if IndexOf(os, target) < |os| then Some(Join(FieldTexts(os[IndexOf(os, target)]), '&')) else None
  {
    if os != [] {
      var init, o := os[..|os| - 1], os[|os| - 1];
      BodyFound(init, target);
      ClauseTextsMore(os);
      FindBodyMore(ClauseTexts(init), ClauseText(o), target);
      ClauseNames(o, target);
    }
  }

  lemma {:induction false} ParamsMore(m: SubMode, kvs: seq<string>, kv: string)
    ensures ReadParams(m, kvs + [kv]) == ReadParam(ReadParams(m, kvs), kv)
  {
    assert (kvs + [kv])[..|kvs + [kv]| - 1] == kvs;
  }

  lemma {:induction false} FieldRead(m: SubMode, key: string, val: string, kv: string)
    requires Plain(key) && Plain(val) && kv == key + ":" + val
    ensures ReadParam(m, kv) == SetParam(m, key, val) && DepthIn(kv) == DepthUnder(key, val)
  {
    FieldReads(key, val);
  }

  lemma {:induction false} SortRead(m: SubMode, v: string)
    requires ValidSort(v)
    ensures ReadParam(m, "sort:" + v) == m.(sort := v) && DepthIn("sort:" + v) == None
  {
    ValuesArePlain();
    FieldRead(m, "sort", v, "sort:" + v);
  }

  lemma {:induction false} TimeRead(m: SubMode, v: string)
    requires ValidTimeframe(v)
    ensures ReadParam(m, "time:" + v) == m.(timeframe := v) && DepthIn("time:" + v) == None
  {
    ValuesArePlain();
    FieldRead(m, "time", v, "time:" + v);
  }

  lemma {:induction false} DepthRead(m: SubMode, v: string)
    requires ValidDepth(v)
    ensures ReadParam(m, "depth:" + v) == m && DepthIn("depth:" + v) == Some(v)
  {
    ValuesArePlain();
    FieldRead(m, "depth", v, "depth:" + v);
    DepthIsCanonical(v);
  }

  /** An override's fields replace the global ones, each on its own. */
  function Overridden(m: SubMode, o: Override): SubMode {
    SubMode(if o.sort != "" then o.sort else m.sort, if o.timeframe != "" then o.timeframe else m.timeframe)
  }

  lemma {:induction false} ParamsReadBack(m: SubMode, o: Override)
    requires ValidOverride(o)
    ensures ReadParams(m, FieldTexts(o)) == Overridden(m, o)
  {
    FieldTextsAre(o);
    var a, b := SortText(o), SortText(o) + TimeText(o);
    var m1 := m.(sort := if o.sort != "" then o.sort else m.sort);
    if o.sort != "" {
      ParamsMore(m, [], "sort:" + o.sort);
      assert [] + ["sort:" + o.sort] == a;
      SortRead(m, o.sort);
    }
    assert ReadParams(m, a) == m1;
    if o.timeframe != "" {
      ParamsMore(m, a, "time:" + o.timeframe);
      TimeRead(m1, o.timeframe);
    } else {
      assert b == a;
    }
    assert ReadParams(m, b) == Overridden(m, o);
    if o.depth != "" {
      ParamsMore(m, b, "depth:" + o.depth);
      DepthRead(Overridden(m, o), o.depth);
    } else {
      assert FieldTexts(o) == b;
    }
  }

  lemma {:induction false} FindDepthMore(kvs: seq<string>, kv: string)
    ensures FindDepth(kvs + [kv]) == if FindDepth(kvs).Some? then FindDepth(kvs) else DepthIn(kv)
  {
    assert (kvs + [kv])[..|kvs + [kv]| - 1] == kvs;
  }

  lemma {:induction false} DepthReadBack(o: Override)
    requires ValidOverride(o)
    ensures FindDepth(FieldTexts(o)) == if o.depth != "" then Some(o.depth) else None
  {
    FieldTextsAre(o);
    var a, b := SortText(o), SortText(o) + TimeText(o);
    if o.sort != "" {
      FindDepthMore([], "sort:" + o.sort);
      assert [] + ["sort:" + o.sort] == a;
      SortRead(SubMode("", ""), o.sort);
    }
    assert FindDepth(a) == None;
    if o.timeframe != "" {
      FindDepthMore(a, "time:" + o.timeframe);
      TimeRead(SubMode("", ""), o.timeframe);
    } else {
      assert b == a;
    }
    assert FindDepth(b) == None;
    if o.depth != "" {
      FindDepthMore(b, "depth:" + o.depth);
      DepthRead(SubMode("", ""), o.depth);
    } else {
      assert FieldTexts(o) == b;
    }
  }

  /** From the stored text the scheduler reads, for every subreddit, exactly the fields the parser gave it. */
  lemma {:induction false} ScannersAgree(raw: string, settings: Settings, sub: string)
    requires settings.subModes == Canonical(Parse(raw).0)
    ensures var os := Parse(raw).0;
            var k := IndexOf(os, Lower(sub));
            ParamsOf(settings, sub) == if k < |os| then Overridden(GlobalMode(settings), os[k]) else GlobalMode(settings)
    ensures var os := Parse(raw).0;
            var k := IndexOf(os, Lower(Trim(sub)));
            DepthOf(settings, sub) == if k < |os| && os[k].depth != "" then os[k].depth else GlobalDepth(settings)
  {
    var os := Parse(raw).0;
    ParseIsValid(Clauses(Trim(raw)));
    CanonicalSplits(os);
    BodyFound(os, Lower(sub));
    BodyFound(os, Lower(Trim(sub)));
    IndexOfIs(os, Lower(Trim(sub)));
    if IndexOf(os, Lower(sub)) < |os| {
      BodyReadsBack(os[IndexOf(os, Lower(sub))]);
      ParamsReadBack(GlobalMode(settings), os[IndexOf(os, Lower(sub))]);
    }
    if IndexOf(os, Lower(Trim(sub))) < |os| {
      BodyReadsBack(os[IndexOf(os, Lower(Trim(sub)))]);
      DepthReadBack(os[IndexOf(os, Lower(Trim(sub)))]);
    }
  }
}
