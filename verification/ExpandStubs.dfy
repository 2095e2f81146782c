/**
  Inlining archived comments in place of "more" stubs. The recursion follows the ids
  a stub lists through the archive, so it returns exactly when those references do
  not run in a circle; the model counts its stack and is None when it would not return.
 */
module ExpandStubs {
  import opened Common
  import opened CommentTree
  import opened MergeTrees

  /** The stubs the expansion looks at: under a comment, and listing someone. */
  predicate Expandable(c: Comment) {
    c.kind.More? && c.parentKind.T1? && |c.children| > 0
  }

  /** ExpandMoreFromArchive with `stack` nested calls to spend. */
  ghost function Expanded(cs: seq<Comment>, archive: map<Id, Comment>, stack: nat): Option<seq<Comment>>
    decreases stack, 0, 0
  {
    if stack == 0 then None
    else if |archive| == 0 then Some(cs)
    else ExpandAll(cs, archive, stack)
  }

  ghost function ExpandAll(cs: seq<Comment>, archive: map<Id, Comment>, stack: nat): Option<seq<Comment>>
    requires stack > 0
    decreases stack - 1, 2, |cs|
  {
    if cs == [] then Some([])
    else Both(ExpandOne(cs[0], archive, stack), ExpandAll(cs[1..], archive, stack))
  }

  ghost function Both(a: Option<seq<Comment>>, b: Option<seq<Comment>>): Option<seq<Comment>> {
    if a.None? || b.None? then None else Some(a.value + b.value)
  }

  ghost function ExpandOne(c: Comment, archive: map<Id, Comment>, stack: nat): Option<seq<Comment>>
    requires stack > 0
    decreases stack - 1, 1, |c.children| + 1
  {
    if Expandable(c) then
      Both(Resolve(c.children, archive, stack), Some(Leftover(c, Unknown(c.children, archive.Keys))))
    else
      var replies := Expanded(c.replies, archive, stack - 1);
      if replies.None? then None else Some([c.(replies := replies.value)])
  }

  /** The archived comments among `ids`, in order, each with its own replies expanded. */
  ghost function Resolve(ids: seq<Id>, archive: map<Id, Comment>, stack: nat): Option<seq<Comment>>
    requires stack > 0
    decreases stack - 1, 1, |ids|
  {
    if ids == [] then Some([]) else
    var before := Resolve(ids[..|ids| - 1], archive, stack);
    var id := ids[|ids| - 1];
    if id !in archive then before else
    var replies := Expanded(archive[id].replies, archive, stack - 1);
    if replies.None? then None else Both(before, Some([archive[id].(replies := replies.value)]))
  }

  /** The trimmed stub that stays for the ids the archive does not have. */
  ghost function Leftover(stub: Comment, missing: seq<Id>): seq<Comment> {
    if missing == [] then [] else [stub.(children := missing, moreCount := |missing|)]
  }

  // ----- The program

  lemma {:induction false} BothAssociates(a: Option<seq<Comment>>, b: Option<seq<Comment>>, c: Option<seq<Comment>>)
    ensures Both(a, Both(b, c)) == Both(Both(a, b), c)
    ensures Both(a, Some([])) == a == Both(Some([]), a)
  {
    if a.Some? {
      assert a.value + [] == a.value == [] + a.value;
      if b.Some? && c.Some? {
        assert a.value + (b.value + c.value) == (a.value + b.value) + c.value;
      }
    }
  }

  lemma {:induction false} ExpandAllStep(cs: seq<Comment>, i: nat, archive: map<Id, Comment>, stack: nat)
    requires stack > 0 && i < |cs|
    ensures ExpandAll(cs[..i + 1], archive, stack)
         == Both(ExpandAll(cs[..i], archive, stack), ExpandOne(cs[i], archive, stack))
  {
    BothAssociates(ExpandOne(cs[0], archive, stack), ExpandAll(cs[1..], archive, stack), None);
    if i == 0 {
      assert cs[..1] == [cs[0]] && cs[..0] == [];
      assert ExpandAll([cs[0]][1..], archive, stack) == Some([]);
    } else {
      BothAssociates(ExpandOne(cs[0], archive, stack), ExpandAll(cs[1..][..i - 1], archive, stack),
                     ExpandOne(cs[i], archive, stack));
      ExpandAllStep(cs[1..], i - 1, archive, stack);
      assert cs[..i + 1][1..] == cs[1..][..i] && cs[..i][1..] == cs[1..][..i - 1];
    }
  }

  lemma {:induction false} ExpandPrefix(cs: seq<Comment>, i: nat, archive: map<Id, Comment>, stack: nat)
    requires stack > 0 && i <= |cs| && ExpandAll(cs, archive, stack).Some?
    ensures ExpandAll(cs[..i], archive, stack).Some?
    decreases |cs| - i
  {
    if i < |cs| {
      ExpandPrefix(cs, i + 1, archive, stack);
      ExpandAllStep(cs, i, archive, stack);
    } else {
      assert cs[..i] == cs;
    }
  }

  lemma {:induction false} ResolvePrefix(ids: seq<Id>, i: nat, archive: map<Id, Comment>, stack: nat)
    requires stack > 0 && i <= |ids| && Resolve(ids, archive, stack).Some?
    ensures Resolve(ids[..i], archive, stack).Some?
    decreases |ids|
  {
    if i < |ids| {
      ResolvePrefix(ids[..|ids| - 1], i, archive, stack);
      assert ids[..|ids| - 1][..i] == ids[..i];
    } else {
      assert ids[..i] == ids;
    }
  }

  method ExpandMoreFromArchive(cs: seq<Comment>, archive: map<Id, Comment>, ghost stack: nat) returns (out: seq<Comment>)
    requires Expanded(cs, archive, stack).Some?
    ensures Some(out) == Expanded(cs, archive, stack)
    decreases stack, 0
  {
    if |archive| == 0 {
      return cs;
    }
    out := [];
    for i := 0 to |cs|
      invariant Some(out) == ExpandAll(cs[..i], archive, stack)
    {
      var c := cs[i];
      ExpandPrefix(cs, i + 1, archive, stack);
      ExpandAllStep(cs, i, archive, stack);
      if c.kind.More? && c.parentKind.T1? && |c.children| > 0 {
        var resolved, missing := ResolveStub(c, archive, stack);
        BothAssociates(Some(out), Some(resolved), Some(Leftover(c, missing)));
        assert ExpandOne(c, archive, stack) == Some(resolved + Leftover(c, missing));
        ghost var before := out;
        out := out + resolved;
        if |missing| > 0 {
          out := out + [c.(children := missing, moreCount := |missing|)];
        }
        assert out == before + (resolved + Leftover(c, missing));
        continue;
      }
      var replies := ExpandMoreFromArchive(c.replies, archive, stack - 1);
      out := out + [c.(replies := replies)];
    }
    assert cs[..|cs|] == cs;
  }

  // the inner loop of ExpandMoreFromArchive
  method ResolveStub(c: Comment, archive: map<Id, Comment>, ghost stack: nat)
      returns (resolved: seq<Comment>, missing: seq<Id>)
    requires stack > 0 && |archive| > 0 && Resolve(c.children, archive, stack).Some?
    ensures Some(resolved) == Resolve(c.children, archive, stack)
    ensures missing == Unknown(c.children, archive.Keys)
    decreases stack - 1, 1
  {
    resolved, missing := [], [];
    for k := 0 to |c.children|
      invariant Some(resolved) == Resolve(c.children[..k], archive, stack)
      invariant missing == Unknown(c.children[..k], archive.Keys)
    {
      var id := c.children[k];
      ResolvePrefix(c.children, k + 1, archive, stack);
      assert c.children[..k + 1][..k] == c.children[..k];
      if id in archive {
        var replies := ExpandMoreFromArchive(archive[id].replies, archive, stack - 1);
        resolved := resolved + [archive[id].(replies := replies)];
      } else {
        missing := missing + [id];
      }
    }
    assert c.children[..|c.children|] == c.children;
  }

  // ----- A settled tree is left alone

  ghost predicate Settled(n: Comment, ids: set<Id>) {
    Expandable(n) ==> forall id :: id in n.children ==> id !in ids
  }

  /** No stub the expansion looks at lists one of `ids`. */
  ghost predicate AllSettled(cs: seq<Comment>, ids: set<Id>) {
    forall n :: n in Nodes(cs) ==> Settled(n, ids)
  }

  /** The tree with the counts of its expandable stubs set to what they list. */
  ghost function Counted(cs: seq<Comment>): seq<Comment> {
    if cs == [] then [] else
    [(if Expandable(cs[0]) then cs[0].(moreCount := |cs[0].children|) else cs[0]).(replies := Counted(cs[0].replies))]
    + Counted(cs[1..])
  }

  ghost function Depth(cs: seq<Comment>): nat {
    if cs == [] then 0 else
    var d, e := Depth(cs[0].replies) + 1, Depth(cs[1..]);
    if d > e then d else e
  }

  lemma {:induction false} UnknownOfSettled(ids: seq<Id>, known: set<Id>)
    requires forall id :: id in ids ==> id !in known
    ensures Unknown(ids, known) == ids
  {
    if ids != [] {
      assert ids == ids[..|ids| - 1] + [ids[|ids| - 1]];
      UnknownOfSettled(ids[..|ids| - 1], known);
    }
  }

  lemma {:induction false} ResolveOfSettled(ids: seq<Id>, archive: map<Id, Comment>, stack: nat)
    requires stack > 0 && forall id :: id in ids ==> id !in archive
    ensures Resolve(ids, archive, stack) == Some([])
  {
    if ids != [] {
      ResolveOfSettled(ids[..|ids| - 1], archive, stack);
    }
  }

  /** Stubs have no replies; needed where a stub is replaced by what it lists. */
  ghost predicate BareStubs(cs: seq<Comment>) {
    forall n :: n in Nodes(cs) && n.kind.More? ==> n.replies == []
  }

  lemma {:induction false} SettledExpands(cs: seq<Comment>, archive: map<Id, Comment>, stack: nat)
    requires AllSettled(cs, archive.Keys) && BareStubs(cs) && stack > Depth(cs) && |archive| > 0
    ensures ExpandAll(cs, archive, stack) == Some(Counted(cs))
    decreases cs
  {
    if cs != [] {
      var c := cs[0];
      assert c in Nodes(cs);
      SettledExpands(cs[1..], archive, stack);
      if Expandable(c) {
        UnknownOfSettled(c.children, archive.Keys);
        ResolveOfSettled(c.children, archive, stack);
        assert Counted(c.replies) == c.replies;
        BothAssociates(Some(Leftover(c, c.children)), None, None);
      } else {
        SettledExpands(c.replies, archive, stack - 1);
        assert ExpandOne(c, archive, stack) == Some([c.(replies := Counted(c.replies))]);
      }
    }
  }

  /** Expanding a settled tree changes nothing but the counts of its stubs. */
  lemma SettledIsFixed(cs: seq<Comment>, archive: map<Id, Comment>, stack: nat)
    requires AllSettled(cs, archive.Keys) && BareStubs(cs) && stack > Depth(cs)
    ensures Expanded(cs, archive, stack) == Some(if |archive| == 0 then cs else Counted(cs))
  {
    if |archive| > 0 {
      SettledExpands(cs, archive, stack);
    }
  }

  /** After a merge, expanding the archived tree against its own index is the identity up to counts. */
  lemma MergedIsFixed(prior: seq<Comment>, incoming: seq<Comment>, stack: nat)
    requires WellFormed(prior) && WellFormed(incoming) && UniqueIds(incoming)
    requires stack > Depth(Merged(prior, incoming))
    ensures var m := Merged(prior, incoming);
            Expanded(m, Index(m), stack) == Some(if |Index(m)| == 0 then m else Counted(m))
  {
    var m := Merged(prior, incoming);
    MergedTidy(prior, incoming);
    MergeLeavesNoCoveredStub(prior, incoming);
    IndexKeys(m);
    forall n | n in Nodes(m) ensures Settled(n, Index(m).Keys) {
      assert Tidy(n, RealIds(m));
    }
    SettledIsFixed(m, Index(m), stack);
  }

  // ----- When the expansion returns

  /** More stack never hurts. */
  lemma {:induction false} MoreStack(cs: seq<Comment>, archive: map<Id, Comment>, s: nat, t: nat)
    requires s <= t && Expanded(cs, archive, s).Some?
    ensures Expanded(cs, archive, t) == Expanded(cs, archive, s)
    decreases s, 0, 0
  {
    if |archive| > 0 {
      MoreStackAll(cs, archive, s, t);
    }
  }

  lemma {:induction false} MoreStackAll(cs: seq<Comment>, archive: map<Id, Comment>, s: nat, t: nat)
    requires 0 < s <= t && ExpandAll(cs, archive, s).Some?
    ensures ExpandAll(cs, archive, t) == ExpandAll(cs, archive, s)
    decreases s - 1, 2, |cs|
  {
    if cs != [] {
      var c := cs[0];
      MoreStackAll(cs[1..], archive, s, t);
      if Expandable(c) {
        MoreStackIds(c.children, archive, s, t);
      } else {
        MoreStack(c.replies, archive, s - 1, t - 1);
      }
    }
  }

  lemma {:induction false} MoreStackIds(ids: seq<Id>, archive: map<Id, Comment>, s: nat, t: nat)
    requires 0 < s <= t && Resolve(ids, archive, s).Some?
    ensures Resolve(ids, archive, t) == Resolve(ids, archive, s)
    decreases s - 1, 1, |ids|
  {
    if ids != [] {
      MoreStackIds(ids[..|ids| - 1], archive, s, t);
      var id := ids[|ids| - 1];
      if id in archive {
        MoreStack(archive[id].replies, archive, s - 1, t - 1);
      }
    }
  }

  /** The archived ids that the stubs of a forest list. */
  ghost predicate Refers(cs: seq<Comment>, archive: map<Id, Comment>, id: Id) {
    id in archive && exists n :: n in Nodes(cs) && Expandable(n) && id in n.children
  }

  /** Ids that refer each to the next: the first is listed by a stub of the forest, each other by one of its predecessor's replies. */
  ghost predicate Chain(cs: seq<Comment>, archive: map<Id, Comment>, p: seq<Id>)
    decreases |p|
  {
    p == [] || (Refers(cs, archive, p[0]) && Chain(archive[p[0]].replies, archive, p[1..]))
  }

  ghost predicate NoRepeat(p: seq<Id>) {
    forall i, j :: 0 <= i < j < |p| ==> p[i] != p[j]
  }

  /** No cycle of stub references can be reached from the forest. */
  ghost predicate NoCycleFrom(cs: seq<Comment>, archive: map<Id, Comment>) {
    forall p: seq<Id> :: Chain(cs, archive, p) ==> NoRepeat(p)
  }

  /** A ranking of the archive under which every stub refers strictly downwards. */
  ghost predicate Ranks(rank: map<Id, nat>, archive: map<Id, Comment>) {
    forall x :: x in archive ==>
      x in rank && forall id :: Refers(archive[x].replies, archive, id) ==> id in rank && rank[id] < rank[x]
  }

  ghost predicate Acyclic(archive: map<Id, Comment>) {
    exists rank: map<Id, nat> :: Ranks(rank, archive)
  }

  ghost predicate Returns(cs: seq<Comment>, archive: map<Id, Comment>) {
    exists s: nat :: Expanded(cs, archive, s).Some?
  }

  /** Stack enough for chains of r references, when archived replies are at most b deep. */
  ghost function Need(r: nat, b: nat): nat {
    if r == 0 then 0 else Need(r - 1, b) + b + 1
  }

  ghost predicate Avoids(p: seq<Id>, seen: set<Id>) {
    NoRepeat(p) && forall i :: 0 <= i < |p| ==> p[i] !in seen
  }

  /** The forest's chains neither repeat an id nor come back to one that led to the forest. */
  ghost predicate Clear(cs: seq<Comment>, archive: map<Id, Comment>, seen: set<Id>) {
    forall p: seq<Id> :: Chain(cs, archive, p) ==> Avoids(p, seen)
  }

  lemma {:induction false} ClearBelow(cs: seq<Comment>, archive: map<Id, Comment>, seen: set<Id>, id: Id)
    requires Clear(cs, archive, seen) && Refers(cs, archive, id)
    ensures id !in seen && Clear(archive[id].replies, archive, seen + {id})
  {
    forall p: seq<Id> | Chain(archive[id].replies, archive, p) ensures id !in seen && Avoids(p, seen + {id}) {
      var q := [id] + p;
      assert q[1..] == p && Chain(cs, archive, q);
      assert forall i :: 0 <= i < |p| ==> p[i] == q[i + 1];
    }
    assert Chain(archive[id].replies, archive, []);
  }

  lemma {:induction false} ClearPart(cs: seq<Comment>, part: seq<Comment>, archive: map<Id, Comment>, seen: set<Id>)
    requires Clear(cs, archive, seen) && forall n :: n in Nodes(part) ==> n in Nodes(cs)
    ensures Clear(part, archive, seen)
  {
    forall p: seq<Id> | Chain(part, archive, p) ensures Avoids(p, seen) {
      assert Chain(cs, archive, p);
    }
  }

  /** Ids of the forest's stubs. */
  ghost predicate AllRefers(cs: seq<Comment>, ids: seq<Id>, archive: map<Id, Comment>) {
    forall id :: id in ids && id in archive ==> Refers(cs, archive, id)
  }

  ghost predicate Shallow(archive: map<Id, Comment>, b: nat) {
    forall x :: x in archive ==> Depth(archive[x].replies) <= b
  }

  /** Stack enough for the stubs of a forest from which the ids not seen can still be reached. */
  ghost function Enough(archive: map<Id, Comment>, seen: set<Id>, b: nat): nat {
    1 + Need(|archive.Keys - seen|, b)
  }

  /** The forest is clear, and there is stack enough for its depth and its stubs. */
  ghost predicate Ready(cs: seq<Comment>, archive: map<Id, Comment>, seen: set<Id>, b: nat, stack: nat) {
    Clear(cs, archive, seen) && Shallow(archive, b) && stack >= Depth(cs) + Enough(archive, seen, b)
  }

  lemma {:induction false} ReadyParts(cs: seq<Comment>, archive: map<Id, Comment>, seen: set<Id>, b: nat, stack: nat)
    requires Ready(cs, archive, seen, b, stack) && cs != []
    ensures stack > 0 && Ready(cs[1..], archive, seen, b, stack) && Ready(cs[0].replies, archive, seen, b, stack - 1)
    ensures Expandable(cs[0]) ==> AllRefers(cs, cs[0].children, archive)
  {
    assert cs[0] in Nodes(cs);
    ClearPart(cs, cs[1..], archive, seen);
    ClearPart(cs, cs[0].replies, archive, seen);
  }

  lemma {:induction false} ReadyBelow(cs: seq<Comment>, archive: map<Id, Comment>, seen: set<Id>, id: Id, b: nat, stack: nat)
    requires Ready(cs, archive, seen, b, stack) && Refers(cs, archive, id)
    ensures stack > 0 && Ready(archive[id].replies, archive, seen + {id}, b, stack - 1)
  {
    ClearBelow(cs, archive, seen, id);
    assert archive.Keys - seen == (archive.Keys - (seen + {id})) + {id};
  }

  lemma {:induction false} ReadyReturns(cs: seq<Comment>, archive: map<Id, Comment>, seen: set<Id>, b: nat, stack: nat)
    requires Ready(cs, archive, seen, b, stack)
    ensures Expanded(cs, archive, stack).Some?
    decreases stack, 3, 0
  {
    ReadyReturnsAll(cs, archive, seen, b, stack);
  }

  lemma {:induction false} ReadyReturnsAll(cs: seq<Comment>, archive: map<Id, Comment>, seen: set<Id>, b: nat, stack: nat)
    requires Ready(cs, archive, seen, b, stack)
    ensures stack > 0 && ExpandAll(cs, archive, stack).Some?
    decreases stack, 2, |cs|
  {
    if cs != [] {
      ReadyParts(cs, archive, seen, b, stack);
      ReadyReturnsAll(cs[1..], archive, seen, b, stack);
      ReadyReturnsOne(cs, archive, seen, b, stack);
    }
  }

  lemma {:induction false} ReadyReturnsOne(cs: seq<Comment>, archive: map<Id, Comment>, seen: set<Id>, b: nat, stack: nat)
    requires Ready(cs, archive, seen, b, stack) && cs != []
    ensures stack > 0 && ExpandOne(cs[0], archive, stack).Some?
    decreases stack, 1, |cs[0].children| + 1
  {
    ReadyParts(cs, archive, seen, b, stack);
    if Expandable(cs[0]) {
      ReadyReturnsIds(cs, cs[0].children, archive, seen, b, stack);
    } else {
      ReadyReturns(cs[0].replies, archive, seen, b, stack - 1);
    }
    OneReturns(cs[0], archive, stack);
  }

  lemma {:induction false} OneReturns(c: Comment, archive: map<Id, Comment>, stack: nat)
    requires stack > 0
    requires if Expandable(c) then Resolve(c.children, archive, stack).Some? else Expanded(c.replies, archive, stack - 1).Some?
    ensures ExpandOne(c, archive, stack).Some?
  {
  }

  lemma AllRefersSplit(cs: seq<Comment>, ids: seq<Id>, archive: map<Id, Comment>)
    requires AllRefers(cs, ids, archive) && ids != []
    ensures AllRefers(cs, ids[..|ids| - 1], archive)
    ensures ids[|ids| - 1] in archive ==> Refers(cs, archive, ids[|ids| - 1])
  {
  }

  lemma {:induction false} ResolveReturns(ids: seq<Id>, archive: map<Id, Comment>, stack: nat)
    requires ids != [] && stack > 0 && Resolve(ids[..|ids| - 1], archive, stack).Some?
    requires var id := ids[|ids| - 1]; id in archive ==> Expanded(archive[id].replies, archive, stack - 1).Some?
    ensures Resolve(ids, archive, stack).Some?
  {
  }

  lemma {:induction false} ReadyReturnsIds(cs: seq<Comment>, ids: seq<Id>, archive: map<Id, Comment>, seen: set<Id>, b: nat,
                                           stack: nat)
    requires Ready(cs, archive, seen, b, stack) && AllRefers(cs, ids, archive)
    ensures stack > 0 && Resolve(ids, archive, stack).Some?
    decreases stack, 1, |ids|
  {
    if ids != [] {
      AllRefersSplit(cs, ids, archive);
      ReadyReturnsIds(cs, ids[..|ids| - 1], archive, seen, b, stack);
      if ids[|ids| - 1] in archive {
        ReadyReturnsBelow(cs, ids[|ids| - 1], archive, seen, b, stack);
      }
      ResolveReturns(ids, archive, stack);
    }
  }

  lemma {:induction false} ReadyReturnsBelow(cs: seq<Comment>, id: Id, archive: map<Id, Comment>, seen: set<Id>, b: nat, stack: nat)
    requires Ready(cs, archive, seen, b, stack) && Refers(cs, archive, id)
    ensures stack > 0 && Expanded(archive[id].replies, archive, stack - 1).Some?
    decreases stack, 1, 0
  {
    ReadyBelow(cs, archive, seen, id, b, stack);
    ReadyReturns(archive[id].replies, archive, seen + {id}, b, stack - 1);
  }

  ghost function MaxDepth(archive: map<Id, Comment>, ids: set<Id>): (b: nat)
    requires ids <= archive.Keys
    ensures forall x :: x in ids ==> Depth(archive[x].replies) <= b
  {
    if ids == {} then 0 else
    var x :| x in ids;
    var b := MaxDepth(archive, ids - {x});
    if Depth(archive[x].replies) > b then Depth(archive[x].replies) else b
  }

  lemma {:induction false} NoCycleReturns(cs: seq<Comment>, archive: map<Id, Comment>)
    requires NoCycleFrom(cs, archive)
    ensures Returns(cs, archive)
  {
    var b := MaxDepth(archive, archive.Keys);
    assert Clear(cs, archive, {});
    ReadyReturns(cs, archive, {}, b, Depth(cs) + Enough(archive, {}, b));
  }

  lemma {:induction false} RankedChain(cs: seq<Comment>, archive: map<Id, Comment>, rank: map<Id, nat>, p: seq<Id>)
    requires Ranks(rank, archive) && Chain(cs, archive, p)
    ensures forall i :: 0 <= i < |p| ==> p[i] in rank && (0 < i ==> rank[p[i]] < rank[p[0]])
    ensures NoRepeat(p)
    decreases |p|
  {
    if p != [] {
      RankedChain(archive[p[0]].replies, archive, rank, p[1..]);
      assert forall i :: 0 < i < |p| ==> p[i] == p[1..][i - 1];
    }
  }

  lemma {:induction false} AcyclicReturns(cs: seq<Comment>, archive: map<Id, Comment>)
    requires Acyclic(archive)
    ensures Returns(cs, archive)
  {
    var rank: map<Id, nat> :| Ranks(rank, archive);
    forall p: seq<Id> | Chain(cs, archive, p) ensures NoRepeat(p) {
      RankedChain(cs, archive, rank, p);
    }
    NoCycleReturns(cs, archive);
  }

  ghost function LeastStack(cs: seq<Comment>, archive: map<Id, Comment>, s: nat): (least: nat)
    requires Expanded(cs, archive, s).Some?
    ensures Expanded(cs, archive, least).Some? && least <= s
    ensures forall t: nat :: Expanded(cs, archive, t).Some? ==> least <= t
  {
    if exists t: nat :: t < s && Expanded(cs, archive, t).Some? then
      var t: nat :| t < s && Expanded(cs, archive, t).Some?;
      LeastStack(cs, archive, t)
    else s
  }

  /** A call that returns has returned from its parts. */
  lemma {:induction false} PartsReturn(cs: seq<Comment>, archive: map<Id, Comment>, s: nat)
    requires cs != [] && |archive| > 0 && Expanded(cs, archive, s).Some?
    ensures s > 0 && Expanded(cs[1..], archive, s).Some?
    ensures if Expandable(cs[0]) then Resolve(cs[0].children, archive, s).Some?
            else Expanded(cs[0].replies, archive, s - 1).Some?
  {
    assert ExpandOne(cs[0], archive, s).Some?;
  }

  lemma BareParts(cs: seq<Comment>)
    requires BareStubs(cs) && cs != []
    ensures BareStubs(cs[0].replies) && BareStubs(cs[1..]) && (cs[0].kind.More? ==> cs[0].replies == [])
  {
    assert cs[0] in Nodes(cs);
  }

  /** A call that returns has returned from every archived comment its stubs list, with less stack. */
  lemma {:induction false} ReferencesReturnEarlier(cs: seq<Comment>, archive: map<Id, Comment>, n: Comment, id: Id, s: nat)
    requires id in archive && n in Nodes(cs) && Expandable(n) && id in n.children
    requires Expanded(cs, archive, s).Some? && BareStubs(cs)
    ensures s > 0 && Expanded(archive[id].replies, archive, s - 1).Some?
    decreases s, |cs|
  {
    assert id in archive.Keys && |archive| == |archive.Keys|;
    PartsReturn(cs, archive, s);
    BareParts(cs);
    if n == cs[0] {
      ResolvedReturns(n.children, archive, id, s);
    } else if n in Nodes(cs[0].replies) {
      ReferencesReturnEarlier(cs[0].replies, archive, n, id, s - 1);
      MoreStack(archive[id].replies, archive, s - 2, s - 1);
    } else {
      ReferencesReturnEarlier(cs[1..], archive, n, id, s);
    }
  }

  lemma {:induction false} ResolvedReturns(ids: seq<Id>, archive: map<Id, Comment>, id: Id, s: nat)
    requires s > 0 && Resolve(ids, archive, s).Some? && id in ids && id in archive
    ensures Expanded(archive[id].replies, archive, s - 1).Some?
  {
    if id != ids[|ids| - 1] {
      ResolvedReturns(ids[..|ids| - 1], archive, id, s);
    }
  }

  ghost predicate BareArchive(archive: map<Id, Comment>) {
    forall x :: x in archive ==> BareStubs(archive[x].replies)
  }

  lemma {:induction false} ReferredReturns(cs: seq<Comment>, archive: map<Id, Comment>, id: Id, s: nat)
    requires Refers(cs, archive, id) && Expanded(cs, archive, s).Some? && BareStubs(cs)
    ensures s > 0 && Expanded(archive[id].replies, archive, s - 1).Some?
  {
    var n :| n in Nodes(cs) && Expandable(n) && id in n.children;
    ReferencesReturnEarlier(cs, archive, n, id, s);
  }

  /** So has it from the last id of every chain, with that much less stack. */
  lemma {:induction false} ChainReturns(cs: seq<Comment>, archive: map<Id, Comment>, p: seq<Id>, s: nat)
    requires p != [] && Chain(cs, archive, p) && Expanded(cs, archive, s).Some? && BareStubs(cs) && BareArchive(archive)
    ensures p[|p| - 1] in archive && |p| <= s && Expanded(archive[p[|p| - 1]].replies, archive, s - |p|).Some?
    decreases |p|
  {
    var id := p[0];
    ReferredReturns(cs, archive, id, s);
    if |p| > 1 {
      var rest := p[1..];
      assert rest[|rest| - 1] == p[|p| - 1] && BareStubs(archive[id].replies);
      ChainReturns(archive[id].replies, archive, rest, s - 1);
    }
  }

  lemma {:induction false} ChainTail(cs: seq<Comment>, archive: map<Id, Comment>, p: seq<Id>, i: nat, j: nat)
    requires Chain(cs, archive, p) && i < j < |p|
    ensures p[i] in archive && Chain(archive[p[i]].replies, archive, p[i + 1..j + 1])
    decreases i
  {
    if i == 0 {
      ChainPrefix(archive[p[0]].replies, archive, p[1..], j);
      assert p[1..][..j] == p[1..j + 1];
    } else {
      ChainTail(archive[p[0]].replies, archive, p[1..], i - 1, j - 1);
      assert p[1..][i..j] == p[i + 1..j + 1];
    }
  }

  lemma {:induction false} ChainPrefix(cs: seq<Comment>, archive: map<Id, Comment>, p: seq<Id>, j: nat)
    requires Chain(cs, archive, p) && j <= |p|
    ensures Chain(cs, archive, p[..j])
    decreases |p|
  {
    if j > 0 {
      ChainPrefix(archive[p[0]].replies, archive, p[1..], j - 1);
      assert p[..j][1..] == p[1..][..j - 1];
    }
  }

  lemma {:induction false} RepeatNeverReturns(cs: seq<Comment>, archive: map<Id, Comment>, p: seq<Id>, i: nat, j: nat)
    requires BareStubs(cs) && BareArchive(archive) && Chain(cs, archive, p) && i < j < |p| && p[i] == p[j]
    ensures !Returns(cs, archive)
  {
    ChainTail(cs, archive, p, i, j);
    ChainPrefix(cs, archive, p, i + 1);
    var x, cycle := p[i], p[i + 1..j + 1];
    assert cycle[|cycle| - 1] == x && p[..i + 1][i] == x;
    forall s: nat | Expanded(cs, archive, s).Some? ensures false {
      ChainReturns(cs, archive, p[..i + 1], s);
      ChainReturns(archive[x].replies, archive, cycle, Spent(x, archive));
    }
  }

  /** A call returns exactly when no cycle of stub references can be reached from the forest it is given. */
  lemma {:induction false} ReturnsIffNoCycle(cs: seq<Comment>, archive: map<Id, Comment>)
    requires BareStubs(cs) && BareArchive(archive)
    ensures Returns(cs, archive) <==> NoCycleFrom(cs, archive)
  {
    if NoCycleFrom(cs, archive) {
      NoCycleReturns(cs, archive);
    } else {
      var p: seq<Id> :| Chain(cs, archive, p) && !NoRepeat(p);
      var i, j :| 0 <= i < j < |p| && p[i] == p[j];
      RepeatNeverReturns(cs, archive, p, i, j);
    }
  }

  /** Every tree expands against the archive exactly when the archive's stub references are acyclic. */
  lemma {:induction false} ReturnsIffAcyclic(archive: map<Id, Comment>)
    requires BareArchive(archive)
    ensures (forall cs: seq<Comment> :: Returns(cs, archive)) <==> Acyclic(archive)
  {
    if Acyclic(archive) {
      forall cs: seq<Comment> ensures Returns(cs, archive) {
        AcyclicReturns(cs, archive);
      }
    }
    if forall cs: seq<Comment> :: Returns(cs, archive) {
      forall x | x in archive ensures Returns(archive[x].replies, archive) {
      }
      var rank := map x | x in archive :: Spent(x, archive);
      forall x, id | x in archive && Refers(archive[x].replies, archive, id) ensures rank[id] < rank[x] {
        var n :| n in Nodes(archive[x].replies) && Expandable(n) && id in n.children;
        ReferencesReturnEarlier(archive[x].replies, archive, n, id, Spent(x, archive));
      }
      assert Ranks(rank, archive);
    }
  }

  ghost function Spent(x: Id, archive: map<Id, Comment>): (s: nat)
    requires x in archive && Returns(archive[x].replies, archive)
    ensures Expanded(archive[x].replies, archive, s).Some?
    ensures forall t: nat :: Expanded(archive[x].replies, archive, t).Some? ==> s <= t
  {
    var s: nat :| Expanded(archive[x].replies, archive, s).Some?;
    LeastStack(archive[x].replies, archive, s)
  }

  /** An archived comment whose own stub lists it, as an unmerged first snapshot can hold. */
  ghost function SelfListing(): Comment {
    var stub := Comment("", More, "a", T1, "", "", false, "", 1, ["a"], []);
    Comment("a", T1, "p", Other("t3"), "", "", false, "", 0, [], [stub])
  }

  /** Expanding that snapshot against its own index never returns, whatever the stack. */
  lemma {:induction false} SelfListingNeverReturns(stack: nat)
    ensures Index([SelfListing()]) == map["a" := SelfListing()]
    ensures Expanded(SelfListing().replies, Index([SelfListing()]), stack).None?
    ensures Expanded([SelfListing()], Index([SelfListing()]), stack).None?
  {
    var a := SelfListing();
    var archive := map["a" := a];
    assert Nodes(a.replies[0].replies) == [] && Nodes(a.replies[1..]) == [];
    assert Nodes([a][1..]) == [];
    assert Nodes(a.replies) == [a.replies[0]];
    assert Nodes([a]) == [a, a.replies[0]];
    assert NoteAll(map[], [a, a.replies[0]]) == NoteAll(archive, [a.replies[0]]) by {
      assert [a, a.replies[0]][1..] == [a.replies[0]];
    }
    assert NoteAll(archive, [a.replies[0]]) == archive by {
      assert [a.replies[0]][1..] == [];
    }
    if stack > 0 {
      SelfListingNeverReturns(stack - 1);
      assert Resolve(["a"], archive, stack).None?;
      assert ExpandOne(a.replies[0], archive, stack).None?;
      assert ExpandOne(a, archive, stack).None?;
    }
  }

  // ----- Expanding any fresh tree against a merged archive

  ghost predicate SettledArchive(archive: map<Id, Comment>) {
    forall x :: x in archive ==> AllSettled(archive[x].replies, archive.Keys) && BareStubs(archive[x].replies)
  }

  lemma MergedArchiveIsSettled(prior: seq<Comment>, incoming: seq<Comment>)
    requires WellFormed(prior) && WellFormed(incoming) && UniqueIds(incoming)
    ensures SettledArchive(Index(Merged(prior, incoming)))
  {
    var m := Merged(prior, incoming);
    MergedTidy(prior, incoming);
    MergeLeavesNoCoveredStub(prior, incoming);
    IndexKeys(m);
    forall x | x in Index(m) ensures AllSettled(Index(m)[x].replies, Index(m).Keys) && BareStubs(Index(m)[x].replies) {
      IndexIs(m, x);
      NodesBelow(m, Index(m)[x]);
      forall n | n in Nodes(Index(m)[x].replies) ensures Settled(n, Index(m).Keys) && (n.kind.More? ==> n.replies == []) {
        assert Tidy(n, RealIds(m));
      }
    }
  }

  lemma {:induction false} SettledRefersToNone(cs: seq<Comment>, archive: map<Id, Comment>, id: Id)
    requires AllSettled(cs, archive.Keys)
    ensures !Refers(cs, archive, id)
  {
    assert forall n :: n in Nodes(cs) ==> Settled(n, archive.Keys);
  }

  /** Any tree at all expands against a settled archive. */
  lemma SettledIsAcyclic(archive: map<Id, Comment>)
    requires SettledArchive(archive)
    ensures Acyclic(archive)
  {
    var rank: map<Id, nat> := map x | x in archive :: 0;
    forall x, id | x in archive ensures !Refers(archive[x].replies, archive, id) {
      SettledRefersToNone(archive[x].replies, archive, id);
    }
    assert Ranks(rank, archive);
  }

  ghost predicate Lists(cs: seq<Comment>, id: Id) {
    exists n :: n in Nodes(cs) && Expandable(n) && id in n.children
  }

  ghost predicate Indexed(archive: map<Id, Comment>) {
    forall x :: x in archive ==> Real(archive[x]) && archive[x].id == x
  }

  /** `out` is an expansion of `cs`: settled, nothing real lost, every listed id either inlined or still listed. */
  ghost predicate Expansion(cs: seq<Comment>, out: seq<Comment>, archive: map<Id, Comment>) {
    && AllSettled(out, archive.Keys) && BareStubs(out)
    && RealIds(cs) <= RealIds(out)
    && (forall id :: Lists(cs, id) ==> if id in archive then id in RealIds(out) else Lists(out, id))
  }

  lemma {:induction false} ExpansionConcat(a: seq<Comment>, x: seq<Comment>, b: seq<Comment>, y: seq<Comment>,
                                           archive: map<Id, Comment>)
    requires Expansion(a, x, archive) && Expansion(b, y, archive)
    ensures Expansion(a + b, x + y, archive)
  {
    NodesConcat(a, b);
    NodesConcat(x, y);
    RealIdsConcat(a, b);
    RealIdsConcat(x, y);
    forall id | Lists(a + b, id) ensures if id in archive then id in RealIds(x + y) else Lists(x + y, id) {
      assert Lists(a, id) || Lists(b, id);
    }
  }

  lemma {:induction false} CountedIsExpansion(cs: seq<Comment>, archive: map<Id, Comment>)
    requires AllSettled(cs, archive.Keys) && BareStubs(cs)
    ensures Expansion(cs, Counted(cs), archive)
    decreases cs
  {
    if cs != [] {
      var c := cs[0];
      assert c in Nodes(cs);
      assert forall n :: n in Nodes(c.replies) || n in Nodes(cs[1..]) ==> n in Nodes(cs);
      CountedIsExpansion(c.replies, archive);
      CountedIsExpansion(cs[1..], archive);
      var d := (if Expandable(c) then c.(moreCount := |c.children|) else c).(replies := Counted(c.replies));
      OneExpands(c, d, archive);
      ExpansionConcat([c], [d], cs[1..], Counted(cs[1..]), archive);
      assert cs == [c] + cs[1..];
    }
  }

  /** A node that keeps its list of children, over expanded replies. */
  lemma {:induction false} OneExpands(c: Comment, d: Comment, archive: map<Id, Comment>)
    requires c.(moreCount := 0, replies := []) == d.(moreCount := 0, replies := [])
    requires Settled(c, archive.Keys) && (c.kind.More? ==> d.replies == [])
    requires Expansion(c.replies, d.replies, archive)
    ensures Expansion([c], [d], archive)
  {
    NodesOne(c);
    NodesOne(d);
    RealIdsCons([c]);
    RealIdsCons([d]);
    forall id | Lists([c], id) ensures if id in archive then id in RealIds([d]) else Lists([d], id) {
      if Expandable(c) && id in c.children {
        assert d in Nodes([d]) && Expandable(d) && id in d.children;
      } else {
        assert Lists(c.replies, id);
      }
    }
  }

  /** What a settled archive inlines for one id. */
  lemma {:induction false} InlinedIs(id: Id, archive: map<Id, Comment>, stack: nat)
    requires SettledArchive(archive) && Indexed(archive) && |archive| > 0 && id in archive
    requires Expanded(archive[id].replies, archive, stack).Some?
    ensures var arc := archive[id].(replies := Expanded(archive[id].replies, archive, stack).value);
            AllSettled([arc], archive.Keys) && BareStubs([arc]) && id in RealIds([arc])
  {
    var replies := archive[id].replies;
    SettledExpandsTo(replies, archive, stack);
    CountedIsExpansion(replies, archive);
    SettledBelow(archive[id].(replies := Counted(replies)), archive.Keys);
  }

  lemma {:induction false} SettledExpandsTo(cs: seq<Comment>, archive: map<Id, Comment>, stack: nat)
    requires AllSettled(cs, archive.Keys) && BareStubs(cs) && |archive| > 0
    requires Expanded(cs, archive, stack).Some?
    ensures Expanded(cs, archive, stack).value == Counted(cs)
  {
    var enough := stack + Depth(cs) + 1;
    SettledIsFixed(cs, archive, enough);
    MoreStack(cs, archive, stack, enough);
  }

  lemma {:induction false} SettledBelow(c: Comment, ids: set<Id>)
    requires Real(c) && AllSettled(c.replies, ids) && BareStubs(c.replies)
    ensures AllSettled([c], ids) && BareStubs([c]) && c.id in RealIds([c])
  {
    NodesOne(c);
  }

  /** What a settled archive inlines for the ids of a stub. */
  lemma {:induction false} ResolvedIs(ids: seq<Id>, archive: map<Id, Comment>, stack: nat)
    requires SettledArchive(archive) && Indexed(archive) && stack > 0 && |archive| > 0
    requires Resolve(ids, archive, stack).Some?
    ensures var out := Resolve(ids, archive, stack).value;
            && AllSettled(out, archive.Keys) && BareStubs(out)
            && forall id :: id in ids && id in archive ==> id in RealIds(out)
  {
    if ids != [] {
      var before, id := ids[..|ids| - 1], ids[|ids| - 1];
      assert ids == before + [id];
      ResolvedIs(before, archive, stack);
      if id in archive {
        InlinedIs(id, archive, stack - 1);
        var arc := archive[id].(replies := Expanded(archive[id].replies, archive, stack - 1).value);
        NodesConcat(Resolve(before, archive, stack).value, [arc]);
        RealIdsConcat(Resolve(before, archive, stack).value, [arc]);
      }
    }
  }

  lemma {:induction false} StubExpands(c: Comment, archive: map<Id, Comment>, stack: nat)
    requires SettledArchive(archive) && Indexed(archive) && stack > 0 && |archive| > 0
    requires Expandable(c) && c.replies == [] && Resolve(c.children, archive, stack).Some?
    ensures Expansion([c], ExpandOne(c, archive, stack).value, archive)
  {
    ResolvedIs(c.children, archive, stack);
    var resolved, missing := Resolve(c.children, archive, stack).value, Unknown(c.children, archive.Keys);
    var left := Leftover(c, missing);
    NodesConcat(resolved, left);
    RealIdsConcat(resolved, left);
    NodesOne(c);
    if missing != [] {
      assert Nodes(left) == [left[0]] && Expandable(left[0]);
    }
    forall id | Lists([c], id) ensures if id in archive then id in RealIds(resolved + left) else Lists(resolved + left, id) {
      assert id in c.children;
      if id !in archive {
        assert id in missing && left[0] in Nodes(resolved + left);
      }
    }
  }

  /**
    Against a settled archive, such as any merged one, the expansion of any tree keeps
    every comment, inlines each archived id its stubs list, leaves the others listed,
    and leaves no stub to resolve.
   */
  lemma {:induction false} ExpandedIsExpansion(cs: seq<Comment>, archive: map<Id, Comment>, stack: nat)
    requires SettledArchive(archive) && Indexed(archive) && |archive| > 0 && BareStubs(cs)
    requires Expanded(cs, archive, stack).Some?
    ensures Expansion(cs, Expanded(cs, archive, stack).value, archive)
    decreases stack, |cs|, 1
  {
    ExpandAllIsExpansion(cs, archive, stack);
  }

  lemma {:induction false} ExpandAllIsExpansion(cs: seq<Comment>, archive: map<Id, Comment>, stack: nat)
    requires SettledArchive(archive) && Indexed(archive) && |archive| > 0 && BareStubs(cs) && stack > 0
    requires ExpandAll(cs, archive, stack).Some?
    ensures Expansion(cs, ExpandAll(cs, archive, stack).value, archive)
    decreases stack, |cs|, 0
  {
    if cs != [] {
      var c := cs[0];
      BareParts(cs);
      ExpandAllIsExpansion(cs[1..], archive, stack);
      if !Expandable(c) {
        ExpandedIsExpansion(c.replies, archive, stack - 1);
      }
      HeadIsExpansion(c, archive, stack);
      ExpansionConcat([c], ExpandOne(c, archive, stack).value, cs[1..], ExpandAll(cs[1..], archive, stack).value, archive);
      assert cs == [c] + cs[1..];
    }
  }

  lemma {:induction false} HeadIsExpansion(c: Comment, archive: map<Id, Comment>, stack: nat)
    requires SettledArchive(archive) && Indexed(archive) && |archive| > 0 && stack > 0
    requires ExpandOne(c, archive, stack).Some? && (c.kind.More? ==> c.replies == [])
    requires !Expandable(c) ==>
               && Expanded(c.replies, archive, stack - 1).Some?
               && Expansion(c.replies, Expanded(c.replies, archive, stack - 1).value, archive)
    ensures Expansion([c], ExpandOne(c, archive, stack).value, archive)
  {
    if Expandable(c) {
      StubExpands(c, archive, stack);
    } else {
      if c.kind.More? {
        assert Expanded([], archive, stack - 1) == Some([]);
      }
      OneExpands(c, c.(replies := Expanded(c.replies, archive, stack - 1).value), archive);
    }
  }

  /** A second expansion finds nothing left to resolve. */
  lemma ExpandTwice(cs: seq<Comment>, archive: map<Id, Comment>, stack: nat, again: nat)
    requires SettledArchive(archive) && Indexed(archive) && |archive| > 0 && BareStubs(cs)
    requires Expanded(cs, archive, stack).Some? && again > Depth(Expanded(cs, archive, stack).value)
    ensures Expanded(Expanded(cs, archive, stack).value, archive, again) == Some(Counted(Expanded(cs, archive, stack).value))
  {
    ExpandedIsExpansion(cs, archive, stack);
    SettledIsFixed(Expanded(cs, archive, stack).value, archive, again);
  }
}
