/**
  What the merge does to stubs. Merging the same fetch again changes nothing below the
  roots, but appends its surviving root stubs once more; and of the ids that stubs list,
  those that only a nested incoming stub knows of can be dropped. Both are exact.
 */
module MergeStubs {
  import opened Common
  import opened CommentTree
  import opened MergeTrees
  import ExpandStubs

  // ----- Overlaying what was overlaid

  ghost predicate Fixed(cs: seq<Comment>, incoming: seq<Comment>, known: set<Id>) {
    Overlay(cs, incoming, known) == cs
  }

  lemma FixedConcat(a: seq<Comment>, b: seq<Comment>, incoming: seq<Comment>, known: set<Id>)
    requires Fixed(a, incoming, known) && Fixed(b, incoming, known)
    ensures Fixed(a + b, incoming, known)
  {
    OverlayConcat(a, b, incoming, known);
  }

  lemma TrimmedTwice(stub: Comment, known: set<Id>)
    requires Trimmed(stub, known).Some?
    ensures Trimmed(Trimmed(stub, known).value, known) == Trimmed(stub, known)
  {
    ExpandStubs.UnknownOfSettled(Unknown(stub.children, known), known);
  }

  lemma {:induction false} FixedStub(stub: Comment, incoming: seq<Comment>, known: set<Id>)
    requires stub.kind.More?
    ensures Fixed(Kept(Trimmed(stub, known)), incoming, known)
  {
    if Trimmed(stub, known).Some? {
      TrimmedTwice(stub, known);
      OverlayOne(Trimmed(stub, known).value, incoming, known);
    }
  }

  /** What the overlay makes of a single comment. */
  lemma {:induction false} OverlayOne(c: Comment, incoming: seq<Comment>, known: set<Id>)
    ensures c.kind.More? ==> Overlay([c], incoming, known) == Kept(Trimmed(c, known))
    ensures !c.kind.More? && !Real(c) ==> Overlay([c], incoming, known) == [c]
    ensures Real(c) && c.id !in Index(incoming) ==>
              Overlay([c], incoming, known) == [c.(replies := Overlay(c.replies, incoming, known))]
    ensures Real(c) && c.id in Index(incoming) ==>
              var copy := Index(incoming)[c.id];
              Overlay([c], incoming, known)
              == [copy.(replies := Join(Overlay(c.replies, incoming, known), DirectIds(c.replies), copy.replies, incoming, known))]
  {
    assert [c][1..] == [] && Overlay([], incoming, known) == [];
  }

  /** Joining these replies to the forest would add nothing. */
  ghost predicate Absorbed(more: seq<Comment>, out: seq<Comment>, known: set<Id>) {
    forall c :: c in more ==>
      && (Real(c) ==> c.id in DirectIds(out))
      && (c.kind.More? && Trimmed(c, known).Some? ==> HasStubOf(out, c.parentID))
  }

  lemma {:induction false} AbsorbedJoin(out: seq<Comment>, more: seq<Comment>, incoming: seq<Comment>, known: set<Id>)
    requires Absorbed(more, out, known)
    ensures Join(out, DirectIds(out), more, incoming, known) == out
  {
    if more != [] {
      assert more[0] in more;
      AbsorbedJoin(out, more[1..], incoming, known);
    }
  }

  lemma {:induction false} DirectCons(c: Comment, rest: seq<Comment>)
    ensures DirectIds([c] + rest) == (if Real(c) then {c.id} else {}) + DirectIds(rest)
  {
    assert forall d :: d in [c] + rest <==> d == c || d in rest;
  }

  lemma DirectConcat(a: seq<Comment>, b: seq<Comment>)
    ensures DirectIds(a + b) == DirectIds(a) + DirectIds(b)
  {
    assert forall d :: d in a + b <==> d in a || d in b;
  }

  lemma {:induction false} OverlayDirect(cs: seq<Comment>, incoming: seq<Comment>, known: set<Id>)
    ensures DirectIds(Overlay(cs, incoming, known)) == DirectIds(cs)
  {
    if cs != [] {
      var c := cs[0];
      OverlayDirect(cs[1..], incoming, known);
      OverlayCons(cs, incoming, known);
      OverlayOne(c, incoming, known);
      IndexIs(incoming, c.id);
      DirectConcat(Overlay([c], incoming, known), Overlay(cs[1..], incoming, known));
      assert cs == [c] + cs[1..];
      DirectCons(c, cs[1..]);
      OverlayOneDirect(c, incoming, known);
    }
  }

  lemma {:induction false} OverlayOneDirect(c: Comment, incoming: seq<Comment>, known: set<Id>)
    ensures DirectIds(Overlay([c], incoming, known)) == if Real(c) then {c.id} else {}
  {
    OverlayOne(c, incoming, known);
    IndexIs(incoming, c.id);
    var one := Overlay([c], incoming, known);
    if one != [] {
      assert one == [one[0]] + [];
      DirectCons(one[0], []);
    }
  }

  /** A stub of the parent that survives trimming. */
  ghost predicate Blocks(c: Comment, parent: Id, known: set<Id>) {
    c.kind.More? && c.parentID == parent && Trimmed(c, known).Some?
  }

  ghost predicate Blocked(cs: seq<Comment>, parent: Id, known: set<Id>) {
    exists c :: c in cs && Blocks(c, parent, known)
  }

  lemma {:induction false} OverlayOneStub(c: Comment, incoming: seq<Comment>, known: set<Id>, parent: Id)
    ensures HasStubOf(Overlay([c], incoming, known), parent) <==> Blocks(c, parent, known)
  {
    OverlayOne(c, incoming, known);
    IndexIs(incoming, c.id);
    if Blocks(c, parent, known) {
      assert Trimmed(c, known).value in Overlay([c], incoming, known);
    }
  }

  lemma HasStubConcat(a: seq<Comment>, b: seq<Comment>, parent: Id)
    ensures HasStubOf(a + b, parent) <==> HasStubOf(a, parent) || HasStubOf(b, parent)
  {
    assert forall d :: d in a + b <==> d in a || d in b;
  }

  lemma {:induction false} OverlayStubs(cs: seq<Comment>, incoming: seq<Comment>, known: set<Id>, parent: Id)
    requires WellFormed(cs)
    ensures HasStubOf(Overlay(cs, incoming, known), parent) <==> Blocked(cs, parent, known)
  {
    if cs != [] {
      WellFormedParts(cs);
      OverlayStubs(cs[1..], incoming, known, parent);
      OverlayCons(cs, incoming, known);
      HasStubConcat(Overlay([cs[0]], incoming, known), Overlay(cs[1..], incoming, known), parent);
      OverlayOneStub(cs[0], incoming, known, parent);
      BlockedCons(cs, parent, known);
    }
  }

  lemma BlockedCons(cs: seq<Comment>, parent: Id, known: set<Id>)
    requires cs != []
    ensures Blocked(cs, parent, known) <==> Blocks(cs[0], parent, known) || Blocked(cs[1..], parent, known)
  {
    assert forall d :: d in cs <==> d == cs[0] || d in cs[1..];
  }

  /** The overlay of a comment's own replies has absorbed them. */
  lemma {:induction false} OverlayAbsorbs(cs: seq<Comment>, incoming: seq<Comment>, known: set<Id>)
    requires WellFormed(cs)
    ensures Absorbed(cs, Overlay(cs, incoming, known), known)
  {
    OverlayDirect(cs, incoming, known);
    forall c | c in cs && c.kind.More? && Trimmed(c, known).Some?
      ensures HasStubOf(Overlay(cs, incoming, known), c.parentID)
    {
      OverlayStubs(cs, incoming, known, c.parentID);
      assert Blocks(c, c.parentID, known);
    }
  }

  /** What the join does with one more reply. */
  ghost function JoinOne(out: seq<Comment>, direct: set<Id>, c: Comment, incoming: seq<Comment>, known: set<Id>): seq<Comment> {
    if Real(c) then
      if c.id in direct then out else out + [c.(replies := Overlay(c.replies, incoming, known))]
    else if c.kind.More? && Trimmed(c, known).Some? && !HasStubOf(out, c.parentID) then out + [Trimmed(c, known).value]
    else out
  }

  lemma {:induction false} JoinSnoc(out: seq<Comment>, direct: set<Id>, more: seq<Comment>, c: Comment, incoming: seq<Comment>,
                                    known: set<Id>)
    ensures Join(out, direct, more + [c], incoming, known)
         == JoinOne(Join(out, direct, more, incoming, known), direct, c, incoming, known)
    decreases more
  {
    if more == [] {
      assert more + [c] == [c] && [c][1..] == [];
      assert Join(out, direct, [c], incoming, known) == Join(JoinOne(out, direct, c, incoming, known), direct, [], incoming, known);
    } else {
      assert (more + [c])[1..] == more[1..] + [c] && (more + [c])[0] == more[0];
      var next := JoinOne(out, direct, more[0], incoming, known);
      JoinHead(out, direct, more, incoming, known);
      JoinHead(out, direct, more + [c], incoming, known);
      JoinSnoc(next, direct, more[1..], c, incoming, known);
    }
  }

  lemma {:induction false} JoinHead(out: seq<Comment>, direct: set<Id>, more: seq<Comment>, incoming: seq<Comment>, known: set<Id>)
    requires more != []
    ensures Join(out, direct, more, incoming, known)
         == Join(JoinOne(out, direct, more[0], incoming, known), direct, more[1..], incoming, known)
  {
  }

  /** Having joined them all, the join has absorbed them. */
  lemma {:induction false} JoinAbsorbs(out: seq<Comment>, direct: set<Id>, more: seq<Comment>, n: nat, incoming: seq<Comment>,
                                       known: set<Id>)
    requires direct <= DirectIds(out) && n <= |more|
    ensures direct <= DirectIds(Join(out, direct, more[..n], incoming, known))
    ensures Absorbed(more[..n], Join(out, direct, more[..n], incoming, known), known)
  {
    if n == 0 {
      assert more[..n] == [];
    } else {
      var init := more[..n - 1];
      assert more[..n] == init + [more[n - 1]];
      JoinAbsorbs(out, direct, more, n - 1, incoming, known);
      JoinSnoc(out, direct, init, more[n - 1], incoming, known);
      JoinOneAbsorbs(Join(out, direct, init, incoming, known), direct, init, more[n - 1], incoming, known);
    }
  }

  lemma {:induction false} JoinOneAbsorbs(out: seq<Comment>, direct: set<Id>, more: seq<Comment>, c: Comment,
                                          incoming: seq<Comment>, known: set<Id>)
    requires direct <= DirectIds(out) && Absorbed(more, out, known)
    ensures var next := JoinOne(out, direct, c, incoming, known);
            direct <= DirectIds(next) && Absorbed(more + [c], next, known)
  {
    var next := JoinOne(out, direct, c, incoming, known);
    if next != out {
      var added := next[|out|];
      assert next == out + [added];
      DirectConcat(out, [added]);
      assert added in next;
      forall d | d in more && d.kind.More? && Trimmed(d, known).Some? ensures HasStubOf(next, d.parentID) {
        HasStubConcat(out, [added], d.parentID);
      }
      if Real(c) {
        assert c.id in DirectIds([added]) by {
          assert added in [added];
        }
      }
    }
    assert forall d :: d in more + [c] <==> d in more || d == c;
  }

  /** A comment with the incoming payload, with replies that overlaying leaves alone, is left alone. */
  lemma {:induction false} FixedNode(n: Comment, incoming: seq<Comment>, known: set<Id>)
    requires Real(n) && Fixed(n.replies, incoming, known)
    requires n.id in Index(incoming) ==>
               SamePayload(n, Index(incoming)[n.id]) && Absorbed(Index(incoming)[n.id].replies, n.replies, known)
    ensures Fixed([n], incoming, known)
  {
    OverlayOne(n, incoming, known);
    if n.id in Index(incoming) {
      AbsorbedJoin(n.replies, Index(incoming)[n.id].replies, incoming, known);
    }
  }

  /** An incoming comment taken over whole is left alone. */
  lemma {:induction false} FixedTaken(c: Comment, incoming: seq<Comment>, known: set<Id>)
    requires WellFormed(c.replies) && UniqueIds(incoming) && Real(c) && c in Nodes(incoming)
    requires Fixed(Overlay(c.replies, incoming, known), incoming, known)
    ensures Fixed([c.(replies := Overlay(c.replies, incoming, known))], incoming, known)
  {
    UniqueIndex(incoming, c);
    OverlayAbsorbs(c.replies, incoming, known);
    FixedNode(c.(replies := Overlay(c.replies, incoming, known)), incoming, known);
  }

  lemma {:induction false} OverlayFixed(cs: seq<Comment>, incoming: seq<Comment>, known: set<Id>)
    requires WellFormed(cs) && WellFormed(incoming) && UniqueIds(incoming)
    ensures Fixed(Overlay(cs, incoming, known), incoming, known)
    decreases |Nodes(incoming)| - Low(cs, incoming), cs
  {
    if cs != [] {
      var c := cs[0];
      WellFormedParts(cs);
      LowGrows(cs[1..], cs, incoming);
      LowGrows(c.replies, cs, incoming);
      OverlayFixed(cs[1..], incoming, known);
      OverlayCons(cs, incoming, known);
      OverlayOne(c, incoming, known);
      if c.kind.More? {
        FixedStub(c, incoming, known);
      } else if Real(c) {
        OverlayFixed(c.replies, incoming, known);
        var out := Overlay(c.replies, incoming, known);
        if c.id in Index(incoming) {
          var copy := Index(incoming)[c.id];
          IndexIs(incoming, c.id);
          NodesBelow(incoming, copy);
          IndexedIsWellFormed(incoming, c.id);
          LowOfIsLeast(Nodes(cs), Nodes(incoming));
          JumpMovesOn(c, incoming);
          JoinFixed(out, DirectIds(c.replies), copy.replies, incoming, known);
          OverlayDirect(c.replies, incoming, known);
          JoinAbsorbs(out, DirectIds(c.replies), copy.replies, |copy.replies|, incoming, known);
          assert copy.replies[..|copy.replies|] == copy.replies;
          FixedNode(copy.(replies := Join(out, DirectIds(c.replies), copy.replies, incoming, known)), incoming, known);
        } else {
          FixedNode(c.(replies := out), incoming, known);
        }
      }
      FixedConcat(Overlay([c], incoming, known), Overlay(cs[1..], incoming, known), incoming, known);
    }
  }

  lemma {:induction false} JoinFixed(out: seq<Comment>, direct: set<Id>, more: seq<Comment>, incoming: seq<Comment>,
                                     known: set<Id>)
    requires Fixed(out, incoming, known) && WellFormed(more) && WellFormed(incoming) && UniqueIds(incoming)
    requires forall n :: n in Nodes(more) ==> n in Nodes(incoming)
    ensures Fixed(Join(out, direct, more, incoming, known), incoming, known)
    decreases |Nodes(incoming)| - Low(more, incoming), more
  {
    if more != [] {
      var c := more[0];
      WellFormedParts(more);
      LowGrows(more[1..], more, incoming);
      LowGrows(c.replies, more, incoming);
      var next := JoinOne(out, direct, c, incoming, known);
      JoinHead(out, direct, more, incoming, known);
      if Real(c) && c.id !in direct {
        assert c in Nodes(more);
        OverlayFixed(c.replies, incoming, known);
        FixedTaken(c, incoming, known);
        FixedConcat(out, [c.(replies := Overlay(c.replies, incoming, known))], incoming, known);
      } else if next != out {
        FixedStub(c, incoming, known);
        FixedConcat(out, Kept(Trimmed(c, known)), incoming, known);
      }
      JoinFixed(next, direct, more[1..], incoming, known);
    }
  }

  lemma {:induction false} NewRootsFixed(roots: seq<Comment>, archived: set<Id>, incoming: seq<Comment>, known: set<Id>)
    requires WellFormed(roots) && WellFormed(incoming) && UniqueIds(incoming)
    requires forall n :: n in Nodes(roots) ==> n in Nodes(incoming)
    ensures Fixed(NewRoots(roots, archived, incoming, known), incoming, known)
  {
    if roots != [] {
      var c := roots[0];
      WellFormedParts(roots);
      NewRootsFixed(roots[1..], archived, incoming, known);
      var rest := NewRoots(roots[1..], archived, incoming, known);
      if Real(c) && c.id !in archived {
        assert c in Nodes(roots);
        OverlayFixed(c.replies, incoming, known);
        FixedTaken(c, incoming, known);
        FixedConcat([c.(replies := Overlay(c.replies, incoming, known))], rest, incoming, known);
      } else if c.kind.More? {
        FixedStub(c, incoming, known);
        FixedConcat(Kept(Trimmed(c, known)), rest, incoming, known);
      }
    }
  }

  // ----- The same fetch again

  /** The root stubs of a fetch that survive trimming. */
  ghost function RootStubs(roots: seq<Comment>, known: set<Id>): seq<Comment> {
    if roots == [] then [] else
    (if roots[0].kind.More? then Kept(Trimmed(roots[0], known)) else []) + RootStubs(roots[1..], known)
  }

  lemma {:induction false} OnlyStubsAreNew(roots: seq<Comment>, archived: set<Id>, incoming: seq<Comment>, known: set<Id>)
    requires DirectIds(roots) <= archived
    ensures NewRoots(roots, archived, incoming, known) == RootStubs(roots, known)
  {
    if roots != [] {
      assert roots == [roots[0]] + roots[1..];
      DirectCons(roots[0], roots[1..]);
      OnlyStubsAreNew(roots[1..], archived, incoming, known);
    }
  }

  /** Merging a fetch a second time adds its surviving root stubs once more, and nothing else. */
  lemma {:induction false} RefetchAppendsRootStubs(prior: seq<Comment>, incoming: seq<Comment>)
    requires WellFormed(prior) && WellFormed(incoming) && UniqueIds(incoming)
    ensures var merged := Merged(prior, incoming);
            Merged(merged, incoming) == merged + RootStubs(incoming, RealIds(prior) + RealIds(incoming))
  {
    var known, merged := Known(prior, incoming), Merged(prior, incoming);
    IndexKeys(prior);
    IndexKeys(incoming);
    IndexKeys(merged);
    MergeIsUnion(prior, incoming);
    assert Known(merged, incoming) == known == RealIds(prior) + RealIds(incoming);
    OverlayFixed(prior, incoming, known);
    NewRootsFixed(incoming, Index(prior).Keys, incoming, known);
    FixedConcat(Overlay(prior, incoming, known), NewRoots(incoming, Index(prior).Keys, incoming, known), incoming, known);
    DirectAreReal(incoming);
    OnlyStubsAreNew(incoming, Index(merged).Keys, incoming, known);
  }

  /** Nothing is left of the stub: it lists something, and all it lists is known. */
  ghost predicate Covered(stub: Comment, known: set<Id>) {
    stub.children != [] && forall id :: id in stub.children ==> id in known
  }

  lemma {:induction false} NoRootStubsIff(roots: seq<Comment>, known: set<Id>)
    ensures RootStubs(roots, known) == [] <==> forall c :: c in roots && c.kind.More? ==> Covered(c, known)
  {
    if roots != [] {
      var c := roots[0];
      NoRootStubsIff(roots[1..], known);
      TrimmedIff(c, known);
      assert forall d :: d in roots <==> d == c || d in roots[1..];
    }
  }

  lemma TrimmedIff(stub: Comment, known: set<Id>)
    ensures Trimmed(stub, known).None? <==> Covered(stub, known)
  {
    var remaining := Unknown(stub.children, known);
    if remaining != [] {
      assert remaining[0] in remaining;
    }
  }

  /** Archiving the same fetch again is the identity exactly when the two trees hold all that its root stubs list. */
  lemma {:induction false} RefetchIsIdentityIff(prior: seq<Comment>, incoming: seq<Comment>)
    requires WellFormed(prior) && WellFormed(incoming) && UniqueIds(incoming)
    ensures Merged(Merged(prior, incoming), incoming) == Merged(prior, incoming)
       <==> forall c :: c in incoming && c.kind.More? ==> Covered(c, RealIds(prior) + RealIds(incoming))
  {
    RefetchAppendsRootStubs(prior, incoming);
    NoRootStubsIff(incoming, RealIds(prior) + RealIds(incoming));
    var merged, more := Merged(prior, incoming), RootStubs(incoming, RealIds(prior) + RealIds(incoming));
    assert more == [] ==> merged + more == merged;
    assert more != [] ==> |merged + more| != |merged|;
  }

  /** The tree after a fetch has been archived and then n more times. */
  ghost function Refetched(prior: seq<Comment>, incoming: seq<Comment>, n: nat): seq<Comment> {
    if n == 0 then Merged(prior, incoming) else Merged(Refetched(prior, incoming, n - 1), incoming)
  }

  ghost function Times(cs: seq<Comment>, n: nat): seq<Comment> {
    if n == 0 then [] else Times(cs, n - 1) + cs
  }

  lemma {:induction false} MergeStays(prior: seq<Comment>, incoming: seq<Comment>, ids: set<Id>)
    requires WellFormed(prior) && WellFormed(incoming) && UniqueIds(incoming)
    requires RealIds(prior) + RealIds(incoming) == ids
    ensures WellFormed(Merged(prior, incoming)) && RealIds(Merged(prior, incoming)) == ids
  {
    MergedTidy(prior, incoming);
    MergeIsUnion(prior, incoming);
  }

  lemma {:induction false} RefetchedStays(prior: seq<Comment>, incoming: seq<Comment>, n: nat)
    requires WellFormed(prior) && WellFormed(incoming) && UniqueIds(incoming)
    ensures var tree := Refetched(prior, incoming, n);
            WellFormed(tree) && RealIds(tree) == RealIds(prior) + RealIds(incoming)
  {
    var ids := RealIds(prior) + RealIds(incoming);
    if n == 0 {
      MergeStays(prior, incoming, ids);
    } else {
      RefetchedStays(prior, incoming, n - 1);
      MergeStays(Refetched(prior, incoming, n - 1), incoming, ids);
    }
  }

  lemma {:induction false} OneMoreFetch(prior: seq<Comment>, incoming: seq<Comment>, n: nat, ids: set<Id>)
    requires WellFormed(prior) && WellFormed(incoming) && UniqueIds(incoming) && ids == RealIds(prior) + RealIds(incoming)
    ensures Refetched(prior, incoming, n + 1) == Refetched(prior, incoming, n) + RootStubs(incoming, ids)
  {
    if n == 0 {
      RefetchAppendsRootStubs(prior, incoming);
    } else {
      RefetchedStays(prior, incoming, n - 1);
      var before := Refetched(prior, incoming, n - 1);
      AgainAppends(before, incoming, ids);
      assert Refetched(prior, incoming, n) == Merged(before, incoming);
    }
  }

  lemma {:induction false} AgainAppends(before: seq<Comment>, incoming: seq<Comment>, ids: set<Id>)
    requires WellFormed(before) && WellFormed(incoming) && UniqueIds(incoming) && RealIds(incoming) <= ids == RealIds(before)
    ensures Merged(Merged(before, incoming), incoming) == Merged(before, incoming) + RootStubs(incoming, ids)
  {
    RefetchAppendsRootStubs(before, incoming);
    assert RealIds(before) + RealIds(incoming) == ids;
  }

  lemma {:induction false} PilesUp(trees: nat -> seq<Comment>, stubs: seq<Comment>, n: nat)
    requires forall k: nat :: trees(k + 1) == trees(k) + stubs
    ensures trees(n) == trees(0) + Times(stubs, n)
  {
    if n == 0 {
      assert trees(0) + [] == trees(0);
    } else {
      PilesUp(trees, stubs, n - 1);
      assert trees((n - 1) + 1) == trees(n - 1) + stubs;
      OneMoreTime(trees(0), stubs, n - 1);
    }
  }

  /** Every further fetch leaves one more copy of the surviving root stubs at the end of the archived tree. */
  lemma {:induction false} StubsPileUp(prior: seq<Comment>, incoming: seq<Comment>, n: nat)
    requires WellFormed(prior) && WellFormed(incoming) && UniqueIds(incoming)
    ensures Refetched(prior, incoming, n)
         == Merged(prior, incoming) + Times(RootStubs(incoming, RealIds(prior) + RealIds(incoming)), n)
  {
    var ids := RealIds(prior) + RealIds(incoming);
    var trees := (k: nat) => Refetched(prior, incoming, k);
    forall k: nat ensures trees(k + 1) == trees(k) + RootStubs(incoming, ids) {
      OneMoreFetch(prior, incoming, k, ids);
    }
    PilesUp(trees, RootStubs(incoming, ids), n);
  }

  lemma OneMoreTime(tree: seq<Comment>, stubs: seq<Comment>, n: nat)
    ensures (tree + Times(stubs, n)) + stubs == tree + Times(stubs, n + 1)
  {
    Associates(tree, Times(stubs, n), stubs);
  }

  function StubOf(parent: Id, children: seq<Id>): Comment {
    Comment("_", More, parent, T1, "", "", false, "", |children|, children, [])
  }

  lemma {:induction false} OneStubTree(stub: Comment)
    requires stub.kind.More? && stub.replies == []
    ensures Nodes([stub]) == [stub] && WellFormed([stub]) && UniqueIds([stub]) && RealIds([stub]) == {}
  {
    NodesOne(stub);
  }

  lemma {:induction false} OneStubKept(stub: Comment)
    requires stub.kind.More? && Trimmed(stub, {}) == Some(stub)
    ensures RootStubs([stub], {}) == [stub]
  {
    assert [stub][1..] == [] && RootStubs([], {}) == [];
    assert [stub] + [] == [stub];
  }

  lemma {:induction false} OneStubMerged(stub: Comment)
    requires stub.kind.More? && stub.replies == [] && Trimmed(stub, {}) == Some(stub)
    ensures Merged([], [stub]) == [stub]
  {
    OneStubTree(stub);
    IndexKeys([stub]);
    IndexKeys([]);
    assert Index([]).Keys == {} && Known([], [stub]) == {};
    OneStubKept(stub);
    assert DirectIds([stub]) == {};
    OnlyStubsAreNew([stub], {}, [stub], {});
    assert Overlay([], [stub], {}) == [];
    assert [] + [stub] == [stub];
  }

  /** A fetch that is one stub of unseen comments: archived n more times, the tree holds it n + 1 times. */
  lemma {:induction false} OneStubPilesUp(n: nat)
    ensures Refetched([], [StubOf("p", ["x"])], n) == Times([StubOf("p", ["x"])], n + 1)
  {
    var stub := StubOf("p", ["x"]);
    assert Unknown(["x"], {}) == ["x"] by {
      assert ["x"][..0] == [] && Unknown([], {}) == [];
    }
    OneStubTree(stub);
    OneStubMerged(stub);
    OneStubKept(stub);
    StubsPileUp([], [stub], n);
    assert RealIds([]) + RealIds([stub]) == {};
    TimesFirst([stub], n);
  }

  lemma {:induction false} TimesFirst(cs: seq<Comment>, n: nat)
    ensures cs + Times(cs, n) == Times(cs, n + 1)
  {
    if n == 0 {
      assert cs + [] == cs == [] + cs;
    } else {
      TimesFirst(cs, n - 1);
      Associates(cs, Times(cs, n - 1), cs);
    }
  }
}
