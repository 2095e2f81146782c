/**
  The ids that stubs list, through a merge. A stub of the prior tree and a root stub of
  the fetch keep every id that is not archived; a nested stub of the fetch is dropped
  where the comment above it already has one, and the ids only it lists are lost.
 */
module ListedIds {
  import opened CommentTree
  import opened MergeTrees
  import opened MergeStubs

  /** Some stub of the forest lists the id. */
  ghost predicate Listed(cs: seq<Comment>, z: Id) {
    exists n :: n in Nodes(cs) && Lists(n, z)
  }

  predicate Lists(n: Comment, z: Id) {
    n.kind.More? && z in n.children
  }

  lemma ListedConcat(a: seq<Comment>, b: seq<Comment>, z: Id)
    ensures Listed(a + b, z) <==> Listed(a, z) || Listed(b, z)
  {
    NodesConcat(a, b);
  }

  lemma ListedOne(c: Comment, z: Id)
    ensures Listed([c], z) <==> Lists(c, z) || Listed(c.replies, z)
  {
    NodesOne(c);
    if Lists(c, z) {
      assert c in Nodes([c]);
    }
  }

  lemma ListedCons(cs: seq<Comment>, z: Id)
    requires cs != []
    ensures Listed(cs, z) <==> Lists(cs[0], z) || Listed(cs[0].replies, z) || Listed(cs[1..], z)
  {
    assert cs == [cs[0]] + cs[1..];
    ListedConcat([cs[0]], cs[1..], z);
    ListedOne(cs[0], z);
  }

  /** Trimming a stub takes only known ids out. */
  lemma {:induction false} TrimmedLists(stub: Comment, known: set<Id>, z: Id)
    requires stub.kind.More? && stub.replies == [] && z !in known
    ensures Listed(Kept(Trimmed(stub, known)), z) <==> z in stub.children
  {
    if Trimmed(stub, known).Some? {
      ListedOne(Trimmed(stub, known).value, z);
    } else {
      TrimmedIff(stub, known);
    }
  }

  /** Overlaying a part of the fetch itself keeps the ids it lists. */
  lemma {:induction false} OwnListed(cs: seq<Comment>, incoming: seq<Comment>, known: set<Id>, z: Id)
    requires WellFormed(cs) && UniqueIds(incoming) && z !in known && forall n :: n in Nodes(cs) ==> n in Nodes(incoming)
    ensures Listed(Overlay(cs, incoming, known), z) <==> Listed(cs, z)
    decreases cs
  {
    if cs != [] {
      var c := cs[0];
      WellFormedParts(cs);
      OwnListed(cs[1..], incoming, known, z);
      ListedCons(cs, z);
      OverlayCons(cs, incoming, known);
      OverlayOne(c, incoming, known);
      ListedConcat(Overlay([c], incoming, known), Overlay(cs[1..], incoming, known), z);
      if c.kind.More? {
        TrimmedLists(c, known, z);
      } else if Real(c) {
        assert c in Nodes(cs);
        OwnListed(c.replies, incoming, known, z);
        TakenWhole(c, incoming, known);
        ListedOne(c.(replies := Overlay(c.replies, incoming, known)), z);
      } else {
        ListedOne(c, z);
      }
    }
  }

  /** A comment of the fetch is taken over with its replies overlaid. */
  lemma {:induction false} TakenWhole(c: Comment, incoming: seq<Comment>, known: set<Id>)
    requires WellFormed(c.replies) && UniqueIds(incoming) && Real(c) && c in Nodes(incoming)
    ensures Overlay([c], incoming, known) == [c.(replies := Overlay(c.replies, incoming, known))]
  {
    UniqueIndex(incoming, c);
    OverlayOne(c, incoming, known);
    OverlayAbsorbs(c.replies, incoming, known);
    OverlayDirect(c.replies, incoming, known);
    AbsorbedJoin(Overlay(c.replies, incoming, known), c.replies, incoming, known);
  }

  // ----- What joining the incoming replies of one comment adds

  /** The j-th incoming reply is a surviving stub, and the comment has none of that parent, archived or earlier in the list. */
  ghost predicate Opens(prior: seq<Comment>, more: seq<Comment>, j: nat, known: set<Id>)
    requires j < |more|
  {
    && more[j].kind.More? && Trimmed(more[j], known).Some?
    && !Blocked(prior, more[j].parentID, known) && !Blocked(more[..j], more[j].parentID, known)
  }

  ghost predicate OpensFor(prior: seq<Comment>, more: seq<Comment>, known: set<Id>, z: Id) {
    exists j: nat :: j < |more| && Opens(prior, more, j, known) && z in more[j].children
  }

  /** An incoming reply that the archived comment does not have lists the id. */
  ghost predicate Brings(prior: seq<Comment>, more: seq<Comment>, z: Id) {
    exists c :: c in more && Real(c) && c.id !in DirectIds(prior) && Listed(c.replies, z)
  }

  lemma {:induction false} JoinOneStubs(out: seq<Comment>, direct: set<Id>, c: Comment, incoming: seq<Comment>, known: set<Id>,
                                        parent: Id)
    ensures HasStubOf(JoinOne(out, direct, c, incoming, known), parent) <==> HasStubOf(out, parent) || Blocks(c, parent, known)
  {
    var next := JoinOne(out, direct, c, incoming, known);
    if next != out {
      var added := next[|out|];
      assert next == out + [added];
      HasStubConcat(out, [added], parent);
      assert added in [added];
    }
  }

  lemma BlockedConcat(a: seq<Comment>, c: Comment, parent: Id, known: set<Id>)
    ensures Blocked(a + [c], parent, known) <==> Blocked(a, parent, known) || Blocks(c, parent, known)
  {
    assert forall d :: d in a + [c] <==> d in a || d == c;
  }

  /** The replies joined so far have a stub of the parent exactly when one survives on either side. */
  lemma {:induction false} JoinStubs(prior: seq<Comment>, more: seq<Comment>, n: nat, incoming: seq<Comment>, known: set<Id>,
                                     parent: Id)
    requires WellFormed(prior) && n <= |more|
    ensures HasStubOf(Join(Overlay(prior, incoming, known), DirectIds(prior), more[..n], incoming, known), parent)
       <==> Blocked(prior, parent, known) || Blocked(more[..n], parent, known)
  {
    var out, direct := Overlay(prior, incoming, known), DirectIds(prior);
    if n == 0 {
      OverlayStubs(prior, incoming, known, parent);
      assert more[..n] == [];
    } else {
      var init, c := more[..n - 1], more[n - 1];
      assert more[..n] == init + [c];
      JoinStubs(prior, more, n - 1, incoming, known, parent);
      JoinSnoc(out, direct, init, c, incoming, known);
      JoinOneStubs(Join(out, direct, init, incoming, known), direct, c, incoming, known, parent);
      BlockedConcat(init, c, parent, known);
    }
  }

  lemma {:induction false} OpensSnoc(prior: seq<Comment>, init: seq<Comment>, c: Comment, known: set<Id>, z: Id)
    ensures OpensFor(prior, init + [c], known, z)
       <==> OpensFor(prior, init, known, z) || (Opens(prior, init + [c], |init|, known) && z in c.children)
  {
    var more := init + [c];
    forall j: nat | j < |init| ensures more[..j] == init[..j] && more[j] == init[j] {
    }
    if OpensFor(prior, init, known, z) {
      var j: nat :| j < |init| && Opens(prior, init, j, known) && z in init[j].children;
      assert Opens(prior, more, j, known);
    }
    if OpensFor(prior, more, known, z) {
      var j: nat :| j < |more| && Opens(prior, more, j, known) && z in more[j].children;
      if j < |init| {
        assert Opens(prior, init, j, known);
      }
    }
  }

  lemma BringsSnoc(prior: seq<Comment>, init: seq<Comment>, c: Comment, z: Id)
    ensures Brings(prior, init + [c], z)
       <==> Brings(prior, init, z) || (Real(c) && c.id !in DirectIds(prior) && Listed(c.replies, z))
  {
    assert forall d :: d in init + [c] <==> d in init || d == c;
  }

  lemma {:induction false} JoinOneListed(out: seq<Comment>, direct: set<Id>, c: Comment, incoming: seq<Comment>, known: set<Id>,
                                         z: Id)
    requires WellFormed([c]) && UniqueIds(incoming) && z !in known && forall n :: n in Nodes([c]) ==> n in Nodes(incoming)
    ensures Listed(JoinOne(out, direct, c, incoming, known), z)
       <==> || Listed(out, z)
            || (Real(c) && c.id !in direct && Listed(c.replies, z))
            || (c.kind.More? && Trimmed(c, known).Some? && !HasStubOf(out, c.parentID) && z in c.children)
  {
    WellFormedParts([c]);
    NodesOne(c);
    var next := JoinOne(out, direct, c, incoming, known);
    if Real(c) && c.id !in direct {
      var added := c.(replies := Overlay(c.replies, incoming, known));
      OwnListed(c.replies, incoming, known, z);
      ListedOne(added, z);
      ListedConcat(out, [added], z);
    } else if next != out {
      TrimmedLists(c, known, z);
      ListedConcat(out, Kept(Trimmed(c, known)), z);
    }
  }

  lemma {:induction false} JoinListed(prior: seq<Comment>, more: seq<Comment>, n: nat, incoming: seq<Comment>, known: set<Id>,
                                      z: Id)
    requires WellFormed(prior) && WellFormed(more) && UniqueIds(incoming) && z !in known && n <= |more|
    requires forall m :: m in Nodes(more) ==> m in Nodes(incoming)
    ensures Listed(Join(Overlay(prior, incoming, known), DirectIds(prior), more[..n], incoming, known), z)
       <==> Listed(Overlay(prior, incoming, known), z) || Brings(prior, more[..n], z) || OpensFor(prior, more[..n], known, z)
  {
    var out, direct := Overlay(prior, incoming, known), DirectIds(prior);
    if n == 0 {
      assert more[..n] == [];
    } else {
      var init, c := more[..n - 1], more[n - 1];
      assert more[..n] == init + [c];
      JoinListed(prior, more, n - 1, incoming, known, z);
      JoinSnoc(out, direct, init, c, incoming, known);
      OnePart(more, n - 1);
      JoinOneListed(Join(out, direct, init, incoming, known), direct, c, incoming, known, z);
      JoinStubs(prior, more, n - 1, incoming, known, c.parentID);
      BringsSnoc(prior, init, c, z);
      OpensSnoc(prior, init, c, known, z);
      assert (init + [c])[..|init|] == init;
    }
  }

  lemma {:induction false} OnePart(cs: seq<Comment>, i: nat)
    requires i < |cs|
    ensures forall n :: n in Nodes([cs[i]]) ==> n in Nodes(cs)
    ensures WellFormed(cs) ==> WellFormed([cs[i]])
  {
    NodesAt(cs, i);
    NodesOne(cs[i]);
  }

  // ----- The whole merge

  /** Joining the fetch's replies to those of the archived comment adds the id to what is listed. */
  ghost predicate Adds(y: Comment, incoming: seq<Comment>, known: set<Id>, z: Id) {
    && Real(y) && y.id in Index(incoming)
    && var more := Index(incoming)[y.id].replies;
       Brings(y.replies, more, z) || OpensFor(y.replies, more, known, z)
  }

  ghost predicate AddsIn(cs: seq<Comment>, incoming: seq<Comment>, known: set<Id>, z: Id) {
    exists y :: y in Nodes(cs) && Adds(y, incoming, known, z)
  }

  lemma AddsCons(cs: seq<Comment>, incoming: seq<Comment>, known: set<Id>, z: Id)
    requires cs != []
    ensures AddsIn(cs, incoming, known, z)
       <==> Adds(cs[0], incoming, known, z) || AddsIn(cs[0].replies, incoming, known, z) || AddsIn(cs[1..], incoming, known, z)
  {
    assert forall d :: d in Nodes(cs) <==> d == cs[0] || d in Nodes(cs[0].replies) || d in Nodes(cs[1..]);
  }

  lemma {:induction false} OverlayListed(cs: seq<Comment>, incoming: seq<Comment>, known: set<Id>, z: Id)
    requires WellFormed(cs) && WellFormed(incoming) && UniqueIds(incoming) && z !in known
    ensures Listed(Overlay(cs, incoming, known), z) <==> Listed(cs, z) || AddsIn(cs, incoming, known, z)
    decreases cs
  {
    if cs != [] {
      var c := cs[0];
      WellFormedParts(cs);
      OverlayListed(cs[1..], incoming, known, z);
      ListedCons(cs, z);
      AddsCons(cs, incoming, known, z);
      OverlayCons(cs, incoming, known);
      ListedConcat(Overlay([c], incoming, known), Overlay(cs[1..], incoming, known), z);
      if c.kind.T1? {
        OverlayListed(c.replies, incoming, known, z);
      }
      OneListed(c, incoming, known, z);
    }
  }

  lemma {:induction false} OneListed(c: Comment, incoming: seq<Comment>, known: set<Id>, z: Id)
    requires c.kind.T1? ==> Real(c) && WellFormed(c.replies)
    requires !c.kind.T1? ==> c.replies == []
    requires WellFormed(incoming) && UniqueIds(incoming) && z !in known
    requires c.kind.T1? ==> (Listed(Overlay(c.replies, incoming, known), z)
                             <==> Listed(c.replies, z) || AddsIn(c.replies, incoming, known, z))
    ensures Listed(Overlay([c], incoming, known), z)
       <==> || Lists(c, z) || Listed(c.replies, z)
            || Adds(c, incoming, known, z) || AddsIn(c.replies, incoming, known, z)
  {
    OverlayOne(c, incoming, known);
    if c.kind.More? {
      TrimmedLists(c, known, z);
    } else if !Real(c) {
      ListedOne(c, z);
    } else if c.id in Index(incoming) {
      var copy := Index(incoming)[c.id];
      IndexIs(incoming, c.id);
      NodesBelow(incoming, copy);
      IndexedIsWellFormed(incoming, c.id);
      JoinListed(c.replies, copy.replies, |copy.replies|, incoming, known, z);
      assert copy.replies[..|copy.replies|] == copy.replies;
      ListedOne(Overlay([c], incoming, known)[0], z);
    } else {
      ListedOne(c.(replies := Overlay(c.replies, incoming, known)), z);
    }
  }

  /** A root of the fetch lists the id: a stub, or a comment that is not archived, somewhere below. */
  ghost predicate RootLists(roots: seq<Comment>, archived: set<Id>, z: Id) {
    exists c :: c in roots && RootKeeps(c, archived, z)
  }

  ghost predicate RootKeeps(c: Comment, archived: set<Id>, z: Id) {
    Lists(c, z) || (Real(c) && c.id !in archived && Listed(c.replies, z))
  }

  lemma RootListsCons(roots: seq<Comment>, archived: set<Id>, z: Id)
    requires roots != []
    ensures RootLists(roots, archived, z) <==> RootKeeps(roots[0], archived, z) || RootLists(roots[1..], archived, z)
  {
    assert forall d :: d in roots <==> d == roots[0] || d in roots[1..];
  }

  lemma {:induction false} NewRootsListed(roots: seq<Comment>, archived: set<Id>, incoming: seq<Comment>, known: set<Id>, z: Id)
    requires WellFormed(roots) && UniqueIds(incoming) && z !in known && forall n :: n in Nodes(roots) ==> n in Nodes(incoming)
    ensures Listed(NewRoots(roots, archived, incoming, known), z) <==> RootLists(roots, archived, z)
  {
    if roots != [] {
      var c := roots[0];
      WellFormedParts(roots);
      NewRootsListed(roots[1..], archived, incoming, known, z);
      var rest := NewRoots(roots[1..], archived, incoming, known);
      RootListsCons(roots, archived, z);
      if Real(c) && c.id !in archived {
        var added := c.(replies := Overlay(c.replies, incoming, known));
        OwnListed(c.replies, incoming, known, z);
        ListedOne(added, z);
        ListedConcat([added], rest, z);
      } else if c.kind.More? {
        TrimmedLists(c, known, z);
        ListedConcat(Kept(Trimmed(c, known)), rest, z);
      }
    }
  }

  /**
    Of the ids that are not archived, the merged tree lists exactly those that the prior
    tree lists, those under a new root, and those that a join adds.
   */
  lemma {:induction false} MergeListsIff(prior: seq<Comment>, incoming: seq<Comment>, z: Id)
    requires WellFormed(prior) && WellFormed(incoming) && UniqueIds(incoming) && z !in RealIds(prior) + RealIds(incoming)
    ensures Listed(Merged(prior, incoming), z)
       <==> || Listed(prior, z) || RootLists(incoming, RealIds(prior), z)
            || AddsIn(prior, incoming, RealIds(prior) + RealIds(incoming), z)
  {
    var known := Known(prior, incoming);
    IndexKeys(prior);
    IndexKeys(incoming);
    assert known == RealIds(prior) + RealIds(incoming);
    OverlayListed(prior, incoming, known, z);
    NewRootsListed(incoming, Index(prior).Keys, incoming, known, z);
    ListedConcat(Overlay(prior, incoming, known), NewRoots(incoming, Index(prior).Keys, incoming, known), z);
  }

  /** The merged tree has no comment with the id, and no stub that could still load it. */
  ghost predicate Lost(cs: seq<Comment>, z: Id) {
    z !in RealIds(cs) && !Listed(cs, z)
  }

  /** An id that was listed is lost exactly when only nested stubs of the fetch list it, and every join drops them. */
  lemma {:induction false} ListedIdIsLostIff(prior: seq<Comment>, incoming: seq<Comment>, z: Id)
    requires WellFormed(prior) && WellFormed(incoming) && UniqueIds(incoming) && (Listed(prior, z) || Listed(incoming, z))
    ensures Lost(Merged(prior, incoming), z)
       <==> && z !in RealIds(prior) + RealIds(incoming) && !Listed(prior, z) && !RootLists(incoming, RealIds(prior), z)
            && !AddsIn(prior, incoming, RealIds(prior) + RealIds(incoming), z)
  {
    MergeIsUnion(prior, incoming);
    if z !in RealIds(prior) + RealIds(incoming) {
      MergeListsIff(prior, incoming, z);
    }
  }

  function CommentOf(id: Id, replies: seq<Comment>): Comment {
    Comment(id, T1, "p", Other("t3"), "", "", false, "", 0, [], replies)
  }

  /** One comment with one stub below it. */
  lemma {:induction false} CommentWithStub(ids: seq<Id>)
    ensures var stub := StubOf("a", ids);
            var cs := [CommentOf("a", [stub])];
            && Nodes(cs) == [cs[0], stub] && WellFormed(cs) && UniqueIds(cs) && RealIds(cs) == {"a"}
            && forall z :: Listed(cs, z) <==> z in ids
  {
    var stub := StubOf("a", ids);
    var a := CommentOf("a", [stub]);
    NodesOne(a);
    NodesOne(stub);
    assert Nodes([a]) == [a] + ([stub] + []) == [a, stub];
    assert a in [a, stub] && stub in [a, stub];
    forall z ensures Listed([a], z) <==> z in ids {
      assert forall n :: n in [a, stub] <==> n == a || n == stub;
    }
    assert RealIds([a]) == {"a"};
  }

  lemma StubOfUnknown(parent: Id, x: Id, known: set<Id>)
    requires x !in known
    ensures Blocks(StubOf(parent, [x]), parent, known)
  {
    TrimmedIff(StubOf(parent, [x]), known);
    assert x in StubOf(parent, [x]).children;
  }

  /** Where a stub of "a" survives in the archive, the fetch's stub of "a" adds nothing. */
  lemma {:induction false} SecondStubAddsNothing(z: Id, known: set<Id>)
    requires known == {"a"}
    ensures !AddsIn([CommentOf("a", [StubOf("a", ["x"])])], [CommentOf("a", [StubOf("a", ["x", "y"])])], known, z)
  {
    var old_, new_ := StubOf("a", ["x"]), StubOf("a", ["x", "y"]);
    var prior, incoming := [CommentOf("a", [old_])], [CommentOf("a", [new_])];
    CommentWithStub(["x"]);
    CommentWithStub(["x", "y"]);
    UniqueIndex(incoming, incoming[0]);
    StubOfUnknown("a", "x", known);
    assert Blocked([old_], "a", known);
    forall y | y in Nodes(prior) ensures !Adds(y, incoming, known, z) {
      assert y == prior[0] || y == old_;
    }
  }

  /**
    The archive knows of the unloaded reply "x" below "a"; a later fetch lists the new
    reply "y" there too. The stub of the archive stays as it is, and "y" is lost.
   */
  lemma {:induction false} NewReplyIsLost()
    ensures Lost(Merged([CommentOf("a", [StubOf("a", ["x"])])], [CommentOf("a", [StubOf("a", ["x", "y"])])]), "y")
  {
    var prior, incoming := [CommentOf("a", [StubOf("a", ["x"])])], [CommentOf("a", [StubOf("a", ["x", "y"])])];
    CommentWithStub(["x"]);
    CommentWithStub(["x", "y"]);
    assert RealIds(prior) + RealIds(incoming) == {"a"};
    SecondStubAddsNothing("y", {"a"});
    assert !RootLists(incoming, RealIds(prior), "y");
    ListedIdIsLostIff(prior, incoming, "y");
  }
}
