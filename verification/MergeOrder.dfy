/**
  Where a merge puts things: the roots, and the replies of every comment, are the prior
  ones in their order followed by the new incoming ones in theirs.
 */
module MergeOrder {
  import opened Common
  import opened CommentTree
  import opened MergeTrees

  /** The ids of the real comments at the top of a forest, in order. */
  ghost function TopIds(cs: seq<Comment>): seq<Id> {
    if cs == [] then [] else (if Real(cs[0]) then [cs[0].id] else []) + TopIds(cs[1..])
  }

  /** Those not in the set, in order. */
  ghost function Others(ids: seq<Id>, known: set<Id>): seq<Id> {
    if ids == [] then [] else (if ids[0] in known then [] else [ids[0]]) + Others(ids[1..], known)
  }

  lemma {:induction false} TopConcat(a: seq<Comment>, b: seq<Comment>)
    ensures TopIds(a + b) == TopIds(a) + TopIds(b)
  {
    if a == [] {
      assert a + b == b;
    } else {
      assert (a + b)[1..] == a[1..] + b;
      TopConcat(a[1..], b);
    }
  }

  lemma TopOne(c: Comment)
    ensures TopIds([c]) == if Real(c) then [c.id] else []
  {
    assert [c][1..] == [] && TopIds([]) == [];
  }

  lemma {:induction false} TopHead(c: Comment, rest: seq<Comment>)
    ensures TopIds([c] + rest) == (if Real(c) then [c.id] else []) + TopIds(rest)
  {
    TopConcat([c], rest);
    TopOne(c);
  }

  lemma {:induction false} TopKept(stub: Option<Comment>, rest: seq<Comment>)
    requires stub.Some? ==> !Real(stub.value)
    ensures TopIds(Kept(stub) + rest) == TopIds(rest) && TopIds(rest + Kept(stub)) == TopIds(rest)
  {
    TopConcat(Kept(stub), rest);
    TopConcat(rest, Kept(stub));
    if stub.Some? {
      TopOne(stub.value);
    }
  }

  lemma {:induction false} DirectIdsAre(cs: seq<Comment>)
    ensures forall id :: id in TopIds(cs) <==> id in DirectIds(cs)
  {
    if cs != [] {
      DirectIdsAre(cs[1..]);
      assert forall c :: c in cs <==> c == cs[0] || c in cs[1..];
    }
  }

  lemma {:induction false} OthersNone(ids: seq<Id>, known: set<Id>)
    requires forall id :: id in ids ==> id in known
    ensures Others(ids, known) == []
  {
    if ids != [] {
      OthersNone(ids[1..], known);
    }
  }

  // ----- One list

  lemma {:induction false} OverlayTop(cs: seq<Comment>, incoming: seq<Comment>, known: set<Id>)
    ensures TopIds(Overlay(cs, incoming, known)) == TopIds(cs)
    decreases cs
  {
    if cs != [] {
      var c, rest := cs[0], Overlay(cs[1..], incoming, known);
      OverlayTop(cs[1..], incoming, known);
      IndexIs(incoming, c.id);
      if c.kind.More? {
        TopKept(Trimmed(c, known), rest);
      } else {
        TopHead(Overlay(cs, incoming, known)[0], rest);
      }
    }
  }

  lemma {:induction false} JoinTop(out: seq<Comment>, direct: set<Id>, more: seq<Comment>, incoming: seq<Comment>, known: set<Id>)
    ensures TopIds(Join(out, direct, more, incoming, known)) == TopIds(out) + Others(TopIds(more), direct)
    decreases more
  {
    if more != [] {
      var c := more[0];
      if Real(c) && c.id !in direct {
        var added := c.(replies := Overlay(c.replies, incoming, known));
        JoinTop(out + [added], direct, more[1..], incoming, known);
        TopConcat(out, [added]);
        TopOne(added);
        assert TopIds(more) == [c.id] + TopIds(more[1..]);
      } else if !Real(c) && c.kind.More? && Trimmed(c, known).Some?
             && !HasStubOf(out, Trimmed(c, known).value.parentID) {
        JoinTop(out + [Trimmed(c, known).value], direct, more[1..], incoming, known);
        TopKept(Trimmed(c, known), out);
        assert TopIds(more) == TopIds(more[1..]);
      } else {
        JoinTop(out, direct, more[1..], incoming, known);
        assert TopIds(more) == (if Real(c) then [c.id] else []) + TopIds(more[1..]);
        assert !Real(c) ==> TopIds(more) == TopIds(more[1..]);
      }
    }
  }

  lemma {:induction false} NewRootsTop(roots: seq<Comment>, archived: set<Id>, incoming: seq<Comment>, known: set<Id>)
    ensures TopIds(NewRoots(roots, archived, incoming, known)) == Others(TopIds(roots), archived)
  {
    if roots != [] {
      var c, rest := roots[0], NewRoots(roots[1..], archived, incoming, known);
      NewRootsTop(roots[1..], archived, incoming, known);
      if Real(c) {
        assert TopIds(roots) == [c.id] + TopIds(roots[1..]);
        if c.id !in archived {
          TopHead(c.(replies := Overlay(c.replies, incoming, known)), rest);
        }
      } else {
        assert TopIds(roots) == TopIds(roots[1..]);
        if c.kind.More? {
          TopKept(Trimmed(c, known), rest);
        }
      }
    }
  }

  /** The roots of the merged tree: the prior ones, then the incoming ones that were not archived anywhere. */
  lemma {:induction false} MergedRoots(prior: seq<Comment>, incoming: seq<Comment>)
    ensures TopIds(Merged(prior, incoming)) == TopIds(prior) + Others(TopIds(incoming), RealIds(prior))
  {
    var known := Known(prior, incoming);
    IndexKeys(prior);
    OverlayTop(prior, incoming, known);
    NewRootsTop(incoming, Index(prior).Keys, incoming, known);
    TopConcat(Overlay(prior, incoming, known), NewRoots(incoming, Index(prior).Keys, incoming, known));
  }

  // ----- Every list

  /** The replies of a source: its own, then the new ones of the incoming copy. */
  ghost function JoinedIds(c: Comment, incoming: seq<Comment>): seq<Id> {
    TopIds(c.replies)
    + if c.id in Index(incoming) then Others(TopIds(Index(incoming)[c.id].replies), DirectIds(c.replies)) else []
  }

  ghost predicate Source(c: Comment, prior: seq<Comment>, incoming: seq<Comment>) {
    Real(c) && (c in Nodes(prior) || c in Nodes(incoming))
  }

  /** The node is that of a comment of either tree, and has below it what was below that one, then what is new in the incoming copy. */
  ghost predicate Placed(n: Comment, prior: seq<Comment>, incoming: seq<Comment>) {
    Real(n) ==> exists c :: Source(c, prior, incoming) && c.id == n.id && TopIds(n.replies) == JoinedIds(c, incoming)
  }

  ghost predicate AllPlaced(cs: seq<Comment>, prior: seq<Comment>, incoming: seq<Comment>) {
    forall n :: n in Nodes(cs) ==> Placed(n, prior, incoming)
  }

  lemma {:induction false} PlacedConcat(a: seq<Comment>, b: seq<Comment>, prior: seq<Comment>, incoming: seq<Comment>)
    ensures AllPlaced(a + b, prior, incoming) <==> AllPlaced(a, prior, incoming) && AllPlaced(b, prior, incoming)
  {
    NodesConcat(a, b);
  }

  lemma {:induction false} PlacedOne(c: Comment, prior: seq<Comment>, incoming: seq<Comment>)
    ensures AllPlaced([c], prior, incoming) <==> Placed(c, prior, incoming) && AllPlaced(c.replies, prior, incoming)
  {
    NodesOne(c);
  }

  lemma {:induction false} UnrealIsPlaced(stub: Option<Comment>, prior: seq<Comment>, incoming: seq<Comment>)
    requires stub.Some? ==> !Real(stub.value) && stub.value.replies == []
    ensures AllPlaced(Kept(stub), prior, incoming)
  {
    if stub.Some? {
      PlacedOne(stub.value, prior, incoming);
    }
  }

  /** What a new incoming comment brings is its own replies, in order. */
  lemma {:induction false} AddedIsPlaced(c: Comment, replies: seq<Comment>, prior: seq<Comment>, incoming: seq<Comment>)
    requires UniqueIds(incoming) && Real(c) && c in Nodes(incoming) && TopIds(replies) == TopIds(c.replies)
    ensures Placed(c.(replies := replies), prior, incoming)
  {
    UniqueIndex(incoming, c);
    DirectIdsAre(c.replies);
    OthersNone(TopIds(c.replies), DirectIds(c.replies));
    assert JoinedIds(c, incoming) == TopIds(c.replies);
    assert Source(c, prior, incoming);
  }

  lemma {:induction false} OverlayPlaced(cs: seq<Comment>, prior: seq<Comment>, incoming: seq<Comment>, known: set<Id>)
    requires WellFormed(cs) && WellFormed(incoming) && UniqueIds(incoming)
    requires FromEither(cs, prior, incoming)
    ensures AllPlaced(Overlay(cs, incoming, known), prior, incoming)
    decreases |Nodes(incoming)| - Low(cs, incoming), cs
  {
    if cs != [] {
      var c := cs[0];
      WellFormedParts(cs);
      LowGrows(cs[1..], cs, incoming);
      LowGrows(c.replies, cs, incoming);
      OverlayPlaced(cs[1..], prior, incoming, known);
      var rest := Overlay(cs[1..], incoming, known);
      if c.kind.More? {
        UnrealIsPlaced(Trimmed(c, known), prior, incoming);
        PlacedConcat(Kept(Trimmed(c, known)), rest, prior, incoming);
      } else if !Real(c) {
        PlacedOne(c, prior, incoming);
        PlacedConcat([c], rest, prior, incoming);
      } else {
        assert c in Nodes(cs);
        OverlayPlaced(c.replies, prior, incoming, known);
        OverlayTop(c.replies, incoming, known);
        var out := Overlay(c.replies, incoming, known);
        if c.id in Index(incoming) {
          var copy := Index(incoming)[c.id];
          IndexIs(incoming, c.id);
          IndexedIsWellFormed(incoming, c.id);
          NodesBelow(incoming, copy);
          LowOfIsLeast(Nodes(cs), Nodes(incoming));
          JumpMovesOn(c, incoming);
          JoinPlaced(out, DirectIds(c.replies), copy.replies, prior, incoming, known);
          JoinTop(out, DirectIds(c.replies), copy.replies, incoming, known);
          out := Join(out, DirectIds(c.replies), copy.replies, incoming, known);
          HeadPlaced(c, copy, out, rest, prior, incoming);
        } else {
          HeadPlaced(c, c, out, rest, prior, incoming);
        }
      }
    }
  }

  lemma {:induction false} HeadPlaced(c: Comment, copy: Comment, out: seq<Comment>, rest: seq<Comment>, prior: seq<Comment>,
                                      incoming: seq<Comment>)
    requires Source(c, prior, incoming) && copy.id == c.id && TopIds(out) == JoinedIds(c, incoming)
    requires AllPlaced(out, prior, incoming) && AllPlaced(rest, prior, incoming)
    ensures AllPlaced([copy.(replies := out)] + rest, prior, incoming)
  {
    PlacedOne(copy.(replies := out), prior, incoming);
    PlacedConcat([copy.(replies := out)], rest, prior, incoming);
  }

  lemma {:induction false} JoinPlaced(out: seq<Comment>, direct: set<Id>, more: seq<Comment>, prior: seq<Comment>,
                                      incoming: seq<Comment>, known: set<Id>)
    requires AllPlaced(out, prior, incoming) && WellFormed(more) && WellFormed(incoming) && UniqueIds(incoming)
    requires forall n :: n in Nodes(more) ==> n in Nodes(incoming)
    ensures AllPlaced(Join(out, direct, more, incoming, known), prior, incoming)
    decreases |Nodes(incoming)| - Low(more, incoming), more
  {
    if more != [] {
      var c := more[0];
      WellFormedParts(more);
      LowGrows(more[1..], more, incoming);
      LowGrows(c.replies, more, incoming);
      if Real(c) && c.id !in direct {
        assert c in Nodes(more);
        OverlayPlaced(c.replies, prior, incoming, known);
        OverlayTop(c.replies, incoming, known);
        var added := c.(replies := Overlay(c.replies, incoming, known));
        AddedIsPlaced(c, added.replies, prior, incoming);
        PlacedOne(added, prior, incoming);
        PlacedConcat(out, [added], prior, incoming);
        JoinPlaced(out + [added], direct, more[1..], prior, incoming, known);
      } else if !Real(c) && c.kind.More? && Trimmed(c, known).Some?
             && !HasStubOf(out, Trimmed(c, known).value.parentID) {
        UnrealIsPlaced(Trimmed(c, known), prior, incoming);
        PlacedConcat(out, Kept(Trimmed(c, known)), prior, incoming);
        JoinPlaced(out + [Trimmed(c, known).value], direct, more[1..], prior, incoming, known);
      } else {
        JoinPlaced(out, direct, more[1..], prior, incoming, known);
      }
    }
  }

  lemma {:induction false} NewRootsPlaced(roots: seq<Comment>, archived: set<Id>, prior: seq<Comment>, incoming: seq<Comment>,
                                          known: set<Id>)
    requires WellFormed(roots) && WellFormed(incoming) && UniqueIds(incoming)
    requires forall n :: n in Nodes(roots) ==> n in Nodes(incoming)
    ensures AllPlaced(NewRoots(roots, archived, incoming, known), prior, incoming)
  {
    if roots != [] {
      var c := roots[0];
      WellFormedParts(roots);
      NewRootsPlaced(roots[1..], archived, prior, incoming, known);
      var rest := NewRoots(roots[1..], archived, incoming, known);
      if Real(c) && c.id !in archived {
        assert c in Nodes(roots);
        OverlayPlaced(c.replies, prior, incoming, known);
        OverlayTop(c.replies, incoming, known);
        var added := c.(replies := Overlay(c.replies, incoming, known));
        AddedIsPlaced(c, added.replies, prior, incoming);
        PlacedOne(added, prior, incoming);
        PlacedConcat([added], rest, prior, incoming);
      } else if c.kind.More? {
        UnrealIsPlaced(Trimmed(c, known), prior, incoming);
        PlacedConcat(Kept(Trimmed(c, known)), rest, prior, incoming);
      }
    }
  }

  /**
    Every comment of the merged tree has below it the replies of a comment of either tree,
    in their order, and behind them those of the incoming copy that are not among them.
   */
  lemma {:induction false} MergedReplies(prior: seq<Comment>, incoming: seq<Comment>)
    requires WellFormed(prior) && WellFormed(incoming) && UniqueIds(incoming)
    ensures AllPlaced(Merged(prior, incoming), prior, incoming)
  {
    var known := Known(prior, incoming);
    OverlayPlaced(prior, prior, incoming, known);
    NewRootsPlaced(incoming, Index(prior).Keys, prior, incoming, known);
    PlacedConcat(Overlay(prior, incoming, known), NewRoots(incoming, Index(prior).Keys, incoming, known), prior, incoming);
  }
}
