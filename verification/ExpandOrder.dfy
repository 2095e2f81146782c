/**
  Where the expansion of stubs puts things: in the place of a stub come the archived
  comments it lists, in its order, each as the archive has it.
 */
module ExpandOrder {
  import opened Common
  import opened CommentTree
  import opened MergeTrees
  import opened ExpandStubs
  import opened MergeOrder

  /** The listed ids that the archive has, in order. */
  ghost function ArchivedIds(ids: seq<Id>, archive: map<Id, Comment>): seq<Id> {
    if ids == [] then [] else
    ArchivedIds(ids[..|ids| - 1], archive) + if ids[|ids| - 1] in archive then [ids[|ids| - 1]] else []
  }

  /** The comments of a list, with those that its stubs list in the stubs' place. */
  ghost function InlinedIds(cs: seq<Comment>, archive: map<Id, Comment>): seq<Id> {
    if cs == [] then [] else InlinedOne(cs[0], archive) + InlinedIds(cs[1..], archive)
  }

  ghost function InlinedOne(c: Comment, archive: map<Id, Comment>): seq<Id> {
    if Expandable(c) then ArchivedIds(c.children, archive) else if Real(c) then [c.id] else []
  }

  ghost predicate Source(c: Comment, root: seq<Comment>, archive: map<Id, Comment>) {
    c in Nodes(root) || exists id :: id in archive && (c == archive[id] || c in Nodes(archive[id].replies))
  }

  /** Stubs have no replies, as in every parsed tree. */
  ghost predicate BareSources(root: seq<Comment>, archive: map<Id, Comment>) {
    forall c :: Source(c, root, archive) && c.kind.More? ==> c.replies == []
  }

  ghost predicate FromSources(cs: seq<Comment>, root: seq<Comment>, archive: map<Id, Comment>) {
    forall n :: n in Nodes(cs) ==> Source(n, root, archive)
  }

  /**
    The node is a comment of the forest or of the archive, with its payload and its replies
    expanded in order; or a stub that counts what it lists, all of it not archived.
   */
  ghost predicate Shaped(n: Comment, root: seq<Comment>, archive: map<Id, Comment>) {
    if Expandable(n) && |archive| > 0 then n.moreCount == |n.children| && forall id :: id in n.children ==> id !in archive
    else exists c :: Source(c, root, archive) && SamePayload(n, c) && TopIds(n.replies) == InlinedIds(c.replies, archive)
  }

  ghost predicate AllShaped(cs: seq<Comment>, root: seq<Comment>, archive: map<Id, Comment>) {
    forall n :: n in Nodes(cs) ==> Shaped(n, root, archive)
  }

  lemma {:induction false} ShapedConcat(a: seq<Comment>, b: seq<Comment>, root: seq<Comment>, archive: map<Id, Comment>)
    ensures AllShaped(a + b, root, archive) <==> AllShaped(a, root, archive) && AllShaped(b, root, archive)
  {
    NodesConcat(a, b);
  }

  lemma {:induction false} ShapedOne(c: Comment, root: seq<Comment>, archive: map<Id, Comment>)
    ensures AllShaped([c], root, archive) <==> Shaped(c, root, archive) && AllShaped(c.replies, root, archive)
  {
    NodesOne(c);
  }

  // ----- Without an archive

  lemma {:induction false} NoneArchived(ids: seq<Id>, archive: map<Id, Comment>)
    requires |archive| == 0
    ensures ArchivedIds(ids, archive) == []
  {
    if ids != [] {
      NoneArchived(ids[..|ids| - 1], archive);
    }
  }

  lemma {:induction false} NoneInlined(cs: seq<Comment>, archive: map<Id, Comment>)
    requires |archive| == 0
    ensures InlinedIds(cs, archive) == TopIds(cs)
  {
    if cs != [] {
      NoneInlined(cs[1..], archive);
      NoneArchived(cs[0].children, archive);
    }
  }

  lemma {:induction false} UnexpandedShaped(cs: seq<Comment>, root: seq<Comment>, archive: map<Id, Comment>)
    requires |archive| == 0 && FromSources(cs, root, archive)
    ensures AllShaped(cs, root, archive)
  {
    forall n | n in Nodes(cs) ensures Shaped(n, root, archive) {
      NoneInlined(n.replies, archive);
      assert SamePayload(n, n);
    }
  }

  // ----- With one

  lemma {:induction false} ExpandedShape(cs: seq<Comment>, root: seq<Comment>, archive: map<Id, Comment>, stack: nat)
    requires Indexed(archive) && BareSources(root, archive) && FromSources(cs, root, archive) && Expanded(cs, archive, stack).Some?
    ensures var out := Expanded(cs, archive, stack).value;
            AllShaped(out, root, archive) && TopIds(out) == InlinedIds(cs, archive)
    decreases stack, 0, 0
  {
    if |archive| == 0 {
      UnexpandedShaped(cs, root, archive);
      NoneInlined(cs, archive);
    } else {
      ExpandAllShape(cs, root, archive, stack);
    }
  }

  lemma {:induction false} ExpandAllShape(cs: seq<Comment>, root: seq<Comment>, archive: map<Id, Comment>, stack: nat)
    requires Indexed(archive) && BareSources(root, archive) && FromSources(cs, root, archive) && |archive| > 0 && stack > 0
    requires ExpandAll(cs, archive, stack).Some?
    ensures var out := ExpandAll(cs, archive, stack).value;
            AllShaped(out, root, archive) && TopIds(out) == InlinedIds(cs, archive)
    decreases stack - 1, 2, |cs|
  {
    if cs != [] {
      var one, rest := ExpandOne(cs[0], archive, stack).value, ExpandAll(cs[1..], archive, stack).value;
      ExpandOneShape(cs[0], root, archive, stack);
      ExpandAllShape(cs[1..], root, archive, stack);
      ShapedConcat(one, rest, root, archive);
      TopConcat(one, rest);
    }
  }

  lemma {:induction false} ExpandOneShape(c: Comment, root: seq<Comment>, archive: map<Id, Comment>, stack: nat)
    requires Indexed(archive) && BareSources(root, archive) && Source(c, root, archive) && FromSources(c.replies, root, archive) && |archive| > 0 && stack > 0
    requires ExpandOne(c, archive, stack).Some?
    ensures var out := ExpandOne(c, archive, stack).value;
            AllShaped(out, root, archive) && TopIds(out) == InlinedOne(c, archive)
    decreases stack - 1, 1, |c.children| + 1
  {
    if Expandable(c) {
      var resolved, left := Resolve(c.children, archive, stack).value, Leftover(c, Unknown(c.children, archive.Keys));
      ResolveShape(c.children, root, archive, stack);
      LeftoverShape(c, root, archive);
      ShapedConcat(resolved, left, root, archive);
      TopConcat(resolved, left);
    } else {
      ExpandedShape(c.replies, root, archive, stack - 1);
      GrownShape(c, Expanded(c.replies, archive, stack - 1).value, root, archive);
    }
  }

  lemma {:induction false} LeftoverShape(c: Comment, root: seq<Comment>, archive: map<Id, Comment>)
    requires Expandable(c) && c.replies == [] && |archive| > 0
    ensures var left := Leftover(c, Unknown(c.children, archive.Keys));
            AllShaped(left, root, archive) && TopIds(left) == []
  {
    var missing := Unknown(c.children, archive.Keys);
    if missing != [] {
      var stub := c.(children := missing, moreCount := |missing|);
      assert Shaped(stub, root, archive);
      ShapedOne(stub, root, archive);
      TopOne(stub);
    }
  }

  /** A comment of the sources, with its replies expanded. */
  lemma {:induction false} GrownShape(c: Comment, replies: seq<Comment>, root: seq<Comment>, archive: map<Id, Comment>)
    requires Source(c, root, archive) && !Expandable(c)
    requires AllShaped(replies, root, archive) && TopIds(replies) == InlinedIds(c.replies, archive)
    ensures AllShaped([c.(replies := replies)], root, archive) && TopIds([c.(replies := replies)]) == InlinedOne(c, archive)
  {
    var n := c.(replies := replies);
    assert SamePayload(n, c);
    ShapedOne(n, root, archive);
    TopOne(n);
  }

  lemma {:induction false} ResolveShape(ids: seq<Id>, root: seq<Comment>, archive: map<Id, Comment>, stack: nat)
    requires Indexed(archive) && BareSources(root, archive) && |archive| > 0 && stack > 0 && Resolve(ids, archive, stack).Some?
    ensures var out := Resolve(ids, archive, stack).value;
            AllShaped(out, root, archive) && TopIds(out) == ArchivedIds(ids, archive)
    decreases stack - 1, 1, |ids|
  {
    if ids != [] {
      var id := ids[|ids| - 1];
      ResolveShape(ids[..|ids| - 1], root, archive, stack);
      if id in archive {
        var c := archive[id];
        assert Source(c, root, archive);
        ExpandedShape(c.replies, root, archive, stack - 1);
        var n := c.(replies := Expanded(c.replies, archive, stack - 1).value);
        GrownShape(c, n.replies, root, archive);
        var before := Resolve(ids[..|ids| - 1], archive, stack).value;
        ShapedConcat(before, [n], root, archive);
        TopConcat(before, [n]);
      }
    }
  }

  /**
    Whenever the expansion returns: at the top and below every comment stand the comments
    that stood there, with the archived ones that its stubs list, in order, in the place of
    each stub; all have their payload of the forest or of the archive; and the stubs that
    stay list and count exactly ids that are not archived.
   */
  lemma {:induction false} ExpansionPlaces(cs: seq<Comment>, archive: map<Id, Comment>, stack: nat)
    requires Indexed(archive) && BareSources(cs, archive) && Expanded(cs, archive, stack).Some?
    ensures var out := Expanded(cs, archive, stack).value;
            TopIds(out) == InlinedIds(cs, archive) && AllShaped(out, cs, archive)
  {
    ExpandedShape(cs, cs, archive, stack);
  }
}
