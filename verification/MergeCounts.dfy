/**
  How often a comment occurs in a merged tree. The merge does not keep ids unique: a
  comment archived under one parent and fetched under another ends up in both places.
  Here its occurrences are counted exactly, and unique ids shown to survive a merge if
  and only if the two trees agree on the parents of what is already archived.
 */
module MergeCounts {
  import opened CommentTree
  import opened MergeTrees

  // ----- Occurrences

  /** The number of real nodes with the id. */
  ghost function Occ(cs: seq<Comment>, x: Id): nat
    decreases cs
  {
    if cs == [] then 0 else Own(cs[0], x) + Occ(cs[0].replies, x) + Occ(cs[1..], x)
  }

  ghost function Own(c: Comment, x: Id): nat {
    if Real(c) && c.id == x then 1 else 0
  }

  lemma OccOne(c: Comment, x: Id)
    ensures Occ([c], x) == Own(c, x) + Occ(c.replies, x)
  {
    assert [c][1..] == [];
  }

  lemma {:induction false} OccConcat(a: seq<Comment>, b: seq<Comment>, x: Id)
    ensures Occ(a + b, x) == Occ(a, x) + Occ(b, x)
  {
    if a == [] {
      assert a + b == b;
    } else {
      assert (a + b)[1..] == a[1..] + b;
      OccConcat(a[1..], b, x);
    }
  }

  lemma {:induction false} OccPositive(cs: seq<Comment>, x: Id)
    ensures Occ(cs, x) > 0 <==> x in RealIds(cs)
  {
    if cs != [] {
      RealIdsCons(cs);
      OccPositive(cs[0].replies, x);
      OccPositive(cs[1..], x);
    }
  }

  ghost function CountIn(ns: seq<Comment>, x: Id): nat {
    if ns == [] then 0 else Own(ns[0], x) + CountIn(ns[1..], x)
  }

  lemma {:induction false} CountConcat(a: seq<Comment>, b: seq<Comment>, x: Id)
    ensures CountIn(a + b, x) == CountIn(a, x) + CountIn(b, x)
  {
    if a == [] {
      assert a + b == b;
    } else {
      assert (a + b)[1..] == a[1..] + b;
      CountConcat(a[1..], b, x);
    }
  }

  lemma {:induction false} OccIsCount(cs: seq<Comment>, x: Id)
    ensures Occ(cs, x) == CountIn(Nodes(cs), x)
  {
    if cs != [] {
      OccIsCount(cs[0].replies, x);
      OccIsCount(cs[1..], x);
      CountConcat([cs[0]], Nodes(cs[0].replies), x);
      CountConcat([cs[0]] + Nodes(cs[0].replies), Nodes(cs[1..]), x);
      assert [cs[0]][1..] == [];
    }
  }

  ghost predicate HasAt(ns: seq<Comment>, i: nat, x: Id) {
    i < |ns| && Real(ns[i]) && ns[i].id == x
  }

  lemma {:induction false} CountPlaces(ns: seq<Comment>, x: Id)
    ensures CountIn(ns, x) > 0 ==> exists i: nat :: HasAt(ns, i, x)
    ensures CountIn(ns, x) > 1 ==> exists i: nat, j: nat :: i < j && HasAt(ns, i, x) && HasAt(ns, j, x)
  {
    if ns != [] {
      CountPlaces(ns[1..], x);
      if CountIn(ns[1..], x) > 0 {
        var j: nat :| HasAt(ns[1..], j, x);
        assert HasAt(ns, j + 1, x);
        if Own(ns[0], x) > 0 {
          assert HasAt(ns, 0, x);
        } else if CountIn(ns, x) > 1 {
          var i: nat, k: nat :| i < k && HasAt(ns[1..], i, x) && HasAt(ns[1..], k, x);
          assert HasAt(ns, i + 1, x) && HasAt(ns, k + 1, x);
        }
      } else if Own(ns[0], x) > 0 {
        assert HasAt(ns, 0, x);
      }
    }
  }

  lemma {:induction false} PlacesCount(ns: seq<Comment>, i: nat, x: Id)
    requires HasAt(ns, i, x)
    ensures CountIn(ns, x) >= 1
  {
    if i > 0 {
      PlacesCount(ns[1..], i - 1, x);
    }
  }

  lemma {:induction false} TwoPlacesCount(ns: seq<Comment>, i: nat, j: nat, x: Id)
    requires i < j && HasAt(ns, i, x) && HasAt(ns, j, x)
    ensures CountIn(ns, x) >= 2
  {
    if i == 0 {
      PlacesCount(ns[1..], j - 1, x);
    } else {
      TwoPlacesCount(ns[1..], i - 1, j - 1, x);
    }
  }

  lemma {:induction false} UniqueOnce(cs: seq<Comment>, x: Id)
    requires UniqueIds(cs)
    ensures Occ(cs, x) <= 1
  {
    OccIsCount(cs, x);
    CountPlaces(Nodes(cs), x);
  }

  lemma {:induction false} OnceApart(cs: seq<Comment>, i: nat, j: nat)
    requires i < j < |Nodes(cs)| && Real(Nodes(cs)[i]) && Real(Nodes(cs)[j])
    requires Occ(cs, Nodes(cs)[i].id) <= 1
    ensures Nodes(cs)[i].id != Nodes(cs)[j].id
  {
    var x := Nodes(cs)[i].id;
    OccIsCount(cs, x);
    if Nodes(cs)[j].id == x {
      TwoPlacesCount(Nodes(cs), i, j, x);
    }
  }

  lemma {:induction false} OnceUnique(cs: seq<Comment>)
    requires forall x :: Occ(cs, x) <= 1
    ensures UniqueIds(cs)
  {
    forall i, j | 0 <= i < j < |Nodes(cs)| && Real(Nodes(cs)[i]) && Real(Nodes(cs)[j])
      ensures Nodes(cs)[i].id != Nodes(cs)[j].id
    {
      OnceApart(cs, i, j);
    }
  }

  // ----- What a merge adds

  /** Occurrences in the subtrees of those of a list that are not already there. */
  ghost function Added(more: seq<Comment>, there: set<Id>, x: Id): nat {
    if more == [] then 0 else
    (if Real(more[0]) && more[0].id !in there then Occ([more[0]], x) else 0) + Added(more[1..], there, x)
  }

  /** Occurrences that the overlay grafts below the nodes of a forest. */
  ghost function Grafts(cs: seq<Comment>, incoming: seq<Comment>, x: Id): nat
    decreases cs
  {
    if cs == [] then 0 else
    GraftsAt(cs[0], incoming, x) + Grafts(cs[0].replies, incoming, x) + Grafts(cs[1..], incoming, x)
  }

  ghost function GraftsAt(c: Comment, incoming: seq<Comment>, x: Id): nat {
    if Real(c) && c.id in Index(incoming) then Added(Index(incoming)[c.id].replies, DirectIds(c.replies), x) else 0
  }

  ghost predicate PartOf(cs: seq<Comment>, whole: seq<Comment>) {
    forall n :: n in Nodes(cs) ==> n in Nodes(whole)
  }

  lemma {:induction false} PartParts(cs: seq<Comment>, whole: seq<Comment>)
    requires PartOf(cs, whole) && cs != []
    ensures cs[0] in Nodes(whole) && PartOf(cs[0].replies, whole) && PartOf(cs[1..], whole) && PartOf([cs[0]], whole)
  {
    NodesOne(cs[0]);
  }

  lemma {:induction false} NothingAdded(more: seq<Comment>, there: set<Id>, x: Id)
    requires forall c :: c in more && Real(c) ==> c.id in there
    ensures Added(more, there, x) == 0
  {
    if more != [] {
      NothingAdded(more[1..], there, x);
    }
  }

  /** Below the incoming tree's own nodes nothing is grafted. */
  lemma {:induction false} NoGrafts(cs: seq<Comment>, incoming: seq<Comment>, x: Id)
    requires UniqueIds(incoming) && PartOf(cs, incoming)
    ensures Grafts(cs, incoming, x) == 0
  {
    if cs != [] {
      PartParts(cs, incoming);
      NoGrafts(cs[0].replies, incoming, x);
      NoGrafts(cs[1..], incoming, x);
      if Real(cs[0]) {
        UniqueIndex(incoming, cs[0]);
        NothingAdded(cs[0].replies, DirectIds(cs[0].replies), x);
      }
    }
  }

  lemma {:induction false} IndexedPart(incoming: seq<Comment>, x: Id)
    requires x in Index(incoming)
    ensures PartOf(Index(incoming)[x].replies, incoming) && Real(Index(incoming)[x]) && Index(incoming)[x].id == x
  {
    IndexIs(incoming, x);
    NodesBelow(incoming, Index(incoming)[x]);
  }

  lemma OccKept(stub: Comment, known: set<Id>, x: Id)
    requires stub.kind.More? && stub.replies == []
    ensures Occ(Kept(Trimmed(stub, known)), x) == 0 && Occ([stub], x) == 0
  {
    OccOne(stub, x);
    if Trimmed(stub, known).Some? {
      OccOne(Trimmed(stub, known).value, x);
    }
  }

  lemma {:induction false} NodeOcc(c: Comment, replies: seq<Comment>, rest: seq<Comment>, x: Id)
    ensures Occ([c.(replies := replies)] + rest, x) == Own(c, x) + Occ(replies, x) + Occ(rest, x)
  {
    OccOne(c.(replies := replies), x);
    OccConcat([c.(replies := replies)], rest, x);
  }

  /** Overlaying a forest keeps its occurrences and adds the grafts. */
  lemma {:induction false} OverlayOcc(cs: seq<Comment>, incoming: seq<Comment>, known: set<Id>, x: Id)
    requires WellFormed(cs) && WellFormed(incoming) && UniqueIds(incoming)
    ensures Occ(Overlay(cs, incoming, known), x) == Occ(cs, x) + Grafts(cs, incoming, x)
    decreases |Nodes(incoming)| - Low(cs, incoming), cs
  {
    if cs != [] {
      var c := cs[0];
      WellFormedParts(cs);
      LowGrows(cs[1..], cs, incoming);
      LowGrows(c.replies, cs, incoming);
      OverlayOcc(cs[1..], incoming, known, x);
      var rest := Overlay(cs[1..], incoming, known);
      if c.kind.More? {
        OccKept(c, known, x);
        OccConcat(Kept(Trimmed(c, known)), rest, x);
      } else if !Real(c) {
        OccOne(c, x);
        OccConcat([c], rest, x);
      } else {
        OverlayOcc(c.replies, incoming, known, x);
        var out := Overlay(c.replies, incoming, known);
        if c.id in Index(incoming) {
          var copy := Index(incoming)[c.id];
          IndexedPart(incoming, c.id);
          IndexedIsWellFormed(incoming, c.id);
          LowOfIsLeast(Nodes(cs), Nodes(incoming));
          JumpMovesOn(c, incoming);
          JoinOcc(out, DirectIds(c.replies), copy.replies, incoming, known, x);
          NodeOcc(copy, Join(out, DirectIds(c.replies), copy.replies, incoming, known), rest, x);
        } else {
          NodeOcc(c, out, rest, x);
        }
      }
    }
  }

  /** Joining incoming replies adds the subtrees of those not direct. */
  lemma {:induction false} JoinOcc(out: seq<Comment>, direct: set<Id>, more: seq<Comment>, incoming: seq<Comment>,
                                   known: set<Id>, x: Id)
    requires WellFormed(more) && WellFormed(incoming) && UniqueIds(incoming) && PartOf(more, incoming)
    ensures Occ(Join(out, direct, more, incoming, known), x) == Occ(out, x) + Added(more, direct, x)
    decreases |Nodes(incoming)| - Low(more, incoming), more
  {
    if more != [] {
      var c := more[0];
      WellFormedParts(more);
      PartParts(more, incoming);
      LowGrows(more[1..], more, incoming);
      LowGrows(c.replies, more, incoming);
      if Real(c) && c.id !in direct {
        OverlayOcc(c.replies, incoming, known, x);
        NoGrafts(c.replies, incoming, x);
        var added := c.(replies := Overlay(c.replies, incoming, known));
        OccOne(added, x);
        OccOne(c, x);
        OccConcat(out, [added], x);
        JoinOcc(out + [added], direct, more[1..], incoming, known, x);
      } else if !Real(c) && c.kind.More? && Trimmed(c, known).Some?
             && !HasStubOf(out, Trimmed(c, known).value.parentID) {
        OccKept(c, known, x);
        OccConcat(out, Kept(Trimmed(c, known)), x);
        JoinOcc(out + [Trimmed(c, known).value], direct, more[1..], incoming, known, x);
      } else {
        JoinOcc(out, direct, more[1..], incoming, known, x);
      }
    }
  }

  lemma {:induction false} NewRootsOcc(roots: seq<Comment>, archived: set<Id>, incoming: seq<Comment>, known: set<Id>, x: Id)
    requires WellFormed(roots) && WellFormed(incoming) && UniqueIds(incoming) && PartOf(roots, incoming)
    ensures Occ(NewRoots(roots, archived, incoming, known), x) == Added(roots, archived, x)
  {
    if roots != [] {
      var c := roots[0];
      WellFormedParts(roots);
      PartParts(roots, incoming);
      NewRootsOcc(roots[1..], archived, incoming, known, x);
      var rest := NewRoots(roots[1..], archived, incoming, known);
      if Real(c) && c.id !in archived {
        OverlayOcc(c.replies, incoming, known, x);
        NoGrafts(c.replies, incoming, x);
        var added := c.(replies := Overlay(c.replies, incoming, known));
        OccOne(added, x);
        OccOne(c, x);
        OccConcat([added], rest, x);
      } else if c.kind.More? {
        OccKept(c, known, x);
        OccConcat(Kept(Trimmed(c, known)), rest, x);
      }
    }
  }

  /** Every comment occurs as often as it was archived, plus once for each graft or new root it comes with. */
  lemma {:induction false} MergeOccurrences(prior: seq<Comment>, incoming: seq<Comment>, x: Id)
    requires WellFormed(prior) && WellFormed(incoming) && UniqueIds(incoming)
    ensures Occ(Merged(prior, incoming), x)
            == Occ(prior, x) + Grafts(prior, incoming, x) + Added(incoming, RealIds(prior), x)
  {
    var known := Known(prior, incoming);
    IndexKeys(prior);
    OverlayOcc(prior, incoming, known, x);
    NewRootsOcc(incoming, Index(prior).Keys, incoming, known, x);
    OccConcat(Overlay(prior, incoming, known), NewRoots(incoming, Index(prior).Keys, incoming, known), x);
  }

  // ----- When unique ids survive

  /** If the incoming reply c of q is archived, it is archived as a direct reply of q. */
  ghost predicate KeepsParent(prior: seq<Comment>, q: Comment, c: Comment) {
    c.id in RealIds(prior) ==> q.id in Index(prior) && c.id in DirectIds(Index(prior)[q.id].replies)
  }

  /** The two trees agree on the parents of the archived comments. */
  ghost predicate SameParents(prior: seq<Comment>, incoming: seq<Comment>) {
    forall q, c :: q in Nodes(incoming) && Real(q) && c in q.replies && Real(c) ==> KeepsParent(prior, q, c)
  }

  lemma {:induction false} AddedSome(more: seq<Comment>, there: set<Id>, c: Comment, x: Id)
    requires c in more && Real(c) && c.id !in there
    ensures Added(more, there, x) >= Occ([c], x)
  {
    if c != more[0] {
      AddedSome(more[1..], there, c, x);
    }
  }

  lemma {:induction false} AddedFrom(more: seq<Comment>, there: set<Id>, x: Id) returns (c: Comment)
    requires Added(more, there, x) > 0
    ensures c in more && Real(c) && c.id !in there && Occ([c], x) > 0
  {
    if Real(more[0]) && more[0].id !in there && Occ([more[0]], x) > 0 {
      c := more[0];
    } else {
      c := AddedFrom(more[1..], there, x);
    }
  }

  lemma {:induction false} GraftsSome(cs: seq<Comment>, incoming: seq<Comment>, n: Comment, x: Id)
    requires n in Nodes(cs)
    ensures Grafts(cs, incoming, x) >= GraftsAt(n, incoming, x)
  {
    if n != cs[0] {
      if n in Nodes(cs[0].replies) {
        GraftsSome(cs[0].replies, incoming, n, x);
      } else {
        GraftsSome(cs[1..], incoming, n, x);
      }
    }
  }

  lemma {:induction false} GraftsFrom(cs: seq<Comment>, incoming: seq<Comment>, x: Id) returns (n: Comment)
    requires Grafts(cs, incoming, x) > 0
    ensures n in Nodes(cs) && GraftsAt(n, incoming, x) > 0
  {
    if GraftsAt(cs[0], incoming, x) > 0 {
      n := cs[0];
    } else if Grafts(cs[0].replies, incoming, x) > 0 {
      n := GraftsFrom(cs[0].replies, incoming, x);
    } else {
      n := GraftsFrom(cs[1..], incoming, x);
    }
  }

  /** A subtree of the incoming tree that holds q holds q's replies. */
  lemma {:induction false} HoldsReply(incoming: seq<Comment>, r: Comment, q: Comment, c: Comment)
    requires UniqueIds(incoming) && PartOf([r], incoming) && q in Nodes(incoming) && Real(q) && c in q.replies && Real(c)
    requires Occ([r], q.id) > 0
    ensures Occ([r], c.id) > 0
  {
    OccPositive([r], q.id);
    var n :| n in Nodes([r]) && Real(n) && n.id == q.id;
    UniqueIndex(incoming, n);
    UniqueIndex(incoming, q);
    NodesBelow([r], q);
    TopIsNode(q.replies, c);
    OccPositive([r], c.id);
  }

  lemma {:induction false} TopIsNode(cs: seq<Comment>, c: Comment)
    requires c in cs
    ensures c in Nodes(cs)
  {
    if c != cs[0] {
      TopIsNode(cs[1..], c);
    }
  }

  lemma {:induction false} ReplyIsNode(cs: seq<Comment>, q: Comment, c: Comment)
    requires q in Nodes(cs) && c in q.replies
    ensures c in Nodes(cs) && PartOf([c], cs)
  {
    TopIsNode(q.replies, c);
    NodesBelow(cs, q);
    NodesBelow(cs, c);
    NodesOne(c);
  }

  lemma {:induction false} RootIsNode(cs: seq<Comment>, c: Comment)
    requires c in cs
    ensures PartOf([c], cs)
  {
    TopIsNode(cs, c);
    NodesBelow(cs, c);
    NodesOne(c);
  }

  /** What the merge adds of q it adds with q's replies. */
  lemma {:induction false} AddedWithReplies(prior: seq<Comment>, incoming: seq<Comment>, q: Comment, c: Comment)
    requires UniqueIds(incoming) && q in Nodes(incoming) && Real(q) && c in q.replies && Real(c)
    requires Grafts(prior, incoming, q.id) + Added(incoming, RealIds(prior), q.id) > 0
    ensures Grafts(prior, incoming, c.id) + Added(incoming, RealIds(prior), c.id) > 0
  {
    if Added(incoming, RealIds(prior), q.id) > 0 {
      var r := AddedFrom(incoming, RealIds(prior), q.id);
      RootIsNode(incoming, r);
      HoldsReply(incoming, r, q, c);
      AddedSome(incoming, RealIds(prior), r, c.id);
    } else {
      var n := GraftsFrom(prior, incoming, q.id);
      var copy := Index(incoming)[n.id];
      IndexIs(incoming, n.id);
      var r := AddedFrom(copy.replies, DirectIds(n.replies), q.id);
      ReplyIsNode(incoming, copy, r);
      HoldsReply(incoming, r, q, c);
      AddedSome(copy.replies, DirectIds(n.replies), r, c.id);
      GraftsSome(prior, incoming, n, c.id);
    }
  }

  /** An archived comment that comes under another parent occurs twice after the merge. */
  lemma {:induction false} MovedOccursTwice(prior: seq<Comment>, incoming: seq<Comment>, q: Comment, c: Comment)
    requires WellFormed(prior) && WellFormed(incoming) && UniqueIds(incoming)
    requires q in Nodes(incoming) && Real(q) && c in q.replies && Real(c) && !KeepsParent(prior, q, c)
    ensures Occ(Merged(prior, incoming), c.id) >= 2
  {
    MergeOccurrences(prior, incoming, c.id);
    OccPositive(prior, c.id);
    UniqueIndex(incoming, q);
    if q.id in Index(prior) {
      var n := Index(prior)[q.id];
      IndexIs(prior, q.id);
      AddedSome(q.replies, DirectIds(n.replies), c, c.id);
      OccOne(c, c.id);
      GraftsSome(prior, incoming, n, c.id);
    } else {
      IndexKeys(prior);
      MergeIsUnion(prior, incoming);
      OccPositive(Merged(prior, incoming), q.id);
      OccPositive(prior, q.id);
      MergeOccurrences(prior, incoming, q.id);
      AddedWithReplies(prior, incoming, q, c);
    }
  }

  /** Under agreeing parents, nothing below a new incoming comment is archived. */
  lemma {:induction false} NewBelow(prior: seq<Comment>, incoming: seq<Comment>, cs: seq<Comment>, y: Id)
    requires SameParents(prior, incoming) && WellFormed(incoming) && PartOf(cs, incoming) && y in RealIds(cs)
    requires forall c :: c in cs && Real(c) ==> c.id !in RealIds(prior)
    ensures y !in RealIds(prior)
  {
    var c := cs[0];
    PartParts(cs, incoming);
    RealIdsCons(cs);
    if y in RealIds(c.replies) {
      if Real(c) {
        forall d | d in c.replies && Real(d) ensures d.id !in RealIds(prior) {
          assert KeepsParent(prior, c, d);
          IndexKeys(prior);
        }
        NewBelow(prior, incoming, c.replies, y);
      }
    } else if y in RealIds(cs[1..]) {
      NewBelow(prior, incoming, cs[1..], y);
    }
  }

  // ----- Counting grafts over the incoming tree

  /** What the merge grafts below the comment with the id, as seen from either tree. */
  ghost function GraftOf(prior: seq<Comment>, incoming: seq<Comment>, id: Id, x: Id): nat {
    if id in Index(prior) && id in Index(incoming)
    then Added(Index(incoming)[id].replies, DirectIds(Index(prior)[id].replies), x) else 0
  }

  ghost function IdList(cs: seq<Comment>): seq<Id>
    decreases cs
  {
    if cs == [] then [] else
    (if Real(cs[0]) then [cs[0].id] else []) + IdList(cs[0].replies) + IdList(cs[1..])
  }

  ghost function Times(ids: seq<Id>, y: Id): nat {
    if ids == [] then 0 else (if ids[0] == y then 1 else 0) + Times(ids[1..], y)
  }

  ghost function GraftSum(ids: seq<Id>, prior: seq<Comment>, incoming: seq<Comment>, x: Id): nat {
    if ids == [] then 0 else GraftOf(prior, incoming, ids[0], x) + GraftSum(ids[1..], prior, incoming, x)
  }

  lemma {:induction false} TimesConcat(a: seq<Id>, b: seq<Id>, y: Id)
    ensures Times(a + b, y) == Times(a, y) + Times(b, y)
  {
    if a == [] {
      assert a + b == b;
    } else {
      assert (a + b)[1..] == a[1..] + b;
      TimesConcat(a[1..], b, y);
    }
  }

  lemma {:induction false} SumConcat(a: seq<Id>, b: seq<Id>, prior: seq<Comment>, incoming: seq<Comment>, x: Id)
    ensures GraftSum(a + b, prior, incoming, x) == GraftSum(a, prior, incoming, x) + GraftSum(b, prior, incoming, x)
  {
    if a == [] {
      assert a + b == b;
    } else {
      assert (a + b)[1..] == a[1..] + b;
      SumConcat(a[1..], b, prior, incoming, x);
    }
  }

  lemma {:induction false} TimesIsOcc(cs: seq<Comment>, y: Id)
    ensures Times(IdList(cs), y) == Occ(cs, y)
  {
    if cs != [] {
      var own := if Real(cs[0]) then [cs[0].id] else [];
      TimesIsOcc(cs[0].replies, y);
      TimesIsOcc(cs[1..], y);
      TimesConcat(own, IdList(cs[0].replies), y);
      TimesConcat(own + IdList(cs[0].replies), IdList(cs[1..]), y);
      assert own != [] ==> own[1..] == [];
    }
  }

  lemma {:induction false} SumSplits(cs: seq<Comment>, prior: seq<Comment>, incoming: seq<Comment>, x: Id)
    requires cs != []
    ensures GraftSum(IdList(cs), prior, incoming, x)
            == (if Real(cs[0]) then GraftOf(prior, incoming, cs[0].id, x) else 0)
               + GraftSum(IdList(cs[0].replies), prior, incoming, x) + GraftSum(IdList(cs[1..]), prior, incoming, x)
  {
    var own := if Real(cs[0]) then [cs[0].id] else [];
    SumConcat(own, IdList(cs[0].replies), prior, incoming, x);
    SumConcat(own + IdList(cs[0].replies), IdList(cs[1..]), prior, incoming, x);
    assert own != [] ==> own[1..] == [];
  }

  /** The grafts of the prior tree, summed over its ids. */
  lemma {:induction false} GraftsAreSum(cs: seq<Comment>, prior: seq<Comment>, incoming: seq<Comment>, x: Id)
    requires UniqueIds(prior) && PartOf(cs, prior)
    ensures Grafts(cs, incoming, x) == GraftSum(IdList(cs), prior, incoming, x)
  {
    if cs != [] {
      PartParts(cs, prior);
      SumSplits(cs, prior, incoming, x);
      GraftsAreSum(cs[0].replies, prior, incoming, x);
      GraftsAreSum(cs[1..], prior, incoming, x);
      if Real(cs[0]) {
        UniqueIndex(prior, cs[0]);
      }
    }
  }

  lemma {:induction false} TimesSplit(ids: seq<Id>, y: Id) returns (a: seq<Id>, b: seq<Id>)
    requires Times(ids, y) > 0
    ensures ids == a + [y] + b
  {
    if ids[0] == y {
      a, b := [], ids[1..];
    } else {
      a, b := TimesSplit(ids[1..], y);
      a := [ids[0]] + a;
    }
  }

  /** A list whose grafting ids all occur at least as often in another sums to no more. */
  lemma {:induction false} SumAtMost(a: seq<Id>, b: seq<Id>, prior: seq<Comment>, incoming: seq<Comment>, x: Id)
    requires forall y :: GraftOf(prior, incoming, y, x) > 0 ==> Times(a, y) <= Times(b, y)
    ensures GraftSum(a, prior, incoming, x) <= GraftSum(b, prior, incoming, x)
  {
    if a != [] {
      var y := a[0];
      if GraftOf(prior, incoming, y, x) == 0 {
        SumAtMost(a[1..], b, prior, incoming, x);
      } else {
        assert Times(a, y) <= Times(b, y);
        var l, r := TimesSplit(b, y);
        forall z | GraftOf(prior, incoming, z, x) > 0 ensures Times(a[1..], z) <= Times(l + r, z) {
          TimesWithout(l, y, r, z);
          assert Times(a, z) <= Times(b, z);
        }
        SumAtMost(a[1..], l + r, prior, incoming, x);
        SumWithout(l, y, r, prior, incoming, x);
      }
    }
  }

  lemma {:induction false} TimesWithout(l: seq<Id>, y: Id, r: seq<Id>, z: Id)
    ensures Times(l + [y] + r, z) == Times(l + r, z) + if y == z then 1 else 0
  {
    TimesConcat(l + [y], r, z);
    TimesConcat(l, [y], z);
    TimesConcat(l, r, z);
    assert [y][1..] == [];
  }

  lemma {:induction false} SumWithout(l: seq<Id>, y: Id, r: seq<Id>, prior: seq<Comment>, incoming: seq<Comment>, x: Id)
    ensures GraftSum(l + [y] + r, prior, incoming, x) == GraftSum(l + r, prior, incoming, x) + GraftOf(prior, incoming, y, x)
  {
    SumConcat(l + [y], r, prior, incoming, x);
    SumConcat(l, [y], prior, incoming, x);
    SumConcat(l, r, prior, incoming, x);
    assert [y][1..] == [];
  }

  lemma {:induction false} NoGraftBelow(prior: seq<Comment>, incoming: seq<Comment>, cs: seq<Comment>, x: Id)
    requires forall y :: y in RealIds(cs) ==> y !in Index(prior)
    ensures GraftSum(IdList(cs), prior, incoming, x) == 0
  {
    if cs != [] {
      RealIdsCons(cs);
      SumSplits(cs, prior, incoming, x);
      NoGraftBelow(prior, incoming, cs[0].replies, x);
      NoGraftBelow(prior, incoming, cs[1..], x);
    }
  }

  /** Siblings that are archived are already there. */
  ghost predicate ArchivedThere(cs: seq<Comment>, prior: seq<Comment>, there: set<Id>) {
    forall c :: c in cs && Real(c) && c.id in RealIds(prior) ==> c.id in there
  }

  lemma {:induction false} NothingArchivedBelow(prior: seq<Comment>, incoming: seq<Comment>, c: Comment)
    requires SameParents(prior, incoming) && WellFormed(incoming) && PartOf([c], incoming)
    requires Real(c) ==> c.id !in RealIds(prior)
    ensures forall y :: y in RealIds([c]) ==> y !in RealIds(prior)
  {
    forall y | y in RealIds([c]) ensures y !in RealIds(prior) {
      NewBelow(prior, incoming, [c], y);
    }
  }

  /** Under agreeing parents the additions of an incoming forest are within its own occurrences. */
  lemma {:induction false} AdditionsWithin(prior: seq<Comment>, incoming: seq<Comment>, cs: seq<Comment>, there: set<Id>, x: Id)
    requires SameParents(prior, incoming) && WellFormed(incoming) && UniqueIds(incoming)
    requires PartOf(cs, incoming) && ArchivedThere(cs, prior, there)
    ensures Added(cs, there, x) + GraftSum(IdList(cs), prior, incoming, x) <= Occ(cs, x)
    ensures x in RealIds(prior) ==> Added(cs, there, x) + GraftSum(IdList(cs), prior, incoming, x) == 0
    decreases cs
  {
    if cs != [] {
      var c := cs[0];
      PartParts(cs, incoming);
      SumSplits(cs, prior, incoming, x);
      AdditionsWithin(prior, incoming, cs[1..], there, x);
      OccOne(c, x);
      if Real(c) && c.id in RealIds(prior) {
        IndexKeys(prior);
        UniqueIndex(incoming, c);
        RepliesThere(prior, incoming, c);
        AdditionsWithin(prior, incoming, c.replies, DirectIds(Index(prior)[c.id].replies), x);
      } else {
        NewAdditions(prior, incoming, c, x);
      }
    }
  }

  lemma {:induction false} RepliesThere(prior: seq<Comment>, incoming: seq<Comment>, c: Comment)
    requires SameParents(prior, incoming) && c in Nodes(incoming) && Real(c) && c.id in Index(prior)
    ensures ArchivedThere(c.replies, prior, DirectIds(Index(prior)[c.id].replies))
  {
    forall d | d in c.replies && Real(d) && d.id in RealIds(prior) ensures d.id in DirectIds(Index(prior)[c.id].replies) {
      assert KeepsParent(prior, c, d);
    }
  }

  /** A comment that is not archived brings its own subtree and no graft. */
  lemma {:induction false} NewAdditions(prior: seq<Comment>, incoming: seq<Comment>, c: Comment, x: Id)
    requires SameParents(prior, incoming) && WellFormed(incoming) && PartOf([c], incoming)
    requires Real(c) ==> c.id !in RealIds(prior)
    ensures GraftSum(IdList(c.replies), prior, incoming, x) == 0
    ensures Real(c) ==> GraftOf(prior, incoming, c.id, x) == 0
    ensures x in RealIds(prior) ==> Occ([c], x) == 0
  {
    IndexKeys(prior);
    NothingArchivedBelow(prior, incoming, c);
    RealIdsCons([c]);
    assert [c][1..] == [];
    NoGraftBelow(prior, incoming, c.replies, x);
    OccPositive([c], x);
  }

  /** Unique ids survive a merge if and only if the trees agree on the parents of what is archived. */
  lemma {:induction false} UniqueIdsSurviveIff(prior: seq<Comment>, incoming: seq<Comment>)
    requires WellFormed(prior) && WellFormed(incoming) && UniqueIds(prior) && UniqueIds(incoming)
    ensures UniqueIds(Merged(prior, incoming)) <==> SameParents(prior, incoming)
  {
    if UniqueIds(Merged(prior, incoming)) {
      forall q, c | q in Nodes(incoming) && Real(q) && c in q.replies && Real(c) ensures KeepsParent(prior, q, c) {
        if !KeepsParent(prior, q, c) {
          MovedOccursTwice(prior, incoming, q, c);
          UniqueOnce(Merged(prior, incoming), c.id);
        }
      }
    }
    if SameParents(prior, incoming) {
      forall x ensures Occ(Merged(prior, incoming), x) <= 1 {
        OccursOnce(prior, incoming, x);
      }
      OnceUnique(Merged(prior, incoming));
    }
  }

  lemma {:induction false} OccursOnce(prior: seq<Comment>, incoming: seq<Comment>, x: Id)
    requires WellFormed(prior) && WellFormed(incoming) && UniqueIds(prior) && UniqueIds(incoming)
    requires SameParents(prior, incoming)
    ensures Occ(Merged(prior, incoming), x) <= 1
  {
    MergeOccurrences(prior, incoming, x);
    GraftsAreSum(prior, prior, incoming, x);
    forall y | GraftOf(prior, incoming, y, x) > 0 ensures Times(IdList(prior), y) <= Times(IdList(incoming), y) {
      TimesIsOcc(prior, y);
      TimesIsOcc(incoming, y);
      UniqueOnce(prior, y);
      IndexIs(incoming, y);
      OccPositive(incoming, y);
    }
    SumAtMost(IdList(prior), IdList(incoming), prior, incoming, x);
    AdditionsWithin(prior, incoming, incoming, RealIds(prior), x);
    UniqueOnce(incoming, x);
    UniqueOnce(prior, x);
    OccPositive(prior, x);
  }

  /** A parent, then its reply alone as more-children deliver it, then both together: the reply is there twice. */
  lemma PartialThenFullRepeats(p: Comment, c: Comment)
    requires Real(p) && Real(c) && p.id != c.id && p.replies == [] && c.replies == []
    ensures var once := Merged([p], [c]);
            && once == [p, c] && UniqueIds(once)
            && Occ(Merged(once, [p.(replies := [c])]), c.id) >= 2
  {
    var full := [p.(replies := [c])];
    LoneIndex(p);
    LoneIndex(c);
    LoneMerge(p, c);
    PairUnique(p, c);
    FullUnique(p, c);
    assert Nodes(full)[0] == full[0];
    ReplyMoved(p, c);
    MovedOccursTwice([p, c], full, full[0], c);
  }

  lemma LoneIndex(p: Comment)
    requires Real(p) && p.replies == []
    ensures Nodes([p]) == [p] && Index([p]) == map[p.id := p] && RealIds([p]) == {p.id}
  {
    NodesOne(p);
    assert [p][1..] == [];
    assert NoteAll(Note(map[], p), []) == Note(map[], p) == map[p.id := p];
  }

  lemma LoneMerge(p: Comment, c: Comment)
    requires Real(p) && Real(c) && p.id != c.id && p.replies == [] && c.replies == []
    ensures Merged([p], [c]) == [p, c]
  {
    LoneIndex(p);
    LoneIndex(c);
    var known := Known([p], [c]);
    assert [p][1..] == [] && [c][1..] == [];
    assert Overlay([], [c], known) == [];
    assert p.id !in Index([c]);
    assert Overlay([p], [c], known) == [p.(replies := Overlay(p.replies, [c], known))] + Overlay([p][1..], [c], known);
    assert Overlay([p], [c], known) == [p];
    assert NewRoots([], {p.id}, [c], known) == [];
    assert NewRoots([c], {p.id}, [c], known)
        == [c.(replies := Overlay(c.replies, [c], known))] + NewRoots([c][1..], {p.id}, [c], known);
    assert NewRoots([c], {p.id}, [c], known) == [c];
    assert Index([p]).Keys == {p.id};
    assert [p] + [c] == [p, c];
  }

  lemma PairUnique(p: Comment, c: Comment)
    requires Real(p) && Real(c) && p.id != c.id && p.replies == [] && c.replies == []
    ensures Nodes([p, c]) == [p, c] && UniqueIds([p, c]) && WellFormed([p, c])
  {
    assert [p, c] == [p] + [c];
    NodesConcat([p], [c]);
    LoneIndex(p);
    LoneIndex(c);
  }

  lemma FullUnique(p: Comment, c: Comment)
    requires Real(p) && Real(c) && p.id != c.id && p.replies == [] && c.replies == []
    ensures var full := [p.(replies := [c])]; Nodes(full) == [p.(replies := [c]), c] && UniqueIds(full) && WellFormed(full)
  {
    NodesOne(p.(replies := [c]));
    LoneIndex(c);
  }

  lemma ReplyMoved(p: Comment, c: Comment)
    requires Real(p) && Real(c) && p.id != c.id && p.replies == [] && c.replies == []
    ensures !KeepsParent([p, c], p.(replies := [c]), c)
  {
    PairUnique(p, c);
    assert [p, c][0] == p && [p, c][1] == c;
    UniqueIndex([p, c], p);
    IndexKeys([p, c]);
    IndexIs([p, c], c.id);
    UniqueIndex([p, c], c);
  }
}
