/**
  Merging an incoming comment tree into the archived one. The overlay jumps from a
  node of the prior tree to the indexed incoming node with the same id, so its
  recursion is not on the structure of one tree; it ends on every pair of trees.
 */
module MergeTrees {
  import opened Common
  import opened CommentTree

  // ----- Termination: the earliest last position of an indexed id

  /** The least last position, in the walk of `incoming`, of an id of `cs`. */
  ghost function Low(cs: seq<Comment>, incoming: seq<Comment>): (p: nat) {
    LowOf(Nodes(cs), Nodes(incoming))
  }

  ghost function LowOf(ns: seq<Comment>, walk: seq<Comment>): (p: nat)
    ensures p <= |walk|
  {
    if ns == [] then |walk| else
    var p := LowOf(ns[1..], walk);
    if Real(ns[0]) && LastPos(walk, ns[0].id) < p then LastPos(walk, ns[0].id) else p
  }

  lemma {:induction false} LowOfIsLeast(ns: seq<Comment>, walk: seq<Comment>)
    ensures forall n :: n in ns && Real(n) ==> LowOf(ns, walk) <= LastPos(walk, n.id)
    ensures LowOf(ns, walk) == |walk| || exists n :: n in ns && Real(n) && LowOf(ns, walk) == LastPos(walk, n.id)
  {
    if ns != [] {
      LowOfIsLeast(ns[1..], walk);
    }
  }

  /** A forest all of whose real nodes occur in another has no lower position. */
  lemma LowGrows(a: seq<Comment>, b: seq<Comment>, incoming: seq<Comment>)
    requires forall n :: n in Nodes(a) ==> n in Nodes(b)
    ensures Low(a, incoming) >= Low(b, incoming)
  {
    LowOfIsLeast(Nodes(a), Nodes(incoming));
    LowOfIsLeast(Nodes(b), Nodes(incoming));
  }

  /** The jump through the index moves strictly on: replies of the indexed copy lie behind it. */
  lemma JumpMovesOn(c: Comment, incoming: seq<Comment>)
    requires Real(c) && c.id in Index(incoming)
    ensures Low(Index(incoming)[c.id].replies, incoming) > LastPos(Nodes(incoming), c.id)
  {
    IndexIs(incoming, c.id);
    var walk := Nodes(incoming);
    var p := LastPos(walk, c.id);
    var below := Nodes(Index(incoming)[c.id].replies);
    LowOfIsLeast(below, walk);
    if LowOf(below, walk) < |walk| {
      var n :| n in below && Real(n) && LowOf(below, walk) == LastPos(walk, n.id);
      BelowIsLater(incoming, p, n);
      var q :| 0 <= q < |walk[p + 1..]| && walk[p + 1..][q] == n;
      assert walk[p + 1 + q] == n;
      LastPosIsLast(walk, n.id);
    }
  }

  // ----- The merge as functions of the two trees

  /** The children a stub keeps: those not known as real comments. */
  ghost function Unknown(children: seq<Id>, known: set<Id>): (r: seq<Id>)
    ensures forall id :: id in r <==> id in children && id !in known
  {
    if children == [] then [] else
    var last := children[|children| - 1];
    Unknown(children[..|children| - 1], known) + if last in known then [] else [last]
  }

  /** trimStub: None when every listed child is known. */
  ghost function Trimmed(stub: Comment, known: set<Id>): Option<Comment> {
    var remaining := Unknown(stub.children, known);
    if remaining == [] && stub.children != [] then None
    else Some(stub.(children := remaining,
                    moreCount := if |remaining| < stub.moreCount then |remaining| else stub.moreCount))
  }

  ghost function Kept(stub: Option<Comment>): seq<Comment> {
    if stub.Some? then [stub.value] else []
  }

  /** overlayTree, with the incoming index given by its tree. */
  ghost function Overlay(cs: seq<Comment>, incoming: seq<Comment>, known: set<Id>): seq<Comment>
    decreases |Nodes(incoming)| - Low(cs, incoming), cs
  {
    if cs == [] then [] else
    var c := cs[0];
    LowGrows(cs[1..], cs, incoming);
    LowGrows(c.replies, cs, incoming);
    var rest := Overlay(cs[1..], incoming, known);
    if c.kind.More? then Kept(Trimmed(c, known)) + rest
    else if !Real(c) then [c] + rest
    else if c.id in Index(incoming) then
      var copy := Index(incoming)[c.id];
      LowOfIsLeast(Nodes(cs), Nodes(incoming));
      JumpMovesOn(c, incoming);
      [copy.(replies := Join(Overlay(c.replies, incoming, known), DirectIds(c.replies), copy.replies, incoming, known))] + rest
    else [c.(replies := Overlay(c.replies, incoming, known))] + rest
  }

  /** The ids of the real comments at the top of a forest. */
  ghost function DirectIds(cs: seq<Comment>): set<Id> {
    set c | c in cs && Real(c) :: c.id
  }

  /** A stub already in `out` has the same parent. */
  ghost predicate HasStubOf(out: seq<Comment>, parent: Id) {
    exists p :: p in out && p.kind.More? && p.parentID == parent
  }

  /** The second half of mergeReplies: incoming replies joined to the overlaid prior replies `out`. */
  ghost function Join(out: seq<Comment>, direct: set<Id>, more: seq<Comment>, incoming: seq<Comment>, known: set<Id>)
      : seq<Comment>
    decreases |Nodes(incoming)| - Low(more, incoming), more
  {
    if more == [] then out else
    var c := more[0];
    LowGrows(more[1..], more, incoming);
    LowGrows(c.replies, more, incoming);
    if Real(c) then
      if c.id in direct then Join(out, direct, more[1..], incoming, known)
      else Join(out + [c.(replies := Overlay(c.replies, incoming, known))], direct, more[1..], incoming, known)
    else if c.kind.More? && Trimmed(c, known).Some? && !HasStubOf(out, Trimmed(c, known).value.parentID) then
      Join(out + [Trimmed(c, known).value], direct, more[1..], incoming, known)
    else Join(out, direct, more[1..], incoming, known)
  }

  /** The tail of MergeCommentTrees: incoming roots not archived anywhere, and trimmed root stubs. */
  ghost function NewRoots(roots: seq<Comment>, archived: set<Id>, incoming: seq<Comment>, known: set<Id>): seq<Comment> {
    if roots == [] then [] else
    var c := roots[0];
    var rest := NewRoots(roots[1..], archived, incoming, known);
    if Real(c) then
      if c.id in archived then rest else [c.(replies := Overlay(c.replies, incoming, known))] + rest
    else if c.kind.More? then Kept(Trimmed(c, known)) + rest
    else rest
  }

  ghost function Known(prior: seq<Comment>, incoming: seq<Comment>): set<Id> {
    Index(incoming).Keys + Index(prior).Keys
  }

  ghost function Merged(prior: seq<Comment>, incoming: seq<Comment>): seq<Comment> {
    Overlay(prior, incoming, Known(prior, incoming))
    + NewRoots(incoming, Index(prior).Keys, incoming, Known(prior, incoming))
  }

  // ----- The merged tree is tidy: no known id hides in a stub, and none counts more than it lists

  ghost predicate Tidy(n: Comment, known: set<Id>) {
    && (n.kind.T1? ==> n.id != "")
    && (!n.kind.T1? ==> n.replies == [])
    && (n.kind.More? ==> n.moreCount <= |n.children| && forall id :: id in n.children ==> id !in known)
  }

  ghost predicate AllTidy(cs: seq<Comment>, known: set<Id>) {
    forall n :: n in Nodes(cs) ==> Tidy(n, known)
  }

  lemma {:induction false} TidyConcat(a: seq<Comment>, b: seq<Comment>, known: set<Id>)
    ensures AllTidy(a + b, known) <==> AllTidy(a, known) && AllTidy(b, known)
  {
    NodesConcat(a, b);
  }

  lemma {:induction false} TidyOne(c: Comment, known: set<Id>)
    ensures AllTidy([c], known) <==> Tidy(c, known) && AllTidy(c.replies, known)
  {
    NodesOne(c);
  }

  lemma {:induction false} WellFormedParts(cs: seq<Comment>)
    requires WellFormed(cs) && cs != []
    ensures WellFormed(cs[0].replies) && WellFormed(cs[1..])
    ensures cs[0].kind.T1? ==> Real(cs[0])
    ensures !cs[0].kind.T1? ==> cs[0].replies == []
  {
    assert cs[0] in Nodes(cs);
  }

  /** These are the places of the ids not known, in order. */
  ghost predicate UnknownAt(children: seq<Id>, known: set<Id>, places: seq<nat>) {
    && (forall i :: 0 <= i < |places| ==> places[i] < |children|)
    && (forall i, j :: 0 <= i < j < |places| ==> places[i] < places[j])
    && forall k: nat :: k < |children| ==> (k in places <==> children[k] !in known)
  }

  ghost predicate ListsPlaces(ids: seq<Id>, children: seq<Id>, places: seq<nat>) {
    |ids| == |places| && forall i :: 0 <= i < |places| ==> places[i] < |children| && ids[i] == children[places[i]]
  }

  lemma {:induction false} UnknownMore(init: seq<Id>, known: set<Id>, places: seq<nat>, last: Id, ids: seq<Id>)
    requires UnknownAt(init, known, places) && ListsPlaces(ids, init, places)
    ensures last in known ==> UnknownAt(init + [last], known, places) && ListsPlaces(ids, init + [last], places)
    ensures last !in known ==>
              UnknownAt(init + [last], known, places + [|init|]) && ListsPlaces(ids + [last], init + [last], places + [|init|])
  {
    forall k: nat | k < |init| ensures k in places + [|init|] <==> init[k] !in known {
      assert k in places + [|init|] <==> k in places;
    }
  }

  lemma {:induction false} UnknownPlaces(children: seq<Id>, known: set<Id>) returns (places: seq<nat>)
    ensures UnknownAt(children, known, places) && ListsPlaces(Unknown(children, known), children, places)
  {
    if children == [] {
      places := [];
    } else {
      var init, last := children[..|children| - 1], children[|children| - 1];
      var before := UnknownPlaces(init, known);
      UnknownMore(init, known, before, last, Unknown(init, known));
      assert init + [last] == children;
      if last in known {
        places := before;
        assert Unknown(children, known) == Unknown(init, known);
      } else {
        places := before + [|init|];
      }
    }
  }

  /**
    What trimming leaves: the unknown ids, in their order, and a count that is no larger
    than before or than what is listed; nothing, if all that was listed is known.
   */
  lemma {:induction false} TrimmedIs(stub: Comment, known: set<Id>) returns (places: seq<nat>)
    ensures UnknownAt(stub.children, known, places)
    ensures Trimmed(stub, known).None? <==> stub.children != [] && places == []
    ensures Trimmed(stub, known).Some? ==>
              var t := Trimmed(stub, known).value;
              && ListsPlaces(t.children, stub.children, places)
              && t.moreCount <= stub.moreCount && t.moreCount <= |t.children|
              && (t.moreCount == stub.moreCount || t.moreCount == |t.children|)
              && t == stub.(children := t.children, moreCount := t.moreCount)
  {
    places := UnknownPlaces(stub.children, known);
  }

  lemma {:induction false} TrimmedIsTidy(stub: Comment, known: set<Id>)
    requires stub.kind.More? && stub.replies == []
    ensures AllTidy(Kept(Trimmed(stub, known)), known)
  {
    if Trimmed(stub, known).Some? {
      TidyOne(Trimmed(stub, known).value, known);
    }
  }

  lemma {:induction false} IndexedIsWellFormed(incoming: seq<Comment>, x: Id)
    requires WellFormed(incoming) && x in Index(incoming)
    ensures WellFormed(Index(incoming)[x].replies)
  {
    IndexIs(incoming, x);
    NodesBelow(incoming, Index(incoming)[x]);
  }

  lemma {:induction false} OverlayTidy(cs: seq<Comment>, incoming: seq<Comment>, known: set<Id>)
    requires WellFormed(cs) && WellFormed(incoming)
    ensures AllTidy(Overlay(cs, incoming, known), known)
    decreases |Nodes(incoming)| - Low(cs, incoming), cs
  {
    if cs != [] {
      var c := cs[0];
      WellFormedParts(cs);
      LowGrows(cs[1..], cs, incoming);
      LowGrows(c.replies, cs, incoming);
      OverlayTidy(cs[1..], incoming, known);
      var rest := Overlay(cs[1..], incoming, known);
      if c.kind.More? {
        TrimmedIsTidy(c, known);
        TidyConcat(Kept(Trimmed(c, known)), rest, known);
      } else if !Real(c) {
        TidyOne(c, known);
        TidyConcat([c], rest, known);
      } else {
        OverlayTidy(c.replies, incoming, known);
        var out := Overlay(c.replies, incoming, known);
        if c.id in Index(incoming) {
          var copy := Index(incoming)[c.id];
          IndexIs(incoming, c.id);
          IndexedIsWellFormed(incoming, c.id);
          LowOfIsLeast(Nodes(cs), Nodes(incoming));
          JumpMovesOn(c, incoming);
          JoinTidy(out, DirectIds(c.replies), copy.replies, incoming, known);
          out := Join(out, DirectIds(c.replies), copy.replies, incoming, known);
          TidyOne(copy.(replies := out), known);
          TidyConcat([copy.(replies := out)], rest, known);
        } else {
          TidyOne(c.(replies := out), known);
          TidyConcat([c.(replies := out)], rest, known);
        }
      }
    }
  }

  lemma {:induction false} JoinTidy(out: seq<Comment>, direct: set<Id>, more: seq<Comment>, incoming: seq<Comment>,
                                    known: set<Id>)
    requires AllTidy(out, known) && WellFormed(more) && WellFormed(incoming)
    ensures AllTidy(Join(out, direct, more, incoming, known), known)
    decreases |Nodes(incoming)| - Low(more, incoming), more
  {
    if more != [] {
      var c := more[0];
      WellFormedParts(more);
      LowGrows(more[1..], more, incoming);
      LowGrows(c.replies, more, incoming);
      if Real(c) && c.id !in direct {
        OverlayTidy(c.replies, incoming, known);
        var added := c.(replies := Overlay(c.replies, incoming, known));
        TidyOne(added, known);
        TidyConcat(out, [added], known);
        JoinTidy(out + [added], direct, more[1..], incoming, known);
      } else if !Real(c) && c.kind.More? && Trimmed(c, known).Some?
             && !HasStubOf(out, Trimmed(c, known).value.parentID) {
        TrimmedIsTidy(c, known);
        TidyConcat(out, Kept(Trimmed(c, known)), known);
        JoinTidy(out + [Trimmed(c, known).value], direct, more[1..], incoming, known);
      } else {
        JoinTidy(out, direct, more[1..], incoming, known);
      }
    }
  }

  lemma {:induction false} NewRootsTidy(roots: seq<Comment>, archived: set<Id>, incoming: seq<Comment>, known: set<Id>)
    requires WellFormed(roots) && WellFormed(incoming)
    ensures AllTidy(NewRoots(roots, archived, incoming, known), known)
  {
    if roots != [] {
      var c := roots[0];
      WellFormedParts(roots);
      NewRootsTidy(roots[1..], archived, incoming, known);
      var rest := NewRoots(roots[1..], archived, incoming, known);
      if Real(c) && c.id !in archived {
        OverlayTidy(c.replies, incoming, known);
        TidyOne(c.(replies := Overlay(c.replies, incoming, known)), known);
        TidyConcat([c.(replies := Overlay(c.replies, incoming, known))], rest, known);
      } else if c.kind.More? {
        TrimmedIsTidy(c, known);
        TidyConcat(Kept(Trimmed(c, known)), rest, known);
      }
    }
  }

  lemma {:induction false} MergedTidy(prior: seq<Comment>, incoming: seq<Comment>)
    requires WellFormed(prior) && WellFormed(incoming)
    ensures AllTidy(Merged(prior, incoming), Known(prior, incoming))
    ensures WellFormed(Merged(prior, incoming))
  {
    var known := Known(prior, incoming);
    OverlayTidy(prior, incoming, known);
    NewRootsTidy(incoming, Index(prior).Keys, incoming, known);
    TidyConcat(Overlay(prior, incoming, known), NewRoots(incoming, Index(prior).Keys, incoming, known), known);
  }

  // ----- Where the nodes of the merged tree come from

  /** A real node carries incoming's payload if incoming has its id, and some prior node's otherwise. */
  ghost predicate Sourced(n: Comment, prior: seq<Comment>, incoming: seq<Comment>) {
    Real(n) ==>
      if n.id in Index(incoming) then SamePayload(n, Index(incoming)[n.id])
      else exists p :: p in Nodes(prior) && SamePayload(n, p)
  }

  ghost predicate AllSourced(cs: seq<Comment>, prior: seq<Comment>, incoming: seq<Comment>) {
    forall n :: n in Nodes(cs) ==> Sourced(n, prior, incoming)
  }

  /** Every node is one of the prior tree or one of the incoming tree. */
  ghost predicate FromEither(cs: seq<Comment>, prior: seq<Comment>, incoming: seq<Comment>) {
    forall n :: n in Nodes(cs) ==> n in Nodes(prior) || n in Nodes(incoming)
  }

  lemma {:induction false} SourcedConcat(a: seq<Comment>, b: seq<Comment>, prior: seq<Comment>, incoming: seq<Comment>)
    ensures AllSourced(a + b, prior, incoming) <==> AllSourced(a, prior, incoming) && AllSourced(b, prior, incoming)
  {
    NodesConcat(a, b);
  }

  lemma {:induction false} SourcedOne(c: Comment, prior: seq<Comment>, incoming: seq<Comment>)
    ensures AllSourced([c], prior, incoming) <==> Sourced(c, prior, incoming) && AllSourced(c.replies, prior, incoming)
  {
    NodesOne(c);
  }

  /** A node taken over with new replies is sourced. */
  lemma {:induction false} TakenOver(c: Comment, replies: seq<Comment>, prior: seq<Comment>, incoming: seq<Comment>)
    requires UniqueIds(incoming) && Real(c) && (c in Nodes(prior) || c in Nodes(incoming))
    requires c in Nodes(incoming) || c.id !in Index(incoming)
    ensures Sourced(c.(replies := replies), prior, incoming)
  {
    if c in Nodes(incoming) {
      UniqueIndex(incoming, c);
    }
  }

  lemma {:induction false} UnrealIsSourced(stub: Option<Comment>, prior: seq<Comment>, incoming: seq<Comment>)
    requires stub.Some? ==> !Real(stub.value) && stub.value.replies == []
    ensures AllSourced(Kept(stub), prior, incoming)
  {
    if stub.Some? {
      SourcedOne(stub.value, prior, incoming);
    }
  }

  lemma {:induction false} OverlaySourced(cs: seq<Comment>, prior: seq<Comment>, incoming: seq<Comment>, known: set<Id>)
    requires WellFormed(cs) && WellFormed(incoming) && UniqueIds(incoming)
    requires FromEither(cs, prior, incoming)
    ensures AllSourced(Overlay(cs, incoming, known), prior, incoming)
    decreases |Nodes(incoming)| - Low(cs, incoming), cs
  {
    if cs != [] {
      var c := cs[0];
      WellFormedParts(cs);
      LowGrows(cs[1..], cs, incoming);
      LowGrows(c.replies, cs, incoming);
      OverlaySourced(cs[1..], prior, incoming, known);
      var rest := Overlay(cs[1..], incoming, known);
      if c.kind.More? {
        UnrealIsSourced(Trimmed(c, known), prior, incoming);
        SourcedConcat(Kept(Trimmed(c, known)), rest, prior, incoming);
      } else if !Real(c) {
        SourcedOne(c, prior, incoming);
        SourcedConcat([c], rest, prior, incoming);
      } else {
        OverlaySourced(c.replies, prior, incoming, known);
        var out := Overlay(c.replies, incoming, known);
        if c.id in Index(incoming) {
          var copy := Index(incoming)[c.id];
          IndexIs(incoming, c.id);
          IndexedIsWellFormed(incoming, c.id);
          NodesBelow(incoming, copy);
          LowOfIsLeast(Nodes(cs), Nodes(incoming));
          JumpMovesOn(c, incoming);
          JoinSourced(out, DirectIds(c.replies), copy.replies, prior, incoming, known);
          out := Join(out, DirectIds(c.replies), copy.replies, incoming, known);
          TakenOver(copy, out, prior, incoming);
          SourcedOne(copy.(replies := out), prior, incoming);
          SourcedConcat([copy.(replies := out)], rest, prior, incoming);
        } else {
          assert c in Nodes(cs);
          TakenOver(c, out, prior, incoming);
          SourcedOne(c.(replies := out), prior, incoming);
          SourcedConcat([c.(replies := out)], rest, prior, incoming);
        }
      }
    }
  }

  lemma {:induction false} JoinSourced(out: seq<Comment>, direct: set<Id>, more: seq<Comment>, prior: seq<Comment>,
                                       incoming: seq<Comment>, known: set<Id>)
    requires AllSourced(out, prior, incoming) && WellFormed(more) && WellFormed(incoming) && UniqueIds(incoming)
    requires forall n :: n in Nodes(more) ==> n in Nodes(incoming)
    ensures AllSourced(Join(out, direct, more, incoming, known), prior, incoming)
    decreases |Nodes(incoming)| - Low(more, incoming), more
  {
    if more != [] {
      var c := more[0];
      WellFormedParts(more);
      LowGrows(more[1..], more, incoming);
      LowGrows(c.replies, more, incoming);
      if Real(c) && c.id !in direct {
        assert c in Nodes(more);
        OverlaySourced(c.replies, prior, incoming, known);
        var added := c.(replies := Overlay(c.replies, incoming, known));
        TakenOver(c, added.replies, prior, incoming);
        SourcedOne(added, prior, incoming);
        SourcedConcat(out, [added], prior, incoming);
        JoinSourced(out + [added], direct, more[1..], prior, incoming, known);
      } else if !Real(c) && c.kind.More? && Trimmed(c, known).Some?
             && !HasStubOf(out, Trimmed(c, known).value.parentID) {
        UnrealIsSourced(Trimmed(c, known), prior, incoming);
        SourcedConcat(out, Kept(Trimmed(c, known)), prior, incoming);
        JoinSourced(out + [Trimmed(c, known).value], direct, more[1..], prior, incoming, known);
      } else {
        JoinSourced(out, direct, more[1..], prior, incoming, known);
      }
    }
  }

  lemma {:induction false} NewRootsSourced(roots: seq<Comment>, archived: set<Id>, prior: seq<Comment>,
                                           incoming: seq<Comment>, known: set<Id>)
    requires WellFormed(roots) && WellFormed(incoming) && UniqueIds(incoming)
    requires forall n :: n in Nodes(roots) ==> n in Nodes(incoming)
    ensures AllSourced(NewRoots(roots, archived, incoming, known), prior, incoming)
  {
    if roots != [] {
      var c := roots[0];
      WellFormedParts(roots);
      NewRootsSourced(roots[1..], archived, prior, incoming, known);
      var rest := NewRoots(roots[1..], archived, incoming, known);
      if Real(c) && c.id !in archived {
        assert c in Nodes(roots);
        OverlaySourced(c.replies, prior, incoming, known);
        var added := c.(replies := Overlay(c.replies, incoming, known));
        TakenOver(c, added.replies, prior, incoming);
        SourcedOne(added, prior, incoming);
        SourcedConcat([added], rest, prior, incoming);
      } else if c.kind.More? {
        UnrealIsSourced(Trimmed(c, known), prior, incoming);
        SourcedConcat(Kept(Trimmed(c, known)), rest, prior, incoming);
      }
    }
  }

  // ----- No real comment is lost

  /** An archived id brings with it everything incoming holds below it. */
  ghost predicate Covers(out: seq<Comment>, ids: set<Id>, incoming: seq<Comment>) {
    && ids <= RealIds(out)
    && forall x :: x in ids && x in Index(incoming) ==> RealIds(Index(incoming)[x].replies) <= RealIds(out)
  }

  lemma {:induction false} CoversGrow(out: seq<Comment>, more: seq<Comment>, ids: set<Id>, incoming: seq<Comment>)
    requires Covers(out, ids, incoming) && RealIds(out) <= RealIds(more)
    ensures Covers(more, ids, incoming)
  {
  }

  lemma {:induction false} OverlayKeeps(cs: seq<Comment>, incoming: seq<Comment>, known: set<Id>)
    requires WellFormed(cs) && WellFormed(incoming) && UniqueIds(incoming)
    ensures Covers(Overlay(cs, incoming, known), RealIds(cs), incoming)
    decreases |Nodes(incoming)| - Low(cs, incoming), cs
  {
    if cs != [] {
      var c := cs[0];
      WellFormedParts(cs);
      LowGrows(cs[1..], cs, incoming);
      LowGrows(c.replies, cs, incoming);
      OverlayKeeps(cs[1..], incoming, known);
      RealIdsCons(cs);
      var rest := Overlay(cs[1..], incoming, known);
      if Real(c) {
        OverlayKeeps(c.replies, incoming, known);
        if c.id in Index(incoming) {
          var copy := Index(incoming)[c.id];
          IndexIs(incoming, c.id);
          NodesBelow(incoming, copy);
          IndexedIsWellFormed(incoming, c.id);
          LowOfIsLeast(Nodes(cs), Nodes(incoming));
          JumpMovesOn(c, incoming);
          DirectAreReal(c.replies);
          var out := Overlay(c.replies, incoming, known);
          JoinKeeps(out, DirectIds(c.replies), copy.replies, incoming, known);
          out := Join(out, DirectIds(c.replies), copy.replies, incoming, known);
          HeadCovers(copy.(replies := out), RealIds(c.replies), rest, RealIds(cs[1..]), incoming);
        } else {
          HeadCovers(c.(replies := Overlay(c.replies, incoming, known)), RealIds(c.replies), rest, RealIds(cs[1..]), incoming);
        }
      } else {
        var head := if c.kind.More? then Kept(Trimmed(c, known)) else [c];
        assert RealIds(c.replies) == {};
        RealIdsConcat(head, rest);
      }
    }
  }

  lemma {:induction false} HeadCovers(c: Comment, below: set<Id>, rest: seq<Comment>, later: set<Id>, incoming: seq<Comment>)
    requires Real(c) && Covers(c.replies, below, incoming) && Covers(rest, later, incoming)
    requires c.id in Index(incoming) ==> RealIds(Index(incoming)[c.id].replies) <= RealIds(c.replies)
    ensures Covers([c] + rest, {c.id} + below + later, incoming)
  {
    RealIdsCons([c]);
    RealIdsConcat([c], rest);
  }

  lemma {:induction false} DirectAreReal(cs: seq<Comment>)
    ensures DirectIds(cs) <= RealIds(cs)
  {
    if cs != [] {
      DirectAreReal(cs[1..]);
      RealIdsCons(cs);
    }
  }

  lemma {:induction false} JoinKeeps(out: seq<Comment>, direct: set<Id>, more: seq<Comment>, incoming: seq<Comment>,
                                     known: set<Id>)
    requires WellFormed(more) && WellFormed(incoming) && UniqueIds(incoming)
    requires forall n :: n in Nodes(more) ==> n in Nodes(incoming)
    requires Covers(out, direct, incoming)
    ensures RealIds(out) + RealIds(more) <= RealIds(Join(out, direct, more, incoming, known))
    decreases |Nodes(incoming)| - Low(more, incoming), more
  {
    if more != [] {
      var c := more[0];
      WellFormedParts(more);
      LowGrows(more[1..], more, incoming);
      LowGrows(c.replies, more, incoming);
      RealIdsCons(more);
      var next := out;
      if Real(c) {
        assert c in Nodes(more);
        UniqueIndex(incoming, c);
        if c.id !in direct {
          OverlayKeeps(c.replies, incoming, known);
          var added := c.(replies := Overlay(c.replies, incoming, known));
          next := out + [added];
          RealIdsCons([added]);
          RealIdsConcat(out, [added]);
        }
      } else if c.kind.More? && Trimmed(c, known).Some? && !HasStubOf(out, Trimmed(c, known).value.parentID) {
        next := out + [Trimmed(c, known).value];
        RealIdsConcat(out, [Trimmed(c, known).value]);
      }
      CoversGrow(out, next, direct, incoming);
      JoinKeeps(next, direct, more[1..], incoming, known);
    }
  }

  lemma {:induction false} NewRootsKeep(roots: seq<Comment>, archived: set<Id>, incoming: seq<Comment>, known: set<Id>,
                                        out: seq<Comment>)
    requires WellFormed(roots) && WellFormed(incoming) && UniqueIds(incoming)
    requires forall n :: n in Nodes(roots) ==> n in Nodes(incoming)
    requires Covers(out, archived, incoming)
    ensures RealIds(roots) <= RealIds(out) + RealIds(NewRoots(roots, archived, incoming, known))
  {
    if roots != [] {
      var c := roots[0];
      WellFormedParts(roots);
      NewRootsKeep(roots[1..], archived, incoming, known, out);
      RealIdsCons(roots);
      var rest := NewRoots(roots[1..], archived, incoming, known);
      if Real(c) {
        assert c in Nodes(roots);
        UniqueIndex(incoming, c);
        if c.id !in archived {
          OverlayKeeps(c.replies, incoming, known);
          var added := c.(replies := Overlay(c.replies, incoming, known));
          RealIdsCons([added]);
          RealIdsConcat([added], rest);
        }
      } else if c.kind.More? {
        RealIdsConcat(Kept(Trimmed(c, known)), rest);
      }
    }
  }

  // ----- The merge theorem

  /**
    The merged tree holds exactly the real comments of the two trees, each with the
    incoming payload where incoming has the comment and a prior payload otherwise.
   */
  lemma {:induction false} MergeIsUnion(prior: seq<Comment>, incoming: seq<Comment>)
    requires WellFormed(prior) && WellFormed(incoming) && UniqueIds(incoming)
    ensures RealIds(Merged(prior, incoming)) == RealIds(prior) + RealIds(incoming)
    ensures AllSourced(Merged(prior, incoming), prior, incoming)
  {
    var known := Known(prior, incoming);
    var base, added := Overlay(prior, incoming, known), NewRoots(incoming, Index(prior).Keys, incoming, known);
    IndexKeys(prior);
    IndexKeys(incoming);
    OverlaySourced(prior, prior, incoming, known);
    NewRootsSourced(incoming, Index(prior).Keys, prior, incoming, known);
    SourcedConcat(base, added, prior, incoming);
    OverlayKeeps(prior, incoming, known);
    NewRootsKeep(incoming, Index(prior).Keys, incoming, known, base);
    RealIdsConcat(base, added);
    forall x | x in RealIds(Merged(prior, incoming)) ensures x in RealIds(prior) + RealIds(incoming) {
      var n :| n in Nodes(Merged(prior, incoming)) && Real(n) && n.id == x;
      assert Sourced(n, prior, incoming);
    }
  }

  /** No stub of the merged tree lists a comment that is a real node of it. */
  lemma MergeLeavesNoCoveredStub(prior: seq<Comment>, incoming: seq<Comment>)
    requires WellFormed(prior) && WellFormed(incoming)
    ensures UniqueIds(incoming) ==> AllTidy(Merged(prior, incoming), RealIds(Merged(prior, incoming)))
  {
    MergedTidy(prior, incoming);
    IndexKeys(prior);
    IndexKeys(incoming);
    if UniqueIds(incoming) {
      MergeIsUnion(prior, incoming);
    }
  }

  // ----- The program

  lemma {:induction false} OverlayCons(cs: seq<Comment>, incoming: seq<Comment>, known: set<Id>)
    requires cs != []
    ensures Overlay(cs, incoming, known) == Overlay([cs[0]], incoming, known) + Overlay(cs[1..], incoming, known)
  {
    assert Overlay([cs[0]][1..], incoming, known) == [];
  }

  lemma {:induction false} OverlayConcat(a: seq<Comment>, b: seq<Comment>, incoming: seq<Comment>, known: set<Id>)
    ensures Overlay(a + b, incoming, known) == Overlay(a, incoming, known) + Overlay(b, incoming, known)
    decreases a
  {
    if a == [] {
      assert a + b == b;
    } else {
      var c, rest := a[0], a[1..];
      OverlayConcat(rest, b, incoming, known);
      OverlayFirst(c, rest, incoming, known);
      OverlayFirst(c, rest + b, incoming, known);
      assert a == [c] + rest && a + b == [c] + (rest + b);
      Associates(Overlay([c], incoming, known), Overlay(rest, incoming, known), Overlay(b, incoming, known));
    }
  }

  lemma Associates(x: seq<Comment>, y: seq<Comment>, z: seq<Comment>)
    ensures x + (y + z) == (x + y) + z
  {
  }

  lemma {:induction false} OverlayFirst(c: Comment, rest: seq<Comment>, incoming: seq<Comment>, known: set<Id>)
    ensures Overlay([c] + rest, incoming, known) == Overlay([c], incoming, known) + Overlay(rest, incoming, known)
  {
    OverlayCons([c] + rest, incoming, known);
    assert ([c] + rest)[1..] == rest;
  }

  lemma {:induction false} NodesAt(cs: seq<Comment>, i: nat)
    requires i < |cs|
    ensures cs[i] in Nodes(cs)
    ensures forall n :: n in Nodes(cs[i].replies) ==> n in Nodes(cs)
  {
    if i > 0 {
      NodesAt(cs[1..], i - 1);
    }
  }

  // trimStub
  method TrimStub(stub: Comment, known: set<Id>) returns (r: Option<Comment>)
    ensures r == Trimmed(stub, known)
  {
    var remaining: seq<Id> := [];
    for i := 0 to |stub.children|
      invariant remaining == Unknown(stub.children[..i], known)
    {
      assert stub.children[..i + 1][..i] == stub.children[..i];
      if stub.children[i] !in known {
        remaining := remaining + [stub.children[i]];
      }
    }
    assert stub.children[..|stub.children|] == stub.children;
    if |remaining| == 0 && |stub.children| > 0 {
      return None;
    }
    var out := stub.(children := remaining);
    if |remaining| < out.moreCount {
      out := out.(moreCount := |remaining|);
    }
    r := Some(out);
  }

  lemma {:induction false} OverlayStep(cs: seq<Comment>, i: nat, incoming: seq<Comment>, known: set<Id>)
    requires i < |cs|
    ensures Overlay(cs[..i + 1], incoming, known) == Overlay(cs[..i], incoming, known) + Overlay([cs[i]], incoming, known)
    ensures Low(cs[i].replies, incoming) >= Low(cs, incoming)
    ensures Real(cs[i]) ==> Low(cs, incoming) <= LastPos(Nodes(incoming), cs[i].id)
  {
    assert cs[..i + 1] == cs[..i] + [cs[i]];
    OverlayConcat(cs[..i], [cs[i]], incoming, known);
    NodesAt(cs, i);
    LowGrows(cs[i].replies, cs, incoming);
    LowOfIsLeast(Nodes(cs), Nodes(incoming));
  }

  // overlayTree; the ghost bound is what makes the jump through the index decrease
  method OverlayTree(cs: seq<Comment>, incomingByID: map<Id, Comment>, known: set<Id>,
                     ghost incoming: seq<Comment>, ghost lo: nat)
      returns (out: seq<Comment>)
    requires incomingByID == Index(incoming) && lo <= Low(cs, incoming)
    ensures out == Overlay(cs, incoming, known)
    decreases |Nodes(incoming)| - lo, cs, 0
  {
    out := [];
    for i := 0 to |cs|
      invariant out == Overlay(cs[..i], incoming, known)
    {
      var c := cs[i];
      OverlayStep(cs, i, incoming, known);
      if c.kind.More? {
        var trimmed := TrimStub(c, known);
        if trimmed.Some? {
          out := out + [trimmed.value];
        }
        continue;
      }
      if !c.kind.T1? || c.id == "" {
        out := out + [c];
        continue;
      }
      if c.id in incomingByID {
        var copy := incomingByID[c.id];
        JumpMovesOn(c, incoming);
        var replies := MergeReplies(c.replies, copy.replies, incomingByID, known, incoming, lo);
        out := out + [copy.(replies := replies)];
        continue;
      }
      var replies := OverlayTree(c.replies, incomingByID, known, incoming, lo);
      out := out + [c.(replies := replies)];
    }
    assert cs[..|cs|] == cs;
  }

  lemma DirectIdsSnoc(cs: seq<Comment>, c: Comment)
    ensures DirectIds(cs + [c]) == DirectIds(cs) + if Real(c) then {c.id} else {}
  {
    assert forall d :: d in cs + [c] <==> d in cs || d == c;
  }

  // the first loop of mergeReplies
  method DirectReplies(prior: seq<Comment>) returns (priorByID: set<Id>)
    ensures priorByID == DirectIds(prior)
  {
    priorByID := {};
    for i := 0 to |prior|
      invariant priorByID == DirectIds(prior[..i])
    {
      var c := prior[i];
      DirectIdsSnoc(prior[..i], c);
      assert prior[..i + 1] == prior[..i] + [c];
      if c.kind.T1? && c.id != "" {
        priorByID := priorByID + {c.id};
      }
    }
    assert prior[..|prior|] == prior;
  }

  // the duplicate scan of mergeReplies
  method StubOfParent(out: seq<Comment>, parent: Id) returns (dup: bool)
    ensures dup <==> HasStubOf(out, parent)
  {
    dup := false;
    for k := 0 to |out|
      invariant !dup
      invariant forall l :: 0 <= l < k ==> !(out[l].kind.More? && out[l].parentID == parent)
    {
      if out[k].kind.More? && out[k].parentID == parent {
        return true;
      }
    }
  }

  lemma {:induction false} JoinStep(out: seq<Comment>, direct: set<Id>, more: seq<Comment>, i: nat,
                                    incoming: seq<Comment>, known: set<Id>)
    requires i < |more|
    ensures Low(more[i].replies, incoming) >= Low(more, incoming)
    ensures var c := more[i];
            Join(out, direct, more[i..], incoming, known) ==
            Join(if Real(c) && c.id !in direct then out + [c.(replies := Overlay(c.replies, incoming, known))]
                 else if !Real(c) && c.kind.More? && Trimmed(c, known).Some?
                      && !HasStubOf(out, Trimmed(c, known).value.parentID) then out + [Trimmed(c, known).value]
                 else out,
                 direct, more[i + 1..], incoming, known)
  {
    NodesAt(more, i);
    LowGrows(more[i].replies, more, incoming);
    assert more[i..][0] == more[i] && more[i..][1..] == more[i + 1..];
  }

  // mergeReplies
  method MergeReplies(prior: seq<Comment>, more: seq<Comment>, incomingByID: map<Id, Comment>, known: set<Id>,
                      ghost incoming: seq<Comment>, ghost lo: nat)
      returns (out: seq<Comment>)
    requires incomingByID == Index(incoming) && lo <= Low(prior, incoming) && lo < Low(more, incoming)
    ensures out == Join(Overlay(prior, incoming, known), DirectIds(prior), more, incoming, known)
    decreases |Nodes(incoming)| - lo, prior, 1
  {
    var priorByID := DirectReplies(prior);
    out := OverlayTree(prior, incomingByID, known, incoming, lo);
    ghost var whole := Join(out, priorByID, more, incoming, known);
    assert more[0..] == more;
    for i := 0 to |more|
      invariant Join(out, priorByID, more[i..], incoming, known) == whole
    {
      var c := more[i];
      JoinStep(out, priorByID, more, i, incoming, known);
      if c.kind.T1? && c.id != "" {
        if c.id in priorByID {
          continue;
        }
        var replies := OverlayTree(c.replies, incomingByID, known, incoming, lo + 1);
        out := out + [c.(replies := replies)];
        continue;
      }
      if c.kind.More? {
        var trimmed := TrimStub(c, known);
        if trimmed.Some? {
          var dup := StubOfParent(out, trimmed.value.parentID);
          if !dup {
            out := out + [trimmed.value];
          }
        }
      }
    }
  }

  lemma {:induction false} NewRootsConcat(a: seq<Comment>, b: seq<Comment>, archived: set<Id>, incoming: seq<Comment>,
                                          known: set<Id>)
    ensures NewRoots(a + b, archived, incoming, known)
         == NewRoots(a, archived, incoming, known) + NewRoots(b, archived, incoming, known)
  {
    if a == [] {
      assert a + b == b;
    } else {
      assert (a + b)[1..] == a[1..] + b;
      NewRootsConcat(a[1..], b, archived, incoming, known);
    }
  }

  method MergeCommentTrees(prior: seq<Comment>, incoming: seq<Comment>) returns (merged: seq<Comment>)
    ensures merged == Merged(prior, incoming)
  {
    var incomingByID := IndexCommentsByID(incoming);
    var priorByID := IndexCommentsByID(prior);
    var known := incomingByID.Keys + priorByID.Keys;
    merged := OverlayTree(prior, incomingByID, known, incoming, Low(prior, incoming));
    ghost var base := merged;
    for i := 0 to |incoming|
      invariant merged == base + NewRoots(incoming[..i], priorByID.Keys, incoming, known)
    {
      assert incoming[..i + 1] == incoming[..i] + [incoming[i]];
      NewRootsConcat(incoming[..i], [incoming[i]], priorByID.Keys, incoming, known);
      var more := MergeRoot(incoming[i], incomingByID, priorByID, known, incoming);
      merged := merged + more;
    }
    assert incoming[..|incoming|] == incoming;
  }

  // the body of that loop: what one incoming root appends
  method MergeRoot(c: Comment, incomingByID: map<Id, Comment>, priorByID: map<Id, Comment>, known: set<Id>,
                   ghost incoming: seq<Comment>)
      returns (more: seq<Comment>)
    requires incomingByID == Index(incoming)
    ensures more == NewRoots([c], priorByID.Keys, incoming, known)
  {
    assert [c][1..] == [] && NewRoots([], priorByID.Keys, incoming, known) == [];
    if c.kind.T1? && c.id != "" {
      if c.id in priorByID {
        return [];
      }
      var replies := OverlayTree(c.replies, incomingByID, known, incoming, Low(c.replies, incoming));
      return [c.(replies := replies)];
    }
    if c.kind.More? {
      var trimmed := TrimStub(c, known);
      if trimmed.Some? {
        return [trimmed.value];
      }
    }
    return [];
  }
}
