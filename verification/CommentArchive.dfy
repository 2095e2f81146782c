/**
  Archiving comment trees: a tombstone in a fresh fetch gets the archived body back,
  then the fetch is merged into the stored tree. What a run of fetches keeps, what one
  fetch restores, and what a second tombstone loses.
 */
module CommentArchive {
  import opened CommentTree
  import opened MergeTrees

  // ----- Restoring the bodies of removed comments

  ghost predicate HasRemoved(cs: seq<Comment>) {
    exists n :: n in Nodes(cs) && n.removed
  }

  predicate Alive(c: Comment) {
    Real(c) && !c.removed
  }

  /** The walk's last alive node of each id. */
  ghost function NoteAlive(m: map<Id, Comment>, ns: seq<Comment>): map<Id, Comment>
    decreases ns
  {
    if ns == [] then m
    else NoteAlive(if Alive(ns[0]) then m[ns[0].id := ns[0]] else m, ns[1..])
  }

  ghost function AliveIndex(cs: seq<Comment>): map<Id, Comment> {
    NoteAlive(map[], Nodes(cs))
  }

  function RestoreOne(c: Comment, alive: map<Id, Comment>): Comment {
    if c.removed && c.id != "" && c.id in alive then c.(body := alive[c.id].body, author := alive[c.id].author) else c
  }

  ghost function Restored(cs: seq<Comment>, alive: map<Id, Comment>): seq<Comment> {
    if cs == [] then [] else
    [RestoreOne(cs[0], alive).(replies := Restored(cs[0].replies, alive))] + Restored(cs[1..], alive)
  }

  // ----- One archiving step

  ghost function Prepared(prior: seq<Comment>, comments: seq<Comment>): seq<Comment> {
    if HasRemoved(comments) && prior != [] then Restored(comments, AliveIndex(prior)) else comments
  }

  /** ArchiveComments: the stored tree after one call. */
  ghost function Archived(prior: seq<Comment>, comments: seq<Comment>, allowed: bool): seq<Comment> {
    if comments == [] || !allowed then prior
    else if prior == [] then comments
    else Merged(prior, Prepared(prior, comments))
  }

  // ----- The alive index

  lemma {:induction false} NoteAliveConcat(m: map<Id, Comment>, a: seq<Comment>, b: seq<Comment>)
    ensures NoteAlive(m, a + b) == NoteAlive(NoteAlive(m, a), b)
    decreases a
  {
    if a == [] {
      assert a + b == b;
    } else {
      assert (a + b)[1..] == a[1..] + b;
      NoteAliveConcat(if Alive(a[0]) then m[a[0].id := a[0]] else m, a[1..], b);
    }
  }

  lemma {:induction false} NoteAliveIs(m: map<Id, Comment>, ns: seq<Comment>)
    ensures forall x :: x in NoteAlive(m, ns) <==> x in m || exists n :: n in ns && Alive(n) && n.id == x
    ensures forall x :: x in NoteAlive(m, ns) ==>
      (x in m && NoteAlive(m, ns)[x] == m[x]) || (NoteAlive(m, ns)[x] in ns && Alive(NoteAlive(m, ns)[x]) && NoteAlive(m, ns)[x].id == x)
    decreases ns
  {
    if ns != [] {
      NoteAliveIs(if Alive(ns[0]) then m[ns[0].id := ns[0]] else m, ns[1..]);
    }
  }

  /** The alive index holds the ids of the alive nodes, each with an alive node that has it. */
  lemma AliveIndexIs(cs: seq<Comment>)
    ensures forall x :: x in AliveIndex(cs) <==> exists n :: n in Nodes(cs) && Alive(n) && n.id == x
    ensures forall x :: x in AliveIndex(cs) ==>
      AliveIndex(cs)[x] in Nodes(cs) && Alive(AliveIndex(cs)[x]) && AliveIndex(cs)[x].id == x
  {
    NoteAliveIs(map[], Nodes(cs));
  }

  // ----- Restoring keeps the shape of the walk

  ghost predicate SameSpot(a: Comment, b: Comment, alive: map<Id, Comment>) {
    b.(replies := []) == RestoreOne(a, alive).(replies := []) && (a.replies == [] ==> b.replies == [])
  }

  lemma {:induction false} RestoredWalk(cs: seq<Comment>, alive: map<Id, Comment>)
    ensures |Nodes(Restored(cs, alive))| == |Nodes(cs)|
    ensures forall i :: 0 <= i < |Nodes(cs)| ==> SameSpot(Nodes(cs)[i], Nodes(Restored(cs, alive))[i], alive)
    decreases cs
  {
    if cs != [] {
      var c, d := cs[0], Restored(cs, alive)[0];
      RestoredWalk(c.replies, alive);
      RestoredWalk(cs[1..], alive);
      SpotsConcat([c], Nodes(c.replies), [d], Nodes(d.replies), alive);
      SpotsConcat([c] + Nodes(c.replies), Nodes(cs[1..]), [d] + Nodes(d.replies), Nodes(Restored(cs[1..], alive)), alive);
      assert Restored(cs, alive)[1..] == Restored(cs[1..], alive);
    }
  }

  lemma {:induction false} SpotsConcat(a: seq<Comment>, b: seq<Comment>, x: seq<Comment>, y: seq<Comment>,
                                       alive: map<Id, Comment>)
    requires |a| == |x| && |b| == |y|
    requires forall i :: 0 <= i < |a| ==> SameSpot(a[i], x[i], alive)
    requires forall i :: 0 <= i < |b| ==> SameSpot(b[i], y[i], alive)
    ensures forall i :: 0 <= i < |a + b| ==> SameSpot((a + b)[i], (x + y)[i], alive)
  {
  }

  ghost predicate Spots(a: seq<Comment>, b: seq<Comment>, alive: map<Id, Comment>) {
    |a| == |b| && forall i :: 0 <= i < |a| ==> SameSpot(a[i], b[i], alive)
  }

  lemma {:induction false} SpotOf(a: seq<Comment>, b: seq<Comment>, alive: map<Id, Comment>, n: Comment) returns (m: Comment)
    requires Spots(a, b, alive) && n in b
    ensures m in a && SameSpot(m, n, alive)
  {
    var i :| 0 <= i < |b| && b[i] == n;
    m := a[i];
  }

  lemma {:induction false} SpotTo(a: seq<Comment>, b: seq<Comment>, alive: map<Id, Comment>, m: Comment) returns (n: Comment)
    requires Spots(a, b, alive) && m in a
    ensures n in b && SameSpot(m, n, alive)
  {
    var i :| 0 <= i < |a| && a[i] == m;
    n := b[i];
  }

  lemma {:induction false} RestoredIds(cs: seq<Comment>, alive: map<Id, Comment>)
    ensures RealIds(Restored(cs, alive)) == RealIds(cs)
  {
    RestoredWalk(cs, alive);
    var a, b := Nodes(cs), Nodes(Restored(cs, alive));
    forall n | n in b && Real(n) ensures n.id in RealIds(cs) {
      var m := SpotOf(a, b, alive, n);
      assert Real(m) && m.id == n.id;
    }
    forall m | m in a && Real(m) ensures m.id in RealIds(Restored(cs, alive)) {
      var n := SpotTo(a, b, alive, m);
      assert Real(n) && n.id == m.id;
    }
  }

  lemma {:induction false} RestoredKeepsShape(cs: seq<Comment>, alive: map<Id, Comment>)
    requires WellFormed(cs) && UniqueIds(cs)
    ensures WellFormed(Restored(cs, alive)) && UniqueIds(Restored(cs, alive))
  {
    RestoredWalk(cs, alive);
    var a, b := Nodes(cs), Nodes(Restored(cs, alive));
    forall n | n in b ensures (n.kind.T1? ==> n.id != "") && (!n.kind.T1? ==> n.replies == []) {
      var m := SpotOf(a, b, alive, n);
    }
    forall i, j | 0 <= i < j < |b| && Real(b[i]) && Real(b[j]) ensures b[i].id != b[j].id {
      assert SameSpot(a[i], b[i], alive) && SameSpot(a[j], b[j], alive);
    }
  }

  ghost predicate GoodFetch(comments: seq<Comment>) {
    WellFormed(comments) && UniqueIds(comments)
  }

  lemma PreparedKeepsShape(prior: seq<Comment>, comments: seq<Comment>)
    requires GoodFetch(comments)
    ensures GoodFetch(Prepared(prior, comments)) && RealIds(Prepared(prior, comments)) == RealIds(comments)
  {
    if HasRemoved(comments) && prior != [] {
      RestoredKeepsShape(comments, AliveIndex(prior));
      RestoredIds(comments, AliveIndex(prior));
    }
  }

  // ----- Whole runs: nothing archived is ever lost

  datatype Fetch = Fetch(comments: seq<Comment>, allowed: bool)

  ghost function Run(prior: seq<Comment>, fetches: seq<Fetch>): seq<Comment> {
    if fetches == [] then prior
    else Archived(Run(prior, fetches[..|fetches| - 1]), fetches[|fetches| - 1].comments, fetches[|fetches| - 1].allowed)
  }

  /** The ids of the real comments in the fetches the control lets through. */
  ghost function FetchedIds(fetches: seq<Fetch>): set<Id> {
    if fetches == [] then {} else
    FetchedIds(fetches[..|fetches| - 1])
    + if fetches[|fetches| - 1].allowed then RealIds(fetches[|fetches| - 1].comments) else {}
  }

  lemma StepKeepsIds(prior: seq<Comment>, comments: seq<Comment>, allowed: bool)
    requires WellFormed(prior) && GoodFetch(comments)
    ensures WellFormed(Archived(prior, comments, allowed))
    ensures RealIds(Archived(prior, comments, allowed)) == RealIds(prior) + if allowed then RealIds(comments) else {}
  {
    if comments != [] && allowed && prior != [] {
      PreparedKeepsShape(prior, comments);
      MergedTidy(prior, Prepared(prior, comments));
      MergeIsUnion(prior, Prepared(prior, comments));
    }
  }

  /** After any run the archive holds exactly the comments it started with and all it was let to fetch. */
  lemma {:induction false} RunKeepsIds(prior: seq<Comment>, fetches: seq<Fetch>)
    requires WellFormed(prior) && forall i :: 0 <= i < |fetches| ==> GoodFetch(fetches[i].comments)
    ensures WellFormed(Run(prior, fetches))
    ensures RealIds(Run(prior, fetches)) == RealIds(prior) + FetchedIds(fetches)
  {
    if fetches != [] {
      var last := fetches[|fetches| - 1];
      RunKeepsIds(prior, fetches[..|fetches| - 1]);
      StepKeepsIds(Run(prior, fetches[..|fetches| - 1]), last.comments, last.allowed);
    }
  }

  /** Along a run the archived set only grows. */
  lemma {:induction false} RunGrows(prior: seq<Comment>, fetches: seq<Fetch>, i: nat, j: nat)
    requires WellFormed(prior) && forall k :: 0 <= k < |fetches| ==> GoodFetch(fetches[k].comments)
    requires i <= j <= |fetches|
    ensures RealIds(Run(prior, fetches[..i])) <= RealIds(Run(prior, fetches[..j]))
  {
    if i < j {
      RunGrows(prior, fetches, i, j - 1);
      RunKeepsIds(prior, fetches[..j - 1]);
      assert fetches[..j][..j - 1] == fetches[..j - 1];
      StepKeepsIds(Run(prior, fetches[..j - 1]), fetches[j - 1].comments, fetches[j - 1].allowed);
    }
  }

  // ----- Tombstones

  /** The fetch holds comment x, and holds it as removed. */
  ghost predicate Tombstone(comments: seq<Comment>, t: Comment) {
    t in Nodes(comments) && Real(t) && t.removed
  }

  /**
    One step with a tombstone: every archived copy ends with the body and author of an
    alive prior copy if there is one, else with the tombstone's own; it stays marked removed.
   */
  lemma {:induction false} TombstoneStep(prior: seq<Comment>, comments: seq<Comment>, t: Comment, n: Comment)
    requires WellFormed(prior) && GoodFetch(comments) && prior != [] && Tombstone(comments, t)
    requires n in Nodes(Archived(prior, comments, true)) && Real(n) && n.id == t.id
    ensures n.removed
    ensures if t.id in AliveIndex(prior)
            then n.body == AliveIndex(prior)[t.id].body && n.author == AliveIndex(prior)[t.id].author
            else n.body == t.body && n.author == t.author
  {
    var u := PreparedTombstone(prior, comments, t);
    var p := Prepared(prior, comments);
    PreparedKeepsShape(prior, comments);
    UniqueIndex(p, u);
    MergeIsUnion(prior, p);
    assert Sourced(n, prior, p);
  }

  /** The tombstone as it is merged: with the body and author of the alive prior copy, if there is one. */
  lemma {:induction false} PreparedTombstone(prior: seq<Comment>, comments: seq<Comment>, t: Comment) returns (u: Comment)
    requires Tombstone(comments, t)
    ensures u in Nodes(Prepared(prior, comments)) && SameSpot(t, u, AliveIndex(prior))
  {
    assert HasRemoved(comments);
    RestoredWalk(comments, AliveIndex(prior));
    var i :| 0 <= i < |Nodes(comments)| && Nodes(comments)[i] == t;
    u := Nodes(Prepared(prior, comments))[i];
  }

  /** The step keeps what the prior copy said exactly when that copy was alive or the tombstone says the same. */
  lemma BodyKeptIff(prior: seq<Comment>, comments: seq<Comment>, p: Comment, t: Comment, n: Comment)
    requires WellFormed(prior) && UniqueIds(prior) && GoodFetch(comments) && Tombstone(comments, t)
    requires p in Nodes(prior) && Real(p) && p.id == t.id
    requires n in Nodes(Archived(prior, comments, true)) && Real(n) && n.id == t.id
    ensures n.body == p.body && n.author == p.author
       <==> !p.removed || (t.body == p.body && t.author == p.author)
  {
    TombstoneStep(prior, comments, t, n);
    AliveIndexIs(prior);
    UniqueIndex(prior, p);
    if t.id in AliveIndex(prior) {
      UniqueIndex(prior, AliveIndex(prior)[t.id]);
    }
  }

  /** A second tombstone always wins: the restored copy is marked removed, so it restores nothing. */
  lemma SecondTombstoneWins(prior: seq<Comment>, first: seq<Comment>, second: seq<Comment>, t: Comment, u: Comment,
                            n: Comment)
    requires WellFormed(prior) && prior != [] && GoodFetch(first) && GoodFetch(second)
    requires Tombstone(first, t) && Tombstone(second, u) && t.id == u.id
    requires var once := Archived(prior, first, true);
             n in Nodes(Archived(once, second, true)) && Real(n) && n.id == t.id
    ensures n.body == u.body && n.author == u.author
  {
    var once := Archived(prior, first, true);
    StepKeepsIds(prior, first, true);
    assert t.id in RealIds(first);
    AliveIndexIs(once);
    if t.id in AliveIndex(once) {
      TombstoneStep(prior, first, t, AliveIndex(once)[t.id]);
    }
    TombstoneStep(once, second, u, n);
  }

  /** One comment, archived alive and then fetched as a tombstone twice: kept the first time, lost the second. */
  lemma TwoTombstones()
    ensures var alive := [Comment("a", T1, "p", Other("t3"), "text", "ann", false, "", 0, [], [])];
            var gone := [Comment("a", T1, "p", Other("t3"), "[removed]", "[deleted]", true, "", 0, [], [])];
            var once := Archived(alive, gone, true);
            var twice := Archived(once, gone, true);
            && (exists n :: n in Nodes(once) && Real(n))
            && (forall n :: n in Nodes(once) && Real(n) ==> n.body == "text" && n.author == "ann")
            && (exists n :: n in Nodes(twice) && Real(n))
            && (forall n :: n in Nodes(twice) && Real(n) ==> n.body == "[removed]" && n.author == "[deleted]")
  {
    var a := Comment("a", T1, "p", Other("t3"), "text", "ann", false, "", 0, [], []);
    var g := Comment("a", T1, "p", Other("t3"), "[removed]", "[deleted]", true, "", 0, [], []);
    KeptOnce(a, g);
    LostTwice(a, g);
  }

  lemma {:induction false} KeptOnce(a: Comment, g: Comment)
    requires Real(a) && Real(g) && a.id == g.id && Alive(a) && g.removed && a.replies == [] && g.replies == []
    ensures var once := Archived([a], [g], true);
            && RealIds(once) == {a.id} && (exists n :: n in Nodes(once) && Real(n))
            && (forall n :: n in Nodes(once) && Real(n) ==> n.body == a.body && n.author == a.author)
  {
    var once := Archived([a], [g], true);
    OneComment(a);
    OneComment(g);
    StepKeepsIds([a], [g], true);
    assert a.id in RealIds(once);
    forall n | n in Nodes(once) && Real(n) ensures n.body == a.body && n.author == a.author {
      assert n.id in RealIds(once);
      FirstIsKept(a, g, n);
    }
  }

  lemma {:induction false} LostTwice(a: Comment, g: Comment)
    requires Real(a) && Real(g) && a.id == g.id && Alive(a) && g.removed && a.replies == [] && g.replies == []
    ensures var twice := Archived(Archived([a], [g], true), [g], true);
            && (exists n :: n in Nodes(twice) && Real(n))
            && (forall n :: n in Nodes(twice) && Real(n) ==> n.body == g.body && n.author == g.author)
  {
    var once := Archived([a], [g], true);
    var twice := Archived(once, [g], true);
    OneComment(a);
    OneComment(g);
    KeptOnce(a, g);
    StepKeepsIds([a], [g], true);
    StepKeepsIds(once, [g], true);
    assert a.id in RealIds(twice) && RealIds(twice) == {a.id};
    forall n | n in Nodes(twice) && Real(n) ensures n.body == g.body && n.author == g.author {
      assert n.id in RealIds(twice);
      SecondTombstoneWins([a], [g], [g], g, g, n);
    }
  }

  lemma {:induction false} OneComment(c: Comment)
    requires Real(c) && c.replies == []
    ensures Nodes([c]) == [c] && RealIds([c]) == {c.id} && GoodFetch([c])
  {
    NodesOne(c);
    assert c in [c];
  }

  lemma {:induction false} FirstIsKept(a: Comment, g: Comment, n: Comment)
    requires Real(a) && Real(g) && a.id == g.id == n.id && Alive(a) && g.removed && a.replies == [] && g.replies == []
    requires n in Nodes(Archived([a], [g], true)) && Real(n)
    ensures n.body == a.body && n.author == a.author
  {
    NodesOne(a);
    NodesOne(g);
    assert Nodes([a]) == [a] && Nodes([g]) == [g];
    AliveIndexIs([a]);
    TombstoneStep([a], [g], g, n);
  }

  // ----- The program

  // hasRemovedComment
  method HasRemovedComment(cs: seq<Comment>) returns (r: bool)
    ensures r <==> HasRemoved(cs)
  {
    for i := 0 to |cs|
      invariant !HasRemoved(cs[..i])
    {
      assert cs[..i + 1] == cs[..i] + [cs[i]];
      NodesConcat(cs[..i], [cs[i]]);
      NodesOne(cs[i]);
      NodesAt(cs, i);
      if cs[i].removed {
        return true;
      }
      var below := HasRemovedComment(cs[i].replies);
      if below {
        return true;
      }
    }
    assert cs[..|cs|] == cs;
    r := false;
  }

  // indexAliveComments
  method IndexAliveComments(cs: seq<Comment>) returns (m: map<Id, Comment>)
    ensures m == AliveIndex(cs)
  {
    m := WalkAlive(cs, map[]);
  }

  // its recursive closure, the map passed along
  method WalkAlive(arr: seq<Comment>, m0: map<Id, Comment>) returns (m: map<Id, Comment>)
    ensures m == NoteAlive(m0, Nodes(arr))
  {
    m := m0;
    for i := 0 to |arr|
      invariant m == NoteAlive(m0, Nodes(arr[..i]))
    {
      var c := arr[i];
      ghost var before := m;
      if c.kind.T1? && c.id != "" && !c.removed {
        m := m[c.id := c];
      }
      assert m == NoteAlive(before, [c]);
      m := WalkAlive(c.replies, m);
      NoteAliveConcat(before, [c], Nodes(c.replies));
      NoteAliveConcat(m0, Nodes(arr[..i]), [c] + Nodes(c.replies));
      NodesConcat(arr[..i], [c]);
      NodesOne(c);
      assert arr[..i + 1] == arr[..i] + [c];
    }
    assert arr[..|arr|] == arr;
  }

  lemma {:induction false} RestoredConcat(a: seq<Comment>, b: seq<Comment>, alive: map<Id, Comment>)
    ensures Restored(a + b, alive) == Restored(a, alive) + Restored(b, alive)
  {
    if a == [] {
      assert a + b == b;
    } else {
      assert (a + b)[1..] == a[1..] + b;
      RestoredConcat(a[1..], b, alive);
    }
  }

  // mergeRemovedBodies, returning the edited tree
  method MergeRemovedBodies(cs: seq<Comment>, prior: map<Id, Comment>) returns (out: seq<Comment>)
    ensures out == Restored(cs, prior)
  {
    out := [];
    for i := 0 to |cs|
      invariant out == Restored(cs[..i], prior)
    {
      var c := cs[i];
      if c.removed && c.id != "" {
        if c.id in prior {
          c := c.(body := prior[c.id].body, author := prior[c.id].author);
        }
      }
      if |c.replies| > 0 {
        var replies := MergeRemovedBodies(c.replies, prior);
        c := c.(replies := replies);
      }
      assert cs[..i + 1] == cs[..i] + [cs[i]];
      RestoredConcat(cs[..i], [cs[i]], prior);
      assert Restored([cs[i]][1..], prior) == [];
      out := out + [c];
    }
    assert cs[..|cs|] == cs;
  }

  ghost function CountOf(ns: seq<Comment>): nat {
    if ns == [] then 0 else CountOf(ns[..|ns| - 1]) + if ns[|ns| - 1].kind.T1? then 1 else 0
  }

  lemma {:induction false} CountOfConcat(a: seq<Comment>, b: seq<Comment>)
    ensures CountOf(a + b) == CountOf(a) + CountOf(b)
  {
    if b == [] {
      assert a + b == a;
    } else {
      assert (a + b)[..|a + b| - 1] == a + b[..|b| - 1];
      CountOfConcat(a, b[..|b| - 1]);
    }
  }

  // countComments: for well-formed trees the number of comment nodes
  method CountComments(comments: seq<Comment>) returns (n: nat)
    ensures WellFormed(comments) ==> n == CountOf(Nodes(comments))
  {
    n := 0;
    for i := 0 to |comments|
      invariant WellFormed(comments) ==> n == CountOf(Nodes(comments[..i]))
    {
      var c := comments[i];
      assert comments[..i + 1] == comments[..i] + [c];
      NodesConcat(comments[..i], [c]);
      NodesOne(c);
      NodesAt(comments, i);
      CountOfConcat(Nodes(comments[..i]), [c] + Nodes(c.replies));
      CountOfConcat([c], Nodes(c.replies));
      if c.kind.T1? {
        n := n + 1;
        var below := CountComments(c.replies);
        n := n + below;
      } else {
        assert WellFormed(comments) ==> c.replies == [];
      }
    }
    assert comments[..|comments|] == comments;
  }

  datatype StoredComments = StoredComments(tree: seq<Comment>, count: nat)

  /** The archive service over its comment store, one latest snapshot per post path. */
  class Service {
    var store: map<string, StoredComments>

    constructor ()
      ensures store == map[]
    {
      store := map[];
    }

    ghost function Tree(path: string): seq<Comment>
      reads this
    {
      if path in store then store[path].tree else []
    }

    method ArchiveComments(path: string, fetched: seq<Comment>, allowed: bool)
      modifies this
      ensures Tree(path) == Archived(old(Tree(path)), fetched, allowed)
      ensures forall other: string :: other != path ==> Tree(other) == old(Tree(other))
      ensures fetched != [] && allowed && WellFormed(Tree(path)) ==>
        path in store && store[path].count == CountOf(Nodes(Tree(path)))
    {
      if |fetched| == 0 {
        return;
      }
      if !allowed {
        return;
      }
      var comments := fetched;
      var priorTree: seq<Comment> := [];
      if path in store {
        priorTree := store[path].tree;
      }
      var removed := HasRemovedComment(comments);
      if removed && |priorTree| > 0 {
        var alive := IndexAliveComments(priorTree);
        comments := MergeRemovedBodies(comments, alive);
      }
      if |priorTree| > 0 {
        comments := MergeCommentTrees(priorTree, comments);
      }
      var count := CountComments(comments);
      store := store[path := StoredComments(comments, count)];
    }
  }
}
