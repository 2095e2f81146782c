/**
  Rebuilding a forest from the flat list of /api/morechildren. The build guards its
  recursion with the ids on its path, so it ends on any input. Where no two items carry
  an id that others name as their parent's, the guard never cuts and the forest is exactly
  the part reachable from a root.
 */
module MoreChildren {
  import opened CommentTree

  // ----- The program's intermediate structures, as functions of the flat list

  /** Things without an id are dropped, stubs excepted. */
  ghost function Flat(things: seq<Comment>): seq<Comment> {
    if things == [] then [] else
    var last := things[|things| - 1];
    Flat(things[..|things| - 1]) + if last.id == "" && !last.kind.More? then [] else [last]
  }

  ghost function Ids(flat: seq<Comment>): set<Id> {
    set c | c in flat && c.id != "" :: c.id
  }

  /** The parent is another comment of this payload. */
  predicate HasParent(c: Comment, ids: set<Id>) {
    c.parentKind.T1? && c.parentID in ids
  }

  /** The items that name `parent` as theirs, in arrival order. */
  ghost function Kids(flat: seq<Comment>, ids: set<Id>, parent: Id): seq<Comment> {
    if flat == [] then [] else
    var last := flat[|flat| - 1];
    Kids(flat[..|flat| - 1], ids, parent) + if HasParent(last, ids) && last.parentID == parent then [last] else []
  }

  ghost function Roots(flat: seq<Comment>, ids: set<Id>): seq<Comment> {
    if flat == [] then [] else
    var last := flat[|flat| - 1];
    Roots(flat[..|flat| - 1], ids) + if HasParent(last, ids) then [] else [last]
  }

  lemma {:induction false} KidsAre(flat: seq<Comment>, ids: set<Id>, parent: Id, c: Comment)
    ensures c in Kids(flat, ids, parent) <==> c in flat && HasParent(c, ids) && c.parentID == parent
  {
    if flat != [] {
      assert flat == flat[..|flat| - 1] + [flat[|flat| - 1]];
      KidsAre(flat[..|flat| - 1], ids, parent, c);
    }
  }

  lemma {:induction false} RootsAre(flat: seq<Comment>, ids: set<Id>, c: Comment)
    ensures c in Roots(flat, ids) <==> c in flat && !HasParent(c, ids)
  {
    if flat != [] {
      assert flat == flat[..|flat| - 1] + [flat[|flat| - 1]];
      RootsAre(flat[..|flat| - 1], ids, c);
    }
  }

  function KidsIn(childrenOf: map<Id, seq<Comment>>, id: Id): seq<Comment> {
    if id in childrenOf then childrenOf[id] else []
  }

  /** The children index, filled in arrival order. */
  ghost function ChildIndex(flat: seq<Comment>, ids: set<Id>): map<Id, seq<Comment>> {
    if flat == [] then map[] else
    var m, last := ChildIndex(flat[..|flat| - 1], ids), flat[|flat| - 1];
    if HasParent(last, ids) then m[last.parentID := KidsIn(m, last.parentID) + [last]] else m
  }

  ghost predicate IndexOf(childrenOf: map<Id, seq<Comment>>, flat: seq<Comment>, ids: set<Id>) {
    forall p :: KidsIn(childrenOf, p) == Kids(flat, ids, p)
  }

  lemma {:induction false} ChildIndexIs(flat: seq<Comment>, ids: set<Id>, p: Id)
    ensures KidsIn(ChildIndex(flat, ids), p) == Kids(flat, ids, p)
  {
    if flat != [] {
      ChildIndexIs(flat[..|flat| - 1], ids, p);
    }
  }

  /** The guarded depth-first build. */
  ghost function Build(c: Comment, childrenOf: map<Id, seq<Comment>>, seen: set<Id>): Comment
    decreases |childrenOf.Keys - seen|, 0
  {
    if c.id in seen then c
    else if KidsIn(childrenOf, c.id) == [] then c.(replies := [])
    else
      FewerLeft(childrenOf, seen, c.id);
      c.(replies := BuildAll(childrenOf[c.id], childrenOf, seen + {c.id}))
  }

  ghost function BuildAll(cs: seq<Comment>, childrenOf: map<Id, seq<Comment>>, seen: set<Id>): (r: seq<Comment>)
    ensures |r| == |cs|
    decreases |childrenOf.Keys - seen|, 1 + |cs|
  {
    if cs == [] then []
    else BuildAll(cs[..|cs| - 1], childrenOf, seen) + [Build(cs[|cs| - 1], childrenOf, seen)]
  }

  lemma FewerLeft(childrenOf: map<Id, seq<Comment>>, seen: set<Id>, id: Id)
    requires id in childrenOf && id !in seen
    ensures |childrenOf.Keys - (seen + {id})| < |childrenOf.Keys - seen|
  {
    assert childrenOf.Keys - (seen + {id}) == (childrenOf.Keys - seen) - {id};
  }

  // ----- The program

  method Decode(things: seq<Comment>) returns (flat: seq<Comment>)
    ensures flat == Flat(things)
  {
    flat := [];
    for i := 0 to |things|
      invariant flat == Flat(things[..i])
    {
      assert things[..i + 1][..i] == things[..i];
      if things[i].id == "" && !things[i].kind.More? {
        continue;
      }
      flat := flat + [things[i]];
    }
    assert things[..|things|] == things;
  }

  method IndexIds(flat: seq<Comment>) returns (byID: set<Id>)
    ensures byID == Ids(flat)
  {
    byID := {};
    for i := 0 to |flat|
      invariant byID == Ids(flat[..i])
    {
      assert flat[..i + 1] == flat[..i] + [flat[i]];
      if flat[i].id != "" {
        byID := byID + {flat[i].id};
      }
    }
    assert flat[..|flat|] == flat;
  }

  method IndexChildren(flat: seq<Comment>, byID: set<Id>)
      returns (childrenOf: map<Id, seq<Comment>>, roots: seq<Comment>)
    ensures childrenOf == ChildIndex(flat, byID) && roots == Roots(flat, byID)
  {
    childrenOf, roots := map[], [];
    for i := 0 to |flat|
      invariant childrenOf == ChildIndex(flat[..i], byID) && roots == Roots(flat[..i], byID)
    {
      var c := flat[i];
      assert flat[..i + 1][..i] == flat[..i];
      if c.parentKind.T1? && c.parentID in byID {
        childrenOf := childrenOf[c.parentID := KidsIn(childrenOf, c.parentID) + [c]];
        continue;
      }
      roots := roots + [c];
    }
    assert flat[..|flat|] == flat;
  }

  // build; `seen` is the shared path set, put back before returning
  method BuildTree(c: Comment, childrenOf: map<Id, seq<Comment>>, seen0: set<Id>) returns (out: Comment, seen: set<Id>)
    ensures out == Build(c, childrenOf, seen0) && seen == seen0
    decreases |childrenOf.Keys - seen0|
  {
    out, seen := c, seen0;
    if c.id in seen {
      return;
    }
    var kids := KidsIn(childrenOf, c.id);
    out := out.(replies := []);
    if |kids| == 0 {
      return;
    }
    FewerLeft(childrenOf, seen0, c.id);
    seen := seen + {c.id};
    for i := 0 to |kids|
      invariant seen == seen0 + {c.id}
      invariant out == c.(replies := BuildAll(kids[..i], childrenOf, seen0 + {c.id}))
    {
      var kid: Comment;
      kid, seen := BuildTree(kids[i], childrenOf, seen);
      out := out.(replies := out.replies + [kid]);
      assert kids[..i + 1][..i] == kids[..i];
    }
    assert kids[..|kids|] == kids;
    seen := seen - {c.id};
    assert seen == seen0;
  }

  ghost function Forest(things: seq<Comment>): seq<Comment> {
    var flat := Flat(things);
    BuildAll(Roots(flat, Ids(flat)), ChildIndex(flat, Ids(flat)), {})
  }

  method ParseMoreChildren(things: seq<Comment>) returns (result: seq<Comment>)
    ensures result == Forest(things)
  {
    var flat := Decode(things);
    var byID := IndexIds(flat);
    var childrenOf, roots := IndexChildren(flat, byID);
    result := BuildRoots(roots, childrenOf);
  }

  // the last loop of ParseMoreChildren
  method BuildRoots(roots: seq<Comment>, childrenOf: map<Id, seq<Comment>>) returns (result: seq<Comment>)
    ensures result == BuildAll(roots, childrenOf, {})
  {
    var seen: set<Id> := {};
    result := [];
    for i := 0 to |roots|
      invariant seen == {} && result == BuildAll(roots[..i], childrenOf, {})
    {
      var tree: Comment;
      tree, seen := BuildTree(roots[i], childrenOf, seen);
      result := result + [tree];
      assert roots[..i + 1][..i] == roots[..i];
    }
    assert roots[..|roots|] == roots;
  }

  // ----- Levels: how far an item is from a root

  ghost function IdAt(cs: seq<Comment>, i: nat): Id
    requires i < |cs|
  {
    cs[i].id
  }

  /** Two places of the list carry the id. */
  ghost predicate Twice(cs: seq<Comment>, id: Id) {
    exists i: nat, j: nat :: i < j < |cs| && IdAt(cs, i) == IdAt(cs, j) == id
  }

  /**
    No id that items name as their parent is carried by two items. Stubs may share an
    id, or have none, as long as no comment claims to answer one.
   */
  ghost predicate SingleParents(flat: seq<Comment>) {
    forall id {:trigger Twice(flat, id)} :: Twice(flat, id) ==> id !in ParentIds(flat)
  }

  /** The ids that items name as their parent's. */
  ghost function ParentIds(flat: seq<Comment>): set<Id> {
    set c | c in flat && HasParent(c, Ids(flat)) :: c.parentID
  }

  lemma {:induction false} ParentIdsAre(flat: seq<Comment>, id: Id)
    ensures id in ParentIds(flat) <==> Kids(flat, Ids(flat), id) != []
  {
    var kids := Kids(flat, Ids(flat), id);
    if kids != [] {
      KidsAre(flat, Ids(flat), id, kids[0]);
    }
    if id in ParentIds(flat) {
      var c :| c in flat && HasParent(c, Ids(flat)) && c.parentID == id;
      KidsAre(flat, Ids(flat), id, c);
    }
  }

  lemma {:induction false} SameIdSameItem(flat: seq<Comment>, a: Comment, b: Comment)
    requires a in flat && b in flat && a.id == b.id && !Twice(flat, a.id)
    ensures a == b
  {
    var i: nat :| i < |flat| && flat[i] == a;
    var j: nat :| j < |flat| && flat[j] == b;
    assert IdAt(flat, i) == IdAt(flat, j) == a.id;
  }

  lemma {:induction false} SameParent(flat: seq<Comment>, a: Comment, b: Comment)
    requires SingleParents(flat) && a in flat && b in flat && a.id == b.id && a.id in ParentIds(flat)
    ensures a == b
  {
    SameIdSameItem(flat, a, b);
  }

  ghost function ParentOf(flat: seq<Comment>, c: Comment): (p: Comment)
    requires HasParent(c, Ids(flat))
    ensures p in flat && p.id == c.parentID
  {
    var p :| p in flat && p.id == c.parentID;
    p
  }

  /** The item reaches a root by exactly n steps to the parent. */
  ghost predicate Level(flat: seq<Comment>, c: Comment, n: nat)
    decreases n
  {
    if n == 0 then !HasParent(c, Ids(flat))
    else HasParent(c, Ids(flat)) && Level(flat, ParentOf(flat, c), n - 1)
  }

  ghost predicate Rooted(flat: seq<Comment>, c: Comment) {
    exists n: nat :: Level(flat, c, n)
  }

  lemma {:induction false} LevelUnique(flat: seq<Comment>, c: Comment, m: nat, n: nat)
    requires Level(flat, c, m) && Level(flat, c, n)
    ensures m == n
    decreases m
  {
    if m > 0 && n > 0 {
      LevelUnique(flat, ParentOf(flat, c), m - 1, n - 1);
    }
  }

  lemma {:induction false} KidLevel(flat: seq<Comment>, p: Comment, c: Comment, n: nat)
    requires SingleParents(flat) && p in flat && Level(flat, p, n)
    requires c in Kids(flat, Ids(flat), p.id)
    ensures c in flat && Level(flat, c, n + 1) && HasParent(c, Ids(flat)) && ParentOf(flat, c) == p
  {
    KidsAre(flat, Ids(flat), p.id, c);
    SameParent(flat, ParentOf(flat, c), p);
  }

  // ----- Nodes of the forest

  /** A node of the output: an item of the payload with all its kids below it, in arrival order. */
  ghost predicate Placed(n: Comment, flat: seq<Comment>) {
    exists c :: c in flat && SamePayload(n, c) && Matches(n.replies, Kids(flat, Ids(flat), c.id))
  }

  ghost predicate AllPlaced(cs: seq<Comment>, flat: seq<Comment>) {
    forall x :: x in Nodes(cs) ==> Placed(x, flat)
  }

  ghost predicate Matches(out: seq<Comment>, items: seq<Comment>) {
    |out| == |items| && forall i: nat :: i < |items| ==> MatchesAt(out, items, i)
  }

  ghost predicate MatchesAt(out: seq<Comment>, items: seq<Comment>, i: nat)
    requires i < |items| == |out|
  {
    SamePayload(out[i], items[i])
  }

  /** No id on the current path belongs to an item at level n or below. */
  ghost predicate PathAbove(flat: seq<Comment>, seen: set<Id>, n: nat) {
    forall c, m: nat :: OnPath(flat, seen, c, m) ==> m < n
  }

  ghost predicate OnPath(flat: seq<Comment>, seen: set<Id>, c: Comment, m: nat) {
    c in flat && c.id in seen && Level(flat, c, m)
  }

  lemma {:induction false} PathGrows(flat: seq<Comment>, seen: set<Id>, c: Comment, n: nat)
    requires SingleParents(flat) && c in flat && Level(flat, c, n) && PathAbove(flat, seen, n)
    ensures c.id !in seen
    ensures Kids(flat, Ids(flat), c.id) != [] ==> PathAbove(flat, seen + {c.id}, n + 1)
  {
    assert OnPath(flat, seen, c, n) ==> n < n;
    ParentIdsAre(flat, c.id);
    forall d, m: nat | Kids(flat, Ids(flat), c.id) != [] && OnPath(flat, seen + {c.id}, d, m) ensures m < n + 1 {
      if d.id in seen {
        assert OnPath(flat, seen, d, m);
      } else {
        SameParent(flat, c, d);
        LevelUnique(flat, c, m, n);
      }
    }
  }

  ghost predicate AtLevel(cs: seq<Comment>, flat: seq<Comment>, n: nat) {
    forall i: nat :: i < |cs| ==> ItemAt(cs, i, flat, n)
  }

  ghost predicate ItemAt(cs: seq<Comment>, i: nat, flat: seq<Comment>, n: nat)
    requires i < |cs|
  {
    cs[i] in flat && Level(flat, cs[i], n)
  }

  lemma {:induction false} RootsAtTop(flat: seq<Comment>)
    ensures AtLevel(Roots(flat, Ids(flat)), flat, 0)
  {
    var roots := Roots(flat, Ids(flat));
    forall i: nat | i < |roots| ensures ItemAt(roots, i, flat, 0) {
      RootsAre(flat, Ids(flat), roots[i]);
    }
  }

  ghost predicate Setting(flat: seq<Comment>, childrenOf: map<Id, seq<Comment>>) {
    SingleParents(flat) && IndexOf(childrenOf, flat, Ids(flat))
  }

  /** The items stand at one level, below all that is on the path. */
  ghost predicate Buildable(cs: seq<Comment>, childrenOf: map<Id, seq<Comment>>, seen: set<Id>, flat: seq<Comment>, n: nat) {
    Setting(flat, childrenOf) && AtLevel(cs, flat, n) && PathAbove(flat, seen, n)
  }

  /** Where parents are single the guard does not fire: the build descends into all kids of c. */
  lemma {:induction false} BuildDescendsInto(c: Comment, childrenOf: map<Id, seq<Comment>>, seen: set<Id>,
                                             flat: seq<Comment>, n: nat)
    requires Setting(flat, childrenOf)
    requires c in flat && Level(flat, c, n) && PathAbove(flat, seen, n)
    ensures var kids := Kids(flat, Ids(flat), c.id);
            && Build(c, childrenOf, seen) == c.(replies := BuildAll(kids, childrenOf, seen + {c.id}))
            && (kids != [] ==> |childrenOf.Keys - (seen + {c.id})| < |childrenOf.Keys - seen|)
            && (kids != [] ==> Buildable(kids, childrenOf, seen + {c.id}, flat, n + 1))
  {
    PathGrows(flat, seen, c, n);
    var kids := Kids(flat, Ids(flat), c.id);
    assert KidsIn(childrenOf, c.id) == kids;
    if kids != [] {
      FewerLeft(childrenOf, seen, c.id);
    }
    forall i: nat {:trigger ItemAt(kids, i, flat, n + 1)} | i < |kids| ensures ItemAt(kids, i, flat, n + 1) {
      KidLevel(flat, c, kids[i], n);
    }
  }

  lemma {:induction false} BuildAllStep(cs: seq<Comment>, childrenOf: map<Id, seq<Comment>>, seen: set<Id>,
                                        flat: seq<Comment>, n: nat)
    requires Buildable(cs, childrenOf, seen, flat, n) && cs != []
    ensures var init, last := cs[..|cs| - 1], cs[|cs| - 1];
            var kids := Kids(flat, Ids(flat), last.id);
            && BuildAll(cs, childrenOf, seen) == BuildAll(init, childrenOf, seen) + [Build(last, childrenOf, seen)]
            && Build(last, childrenOf, seen) == last.(replies := BuildAll(kids, childrenOf, seen + {last.id}))
            && Buildable(init, childrenOf, seen, flat, n) && last in flat && Level(flat, last, n)
            && (kids != [] ==> Buildable(kids, childrenOf, seen + {last.id}, flat, n + 1))
            && (kids != [] ==> |childrenOf.Keys - (seen + {last.id})| < |childrenOf.Keys - seen|)
  {
    var init := cs[..|cs| - 1];
    assert ItemAt(cs, |cs| - 1, flat, n);
    forall i: nat | i < |init| ensures ItemAt(init, i, flat, n) {
      assert ItemAt(cs, i, flat, n);
    }
    BuildDescendsInto(cs[|cs| - 1], childrenOf, seen, flat, n);
  }

  /** Whatever the input, building changes nothing of an item but its replies. */
  lemma {:induction false} BuildAllMatches(cs: seq<Comment>, childrenOf: map<Id, seq<Comment>>, seen: set<Id>)
    ensures Matches(BuildAll(cs, childrenOf, seen), cs)
  {
    if cs != [] {
      var init, last := cs[..|cs| - 1], cs[|cs| - 1];
      BuildAllMatches(init, childrenOf, seen);
      forall i: nat | i < |cs| ensures MatchesAt(BuildAll(cs, childrenOf, seen), cs, i) {
        assert i < |init| ==> MatchesAt(BuildAll(init, childrenOf, seen), init, i);
      }
    }
  }

  /** One more built node, over placed nodes before it and below it. */
  lemma {:induction false} PlacesWith(before: seq<Comment>, c: Comment, below: seq<Comment>, flat: seq<Comment>)
    requires c in flat && Matches(below, Kids(flat, Ids(flat), c.id))
    requires AllPlaced(before, flat) && AllPlaced(below, flat)
    ensures AllPlaced(before + [c.(replies := below)], flat)
  {
    var n := c.(replies := below);
    NodesConcat(before, [n]);
    NodesOne(n);
    assert SamePayload(n, c);
  }

  lemma {:induction false} KidsBelow(cs: seq<Comment>, childrenOf: map<Id, seq<Comment>>, seen: set<Id>, flat: seq<Comment>,
                                     n: nat)
    requires Buildable(cs, childrenOf, seen, flat, n) && cs != []
    ensures var last := cs[|cs| - 1];
            var kids := Kids(flat, Ids(flat), last.id);
            && (kids != [] ==> Buildable(kids, childrenOf, seen + {last.id}, flat, n + 1))
            && (kids != [] ==> |childrenOf.Keys - (seen + {last.id})| < |childrenOf.Keys - seen|)
    ensures Buildable(cs[..|cs| - 1], childrenOf, seen, flat, n)
  {
    var init, last := cs[..|cs| - 1], cs[|cs| - 1];
    assert ItemAt(cs, |cs| - 1, flat, n);
    BuildDescendsInto(last, childrenOf, seen, flat, n);
    forall i: nat | i < |init| ensures ItemAt(init, i, flat, n) {
      assert ItemAt(cs, i, flat, n);
    }
  }

  lemma {:induction false} PlacesStep(cs: seq<Comment>, childrenOf: map<Id, seq<Comment>>, seen: set<Id>,
                                      flat: seq<Comment>, n: nat)
    requires Buildable(cs, childrenOf, seen, flat, n) && cs != []
    requires AllPlaced(BuildAll(cs[..|cs| - 1], childrenOf, seen), flat)
    requires PlacedBelow(cs[|cs| - 1], childrenOf, seen, flat)
    ensures AllPlaced(BuildAll(cs, childrenOf, seen), flat)
  {
    var init, last := cs[..|cs| - 1], cs[|cs| - 1];
    BuildAllStep(cs, childrenOf, seen, flat, n);
    var kids := Kids(flat, Ids(flat), last.id);
    BuildAllMatches(kids, childrenOf, seen + {last.id});
    PlacesWith(BuildAll(init, childrenOf, seen), last, BuildAll(kids, childrenOf, seen + {last.id}), flat);
  }

  ghost predicate PlacedBelow(c: Comment, childrenOf: map<Id, seq<Comment>>, seen: set<Id>, flat: seq<Comment>) {
    AllPlaced(BuildAll(Kids(flat, Ids(flat), c.id), childrenOf, seen + {c.id}), flat)
  }

  lemma NothingPlaced(childrenOf: map<Id, seq<Comment>>, seen: set<Id>, flat: seq<Comment>)
    ensures AllPlaced(BuildAll([], childrenOf, seen), flat)
  {
  }

  lemma {:induction false} BuildAllPlaces(cs: seq<Comment>, childrenOf: map<Id, seq<Comment>>, seen: set<Id>,
                                          flat: seq<Comment>, n: nat)
    requires Buildable(cs, childrenOf, seen, flat, n)
    ensures AllPlaced(BuildAll(cs, childrenOf, seen), flat)
    decreases |childrenOf.Keys - seen|, 1 + |cs|
  {
    if cs == [] {
      NothingPlaced(childrenOf, seen, flat);
    } else {
      var init, last := cs[..|cs| - 1], cs[|cs| - 1];
      KidsBelow(cs, childrenOf, seen, flat, n);
      BuildAllPlaces(init, childrenOf, seen, flat, n);
      if Kids(flat, Ids(flat), last.id) != [] {
        BuildAllPlaces(Kids(flat, Ids(flat), last.id), childrenOf, seen + {last.id}, flat, n + 1);
      } else {
        NothingPlaced(childrenOf, seen + {last.id}, flat);
      }
      PlacesStep(cs, childrenOf, seen, flat, n);
    }
  }

  lemma ForestIndex(flat: seq<Comment>) returns (childrenOf: map<Id, seq<Comment>>)
    ensures childrenOf == ChildIndex(flat, Ids(flat)) && IndexOf(childrenOf, flat, Ids(flat))
  {
    childrenOf := ChildIndex(flat, Ids(flat));
    forall p ensures KidsIn(childrenOf, p) == Kids(flat, Ids(flat), p) {
      ChildIndexIs(flat, Ids(flat), p);
    }
  }

  /** Every node is an item under its own parent with all its kids, siblings in arrival order. */
  lemma ForestPlacesItems(things: seq<Comment>)
    requires SingleParents(Flat(things))
    ensures var flat := Flat(things);
            && Matches(Forest(things), Roots(flat, Ids(flat)))
            && AllPlaced(Forest(things), flat)
  {
    var flat := Flat(things);
    var childrenOf := ForestIndex(flat);
    RootsAtTop(flat);
    BuildAllPlaces(Roots(flat, Ids(flat)), childrenOf, {}, flat, 0);
    BuildAllMatches(Roots(flat, Ids(flat)), childrenOf, {});
  }

  // ----- Exactly the rooted items

  lemma {:induction false} TopIsNode(cs: seq<Comment>, i: nat)
    requires i < |cs|
    ensures cs[i] in Nodes(cs)
  {
    if i > 0 {
      TopIsNode(cs[1..], i - 1);
    }
  }

  /** An item at level n has a node in the forest. */
  lemma {:induction false} LevelHasNode(forest: seq<Comment>, flat: seq<Comment>, c: Comment, n: nat) returns (x: Comment)
    requires SingleParents(flat) && c in flat && Level(flat, c, n)
    requires Matches(forest, Roots(flat, Ids(flat))) && AllPlaced(forest, flat)
    ensures x in Nodes(forest) && SamePayload(x, c)
    decreases n
  {
    if n == 0 {
      var roots := Roots(flat, Ids(flat));
      RootsAre(flat, Ids(flat), c);
      var i :| 0 <= i < |roots| && roots[i] == c;
      assert MatchesAt(forest, roots, i);
      x := forest[i];
      TopIsNode(forest, i);
    } else {
      var p := ParentOf(flat, c);
      var y := LevelHasNode(forest, flat, p, n - 1);
      var q :| q in flat && SamePayload(y, q) && Matches(y.replies, Kids(flat, Ids(flat), q.id));
      var kids := Kids(flat, Ids(flat), q.id);
      KidsAre(flat, Ids(flat), q.id, c);
      SameParent(flat, p, q);
      var i :| 0 <= i < |kids| && kids[i] == c;
      assert MatchesAt(y.replies, kids, i);
      x := y.replies[i];
      TopIsNode(y.replies, i);
      NodesBelow(forest, y);
    }
  }

  /** The k-th ancestor of an item. */
  ghost function Up(flat: seq<Comment>, c: Comment, k: nat): Comment
    decreases k
  {
    if k == 0 then c
    else if HasParent(c, Ids(flat)) then Up(flat, ParentOf(flat, c), k - 1)
    else c
  }

  lemma {:induction false} UpAdds(flat: seq<Comment>, c: Comment, j: nat, k: nat)
    ensures Up(flat, Up(flat, c, j), k) == Up(flat, c, j + k)
    decreases j
  {
    if j > 0 {
      if HasParent(c, Ids(flat)) {
        UpAdds(flat, ParentOf(flat, c), j - 1, k);
      } else {
        UpStays(flat, c, k);
        UpStays(flat, c, j + k);
      }
    }
  }

  lemma {:induction false} UpStays(flat: seq<Comment>, c: Comment, k: nat)
    requires !HasParent(c, Ids(flat))
    ensures Up(flat, c, k) == c
  {
  }

  ghost predicate NodeOf(x: Comment, cs: seq<Comment>) {
    x in Nodes(cs)
  }

  /** A node of the tree built for c stands for an item some levels further down whose ancestor is c. */
  ghost predicate Descends(x: Comment, flat: seq<Comment>, c: Comment, n: nat) {
    exists d, k: nat :: d in flat && SamePayload(x, d) && Level(flat, d, n + k) && Up(flat, d, k) == c
  }

  lemma {:induction false} DescendsFurther(x: Comment, flat: seq<Comment>, k: Comment, c: Comment, n: nat)
    requires HasParent(k, Ids(flat)) && ParentOf(flat, k) == c && Descends(x, flat, k, n + 1)
    ensures Descends(x, flat, c, n)
  {
    var d, j: nat :| d in flat && SamePayload(x, d) && Level(flat, d, n + 1 + j) && Up(flat, d, j) == k;
    UpAdds(flat, d, j, 1);
    assert Up(flat, k, 1) == Up(flat, c, 0) == c;
    assert Level(flat, d, n + (j + 1)) && Up(flat, d, j + 1) == c;
  }

  lemma {:induction false} DescendsHere(flat: seq<Comment>, c: Comment, below: seq<Comment>, n: nat)
    requires c in flat && Level(flat, c, n)
    ensures Descends(c.(replies := below), flat, c, n)
  {
    assert SamePayload(c.(replies := below), c) && Level(flat, c, n + 0) && Up(flat, c, 0) == c;
  }

  lemma {:induction false} NodeSplits(x: Comment, before: seq<Comment>, c: Comment)
    requires NodeOf(x, before + [c])
    ensures NodeOf(x, before) || x == c || NodeOf(x, c.replies)
  {
    NodesConcat(before, [c]);
    NodesOne(c);
  }

  lemma {:induction false} BuiltSplits(cs: seq<Comment>, childrenOf: map<Id, seq<Comment>>, seen: set<Id>,
                                       flat: seq<Comment>, n: nat, x: Comment)
    requires Buildable(cs, childrenOf, seen, flat, n) && cs != []
    requires NodeOf(x, BuildAll(cs, childrenOf, seen))
    ensures var last := cs[|cs| - 1];
            || NodeOf(x, BuildAll(cs[..|cs| - 1], childrenOf, seen))
            || Descends(x, flat, last, n)
            || NodeOf(x, BuildAll(Kids(flat, Ids(flat), last.id), childrenOf, seen + {last.id}))
  {
    var init, last := cs[..|cs| - 1], cs[|cs| - 1];
    BuildAllStep(cs, childrenOf, seen, flat, n);
    var below := BuildAll(Kids(flat, Ids(flat), last.id), childrenOf, seen + {last.id});
    NodeSplits(x, BuildAll(init, childrenOf, seen), last.(replies := below));
    DescendsHere(flat, last, below, n);
  }

  lemma {:induction false} DescendsFromKid(x: Comment, flat: seq<Comment>, c: Comment, n: nat, k: nat)
    requires SingleParents(flat) && c in flat && Level(flat, c, n) && k < |Kids(flat, Ids(flat), c.id)|
    requires Descends(x, flat, Kids(flat, Ids(flat), c.id)[k], n + 1)
    ensures Descends(x, flat, c, n)
  {
    var kid := Kids(flat, Ids(flat), c.id)[k];
    KidLevel(flat, c, kid, n);
    DescendsFurther(x, flat, kid, c, n);
  }

  lemma BuiltFromSome(cs: seq<Comment>, childrenOf: map<Id, seq<Comment>>, seen: set<Id>, x: Comment)
    requires NodeOf(x, BuildAll(cs, childrenOf, seen))
    ensures cs != []
  {
  }

  /** A node built from a list stands under one of the list. */
  lemma {:induction false} BuildAllDescends(cs: seq<Comment>, childrenOf: map<Id, seq<Comment>>, seen: set<Id>,
                                            flat: seq<Comment>, n: nat, x: Comment) returns (i: nat)
    requires Buildable(cs, childrenOf, seen, flat, n)
    requires NodeOf(x, BuildAll(cs, childrenOf, seen))
    ensures i < |cs| && Descends(x, flat, cs[i], n)
    decreases |childrenOf.Keys - seen|, 1 + |cs|
  {
    assert cs != [];
    var init, last := cs[..|cs| - 1], cs[|cs| - 1];
    KidsBelow(cs, childrenOf, seen, flat, n);
    BuiltSplits(cs, childrenOf, seen, flat, n, x);
    if NodeOf(x, BuildAll(init, childrenOf, seen)) {
      i := BuildAllDescends(init, childrenOf, seen, flat, n, x);
    } else {
      i := |cs| - 1;
      if !Descends(x, flat, last, n) {
        BelowDescends(cs, childrenOf, seen, flat, n, x);
      }
    }
  }

  /** A node built from the kids of the last of a list stands under it. */
  lemma {:induction false} BelowDescends(cs: seq<Comment>, childrenOf: map<Id, seq<Comment>>, seen: set<Id>,
                                         flat: seq<Comment>, n: nat, x: Comment)
    requires Buildable(cs, childrenOf, seen, flat, n) && cs != []
    requires var last := cs[|cs| - 1];
             NodeOf(x, BuildAll(Kids(flat, Ids(flat), last.id), childrenOf, seen + {last.id}))
    ensures Descends(x, flat, cs[|cs| - 1], n)
    decreases |childrenOf.Keys - seen|, |cs|
  {
    var last := cs[|cs| - 1];
    var kids := Kids(flat, Ids(flat), last.id);
    BuiltFromSome(kids, childrenOf, seen + {last.id}, x);
    KidsBelow(cs, childrenOf, seen, flat, n);
    var k := BuildAllDescends(kids, childrenOf, seen + {last.id}, flat, n + 1, x);
    assert ItemAt(cs, |cs| - 1, flat, n);
    DescendsFromKid(x, flat, last, n, k);
  }

  /** Items that differ at most in their replies are at the same level. */
  lemma {:induction false} SamePayloadLevel(flat: seq<Comment>, c: Comment, d: Comment, n: nat)
    requires SingleParents(flat) && c in flat && d in flat && SamePayload(c, d) && Level(flat, d, n)
    ensures Level(flat, c, n)
  {
    assert c.parentID == d.parentID && c.parentKind == d.parentKind;
    if n > 0 {
      KidsAre(flat, Ids(flat), d.parentID, d);
      SameParent(flat, ParentOf(flat, c), ParentOf(flat, d));
    }
  }

  /** Each node of the forest stands for a rooted item. */
  lemma {:induction false} NodesAreRooted(things: seq<Comment>, x: Comment) returns (d: Comment)
    requires SingleParents(Flat(things)) && x in Nodes(Forest(things))
    ensures d in Flat(things) && SamePayload(x, d) && Rooted(Flat(things), d)
  {
    var flat := Flat(things);
    var childrenOf := ForestIndex(flat);
    RootsAtTop(flat);
    var i := BuildAllDescends(Roots(flat, Ids(flat)), childrenOf, {}, flat, 0, x);
    var k: nat;
    d, k :| d in flat && SamePayload(x, d) && Level(flat, d, 0 + k) && Up(flat, d, k) == Roots(flat, Ids(flat))[i];
  }

  /** The forest has a node for an item exactly when the item is rooted; for an item with an id of its own, the id tells. */
  lemma ForestHoldsTheRooted(things: seq<Comment>, c: Comment)
    requires SingleParents(Flat(things)) && c in Flat(things)
    ensures (exists x :: x in Nodes(Forest(things)) && SamePayload(x, c)) <==> Rooted(Flat(things), c)
    ensures !Twice(Flat(things), c.id) ==>
              ((exists x :: x in Nodes(Forest(things)) && x.id == c.id) <==> Rooted(Flat(things), c))
  {
    var flat := Flat(things);
    var forest := Forest(things);
    ForestPlacesItems(things);
    if Rooted(flat, c) {
      var n: nat :| Level(flat, c, n);
      var x := LevelHasNode(forest, flat, c, n);
    }
    forall x | x in Nodes(forest) && (SamePayload(x, c) || (x.id == c.id && !Twice(flat, c.id))) ensures Rooted(flat, c) {
      var d := NodesAreRooted(things, x);
      if SamePayload(x, c) {
        var n: nat :| Level(flat, d, n);
        SamePayloadLevel(flat, c, d, n);
      } else {
        SameIdSameItem(flat, c, d);
      }
    }
  }

  // ----- Each item once

  /** Ids that two places of the list carry are carried by two items of the payload. */
  ghost predicate Once(cs: seq<Comment>, flat: seq<Comment>) {
    forall i: nat, j: nat :: i < j < |cs| && IdAt(cs, i) == IdAt(cs, j) ==> Twice(flat, IdAt(cs, i))
  }

  ghost predicate Unlike(x: Comment, y: Comment, flat: seq<Comment>) {
    x.id == y.id ==> Twice(flat, x.id)
  }

  lemma {:induction false} OnceConcat(a: seq<Comment>, b: seq<Comment>, flat: seq<Comment>)
    requires Once(a, flat) && Once(b, flat)
    requires forall x, y :: x in a && y in b ==> Unlike(x, y, flat)
    ensures Once(a + b, flat)
  {
    forall i: nat, j: nat | i < j < |a + b| && IdAt(a + b, i) == IdAt(a + b, j) ensures Twice(flat, IdAt(a + b, i)) {
      if j < |a| {
        assert IdAt(a, i) == IdAt(a, j);
      } else if i >= |a| {
        assert IdAt(b, i - |a|) == IdAt(b, j - |a|);
      } else {
        assert a[i] in a && b[j - |a|] in b && Unlike(a[i], b[j - |a|], flat);
      }
    }
  }

  ghost predicate AllUnlike(cs: seq<Comment>, y: Comment, flat: seq<Comment>) {
    forall x :: x in cs ==> Unlike(x, y, flat)
  }

  lemma {:induction false} OnceInit(cs: seq<Comment>, flat: seq<Comment>)
    requires Once(cs, flat) && cs != []
    ensures Once(cs[..|cs| - 1], flat)
    ensures AllUnlike(cs[..|cs| - 1], cs[|cs| - 1], flat)
  {
    var init := cs[..|cs| - 1];
    forall i: nat, j: nat | i < j < |init| && IdAt(init, i) == IdAt(init, j) ensures Twice(flat, IdAt(init, i)) {
      assert IdAt(cs, i) == IdAt(cs, j);
    }
    forall x | x in init && x.id == cs[|cs| - 1].id ensures Twice(flat, x.id) {
      var i: nat :| i < |init| && init[i] == x;
      assert IdAt(cs, i) == IdAt(cs, |cs| - 1);
    }
  }

  lemma {:induction false} PartTwice(part: seq<Comment>, c: Comment, id: Id)
    requires Twice(part, id)
    ensures Twice(part + [c], id)
  {
    var i: nat, j: nat :| i < j < |part| && IdAt(part, i) == IdAt(part, j) == id;
    assert IdAt(part + [c], i) == IdAt(part + [c], j) == id;
  }

  lemma {:induction false} OncePart(cs: seq<Comment>, flat: seq<Comment>, c: Comment)
    requires Once(cs, flat)
    ensures Once(cs, flat + [c])
  {
    forall i: nat, j: nat | i < j < |cs| && IdAt(cs, i) == IdAt(cs, j) ensures Twice(flat + [c], IdAt(cs, i)) {
      PartTwice(flat, c, IdAt(cs, i));
    }
  }

  lemma {:induction false} LastTwice(flat: seq<Comment>, x: Comment, last: Comment)
    requires x in flat && x.id == last.id
    ensures Twice(flat + [last], x.id)
  {
    var i: nat :| i < |flat| && flat[i] == x;
    assert IdAt(flat + [last], i) == IdAt(flat + [last], |flat|) == x.id;
  }

  /** An item that shares its id has no kids, so a node that stands for something below it is its own. */
  lemma {:induction false} SharedHasNoneBelow(flat: seq<Comment>, c: Comment, n: nat, x: Comment)
    requires SingleParents(flat) && Twice(flat, c.id) && Descends(x, flat, c, n)
    ensures x.id == c.id
  {
    var d, k: nat :| d in flat && SamePayload(x, d) && Level(flat, d, n + k) && Up(flat, d, k) == c;
    if k > 0 {
      LastStep(flat, d, n + k, k);
    }
  }

  lemma {:induction false} LastStep(flat: seq<Comment>, d: Comment, m: nat, k: nat)
    requires d in flat && Level(flat, d, m) && 0 < k <= m
    ensures Up(flat, d, k).id in ParentIds(flat)
    decreases k
  {
    if k == 1 {
      assert Up(flat, ParentOf(flat, d), 0) == ParentOf(flat, d);
    } else {
      LastStep(flat, ParentOf(flat, d), m - 1, k - 1);
    }
  }

  /** Nodes under different items of one level have different ids. */
  lemma {:induction false} SiblingsApart(flat: seq<Comment>, c: Comment, d: Comment, n: nat, x: Comment, y: Comment)
    requires SingleParents(flat) && Unlike(c, d, flat) && Descends(x, flat, c, n) && Descends(y, flat, d, n)
    ensures Unlike(x, y, flat)
  {
    var a, j: nat :| a in flat && SamePayload(x, a) && Level(flat, a, n + j) && Up(flat, a, j) == c;
    var b, k: nat :| b in flat && SamePayload(y, b) && Level(flat, b, n + k) && Up(flat, b, k) == d;
    if x.id == y.id && !Twice(flat, x.id) {
      SameIdSameItem(flat, a, b);
      LevelUnique(flat, a, n + j, n + k);
      SharedHasNoneBelow(flat, c, n, x);
    }
  }

  ghost predicate NodesOnce(cs: seq<Comment>, flat: seq<Comment>) {
    Once(Nodes(cs), flat)
  }

  lemma {:induction false} DeeperIsOther(flat: seq<Comment>, c: Comment, n: nat, k: Comment, y: Comment)
    requires SingleParents(flat) && c in flat && Level(flat, c, n) && Descends(y, flat, k, n + 1)
    ensures Unlike(y, c, flat)
  {
    var d, j: nat :| d in flat && SamePayload(y, d) && Level(flat, d, n + 1 + j) && Up(flat, d, j) == k;
    if y.id == c.id && !Twice(flat, c.id) {
      SameIdSameItem(flat, c, d);
      LevelUnique(flat, c, n, n + 1 + j);
    }
  }

  lemma {:induction false} KidsOnce(flat: seq<Comment>, ids: set<Id>, parent: Id)
    ensures Once(Kids(flat, ids, parent), flat)
  {
    if flat != [] {
      var init, last := flat[..|flat| - 1], flat[|flat| - 1];
      assert flat == init + [last];
      KidsOnce(init, ids, parent);
      OncePart(Kids(init, ids, parent), init, last);
      if HasParent(last, ids) && last.parentID == parent {
        forall x | x in Kids(init, ids, parent) && x.id == last.id ensures Twice(flat, x.id) {
          KidsAre(init, ids, parent, x);
          LastTwice(init, x, last);
        }
        OnceConcat(Kids(init, ids, parent), [last], flat);
      } else {
        assert Kids(flat, ids, parent) == Kids(init, ids, parent);
      }
    }
  }

  lemma {:induction false} RootsOnce(flat: seq<Comment>, ids: set<Id>)
    ensures Once(Roots(flat, ids), flat)
  {
    if flat != [] {
      var init, last := flat[..|flat| - 1], flat[|flat| - 1];
      assert flat == init + [last];
      RootsOnce(init, ids);
      OncePart(Roots(init, ids), init, last);
      if !HasParent(last, ids) {
        forall x | x in Roots(init, ids) && x.id == last.id ensures Twice(flat, x.id) {
          RootsAre(init, ids, x);
          LastTwice(init, x, last);
        }
        OnceConcat(Roots(init, ids), [last], flat);
      } else {
        assert Roots(flat, ids) == Roots(init, ids);
      }
    }
  }

  ghost predicate Apart(a: seq<Comment>, b: seq<Comment>, flat: seq<Comment>) {
    forall x, y :: NodeOf(x, a) && NodeOf(y, b) ==> Unlike(x, y, flat)
  }

  lemma {:induction false} OnceWith(before: seq<Comment>, c: Comment, flat: seq<Comment>)
    requires NodesOnce(before, flat) && NodesOnce([c], flat) && Apart(before, [c], flat)
    ensures NodesOnce(before + [c], flat)
  {
    NodesConcat(before, [c]);
    forall x, y | x in Nodes(before) && y in Nodes([c]) ensures Unlike(x, y, flat) {
      assert NodeOf(x, before) && NodeOf(y, [c]);
    }
    OnceConcat(Nodes(before), Nodes([c]), flat);
  }

  lemma {:induction false} OnceOver(c: Comment, flat: seq<Comment>)
    requires NodesOnce(c.replies, flat) && forall y :: NodeOf(y, c.replies) ==> Unlike(y, c, flat)
    ensures NodesOnce([c], flat)
  {
    NodesOne(c);
    forall y | y in Nodes(c.replies) ensures Unlike(c, y, flat) {
      assert NodeOf(y, c.replies);
    }
    OnceConcat([c], Nodes(c.replies), flat);
  }

  /** The nodes built below an item do not carry its id. */
  lemma {:induction false} BelowIsOther(c: Comment, childrenOf: map<Id, seq<Comment>>, seen: set<Id>, flat: seq<Comment>,
                                        n: nat, y: Comment)
    requires Setting(flat, childrenOf)
    requires c in flat && Level(flat, c, n) && PathAbove(flat, seen, n)
    requires NodeOf(y, BuildAll(Kids(flat, Ids(flat), c.id), childrenOf, seen + {c.id}))
    ensures Unlike(y, c, flat)
  {
    BuildDescendsInto(c, childrenOf, seen, flat, n);
    var kids := Kids(flat, Ids(flat), c.id);
    BuiltFromSome(kids, childrenOf, seen + {c.id}, y);
    var k := BuildAllDescends(kids, childrenOf, seen + {c.id}, flat, n + 1, y);
    DeeperIsOther(flat, c, n, kids[k], y);
  }

  /** Nodes built from two items of one list have different ids. */
  lemma {:induction false} ListApart(cs: seq<Comment>, childrenOf: map<Id, seq<Comment>>, seen: set<Id>, flat: seq<Comment>,
                                     n: nat)
    requires Buildable(cs, childrenOf, seen, flat, n) && Once(cs, flat) && cs != []
    ensures Apart(BuildAll(cs[..|cs| - 1], childrenOf, seen), [Build(cs[|cs| - 1], childrenOf, seen)], flat)
  {
    var init, last := cs[..|cs| - 1], cs[|cs| - 1];
    BuildAllStep(cs, childrenOf, seen, flat, n);
    OnceInit(cs, flat);
    forall x, y | NodeOf(x, BuildAll(init, childrenOf, seen)) && NodeOf(y, [Build(last, childrenOf, seen)])
      ensures Unlike(x, y, flat)
    {
      var i := BuildAllDescends(init, childrenOf, seen, flat, n, x);
      assert init[i] in init;
      LastDescends(cs, childrenOf, seen, flat, n, y);
      SiblingsApart(flat, init[i], last, n, x, y);
    }
  }

  lemma {:induction false} LastDescends(cs: seq<Comment>, childrenOf: map<Id, seq<Comment>>, seen: set<Id>,
                                        flat: seq<Comment>, n: nat, y: Comment)
    requires Buildable(cs, childrenOf, seen, flat, n) && cs != []
    requires NodeOf(y, [Build(cs[|cs| - 1], childrenOf, seen)])
    ensures Descends(y, flat, cs[|cs| - 1], n)
  {
    var last := cs[|cs| - 1];
    assert ItemAt(cs, |cs| - 1, flat, n);
    BuildOfOne(last, childrenOf, seen);
    assert ItemAt([last], 0, flat, n);
    var i := BuildAllDescends([last], childrenOf, seen, flat, n, y);
  }

  lemma BuildOfOne(c: Comment, childrenOf: map<Id, seq<Comment>>, seen: set<Id>)
    ensures BuildAll([c], childrenOf, seen) == [Build(c, childrenOf, seen)]
  {
    assert [c][..0] == [];
    assert BuildAll([], childrenOf, seen) == [];
  }

  ghost predicate OnceBelow(c: Comment, childrenOf: map<Id, seq<Comment>>, seen: set<Id>, flat: seq<Comment>) {
    NodesOnce(BuildAll(Kids(flat, Ids(flat), c.id), childrenOf, seen + {c.id}), flat)
  }

  lemma {:induction false} BuildOnce(c: Comment, childrenOf: map<Id, seq<Comment>>, seen: set<Id>, flat: seq<Comment>, n: nat)
    requires Setting(flat, childrenOf)
    requires c in flat && Level(flat, c, n) && PathAbove(flat, seen, n)
    requires OnceBelow(c, childrenOf, seen, flat)
    ensures NodesOnce([Build(c, childrenOf, seen)], flat)
  {
    BuildDescendsInto(c, childrenOf, seen, flat, n);
    var built := Build(c, childrenOf, seen);
    forall y | NodeOf(y, built.replies) ensures Unlike(y, built, flat) {
      BelowIsOther(c, childrenOf, seen, flat, n, y);
    }
    OnceOver(built, flat);
  }

  lemma {:induction false} OnceStep(cs: seq<Comment>, childrenOf: map<Id, seq<Comment>>, seen: set<Id>, flat: seq<Comment>,
                                    n: nat)
    requires Buildable(cs, childrenOf, seen, flat, n) && Once(cs, flat) && cs != []
    requires NodesOnce(BuildAll(cs[..|cs| - 1], childrenOf, seen), flat)
    requires OnceBelow(cs[|cs| - 1], childrenOf, seen, flat)
    ensures NodesOnce(BuildAll(cs, childrenOf, seen), flat)
  {
    var init, last := cs[..|cs| - 1], cs[|cs| - 1];
    assert ItemAt(cs, |cs| - 1, flat, n);
    BuildOnce(last, childrenOf, seen, flat, n);
    ListApart(cs, childrenOf, seen, flat, n);
    OnceWith(BuildAll(init, childrenOf, seen), Build(last, childrenOf, seen), flat);
  }

  lemma {:induction false} BuildAllOnce(cs: seq<Comment>, childrenOf: map<Id, seq<Comment>>, seen: set<Id>,
                                        flat: seq<Comment>, n: nat)
    requires Buildable(cs, childrenOf, seen, flat, n) && Once(cs, flat)
    ensures NodesOnce(BuildAll(cs, childrenOf, seen), flat)
    decreases |childrenOf.Keys - seen|, 1 + |cs|
  {
    if cs != [] {
      var init, last := cs[..|cs| - 1], cs[|cs| - 1];
      OnceInit(cs, flat);
      KidsBelow(cs, childrenOf, seen, flat, n);
      BuildAllOnce(init, childrenOf, seen, flat, n);
      if Kids(flat, Ids(flat), last.id) != [] {
        KidsOnce(flat, Ids(flat), last.id);
        BuildAllOnce(Kids(flat, Ids(flat), last.id), childrenOf, seen + {last.id}, flat, n + 1);
      } else {
        NothingOnce(childrenOf, seen + {last.id}, flat);
      }
      OnceStep(cs, childrenOf, seen, flat, n);
    }
  }

  lemma NothingOnce(childrenOf: map<Id, seq<Comment>>, seen: set<Id>, flat: seq<Comment>)
    ensures NodesOnce(BuildAll([], childrenOf, seen), flat)
  {
  }

  /** Two nodes of the forest share an id only if two items of the payload do. */
  lemma ForestHoldsEachOnce(things: seq<Comment>)
    requires SingleParents(Flat(things))
    ensures NodesOnce(Forest(things), Flat(things))
  {
    var flat := Flat(things);
    RootsOnce(flat, Ids(flat));
    RootsAtTop(flat);
    var childrenOf := ForestIndex(flat);
    BuildAllOnce(Roots(flat, Ids(flat)), childrenOf, {}, flat, 0);
  }

  // ----- A lost item's parents run in a circle

  lemma {:induction false} UnrootedClimbs(flat: seq<Comment>, c: Comment, k: nat)
    requires c in flat && !Rooted(flat, c)
    ensures Up(flat, c, k) in flat && !Rooted(flat, Up(flat, c, k))
    decreases k
  {
    if k > 0 {
      UnrootedHasParent(flat, c);
      var p := ParentOf(flat, c);
      forall n: nat ensures !Level(flat, p, n) {
        assert !Level(flat, c, n + 1);
      }
      UnrootedClimbs(flat, p, k - 1);
    }
  }

  lemma {:induction false} UnrootedHasParent(flat: seq<Comment>, c: Comment)
    requires !Rooted(flat, c)
    ensures HasParent(c, Ids(flat))
  {
    assert !Level(flat, c, 0);
  }

  ghost function Climb(flat: seq<Comment>, c: Comment, n: nat): (s: seq<Comment>)
    ensures |s| == n && forall k :: 0 <= k < n ==> s[k] == Up(flat, c, k)
  {
    if n == 0 then [] else Climb(flat, c, n - 1) + [Up(flat, c, n - 1)]
  }

  /** More places than values: some value repeats. */
  lemma {:induction false} Pigeonhole(s: seq<Comment>, values: set<Comment>)
    requires (forall x :: x in s ==> x in values) && |s| > |values|
    ensures exists i, j :: 0 <= i < j < |s| && s[i] == s[j]
  {
    if s != [] {
      var init, last := s[..|s| - 1], s[|s| - 1];
      if last in init {
        var i :| 0 <= i < |init| && init[i] == last;
        assert s[i] == s[|s| - 1];
      } else {
        Pigeonhole(init, values - {last});
        var i, j :| 0 <= i < j < |init| && init[i] == init[j];
        assert s[i] == s[j];
      }
    }
  }

  /** An item is left out only if its chain of parents comes back to where it has been. */
  lemma LostItemsAreOnCycles(flat: seq<Comment>, c: Comment)
    requires c in flat && !Rooted(flat, c)
    ensures exists j: nat, k: nat :: j < k <= |flat| && Up(flat, c, j) == Up(flat, c, k) && HasParent(Up(flat, c, j), Ids(flat))
  {
    var values := set x | x in flat;
    ValuesFewer(flat);
    var s := Climb(flat, c, |flat| + 1);
    forall x | x in s ensures x in values {
      var k :| 0 <= k < |s| && s[k] == x;
      UnrootedClimbs(flat, c, k);
    }
    Pigeonhole(s, values);
    var j, k :| 0 <= j < k < |s| && s[j] == s[k];
    UnrootedClimbs(flat, c, j);
    UnrootedHasParent(flat, Up(flat, c, j));
  }

  lemma {:induction false} ValuesFewer(flat: seq<Comment>)
    ensures |set x | x in flat| <= |flat|
  {
    if flat != [] {
      var init, last := flat[..|flat| - 1], flat[|flat| - 1];
      ValuesFewer(init);
      assert (set x | x in flat) == (set x | x in init) + {last};
    }
  }

  /** And a chain that comes back to an item with a parent never reaches a root. */
  lemma {:induction false} CyclesAreLost(flat: seq<Comment>, c: Comment, j: nat, k: nat)
    requires j < k && Up(flat, c, j) == Up(flat, c, k) && HasParent(Up(flat, c, j), Ids(flat))
    ensures !Rooted(flat, c)
  {
    if Rooted(flat, c) {
      var n: nat :| Level(flat, c, n);
      LevelUp(flat, c, n, j);
      LevelUp(flat, c, n, k);
      LevelUnique(flat, Up(flat, c, j), if j < n then n - j else 0, if k < n then n - k else 0);
    }
  }

  lemma {:induction false} LevelUp(flat: seq<Comment>, c: Comment, n: nat, k: nat)
    requires Level(flat, c, n)
    ensures Level(flat, Up(flat, c, k), if k < n then n - k else 0)
    decreases k
  {
    if k > 0 && n > 0 {
      LevelUp(flat, ParentOf(flat, c), n - 1, k - 1);
    }
  }

  // ----- In terms of the payload

  /** Things that are kept: all with an id, and stubs even without one. */
  predicate Thing(c: Comment) {
    c.id != "" || c.kind.More?
  }

  /** The thing names another thing of the payload as its parent. */
  ghost predicate Answers(things: seq<Comment>, c: Comment, p: Comment) {
    p in things && p.id != "" && c.parentKind.T1? && c.parentID == p.id
  }

  ghost predicate AnswersSome(things: seq<Comment>, c: Comment) {
    exists p :: Answers(things, c, p)
  }

  /** A chain of things, each but the last answering the next, and the last answering none. */
  ghost predicate LeadsToRoot(things: seq<Comment>, chain: seq<Comment>) {
    && chain != [] && !AnswersSome(things, chain[|chain| - 1])
    && forall i :: 0 <= i < |chain| - 1 ==> Answers(things, chain[i], chain[i + 1])
  }

  /** The thing's parents lead to a root. */
  ghost predicate HasRoot(things: seq<Comment>, c: Comment) {
    exists chain: seq<Comment> :: chain != [] && chain[0] == c && LeadsToRoot(things, chain)
  }

  lemma {:induction false} FlatIs(things: seq<Comment>, c: Comment)
    ensures c in Flat(things) <==> c in things && Thing(c)
  {
    if things != [] {
      assert things == things[..|things| - 1] + [things[|things| - 1]];
      FlatIs(things[..|things| - 1], c);
    }
  }

  lemma {:induction false} HasParentIff(things: seq<Comment>, c: Comment)
    ensures HasParent(c, Ids(Flat(things))) <==> AnswersSome(things, c)
  {
    var flat := Flat(things);
    if HasParent(c, Ids(flat)) {
      var p :| p in flat && p.id != "" && p.id == c.parentID;
      FlatIs(things, p);
      assert Answers(things, c, p);
    }
    if AnswersSome(things, c) {
      var p :| Answers(things, c, p);
      FlatIs(things, p);
    }
  }

  lemma {:induction false} LevelHasRoot(things: seq<Comment>, c: Comment, n: nat)
    requires Level(Flat(things), c, n)
    ensures HasRoot(things, c)
    decreases n
  {
    HasParentIff(things, c);
    if n == 0 {
      assert LeadsToRoot(things, [c]);
    } else {
      var p := ParentOf(Flat(things), c);
      LevelHasRoot(things, p, n - 1);
      FlatIs(things, p);
      var chain: seq<Comment> :| chain != [] && chain[0] == p && LeadsToRoot(things, chain);
      ChainGrows(things, c, chain);
    }
  }

  lemma {:induction false} ChainGrows(things: seq<Comment>, c: Comment, chain: seq<Comment>)
    requires chain != [] && LeadsToRoot(things, chain) && Answers(things, c, chain[0])
    ensures HasRoot(things, c)
  {
    var longer := [c] + chain;
    forall i | 0 <= i < |longer| - 1 ensures Answers(things, longer[i], longer[i + 1]) {
      if i > 0 {
        assert longer[i] == chain[i - 1] && longer[i + 1] == chain[i];
      }
    }
    assert longer[0] == c && LeadsToRoot(things, longer);
  }

  lemma {:induction false} ChainHasLevel(things: seq<Comment>, chain: seq<Comment>)
    requires SingleParents(Flat(things)) && chain != [] && LeadsToRoot(things, chain)
    requires chain[0] in things && Thing(chain[0])
    ensures Level(Flat(things), chain[0], |chain| - 1)
    decreases |chain|
  {
    var flat, c := Flat(things), chain[0];
    HasParentIff(things, c);
    if |chain| > 1 {
      var rest := chain[1..];
      assert Answers(things, c, chain[1]);
      forall i | 0 <= i < |rest| - 1 ensures Answers(things, rest[i], rest[i + 1]) {
        assert Answers(things, chain[i + 1], chain[i + 2]);
      }
      ChainHasLevel(things, rest);
      FlatIs(things, c);
      FlatIs(things, chain[1]);
      assert AnswersSome(things, c);
      assert c.parentID in ParentIds(flat);
      SameParent(flat, ParentOf(flat, c), chain[1]);
    }
  }

  lemma {:induction false} RootedIff(things: seq<Comment>, c: Comment)
    requires SingleParents(Flat(things)) && c in things && Thing(c)
    ensures Rooted(Flat(things), c) <==> HasRoot(things, c)
  {
    if Rooted(Flat(things), c) {
      var n: nat :| Level(Flat(things), c, n);
      LevelHasRoot(things, c, n);
    }
    if HasRoot(things, c) {
      var chain: seq<Comment> :| chain != [] && chain[0] == c && LeadsToRoot(things, chain);
      ChainHasLevel(things, chain);
    }
  }

  /** No two things carry an id that a third names as its parent's. */
  ghost predicate OneParentEach(things: seq<Comment>) {
    forall i: nat, j: nat :: i < j < |things| && IdAt(things, i) == IdAt(things, j) && IdAt(things, i) != "" ==>
      forall c :: c in things && Thing(c) ==> !(c.parentKind.T1? && c.parentID == IdAt(things, i))
  }

  lemma {:induction false} TwiceInThings(things: seq<Comment>, id: Id) returns (i: nat, j: nat)
    requires Twice(Flat(things), id)
    ensures i < j < |things| && IdAt(things, i) == IdAt(things, j) == id && Thing(things[i]) && Thing(things[j])
  {
    var init, last := things[..|things| - 1], things[|things| - 1];
    var before := Flat(init);
    i, j :| i < j < |Flat(things)| && IdAt(Flat(things), i) == IdAt(Flat(things), j) == id;
    assert IdAt(before, i) == IdAt(Flat(things), i);
    if j < |before| {
      assert IdAt(before, j) == IdAt(Flat(things), j);
      i, j := TwiceInThings(init, id);
    } else {
      var x := before[i];
      assert x in before;
      FlatIs(init, x);
      i :| i < |init| && init[i] == x;
      j := |init|;
    }
  }

  lemma {:induction false} OneParentIsSingle(things: seq<Comment>)
    requires OneParentEach(things)
    ensures SingleParents(Flat(things))
  {
    var flat := Flat(things);
    forall id {:trigger Twice(flat, id)} | Twice(flat, id) ensures id !in ParentIds(flat) {
      var i, j := TwiceInThings(things, id);
      if id in ParentIds(flat) {
        var c :| c in flat && HasParent(c, Ids(flat)) && c.parentID == id;
        FlatIs(things, c);
      }
    }
  }

  // ----- Whatever ids repeat

  ghost predicate Shows(ns: seq<Comment>, c: Comment) {
    exists x :: x in Nodes(ns) && SamePayload(x, c)
  }

  /** Each is filed under the id before it, and none but the last carries an id that was there before. */
  ghost predicate Descent(childrenOf: map<Id, seq<Comment>>, seen: set<Id>, path: seq<Comment>)
    decreases |path|
  {
    && path != []
    && (|path| > 1 ==> path[0].id !in seen && path[1] in KidsIn(childrenOf, path[0].id)
                       && Descent(childrenOf, seen + {path[0].id}, path[1..]))
  }

  lemma {:induction false} DescentShows(cs: seq<Comment>, childrenOf: map<Id, seq<Comment>>, seen: set<Id>, path: seq<Comment>)
    requires Descent(childrenOf, seen, path) && path[0] in cs
    ensures Shows(BuildAll(cs, childrenOf, seen), path[|path| - 1])
    decreases |path|, |cs|
  {
    var init, last := cs[..|cs| - 1], cs[|cs| - 1];
    assert cs == init + [last];
    var tree := Build(last, childrenOf, seen);
    NodesConcat(BuildAll(init, childrenOf, seen), [tree]);
    NodesOne(tree);
    if path[0] in init {
      DescentShows(init, childrenOf, seen, path);
    } else if |path| == 1 {
      assert SamePayload(tree, last);
    } else {
      DescentShows(childrenOf[last.id], childrenOf, seen + {last.id}, path[1..]);
    }
  }

  /** The way down to an item continues to its kids, or the way to an earlier holder of its id does. */
  lemma {:induction false} DescentGrows(childrenOf: map<Id, seq<Comment>>, seen: set<Id>, path: seq<Comment>, kid: Comment)
      returns (longer: seq<Comment>)
    requires Descent(childrenOf, seen, path) && path[|path| - 1].id !in seen
    requires kid in KidsIn(childrenOf, path[|path| - 1].id)
    ensures Descent(childrenOf, seen, longer) && longer[0] == path[0] && longer[|longer| - 1] == kid
    decreases |path|
  {
    if path[0].id == path[|path| - 1].id {
      longer := [path[0], kid];
      assert longer[1..] == [kid];
      assert Descent(childrenOf, seen + {path[0].id}, [kid]);
    } else {
      var rest := DescentGrows(childrenOf, seen + {path[0].id}, path[1..], kid);
      longer := [path[0]] + rest;
      assert longer[1..] == rest;
    }
  }

  lemma {:induction false} ChainDescends(things: seq<Comment>, chain: seq<Comment>) returns (path: seq<Comment>)
    requires chain != [] && LeadsToRoot(things, chain) && chain[0] in things && Thing(chain[0])
    ensures Descent(ChildIndex(Flat(things), Ids(Flat(things))), {}, path) && path[|path| - 1] == chain[0]
    ensures path[0] in Roots(Flat(things), Ids(Flat(things)))
    decreases |chain|
  {
    var flat, ids, c := Flat(things), Ids(Flat(things)), chain[0];
    HasParentIff(things, c);
    FlatIs(things, c);
    if |chain| == 1 {
      path := [c];
      RootsAre(flat, ids, c);
    } else {
      var rest := chain[1..];
      assert Answers(things, c, chain[1]);
      forall i | 0 <= i < |rest| - 1 ensures Answers(things, rest[i], rest[i + 1]) {
        assert Answers(things, chain[i + 1], chain[i + 2]);
      }
      assert AnswersSome(things, c);
      path := ChainDescends(things, rest);
      KidsAre(flat, ids, c.parentID, c);
      ChildIndexIs(flat, ids, c.parentID);
      path := DescentGrows(ChildIndex(flat, ids), {}, path, c);
    }
  }

  /** A kept thing whose parents lead to a root is in the forest, whatever ids repeat. */
  lemma {:induction false} RootedIsShown(things: seq<Comment>, c: Comment)
    requires c in things && Thing(c) && HasRoot(things, c)
    ensures HasNode(things, c)
  {
    var flat := Flat(things);
    var chain: seq<Comment> :| chain != [] && chain[0] == c && LeadsToRoot(things, chain);
    var path := ChainDescends(things, chain);
    DescentShows(Roots(flat, Ids(flat)), ChildIndex(flat, Ids(flat)), {}, path);
  }

  ghost predicate AllRooted(things: seq<Comment>, cs: seq<Comment>) {
    forall c :: c in cs ==> c in things && Thing(c) && HasRoot(things, c) && c.replies == []
  }

  lemma {:induction false} KidsAreRooted(things: seq<Comment>, c: Comment)
    requires c in things && HasRoot(things, c) && forall d :: d in things ==> d.replies == []
    ensures AllRooted(things, Kids(Flat(things), Ids(Flat(things)), c.id))
  {
    var flat := Flat(things);
    var chain: seq<Comment> :| chain != [] && chain[0] == c && LeadsToRoot(things, chain);
    forall kid | kid in Kids(flat, Ids(flat), c.id) ensures kid in things && Thing(kid) && HasRoot(things, kid) {
      KidsAre(flat, Ids(flat), c.id, kid);
      FlatIs(things, kid);
      ChainGrows(things, kid, chain);
    }
  }

  lemma {:induction false} BuiltIsRooted(things: seq<Comment>, cs: seq<Comment>, seen: set<Id>)
    requires AllRooted(things, cs) && forall d :: d in things ==> d.replies == []
    ensures forall x :: x in Nodes(BuildAll(cs, ChildIndex(Flat(things), Ids(Flat(things))), seen)) ==> StandsForRooted(things, x)
    decreases |ChildIndex(Flat(things), Ids(Flat(things))).Keys - seen|, |cs|
  {
    if cs != [] {
      var childrenOf := ChildIndex(Flat(things), Ids(Flat(things)));
      var init, last := cs[..|cs| - 1], cs[|cs| - 1];
      var tree := Build(last, childrenOf, seen);
      assert last in cs;
      BuiltIsRooted(things, init, seen);
      NodesConcat(BuildAll(init, childrenOf, seen), [tree]);
      NodesOne(tree);
      assert SamePayload(tree, last);
      if last.id !in seen && KidsIn(childrenOf, last.id) != [] {
        KidsAreRooted(things, last);
        ChildIndexIs(Flat(things), Ids(Flat(things)), last.id);
        FewerLeft(childrenOf, seen, last.id);
        BuiltIsRooted(things, childrenOf[last.id], seen + {last.id});
      } else {
        assert tree.replies == [];
      }
    }
  }

  lemma {:induction false} RootsAreRooted(things: seq<Comment>)
    requires forall d :: d in things ==> d.replies == []
    ensures AllRooted(things, Roots(Flat(things), Ids(Flat(things))))
  {
    var flat := Flat(things);
    forall c | c in Roots(flat, Ids(flat)) ensures c in things && Thing(c) && HasRoot(things, c) {
      RootsAre(flat, Ids(flat), c);
      FlatIs(things, c);
      HasParentIff(things, c);
      assert LeadsToRoot(things, [c]);
    }
  }

  lemma {:induction false} NodesStandForRooted(things: seq<Comment>)
    requires OneParentEach(things) || forall d :: d in things ==> d.replies == []
    ensures forall x :: x in Nodes(Forest(things)) ==> StandsForRooted(things, x)
  {
    if OneParentEach(things) {
      OneParentIsSingle(things);
      forall x | x in Nodes(Forest(things)) ensures StandsForRooted(things, x) {
        var d := NodesAreRooted(things, x);
        FlatIs(things, d);
        RootedIff(things, d);
      }
    } else {
      RootsAreRooted(things);
      BuiltIsRooted(things, Roots(Flat(things), Ids(Flat(things))), {});
    }
  }

  lemma {:induction false} SameParentSameRoot(things: seq<Comment>, d: Comment, c: Comment)
    requires HasRoot(things, d) && c.parentKind == d.parentKind && c.parentID == d.parentID
    ensures HasRoot(things, c)
  {
    var chain: seq<Comment> :| chain != [] && chain[0] == d && LeadsToRoot(things, chain);
    if |chain| == 1 {
      assert AnswersSome(things, c) ==> exists p :: Answers(things, c, p) && Answers(things, d, p);
      assert LeadsToRoot(things, [c]);
    } else {
      assert Answers(things, d, chain[1]);
      var rest := chain[1..];
      forall i | 0 <= i < |rest| - 1 ensures Answers(things, rest[i], rest[i + 1]) {
        assert Answers(things, chain[i + 1], chain[i + 2]);
      }
      ChainGrows(things, c, rest);
    }
  }

  lemma {:induction false} ShownIsRooted(things: seq<Comment>, c: Comment)
    requires HasNode(things, c)
    requires forall x :: x in Nodes(Forest(things)) ==> StandsForRooted(things, x)
    ensures HasRoot(things, c)
  {
    var x :| x in Nodes(Forest(things)) && SamePayload(x, c);
    assert StandsForRooted(things, x);
    var d :| d in things && Thing(d) && SamePayload(x, d) && HasRoot(things, d);
    SameParentSameRoot(things, d, c);
  }

  /**
    A thing of the payload that has an id or is a stub has a node with its payload in the
    forest if its parents lead to a root, whatever ids repeat. Where the things come flat,
    without replies of their own, or no two carry an id that a third names as its parent's,
    only those do: every node stands for such a thing.
   */
  lemma {:induction false} ForestIsThePayload(things: seq<Comment>)
    ensures forall c :: c in things && Thing(c) && HasRoot(things, c) ==> HasNode(things, c)
    ensures OneParentEach(things) || (forall d :: d in things ==> d.replies == []) ==>
              && (forall x :: x in Nodes(Forest(things)) ==> StandsForRooted(things, x))
              && (forall c :: c in things && Thing(c) && HasNode(things, c) ==> HasRoot(things, c))
  {
    forall c | c in things && Thing(c) && HasRoot(things, c) ensures HasNode(things, c) {
      RootedIsShown(things, c);
    }
    if OneParentEach(things) || forall d :: d in things ==> d.replies == [] {
      NodesStandForRooted(things);
      forall c | c in things && Thing(c) && HasNode(things, c) ensures HasRoot(things, c) {
        ShownIsRooted(things, c);
      }
    }
  }

  ghost predicate HasNode(things: seq<Comment>, c: Comment) {
    exists x :: x in Nodes(Forest(things)) && SamePayload(x, c)
  }

  ghost predicate StandsForRooted(things: seq<Comment>, x: Comment) {
    exists c :: c in things && Thing(c) && SamePayload(x, c) && HasRoot(things, c)
  }

  // ----- In arrival order

  /** The things at these places. */
  ghost function At(things: seq<Comment>, places: seq<nat>): seq<Comment>
    requires forall i :: 0 <= i < |places| ==> places[i] < |things|
  {
    seq(|places|, i requires 0 <= i < |places| => things[places[i]])
  }

  /** Places in arrival order. */
  ghost predicate Rising(things: seq<Comment>, places: seq<nat>) {
    && (forall i :: 0 <= i < |places| ==> places[i] < |things|)
    && (forall i, j :: 0 <= i < j < |places| ==> places[i] < places[j])
  }

  lemma {:induction false} RisingMore(things: seq<Comment>, places: seq<nat>, last: Comment)
    requires Rising(things, places)
    ensures Rising(things + [last], places) && At(things + [last], places) == At(things, places)
    ensures Rising(things + [last], places + [|things|])
    ensures At(things + [last], places + [|things|]) == At(things, places) + [last]
  {
  }

  /** Of the things, exactly those that pass, in arrival order. */
  ghost predicate Selects(things: seq<Comment>, places: seq<nat>, pass: Comment -> bool) {
    Rising(things, places) && forall k: nat :: k < |things| ==> (k in places <==> pass(things[k]))
  }

  ghost function Picked(things: seq<Comment>, pass: Comment -> bool): seq<Comment> {
    if things == [] then [] else
    var last := things[|things| - 1];
    Picked(things[..|things| - 1], pass) + if pass(last) then [last] else []
  }

  lemma {:induction false} SelectsMore(init: seq<Comment>, places: seq<nat>, pass: Comment -> bool, last: Comment)
      returns (more: seq<nat>)
    requires Selects(init, places, pass) && At(init, places) == Picked(init, pass)
    ensures Selects(init + [last], more, pass) && At(init + [last], more) == Picked(init + [last], pass)
  {
    RisingMore(init, places, last);
    more := if pass(last) then places + [|init|] else places;
    assert (init + [last])[..|init|] == init;
    forall k: nat | k < |init + [last]| ensures k in more <==> pass((init + [last])[k]) {
      assert k < |init| ==> (k in more <==> k in places);
    }
  }

  lemma {:induction false} PickedInOrder(things: seq<Comment>, pass: Comment -> bool) returns (places: seq<nat>)
    ensures Selects(things, places, pass) && At(things, places) == Picked(things, pass)
  {
    if things == [] {
      places := [];
    } else {
      var init, last := things[..|things| - 1], things[|things| - 1];
      var before := PickedInOrder(init, pass);
      places := SelectsMore(init, before, pass, last);
      assert init + [last] == things;
    }
  }

  lemma {:induction false} KidsArePicked(things: seq<Comment>, ids: set<Id>, parent: Id, pass: Comment -> bool)
    requires forall c :: pass(c) <==> Thing(c) && HasParent(c, ids) && c.parentID == parent
    ensures Kids(Flat(things), ids, parent) == Picked(things, pass)
  {
    if things != [] {
      var init, last := things[..|things| - 1], things[|things| - 1];
      KidsArePicked(init, ids, parent, pass);
      if Thing(last) {
        assert Flat(things) == Flat(init) + [last];
        assert Flat(things)[..|Flat(init)|] == Flat(init);
      } else {
        assert Flat(things) == Flat(init);
        assert Picked(things, pass) == Picked(init, pass);
      }
    }
  }

  lemma {:induction false} RootsArePicked(things: seq<Comment>, ids: set<Id>, pass: Comment -> bool)
    requires forall c :: pass(c) <==> Thing(c) && !HasParent(c, ids)
    ensures Roots(Flat(things), ids) == Picked(things, pass)
  {
    if things != [] {
      var init, last := things[..|things| - 1], things[|things| - 1];
      RootsArePicked(init, ids, pass);
      if Thing(last) {
        assert Flat(things) == Flat(init) + [last];
        assert Flat(things)[..|Flat(init)|] == Flat(init);
      } else {
        assert Flat(things) == Flat(init);
        assert Picked(things, pass) == Picked(init, pass);
      }
    }
  }

  /** These are the things that answer none, in arrival order. */
  ghost predicate RootPlaces(things: seq<Comment>, places: seq<nat>) {
    Rising(things, places) && forall k: nat :: k < |things| ==> (k in places <==> Thing(things[k]) && !AnswersSome(things, things[k]))
  }

  /** These are the things that answer the comment, in arrival order. */
  ghost predicate ReplyPlaces(things: seq<Comment>, c: Comment, places: seq<nat>) {
    Rising(things, places) && forall k: nat :: k < |things| ==> (k in places <==> Thing(things[k]) && Answers(things, things[k], c))
  }

  /** The node stands for a thing and has what answers it below it, in arrival order. */
  ghost predicate InPlace(things: seq<Comment>, x: Comment) {
    exists c, places :: c in things && Thing(c) && SamePayload(x, c) && ReplyPlaces(things, c, places)
                        && Matches(x.replies, At(things, places))
  }

  lemma {:induction false} NodeInPlace(things: seq<Comment>, x: Comment)
    requires OneParentEach(things) && x in Nodes(Forest(things))
    ensures InPlace(things, x)
  {
    var flat := Flat(things);
    OneParentIsSingle(things);
    ForestPlacesItems(things);
    var c :| c in flat && SamePayload(x, c) && Matches(x.replies, Kids(flat, Ids(flat), c.id));
    FlatIs(things, c);
    var pass := (t: Comment) => Thing(t) && HasParent(t, Ids(flat)) && t.parentID == c.id;
    KidsArePicked(things, Ids(flat), c.id, pass);
    var places := PickedInOrder(things, pass);
    forall k: nat | k < |things| ensures k in places <==> Thing(things[k]) && Answers(things, things[k], c) {
      HasParentIff(things, things[k]);
    }
    assert ReplyPlaces(things, c, places);
  }

  /** The roots of the forest, and the replies of every node, are the things that belong there, in arrival order. */
  lemma {:induction false} ForestIsInOrder(things: seq<Comment>) returns (places: seq<nat>)
    requires OneParentEach(things)
    ensures RootPlaces(things, places) && Matches(Forest(things), At(things, places))
    ensures forall x :: x in Nodes(Forest(things)) ==> InPlace(things, x)
  {
    var flat := Flat(things);
    OneParentIsSingle(things);
    ForestPlacesItems(things);
    var pass := (t: Comment) => Thing(t) && !HasParent(t, Ids(flat));
    RootsArePicked(things, Ids(flat), pass);
    places := PickedInOrder(things, pass);
    forall k: nat | k < |things| ensures k in places <==> Thing(things[k]) && !AnswersSome(things, things[k]) {
      HasParentIff(things, things[k]);
    }
    forall x | x in Nodes(Forest(things)) ensures InPlace(things, x) {
      NodeInPlace(things, x);
    }
  }

  // ----- As many nodes as things

  ghost predicate DistinctIds(things: seq<Comment>) {
    forall i: nat, j: nat :: i < j < |things| && Thing(things[i]) && Thing(things[j]) ==> IdAt(things, i) != IdAt(things, j)
  }

  ghost function RootedThings(things: seq<Comment>): set<Comment> {
    set c | c in things && Thing(c) && HasRoot(things, c)
  }

  lemma {:induction false} DistinctIsSingle(things: seq<Comment>)
    requires DistinctIds(things)
    ensures OneParentEach(things) && forall id :: !Twice(Flat(things), id)
  {
    forall id ensures !Twice(Flat(things), id) {
      if Twice(Flat(things), id) {
        var i, j := TwiceInThings(things, id);
      }
    }
  }

  ghost function IdsOf(ns: seq<Comment>): set<Id> {
    set x | x in ns :: x.id
  }

  lemma {:induction false} OnceCounts(ns: seq<Comment>)
    requires forall i: nat, j: nat :: i < j < |ns| ==> IdAt(ns, i) != IdAt(ns, j)
    ensures |ns| == |IdsOf(ns)|
  {
    if ns != [] {
      var init, last := ns[..|ns| - 1], ns[|ns| - 1];
      forall i: nat, j: nat | i < j < |init| ensures IdAt(init, i) != IdAt(init, j) {
        assert IdAt(ns, i) != IdAt(ns, j);
      }
      OnceCounts(init);
      assert IdsOf(ns) == IdsOf(init) + {last.id};
      forall x | x in init ensures x.id != last.id {
        var i: nat :| i < |init| && init[i] == x;
        assert IdAt(ns, i) != IdAt(ns, |ns| - 1);
      }
    }
  }

  lemma {:induction false} DistinctCounts(cs: set<Comment>)
    requires forall a, b :: a in cs && b in cs && a.id == b.id ==> a == b
    ensures |cs| == |set c | c in cs :: c.id|
  {
    if cs != {} {
      var c :| c in cs;
      var rest := cs - {c};
      DistinctCounts(rest);
      assert (set d | d in cs :: d.id) == (set d | d in rest :: d.id) + {c.id};
    }
  }

  /** With distinct ids there are as many nodes as things whose parents lead to a root. */
  lemma {:induction false} ForestCounts(things: seq<Comment>)
    requires DistinctIds(things)
    ensures |Nodes(Forest(things))| == |RootedThings(things)|
  {
    var nodes, rooted := Nodes(Forest(things)), RootedThings(things);
    DistinctIsSingle(things);
    OneParentIsSingle(things);
    ForestHoldsEachOnce(things);
    OnceCounts(nodes);
    forall a, b | a in rooted && b in rooted && a.id == b.id ensures a == b {
      var i: nat :| i < |things| && things[i] == a;
      var j: nat :| j < |things| && things[j] == b;
      assert i == j by {
        assert IdAt(things, i) == IdAt(things, j);
      }
    }
    DistinctCounts(rooted);
    SameIds(things);
  }

  lemma {:induction false} SameIds(things: seq<Comment>)
    requires OneParentEach(things)
    ensures IdsOf(Nodes(Forest(things))) == set c | c in RootedThings(things) :: c.id
  {
    var nodes, rooted := Nodes(Forest(things)), RootedThings(things);
    ForestIsThePayload(things);
    forall x | x in nodes ensures exists c :: c in rooted && c.id == x.id {
      assert StandsForRooted(things, x);
    }
    forall c | c in rooted ensures exists x :: x in nodes && x.id == c.id {
      assert HasNode(things, c);
    }
  }
}
