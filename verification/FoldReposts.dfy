/**
  Folding reposts of one listing into cluster cards. Posts join the first cluster whose
  head they resemble; the head is replaced when a better scored variant arrives; the
  heads are then compacted to the front of the listing.
 */
module FoldReposts {
  import opened Common
  import opened TitleTokens
  import opened Posts

  /** A number beats anything that is not one. */
  function ScoreGT(a: Option<int>, b: Option<int>): bool {
    a.Some? && (b.None? || a.value > b.value)
  }

  // ----- The clusters of a listing

  /** A post and its fingerprint. */
  datatype Item = Item(post: Post, mark: Option<Fingerprint>)

  ghost function Items(page: seq<Post>): (r: seq<Item>)
    ensures |r| == |page|
  {
    if page == [] then [] else Items(page[..|page| - 1]) + [ItemOf(page[|page| - 1])]
  }

  lemma {:induction false} ItemAt(page: seq<Post>, i: nat)
    requires i < |page|
    ensures Items(page)[i] == ItemOf(page[i])
  {
    if i < |page| - 1 {
      ItemAt(page[..|page| - 1], i);
    }
  }

  lemma {:induction false} ItemPost(page: seq<Post>, i: nat)
    requires i < |page|
    ensures Items(page)[i].post == page[i]
  {
    ItemAt(page, i);
  }

  ghost function ItemOf(p: Post): Item {
    Item(p, MarkOf(p))
  }

  /** The members of a cluster by their places, their rows, and the head. */
  datatype Group = Group(head: nat, top: Item, places: seq<nat>, rows: seq<Member>)

  ghost predicate Joins(p: Item, g: Group) {
    p.mark.Some? && g.top.mark.Some? && Similar(p.mark.value, g.top.mark.value)
  }

  /** The first group the post resembles, or the number of groups. */
  ghost function FirstMatch(gs: seq<Group>, p: Item): (k: nat)
    ensures k <= |gs|
  {
    if gs == [] then 0 else
    var n := |gs| - 1;
    var k := FirstMatch(gs[..n], p);
    if k < n then k else if Joins(p, gs[n]) then n else n + 1
  }

  ghost function Join(g: Group, p: Item, i: nat): Group {
    var better := ScoreGT(p.post.score, g.top.post.score);
    Group(if better then i else g.head, if better then p else g.top, g.places + [i], g.rows + [MemberFrom(p.post)])
  }

  ghost function Single(p: Item, i: nat): Group {
    Group(i, p, [i], [MemberFrom(p.post)])
  }

  ghost function Groups(page: seq<Item>): seq<Group> {
    if page == [] then [] else
    var gs, p, i := Groups(page[..|page| - 1]), page[|page| - 1], |page| - 1;
    Placed(gs, p, i)
  }

  ghost function Placed(gs: seq<Group>, p: Item, i: nat): seq<Group> {
    var k := FirstMatch(gs, p);
    if k < |gs| then gs[k := Join(gs[k], p, i)] else gs + [Single(p, i)]
  }

  /** The group headed by the post at place i, if it is a head. */
  ghost function GroupAt(gs: seq<Group>, i: nat): Option<Group> {
    if gs == [] then None else
    var last := gs[|gs| - 1];
    if last.head == i then Some(last) else GroupAt(gs[..|gs| - 1], i)
  }

  /** The post with its card data, if it is a head. */
  ghost function Annotated(p: Post, gs: seq<Group>, i: nat): Post {
    match GroupAt(gs, i)
    case None => p
    case Some(g) => p.(repostCount := |g.rows|, repostMembers := g.rows)
  }

  /** The heads among the first n posts, in listing order. */
  ghost function Emitted(page: seq<Post>, gs: seq<Group>, n: nat): seq<Post>
    requires n <= |page|
  {
    if n == 0 then [] else
    Emitted(page, gs, n - 1) + if GroupAt(gs, n - 1).Some? then [Annotated(page[n - 1], gs, n - 1)] else []
  }

  ghost function Survivors(page: seq<Post>): seq<Post> {
    Emitted(page, Groups(Items(page)), |page|)
  }

  // ----- The clusters partition the listing

  ghost predicate Has(g: Group, i: nat) {
    i in g.places
  }

  ghost predicate Rising(places: seq<nat>) {
    forall a: nat, b: nat :: a < b < |places| ==> places[a] < places[b]
  }

  /** What one group says is true of the listing: its members in order, their rows, and the first of the best as head. */
  ghost predicate Sound(g: Group, page: seq<Item>) {
    && g.head < |page| && g.top == page[g.head] && Has(g, g.head) && Rising(g.places) && g.places != []
    && |g.rows| == |g.places|
    && (forall a: nat :: a < |g.places| ==> g.places[a] < |page| && g.rows[a] == MemberFrom(page[g.places[a]].post))
    && forall i: nat :: Has(g, i) ==> i < |page| && Best(g, page, i)
  }

  ghost predicate Best(g: Group, page: seq<Item>, i: nat)
    requires i < |page|
  {
    !ScoreGT(page[i].post.score, g.top.post.score) && (i < g.head ==> ScoreGT(g.top.post.score, page[i].post.score))
  }

  ghost predicate Covers(gs: seq<Group>, i: nat) {
    exists c :: 0 <= c < |gs| && Has(gs[c], i)
  }

  ghost predicate Disjoint(gs: seq<Group>) {
    forall c, d, i: nat :: 0 <= c < d < |gs| && Has(gs[c], i) ==> !Has(gs[d], i)
  }

  ghost predicate Partition(gs: seq<Group>, page: seq<Item>) {
    && (forall c :: 0 <= c < |gs| ==> Sound(gs[c], page))
    && (forall i: nat :: i < |page| ==> Covers(gs, i))
    && Disjoint(gs)
  }

  ghost function Members(gs: seq<Group>): nat {
    if gs == [] then 0 else Members(gs[..|gs| - 1]) + |gs[|gs| - 1].places|
  }

  lemma {:induction false} SoundLonger(g: Group, page: seq<Item>, p: Item)
    requires Sound(g, page)
    ensures Sound(g, page + [p])
  {
    forall i: nat | Has(g, i) ensures i < |page + [p]| && Best(g, page + [p], i) {
      assert Best(g, page, i);
    }
  }

  lemma {:induction false} SoundJoin(g: Group, page: seq<Item>, p: Item)
    requires Sound(g, page)
    ensures Sound(Join(g, p, |page|), page + [p])
  {
    var j, all := Join(g, p, |page|), page + [p];
    forall i: nat ensures Has(j, i) <==> Has(g, i) || i == |page| {
    }
    forall i: nat | Has(j, i) ensures i < |all| && Best(j, all, i) {
      if Has(g, i) {
        assert Best(g, page, i);
      }
    }
    forall a: nat | a < |j.places| ensures j.places[a] < |all| && j.rows[a] == MemberFrom(all[j.places[a]].post) {
    }
  }

  lemma {:induction false} SoundSingle(page: seq<Item>, p: Item)
    ensures Sound(Single(p, |page|), page + [p])
  {
    var g := Single(p, |page|);
    forall i: nat | Has(g, i) ensures i < |page + [p]| && Best(g, page + [p], i) {
    }
    assert Has(g, |page|);
  }

  lemma {:induction false} MembersUpdate(gs: seq<Group>, k: nat, g: Group)
    requires k < |gs|
    ensures Members(gs[k := g]) == Members(gs) - |gs[k].places| + |g.places|
  {
    var n := |gs| - 1;
    if k == n {
      assert gs[k := g][..n] == gs[..n];
    } else {
      assert gs[k := g][..n] == gs[..n][k := g];
      MembersUpdate(gs[..n], k, g);
    }
  }

  lemma {:induction false} JoinPartition(gs: seq<Group>, page: seq<Item>, p: Item, k: nat)
    requires Partition(gs, page) && k < |gs|
    ensures Partition(gs[k := Join(gs[k], p, |page|)], page + [p])
  {
    var g := Join(gs[k], p, |page|);
    var next := gs[k := g];
    forall i: nat ensures Has(g, i) <==> Has(gs[k], i) || i == |page| {
    }
    forall c | 0 <= c < |next| ensures Sound(next[c], page + [p]) {
      SoundLonger(gs[c], page, p);
      SoundJoin(gs[k], page, p);
    }
    forall i: nat | i < |page + [p]| ensures Covers(next, i) {
      if i < |page| {
        assert Covers(gs, i);
        var c :| 0 <= c < |gs| && Has(gs[c], i);
        assert Has(next[c], i);
      } else {
        assert Has(next[k], i);
      }
    }
    forall c, d, i: nat | 0 <= c < d < |next| && Has(next[c], i) ensures !Has(next[d], i) {
      assert Sound(gs[c], page) && Sound(gs[d], page);
    }
  }

  lemma {:induction false} SinglePartition(gs: seq<Group>, page: seq<Item>, p: Item)
    requires Partition(gs, page)
    ensures Partition(gs + [Single(p, |page|)], page + [p])
  {
    var next := gs + [Single(p, |page|)];
    forall c | 0 <= c < |next| ensures Sound(next[c], page + [p]) {
      if c < |gs| {
        SoundLonger(gs[c], page, p);
      } else {
        SoundSingle(page, p);
      }
    }
    forall i: nat | i < |page + [p]| ensures Covers(next, i) {
      if i < |page| {
        assert Covers(gs, i);
        var c :| 0 <= c < |gs| && Has(gs[c], i);
        assert Has(next[c], i);
      } else {
        assert Has(next[|gs|], i);
      }
    }
    forall c, d, i: nat | 0 <= c < d < |next| && Has(next[c], i) ensures !Has(next[d], i) {
      assert Sound(gs[c], page);
    }
  }

  /** Each post belongs to exactly one cluster, and each cluster's head is the first of its best scored members. */
  lemma {:induction false} GroupsPartition(page: seq<Item>)
    ensures Partition(Groups(page), page)
    ensures Members(Groups(page)) == |page|
  {
    if page != [] {
      var init, p := page[..|page| - 1], page[|page| - 1];
      assert page == init + [p];
      GroupsPartition(init);
      var gs := Groups(init);
      var k := FirstMatch(gs, p);
      if k < |gs| {
        JoinPartition(gs, init, p, k);
        MembersUpdate(gs, k, Join(gs[k], p, |init|));
      } else {
        SinglePartition(gs, init, p);
        assert (gs + [Single(p, |init|)])[..|gs|] == gs;
      }
    }
  }

  // ----- The survivors

  lemma {:induction false} GroupAtIs(gs: seq<Group>, i: nat)
    ensures GroupAt(gs, i).Some? ==> exists c :: 0 <= c < |gs| && gs[c] == GroupAt(gs, i).value && gs[c].head == i
    ensures GroupAt(gs, i).None? ==> forall c :: 0 <= c < |gs| ==> gs[c].head != i
  {
    if gs != [] {
      GroupAtIs(gs[..|gs| - 1], i);
    }
  }

  ghost function CountSum(cards: seq<Post>): nat {
    if cards == [] then 0 else CountSum(cards[..|cards| - 1]) + cards[|cards| - 1].repostCount
  }

  /** Members of the groups headed before place n. */
  ghost function SizeBelow(gs: seq<Group>, n: nat): nat {
    if gs == [] then 0 else
    SizeBelow(gs[..|gs| - 1], n) + if gs[|gs| - 1].head < n then |gs[|gs| - 1].rows| else 0
  }

  ghost predicate HeadsDiffer(gs: seq<Group>) {
    forall c, d :: 0 <= c < d < |gs| ==> gs[c].head != gs[d].head
  }

  lemma {:induction false} SizeStep(gs: seq<Group>, n: nat)
    requires HeadsDiffer(gs)
    ensures SizeBelow(gs, n + 1) == SizeBelow(gs, n)
              + match GroupAt(gs, n) case None => 0 case Some(g) => |g.rows|
  {
    if gs != [] {
      SizeStep(gs[..|gs| - 1], n);
      if gs[|gs| - 1].head == n {
        NoOther(gs[..|gs| - 1], n);
      }
    }
  }

  lemma {:induction false} NoOther(gs: seq<Group>, n: nat)
    requires forall c :: 0 <= c < |gs| ==> gs[c].head != n
    ensures GroupAt(gs, n) == None
  {
    GroupAtIs(gs, n);
  }

  lemma {:induction false} EmittedCount(page: seq<Post>, gs: seq<Group>, n: nat)
    requires n <= |page| && HeadsDiffer(gs)
    ensures CountSum(Emitted(page, gs, n)) == SizeBelow(gs, n)
  {
    if n == 0 {
      NothingBelow(gs);
    } else {
      EmittedCount(page, gs, n - 1);
      SizeStep(gs, n - 1);
      var init := Emitted(page, gs, n - 1);
      if GroupAt(gs, n - 1).Some? {
        assert (init + [Annotated(page[n - 1], gs, n - 1)])[..|init|] == init;
      } else {
        assert Emitted(page, gs, n) == init;
      }
    }
  }

  lemma {:induction false} NothingBelow(gs: seq<Group>)
    ensures SizeBelow(gs, 0) == 0
  {
    if gs != [] {
      NothingBelow(gs[..|gs| - 1]);
    }
  }

  lemma {:induction false} AllBelowEnd(gs: seq<Group>, n: nat)
    requires forall c :: 0 <= c < |gs| ==> gs[c].head < n && |gs[c].rows| == |gs[c].places|
    ensures SizeBelow(gs, n) == Members(gs)
  {
    if gs != [] {
      AllBelowEnd(gs[..|gs| - 1], n);
    }
  }

  lemma {:induction false} PartitionHeads(gs: seq<Group>, page: seq<Item>)
    requires Partition(gs, page)
    ensures HeadsDiffer(gs)
  {
    forall c, d | 0 <= c < d < |gs| ensures gs[c].head != gs[d].head {
      assert Sound(gs[c], page) && Sound(gs[d], page);
      assert Has(gs[c], gs[c].head);
    }
  }

  /** The repost counts of the cards add up to the listing. */
  lemma {:induction false} CountsAddUp(page: seq<Post>)
    ensures CountSum(Survivors(page)) == |page|
  {
    var gs := Groups(Items(page));
    GroupsPartition(Items(page));
    PartitionHeads(gs, Items(page));
    EmittedCount(page, gs, |page|);
    forall c | 0 <= c < |gs| ensures gs[c].head < |page| && |gs[c].rows| == |gs[c].places| {
      assert Sound(gs[c], Items(page));
    }
    AllBelowEnd(gs, |page|);
  }

  /** A card's first row is its head's exactly when no member outranks the one that came first. */
  lemma {:induction false} HeadIsFirstRowIff(page: seq<Item>, c: nat)
    requires c < |Groups(page)|
    ensures var g := Groups(page)[c];
            && Sound(g, page)
            && g.rows[0] == MemberFrom(page[g.places[0]].post)
            && (g.head == g.places[0] <==> forall i: nat :: Has(g, i) ==> i < |page| && !ScoreGT(page[i].post.score, page[g.places[0]].post.score))
  {
    GroupsPartition(page);
    var g := Groups(page)[c];
    assert Sound(g, page);
    var first := g.places[0];
    assert Has(g, first);
    if g.head != first {
      var a: nat :| a < |g.places| && g.places[a] == g.head;
      assert first < g.head && Best(g, page, first);
      assert Has(g, g.head) && ScoreGT(page[g.head].post.score, page[first].post.score);
    } else {
      forall i: nat | Has(g, i) ensures i < |page| && !ScoreGT(page[i].post.score, page[first].post.score) {
        assert Best(g, page, i);
      }
    }
  }

  lemma {:induction false} GroupsMore(page: seq<Item>, p: Item)
    ensures Groups(page + [p]) == Placed(Groups(page), p, |page|)
  {
    assert (page + [p])[..|page + [p]| - 1] == page;
  }

  lemma OneGroup(p: Item)
    ensures Groups([p]) == [Single(p, 0)]
  {
    assert [] + [p] == [p];
    GroupsMore([], p);
    assert FirstMatch(Groups([]), p) == 0;
  }

  lemma JoinsOnly(g: Group, p: Item, i: nat)
    ensures Joins(p, g) ==> Placed([g], p, i) == [Join(g, p, i)]
  {
    assert [g][..0] == [];
    assert FirstMatch([], p) == 0;
  }

  lemma OneHead(page: seq<Post>, g: Group)
    requires |page| == 2 && g.head == 1
    ensures Emitted(page, [g], 2) == [page[1].(repostCount := |g.rows|, repostMembers := g.rows)]
  {
    assert [g][..0] == [];
    assert GroupAt([], 0) == None;
    assert GroupAt([g], 0) == None && GroupAt([g], 1) == Some(g);
    assert Emitted(page, [g], 0) == [];
    assert Emitted(page, [g], 1) == [];
  }

  /** A better scored copy of any tokenised post takes the card but not the first row. */
  lemma {:induction false} HeadBehindFirstRow(p: Post, q: Post)
    requires MarkOf(p).Some? && q.title == p.title && q.mediaKey == p.mediaKey && ScoreGT(q.score, p.score)
    ensures Survivors([p, q]) == [q.(repostCount := 2, repostMembers := [MemberFrom(p), MemberFrom(q)])]
  {
    SameTitleJoins(p, q);
    ItemsOfTwo(p, q);
    BetterTakesCard(ItemOf(p), ItemOf(q));
  }

  lemma {:induction false} BetterTakesCard(p: Item, q: Item)
    requires Joins(q, Single(p, 0)) && ScoreGT(q.post.score, p.post.score)
    ensures Emitted([p.post, q.post], Groups([p, q]), 2)
            == [q.post.(repostCount := 2, repostMembers := [MemberFrom(p.post), MemberFrom(q.post)])]
  {
    TwoItems(p, q);
    var g := Join(Single(p, 0), q, 1);
    assert g.head == 1 && g.rows == [MemberFrom(p.post), MemberFrom(q.post)];
    OneHead([p.post, q.post], g);
  }

  lemma {:induction false} ItemsOfTwo(p: Post, q: Post)
    ensures Items([p, q]) == [ItemOf(p), ItemOf(q)]
  {
    ItemAt([p, q], 0);
    ItemAt([p, q], 1);
  }

  lemma {:induction false} SameTitleJoins(p: Post, q: Post)
    requires MarkOf(p).Some? && q.title == p.title && q.mediaKey == p.mediaKey
    ensures Joins(ItemOf(q), Single(ItemOf(p), 0))
  {
    MarkTokens(p);
    SimilarIsReflexive(MarkOf(q).value, MarkOf(p).value);
  }

  lemma {:induction false} TwoItems(p: Item, q: Item)
    requires Joins(q, Single(p, 0))
    ensures Groups([p, q]) == [Join(Single(p, 0), q, 1)]
  {
    OneGroup(p);
    assert [p] + [q] == [p, q];
    GroupsMore([p], q);
    JoinsOnly(Single(p, 0), q, 1);
  }

  // ----- Heads that came first do not resemble each other

  /** Both clusters kept the head they started with, and yet resemble each other. */
  ghost predicate Clash(g: Group, h: Group) {
    g.places != [] && h.places != [] && g.head == g.places[0] && h.head == h.places[0] && Joins(h.top, g)
  }

  ghost predicate NoClash(gs: seq<Group>) {
    forall c, d :: 0 <= c < d < |gs| ==> !Clash(gs[c], gs[d])
  }

  lemma {:induction false} FirstMatchIs(gs: seq<Group>, p: Item)
    ensures forall c :: 0 <= c < FirstMatch(gs, p) ==> !Joins(p, gs[c])
    ensures FirstMatch(gs, p) < |gs| ==> Joins(p, gs[FirstMatch(gs, p)])
  {
    if gs != [] {
      FirstMatchIs(gs[..|gs| - 1], p);
    }
  }

  lemma {:induction false} JoinClash(g: Group, h: Group, page: seq<Item>, p: Item)
    requires Sound(g, page)
    ensures Clash(Join(g, p, |page|), h) ==> Clash(g, h)
    ensures Clash(h, Join(g, p, |page|)) ==> Clash(h, g)
  {
    assert Join(g, p, |page|).places[0] == g.places[0];
  }

  /** As long as no cluster changed its head, no two of them resemble each other. */
  lemma {:induction false} UnchangedHeadsApart(page: seq<Item>)
    ensures NoClash(Groups(page))
  {
    if page != [] {
      var init, p := page[..|page| - 1], page[|page| - 1];
      UnchangedHeadsApart(init);
      GroupsPartition(init);
      var gs := Groups(init);
      var k := FirstMatch(gs, p);
      FirstMatchIs(gs, p);
      if k < |gs| {
        assert Sound(gs[k], init);
        JoinedApart(gs, k, init, p);
      }
    }
  }

  lemma {:induction false} JoinedApart(gs: seq<Group>, k: nat, page: seq<Item>, p: Item)
    requires NoClash(gs) && k < |gs| && Sound(gs[k], page)
    ensures NoClash(gs[k := Join(gs[k], p, |page|)])
  {
    var next := gs[k := Join(gs[k], p, |page|)];
    forall c, d | 0 <= c < d < |next| ensures !Clash(next[c], next[d]) {
      JoinClash(gs[k], if c == k then gs[d] else gs[c], page, p);
    }
  }

  // ----- The program

  /** What the loop keeps of a cluster. */
  datatype Cluster = Cluster(head: nat, mark: Option<Fingerprint>, members: seq<Member>)

  ghost predicate Tracks(cs: seq<Cluster>, gs: seq<Group>) {
    |cs| == |gs| && forall c :: 0 <= c < |cs| ==> TracksOne(cs[c], gs[c])
  }

  ghost predicate TracksOne(c: Cluster, g: Group) {
    c.head == g.head && c.mark == g.top.mark && c.members == g.rows
  }

  ghost predicate SortedMark(mark: Option<Fingerprint>) {
    mark.Some? ==> StrictlySorted(mark.value.tokens)
  }

  // the search for a cluster to join
  method FindCluster(mark: Option<Fingerprint>, clusters: seq<Cluster>, ghost gs: seq<Group>, ghost p: Item)
      returns (matched: Option<nat>)
    requires mark == p.mark && SortedMark(mark) && Tracks(clusters, gs)
    requires forall c :: 0 <= c < |clusters| ==> SortedMark(clusters[c].mark)
    ensures matched == if FirstMatch(gs, p) < |gs| then Some(FirstMatch(gs, p)) else None
  {
    if mark.None? {
      FirstMatchIs(gs, p);
      return None;
    }
    for c := 0 to |clusters|
      invariant FirstMatch(gs[..c], p) == c
    {
      assert gs[..c + 1][..c] == gs[..c] && TracksOne(clusters[c], gs[c]);
      if clusters[c].mark.None? {
        continue;
      }
      var same := TestSimilar(mark.value, clusters[c].mark.value);
      if same {
        FoundAt(gs, p, c);
        return Some(c);
      }
    }
    assert gs[..|gs|] == gs;
    return None;
  }

  lemma {:induction false} FoundAt(gs: seq<Group>, p: Item, c: nat)
    requires c < |gs| && FirstMatch(gs[..c], p) == c && Joins(p, gs[c])
    ensures FirstMatch(gs, p) == c
  {
    var n := |gs| - 1;
    if c < n {
      assert gs[..n][..c] == gs[..c];
      FoundAt(gs[..n], p, c);
    }
  }

  /** The cluster of each place, and whether the place is its head. */
  ghost predicate Marks(clusterOf: seq<nat>, isHead: seq<bool>, gs: seq<Group>, n: nat) {
    && |clusterOf| == |isHead| >= n
    && (forall i: nat :: i < n ==> MarksOne(clusterOf[i], isHead[i], gs, i))
    && (forall i: nat :: n <= i < |isHead| ==> !isHead[i])
  }

  ghost predicate MarksOne(c: nat, head: bool, gs: seq<Group>, i: nat) {
    c < |gs| && Has(gs[c], i) && head == (gs[c].head == i)
  }

  ghost predicate SortedMarks(clusters: seq<Cluster>) {
    forall c :: 0 <= c < |clusters| ==> SortedMark(clusters[c].mark)
  }

  lemma {:induction false} JoinMarks(clusterOf: seq<nat>, isHead: seq<bool>, gs: seq<Group>, page: seq<Item>, p: Item, k: nat)
    requires Marks(clusterOf, isHead, gs, |page|) && |page| < |isHead| && Partition(gs, page) && k < |gs|
    ensures var better := ScoreGT(p.post.score, gs[k].top.post.score);
            Marks(clusterOf[|page| := k],
                  if better then isHead[gs[k].head := false][|page| := true] else isHead,
                  gs[k := Join(gs[k], p, |page|)], |page| + 1)
  {
    var i := |page|;
    var better := ScoreGT(p.post.score, gs[k].top.post.score);
    var next := gs[k := Join(gs[k], p, i)];
    assert Sound(gs[k], page);
    var of, heads := clusterOf[i := k], if better then isHead[gs[k].head := false][i := true] else isHead;
    forall j: nat | j < i + 1 ensures MarksOne(of[j], heads[j], next, j) {
      if j == i {
        assert Has(next[k], i);
      } else {
        assert MarksOne(clusterOf[j], isHead[j], gs, j);
        assert Has(next[clusterOf[j]], j);
        assert j == gs[k].head ==> Has(gs[k], j) && clusterOf[j] == k;
      }
    }
  }

  lemma {:induction false} SingleMarks(clusterOf: seq<nat>, isHead: seq<bool>, gs: seq<Group>, page: seq<Item>, p: Item)
    requires Marks(clusterOf, isHead, gs, |page|) && |page| < |isHead|
    ensures Marks(clusterOf[|page| := |gs|], isHead[|page| := true], gs + [Single(p, |page|)], |page| + 1)
  {
    var i := |page|;
    var next := gs + [Single(p, i)];
    var of, heads := clusterOf[i := |gs|], isHead[i := true];
    forall j: nat | j < i + 1 ensures MarksOne(of[j], heads[j], next, j) {
      if j == i {
        assert Has(next[|gs|], i);
      } else {
        assert MarksOne(clusterOf[j], isHead[j], gs, j);
      }
    }
  }

  lemma {:induction false} HeadFound(clusterOf: seq<nat>, isHead: seq<bool>, gs: seq<Group>, page: seq<Item>, i: nat)
    requires Marks(clusterOf, isHead, gs, |page|) && Partition(gs, page) && i < |page|
    ensures clusterOf[i] < |gs|
    ensures GroupAt(gs, i) == if isHead[i] then Some(gs[clusterOf[i]]) else None
  {
    assert MarksOne(clusterOf[i], isHead[i], gs, i);
    GroupAtIs(gs, i);
    forall c | 0 <= c < |gs| && gs[c].head == i ensures c == clusterOf[i] {
      assert Sound(gs[c], page) && Has(gs[c], i);
    }
  }

  // a turn of the clustering loop for a post that matches no cluster
  method StartCluster(p: Post, mark: Option<Fingerprint>, i: nat, clusters: seq<Cluster>, clusterOf: array<nat>,
                      isHead: array<bool>, ghost gs: seq<Group>, ghost page: seq<Item>)
      returns (next: seq<Cluster>)
    requires i == |page| < clusterOf.Length == isHead.Length
    requires |clusters| == |gs| && Marks(clusterOf[..], isHead[..], gs, i)
    modifies clusterOf, isHead
    ensures next == clusters + [Cluster(i, mark, [MemberFrom(p)])]
    ensures Marks(clusterOf[..], isHead[..], gs + [Single(Item(p, mark), i)], i + 1)
  {
    SingleMarks(clusterOf[..], isHead[..], gs, page, Item(p, mark));
    next := clusters + [Cluster(i, mark, [MemberFrom(p)])];
    clusterOf[i] := |clusters|;
    isHead[i] := true;
  }

  // and for one that joins the k-th
  method JoinCluster(p: Post, mark: Option<Fingerprint>, i: nat, k: nat, best: Option<int>, clusters: seq<Cluster>,
                     clusterOf: array<nat>, isHead: array<bool>, ghost gs: seq<Group>, ghost page: seq<Item>)
      returns (next: seq<Cluster>)
    requires i == |page| < clusterOf.Length == isHead.Length && k < |gs| == |clusters|
    requires Partition(gs, page) && clusters[k].head == gs[k].head && best == gs[k].top.post.score
    requires Marks(clusterOf[..], isHead[..], gs, i)
    modifies clusterOf, isHead
    ensures var c, better := clusters[k], ScoreGT(p.score, best);
            next == clusters[k := Cluster(if better then i else c.head, if better then mark else c.mark,
                                          c.members + [MemberFrom(p)])]
    ensures Marks(clusterOf[..], isHead[..], gs[k := Join(gs[k], Item(p, mark), i)], i + 1)
  {
    assert Sound(gs[k], page);
    JoinMarks(clusterOf[..], isHead[..], gs, page, Item(p, mark), k);
    clusterOf[i] := k;
    next := clusters[k := clusters[k].(members := clusters[k].members + [MemberFrom(p)])];
    if ScoreGT(p.score, best) {
      isHead[clusters[k].head] := false;
      next := next[k := next[k].(head := i, mark := mark)];
      isHead[i] := true;
    }
  }

  method MarkAt(posts: array<Post>, i: nat, ghost items: seq<Item>) returns (mark: Option<Fingerprint>)
    requires i < posts.Length && items == Items(posts[..])
    ensures items[i] == Item(posts[i], mark) && SortedMark(mark)
  {
    ItemAt(posts[..], i);
    mark := ReadMark(posts[i]);
  }

  lemma {:induction false} GroupsStep(items: seq<Item>, i: nat)
    requires i < |items|
    ensures Groups(items[..i + 1]) == Placed(Groups(items[..i]), items[i], i)
    ensures Partition(Groups(items[..i]), items[..i])
  {
    assert items[..i + 1] == items[..i] + [items[i]];
    GroupsMore(items[..i], items[i]);
    GroupsPartition(items[..i]);
  }

  method PlacePost(posts: array<Post>, i: nat, clusters: seq<Cluster>, clusterOf: array<nat>, isHead: array<bool>,
                   ghost items: seq<Item>)
      returns (next: seq<Cluster>)
    requires i < clusterOf.Length == isHead.Length == posts.Length && items == Items(posts[..])
    requires Tracks(clusters, Groups(items[..i])) && SortedMarks(clusters)
    requires Marks(clusterOf[..], isHead[..], Groups(items[..i]), i)
    modifies clusterOf, isHead
    ensures Tracks(next, Groups(items[..i + 1])) && SortedMarks(next)
    ensures Marks(clusterOf[..], isHead[..], Groups(items[..i + 1]), i + 1)
  {
    var p := posts[i];
    ghost var gs := Groups(items[..i]);
    GroupsStep(items, i);
    var mark := MarkAt(posts, i, items);
    var matched := FindCluster(mark, clusters, gs, items[i]);
    if matched.None? {
      next := StartCluster(p, mark, i, clusters, clusterOf, isHead, gs, items[..i]);
      TracksSingle(clusters, gs, items[i], i);
    } else {
      var k := matched.value;
      assert TracksOne(clusters[k], gs[k]) && Sound(gs[k], items[..i]);
      ItemPost(posts[..], gs[k].head);
      next := JoinCluster(p, mark, i, k, posts[clusters[k].head].score, clusters, clusterOf, isHead, gs, items[..i]);
      TracksJoin(clusters, gs, items[i], i, k);
    }
  }

  lemma TracksSingle(clusters: seq<Cluster>, gs: seq<Group>, p: Item, i: nat)
    requires Tracks(clusters, gs) && SortedMarks(clusters) && SortedMark(p.mark)
    ensures var next := clusters + [Cluster(i, p.mark, [MemberFrom(p.post)])];
            Tracks(next, gs + [Single(p, i)]) && SortedMarks(next)
  {
  }

  lemma TracksJoin(clusters: seq<Cluster>, gs: seq<Group>, p: Item, i: nat, k: nat)
    requires Tracks(clusters, gs) && SortedMarks(clusters) && SortedMark(p.mark) && k < |gs|
    ensures var c, better := clusters[k], ScoreGT(p.post.score, gs[k].top.post.score);
            var next := clusters[k := Cluster(if better then i else c.head, if better then p.mark else c.mark,
                                              c.members + [MemberFrom(p.post)])];
            Tracks(next, gs[k := Join(gs[k], p, i)]) && SortedMarks(next)
  {
    assert TracksOne(clusters[k], gs[k]);
  }

  // one turn of the compaction loop for a head
  method EmitCard(posts: array<Post>, i: nat, n: nat, members: seq<Member>)
    requires n <= i < posts.Length
    modifies posts
    ensures var card := old(posts[i]).(repostCount := |members|, repostMembers := members);
            && posts[..n + 1] == old(posts[..n]) + [card]
            && (n < i ==> posts[i] == card)
    ensures forall k :: n < k < posts.Length && k != i ==> posts[k] == old(posts[k])
  {
    posts[i] := posts[i].(repostCount := |members|, repostMembers := members);
    posts[n] := posts[i];
  }

  // the compaction loop
  method Compact(posts: array<Post>, clusters: seq<Cluster>, clusterOf: array<nat>, isHead: array<bool>, ghost gs: seq<Group>,
                 ghost items: seq<Item>)
      returns (n: nat)
    requires |items| == clusterOf.Length == isHead.Length == posts.Length
    requires Tracks(clusters, gs) && Partition(gs, items) && Marks(clusterOf[..], isHead[..], gs, posts.Length)
    modifies posts
    ensures n <= posts.Length && posts[..n] == Emitted(old(posts[..]), gs, posts.Length)
    ensures forall k :: n <= k < posts.Length ==> posts[k] == Annotated(old(posts[k]), gs, k)
  {
    ghost var page := posts[..];
    n := 0;
    for i := 0 to posts.Length
      invariant n <= i && posts[..n] == Emitted(page, gs, i)
      invariant forall k :: n <= k < i ==> posts[k] == Annotated(page[k], gs, k)
      invariant forall k :: i <= k < posts.Length ==> posts[k] == page[k]
    {
      HeadFound(clusterOf[..], isHead[..], gs, items, i);
      if !isHead[i] {
        continue;
      }
      assert TracksOne(clusters[clusterOf[i]], gs[clusterOf[i]]);
      EmitCard(posts, i, n, clusters[clusterOf[i]].members);
      n := n + 1;
    }
  }

  // the clustering loop
  method ClusterPosts(posts: array<Post>, ghost items: seq<Item>)
      returns (clusters: seq<Cluster>, clusterOf: array<nat>, isHead: array<bool>)
    requires items == Items(posts[..])
    ensures fresh(clusterOf) && fresh(isHead) && clusterOf.Length == isHead.Length == posts.Length
    ensures Tracks(clusters, Groups(items)) && Marks(clusterOf[..], isHead[..], Groups(items), posts.Length)
  {
    clusters := [];
    clusterOf := new nat[posts.Length](_ => 0);
    isHead := new bool[posts.Length](_ => false);
    for i := 0 to posts.Length
      invariant Tracks(clusters, Groups(items[..i])) && SortedMarks(clusters)
      invariant Marks(clusterOf[..], isHead[..], Groups(items[..i]), i)
    {
      clusters := PlacePost(posts, i, clusters, clusterOf, isHead, items);
    }
    assert items[..posts.Length] == items;
  }

  /** Folds the listing in place: the first n places are the cards. */
  method FoldReposts(posts: array<Post>) returns (n: nat)
    modifies posts
    ensures n <= posts.Length && posts[..n] == Survivors(old(posts[..]))
    ensures forall k :: n <= k < posts.Length ==> posts[k] == Annotated(old(posts[k]), Groups(Items(old(posts[..]))), k)
  {
    if posts.Length <= 1 {
      if posts.Length == 1 {
        LonePost(posts[0]);
        assert posts[..] == [posts[0]];
        posts[0] := posts[0].(repostCount := 1, repostMembers := [MemberFrom(posts[0])]);
      }
      return posts.Length;
    }
    ghost var items := Items(posts[..]);
    GroupsPartition(items);
    var clusters, clusterOf, isHead := ClusterPosts(posts, items);
    n := Compact(posts, clusters, clusterOf, isHead, Groups(items), items);
  }

  lemma {:induction false} LonePost(p: Post)
    ensures Survivors([p]) == [p.(repostCount := 1, repostMembers := [MemberFrom(p)])]
  {
    assert Items([p]) == [ItemOf(p)];
    OneGroup(ItemOf(p));
    var g := Single(ItemOf(p), 0);
    assert GroupAt([g], 0) == Some(g);
    assert Emitted([p], [g], 0) == [];
  }

  // ----- Which cluster a post joins

  /** The post of the item is a post of the listing, with its own fingerprint. */
  ghost predicate Marked(p: Item) {
    p == ItemOf(p.post)
  }

  ghost predicate TopsMarked(gs: seq<Group>) {
    forall c :: 0 <= c < |gs| ==> Marked(gs[c].top)
  }

  lemma {:induction false} GroupsMarked(page: seq<Post>)
    ensures TopsMarked(Groups(Items(page)))
  {
    if page != [] {
      var init, p := page[..|page| - 1], page[|page| - 1];
      GroupsMarked(init);
      GroupsMore(Items(init), ItemOf(p));
      PlacedMarked(Groups(Items(init)), ItemOf(p), |init|);
    }
  }

  lemma {:induction false} PlacedMarked(gs: seq<Group>, p: Item, i: nat)
    requires TopsMarked(gs) && Marked(p)
    ensures TopsMarked(Placed(gs, p, i))
  {
  }

  lemma JoinsIff(p: Item, g: Group)
    requires Marked(p) && Marked(g.top)
    ensures Joins(p, g) <==> Resembles(p.post, g.top.post)
  {
    ResemblesIff(p.post, g.top.post);
  }

  /** The cluster is the first whose head the post resembles. */
  ghost predicate FirstAlike(gs: seq<Group>, p: Post, c: nat) {
    c < |gs| && Resembles(p, gs[c].top.post) && forall d :: 0 <= d < c ==> !Resembles(p, gs[d].top.post)
  }

  ghost predicate NoneAlikeIn(gs: seq<Group>, p: Post) {
    forall c :: 0 <= c < |gs| ==> !Resembles(p, gs[c].top.post)
  }

  lemma {:induction false} FirstMatchAlike(gs: seq<Group>, p: Post)
    requires TopsMarked(gs)
    ensures var k := FirstMatch(gs, ItemOf(p)); if k < |gs| then FirstAlike(gs, p, k) else NoneAlikeIn(gs, p)
  {
    FirstMatchIs(gs, ItemOf(p));
    forall c | 0 <= c < |gs| ensures Joins(ItemOf(p), gs[c]) <==> Resembles(p, gs[c].top.post) {
      JoinsIff(ItemOf(p), gs[c]);
    }
  }

  lemma {:induction false} ItemsMore(page: seq<Post>, p: Post)
    ensures Items(page + [p]) == Items(page) + [ItemOf(p)]
  {
    assert (page + [p])[..|page|] == page;
  }

  ghost predicate JoinedAt(gs: seq<Group>, after: seq<Group>, c: nat, i: nat) {
    c < |gs| == |after| && after == gs[c := after[c]] && after[c].places == gs[c].places + [i]
  }

  ghost predicate StartedBy(gs: seq<Group>, after: seq<Group>, p: Post, i: nat) {
    |after| == |gs| + 1 && after[..|gs|] == gs && after[|gs|].places == [i] && after[|gs|].top.post == p
  }

  lemma {:induction false} PlacedFirst(gs: seq<Group>, p: Post, i: nat)
    requires TopsMarked(gs)
    ensures NoneAlikeIn(gs, p) ==> StartedBy(gs, Placed(gs, ItemOf(p), i), p, i)
    ensures !NoneAlikeIn(gs, p) ==>
              exists c: nat :: FirstAlike(gs, p, c) && JoinedAt(gs, Placed(gs, ItemOf(p), i), c, i)
  {
    var k, after := FirstMatch(gs, ItemOf(p)), Placed(gs, ItemOf(p), i);
    FirstMatchAlike(gs, p);
    if k < |gs| {
      assert JoinedAt(gs, after, k, i);
    } else {
      assert after[..|gs|] == gs;
    }
  }

  /** A post that comes next joins the first cluster whose head it resembles, or starts one, and leaves the others alone. */
  lemma {:induction false} NextJoinsFirst(page: seq<Post>, p: Post)
    ensures var gs, after := Groups(Items(page)), Groups(Items(page + [p]));
            if NoneAlikeIn(gs, p) then StartedBy(gs, after, p, |page|)
            else exists c: nat :: FirstAlike(gs, p, c) && JoinedAt(gs, after, c, |page|)
  {
    ItemsMore(page, p);
    GroupsMore(Items(page), ItemOf(p));
    GroupsMarked(page);
    PlacedFirst(Groups(Items(page)), p, |page|);
  }

  // ----- Listings with nothing to fold

  ghost predicate AllSingle(page: seq<Post>, gs: seq<Group>) {
    |gs| == |page| && forall i: nat :: i < |gs| ==> gs[i] == Single(ItemOf(page[i]), i)
  }

  ghost predicate NoneAlike(page: seq<Post>) {
    forall i, j :: 0 <= i < j < |page| ==> !Resembles(page[j], page[i])
  }

  lemma {:induction false} NoneAlikeSingle(page: seq<Post>)
    requires NoneAlike(page)
    ensures AllSingle(page, Groups(Items(page)))
  {
    if page != [] {
      var init, p := page[..|page| - 1], page[|page| - 1];
      NoneAlikeSingle(init);
      var gs := Groups(Items(init));
      GroupsMore(Items(init), ItemOf(p));
      FirstMatchIs(gs, ItemOf(p));
      forall c | 0 <= c < |gs| ensures !Joins(ItemOf(p), gs[c]) {
        JoinsIff(ItemOf(p), gs[c]);
        assert !Resembles(page[|page| - 1], page[c]);
      }
      assert FirstMatch(gs, ItemOf(p)) == |gs|;
    }
  }

  ghost predicate HeadsInPlace(gs: seq<Group>) {
    forall i: nat :: i < |gs| ==> gs[i].head == i
  }

  lemma {:induction false} HeadInPlace(gs: seq<Group>, i: nat)
    requires HeadsInPlace(gs) && i < |gs|
    ensures GroupAt(gs, i) == Some(gs[i])
  {
    if i < |gs| - 1 {
      HeadInPlace(gs[..|gs| - 1], i);
    }
  }

  /** The post as a card of its own. */
  ghost function OwnCard(p: Post): Post {
    p.(repostCount := 1, repostMembers := [MemberFrom(p)])
  }

  ghost predicate OwnCards(page: seq<Post>, cards: seq<Post>) {
    |cards| <= |page| && forall i: nat :: i < |cards| ==> cards[i] == OwnCard(page[i])
  }

  lemma {:induction false} SingleCard(page: seq<Post>, gs: seq<Group>, i: nat)
    requires AllSingle(page, gs) && i < |gs|
    ensures CardAlone(page, gs, i)
  {
    HeadInPlace(gs, i);
  }

  lemma {:induction false} OwnCardsMore(page: seq<Post>, cards: seq<Post>)
    requires OwnCards(page, cards) && |cards| < |page|
    ensures OwnCards(page, cards + [OwnCard(page[|cards|])])
  {
  }

  ghost predicate CardAlone(page: seq<Post>, gs: seq<Group>, i: nat)
    requires i < |page|
  {
    GroupAt(gs, i).Some? && Annotated(page[i], gs, i) == OwnCard(page[i])
  }

  lemma {:induction false} AloneEmitted(page: seq<Post>, gs: seq<Group>, n: nat)
    requires n <= |page| && forall i: nat :: i < n ==> CardAlone(page, gs, i)
    ensures |Emitted(page, gs, n)| == n && OwnCards(page, Emitted(page, gs, n))
  {
    if n > 0 {
      AloneEmitted(page, gs, n - 1);
      assert CardAlone(page, gs, n - 1);
      OwnCardsMore(page, Emitted(page, gs, n - 1));
    }
  }

  /** Where no post resembles an earlier one, each keeps a card of its own. */
  lemma {:induction false} NothingToFold(page: seq<Post>)
    requires NoneAlike(page)
    ensures |Survivors(page)| == |page| && OwnCards(page, Survivors(page))
  {
    NoneAlikeSingle(page);
    var gs := Groups(Items(page));
    forall i: nat | i < |page| ensures CardAlone(page, gs, i) {
      SingleCard(page, gs, i);
    }
    AloneEmitted(page, gs, |page|);
  }

  /** Whatever their titles: anonymous posts with different media are never folded. */
  lemma {:induction false} MediaKeepsApart(page: seq<Post>)
    requires forall i :: 0 <= i < |page| ==> page[i].author == ""
    requires forall i, j :: 0 <= i < j < |page| ==> page[i].mediaKey != page[j].mediaKey
    ensures |Survivors(page)| == |page| && OwnCards(page, Survivors(page))
  {
    forall i, j | 0 <= i < j < |page| ensures !Resembles(page[j], page[i]) {
      AnonymousNeedMedia(page[j], page[i]);
    }
    NothingToFold(page);
  }

  /** Two posts become one card, the better scored one's, exactly when they resemble each other. */
  lemma {:induction false} PairFoldsIff(p: Post, q: Post)
    ensures var rows := [MemberFrom(p), MemberFrom(q)];
            Survivors([p, q]) ==
              if !Resembles(q, p) then [OwnCard(p), OwnCard(q)]
              else [(if ScoreGT(q.score, p.score) then q else p).(repostCount := 2, repostMembers := rows)]
  {
    if Resembles(q, p) {
      JoinsIff(ItemOf(q), Single(ItemOf(p), 0));
      ItemsOfTwo(p, q);
      if ScoreGT(q.score, p.score) {
        BetterTakesCard(ItemOf(p), ItemOf(q));
      } else {
        OtherLeavesCard(ItemOf(p), ItemOf(q));
      }
    } else {
      assert NoneAlike([p, q]);
      NothingToFold([p, q]);
    }
  }

  lemma {:induction false} OtherLeavesCard(p: Item, q: Item)
    requires Joins(q, Single(p, 0)) && !ScoreGT(q.post.score, p.post.score)
    ensures Emitted([p.post, q.post], Groups([p, q]), 2)
            == [p.post.(repostCount := 2, repostMembers := [MemberFrom(p.post), MemberFrom(q.post)])]
  {
    TwoItems(p, q);
    var g, page := Join(Single(p, 0), q, 1), [p.post, q.post];
    assert g.head == 0 && g.rows == [MemberFrom(p.post), MemberFrom(q.post)];
    assert [g][..0] == [];
    assert GroupAt([], 1) == None;
    assert GroupAt([g], 0) == Some(g) && GroupAt([g], 1) == None;
    assert Emitted(page, [g], 0) == [];
  }
}
