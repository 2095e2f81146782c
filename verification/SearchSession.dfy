/**
  Cross-page dedup of a search session. The seen map holds one entry per distinct card
  shown, stamped with the page (cursor) that showed it; hashes of entries are modelled
  by what they hash.
 */
module SearchSession {
  import opened TitleTokens
  import opened Posts

  datatype Key = Key(tokens: seq<string>, mediaKey: string)
  datatype SeenEntry = SeenEntry(cursor: string, mark: Fingerprint)
  type Seen = map<Key, SeenEntry>

  class SeenTitles {
    var entries: Seen

    constructor ()
      ensures entries == map[]
    {
      entries := map[];
    }
  }

  function KeyOf(mark: Fingerprint): Key {
    Key(mark.tokens, mark.mediaKey)
  }

  // ----- What one visit does

  ghost function Without(seen: Seen, cursor: string): Seen {
    map k | k in seen && seen[k].cursor != cursor :: seen[k]
  }

  ghost predicate Collides(mark: Fingerprint, seen: Seen) {
    exists k :: k in seen && Similar(mark, seen[k].mark)
  }

  ghost predicate Shows(p: Post, seen: Seen) {
    MarkOf(p).None? || !Collides(MarkOf(p).value, seen)
  }

  /** The seen map after the posts of a page, from the map without the page's own old entries. */
  ghost function Entered(posts: seq<Post>, base: Seen, cursor: string): Seen {
    if posts == [] then base else
    var seen, p := Entered(posts[..|posts| - 1], base, cursor), posts[|posts| - 1];
    if MarkOf(p).Some? && Shows(p, seen)
    then seen[KeyOf(MarkOf(p).value) := SeenEntry(cursor, MarkOf(p).value)] else seen
  }

  /** The posts shown, in listing order. */
  ghost function Shown(posts: seq<Post>, base: Seen, cursor: string): seq<Post> {
    if posts == [] then [] else
    var init, p := posts[..|posts| - 1], posts[|posts| - 1];
    Shown(init, base, cursor) + if Shows(p, Entered(init, base, cursor)) then [p] else []
  }

  // ----- The program

  method MatchesSeen(mark: Fingerprint, seen: Seen) returns (found: bool)
    requires StrictlySorted(mark.tokens) && SortedEntries(seen)
    ensures found == Collides(mark, seen)
  {
    var keys := seen.Keys;
    while keys != {}
      invariant keys <= seen.Keys
      invariant forall k :: k in seen && k !in keys ==> !Similar(mark, seen[k].mark)
      decreases |keys|
    {
      var k :| k in keys;
      var same := TestSimilar(mark, seen[k].mark);
      if same {
        return true;
      }
      keys := keys - {k};
    }
    return false;
  }

  ghost predicate SortedEntries(seen: Seen) {
    forall k :: k in seen ==> StrictlySorted(seen[k].mark.tokens)
  }

  method DropCursor(seen: SeenTitles, cursor: string)
    modifies seen
    ensures seen.entries == Without(old(seen.entries), cursor)
  {
    var keys := seen.entries.Keys;
    ghost var before := seen.entries;
    while keys != {}
      invariant keys <= seen.entries.Keys <= before.Keys
      invariant forall k :: k in seen.entries ==> seen.entries[k] == before[k]
      invariant forall k :: k in before && k !in keys ==> (k in seen.entries <==> before[k].cursor != cursor)
      decreases |keys|
    {
      var k :| k in keys;
      if seen.entries[k].cursor == cursor {
        seen.entries := seen.entries - {k};
      }
      keys := keys - {k};
    }
  }

  /** The page is compacted in place: its first n places are the shown posts, the rest is as before. */
  method ApplySessionDedup(posts: array<Post>, seen: SeenTitles?, cursor: string) returns (n: nat)
    requires seen != null ==> SortedEntries(seen.entries)
    modifies posts, seen
    ensures n <= posts.Length && posts[n..] == old(posts[n..])
    ensures seen == null || posts.Length == 0 ==> n == posts.Length
    ensures seen != null && posts.Length == 0 ==> seen.entries == old(seen.entries)
    ensures seen != null && posts.Length > 0 ==>
              var base := Without(old(seen.entries), cursor);
              && posts[..n] == Shown(old(posts[..]), base, cursor)
              && seen.entries == Entered(old(posts[..]), base, cursor)
              && SortedEntries(seen.entries)
  {
    if posts.Length == 0 || seen == null {
      return posts.Length;
    }
    ghost var page := posts[..];
    DropCursor(seen, cursor);
    ghost var base := seen.entries;
    n := 0;
    for i := 0 to posts.Length
      invariant n <= i && forall k :: n <= k < posts.Length ==> posts[k] == page[k]
      invariant posts[..n] == Shown(page[..i], base, cursor)
      invariant seen.entries == Entered(page[..i], base, cursor) && SortedEntries(seen.entries)
    {
      VisitStep(page, i, base, cursor);
      var p := posts[i];
      var shows := Consider(p, seen, cursor);
      if shows {
        Keep(posts, n, p);
        n := n + 1;
      }
    }
    assert page[..posts.Length] == page;
  }

  method Keep(posts: array<Post>, n: nat, p: Post)
    requires n < posts.Length
    modifies posts
    ensures posts[..n + 1] == old(posts[..n]) + [p]
    ensures forall k :: n < k < posts.Length ==> posts[k] == old(posts[k])
  {
    posts[n] := p;
  }

  lemma VisitStep(page: seq<Post>, i: nat, base: Seen, cursor: string)
    requires i < |page|
    ensures var seen, p := Entered(page[..i], base, cursor), page[i];
            && Shown(page[..i + 1], base, cursor) == Shown(page[..i], base, cursor) + (if Shows(p, seen) then [p] else [])
            && Entered(page[..i + 1], base, cursor)
               == if MarkOf(p).Some? && Shows(p, seen)
                  then seen[KeyOf(MarkOf(p).value) := SeenEntry(cursor, MarkOf(p).value)] else seen
  {
    assert page[..i + 1][..i] == page[..i];
  }

  // the body of the loop of applySessionDedup
  method Consider(p: Post, seen: SeenTitles, cursor: string) returns (shows: bool)
    requires SortedEntries(seen.entries)
    modifies seen
    ensures shows == Shows(p, old(seen.entries)) && SortedEntries(seen.entries)
    ensures seen.entries == if MarkOf(p).Some? && shows
                            then old(seen.entries)[KeyOf(MarkOf(p).value) := SeenEntry(cursor, MarkOf(p).value)]
                            else old(seen.entries)
  {
    var read := ReadMark(p);
    if read.None? {
      return true;
    }
    var mark := read.value;
    var found := MatchesSeen(mark, seen.entries);
    if found {
      return false;
    }
    seen.entries := seen.entries[KeyOf(mark) := SeenEntry(cursor, mark)];
    return true;
  }

  // ----- One visit

  /** Keys belong to their entries, and entries come from tokenised posts. */
  ghost predicate Keyed(seen: Seen) {
    forall k :: k in seen ==> k == KeyOf(seen[k].mark) && k.tokens != []
  }

  ghost predicate Within(part: Seen, seen: Seen) {
    forall k :: k in part ==> k in seen && seen[k] == part[k]
  }

  /** A mark whose key is taken resembles the entry there. */
  lemma {:induction false} TakenCollides(mark: Fingerprint, seen: Seen)
    requires Keyed(seen) && mark.tokens != [] && KeyOf(mark) in seen
    ensures Collides(mark, seen)
  {
    SimilarIsReflexive(mark, seen[KeyOf(mark)].mark);
  }

  /** A visit only adds entries, all under its own stamp and unlike the entries before it. */
  lemma {:induction false} EnteredGrows(posts: seq<Post>, base: Seen, cursor: string)
    requires Keyed(base)
    ensures var seen := Entered(posts, base, cursor);
            && Keyed(seen) && Within(base, seen)
            && forall k, j :: k in seen && k !in base && j in base ==>
                 seen[k].cursor == cursor && !Similar(seen[k].mark, base[j].mark)
    ensures var seen := Entered(posts, base, cursor);
            forall k :: k in seen && k !in base ==> seen[k].cursor == cursor
  {
    if posts != [] {
      var init, p := posts[..|posts| - 1], posts[|posts| - 1];
      EnteredGrows(init, base, cursor);
      var seen := Entered(init, base, cursor);
      if MarkOf(p).Some? && Shows(p, seen) {
        var mark := MarkOf(p).value;
        MarkTokens(p);
        if KeyOf(mark) in seen {
          TakenCollides(mark, seen);
        }
        forall j | j in base ensures !Similar(mark, base[j].mark) {
          assert j in seen && seen[j] == base[j];
        }
      }
    }
  }

  /** The j-th post of the page is shown, and leaves an entry. */
  ghost predicate EntersAt(posts: seq<Post>, base: Seen, cursor: string, j: nat)
    requires j < |posts|
  {
    MarkOf(posts[j]).Some? && Shows(posts[j], Entered(posts[..j], base, cursor))
  }

  /** It does so, and what it shows resembles the mark. */
  ghost predicate Foreshadows(posts: seq<Post>, base: Seen, cursor: string, j: nat, mark: Fingerprint)
    requires j < |posts|
  {
    EntersAt(posts, base, cursor, j) && Similar(mark, MarkOf(posts[j]).value)
  }

  lemma {:induction false} CollidesStep(posts: seq<Post>, base: Seen, cursor: string, i: nat, mark: Fingerprint)
    requires Keyed(base) && i < |posts|
    ensures Collides(mark, Entered(posts[..i + 1], base, cursor))
       <==> Collides(mark, Entered(posts[..i], base, cursor)) || Foreshadows(posts, base, cursor, i, mark)
  {
    var seen := Entered(posts[..i], base, cursor);
    VisitStep(posts, i, base, cursor);
    EnteredGrows(posts[..i], base, cursor);
    if EntersAt(posts, base, cursor, i) {
      MarkTokens(posts[i]);
      var key := KeyOf(MarkOf(posts[i]).value);
      if key in seen {
        TakenCollides(MarkOf(posts[i]).value, seen);
      }
      CollidesPut(mark, seen, key, SeenEntry(cursor, MarkOf(posts[i]).value));
    }
  }

  lemma CollidesPut(mark: Fingerprint, seen: Seen, key: Key, entry: SeenEntry)
    requires key !in seen
    ensures Collides(mark, seen[key := entry]) <==> Collides(mark, seen) || Similar(mark, entry.mark)
  {
    var after := seen[key := entry];
    if Collides(mark, seen) {
      var k :| k in seen && Similar(mark, seen[k].mark);
      assert k in after && after[k] == seen[k];
    }
    if Similar(mark, entry.mark) {
      assert key in after && after[key] == entry;
    }
  }

  ghost predicate ForeshadowedBy(posts: seq<Post>, base: Seen, cursor: string, i: nat, mark: Fingerprint)
    requires i <= |posts|
  {
    exists j: nat :: j < i && Foreshadows(posts, base, cursor, j, mark)
  }

  lemma ForeshadowedStep(posts: seq<Post>, base: Seen, cursor: string, i: nat, mark: Fingerprint)
    requires i < |posts|
    ensures ForeshadowedBy(posts, base, cursor, i + 1, mark)
       <==> ForeshadowedBy(posts, base, cursor, i, mark) || Foreshadows(posts, base, cursor, i, mark)
  {
  }

  lemma {:induction false} CollidesIff(posts: seq<Post>, base: Seen, cursor: string, i: nat, mark: Fingerprint)
    requires Keyed(base) && i <= |posts|
    ensures Collides(mark, Entered(posts[..i], base, cursor))
       <==> Collides(mark, base) || ForeshadowedBy(posts, base, cursor, i, mark)
  {
    if i == 0 {
      assert posts[..i] == [];
      assert Entered(posts[..i], base, cursor) == base;
    } else {
      var h := i - 1;
      CollidesIff(posts, base, cursor, h, mark);
      CollidesStep(posts, base, cursor, h, mark);
      ForeshadowedStep(posts, base, cursor, h, mark);
    }
  }

  /**
    A post of a page is left out exactly when it resembles an entry that another cursor
    left, or a post shown earlier in the same visit.
   */
  lemma HiddenIff(posts: seq<Post>, seen: Seen, cursor: string, i: nat)
    requires Keyed(seen) && i < |posts|
    ensures var base := Without(seen, cursor);
            !Shows(posts[i], Entered(posts[..i], base, cursor))
            <==> MarkOf(posts[i]).Some?
                 && var mark := MarkOf(posts[i]).value;
                    || (exists k :: k in seen && seen[k].cursor != cursor && Similar(mark, seen[k].mark))
                    || ForeshadowedBy(posts, base, cursor, i, mark)
  {
    var base := Without(seen, cursor);
    if MarkOf(posts[i]).Some? {
      var mark := MarkOf(posts[i]).value;
      CollidesIff(posts, base, cursor, i, mark);
      if exists k :: k in seen && seen[k].cursor != cursor && Similar(mark, seen[k].mark) {
        var k :| k in seen && seen[k].cursor != cursor && Similar(mark, seen[k].mark);
        assert k in base && base[k] == seen[k];
      }
    }
  }

  /** Of a post listed twice on the very first page only the first is shown, though no other page was. */
  lemma SecondCopyIsHidden(p: Post, cursor: string)
    requires MarkOf(p).Some?
    ensures Shown([p, p], map[], cursor) == [p]
  {
    var posts, base: Seen := [p, p], map[];
    var mark := MarkOf(p).value;
    assert posts[..0] == [] && posts[..1] == [p] && posts[..2] == posts && Without(base, cursor) == base;
    MarkTokens(p);
    SimilarIsReflexive(mark, mark);
    VisitStep(posts, 0, base, cursor);
    VisitStep(posts, 1, base, cursor);
    assert Foreshadows(posts, base, cursor, 0, mark);
    HiddenIff(posts, base, cursor, 1);
  }

  /** No two entries resemble each other. */
  ghost predicate Apart(seen: Seen) {
    forall j, k :: j in seen && k in seen && j != k ==> !Similar(seen[j].mark, seen[k].mark)
  }

  lemma {:induction false} EnteredApart(posts: seq<Post>, base: Seen, cursor: string)
    requires Keyed(base) && Apart(base)
    ensures Apart(Entered(posts, base, cursor))
  {
    if posts != [] {
      var init, p := posts[..|posts| - 1], posts[|posts| - 1];
      EnteredApart(init, base, cursor);
      var seen := Entered(init, base, cursor);
      if MarkOf(p).Some? && Shows(p, seen) {
        forall k | k in seen ensures !Similar(seen[k].mark, MarkOf(p).value) {
          SimilarIsSymmetric(seen[k].mark, MarkOf(p).value);
        }
      }
    }
  }

  /** Every shown post with tokens has its own entry. */
  lemma {:induction false} ShownEntered(posts: seq<Post>, base: Seen, cursor: string, p: Post)
    requires Keyed(base) && p in Shown(posts, base, cursor) && MarkOf(p).Some?
    ensures var seen, mark := Entered(posts, base, cursor), MarkOf(p).value;
            KeyOf(mark) in seen && seen[KeyOf(mark)] == SeenEntry(cursor, mark)
  {
    var init, last := posts[..|posts| - 1], posts[|posts| - 1];
    var seen := Entered(init, base, cursor);
    EnteredGrows(init, base, cursor);
    if p in Shown(init, base, cursor) {
      ShownEntered(init, base, cursor, p);
      if MarkOf(last).Some? && Shows(last, seen) {
        MarkTokens(last);
        if KeyOf(MarkOf(last).value) in seen {
          TakenCollides(MarkOf(last).value, seen);
        }
      }
    }
  }

  /** Entries unlike all that a visit ends with do not change what it shows. */
  lemma {:induction false} EnteredBeside(posts: seq<Post>, base: Seen, more: Seen, cursor: string)
    requires Keyed(base) && Keyed(more) && Beside(Entered(posts, base, cursor), more)
    ensures Entered(posts, base + more, cursor) == Entered(posts, base, cursor) + more
    ensures Shown(posts, base + more, cursor) == Shown(posts, base, cursor)
  {
    if posts != [] {
      var init, p := posts[..|posts| - 1], posts[|posts| - 1];
      var seen := Entered(init, base, cursor);
      EnteredGrows(init, base, cursor);
      assert Within(seen, Entered(posts, base, cursor)) by {
        EnteredStep(posts, base, cursor);
      }
      BesidePart(seen, Entered(posts, base, cursor), more);
      EnteredBeside(init, base, more, cursor);
      assert Entered(init, base + more, cursor) == seen + more;
      if MarkOf(p).Some? {
        MarkTokens(p);
        ConsiderBeside(p, seen, more, Entered(posts, base, cursor), cursor);
      }
    }
  }

  /** The two maps share no key, and nothing in one resembles anything in the other. */
  ghost predicate Beside(seen: Seen, more: Seen) {
    forall j, k :: j in seen && k in more ==> j != k && !Similar(seen[j].mark, more[k].mark)
  }

  lemma BesidePart(part: Seen, seen: Seen, more: Seen)
    requires Within(part, seen) && Beside(seen, more)
    ensures Beside(part, more)
  {
  }

  lemma {:induction false} EnteredStep(posts: seq<Post>, base: Seen, cursor: string)
    requires Keyed(base) && posts != []
    ensures Within(Entered(posts[..|posts| - 1], base, cursor), Entered(posts, base, cursor))
  {
    var init, p := posts[..|posts| - 1], posts[|posts| - 1];
    var seen := Entered(init, base, cursor);
    EnteredGrows(init, base, cursor);
    if MarkOf(p).Some? && Shows(p, seen) {
      MarkTokens(p);
      if KeyOf(MarkOf(p).value) in seen {
        TakenCollides(MarkOf(p).value, seen);
      }
    }
  }

  lemma {:induction false} ConsiderBeside(p: Post, seen: Seen, more: Seen, after: Seen, cursor: string)
    requires MarkOf(p).Some? && Beside(after, more)
    requires var mark := MarkOf(p).value;
             after == if Shows(p, seen) then seen[KeyOf(mark) := SeenEntry(cursor, mark)] else seen
    ensures Shows(p, seen + more) == Shows(p, seen)
    ensures var mark := MarkOf(p).value;
            Shows(p, seen) ==> (seen + more)[KeyOf(mark) := SeenEntry(cursor, mark)] == after + more
  {
    var mark := MarkOf(p).value;
    if Collides(mark, seen) {
      CollidesMore(mark, seen, more);
    } else {
      assert KeyOf(mark) in after && after[KeyOf(mark)].mark == mark;
      NoneBeside(mark, seen, more);
      PutBeside(seen, more, KeyOf(mark), SeenEntry(cursor, mark));
    }
  }

  lemma {:induction false} CollidesMore(mark: Fingerprint, seen: Seen, more: Seen)
    requires Collides(mark, seen) && Beside(seen, more)
    ensures Collides(mark, seen + more)
  {
    var k :| k in seen && Similar(mark, seen[k].mark);
    assert k in seen + more && (seen + more)[k] == seen[k];
  }

  lemma {:induction false} NoneBeside(mark: Fingerprint, seen: Seen, more: Seen)
    requires !Collides(mark, seen) && forall k :: k in more ==> !Similar(mark, more[k].mark)
    ensures !Collides(mark, seen + more)
  {
  }

  lemma PutBeside(seen: Seen, more: Seen, key: Key, entry: SeenEntry)
    requires key !in more
    ensures (seen + more)[key := entry] == seen[key := entry] + more
  {
  }

  // ----- Every session

  /** What each cursor's page holds does not change during the session. */
  type Pages = string -> seq<Post>

  ghost function After(pages: Pages, visits: seq<string>): Seen {
    if visits == [] then map[] else
    var seen, c := After(pages, visits[..|visits| - 1]), visits[|visits| - 1];
    SeenAfter(pages, seen, c)
  }

  ghost function SeenAfter(pages: Pages, seen: Seen, cursor: string): Seen {
    if pages(cursor) == [] then seen else Entered(pages(cursor), Without(seen, cursor), cursor)
  }

  ghost function ShownAt(pages: Pages, seen: Seen, cursor: string): seq<Post> {
    Shown(pages(cursor), Without(seen, cursor), cursor)
  }

  /** The list of the first visit to the cursor. */
  ghost function FirstShown(pages: Pages, visits: seq<string>, cursor: string): seq<Post>
    requires cursor in visits
  {
    var init := visits[..|visits| - 1];
    if cursor in init then FirstShown(pages, init, cursor) else
    ShownAt(pages, After(pages, init), cursor)
  }

  /** Visiting the cursor again shows this list and leaves the map as it is. */
  ghost predicate Settled(pages: Pages, seen: Seen, cursor: string, shown: seq<Post>) {
    SeenAfter(pages, seen, cursor) == seen && ShownAt(pages, seen, cursor) == shown
  }

  ghost predicate StampedBy(seen: Seen, visits: seq<string>) {
    forall k :: k in seen ==> seen[k].cursor in visits
  }

  /** The invariant of a session. */
  ghost predicate Session(pages: Pages, visits: seq<string>, seen: Seen) {
    && Keyed(seen) && Apart(seen) && StampedBy(seen, visits)
    && forall c :: c in visits ==> Settled(pages, seen, c, FirstShown(pages, visits, c))
  }

  lemma {:induction false} WithoutOther(seen: Seen, cursor: string, visits: seq<string>)
    requires StampedBy(seen, visits) && cursor !in visits
    ensures Without(seen, cursor) == seen
  {
  }

  /** The entries a map has beyond a part of it. */
  ghost function Beyond(seen: Seen, part: Seen): Seen {
    map k | k in seen && k !in part :: seen[k]
  }

  /** A new page settles, and leaves every page visited before settled. */
  lemma {:induction false} NewPage(pages: Pages, seen: Seen, visits: seq<string>, cursor: string)
    requires Keyed(seen) && Apart(seen) && StampedBy(seen, visits) && cursor !in visits
    ensures var after := SeenAfter(pages, seen, cursor);
            && Keyed(after) && Apart(after) && StampedBy(after, visits + [cursor])
            && Settled(pages, after, cursor, ShownAt(pages, seen, cursor))
  {
    WithoutOther(seen, cursor, visits);
    if pages(cursor) != [] {
      EnteredGrows(pages(cursor), seen, cursor);
      EnteredApart(pages(cursor), seen, cursor);
      var after := Entered(pages(cursor), seen, cursor);
      assert Without(after, cursor) == seen by {
        OnlyNewStamped(seen, after, cursor, visits);
      }
    }
  }

  lemma {:induction false} OnlyNewStamped(seen: Seen, after: Seen, cursor: string, visits: seq<string>)
    requires StampedBy(seen, visits) && cursor !in visits && Within(seen, after)
    requires forall k :: k in after && k !in seen ==> after[k].cursor == cursor
    ensures Without(after, cursor) == seen
  {
    forall k | k in Without(after, cursor) ensures k in seen {
    }
    forall k | k in seen ensures k in Without(after, cursor) {
      assert seen[k].cursor in visits;
    }
  }

  lemma {:induction false} WithoutBeyond(seen: Seen, after: Seen, earlier: string)
    requires Within(seen, after) && forall k :: k in after && k !in seen ==> after[k].cursor != earlier
    ensures after == seen + Beyond(after, seen)
    ensures Without(after, earlier) == Without(seen, earlier) + Beyond(after, seen)
  {
  }

  lemma KeyedParts(seen: Seen, after: Seen, earlier: string)
    requires Keyed(seen) && Keyed(after)
    ensures Keyed(Without(seen, earlier)) && Keyed(Beyond(after, seen))
  {
  }

  /** A page settled before a new one was visited stays settled. */
  lemma {:induction false} OldPage(pages: Pages, seen: Seen, visits: seq<string>, earlier: string, cursor: string, shown: seq<Post>)
    requires Keyed(seen) && StampedBy(seen, visits) && earlier in visits && cursor !in visits
    requires Settled(pages, seen, earlier, shown)
    ensures Settled(pages, SeenAfter(pages, seen, cursor), earlier, shown)
  {
    WithoutOther(seen, cursor, visits);
    EnteredGrows(pages(cursor), seen, cursor);
    StillSettled(pages, seen, SeenAfter(pages, seen, cursor), earlier, shown);
  }

  lemma {:induction false} StillSettled(pages: Pages, seen: Seen, after: Seen, earlier: string, shown: seq<Post>)
    requires Keyed(seen) && Keyed(after) && Within(seen, after) && Settled(pages, seen, earlier, shown)
    requires forall k :: k in after && k !in seen ==> after[k].cursor != earlier
    requires forall k, j :: k in after && k !in seen && j in seen ==> !Similar(after[k].mark, seen[j].mark)
    ensures Settled(pages, after, earlier, shown)
  {
    WithoutBeyond(seen, after, earlier);
    if pages(earlier) != [] {
      BesideNew(seen, after);
      KeyedParts(seen, after, earlier);
      EnteredBeside(pages(earlier), Without(seen, earlier), Beyond(after, seen), earlier);
    }
  }

  lemma {:induction false} BesideNew(seen: Seen, after: Seen)
    requires forall k, j :: k in after && k !in seen && j in seen ==> !Similar(after[k].mark, seen[j].mark)
    ensures Beside(seen, Beyond(after, seen))
  {
    var more := Beyond(after, seen);
    forall j, k | j in seen && k in more ensures j != k && !Similar(seen[j].mark, more[k].mark) {
      SimilarIsSymmetric(seen[j].mark, more[k].mark);
    }
  }

  lemma FirstShownStep(pages: Pages, visits: seq<string>, c: string, d: string)
    requires d in visits + [c]
    ensures FirstShown(pages, visits + [c], d)
            == if d in visits then FirstShown(pages, visits, d) else ShownAt(pages, After(pages, visits), c)
  {
    assert (visits + [c])[..|visits + [c]| - 1] == visits;
  }

  lemma {:induction false} Revisit(pages: Pages, visits: seq<string>, c: string, seen: Seen)
    requires Session(pages, visits, seen) && c in visits
    ensures Session(pages, visits + [c], SeenAfter(pages, seen, c))
  {
    assert Settled(pages, seen, c, FirstShown(pages, visits, c));
    assert StampedBy(seen, visits + [c]);
    forall d | d in visits + [c] ensures Settled(pages, seen, d, FirstShown(pages, visits + [c], d)) {
      FirstShownStep(pages, visits, c, d);
      assert d in visits;
    }
  }

  lemma {:induction false} FirstVisit(pages: Pages, visits: seq<string>, c: string, seen: Seen)
    requires Session(pages, visits, seen) && c !in visits && seen == After(pages, visits)
    ensures Session(pages, visits + [c], SeenAfter(pages, seen, c))
  {
    NewPage(pages, seen, visits, c);
    var after := SeenAfter(pages, seen, c);
    forall d | d in visits + [c] ensures Settled(pages, after, d, FirstShown(pages, visits + [c], d)) {
      FirstShownStep(pages, visits, c, d);
      if d in visits {
        OldPage(pages, seen, visits, d, c, FirstShown(pages, visits, d));
      }
    }
  }

  lemma {:induction false} SessionHolds(pages: Pages, visits: seq<string>)
    ensures Session(pages, visits, After(pages, visits))
  {
    if visits != [] {
      var init, c := visits[..|visits| - 1], visits[|visits| - 1];
      SessionHolds(pages, init);
      assert visits == init + [c];
      if c in init {
        Revisit(pages, init, c, After(pages, init));
      } else {
        FirstVisit(pages, init, c, After(pages, init));
      }
    }
  }

  /** Revisiting a page shows what its first visit showed and changes nothing. */
  lemma {:induction false} RevisitIsIdentity(pages: Pages, visits: seq<string>, cursor: string)
    requires cursor in visits
    ensures var seen := After(pages, visits);
            && ShownAt(pages, seen, cursor) == FirstShown(pages, visits, cursor)
            && SeenAfter(pages, seen, cursor) == seen
  {
    SessionHolds(pages, visits);
  }

  /** Two places of one list show cards that do not resemble each other. */
  lemma {:induction false} ShownApart(posts: seq<Post>, base: Seen, cursor: string, i: nat, j: nat)
    requires Keyed(base) && i < j < |Shown(posts, base, cursor)|
    requires MarkOf(Shown(posts, base, cursor)[i]).Some? && MarkOf(Shown(posts, base, cursor)[j]).Some?
    ensures var shown := Shown(posts, base, cursor);
            !Similar(MarkOf(shown[j]).value, MarkOf(shown[i]).value)
  {
    var init := posts[..|posts| - 1];
    var shown := Shown(init, base, cursor);
    if j < |shown| {
      ShownApart(init, base, cursor, i, j);
    } else {
      ShownEntered(init, base, cursor, shown[i]);
    }
  }

  /** In one session no two cards shown, at two places of one page or on two pages, resemble each other. */
  lemma {:induction false} NothingShownTwice(pages: Pages, visits: seq<string>, c: string, i: nat, d: string, j: nat)
    requires c in visits && d in visits && (c, i) != (d, j)
    requires i < |FirstShown(pages, visits, c)| && j < |FirstShown(pages, visits, d)|
    requires MarkOf(FirstShown(pages, visits, c)[i]).Some? && MarkOf(FirstShown(pages, visits, d)[j]).Some?
    ensures !Similar(MarkOf(FirstShown(pages, visits, c)[i]).value, MarkOf(FirstShown(pages, visits, d)[j]).value)
  {
    SessionHolds(pages, visits);
    var seen := After(pages, visits);
    var p, q := FirstShown(pages, visits, c)[i], FirstShown(pages, visits, d)[j];
    if c != d {
      TwoPagesApart(pages, seen, c, p, d, q);
    } else if i < j {
      ShownApart(pages(c), Without(seen, c), c, i, j);
      SimilarIsSymmetric(MarkOf(p).value, MarkOf(q).value);
    } else {
      ShownApart(pages(c), Without(seen, c), c, j, i);
    }
  }

  lemma {:induction false} TwoPagesApart(pages: Pages, seen: Seen, c: string, p: Post, d: string, q: Post)
    requires Keyed(seen) && Apart(seen) && SeenAfter(pages, seen, c) == seen && SeenAfter(pages, seen, d) == seen
    requires c != d && p in ShownAt(pages, seen, c) && q in ShownAt(pages, seen, d)
    requires MarkOf(p).Some? && MarkOf(q).Some?
    ensures !Similar(MarkOf(p).value, MarkOf(q).value)
  {
    ShownKept(pages, seen, c, p);
    ShownKept(pages, seen, d, q);
  }

  lemma {:induction false} ShownKept(pages: Pages, seen: Seen, cursor: string, p: Post)
    requires Keyed(seen) && SeenAfter(pages, seen, cursor) == seen
    requires p in ShownAt(pages, seen, cursor) && MarkOf(p).Some?
    ensures var mark := MarkOf(p).value; KeyOf(mark) in seen && seen[KeyOf(mark)] == SeenEntry(cursor, mark)
  {
    ShownEntered(pages(cursor), Without(seen, cursor), cursor, p);
  }

  // ----- What is hidden, of the posts themselves

  ghost predicate IsShown(posts: seq<Post>, base: Seen, cursor: string, i: nat)
    requires i < |posts|
  {
    Shows(posts[i], Entered(posts[..i], base, cursor))
  }

  ghost predicate AllShow(posts: seq<Post>, base: Seen, cursor: string) {
    posts == [] || (
      && AllShow(posts[..|posts| - 1], base, cursor)
      && Shows(posts[|posts| - 1], Entered(posts[..|posts| - 1], base, cursor)))
  }

  lemma {:induction false} AllShown(posts: seq<Post>, base: Seen, cursor: string)
    requires AllShow(posts, base, cursor)
    ensures Shown(posts, base, cursor) == posts
  {
    if posts != [] {
      AllShown(posts[..|posts| - 1], base, cursor);
      Rejoin(posts);
    }
  }

  lemma Rejoin<T>(s: seq<T>)
    requires s != []
    ensures s[..|s| - 1] + [s[|s| - 1]] == s
  {
  }

  lemma {:induction false} EachShows(posts: seq<Post>, base: Seen, cursor: string, n: nat)
    requires n <= |posts| && forall i: nat :: i < |posts| ==> IsShown(posts, base, cursor, i)
    ensures AllShow(posts[..n], base, cursor)
  {
    if n > 0 {
      EachShows(posts, base, cursor, n - 1);
      assert posts[..n][..n - 1] == posts[..n - 1];
      assert IsShown(posts, base, cursor, n - 1);
    }
  }

  /** Without an author, and with other media, nothing is the same content. */
  lemma {:induction false} MediaUnlike(p: Post, entry: Fingerprint)
    requires MarkOf(p).Some? && p.author == "" && p.mediaKey != entry.mediaKey
    ensures !Similar(MarkOf(p).value, entry)
  {
  }

  /**
    Whatever their titles: anonymous posts with different media are all shown, if no entry
    of another page has the media of one.
   */
  lemma {:induction false} MediaIsShown(posts: seq<Post>, seen: Seen, cursor: string)
    requires Keyed(seen)
    requires forall i: nat :: i < |posts| ==> posts[i].author == ""
    requires forall i: nat, j: nat :: i < j < |posts| ==> posts[i].mediaKey != posts[j].mediaKey
    requires forall i: nat, k :: i < |posts| && k in seen && seen[k].cursor != cursor ==> posts[i].mediaKey != seen[k].mark.mediaKey
    ensures Shown(posts, Without(seen, cursor), cursor) == posts
  {
    var base := Without(seen, cursor);
    forall i: nat | i < |posts| ensures IsShown(posts, base, cursor, i) {
      HiddenIff(posts, seen, cursor, i);
      if MarkOf(posts[i]).Some? {
        var mark := MarkOf(posts[i]).value;
        forall k | k in seen && seen[k].cursor != cursor ensures !Similar(mark, seen[k].mark) {
          MediaUnlike(posts[i], seen[k].mark);
        }
        forall j: nat | j < i && MarkOf(posts[j]).Some? ensures !Similar(mark, MarkOf(posts[j]).value) {
          MediaUnlike(posts[i], MarkOf(posts[j]).value);
        }
      }
    }
    EachShows(posts, base, cursor, |posts|);
    assert posts[..|posts|] == posts;
    AllShown(posts, base, cursor);
  }

  lemma {:induction false} FirstIsShown(p: Post, cursor: string)
    ensures Shows(p, map[]) && Entered([], map[], cursor) == map[]
  {
  }

  /** Of two posts on a first page the second is left out exactly when it resembles the first. */
  lemma {:induction false} PairShownIff(p: Post, q: Post, cursor: string)
    ensures Shown([p, q], map[], cursor) == if Resembles(q, p) then [p] else [p, q]
  {
    var posts, base: Seen := [p, q], map[];
    assert posts[..0] == [] && posts[..1] == [p] && posts[..2] == posts && Without(base, cursor) == base;
    FirstIsShown(p, cursor);
    VisitStep(posts, 0, base, cursor);
    VisitStep(posts, 1, base, cursor);
    HiddenIff(posts, base, cursor, 1);
    ResemblesIff(q, p);
    if Resembles(q, p) {
      assert Foreshadows(posts, base, cursor, 0, MarkOf(q).value);
    }
  }
}
