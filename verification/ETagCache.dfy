/** The bounded cache of response bodies: a recency list of entries and an index into it, changed together. */
module ETagCache {
  import opened Common

  /** What an entry holds. */
  datatype Item = Item(path: string, etag: string, body: string)

  // ----- The recency list as a value: most recently used first

  function Without(items: seq<Item>, path: string): seq<Item> {
    if items == [] then [] else
    Without(items[..|items| - 1], path) + if items[|items| - 1].path == path then [] else [items[|items| - 1]]
  }

  function Find(items: seq<Item>, path: string): Option<Item> {
    if items == [] then None
    else if items[|items| - 1].path == path then Some(items[|items| - 1])
    else Find(items[..|items| - 1], path)
  }

  function Cut(items: seq<Item>, max: nat): seq<Item> {
    if |items| > max then items[..max] else items
  }

  function AfterGet(items: seq<Item>, path: string): seq<Item> {
    match Find(items, path)
    case None => items
    case Some(x) => [x] + Without(items, path)
  }

  function AfterSet(items: seq<Item>, x: Item, max: nat): seq<Item> {
    Cut([x] + Without(items, x.path), max)
  }

  // ----- The program

  class Entry {
    const path: string
    var etag: string
    var body: string

    constructor (path: string, etag: string, body: string)
      ensures this.path == path && this.etag == etag && this.body == body
    {
      this.path, this.etag, this.body := path, etag, body;
    }

    ghost function Value(): Item
      reads this
    {
      Item(path, etag, body)
    }
  }

  function RemoveAt<T>(s: seq<T>, k: nat): seq<T>
    requires k < |s|
  {
    s[..k] + s[k + 1..]
  }

  function PlaceOf(ll: seq<Entry>, e: Entry): (k: nat)
    requires e in ll
    ensures k < |ll| && ll[k] == e
  {
    if ll[|ll| - 1] == e then |ll| - 1 else PlaceOf(ll[..|ll| - 1], e)
  }

  ghost predicate PathsDiffer(items: seq<Item>) {
    forall i, j :: 0 <= i < j < |items| ==> items[i].path != items[j].path
  }

  lemma {:induction false} WithoutMissing(items: seq<Item>, path: string)
    requires forall i :: 0 <= i < |items| ==> items[i].path != path
    ensures Without(items, path) == items && Find(items, path) == None
  {
    if items != [] {
      WithoutMissing(items[..|items| - 1], path);
      assert items == items[..|items| - 1] + [items[|items| - 1]];
    }
  }

  /** Taking out a path is removing its one place. */
  lemma {:induction false} WithoutAt(items: seq<Item>, k: nat)
    requires PathsDiffer(items) && k < |items|
    ensures Without(items, items[k].path) == RemoveAt(items, k)
    ensures Find(items, items[k].path) == Some(items[k])
  {
    var n := |items| - 1;
    if k == n {
      WithoutMissing(items[..n], items[k].path);
    } else {
      WithoutAt(items[..n], k);
      assert RemoveAt(items[..n], k) + [items[n]] == RemoveAt(items, k);
    }
  }

  /** The k-th element moved to the front. */
  function Fronted<T>(s: seq<T>, k: nat): seq<T>
    requires k < |s|
  {
    [s[k]] + RemoveAt(s, k)
  }

  /** Where the i-th element of the new list was. */
  function Origin(k: nat, i: nat): nat {
    if i == 0 then k else if i <= k then i - 1 else i
  }

  lemma FrontedAt<T>(s: seq<T>, k: nat, i: nat)
    requires k < |s| && i < |s|
    ensures |Fronted(s, k)| == |s| && Fronted(s, k)[i] == s[Origin(k, i)]
  {
  }

  lemma {:induction false} FrontedDiffers(items: seq<Item>, k: nat)
    requires PathsDiffer(items) && k < |items|
    ensures PathsDiffer(Fronted(items, k))
  {
    var r := Fronted(items, k);
    forall i: nat, j: nat | i < j < |r| ensures r[i].path != r[j].path {
      FrontedAt(items, k, i);
      FrontedAt(items, k, j);
      var a, b := Origin(k, i), Origin(k, j);
      assert a != b;
    }
  }

  lemma FrontedElements<T>(s: seq<T>, k: nat, x: T)
    requires k < |s|
    ensures x in Fronted(s, k) <==> x in s
  {
    assert s == s[..k] + [s[k]] + s[k + 1..];
  }

  class ETagCache {
    const maxSize: nat
    var ll: seq<Entry>
    var items: map<string, Entry>
    ghost var view: seq<Item>

    /** List and index are in bijection, within the bound, and the view is what the list holds. */
    ghost predicate Valid()
      reads this, ll
    {
      && 1 <= maxSize && |ll| <= maxSize && Indexed()
    }

    ghost predicate Indexed()
      reads this, ll
    {
      && |view| == |ll| && PathsDiffer(view)
      && (forall i :: 0 <= i < |ll| ==> ll[i].Value() == view[i])
      && (forall i :: 0 <= i < |ll| ==> ll[i].path in items && items[ll[i].path] == ll[i])
      && forall path :: path in items ==> items[path] in ll && items[path].path == path
    }

    constructor (max: int)
      ensures Valid() && view == [] && maxSize == if max < 1 then 1 else max
    {
      maxSize := if max < 1 then 1 else max;
      ll, items, view := [], map[], [];
    }

    lemma Hit(path: string) returns (k: nat)
      requires Indexed() && path in items
      ensures k < |ll| && ll[k] == items[path] && view[k].path == path
      ensures Find(view, path) == Some(view[k]) && Without(view, path) == RemoveAt(view, k)
    {
      var i :| 0 <= i < |ll| && ll[i] == items[path];
      k := i;
      assert ll[k].Value() == view[k];
      WithoutAt(view, k);
    }

    lemma Miss(path: string)
      requires Indexed() && path !in items
      ensures Find(view, path) == None && Without(view, path) == view
    {
      forall i | 0 <= i < |view| ensures view[i].path != path {
        assert ll[i].Value() == view[i];
      }
      WithoutMissing(view, path);
    }

    lemma FrontedIndexed(k: nat)
      requires Indexed() && k < |ll|
      ensures PathsDiffer(Fronted(view, k)) && |Fronted(ll, k)| == |Fronted(view, k)| == |ll|
      ensures forall i :: 0 <= i < |ll| ==> Fronted(ll, k)[i].Value() == Fronted(view, k)[i]
      ensures forall i :: 0 <= i < |ll| ==> Fronted(ll, k)[i].path in items && items[Fronted(ll, k)[i].path] == Fronted(ll, k)[i]
      ensures forall x :: x in Fronted(ll, k) <==> x in ll
    {
      FrontedDiffers(view, k);
      forall i: nat | i < |ll|
        ensures Fronted(ll, k)[i].Value() == Fronted(view, k)[i]
        ensures Fronted(ll, k)[i].path in items && items[Fronted(ll, k)[i].path] == Fronted(ll, k)[i]
      {
        FrontedAt(view, k, i);
        FrontedAt(ll, k, i);
      }
      forall x ensures x in Fronted(ll, k) <==> x in ll {
        FrontedElements(ll, k, x);
      }
    }

    method MoveToFront(e: Entry)
      requires Indexed() && e.path in items && items[e.path] == e
      modifies this`ll, this`view
      ensures Indexed() && |ll| == old(|ll|) && ll[0] == e
      ensures forall x :: x in ll <==> x in old(ll)
      ensures view == [e.Value()] + Without(old(view), e.path)
    {
      var k := PlaceOf(ll, e);
      assert ll[k].Value() == view[k];
      WithoutAt(view, k);
      FrontedIndexed(k);
      view := Fronted(view, k);
      ll := Fronted(ll, k);
    }

    method Get(path: string) returns (etag: string, body: string, ok: bool)
      requires Valid()
      modifies this`ll, this`view
      ensures Valid() && view == AfterGet(old(view), path)
      ensures ok <==> Find(old(view), path).Some?
      ensures ok ==> Find(old(view), path) == Some(Item(path, etag, body))
    {
      if path !in items {
        Miss(path);
        return "", "", false;
      }
      ghost var k := Hit(path);
      var e := items[path];
      MoveToFront(e);
      return e.etag, e.body, true;
    }

    method Set(path: string, etag: string, body: string)
      requires Valid()
      modifies this, ll
      ensures Valid() && view == AfterSet(old(view), Item(path, etag, body), maxSize)
    {
      if path in items {
        Refresh(items[path], etag, body);
      } else {
        Insert(path, etag, body);
      }
    }

    // the miss branch of Set
    method Insert(path: string, etag: string, body: string)
      requires Valid() && path !in items
      modifies this`ll, this`view, this`items
      ensures Valid() && view == AfterSet(old(view), Item(path, etag, body), maxSize)
    {
      Miss(path);
      PushFront(path, etag, body);
      if |ll| > maxSize {
        DropOldest();
      }
    }

    // the hit branch of Set
    method Refresh(e: Entry, etag: string, body: string)
      requires Valid() && e.path in items && items[e.path] == e
      modifies this`ll, this`view, e
      ensures Valid() && view == AfterSet(old(view), Item(e.path, etag, body), maxSize)
      ensures forall x :: x in ll <==> x in old(ll)
    {
      MoveToFront(e);
      Rewrite(e, etag, body);
    }

    method Rewrite(e: Entry, etag: string, body: string)
      requires Indexed() && ll != [] && ll[0] == e
      modifies this`view, e
      ensures Indexed() && view == old(view)[0 := Item(e.path, etag, body)]
    {
      assert ll[0].Value() == view[0];
      e.etag, e.body := etag, body;
      view := view[0 := Item(e.path, etag, body)];
    }

    method PushFront(path: string, etag: string, body: string)
      requires Valid() && path !in items
      modifies this`ll, this`view, this`items
      ensures Indexed() && |ll| == old(|ll|) + 1 && ll[1..] == old(ll) && fresh(ll[0])
      ensures view == [Item(path, etag, body)] + old(view)
    {
      var e := new Entry(path, etag, body);
      forall i | 0 <= i < |view| ensures view[i].path != path {
        assert ll[i].Value() == view[i];
      }
      ll := [e] + ll;
      items := items[path := e];
      view := [e.Value()] + view;
    }

    // one turn of the eviction loop
    method DropOldest()
      requires 1 <= maxSize && |ll| == maxSize + 1 && Indexed()
      modifies this`ll, this`view, this`items
      ensures Valid() && ll == old(ll[..maxSize]) && view == old(view[..maxSize])
    {
      var oldest := ll[|ll| - 1];
      forall i | 0 <= i < |ll| - 1 ensures ll[i].path != oldest.path {
        assert ll[i].Value() == view[i] && oldest.Value() == view[|ll| - 1];
      }
      ll := ll[..|ll| - 1];
      view := view[..|view| - 1];
      items := items - {oldest.path};
    }
  }

  // ----- Any run

  datatype Op = GetOp(path: string) | SetOp(x: Item)

  ghost function After(ops: seq<Op>, max: nat): seq<Item> {
    if ops == [] then [] else
    var before := After(ops[..|ops| - 1], max);
    match ops[|ops| - 1]
    case GetOp(path) => AfterGet(before, path)
    case SetOp(x) => AfterSet(before, x, max)
  }

  /** A set uses its path, and so does a get that finds it. */
  ghost predicate Uses(op: Op, before: seq<Item>, path: string) {
    match op
    case GetOp(p) => p == path && Find(before, path).Some?
    case SetOp(x) => x.path == path
  }

  /** The number of the last operation that used the path, or -1. */
  ghost function LastUse(ops: seq<Op>, max: nat, path: string): int {
    if ops == [] then -1
    else if Uses(ops[|ops| - 1], After(ops[..|ops| - 1], max), path) then |ops| - 1
    else LastUse(ops[..|ops| - 1], max, path)
  }

  ghost function LastSet(ops: seq<Op>, path: string): Option<Item> {
    if ops == [] then None
    else if ops[|ops| - 1].SetOp? && ops[|ops| - 1].x.path == path then Some(ops[|ops| - 1].x)
    else LastSet(ops[..|ops| - 1], path)
  }

  /** What a list holds in order: most recently used first, so each path once. */
  ghost predicate ByRecency(items: seq<Item>, ops: seq<Op>, max: nat) {
    forall i: nat, j: nat :: i < j < |items| ==> UsedAt(items, i, ops, max) > UsedAt(items, j, ops, max)
  }

  ghost function UsedAt(items: seq<Item>, i: nat, ops: seq<Op>, max: nat): int
    requires i < |items|
  {
    LastUse(ops, max, items[i].path)
  }

  ghost predicate LastSets(items: seq<Item>, ops: seq<Op>) {
    forall i :: 0 <= i < |items| ==> LastSet(ops, items[i].path) == Some(items[i])
  }

  lemma {:induction false} LastUseEarlier(ops: seq<Op>, max: nat, path: string)
    ensures -1 <= LastUse(ops, max, path) < |ops|
  {
    if ops != [] {
      LastUseEarlier(ops[..|ops| - 1], max, path);
    }
  }

  lemma {:induction false} RecencyDiffers(items: seq<Item>, ops: seq<Op>, max: nat)
    requires ByRecency(items, ops, max)
    ensures PathsDiffer(items)
  {
    forall i: nat, j: nat | i < j < |items| ensures items[i].path != items[j].path {
      assert UsedAt(items, i, ops, max) > UsedAt(items, j, ops, max);
    }
  }

  lemma {:induction false} FindIs(items: seq<Item>, path: string) returns (k: nat)
    ensures Find(items, path).None? ==> k == |items| && forall i :: 0 <= i < |items| ==> items[i].path != path
    ensures Find(items, path).Some? ==> k < |items| && items[k] == Find(items, path).value && items[k].path == path
  {
    if items == [] {
      k := 0;
    } else if items[|items| - 1].path == path {
      k := |items| - 1;
    } else {
      k := FindIs(items[..|items| - 1], path);
      if k == |items| - 1 {
        k := |items|;
      }
    }
  }

  lemma {:induction false} WithoutElements(items: seq<Item>, path: string)
    requires PathsDiffer(items)
    ensures var r := Without(items, path);
            && (forall i: nat :: i < |r| ==> r[i].path != path)
            && |r| == |items| - if Find(items, path).Some? then 1 else 0
  {
    var k := FindIs(items, path);
    if k == |items| {
      WithoutMissing(items, path);
    } else {
      WithoutAt(items, k);
    }
  }

  /** What is left after taking a path out keeps its order. */
  lemma {:induction false} WithoutByRecency(items: seq<Item>, ops: seq<Op>, max: nat, path: string)
    requires ByRecency(items, ops, max)
    ensures ByRecency(Without(items, path), ops, max)
  {
    RecencyDiffers(items, ops, max);
    var k := FindIs(items, path);
    if k == |items| {
      WithoutMissing(items, path);
    } else {
      WithoutAt(items, k);
      var r := RemoveAt(items, k);
      forall i: nat, j: nat | i < j < |r| ensures UsedAt(r, i, ops, max) > UsedAt(r, j, ops, max) {
        var a, b := if i < k then i else i + 1, if j < k then j else j + 1;
        assert r[i] == items[a] && r[j] == items[b];
        assert UsedAt(items, a, ops, max) > UsedAt(items, b, ops, max);
      }
    }
  }

  /** An operation that uses one path puts it before all others, whose order stays. */
  lemma {:induction false} FrontByRecency(rest: seq<Item>, x: Item, ops: seq<Op>, max: nat, op: Op)
    requires ByRecency(rest, ops, max) && Uses(op, After(ops, max), x.path)
    requires forall i: nat :: i < |rest| ==> rest[i].path != x.path
    ensures ByRecency([x] + rest, ops + [op], max)
  {
    var all, more := [x] + rest, ops + [op];
    assert more[..|more| - 1] == ops;
    forall i: nat, j: nat | i < j < |all| ensures UsedAt(all, i, more, max) > UsedAt(all, j, more, max) {
      LastUseEarlier(ops, max, rest[j - 1].path);
      assert UsedAt(all, j, more, max) == UsedAt(rest, j - 1, ops, max);
      if i > 0 {
        assert UsedAt(all, i, more, max) == UsedAt(rest, i - 1, ops, max);
      }
    }
  }

  lemma {:induction false} UnusedByRecency(items: seq<Item>, ops: seq<Op>, max: nat, op: Op)
    requires ByRecency(items, ops, max) && forall path :: !Uses(op, After(ops, max), path)
    ensures ByRecency(items, ops + [op], max)
  {
    var more := ops + [op];
    assert more[..|more| - 1] == ops;
    forall i: nat, j: nat | i < j < |items| ensures UsedAt(items, i, more, max) > UsedAt(items, j, more, max) {
      assert UsedAt(items, i, ops, max) > UsedAt(items, j, ops, max);
    }
  }

  lemma CutByRecency(items: seq<Item>, ops: seq<Op>, max: nat, m: nat)
    requires ByRecency(items, ops, max)
    ensures ByRecency(Cut(items, m), ops, max)
  {
    forall i: nat, j: nat | i < j < |Cut(items, m)| ensures UsedAt(Cut(items, m), i, ops, max) > UsedAt(Cut(items, m), j, ops, max) {
      assert UsedAt(items, i, ops, max) > UsedAt(items, j, ops, max);
    }
  }

  /** After any run the cache is within its bound and lists its paths from the most to the least recently used. */
  lemma {:induction false} RecencyHolds(ops: seq<Op>, max: nat)
    requires max >= 1
    ensures ByRecency(After(ops, max), ops, max) && |After(ops, max)| <= max
  {
    if ops != [] {
      var init, op := ops[..|ops| - 1], ops[|ops| - 1];
      assert ops == init + [op];
      RecencyHolds(init, max);
      OneMoreOp(init, op, max);
    }
  }

  lemma {:induction false} OneMoreOp(ops: seq<Op>, op: Op, max: nat)
    requires max >= 1 && ByRecency(After(ops, max), ops, max) && |After(ops, max)| <= max
    ensures var after := match op case GetOp(path) => AfterGet(After(ops, max), path) case SetOp(x) => AfterSet(After(ops, max), x, max);
            ByRecency(after, ops + [op], max) && |after| <= max
  {
    var items := After(ops, max);
    RecencyDiffers(items, ops, max);
    match op
    case GetOp(path) =>
      if Find(items, path).Some? {
        var k := FindIs(items, path);
        WithoutByRecency(items, ops, max, path);
        WithoutElements(items, path);
        FrontByRecency(Without(items, path), items[k], ops, max, op);
      } else {
        UnusedByRecency(items, ops, max, op);
      }
    case SetOp(x) =>
      WithoutByRecency(items, ops, max, x.path);
      WithoutElements(items, x.path);
      FrontByRecency(Without(items, x.path), x, ops, max, op);
      CutByRecency([x] + Without(items, x.path), ops + [op], max, max);
  }

  lemma {:induction false} WithoutKeeps(items: seq<Item>, path: string, i: nat)
    requires i < |Without(items, path)|
    ensures Without(items, path)[i] in items && Without(items, path)[i].path != path
  {
    var init := Without(items[..|items| - 1], path);
    if i < |init| {
      WithoutKeeps(items[..|items| - 1], path, i);
    }
  }

  /** Every path present holds what was last set for it, so a get returns that. */
  lemma {:induction false} HoldsLastSets(ops: seq<Op>, max: nat)
    ensures LastSets(After(ops, max), ops)
  {
    if ops != [] {
      var init, op := ops[..|ops| - 1], ops[|ops| - 1];
      HoldsLastSets(init, max);
      var items, after := After(init, max), After(ops, max);
      forall i: nat | i < |after| ensures LastSet(ops, after[i].path) == Some(after[i]) {
        match op
        case GetOp(path) =>
          var k := FindIs(items, path);
          if k < |items| && i > 0 {
            WithoutKeeps(items, path, i - 1);
          }
          assert after[i] in items;
          var j :| 0 <= j < |items| && items[j] == after[i];
          assert LastSet(init, items[j].path) == Some(items[j]);
        case SetOp(x) =>
          if i > 0 {
            WithoutKeeps(items, x.path, i - 1);
            var j :| 0 <= j < |items| && items[j] == after[i];
            assert LastSet(init, items[j].path) == Some(items[j]);
          }
      }
    }
  }

  /** Setting a new path in a full cache drops exactly the path used longest ago. */
  lemma {:induction false} EvictsLeastRecentlyUsed(ops: seq<Op>, x: Item, max: nat)
    requires max >= 1 && |After(ops, max)| == max && Find(After(ops, max), x.path).None?
    ensures var before := After(ops, max);
            var last := before[max - 1];
            && After(ops + [SetOp(x)], max) == [x] + before[..max - 1]
            && forall i :: 0 <= i < max - 1 ==> LastUse(ops, max, before[i].path) > LastUse(ops, max, last.path)
  {
    var before := After(ops, max);
    RecencyHolds(ops, max);
    assert (ops + [SetOp(x)])[..|ops + [SetOp(x)]| - 1] == ops;
    var k := FindIs(before, x.path);
    WithoutMissing(before, x.path);
    forall i: nat | i < max - 1 ensures LastUse(ops, max, before[i].path) > LastUse(ops, max, before[max - 1].path) {
      assert UsedAt(before, i, ops, max) > UsedAt(before, max - 1, ops, max);
    }
  }
}
