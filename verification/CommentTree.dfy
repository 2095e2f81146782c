/** Comment trees: the data, their nodes in preorder, and the index by comment id. */
module CommentTree {
  type Id = string

  /** "t1", "more", or anything else a decoded thing may carry. */
  datatype Kind = T1 | More | Other(name: string)

  /** `display` stands for the fields no archive operation looks at (score, times, awards, flair). */
  datatype Comment = Comment(id: Id, kind: Kind, parentID: Id, parentKind: Kind, body: string, author: string,
                             removed: bool, display: string, moreCount: int, children: seq<Id>,
                             replies: seq<Comment>)

  /** A real comment with an id, as opposed to a stub or a nameless node. */
  predicate Real(c: Comment) {
    c.kind.T1? && c.id != ""
  }

  /** Two nodes that differ at most in their replies. */
  predicate SamePayload(a: Comment, b: Comment) {
    a.(replies := []) == b.(replies := [])
  }

  /** All nodes of a forest in the order a depth-first walk meets them. */
  ghost function Nodes(cs: seq<Comment>): seq<Comment> {
    if cs == [] then [] else [cs[0]] + Nodes(cs[0].replies) + Nodes(cs[1..])
  }

  lemma NodesOne(c: Comment)
    ensures Nodes([c]) == [c] + Nodes(c.replies)
  {
    assert [c][1..] == [];
  }

  lemma {:induction false} NodesConcat(a: seq<Comment>, b: seq<Comment>)
    ensures Nodes(a + b) == Nodes(a) + Nodes(b)
  {
    if a == [] {
      assert a + b == b;
    } else {
      assert (a + b)[1..] == a[1..] + b;
      NodesConcat(a[1..], b);
    }
  }

  /** The ids of the real comments of a forest. */
  ghost function RealIds(cs: seq<Comment>): set<Id> {
    set n | n in Nodes(cs) && Real(n) :: n.id
  }

  lemma RealIdsCons(cs: seq<Comment>)
    requires cs != []
    ensures RealIds(cs) == (if Real(cs[0]) then {cs[0].id} else {}) + RealIds(cs[0].replies) + RealIds(cs[1..])
  {
  }

  lemma RealIdsConcat(a: seq<Comment>, b: seq<Comment>)
    ensures RealIds(a + b) == RealIds(a) + RealIds(b)
  {
    NodesConcat(a, b);
  }

  lemma {:induction false} NodesBelow(cs: seq<Comment>, n: Comment)
    requires n in Nodes(cs)
    ensures forall m :: m in Nodes(n.replies) ==> m in Nodes(cs)
  {
    if n == cs[0] {
    } else if n in Nodes(cs[0].replies) {
      NodesBelow(cs[0].replies, n);
    } else {
      NodesBelow(cs[1..], n);
    }
  }

  /** What the archive functions take for granted of a tree: every comment has an id, only comments have replies. */
  ghost predicate WellFormed(cs: seq<Comment>) {
    forall n :: n in Nodes(cs) ==> (n.kind.T1? ==> n.id != "") && (!n.kind.T1? ==> n.replies == [])
  }

  /** No id belongs to two nodes of the walk. */
  ghost predicate UniqueIds(cs: seq<Comment>) {
    forall i, j :: 0 <= i < j < |Nodes(cs)| && Real(Nodes(cs)[i]) && Real(Nodes(cs)[j]) ==> Nodes(cs)[i].id != Nodes(cs)[j].id
  }

  // ----- The index: the last node of the walk wins

  ghost function Note(m: map<Id, Comment>, c: Comment): map<Id, Comment> {
    if Real(c) then m[c.id := c] else m
  }

  ghost function NoteAll(m: map<Id, Comment>, ns: seq<Comment>): map<Id, Comment>
    decreases ns
  {
    if ns == [] then m else NoteAll(Note(m, ns[0]), ns[1..])
  }

  ghost function Index(cs: seq<Comment>): map<Id, Comment> {
    NoteAll(map[], Nodes(cs))
  }

  lemma {:induction false} NoteAllConcat(m: map<Id, Comment>, a: seq<Comment>, b: seq<Comment>)
    ensures NoteAll(m, a + b) == NoteAll(NoteAll(m, a), b)
    decreases a
  {
    if a == [] {
      assert a + b == b;
    } else {
      assert (a + b)[1..] == a[1..] + b;
      NoteAllConcat(Note(m, a[0]), a[1..], b);
    }
  }

  // IndexCommentsByID
  method IndexCommentsByID(cs: seq<Comment>) returns (out: map<Id, Comment>)
    ensures out == Index(cs)
  {
    out := Walk(cs, map[]);
  }

  // the recursive closure of IndexCommentsByID, its map passed along
  method Walk(arr: seq<Comment>, out0: map<Id, Comment>) returns (out: map<Id, Comment>)
    ensures out == NoteAll(out0, Nodes(arr))
  {
    out := out0;
    for i := 0 to |arr|
      invariant out == NoteAll(out0, Nodes(arr[..i]))
    {
      var c := arr[i];
      ghost var before := out;
      if c.kind.T1? && c.id != "" {
        out := out[c.id := c];
      }
      assert out == NoteAll(before, [c]);
      out := Walk(c.replies, out);
      NoteAllConcat(before, [c], Nodes(c.replies));
      NoteAllConcat(out0, Nodes(arr[..i]), [c] + Nodes(c.replies));
      NodesConcat(arr[..i], [c]);
      NodesOne(c);
      assert arr[..i + 1] == arr[..i] + [c];
    }
    assert arr[..|arr|] == arr;
  }

  /** The position of the last real node with id x, or |ns|. */
  ghost function LastPos(ns: seq<Comment>, x: Id): (p: nat)
    ensures p <= |ns|
  {
    if ns == [] then 0 else
    var p := LastPos(ns[1..], x);
    if p < |ns| - 1 then p + 1
    else if Real(ns[0]) && ns[0].id == x then 0
    else |ns|
  }

  lemma {:induction false} LastPosIsLast(ns: seq<Comment>, x: Id)
    ensures LastPos(ns, x) < |ns| ==> Real(ns[LastPos(ns, x)]) && ns[LastPos(ns, x)].id == x
    ensures forall i :: 0 <= i < |ns| && Real(ns[i]) && ns[i].id == x ==> i <= LastPos(ns, x) < |ns|
  {
    if ns != [] {
      LastPosIsLast(ns[1..], x);
      forall i | 0 <= i < |ns| && Real(ns[i]) && ns[i].id == x ensures i <= LastPos(ns, x) < |ns| {
        if i > 0 {
          assert ns[1..][i - 1] == ns[i];
        }
      }
    }
  }

  /** The index holds exactly the real ids, each with the last node that carries it. */
  lemma {:induction false} NoteAllIs(m: map<Id, Comment>, ns: seq<Comment>, x: Id)
    ensures var p := LastPos(ns, x);
            if p < |ns| then x in NoteAll(m, ns) && NoteAll(m, ns)[x] == ns[p]
            else (x in NoteAll(m, ns) <==> x in m) && (x in m ==> NoteAll(m, ns)[x] == m[x])
    decreases ns
  {
    if ns != [] {
      NoteAllIs(Note(m, ns[0]), ns[1..], x);
    }
  }

  lemma {:induction false} IndexIs(cs: seq<Comment>, x: Id)
    ensures x in Index(cs) <==> x in RealIds(cs)
    ensures x in Index(cs) ==> LastPos(Nodes(cs), x) < |Nodes(cs)|
    ensures x in Index(cs) ==> Index(cs)[x] == Nodes(cs)[LastPos(Nodes(cs), x)]
    ensures x in Index(cs) ==> Real(Index(cs)[x]) && Index(cs)[x].id == x && Index(cs)[x] in Nodes(cs)
  {
    NoteAllIs(map[], Nodes(cs), x);
    LastPosIsLast(Nodes(cs), x);
  }

  lemma IndexKeys(cs: seq<Comment>)
    ensures Index(cs).Keys == RealIds(cs)
  {
    forall x ensures x in Index(cs).Keys <==> x in RealIds(cs) {
      IndexIs(cs, x);
    }
  }

  /** With unique ids the index maps each node's id to that node. */
  lemma {:induction false} UniqueIndex(cs: seq<Comment>, n: Comment)
    requires UniqueIds(cs) && n in Nodes(cs) && Real(n)
    ensures n.id in Index(cs) && Index(cs)[n.id] == n
  {
    IndexIs(cs, n.id);
    var i :| 0 <= i < |Nodes(cs)| && Nodes(cs)[i] == n;
    LastPosIsLast(Nodes(cs), n.id);
  }

  lemma {:induction false} CutInBelow(c: Comment, below: seq<Comment>, rest: seq<Comment>, i: nat)
    requires i <= |below|
    ensures ([c] + below + rest)[1 + i..] == below[i..] + rest
    ensures i < |below| ==> ([c] + below + rest)[1 + i] == below[i]
  {
  }

  lemma {:induction false} CutInRest(c: Comment, below: seq<Comment>, rest: seq<Comment>, i: nat)
    requires i <= |rest|
    ensures ([c] + below + rest)[1 + |below| + i..] == rest[i..]
    ensures i < |rest| ==> ([c] + below + rest)[1 + |below| + i] == rest[i]
  {
  }

  /** Everything under the node at position p of the walk comes after it in the walk. */
  lemma {:induction false} BelowIsLater(cs: seq<Comment>, p: nat, m: Comment)
    requires p < |Nodes(cs)| && m in Nodes(Nodes(cs)[p].replies)
    ensures m in Nodes(cs)[p + 1..]
  {
    var below, rest := Nodes(cs[0].replies), Nodes(cs[1..]);
    if p <= |below| {
      CutInBelow(cs[0], below, rest, p);
      if p > 0 {
        CutInBelow(cs[0], below, rest, p - 1);
        BelowIsLater(cs[0].replies, p - 1, m);
      }
    } else {
      var i := p - 1 - |below|;
      CutInRest(cs[0], below, rest, i);
      CutInRest(cs[0], below, rest, i + 1);
      BelowIsLater(cs[1..], i, m);
    }
  }
}
