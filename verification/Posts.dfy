/** Listed posts, and what repost detection knows of them. */
module Posts {
  import opened Common
  import opened TitleTokens

  /** A row of a cluster card. */
  datatype Member = Member(permalink: string, title: string, author: string, score: Option<int>)

  /** author is the trimmed lower-case name; score is None when it is not a number. */
  datatype Post = Post(permalink: string, title: string, mediaKey: string, author: string, score: Option<int>,
                       repostCount: nat, repostMembers: seq<Member>)

  function MemberFrom(p: Post): Member {
    Member(p.permalink, p.title, p.author, p.score)
  }

  /** Deleted and anonymous authors identify nobody. */
  function AuthorKey(name: string): string {
    if name == "[deleted]" || name == "deleted" then "" else name
  }

  ghost function MarkOf(p: Post): Option<Fingerprint> {
    match TokensOf(p.title)
    case None => None
    case Some(tokens) => Some(Fingerprint(tokens, p.mediaKey, AuthorKey(p.author)))
  }

  lemma {:induction false} MarkTokens(p: Post)
    ensures MarkOf(p).Some? ==> MarkOf(p).value.tokens != [] && StrictlySorted(MarkOf(p).value.tokens)
  {
    TokensAre(p.title);
  }

  method ReadMark(p: Post) returns (mark: Option<Fingerprint>)
    ensures mark == MarkOf(p)
    ensures mark.Some? ==> StrictlySorted(mark.value.tokens)
  {
    MarkTokens(p);
    var tokens := TitleTokens.TitleTokens(p.title);
    if tokens.None? {
      return None;
    }
    return Some(Fingerprint(tokens.value, p.mediaKey, AuthorKey(p.author)));
  }

  /** Nobody is the author of posts whose account is gone. */
  ghost predicate SameAuthor(p: Post, q: Post) {
    p.author == q.author && p.author != "" && p.author != "[deleted]" && p.author != "deleted"
  }

  /**
    The policy, of the posts themselves: each title has three distinctive words or more;
    they share enough of them, and the media or the author agree; or one author wrote both,
    at length, and the one title has most of the other's words.
   */
  ghost predicate Resembles(p: Post, q: Post) {
    var a, b := WordSet(p.title), WordSet(q.title);
    && |a| >= 3 && |b| >= 3
    && ((AlikeWords(a, b) && (p.mediaKey == q.mediaKey || SameAuthor(p, q))) || (ContainedWords(a, b) && SameAuthor(p, q)))
  }

  lemma {:induction false} ResemblesIff(p: Post, q: Post)
    ensures Resembles(p, q) <==> MarkOf(p).Some? && MarkOf(q).Some? && Similar(MarkOf(p).value, MarkOf(q).value)
  {
    TokensAre(p.title);
    TokensAre(q.title);
    if MarkOf(p).Some? && MarkOf(q).Some? {
      SimilarIff(MarkOf(p).value, MarkOf(q).value);
    }
  }

  /** Whose author is nobody resembles only posts with the same media. */
  lemma {:induction false} AnonymousNeedMedia(p: Post, q: Post)
    requires p.author == "" && p.mediaKey != q.mediaKey
    ensures !Resembles(p, q) && !Resembles(q, p)
  {
  }
}
