/**
 * The two simulated fetchers of the demo, `fetchPost` and `fetchComments`, reduced to
 * the outcome each promise settles with; the timer that delays settlement is not modelled.
 * The texts they build are described through decoders that recover the ids from them.
 */
module Fetchers {
  import opened Options
  import opened Decimal
  import opened Promises

  /** A JavaScript `Error` object; only its message is ever read. */
  datatype Error = Error(message: string)

  datatype Post = Post(id: int, title: string, content: string)

  datatype Comment = Comment(id: int, content: string)

  const MaxPostId := 5
  const InvalidPostMessage := "Invalid post ID"
  const TitleLabel := "Post "
  const ContentLabel := "This is the content of post "
  const CommentLabel := "Comment "
  const OnPostLabel := " on post "
  const CommentsPerPost := 5

  /** The id written after `prefix` in `s`, if `s` is `prefix` followed by a decimal integer. */
  function Unlabel(prefix: string, s: string): Option<int>
  {
    if |prefix| <= |s| && s[..|prefix|] == prefix then ParseInt(s[|prefix|..]) else None
  }

  lemma UnlabelExact(prefix: string, s: string, n: int)
    ensures Unlabel(prefix, s) == Some(n) <==> s == prefix + IntToDecimal(n)
  {
    var t := prefix + IntToDecimal(n);
    assert t[..|prefix|] == prefix && t[|prefix|..] == IntToDecimal(n);
    if Unlabel(prefix, s) == Some(n) {
      ParseIntExact(s[|prefix|..], n);
      assert s == s[..|prefix|] + s[|prefix|..];
    }
  }

  /** Text of comment `i` on post `postId`. */
  function CommentText(i: int, postId: int): string
  {
    CommentLabel + IntToDecimal(i) + OnPostLabel + IntToDecimal(postId)
  }

  /** The (comment index, post id) pair written in a comment text whose index is one digit. */
  function CommentIds(c: string): Option<(int, int)>
  {
    if |c| >= 9 && c[..8] == CommentLabel && IsDigit(c[8]) then
      match Unlabel(OnPostLabel, c[9..])
      case Some(p) => Some((DigitValue(c[8]), p))
      case None => None
    else
      None
  }

  /** A comment text with a one-digit index is a nine-character head (label and digit)
      followed by the post label and the post id. */
  lemma CommentTextLayout(i: int, postId: int)
    requires 0 <= i < 10
    ensures CommentText(i, postId) == (CommentLabel + [DigitChar(i)]) + (OnPostLabel + IntToDecimal(postId))
  {
    assert IntToDecimal(i) == [DigitChar(i)];
  }

  lemma CommentTextDecodes(i: int, postId: int)
    requires 0 <= i < 10
    ensures CommentIds(CommentText(i, postId)) == Some((i, postId))
  {
    var head := CommentLabel + [DigitChar(i)];
    var tail := OnPostLabel + IntToDecimal(postId);
    var t := head + tail;
    CommentTextLayout(i, postId);
    assert t[..|head|] == head && t[|head|..] == tail;
    assert |head| == 9 && head[..8] == CommentLabel && head[8] == DigitChar(i);
    assert t[..8] == head[..8];
    UnlabelExact(OnPostLabel, tail, postId);
  }

  lemma CommentIdsDetermineText(c: string, i: int, postId: int)
    requires CommentIds(c) == Some((i, postId))
    ensures 0 <= i < 10 && c == CommentText(i, postId)
  {
    var head := c[..9];
    var tail := c[9..];
    assert Unlabel(OnPostLabel, tail) == Some(postId);
    UnlabelExact(OnPostLabel, tail, postId);
    assert c[8] == DigitChar(i);
    assert head == c[..8] + [c[8]];
    assert c == head + tail;
    CommentTextLayout(i, postId);
  }

  /** A comment text with a one-digit index is decoded exactly back to its two ids. */
  lemma CommentIdsExact(c: string, i: int, postId: int)
    requires 0 <= i < 10
    ensures CommentIds(c) == Some((i, postId)) <==> c == CommentText(i, postId)
  {
    CommentTextDecodes(i, postId);
    if CommentIds(c) == Some((i, postId)) {
      CommentIdsDetermineText(c, i, postId);
    }
  }

  /** `fetchPost(id)`: rejects with "Invalid post ID" exactly when `id > 5`, otherwise
      resolves with the post whose id, title and content all name `id`. */
  function FetchPost(id: int): (r: Settled<Post, Error>)
    ensures r.Rejected? <==> id > MaxPostId
    ensures r.Rejected? ==> r.reason.message == InvalidPostMessage
    ensures r.Fulfilled? ==>
      && r.value.id == id
      && Unlabel(TitleLabel, r.value.title) == Some(id)
      && Unlabel(ContentLabel, r.value.content) == Some(id)
  {
    if id > MaxPostId then
      Rejected(Error(InvalidPostMessage))
    else
      var title := TitleLabel + IntToDecimal(id);
      var content := ContentLabel + IntToDecimal(id);
      UnlabelExact(TitleLabel, title, id);
      UnlabelExact(ContentLabel, content, id);
      Fulfilled(Post(id, title, content))
  }

  /** `fetchComments(postId)`: always resolves, with five comments; comment `i` has id `i`
      and a text that names `i` and `postId`. */
  function FetchComments(postId: int): (r: Settled<seq<Comment>, Error>)
    ensures r.Fulfilled? && |r.value| == CommentsPerPost
    ensures forall i :: 0 <= i < |r.value| ==>
      r.value[i].id == i && CommentIds(r.value[i].content) == Some((i, postId))
  {
    CommentTextsDecode(postId);
    Fulfilled(seq(CommentsPerPost, i requires 0 <= i < CommentsPerPost => Comment(i, CommentText(i, postId))))
  }

  lemma CommentTextsDecode(postId: int)
    ensures forall i :: 0 <= i < CommentsPerPost ==> CommentIds(CommentText(i, postId)) == Some((i, postId))
  {
    forall i | 0 <= i < CommentsPerPost
      ensures CommentIds(CommentText(i, postId)) == Some((i, postId))
    {
      CommentIdsExact(CommentText(i, postId), i, postId);
    }
  }

  /** A resolved post is exactly the record `{ id, title: "Post " + id, content: "This is the content of post " + id }`. */
  lemma FetchPostRecord(id: int)
    requires id <= MaxPostId
    ensures FetchPost(id).Fulfilled?
    ensures FetchPost(id).value.title == TitleLabel + IntToDecimal(id)
    ensures FetchPost(id).value.content == ContentLabel + IntToDecimal(id)
  {
    UnlabelExact(TitleLabel, FetchPost(id).value.title, id);
    UnlabelExact(ContentLabel, FetchPost(id).value.content, id);
  }

  /** Posts of different ids never share a title. */
  lemma DistinctTitles(a: int, b: int)
    requires a <= MaxPostId && b <= MaxPostId && a != b
    ensures FetchPost(a).value.title != FetchPost(b).value.title
  {
  }
}
