/** The comment row of frontend/src/components/Comments.jsx: a local like toggle
    that never talks to the server, and the reply-input toggle. */
module Comments {
  import opened Js

  /** One like click on a (liked, count) pair: the flag flips and the count moves
      by one, down if it was liked, up otherwise. The post like buttons take the
      same optimistic step (see PostCard.ClickLike). */
  function Flip(liked: bool, count: int): (r: (bool, int))
    ensures r.0 == !liked
    ensures r.1 - count == (if liked then -1 else 1)
  {
    (!liked, if liked then count - 1 else count + 1)
  }

  /** Flipping twice gives back the pair: two clicks cancel. */
  lemma FlipTwice(liked: bool, count: int)
    ensures Flip(Flip(liked, count).0, Flip(liked, count).1) == (liked, count)
  {
  }

  /** The count always equals the starting count plus one while liked. */
  lemma FlipKeepsOffset(liked: bool, count: int, base: int)
    requires count == base + (if liked then 1 else 0)
    ensures Flip(liked, count).1 == base + (if Flip(liked, count).0 then 1 else 0)
  {
  }

  /** `comment.likes?.length || 0`. The comment schema has no `likes` path, so for a
      stored comment this is always 0. */
  function InitialCount(likes: Maybe<seq<string>>): (n: nat)
    ensures likes.Undefined? ==> n == 0
    ensures likes.Defined? ==> n == |likes.value|
  {
    if likes.Defined? then |likes.value| else 0
  }

  class CommentRow {
    var isLiked: bool
    var likeCount: int
    var showReplyInput: bool
    /** The count the row started with. */
    ghost const base: int

    ghost predicate Valid()
      reads this
    {
      likeCount == base + (if isLiked then 1 else 0)
    }

    constructor (likes: Maybe<seq<string>>)
      ensures Valid()
      ensures !isLiked && likeCount == InitialCount(likes) && !showReplyInput
    {
      isLiked := false;
      likeCount := InitialCount(likes);
      showReplyInput := false;
      base := InitialCount(likes);
    }

    /** `handleLike`: `setIsLiked(!isLiked)` and `setLikeCount(prev => isLiked ? prev - 1
        : prev + 1)`, both reading the flag of the same render. */
    method HandleLike()
      requires Valid()
      modifies this
      ensures Valid()
      ensures (isLiked, likeCount) == Flip(old(isLiked), old(likeCount))
      ensures showReplyInput == old(showReplyInput)
    {
      var wasLiked := isLiked;
      isLiked := !wasLiked;
      likeCount := if wasLiked then likeCount - 1 else likeCount + 1;
    }

    /** The reply button. */
    method ToggleReply()
      modifies this
      ensures showReplyInput == !old(showReplyInput)
      ensures isLiked == old(isLiked) && likeCount == old(likeCount)
    {
      showReplyInput := !showReplyInput;
    }
  }

  /** Two like clicks leave the row as it was. */
  method TwoClicksRestore(row: CommentRow)
    requires row.Valid()
    modifies row
    ensures row.Valid()
    ensures row.isLiked == old(row.isLiked) && row.likeCount == old(row.likeCount)
  {
    row.HandleLike();
    row.HandleLike();
  }
}
