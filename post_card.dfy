/** The feed card of frontend/src/components/PostCard.jsx: the initial like state,
    the optimistic like toggle with rollback, the comment box, and the share link.
    The like state machine is shared with PostDetails. */
module PostCard {
  import opened Js
  import Comments
  import PostModel
  import PostControllers

  /** An entry of `info.likes` as the feeds deliver it: a populated user object
      (`getAllPosts`, `getPostDataUser`) or a bare id string (`getFollowingPosts`,
      `getPostById`, which do not populate `likes`). */
  datatype LikeRef = RawId(id: string) | UserDoc(id: string)

  /** `like === userData?._id || like?._id === userData?._id` for one like. A string
      has no `_id`, so with no `userData` a bare id matches (`undefined === undefined`). */
  predicate LikeMatches(like: LikeRef, selfId: Maybe<string>) {
    match like
    case RawId(x) => Defined(x) == selfId || selfId == Undefined
    case UserDoc(x) => Defined(x) == selfId
  }

  /** `info.likes?.some(...)` (`undefined`, hence false, without `likes`). */
  predicate InitialLiked(likes: Maybe<seq<LikeRef>>, selfId: Maybe<string>) {
    likes.Defined? && exists k :: 0 <= k < |likes.value| && LikeMatches(likes.value[k], selfId)
  }

  /** With a known user, the card starts liked exactly when one of the likes is
      that user, in either form. */
  lemma InitialLikedForUser(likes: seq<LikeRef>, self: string)
    ensures InitialLiked(Defined(likes), Defined(self)) <==> exists k :: 0 <= k < |likes| && likes[k].id == self
  {
  }

  /** Without `userData` the card starts liked as soon as one like is a bare id. */
  lemma InitialLikedWithoutUser(likes: seq<LikeRef>)
    ensures InitialLiked(Defined(likes), Undefined) <==> exists k :: 0 <= k < |likes| && likes[k].RawId?
  {
  }

  /** `info.likes?.length || 0`. */
  function InitialCount(likes: Maybe<seq<LikeRef>>): (n: nat)
    ensures n == (if likes.Defined? then |likes.value| else 0)
  {
    if likes.Defined? then |likes.value| else 0
  }

  /** The like cells of a card: the shown flag and count, the in-flight flag, and
      the values the running request captured (`prevLiked`, `prevCount`). */
  datatype LikeState = LikeState(liked: bool, count: int, loading: bool, prevLiked: bool, prevCount: int)

  /** The fields of the like endpoint's answer that the card reads. */
  datatype LikeReply = LikeReply(liked: bool, likes: int)

  /** The first half of `handleLike`: nothing without a user or while a request is
      in flight; otherwise the values are captured and the optimistic step shown. */
  function ClickLike(s: LikeState, loggedIn: bool): (r: LikeState)
    ensures !loggedIn || s.loading ==> r == s
    ensures loggedIn && !s.loading ==>
              r.loading && (r.liked, r.count) == Comments.Flip(s.liked, s.count)
              && r.prevLiked == s.liked && r.prevCount == s.count
  {
    if !loggedIn || s.loading then s
    else
      var (l, c) := Comments.Flip(s.liked, s.count);
      LikeState(l, c, true, s.liked, s.count)
  }

  /** The second half: the server's answer is adopted, a failure (`Undefined`)
      restores the captured values, and the in-flight flag is cleared. */
  function SettleLike(s: LikeState, reply: Maybe<LikeReply>): (r: LikeState)
    ensures !r.loading
    ensures reply.Defined? ==> r.liked == reply.value.liked && r.count == reply.value.likes
    ensures reply.Undefined? ==> r.liked == s.prevLiked && r.count == s.prevCount
  {
    if reply.Defined? then s.(liked := reply.value.liked, count := reply.value.likes, loading := false)
    else s.(liked := s.prevLiked, count := s.prevCount, loading := false)
  }

  /** A failed request puts the card back exactly where the click found it. */
  lemma FailureRestores(s: LikeState)
    requires !s.loading
    ensures var t := SettleLike(ClickLike(s, true), Undefined);
            t.liked == s.liked && t.count == s.count && !t.loading
  {
  }

  /** A click that reaches the server and succeeds shows the server's values,
      whatever the optimistic step showed. */
  lemma SuccessAdopts(s: LikeState, reply: LikeReply)
    ensures var t := SettleLike(ClickLike(s, true), Defined(reply));
            t.liked == reply.liked && t.count == reply.likes && !t.loading
  {
  }

  /** Clicks during a request are ignored, so the request's settle step sees the
      values captured by the click that started it. */
  lemma ClicksWhileLoadingIgnored(s: LikeState, reply: Maybe<LikeReply>)
    requires !s.loading
    ensures var t := ClickLike(s, true);
            SettleLike(ClickLike(ClickLike(t, true), true), reply) == SettleLike(t, reply)
  {
  }

  /** The optimistic step agrees with the server: if the card showed whether the
      user is in a duplicate-free `likes` list whose every entry names a stored
      user, and the list's length, the step shows what `updateLike` will answer. */
  lemma {:induction false} OptimisticMatchesServer(likes: seq<string>, uid: string, userIds: set<string>, s: LikeState)
    requires PostControllers.DuplicateFree(likes)
    requires uid in userIds && forall k :: 0 <= k < |likes| ==> likes[k] in userIds
    requires s.liked == (uid in likes) && s.count == |likes| && !s.loading
    ensures var t := ClickLike(s, true);
            var after := PostControllers.ToggleLike(likes, uid);
            t.liked == (uid !in likes)
            && t.count == |PostControllers.PopulatedLikes(after, userIds)|
  {
    var after := PostControllers.ToggleLike(likes, uid);
    PostControllers.ToggleLikeSpec(likes, uid);
    assert |after| == |multiset(after)|;
    assert |likes| == |multiset(likes)|;
    if uid in likes {
      assert multiset(likes)[uid] == 1;
      assert multiset(likes) == multiset(after) + multiset{uid};
    }
    forall k | 0 <= k < |after| ensures after[k] in userIds {
      assert after[k] in multiset(after);
    }
    PostControllers.PopulatedCountIsLength(after, userIds);
  }

  /** `${window.location.origin}/post/${id}`. */
  function ShareUrl(origin: string, id: string): string {
    origin + "/post/" + id
  }

  /** The link names the post: from a link on a known origin the id is read back. */
  lemma ShareUrlNamesPost(origin: string, id: string)
    ensures StartsWith(ShareUrl(origin, id), origin + "/post/")
    ensures ShareUrl(origin, id)[|origin| + 6..] == id
  {
    assert ShareUrl(origin, id)[..|origin + "/post/"|] == origin + "/post/";
  }

  lemma ShareUrlInjective(origin: string, a: string, b: string)
    requires ShareUrl(origin, a) == ShareUrl(origin, b)
    ensures a == b
  {
    ShareUrlNamesPost(origin, a);
    ShareUrlNamesPost(origin, b);
  }

  /** One card. `loggedIn` stands for the context's `user` being truthy. */
  class Card {
    var isLiked: bool
    var likeCount: int
    var loadingLike: bool
    var prevLiked: bool
    var prevCount: int
    var comments: seq<PostModel.Comment>
    var commentText: string
    var loadingComment: bool
    /** The texts of the comment requests sent, in order. */
    var sentComments: seq<string>

    function Like(): LikeState
      reads this
    {
      LikeState(isLiked, likeCount, loadingLike, prevLiked, prevCount)
    }

    /** The initial state from `info` and `userData?._id`. */
    constructor (likes: Maybe<seq<LikeRef>>, postComments: Maybe<seq<PostModel.Comment>>, selfId: Maybe<string>)
      ensures isLiked == InitialLiked(likes, selfId) && likeCount == InitialCount(likes) && !loadingLike
      ensures comments == postComments.GetOr([]) && commentText == "" && !loadingComment
      ensures sentComments == []
    {
      isLiked := InitialLiked(likes, selfId);
      likeCount := InitialCount(likes);
      loadingLike := false;
      prevLiked, prevCount := false, 0;
      comments := postComments.GetOr([]);
      commentText := "";
      loadingComment := false;
      sentComments := [];
    }

    /** `handleLike` up to the request. */
    method HandleLike(loggedIn: bool)
      modifies this
      ensures Like() == ClickLike(old(Like()), loggedIn)
      ensures comments == old(comments) && commentText == old(commentText)
      ensures loadingComment == old(loadingComment) && sentComments == old(sentComments)
    {
      if !loggedIn {
        return;
      }
      if loadingLike {
        return;
      }
      loadingLike := true;
      prevLiked := isLiked;
      prevCount := likeCount;
      isLiked := !prevLiked;
      likeCount := if prevLiked then prevCount - 1 else prevCount + 1;
    }

    /** `handleLike` after the request: the `try`/`catch`/`finally`. */
    method LikeSettled(reply: Maybe<LikeReply>)
      modifies this
      ensures Like() == SettleLike(old(Like()), reply)
      ensures comments == old(comments) && commentText == old(commentText)
      ensures loadingComment == old(loadingComment) && sentComments == old(sentComments)
    {
      if reply.Defined? {
        isLiked := reply.value.liked;
        likeCount := reply.value.likes;
      } else {
        isLiked := prevLiked;
        likeCount := prevCount;
      }
      loadingLike := false;
    }

    /** `handleComment` up to the request: a blank text, or no user, does nothing.
        The untrimmed text is sent (the server trims it). */
    method HandleComment(loggedIn: bool)
      modifies this
      ensures Trim(old(commentText)) == "" || !loggedIn ==>
                loadingComment == old(loadingComment) && sentComments == old(sentComments)
      ensures !(Trim(old(commentText)) == "" || !loggedIn) ==>
                loadingComment && sentComments == old(sentComments) + [old(commentText)]
      ensures comments == old(comments) && commentText == old(commentText) && Like() == old(Like())
    {
      if Trim(commentText) == "" {
        return;
      }
      if !loggedIn {
        return;
      }
      loadingComment := true;
      sentComments := sentComments + [commentText];
    }

    /** `handleComment` after the request: on success the server's list replaces the
        comments and the text is cleared; on failure both stay. */
    method CommentSettled(reply: Maybe<seq<PostModel.Comment>>)
      modifies this
      ensures !loadingComment
      ensures reply.Defined? ==> comments == reply.value && commentText == ""
      ensures reply.Undefined? ==> comments == old(comments) && commentText == old(commentText)
      ensures Like() == old(Like()) && sentComments == old(sentComments)
    {
      if reply.Defined? {
        comments := reply.value;
        commentText := "";
      }
      loadingComment := false;
    }
  }
}
