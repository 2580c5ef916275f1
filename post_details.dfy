/** The single-post page of frontend/src/components/PostDetails.jsx: the state
    derived from the fetched post, the like toggle (the state machine of PostCard),
    the comment box, and the share link. */
module PostDetails {
  import opened Js
  import PostModel
  import PostCard

  /** The post `GET /api/posts/:id` delivers: `getPostById` populates only `by`, so
      `likes` holds bare ids. */
  datatype FetchedPost = FetchedPost(id: string, likes: Maybe<seq<PostCard.LikeRef>>,
                                     comments: Maybe<seq<PostModel.Comment>>)

  function RawLikes(ids: seq<string>): (r: seq<PostCard.LikeRef>)
    ensures |r| == |ids|
    ensures forall k :: 0 <= k < |ids| ==> r[k] == PostCard.RawId(ids[k])
  {
    seq(|ids|, k requires 0 <= k < |ids| => PostCard.RawId(ids[k]))
  }

  /** The stored post as the page receives it. */
  function Delivered(p: PostModel.Post): FetchedPost {
    FetchedPost(p.id, Defined(RawLikes(p.likes)), Defined(p.comments))
  }

  /** `like._id` of one like: a bare id string has no `_id`. */
  function IdField(like: PostCard.LikeRef): Maybe<string> {
    match like
    case RawId(_) => Undefined
    case UserDoc(x) => Defined(x)
  }

  /** The derivation as written: `likes?.some((like) => like._id === userData?._id) || false`. */
  predicate LikedAsWritten(likes: Maybe<seq<PostCard.LikeRef>>, selfId: Maybe<string>) {
    likes.Defined? && exists k :: 0 <= k < |likes.value| && IdField(likes.value[k]) == selfId
  }

  /** As written, a signed-in user never sees their like on this page, because the
      likes are bare ids; and a page without `userData` shows any liked post as liked. */
  lemma {:induction false} LikedAsWrittenIgnoresOwnLike(p: PostModel.Post, self: string)
    ensures !LikedAsWritten(Delivered(p).likes, Defined(self))
    ensures LikedAsWritten(Delivered(p).likes, Undefined) <==> p.likes != []
  {
    var likes := RawLikes(p.likes);
    assert forall k :: 0 <= k < |likes| ==> IdField(likes[k]) == Undefined;
    if p.likes != [] {
      assert IdField(likes[0]) == Undefined;
    }
  }

  /** A concrete case: the user's own like is on the post, and the heart is empty. */
  lemma OwnLikeNotShown()
    ensures var p := PostModel.Post("p", "title", "description", "img", ["u"], [], "a", 0);
            "u" in p.likes && !LikedAsWritten(Delivered(p).likes, Defined("u"))
  {
    var p := PostModel.Post("p", "title", "description", "img", ["u"], [], "a", 0);
    LikedAsWrittenIgnoresOwnLike(p, "u");
  }

  /** The evidently intended derivation: some like, bare or populated, is the user. */
  predicate Liked(likes: Maybe<seq<PostCard.LikeRef>>, selfId: Maybe<string>) {
    selfId.Defined? && likes.Defined?
    && exists k :: 0 <= k < |likes.value| && likes.value[k].id == selfId.value
  }

  /** The intended flag agrees with the server: it is set exactly when `updateLike`
      would find the user among the likes, so the first click toggles the right way. */
  lemma {:induction false} LikedMatchesServer(p: PostModel.Post, self: string)
    ensures Liked(Delivered(p).likes, Defined(self)) <==> self in p.likes
  {
    var likes := RawLikes(p.likes);
    if self in p.likes {
      var k :| 0 <= k < |p.likes| && p.likes[k] == self;
      assert likes[k].id == self;
    }
  }

  class Details {
    /** The route's `:id` and `userData?._id`. */
    const id: string
    const selfId: Maybe<string>
    var loading: bool
    var post: Maybe<FetchedPost>
    var comments: seq<PostModel.Comment>
    var isLiked: bool
    var likeCount: int
    var loadingLike: bool
    var prevLiked: bool
    var prevCount: int
    var commentText: string
    var loadingComment: bool
    var sentComments: seq<string>

    function Like(): PostCard.LikeState
      reads this
    {
      PostCard.LikeState(isLiked, likeCount, loadingLike, prevLiked, prevCount)
    }

    constructor (id: string, selfId: Maybe<string>)
      ensures this.id == id && this.selfId == selfId
      ensures loading && post == Undefined && comments == [] && !isLiked && likeCount == 0
      ensures !loadingLike && commentText == "" && !loadingComment && sentComments == []
    {
      this.id, this.selfId := id, selfId;
      loading, post, comments := true, Undefined, [];
      isLiked, likeCount, loadingLike := false, 0, false;
      prevLiked, prevCount := false, 0;
      commentText, loadingComment, sentComments := "", false, [];
    }

    /** The fetch effect's outcome (the effect runs only with a signed-in user).
        On success the post is kept, `comments || []`, the liked flag as written
        (LikedAsWritten, so by LikedAsWrittenIgnoresOwnLike a signed-in user's own
        like is not shown) and `likes?.length || 0`; on failure only the
        spinner stops, and the page shows "Post Not Found". */
    method Fetched(result: Maybe<FetchedPost>)
      modifies this
      ensures !loading
      ensures result.Defined? ==>
                post == result && comments == result.value.comments.GetOr([])
                && isLiked == LikedAsWritten(result.value.likes, selfId)
                && likeCount == PostCard.InitialCount(result.value.likes)
      ensures result.Undefined? ==>
                post == old(post) && comments == old(comments) && isLiked == old(isLiked)
                && likeCount == old(likeCount)
      ensures loadingLike == old(loadingLike) && commentText == old(commentText)
      ensures loadingComment == old(loadingComment) && sentComments == old(sentComments)
    {
      if result.Defined? {
        post := result;
        comments := result.value.comments.GetOr([]);
        isLiked := LikedAsWritten(result.value.likes, selfId);
        likeCount := PostCard.InitialCount(result.value.likes);
      }
      loading := false;
    }

    /** `handleLike` up to the request. */
    method HandleLike(loggedIn: bool)
      modifies this
      ensures Like() == PostCard.ClickLike(old(Like()), loggedIn)
      ensures post == old(post) && comments == old(comments) && commentText == old(commentText)
      ensures loadingComment == old(loadingComment) && sentComments == old(sentComments)
    {
      if !loggedIn || loadingLike {
        return;
      }
      loadingLike := true;
      prevLiked := isLiked;
      prevCount := likeCount;
      isLiked := !prevLiked;
      likeCount := if prevLiked then prevCount - 1 else prevCount + 1;
    }

    /** `handleLike` after the request. */
    method LikeSettled(reply: Maybe<PostCard.LikeReply>)
      modifies this
      ensures Like() == PostCard.SettleLike(old(Like()), reply)
      ensures post == old(post) && comments == old(comments) && commentText == old(commentText)
      ensures loadingComment == old(loadingComment) && sentComments == old(sentComments)
    {
      if reply.Defined? {
        isLiked, likeCount := reply.value.liked, reply.value.likes;
      } else {
        isLiked, likeCount := prevLiked, prevCount;
      }
      loadingLike := false;
    }

    /** `handleComment` up to the request (Enter in the box calls it too, even while
        a request runs). */
    method HandleComment(loggedIn: bool)
      modifies this
      ensures Trim(old(commentText)) == "" || !loggedIn ==>
                loadingComment == old(loadingComment) && sentComments == old(sentComments)
      ensures !(Trim(old(commentText)) == "" || !loggedIn) ==>
                loadingComment && sentComments == old(sentComments) + [old(commentText)]
      ensures comments == old(comments) && commentText == old(commentText) && Like() == old(Like())
      ensures post == old(post)
    {
      if Trim(commentText) == "" || !loggedIn {
        return;
      }
      loadingComment := true;
      sentComments := sentComments + [commentText];
    }

    /** `handleComment` after the request. */
    method CommentSettled(reply: Maybe<seq<PostModel.Comment>>)
      modifies this
      ensures !loadingComment
      ensures reply.Defined? ==> comments == reply.value && commentText == ""
      ensures reply.Undefined? ==> comments == old(comments) && commentText == old(commentText)
      ensures Like() == old(Like()) && sentComments == old(sentComments) && post == old(post)
    {
      if reply.Defined? {
        comments := reply.value;
        commentText := "";
      }
      loadingComment := false;
    }

    /** `postUrl`: the page's origin, "/post/", and this post's id. */
    function ShareLink(origin: string): (r: string)
      reads this
      ensures StartsWith(r, origin + "/post/") && r[|origin| + 6..] == id
    {
      PostCard.ShareUrlNamesPost(origin, id);
      PostCard.ShareUrl(origin, id)
    }
  }
}
