/** The post handlers of backend/controllers/postControllers.js: the like toggle
    (`pull` or `push` on `likes`), adding a comment, creating a post, fetching one
    post, and the three feeds, newest first. */
module PostControllers {
  import opened Js
  import opened Http
  import Mongo
  import KeySort
  import opened PostModel
  import UserModel
  import VerifyToken

  datatype Body =
    | LikeResult(likes: nat, liked: bool, post: Post)
    | CommentList(comments: seq<Comment>)
    | OnePost(post: Post)
    | CreatedPost(message: string, created: Post)
    | PostList(posts: seq<Post>)
    | Message(text: string)

  // ---------------------------------------------------------------------------
  // Likes

  /** `likes.pull(id)`: every occurrence of `id` is removed. */
  function RemoveAll(s: seq<string>, x: string): (r: seq<string>)
    ensures multiset(r) == multiset(s)[x := 0]
    ensures Subseq(r, s)
  {
    if s == [] then []
    else
      var rest := RemoveAll(s[1..], x);
      assert s == [s[0]] + s[1..];
      if s[0] == x then rest else [s[0]] + rest
  }

  /** The toggle of `updateLike`: pull the user if any like is theirs, else push. */
  function ToggleLike(likes: seq<string>, uid: string): seq<string> {
    if uid in likes then RemoveAll(likes, uid) else likes + [uid]
  }

  /** After the toggle the user is in the list exactly when they were not before;
      no other id is added, removed or duplicated. */
  lemma ToggleLikeSpec(likes: seq<string>, uid: string)
    ensures uid in ToggleLike(likes, uid) <==> uid !in likes
    ensures uid in likes ==> multiset(ToggleLike(likes, uid)) == multiset(likes)[uid := 0]
    ensures uid !in likes ==> multiset(ToggleLike(likes, uid)) == multiset(likes) + multiset{uid}
    ensures forall y :: y != uid ==> multiset(ToggleLike(likes, uid))[y] == multiset(likes)[y]
  {
    var r := ToggleLike(likes, uid);
    if uid in likes {
      assert multiset(r)[uid] == 0;
    } else {
      assert uid in multiset(r);
    }
  }

  /** No id occurs twice. */
  ghost predicate DuplicateFree(s: seq<string>) {
    forall y :: multiset(s)[y] <= 1
  }

  lemma ToggleKeepsDuplicateFree(likes: seq<string>, uid: string)
    requires DuplicateFree(likes)
    ensures DuplicateFree(ToggleLike(likes, uid))
  {
    ToggleLikeSpec(likes, uid);
    if uid !in likes {
      assert multiset(likes)[uid] == 0;
    }
  }

  lemma {:induction false} RemoveAllAbsent(s: seq<string>, x: string)
    requires x !in s
    ensures RemoveAll(s, x) == s
  {
    if s != [] {
      RemoveAllAbsent(s[1..], x);
      assert s == [s[0]] + s[1..];
    }
  }

  lemma {:induction false} RemoveAllAppend(s: seq<string>, x: string)
    ensures RemoveAll(s + [x], x) == RemoveAll(s, x)
  {
    if s == [] {
      assert [x][1..] == [];
    } else {
      RemoveAllAppend(s[1..], x);
      assert (s + [x])[1..] == s[1..] + [x];
      assert (s + [x])[0] == s[0];
    }
  }

  /** A like followed by an unlike leaves the list as it was. */
  lemma {:induction false} LikeThenUnlikeRestores(likes: seq<string>, uid: string)
    requires uid !in likes
    ensures ToggleLike(ToggleLike(likes, uid), uid) == likes
  {
    assert uid in likes + [uid];
    RemoveAllAppend(likes, uid);
    RemoveAllAbsent(likes, uid);
  }

  /** Two toggles on a duplicate-free list restore its contents (an unlike then a
      like moves the user to the end). */
  lemma {:induction false} ToggleTwiceRestoresContents(likes: seq<string>, uid: string)
    requires DuplicateFree(likes)
    ensures multiset(ToggleLike(ToggleLike(likes, uid), uid)) == multiset(likes)
  {
    if uid in likes {
      var once := ToggleLike(likes, uid);
      ToggleLikeSpec(likes, uid);
      ToggleLikeSpec(once, uid);
      assert multiset(likes)[uid] == 1;
      assert multiset(likes)[uid := 0] + multiset{uid} == multiset(likes);
    } else {
      LikeThenUnlikeRestores(likes, uid);
    }
  }

  /** With duplicates the toggle pair does not restore the list: all copies go,
      and one comes back. */
  lemma DuplicatesCollapse(likes: seq<string>, uid: string)
    requires multiset(likes)[uid] >= 2
    ensures multiset(ToggleLike(ToggleLike(likes, uid), uid))[uid] == 1
  {
    assert uid in multiset(likes);
    ToggleLikeSpec(likes, uid);
    ToggleLikeSpec(ToggleLike(likes, uid), uid);
  }

  /** The likes that `.populate("likes")` keeps: ids of stored users. */
  function PopulatedLikes(likes: seq<string>, userIds: set<string>): seq<string> {
    Filter(likes, id => id in userIds)
  }

  /** When every like names a stored user, the count is the length of the list. */
  lemma PopulatedCountIsLength(likes: seq<string>, userIds: set<string>)
    requires forall k :: 0 <= k < |likes| ==> likes[k] in userIds
    ensures |PopulatedLikes(likes, userIds)| == |likes|
  {
  }

  // ---------------------------------------------------------------------------
  // Lookups and feeds

  /** `Post.findById(id)` for an id that casts: the position of the post with
      that `_id`, or -1. */
  function PostIndex(posts: seq<Post>, id: string): (i: int)
    ensures -1 <= i < |posts|
    ensures i >= 0 ==> posts[i].id == id
    ensures i == -1 <==> forall k :: 0 <= k < |posts| ==> posts[k].id != id
  {
    if posts == [] then -1
    else if posts[|posts| - 1].id == id then |posts| - 1
    else PostIndex(posts[..|posts| - 1], id)
  }

  function NegCreatedAt(p: Post): int {
    -p.createdAt
  }

  /** `.sort({ createdAt: -1 })`. */
  function NewestFirst(posts: seq<Post>): seq<Post> {
    KeySort.SortBy(posts, NegCreatedAt)
  }

  /** A feed holds the selected posts, each as often as stored, newest first. */
  lemma {:induction false} NewestFirstSpec(posts: seq<Post>)
    ensures multiset(NewestFirst(posts)) == multiset(posts)
    ensures forall i, j :: 0 <= i < j < |NewestFirst(posts)| ==>
              NewestFirst(posts)[i].createdAt >= NewestFirst(posts)[j].createdAt
  {
    var f := NewestFirst(posts);
    forall i, j | 0 <= i < j < |f| ensures f[i].createdAt >= f[j].createdAt {
      assert NegCreatedAt(f[i]) <= NegCreatedAt(f[j]);
    }
  }

  /** `Post.find({ by: userId })`. */
  function ByAuthor(posts: seq<Post>, userId: string): (r: seq<Post>)
    ensures forall p :: p in r <==> p in posts && p.author == userId
  {
    Filter(posts, (p: Post) => p.author == userId)
  }

  /** `Post.find({ by: { $in: following } })`. */
  function ByAuthors(posts: seq<Post>, following: seq<string>): (r: seq<Post>)
    ensures forall p :: p in r <==> p in posts && p.author in following
  {
    Filter(posts, (p: Post) => p.author in following)
  }

  /** The following feed holds exactly the posts by followed users. */
  lemma FollowingFeedMembers(posts: seq<Post>, following: seq<string>, p: Post)
    ensures p in NewestFirst(ByAuthors(posts, following)) <==> p in posts && p.author in following
  {
    NewestFirstSpec(ByAuthors(posts, following));
    assert p in NewestFirst(ByAuthors(posts, following)) <==> p in multiset(NewestFirst(ByAuthors(posts, following)));
  }

  /** The post ids of the store. */
  function PostIds(posts: seq<Post>): set<string> {
    set k | 0 <= k < |posts| :: posts[k].id
  }

  predicate UniquePostIds(posts: seq<Post>) {
    forall i, j :: 0 <= i < j < |posts| ==> posts[i].id != posts[j].id
  }

  // ---------------------------------------------------------------------------
  // The post collection

  class PostStore {
    var posts: seq<Post>

    /** Every stored post passed validation, and `_id`s are unique. */
    ghost predicate Valid()
      reads this
    {
      (forall k :: 0 <= k < |posts| ==> ValidPost(posts[k])) && UniquePostIds(posts)
    }

    constructor ()
      ensures Valid() && posts == []
    {
      posts := [];
    }

    /** `getAllPosts`: every post, newest first. */
    method GetAllPosts() returns (r: Response<Body>)
      ensures r == Response(Ok, PostList(NewestFirst(posts)))
    {
      r := Response(Ok, PostList(NewestFirst(posts)));
    }

    /** `getPostDataUser`: the posts by one author, newest first; an id that does not
        cast makes the query throw. */
    method GetPostDataUser(userId: string) returns (r: Response<Body>)
      ensures !Mongo.IsObjectId(userId) ==> r == Response(ServerError, Message("Server error fetching user's posts"))
      ensures Mongo.IsObjectId(userId) ==> r == Response(Ok, PostList(NewestFirst(ByAuthor(posts, userId))))
    {
      if !Mongo.IsObjectId(userId) {
        return Response(ServerError, Message("Server error fetching user's posts"));
      }
      r := Response(Ok, PostList(NewestFirst(ByAuthor(posts, userId))));
    }

    /** `getFollowingPosts`: the posts by the users the caller follows, newest first. */
    method GetFollowingPosts(users: seq<UserModel.User>, firebaseUid: string) returns (r: Response<Body>)
      ensures UserModel.FindByFirebaseUid(users, firebaseUid).Undefined? ==>
                r == Response(NotFound, Message("User not found"))
      ensures UserModel.FindByFirebaseUid(users, firebaseUid).Defined? ==>
                r == Response(Ok, PostList(NewestFirst(ByAuthors(posts, UserModel.FindByFirebaseUid(users, firebaseUid).value.following))))
    {
      var u := UserModel.FindByFirebaseUid(users, firebaseUid);
      if u.Undefined? {
        return Response(NotFound, Message("User not found"));
      }
      r := Response(Ok, PostList(NewestFirst(ByAuthors(posts, u.value.following))));
    }

    /** `getPostById`: a malformed id is refused before the lookup. */
    method GetPostById(id: string) returns (r: Response<Body>)
      ensures !Mongo.IsObjectId(id) ==> r == Response(BadRequest, Message("Invalid Post ID"))
      ensures Mongo.IsObjectId(id) && id !in PostIds(posts) ==> r == Response(NotFound, Message("Post not found"))
      ensures r.status == Ok <==> Mongo.IsObjectId(id) && id in PostIds(posts)
      ensures r.status == Ok ==> r.body.OnePost? && r.body.post in posts && r.body.post.id == id
    {
      if !Mongo.IsObjectId(id) {
        return Response(BadRequest, Message("Invalid Post ID"));
      }
      var i := PostIndex(posts, id);
      if i < 0 {
        return Response(NotFound, Message("Post not found"));
      }
      r := Response(Ok, OnePost(posts[i]));
    }

    /** `updateLike`. The caller is looked up by uid first, then the post; an id
        that does not cast makes `findById` throw (500). The answer's count is the
        number of likes that still name a stored user after `.populate`. */
    method UpdateLike(users: seq<UserModel.User>, firebaseUid: string, postId: string)
      returns (r: Response<Body>)
      requires Valid()
      modifies this
      ensures Valid()
      ensures UserModel.FindByFirebaseUid(users, firebaseUid).Undefined? ==>
                posts == old(posts) && r == Response(NotFound, Message("User not found"))
      ensures UserModel.FindByFirebaseUid(users, firebaseUid).Defined? && !Mongo.IsObjectId(postId) ==>
                posts == old(posts) && r == Response(ServerError, Message("Server error updating like"))
      ensures (UserModel.FindByFirebaseUid(users, firebaseUid).Defined? && Mongo.IsObjectId(postId)
               && PostIndex(old(posts), postId) < 0) ==>
                posts == old(posts) && r == Response(NotFound, Message("Post not found"))
      ensures (UserModel.FindByFirebaseUid(users, firebaseUid).Defined? && Mongo.IsObjectId(postId)
               && PostIndex(old(posts), postId) >= 0) ==>
                var uid := UserModel.FindByFirebaseUid(users, firebaseUid).value.id;
                var i := PostIndex(old(posts), postId);
                var p := old(posts)[i].(likes := ToggleLike(old(posts)[i].likes, uid));
                posts == old(posts)[i := p]
                && r == Response(Ok, LikeResult(|PopulatedLikes(p.likes, UserModel.UserIds(users))|,
                                                uid !in old(posts)[i].likes, p))
    {
      var u := UserModel.FindByFirebaseUid(users, firebaseUid);
      if u.Undefined? {
        return Response(NotFound, Message("User not found"));
      }
      if !Mongo.IsObjectId(postId) {
        return Response(ServerError, Message("Server error updating like"));
      }
      var i := PostIndex(posts, postId);
      if i < 0 {
        return Response(NotFound, Message("Post not found"));
      }
      var post := posts[i];
      var alreadyLiked := u.value.id in post.likes;
      var likes := if alreadyLiked then RemoveAll(post.likes, u.value.id) else post.likes + [u.value.id];
      var p := post.(likes := likes);
      LikesDoNotAffectValidity(post, likes);
      posts := posts[i := p];
      r := Response(Ok, LikeResult(|PopulatedLikes(likes, UserModel.UserIds(users))|, !alreadyLiked, p));
    }

    /** `addComment`: the text must have at least 10 characters after trimming (400),
        checked before the caller (401) and the post (cast failure 500, 404). The
        trimmed text is pushed with the caller's id; a text over 200 characters
        fails the save's validation (500) and nothing is stored. */
    method AddComment(reqUser: Maybe<VerifyToken.ReqUser>, postId: string, comment: Maybe<string>, now: int)
      returns (r: Response<Body>)
      requires Valid()
      modifies this
      ensures Valid()
      ensures !Truthy(comment) || |Trim(comment.value)| < 10 ==>
                posts == old(posts) && r == Response(BadRequest, Message("Comment must be at least 10 characters."))
      ensures (Truthy(comment) && |Trim(comment.value)| >= 10 && reqUser.Undefined?) ==>
                posts == old(posts) && r == Response(Unauthorized, Message("Unauthorized"))
      ensures (Truthy(comment) && |Trim(comment.value)| >= 10 && reqUser.Defined?
               && (!Mongo.IsObjectId(postId) || PostIndex(old(posts), postId) < 0)) ==>
                posts == old(posts)
                && r.status == (if Mongo.IsObjectId(postId) then NotFound else ServerError)
      ensures r.status == Ok ==>
                Truthy(comment) && reqUser.Defined? && Mongo.IsObjectId(postId) && PostIndex(old(posts), postId) >= 0
                && var i := PostIndex(old(posts), postId);
                   var c := NewComment(reqUser.value.id, Trim(comment.value), now);
                   ValidComment(c)
                   && posts == old(posts)[i := old(posts)[i].(comments := old(posts)[i].comments + [c])]
                   && r.body == CommentList(posts[i].comments)
      ensures r.status != Ok ==> posts == old(posts)
      ensures (Truthy(comment) && reqUser.Defined? && Mongo.IsObjectId(postId) && PostIndex(old(posts), postId) >= 0
               && ValidComment(NewComment(reqUser.value.id, Trim(comment.value), now))) ==> r.status == Ok
    {
      if !Truthy(comment) || |Trim(comment.value)| < 10 {
        return Response(BadRequest, Message("Comment must be at least 10 characters."));
      }
      if reqUser.Undefined? {
        return Response(Unauthorized, Message("Unauthorized"));
      }
      if !Mongo.IsObjectId(postId) {
        return Response(ServerError, Message("Internal Server Error"));
      }
      var i := PostIndex(posts, postId);
      if i < 0 {
        return Response(NotFound, Message("Post not found"));
      }
      var c := NewComment(reqUser.value.id, Trim(comment.value), now);
      if !ValidComment(c) {
        return Response(ServerError, Message("Internal Server Error"));
      }
      var p := posts[i].(comments := posts[i].comments + [c]);
      AddCommentValid(posts[i], c);
      posts := posts[i := p];
      r := Response(Ok, CommentList(p.comments));
    }

    /** `updatedPost`: four truthy fields (400), an author id that casts (500) and
        names a stored user (404), then one new post; a field outside the schema's
        bounds fails the save (500) and nothing is stored. `freshId` and `now` are
        the `_id` and `createdAt` the database assigns. */
    method UpdatedPost(users: seq<UserModel.User>, imageUrl: Maybe<string>, title: Maybe<string>,
                       description: Maybe<string>, userid: Maybe<string>, freshId: string, now: int)
      returns (r: Response<Body>)
      requires Valid()
      requires freshId !in PostIds(posts)
      modifies this
      ensures Valid()
      ensures !Truthy(imageUrl) || !Truthy(userid) || !Truthy(title) || !Truthy(description) ==>
                posts == old(posts) && r == Response(BadRequest, Message("Enter all the fields"))
      ensures (Truthy(imageUrl) && Truthy(userid) && Truthy(title) && Truthy(description)
               && Mongo.IsObjectId(userid.value) && UserModel.FindById(users, userid.value).Undefined?) ==>
                posts == old(posts) && r == Response(NotFound, Message("User not found"))
      ensures r.status == Ok <==>
                Truthy(imageUrl) && Truthy(userid) && Truthy(title) && Truthy(description)
                && Mongo.IsObjectId(userid.value) && UserModel.FindById(users, userid.value).Defined?
                && ValidTitle(title.value) && ValidDescription(description.value)
      ensures r.status == Ok ==>
                var p := NewPost(freshId, title.value, description.value, imageUrl.value, userid.value, now);
                posts == old(posts) + [p] && r.body == CreatedPost("Post created", p)
      ensures r.status != Ok ==> posts == old(posts)
    {
      if !Truthy(imageUrl) || !Truthy(userid) || !Truthy(title) || !Truthy(description) {
        return Response(BadRequest, Message("Enter all the fields"));
      }
      if !Mongo.IsObjectId(userid.value) {
        return Response(ServerError, Message("Server error while adding posts"));
      }
      if UserModel.FindById(users, userid.value).Undefined? {
        return Response(NotFound, Message("User not found"));
      }
      var p := NewPost(freshId, title.value, description.value, imageUrl.value, userid.value, now);
      NewPostValid(freshId, title.value, description.value, imageUrl.value, userid.value, now);
      if !ValidPost(p) {
        return Response(ServerError, Message("Server error while adding posts"));
      }
      var t := posts + [p];
      assert forall k :: 0 <= k < |posts| ==> t[k] == posts[k];
      posts := t;
      r := Response(Ok, CreatedPost("Post created", p));
    }
  }
}
