/** The post and comment documents of backend/models/posts.js: the schema's bounds
    as validity predicates, the defaults, and the timestamps. */
module PostModel {
  import opened Js
  import Mongo

  /** A stored comment; `timestamps: true` gives it a `createdAt`. */
  datatype Comment = Comment(userid: string, comment: string, createdAt: int)

  /** A stored post with its timestamp. `likes` and `by` hold user `_id`s. */
  datatype Post = Post(id: string, title: string, description: string, image: string,
                       likes: seq<string>, comments: seq<Comment>, author: string, createdAt: int)

  /** `userid`: a required ObjectId; `comment`: a required String of 10 to 200
      characters. */
  predicate ValidComment(c: Comment) {
    Mongo.IsObjectId(c.userid) && 10 <= |c.comment| <= 200
  }

  /** `title`: required, 3 to 50 characters. */
  predicate ValidTitle(t: string) {
    t != "" && 3 <= |t| <= 50
  }

  /** `description`: required, at most 300 characters. */
  predicate ValidDescription(d: string) {
    d != "" && |d| <= 300
  }

  /** `image` is a required String; `by` (here `author`) is a required ObjectId. */
  predicate ValidImage(i: string) {
    i != ""
  }

  /** Every path of the post and every comment satisfies the schema; `likes` has
      no constraint beyond holding ids. */
  predicate ValidPost(p: Post) {
    ValidTitle(p.title) && ValidDescription(p.description) && ValidImage(p.image)
    && Mongo.IsObjectId(p.author)
    && forall k :: 0 <= k < |p.comments| ==> ValidComment(p.comments[k])
  }

  /** The document `new Post({ title, description, image, by })` saves at time `now`:
      `likes` and `comments` take their empty defaults. */
  function NewPost(id: string, title: string, description: string, image: string, author: string, now: int): (p: Post)
    ensures p.id == id && p.title == title && p.description == description && p.image == image && p.author == author
    ensures p.likes == [] && p.comments == []
    ensures p.createdAt == now
  {
    Post(id, title, description, image, [], [], author, now)
  }

  /** A new post passes validation exactly when its four given paths do. */
  lemma NewPostValid(id: string, title: string, description: string, image: string, author: string, now: int)
    ensures ValidPost(NewPost(id, title, description, image, author, now)) <==>
              ValidTitle(title) && ValidDescription(description) && ValidImage(image) && Mongo.IsObjectId(author)
  {
  }

  /** The comment `{ userid, comment }` pushed at time `now`. */
  function NewComment(userid: string, text: string, now: int): (c: Comment)
    ensures c.userid == userid && c.comment == text && c.createdAt == now
  {
    Comment(userid, text, now)
  }

  /** A post with one more comment is valid exactly when the post was and the
      comment is. */
  lemma AddCommentValid(p: Post, c: Comment)
    ensures ValidPost(p.(comments := p.comments + [c])) <==> ValidPost(p) && ValidComment(c)
  {
    var q := p.(comments := p.comments + [c]);
    if ValidPost(p) && ValidComment(c) {
      forall k | 0 <= k < |q.comments| ensures ValidComment(q.comments[k]) {
        if k < |p.comments| {
          assert q.comments[k] == p.comments[k];
        }
      }
    }
    if ValidPost(q) {
      assert q.comments[|p.comments|] == c;
      forall k | 0 <= k < |p.comments| ensures ValidComment(p.comments[k]) {
        assert q.comments[k] == p.comments[k];
      }
    }
  }

  /** The schema's bounds are tight: the shortest and longest accepted titles. */
  lemma TitleBounds()
    ensures ValidTitle("abc") && !ValidTitle("ab")
    ensures ValidTitle(seq(50, _ => 'a')) && !ValidTitle(seq(51, _ => 'a'))
  {
  }

  /** `likes` changes keep the post valid: the likes carry no constraint. */
  lemma LikesDoNotAffectValidity(p: Post, likes: seq<string>)
    ensures ValidPost(p.(likes := likes)) == ValidPost(p)
  {
    assert p.(likes := likes).comments == p.comments;
  }
}
