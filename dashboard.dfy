/** The dashboard page of frontend/src/Pages/Dashboard.jsx: the image chosen for a
    new post, `updatePosts`, and the add-post dialog and menu flags. */
module Dashboard {
  import opened Js
  import FileRules
  import KeySort
  import PostModel
  import PostControllers

  const TypeMessage := "Select image file only"
  const FailText := "Failed to add post"

  /** `postImg`: `""` at first, `null` after a post is created, or a chosen `File`. */
  datatype Image = Unset | Cleared | Chosen(file: FileRules.FileInfo)

  /** The body posted to `/api/posts/upload`; an `imageUrl` of `null` is `Undefined`. */
  datatype PostRequest = PostRequest(imageUrl: Maybe<string>, title: string, description: string, userid: string)

  /** How the image host answered: the `secure_url`, or a thrown error with its
      `response?.data?.message`. */
  datatype Upload = Uploaded(url: string) | UploadFailed(uploadMessage: Maybe<string>)

  /** How the backend answered: the created `post`, or a thrown error with its
      `response?.data?.message`. */
  datatype CreateReply = CreatedPost(post: PostModel.Post) | Refused(message: Maybe<string>)

  /** The `catch` block's toast. */
  function FailureToast(message: Maybe<string>): (r: string)
    ensures r != ""
    ensures Truthy(message) ==> r == message.value
    ensures !Truthy(message) ==> r == FailText
  {
    if Truthy(message) then message.value else FailText
  }

  /** A post placed at the front of a newest-first feed keeps it newest-first when
      it is at least as new as every post there. */
  lemma {:induction false} PrependKeepsNewestFirst(feed: seq<PostModel.Post>, p: PostModel.Post)
    requires KeySort.SortedBy(feed, PostControllers.NegCreatedAt)
    requires forall k :: 0 <= k < |feed| ==> feed[k].createdAt <= p.createdAt
    ensures KeySort.SortedBy([p] + feed, PostControllers.NegCreatedAt)
  {
    forall k | 0 <= k < |feed| ensures PostControllers.NegCreatedAt(p) <= PostControllers.NegCreatedAt(feed[k]) {
      assert feed[k].createdAt <= p.createdAt;
    }
    KeySort.PrependSorted(p, feed, PostControllers.NegCreatedAt);
  }

  /** The page. `selfId` is `userData?._id`; `contextComplete` says whether the
      context provides `setPostData` (frontend/src/Context/AuthProvider.jsx does
      not, so calling it throws); `postData` is the list it would update. */
  class Page {
    const selfId: Maybe<string>
    const contextComplete: bool
    var open: bool
    var openAddPost: bool
    var title: string
    var description: string
    var postImg: Image
    var postData: seq<PostModel.Post>
    /** Files sent to the image host, in order. */
    var uploads: seq<FileRules.FileInfo>
    /** Bodies posted to the backend, in order. */
    var requests: seq<PostRequest>

    constructor (selfId: Maybe<string>, contextComplete: bool, postData: seq<PostModel.Post>)
      ensures this.selfId == selfId && this.contextComplete == contextComplete && this.postData == postData
      ensures !open && !openAddPost && title == "" && description == "" && postImg == Unset
      ensures uploads == [] && requests == []
    {
      this.selfId, this.contextComplete, this.postData := selfId, contextComplete, postData;
      open, openAddPost := false, false;
      title, description := "", "";
      postImg := Unset;
      uploads, requests := [], [];
    }

    /** `handleFileChange`: only an accepted file becomes `postImg`. */
    method HandleFileChange(file: Maybe<FileRules.FileInfo>) returns (toast: Maybe<string>)
      modifies this
      ensures var d := FileRules.Decide(file, "image/", TypeMessage);
              (d.Accept? ==> postImg == Chosen(d.file) && toast == Undefined)
              && (d.Reject? ==> postImg == old(postImg) && toast == Defined(d.message))
              && (d.Ignore? ==> postImg == old(postImg) && toast == Undefined)
      ensures open == old(open) && openAddPost == old(openAddPost) && title == old(title)
      ensures description == old(description) && postData == old(postData)
      ensures uploads == old(uploads) && requests == old(requests)
    {
      var d := FileRules.Decide(file, "image/", TypeMessage);
      match d
      case Ignore => toast := Undefined;
      case Reject(m) => toast := Defined(m);
      case Accept(f) => postImg := Chosen(f); toast := Undefined;
    }

    /** `setOpenAddPost(v)` followed by the effect on `openAddPost`, which runs when
        the value changes and flips the menu when the dialog opens. */
    method SetOpenAddPost(v: bool)
      modifies this
      ensures openAddPost == v
      ensures open == (if v && !old(openAddPost) then !old(open) else old(open))
      ensures title == old(title) && description == old(description) && postImg == old(postImg)
      ensures postData == old(postData) && uploads == old(uploads) && requests == old(requests)
    {
      if v != openAddPost {
        openAddPost := v;
        if openAddPost {
          open := !open;
        }
      }
    }

    /** The menu button. */
    method ToggleMenu()
      modifies this
      ensures open == !old(open) && openAddPost == old(openAddPost)
      ensures title == old(title) && description == old(description) && postImg == old(postImg)
      ensures postData == old(postData) && uploads == old(uploads) && requests == old(requests)
    {
      open := !open;
    }

    /** The title input's `onChange`: the cell takes the typed value. */
    method SetTitle(v: string)
      modifies this
      ensures title == v && description == old(description)
      ensures open == old(open) && openAddPost == old(openAddPost) && postImg == old(postImg)
      ensures postData == old(postData) && uploads == old(uploads) && requests == old(requests)
    {
      title := v;
    }

    /** The description textarea's `onChange`. */
    method SetDescription(v: string)
      modifies this
      ensures description == v && title == old(title)
      ensures open == old(open) && openAddPost == old(openAddPost) && postImg == old(postImg)
      ensures postData == old(postData) && uploads == old(uploads) && requests == old(requests)
    {
      description := v;
    }

    /** `updatePosts`. A chosen file is uploaded first; `""` and `null` are posted as
        they are. Reading `userData._id` without a user throws before the post. A
        created post goes to the front of `postData`, the dialog closes and
        `postImg` becomes `null`; `title` and `description` are kept. Any error
        leaves the page as it was and shows a toast. */
    method UpdatePosts(upload: Upload, reply: CreateReply) returns (toast: string)
      modifies this
      ensures old(postImg).Chosen? ==> uploads == old(uploads) + [old(postImg).file]
      ensures !old(postImg).Chosen? ==> uploads == old(uploads)
      ensures title == old(title) && description == old(description) && open == old(open)
      ensures var imageUrl := match old(postImg)
                              case Unset => Defined("")
                              case Cleared => Undefined
                              case Chosen(_) => (if upload.Uploaded? then Defined(upload.url) else Undefined);
              var reached := !(old(postImg).Chosen? && upload.UploadFailed?) && selfId.Defined?;
              var created := reached && reply.CreatedPost? && contextComplete;
              (reached ==> requests == old(requests) + [PostRequest(imageUrl, title, description, selfId.value)])
              && (!reached ==> requests == old(requests))
              && (created ==> postData == [reply.post] + old(postData) && !openAddPost && postImg == Cleared
                              && toast == "Profile picture updated!")
              && (!created ==> postData == old(postData) && openAddPost == old(openAddPost) && postImg == old(postImg))
              && (old(postImg).Chosen? && upload.UploadFailed? ==> toast == FailureToast(upload.uploadMessage))
              && (reached && reply.Refused? ==> toast == FailureToast(reply.message))
    {
      var imageUrl: Maybe<string>;
      match postImg {
        case Unset => imageUrl := Defined("");
        case Cleared => imageUrl := Undefined;
        case Chosen(f) =>
          uploads := uploads + [f];
          if upload.UploadFailed? {
            return FailureToast(upload.uploadMessage);
          }
          imageUrl := Defined(upload.url);
      }
      if selfId.Undefined? {
        return FailureToast(Undefined);
      }
      requests := requests + [PostRequest(imageUrl, title, description, selfId.value)];
      if reply.Refused? {
        return FailureToast(reply.message);
      }
      if !contextComplete {
        return FailureToast(Undefined);
      }
      postData := [reply.post] + postData;
      openAddPost := false;
      postImg := Cleared;
      toast := "Profile picture updated!";
    }
  }
}
