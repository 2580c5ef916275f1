# ViMaFlow core, modelled in Dafny

ViMaFlow is a developer community app. It has an Express/MongoDB backend, a socket.io
chat relay and a React client. This project models the parts of it that make decisions:

- **Direct messaging:**
  - the socket.io room table and its fan-out (`backend/server.js`);
  - the chat store with its history query (`backend/controllers/chatControllers.js`);
  - the client transcript with its live-message filter, de-duplication rule and contact
    search (`frontend/src/Pages/Chats.jsx`).
- **Posts:**
  - the schema bounds;
  - the like toggle, comments, creation and the feeds;
  - the optimistic like state machine with rollback shared by the feed card and the
    detail page;
  - the local like toggle of a comment row.
- **Projects and users:**
  - project creation, with its check order, the normalisation of `technologies` and the
    unique `(title, userId)` key;
  - registration and the `/me` lookup;
  - the bearer-header parser;
  - the admin guard;
  - the client's error-message mapper and its sign-in/out state.
- **Small client state machines:**
  - the career quiz;
  - the image and PDF file rules;
  - PDF text assembly and the review flags;
  - the follow toggle and skills line;
  - the ordering and totals of the analytics charts.

Modelling conventions:

- **`undefined` and missing values:** JavaScript's `undefined`/`null` is the value `Undefined` of `Js.Maybe`, and `===` is equality of those values, so two absent ids are equal.
- **Truthiness:** a string is truthy when it is present and non-empty (`Js.Truthy`).
- **Responses:** an HTTP answer is `Http.Response(status, body)`.
- **Objects changed in place:**
  - each object whose state the code updates is a class: the room table, a store, a component's state cells;
  - its methods state the new state via `old(...)`;
  - the pure functions they are specified by carry the lemmas.
- **Async handlers:** each async client handler is split at its `await`. One method runs up to the request, and one method takes the outcome; in between the "in flight" state can be seen.
- **Inputs that are not modelled:** clocks (`now`), database-assigned ids (`freshId`), save failures, Firebase token checks, Cloudinary uploads, pdf.js and Firestore snapshots are parameters of the methods that use them.

## Model

| member | source | states |
|---|---|---|
| ChatRooms.RoomId | backend/server.js:22 | defines the room id `[a, b].sort().join("-")`; its properties are the RoomId lemmas below |
| ChatRooms.AddMember | backend/server.js:23 | defines `socket.join` on the room table: the socket is added to one room unless already there; see AddMemberOnlyAdds |
| ChatRooms.RoomIdSymmetric | backend/server.js:21-30 | the room id of (a, b) equals the room id of (b, a), absent ids included |
| ChatRooms.RoomIdOrdered | backend/server.js:22 | for two present ids the room id is the smaller id, "-", then the larger id |
| ChatRooms.RoomIdOneMissing | backend/server.js:22 | an absent id sorts last and is rendered as "" after the "-" |
| ChatRooms.RoomIdInjective | backend/server.js:22 | for ids without "-", equal room ids come from the same unordered pair |
| ChatRooms.RoomIdCollidesWithDashes | backend/server.js:22 | ids that contain "-" can give two different pairs the same room |
| ChatRooms.AddMemberOnlyAdds | backend/server.js:21-25 | joining puts the socket in the room, keeps every earlier membership of every room, changes no other room and keeps rooms duplicate-free |
| ChatRooms.AddMemberIdempotent | backend/server.js:23 | joining the same room twice is the same as joining once |
| ChatRooms.JoinedSocketReachedFromEitherSide | backend/server.js:21-30 | a socket that joined as (a, b) is in the room a message sent as (b, a) is addressed to |
| ChatRooms.SocketInSeveralRooms | backend/server.js:21-25 | joining a second room does not leave the first |
| ChatRooms.Server.JoinRoom | backend/server.js:21-25 | the table becomes the old table with the socket added to the canonical room; it stays duplicate-free |
| ChatRooms.Server.SendMessage | backend/server.js:27-30 | one `receiveMessage` per room member, in join order, each carrying exactly `{senderId, message}`; an empty room gets nothing; the table is only read |
| ChatRooms.FanoutExactlyOnce | backend/server.js:29 | fan-out reaches each member of a room exactly once and no socket outside it |
| ChatRooms.EchoToSender | backend/server.js:29 | after joining, the sender's own socket receives its own message once (`io.to`, not `socket.to`) |
| ChatStore.History | backend/controllers/chatControllers.js:12-17 | defines the history query: the pair's chats sorted by `createdAt`; see HistoryIsSortedConversation |
| ChatStore.Conversation | backend/controllers/chatControllers.js:12-16 | the stored chats whose (senderId, receiverId) is (a, b) or (b, a), and only those |
| ChatStore.HistoryIsSortedConversation | backend/controllers/chatControllers.js:12-17 | the history holds exactly the pair's chats, each as often as stored, ordered by `createdAt` ascending |
| ChatStore.HistorySymmetric | backend/controllers/chatControllers.js:12-16 | history(a, b) equals history(b, a) |
| ChatStore.ConversationSymmetric | backend/controllers/chatControllers.js:13-16 | the `$or` filter gives the same list for (a, b) and (b, a) |
| ChatStore.NewestChatComesLast | backend/controllers/chatControllers.js:4-37 | a newly saved chat of the pair that is not older than any stored chat becomes the last history entry |
| ChatStore.Store.GetAllChatBtwTwoUser | backend/controllers/chatControllers.js:4-26 | 404 "Sesender not found" before the receiver lookup, then 404 "Receiver not found"; an id that does not cast gives 500; 200 exactly when both users exist, with the sorted history; the store is only read |
| ChatStore.Store.SendNewMessage | backend/controllers/chatControllers.js:28-45 | appends exactly one chat with the given fields and answers 201 with it, with no user or self-message check; a failed save gives 500 and appends nothing |
| ChatStore.SelfMessageIsStored | backend/controllers/chatControllers.js:30-37 | a message to oneself is accepted and shows up in one's own history |
| ChatsPage.FromPayload | backend/server.js:29 | a live message reaches the client without `_id`, `receiverId` or `createdAt` |
| ChatsPage.FromActive | frontend/src/Pages/Chats.jsx:98-101 | defines the partner filter on `senderId` or `receiverId`; see LivePayloadFilter |
| ChatsPage.HasSameId | frontend/src/Pages/Chats.jsx:103 | defines `prev.some((m) => m._id === message._id)` |
| ChatsPage.LivePayloadFilter | frontend/src/Pages/Chats.jsx:98-101 | a live payload passes the active-partner filter only through its `senderId`, since its `receiverId` is absent |
| ChatsPage.MergeLive | frontend/src/Pages/Chats.jsx:102-106 | the merge as written: unchanged exactly when some entry has the same `_id`, otherwise one entry appended |
| ChatsPage.MergeLiveKeepsPrefix | frontend/src/Pages/Chats.jsx:102-106 | taking in a message never removes or reorders entries; it appends at most one |
| ChatsPage.EntryWithoutIdBlocksLive | frontend/src/Pages/Chats.jsx:102-120 | any transcript entry without `_id` (an optimistic one, or an earlier live one) makes the merge as written drop every live message |
| ChatsPage.SecondLiveMessageDropped | frontend/src/Pages/Chats.jsx:102-106 | under the merge as written, after one live message every later live message is dropped |
| ChatsPage.MergeLiveById | frontend/src/Pages/Chats.jsx:102-106 | the corrected merge: de-duplicates only by a present `_id` |
| ChatsPage.MergeLiveByIdShowsLive | frontend/src/Pages/Chats.jsx:102-106 | under the corrected merge every live payload is appended, and a message with an id is dropped exactly when its id is already there |
| ChatsPage.MergeLiveByIdKeepsIdsUnique | frontend/src/Pages/Chats.jsx:102-106 | the corrected merge keeps present ids unique |
| ChatsPage.MatchesQuery | frontend/src/Pages/Chats.jsx:148-151 | defines the search test: lowercased `displayName` or `email` includes the lowercased query, a missing field never matching |
| ChatsPage.FilteredUsers | frontend/src/Pages/Chats.jsx:144-152 | defines `filteredUsers`; see FilteredUsersSpec |
| ChatsPage.KeepUsers | frontend/src/Pages/Chats.jsx:144-152 | an order-preserving subsequence holding exactly the users other than the current one that match the query |
| ChatsPage.FilteredUsersSpec | frontend/src/Pages/Chats.jsx:144-152 | `filteredUsers` is a subsequence of `allUsers`; it never contains the current user; a user is kept iff the lowercased `displayName` or `email` contains the lowercased query |
| ChatsPage.EmptyQueryKeepsNamedUsers | frontend/src/Pages/Chats.jsx:148-152 | the empty query keeps every other user with a `displayName` or an `email` |
| ChatsPage.NoUsersNoContacts | frontend/src/Pages/Chats.jsx:144 | without `allUsers` there are no contacts |
| ChatsPage.Page.OnConnect | frontend/src/Pages/Chats.jsx:42-60 | the socket exists only with a token and a user; on connect, a join for (self, partner) is emitted when a partner is active |
| ChatsPage.Page.TokenLoaded | frontend/src/Pages/Chats.jsx:27-39 | a fetched token is stored, a failure keeps the old one; a changed token re-runs the socket effect, which disconnects the current socket |
| ChatsPage.Page.OnDisconnect | frontend/src/Pages/Chats.jsx:63-66 | the socket's disconnect or the effect's cleanup leaves the page disconnected and changes nothing else |
| ChatsPage.Page.HandleSelectUser | frontend/src/Pages/Chats.jsx:134-142 | the partner becomes active; a join is emitted only when connected; changing partner re-creates the socket |
| ChatsPage.Page.OnHistoryLoaded | frontend/src/Pages/Chats.jsx:69-87 | a loaded history replaces the transcript and a failure empties it; without partner, user or token nothing is fetched |
| ChatsPage.Page.HandleWebSocketMessage | frontend/src/Pages/Chats.jsx:97-108 | the transcript changes only for a message from or to the active partner, and then by the merge as written (`MergeLive`), so a live payload is dropped once any entry lacks an `_id`; the loop is proved to compute `prev.some` |
| ChatsPage.Page.SendMessage | frontend/src/Pages/Chats.jsx:110-132 | no-op for blank input or no partner or user; otherwise exactly one entry (self, partner, untrimmed input, time) is appended, the input cleared, the message emitted when connected and posted; a failed save removes nothing |
| UserModel.UniqueUsers | backend/models/user.js:14 | defines the store invariant: no two users share a `firebaseUid` or an `_id` |
| Mongo.IsObjectId | backend/controllers/postControllers.js:91 | defines `mongoose.Types.ObjectId.isValid`: 12 characters or 24 hex digits |
| UserModel.NewUser | backend/models/user.js:13-28 | a new user has the three given fields, `profilePic`/`bio` "", the empty `aiGeneratedPath` object and empty lists; there is no `isAdmin` path |
| UserModel.NewUserValid | backend/models/user.js:14-16 | a new user passes validation iff `firebaseUid`, `displayName` and `email` are non-empty |
| UserModel.FindByFirebaseUid | backend/controllers/userControllers.js:3-28 | the lookup returns a stored user with that uid, and is absent iff no user has it |
| UserModel.FindById | backend/controllers/postControllers.js:130 | the lookup returns a stored user with that id, and is absent iff none has it |
| UserModel.FindByFirebaseUidUnique | backend/models/user.js:14 | with unique uids the lookup returns the one user holding the uid |
| UserControllers.UserStore.SignInViaEmail | backend/controllers/userControllers.js:3-16 | 200 with the user whose uid matches the caller's, or 404 "User not found"; the store is only read |
| UserControllers.UserStore.Register | backend/controllers/userControllers.js:18-97 | any falsy field gives 400 "Enter all the feilds" and an existing uid gives 400 "User already exists", both leaving the store unchanged; a failed save gives the channel's 500 text; otherwise exactly one new user is appended and returned with 201; uids stay unique |
| UserControllers.InsertKeepsUnique | backend/controllers/userControllers.js:25-36 | appending a user with a new uid and id keeps uids and ids unique |
| UserControllers.SecondRegistrationRefused | backend/controllers/userControllers.js:25-28 | right after a registration the same uid is found, so a second registration on any channel is refused |
| VerifyToken.BearerToken | backend/middleware/verifyToken.js:7-11 | a token is read iff the header is present and starts with "Bearer "; it holds no space |
| VerifyToken.SplitAfterPrefix | backend/middleware/verifyToken.js:11 | splitting a "Bearer " header on spaces gives "Bearer" and then the fields of the rest |
| VerifyToken.TokenIsFirstWord | backend/middleware/verifyToken.js:11 | the token is the first space-free word after "Bearer " |
| VerifyToken.TwoSpacesGiveEmptyToken | backend/middleware/verifyToken.js:11 | "Bearer  x" (two spaces) gives the empty token |
| VerifyToken.ReqUserOf | backend/middleware/verifyToken.js:22-27 | `req.user` copies id, uid and email; `isAdmin` is always absent because the schema has no such path |
| VerifyToken.Authenticate | backend/middleware/verifyToken.js:4-34 | 401 "Unauthorized: No token provided" without a bearer header, 401 "Invalid or expired token" for a failed check, 401 "User not found" without a stored user, otherwise `next` with the copied user; the outcome is `next` or 401 |
| AdminControllers.Project | backend/controllers/adminControllers.js:8 | one public record per user, in order |
| AdminControllers.PublicKeepsAllButUid | backend/controllers/adminControllers.js:8 | the projection drops only `firebaseUid` |
| AdminControllers.GetAllUser | backend/controllers/adminControllers.js:3-15 | 403 "Access denied" unless `isAdmin` is true; a thrown error (including a missing `req.user`) gives 500; 200 exactly for an admin with a successful query, with every user projected |
| AdminControllers.AdminListUnreachable | backend/controllers/adminControllers.js:5 | every request that passed the token check is denied with 403 |
| PostModel.NewPost | backend/models/posts.js:20-48 | a new post has the given fields, empty `likes` and `comments`, and its `createdAt` |
| PostModel.ValidComment | backend/models/posts.js:3-18 | defines the comment schema's rules: an ObjectId author and 10 to 200 characters |
| PostModel.ValidPost | backend/models/posts.js:20-48 | defines the post schema's rules on title, description, image, author and comments |
| PostModel.NewPostValid | backend/models/posts.js:22-45 | a new post is valid iff title (3..50), description (non-empty, at most 300), image and author are |
| PostModel.NewComment | backend/models/posts.js:3-18 | a comment records its author, text and `createdAt` |
| PostModel.AddCommentValid | backend/models/posts.js:3-44 | a post with one more comment is valid iff the post was and the comment (ObjectId author, 10..200 characters) is |
| PostModel.TitleBounds | backend/models/posts.js:22-27 | the title bounds are tight: 3 and 50 are accepted, 2 and 51 refused |
| PostModel.LikesDoNotAffectValidity | backend/models/posts.js:37-43 | `likes` carries no constraint |
| PostControllers.ToggleLike | backend/controllers/postControllers.js:31-38 | defines the like toggle, `pull` when present and `push` otherwise; see ToggleLikeSpec |
| PostControllers.RemoveAll | backend/controllers/postControllers.js:35 | `pull` removes every occurrence of the id and keeps the order of the rest |
| PostControllers.ToggleLikeSpec | backend/controllers/postControllers.js:31-38 | after the toggle the user is in the list iff they were not; a like adds one copy, an unlike removes all copies, other ids are untouched |
| PostControllers.ToggleKeepsDuplicateFree | backend/controllers/postControllers.js:31-38 | a duplicate-free list stays duplicate-free |
| PostControllers.LikeThenUnlikeRestores | backend/controllers/postControllers.js:34-38 | a like then an unlike gives back the list exactly |
| PostControllers.ToggleTwiceRestoresContents | backend/controllers/postControllers.js:34-38 | two toggles on a duplicate-free list restore its contents, though an unlike-then-like moves the user to the end |
| PostControllers.DuplicatesCollapse | backend/controllers/postControllers.js:34-38 | on a list with duplicates, two toggles leave one copy |
| PostControllers.PopulatedLikes | backend/controllers/postControllers.js:42-47 | defines `populate("likes")`: likes naming no stored user drop out |
| PostControllers.PopulatedCountIsLength | backend/controllers/postControllers.js:42-47 | when every like names a stored user, the returned count is the list's length |
| PostControllers.PostIndex | backend/controllers/postControllers.js:28-29 | finds the stored post with the id, or reports none |
| PostControllers.NewestFirst | backend/controllers/postControllers.js:11 | defines `.sort({ createdAt: -1 })`; see NewestFirstSpec |
| PostControllers.NewestFirstSpec | backend/controllers/postControllers.js:5-18 | feeds hold the selected posts, each as often as stored, newest first |
| PostControllers.ByAuthor | backend/controllers/postControllers.js:111 | exactly the posts by the user |
| PostControllers.FollowingFeedMembers | backend/controllers/postControllers.js:160-162 | the following feed holds exactly the posts whose author the caller follows |
| PostControllers.PostStore.GetAllPosts | backend/controllers/postControllers.js:5-18 | 200 with every post, newest first |
| PostControllers.PostStore.GetPostDataUser | backend/controllers/postControllers.js:108-122 | 200 with the user's posts, newest first; an id that does not cast gives 500 |
| PostControllers.PostStore.GetFollowingPosts | backend/controllers/postControllers.js:152-169 | 404 for an unknown caller, otherwise the following feed |
| PostControllers.PostStore.GetPostById | backend/controllers/postControllers.js:87-106 | 400 "Invalid Post ID" before the lookup, 404 when absent, else 200 with the post |
| PostControllers.PostStore.UpdateLike | backend/controllers/postControllers.js:20-55 | 404 for an unknown user before the post lookup, 404 for an unknown post, both with likes unchanged; otherwise only that post's likes are toggled, and the answer carries `liked = !alreadyLiked` and the populated count |
| PostControllers.PostStore.AddComment | backend/controllers/postControllers.js:57-85 | 400 for a missing comment or one shorter than 10 after trimming, before 401 without `req.user.id` and 404; otherwise exactly one `{caller, trimmed text}` is appended and earlier comments are kept; a schema failure gives 500 |
| PostControllers.PostStore.UpdatedPost | backend/controllers/postControllers.js:124-150 | 400 when any of the four fields is falsy, 404 for an unknown author, 500 when validation fails; otherwise one new post with those fields is stored |
| Comments.Flip | frontend/src/components/Comments.jsx:10-13 | a click flips the flag and moves the count by one: down if it was liked, up otherwise |
| Comments.FlipTwice | frontend/src/components/Comments.jsx:10-13 | two clicks restore flag and count |
| Comments.FlipKeepsOffset | frontend/src/components/Comments.jsx:10-13 | the count stays the initial count plus one while liked |
| Comments.CommentRow.constructor | frontend/src/components/Comments.jsx:6-8 | a row starts not liked, with the number of likes or 0 and the reply input hidden, and with its offset invariant established |
| Comments.CommentRow.HandleLike | frontend/src/components/Comments.jsx:10-13 | the row takes one `Flip` step and keeps its offset invariant |
| Comments.CommentRow.ToggleReply | frontend/src/components/Comments.jsx:66 | the reply button flips reply-input visibility |
| Comments.TwoClicksRestore | frontend/src/components/Comments.jsx:10-13 | two clicks on a row leave it as it was |
| PostCard.LikeMatches | frontend/src/components/PostCard.jsx:24-26 | defines `like === userData?._id \|\| like?._id === userData?._id` for one like |
| PostCard.InitialLiked | frontend/src/components/PostCard.jsx:23-27 | defines `info.likes?.some(...)`; see InitialLikedForUser |
| PostCard.InitialLikedForUser | frontend/src/components/PostCard.jsx:23-27 | with a known user the card starts liked iff some like is that user, as a raw id or as `._id` |
| PostCard.InitialLikedWithoutUser | frontend/src/components/PostCard.jsx:23-27 | without `userData` any raw-id like makes the card start liked (`undefined === undefined`) |
| PostCard.ClickLike | frontend/src/components/PostCard.jsx:40-51 | no change without a user or while a request is in flight; otherwise the previous values are captured and flag and count take one `Flip` step |
| PostCard.SettleLike | frontend/src/components/PostCard.jsx:53-69 | success adopts the server's `liked` and `likes`, failure restores the captured values, and the flag is always cleared |
| PostCard.FailureRestores | frontend/src/components/PostCard.jsx:44-69 | a failed request puts the card back exactly where the click found it |
| PostCard.SuccessAdopts | frontend/src/components/PostCard.jsx:60-61 | a successful request shows the server's values whatever the optimistic step showed |
| PostCard.ClicksWhileLoadingIgnored | frontend/src/components/PostCard.jsx:42 | clicks during a request change nothing |
| PostCard.OptimisticMatchesServer | frontend/src/components/PostCard.jsx:45-49 | when the card showed the stored list correctly, the optimistic step shows what `updateLike` will answer |
| PostCard.ShareUrlNamesPost | frontend/src/components/PostCard.jsx:96 | the share link is the origin, "/post/", then the id, and the id can be read back |
| PostCard.ShareUrlInjective | frontend/src/components/PostCard.jsx:96 | different posts get different links |
| PostCard.Card.constructor | frontend/src/components/PostCard.jsx:23-35 | the card starts liked by `InitialLiked` (see InitialLikedForUser and InitialLikedWithoutUser), with the number of likes or 0, the post's comments or [] and nothing in flight |
| PostCard.Card.HandleLike | frontend/src/components/PostCard.jsx:40-51 | the card's state takes the `ClickLike` step |
| PostCard.Card.LikeSettled | frontend/src/components/PostCard.jsx:53-69 | the card's state takes the `SettleLike` step |
| PostCard.Card.HandleComment | frontend/src/components/PostCard.jsx:72-76 | a blank text or no user does nothing; otherwise the untrimmed text is sent |
| PostCard.Card.CommentSettled | frontend/src/components/PostCard.jsx:77-93 | success replaces the comments and clears the text; failure keeps both; the flag is cleared |
| PostDetails.LikedAsWritten | frontend/src/components/PostDetails.jsx:34 | the liked test as written: some like's `._id` equals the user's |
| PostDetails.LikedAsWrittenIgnoresOwnLike | frontend/src/components/PostDetails.jsx:34 | on the raw ids `getPostById` sends, the test as written is false for every logged-in user, and true without a user iff there are likes |
| PostDetails.OwnLikeNotShown | frontend/src/components/PostDetails.jsx:34 | a concrete post liked by "u" opens as not liked for "u" |
| PostDetails.Liked | frontend/src/components/PostDetails.jsx:34 | the corrected liked test, which compares raw ids too |
| PostDetails.LikedMatchesServer | frontend/src/components/PostDetails.jsx:34 | under the corrected test the page opens liked iff the user is in the post's likes |
| PostDetails.Details.Fetched | frontend/src/components/PostDetails.jsx:24-45 | after a fetch: the post, its comments or [], the liked flag by the test as written (`LikedAsWritten`, so by LikedAsWrittenIgnoresOwnLike a signed-in user's own like is not shown) and the count or 0; a failure keeps the state; loading ends either way |
| PostDetails.Details.HandleLike | frontend/src/components/PostDetails.jsx:47-58 | the same `ClickLike` step as the feed card |
| PostDetails.Details.LikeSettled | frontend/src/components/PostDetails.jsx:60-76 | the same `SettleLike` step |
| PostDetails.Details.HandleComment | frontend/src/components/PostDetails.jsx:79-83 | a blank text or no user does nothing |
| PostDetails.Details.CommentSettled | frontend/src/components/PostDetails.jsx:84-100 | success replaces the comments and clears the text |
| PostDetails.Details.ShareLink | frontend/src/components/PostDetails.jsx:103 | the share URL is the origin, "/post/", then the page's id |
| ProjectModel.ValidProject | backend/models/projects.js:5-40 | defines the project schema's required paths and length bounds |
| ProjectModel.ImageOrDefault | backend/models/projects.js:31-35 | the placeholder is used only when `image` is absent |
| ProjectModel.EmptyImageKept | backend/models/projects.js:31-35 | an empty image string is stored as "" |
| ProjectModel.InsertKeepsUnique | backend/models/projects.js:47 | appending keeps `(title, userId)` and ids unique iff the new project's key and id are new |
| ProjectModel.InsertKeepsValidStore | backend/models/projects.js:5-47 | appending a valid project with a new key and id keeps the store valid |
| ProjectControllers.TrimAllSpec | backend/controllers/projectControllers.js:48-49 | one entry per input entry, in order; each is a slice of its input with only whitespace cut and none left at either end, empty exactly when the input was blank; trimming the list again changes nothing |
| ProjectControllers.Technologies | backend/controllers/projectControllers.js:47-49 | defines `technologieArray`; see TechnologiesShape |
| ProjectControllers.TechnologiesShape | backend/controllers/projectControllers.js:47-49 | an array keeps its length and order, trimmed; a string gives one trimmed piece per comma plus one, empty pieces kept, so never an empty list |
| ProjectControllers.TechnologiesFromText | backend/controllers/projectControllers.js:49 | the pieces are the text's comma fields, which join back to the text |
| ProjectControllers.TrimOrEmptySpec | backend/controllers/projectControllers.js:55-57 | a given value is reduced to its slice without surrounding whitespace, a missing one to ""; the result is "" exactly when the value is missing or blank, and is already trimmed |
| ProjectControllers.Build | backend/controllers/projectControllers.js:51-59 | title and description trimmed, technologies normalised, image and links trimmed or "", `userId` the caller's |
| ProjectControllers.DefaultImageNeverUsed | backend/controllers/projectControllers.js:55 | the handler never lets the schema's placeholder image apply |
| ProjectControllers.BlankTitleFailsValidation | backend/controllers/projectControllers.js:39-52 | a title of spaces passes the `!title` check but fails validation after trimming |
| ProjectControllers.ProjectsOf | backend/controllers/projectControllers.js:8 | exactly the user's projects |
| ProjectControllers.ProjectStore.GetProjectDate | backend/controllers/projectControllers.js:4-19 | 200 with the user's projects, [] when there are none; an id that does not cast gives 500 |
| ProjectControllers.ProjectStore.AddProjects | backend/controllers/projectControllers.js:21-83 | 401 without uid before any lookup, then 404 before field checks, then 400; a validation failure gives 500 and a duplicate `(title, userId)` 409 "title already exists."; otherwise one normalised project is stored and returned with 201; the store stays valid |
| AuthProvider.FirebaseText | frontend/src/Context/AuthProvider.jsx:19-28 | defines the table of the eight Firebase codes and their texts; see MappedCodes |
| AuthProvider.FriendlyError | frontend/src/Context/AuthProvider.jsx:17-35 | with a code: the mapped text, or the generic text, whatever the response; otherwise the server message or "Server error, please try again", then `err.message` or "Something went wrong"; never empty |
| AuthProvider.MappedCodes | frontend/src/Context/AuthProvider.jsx:19-28 | exactly the eight listed codes have their own text |
| AuthProvider.CodeDecides | frontend/src/Context/AuthProvider.jsx:18-29 | with a truthy code, `response` and `message` do not matter |
| AuthProvider.SaveBodyOf | frontend/src/Context/AuthProvider.jsx:37-98 | a missing email or name becomes "NoEmailProvided" / "Unknown Name" |
| AuthProvider.SaveBodyPassesFieldCheck | frontend/src/Context/AuthProvider.jsx:39-45 | for a user with a uid, the saved body always passes the backend's three-field check |
| AuthProvider.SaveUser | frontend/src/Context/AuthProvider.jsx:37-98 | a saved user is returned; "User already exists" falls back to `/me`; any other error gives null |
| AuthProvider.ReturningUserFallsBack | frontend/src/Context/AuthProvider.jsx:43-57 | for a stored uid the backend refuses the save, the client fetches `/me` and gets the stored user, and the store is unchanged |
| AuthProvider.Provider.AuthStateChanged | frontend/src/Context/AuthProvider.jsx:104-109 | `user` follows the auth state |
| AuthProvider.Provider.FetchUserData | frontend/src/Context/AuthProvider.jsx:111-127 | `userData` is null without a user, else the `/me` answer or null |
| AuthProvider.Provider.Signout | frontend/src/Context/AuthProvider.jsx:173-177 | both `user` and `userData` become null |
| RecommendationCard.Endpoint | frontend/src/components/RecomendationCard.jsx:21 | defines the route a click posts to: "unfollow" when following, "follow" otherwise |
| RecommendationCard.FollowsCard | frontend/src/components/RecomendationCard.jsx:13 | defines `userData?.following?.includes(cardId)` |
| RecommendationCard.ButtonLabel | frontend/src/components/RecomendationCard.jsx:96-100 | "Please wait..." while loading, otherwise "Unfollow" or "Follow" by state |
| RecommendationCard.LabelMatchesEndpoint | frontend/src/components/RecomendationCard.jsx:19-100 | the label names the request a click sends |
| RecommendationCard.SkillsLine | frontend/src/components/RecomendationCard.jsx:79-84 | omitted without skills; otherwise the first three joined with ", ", plus " ..." iff there are more than three |
| RecommendationCard.SkillsLineStartsWithFirst | frontend/src/components/RecomendationCard.jsx:79-84 | the line begins with the first skill |
| RecommendationCard.Card.Sync | frontend/src/components/RecomendationCard.jsx:12-14 | `following` is true iff the user's `following` contains the card's id |
| RecommendationCard.Card.HandleFollowToggle | frontend/src/components/RecomendationCard.jsx:16-28 | no user, no request; otherwise loading is set and "unfollow" is sent when following, "follow" otherwise |
| RecommendationCard.Card.FollowSettled | frontend/src/components/RecomendationCard.jsx:29-46 | a successful POST flips `following` before the context calls, so the flip stands when they throw; loading is always cleared |
| ViMaCompass.ErrorMessage | frontend/src/components/ViMaCompass.jsx:145-148 | the timeout text iff the code is ECONNABORTED, otherwise the server message or the generic text; never empty |
| ViMaCompass.Outcome | frontend/src/components/ViMaCompass.jsx:137-151 | `path`, then `user.aiGeneratedPath`; a reply with neither is handled as an error, and an error shows `{raw: message}` |
| ViMaCompass.MissingPathIsError | frontend/src/components/ViMaCompass.jsx:137-138 | a reply without a path shows the same as an error without code or response |
| ViMaCompass.TimeoutOnlyOnAbort | frontend/src/components/ViMaCompass.jsx:145-148 | a timed-out request shows the timeout text; a reply with a path shows the path |
| ViMaCompass.AllAnsweredEnough | frontend/src/components/ViMaCompass.jsx:122 | answering the six questions allows the submit |
| ViMaCompass.Quiz.constructor | frontend/src/components/ViMaCompass.jsx:110-115 | a stored path is shown without the quiz; otherwise the quiz is shown |
| ViMaCompass.Quiz.HandleAnswer | frontend/src/components/ViMaCompass.jsx:117-119 | exactly one answer is set; the others are unchanged |
| ViMaCompass.Quiz.HandleSelect | frontend/src/components/ViMaCompass.jsx:75-82 | the current question is answered and the slide advances unless it is the last |
| ViMaCompass.Quiz.SubmitStart | frontend/src/components/ViMaCompass.jsx:121-135 | fewer than six answers: nothing sent, nothing changes; otherwise loading is set and the answers are posted, or without `userData` the submit ends with the generic error |
| ViMaCompass.Quiz.SubmitSettled | frontend/src/components/ViMaCompass.jsx:137-155 | the outcome is shown, the quiz hidden, `completed` true and `loading` false |
| ViMaCompass.Quiz.HandleRetake | frontend/src/components/ViMaCompass.jsx:158-163 | answers emptied, path cleared, quiz shown |
| ViMaCompass.SubmitShowsResult | frontend/src/components/ViMaCompass.jsx:185 | after any settled submit the result card is rendered |
| FileRules.Decide | frontend/src/Pages/Dashboard.jsx:28-36 | no file: nothing; over 5 MiB: the size message before any type check; otherwise accepted iff the type has the prefix |
| FileRules.SizeBoundary | frontend/src/Pages/Dashboard.jsx:31-32 | exactly 5 MiB is accepted and one byte more refused |
| FileRules.SizeBeforeType | frontend/src/components/ResumeReviewer.jsx:41-44 | a file both too large and of the wrong type gets the size message |
| Dashboard.FailureToast | frontend/src/Pages/Dashboard.jsx:73 | the server message, or "Failed to add post" |
| Dashboard.PrependKeepsNewestFirst | frontend/src/Pages/Dashboard.jsx:66 | putting a post at least as new as the others at the front keeps the feed newest first |
| Dashboard.Page.HandleFileChange | frontend/src/Pages/Dashboard.jsx:28-36 | only an accepted image becomes `postImg` |
| Dashboard.Page.SetOpenAddPost | frontend/src/Pages/Dashboard.jsx:77-81 | opening the dialog flips the menu flag |
| Dashboard.Page.ToggleMenu | frontend/src/Pages/Dashboard.jsx:251 | the menu button flips the menu |
| Dashboard.Page.SetTitle | frontend/src/Pages/Dashboard.jsx:180-182 | the title input sets `title` and nothing else |
| Dashboard.Page.SetDescription | frontend/src/Pages/Dashboard.jsx:190-192 | the description input sets `description` and nothing else |
| Dashboard.Page.UpdatePosts | frontend/src/Pages/Dashboard.jsx:38-75 | a chosen file is uploaded first; a created post goes to the front of `postData`, the dialog closes and `postImg` is cleared while title and description are kept; any failure resets nothing |
| ResumeReviewer.PdfText | frontend/src/components/ResumeReviewer.jsx:24-35 | defines the extracted text: each page's items joined by " ", then a newline; see PdfTextLines |
| ResumeReviewer.ExtractText | frontend/src/components/ResumeReviewer.jsx:24-35 | the loop over pages 1..n computes `PdfText` |
| ResumeReviewer.PdfTextAppend | frontend/src/components/ResumeReviewer.jsx:28-33 | the text of a document is the text of its first pages followed by that of the rest |
| ResumeReviewer.PdfTextLines | frontend/src/components/ResumeReviewer.jsx:31-32 | splitting the text on newlines gives each page's items joined by " ", in order, then ""; one newline per page; empty for no pages |
| ResumeReviewer.Reviewer.Label | frontend/src/components/ResumeReviewer.jsx:132-140 | "Uploading...", "Analyzing...", or "Submit for Review" exactly when not disabled |
| ResumeReviewer.Reviewer.HandleFileChange | frontend/src/components/ResumeReviewer.jsx:38-46 | only an accepted PDF becomes `pdf` |
| ResumeReviewer.Reviewer.ReviewStart | frontend/src/components/ResumeReviewer.jsx:49-57 | without a PDF there is an error and no upload; while disabled a click does nothing |
| ResumeReviewer.Reviewer.UploadSettled | frontend/src/components/ResumeReviewer.jsx:63-108 | after the upload the text is extracted and posted; any failure clears both flags |
| ResumeReviewer.Reviewer.ReviewSettled | frontend/src/components/ResumeReviewer.jsx:95-108 | `review` is replaced only when `data.data` is present; both flags end false |
| Analytics.IndexOf | frontend/src/components/Analytics.jsx:68-70 | `indexOf`: the first position, or -1 exactly when absent |
| Analytics.ChartRows | frontend/src/components/Analytics.jsx:68-104 | the rows are sorted by their index in the order list and are a permutation of the snapshot |
| Analytics.ChartTotal | frontend/src/components/Analytics.jsx:51-125 | the shown total equals the sum of all totals in the snapshot, whatever their order |
| Analytics.SumIndependentOfOrder | frontend/src/components/Analytics.jsx:89 | totals of two permutations are equal |
| Analytics.EarlierKeyComesFirst | frontend/src/components/Analytics.jsx:68-104 | a row with an earlier month (day) is charted earlier |
| Analytics.UnknownMonthBeforeJanuary | frontend/src/components/Analytics.jsx:54-70 | an unrecognised month (index -1) is charted before January |
| Analytics.ChartIndependentOfSnapshotOrder | frontend/src/components/Analytics.jsx:68-70 | when the rows name different months, the chart does not depend on the snapshot's order |
| Analytics.LabelsAlignWithValues | frontend/src/components/Analytics.jsx:72-107 | `labels[i]` and `values[i]` come from the same snapshot row, and both lists have one entry per row |
| Analytics.RoleOf | frontend/src/components/Analytics.jsx:40-43 | the role is "user" without a users document, else the document's `role` |
| Analytics.AdminOnlyFromDocument | frontend/src/components/Analytics.jsx:38-48 | the admin card is shown iff the document's role is "admin" |
| Analytics.Panel.OnAuthStateChanged | frontend/src/components/Analytics.jsx:39-45 | a signed-in user's role is read; signing out leaves it |
| Analytics.Panel.OnRevenueSnapshot | frontend/src/components/Analytics.jsx:51-90 | labels and values from the month-ordered rows, of equal length, and the total of all rows |
| Analytics.Panel.OnSignupSnapshot | frontend/src/components/Analytics.jsx:96-121 | labels and values from the weekday-ordered rows, and the total of all rows |

## Left out

- I/O, timing and rendering are not modelled:
  - the network transport;
  - toasts other than the returned text;
  - `setTimeout` scrolling and the 300 ms slide delay, which is modelled as immediate;
  - animations, JSX markup and console logging.
- Concurrency is not modelled:
  - the parallel emit and POST in the chat client;
  - the check-then-insert race of registration (a concurrent duplicate shows up only as a failing save);
  - interleavings of several requests in flight;
  - socket delivery timing.
- socket.io behaviour that the handlers do not code is not modelled:
  - automatic per-socket rooms;
  - removing a socket from its rooms on disconnect (the handler only logs);
  - connection authentication.
- MongoDB query execution is not modelled:
  - `find`, `populate` and cast errors are replaced by lookups over the modelled collections;
  - an id "casts" when it has 12 characters or 24 hex digits;
  - for equal `createdAt` the sort modelled here keeps store order, which MongoDB does not promise.
- Foreign services are parameters: Firebase `verifyIdToken` and `getIdToken`, Cloudinary, pdf.js and Firestore.
- Strings and numbers are simplified:
  - text is a sequence of characters, not UTF-16 code units;
  - `toLowerCase` is modelled for ASCII letters only;
  - `trim` removes the common ASCII and Unicode space characters;
  - string order is compared by code point;
  - Analytics totals are integers (no floating point).
- JSON bodies whose fields have the wrong type are not modelled (for example a non-string `comment`, where `trim` throws); every input field is a string or absent.
- The source files for the chat schema and the unexported user handlers are missing:
  - backend/models/chat.js is not part of this model, so a chat's fields are taken from their use in the handler, and any schema rule shows up only as a failing save;
  - the user handlers `updateFollowing`, `giveRecommendation` and `reviewResume` are routed but not part of the shown userControllers.js.
- AuthProvider's context value has no `allUsers`, `setUserData`, `setPostData` or `fetchPostData`. The components that use them take that as a parameter: `contextComplete`, or `allUsers` as an input.
- `getFriendlyError`'s lookup uses a plain object, so a code such as "constructor" would find an inherited member. Only the eight own keys are modelled.
- `addProjects` answers 409 only for the unique `(title, userId)` index, named "title". Other database failures are a single 500.
- PostCard computes its initial like state once, at mount, and does not recompute it when `userData` arrives later.
- The user schema's `resumeReviews` list (backend/models/user.js:3-8,27) and the version key `__v` are not fields of `UserModel.User` or `AdminControllers.PublicUser`. No modelled operation reads or writes them.
- AuthProvider's sign-up and email sign-in wrappers (`signUpViaEmail`, `signInViaEmail`) only call Firebase and the backend and toast the mapped error. They are covered by `FriendlyError` and `UserStore.Register`/`SignInViaEmail`.
- AuthProvider.Provider.FetchUserData: a failed `/me` sets `userData` to null and then rethrows; the rethrow is not modelled.
- PostControllers.PostStore.AddComment does not model the `populate` of comment authors in the answer.
- ResumeReviewer.Reviewer.ReviewStart: `pdf instanceof File` is always true once a PDF is chosen, so the branch without upload is not modelled.

## Findings

| source | as written | input that shows it | evidently intended | confidence | as-written member | corrected member |
|---|---|---|---|---|---|---|
| frontend/src/Pages/Chats.jsx:102-106 | a live message is dropped when any entry has the same `_id`, and live payloads and optimistic entries have no `_id` | a transcript holding one optimistic message, or one earlier live message, followed by a live message from the partner | drop only a message whose `_id` is present and already shown | not executed | ChatsPage.MergeLive, ChatsPage.SecondLiveMessageDropped | ChatsPage.MergeLiveById, ChatsPage.MergeLiveByIdShowsLive |
| frontend/src/components/PostDetails.jsx:34 | the page is liked when some like's `._id` equals the user's `_id`, but `getPostById` does not populate `likes`, so they are raw ids | a post whose `likes` is ["u"], opened by user "u" | liked when the user's id is among the likes, raw or populated | not executed | PostDetails.LikedAsWritten, PostDetails.OwnLikeNotShown | PostDetails.Liked, PostDetails.LikedMatchesServer |
