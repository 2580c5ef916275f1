/** The admin listing of backend/controllers/adminControllers.js: a guard on
    `req.user.isAdmin`, then every user without the `firebaseUid` path. */
module AdminControllers {
  import opened Js
  import opened Http
  import opened UserModel
  import VerifyToken

  /** A user as `.select("-firebaseUid -__v")` returns it: every path but the uid
      (the version key is not part of this model). */
  datatype PublicUser = PublicUser(id: string, displayName: string, email: string, profilePic: string,
                                   bio: string, aiGeneratedPath: AiPath, following: seq<string>,
                                   savedPosts: seq<string>)

  /** The 403 answer is `{ message }`, a 500 answer `{ error: err.message }`. */
  datatype Body = Users(users: seq<PublicUser>) | Message(text: string) | Error(error: string)

  function Public(u: User): PublicUser {
    PublicUser(u.id, u.displayName, u.email, u.profilePic, u.bio, u.aiGeneratedPath, u.following, u.savedPosts)
  }

  /** The projection of the whole collection, in store order. */
  function Project(users: seq<User>): (r: seq<PublicUser>)
    ensures |r| == |users|
    ensures forall k :: 0 <= k < |users| ==> r[k] == Public(users[k])
  {
    if users == [] then [] else [Public(users[0])] + Project(users[1..])
  }

  /** Nothing but the uid is dropped: the projection of a user determines it once
      the uid is known. */
  lemma PublicKeepsAllButUid(u: User, v: User)
    requires Public(u) == Public(v) && u.firebaseUid == v.firebaseUid
    ensures u == v
  {
  }

  /** Whether `isAdmin` is truthy. */
  predicate AdminFlag(b: Maybe<bool>) {
    b == Defined(true)
  }

  /** `getAllUser`. `res.user` is never set, so its test is always false. A missing
      `req.user` makes the property read throw, which is answered with 500, as is
      a failing query (`findError`, the error's message). The store is only read. */
  function GetAllUser(reqUser: Maybe<VerifyToken.ReqUser>, users: seq<User>, findError: Maybe<string>): (r: Response<Body>)
    ensures reqUser.Undefined? ==> r.status == ServerError
    ensures reqUser.Defined? && !AdminFlag(reqUser.value.isAdmin) ==> r == Response(Forbidden, Message("Access denied"))
    ensures reqUser.Defined? && AdminFlag(reqUser.value.isAdmin) && findError.Defined? ==>
              r == Response(ServerError, Error(findError.value))
    ensures r.status == Ok <==> reqUser.Defined? && AdminFlag(reqUser.value.isAdmin) && findError.Undefined?
    ensures r.status == Ok ==> r.body == Users(Project(users))
    ensures r.status in {Ok, Forbidden, ServerError}
  {
    if reqUser.Undefined? then Response(ServerError, Error("Cannot read properties of undefined (reading 'isAdmin')"))
    else if !AdminFlag(reqUser.value.isAdmin) then Response(Forbidden, Message("Access denied"))
    else if findError.Defined? then Response(ServerError, Error(findError.value))
    else Response(Ok, Users(Project(users)))
  }

  /** Behind the authentication middleware every request is denied: the user it
      passes never has an `isAdmin` value. */
  lemma AdminListUnreachable(header: Maybe<string>, verify: string -> Maybe<string>, users: seq<User>, findError: Maybe<string>)
    requires VerifyToken.Authenticate(header, verify, users).Next?
    ensures GetAllUser(Defined(VerifyToken.Authenticate(header, verify, users).user), users, findError).status == Forbidden
  {
  }
}
