/** The authentication context of frontend/src/Context/AuthProvider.jsx: the error
    text shown to the user, the body the provider-login helpers post, their
    fallback to `/me`, and the `user`/`userData` state. */
module AuthProvider {
  import opened Js
  import UserModel
  import UserControllers

  /** The parts of a thrown error the mapper reads: `err.code`, `err.response`
      (with `response.data?.message`) and `err.message`. */
  datatype ErrorResponse = ErrorResponse(dataMessage: Maybe<string>)
  datatype AuthError = AuthError(code: Maybe<string>, response: Maybe<ErrorResponse>, message: Maybe<string>)

  /** The table of Firebase codes. */
  function FirebaseText(code: string): Maybe<string> {
    match code
    case "auth/user-not-found" => Defined("No account found with this email")
    case "auth/wrong-password" => Defined("Incorrect password")
    case "auth/invalid-email" => Defined("Invalid email address")
    case "auth/email-already-in-use" => Defined("Email already in use")
    case "auth/weak-password" => Defined("Password should be at least 6 characters")
    case "auth/popup-closed-by-user" => Defined("Popup closed before completing sign-in")
    case "auth/cancelled-popup-request" => Defined("Popup cancelled, try again")
    case "auth/too-many-requests" => Defined("Too many attempts, try again later")
    case _ => Undefined
  }

  /** `getFriendlyError`. */
  function FriendlyError(err: AuthError): (r: string)
    ensures r != ""
    ensures Truthy(err.code) ==>
              r == FirebaseText(err.code.value).GetOr("Something went wrong, please try again")
    ensures !Truthy(err.code) && err.response.Defined? ==>
              r == (if Truthy(err.response.value.dataMessage) then err.response.value.dataMessage.value
                    else "Server error, please try again")
    ensures !Truthy(err.code) && err.response.Undefined? ==>
              r == (if Truthy(err.message) then err.message.value else "Something went wrong")
  {
    if Truthy(err.code) then
      FirebaseText(err.code.value).GetOr("Something went wrong, please try again")
    else if err.response.Defined? then
      if Truthy(err.response.value.dataMessage) then err.response.value.dataMessage.value
      else "Server error, please try again"
    else if Truthy(err.message) then err.message.value
    else "Something went wrong"
  }

  /** Exactly eight codes have their own text. */
  lemma MappedCodes(code: string)
    ensures FirebaseText(code).Defined? <==>
              code in {"auth/user-not-found", "auth/wrong-password", "auth/invalid-email",
                       "auth/email-already-in-use", "auth/weak-password", "auth/popup-closed-by-user",
                       "auth/cancelled-popup-request", "auth/too-many-requests"}
  {
  }

  /** A code decides the text alone: the response and the message are ignored. */
  lemma CodeDecides(err: AuthError, response: Maybe<ErrorResponse>, message: Maybe<string>)
    requires Truthy(err.code)
    ensures FriendlyError(err) == FriendlyError(err.(response := response, message := message))
  {
  }

  /** The account a provider sign-in returns (`user.email`, `user.displayName`,
      `user.uid`). */
  datatype FirebaseUser = FirebaseUser(uid: Maybe<string>, email: Maybe<string>, displayName: Maybe<string>)

  /** The body `saveGoogleUser` and `saveGitUser` post. */
  datatype SaveBody = SaveBody(email: string, displayName: string, firebaseUid: Maybe<string>)

  function SaveBodyOf(u: FirebaseUser): (b: SaveBody)
    ensures b.email == (if Truthy(u.email) then u.email.value else "NoEmailProvided")
    ensures b.displayName == (if Truthy(u.displayName) then u.displayName.value else "Unknown Name")
    ensures b.firebaseUid == u.uid
  {
    SaveBody(StrOr(u.email, "NoEmailProvided"), StrOr(u.displayName, "Unknown Name"), u.uid)
  }

  /** With the defaults filled in, the server's field check can only fail on a
      missing uid. */
  lemma SaveBodyPassesFieldCheck(u: FirebaseUser)
    ensures var b := SaveBodyOf(u);
            Truthy(Defined(b.email)) && Truthy(Defined(b.displayName))
            && (Truthy(b.firebaseUid) <==> Truthy(u.uid))
  {
  }

  /** What the helpers return: the saved user, the `/me` user on the fallback path,
      `null`, or an error thrown out of the helper when `/me` fails. */
  datatype SaveResult = Returned(user: Maybe<UserModel.User>) | Threw

  /** The helpers after their POST: success returns the new user; a refusal whose
      message is "User already exists" falls back to `/me` (`me`, `Undefined` when
      that request fails); any other failure returns `null`. */
  function SaveUser(post: Maybe<UserModel.User>, refusal: Maybe<string>, me: Maybe<UserModel.User>): (r: SaveResult)
    ensures post.Defined? ==> r == Returned(post)
    ensures post.Undefined? && refusal == Defined("User already exists") ==>
              (if me.Defined? then r == Returned(me) else r == Threw)
    ensures post.Undefined? && refusal != Defined("User already exists") ==> r == Returned(Undefined)
  {
    if post.Defined? then Returned(post)
    else if refusal == Defined("User already exists") then
      if me.Defined? then Returned(me) else Threw
    else Returned(Undefined)
  }

  /** Against the account handlers: a second provider sign-in with the same uid
      is refused with "User already exists", so the helper returns the stored user
      that `/me` finds. */
  method ReturningUserFallsBack(store: UserControllers.UserStore, channel: UserControllers.Channel,
                                u: FirebaseUser, freshId: string)
    returns (result: SaveResult)
    requires store.Valid()
    requires Truthy(u.uid) && freshId !in UserModel.UserIds(store.users)
    requires UserModel.FindByFirebaseUid(store.users, u.uid.value).Defined?
    modifies store
    ensures store.users == old(store.users)
    ensures result == Returned(UserModel.FindByFirebaseUid(store.users, u.uid.value))
  {
    var b := SaveBodyOf(u);
    var posted := store.Register(channel, Defined(b.email), b.firebaseUid, Defined(b.displayName), freshId, false);
    assert posted.body == UserControllers.Message("User already exists");
    var me := store.SignInViaEmail(u.uid.value);
    result := SaveUser(Undefined, Defined(posted.body.text), Defined(me.body.user));
  }

  /** The context's state: the Firebase account and the backend user. */
  class Provider {
    var user: Maybe<FirebaseUser>
    var userData: Maybe<UserModel.User>

    constructor ()
      ensures user == Undefined && userData == Undefined
    {
      user, userData := Undefined, Undefined;
    }

    /** `onAuthStateChanged`: the account is replaced. */
    method AuthStateChanged(current: Maybe<FirebaseUser>)
      modifies this
      ensures user == current && userData == old(userData)
    {
      user := current;
    }

    /** `fetchUserData`: no account clears `userData`; otherwise it becomes the
        `/me` answer, or `null` when that request fails. */
    method FetchUserData(firebaseUser: Maybe<FirebaseUser>, me: Maybe<UserModel.User>)
      modifies this
      ensures userData == (if firebaseUser.Undefined? then Undefined else me)
      ensures user == old(user)
    {
      if firebaseUser.Undefined? {
        userData := Undefined;
        return;
      }
      userData := me;
    }

    /** `signout`: both cells are cleared. */
    method Signout()
      modifies this
      ensures user == Undefined && userData == Undefined
    {
      user := Undefined;
      userData := Undefined;
    }
  }
}
