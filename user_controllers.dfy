/** The account handlers of backend/controllers/userControllers.js: the `/me`
    lookup and the three registration handlers, which check the three fields,
    refuse an existing `firebaseUid`, and insert one user. */
module UserControllers {
  import opened Js
  import opened Http
  import opened UserModel

  datatype Body = Account(user: User) | Message(text: string)

  /** Which registration route was called: email signup, Google or GitHub. The
      three handlers differ only in the text of their 500 answer. */
  datatype Channel = Email | Google | GitHub

  function SaveErrorMessage(c: Channel): string {
    match c
    case Email => "Server error Adding user"
    case Google => "Server error Adding google user"
    case GitHub => "Server error Adding Github user"
  }

  /** The user collection. */
  class UserStore {
    var users: seq<User>

    ghost predicate Valid()
      reads this
    {
      UniqueUsers(users) && forall k :: 0 <= k < |users| ==> ValidUser(users[k])
    }

    constructor ()
      ensures Valid() && users == []
    {
      users := [];
    }

    /** `signInViaEmail` (`/me`): the stored user with the authenticated uid, or 404.
        The store is only read. */
    method SignInViaEmail(firebaseUid: string) returns (r: Response<Body>)
      ensures FindByFirebaseUid(users, firebaseUid).Undefined? ==>
                r == Response(NotFound, Message("User not found"))
      ensures FindByFirebaseUid(users, firebaseUid).Defined? ==>
                r == Response(Ok, Account(FindByFirebaseUid(users, firebaseUid).value))
                && r.body.user in users && r.body.user.firebaseUid == firebaseUid
    {
      var u := FindByFirebaseUid(users, firebaseUid);
      if u.Undefined? {
        return Response(NotFound, Message("User not found"));
      }
      r := Response(Ok, Account(u.value));
    }

    /** `signUpViaEmail`, `viaGoogle` and `viaGit`: any falsy field gives 400, an
        existing uid gives 400 "User already exists", otherwise one user with the
        three fields and the schema defaults is inserted and returned with 201.
        `freshId` is the `_id` the database assigns; `saveFails` stands for a failing
        save (a lost connection, or a concurrent insert of the same uid tripping the
        unique index), which answers 500 and inserts nothing. */
    method Register(channel: Channel, email: Maybe<string>, firebaseUid: Maybe<string>,
                    displayName: Maybe<string>, freshId: string, saveFails: bool)
      returns (r: Response<Body>)
      requires Valid()
      requires freshId !in UserIds(users)
      modifies this
      ensures Valid()
      ensures !Truthy(email) || !Truthy(firebaseUid) || !Truthy(displayName) ==>
                users == old(users) && r == Response(BadRequest, Message("Enter all the feilds"))
      ensures (Truthy(email) && Truthy(firebaseUid) && Truthy(displayName)
               && FindByFirebaseUid(old(users), firebaseUid.value).Defined?) ==>
                users == old(users) && r == Response(BadRequest, Message("User already exists"))
      ensures (Truthy(email) && Truthy(firebaseUid) && Truthy(displayName)
               && FindByFirebaseUid(old(users), firebaseUid.value).Undefined? && saveFails) ==>
                users == old(users) && r == Response(ServerError, Message(SaveErrorMessage(channel)))
      ensures (Truthy(email) && Truthy(firebaseUid) && Truthy(displayName)
               && FindByFirebaseUid(old(users), firebaseUid.value).Undefined? && !saveFails) ==>
                var u := NewUser(freshId, firebaseUid.value, displayName.value, email.value);
                users == old(users) + [u] && r == Response(Created, Account(u))
    {
      if !Truthy(email) || !Truthy(firebaseUid) || !Truthy(displayName) {
        return Response(BadRequest, Message("Enter all the feilds"));
      }
      var existing := FindByFirebaseUid(users, firebaseUid.value);
      if existing.Defined? {
        return Response(BadRequest, Message("User already exists"));
      }
      if saveFails {
        return Response(ServerError, Message(SaveErrorMessage(channel)));
      }
      var u := NewUser(freshId, firebaseUid.value, displayName.value, email.value);
      InsertKeepsUnique(users, u);
      users := users + [u];
      r := Response(Created, Account(u));
    }
  }

  /** Appending a user whose uid and id are new keeps the store's keys unique. */
  lemma InsertKeepsUnique(users: seq<User>, u: User)
    requires UniqueUsers(users)
    requires FindByFirebaseUid(users, u.firebaseUid).Undefined?
    requires u.id !in UserIds(users)
    ensures UniqueUsers(users + [u])
  {
    var t := users + [u];
    forall i, j | 0 <= i < j < |t| ensures t[i].firebaseUid != t[j].firebaseUid && t[i].id != t[j].id {
      if j == |users| {
        assert t[i] == users[i];
      } else {
        assert t[i] == users[i] && t[j] == users[j];
      }
    }
  }

  /** A registration right after a successful one with the same uid is refused,
      whatever the channels: the uid is found by the check. */
  lemma {:induction false} SecondRegistrationRefused(users: seq<User>, u: User)
    ensures FindByFirebaseUid(users + [u], u.firebaseUid).Defined?
  {
    var t := users + [u];
    assert t[|users|].firebaseUid == u.firebaseUid;
  }
}
