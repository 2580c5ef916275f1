/** The user document of backend/models/user.js: required fields, defaults, and the
    unique index on `firebaseUid`. */
module UserModel {
  import opened Js

  /** The `aiGeneratedPath` sub-object; each of its paths has a default. */
  datatype AiPath = AiPath(raw: string, title: string, description: string, skills: seq<string>)

  /** A stored user. The schema has no `isAdmin` path, so a user document never
      has one (reading it gives `undefined`, see VerifyToken.ReqUserOf). Resume
      reviews and the version key are not part of this model. */
  datatype User = User(id: string, firebaseUid: string, displayName: string, email: string,
                       profilePic: string, bio: string, aiGeneratedPath: AiPath,
                       following: seq<string>, savedPosts: seq<string>)

  /** `required: true` on a String path: `undefined` and "" are rejected. */
  predicate RequiredString(s: Maybe<string>) {
    Truthy(s)
  }

  /** The document `new User({ firebaseUid, displayName, email })` saves, with every
      default filled in. */
  function NewUser(id: string, firebaseUid: string, displayName: string, email: string): (u: User)
    ensures u.id == id && u.firebaseUid == firebaseUid && u.displayName == displayName && u.email == email
    ensures u.profilePic == "" && u.bio == ""
    ensures u.aiGeneratedPath == AiPath("", "", "", [])
    ensures u.following == [] && u.savedPosts == []
  {
    User(id, firebaseUid, displayName, email, "", "", AiPath("", "", "", []), [], [])
  }

  /** The schema's required paths hold for a user document. */
  predicate ValidUser(u: User) {
    u.firebaseUid != "" && u.displayName != "" && u.email != ""
  }

  /** A new user is valid exactly when the three required strings are non-empty. */
  lemma NewUserValid(id: string, firebaseUid: string, displayName: string, email: string)
    ensures ValidUser(NewUser(id, firebaseUid, displayName, email)) <==>
              RequiredString(Defined(firebaseUid)) && RequiredString(Defined(displayName))
              && RequiredString(Defined(email))
  {
  }

  /** The unique index on `firebaseUid`, and distinct `_id`s. */
  predicate UniqueUsers(users: seq<User>) {
    forall i, j :: 0 <= i < j < |users| ==>
      users[i].firebaseUid != users[j].firebaseUid && users[i].id != users[j].id
  }

  /** `User.findOne({ firebaseUid })`: the first user with that uid. */
  function FindByFirebaseUid(users: seq<User>, uid: string): (r: Maybe<User>)
    ensures r.Defined? ==> r.value in users && r.value.firebaseUid == uid
    ensures r.Undefined? <==> forall k :: 0 <= k < |users| ==> users[k].firebaseUid != uid
  {
    if users == [] then Undefined
    else if users[0].firebaseUid == uid then Defined(users[0])
    else
      var r := FindByFirebaseUid(users[1..], uid);
      assert forall k :: 1 <= k < |users| ==> users[k] == users[1..][k - 1];
      r
  }

  /** `User.findById(id)` for an id that casts: the first user with that `_id`. */
  function FindById(users: seq<User>, id: string): (r: Maybe<User>)
    ensures r.Defined? ==> r.value in users && r.value.id == id
    ensures r.Undefined? <==> forall k :: 0 <= k < |users| ==> users[k].id != id
  {
    if users == [] then Undefined
    else if users[0].id == id then Defined(users[0])
    else
      var r := FindById(users[1..], id);
      assert forall k :: 1 <= k < |users| ==> users[k] == users[1..][k - 1];
      r
  }

  /** With unique uids the lookup finds the one user that has the uid. */
  lemma {:induction false} FindByFirebaseUidUnique(users: seq<User>, k: nat)
    requires UniqueUsers(users) && k < |users|
    ensures FindByFirebaseUid(users, users[k].firebaseUid) == Defined(users[k])
  {
    if k > 0 {
      assert users[0].firebaseUid != users[k].firebaseUid;
      assert UniqueUsers(users[1..]) by {
        forall i, j | 0 <= i < j < |users| - 1
          ensures users[1..][i].firebaseUid != users[1..][j].firebaseUid && users[1..][i].id != users[1..][j].id
        {
          assert users[1..][i] == users[i + 1] && users[1..][j] == users[j + 1];
        }
      }
      FindByFirebaseUidUnique(users[1..], k - 1);
    }
  }

  /** The `_id`s of the stored users. */
  function UserIds(users: seq<User>): set<string> {
    set k | 0 <= k < |users| :: users[k].id
  }
}
