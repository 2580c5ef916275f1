/** The authentication middleware of backend/middleware/verifyToken.js: the bearer
    header is parsed, the token is checked by Firebase, the stored user with the
    token's uid is looked up, and `req.user` is set before `next` is called. */
module VerifyToken {
  import opened Js
  import opened Http
  import opened UserModel

  /** `req.user` as the middleware sets it. `isAdmin` is read from a user document
      whose schema has no such path. */
  datatype ReqUser = ReqUser(id: string, firebaseUid: string, email: string, isAdmin: Maybe<bool>)

  /** The middleware's outcome: an answer (and `next` is not called), or `next()`
      called once with `req.user` set. */
  datatype Outcome = Deny(status: int, message: string) | Next(user: ReqUser)

  const Prefix := "Bearer "

  /** The token the middleware passes to Firebase: `Undefined` when the header is
      missing or does not start with "Bearer ", else field 1 of the header split
      on single spaces. */
  function BearerToken(header: Maybe<string>): (t: Maybe<string>)
    ensures t.Defined? <==> header.Defined? && StartsWith(header.value, Prefix)
    ensures t.Defined? ==> ' ' !in t.value
  {
    if header.Undefined? || !StartsWith(header.value, Prefix) then Undefined
    else
      SplitAfterPrefix(header.value);
      Defined(Split(header.value, ' ')[1])
  }

  /** Behind the prefix, the fields of the header are the fields of the rest. */
  lemma SplitAfterPrefix(h: string)
    requires StartsWith(h, Prefix)
    ensures Split(h, ' ') == ["Bearer"] + Split(h[|Prefix|..], ' ')
  {
    assert h == "Bearer" + [' '] + h[|Prefix|..];
    SplitPrefix("Bearer", h[|Prefix|..], ' ');
  }

  /** The token is the text after "Bearer " up to the next space. */
  lemma {:induction false} TokenIsFirstWord(t: string, rest: string)
    requires ' ' !in t
    ensures BearerToken(Defined(Prefix + t)) == Defined(t)
    ensures BearerToken(Defined(Prefix + t + " " + rest)) == Defined(t)
  {
    var h1 := Prefix + t;
    assert h1[..|Prefix|] == Prefix;
    SplitAfterPrefix(h1);
    assert h1[|Prefix|..] == t;
    SplitNoSep(t, ' ');
    var h2 := Prefix + t + " " + rest;
    assert h2[..|Prefix|] == Prefix;
    SplitAfterPrefix(h2);
    assert h2[|Prefix|..] == t + [' '] + rest;
    SplitPrefix(t, rest, ' ');
  }

  /** Two spaces after "Bearer" give the empty token. */
  lemma TwoSpacesGiveEmptyToken()
    ensures BearerToken(Defined("Bearer  x")) == Defined("")
  {
    assert StartsWith("Bearer  x", Prefix);
    TokenIsFirstWord("", "x");
    assert Prefix + "" + " " + "x" == "Bearer  x";
  }

  /** The fields the middleware copies from the stored user. */
  function ReqUserOf(u: User): (r: ReqUser)
    ensures r.id == u.id && r.firebaseUid == u.firebaseUid && r.email == u.email
    ensures r.isAdmin == Undefined
  {
    ReqUser(u.id, u.firebaseUid, u.email, Undefined)
  }

  /** The middleware. `verify` is Firebase's `verifyIdToken`: the token's uid, or
      `Undefined` when it rejects the token. */
  function Authenticate(header: Maybe<string>, verify: string -> Maybe<string>, users: seq<User>): (o: Outcome)
    ensures BearerToken(header).Undefined? ==> o == Deny(Unauthorized, "Unauthorized: No token provided")
    ensures BearerToken(header).Defined? && verify(BearerToken(header).value).Undefined? ==>
              o == Deny(Unauthorized, "Invalid or expired token")
    ensures BearerToken(header).Defined? && verify(BearerToken(header).value).Defined? ==>
              var uid := verify(BearerToken(header).value).value;
              (FindByFirebaseUid(users, uid).Undefined? ==> o == Deny(Unauthorized, "User not found"))
              && (FindByFirebaseUid(users, uid).Defined? ==>
                    o.Next? && o.user.firebaseUid == uid
                    && exists k :: 0 <= k < |users| && o.user == ReqUserOf(users[k]))
    ensures o.Next? || o.status == Unauthorized
    ensures o.Next? ==> o.user.isAdmin == Undefined
  {
    var token := BearerToken(header);
    if token.Undefined? then Deny(Unauthorized, "Unauthorized: No token provided")
    else
      var uid := verify(token.value);
      if uid.Undefined? then Deny(Unauthorized, "Invalid or expired token")
      else
        var u := FindByFirebaseUid(users, uid.value);
        if u.Undefined? then Deny(Unauthorized, "User not found")
        else Next(ReqUserOf(u.value))
  }
}
