/** The client session controller of frontend/src/Pages/Chats.jsx: the transcript
    `chats`, the text box `input`, the active partner, the socket's join and send
    emissions, the live-message merge rule and the contact search. */
module ChatsPage {
  import opened Js
  import ChatRooms
  import ChatStore

  /** A user object from the context (`userData`, `allUsers`): fields may be missing. */
  datatype UserRef = UserRef(id: Maybe<string>, displayName: Maybe<string>, email: Maybe<string>)

  /** A transcript entry. History documents carry every field; optimistic entries
      have no `_id`; live payloads carry only `senderId` and `message`. */
  datatype Entry = Entry(id: Maybe<string>, senderId: Maybe<string>, receiverId: Maybe<string>,
                         message: Maybe<string>, createdAt: Maybe<int>)

  /** A live `receiveMessage` payload as the page sees it. */
  function FromPayload(p: ChatRooms.Payload): (e: Entry)
    ensures e.id == Undefined && e.receiverId == Undefined && e.createdAt == Undefined
    ensures e.senderId == p.senderId && e.message == p.message
  {
    Entry(Undefined, p.senderId, Undefined, p.message, Undefined)
  }

  /** A stored chat as the history response delivers it. */
  function FromChat(c: ChatStore.Chat): (e: Entry)
    ensures e.id == Defined(c.id)
  {
    Entry(Defined(c.id), c.senderId, c.receiverId, c.message, Defined(c.createdAt))
  }

  /** What the page emits on its socket. */
  datatype Emit = EmitJoinRoom(senderId: Maybe<string>, receiverId: Maybe<string>)
                | EmitSendMessage(data: Entry)

  /** `activeUser?._id`. */
  function ActiveId(active: Maybe<UserRef>): Maybe<string> {
    if active.Defined? then active.value.id else Undefined
  }

  /** The partner filter of `handleWebSocketMessage`:
      `m.senderId === activeUser?._id || m.receiverId === activeUser?._id`. */
  predicate FromActive(active: Maybe<UserRef>, m: Entry) {
    m.senderId == ActiveId(active) || m.receiverId == ActiveId(active)
  }

  /** A live payload passes the filter exactly when it comes from the partner, or
      when there is no partner id at all (`undefined === undefined` on the missing
      `receiverId`). The sender's own echo, whose `senderId` is the current user,
      is therefore dropped whenever a partner with an id is active. */
  lemma LivePayloadFilter(active: Maybe<UserRef>, p: ChatRooms.Payload)
    ensures FromActive(active, FromPayload(p)) <==>
              (p.senderId == ActiveId(active) || ActiveId(active) == Undefined)
  {
  }

  /** Some entry of the transcript has the same `_id` as `m` (`prev.some(...)`). */
  predicate HasSameId(prev: seq<Entry>, m: Entry) {
    exists k :: 0 <= k < |prev| && prev[k].id == m.id
  }

  /** The merge rule as written: an entry whose `_id` equals one already in the
      transcript is dropped, otherwise it is appended. */
  function MergeLive(prev: seq<Entry>, m: Entry): (r: seq<Entry>)
    ensures r == prev || r == prev + [m]
    ensures r == prev <==> HasSameId(prev, m)
  {
    if HasSameId(prev, m) then prev else prev + [m]
  }

  /** Taking in a message keeps every existing entry in place and adds at most one
      entry, at the end. */
  lemma MergeLiveKeepsPrefix(prev: seq<Entry>, m: Entry)
    ensures |prev| <= |MergeLive(prev, m)| <= |prev| + 1
    ensures MergeLive(prev, m)[..|prev|] == prev
  {
  }

  /** One entry without `_id` (an optimistic send, or an earlier live message)
      blocks every live payload, because `undefined === undefined`. */
  lemma {:induction false} EntryWithoutIdBlocksLive(prev: seq<Entry>, k: nat, p: ChatRooms.Payload)
    requires k < |prev| && prev[k].id == Undefined
    ensures MergeLive(prev, FromPayload(p)) == prev
  {
    assert prev[k].id == FromPayload(p).id;
  }

  /** Of two live messages arriving one after the other, the second is always
      dropped. */
  lemma {:induction false} SecondLiveMessageDropped(prev: seq<Entry>, p1: ChatRooms.Payload, p2: ChatRooms.Payload)
    ensures var once := MergeLive(prev, FromPayload(p1));
            MergeLive(once, FromPayload(p2)) == once
  {
    var once := MergeLive(prev, FromPayload(p1));
    if HasSameId(prev, FromPayload(p1)) {
      var k :| 0 <= k < |prev| && prev[k].id == FromPayload(p1).id;
      EntryWithoutIdBlocksLive(once, k, p2);
    } else {
      EntryWithoutIdBlocksLive(once, |prev|, p2);
    }
  }

  /** The rule evidently intended: only an entry that has an `_id` can be a
      duplicate. */
  function MergeLiveById(prev: seq<Entry>, m: Entry): (r: seq<Entry>)
    ensures r == prev || r == prev + [m]
  {
    if m.id.Defined? && HasSameId(prev, m) then prev else prev + [m]
  }

  /** Under the intended rule every live payload is shown, while a document whose
      `_id` is already in the transcript is still not shown twice. */
  lemma MergeLiveByIdShowsLive(prev: seq<Entry>, p: ChatRooms.Payload, e: Entry)
    ensures MergeLiveById(prev, FromPayload(p)) == prev + [FromPayload(p)]
    ensures e.id.Defined? ==> (MergeLiveById(prev, e) == prev <==> HasSameId(prev, e))
  {
  }

  /** Under the intended rule, no two entries with a present `_id` share it. */
  predicate UniqueIds(s: seq<Entry>) {
    forall i, j :: 0 <= i < j < |s| && s[i].id.Defined? ==> s[i].id != s[j].id
  }

  lemma MergeLiveByIdKeepsIdsUnique(prev: seq<Entry>, m: Entry)
    requires UniqueIds(prev)
    ensures UniqueIds(MergeLiveById(prev, m))
  {
    var r := MergeLiveById(prev, m);
    if r != prev {
      forall i, j | 0 <= i < j < |r| && r[i].id.Defined? ensures r[i].id != r[j].id {
        if j == |prev| {
          assert r[i] == prev[i];
        }
      }
    }
  }

  // ---------------------------------------------------------------------------
  // The contact list

  /** The search rule: `displayName?.toLowerCase().includes(q)` or the same on
      `email`; a missing field never matches. */
  predicate MatchesQuery(u: UserRef, query: string) {
    (u.displayName.Defined? && Includes(ToLower(u.displayName.value), ToLower(query)))
    || (u.email.Defined? && Includes(ToLower(u.email.value), ToLower(query)))
  }

  /** `filteredUsers`: `(allUsers || [])` without the current user, then the search. */
  function FilteredUsers(allUsers: Maybe<seq<UserRef>>, self: Maybe<UserRef>, query: string): seq<UserRef> {
    KeepUsers(allUsers.GetOr([]), ActiveId(self), query)
  }

  function KeepUsers(users: seq<UserRef>, selfId: Maybe<string>, query: string): (r: seq<UserRef>)
    ensures Subseq(r, users)
    ensures forall u :: u in r <==> u in users && u.id != selfId && MatchesQuery(u, query)
  {
    if users == [] then []
    else
      var rest := KeepUsers(users[1..], selfId, query);
      assert forall u :: u in users <==> u == users[0] || u in users[1..];
      if users[0].id != selfId && MatchesQuery(users[0], query) then [users[0]] + rest else rest
  }

  /** The list never shows the current user, keeps the order of `allUsers`, and keeps
      exactly the users that match the search. */
  lemma FilteredUsersSpec(allUsers: Maybe<seq<UserRef>>, self: Maybe<UserRef>, query: string)
    ensures Subseq(FilteredUsers(allUsers, self, query), allUsers.GetOr([]))
    ensures self.Defined? ==> forall u :: u in FilteredUsers(allUsers, self, query) ==> u.id != self.value.id
    ensures forall u :: u in FilteredUsers(allUsers, self, query) <==>
              u in allUsers.GetOr([]) && u.id != ActiveId(self) && MatchesQuery(u, query)
  {
  }

  /** The empty query keeps every other user that has a display name or an email;
      a user with neither is never listed. */
  lemma EmptyQueryKeepsNamedUsers(allUsers: Maybe<seq<UserRef>>, self: Maybe<UserRef>, u: UserRef)
    requires u in allUsers.GetOr([]) && u.id != ActiveId(self)
    ensures u in FilteredUsers(allUsers, self, "") <==> u.displayName.Defined? || u.email.Defined?
  {
  }

  /** Without an `allUsers` value in the context the list is empty. */
  lemma NoUsersNoContacts(self: Maybe<UserRef>, query: string)
    ensures FilteredUsers(Undefined, self, query) == []
  {
  }

  // ---------------------------------------------------------------------------
  // The page state

  class Page {
    /** `userData` from the context; the page never changes it. */
    const userData: Maybe<UserRef>
    /** The Firebase ID token the mount effect stores (`firebaseToken`). */
    var firebaseToken: Maybe<string>
    var chats: seq<Entry>
    var input: string
    var activeUser: Maybe<UserRef>
    /** `socketRef.current?.connected`. */
    var connected: bool
    /** Everything emitted on the page's sockets, in order. */
    var emitted: seq<Emit>
    /** The bodies of the `POST /api/chats` requests, in order. */
    var posted: seq<Entry>

    /** A socket exists only once the token and `userData` are known (the effect
        returns early without them). */
    ghost predicate Valid()
      reads this
    {
      connected ==> userData.Defined? && Truthy(firebaseToken)
    }

    constructor (userData: Maybe<UserRef>)
      ensures Valid()
      ensures this.userData == userData && firebaseToken == Undefined && chats == [] && input == "" && activeUser == Undefined
      ensures !connected && emitted == [] && posted == []
    {
      this.userData := userData;
      firebaseToken := Undefined;
      chats, input, activeUser := [], "", Undefined;
      connected, emitted, posted := false, [], [];
    }

    /** The mount effect's outcome: a token is stored; a failed `getIdToken` or a
        missing `auth.currentUser` (`Undefined`) leaves the state as it is. A new
        token re-runs the socket effect, which disconnects the current socket. */
    method TokenLoaded(token: Maybe<string>)
      requires Valid()
      modifies this
      ensures Valid()
      ensures firebaseToken == (if token.Defined? then token else old(firebaseToken))
      ensures connected == (old(connected) && firebaseToken == old(firebaseToken))
      ensures chats == old(chats) && input == old(input) && activeUser == old(activeUser)
      ensures emitted == old(emitted) && posted == old(posted)
    {
      if token.Defined? {
        if token != firebaseToken {
          connected := false;
        }
        firebaseToken := token;
      }
    }

    /** The socket's `connect` event: with an active partner it joins the pair's room. */
    method OnConnect()
      requires userData.Defined? && Truthy(firebaseToken)
      modifies this
      ensures Valid() && connected
      ensures emitted == old(emitted) + (if activeUser.Defined?
                                          then [EmitJoinRoom(userData.value.id, activeUser.value.id)]
                                          else [])
      ensures chats == old(chats) && input == old(input) && activeUser == old(activeUser)
      ensures posted == old(posted) && firebaseToken == old(firebaseToken)
    {
      connected := true;
      if activeUser.Defined? {
        emitted := emitted + [EmitJoinRoom(userData.value.id, activeUser.value.id)];
      }
    }

    /** The socket's `disconnect` event, or the effect's cleanup. */
    method OnDisconnect()
      modifies this
      ensures Valid() && !connected
      ensures chats == old(chats) && input == old(input) && activeUser == old(activeUser)
      ensures emitted == old(emitted) && posted == old(posted) && firebaseToken == old(firebaseToken)
    {
      connected := false;
    }

    /** `handleSelectUser`: the partner changes, and if the current socket is
        connected it joins the new pair's room first. A different partner re-runs
        the socket effect, which disconnects that socket (a new one then connects,
        see OnConnect). */
    method HandleSelectUser(u: UserRef)
      requires Valid()
      modifies this
      ensures Valid()
      ensures activeUser == Defined(u)
      ensures emitted == old(emitted) + (if old(connected) then [EmitJoinRoom(userData.value.id, u.id)] else [])
      ensures connected == (old(connected) && old(activeUser) == Defined(u))
      ensures chats == old(chats) && input == old(input) && posted == old(posted)
      ensures firebaseToken == old(firebaseToken)
    {
      var changed := activeUser != Defined(u);
      activeUser := Defined(u);
      if connected {
        emitted := emitted + [EmitJoinRoom(userData.value.id, u.id)];
      }
      if changed {
        connected := false;
      }
    }

    /** The history effect's outcome: the server's list replaces the transcript;
        a failed request (`Undefined`) empties it. Without a partner, user or token
        the effect does nothing. */
    method OnHistoryLoaded(result: Maybe<seq<ChatStore.Chat>>)
      modifies this
      ensures activeUser.Defined? && userData.Defined? && Truthy(firebaseToken) ==>
                chats == (if result.Defined? then seq(|result.value|, k requires 0 <= k < |result.value| => FromChat(result.value[k]))
                          else [])
      ensures !(activeUser.Defined? && userData.Defined? && Truthy(firebaseToken)) ==> chats == old(chats)
      ensures input == old(input) && activeUser == old(activeUser) && connected == old(connected)
      ensures emitted == old(emitted) && posted == old(posted) && firebaseToken == old(firebaseToken)
    {
      if activeUser.Defined? && userData.Defined? && Truthy(firebaseToken) {
        if result.Defined? {
          chats := seq(|result.value|, k requires 0 <= k < |result.value| => FromChat(result.value[k]));
        } else {
          chats := [];
        }
      }
    }

    /** `handleWebSocketMessage` as written: a message from or to the partner is
        appended unless some entry has the same `_id` (MergeLive). The server's
        `receiveMessage` delivers `FromPayload(p)`, which has no `_id`, so by
        EntryWithoutIdBlocksLive a transcript holding an optimistic entry or an
        earlier live message drops it. */
    method HandleWebSocketMessage(m: Entry)
      modifies this
      ensures chats == (if FromActive(activeUser, m) then MergeLive(old(chats), m) else old(chats))
      ensures input == old(input) && activeUser == old(activeUser) && connected == old(connected)
      ensures emitted == old(emitted) && posted == old(posted) && firebaseToken == old(firebaseToken)
    {
      if m.senderId == ActiveId(activeUser) || m.receiverId == ActiveId(activeUser) {
        var exists_ := false;
        var i := 0;
        while i < |chats|
          invariant 0 <= i <= |chats|
          invariant exists_ <==> exists k :: 0 <= k < i && chats[k].id == m.id
        {
          if chats[i].id == m.id {
            exists_ := true;
          }
          i := i + 1;
        }
        if !exists_ {
          chats := chats + [m];
        }
      }
    }

    /** `sendMessage`: nothing happens for a blank input or without partner or user.
        Otherwise one optimistic entry with the untrimmed text and the local clock
        `now` is appended, the input is cleared, the entry is emitted if the socket
        is connected and posted to the store. The POST's outcome (`saveFails`) is
        only logged: the entry stays either way. */
    method SendMessage(now: int, saveFails: bool)
      requires Valid()
      modifies this
      ensures Valid()
      ensures Trim(old(input)) == "" || activeUser.Undefined? || userData.Undefined? ==>
                chats == old(chats) && input == old(input) && emitted == old(emitted) && posted == old(posted)
      ensures !(Trim(old(input)) == "" || activeUser.Undefined? || userData.Undefined?) ==>
                var e := Entry(Undefined, userData.value.id, activeUser.value.id, Defined(old(input)), Defined(now));
                chats == old(chats) + [e] && input == ""
                && emitted == old(emitted) + (if connected then [EmitSendMessage(e)] else [])
                && posted == old(posted) + [e]
      ensures activeUser == old(activeUser) && connected == old(connected) && firebaseToken == old(firebaseToken)
    {
      if Trim(input) == "" || activeUser.Undefined? || userData.Undefined? {
        return;
      }
      var e := Entry(Undefined, userData.value.id, activeUser.value.id, Defined(input), Defined(now));
      chats := chats + [e];
      input := "";
      if connected {
        emitted := emitted + [EmitSendMessage(e)];
      }
      posted := posted + [e];
    }
  }
}
