/** The message store of backend/controllers/chatControllers.js: the history query
    `getAllChatBtwTwoUser` (both users must exist; the messages of the pair in either
    direction, oldest first) and `sendNewMessage`, which saves whatever it is given. */
module ChatStore {
  import opened Js
  import opened Http
  import Mongo
  import KeySort

  /** A stored chat document. Its schema (backend/models/chat.js) is not part of
      this model, so every field the handler copies from the request may be absent. */
  datatype Chat = Chat(id: string, senderId: Maybe<string>, receiverId: Maybe<string>,
                       message: Maybe<string>, createdAt: int)

  datatype Body = Messages(chats: seq<Chat>) | Saved(chat: Chat) | Error(message: string)

  /** The `$or` filter of the history query: the pair (a, b) in either direction. */
  predicate InConversation(c: Chat, a: string, b: string) {
    (c.senderId == Defined(a) && c.receiverId == Defined(b))
    || (c.senderId == Defined(b) && c.receiverId == Defined(a))
  }

  /** The stored chats that match the filter, in store order. */
  function Conversation(chats: seq<Chat>, a: string, b: string): (r: seq<Chat>)
    ensures forall c :: c in r <==> c in chats && InConversation(c, a, b)
    ensures forall k :: 0 <= k < |r| ==> InConversation(r[k], a, b)
    ensures |r| <= |chats|
  {
    if chats == [] then []
    else
      var rest := Conversation(chats[..|chats| - 1], a, b);
      var last := chats[|chats| - 1];
      assert chats == chats[..|chats| - 1] + [last];
      if InConversation(last, a, b) then rest + [last] else rest
  }

  function CreatedAt(c: Chat): int {
    c.createdAt
  }

  /** `.sort({ createdAt: 1 })` applied to the filtered chats. */
  function History(chats: seq<Chat>, a: string, b: string): seq<Chat> {
    KeySort.SortBy(Conversation(chats, a, b), CreatedAt)
  }

  /** The history holds exactly the chats of the pair, each as often as it is
      stored, and is ordered by `createdAt`, oldest first. */
  lemma HistoryIsSortedConversation(chats: seq<Chat>, a: string, b: string)
    ensures multiset(History(chats, a, b)) == multiset(Conversation(chats, a, b))
    ensures forall c :: c in History(chats, a, b) <==> c in chats && InConversation(c, a, b)
    ensures forall i, j :: 0 <= i < j < |History(chats, a, b)| ==>
              History(chats, a, b)[i].createdAt <= History(chats, a, b)[j].createdAt
  {
    var h := History(chats, a, b);
    forall c ensures c in h <==> c in Conversation(chats, a, b) {
      assert c in h <==> c in multiset(h);
    }
  }

  /** The filter is symmetric, so the two participants read the same history. */
  lemma {:induction false} HistorySymmetric(chats: seq<Chat>, a: string, b: string)
    ensures History(chats, a, b) == History(chats, b, a)
  {
    ConversationSymmetric(chats, a, b);
  }

  lemma {:induction false} ConversationSymmetric(chats: seq<Chat>, a: string, b: string)
    ensures Conversation(chats, a, b) == Conversation(chats, b, a)
  {
    if chats != [] {
      ConversationSymmetric(chats[..|chats| - 1], a, b);
    }
  }

  /** A newly stored chat of the pair that is not older than any stored chat is
      the last entry of the next history read. */
  lemma {:induction false} NewestChatComesLast(chats: seq<Chat>, c: Chat, a: string, b: string)
    requires InConversation(c, a, b)
    requires forall k :: 0 <= k < |chats| ==> chats[k].createdAt <= c.createdAt
    ensures History(chats + [c], a, b) == History(chats, a, b) + [c]
  {
    var t := chats + [c];
    assert t[..|t| - 1] == chats;
    var conv := Conversation(chats, a, b);
    assert Conversation(t, a, b) == conv + [c];
    forall k | 0 <= k < |conv| ensures CreatedAt(conv[k]) <= CreatedAt(c) {
      assert conv[k] in chats;
    }
    KeySort.SortByAppendLast(conv, c, CreatedAt);
  }

  /** The ids of the stored chats. */
  function Ids(chats: seq<Chat>): set<string> {
    set k | 0 <= k < |chats| :: chats[k].id
  }

  /** The chat collection. */
  class Store {
    var chats: seq<Chat>

    constructor ()
      ensures chats == []
    {
      chats := [];
    }

    /** `getAllChatBtwTwoUser`: `users` is the set of ids of the stored users. The
        sender is looked up first; an id that is not an ObjectId makes `findById`
        throw, which the handler answers with 500. The store is only read. */
    method GetAllChatBtwTwoUser(users: set<string>, senderId: string, receiverId: string)
      returns (r: Response<Body>)
      ensures !Mongo.IsObjectId(senderId) ==> r.status == ServerError
      ensures Mongo.IsObjectId(senderId) && senderId !in users ==>
                r == Response(NotFound, Error("Sesender not found"))
      ensures (Mongo.IsObjectId(senderId) && senderId in users && !Mongo.IsObjectId(receiverId)) ==>
                r.status == ServerError
      ensures (Mongo.IsObjectId(senderId) && senderId in users && Mongo.IsObjectId(receiverId)
               && receiverId !in users) ==> r == Response(NotFound, Error("Receiver not found"))
      ensures r.status == Ok <==> senderId in users && receiverId in users
                                  && Mongo.IsObjectId(senderId) && Mongo.IsObjectId(receiverId)
      ensures r.status == Ok ==> r.body == Messages(History(chats, senderId, receiverId))
    {
      if !Mongo.IsObjectId(senderId) {
        return Response(ServerError, Error("Server error while Fetching Chats"));
      }
      if senderId !in users {
        return Response(NotFound, Error("Sesender not found"));
      }
      if !Mongo.IsObjectId(receiverId) {
        return Response(ServerError, Error("Server error while Fetching Chats"));
      }
      if receiverId !in users {
        return Response(NotFound, Error("Receiver not found"));
      }
      r := Response(Ok, Messages(History(chats, senderId, receiverId)));
    }

    /** `sendNewMessage`: saves a new chat with exactly the given fields and answers
        201 with it; there is no check that the users exist or differ. A failing
        save (`saveFails`, including any rule of the chat schema) answers 500 and
        stores nothing. `freshId` and `now` are the `_id` and `createdAt` the
        database assigns. */
    method SendNewMessage(senderId: Maybe<string>, receiverId: Maybe<string>, message: Maybe<string>,
                          freshId: string, now: int, saveFails: bool)
      returns (r: Response<Body>)
      requires freshId !in Ids(chats)
      modifies this
      ensures saveFails ==> chats == old(chats)
                            && r == Response(ServerError, Error("Server error while sending Chats"))
      ensures !saveFails ==> chats == old(chats) + [Chat(freshId, senderId, receiverId, message, now)]
                             && r == Response(Created, Saved(Chat(freshId, senderId, receiverId, message, now)))
    {
      var newChat := Chat(freshId, senderId, receiverId, message, now);
      if saveFails {
        return Response(ServerError, Error("Server error while sending Chats"));
      }
      chats := chats + [newChat];
      r := Response(Created, Saved(newChat));
    }
  }

  /** Sending to oneself is accepted and the message shows up in one's own history. */
  lemma SelfMessageIsStored(chats: seq<Chat>, c: Chat, a: string)
    requires c.senderId == Defined(a) && c.receiverId == Defined(a)
    ensures c in History(chats + [c], a, a)
  {
    HistoryIsSortedConversation(chats + [c], a, a);
  }
}
