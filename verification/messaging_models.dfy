/**
 * Conversations, messages, attachments and notifications, held in one store
 * whose tables the operations reassign. Conversations are kept in the order
 * the lookup reads them (most recently updated first), so a new conversation
 * goes to the front.
 */
module MessagingModels {
  import opened Wrappers
  import MoneyModels

  type UserId = MoneyModels.UserId

  datatype Conversation = Conversation(id: nat, participants: set<UserId>)

  /** `content` is nullable: `None` when the request left it out. */
  datatype Message = Message(id: nat, conversation: nat, sender: UserId, content: Option<string>, isRead: bool, createdAt: int)

  /** An attachment row; `publicId` is the name the file was uploaded under, from which its URL comes. */
  datatype Attachment = Attachment(message: nat, fileName: string, fileType: string, publicId: string)

  datatype Notification = Notification(user: UserId, conversation: Option<nat>, text: string, isRead: bool)

  class MessagingStore {
    var conversations: seq<Conversation>
    var messages: seq<Message>
    var attachments: seq<Attachment>
    var notifications: seq<Notification>
    var nextConversationId: nat
    var nextMessageId: nat

    /**
     * Ids are primary keys, handed out in increasing order: no two rows of a
     * table share one, and a fresh id is never in use.
     */
    predicate Valid()
      reads this
    {
      && (forall c | c in conversations :: c.id < nextConversationId)
      && (forall m | m in messages :: m.id < nextMessageId)
      && (forall i, j | 0 <= i < j < |conversations| :: conversations[i].id != conversations[j].id)
      && (forall i, j | 0 <= i < j < |messages| :: messages[i].id != messages[j].id)
    }

    constructor ()
      ensures Valid()
      ensures conversations == [] && messages == [] && attachments == [] && notifications == []
    {
      conversations := [];
      messages := [];
      attachments := [];
      notifications := [];
      nextConversationId := 1;
      nextMessageId := 1;
    }

    /**
     * `Conversation.get_or_create_conversation`: the first conversation the
     * lookup finds is returned with `created` false; otherwise a new one with
     * participants {user1, user2} is created.
     */
    method GetOrCreateConversation(user1: UserId, user2: UserId) returns (c: Conversation, created: bool)
      requires Valid()
      modifies this
      ensures Valid()
      ensures messages == old(messages) && attachments == old(attachments) && notifications == old(notifications)
      ensures nextMessageId == old(nextMessageId)
      ensures match FindPair(old(conversations), user1, user2)
        case Some(k) =>
          && !created && c == old(conversations)[k]
          && conversations == old(conversations) && nextConversationId == old(nextConversationId)
        case None =>
          && created && c == Conversation(old(nextConversationId), {user1, user2})
          && conversations == [c] + old(conversations) && nextConversationId == old(nextConversationId) + 1
    {
      var found := FindPair(conversations, user1, user2);
      if found.Some? {
        return conversations[found.value], false;
      }
      c := Conversation(nextConversationId, {user1, user2});
      conversations := [c] + conversations;
      nextConversationId := nextConversationId + 1;
      created := true;
    }
  }

  /**
   * What the lookup matches: a conversation with exactly two participants,
   * among which `user1` and `user2`.
   */
  predicate IsPairConversation(c: Conversation, user1: UserId, user2: UserId) {
    |c.participants| == 2 && user1 in c.participants && user2 in c.participants
  }

  /** The first matching conversation, as `.first()` returns it. */
  function FindPair(convs: seq<Conversation>, user1: UserId, user2: UserId): (r: Option<nat>)
    ensures r.Some? ==> r.value < |convs| && IsPairConversation(convs[r.value], user1, user2)
    ensures r.Some? ==> forall j | 0 <= j < r.value :: !IsPairConversation(convs[j], user1, user2)
    ensures r.None? ==> forall j | 0 <= j < |convs| :: !IsPairConversation(convs[j], user1, user2)
  {
    if convs == [] then None
    else if IsPairConversation(convs[0], user1, user2) then Some(0)
    else match FindPair(convs[1..], user1, user2)
      case None => None
      case Some(k) => Some(k + 1)
  }

  /** For two different users the lookup matches exactly the conversations between just those two. */
  lemma PairMeansExactlyThese(c: Conversation, user1: UserId, user2: UserId)
    requires user1 != user2
    ensures IsPairConversation(c, user1, user2) <==> c.participants == {user1, user2}
  {
    if IsPairConversation(c, user1, user2) {
      var rest := c.participants - {user1, user2};
      assert c.participants == rest + {user1, user2};
      assert |{user1, user2}| == 2;
      assert |c.participants| == |rest| + 2;
    }
    if c.participants == {user1, user2} {
      assert |{user1, user2}| == 2;
    }
  }

  /** The lookup does not care about the order of the two users. */
  lemma {:induction false} FindPairSymmetric(convs: seq<Conversation>, user1: UserId, user2: UserId)
    ensures FindPair(convs, user1, user2) == FindPair(convs, user2, user1)
  {
    if convs != [] {
      FindPairSymmetric(convs[1..], user1, user2);
    }
  }

  /**
   * A second call for the same two different users finds what the first one
   * returned: the conversation created at the front, or the one found.
   */
  lemma SecondCallFindsSame(convs: seq<Conversation>, user1: UserId, user2: UserId, next: nat)
    requires user1 != user2
    ensures FindPair(convs, user1, user2).None? ==>
      FindPair([Conversation(next, {user1, user2})] + convs, user1, user2) == Some(0)
  {
    PairMeansExactlyThese(Conversation(next, {user1, user2}), user1, user2);
  }

  /**
   * A user's conversation with themself has one participant, so no later
   * lookup finds it: every call for (u, u) that finds nothing creates another one.
   */
  lemma SelfConversationNeverFound(id: nat, u: UserId, user1: UserId, user2: UserId)
    ensures !IsPairConversation(Conversation(id, {u, u}), user1, user2)
  {
    assert {u, u} == {u};
  }

  /**
   * The lookup for (u, u) asks only for a two-person conversation containing
   * u, so as soon as u has a conversation with someone else it returns one
   * of u's two-person conversations, whoever the other participant is.
   */
  lemma SelfLookupFindsPartner(convs: seq<Conversation>, u: UserId, v: UserId, k: nat)
    requires u != v && k < |convs| && convs[k].participants == {u, v}
    ensures FindPair(convs, u, u).Some?
    ensures var f := FindPair(convs, u, u).value;
      f <= k && u in convs[f].participants && exists w :: w != u && convs[f].participants == {u, w}
  {
    assert |{u, v}| == 2;
    assert IsPairConversation(convs[k], u, u);
    var f := FindPair(convs, u, u).value;
    var ps := convs[f].participants;
    var w :| w in ps - {u} by {
      assert |ps - {u}| == 1;
    }
    assert ps == {u, w} by {
      assert ps - {u, w} == {} by {
        assert |ps - {u, w}| == |ps| - 2;
      }
    }
  }
}
