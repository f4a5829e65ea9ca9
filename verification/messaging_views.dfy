/**
 * The messaging endpoints: listing a conversation's messages, sending a
 * message (and notifying the other participants), the unread counters,
 * marking messages read, and the 24-hour limit on editing and deleting.
 */
module MessagingViews {
  import opened Wrappers
  import opened Text
  import opened MessagingModels
  import opened MessagingSerializers

  /** A refused request: its HTTP status and error. */
  datatype Refusal = Refusal(statusCode: nat, error: string)

  const NotFound := Refusal(404, "Not found.")

  // ---------------------------------------------------------------------------
  // Lookups
  // ---------------------------------------------------------------------------

  function FindConversation(convs: seq<Conversation>, id: nat): (r: Option<nat>)
    ensures r.Some? ==> r.value < |convs| && convs[r.value].id == id
    ensures r.None? ==> forall j | 0 <= j < |convs| :: convs[j].id != id
  {
    if convs == [] then None
    else if convs[0].id == id then Some(0)
    else match FindConversation(convs[1..], id)
      case None => None
      case Some(k) => Some(k + 1)
  }

  /** The participants of conversation `id`; nobody when there is no such conversation. */
  function ParticipantsOf(convs: seq<Conversation>, id: nat): set<UserId> {
    match FindConversation(convs, id)
    case Some(k) => convs[k].participants
    case None => {}
  }

  function FindMessage(msgs: seq<Message>, id: nat): (r: Option<nat>)
    ensures r.Some? ==> r.value < |msgs| && msgs[r.value].id == id
    ensures r.None? ==> forall j | 0 <= j < |msgs| :: msgs[j].id != id
  {
    if msgs == [] then None
    else if msgs[0].id == id then Some(0)
    else match FindMessage(msgs[1..], id)
      case None => None
      case Some(k) => Some(k + 1)
  }

  /** With unique ids, as the store keeps them, the lookup finds the one conversation carrying the id. */
  lemma FindConversationExact(convs: seq<Conversation>, id: nat, k: nat)
    requires forall i, j | 0 <= i < j < |convs| :: convs[i].id != convs[j].id
    requires k < |convs| && convs[k].id == id
    ensures FindConversation(convs, id) == Some(k)
  {
    var f := FindConversation(convs, id).value;
    assert !(f < k) && !(k < f);
  }

  /** With unique ids, as the store keeps them, the lookup finds the one message carrying the id. */
  lemma FindMessageExact(msgs: seq<Message>, id: nat, k: nat)
    requires forall i, j | 0 <= i < j < |msgs| :: msgs[i].id != msgs[j].id
    requires k < |msgs| && msgs[k].id == id
    ensures FindMessage(msgs, id) == Some(k)
  {
    var f := FindMessage(msgs, id).value;
    assert !(f < k) && !(k < f);
  }

  // ---------------------------------------------------------------------------
  // Listing a conversation's messages
  // ---------------------------------------------------------------------------

  /** The `is_read` query value reads as true for "true", "1" or "yes", in any case. */
  predicate IsReadValue(v: string) {
    Lower(v) in {"true", "1", "yes"}
  }

  lemma LowerCharIdempotent(c: char)
    ensures LowerChar(LowerChar(c)) == LowerChar(c)
  {
  }

  /** The value is read case-insensitively: lower-casing it first changes nothing. */
  lemma IsReadValueIgnoresCase(v: string)
    ensures IsReadValue(Lower(v)) == IsReadValue(v)
  {
    forall i | 0 <= i < |v|
      ensures Lower(Lower(v))[i] == Lower(v)[i]
    {
      LowerCharIdempotent(v[i]);
    }
    assert Lower(Lower(v)) == Lower(v);
  }

  lemma IsReadValues()
    ensures IsReadValue("TRUE") && IsReadValue("Yes") && IsReadValue("1")
    ensures !IsReadValue("false") && !IsReadValue("on") && !IsReadValue("")
  {
    assert Lower("TRUE") == "true";
    assert Lower("Yes") == "yes";
    assert Lower("1") == "1";
    assert Lower("false") == "false";
    assert Lower("on") == "on";
  }

  /**
   * The `messages` action: the messages of one conversation, latest first,
   * filtered on read state when `is_read` is given and on the sender when a
   * non-empty `sender_id` is given.
   */
  function ListedMessages(msgs: seq<Message>, conversation: nat, isRead: Option<string>, sender: Option<UserId>)
    : (r: seq<Message>)
    ensures |r| <= |msgs|
    ensures forall m :: m in r <==> m in msgs && Listed(m, conversation, isRead, sender)
  {
    if msgs == [] then []
    else
      var m := msgs[|msgs| - 1];
      (if Listed(m, conversation, isRead, sender) then [m] else []) + ListedMessages(msgs[..|msgs| - 1], conversation, isRead, sender)
  }

  /** The filters of the `messages` action on one message. */
  predicate Listed(m: Message, conversation: nat, isRead: Option<string>, sender: Option<UserId>) {
    && m.conversation == conversation
    && (isRead.Some? ==> m.isRead == IsReadValue(isRead.value))
    && (sender.Some? ==> m.sender == sender.value)
  }

  /** Each message is at least as recent as every one after it. */
  predicate LatestFirst(r: seq<Message>) {
    forall i, j | 0 <= i < j < |r| :: r[i].createdAt >= r[j].createdAt
  }

  /**
   * The list is latest first: with the table in creation order, the listed
   * messages go from the newest to the oldest (ties by id, newest first).
   */
  lemma {:induction false} ListedLatestFirst(msgs: seq<Message>, conversation: nat, isRead: Option<string>,
                                             sender: Option<UserId>)
    requires forall i, j | 0 <= i < j < |msgs| :: msgs[i].createdAt <= msgs[j].createdAt
    ensures LatestFirst(ListedMessages(msgs, conversation, isRead, sender))
    decreases |msgs|
  {
    if msgs != [] {
      var n := |msgs| - 1;
      var init := msgs[..n];
      var m := msgs[n];
      ListedLatestFirst(init, conversation, isRead, sender);
      var rest := ListedMessages(init, conversation, isRead, sender);
      forall x | x in rest
        ensures x.createdAt <= m.createdAt
      {
        var k :| 0 <= k < n && init[k] == x;
        assert msgs[k] == x;
      }
      var r := ListedMessages(msgs, conversation, isRead, sender);
      if Listed(m, conversation, isRead, sender) {
        assert r == [m] + rest;
        forall i, j | 0 <= i < j < |r|
          ensures r[i].createdAt >= r[j].createdAt
        {
          if i == 0 {
            assert r[0] == m && r[j] == rest[j - 1] && rest[j - 1] in rest;
            assert rest[j - 1].createdAt <= m.createdAt;
          } else {
            assert r[i] == rest[i - 1] && r[j] == rest[j - 1];
          }
        }
      } else {
        assert r == rest;
      }
    }
  }

  /**
   * The `messages` action: the lookup only finds the user's own
   * conversations, so any other conversation is a 404; otherwise the listed
   * messages, latest first when the table is in creation order.
   */
  function MessagesAction(convs: seq<Conversation>, msgs: seq<Message>, user: UserId, conversation: nat,
                          isRead: Option<string>, sender: Option<UserId>): (r: Result<seq<Message>, Refusal>)
    ensures r.Err? <==> user !in ParticipantsOf(convs, conversation)
    ensures r.Err? ==> r.error == NotFound
    ensures r.Ok? ==> forall m :: m in r.value <==> m in msgs && Listed(m, conversation, isRead, sender)
    ensures r.Ok? && (forall i, j | 0 <= i < j < |msgs| :: msgs[i].createdAt <= msgs[j].createdAt) ==>
      LatestFirst(r.value)
  {
    if user !in ParticipantsOf(convs, conversation) then Err(NotFound)
    else
      var listed := ListedMessages(msgs, conversation, isRead, sender);
      if forall i, j | 0 <= i < j < |msgs| :: msgs[i].createdAt <= msgs[j].createdAt then
        ListedLatestFirst(msgs, conversation, isRead, sender);
        Ok(listed)
      else Ok(listed)
  }

  // ---------------------------------------------------------------------------
  // Sending a message
  // ---------------------------------------------------------------------------

  /** The first 30 characters, as `s[:30]`. */
  function Preview(s: string): (r: string)
    ensures |r| == (if |s| <= 30 then |s| else 30) && r <= s
  {
    if |s| <= 30 then s else s[..30]
  }

  /**
   * The notification text as written: slicing a null content raises, so a
   * message sent with files and no content fails here.
   */
  function NotificationTextAsWritten(senderName: string, content: Option<string>): (r: Result<string, string>)
    ensures r.Err? <==> content.None?
  {
    match content
    case Some(c) => Ok("New message from " + senderName + ": " + Preview(c) + "...")
    case None => Err("'NoneType' object is not subscriptable")
  }

  /** The notification text, a null content read as empty. */
  function NotificationText(senderName: string, content: Option<string>): (r: string)
    ensures content.Some? ==> NotificationTextAsWritten(senderName, content) == Ok(r)
  {
    "New message from " + senderName + ": " + Preview(content.GetOr("")) + "..."
  }

  /** A message with a file and no content passes validation, and the notification step then fails. */
  lemma FileOnlyMessageBreaksNotification(senderName: string, file: Upload)
    ensures !([file] == [] && !HasContent(None))
    ensures NotificationTextAsWritten(senderName, None).Err?
    ensures NotificationText(senderName, None) == "New message from " + senderName + ": ..."
  {
  }

  /**
   * The notifications from index `n0` on: exactly one per user of `users`,
   * each for the conversation, unread, with `text`.
   */
  predicate NotifiedOnce(notes: seq<Notification>, n0: nat, users: set<UserId>, conversationId: nat, text: string) {
    && n0 <= |notes|
    && |notes| - n0 == |users|
    && (set i | n0 <= i < |notes| :: notes[i].user) == users
    && (forall i, j | n0 <= i < j < |notes| :: notes[i].user != notes[j].user)
    && (forall i | n0 <= i < |notes| :: notes[i] == Notification(notes[i].user, Some(conversationId), text, false))
  }

  /** Notifying one more user, not yet notified, keeps every user notified once. */
  lemma NotifiedOnceExtend(notes: seq<Notification>, n0: nat, users: set<UserId>, u: UserId,
                           conversationId: nat, text: string)
    requires NotifiedOnce(notes, n0, users, conversationId, text) && u !in users
    ensures NotifiedOnce(notes + [Notification(u, Some(conversationId), text, false)], n0, users + {u}, conversationId, text)
  {
    var after := notes + [Notification(u, Some(conversationId), text, false)];
    forall i | n0 <= i < |notes|
      ensures notes[i].user != u
    {
      assert notes[i].user in (set i | n0 <= i < |notes| :: notes[i].user);
    }
    forall x | x in users + {u}
      ensures x in (set i | n0 <= i < |after| :: after[i].user)
    {
      if x == u {
        assert after[|notes|].user == x;
      } else {
        var i :| n0 <= i < |notes| && notes[i].user == x;
        assert after[i].user == x;
      }
    }
    forall x | x in (set i | n0 <= i < |after| :: after[i].user)
      ensures x in users + {u}
    {
      var i :| n0 <= i < |after| && after[i].user == x;
      if i < |notes| {
        assert notes[i].user in (set i | n0 <= i < |notes| :: notes[i].user);
      }
    }
  }

  /** One turn of the loop below, on participant `p` not yet visited. */
  lemma NotifyStep(notes: seq<Notification>, n0: nat, done: set<UserId>, sender: UserId, p: UserId,
                   conversationId: nat, text: string)
    requires NotifiedOnce(notes, n0, done - {sender}, conversationId, text) && p !in done
    ensures p == sender ==> NotifiedOnce(notes, n0, (done + {p}) - {sender}, conversationId, text)
    ensures p != sender ==>
      && NotifiedOnce(notes + [Notification(p, Some(conversationId), text, false)], n0, (done + {p}) - {sender}, conversationId, text)
      && (notes + [Notification(p, Some(conversationId), text, false)])[..n0] == notes[..n0]
  {
    if p != sender {
      NotifiedOnceExtend(notes, n0, done - {sender}, p, conversationId, text);
      assert (done + {p}) - {sender} == (done - {sender}) + {p};
    } else {
      assert (done + {p}) - {sender} == done - {sender};
    }
  }

  /** The loop over the participants: one notification for each but the sender, in no fixed order. */
  method NotifyParticipants(store: MessagingStore, participants: set<UserId>, sender: UserId,
                            conversationId: nat, text: string)
    modifies store`notifications
    ensures NotifiedOnce(store.notifications, |old(store.notifications)|, participants - {sender}, conversationId, text)
      && store.notifications[..|old(store.notifications)|] == old(store.notifications)
  {
    var notes := store.notifications;
    ghost var n0 := |notes|;
    var remaining := participants;
    ghost var done: set<UserId> := {};
    while remaining != {}
      invariant remaining <= participants && done == participants - remaining
      invariant NotifiedOnce(notes, n0, done - {sender}, conversationId, text)
      invariant notes[..n0] == old(store.notifications)
      decreases remaining
    {
      var participant :| participant in remaining;
      NotifyStep(notes, n0, done, sender, participant, conversationId, text);
      if participant != sender {
        notes := notes + [Notification(participant, Some(conversationId), text, false)];
      }
      remaining := remaining - {participant};
      done := done + {participant};
    }
    store.notifications := notes;
  }

  /**
   * The `conversation` field of the message form, which the body must carry:
   * the id of an existing conversation, any one. The message is then saved in
   * the conversation of the URL whatever the body names.
   */
  function BodyConversationError(convs: seq<Conversation>, body: Option<nat>): (r: Option<string>)
    ensures r.None? <==> body.Some? && FindConversation(convs, body.value).Some?
  {
    match body
    case None => Some("This field is required.")
    case Some(id) =>
      if FindConversation(convs, id).None? then Some("Invalid pk \"" + NatToString(id) + "\" - object does not exist.")
      else None
  }

  /**
   * `send_message`: the conversation must be one of the sender's and the body
   * must name an existing conversation (`body`); the message is created, then
   * every participant but the sender gets one notification. The notification
   * text is `NotificationText`, which reads a null content as empty.
   */
  method SendMessage(store: MessagingStore, conversationId: nat, sender: UserId, senderName: string,
                     body: Option<nat>, content: Option<string>, files: seq<Upload>, now: int)
    returns (r: Result<Message, Refusal>)
    requires store.Valid()
    modifies store
    ensures store.Valid()
    ensures store.conversations == old(store.conversations)
    ensures sender !in ParticipantsOf(old(store.conversations), conversationId) ==>
      r == Err(NotFound) && store.messages == old(store.messages) && store.notifications == old(store.notifications)
    ensures sender in ParticipantsOf(old(store.conversations), conversationId)
            && BodyConversationError(old(store.conversations), body).Some? ==>
      && r == Err(Refusal(400, BodyConversationError(old(store.conversations), body).value))
      && store.messages == old(store.messages) && store.notifications == old(store.notifications)
    ensures sender in ParticipantsOf(old(store.conversations), conversationId)
            && BodyConversationError(old(store.conversations), body).None? ==>
      && (r.Err? <==> files == [] && !HasContent(content))
      && (r.Err? ==> r.error == Refusal(400, ContentRequired) && store.messages == old(store.messages)
                     && store.notifications == old(store.notifications))
    ensures r.Ok? ==>
      && r.value == Message(old(store.nextMessageId), conversationId, sender, content, false, now)
      && store.messages == old(store.messages) + [r.value]
      && store.attachments == old(store.attachments) + AttachmentsFor(r.value.id, files)
      && NotifiedOnce(store.notifications, |old(store.notifications)|,
                      ParticipantsOf(old(store.conversations), conversationId) - {sender},
                      conversationId, NotificationText(senderName, content))
      && store.notifications[..|old(store.notifications)|] == old(store.notifications)
  {
    var participants := ParticipantsOf(store.conversations, conversationId);
    if sender !in participants {
      return Err(NotFound);
    }
    var bodyError := BodyConversationError(store.conversations, body);
    if bodyError.Some? {
      return Err(Refusal(400, bodyError.value));
    }
    var created := CreateMessage(store, conversationId, sender, content, files, now);
    if created.Err? {
      return Err(Refusal(400, created.error));
    }
    var message := created.value;
    NotifyParticipants(store, participants, sender, conversationId, NotificationText(senderName, message.content));
    r := Ok(message);
  }

  // ---------------------------------------------------------------------------
  // Unread counters
  // ---------------------------------------------------------------------------

  /** The unread messages of conversation `conversation` that `user` did not send. */
  function UnreadCount(msgs: seq<Message>, conversation: nat, user: UserId): (n: nat)
    ensures n <= |msgs|
  {
    if msgs == [] then 0
    else
      var m := msgs[|msgs| - 1];
      UnreadCount(msgs[..|msgs| - 1], conversation, user)
      + (if m.conversation == conversation && !m.isRead && m.sender != user then 1 else 0)
  }

  /** `unread_count`: one entry per conversation of the user, counting what they have not read of others. */
  method UnreadCounts(store: MessagingStore, user: UserId) returns (counts: map<nat, nat>)
    ensures counts.Keys == set c | c in store.conversations && user in c.participants :: c.id
    ensures forall id | id in counts :: counts[id] == UnreadCount(store.messages, id, user)
  {
    counts := map[];
    var conversations := store.conversations;
    var i := 0;
    while i < |conversations|
      invariant 0 <= i <= |conversations|
      invariant counts.Keys == set c | c in conversations[..i] && user in c.participants :: c.id
      invariant forall id | id in counts :: counts[id] == UnreadCount(store.messages, id, user)
    {
      var c := conversations[i];
      if user in c.participants {
        counts := counts[c.id := UnreadCount(store.messages, c.id, user)];
      }
      assert conversations[..i + 1] == conversations[..i] + [c];
      i := i + 1;
    }
    assert conversations[..i] == conversations;
  }

  // ---------------------------------------------------------------------------
  // Marking messages read
  // ---------------------------------------------------------------------------

  /** The rows `mark_as_read` updates: same conversation, id up to the target's, not sent by the reader. */
  predicate Selected(m: Message, conversation: nat, upTo: nat, reader: UserId) {
    m.conversation == conversation && m.id <= upTo && m.sender != reader
  }

  /** The table after the bulk update. */
  function MarkRead(msgs: seq<Message>, conversation: nat, upTo: nat, reader: UserId): (r: seq<Message>)
    ensures |r| == |msgs|
    ensures forall j | 0 <= j < |msgs| ::
      && (r[j].isRead <==> msgs[j].isRead || Selected(msgs[j], conversation, upTo, reader))
      && r[j].(isRead := msgs[j].isRead) == msgs[j]
  {
    seq(|msgs|, j requires 0 <= j < |msgs| =>
      if Selected(msgs[j], conversation, upTo, reader) then msgs[j].(isRead := true) else msgs[j])
  }

  /** The number of rows the update matched, read or not. */
  function MatchCount(msgs: seq<Message>, conversation: nat, upTo: nat, reader: UserId): (n: nat)
    ensures n <= |msgs|
  {
    if msgs == [] then 0
    else MatchCount(msgs[..|msgs| - 1], conversation, upTo, reader)
         + (if Selected(msgs[|msgs| - 1], conversation, upTo, reader) then 1 else 0)
  }

  /**
   * `mark_as_read`: the target must be a message of one of the reader's
   * conversations; every message of that conversation up to it that the reader
   * did not send becomes read, and the number matched and the target's id are returned.
   */
  method MarkAsRead(store: MessagingStore, reader: UserId, messageId: nat) returns (r: Result<(nat, nat), Refusal>)
    requires store.Valid()
    modifies store
    ensures store.Valid()
    ensures store.conversations == old(store.conversations) && store.attachments == old(store.attachments)
    ensures store.notifications == old(store.notifications)
    ensures match FindMessage(old(store.messages), messageId)
      case None => r == Err(NotFound) && store.messages == old(store.messages)
      case Some(k) =>
        var target := old(store.messages)[k];
        if reader !in ParticipantsOf(store.conversations, target.conversation) then
          r == Err(NotFound) && store.messages == old(store.messages)
        else
          && store.messages == MarkRead(old(store.messages), target.conversation, target.id, reader)
          && r == Ok((MatchCount(old(store.messages), target.conversation, target.id, reader), target.id))
  {
    var found := FindMessage(store.messages, messageId);
    if found.None? {
      return Err(NotFound);
    }
    var message := store.messages[found.value];
    if reader !in ParticipantsOf(store.conversations, message.conversation) {
      return Err(NotFound);
    }
    var updated := MatchCount(store.messages, message.conversation, message.id, reader);
    ghost var before := store.messages;
    store.messages := MarkRead(store.messages, message.conversation, message.id, reader);
    assert forall j | 0 <= j < |store.messages| :: store.messages[j].id == before[j].id && before[j] in before;
    r := Ok((updated, message.id));
  }

  /** Marking again changes nothing and matches as many rows. */
  lemma MarkReadIdempotent(msgs: seq<Message>, conversation: nat, upTo: nat, reader: UserId)
    ensures MarkRead(MarkRead(msgs, conversation, upTo, reader), conversation, upTo, reader)
            == MarkRead(msgs, conversation, upTo, reader)
  {
  }

  /** Marking up to a later message covers everything an earlier mark did. */
  lemma MarkLaterCoversEarlier(msgs: seq<Message>, conversation: nat, upTo1: nat, upTo2: nat, reader: UserId)
    requires upTo1 <= upTo2
    ensures MarkRead(MarkRead(msgs, conversation, upTo1, reader), conversation, upTo2, reader)
            == MarkRead(msgs, conversation, upTo2, reader)
  {
  }

  /** The unread messages of `conversation` for `user` with an id above `upTo`. */
  function UnreadAbove(msgs: seq<Message>, conversation: nat, user: UserId, upTo: nat): nat {
    if msgs == [] then 0
    else
      var m := msgs[|msgs| - 1];
      UnreadAbove(msgs[..|msgs| - 1], conversation, user, upTo)
      + (if m.conversation == conversation && !m.isRead && m.sender != user && m.id > upTo then 1 else 0)
  }

  /** After the reader marks up to a message, what is left unread for them there is exactly what came after it. */
  lemma {:induction false} UnreadAfterMark(msgs: seq<Message>, conversation: nat, upTo: nat, reader: UserId)
    ensures UnreadCount(MarkRead(msgs, conversation, upTo, reader), conversation, reader)
            == UnreadAbove(msgs, conversation, reader, upTo)
  {
    if msgs != [] {
      var n := |msgs| - 1;
      assert MarkRead(msgs, conversation, upTo, reader)[..n] == MarkRead(msgs[..n], conversation, upTo, reader);
      UnreadAfterMark(msgs[..n], conversation, upTo, reader);
    }
  }

  /** The update matches at least every unread message it turns read. */
  lemma {:induction false} UnreadDropBoundedByMatches(msgs: seq<Message>, conversation: nat, upTo: nat, reader: UserId)
    ensures UnreadCount(msgs, conversation, reader)
            <= UnreadAbove(msgs, conversation, reader, upTo) + MatchCount(msgs, conversation, upTo, reader)
  {
    if msgs != [] {
      UnreadDropBoundedByMatches(msgs[..|msgs| - 1], conversation, upTo, reader);
    }
  }

  // ---------------------------------------------------------------------------
  // Editing and deleting
  // ---------------------------------------------------------------------------

  const Day := 86400

  /** A message created more than a day before `now`, in seconds. */
  predicate TooOld(createdAt: int, now: int) {
    createdAt < now - Day
  }

  /** The attachments left once a message is deleted with its attachments. */
  function AttachmentsNotOf(atts: seq<Attachment>, messageId: nat): (r: seq<Attachment>)
    ensures forall a :: a in r <==> a in atts && a.message != messageId
  {
    if atts == [] then []
    else AttachmentsNotOf(atts[..|atts| - 1], messageId)
         + (if atts[|atts| - 1].message != messageId then [atts[|atts| - 1]] else [])
  }

  /** `update` and `partial_update`: refused for a message older than a day, else the serializer's update. */
  method GuardedUpdate(store: MessagingStore, k: nat, now: int, changes: MessageChanges, files: seq<Upload>)
    returns (r: Result<Message, Refusal>)
    requires store.Valid() && k < |store.messages|
    modifies store
    ensures store.Valid()
    ensures r.Err? <==> TooOld(old(store.messages[k].createdAt), now)
    ensures r.Err? ==>
      && r.error == Refusal(403, "Messages older than 24 hours cannot be updated.")
      && store.messages == old(store.messages) && store.attachments == old(store.attachments)
    ensures r.Ok? ==>
      && r.value == Changed(old(store.messages[k]), changes)
      && store.messages == old(store.messages)[k := r.value]
      && store.attachments == old(store.attachments) + AttachmentsFor(r.value.id, files)
  {
    if TooOld(store.messages[k].createdAt, now) {
      return Err(Refusal(403, "Messages older than 24 hours cannot be updated."));
    }
    var m := UpdateMessage(store, k, changes, files);
    r := Ok(m);
  }

  /** `destroy`: refused for a message older than a day, else the message goes with its attachments. */
  method GuardedDestroy(store: MessagingStore, k: nat, now: int) returns (r: Result<nat, Refusal>)
    requires store.Valid() && k < |store.messages|
    modifies store
    ensures store.Valid()
    ensures r.Err? <==> TooOld(old(store.messages[k].createdAt), now)
    ensures r.Err? ==>
      && r.error == Refusal(403, "Messages older than 24 hours cannot be deleted.")
      && store.messages == old(store.messages) && store.attachments == old(store.attachments)
    ensures r.Ok? ==>
      && r.value == old(store.messages[k].id)
      && store.messages == old(store.messages[..k] + store.messages[k + 1..])
      && store.attachments == AttachmentsNotOf(old(store.attachments), r.value)
    ensures store.conversations == old(store.conversations) && store.notifications == old(store.notifications)
  {
    var message := store.messages[k];
    if TooOld(message.createdAt, now) {
      return Err(Refusal(403, "Messages older than 24 hours cannot be deleted."));
    }
    ghost var before := store.messages;
    store.messages := store.messages[..k] + store.messages[k + 1..];
    assert forall m | m in store.messages :: m in before;
    store.attachments := AttachmentsNotOf(store.attachments, message.id);
    r := Ok(message.id);
  }

  /** The window is a full day: a message exactly 24 hours old can still be changed, one second more cannot. */
  lemma EditWindowBoundary(now: int)
    ensures !TooOld(now - Day, now) && TooOld(now - Day - 1, now)
  {
  }
}
