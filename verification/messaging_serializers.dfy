/**
 * Writing messages, their attachments and new conversations.
 */
module MessagingSerializers {
  import opened Wrappers
  import opened Text
  import opened MessagingModels

  /** An uploaded file: its name and its content type. */
  datatype Upload = Upload(name: string, contentType: string)

  /** The error text, spelling included, of a message with neither content nor file. */
  const ContentRequired := "content is requered if you didn't provide a file"

  const TooFewParticipants := "At least two participant IDs are required"

  /** The name a message's file is uploaded under. */
  function UploadName(messageId: nat, fileName: string): string {
    "message_attachments/" + NatToString(messageId) + "/" + fileName
  }

  function AttachmentFor(messageId: nat, f: Upload): Attachment {
    Attachment(messageId, f.name, f.contentType, UploadName(messageId, f.name))
  }

  /** One attachment per uploaded file, in upload order, each carrying that file's name and type. */
  function AttachmentsFor(messageId: nat, files: seq<Upload>): (r: seq<Attachment>)
    ensures |r| == |files|
    ensures forall i | 0 <= i < |files| ::
      r[i].message == messageId && r[i].fileName == files[i].name && r[i].fileType == files[i].contentType
  {
    seq(|files|, i requires 0 <= i < |files| => AttachmentFor(messageId, files[i]))
  }

  /** `not content`: a null or empty content counts as missing. */
  predicate HasContent(content: Option<string>) {
    content.Some? && content.value != ""
  }

  /** Creates one attachment row per file; the upload itself is not part of this model. */
  method AddAttachments(store: MessagingStore, messageId: nat, files: seq<Upload>)
    modifies store
    ensures store.attachments == old(store.attachments) + AttachmentsFor(messageId, files)
    ensures store.conversations == old(store.conversations) && store.messages == old(store.messages)
    ensures store.notifications == old(store.notifications)
    ensures store.nextConversationId == old(store.nextConversationId) && store.nextMessageId == old(store.nextMessageId)
  {
    var i := 0;
    while i < |files|
      invariant 0 <= i <= |files|
      invariant store.attachments == old(store.attachments) + AttachmentsFor(messageId, files[..i])
      invariant store.conversations == old(store.conversations) && store.messages == old(store.messages)
      invariant store.notifications == old(store.notifications)
      invariant store.nextConversationId == old(store.nextConversationId) && store.nextMessageId == old(store.nextMessageId)
    {
      var file := files[i];
      store.attachments := store.attachments + [Attachment(messageId, file.name, file.contentType, UploadName(messageId, file.name))];
      assert files[..i + 1] == files[..i] + [file];
      i := i + 1;
    }
    assert files[..i] == files;
  }

  /**
   * `MessageSerializer.create`: a message needs content or at least one file;
   * then the message is written, unread, and one attachment per file after it.
   */
  method CreateMessage(store: MessagingStore, conversation: nat, sender: UserId, content: Option<string>,
                       files: seq<Upload>, now: int)
    returns (r: Result<Message, string>)
    requires store.Valid()
    modifies store
    ensures store.Valid()
    ensures r.Err? <==> files == [] && !HasContent(content)
    ensures r.Err? ==> r.error == ContentRequired
    ensures r.Err? ==>
      && store.messages == old(store.messages) && store.attachments == old(store.attachments)
      && store.nextMessageId == old(store.nextMessageId)
    ensures r.Ok? ==>
      && r.value == Message(old(store.nextMessageId), conversation, sender, content, false, now)
      && store.messages == old(store.messages) + [r.value]
      && store.attachments == old(store.attachments) + AttachmentsFor(r.value.id, files)
      && store.nextMessageId == old(store.nextMessageId) + 1
    ensures store.conversations == old(store.conversations) && store.notifications == old(store.notifications)
    ensures store.nextConversationId == old(store.nextConversationId)
  {
    if |files| == 0 && !HasContent(content) {
      return Err(ContentRequired);
    }
    var message := Message(store.nextMessageId, conversation, sender, content, false, now);
    store.messages := store.messages + [message];
    store.nextMessageId := store.nextMessageId + 1;
    AddAttachments(store, message.id, files);
    r := Ok(message);
  }

  /** What an update request says about a message's conversation and content: absent, or a new value. */
  datatype MessageChanges = MessageChanges(conversation: Option<nat>, content: Option<Option<string>>)

  function Changed(m: Message, changes: MessageChanges): (m': Message)
    ensures m'.id == m.id && m'.sender == m.sender && m'.isRead == m.isRead && m'.createdAt == m.createdAt
    ensures m'.conversation == changes.conversation.GetOr(m.conversation)
    ensures m'.content == changes.content.GetOr(m.content)
  {
    m.(conversation := changes.conversation.GetOr(m.conversation), content := changes.content.GetOr(m.content))
  }

  /**
   * `MessageSerializer.update`: the given fields are set and the files are
   * added as attachments; existing attachments are never removed, and nothing
   * requires the result to keep content or a file.
   */
  method UpdateMessage(store: MessagingStore, k: nat, changes: MessageChanges, files: seq<Upload>)
    returns (m: Message)
    requires store.Valid() && k < |store.messages|
    modifies store
    ensures store.Valid()
    ensures m == Changed(old(store.messages[k]), changes)
    ensures store.messages == old(store.messages)[k := m]
    ensures store.attachments == old(store.attachments) + AttachmentsFor(m.id, files)
    ensures store.conversations == old(store.conversations) && store.notifications == old(store.notifications)
    ensures store.nextConversationId == old(store.nextConversationId) && store.nextMessageId == old(store.nextMessageId)
  {
    m := store.messages[k];
    assert m in store.messages;
    if changes.conversation.Some? {
      m := m.(conversation := changes.conversation.value);
    }
    if changes.content.Some? {
      m := m.(content := changes.content.value);
    }
    AddAttachments(store, m.id, files);
    ghost var before := store.messages;
    store.messages := store.messages[k := m];
    assert forall j | 0 <= j < |store.messages| :: store.messages[j] == m || store.messages[j] == before[j];
  }

  /** `MessageAttachmentSerializer.create`: with a file, the name and type are the file's; without one they stay empty. */
  function StandaloneAttachment(messageId: nat, file: Option<Upload>): (a: Attachment)
    ensures a.message == messageId
    ensures file.Some? ==> a.fileName == file.value.name && a.fileType == file.value.contentType
    ensures file.None? ==> a.fileName == "" && a.fileType == ""
  {
    match file
    case Some(f) => AttachmentFor(messageId, f)
    case None => Attachment(messageId, "", "", "")
  }

  /** `ConversationCreateSerializer.validate`: fewer than two ids are refused. */
  function ValidateConversation(participantIds: seq<UserId>): (r: Result<seq<UserId>, string>)
    ensures r.Ok? <==> |participantIds| >= 2
    ensures r.Ok? ==> r.value == participantIds
    ensures r.Err? ==> r.error == TooFewParticipants
  {
    if |participantIds| < 2 then Err(TooFewParticipants) else Ok(participantIds)
  }

  /** The server error of adding a participant id that names no user: the foreign key refuses it. */
  const UnknownParticipant := "IntegrityError: a participant id names no user"

  /**
   * `ConversationCreateSerializer.create`: the conversation row is created
   * first, then the participants are added. `users` holds the ids of the
   * existing users; an id outside it makes the addition fail, and the
   * conversation already created stays, with no participants.
   */
  method CreateConversation(store: MessagingStore, users: set<UserId>, participantIds: seq<UserId>)
    returns (r: Result<Conversation, string>)
    requires store.Valid()
    modifies store
    ensures store.Valid()
    ensures r.Ok? <==> ValidateConversation(participantIds).Ok? && forall u | u in participantIds :: u in users
    ensures |participantIds| < 2 ==> r == Err(TooFewParticipants) && store.conversations == old(store.conversations)
    ensures |participantIds| >= 2 && (exists u | u in participantIds :: u !in users) ==>
      && r == Err(UnknownParticipant)
      && store.conversations == [Conversation(old(store.nextConversationId), {})] + old(store.conversations)
    ensures r.Ok? ==>
      && r.value == Conversation(old(store.nextConversationId), set u | u in participantIds)
      && store.conversations == [r.value] + old(store.conversations)
    ensures store.messages == old(store.messages) && store.attachments == old(store.attachments)
    ensures store.notifications == old(store.notifications) && store.nextMessageId == old(store.nextMessageId)
  {
    var valid := ValidateConversation(participantIds);
    if valid.Err? {
      return Err(valid.error);
    }
    var c := Conversation(store.nextConversationId, {});
    store.conversations := [c] + store.conversations;
    store.nextConversationId := store.nextConversationId + 1;
    if exists u | u in participantIds :: u !in users {
      return Err(UnknownParticipant);
    }
    c := c.(participants := set u | u in participantIds);
    store.conversations := [c] + store.conversations[1..];
    r := Ok(c);
  }

  /**
   * Two ids pass the check even when they are the same user, and make a
   * conversation of one participant.
   */
  lemma RepeatedIdMakesSoloConversation(u: UserId)
    ensures ValidateConversation([u, u]).Ok?
    ensures (set v | v in [u, u]) == {u}
  {
  }
}
