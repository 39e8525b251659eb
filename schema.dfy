/** Record shapes of the chat app and its static model registry. */
module Schema {
  import opened Wrappers

  /** Who wrote a message. */
  datatype Role = User | Assistant | System

  /** Token counters of one completion. */
  datatype Usage = Usage(promptTokens: int, completionTokens: int, totalTokens: int)

  /** What an assistant message records about the reply that produced it. */
  datatype Metadata = Metadata(model: string, usage: Usage)

  /** A stored conversation. Timestamps are milliseconds of the clock. The
      four descriptive fields hold exactly what the insert carried: the table's
      column defaults are not applied by the in-memory storage, so a field the
      client left out stays absent. */
  datatype ChatSession = ChatSession(
    id: string,
    title: Option<string>,
    model: Option<string>,
    mode: Option<string>,
    isPinned: Option<bool>,
    createdAt: int,
    updatedAt: int)

  /** A stored message; `attachments` holds the resolved attachment records. */
  datatype Message = Message(
    id: string,
    sessionId: string,
    role: Role,
    content: string,
    attachments: Option<seq<Attachment>>,
    metadata: Option<Metadata>,
    createdAt: int)

  /** Metadata of an uploaded file; `size` is the byte count written in decimal. */
  datatype Attachment = Attachment(
    id: string,
    filename: string,
    mimetype: string,
    size: string,
    path: string,
    createdAt: int)

  /** Insert shapes: the records without the fields storage supplies (`id`,
      `createdAt` and, for sessions, `updatedAt`). */
  datatype InsertChatSession = InsertChatSession(
    title: Option<string>,
    model: Option<string>,
    mode: Option<string>,
    isPinned: Option<bool>)

  datatype InsertMessage = InsertMessage(
    sessionId: string,
    role: Role,
    content: string,
    attachments: Option<seq<Attachment>>,
    metadata: Option<Metadata>)

  datatype InsertAttachment = InsertAttachment(
    filename: string,
    mimetype: string,
    size: string,
    path: string)

  /** A partial update of a session: any subset of the insert fields. */
  type SessionPatch = InsertChatSession

  /** A patch as it arrives in a request body, before any validation: besides
      the insert fields it may carry the keys that storage owns. */
  datatype RawPatch = RawPatch(
    title: Option<string>,
    model: Option<string>,
    mode: Option<string>,
    isPinned: Option<bool>,
    id: Option<string>,
    createdAt: Option<int>)

  // ---------------------------------------------------------------------------
  // Building records from insert shapes

  function SessionFromInsert(id: string, i: InsertChatSession, now: int): ChatSession
  {
    ChatSession(id, i.title, i.model, i.mode, i.isPinned, now, now)
  }

  function MessageFromInsert(id: string, i: InsertMessage, now: int): Message
  {
    Message(id, i.sessionId, i.role, i.content, i.attachments, i.metadata, now)
  }

  function AttachmentFromInsert(id: string, i: InsertAttachment, now: int): Attachment
  {
    Attachment(id, i.filename, i.mimetype, i.size, i.path, now)
  }

  function InsertOfSession(s: ChatSession): InsertChatSession
  {
    InsertChatSession(s.title, s.model, s.mode, s.isPinned)
  }

  function InsertOfMessage(m: Message): InsertMessage
  {
    InsertMessage(m.sessionId, m.role, m.content, m.attachments, m.metadata)
  }

  function InsertOfAttachment(a: Attachment): InsertAttachment
  {
    InsertAttachment(a.filename, a.mimetype, a.size, a.path)
  }

  /** A record is its insert shape plus the fields storage supplies: the
      new record copies every insert field, and nothing but the id and the
      timestamps is added. */
  lemma SessionInsertRoundTrip(id: string, i: InsertChatSession, now: int)
    ensures InsertOfSession(SessionFromInsert(id, i, now)) == i
    ensures SessionFromInsert(id, i, now).id == id
    ensures SessionFromInsert(id, i, now).createdAt == SessionFromInsert(id, i, now).updatedAt == now
  {
  }

  lemma SessionRecordRoundTrip(s: ChatSession)
    requires s.createdAt == s.updatedAt
    ensures SessionFromInsert(s.id, InsertOfSession(s), s.createdAt) == s
  {
  }

  lemma MessageInsertRoundTrip(id: string, i: InsertMessage, now: int)
    ensures InsertOfMessage(MessageFromInsert(id, i, now)) == i
    ensures MessageFromInsert(id, i, now).id == id && MessageFromInsert(id, i, now).createdAt == now
  {
  }

  lemma AttachmentInsertRoundTrip(id: string, i: InsertAttachment, now: int)
    ensures InsertOfAttachment(AttachmentFromInsert(id, i, now)) == i
    ensures AttachmentFromInsert(id, i, now).id == id && AttachmentFromInsert(id, i, now).createdAt == now
  {
  }

  // ---------------------------------------------------------------------------
  // Partial updates

  /** `{ ...session, ...patch, updatedAt: now }` for a patch of insert fields. */
  function MergePatch(s: ChatSession, p: SessionPatch, now: int): (r: ChatSession)
    ensures r.id == s.id && r.createdAt == s.createdAt && r.updatedAt == now
    ensures r.title == (if p.title.Some? then p.title else s.title)
    ensures r.model == (if p.model.Some? then p.model else s.model)
    ensures r.mode == (if p.mode.Some? then p.mode else s.mode)
    ensures r.isPinned == (if p.isPinned.Some? then p.isPinned else s.isPinned)
  {
    s.(title := if p.title.Some? then p.title else s.title,
       model := if p.model.Some? then p.model else s.model,
       mode := if p.mode.Some? then p.mode else s.mode,
       isPinned := if p.isPinned.Some? then p.isPinned else s.isPinned,
       updatedAt := now)
  }

  /** `{ ...session, ...body, updatedAt: now }` for an unvalidated body: every
      key of the body overrides the stored one, including `id` and `createdAt`. */
  function SpreadRawPatch(s: ChatSession, b: RawPatch, now: int): (r: ChatSession)
    ensures InsertOfSession(r) == InsertOfSession(MergePatch(s, StripPatch(b), now))
    ensures r.updatedAt == now
    ensures b.id.Some? ==> r.id == b.id.value
    ensures b.createdAt.Some? ==> r.createdAt == b.createdAt.value
    ensures b.id.None? ==> r.id == s.id
    ensures b.createdAt.None? ==> r.createdAt == s.createdAt
    ensures b.id.None? && b.createdAt.None? ==> r == MergePatch(s, StripPatch(b), now)
  {
    MergePatch(s, InsertChatSession(b.title, b.model, b.mode, b.isPinned), now)
      .(id := if b.id.Some? then b.id.value else s.id,
        createdAt := if b.createdAt.Some? then b.createdAt.value else s.createdAt)
  }

  /** Validation against the partial insert shape keeps the insert fields and
      strips every other key. */
  function StripPatch(b: RawPatch): (p: SessionPatch)
    ensures p.title == b.title && p.model == b.model && p.mode == b.mode && p.isPinned == b.isPinned
  {
    InsertChatSession(b.title, b.model, b.mode, b.isPinned)
  }

  /** As written, a body carrying `id` renames the stored record, so the record
      no longer matches the key it is stored under, and one carrying
      `createdAt` can put it after `updatedAt`. */
  lemma RawPatchBreaksIdentity()
    ensures var s := ChatSession("a", None, None, None, None, 1, 1);
            var r := SpreadRawPatch(s, RawPatch(None, None, None, None, Some("b"), Some(5)), 2);
            r.id != s.id && r.createdAt > r.updatedAt
  {
  }

  /** With the body validated first, a patch never touches `id` or
      `createdAt`, and `updatedAt` never falls behind `createdAt` when the
      clock does not go backwards. */
  lemma {:induction false} StrippedPatchKeepsIdentity(s: ChatSession, b: RawPatch, now: int)
    requires s.createdAt <= now
    ensures MergePatch(s, StripPatch(b), now).id == s.id
    ensures MergePatch(s, StripPatch(b), now).createdAt == s.createdAt
    ensures MergePatch(s, StripPatch(b), now).createdAt <= MergePatch(s, StripPatch(b), now).updatedAt
  {
  }

  // ---------------------------------------------------------------------------
  // Column defaults

  const DefaultTitle: string := "محادثة جديدة"
  const DefaultModel: string := "gpt-5"
  const DefaultMode: string := "chat"
  const DefaultPinned: bool := false

  /** The defaults the table declares for a new session row (a database would
      fill them in; the in-memory storage does not). */
  function WithColumnDefaults(i: InsertChatSession): (r: InsertChatSession)
    ensures r.title.Some? && r.model.Some? && r.mode.Some? && r.isPinned.Some?
    ensures i.title.Some? ==> r.title == i.title
    ensures i.model.Some? ==> r.model == i.model
    ensures i.mode.Some? ==> r.mode == i.mode
    ensures i.isPinned.Some? ==> r.isPinned == i.isPinned
    ensures i.title.None? ==> r.title == Some("محادثة جديدة")
    ensures i.model.None? ==> r.model == Some("gpt-5")
    ensures i.mode.None? ==> r.mode == Some("chat")
    ensures i.isPinned.None? ==> r.isPinned == Some(false)
    ensures i == InsertChatSession(None, None, None, None) ==>
      r == InsertChatSession(Some("محادثة جديدة"), Some("gpt-5"), Some("chat"), Some(false))
  {
    InsertChatSession(
      if i.title.Some? then i.title else Some(DefaultTitle),
      if i.model.Some? then i.model else Some(DefaultModel),
      if i.mode.Some? then i.mode else Some(DefaultMode),
      if i.isPinned.Some? then i.isPinned else Some(DefaultPinned))
  }

  // ---------------------------------------------------------------------------
  // Model registry

  datatype ProviderTag = OpenAI | DeepSeek

  datatype AIModel = AIModel(id: string, name: string, provider: ProviderTag, description: Option<string>)

  const AvailableModels: seq<AIModel> := [
    AIModel("gpt-5", "GPT-5", OpenAI, Some("Latest OpenAI model")),
    AIModel("gpt-4o", "GPT-4 Turbo", OpenAI, Some("Fast and capable")),
    AIModel("deepseek-chat", "DeepSeek Chat", DeepSeek, Some("DeepSeek conversational model")),
    AIModel("deepseek-coder", "DeepSeek Coder", DeepSeek, Some("Specialized for coding tasks"))
  ]

  predicate IsRegistered(id: string)
  {
    exists i :: 0 <= i < |AvailableModels| && AvailableModels[i].id == id
  }

  /** The registry holds four models with pairwise distinct ids. */
  lemma RegistryShape()
    ensures |AvailableModels| == 4
    ensures forall i, j :: 0 <= i < j < |AvailableModels| ==> AvailableModels[i].id != AvailableModels[j].id
  {
  }

  /** The default session model is one of the registered models. */
  lemma DefaultModelRegistered()
    ensures IsRegistered(DefaultModel)
  {
    assert AvailableModels[0].id == DefaultModel;
  }
}
