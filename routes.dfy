/** The HTTP handlers: their validation, status codes and the order of their
    storage calls. A handler takes the storage object, the client's cookie
    (the session id bound to that client, if any) and the parsed request, and
    yields the status and the JSON body. The provider call of send-message is
    the adapter of module `Ai` over an abstract provider. */
module Routes {
  import opened Wrappers
  import opened Schema
  import opened JsMap
  import opened Storage
  import opened NumberText
  import opened Sorting
  import Ai

  datatype Body =
    | SessionList(sessions: seq<ChatSession>)
    | OneSession(session: ChatSession)
    | MessageList(messages: seq<Message>)
    | Exchange(userMessage: Message, aiMessage: Message)
    | AttachmentList(attachments: seq<Attachment>)
    | Failure(error: string)
    | NoContent

  datatype Response = Response(status: int, body: Body)

  /** One field of a JSON request body: absent, present with the right
      type, or present with another type. */
  datatype Field<T> = Missing | Given(value: T) | WrongType

  // ------------------------------------------------------------------ Sessions

  /** The cookie names a session only when it holds a non-empty id. */
  predicate HasCookie(cookie: Option<string>)
  {
    cookie.Some? && cookie.value != ""
  }

  /** The cookie names a session that is stored. */
  ghost predicate BoundSession(st: MemStorage, cookie: Option<string>)
    reads st
  {
    HasCookie(cookie) && cookie.value in st.sessions.entries
  }

  /** GET /api/sessions: only the session bound to the cookie, never the
      whole list. */
  function ListSessions(st: MemStorage, cookie: Option<string>): (r: Response)
    reads st
    requires st.Valid()
    ensures r.status == 200 && r.body.SessionList?
    ensures |r.body.sessions| <= 1
    ensures r.body.sessions != [] <==> BoundSession(st, cookie)
    ensures BoundSession(st, cookie) ==> r.body.sessions == [st.sessions.entries[cookie.value]]
  {
    if HasCookie(cookie) then
      match st.GetSession(cookie.value)
      case Some(session) => Response(200, SessionList([session]))
      case None => Response(200, SessionList([]))
    else Response(200, SessionList([]))
  }

  /** GET /api/sessions/:id. */
  function FetchSession(st: MemStorage, id: string): (r: Response)
    reads st
    requires st.Valid()
    ensures id !in st.sessions.entries ==> r == Response(404, Failure("Session not found"))
    ensures id in st.sessions.entries ==>
      && r.status == 200 && r.body.OneSession?
      && r.body.session == st.sessions.entries[id] && r.body.session.id == id
  {
    match st.GetSession(id)
    case None => Response(404, Failure("Session not found"))
    case Some(session) => Response(200, OneSession(session))
  }

  /** A request body for a new session, before validation. */
  datatype SessionBody = SessionBody(title: Field<string>, model: Field<string>, mode: Field<string>, isPinned: Field<bool>)

  function FieldValue<T>(f: Field<T>): Option<T>
  {
    if f.Given? then Some(f.value) else None
  }

  /** Validation against the session insert shape: every field is optional,
      a field of the wrong type is rejected (the error names that field), and
      keys outside the shape are dropped. */
  function ParseInsertSession(b: SessionBody): (r: Result<InsertChatSession, string>)
    ensures r.Ok? <==> !b.title.WrongType? && !b.model.WrongType? && !b.mode.WrongType? && !b.isPinned.WrongType?
    ensures r.Ok? ==> r.value == InsertChatSession(FieldValue(b.title), FieldValue(b.model), FieldValue(b.mode), FieldValue(b.isPinned))
  {
    if b.title.WrongType? then Err("title")
    else if b.model.WrongType? then Err("model")
    else if b.mode.WrongType? then Err("mode")
    else if b.isPinned.WrongType? then Err("isPinned")
    else Ok(InsertChatSession(FieldValue(b.title), FieldValue(b.model), FieldValue(b.mode), FieldValue(b.isPinned)))
  }

  /** POST /api/sessions: a client whose cookie names a stored session gets
      that session back with 200 and nothing is written; otherwise the body is
      validated, a session is created, the cookie is bound to it, and the
      answer is 201. */
  method PostSession(st: MemStorage, cookie: Option<string>, body: SessionBody)
    returns (r: Response, cookie': Option<string>)
    requires st.Valid()
    modifies st
    ensures st.Valid()
    ensures old(BoundSession(st, cookie)) ==>
      && r == Response(200, OneSession(old(st.sessions.entries[cookie.value])))
      && cookie' == cookie && unchanged(st)
    ensures !old(BoundSession(st, cookie)) && ParseInsertSession(body).Err? ==>
      && r == Response(400, Failure(ParseInsertSession(body).error))
      && cookie' == cookie && unchanged(st)
    ensures !old(BoundSession(st, cookie)) && ParseInsertSession(body).Ok? ==>
      && r.status == 201 && r.body.OneSession?
      && var s := r.body.session;
      && s.id !in old(st.sessions.entries)
      && s == SessionFromInsert(s.id, ParseInsertSession(body).value, st.clock)
      && cookie' == Some(s.id) && BoundSession(st, cookie')
      && st.sessions == old(st.sessions).Set(s.id, s)
      && st.messages == old(st.messages) && st.attachments == old(st.attachments)
    ensures r.status != 400 ==> ListSessions(st, cookie') == Response(200, SessionList([r.body.session]))
  {
    if HasCookie(cookie) {
      var existing := st.GetSession(cookie.value);
      if existing.Some? {
        return Response(200, OneSession(existing.value)), cookie;
      }
    }
    match ParseInsertSession(body)
    case Err(e) =>
      return Response(400, Failure(e)), cookie;
    case Ok(validated) =>
      var session := st.CreateSession(validated);
      return Response(201, OneSession(session)), Some(session.id);
  }

  /** PATCH /api/sessions/:id: the body is reduced to the insert fields and
      merged into the stored session. */
  method PatchSession(st: MemStorage, id: string, body: RawPatch) returns (r: Response)
    requires st.Valid()
    modifies st
    ensures st.Valid()
    ensures id !in old(st.sessions.entries) ==>
      r == Response(404, Failure("Session not found")) && unchanged(st)
    ensures id in old(st.sessions.entries) ==>
      && r == Response(200, OneSession(MergePatch(old(st.sessions.entries[id]), StripPatch(body), st.clock)))
      && r.body.session.id == id
      && r.body.session.createdAt == old(st.sessions.entries[id]).createdAt
      && st.sessions == old(st.sessions).Set(id, r.body.session)
      && st.messages == old(st.messages) && st.attachments == old(st.attachments)
  {
    var updated := st.UpdateSession(id, StripPatch(body));
    if updated.None? {
      return Response(404, Failure("Session not found"));
    }
    return Response(200, OneSession(updated.value));
  }

  /** DELETE /api/sessions/:id. */
  method RemoveSession(st: MemStorage, id: string) returns (r: Response)
    requires st.Valid()
    modifies st
    ensures st.Valid()
    ensures r == if id in old(st.sessions.entries) then Response(204, NoContent)
                 else Response(404, Failure("Session not found"))
    ensures st.sessions == old(st.sessions).Delete(id)
    ensures st.messages == old(st.messages).RemoveAll(OwnedBy(old(st.messages), id))
    ensures st.attachments == old(st.attachments)
  {
    var deleted := st.DeleteSession(id);
    if !deleted {
      return Response(404, Failure("Session not found"));
    }
    return Response(204, NoContent);
  }

  // ------------------------------------------------------------------ Messages

  /** GET /api/sessions/:sessionId/messages: the session's history, oldest
      first; an unknown session has an empty history, not a 404. */
  function ListMessages(st: MemStorage, sid: string): (r: Response)
    reads st
    requires st.Valid()
    ensures r.status == 200 && r.body.MessageList?
    ensures forall m :: m in r.body.messages <==> m in st.messages.entries.Values && m.sessionId == sid
    ensures multiset(r.body.messages) == multiset(InSession(st.messages.Values(), sid))
    ensures forall i, j :: 0 <= i < j < |r.body.messages| ==>
      r.body.messages[i].createdAt <= r.body.messages[j].createdAt
    ensures forall k :: WithKey(r.body.messages, OldestFirst, k) == WithKey(InSession(st.messages.Values(), sid), OldestFirst, k)
  {
    MessagesInOrderSpec(st.messages, sid);
    Response(200, MessageList(st.GetMessages(sid)))
  }

  /** The body of a send-message request; a missing `attachmentIds` is the
      empty list. */
  datatype MessageBody = MessageBody(content: Field<string>, model: Option<string>, attachmentIds: seq<string>)

  /** `!content || typeof content !== 'string'` rejects: only a non-empty
      string passes (whitespace counts as content). */
  predicate ContentAccepted(c: Field<string>)
  {
    c.Given? && c.value != ""
  }

  function ModelOrDefault(model: Option<string>): (r: string)
    ensures model.None? ==> r == DefaultModel
    ensures model.Some? ==> r == model.value
  {
    if model.Some? then model.value else DefaultModel
  }

  /** `ids.map(id => storage.getAttachment(id)).filter(Boolean)`. */
  function ResolvedAttachments(table: map<string, Attachment>, ids: seq<string>): (r: seq<Attachment>)
    ensures |r| <= |ids|
    ensures forall a :: a in r ==> exists id :: id in ids && id in table && table[id] == a
    ensures (forall i :: 0 <= i < |ids| ==> ids[i] !in table) ==> r == []
  {
    if ids == [] then []
    else
      var rest := ResolvedAttachments(table, ids[1..]);
      assert forall id :: id in ids[1..] ==> id in ids;
      if ids[0] in table then [table[ids[0]]] + rest else rest
  }

  /** Resolution keeps the request order: it distributes over concatenation. */
  lemma {:induction false} ResolvedAttachmentsConcat(table: map<string, Attachment>, a: seq<string>, b: seq<string>)
    ensures ResolvedAttachments(table, a + b) == ResolvedAttachments(table, a) + ResolvedAttachments(table, b)
  {
    if a == [] {
      assert a + b == b;
    } else {
      assert (a + b)[0] == a[0];
      assert (a + b)[1..] == a[1..] + b;
      ResolvedAttachmentsConcat(table, a[1..], b);
      var head := if a[0] in table then [table[a[0]]] else [];
      assert ResolvedAttachments(table, a) == head + ResolvedAttachments(table, a[1..]);
      assert ResolvedAttachments(table, a + b) == head + ResolvedAttachments(table, a[1..] + b);
    }
  }

  /** When every id resolves, the records come back one per id, in order. */
  lemma {:induction false} ResolvedAttachmentsAll(table: map<string, Attachment>, ids: seq<string>)
    requires forall i :: 0 <= i < |ids| ==> ids[i] in table
    ensures |ResolvedAttachments(table, ids)| == |ids|
    ensures forall i :: 0 <= i < |ids| ==> ResolvedAttachments(table, ids)[i] == table[ids[i]]
  {
    if ids != [] {
      ResolvedAttachmentsAll(table, ids[1..]);
    }
  }

  /** The attachments field of the user message: null without ids, otherwise
      the resolved records (possibly none). */
  function AttachmentsField(table: map<string, Attachment>, ids: seq<string>): (r: Option<seq<Attachment>>)
    ensures r.None? <==> ids == []
    ensures r.Some? ==> r.value == ResolvedAttachments(table, ids)
  {
    if |ids| > 0 then Some(ResolvedAttachments(table, ids)) else None
  }

  /** `history.map(msg => ({ role: msg.role, content: msg.content }))`. */
  function History(ms: seq<Message>): (r: seq<Ai.ChatMessage>)
    ensures |r| == |ms|
    ensures forall i :: 0 <= i < |ms| ==> r[i].role == ms[i].role && r[i].content == ms[i].content
  {
    seq(|ms|, i requires 0 <= i < |ms| => Ai.ChatMessage(ms[i].role, ms[i].content))
  }

  /** The user message a send-message request stores. */
  function UserInsert(st: MemStorage, sid: string, body: MessageBody): InsertMessage
    reads st
    requires ContentAccepted(body.content)
  {
    InsertMessage(sid, User, body.content.value, AttachmentsField(st.attachments.entries, body.attachmentIds), None)
  }

  /** The assistant message built from a provider response. */
  function AssistantInsert(sid: string, resp: Ai.AIResponse): InsertMessage
  {
    InsertMessage(sid, Assistant, resp.content, None, Some(Metadata(resp.model, resp.usage)))
  }

  /** POST /api/sessions/:sessionId/messages. `written` lists the messages
      this request stored, in the order it stored them. */
  method PostMessage(st: MemStorage, sid: string, body: MessageBody, provider: Ai.Provider)
    returns (r: Response, written: seq<Message>)
    requires st.Valid()
    modifies st
    ensures st.Valid()
    ensures !ContentAccepted(body.content) ==>
      r == Response(400, Failure("Content is required")) && written == [] && unchanged(st)
    ensures ContentAccepted(body.content) && sid !in old(st.sessions.entries) ==>
      r == Response(404, Failure("Session not found")) && written == [] && unchanged(st)
    ensures ContentAccepted(body.content) && sid in old(st.sessions.entries) ==>
      && 1 <= |written| <= 2
      && written[0] == MessageFromInsert(written[0].id, old(UserInsert(st, sid, body)), written[0].createdAt)
      && Exchanged(old(st.messages), st.messages, sid, body.model, provider, r, written)
      && ExtendsHistory(old(st.messages), st.messages, sid, written)
      && old(st.clock) <= written[0].createdAt
      && st.sessions == old(st.sessions).Set(sid, old(st.sessions.entries[sid]).(updatedAt := st.clock))
      && SessionsByRecency(st.sessions) != [] && SessionsByRecency(st.sessions)[0].updatedAt == st.clock
      && st.attachments == old(st.attachments)
  {
    if !ContentAccepted(body.content) {
      return Response(400, Failure("Content is required")), [];
    }
    var session := st.GetSession(sid);
    if session.None? {
      return Response(404, Failure("Session not found")), [];
    }
    ghost var before := st.messages;
    r, written := Converse(st, sid, UserInsert(st, sid, body), body.model, provider);
    StoredInTurnExtendsHistory(before, st.messages, sid, written);
  }

  /** What one exchange does to the message table: the user message is
      stored, the provider is shown the history read back after it, and then
      either the provider's error is answered with 500 and nothing more is
      stored, or its reply is stored as the assistant message and both are
      answered with 200. */
  ghost predicate Exchanged(before: OrderedMap<Message>, after: OrderedMap<Message>, sid: string,
                            model: Option<string>, provider: Ai.Provider, r: Response, written: seq<Message>)
  {
    && StoredInTurn(before, after, written)
    && var outcome := Ai.SendMessage(History(MessagesInOrder(before.Set(written[0].id, written[0]), sid)),
                                     ModelOrDefault(model), provider);
    && (outcome.Err? <==> |written| == 1)
    && (outcome.Err? ==> r == Response(500, Failure(outcome.error)))
    && (outcome.Ok? ==>
          && r == Response(200, Exchange(written[0], written[1]))
          && written[1] == MessageFromInsert(written[1].id, AssistantInsert(sid, outcome.value), written[1].createdAt)
          && written[0].createdAt <= written[1].createdAt)
  }

  /** The message table after storing `written`, one message after the
      other, each under a new id. */
  ghost predicate StoredInTurn(before: OrderedMap<Message>, after: OrderedMap<Message>, written: seq<Message>)
  {
    && before.Valid() && 1 <= |written| <= 2
    && written[0].id !in before.entries
    && (|written| == 1 ==> after == before.Set(written[0].id, written[0]))
    && (|written| == 2 ==>
          && written[1].id !in before.Set(written[0].id, written[0]).entries
          && after == before.Set(written[0].id, written[0]).Set(written[1].id, written[1]))
  }

  /** The history the provider is shown is the session's old history
      followed by the user message, and the session's history afterwards is
      the old one followed by everything the exchange wrote. */
  ghost predicate ExtendsHistory(before: OrderedMap<Message>, after: OrderedMap<Message>, sid: string, written: seq<Message>)
  {
    && before.Valid() && after.Valid() && |written| >= 1
    && written[0].id !in before.entries
    && MessagesInOrder(before.Set(written[0].id, written[0]), sid) == MessagesInOrder(before, sid) + [written[0]]
    && MessagesInOrder(after, sid) == MessagesInOrder(before, sid) + written
  }

  /** Messages of one session stored in turn, no earlier than anything already
      stored, extend that session's history by exactly those messages. */
  lemma StoredInTurnExtendsHistory(before: OrderedMap<Message>, after: OrderedMap<Message>, sid: string, written: seq<Message>)
    requires StoredInTurn(before, after, written)
    requires written[0].sessionId == sid
    requires |written| == 2 ==> written[1].sessionId == sid && written[0].createdAt <= written[1].createdAt
    requires forall k :: k in before.entries ==> before.entries[k].createdAt <= written[0].createdAt
    ensures ExtendsHistory(before, after, sid, written)
  {
    var a := written[0];
    if |written| == 2 {
      ExchangeAppends(before, a, written[1], sid);
      assert written == [a, written[1]];
    } else {
      MessagesAfterCreate(before, a, sid);
      assert written == [a];
    }
  }

  /** The part of send-message after validation: store the user message,
      read the session's history back, ask the provider, and store its reply
      when there is one. */
  method Converse(st: MemStorage, sid: string, user: InsertMessage, model: Option<string>, provider: Ai.Provider)
    returns (r: Response, written: seq<Message>)
    requires st.Valid() && user.sessionId == sid
    modifies st
    ensures st.Valid()
    ensures 1 <= |written| <= 2
    ensures written[0] == MessageFromInsert(written[0].id, user, written[0].createdAt)
    ensures written[0].id !in old(st.messages.entries)
    ensures old(st.clock) <= written[0].createdAt
    ensures forall k :: k in old(st.messages.entries) ==> old(st.messages.entries[k]).createdAt <= written[0].createdAt
    ensures st.attachments == old(st.attachments)
    ensures sid in old(st.sessions.entries) ==>
      && st.sessions == old(st.sessions).Set(sid, old(st.sessions.entries[sid]).(updatedAt := st.clock))
      && SessionsByRecency(st.sessions) != [] && SessionsByRecency(st.sessions)[0].updatedAt == st.clock
    ensures sid !in old(st.sessions.entries) ==> st.sessions == old(st.sessions)
    ensures Exchanged(old(st.messages), st.messages, sid, model, provider, r, written)
  {
    ghost var sessions0 := st.sessions;
    var userMessage := st.CreateMessage(user);
    var history := st.GetMessages(sid);
    var reply := Ai.SendMessage(History(history), ModelOrDefault(model), provider);
    match reply
    case Err(e) =>
      return Response(500, Failure(e)), [userMessage];
    case Ok(resp) =>
      ghost var sessions1 := st.sessions;
      var aiMessage := st.CreateMessage(AssistantInsert(sid, resp));
      if sid in sessions0.entries {
        SetTwice(sessions0, sid, sessions0.entries[sid].(updatedAt := sessions1.entries[sid].updatedAt),
                 sessions0.entries[sid].(updatedAt := st.clock));
      }
      return Response(200, Exchange(userMessage, aiMessage)), [userMessage, aiMessage];
  }

  /** DELETE /api/messages/:id: the owning session's `updatedAt` is left as it is. */
  method RemoveMessage(st: MemStorage, id: string) returns (r: Response)
    requires st.Valid()
    modifies st
    ensures st.Valid()
    ensures r == if id in old(st.messages.entries) then Response(204, NoContent)
                 else Response(404, Failure("Message not found"))
    ensures st.messages == old(st.messages).Delete(id)
    ensures st.sessions == old(st.sessions) && st.attachments == old(st.attachments)
  {
    var deleted := st.DeleteMessage(id);
    if !deleted {
      return Response(404, Failure("Message not found"));
    }
    return Response(204, NoContent);
  }

  // --------------------------------------------------------------- Attachments

  /** What the multipart parser reports for one stored file. */
  datatype UploadedFile = UploadedFile(originalname: string, mimetype: string, size: nat, path: string)

  function AttachmentInsertFor(f: UploadedFile): (i: InsertAttachment)
    ensures i.filename == f.originalname && i.mimetype == f.mimetype && i.path == f.path
    ensures i.size == DecimalString(f.size)
    ensures DecimalValue(i.size) == f.size
  {
    DecimalRoundTrip(f.size);
    InsertAttachment(f.originalname, f.mimetype, DecimalString(f.size), f.path)
  }

  /** The attachments `created` are new records of `table`, and `table` keeps
      every record of `before`. */
  ghost predicate Recorded(table: map<string, Attachment>, before: map<string, Attachment>, created: seq<Attachment>)
  {
    && (forall k :: k in before ==> k in table && table[k] == before[k])
    && (forall j :: 0 <= j < |created| ==>
          created[j].id !in before && created[j].id in table && table[created[j].id] == created[j])
    && (forall j, k :: 0 <= j < k < |created| ==> created[j].id != created[k].id)
  }

  lemma RecordedStep(table: map<string, Attachment>, before: map<string, Attachment>, created: seq<Attachment>, a: Attachment)
    requires Recorded(table, before, created)
    requires a.id !in table
    ensures Recorded(table[a.id := a], before, created + [a])
  {
  }

  /** `req.files.map(file => storage.createAttachment(...))`, one file at a time. */
  method CreateAttachments(st: MemStorage, fs: seq<UploadedFile>) returns (created: seq<Attachment>)
    requires st.Valid()
    modifies st
    ensures st.Valid()
    ensures |created| == |fs|
    ensures forall j :: 0 <= j < |fs| ==> InsertOfAttachment(created[j]) == AttachmentInsertFor(fs[j])
    ensures Recorded(st.attachments.entries, old(st.attachments.entries), created)
    ensures st.attachments.entries.Keys == old(st.attachments.entries.Keys) + (set a | a in created :: a.id)
    ensures st.sessions == old(st.sessions) && st.messages == old(st.messages)
  {
    created := [];
    var i := 0;
    while i < |fs|
      invariant 0 <= i <= |fs|
      invariant st.Valid()
      invariant |created| == i
      invariant forall j :: 0 <= j < i ==> InsertOfAttachment(created[j]) == AttachmentInsertFor(fs[j])
      invariant Recorded(st.attachments.entries, old(st.attachments.entries), created)
      invariant st.attachments.entries.Keys == old(st.attachments.entries.Keys) + (set a | a in created :: a.id)
      invariant st.sessions == old(st.sessions) && st.messages == old(st.messages)
    {
      ghost var table := st.attachments.entries;
      var a := st.CreateAttachment(AttachmentInsertFor(fs[i]));
      RecordedStep(table, old(st.attachments.entries), created, a);
      created := created + [a];
      i := i + 1;
    }
  }

  /** POST /api/upload: one attachment record per file, in file order. */
  method Upload(st: MemStorage, files: Option<seq<UploadedFile>>) returns (r: Response)
    requires st.Valid()
    modifies st
    ensures st.Valid()
    ensures files.None? ==> r == Response(400, Failure("No files uploaded")) && unchanged(st)
    ensures files.Some? ==>
      && r.status == 200 && r.body.AttachmentList?
      && |r.body.attachments| == |files.value|
      && (forall i :: 0 <= i < |files.value| ==>
            InsertOfAttachment(r.body.attachments[i]) == AttachmentInsertFor(files.value[i]))
      && Recorded(st.attachments.entries, old(st.attachments.entries), r.body.attachments)
      && st.attachments.entries.Keys == old(st.attachments.entries.Keys) + (set a | a in r.body.attachments :: a.id)
      && st.sessions == old(st.sessions) && st.messages == old(st.messages)
  {
    if files.None? {
      return Response(400, Failure("No files uploaded"));
    }
    var created := CreateAttachments(st, files.value);
    return Response(200, AttachmentList(created));
  }
}
