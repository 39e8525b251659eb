# ArabicChatUI server core in Dafny

This project models the server side of the ArabicChatUI chat application:

- the in-memory repository `MemStorage` that holds chat sessions, messages and
  uploaded-file records;
- the adapter that routes a model id to the OpenAI or DeepSeek provider and
  reduces each reply to `{content, model, usage}`;
- the HTTP handlers that validate requests, choose status codes and order the
  storage writes, above all the send-message flow;
- the record shapes, column defaults and the model registry of the shared
  schema.

The modules follow the source files:

| module | file | models |
|---|---|---|
| `Schema` | schema.dfy | `shared/schema.ts`: records, insert shapes, defaults, registry |
| `Storage` | storage.dfy | `server/storage.ts`: class `MemStorage` |
| `Ai` | ai.dfy | `server/ai.ts`: routing, request building, reply normalisation, error tagging |
| `Routes` | routes.dfy | `server/routes.ts`: the endpoint handlers |
| `JsMap` | js_map.dfy | the JavaScript `Map` the storage uses: insertion-ordered keys |
| `Sorting` | sorting.dfy | `Array.prototype.sort` with a comparator: a stable sort by an integer key |
| `NumberText` | number_text.dfy | `Number.prototype.toString` for the byte count of an upload |
| `Wrappers` | wrappers.dfy | `Option` and `Result` |

How the environment is represented:

- `randomUUID()`: any non-empty id that is not yet a key of the map being
  written (`FreshIdExists` shows one always exists).
- `new Date()`: `MemStorage.Now`. It reads a clock that never goes backwards
  and may return the same time twice.
- The provider HTTP call: a total function `Ai.Provider` from the request the
  adapter builds to either a completion or a failure.
- The client's `express-session` cookie: an optional session id passed into
  and returned from the handlers.
- A JavaScript `Map`: `JsMap.OrderedMap`. It keeps the key order because
  `Array.from(map.values())` lists values in insertion order, and that order
  survives the stable sorts as the tie-break.

What the code does that a reader might not expect:

- MemStorage never applies the column defaults declared at
  `shared/schema.ts:9-12` (title `محادثة جديدة`, model `gpt-5`, mode `chat`,
  isPinned `false`). A session
  created from an empty body has absent fields, so `title`, `model`, `mode`
  and `isPinned` are `Option`s. `Schema.WithColumnDefaults` states what a
  database would have filled in.
- The attachments field of a user message holds the resolved attachment
  records themselves, not a list of ids.
- No storage operation deletes an attachment, and deleting a message or a
  session leaves the attachment records it refers to in place.

## Model

| member | source | states |
|---|---|---|
| Schema.SessionInsertRoundTrip | shared/schema.ts:39-43 | a new session record copies every field of its insert shape; storage supplies only the id and `createdAt == updatedAt == now` |
| Schema.SessionRecordRoundTrip | shared/schema.ts:7-15 | a session whose two timestamps agree is rebuilt exactly from its insert shape, id and time |
| Schema.MessageInsertRoundTrip | shared/schema.ts:45-48 | a new message copies every insert field; storage supplies only id and `createdAt` |
| Schema.AttachmentInsertRoundTrip | shared/schema.ts:50-53 | a new attachment copies every insert field; storage supplies only id and `createdAt` |
| Schema.MergePatch | server/storage.ts:69-73 | a patch of insert fields overrides exactly the fields it carries; `id` and `createdAt` are kept and `updatedAt` becomes now |
| Schema.StripPatch | server/routes.ts:79 | the corrected handler's stripping (the intended behaviour of the Findings row; line 79 as written passes the raw body): the four insert fields are kept and every other key is dropped |
| Schema.SpreadRawPatch | server/storage.ts:69-73 | the spread of an unvalidated body agrees with the stripped merge on the four insert fields, sets `updatedAt` to now, takes `id` and `createdAt` each from the body when it carries that key and keeps the stored one otherwise; without either key it is the stripped merge |
| Schema.RawPatchBreaksIdentity | server/routes.ts:79 | as written, a PATCH body with `id` renames the stored record and one with `createdAt` puts it after `updatedAt` |
| Schema.StrippedPatchKeepsIdentity | server/storage.ts:65-76 | after stripping, a patch keeps `id` and `createdAt`, and `createdAt <= updatedAt` holds when the clock has not gone back |
| Schema.WithColumnDefaults | shared/schema.ts:9-12 | absent fields get title `محادثة جديدة`, model `gpt-5`, mode `chat`, isPinned `false`; given fields are kept |
| Schema.RegistryShape | shared/schema.ts:86-91 | the registry holds exactly four models with pairwise distinct ids |
| Schema.DefaultModelRegistered | shared/schema.ts:10 | the default session model `gpt-5` is a registered id |
| Ai.Route | server/ai.ts:93-99 | OpenAI exactly when the id starts with `gpt-` or `o1-`, DeepSeek exactly when it starts with `deepseek-`, nothing otherwise; the two are exclusive |
| Ai.RoutingIgnoresRegistry | server/ai.ts:93-99 | unregistered ids such as `o1-mini` and `deepseek-reasoner` are routed by prefix, and `llama-3` is not routed |
| Ai.RegistryAgreesWithRouting | shared/schema.ts:86-91 | every registry entry's provider tag is the provider its id routes to |
| Ai.UsageOf | server/ai.ts:40-44 | each missing token counter becomes 0 and each present one is kept |
| Ai.DeepSeekMessage | server/ai.ts:84 | the message of the service's error body wins when it is non-empty, else the call's own message |
| Ai.RequestFor | server/ai.ts:31-35 | a routed id yields one request to that provider, carrying the id, the full history and the 8192-token cap |
| Ai.SendMessage | server/ai.ts:88-100 | an unrouted id fails with `Unknown model: <id>`; every other failure carries `OpenAI Error: ` or `DeepSeek Error: ` |
| Ai.UnknownModelMakesNoCall | server/ai.ts:97-98 | for an unrouted id the result is the same whatever the provider would answer, and no request is built |
| Ai.OneRequestPerMessage | server/ai.ts:88-100 | the result depends on the provider only through its answer to the one request built for the history and the model |
| Ai.ReplyBecomesResponse | server/ai.ts:37-45 | a reply with a first choice gives its content or `''`, the model the provider echoed, and the counters or 0 |
| Ai.EchoedModelMayDiffer | server/ai.ts:39 | the response's model is the echoed one and may differ from the requested id |
| Ai.FailureIsTagged | server/ai.ts:46-49 | a failed OpenAI call becomes `OpenAI Error: ` plus its message; a failed DeepSeek call gets its tag and `DeepSeekMessage` |
| Ai.EmptyReplyFails | server/ai.ts:38 | a reply without any choice is a failure: `choices[0]` is `undefined`, and reading `.message` of it throws inside the `try` |
| Ai.Normalize | server/ai.ts:37-45 | a payload with a first choice gives its content or `''`, the echoed model and each counter or 0; one without a choice gives the error of reading `.message` of `undefined` |
| Ai.SendToOpenAI | server/ai.ts:26-50 | a failed call becomes `OpenAI Error: ` plus its message; a normalised reply is returned as is; a reply without a choice is tagged the same way; every error carries the tag |
| Ai.SendToDeepSeek | server/ai.ts:52-86 | a failed call becomes `DeepSeek Error: ` plus the error body's message when non-empty, else its own; a normalised reply is returned as is; every error carries the tag |
| JsMap.OrderedMap.Values | server/storage.ts:43 | `Array.from(map.values())` lists one value per key, in key-insertion order |
| JsMap.ValuesMembership | server/storage.ts:91 | a value is listed exactly when some key maps to it |
| JsMap.SetNewValues | server/storage.ts:61 | storing under a new key appends its value to the listing |
| JsMap.SetExistingValues | server/storage.ts:112 | overwriting a key keeps the listing order and replaces that value in place |
| JsMap.DeleteEachRemovesAll | server/storage.ts:84 | deleting keys one by one removes exactly that set of keys |
| Sorting.SortSpec | server/storage.ts:43-45 | the sort returns a permutation, ordered by the key, with equal-key elements in their original order |
| Sorting.SortAppendLast | server/storage.ts:93 | sorting after appending an element with the greatest key gives the old result with that element last |
| Sorting.SortFirstIsUniqueMin | server/storage.ts:43-45 | an element whose key is strictly below all others comes first |
| Storage.InSession | server/storage.ts:92 | the filter keeps exactly the messages of the session |
| Storage.SessionsByRecency | server/storage.ts:42-46 | `getSessions` is a permutation of the stored sessions, newest `updatedAt` first, with ties in insertion order |
| Storage.MessagesInOrderSpec | server/storage.ts:90-94 | `getMessages(s)` holds exactly the messages of `s`, oldest `createdAt` first, with ties in insertion order |
| Storage.MessagesAfterCreate | server/storage.ts:100-107 | a message created now goes to the end of its own session's history; every other session's history is unchanged |
| Storage.ExchangeAppends | server/routes.ts:139-167 | two messages of one session created in turn end its history in creation order |
| Storage.SessionsAfterTouch | server/storage.ts:110-113 | a session touched at the latest time comes first in `getSessions` when no other session has that timestamp |
| Storage.CascadeRemovesOwned | server/storage.ts:78-87 | deleting the collected ids removes exactly the session's messages, keeps every other one, and leaves the session with no history |
| Storage.NoHistoryLeft | server/storage.ts:90-94 | a table with no message of a session gives it an empty history |
| Storage.FreshIdExists | server/storage.ts:53 | a non-empty id that is not yet a key always exists |
| Storage.MemStorage.Now | server/storage.ts:54 | a reading of `new Date()` is never earlier than the previous one and becomes the latest reading |
| Storage.MemStorage.constructor | server/storage.ts:35-39 | storage starts with three empty maps |
| Storage.MemStorage.GetSession | server/storage.ts:48-50 | a session is found exactly when its id is a key, and it carries that id |
| Storage.MemStorage.CreateSession | server/storage.ts:52-63 | exactly one new key is added; the record copies the insert and has `createdAt == updatedAt`; messages and attachments are untouched |
| Storage.MemStorage.UpdateSession | server/storage.ts:65-76 | an absent id gives none and changes nothing; a present one is merged with the patch at a fresh time and stored under the same key |
| Storage.MemStorage.DeleteSession | server/storage.ts:78-87 | the result says whether the session existed; its messages are deleted even when it did not; other messages and all attachments stay |
| Storage.MemStorage.DeleteMessages | server/storage.ts:84 | the `forEach` loop deletes the collected ids one by one |
| Storage.MemStorage.GetMessage | server/storage.ts:96-98 | a message is found exactly when its id is a key |
| Storage.MemStorage.CreateMessage | server/storage.ts:100-116 | one message with a fresh id is added at the end of its session's history; an existing owning session gets a new `updatedAt` and moves to the front; an absent one is not created and sessions are unchanged |
| Storage.MemStorage.AppendMessage | server/storage.ts:107 | `messages.set` of a new id puts the message at the end of its session's history and leaves every other session's history as it was |
| Storage.MemStorage.TouchSession | server/storage.ts:110-113 | an existing session is re-stored with `updatedAt` at a new clock reading, and a session with that timestamp heads `getSessions` (the touched one when no other has it); an absent one changes nothing |
| Storage.MemStorage.DeleteMessage | server/storage.ts:118-120 | only that key is removed; the result says whether it existed; no session changes |
| Storage.MemStorage.CreateAttachment | server/storage.ts:123-132 | a fresh id is added and `getAttachment` of it returns the record; sessions and messages are untouched |
| Storage.MemStorage.GetAttachment | server/storage.ts:134-136 | an attachment is found exactly when its id is a key |
| NumberText.DecimalString | server/routes.ts:205 | the decimal numeral is non-empty, all digits, without a leading zero |
| NumberText.DecimalRoundTrip | server/routes.ts:205 | the numeral stored as `size` denotes the byte count |
| NumberText.DecimalInjective | server/routes.ts:205 | different byte counts give different numerals |
| Routes.ListSessions | server/routes.ts:26-38 | always 200; the list is `[session]` exactly when the cookie names a stored session, otherwise empty |
| Routes.FetchSession | server/routes.ts:41-51 | 404 `Session not found` for an absent id, otherwise 200 with the stored record |
| Routes.ParseInsertSession | shared/schema.ts:39-43 | a body is accepted exactly when no insert field has the wrong type; the accepted value carries the given fields |
| Routes.PostSession | server/routes.ts:54-74 | a cookie-bound stored session is returned with 200 and nothing is written; a bad body gives 400; otherwise one session is created, the cookie is bound to it and the answer is 201; listing afterwards shows that session |
| Routes.PatchSession | server/routes.ts:77-87 | 404 for an absent session; otherwise 200 with the stored session merged with the stripped body |
| Routes.RemoveSession | server/routes.ts:90-100 | 204 when the session existed and 404 otherwise; its messages are deleted either way |
| Routes.ListMessages | server/routes.ts:105-112 | always 200 with a permutation of the session's messages (each as often as stored), oldest first, equal timestamps in map insertion order; an unknown session is not a 404 |
| Routes.ModelOrDefault | server/routes.ts:117 | an omitted model is `gpt-5` |
| Routes.ResolvedAttachments | server/routes.ts:132-135 | only ids that resolve contribute records; when none resolves the list is empty |
| Routes.ResolvedAttachmentsConcat | server/routes.ts:132-135 | resolution keeps the request order: it distributes over concatenation of id lists |
| Routes.ResolvedAttachmentsAll | server/routes.ts:132-135 | when every id resolves there is one record per id, in order |
| Routes.AttachmentsField | server/routes.ts:130-136 | the field is null exactly when no ids are given, otherwise the resolved records |
| Routes.History | server/routes.ts:149-152 | the provider history has one `{role, content}` per stored message, in the same order |
| Routes.PostMessage | server/routes.ts:115-177 | empty, missing or non-string content gives 400 and an absent session 404, both writing nothing; otherwise the user message is stored, the provider sees the old history followed by it, a failure gives 500 with only that message stored, and a reply stores the assistant message with the echoed model and usage and answers 200 with both; the owning session alone gets `updatedAt` at the latest clock reading, which heads `getSessions`, and attachments are untouched |
| Routes.StoredInTurnExtendsHistory | server/routes.ts:139-167 | the messages one exchange stores extend the session's history by exactly those messages, and the history read back after the user message ends with it |
| Routes.Converse | server/routes.ts:139-176 | the storage writes, provider call and answer of one exchange, in that order; only the owning session changes, its `updatedAt` becoming the latest clock reading, and no session changes when it is absent |
| Routes.RemoveMessage | server/routes.ts:180-190 | 204 when the message existed and 404 otherwise; only that key goes and no session changes |
| Routes.AttachmentInsertFor | server/routes.ts:202-207 | the record copies name, type and path, and its size is the decimal numeral of the byte count |
| Routes.CreateAttachments | server/routes.ts:200-209 | one new attachment record per file, in file order, each under its own fresh id; existing attachments stay and no other key is added |
| Routes.Upload | server/routes.ts:194-215 | a missing file list gives 400 and writes nothing; a present one, even empty, gives 200 with one stored record per file and no other new key |

## Left out

- HTTP and Express wiring, JSON serialisation, `createServer`, and the
  `console.error` logging are not modelled.
- The OpenAI SDK and the axios POST with bearer tokens from the environment
  are left out. The provider is the function parameter `Ai.Provider`. The
  request's HTTP endpoint and headers are not modelled.
- The default model parameters of `sendToOpenAI` (`gpt-5`) and
  `sendToDeepSeek` (`deepseek-chat`) are left out, because `sendMessage`
  always passes the model.
- The exact text of the exception thrown by reading `choices[0]` of a reply
  without choices is abstracted as the constant `Ai.NoChoiceMessage`.
- Routes.ParseInsertSession: the validation library's own error text is
  abstracted to the name of the offending field. The `varchar` length
  limits (50 for model, 20 for mode), JSON `null` values and extra keys are
  not modelled.
- Routes.PatchSession: modelled as corrected (see Findings). The handler
  passes only the four insert fields to `updateSession`, so a body's `id`
  or `createdAt`, any key outside the session record, and a
  JSON `null` for a field such as the nullable `isPinned` column never
  reach the stored record, as they do in the code at server/routes.ts:79.
  A body's `updatedAt` never reaches it in the code either, because the
  spread at server/storage.ts:69-73 writes `updatedAt` after the body.
  The as-written merge is `Schema.SpreadRawPatch`; it too leaves out extra
  keys and `null` values.
- Routes.PostMessage: a `model` or `attachmentIds` of the wrong JSON type,
  such as a number, is not modelled. The body's `model` is an optional
  string and `attachmentIds` a list of strings.
- The 500 answers of the `catch` blocks around storage calls are not
  modelled. Those calls cannot throw in memory; only the send-message
  provider failure reaches its 500.
- Multer's multipart parsing is not modelled. Neither are its 10 MB and
  5-file limits, which the library enforces before the handler runs.
  `Routes.Upload` receives the parsed file list, or none.
- `Promise.all` concurrency and `async`/`await` are not modelled: the
  in-memory operations are taken in sequence, in array order.
- Storage.MemStorage.CreateMessage: the owning session is stated to be first
  in `getSessions` only when no other session carries the same clock
  reading. Two readings of `new Date()` can be equal; on such a tie the
  stable sort puts first whichever tied session was inserted into the map
  first, since `sessions.set` of an existing key keeps its place. That tie
  case is not stated.
- Storage.MemStorage.GetSessions and Storage.MemStorage.GetMessages carry no
  contract of their own. Their properties are stated on
  `Storage.SessionsByRecency` and `Storage.MessagesInOrderSpec`, which they
  return.
- The `express-session` store itself is left out. The cookie is modelled only
  as the optional id a handler receives and returns.
- The schema's database-level foreign key with cascade delete and the
  `gen_random_uuid()` and `defaultNow()` column defaults are not modelled.
  Only the in-memory storage runs, and it codes the cascade by hand.
- The client files are React UI and are not part of this model.

## Findings

| source | as written | input that shows it | evidently intended | confidence | as-written member | corrected member |
|---|---|---|---|---|---|---|
| server/routes.ts:79 | PATCH passes the raw request body to `updateSession`, whose spread lets any body key except `updatedAt` override the stored record | body `{"id": "b", "createdAt": 5}` on session `a` created at 1 and patched at 2: the record stored under key `a` now has id `b` and `createdAt` 5 > `updatedAt` 2 (`Schema.RawPatchBreaksIdentity`) | the body is reduced to the insert fields (title, model, mode, isPinned) before merging, as POST does with its validator | not executed | Schema.SpreadRawPatch | Schema.StrippedPatchKeepsIdentity |
