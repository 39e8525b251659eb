/** The in-memory repository: three JavaScript `Map`s (sessions, messages,
    attachments) changed in place. `randomUUID()` is modelled as the choice of
    any id that is not yet a key of the map concerned, and `new Date()` as a
    reading of a clock that never goes backwards but may repeat a value. */
module Storage {
  import opened Wrappers
  import opened Schema
  import opened JsMap
  import opened Sorting

  /** The sort key of `getSessions`: most recently updated first. */
  function NewestFirst(s: ChatSession): int
  {
    -s.updatedAt
  }

  /** The sort key of `getMessages`: oldest first. */
  function OldestFirst(m: Message): int
  {
    m.createdAt
  }

  /** `filter(msg => msg.sessionId === sid)`. */
  function InSession(ms: seq<Message>, sid: string): (r: seq<Message>)
    ensures forall m :: m in r <==> m in ms && m.sessionId == sid
    ensures (forall i :: 0 <= i < |ms| ==> ms[i].sessionId != sid) ==> r == []
  {
    if ms == [] then []
    else if ms[0].sessionId == sid then [ms[0]] + InSession(ms[1..], sid)
    else InSession(ms[1..], sid)
  }

  lemma {:induction false} InSessionAppend(ms: seq<Message>, m: Message, sid: string)
    ensures InSession(ms + [m], sid) == InSession(ms, sid) + (if m.sessionId == sid then [m] else [])
  {
    if ms != [] {
      assert (ms + [m])[1..] == ms[1..] + [m];
      InSessionAppend(ms[1..], m, sid);
    }
  }

  /** `map(msg => msg.id)`. */
  function Ids(ms: seq<Message>): (r: seq<string>)
    ensures |r| == |ms| && forall i :: 0 <= i < |ms| ==> r[i] == ms[i].id
  {
    seq(|ms|, i requires 0 <= i < |ms| => ms[i].id)
  }

  /** The keys of the messages that belong to session `sid`. */
  ghost function OwnedBy(t: OrderedMap<Message>, sid: string): set<string>
  {
    set k | k in t.entries && t.entries[k].sessionId == sid
  }

  /** A table holding no message of `sid` gives `sid` an empty history. */
  lemma NoHistoryLeft(t: OrderedMap<Message>, sid: string)
    requires t.Valid()
    requires forall k :: k in t.entries ==> t.entries[k].sessionId != sid
    ensures MessagesInOrder(t, sid) == []
  {
    var vs := t.Values();
    assert forall i :: 0 <= i < |vs| ==> vs[i].sessionId != sid;
    assert InSession(vs, sid) == [];
  }

  /** The cascade of `deleteSession` removes exactly the session's messages:
      no message of `sid` is left, and every other message stays as it was. */
  lemma CascadeRemovesOwned(t: OrderedMap<Message>, sid: string)
    requires t.Valid()
    requires forall k :: k in t.entries ==> t.entries[k].id == k
    ensures DeleteEach(t, Ids(InSession(t.Values(), sid))) == t.RemoveAll(OwnedBy(t, sid))
    ensures forall k :: k in t.RemoveAll(OwnedBy(t, sid)).entries <==> k in t.entries && t.entries[k].sessionId != sid
    ensures MessagesInOrder(t.RemoveAll(OwnedBy(t, sid)), sid) == []
  {
    ValuesMembership(t);
    var owned := InSession(t.Values(), sid);
    var ids := Ids(owned);
    forall k | k in OwnedBy(t, sid) ensures k in ids {
      assert t.entries[k] in owned;
      var j :| 0 <= j < |owned| && owned[j] == t.entries[k];
      assert ids[j] == k;
    }
    forall k | k in ids ensures k in OwnedBy(t, sid) {
      var i :| 0 <= i < |ids| && ids[i] == k;
      assert owned[i] in owned;
    }
    assert KeySet(ids) == OwnedBy(t, sid);
    DeleteEachRemovesAll(t, ids);
    NoHistoryLeft(t.RemoveAll(OwnedBy(t, sid)), sid);
  }

  /** `getSessions`: every stored session, most recently updated first; ties
      keep the map's insertion order. */
  function SessionsByRecency(t: OrderedMap<ChatSession>): (r: seq<ChatSession>)
    requires t.Valid()
    ensures multiset(r) == multiset(t.Values())
    ensures forall s :: s in r <==> s in t.entries.Values
    ensures forall i, j :: 0 <= i < j < |r| ==> r[i].updatedAt >= r[j].updatedAt
    ensures forall k :: WithKey(r, NewestFirst, k) == WithKey(t.Values(), NewestFirst, k)
  {
    SortSpec(t.Values(), NewestFirst);
    ValuesMembership(t);
    StableSort(t.Values(), NewestFirst)
  }

  /** `getMessages(sid)`: the messages of `sid`, oldest first. */
  function MessagesInOrder(t: OrderedMap<Message>, sid: string): seq<Message>
    requires t.Valid()
  {
    StableSort(InSession(t.Values(), sid), OldestFirst)
  }

  /** A session's history holds exactly the messages of that session, each as
      often as it is stored, oldest first; messages with equal timestamps keep
      the map's insertion order. */
  lemma MessagesInOrderSpec(t: OrderedMap<Message>, sid: string)
    requires t.Valid()
    ensures var r := MessagesInOrder(t, sid);
      && (forall m :: m in r <==> m in t.entries.Values && m.sessionId == sid)
      && multiset(r) == multiset(InSession(t.Values(), sid))
      && (forall i, j :: 0 <= i < j < |r| ==> r[i].createdAt <= r[j].createdAt)
      && (forall k :: WithKey(r, OldestFirst, k) == WithKey(InSession(t.Values(), sid), OldestFirst, k))
  {
    var owned := InSession(t.Values(), sid);
    SortSpec(owned, OldestFirst);
    ValuesMembership(t);
  }

  /** A message created now goes to the end of its own session's history and
      leaves every other session's history as it was. */
  lemma MessagesAfterCreate(t: OrderedMap<Message>, m: Message, sid: string)
    requires t.Valid() && m.id !in t.entries
    requires forall k :: k in t.entries ==> t.entries[k].createdAt <= m.createdAt
    ensures MessagesInOrder(t.Set(m.id, m), sid)
         == MessagesInOrder(t, sid) + (if m.sessionId == sid then [m] else [])
  {
    var vs := t.Values();
    var t' := t.Set(m.id, m);
    SetNewValues(t, m.id, m);
    assert t'.Values() == vs + [m];
    InSessionAppend(vs, m, sid);
    assert MessagesInOrder(t', sid) == StableSort(InSession(vs + [m], sid), OldestFirst);
    assert MessagesInOrder(t, sid) == StableSort(InSession(vs, sid), OldestFirst);
    if m.sessionId == sid {
      forall x | x in InSession(vs, sid) ensures OldestFirst(x) <= OldestFirst(m) {
        ValuesMembership(t);
        assert x in vs;
      }
      SortAppendLast(InSession(vs, sid), m, OldestFirst);
      assert StableSort(InSession(vs + [m], sid), OldestFirst) == StableSort(InSession(vs, sid), OldestFirst) + [m];
    } else {
      assert InSession(vs + [m], sid) == InSession(vs, sid);
    }
  }

  lemma AppendPair<T>(h: seq<T>, once: seq<T>, twice: seq<T>, a: T, b: T)
    requires once == h + [a] && twice == once + [b]
    ensures twice == h + [a, b]
  {
    assert (h + [a]) + [b] == h + [a, b];
  }

  /** `MessagesAfterCreate` for a message of the session itself. */
  lemma SameSessionAppends(t: OrderedMap<Message>, m: Message, sid: string)
    requires t.Valid() && m.id !in t.entries && m.sessionId == sid
    requires forall k :: k in t.entries ==> t.entries[k].createdAt <= m.createdAt
    ensures MessagesInOrder(t.Set(m.id, m), sid) == MessagesInOrder(t, sid) + [m]
  {
    MessagesAfterCreate(t, m, sid);
  }

  /** A message stored after all others leaves a later one later than
      everything. */
  lemma StaysLatest(t: OrderedMap<Message>, a: Message, b: Message)
    requires t.Valid()
    requires forall k :: k in t.entries ==> t.entries[k].createdAt <= a.createdAt
    requires a.createdAt <= b.createdAt
    ensures forall k :: k in t.Set(a.id, a).entries ==> t.Set(a.id, a).entries[k].createdAt <= b.createdAt
  {
  }

  /** Two messages of one session created one after the other, both no
      earlier than every stored message, end that session's history in the
      order they were created. */
  lemma ExchangeAppends(t: OrderedMap<Message>, a: Message, b: Message, sid: string)
    requires t.Valid()
    requires forall k :: k in t.entries ==> t.entries[k].createdAt <= a.createdAt
    requires a.createdAt <= b.createdAt
    requires a.sessionId == sid && b.sessionId == sid
    requires a.id !in t.entries && b.id !in t.Set(a.id, a).entries
    ensures MessagesInOrder(t.Set(a.id, a), sid) == MessagesInOrder(t, sid) + [a]
    ensures MessagesInOrder(t.Set(a.id, a).Set(b.id, b), sid) == MessagesInOrder(t, sid) + [a, b]
  {
    SameSessionAppends(t, a, sid);
    StaysLatest(t, a, b);
    SameSessionAppends(t.Set(a.id, a), b, sid);
    AppendPair(MessagesInOrder(t, sid), MessagesInOrder(t.Set(a.id, a), sid),
               MessagesInOrder(t.Set(a.id, a).Set(b.id, b), sid), a, b);
  }

  /** Touching a session with the latest clock reading puts a session with
      that timestamp first; it is the touched one when no other session
      carries the same timestamp. */
  lemma SessionsAfterTouch(t: OrderedMap<ChatSession>, sid: string, now: int)
    requires t.Valid() && sid in t.entries
    requires forall k :: k in t.entries ==> t.entries[k].updatedAt <= now
    ensures var r := SessionsByRecency(t.Set(sid, t.entries[sid].(updatedAt := now)));
      && r != []
      && r[0].updatedAt == now
      && ((forall k :: k in t.entries && k != sid ==> t.entries[k].updatedAt < now) ==>
            r[0] == t.entries[sid].(updatedAt := now))
  {
    var touched := t.entries[sid].(updatedAt := now);
    var t' := t.Set(sid, touched);
    var r := SessionsByRecency(t');
    assert t'.entries[sid] == touched;
    assert touched in r;
    var i :| 0 <= i < |r| && r[i] == touched;
    assert r[0] in t'.entries.Values;
    var k :| k in t'.entries && t'.entries[k] == r[0];
    assert r[0].updatedAt >= now;
  }

  /** Some non-empty string is not yet used as a key (a UUID is never empty). */
  ghost function MaxLength(used: set<string>): (n: nat)
    ensures forall s :: s in used ==> |s| <= n
  {
    if used == {} then 0
    else
      var x :| x in used;
      var m := MaxLength(used - {x});
      if |x| > m then |x| else m
  }

  lemma FreshIdExists(used: set<string>)
    ensures exists id :: id !in used && id != ""
  {
    var id := seq(MaxLength(used) + 1, _ => 'x');
    assert id !in used;
  }

  class MemStorage {
    var sessions: OrderedMap<ChatSession>
    var messages: OrderedMap<Message>
    var attachments: OrderedMap<Attachment>
    /** The latest reading of the process clock. */
    var clock: int

    /** Every record is stored under its own id, no timestamp lies after the
        latest clock reading, and a session is never updated before it was
        created. */
    ghost predicate Valid()
      reads this
    {
      && sessions.Valid() && messages.Valid() && attachments.Valid()
      && (forall k :: k in sessions.entries ==>
            && sessions.entries[k].id == k
            && sessions.entries[k].createdAt <= sessions.entries[k].updatedAt <= clock)
      && (forall k :: k in messages.entries ==>
            messages.entries[k].id == k && messages.entries[k].createdAt <= clock)
      && (forall k :: k in attachments.entries ==>
            attachments.entries[k].id == k && attachments.entries[k].createdAt <= clock)
    }

    constructor ()
      ensures Valid()
      ensures sessions.entries == map[] && messages.entries == map[] && attachments.entries == map[]
    {
      sessions := OrderedMap([], map[]);
      messages := OrderedMap([], map[]);
      attachments := OrderedMap([], map[]);
      clock := 0;
    }

    /** `new Date()`. */
    method Now() returns (t: int)
      modifies this`clock
      ensures old(clock) <= t && clock == t
    {
      t :| t >= clock;
      clock := t;
    }

    // ---------------------------------------------------------------- Sessions

    function GetSessions(): seq<ChatSession>
      reads this
      requires Valid()
    {
      SessionsByRecency(sessions)
    }

    function GetSession(id: string): (r: Option<ChatSession>)
      reads this
      requires Valid()
      ensures r.Some? <==> id in sessions.entries
      ensures r.Some? ==> r.value == sessions.entries[id] && r.value.id == id
    {
      sessions.Get(id)
    }

    method CreateSession(i: InsertChatSession) returns (s: ChatSession)
      requires Valid()
      modifies this
      ensures Valid()
      ensures s.id !in old(sessions.entries) && s.id != ""
      ensures sessions.entries.Keys == old(sessions.entries.Keys) + {s.id}
      ensures s == SessionFromInsert(s.id, i, clock) && old(clock) <= clock
      ensures sessions == old(sessions).Set(s.id, s)
      ensures messages == old(messages) && attachments == old(attachments)
    {
      FreshIdExists(sessions.entries.Keys);
      var id :| id !in sessions.entries && id != "";
      var now := Now();
      s := SessionFromInsert(id, i, now);
      sessions := sessions.Set(id, s);
    }

    method UpdateSession(id: string, patch: SessionPatch) returns (r: Option<ChatSession>)
      requires Valid()
      modifies this
      ensures Valid()
      ensures id !in old(sessions.entries) ==> r.None? && unchanged(this)
      ensures id in old(sessions.entries) ==>
        && r == Some(MergePatch(old(sessions.entries[id]), patch, clock))
        && old(clock) <= clock
        && sessions == old(sessions).Set(id, r.value)
        && messages == old(messages) && attachments == old(attachments)
    {
      match sessions.Get(id)
      case None =>
        r := None;
      case Some(session) =>
        var now := Now();
        var updated := MergePatch(session, patch, now);
        sessions := sessions.Set(id, updated);
        r := Some(updated);
    }

    /** Deletes the messages of session `id`, then the session itself; the
        messages go even when no such session is stored. */
    method DeleteSession(id: string) returns (existed: bool)
      requires Valid()
      modifies this
      ensures Valid()
      ensures existed == (id in old(sessions.entries))
      ensures sessions == old(sessions).Delete(id)
      ensures messages == old(messages).RemoveAll(OwnedBy(old(messages), id))
      ensures attachments == old(attachments) && clock == old(clock)
      ensures GetMessages(id) == []
    {
      var doomed := Ids(InSession(messages.Values(), id));
      CascadeRemovesOwned(messages, id);
      DeleteMessages(doomed);
      existed := id in sessions.entries;
      sessions := sessions.Delete(id);
    }

    /** `ids.forEach(msgId => this.messages.delete(msgId))`. */
    method DeleteMessages(ids: seq<string>)
      requires Valid()
      modifies this`messages
      ensures Valid()
      ensures messages == DeleteEach(old(messages), ids)
    {
      DeleteEachRemovesAll(messages, ids);
      var j := 0;
      while j < |ids|
        invariant 0 <= j <= |ids|
        invariant messages == DeleteEach(old(messages), ids[..j])
      {
        assert ids[..j + 1][..j] == ids[..j];
        assert DeleteEach(old(messages), ids[..j + 1]) == DeleteEach(old(messages), ids[..j]).Delete(ids[j]);
        messages := messages.Delete(ids[j]);
        j := j + 1;
      }
      assert ids[..j] == ids;
    }

    // ---------------------------------------------------------------- Messages

    function GetMessages(sid: string): seq<Message>
      reads this
      requires Valid()
    {
      MessagesInOrder(messages, sid)
    }

    function GetMessage(id: string): (r: Option<Message>)
      reads this
      requires Valid()
      ensures r.Some? <==> id in messages.entries
      ensures r.Some? ==> r.value == messages.entries[id] && r.value.id == id
    {
      messages.Get(id)
    }

    /** Stores a message and, when its session exists, touches that session's
        `updatedAt`; a missing session is not an error. */
    method CreateMessage(i: InsertMessage) returns (m: Message)
      requires Valid()
      modifies this
      ensures Valid()
      ensures m.id !in old(messages.entries) && m.id != ""
      ensures m == MessageFromInsert(m.id, i, m.createdAt)
      ensures old(clock) <= m.createdAt <= clock
      ensures messages == old(messages).Set(m.id, m)
      ensures attachments == old(attachments)
      ensures i.sessionId in old(sessions.entries) ==>
        sessions == old(sessions).Set(i.sessionId, old(sessions.entries[i.sessionId]).(updatedAt := clock))
      ensures i.sessionId !in old(sessions.entries) ==> sessions == old(sessions) && clock == m.createdAt
      ensures MessagesInOrder(messages, i.sessionId) == MessagesInOrder(old(messages), i.sessionId) + [m]
      ensures forall sid :: sid != i.sessionId ==>
        MessagesInOrder(messages, sid) == MessagesInOrder(old(messages), sid)
      ensures i.sessionId in old(sessions.entries) ==>
        SessionsByRecency(sessions) != [] && SessionsByRecency(sessions)[0].updatedAt == clock
      ensures i.sessionId in old(sessions.entries)
        && (forall k :: k in old(sessions.entries) && k != i.sessionId ==> old(sessions.entries[k]).updatedAt < clock)
        ==> SessionsByRecency(sessions)[0] == sessions.entries[i.sessionId]
    {
      FreshIdExists(messages.entries.Keys);
      var id :| id !in messages.entries && id != "";
      var now := Now();
      m := MessageFromInsert(id, i, now);
      AppendMessage(m);
      TouchSession(i.sessionId);
    }

    /** `this.messages.set(id, message)` for a message with a new id. */
    method AppendMessage(m: Message)
      requires Valid() && m.id !in messages.entries && m.createdAt == clock
      modifies this`messages
      ensures Valid()
      ensures messages == old(messages).Set(m.id, m)
      ensures MessagesInOrder(messages, m.sessionId) == MessagesInOrder(old(messages), m.sessionId) + [m]
      ensures forall sid :: sid != m.sessionId ==>
        MessagesInOrder(messages, sid) == MessagesInOrder(old(messages), sid)
    {
      forall sid ensures MessagesInOrder(messages.Set(m.id, m), sid)
        == MessagesInOrder(messages, sid) + (if m.sessionId == sid then [m] else [])
      {
        MessagesAfterCreate(messages, m, sid);
      }
      messages := messages.Set(m.id, m);
    }

    /** `{ ...session, updatedAt: new Date() }` written back when the session
        exists. */
    method TouchSession(sid: string)
      requires Valid()
      modifies this`sessions, this`clock
      ensures Valid()
      ensures sid in old(sessions.entries) ==>
        && old(clock) <= clock
        && sessions == old(sessions).Set(sid, old(sessions.entries[sid]).(updatedAt := clock))
        && SessionsByRecency(sessions) != [] && SessionsByRecency(sessions)[0].updatedAt == clock
        && ((forall k :: k in old(sessions.entries) && k != sid ==> old(sessions.entries[k]).updatedAt < clock) ==>
              SessionsByRecency(sessions)[0] == sessions.entries[sid])
      ensures sid !in old(sessions.entries) ==> sessions == old(sessions) && clock == old(clock)
    {
      match sessions.Get(sid)
      case None =>
      case Some(session) =>
        var later := Now();
        SessionsAfterTouch(sessions, session.id, later);
        sessions := sessions.Set(session.id, session.(updatedAt := later));
    }

    method DeleteMessage(id: string) returns (existed: bool)
      requires Valid()
      modifies this
      ensures Valid()
      ensures existed == (id in old(messages.entries))
      ensures messages == old(messages).Delete(id)
      ensures sessions == old(sessions) && attachments == old(attachments) && clock == old(clock)
    {
      existed := id in messages.entries;
      messages := messages.Delete(id);
    }

    // ------------------------------------------------------------- Attachments

    method CreateAttachment(i: InsertAttachment) returns (a: Attachment)
      requires Valid()
      modifies this
      ensures Valid()
      ensures a.id !in old(attachments.entries) && a.id != ""
      ensures a == AttachmentFromInsert(a.id, i, clock) && old(clock) <= clock
      ensures attachments == old(attachments).Set(a.id, a)
      ensures GetAttachment(a.id) == Some(a)
      ensures sessions == old(sessions) && messages == old(messages)
    {
      FreshIdExists(attachments.entries.Keys);
      var id :| id !in attachments.entries && id != "";
      var now := Now();
      a := AttachmentFromInsert(id, i, now);
      attachments := attachments.Set(id, a);
    }

    function GetAttachment(id: string): (r: Option<Attachment>)
      reads this
      requires Valid()
      ensures r.Some? <==> id in attachments.entries
      ensures r.Some? ==> r.value == attachments.entries[id] && r.value.id == id
    {
      attachments.Get(id)
    }
  }
}
