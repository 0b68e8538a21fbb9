/** One chat turn (`services/chat_service.py`): find or create the session,
    read its history (creating a new session when that fails), query the
    documents, append the question and the answer, and reply. */
module Chat {
  import opened Common
  import opened PyStr
  import opened Uuids
  import opened RedisStore
  import opened Sessions
  import opened Haystack

  /** `ChatResponse(answer, sources, session_id)` */
  datatype ChatResponse = ChatResponse(answer: string, sources: seq<string>, sessionId: string)

  /** `if not session_id:` fails for a missing or empty id. */
  predicate Given(sessionId: Option<string>) {
    sessionId.Some? && |sessionId.value| > 0
  }

  /** The two messages a turn appends. */
  function Turn(question: string, answer: string): seq<Message> {
    [Message("user", question), Message("assistant", answer)]
  }

  /** A history written only by chat turns keeps to the `user` and
      `assistant` roles, however it is trimmed. */
  lemma TurnKeepsChatRoles(prior: seq<Message>, question: string, answer: string, m: int)
    requires ChatRoles(prior)
    ensures ChatRoles(Window(prior + Turn(question, answer), m))
  {
    var s := prior + Turn(question, answer);
    var w := Window(s, m);
    WindowIsSuffix(s, m);
    forall i | 0 <= i < |w| ensures w[i].role == "user" || w[i].role == "assistant" {
      var j := |s| - |w| + i;
      assert w[i] == s[j];
      if j >= |prior| {
        assert s[j] == Turn(question, answer)[j - |prior|];
      }
    }
  }

  /** A second write to a key replaces the first. */
  lemma OverwriteTwice<K, V>(m: map<K, V>, k: K, a: V, b: V)
    ensures m[k := a][k := b] == m[k := b]
  {
  }

  class ChatService {
    const haystack: HaystackService
    const sessions: SessionService

    constructor (haystack: HaystackService, sessions: SessionService)
      ensures this.haystack == haystack && this.sessions == sessions
    {
      this.haystack := haystack;
      this.sessions := sessions;
    }

    /** The turn goes to the session it was given only when that session
        can be read; otherwise it creates one. */
    ghost predicate Creates(sessionId: Option<string>)
      reads sessions.redis
    {
      !(Given(sessionId) && sessions.Lookup(sessionId.value).Some?)
    }

    /** The id the turn ends up with: the given one, the id created for a
        missing one, or the id created when the given one cannot be read. */
    ghost function TurnId(sessionId: Option<string>, firstId: Uuid, healId: Uuid): string
      reads sessions.redis
    {
      if !Creates(sessionId) then sessionId.value
      else UuidString(if Given(sessionId) then healId else firstId)
    }

    /** What that session holds when the query runs. */
    ghost function Prior(sessionId: Option<string>, firstId: Uuid, healId: Uuid, nowMillis: nat): SessionData
      reads sessions.redis
    {
      if !Creates(sessionId) then sessions.Lookup(sessionId.value).value
      else NewSession(TurnId(sessionId, firstId, healId), Decimal(nowMillis))
    }

    /** The first steps of `chat`: a missing or empty id is replaced by a
        new session, and so is one whose history cannot be read; the
        history is that of the session kept, `[]` for a new one. A failed
        creation raises. */
    method ResolveSession(sessionId: Option<string>, firstId: Uuid, healId: Uuid, nowMillis: nat)
      returns (r: Result<string>, chatHistory: seq<Message>)
      requires sessions.redis.Valid()
      modifies sessions.redis
      ensures sessions.redis.Valid() && sessions.redis.connected == old(sessions.redis.connected)
      ensures r.Ok? <==> !old(Creates(sessionId)) || (old(sessions.redis.connected) && sessions.sessionTtl >= 0)
      ensures r.Err? ==> r.error == StoreFailure("Failed to create session in Redis")
                         && sessions.redis.entries == old(sessions.redis.entries)
                         && sessions.redis.ttls == old(sessions.redis.ttls)
      ensures r.Ok? ==>
                var prior := old(Prior(sessionId, firstId, healId, nowMillis));
                r.value == old(TurnId(sessionId, firstId, healId))
                && chatHistory == prior.MessagesOrEmpty()
                && sessions.Lookup(r.value) == Some(prior)
      ensures r.Ok? && !old(Creates(sessionId)) ==>
                sessions.redis.entries == old(sessions.redis.entries)
                && sessions.redis.ttls == old(sessions.redis.ttls)
      ensures r.Ok? && old(Creates(sessionId)) ==>
                sessions.redis.entries == old(sessions.redis.entries)[Key(r.value) := Str(old(Prior(sessionId, firstId, healId, nowMillis)))]
                && sessions.sessionTtl >= 0
                && sessions.redis.ttls == sessions.TtlsAfterWrite(old(sessions.redis.ttls), Key(r.value))
      ensures sessions.maxMessages >= 0 && old(sessions.Bounded()) ==> sessions.Bounded()
    {
      var id: string;
      if !Given(sessionId) {
        var created := sessions.CreateSession(firstId, nowMillis);
        if created.Err? {
          return Err(created.error), [];
        }
        id := created.value;
      } else {
        id := sessionId.value;
      }

      var history := sessions.GetSessionHistory(id);
      if history.Ok? {
        chatHistory := history.value;
      } else {
        var created := sessions.CreateSession(healId, nowMillis);
        if created.Err? {
          return Err(created.error), [];
        }
        id := created.value;
        chatHistory := [];
      }
      r := Ok(id);
    }

    /** The pipeline answers the request with at least one reply. */
    predicate Answers(req: RagRequest) {
      haystack.pipeline(req).Ok? && |haystack.pipeline(req).value.replies| > 0
    }

    /** The error `query` raises when the pipeline does not answer. */
    function QueryError(req: RagRequest): Error
      requires !Answers(req)
    {
      if haystack.pipeline(req).Err? then haystack.pipeline(req).error else Upstream("list index out of range")
    }

    /** The rest of `chat` once the session is known to hold `prior`:
        query with its history, append the question and the answer, and
        reply. A failed query or a failed write leaves the store as it was. */
    method AnswerTurn(id: string, ghost prior: SessionData, question: string, documentIds: seq<Uuid>,
                      chatHistory: seq<Message>, currentDate: string)
      returns (r: Result<ChatResponse>)
      requires sessions.redis.Valid() && sessions.Lookup(id) == Some(prior)
      requires chatHistory == prior.MessagesOrEmpty()
      modifies sessions.redis
      ensures sessions.redis.Valid() && sessions.redis.connected == old(sessions.redis.connected)
      ensures var req := haystack.Request(question, documentIds, chatHistory, currentDate);
              r.Ok? <==> sessions.sessionTtl >= 0 && Answers(req)
      ensures var req := haystack.Request(question, documentIds, chatHistory, currentDate);
              !Answers(req) ==> r == Err(QueryError(req))
      ensures var req := haystack.Request(question, documentIds, chatHistory, currentDate);
              Answers(req) && sessions.sessionTtl < 0 ==> r == Err(StoreFailure("Failed to update session in Redis"))
      ensures r.Err? ==> sessions.redis.entries == old(sessions.redis.entries)
                         && sessions.redis.ttls == old(sessions.redis.ttls)
                         && sessions.Lookup(id) == Some(prior)
      ensures r.Ok? ==>
                var out := haystack.pipeline(haystack.Request(question, documentIds, chatHistory, currentDate)).value;
                var docs := Retrieved(out);
                var after := Appended(prior, Turn(question, r.value.answer), sessions.maxMessages);
                r.value.sessionId == id
                && r.value.answer == out.replies[0]
                && |r.value.sources| == |docs|
                && (forall i :: 0 <= i < |docs| ==> r.value.sources[i] == SourceLabel(docs[i], haystack.formatScore))
                && sessions.Lookup(id) == Some(after)
                && sessions.redis.entries == old(sessions.redis.entries)[Key(id) := Str(after)]
                && sessions.sessionTtl >= 0
                && sessions.redis.ttls == sessions.TtlsAfterWrite(old(sessions.redis.ttls), Key(id))
      ensures sessions.maxMessages >= 1 && old(sessions.Bounded()) ==> sessions.Bounded()
    {
      var result := haystack.Query(question, documentIds, chatHistory, currentDate);
      if result.Err? {
        return Err(result.error);
      }
      var newMessages := [Message("user", question), Message("assistant", result.value.answer)];
      var added := sessions.AddMessagesToSession(id, newMessages);
      if added.Err? {
        return Err(added.error);
      }
      r := Ok(ChatResponse(result.value.answer, result.value.sources, id));
    }

    /** `chat(question, document_ids, session_id)`. `firstId` is the UUID a
        missing id is replaced with, `healId` the one a failed history read
        is replaced with, `nowMillis` the creation time and `currentDate` the
        date text of the prompt. Only the key of the turn's session is
        written: the store is otherwise left as it was. */
    method Chat(question: string, documentIds: seq<Uuid>, sessionId: Option<string>,
                firstId: Uuid, healId: Uuid, nowMillis: nat, currentDate: string)
      returns (r: Result<ChatResponse>)
      requires sessions.redis.Valid()
      modifies sessions.redis
      ensures sessions.redis.Valid() && sessions.redis.connected == old(sessions.redis.connected)
      ensures var prior := old(Prior(sessionId, firstId, healId, nowMillis));
              var req := haystack.Request(question, documentIds, prior.MessagesOrEmpty(), currentDate);
              r.Ok? <==> old(sessions.redis.connected) && sessions.sessionTtl >= 0 && Answers(req)
      // the store refuses writes: a session is neither created nor updated
      ensures !(old(sessions.redis.connected) && sessions.sessionTtl >= 0) ==>
                sessions.redis.entries == old(sessions.redis.entries)
                && sessions.redis.ttls == old(sessions.redis.ttls)
      ensures old(Creates(sessionId)) && !(old(sessions.redis.connected) && sessions.sessionTtl >= 0) ==>
                r == Err(StoreFailure("Failed to create session in Redis"))
      ensures var prior := old(Prior(sessionId, firstId, healId, nowMillis));
              var req := haystack.Request(question, documentIds, prior.MessagesOrEmpty(), currentDate);
              !old(Creates(sessionId)) && sessions.sessionTtl < 0 && Answers(req) ==>
                r == Err(StoreFailure("Failed to update session in Redis"))
      // the query ran and failed: a created session stays, with its expiry
      ensures var prior := old(Prior(sessionId, firstId, healId, nowMillis));
              var req := haystack.Request(question, documentIds, prior.MessagesOrEmpty(), currentDate);
              ((!old(Creates(sessionId)) || (old(sessions.redis.connected) && sessions.sessionTtl >= 0))
               && !Answers(req)) ==> r == Err(QueryError(req))
      ensures var id := old(TurnId(sessionId, firstId, healId));
              var prior := old(Prior(sessionId, firstId, healId, nowMillis));
              var req := haystack.Request(question, documentIds, prior.MessagesOrEmpty(), currentDate);
              old(sessions.redis.connected) && sessions.sessionTtl >= 0 && !Answers(req) ==>
                sessions.Lookup(id) == Some(prior)
                && (if old(Creates(sessionId))
                    then sessions.redis.entries == old(sessions.redis.entries)[Key(id) := Str(prior)]
                         && sessions.redis.ttls == sessions.TtlsAfterWrite(old(sessions.redis.ttls), Key(id))
                    else sessions.redis.entries == old(sessions.redis.entries)
                         && sessions.redis.ttls == old(sessions.redis.ttls))
      ensures var id := old(TurnId(sessionId, firstId, healId));
              var prior := old(Prior(sessionId, firstId, healId, nowMillis));
              var req := haystack.Request(question, documentIds, prior.MessagesOrEmpty(), currentDate);
              r.Ok? ==>
                var out := haystack.pipeline(req).value;
                var docs := Retrieved(out);
                var after := Appended(prior, Turn(question, r.value.answer), sessions.maxMessages);
                r.value.sessionId == id
                && r.value.answer == out.replies[0]
                && |r.value.sources| == |docs|
                && (forall i :: 0 <= i < |docs| ==> r.value.sources[i] == SourceLabel(docs[i], haystack.formatScore))
                && sessions.Lookup(id) == Some(after)
                && sessions.redis.entries == old(sessions.redis.entries)[Key(id) := Str(after)]
                && sessions.sessionTtl >= 0
                && sessions.redis.ttls == sessions.TtlsAfterWrite(old(sessions.redis.ttls), Key(id))
      ensures sessions.maxMessages >= 1 && old(sessions.Bounded()) ==> sessions.Bounded()
    {
      ghost var prior := Prior(sessionId, firstId, healId, nowMillis);
      var resolved, chatHistory := ResolveSession(sessionId, firstId, healId, nowMillis);
      if resolved.Err? {
        return Err(resolved.error);
      }
      ghost var entries, ttls := sessions.redis.entries, sessions.redis.ttls;
      r := AnswerTurn(resolved.value, prior, question, documentIds, chatHistory, currentDate);
      if r.Ok? && old(Creates(sessionId)) {
        // the turn's write replaces the one that created the session
        var k := Key(resolved.value);
        assert entries == old(sessions.redis.entries)[k := Str(prior)];
        OverwriteTwice(old(sessions.redis.entries), k, Str(prior), sessions.redis.entries[k]);
        if sessions.sessionTtl != 0 {
          OverwriteTwice(old(sessions.redis.ttls), k, sessions.sessionTtl, sessions.sessionTtl);
        } else {
          assert ttls == old(sessions.redis.ttls) - {k};
        }
      }
    }
  }

  /** Two turns on a session that starts empty, with room for four
      messages, leave it holding both questions and both answers in order. */
  method TwoTurns(chat: ChatService, id: string, documentIds: seq<Uuid>, q1: string, q2: string,
                  firstId: Uuid, healId: Uuid, nowMillis: nat, currentDate: string)
    returns (r1: Result<ChatResponse>, r2: Result<ChatResponse>)
    requires chat.sessions.redis.Valid()
    requires |id| > 0 && chat.sessions.Lookup(id).Some?
    requires chat.sessions.Lookup(id).value.MessagesOrEmpty() == []
    requires chat.sessions.maxMessages >= 4
    modifies chat.sessions.redis
    ensures r1.Ok? && r2.Ok? ==>
              r1.value.sessionId == id && r2.value.sessionId == id
              && chat.sessions.Lookup(id).Some?
              && chat.sessions.Lookup(id).value.messages
                 == Some(Turn(q1, r1.value.answer) + Turn(q2, r2.value.answer))
  {
    r1 := chat.Chat(q1, documentIds, Some(id), firstId, healId, nowMillis, currentDate);
    if r1.Err? {
      return r1, r1;
    }
    ghost var first := Turn(q1, r1.value.answer);
    assert chat.sessions.Lookup(id).value.MessagesOrEmpty() == first;
    r2 := chat.Chat(q2, documentIds, Some(id), firstId, healId, nowMillis, currentDate);
    if r2.Ok? {
      assert first + Turn(q2, r2.value.answer) == Turn(q1, r1.value.answer) + Turn(q2, r2.value.answer);
    }
  }
}
