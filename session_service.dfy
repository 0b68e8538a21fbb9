/** Chat sessions kept in the key/value store (`services/session_service.py`).
    A session lives under the key `chat_session:<id>` as a JSON object with a
    `session_id`, a `messages` list and a `created_at` timestamp, and expires
    `session_ttl` seconds after its last write. */
module Sessions {
  import opened Common
  import opened PyStr
  import opened Uuids
  import opened Config
  import opened RedisStore

  const SESSION_PREFIX: string := "chat_session:"

  /** The stored session object, by the three fields the service reads; any
      of them may be missing from what the store holds. */
  datatype SessionData = SessionData(
    sessionId: Option<string>,
    messages: Option<seq<Message>>,
    createdAt: Option<string>)
  {
    /** `if session_data:` an object is truthy unless it is empty. */
    predicate Truthy() {
      sessionId.Some? || messages.Some? || createdAt.Some?
    }

    /** `session_data.get("messages", [])` */
    function MessagesOrEmpty(): seq<Message> {
      messages.GetOr([])
    }
  }

  /** What `get_session_info` reports. */
  datatype SessionInfo = SessionInfo(
    sessionId: string,
    messageCount: nat,
    createdAt: Option<string>,
    ttlRemaining: int)

  /** One entry of `get_all_sessions`. */
  datatype SessionSummary = SessionSummary(
    sessionId: string,
    messageCount: nat,
    createdAt: Option<string>,
    ttlRemaining: int,
    lastMessage: Option<Message>)

  /** `_get_session_key(session_id)` */
  function Key(sessionId: string): (k: string)
    ensures StartsWith(k, SESSION_PREFIX) && k[|SESSION_PREFIX|..] == sessionId
  {
    SESSION_PREFIX + sessionId
  }

  /** Different sessions have different keys. */
  lemma KeyInjective(a: string, b: string)
    requires Key(a) == Key(b)
    ensures a == b
  {
    assert a == Key(a)[|SESSION_PREFIX|..];
  }

  /** `key.replace(prefix, "")` gives back the id of an id that does not
      itself hold the prefix. */
  lemma KeyRoundTrip(sessionId: string)
    requires !Contains(sessionId, SESSION_PREFIX)
    ensures RemoveAll(Key(sessionId), SESSION_PREFIX) == sessionId
  {
    StripPrefix(SESSION_PREFIX, sessionId);
  }

  /** Every id the service creates is such an id: a UUID string has no `h`
      in it, and the prefix does. */
  lemma UuidKeyRoundTrip(u: Uuid)
    ensures RemoveAll(Key(UuidString(u)), SESSION_PREFIX) == UuidString(u)
  {
    var s := UuidString(u);
    assert SESSION_PREFIX[1] == 'h';
    forall j | 0 <= j < |s| ensures s[j] != SESSION_PREFIX[1] {
      assert IsHexDigit(s[j]) || s[j] == '-';
    }
    NotContainsMissingChar(s, SESSION_PREFIX, 1);
    KeyRoundTrip(s);
  }

  /** The object `create_session` writes. */
  function NewSession(sessionId: string, createdAt: string): SessionData {
    SessionData(Some(sessionId), Some([]), Some(createdAt))
  }

  /** The messages kept after an append: `messages[-m:]` when there are more
      than `m` of them, all of them otherwise. For `m >= 1` these are the
      newest `m`. */
  function Window<T>(msgs: seq<T>, m: int): (w: seq<T>)
    ensures m >= 1 ==> w == msgs[|msgs| - (if m < |msgs| then m else |msgs|)..]
    ensures m == 0 ==> w == msgs
    ensures m < 0 ==> w == (if -m <= |msgs| then msgs[-m..] else [])
  {
    if |msgs| > m then PyTail(msgs, -m) else msgs
  }

  /** What a window keeps is a run of what it was given, ending with its
      last element. */
  lemma WindowIsSuffix<T>(s: seq<T>, m: int)
    ensures var w := Window(s, m); |w| <= |s| && w == s[|s| - |w|..]
  {
  }

  /** Windowing after every append keeps the same messages as windowing once
      at the end: what is dropped early would be dropped anyway. */
  lemma WindowAppend<T>(a: seq<T>, b: seq<T>, m: int)
    requires m >= 1
    ensures Window(Window(a, m) + b, m) == Window(a + b, m)
  {
    var w := Window(a, m);
    var n := if m < |a| + |b| then m else |a| + |b|;
    assert |w + b| >= n;
    assert w + b == (a + b)[|a| - |w|..];
    assert (w + b)[|w + b| - n..] == (a + b)[|a + b| - n..];
  }

  /** `messages` after `add_messages` has been called once per batch. */
  function AfterBatches<T>(msgs: seq<T>, batches: seq<seq<T>>, m: int): seq<T>
    decreases |batches|
  {
    if |batches| == 0 then msgs
    else AfterBatches(Window(msgs + batches[0], m), batches[1..], m)
  }

  function Concat<T>(batches: seq<seq<T>>): seq<T>
    decreases |batches|
  {
    if |batches| == 0 then [] else batches[0] + Concat(batches[1..])
  }

  lemma ConcatCons<T>(batches: seq<seq<T>>)
    requires |batches| > 0
    ensures Concat(batches) == batches[0] + Concat(batches[1..])
  {
  }

  lemma AppendAssoc<T>(a: seq<T>, b: seq<T>, c: seq<T>)
    ensures a + b + c == a + (b + c)
  {
  }

  /** A session that starts within the limit holds, after any number of
      appends, exactly the newest `m` of all the messages it was given. */
  lemma {:induction false} AfterBatchesKeepsNewest<T>(msgs: seq<T>, batches: seq<seq<T>>, m: int)
    requires m >= 1 && |msgs| <= m
    ensures AfterBatches(msgs, batches, m) == Window(msgs + Concat(batches), m)
    decreases |batches|
  {
    if |batches| == 0 {
      assert msgs + [] == msgs;
    } else {
      var b, rest := batches[0], batches[1..];
      var next := Window(msgs + b, m);
      AfterBatchesKeepsNewest(next, rest, m);
      WindowAppend(msgs + b, Concat(rest), m);
      ConcatCons(batches);
      AppendAssoc(msgs, b, Concat(rest));
    }
  }

  /** The object `add_messages_to_session` writes back: `messages` created
      when missing, extended, then windowed; the other fields as they were. */
  function Appended(d: SessionData, added: seq<Message>, m: int): SessionData {
    d.(messages := Some(Window(d.MessagesOrEmpty() + added, m)))
  }

  /** The entry `get_all_sessions` reports for `key`, holding `d`. */
  function Summary(key: string, d: SessionData, ttl: int): (s: SessionSummary)
    ensures s.messageCount == |d.MessagesOrEmpty()| && s.createdAt == d.createdAt
    ensures s.lastMessage.Some? <==> d.messages.Some? && |d.messages.value| > 0
    ensures s.lastMessage.Some? ==> s.lastMessage.value == d.messages.value[|d.messages.value| - 1]
  {
    SessionSummary(
      RemoveAll(key, SESSION_PREFIX),
      |d.MessagesOrEmpty()|,
      d.createdAt,
      ttl,
      if d.messages.Some? && |d.messages.value| > 0
      then Some(d.messages.value[|d.messages.value| - 1]) else None)
  }

  /** A session as `create_session` left it is listed under its own id, with
      no messages and its creation time. */
  lemma SummaryOfNewSession(u: Uuid, now: nat, ttl: int)
    ensures var id := UuidString(u);
            Summary(Key(id), NewSession(id, Decimal(now)), ttl)
              == SessionSummary(id, 0, Some(Decimal(now)), ttl, None)
  {
    UuidKeyRoundTrip(u);
  }

  /** `sessions.sort(key=lambda x: x.get("created_at", ""), reverse=True)`
      compares the `created_at` values, `None` included: with two entries or
      more, a missing timestamp makes the comparison raise `TypeError`. */
  predicate SortRaises(s: seq<SessionSummary>) {
    |s| >= 2 && exists i :: 0 <= i < |s| && s[i].createdAt.None?
  }

  function SortKey(s: SessionSummary): string {
    s.createdAt.GetOr("")
  }

  /** Newest first: no entry has a smaller timestamp than one after it. */
  predicate NewestFirst(s: seq<SessionSummary>) {
    forall i, j :: 0 <= i < j < |s| ==> !LexLess(SortKey(s[i]), SortKey(s[j]))
  }

  /** In a newest-first listing of sessions whose timestamps have the same
      number of digits, an earlier entry was created no earlier. */
  lemma NewestFirstByTime(s: seq<SessionSummary>, i: int, j: int, ti: nat, tj: nat)
    requires NewestFirst(s) && 0 <= i < j < |s|
    requires s[i].createdAt == Some(Decimal(ti)) && s[j].createdAt == Some(Decimal(tj))
    requires |Decimal(ti)| == |Decimal(tj)|
    ensures ti >= tj
  {
    DecimalOrder(ti, tj);
    assert !LexLess(SortKey(s[i]), SortKey(s[j]));
  }

  lemma {:induction false} LexAsymmetric(a: string, b: string)
    requires LexLess(a, b)
    ensures !LexLess(b, a)
    decreases |a|
  {
    if |a| > 0 && a[0] == b[0] {
      LexAsymmetric(a[1..], b[1..]);
    }
  }

  /** `a < b` and `c <= a` give `c < b`: so `b` does not come before `c`. */
  lemma NotBelowChain(a: string, b: string, c: string)
    requires LexLess(a, b) && !LexLess(a, c)
    ensures !LexLess(b, c)
  {
    if c == a {
      LexAsymmetric(a, b);
    } else {
      LexTotal(a, c);
      LexTransitive(c, a, b);
      LexAsymmetric(c, b);
    }
  }

  /** Putting `x` after the entries not older than it, and before the first
      older one, keeps a listing newest first. */
  lemma InsertKeepsOrder(r: seq<SessionSummary>, j: int, x: SessionSummary)
    requires NewestFirst(r) && 0 <= j <= |r|
    requires forall k :: 0 <= k < j ==> !LexLess(SortKey(r[k]), SortKey(x))
    requires j < |r| ==> LexLess(SortKey(r[j]), SortKey(x))
    ensures NewestFirst(r[..j] + [x] + r[j..])
  {
    var t := r[..j] + [x] + r[j..];
    forall a, b | 0 <= a < b < |t|
      ensures !LexLess(SortKey(t[a]), SortKey(t[b]))
    {
      if b < j {
        assert t[a] == r[a] && t[b] == r[b];
      } else if b == j {
        assert t[a] == r[a] && t[b] == x;
      } else if a == j {
        assert t[a] == x && t[b] == r[b - 1];
        if b - 1 > j {
          assert !LexLess(SortKey(r[j]), SortKey(r[b - 1]));
        } else {
          LexIrreflexive(SortKey(r[j]));
        }
        NotBelowChain(SortKey(r[j]), SortKey(x), SortKey(r[b - 1]));
      } else if a < j {
        assert t[a] == r[a] && t[b] == r[b - 1];
      } else {
        assert t[a] == r[a - 1] && t[b] == r[b - 1];
      }
    }
  }

  /** One step of the stable sort (Python's `list.sort` with `reverse=True`
      keeps entries with equal keys in their first order). */
  method InsertNewestFirst(r: seq<SessionSummary>, x: SessionSummary) returns (t: seq<SessionSummary>)
    requires NewestFirst(r)
    ensures NewestFirst(t)
    ensures multiset(t) == multiset(r) + multiset{x}
  {
    var j := 0;
    while j < |r| && !LexLess(SortKey(r[j]), SortKey(x))
      invariant 0 <= j <= |r|
      invariant forall k :: 0 <= k < j ==> !LexLess(SortKey(r[k]), SortKey(x))
    {
      j := j + 1;
    }
    InsertKeepsOrder(r, j, x);
    t := r[..j] + [x] + r[j..];
    assert r == r[..j] + r[j..];
  }

  /** `sessions.sort(..., reverse=True)` when no comparison raises. */
  method SortNewestFirst(s: seq<SessionSummary>) returns (r: seq<SessionSummary>)
    ensures NewestFirst(r)
    ensures multiset(r) == multiset(s)
  {
    r := [];
    var i := 0;
    while i < |s|
      invariant 0 <= i <= |s|
      invariant NewestFirst(r)
      invariant multiset(r) == multiset(s[..i])
    {
      r := InsertNewestFirst(r, s[i]);
      assert s[..i + 1] == s[..i] + [s[i]];
      i := i + 1;
    }
    assert s[..|s|] == s;
  }

  /** Every session object in `entries` holds at most `m` messages. */
  ghost predicate BoundedMap(entries: map<string, Entry<SessionData>>, m: int) {
    forall k :: k in entries && entries[k].Str? && StartsWith(k, SESSION_PREFIX)
      ==> |entries[k].value.MessagesOrEmpty()| <= m
  }

  /** Writing a session within the bound keeps every session within it. */
  lemma BoundedMapWrite(entries: map<string, Entry<SessionData>>, key: string, d: SessionData, m: int)
    requires BoundedMap(entries, m) && |d.MessagesOrEmpty()| <= m
    ensures BoundedMap(entries[key := Str(d)], m)
  {
  }

  class SessionService {
    const redis: RedisClient<SessionData>
    const sessionTtl: int
    const maxMessages: int

    /** `SessionService(redis_client)`, with `Settings()` read once. */
    constructor (redisClient: RedisClient<SessionData>, settings: Settings)
      ensures redis == redisClient
      ensures sessionTtl == settings.sessionTimeout
      ensures maxMessages == settings.maxMessagesPerSession
    {
      redis := redisClient;
      sessionTtl := settings.sessionTimeout;
      maxMessages := settings.maxMessagesPerSession;
    }

    /** The session `id` as the service sees it: what `get_json` returns for
        its key, when that is truthy. */
    function Lookup(id: string): (d: Option<SessionData>)
      reads redis
      ensures d.Some? ==> d.value.Truthy() && redis.Stored(Key(id)) == d
    {
      var s := redis.Stored(Key(id));
      if s.Some? && s.value.Truthy() then s else None
    }

    /** Every stored session holds at most `max_messages` messages. */
    ghost predicate Bounded()
      reads redis
    {
      BoundedMap(redis.entries, maxMessages)
    }

    /** The expiry a successful `set_json(key, _, session_ttl)` leaves. */
    ghost function TtlsAfterWrite(ttls: map<string, nat>, key: string): map<string, nat>
      requires sessionTtl >= 0
    {
      if sessionTtl != 0 then ttls[key := sessionTtl] else ttls - {key}
    }

    /** `create_session()`, with the value of `uuid.uuid4()` and the clock's milliseconds
        given. A failed write raises. */
    method CreateSession(newId: Uuid, nowMillis: nat) returns (r: Result<string>)
      requires redis.Valid()
      modifies redis
      ensures redis.Valid() && redis.connected == old(redis.connected)
      ensures r.Ok? <==> old(redis.connected) && sessionTtl >= 0
      ensures r.Ok? ==> r.value == UuidString(newId)
      ensures r.Ok? ==> Lookup(r.value) == Some(NewSession(r.value, Decimal(nowMillis)))
      ensures r.Ok? ==> redis.entries == old(redis.entries)[Key(r.value) := Str(NewSession(r.value, Decimal(nowMillis)))]
      ensures r.Ok? ==> redis.ttls == TtlsAfterWrite(old(redis.ttls), Key(r.value))
      ensures r.Err? ==> r.error == StoreFailure("Failed to create session in Redis")
      ensures r.Err? ==> redis.entries == old(redis.entries) && redis.ttls == old(redis.ttls)
      ensures maxMessages >= 0 && old(Bounded()) ==> Bounded()
    {
      var sessionId := UuidString(newId);
      var key := Key(sessionId);
      var data := NewSession(sessionId, Decimal(nowMillis));
      var success := redis.SetJson(key, data, Some(sessionTtl));
      if !success {
        return Err(StoreFailure("Failed to create session in Redis"));
      }
      r := Ok(sessionId);
    }

    /** `get_session_history(session_id)` */
    method GetSessionHistory(id: string) returns (r: Result<seq<Message>>)
      ensures r.Err? <==> Lookup(id).None?
      ensures r.Err? ==> r.error == SessionNotFound(id)
      ensures r.Ok? ==> r.value == Lookup(id).value.MessagesOrEmpty()
    {
      var data := redis.GetJson(Key(id));
      if !(data.Some? && data.value.Truthy()) {
        return Err(SessionNotFound(id));
      }
      r := Ok(data.value.MessagesOrEmpty());
    }

    /** `add_messages_to_session(session_id, messages)`: append, keep the
        newest `max_messages`, write back with a renewed expiry. */
    method AddMessagesToSession(id: string, added: seq<Message>) returns (r: Result<()>)
      requires redis.Valid()
      modifies redis
      ensures redis.Valid() && redis.connected == old(redis.connected)
      ensures old(Lookup(id)).None? ==> r == Err(SessionNotFound(id))
      ensures old(Lookup(id)).Some? ==> (r.Ok? <==> sessionTtl >= 0)
      ensures r.Ok? ==> var d := Appended(old(Lookup(id)).value, added, maxMessages);
                Lookup(id) == Some(d)
                && redis.entries == old(redis.entries)[Key(id) := Str(d)]
                && redis.ttls == TtlsAfterWrite(old(redis.ttls), Key(id))
      ensures r.Ok? && maxMessages >= 1 ==> |Lookup(id).value.MessagesOrEmpty()| <= maxMessages
      ensures old(Lookup(id)).Some? && r.Err? ==> r.error == StoreFailure("Failed to update session in Redis")
      ensures r.Err? ==> redis.entries == old(redis.entries) && redis.ttls == old(redis.ttls)
      ensures maxMessages >= 1 && old(Bounded()) ==> Bounded()
    {
      var key := Key(id);
      var data := redis.GetJson(key);
      if !(data.Some? && data.value.Truthy()) {
        return Err(SessionNotFound(id));
      }
      var d := data.value;
      // `messages[-max_messages:]` once the list is longer than the limit
      var msgs := Window(d.MessagesOrEmpty() + added, maxMessages);
      d := d.(messages := Some(msgs));
      ghost var before := redis.entries;
      var success := redis.SetJson(key, d, Some(sessionTtl));
      if !success {
        return Err(StoreFailure("Failed to update session in Redis"));
      }
      if maxMessages >= 1 {
        assert |msgs| <= maxMessages;
        if BoundedMap(before, maxMessages) {
          BoundedMapWrite(before, key, d, maxMessages);
        }
      }
      r := Ok(());
    }

    /** `delete_session(session_id)` */
    method DeleteSession(id: string) returns (ok: bool)
      requires redis.Valid()
      modifies redis
      ensures redis.Valid() && redis.connected == old(redis.connected)
      ensures ok <==> old(redis.connected) && Key(id) in old(redis.entries)
      ensures Lookup(id).None?
      ensures redis.connected ==> redis.entries == old(redis.entries) - {Key(id)}
                                  && redis.ttls == old(redis.ttls) - {Key(id)}
      ensures !redis.connected ==> redis.entries == old(redis.entries) && redis.ttls == old(redis.ttls)
      ensures old(Bounded()) ==> Bounded()
    {
      ok := redis.Delete(Key(id));
    }

    /** `session_exists(session_id)`: the key is there, whatever it holds. */
    method SessionExists(id: string) returns (b: bool)
      ensures b <==> redis.connected && Key(id) in redis.entries
      ensures Lookup(id).Some? ==> b
    {
      b := redis.Exists(Key(id));
    }

    /** `extend_session_ttl(session_id)` */
    method ExtendSessionTtl(id: string) returns (ok: bool)
      requires redis.Valid()
      modifies redis
      ensures redis.Valid() && redis.connected == old(redis.connected)
      ensures ok <==> old(redis.connected) && Key(id) in old(redis.entries)
      ensures ok && sessionTtl > 0 ==> redis.entries == old(redis.entries)
                                       && redis.ttls == old(redis.ttls)[Key(id) := sessionTtl]
      ensures ok && sessionTtl <= 0 ==> redis.entries == old(redis.entries) - {Key(id)}
                                        && redis.ttls == old(redis.ttls) - {Key(id)}
      ensures !ok ==> redis.entries == old(redis.entries) && redis.ttls == old(redis.ttls)
      ensures old(Bounded()) ==> Bounded()
    {
      ok := redis.Expire(Key(id), sessionTtl);
    }

    /** `get_session_info(session_id)` */
    method GetSessionInfo(id: string) returns (r: Option<SessionInfo>)
      requires redis.Valid()
      ensures r.None? <==> Lookup(id).None?
      ensures r.Some? ==> r.value == SessionInfo(
                id,
                |Lookup(id).value.MessagesOrEmpty()|,
                Lookup(id).value.createdAt,
                if Key(id) in redis.ttls then redis.ttls[Key(id)] else -1)
    {
      var key := Key(id);
      var data := redis.GetJson(key);
      if !(data.Some? && data.value.Truthy()) {
        return None;
      }
      var ttl := redis.Ttl(key);
      r := Some(SessionInfo(id, |data.value.MessagesOrEmpty()|, data.value.createdAt, ttl));
    }

    /** The entries the listing loop collects from `keys`, in their order. */
    function Summaries(keys: seq<string>): seq<SessionSummary>
      reads redis
      decreases |keys|
    {
      if |keys| == 0 then []
      else
        var k := keys[|keys| - 1];
        var d := redis.Stored(k);
        Summaries(keys[..|keys| - 1])
          + (if d.Some? && d.value.Truthy() then [Summary(k, d.value, redis.TtlOf(k))] else [])
    }

    /** The loop of `get_all_sessions`: one entry per key whose object is
        truthy, in the order of `keys`. */
    method CollectSummaries(keys: seq<string>) returns (sessions: seq<SessionSummary>)
      requires redis.Valid()
      ensures sessions == Summaries(keys)
    {
      sessions := [];
      var i := 0;
      while i < |keys|
        invariant 0 <= i <= |keys|
        invariant sessions == Summaries(keys[..i])
      {
        var key := keys[i];
        var sessionId := RemoveAll(key, SESSION_PREFIX);
        var data := redis.GetJson(key);
        if data.Some? && data.value.Truthy() {
          var ttl := redis.Ttl(key);
          var msgs := data.value.messages;
          var last := if msgs.Some? && |msgs.value| > 0 then Some(msgs.value[|msgs.value| - 1]) else None;
          sessions := sessions + [SessionSummary(sessionId, |data.value.MessagesOrEmpty()|,
                                                 data.value.createdAt, ttl, last)];
        }
        assert keys[..i + 1][..i] == keys[..i];
        i := i + 1;
      }
      assert keys[..|keys|] == keys;
    }

    /** `get_all_sessions()`: every live session under the prefix, newest
        first, or `[]` when sorting raises. `scanned` is the order in which
        the store listed the keys. */
    method GetAllSessions() returns (r: seq<SessionSummary>, ghost scanned: seq<string>)
      requires redis.Valid()
      ensures forall k :: k in scanned <==> redis.connected && k in redis.entries && StartsWith(k, SESSION_PREFIX)
      ensures forall i, j :: 0 <= i < j < |scanned| ==> scanned[i] != scanned[j]
      ensures SortRaises(Summaries(scanned)) ==> r == []
      ensures !SortRaises(Summaries(scanned)) ==>
                NewestFirst(r) && multiset(r) == multiset(Summaries(scanned))
    {
      var keys := redis.Keys(SESSION_PREFIX);
      scanned := keys;
      var sessions := CollectSummaries(keys);
      if |sessions| >= 2 && exists j :: 0 <= j < |sessions| && sessions[j].createdAt.None? {
        return [], scanned;
      }
      r := SortNewestFirst(sessions);
    }
  }

  /** A session whose expiry runs out is gone: it cannot be read any more,
      `get_session_history` raises for it and `session_exists` says no. A key
      with no expiry never times out. */
  method SessionTimesOut(service: SessionService, id: string)
    returns (present: bool, history: Result<seq<Message>>)
    requires service.redis.Valid()
    modifies service.redis
    ensures Key(id) in old(service.redis.ttls) ==>
              service.Lookup(id).None? && !present && history == Err(SessionNotFound(id))
    ensures Key(id) !in old(service.redis.ttls) ==>
              service.Lookup(id) == old(service.Lookup(id))
              && (present <==> service.redis.connected && Key(id) in service.redis.entries)
  {
    service.redis.TimeOut(Key(id));
    present := service.SessionExists(id);
    history := service.GetSessionHistory(id);
  }
}
