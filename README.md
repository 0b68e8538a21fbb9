# genai-chatbot: the session-scoped chat engine in Dafny

This project models the core of the genai-chatbot Python backend. That core is the session-scoped chat engine behind the `/chat` and `/upload` routes. It has five parts:

- **The key/value store client** (`RedisClient`, module `RedisStore`). The server becomes an in-memory map from keys to either a value or a list of values, plus a map of remaining expiry times. Every call except `connect` catches the store's errors and answers `False`, `None` or `[]`. Three situations make a call fail: the client has no connection, the key holds the other kind of value (Redis's `WRONGTYPE`), or `SETEX` is given a negative expiry.
- **The session manager** (`SessionService`, module `Sessions`). Sessions are stored under `chat_session:<id>` as `{session_id, messages, created_at}`. The manager creates, reads, extends (appends, then trims to a window of the newest `max_messages`), deletes, tests, refreshes, describes and lists them.
- **The turn orchestrator** (`ChatService.chat`, module `Chat`). It resolves or creates the session, replaces a session it cannot read with a new one, queries the documents, and appends the question and the answer.
- **The deterministic parts of the retrieval service** (`HaystackService`, module `Haystack`):
  - the connection-string rewrite;
  - the metadata step of the indexing pipeline, updating documents in place;
  - the retrieval filter;
  - the history conversion;
  - the source labels, the passage count and the substring-based confidence.

  Embedding, retrieval, prompting and generation are one function given to the service. So is indexing.
- **Uploads** (`DocumentService`, module `Documents`). It checks the file name, then the size, writes the row, indexes the file, and records the number of chunks. The relational table is a list of row objects.

Python built-ins the services depend on are modelled in `PyStr`: slicing with a negative start, `str.replace`, the `in` test on strings, string `<`, `str(int)` and `reversed`. UUIDs and their canonical text are modelled in `Uuids`. The shared result and error types are in `Common`, and the settings in `Config`.

Methods that change state are proved against functions of the state they change, for example `Sessions.SessionService.Lookup`, `RedisStore.RedisClient.Stored` and `Documents.GetAllFiles`. The lemmas then state what the source promises about those functions.

## Model

| member | source | states |
|---|---|---|
| RedisStore.RedisClient.Connect | backend/src/db/redis.py:26-54 | The client is connected exactly when the server answers the ping; a failed ping raises. No stored data changes. |
| RedisStore.RedisClient.SetJson | backend/src/db/redis.py:90-98 | With a truthy ttl, the write is `SETEX`: the value is stored with that expiry, and a negative ttl is an error answered `False`. Otherwise the write is `SET`: the value is stored and any earlier expiry is dropped. Without a connection nothing changes and the answer is `False`. |
| RedisStore.RedisClient.GetJson | backend/src/db/redis.py:113-120 | The stored value when the key holds a value. `None` for a missing key, for a list key (the `WRONGTYPE` error is caught), and without a connection. |
| RedisStore.SetThenGet | backend/src/db/redis.py:91-116 | A successful `set_json` followed by `get_json` on the same key gives the value back; a failed one leaves what was there. |
| RedisStore.RedisClient.Delete | backend/src/db/redis.py:138-143 | `True` exactly when connected and the key existed; afterwards the key and its expiry are gone. Without a connection nothing changes. |
| RedisStore.RedisClient.Exists | backend/src/db/redis.py:161-165 | `True` exactly when connected and the key is present. |
| RedisStore.RedisClient.Expire | backend/src/db/redis.py:184-188 | Only an existing key is touched, and its value stays. A positive ttl becomes its expiry; a ttl of zero or less deletes it. Otherwise nothing changes and the answer is `False`. |
| RedisStore.RedisClient.ListPush | backend/src/db/redis.py:208-218 | The value goes to the head of the list, creating it when missing. A truthy ttl is then applied as `EXPIRE`, which deletes the key when negative. A key holding a value makes the call answer `False` and change nothing. |
| RedisStore.RedisClient.ListGetAll | backend/src/db/redis.py:236-243 | The list read back reversed; `[]` for a missing key, a value key, or without a connection. |
| RedisStore.RedisClient.ListTrim | backend/src/db/redis.py:262-267 | `LTRIM key 0 max_length-1`: the list keeps its first `LtrimKept` items, and a list trimmed to nothing is removed. A missing key is left alone. |
| RedisStore.RedisClient.Keys | backend/src/db/redis.py:285-289 | For a prefix pattern: every present key with that prefix, each once; `[]` without a connection. |
| RedisStore.RedisClient.Ttl | backend/src/services/session_service.py:223-225 | Redis `TTL` as the callers read it: -2 for a missing key, -1 for a persistent key or without a connection, the remaining seconds otherwise. |
| RedisStore.LtrimKeptByLength | backend/src/db/redis.py:263 | For `m >= 1`, `LTRIM 0 m-1` keeps `min(m, len)` items. For `m == 0` the stop index -1 keeps every item. |
| RedisStore.ReversedPrefix | backend/src/db/redis.py:237-239 | Reversing the first `n` items of a reversed list gives the last `n` items of the original. |
| RedisStore.TrimKeepsNewest | backend/src/db/redis.py:245-263 | After pushes, `list_trim(m)` with `m >= 1` followed by `list_get_all` gives the `m` most recently pushed values, in push order. |
| RedisStore.PushAllThenGetAll | backend/src/db/redis.py:208-263 | Pushing values one by one onto a fresh key and reading back gives them in push order; trimming to `m >= 1` first keeps exactly the newest `m`. |
| Sessions.Key | backend/src/services/session_service.py:34-50 | The key is `chat_session:` followed by exactly the session id. |
| Sessions.KeyInjective | backend/src/services/session_service.py:50 | Different ids have different keys. A session operation writes only its own key (see `Sessions.SessionService.AddMessagesToSession` and `Chat.ChatService.Chat`), so it leaves every other session as it was. |
| Sessions.KeyRoundTrip | backend/src/services/session_service.py:248 | `key.replace(prefix, "")` gives back an id that does not itself contain the prefix. |
| Sessions.UuidKeyRoundTrip | backend/src/services/session_service.py:65-66 | Every id `create_session` makes is of that kind, so the listing reports it under its own id. |
| Sessions.Window | backend/src/services/session_service.py:141-143 | For `m >= 1`: the last `min(m, n)` messages. For `m == 0`: all of them, since Python's `[-0:]` is the whole list. For `m < 0`: the list without its first `-m` messages. |
| Sessions.WindowIsSuffix | backend/src/services/session_service.py:141-143 | What a window keeps is a final run of what it was given. |
| Sessions.WindowAppend | backend/src/services/session_service.py:139-143 | Windowing after an append and again after the next gives what windowing once at the end gives. |
| Sessions.AfterBatchesKeepsNewest | backend/src/services/session_service.py:136-146 | A session that starts within the limit holds, after any number of appends, exactly the newest `max_messages` of all the messages it was given, in chronological order. |
| Sessions.Summary | backend/src/services/session_service.py:252-262 | An entry of the listing: `message_count` is the number of stored messages, `created_at` is as stored, and `last_message` is the final message, or `None` when there are none. |
| Sessions.SummaryOfNewSession | backend/src/services/session_service.py:69-75 | A session as `create_session` wrote it is listed under its own id, with 0 messages, its `created_at` and no last message. |
| Sessions.NewestFirstByTime | backend/src/services/session_service.py:266 | Among listed sessions whose millisecond timestamps have the same number of digits, an earlier entry was created no earlier. |
| Sessions.InsertNewestFirst | backend/src/services/session_service.py:266 | Placing an entry after those not older than it keeps the listing newest first, and adds exactly that entry. |
| Sessions.SortNewestFirst | backend/src/services/session_service.py:266 | `sort(key=created_at, reverse=True)` when nothing raises: newest first, and a permutation of its input. |
| Sessions.SessionService.Lookup | backend/src/services/session_service.py:104-106 | The session as the service sees it: what the store holds under its key, when that object is truthy. |
| Sessions.SessionService.CreateSession | backend/src/services/session_service.py:65-83 | On success the store holds `{session_id: id, messages: [], created_at: str(ms)}` under the key of `str(uuid)`, with expiry `SESSION_TIMEOUT`, and that id is returned. The write fails, raising `Failed to create session in Redis` and changing nothing, exactly when unconnected or the timeout is negative. |
| Sessions.SessionService.GetSessionHistory | backend/src/services/session_service.py:102-109 | Not-found exactly when there is no truthy session object; otherwise its `messages`, or `[]` when that field is missing. |
| Sessions.SessionService.AddMessagesToSession | backend/src/services/session_service.py:127-149 | An absent session raises not-found and nothing is created. Otherwise the session is rewritten with `messages` replaced by the window of old + new, the other fields kept, and the expiry renewed. A failed write raises `Failed to update session in Redis` and changes nothing. The bound on every session's length is preserved. |
| Sessions.SessionService.DeleteSession | backend/src/services/session_service.py:164-165 | `True` exactly when the key existed; afterwards the session cannot be found. With a connection, exactly that key and its expiry are removed; without one nothing changes. |
| Sessions.SessionService.SessionExists | backend/src/services/session_service.py:180-181 | `True` exactly when the key is present, whatever it holds; every readable session exists. |
| Sessions.SessionService.ExtendSessionTtl | backend/src/services/session_service.py:195-196 | `True` exactly when the key existed. The expiry becomes `SESSION_TIMEOUT` and every value stays; a timeout of zero or less removes exactly that key and its expiry. When the key is missing nothing changes. |
| Sessions.SessionService.GetSessionInfo | backend/src/services/session_service.py:212-226 | `None` exactly when there is no session. Otherwise the id, the number of messages, the stored `created_at` and the remaining ttl (-1 for none). The store is not changed. |
| Sessions.SessionService.CollectSummaries | backend/src/services/session_service.py:247-263 | One entry per listed key whose object is truthy, in the order the keys came. |
| Sessions.SessionTimesOut | backend/src/services/session_service.py:102-109 | Once a session's expiry runs out it cannot be read, `get_session_history` raises not-found and `session_exists` answers `False`. A session without an expiry is unaffected. |
| Sessions.SessionService.GetAllSessions | backend/src/services/session_service.py:242-271 | The entries of every present prefixed key, each key once. Sorting raises when there are two entries or more and one has no `created_at`, and then the answer is `[]`. Otherwise the answer is newest first and a permutation of the entries. |
| Chat.TurnKeepsChatRoles | backend/src/services/chat_service.py:76-80 | A history written only by chat turns holds only `user` and `assistant` messages, however it is trimmed. |
| Chat.ChatService.ResolveSession | backend/src/services/chat_service.py:58-70 | A missing or empty id creates a session, and so does an id whose history cannot be read; the history is the kept session's, `[]` for a new one. It fails, with `Failed to create session in Redis` and the store unchanged, exactly when a session must be created and the store refuses the write. A created session is the only key written, with the session expiry. |
| Chat.ChatService.AnswerTurn | backend/src/services/chat_service.py:72-84 | On a readable session: the query gets that session's history. A failed query propagates its error; with a negative expiry the append raises `Failed to update session in Redis`; either way the store is unchanged. On success the reply is built from the first answer and one label per passage, and only that session's key is rewritten, holding the windowed history plus the turn, with the session expiry. |
| Chat.ChatService.Chat | backend/src/services/chat_service.py:58-84 | A missing or empty id first creates a session, and an unreadable one is replaced by a new session with empty history. The query gets exactly the resolved history. The turn answers exactly when the store accepts writes and the pipeline gives at least one reply. Each failure is named: the creation error when a session cannot be created, the pipeline's error or `list index out of range` when the query fails, the update error when only the append is refused. A failing query leaves a created session in place and nothing else changed; a refused store is left as it was. On success the response's answer is the first reply and its sources are one label per passage; the session id is the one resolved; that session holds its history plus `[user question, assistant answer]`, windowed; no other key or expiry changes. |
| Chat.TwoTurns | backend/src/services/chat_service.py:76-80 | Two turns on one session that starts empty, with room for four messages, leave `[u1, a1, u2, a2]`. |
| Haystack.PgConnectionString | backend/src/services/haystack_service.py:96-100 | A missing URL gives `""`. A URL starting `postgresql+asyncpg://` gets `postgresql://` in its place; any other URL stays as it is. |
| Haystack.PgConnectionStringIdempotent | backend/src/services/haystack_service.py:96-100 | The result never starts with the asyncpg scheme, so rewriting it again changes nothing. |
| Haystack.Updated | backend/src/services/haystack_service.py:64 | `dict.update`: the keys of both, with `meta`'s values winning. |
| Haystack.UpdatedIdempotent | backend/src/services/haystack_service.py:64 | Updating twice with the same `meta` is updating once, so a document listed twice ends as if updated once. |
| Haystack.AddMetadata | backend/src/services/haystack_service.py:61-64 | A missing meta becomes `{}` and is then updated with `meta`. |
| Haystack.RunMetadataAdder | backend/src/services/haystack_service.py:59-65 | With a non-empty `meta`, every document's meta becomes its old meta (or `{}`) updated with `meta`. With `None` or `{}`, every document is untouched. The same list is returned. |
| Haystack.IndexMeta | backend/src/services/haystack_service.py:285-291 | The metadata an indexed file carries: `filename`, `document_id` as `str(uuid)`, and `source`. |
| Haystack.IdStrings | backend/src/services/haystack_service.py:328 | `[str(doc_id) for doc_id in document_ids]`, one per id, in input order. |
| Haystack.DocumentFilter | backend/src/services/haystack_service.py:325-329 | The field is `meta.document_id`, the operator `in`, and the value the id strings. |
| Haystack.FilterSelectsDocuments | backend/src/services/haystack_service.py:325-329 | A passage indexed for a document passes the filter of `ids` exactly when that document is one of the ids. |
| Haystack.ConvertMessage | backend/src/services/haystack_service.py:333-335 | The content is kept, and the role is the user's exactly when the stored role is `"user"`; every other role is the assistant's. |
| Haystack.ConvertHistory | backend/src/services/haystack_service.py:332-337 | One pipeline message per stored message, in order. |
| Haystack.ConvertHistoryFaithful | backend/src/services/haystack_service.py:332-337 | A history of `user` and `assistant` messages can be read back from its conversion unchanged. |
| Haystack.SourceLabel | backend/src/services/haystack_service.py:359-360 | A source label starts with the passage's `filename`, or with `Unknown` when it has none. |
| Haystack.BuildSources | backend/src/services/haystack_service.py:357-360 | One label per retrieved passage, in retrieval order, duplicates kept. |
| Haystack.Confidence | backend/src/services/haystack_service.py:391-392 | `Some(1.0)` exactly when the question occurs as a substring of some passage's content; no value otherwise, also when nothing was retrieved. |
| Haystack.AnyContainsIff | backend/src/services/haystack_service.py:391 | The left-to-right `any(question in content ...)` is true exactly when some passage holds an occurrence. |
| Haystack.HaystackService.Query | backend/src/services/haystack_service.py:324-369 | The pipeline gets the question, the filter, the converted history and the date. Its error propagates, and an empty reply list raises. Otherwise the answer is the first reply, sources are one label per passage, `retrieved_documents` is the number of passages, and the confidence is as above. |
| Haystack.HaystackService.ProcessDocument | backend/src/services/haystack_service.py:280-298 | Indexes the content with the file's metadata. It fails exactly when indexing fails; otherwise it reports the documents written and `success`. |
| Documents.MetadataOf | backend/src/services/document_service.py:61-70 | One metadata entry per row, each from its own row, in row order. |
| Documents.GetAllFiles | backend/src/services/document_service.py:56-70 | One entry per stored row, with the same id, filename, upload date, size and chunk count, in the same order. |
| Documents.DocumentService.UploadFile | backend/src/services/document_service.py:21-54 | A name not ending in `.pdf` (case-sensitive) is rejected before the size is looked at. More than `MAX_FILE_SIZE` bytes is rejected, and exactly that many are accepted. An indexing failure propagates and leaves the table as it was. Otherwise one new row is appended, holding the name, the content length and the number of documents indexed, and its metadata is returned. |
| Documents.UploadThenList | backend/src/services/document_service.py:21-70 | A successful upload adds exactly its own metadata to the end of the listing; a failed one leaves the listing as it was. |
| PyStr.PyTail | backend/src/services/session_service.py:143 | `s[i:]` for any integer `i` is a final run of `s`. |
| PyStr.PyTailLast | backend/src/services/session_service.py:143 | `s[-m:]` with `m >= 1` is the last `min(m, len(s))` items. |
| PyStr.ContainsIff | backend/src/services/haystack_service.py:391 | Python's `needle in hay` is true exactly when the needle occurs at some index. |
| PyStr.ReplaceFirstAbsent | backend/src/services/haystack_service.py:98-100 | `replace(pat, repl, 1)` leaves a string without `pat` as it is. |
| PyStr.RemoveAllAbsent | backend/src/services/session_service.py:248 | `replace(pat, "")` leaves a string without `pat` as it is. |
| PyStr.StripPrefix | backend/src/services/session_service.py:248 | Removing `pat` from `pat + rest`, when `rest` has no `pat`, gives `rest`. |
| PyStr.LexIrreflexive | backend/src/services/session_service.py:266 | No string sorts before itself. |
| PyStr.LexTransitive | backend/src/services/session_service.py:266 | String `<` is transitive. |
| PyStr.LexTotal | backend/src/services/session_service.py:266 | Of two different strings, one sorts before the other. |
| PyStr.DecimalOrder | backend/src/services/session_service.py:72-73 | `str(n)` texts of the same length compare as their numbers do. |
| PyStr.DecimalInjective | backend/src/services/session_service.py:72-73 | Different numbers have different `str(n)` texts. |
| Uuids.UuidString | backend/src/services/session_service.py:65 | `str(uuid)` is 36 characters, each a lowercase hex digit or a hyphen. |
| Uuids.UuidStringInjective | backend/src/services/haystack_service.py:288 | Different UUIDs have different strings, so `str(document_id)` identifies the document. |

## Left out

- I/O and nondeterminism become parameters:
  - `uuid.uuid4()` is `newId`, `firstId` or `healId`;
  - `datetime.now()` is `nowMillis` for `created_at`, and `currentDate` for the prompt;
  - the file read is `content`;
  - the database's id and `upload_date` are `newId` and `uploadDate`.
- Expiry by wall-clock time is not modelled. The server's dropping of an expired key is the separate step `RedisStore.RedisClient.TimeOut`, and `Sessions.SessionTimesOut` states what it does to a session.
- JSON serialisation is taken to be exact: the store keeps the value itself. JSON `null` values and non-string metadata values are not modelled, and neither is a document whose `content` is `None`.
- `keys` is modelled for the `prefix*` patterns the services use, not general glob patterns.
- `connect` is modelled by whether the server answers. `disconnect` is left out: it only closes connections and changes no stored data.
- Floating point is abstract: the `:.3f` score text is the function `formatScore`, and the confidence is an `Option` that holds 1.0.
- The prompt template, pipeline construction, embedding, pgvector retrieval, the generator, PDF conversion and splitting are foreign library code. They become the functions `pipeline` and `index`.
- The temporary file of `process_document` is left out.
- Concurrency (async/await, and the lost update between concurrent appends to one session) is not modelled.
- The HTTP routes, logging, and the application and database wiring are not modelled.
- `backend/src/core/config.py` supplies only constants. They are `Config.Settings`, with the defaults in `Config.Defaults`.
- Sessions.SortNewestFirst: it is proved to order and permute, but not to be stable, although the insertion it uses keeps equal keys in their first order.
- Sessions.SessionService.GetAllSessions: the listing's order is proved from the `created_at` strings. That string order is numeric order only between timestamps of equal width (`Sessions.NewestFirstByTime`).
- Documents.DocumentService.UploadFile: the `.get("documents_processed", 0)` default is unreachable here, because `process_document` always reports that field.
- Chat.ChatService.Chat: the session is taken not to expire between the steps of one turn, so the final append does not meet a missing session.
- Documents.GetAllFiles: the listing is taken to be in insertion order. `select(Document)` has no `ORDER BY`, so the database promises no order; `Documents.UploadThenList` relies on the same choice when it says the new row comes last.
- Haystack.SourceLabel: it follows `meta.get("filename", "Unknown")`, so an empty filename is kept as it is (not replaced by `Unknown`).

## Notes on the code

- `get_all_sessions` builds each entry with `"created_at": session_data.get("created_at")`. For a session without a timestamp that value is `None`, so the sort key `x.get("created_at", "")` is `None`, not `""`. With two entries or more, comparing it raises `TypeError`, which the `except` turns into `[]`. The model follows the code: `Sessions.SortRaises`.
- `add_messages_to_session` with `max_messages == 0` keeps every message, because `[-0:]` is the whole list. The window bound is therefore stated for `max_messages >= 1`.
