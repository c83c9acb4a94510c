# Voice call orchestration: a verified model

This project models the core of a voice-support service. The service places
outbound phone calls and answers the caller's speech with scripted or
retrieval-augmented replies. It keeps a registry of live calls and persists
session records in Redis. The model covers these parts:

- **Redis session store** (`RedisSession`). `RedisSessionManager` is a class
  over a value model of Redis. Redis is modelled as hashes per key, absolute
  expiry times, the server clock and whether the server answers. The model
  covers create, get, update, append-message, delete, exists and the scan of
  every session.
- **History encoding** (`Json`). The JSON text a conversation history is
  stored as, with a proved round trip. Decoding can fail, as
  `json.JSONDecodeError` does.
- **Web application registry** (`App`). `active_sessions` is the map field of
  a `CallRegistry` class. The make-call, speech, call-status and interrupt
  handlers mutate or read it, and so do the two read endpoints. The module
  also holds the scripted reply rule of `generate_ai_response_sync`.
- **Answer generation** (`Generator`). The context block, the history block
  and the fixed prompt, and the generator's answer-or-fallback rule. The
  language model is an oracle.
- **Pipeline** (`Pipeline`). Retrieve, then generate. Either stage is an
  oracle that may raise, and a raise becomes the pipeline's apology.
- **Retriever** (`Retriever`). Reshapes the vector store's query result into
  one record per document. It also covers the collection count.
- **Ingestion** (`Ingestion`). Word-window chunking with overlap, and the
  batch of documents, metadata records and ids that `ingest_documents` hands
  to the store.

Shared helpers live in `Text`: ASCII case mapping, substring search, `split`,
`join` and `str(n)`. The record types are in `Documents`.

Loops and mutation in the source are methods with loop invariants. Each is
proved equal to a specification function, and the lemmas are stated about
those functions. Store calls, the model, the telephony provider and the
clock are inputs: oracle functions or plain values.

## Model

| member | source | states |
|---|---|---|
| RedisSession.SessionManager.constructor | session/redis_manager.py:12-21 | the manager holds the given client and ttl (default 3600) |
| RedisSession.Lookup | session/redis_manager.py:44-71 | a session exists exactly when the server answers and the key holds fields that have not expired; the fields are returned without the history, and a history that fails to decode reads as empty |
| RedisSession.SessionManager.CreateSession | session/redis_manager.py:23-42 | on a reachable server, the fields are merged in with an empty encoded history and the expiry set; otherwise a connection error and no change |
| RedisSession.SessionManager.GetSession | session/redis_manager.py:44-71 | returns exactly `Lookup` of the current server |
| RedisSession.SessionManager.UpdateSession | session/redis_manager.py:73-96 | an empty update fails; otherwise every value is serialized (lists and dicts as JSON, the rest via `str`), merged, and the expiry refreshed |
| RedisSession.SessionManager.AddMessage | session/redis_manager.py:98-133 | on a reachable server the new state is the one-message append; a missing session is left alone |
| RedisSession.SessionManager.DeleteSession | session/redis_manager.py:135-149 | the key is deleted when the server answers; errors are swallowed |
| RedisSession.DeleteThenGet | session/redis_manager.py:135-149 | after a delete, `get_session` finds nothing and `session_exists` is false, and a second delete changes nothing |
| RedisSession.SessionManager.SessionExists | session/redis_manager.py:170-184 | true exactly when the server answers and the session key is live |
| RedisSession.SessionManager.GetAllSessions | session/redis_manager.py:151-168 | every scanned session key, with its leading `session:` removed (the corrected id, see Findings), maps to what `get_session` returns for that id |
| RedisSession.SessionsOfAdd | session/redis_manager.py:157-164 | one more scanned key adds its session exactly when `get_session` finds it |
| RedisSession.SessionKeyInjective | session/redis_manager.py:36 | distinct call ids get distinct `session:` keys |
| RedisSession.Refreshed | session/redis_manager.py:36-37 | HSET of non-empty fields followed by EXPIRE leaves the key live with those fields and expiring `ttl` seconds from now |
| RedisSession.CreateThenGet | session/redis_manager.py:23-71 | after `create_session`, `get_session` gives the supplied fields over the old ones and an empty history, expiring after `ttl`; a ttl of zero or less deletes the record |
| RedisSession.CreateOverExisting | session/redis_manager.py:23-42 | a second `create_session` keeps fields it does not name and resets the history |
| RedisSession.UpdateThenGet | session/redis_manager.py:73-96 | after `update_session`, every named field reads back serialized, unnamed fields survive, a list-valued history decodes back, and the expiry is refreshed |
| RedisSession.AppendedLive | session/redis_manager.py:115-128 | appending to a live session with a positive ttl stores the old history plus the message, keeps the other fields and refreshes the expiry |
| RedisSession.AppendThenGet | session/redis_manager.py:98-133 | `add_message` on a live session appends the message to the history and changes no other field; on a missing session it changes nothing |
| RedisSession.AppendsAccumulate | session/redis_manager.py:98-133 | a run of appends grows the history by exactly those messages, in order |
| RedisSession.HSetOther | session/redis_manager.py:36 | HSET on one key leaves every other key as it was |
| RedisSession.ExpireOther | session/redis_manager.py:37 | EXPIRE on one key leaves every other key as it was |
| RedisSession.DelOther | session/redis_manager.py:143 | DEL on one key leaves every other key as it was |
| RedisSession.OtherKeyUntouched | session/redis_manager.py:36-37 | HSET followed by EXPIRE on one key leaves every other key as it was |
| RedisSession.OthersUntouched | session/redis_manager.py:23-149 | create, update, append and delete on one call leave every other call's session as it was |
| RedisSession.ExpiresAfterTtl | session/redis_manager.py:12-37 | a created session that nobody touches is gone once `ttl` seconds have passed |
| RedisSession.AllSessionsExact | session/redis_manager.py:151-168 | with the id taken as the key minus its prefix, an id is listed exactly when `get_session` finds it, with the same value |
| RedisSession.LockKeysInvisible | session/redis_manager.py:109-113 | writing a `lock:session:` key never changes the scan result |
| RedisSession.AllSessionsAsWrittenMisses | session/redis_manager.py:161 | with `replace`, a session whose id contains `session:` is missing from the scan although `get_session` finds it |
| Json.DecodeEncode | session/redis_manager.py:122-126 | decoding the stored encoding of a history gives the history back |
| App.ClosingIffGoodbye | app.py:538-541 | the closing sentence is returned exactly when the lower-cased input contains a goodbye phrase |
| App.ReplyPriority | app.py:543-559 | without a goodbye phrase, the first keyword matched in the order help, weather, time, date, greeting picks the reply, and a greeting word with none of the earlier keywords gives the greeting reply |
| App.GenericQuotesInput | app.py:560-562 | when nothing matches, the reply contains the caller's words verbatim |
| App.GoodbyeExample | app.py:538-541 | "ok thank you bye" gets the closing sentence |
| App.NewSession | app.py:200-230 | the stored entry has the destination, the sender (the configured number when missing or empty), an empty history, the start time, and the initial message only when it is non-empty |
| App.CallRegistry.constructor | app.py:26 | the registry starts empty |
| App.CallRegistry.MakeCall | app.py:188-246 | 400 without a destination; 500 and no entry when the provider refuses; otherwise exactly one new entry under the provider's call id, and the call id, status, to and from are returned |
| App.CallRegistry.ProcessSpeech | app.py:249-347 | for a known call, the caller's turn and the reply's turn are appended in that order and nothing else changes; an unknown call still gets the reply with no entry created; a failed recording download or an unparsable confidence is a 500 with nothing recorded |
| App.CallRegistry.CallStatus | app.py:350-374 | a terminal status removes a known call's entry; anything else leaves the registry unchanged |
| App.CallRegistry.GetSession | app.py:113-119 | 404 exactly when the call is unknown, otherwise the stored entry |
| App.CallRegistry.GetSessions | app.py:96-111 | the count and one summary per active call with its start time and message count |
| App.CallRegistry.InterruptCall | app.py:605-630 | succeeds with the call id exactly when the call is known and the provider update succeeds; every failure, the unknown call included, is a 500 |
| Text.Lower | app.py:539 | `str.lower` keeps the length and lowers each ASCII letter |
| Text.Capitalize | rag/generator.py:107 | `str.capitalize` keeps the length, upper-cases the first character and lowers the rest |
| Text.WordsAreWords | rag/ingestion.py:37 | every word `str.split()` yields is non-empty and holds no whitespace |
| Text.WordsOfJoin | rag/ingestion.py:37-41 | splitting a space-join of words gives the words back |
| Text.Decimal | rag/ingestion.py:77 | `str(n)`: non-empty, all digits, no leading zero |
| Text.DecimalInjective | rag/ingestion.py:77 | distinct numbers render to distinct digit strings |
| Generator.ContextLines | rag/generator.py:84-85 | line `k` is `k+1`, a dot and a space, then document `k`'s content |
| Generator.BuildContext | rag/generator.py:70-87 | the loop's result equals the context block: the placeholder for no documents, else the numbered lines joined by newlines |
| Generator.NumberedLineOneLine | rag/generator.py:85 | a numbered line of single-line content has no newline |
| Generator.ContextRecoverable | rag/generator.py:70-87 | with single-line contents, splitting the block on newlines gives back one numbered line per document, in order |
| Generator.NoContextIffEmpty | rag/generator.py:80-81 | the placeholder appears exactly when no documents were retrieved |
| Generator.Recent | rag/generator.py:102 | `history[-5:]`: the last `min(5, n)` messages |
| Generator.HistoryLines | rag/generator.py:102-107 | line `k` renders message `k` |
| Generator.FormatHistory | rag/generator.py:89-109 | the loop's result equals the history block: the placeholder for none, else the recent messages rendered and joined |
| Generator.OnlyRecentMatter | rag/generator.py:101-102 | messages older than the latest five never change the block |
| Generator.RecentOfAppend | rag/generator.py:102 | messages put in front of five or more change nothing in `history[-5:]` |
| Generator.HistoryRecoverable | rag/generator.py:89-109 | with single-line messages the block splits into exactly the renderings of the latest `min(5, n)` messages, in order |
| Generator.GetAbsent | rag/generator.py:104-105 | `dict.get` of a missing key gives the default |
| Generator.CapitalizedUser | rag/generator.py:104-107 | the default role renders as `User` |
| Generator.DefaultRole | rag/generator.py:104-107 | a message without a role is shown as `User`, a colon and a space, and its content |
| Generator.DefaultContent | rag/generator.py:105-107 | a message without content shows nothing after the colon |
| Generator.LangInstruction | rag/generator.py:130-133 | the Hindi line exactly for `hi-IN`, English for every other code |
| Generator.CreatePrompt | rag/generator.py:111-155 | the prompt starts with the preamble, then holds the context, the history heading and history, the query heading and query, and the instructions, each at its offset and with nothing in between |
| Generator.Fallback | rag/generator.py:157-171 | never empty; Hindi exactly for `hi-IN`, English otherwise |
| Generator.GenerateResponse | rag/generator.py:27-68 | the language defaults to `en`; never empty: the model's text when it gave a non-empty one, the fallback when it raised or gave nothing |
| Generator.ModelSeesQuery | rag/generator.py:47-57 | the prompt sent to the model holds the query verbatim after the context and history, and the context right after the preamble |
| Retriever.Retrieve | rag/retriever.py:26-57 | the loop's result equals `Reshape`: one record per document of the first row, or nothing when the query or any row read raises |
| Retriever.ReshapeAllOrNothing | rag/retriever.py:40-57 | the result is either empty or has exactly one record per document, each with that document's text |
| Retriever.ReshapeKeepsEverything | rag/retriever.py:43-52 | a readable result loses no document; absent metadata reads as `{}` and absent distances as `0.0` |
| Retriever.ShortMetadataLosesAll | rag/retriever.py:46-57 | a metadata row shorter than the documents row empties the whole result |
| Retriever.CollectionCount | rag/retriever.py:59-70 | the store's count, or 0 when counting raises |
| Pipeline.Apology | rag/pipeline.py:64-71 | never empty; Hindi exactly for `hi-IN`, English otherwise |
| Pipeline.ProcessQuery | rag/pipeline.py:24-71 | the generator's answer passed through unchanged, or the apology when either stage raises |
| Pipeline.ProcessQueryNonEmpty | rag/pipeline.py:24-71 | unless the generator answers with an empty text, the pipeline's answer is never empty |
| Pipeline.ProcessQueryDefaults | rag/pipeline.py:24-30 | the defaults are English and five documents |
| Pipeline.RealStagesNeverApologise | rag/pipeline.py:40-62 | with the real retriever and generator the apology never appears: the answer is the generator's for the reshaped documents, and it is never empty |
| Ingestion.ChunkText | rag/ingestion.py:25-45 | the loop's result equals `Chunks`: a zero stride raises, a negative stride gives no chunks, otherwise the non-empty joined windows at every stride start |
| Ingestion.StridedChunks | rag/ingestion.py:40-43 | the strided loop keeps the invariant that its chunks so far followed by the chunks from the current start are all the chunks |
| Ingestion.ChunkNonEmpty | rag/ingestion.py:40-43 | with a positive size the window is the plain slice `words[i:i+size]`, and one that starts inside the text is never empty, so the `if chunk` test never drops one |
| Ingestion.ChunksArePieces | rag/ingestion.py:40-43 | with a positive size the loop emits exactly one chunk per stride start, the join of that start's window |
| Ingestion.StrideIsProduct | rag/ingestion.py:40 | the `k`-th start of `range(0, n, step)`, `Stride(k, step)`, is `k * step` |
| Ingestion.StrideOfBounds | rag/ingestion.py:40 | `StrideOf(j, step)` picks the last stride start at or before `j`: `Stride(k) <= j < Stride(k) + step` |
| Ingestion.StrideOfIsQuotient | rag/ingestion.py:40 | `StrideOf(j, step)` is the quotient `j / step`: `k*step <= j < k*step + step` |
| Ingestion.PieceAt | rag/ingestion.py:40-41 | chunk `k` is the join of the window starting at word `Stride(k, step)`, and that start lies inside the text |
| Ingestion.PiecesCount | rag/ingestion.py:40 | the number of chunks is the ceiling of the remaining words over the stride: `c` strides cover them and `c - 1` do not |
| Ingestion.SpanWords | rag/ingestion.py:37-41 | splitting the join of a window gives the window back, between 1 and `size` words |
| Ingestion.PieceWords | rag/ingestion.py:37-41 | chunk `k` splits back into the words of its window |
| Ingestion.PiecesOverlap | rag/ingestion.py:40-41 | a full window ends with exactly the `size - step` words the next one starts with |
| Ingestion.StrideOfInRange | rag/ingestion.py:40 | for every word `j` the chunk `StrideOf(j, step)` exists |
| Ingestion.PiecesCover | rag/ingestion.py:40-41 | word `j` is word `j - Stride(k)` of chunk `k = StrideOf(j, step)` |
| Ingestion.ChunksOfText | rag/ingestion.py:37-40 | with `0 <= overlap < size` the chunks of a text are the windows of its words, and those words are whitespace-free and non-empty |
| Ingestion.ChunkClosedForm | rag/ingestion.py:25-45 | with `0 <= overlap < size`, chunk `k` is the space-join of words `Stride(k, step)` to `Stride(k, step) + size` (that is `k*step` onwards), splits back into them, and holds between 1 and `size` words |
| Ingestion.ChunkCount | rag/ingestion.py:25-45 | chunking succeeds, an empty text gives no chunks, and the count `c` of chunks for `n` words satisfies `n <= Stride(c, step) < n + step`, that is `c = ceil(n / step)` |
| Ingestion.ChunkOverlap | rag/ingestion.py:25-45 | a full chunk ends with exactly the `overlap` words the next chunk starts with |
| Ingestion.EveryWordCovered | rag/ingestion.py:25-45 | no word is lost: word `j` is word `j - Stride(k, step)` of chunk `k = StrideOf(j, step)`, the quotient `j / step` |
| Ingestion.ChunkBatch | rag/ingestion.py:69-77 | one document, metadata record and id per chunk; chunk `i` gets id `<stem>_<i>` and metadata naming its source, number, total and file name |
| Ingestion.ChunkIdInjective | rag/ingestion.py:77 | within one file, two chunk ids are equal exactly when their chunk numbers are |
| Ingestion.ChunkBatchIdsDistinct | rag/ingestion.py:69-77 | no two chunks of one file share an id |
| Ingestion.BatchOf | rag/ingestion.py:63-82 | the three lists stay parallel over all files |
| Ingestion.SameStemCollides | rag/ingestion.py:64-77 | two files with the same stem in different directories give a batch with a repeated id |
| Ingestion.AddChunks | rag/ingestion.py:69-77 | the inner loop appends exactly the file's chunk batch to the lists |
| Ingestion.IngestDocuments | rag/ingestion.py:47-95 | nothing is written when the directory is missing; otherwise the batch over all files, in walking order, is written exactly when it is non-empty |

## Left out

- Twilio: placing the call, updating it, the TwiML documents and the
  answering-machine options are not modelled. Their outcome (`Placement`,
  `updateError`) is an input.
- Audio: recording download, text-to-speech and playback are not modelled.
  `ProcessSpeech` takes a flag saying whether the recording could be
  fetched.
- The clock: `datetime.now()` is an input `Clock` carrying its three
  formatted readings. The formatting itself is not modelled.
- `float(Confidence)` is an input `Option<real>`. `None` stands for a field
  that does not parse, which raises outside the handler's `try`.
- The Redis lock in `add_message`: the read-append-write is taken as one
  atomic step. Concurrency and lock timeouts are not modelled.
- Async I/O, connection pools and logging are not modelled. A store error is
  the single `up` flag of the Redis value.
- Json: the encoding writes no whitespace and escapes only `"` and `\`.
  `json.dumps` writes `", "` and `": "` and escapes non-ASCII. Only the
  round trip is claimed, not byte equality with `json.dumps`.
- Text: `lower`, `capitalize` and `split` are modelled for ASCII only.
  `split` treats space, `\t`, `\n`, `\v`, `\f`, `\r` and `\x1c` to `\x1f` as
  whitespace. Unicode case mapping and non-ASCII whitespace such as
  `\x85` and `\xa0` are not modelled.
- Chroma and Gemini internals are oracles. The similarity search, the
  embedding and the model's text are inputs.
- `generate_response`: a document without a `content` key and a non-string
  role raise inside its `try`, which falls back. The model's documents
  always carry content, and its roles are strings, so those paths are not
  modelled.
- `clear_collection` is not modelled.
- The directory walk (`rglob`) and `read_text` are inputs: `IngestDocuments`
  takes the files in walking order, with `None` for a file that could not
  be read.
- A failing `collection.add` is not modelled: it is logged and swallowed,
  with nothing returned.
- RedisSession.Lookup: a stored history is read with the model's own JSON
  encoding. Text that decodes with it gives that history and any other
  text gives the empty history. Text that is valid JSON but not a message
  list is also read as empty: a number such as `5` (stored by
  `UpdateSession` with `Int(5)`), an object, a string, or `json.dumps`
  output with spaces after separators. `get_session` returns the parsed
  JSON value in those cases.
- RedisSession.SessionManager.AddMessage: for a stored number, object or
  string the source's `history.append` raises `AttributeError` at
  session/redis_manager.py:120, re-raised at :133, and the store is left
  unchanged. For a list written by `json.dumps` with spaces the source
  appends to that list. In both cases the model appends to the empty
  history, writes it back and returns `Pass`.
- RedisSession.SessionManager.GetAllSessions: it lists sessions under the
  id with only the leading `session:` removed, the corrected behaviour.
  `key.replace("session:", "")` as written at session/redis_manager.py:161
  is modelled separately as `AllSessionsAsWritten` (see Findings).
- RedisSession.SessionManager.CreateSession: `create_session` also writes
  the encoded empty history into the caller's own `session_data` dict
  (session/redis_manager.py:33). The model takes the fields as a value, so
  that aliasing effect on the caller's dict is not modelled.
- RedisSession.SessionManager.UpdateSession: its values (`UpdateValue`)
  are strings, integers, booleans, `None`, lists and dicts. Floats and
  other values that `str()` serialises are not modelled.
- App.CallRegistry.ProcessSpeech: both turns are stamped with the one
  `Clock` reading passed in. The source reads `datetime.now()` separately
  for the caller's turn (app.py:295) and for the reply (app.py:310), so
  their timestamps may differ.
- `App.NewSession`: the initial message is stored but never read by any
  handler, so no property is stated about its use.
- Ingestion.ChunkCount: the count is stated as the ceiling inequalities
  `n <= Stride(c, step) < n + step`, with `Stride(c, step) == c*step` proved
  separately, rather than as a closed division formula.
- The commented-out WebSocket streaming handler, `outbound_call_twiml`,
  `generate_tts` and `play_audio_on_call` are not modelled. They are
  telephony and audio I/O.

## Findings

| source | as written | input that shows it | evidently intended | confidence | as-written member | corrected member |
|---|---|---|---|---|---|---|
| session/redis_manager.py:161 | `key.replace("session:", "")` removes every occurrence of the prefix, not only the leading one | a session stored under call id `session:x` (key `session:session:x`) is listed under `x`, whose `get_session` finds nothing, so the session is dropped from the result | strip only the leading `session:` so the scan lists every session `get_session` finds | not executed | RedisSession.AllSessionsAsWrittenMisses | RedisSession.AllSessionsExact |
