# The chat pipeline of mylittlelawyer, in Dafny

This project models the per-connection chat pipeline of the `chat` app of a Django
service: the WebSocket `ChatConsumer`, the Mongo `chats` and `messages` collections
behind it, the Django REST framework serializers that validate and shape messages and
chats, and the client of the AI gateway.

- `wrappers.dfy`: `Option` and `Result`.
- `values.dfy` (module `Values`): Python values as a datatype (`None`, bools, ints,
  strings, lists, dicts, ObjectIds, UUIDs, datetimes, and opaque objects that `json.dumps`
  cannot encode). A dict is an association list that keeps insertion order. The module
  also gives Python's truth value and `str()`, the text of an ObjectId and its parse,
  `str.strip()`, and what `json.dumps` can encode.
- `constants.dfy` (module `Constants`): the literal field names, codes and path pieces.
- `serializers.dfy` (module `Serializers`): `MessageSerializer` (the `role` and `content`
  CharFields, `validate_role`, `create`, `to_representation`) and `ChatSerializer`
  (`create`, and `update`, which changes its instance in place).
- `data.dfy` (module `Data`): `create_message_document`, the collections as classes over
  sequences of stored documents (`insert_one` with a store-made ObjectId, the
  `find().sort()` query), `insert_message`, `get_chat_history`, `create_chat` and
  `upload_response_file`.
- `fastapi_client.dfy` (module `FastApiClient`): `ErrorResponse`, the request payload, the
  mapping from what the POST did to what the caller gets, and Python's binding of keyword
  arguments to `send_chat_request`.
- `consumers.dfy` (module `Consumers`): `_parse_json`, `_send_json`, `_resolve_chat_id`,
  `connect` and `receive`.

The behaviour of `connect` and `receive` is stated twice:

- as functions from the connection's state before a frame to its state after
  (`ConnectSpec`, `ReceiveSpec`). The state is the chat id, the two collections, the
  frames sent and the requests posted. The properties are proved about these functions.
- as the class `ChatConsumer`, whose methods update `chat_id`, the collections, the sent
  frames and the posted requests step by step. Each method is proved to end in exactly
  the state the function gives.

The clock, `uuid4`, the store's failures, the fresh ObjectIds and the gateway's answer
are parameters: `ConnectOracle` and `FrameOracle` carry them. `json.loads` is given by
what it produced (`Decoded`).

The message store holds one invariant: every stored document has an `_id` and no two
share one. This is what Mongo's unique `_id` index guarantees. The specification
functions assume it, and the collection classes keep it as their `Valid()`.

## Model

| member | source | states |
|---|---|---|
| `Values.ObjectIdRoundTrip` | chat/data.py:103 | `ObjectId(str(oid))` gives back `oid`: the 24 hex digits of an ObjectId parse to the same id |
| `Values.ObjectIdTextInjective` | chat/data.py:84 | two ObjectIds with the same text are the same id, so the history's string ids still tell messages apart |
| `Values.StrRepr` | chat/consumers.py:137 | `repr` of a str, as `str()` of a list or dict shows its strings: one kind of quote at both ends, double quotes exactly when the text holds a single quote and no double quote, and no control character left raw |
| `Values.StrReprKeepsText` | chat/consumers.py:137 | every character of the text that is not a control character appears in its `repr` |
| `Values.StrReprPlain` | chat/consumers.py:137 | text without control characters, single quotes or backslashes is shown as itself between single quotes |
| `Values.ReprOfQuotedText` | chat/consumers.py:137 | `str(["a'b"])` is `["a'b"]` |
| `Values.ReprOfNewline` | chat/consumers.py:137 | `str(["a\nb"])` shows the newline as backslash and `n` |
| `Values.StripIsTrimmedSlice` | chat/serializers.py:44-45 | the trimmed text is a slice of the input with only whitespace cut off either end |
| `FastApiClient.ErrorResponseIsFailure` | chat/fastapi_client.py:22-30 | an ErrorResponse has status 500, which is not 200; its text is the error message; its `json()` is `{"error": text}` |
| `FastApiClient.Response.Json` | chat/fastapi_client.py:29-30 | an ErrorResponse's JSON is `{"error": text}`; an httpx response's JSON is its parsed body, and JSONDecodeError exactly when the body is not JSON |
| `FastApiClient.BuildPayload` | chat/fastapi_client.py:56-61 | the payload has exactly the keys session_id, message, chat_history and refresh_index, in that order; each holds its argument, except that a falsy history is None |
| `FastApiClient.PayloadHistory` | chat/fastapi_client.py:59 | an empty or missing history reaches the gateway as None, and a non-empty one unchanged |
| `FastApiClient.SendChatRequest` | chat/fastapi_client.py:63-68 | the call raises exactly when the payload cannot be encoded or the POST raised something other than a RequestError; a RequestError becomes an ErrorResponse with status 500; a delivered answer is returned as it came: its status, its text and its parsed JSON |
| `FastApiClient.FirstUnexpected` | chat/fastapi_client.py:37-43 | finds a keyword that names no parameter exactly when there is one |
| `FastApiClient.MissingArguments` | chat/fastapi_client.py:37-43 | lists exactly the parameters without a default that no keyword supplies |
| `FastApiClient.MissingMessageAndSession` | chat/fastapi_client.py:37-43 | a call with only `endpoint` is refused with the TypeError that names `message` and `session_id` as missing |
| `FastApiClient.BindSendChatRequest` | chat/fastapi_client.py:37-43 | a call binds exactly when every keyword names a parameter and endpoint, message and session_id are all supplied |
| `FastApiClient.ConsumerCallRaises` | chat/consumers.py:75-80 | the consumer's call raises TypeError for the unexpected keyword `new_message` |
| `FastApiClient.CorrectedCallBinds` | chat/fastapi_client.py:37-43 | the call with `message` and `session_id` binds, with refresh_index left at its default False |
| `Serializers.RunCharField` | chat/serializers.py:44-45 | a CharField accepts exactly a defaulted absent value or a string or int that strips to non-blank text within the maximum length and without NUL; the accepted text is the stripped one; null and a missing required value are refused with their own messages |
| `Serializers.RunTextValidators` | chat/serializers.py:44-45 | the stripped text is accepted exactly when it is within the maximum length and has no NUL; a refusal carries the max-length message exactly when the text is too long and the NUL message exactly when it holds one |
| `Serializers.ValidatorMessages` | chat/serializers.py:44-45 | the max-length and NUL validators each add their message exactly when they refuse, and nothing is added for acceptable text |
| `Serializers.ValidateRole` | chat/serializers.py:49-52 | a role passes exactly when it is "user" or "chatbot", and comes back unchanged; anything else fails with "Invalid role" |
| `Serializers.RoleField` | chat/serializers.py:44 | an accepted role is "user" or "chatbot", and is the stripped `str()` of the role sent, or "user" when no role was sent; a refused one has at least one message |
| `Serializers.RoleFieldIff` | chat/serializers.py:44-52 | the role is accepted exactly when it is absent or strips to one of the two choices |
| `Serializers.RoleChoiceAcceptable` | chat/serializers.py:44 | a value that strips to a role choice meets the 16-character CharField |
| `Serializers.RoleDefaultsToUser` | chat/serializers.py:44 | a payload without `role` validates with role "user" |
| `Serializers.ContentField` | chat/serializers.py:45 | accepted content was sent, is the stripped `str()` of what was sent, and has between 1 and 1000 characters |
| `Serializers.ContentIsStripped` | chat/serializers.py:45 | the validated content is the given text with surrounding whitespace removed |
| `Serializers.CleanTextPasses` | chat/serializers.py:44-45 | text that is non-empty, has no surrounding whitespace, fits the length and holds no NUL passes unchanged |
| `Serializers.ValidateMessage` | chat/serializers.py:42-52 | validated data has exactly the keys role and content, in that order, holding the two fields' accepted values, the role a choice and the content 1 to 1000 characters; errors are a non-empty, encodable dict that has `role` exactly when the role is refused and `content` exactly when the content is, each with that field's messages |
| `Serializers.ValidatedDataFromFields` | chat/serializers.py:42-52 | validated data is exactly the list role, then content, holding the values the two fields accepted |
| `Serializers.ErrorDict` | chat/serializers.py:44-45 | the errors dict has a `role` key exactly when the role was refused and a `content` key exactly when the content was, each holding that field's messages, and json can encode it |
| `Serializers.ValidateMessageIff` | chat/serializers.py:44-52 | a payload validates exactly when its role is absent or a choice after stripping and its content is present and acceptable |
| `Serializers.CleanMessageValidatesAsIs` | chat/serializers.py:44-52 | a payload with a role choice and clean content validates to itself |
| `Serializers.CreateMessageRecord` | chat/serializers.py:54-59 | `id` (a fresh UUID) and `created_at` (now) are added only where missing; every given key keeps its value and no key is lost |
| `Serializers.CreateMessageRecordIdempotent` | chat/serializers.py:54-59 | creating from a created record changes nothing |
| `Serializers.ToRepresentation` | chat/serializers.py:61-70 | a dict is represented with the same keys, a UUID `id` as its text, a datetime `created_at` as its isoformat, every other key unchanged; any other instance raises AttributeError |
| `Serializers.IdAsText` | chat/serializers.py:65-66 | only `id` changes, to its text when it is a UUID, and keys keep their order |
| `Serializers.CreatedAtAsText` | chat/serializers.py:67-68 | only `created_at` changes, to its isoformat when it is a datetime, and keys keep their order |
| `Serializers.RepresentCreatedRecord` | chat/serializers.py:54-69 | a created record is represented with the fresh id's text, the clock's isoformat, and its role and content untouched |
| `Serializers.ToRepresentationIdempotent` | chat/serializers.py:61-69 | representing a representation changes nothing |
| `Serializers.CreateChatRecord` | chat/serializers.py:19-28 | defaults (a fresh UUID id, title "", status "draft", one `now` for both timestamps) fill only the missing keys; given values are never overwritten and no other key appears |
| `Serializers.NewChatTimestampsAgree` | chat/serializers.py:25-27 | a new chat without timestamps gets equal `created_at` and `updated_at` |
| `Serializers.MergeChat` | chat/serializers.py:33-34 | after the update every key holds the new value where one was given and the old one otherwise, and `updated_at` is now |
| `Serializers.UpdateChat` | chat/serializers.py:30-36 | a dict instance is merged in place and the same instance is returned; anything else raises TypeError and is left unchanged |
| `Data.CreateMessageDocument` | chat/data.py:52-59 | the document has exactly chat_id (as text), role, content and created_at, in that order; role and content are copied or None |
| `Data.StoredForm` | chat/data.py:65 | the stored document has the inserted `_id` and otherwise the fields of the given one |
| `Data.InsertOne` | chat/data.py:62-67 | `insert_one` succeeds exactly when the store is reachable and the id is new; then it appends exactly one document and returns its id (the document's own, else a fresh ObjectId); on failure nothing changes |
| `Data.InsertKeepsStoreInvariant` | chat/data.py:62-67 | inserting keeps every stored document identified, and no two with the same `_id` |
| `Data.MessageCollection.InsertMessage` | chat/data.py:62-67 | the collection and the returned id are those of one `insert_one` |
| `Data.InsertSorted` | chat/data.py:78 | inserting into a sorted sequence keeps it sorted by `created_at` and adds exactly that document |
| `Data.SortByCreatedAt` | chat/data.py:78 | the result is ascending by `created_at` in Mongo's order and a permutation of the input |
| `Data.KeyLeTotal` | chat/data.py:78 | any two `created_at` values are comparable in the sort order |
| `Data.KeyLe` | chat/data.py:78 | a missing or null `created_at` may sort before anything, and a key only sorts before keys of the same or a higher type rank |
| `Data.KeyLeRefl` | chat/data.py:78 | the sort order is reflexive |
| `Data.KeyLeTrans` | chat/data.py:78 | the sort order is transitive |
| `Data.Find` | chat/data.py:73-75 | the query returns exactly the stored documents of the chat, minus the excluded id when that id is truthy |
| `Data.MatchesQuery` | chat/data.py:73-75 | a match has the chat's id; with a truthy exclusion the excluded `_id` never matches; without one, matching is having the chat's id |
| `Data.FalsyExcludeKeepsAll` | chat/data.py:74-75 | a falsy exclusion id excludes nothing |
| `Data.HistoryRecord` | chat/data.py:84-85 | a record has `_id` as text and no response_file_url; every other field is the message's |
| `Data.History` | chat/data.py:70-87 | the history has one record per matching message |
| `Data.HistoryIsTheChatsMessages` | chat/data.py:73-87 | every record is the record of a stored message of the chat that passes the exclusion, and every such message has its record in the history |
| `Data.HistoryRecordsShape` | chat/data.py:73-87 | every record has `chat_id` equal to the text of the asked chat id, a text `_id` and no response_file_url |
| `Data.HistorySorted` | chat/data.py:78 | the history is non-decreasing by `created_at` |
| `Data.HistoryExcludesMessage` | chat/data.py:74-75 | when the stored ids are ObjectIds, no record carries the text of the excluded id |
| `Data.MessageCollection.GetChatHistory` | chat/data.py:70-87 | the loop over the sorted query result builds exactly the history, and the collection is not changed |
| `Data.CopyHistory` | chat/data.py:82-87 | the loop gives one record per queried message, in query order, each that message with `_id` as text and no response_file_url |
| `Data.HistoryRecords` | chat/data.py:73-87 | the history has one record per message the sorted query returns, each that message's record |
| `Data.UserId` | chat/data.py:33 | the user id is `str(user.id)` exactly for an authenticated user, else None |
| `Data.ChatDocument` | chat/data.py:35-42 | the chat document has exactly `_id`, user, title, status, created_at and updated_at, in order, each holding its value |
| `Data.ChatDocumentStoredAsIs` | chat/data.py:43-45 | the store keeps the chat document exactly as built, so the returned document is the stored one |
| `Data.ChatCollection.CreateChat` | chat/data.py:29-45 | it succeeds exactly when the store is reachable and the fresh id is new; then exactly the chat document is appended and returned; on failure the collection is unchanged |
| `Data.ResponseFileName` | chat/data.py:93-94 | a dict with `filename` names the file; anything else gets `response.pdf` |
| `Data.UploadPathSegments` | chat/data.py:97 | the path splits at its slashes into chat, the chat id, messages, the message id's text and `response_` plus the file name |
| `Data.UploadPath` | chat/data.py:97 | the path starts in the chat's folder `chat/{chat_id}/` and ends with `/response_` and the file name |
| `Data.SetFileUrl` | chat/data.py:104-106 | the first document with the id gets the URL; no other document and no other field changes |
| `Data.SetFileUrlKeepsStoreInvariant` | chat/data.py:104-106 | recording a URL keeps the store's ids |
| `Data.UploadEffect` | chat/data.py:90-109 | the storage path is the one built from chat, message and file name; the collection keeps its size and every field except response_file_url; it changes only after an upload that succeeded |
| `Data.UploadByIdText` | chat/data.py:103 | the message id given as text reaches the same path and document as the ObjectId itself |
| `Data.UploadRecordsUrl` | chat/data.py:96-106 | a completed upload records the URL on exactly the named message and leaves every other message unchanged |
| `Data.MessageCollection.UploadResponseFile` | chat/data.py:90-109 | the method's path and new collection are those of UploadEffect; no failure escapes |
| `Consumers.ParseJson` | chat/consumers.py:126-132 | exactly one of payload and error is set: a JSON object is the payload, other JSON is invalid_payload, undecodable text is invalid_json |
| `Consumers.NormalizeFrame` | chat/consumers.py:119-124 | a frame whose message is a dict with `_id` gets that `_id` as text and nothing else changes; any other frame is sent as it is |
| `Consumers.NormalizeFrameIdempotent` | chat/consumers.py:119-124 | normalising twice is normalising once |
| `Consumers.NormalizeObjectId` | chat/consumers.py:121-122 | a message ObjectId goes out as its 24 hex digits |
| `Consumers.Send` | chat/consumers.py:119-124 | a frame is sent exactly when its normalised form can be encoded, and then only the frames change; otherwise TypeError and nothing changes |
| `Consumers.SendErrorFrame` | chat/consumers.py:119-124 | an errors frame with encodable content is sent as it is |
| `Consumers.SendGrowth` | chat/consumers.py:119-124 | sending adds at most one frame at the end and changes nothing else |
| `Consumers.Resolve` | chat/consumers.py:134-144 | a truthy payload chat id wins, becomes the connection's and is written back; else the connection's id is used and written back; else a fresh id is used for this frame only; no other payload key changes |
| `Consumers.NamedChatIsRemembered` | chat/consumers.py:136-143 | after a frame names a chat, a later frame without one is filed under it |
| `Consumers.FreshIdIsNotRemembered` | chat/consumers.py:144 | without a chat on the connection, two frames without chat ids get their own fresh ids |
| `Consumers.ValidationIgnoresChatId` | chat/consumers.py:53-54 | writing the chat id into the payload does not change how it validates |
| `Consumers.ResolvedPayloadValidates` | chat/consumers.py:53-55 | validating the resolved payload gives the verdict on the payload as received |
| `Consumers.SendChatCreated` | chat/consumers.py:39-42 | the chat.created frame goes out as it is |
| `Consumers.ConnectOutcome` | chat/consumers.py:33-45 | connect never raises; on success it stores exactly the new chat, adopts its id and sends chat.created; on failure it stores nothing, keeps the chat id and sends chat_init_failed; messages and requests never change |
| `Consumers.ConnectSpec` | chat/consumers.py:33-45 | connect never raises, sends exactly one frame, stores no message and posts nothing, and leaves the chat id as it was or sets it to the fresh id |
| `Consumers.HistoryValue` | chat/consumers.py:71 | an empty history becomes None, else a list of the records in order |
| `Consumers.ReceiveGrowth` | chat/consumers.py:47-111 | a frame changes no chat and appends at most two messages, one request and one frame |
| `Consumers.ReceiveKeepsStore` | chat/consumers.py:47-111 | a frame keeps the store's ids present and unique, and ObjectIds if they were |
| `Consumers.ReceiveSpec` | chat/consumers.py:47-57 | a frame changes no chat; a frame that is not a JSON object changes neither the chat id, nor the messages, nor the requests |
| `Consumers.PersistAndAsk` | chat/consumers.py:60-71 | the chat id and chats stay; a failed insert of the user's message stores and posts nothing; a request is posted only if the insert and the history fetch succeeded |
| `Consumers.Ask` | chat/consumers.py:75-80 | the chat id and chats stay; a POST that raises something other than a RequestError raises and stores or sends nothing; a reply is stored only if the POST delivered an answer |
| `Consumers.Answer` | chat/consumers.py:82-111 | the chat id, chats and requests stay; a reply is stored only for a 200 answer whose JSON is an object |
| `Consumers.PersistAndAskGrowth` | chat/consumers.py:60-111 | storing and asking keeps the chat id and chats, appends at most two messages, one request and one frame, and after the user's insert at most one more message |
| `Consumers.AskGrowth` | chat/consumers.py:75-111 | asking keeps the chat id and chats and appends at most one request, one message and one frame |
| `Consumers.AnswerGrowth` | chat/consumers.py:82-111 | the answer stage changes no chat id, chat or request and appends at most one message and one frame |
| `Consumers.ParseFailureOnlyReports` | chat/consumers.py:49-51 | text that is not a JSON object yields exactly one invalid_json or invalid_payload frame and nothing else |
| `Consumers.InvalidPayloadOnlyReports` | chat/consumers.py:53-57 | an invalid payload yields exactly one frame with the validation errors; nothing is stored or posted, but the chat id was already adopted |
| `Consumers.InboundInsertFailureOnlyReports` | chat/consumers.py:60-65 | a failed insert of the user's message yields exactly one message_insert_failed frame and no request |
| `Consumers.InsertKeepsObjectIds` | chat/consumers.py:62 | inserting a document without `_id` keeps every id an ObjectId and returns the fresh one |
| `Consumers.SentDocMatchesStored` | chat/consumers.py:62-67 | the stored message has the fresh ObjectId; the copy sent on has its text and otherwise the stored fields |
| `Consumers.HistoryValueOmits` | chat/consumers.py:70-71 | the history sent with a message excludes that message |
| `Consumers.AskPostsPayload` | chat/consumers.py:75-80 | asking posts at most the one payload built from the message, the chat and the history |
| `Consumers.PayloadAsksAboutStored` | chat/consumers.py:60-80 | the payload built after a successful insert describes the stored message |
| `Consumers.RequestFollowsInsert` | chat/consumers.py:60-80 | a request is posted only after the user's message was stored; it is the frame's only request, names the chat as session, carries the stored message with its id as text and a history without it |
| `Consumers.NonOkAnswerOnlyReports` | chat/consumers.py:82-84 | a status other than 200 yields exactly one errors frame with the status and text; no reply is stored |
| `Consumers.OkFrameNormalizes` | chat/consumers.py:87-111 | the ok frame of a stored reply goes out with the reply's ObjectId as text |
| `Consumers.ReplyAsSentSerializable` | chat/consumers.py:111 | the ok frame can be encoded whenever the gateway's JSON can |
| `Consumers.OkAnswerStoredAndSent` | chat/consumers.py:86-111 | a 200 answer with an object body stores exactly one reply under the fresh ObjectId and sends exactly the ok frame with that reply, its id as text and the whole JSON under response |
| `Consumers.AsWrittenStatusFrameRaises` | chat/consumers.py:84 | the errors frame with the response object raises TypeError and sends nothing |
| `Consumers.ValidFrameProceeds` | chat/consumers.py:53-60 | a frame that validates is stored under the resolved chat with the validated data |
| `Consumers.InboundStored` | chat/consumers.py:60-67 | a successful insert leaves the user's message stored next, under the fresh ObjectId, whatever happens later |
| `Consumers.ValidFrameIsStored` | chat/consumers.py:47-67 | a valid frame whose insert succeeds leaves its message stored with the fresh ObjectId, the resolved chat and the validated role and content |
| `Consumers.UserHiValidates` | chat/consumers.py:54-55 | `{"role": "user", "content": "hi"}` validates to itself |
| `Consumers.FrameStoredUnderConnectionsChat` | chat/consumers.py:53-62 | on a connection with chat "X", that frame is stored as a user message "hi" of chat "X" |
| `Consumers.ChatConsumer.constructor` | chat/consumers.py:29-31 | a new consumer has no chat id and has sent and posted nothing |
| `Consumers.ChatConsumer.SendJson` | chat/consumers.py:119-124 | the method's frames and exception are those of Send |
| `Consumers.ChatConsumer.ResolveChatId` | chat/consumers.py:134-144 | the returned id, the new `chat_id` and the payload are those of Resolve |
| `Consumers.ChatConsumer.Connect` | chat/consumers.py:33-45 | the new state and exception are those of ConnectSpec |
| `Consumers.ChatConsumer.Receive` | chat/consumers.py:47-57 | the new state and exception are those of ReceiveSpec |
| `Consumers.ChatConsumer.PersistAndAskStep` | chat/consumers.py:60-71 | storing the message and fetching the history end in the state of PersistAndAsk |
| `Consumers.ChatConsumer.AskStep` | chat/consumers.py:75-80 | the gateway stage ends in the state of Ask |
| `Consumers.ChatConsumer.AnswerStep` | chat/consumers.py:82-111 | the reply stage ends in the state of Answer |

## Left out

- Text parsing of `json.loads` is left out. A frame is given by what `json.loads` made of it: a value, or undecodable. Duplicate keys are therefore resolved before the model sees the dict.
- The text `json.dumps` produces is left out. A frame is modelled by its value and by whether `json.dumps` can encode it.
- Floats are left out. They are not among the modelled values, and the 30-second gateway timeout is one of them.
- `async`, `await`, `asyncio.to_thread`, `self.accept()` and the channel layer's concurrency are left out. Each handler runs to completion on one connection.
- The HTTP POST of httpx and its timeout are left out. The gateway's answer is a parameter: delivered (status and body), a RequestError, or another exception.
- The clock, `uuid.uuid4()`, Mongo's fresh ObjectIds and unreachable-store failures are parameters.
- `base64.b64decode` is a parameter. Only its success or failure is modelled, for string data.
- The Google Cloud Storage upload is a parameter. Only its outcome is modelled: the URL, or a failure.
- `chat_messages` is left out. It is a channel-layer broadcast hook that only forwards `event["message"]`.
- The commented-out upload and form request in `receive` are not code and are not modelled.
- `upload_response_file` is modelled but called nowhere in the pipeline, because its caller is commented out.
- Logging and the `print` calls in `receive` are left out. They change no state the client or the store can see.
- FIELD_SESSION_ID and FIELD_REFRESH_INDEX are imported by the client module but defined nowhere in the constants module. The model gives them the evident values "session_id" and "refresh_index". As written, the import would fail before any of this code runs.
- Values.Repr: `str()` of a list or dict, used by Consumers.Resolve for a payload chat id and by Data.ResponseFileName for a file name, escapes quotes, backslashes and control characters, but does not escape the other non-printable non-ASCII characters Python escapes. A datetime is shown by its ISO text rather than its fields, and a foreign object without its memory address.
- Data.KeyLe: containers, binary values and foreign objects are compared as equal inside one BSON type rank. Mongo compares their contents. Equal keys are left in insertion order, which Mongo does not promise.
- Data.Find matches `chat_id` by equality only. Mongo would also match a stored array that contains the chat id. The consumer only ever stores text chat ids.
- Data.InsertOne does not model BSON encodability. Examples are an int beyond 64 bits in the gateway's JSON, which pymongo refuses. The only failures it models are an unreachable store and a duplicate `_id`.
- Data.InsertOne does not model the `_id` that pymongo writes into the caller's dict on a failed insert. The consumer returns right after such a failure.
- Serializers.ValidateMessage models the CharField rules the two fields use: type, null, blank, trimming, maximum length and NUL. It leaves out DRF's refusal of lone surrogates ("Surrogate characters are not allowed"): `json.loads` can yield a lone surrogate from a `\ud800` escape, but a Dafny `char` is never a surrogate, so such a payload cannot be expressed.
- ChatSerializer's own field validation (user UUID, title and status lengths) is left out. Nothing in the pipeline runs it; only its `create` and `update` are modelled.
- Serializers.ToRepresentation treats a non-dict instance as raising AttributeError. This stands in for DRF's field-by-field path, which the model does not run.
- Serializers.ToRepresentation converts only datetimes as objects with `isoformat`. Dates and times are not among the modelled values.
- Consumers.ReceiveSpec assumes the store invariant: unique `_id`s, as Mongo's index enforces. The consumer class keeps it as `Valid()`.

## Findings

| source | as written | input that shows it | evidently intended | confidence | as-written member | corrected member |
|---|---|---|---|---|---|---|
| chat/consumers.py:75-80 | `send_chat_request(endpoint=..., new_message=message_doc, chat_history=...)`, but the function's parameters are endpoint, message, session_id, chat_history and refresh_index | any frame that validates and whose message is stored: the call raises TypeError for `new_message`, so the gateway is never asked and the client gets no answer | pass the message document as `message` and the chat id as `session_id`; the model's receive does this, and RequestFollowsInsert proves what the request then carries | not executed | `FastApiClient.ConsumerCallRaises` | `FastApiClient.CorrectedCallBinds` |
| chat/consumers.py:84 | `self._send_json({"errors": fastapi_response})` puts the response object itself into the frame | any gateway answer other than 200, for example the ErrorResponse made from a connection error: `json.dumps` raises TypeError, so the client gets no frame | report the failure in an encodable frame; the model sends `{"errors": {"status_code": ..., "text": ...}}` | not executed | `Consumers.AsWrittenStatusFrameRaises` | `Consumers.NonOkAnswerOnlyReports` |
