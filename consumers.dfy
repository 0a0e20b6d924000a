/** The WebSocket side of the chat app: one ChatConsumer per connection.  On connect it
    creates a chat; on each text frame it parses, resolves the chat id, validates,
    stores the user's message, fetches the history without that message, asks the
    AI gateway, stores the reply and sends it back.  Each stage can stop the frame
    with an `errors` frame.

    The behaviour is given twice: as functions from the connection's state before a
    frame to its state after (ConnectSpec, ReceiveSpec), about which the properties
    are proved, and as the ChatConsumer class, whose methods change the state step by
    step and are proved to agree with those functions. */
module Consumers {
  import opened Wrappers
  import opened Values
  import opened Constants
  import opened Serializers
  import opened Data
  import opened FastApiClient

  // ---------------------------------------------------------------------------
  // _parse_json

  /** `(payload, error)`: exactly one of the two is set. */
  datatype Parsed = Parsed(payload: Option<Dict>, error: Option<string>)

  /** `_parse_json`, given what `json.loads` made of the text: a JSON object is the payload,
      any other JSON value is `invalid_payload`, text that is not JSON is `invalid_json`. */
  function ParseJson(decoded: Decoded): (r: Parsed)
    ensures r.payload.Some? != r.error.Some?
    ensures r.payload.Some? <==> decoded.Decoded? && decoded.value.Obj?
    ensures r.payload.Some? ==> r.payload.value == decoded.value.entries
    ensures decoded.Undecodable? ==> r.error == Some(ERROR_INVALID_JSON)
    ensures decoded.Decoded? && !decoded.value.Obj? ==> r.error == Some(ERROR_INVALID_PAYLOAD)
  {
    match decoded
    case Undecodable => Parsed(None, Some(ERROR_INVALID_JSON))
    case Decoded(v) => if v.Obj? then Parsed(Some(v.entries), None) else Parsed(None, Some(ERROR_INVALID_PAYLOAD))
  }

  // ---------------------------------------------------------------------------
  // _send_json

  /** The frame's `message` is a dict with an `_id`. */
  predicate CarriesMessageId(frame: Dict) {
    Get(frame, FIELD_MESSAGE).Some? && Get(frame, FIELD_MESSAGE).value.Obj?
    && HasKey(Get(frame, FIELD_MESSAGE).value.entries, FIELD_ID)
  }

  /** The `message` dict of a frame that has one. */
  function MessageOf(frame: Dict): Dict
    requires Get(frame, FIELD_MESSAGE).Some? && Get(frame, FIELD_MESSAGE).value.Obj?
  {
    Get(frame, FIELD_MESSAGE).value.entries
  }

  /** What `_send_json` serialises: a frame whose `message` dict has an `_id` gets copies
      with that `_id` as text; every other frame goes as it is. */
  function NormalizeFrame(frame: Dict): (r: Dict)
    ensures !CarriesMessageId(frame) ==> r == frame
    ensures Keys(r) == Keys(frame)
    ensures forall k :: k != FIELD_MESSAGE ==> Get(r, k) == Get(frame, k)
    ensures CarriesMessageId(frame) ==>
              && Get(r, FIELD_MESSAGE).Some? && Get(r, FIELD_MESSAGE).value.Obj?
              && Keys(MessageOf(r)) == Keys(MessageOf(frame))
              && Get(MessageOf(r), FIELD_ID) == Some(Str(PyStr(Get(MessageOf(frame), FIELD_ID).value)))
              && forall k :: k != FIELD_ID ==> Get(MessageOf(r), k) == Get(MessageOf(frame), k)
  {
    if CarriesMessageId(frame) then
      var message := MessageOf(frame);
      var copy := Set(message, FIELD_ID, Str(PyStr(Get(message, FIELD_ID).value)));
      SetKeys(message, FIELD_ID, Str(PyStr(Get(message, FIELD_ID).value)));
      SetKeys(frame, FIELD_MESSAGE, Obj(copy));
      Set(frame, FIELD_MESSAGE, Obj(copy))
    else frame
  }

  /** Normalising twice is normalising once. */
  lemma NormalizeFrameIdempotent(frame: Dict)
    ensures NormalizeFrame(NormalizeFrame(frame)) == NormalizeFrame(frame)
  {
    var once := NormalizeFrame(frame);
    if CarriesMessageId(frame) {
      var message := MessageOf(once);
      SetSame(message, FIELD_ID, Get(message, FIELD_ID).value);
      SetSame(once, FIELD_MESSAGE, Obj(message));
    }
  }

  /** A reply message whose `_id` is an ObjectId goes out with the id's 24 hex digits. */
  lemma NormalizeObjectId(frame: Dict, oid: ObjectId)
    requires Get(frame, FIELD_MESSAGE).Some? && Get(frame, FIELD_MESSAGE).value.Obj?
    requires Get(MessageOf(frame), FIELD_ID) == Some(ObjId(oid))
    ensures Get(MessageOf(NormalizeFrame(frame)), FIELD_ID) == Some(Str(ObjectIdText(oid)))
  {
  }

  // ---------------------------------------------------------------------------
  // _resolve_chat_id

  /** The chat id a frame is filed under, the connection's chat id afterwards, and the
      payload with the id written back. */
  datatype Resolution = Resolution(chatId: string, session: Option<string>, payload: Dict)

  /** `self.chat_id` is set and truthy. */
  predicate HasSession(current: Option<string>) {
    current.Some? && current.value != ""
  }

  /** The payload names a chat (a truthy `chat_id`). */
  predicate NamesChat(payload: Dict) {
    Get(payload, FIELD_CHAT_ID).Some? && Truthy(Get(payload, FIELD_CHAT_ID).value)
  }

  /** `_resolve_chat_id`: a chat named in the payload wins and becomes the connection's chat;
      otherwise the connection's chat is used; otherwise a fresh id is made up for this frame
      only.  In the first two cases the id is written back into the payload. */
  function Resolve(current: Option<string>, payload: Dict, freshId: string): (r: Resolution)
    ensures NamesChat(payload) ==>
              && r.chatId == PyStr(Get(payload, FIELD_CHAT_ID).value)
              && r.session == Some(r.chatId)
              && Get(r.payload, FIELD_CHAT_ID) == Some(Str(r.chatId))
    ensures !NamesChat(payload) && HasSession(current) ==>
              && r.chatId == current.value && r.session == current
              && Get(r.payload, FIELD_CHAT_ID) == Some(Str(r.chatId))
    ensures !NamesChat(payload) && !HasSession(current) ==>
              r.chatId == freshId && r.session == current && r.payload == payload
    ensures forall k :: k != FIELD_CHAT_ID ==> Get(r.payload, k) == Get(payload, k)
  {
    if NamesChat(payload) then
      var chatId := PyStr(Get(payload, FIELD_CHAT_ID).value);
      Resolution(chatId, Some(chatId), Set(payload, FIELD_CHAT_ID, Str(chatId)))
    else if HasSession(current) then
      Resolution(current.value, current, Set(payload, FIELD_CHAT_ID, Str(current.value)))
    else
      Resolution(freshId, current, payload)
  }

  /** Once a frame has named a chat, a later frame without one is filed under that chat. */
  lemma NamedChatIsRemembered(current: Option<string>, p1: Dict, p2: Dict, newId1: string, newId2: string)
    requires NamesChat(p1) && !NamesChat(p2)
    requires PyStr(Get(p1, FIELD_CHAT_ID).value) != ""
    ensures var first := Resolve(current, p1, newId1);
            Resolve(first.session, p2, newId2).chatId == first.chatId
  {
  }

  /** Without a chat on the connection, each frame without a chat id gets its own fresh id:
      the first is not remembered for the second. */
  lemma FreshIdIsNotRemembered(current: Option<string>, p1: Dict, p2: Dict, newId1: string, newId2: string)
    requires !HasSession(current) && !NamesChat(p1) && !NamesChat(p2)
    ensures var first := Resolve(current, p1, newId1);
            && first.chatId == newId1
            && Resolve(first.session, p2, newId2).chatId == newId2
  {
  }

  /** Writing the chat id back into the payload does not change how it validates. */
  lemma ValidationIgnoresChatId(payload: Dict, v: Value)
    ensures ValidateMessage(Set(payload, FIELD_CHAT_ID, v)) == ValidateMessage(payload)
  {
    var p := Set(payload, FIELD_CHAT_ID, v);
    assert Get(p, FIELD_ROLE) == Get(payload, FIELD_ROLE);
    assert Get(p, FIELD_CONTENT) == Get(payload, FIELD_CONTENT);
    assert RoleField(p) == RoleField(payload);
    assert ContentField(p) == ContentField(payload);
  }

  // ---------------------------------------------------------------------------
  // the connection's state and one frame's trace

  /** What a connection can change: its chat id, the two collections, the frames it has sent
      to the client and the request bodies it has posted to the gateway. */
  datatype Session = Session(chatId: Option<string>, chats: seq<Dict>, messages: seq<Dict>,
                             frames: seq<Dict>, requests: seq<Dict>)

  /** The state after a handler, and the exception it raised, if any. */
  datatype Step = Step(after: Session, raised: Option<string>)

  /** `_send_json(frame)`: the normalised frame is sent, or json.dumps raises TypeError and
      nothing is. */
  function Send(s: Session, frame: Dict): (r: Step)
    ensures r.raised.None? <==> JsonSerializable(Obj(NormalizeFrame(frame)))
    ensures r.raised.None? ==> r.after == s.(frames := s.frames + [NormalizeFrame(frame)])
    ensures r.raised.Some? ==> r.after == s
  {
    var f := NormalizeFrame(frame);
    if JsonSerializable(Obj(f)) then Step(s.(frames := s.frames + [f]), None) else Step(s, Some("TypeError"))
  }

  /** `{"errors": error}`. */
  function ErrorFrame(error: Value): Dict {
    [(RESPONSE_ERRORS, error)]
  }

  /** An errors frame whose content serialises goes out as it is. */
  lemma SendErrorFrame(s: Session, error: Value)
    requires JsonSerializable(error)
    ensures Send(s, ErrorFrame(error)) == Step(s.(frames := s.frames + [ErrorFrame(error)]), None)
  {
    var frame := ErrorFrame(error);
    GetSingle(RESPONSE_ERRORS, error);
    assert RESPONSE_ERRORS != FIELD_MESSAGE;
    assert !CarriesMessageId(frame);
    assert NormalizeFrame(frame) == frame;
    assert frame[1..] == [];
    assert EntriesSerializable(frame);
  }

  /** `b` is `a` with at most `most` items added at the end. */
  ghost predicate Extends<T>(a: seq<T>, b: seq<T>, most: nat) {
    |a| <= |b| <= |a| + most && b[..|a|] == a
  }

  /** Sending adds at most one frame and changes nothing else. */
  lemma SendGrowth(s: Session, frame: Dict)
    ensures var t := Send(s, frame).after;
            t.(frames := s.frames) == s && Extends(s.frames, t.frames, 1)
  {
  }

  // ---------------------------------------------------------------------------
  // connect

  /** What the clock, uuid4 and the store do during `connect`. */
  datatype ConnectOracle = ConnectOracle(freshChatId: string, createdAt: string, updatedAt: string, insertFails: bool)

  /** `{"type": "chat.created", "chat_id": chatId}`. */
  function ChatCreatedFrame(chatId: string): Dict {
    [("type", Str(RESPONSE_TYPE_CHAT_CREATED)), (FIELD_CHAT_ID, Str(chatId))]
  }

  /** `connect`: create a chat for the connection's user, remember its id and announce it;
      if anything raises, announce `chat_init_failed` instead. */
  function ConnectSpec(s: Session, user: Option<User>, o: ConnectOracle): (r: Step)
    ensures r.raised.None?
    ensures r.after.messages == s.messages && r.after.requests == s.requests
    ensures r.after.chatId == s.chatId || r.after.chatId == Some(o.freshChatId)
    ensures |r.after.frames| == |s.frames| + 1
  {
    var chatDoc := ChatDocument(o.freshChatId, user, "", CHAT_STATUS_DRAFT, o.createdAt, o.updatedAt);
    var inserted := InsertOne(s.chats, chatDoc, 0, o.insertFails);
    if inserted.outcome.Failure? then
      SendErrorFrame(s, Str(ERROR_CHAT_INIT_FAILED));
      Send(s, ErrorFrame(Str(ERROR_CHAT_INIT_FAILED)))
    else
      ChatDocumentStoredAsIs(o.freshChatId, user, "", CHAT_STATUS_DRAFT, o.createdAt, o.updatedAt);
      var s1 := s.(chats := inserted.docs, chatId := Some(PyStr(Get(chatDoc, FIELD_ID).value)));
      SendChatCreated(s1, s1.chatId.value);
      var announced := Send(s1, ChatCreatedFrame(s1.chatId.value));
      if announced.raised.Some? then Send(announced.after, ErrorFrame(Str(ERROR_CHAT_INIT_FAILED)))
      else announced
  }

  /** The `chat.created` frame goes out as it is. */
  lemma SendChatCreated(s: Session, chatId: string)
    ensures Send(s, ChatCreatedFrame(chatId)) == Step(s.(frames := s.frames + [ChatCreatedFrame(chatId)]), None)
  {
    var frame := ChatCreatedFrame(chatId);
    assert frame == [frame[0]] + [frame[1]];
    GetCons(frame[0], [frame[1]]);
    GetSingle(FIELD_CHAT_ID, Str(chatId));
    assert !CarriesMessageId(frame);
    assert NormalizeFrame(frame) == frame;
    assert frame[1..] == [frame[1]] && frame[1..][1..] == [];
    assert EntriesSerializable(frame[1..]);
    assert EntriesSerializable(frame);
  }

  /** A successful connect stores one chat document, adopts its id and announces it; a
      failed one stores nothing, keeps the chat id and reports `chat_init_failed`. */
  lemma ConnectOutcome(s: Session, user: Option<User>, o: ConnectOracle)
    ensures var r := ConnectSpec(s, user, o);
            && r.raised.None?
            && r.after.messages == s.messages && r.after.requests == s.requests
            && (if !o.insertFails && !IdTaken(s.chats, Str(o.freshChatId)) then
                  && r.after.chats == s.chats + [ChatDocument(o.freshChatId, user, "", CHAT_STATUS_DRAFT, o.createdAt, o.updatedAt)]
                  && r.after.chatId == Some(o.freshChatId)
                  && r.after.frames == s.frames + [ChatCreatedFrame(o.freshChatId)]
                else
                  && r.after.chats == s.chats && r.after.chatId == s.chatId
                  && r.after.frames == s.frames + [ErrorFrame(Str(ERROR_CHAT_INIT_FAILED))])
  {
    var chatDoc := ChatDocument(o.freshChatId, user, "", CHAT_STATUS_DRAFT, o.createdAt, o.updatedAt);
    ChatDocumentStoredAsIs(o.freshChatId, user, "", CHAT_STATUS_DRAFT, o.createdAt, o.updatedAt);
    var inserted := InsertOne(s.chats, chatDoc, 0, o.insertFails);
    if inserted.outcome.Success? {
      assert Get(chatDoc, FIELD_ID) == Some(Str(o.freshChatId));
      var s1 := s.(chats := inserted.docs, chatId := Some(o.freshChatId));
      SendChatCreated(s1, o.freshChatId);
    } else {
      SendErrorFrame(s, Str(ERROR_CHAT_INIT_FAILED));
    }
  }

  // ---------------------------------------------------------------------------
  // receive

  /** What uuid4, the clock, the store and the gateway do while one frame is handled. */
  datatype FrameOracle = FrameOracle(
    freshChatId: string,
    inboundNow: string, inboundOid: ObjectId, inboundInsertFails: bool,
    historyFails: bool,
    post: PostOutcome,
    replyNow: string, replyOid: ObjectId, replyInsertFails: bool)

  /** The list of history records as a JSON value. */
  function HistoryValue(history: seq<Dict>): (v: Value)
    ensures v.Null? <==> history == []
    ensures v.List? ==> |v.items| == |history| && forall i :: 0 <= i < |history| ==> v.items[i] == Obj(history[i])
  {
    if history == [] then Null else List(seq(|history|, i requires 0 <= i < |history| => Obj(history[i])))
  }

  /** The error frame for a gateway answer other than 200: its status code and text. */
  function StatusReport(response: Response): Value {
    Obj([("status_code", Int(response.StatusCode())), ("text", Str(response.Text()))])
  }

  /** `receive(text_data)`, from what `json.loads` made of the text. */
  function ReceiveSpec(s: Session, decoded: Decoded, o: FrameOracle): (r: Step)
    requires StoreInvariant(s.messages)
    ensures r.after.chats == s.chats
    ensures ParseJson(decoded).error.Some? ==>
              r.after.chatId == s.chatId && r.after.messages == s.messages && r.after.requests == s.requests
  {
    var parsed := ParseJson(decoded);
    if parsed.error.Some? then Send(s, ErrorFrame(Str(parsed.error.value)))
    else
      var resolved := Resolve(s.chatId, parsed.payload.value, o.freshChatId);
      var s1 := s.(chatId := resolved.session);
      match ValidateMessage(resolved.payload)
      case Invalid(errors) => Send(s1, ErrorFrame(Obj(errors)))
      case Valid(data) => PersistAndAsk(s1, resolved.chatId, data, o)
  }

  /** The user's message is stored, then the history without it is fetched, then the gateway
      is asked. */
  function PersistAndAsk(s: Session, chatId: string, data: Dict, o: FrameOracle): (r: Step)
    requires StoreInvariant(s.messages)
    ensures r.after.chatId == s.chatId && r.after.chats == s.chats
    ensures o.inboundInsertFails ==> r.after.messages == s.messages && r.after.requests == s.requests
    ensures r.after.requests != s.requests ==> !o.inboundInsertFails && !o.historyFails
  {
    var messageDoc := CreateMessageDocument(data, Str(chatId), o.inboundNow);
    var inserted := InsertOne(s.messages, messageDoc, o.inboundOid, o.inboundInsertFails);
    if inserted.outcome.Failure? then Send(s, ErrorFrame(Str(ERROR_MESSAGE_INSERT_FAILED)))
    else
      InsertKeepsStoreInvariant(s.messages, messageDoc, o.inboundOid, o.inboundInsertFails);
      var s2 := s.(messages := inserted.docs);
      var messageId := inserted.outcome.value;
      // pymongo writes the new `_id` into the dict, and the consumer replaces it with its text
      var sentDoc := Set(Set(messageDoc, FIELD_ID, messageId), FIELD_ID, Str(PyStr(messageId)));
      if o.historyFails then Step(s2, Some("PyMongoError"))
      else
        var history := History(s2.messages, Str(chatId), messageId);
        Ask(s2, chatId, sentDoc, HistoryValue(history), o)
  }

  /** The gateway is asked with the stored message, the chat id as session and the history. */
  function Ask(s: Session, chatId: string, messageDoc: Dict, chatHistory: Value, o: FrameOracle): (r: Step)
    requires StoreInvariant(s.messages)
    ensures r.after.chatId == s.chatId && r.after.chats == s.chats
    ensures o.post.OtherError? ==> r.raised.Some? && r.after.messages == s.messages && r.after.frames == s.frames
    ensures r.after.messages != s.messages ==> o.post.Delivered?
  {
    var payload := BuildPayload(Str(chatId), Obj(messageDoc), chatHistory, DEFAULT_REFRESH_INDEX);
    var s3 := if JsonSerializable(Obj(payload)) then s.(requests := s.requests + [payload]) else s;
    match SendChatRequest(FASTAPI_CHAT_ENDPOINT, Obj(messageDoc), Str(chatId), chatHistory, DEFAULT_REFRESH_INDEX, o.post)
    case Failure(error) => Step(s3, Some(error))
    case Success(response) => Answer(s3, chatId, response, o)
  }

  /** A non-200 answer is reported; a 200 answer's JSON is stored as the reply and sent back. */
  function Answer(s: Session, chatId: string, response: Response, o: FrameOracle): (r: Step)
    requires StoreInvariant(s.messages)
    ensures r.after.chatId == s.chatId && r.after.chats == s.chats && r.after.requests == s.requests
    ensures r.after.messages != s.messages ==>
              response.StatusCode() == HTTP_OK && response.Json().Success? && response.Json().value.Obj?
  {
    if response.StatusCode() != HTTP_OK then Send(s, ErrorFrame(StatusReport(response)))
    else
      match response.Json()
      case Failure(error) => Step(s, Some(error))
      case Success(body) =>
        if !body.Obj? then Step(s, Some("AttributeError"))  // `.get` on a non-dict
        else
          var replyDoc := CreateMessageDocument(body.entries, Str(chatId), o.replyNow);
          var inserted := InsertOne(s.messages, replyDoc, o.replyOid, o.replyInsertFails);
          if inserted.outcome.Failure? then Send(s, ErrorFrame(Str(ERROR_MESSAGE_INSERT_FAILED)))
          else
            var reply := Set(Set(replyDoc, FIELD_ID, inserted.outcome.value), FIELD_RESPONSE, body);
            Send(s.(messages := inserted.docs), OkFrame(reply))
  }

  /** `{"ok": true, "message": reply}`. */
  function OkFrame(reply: Dict): Dict {
    [(RESPONSE_OK, Bool(true)), (FIELD_MESSAGE, Obj(reply))]
  }

  // ---------------------------------------------------------------------------
  // the consumer

  class ChatConsumer {
    var chatId: Option<string>
    var frames: seq<Dict>
    var requests: seq<Dict>
    const chats: ChatCollection
    const messages: MessageCollection

    /** The connection's state as the specification functions see it. */
    function State(): Session
      reads this, chats, messages
    {
      Session(chatId, chats.docs, messages.docs, frames, requests)
    }

    predicate Valid()
      reads this, chats, messages
    {
      chats.Valid() && messages.Valid()
    }

    constructor (chats: ChatCollection, messages: MessageCollection)
      requires chats.Valid() && messages.Valid()
      ensures this.chats == chats && this.messages == messages
      ensures chatId == None && frames == [] && requests == []
      ensures Valid()
    {
      this.chats := chats;
      this.messages := messages;
      chatId := None;
      frames := [];
      requests := [];
    }

    /** `_send_json`. */
    method SendJson(frame: Dict) returns (raised: Option<string>)
      modifies this
      ensures Step(State(), raised) == Send(old(State()), frame)
      ensures chatId == old(chatId) && requests == old(requests)
    {
      var payload := frame;
      var message := Get(payload, FIELD_MESSAGE);
      if message.Some? && message.value.Obj? && HasKey(message.value.entries, FIELD_ID) {
        var m := message.value.entries;
        payload := Set(payload, FIELD_MESSAGE, Obj(Set(m, FIELD_ID, Str(PyStr(Get(m, FIELD_ID).value)))));
      }
      if !JsonSerializable(Obj(payload)) {
        return Some("TypeError");
      }
      frames := frames + [payload];
      return None;
    }

    /** `_resolve_chat_id`; the payload is the caller's dict, handed back with the id written in. */
    method ResolveChatId(payload: Dict, freshId: string) returns (resolved: string, payloadAfter: Dict)
      modifies this
      ensures Resolution(resolved, chatId, payloadAfter) == Resolve(old(chatId), payload, freshId)
      ensures frames == old(frames) && requests == old(requests)
    {
      payloadAfter := payload;
      var provided := Get(payloadAfter, FIELD_CHAT_ID);
      if provided.Some? && Truthy(provided.value) {
        resolved := PyStr(provided.value);
        chatId := Some(resolved);
        payloadAfter := Set(payloadAfter, FIELD_CHAT_ID, Str(resolved));
        return;
      }
      if chatId.Some? && chatId.value != "" {
        payloadAfter := Set(payloadAfter, FIELD_CHAT_ID, Str(chatId.value));
        resolved := chatId.value;
        return;
      }
      resolved := freshId;
    }

    /** `connect`. */
    method Connect(user: Option<User>, o: ConnectOracle) returns (raised: Option<string>)
      requires Valid()
      modifies this, chats
      ensures Valid()
      ensures Step(State(), raised) == ConnectSpec(old(State()), user, o)
    {
      var created := chats.CreateChat(user, "", CHAT_STATUS_DRAFT, o.freshChatId, o.createdAt, o.updatedAt, o.insertFails);
      ChatDocumentStoredAsIs(o.freshChatId, user, "", CHAT_STATUS_DRAFT, o.createdAt, o.updatedAt);
      if created.Failure? {
        raised := SendJson(ErrorFrame(Str(ERROR_CHAT_INIT_FAILED)));
        return;
      }
      chatId := Some(PyStr(Get(created.value, FIELD_ID).value));
      raised := SendJson(ChatCreatedFrame(chatId.value));
      if raised.Some? {
        raised := SendJson(ErrorFrame(Str(ERROR_CHAT_INIT_FAILED)));
      }
    }

    /** `receive`. */
    method Receive(decoded: Decoded, o: FrameOracle) returns (raised: Option<string>)
      requires Valid()
      modifies this, messages
      ensures Valid()
      ensures Step(State(), raised) == ReceiveSpec(old(State()), decoded, o)
    {
      var parsed := ParseJson(decoded);
      if parsed.error.Some? {
        raised := SendJson(ErrorFrame(Str(parsed.error.value)));
        return;
      }
      var resolved, payload := ResolveChatId(parsed.payload.value, o.freshChatId);
      var validation := ValidateMessage(payload);
      if validation.Invalid? {
        raised := SendJson(ErrorFrame(Obj(validation.errors)));
        return;
      }
      raised := PersistAndAskStep(resolved, validation.data, o);
    }

    method PersistAndAskStep(chat: string, data: Dict, o: FrameOracle) returns (raised: Option<string>)
      requires Valid()
      modifies this, messages
      ensures Valid()
      ensures Step(State(), raised) == PersistAndAsk(old(State()), chat, data, o)
    {
      var messageDoc := CreateMessageDocument(data, Str(chat), o.inboundNow);
      var inserted := messages.InsertMessage(messageDoc, o.inboundOid, o.inboundInsertFails);
      if inserted.Failure? {
        raised := SendJson(ErrorFrame(Str(ERROR_MESSAGE_INSERT_FAILED)));
        return;
      }
      var messageId := inserted.value;
      messageDoc := Set(messageDoc, FIELD_ID, messageId);
      messageDoc := Set(messageDoc, FIELD_ID, Str(PyStr(messageId)));
      if o.historyFails {
        return Some("PyMongoError");
      }
      var history := messages.GetChatHistory(Str(chat), messageId);
      var chatHistory := HistoryValue(history);
      raised := AskStep(chat, messageDoc, chatHistory, o);
    }

    method AskStep(chat: string, messageDoc: Dict, chatHistory: Value, o: FrameOracle) returns (raised: Option<string>)
      requires Valid()
      modifies this, messages
      ensures Valid()
      ensures Step(State(), raised) == Ask(old(State()), chat, messageDoc, chatHistory, o)
    {
      var payload := BuildPayload(Str(chat), Obj(messageDoc), chatHistory, DEFAULT_REFRESH_INDEX);
      if JsonSerializable(Obj(payload)) {
        requests := requests + [payload];
      }
      var response := SendChatRequest(FASTAPI_CHAT_ENDPOINT, Obj(messageDoc), Str(chat), chatHistory,
                                      DEFAULT_REFRESH_INDEX, o.post);
      if response.Failure? {
        return Some(response.error);
      }
      raised := AnswerStep(chat, response.value, o);
    }

    method AnswerStep(chat: string, response: Response, o: FrameOracle) returns (raised: Option<string>)
      requires Valid()
      modifies this, messages
      ensures Valid()
      ensures Step(State(), raised) == Answer(old(State()), chat, response, o)
    {
      if response.StatusCode() != HTTP_OK {
        raised := SendJson(ErrorFrame(StatusReport(response)));
        return;
      }
      var body := response.Json();
      if body.Failure? {
        return Some(body.error);
      }
      if !body.value.Obj? {
        return Some("AttributeError");
      }
      var messageDoc := CreateMessageDocument(body.value.entries, Str(chat), o.replyNow);
      var inserted := messages.InsertMessage(messageDoc, o.replyOid, o.replyInsertFails);
      if inserted.Failure? {
        raised := SendJson(ErrorFrame(Str(ERROR_MESSAGE_INSERT_FAILED)));
        return;
      }
      messageDoc := Set(messageDoc, FIELD_ID, inserted.value);
      var responseData := response.Json();
      messageDoc := Set(messageDoc, FIELD_RESPONSE, responseData.value);
      raised := SendJson(OkFrame(messageDoc));
    }
  }

  // ---------------------------------------------------------------------------
  // what one frame can change

  /** A reply stage keeps the chat id, the chats and the requests, stores at most one
      message and sends at most one frame. */
  lemma AnswerGrowth(s: Session, chat: string, response: Response, o: FrameOracle)
    requires StoreInvariant(s.messages)
    ensures var t := Answer(s, chat, response, o).after;
            && t.chatId == s.chatId && t.chats == s.chats && t.requests == s.requests
            && Extends(s.messages, t.messages, 1) && Extends(s.frames, t.frames, 1)
            && StoreInvariant(t.messages)
            && (ObjectIdsOnly(s.messages) ==> ObjectIdsOnly(t.messages))
  {
    if response.StatusCode() != HTTP_OK {
      SendGrowth(s, ErrorFrame(StatusReport(response)));
    } else if response.Json().Success? && response.Json().value.Obj? {
      var body := response.Json().value;
      var replyDoc := CreateMessageDocument(body.entries, Str(chat), o.replyNow);
      var inserted := InsertOne(s.messages, replyDoc, o.replyOid, o.replyInsertFails);
      InsertKeepsStoreInvariant(s.messages, replyDoc, o.replyOid, o.replyInsertFails);
      if ObjectIdsOnly(s.messages) {
        assert Get(replyDoc, FIELD_ID) == None;
        InsertKeepsObjectIds(s.messages, replyDoc, o.replyOid, o.replyInsertFails);
      }
      if inserted.outcome.Failure? {
        SendGrowth(s, ErrorFrame(Str(ERROR_MESSAGE_INSERT_FAILED)));
      } else {
        var reply := Set(Set(replyDoc, FIELD_ID, inserted.outcome.value), FIELD_RESPONSE, body);
        SendGrowth(s.(messages := inserted.docs), OkFrame(reply));
      }
    }
  }

  /** Asking the gateway posts at most one request, then answers. */
  lemma AskGrowth(s: Session, chat: string, messageDoc: Dict, chatHistory: Value, o: FrameOracle)
    requires StoreInvariant(s.messages)
    ensures var t := Ask(s, chat, messageDoc, chatHistory, o).after;
            && t.chatId == s.chatId && t.chats == s.chats
            && Extends(s.requests, t.requests, 1) && Extends(s.messages, t.messages, 1)
            && Extends(s.frames, t.frames, 1) && StoreInvariant(t.messages)
            && (ObjectIdsOnly(s.messages) ==> ObjectIdsOnly(t.messages))
  {
    var payload := BuildPayload(Str(chat), Obj(messageDoc), chatHistory, DEFAULT_REFRESH_INDEX);
    var s3 := if JsonSerializable(Obj(payload)) then s.(requests := s.requests + [payload]) else s;
    var response := SendChatRequest(FASTAPI_CHAT_ENDPOINT, Obj(messageDoc), Str(chat), chatHistory, DEFAULT_REFRESH_INDEX, o.post);
    if response.Success? {
      AnswerGrowth(s3, chat, response.value, o);
    }
  }

  /** Storing the user's message and asking stores at most two messages. */
  lemma PersistAndAskGrowth(s: Session, chat: string, data: Dict, o: FrameOracle)
    requires StoreInvariant(s.messages)
    ensures var t := PersistAndAsk(s, chat, data, o).after;
            && t.chatId == s.chatId && t.chats == s.chats
            && Extends(s.requests, t.requests, 1) && Extends(s.messages, t.messages, 2)
            && Extends(s.frames, t.frames, 1) && StoreInvariant(t.messages)
            && (ObjectIdsOnly(s.messages) ==> ObjectIdsOnly(t.messages))
            && var inserted := InsertOne(s.messages, CreateMessageDocument(data, Str(chat), o.inboundNow),
                                         o.inboundOid, o.inboundInsertFails);
               inserted.outcome.Success? ==> Extends(inserted.docs, t.messages, 1)
  {
    var messageDoc := CreateMessageDocument(data, Str(chat), o.inboundNow);
    var inserted := InsertOne(s.messages, messageDoc, o.inboundOid, o.inboundInsertFails);
    InsertKeepsStoreInvariant(s.messages, messageDoc, o.inboundOid, o.inboundInsertFails);
    if ObjectIdsOnly(s.messages) {
      assert Get(messageDoc, FIELD_ID) == None;
      InsertKeepsObjectIds(s.messages, messageDoc, o.inboundOid, o.inboundInsertFails);
    }
    if inserted.outcome.Failure? {
      SendGrowth(s, ErrorFrame(Str(ERROR_MESSAGE_INSERT_FAILED)));
    } else if !o.historyFails {
      var s2 := s.(messages := inserted.docs);
      var messageId := inserted.outcome.value;
      var sentDoc := Set(Set(messageDoc, FIELD_ID, messageId), FIELD_ID, Str(PyStr(messageId)));
      var history := History(s2.messages, Str(chat), messageId);
      AskGrowth(s2, chat, sentDoc, HistoryValue(history), o);
      var t := Ask(s2, chat, sentDoc, HistoryValue(history), o).after;
      assert t == PersistAndAsk(s, chat, data, o).after;
      ExtendsTrans(s.messages, s2.messages, t.messages, 1, 1);
    }
  }

  /** Growing by at most `m` and then by at most `n` is growing by at most `m + n`. */
  lemma ExtendsTrans<T>(a: seq<T>, b: seq<T>, c: seq<T>, m: nat, n: nat)
    requires Extends(a, b, m) && Extends(b, c, n)
    ensures Extends(a, c, m + n)
  {
    assert c[..|a|] == c[..|b|][..|a|];
  }

  /** One frame changes no chat, stores at most two messages (the user's and the reply),
      posts at most one request and sends at most one frame, all appended after what was
      there. */
  lemma ReceiveGrowth(s: Session, decoded: Decoded, o: FrameOracle)
    requires StoreInvariant(s.messages)
    ensures var t := ReceiveSpec(s, decoded, o).after;
            && t.chats == s.chats
            && Extends(s.messages, t.messages, 2) && Extends(s.requests, t.requests, 1)
            && Extends(s.frames, t.frames, 1)
  {
    var t := ReceiveSpec(s, decoded, o).after;
    var parsed := ParseJson(decoded);
    if parsed.error.Some? {
      SendGrowth(s, ErrorFrame(Str(parsed.error.value)));
      assert t == Send(s, ErrorFrame(Str(parsed.error.value))).after;
    } else {
      var resolved := Resolve(s.chatId, parsed.payload.value, o.freshChatId);
      var s1 := s.(chatId := resolved.session);
      var verdict := ValidateMessage(resolved.payload);
      if verdict.Invalid? {
        SendGrowth(s1, ErrorFrame(Obj(verdict.errors)));
        assert t == Send(s1, ErrorFrame(Obj(verdict.errors))).after;
      } else {
        PersistAndAskGrowth(s1, resolved.chatId, verdict.data, o);
        assert t == PersistAndAsk(s1, resolved.chatId, verdict.data, o).after;
        assert s1.messages == s.messages && s1.requests == s.requests && s1.frames == s.frames;
      }
    }
  }

  /** A frame keeps the store's ids present and unique, and ObjectIds if they were. */
  lemma ReceiveKeepsStore(s: Session, decoded: Decoded, o: FrameOracle)
    requires StoreInvariant(s.messages)
    ensures var t := ReceiveSpec(s, decoded, o).after;
            && StoreInvariant(t.messages)
            && (ObjectIdsOnly(s.messages) ==> ObjectIdsOnly(t.messages))
  {
    var t := ReceiveSpec(s, decoded, o).after;
    var parsed := ParseJson(decoded);
    if parsed.error.Some? {
      SendGrowth(s, ErrorFrame(Str(parsed.error.value)));
      assert t == Send(s, ErrorFrame(Str(parsed.error.value))).after;
    } else {
      var resolved := Resolve(s.chatId, parsed.payload.value, o.freshChatId);
      var s1 := s.(chatId := resolved.session);
      var verdict := ValidateMessage(resolved.payload);
      if verdict.Invalid? {
        SendGrowth(s1, ErrorFrame(Obj(verdict.errors)));
        assert t == Send(s1, ErrorFrame(Obj(verdict.errors))).after;
      } else {
        PersistAndAskGrowth(s1, resolved.chatId, verdict.data, o);
        assert t == PersistAndAsk(s1, resolved.chatId, verdict.data, o).after;
      }
    }
  }

  // ---------------------------------------------------------------------------
  // early exits

  /** Validating the payload after the chat id was written into it gives the verdict on the
      payload as received. */
  lemma ResolvedPayloadValidates(current: Option<string>, payload: Dict, freshId: string)
    ensures ValidateMessage(Resolve(current, payload, freshId).payload) == ValidateMessage(payload)
  {
    var resolved := Resolve(current, payload, freshId);
    if resolved.payload != payload {
      ValidationIgnoresChatId(payload, Str(resolved.chatId));
    }
  }

  /** Text that is not a JSON object gets exactly one errors frame (`invalid_json` or
      `invalid_payload`), and nothing else happens. */
  lemma ParseFailureOnlyReports(s: Session, decoded: Decoded, o: FrameOracle)
    requires StoreInvariant(s.messages)
    requires !(decoded.Decoded? && decoded.value.Obj?)
    ensures var code := if decoded.Undecodable? then ERROR_INVALID_JSON else ERROR_INVALID_PAYLOAD;
            ReceiveSpec(s, decoded, o) == Step(s.(frames := s.frames + [ErrorFrame(Str(code))]), None)
  {
    SendErrorFrame(s, Str(if decoded.Undecodable? then ERROR_INVALID_JSON else ERROR_INVALID_PAYLOAD));
  }

  /** A payload that fails validation gets exactly one frame with the validation errors;
      nothing is stored or posted, but the chat id it named has already been adopted. */
  lemma InvalidPayloadOnlyReports(s: Session, payload: Dict, o: FrameOracle)
    requires StoreInvariant(s.messages)
    requires ValidateMessage(payload).Invalid?
    ensures ReceiveSpec(s, Decoded(Obj(payload)), o)
            == Step(s.(chatId := Resolve(s.chatId, payload, o.freshChatId).session,
                       frames := s.frames + [ErrorFrame(Obj(ValidateMessage(payload).errors))]), None)
  {
    ResolvedPayloadValidates(s.chatId, payload, o.freshChatId);
    var s1 := s.(chatId := Resolve(s.chatId, payload, o.freshChatId).session);
    SendErrorFrame(s1, Obj(ValidateMessage(payload).errors));
  }

  /** When the user's message cannot be stored, the only effect is one
      `message_insert_failed` frame: the gateway is not asked. */
  lemma InboundInsertFailureOnlyReports(s: Session, payload: Dict, o: FrameOracle)
    requires StoreInvariant(s.messages)
    requires ValidateMessage(payload).Valid? && o.inboundInsertFails
    ensures ReceiveSpec(s, Decoded(Obj(payload)), o)
            == Step(s.(chatId := Resolve(s.chatId, payload, o.freshChatId).session,
                       frames := s.frames + [ErrorFrame(Str(ERROR_MESSAGE_INSERT_FAILED))]), None)
  {
    ValidFrameProceeds(s, payload, o);
    var resolved := Resolve(s.chatId, payload, o.freshChatId);
    var s1 := s.(chatId := resolved.session);
    InsertFailureSends(s1, resolved.chatId, ValidateMessage(payload).data, o);
    SendErrorFrame(s1, Str(ERROR_MESSAGE_INSERT_FAILED));
  }

  /** A failed insert is answered with `message_insert_failed` and nothing else. */
  lemma InsertFailureSends(s: Session, chatId: string, data: Dict, o: FrameOracle)
    requires StoreInvariant(s.messages) && o.inboundInsertFails
    ensures PersistAndAsk(s, chatId, data, o) == Send(s, ErrorFrame(Str(ERROR_MESSAGE_INSERT_FAILED)))
  {
  }

  // ---------------------------------------------------------------------------
  // the request to the gateway

  /** Every stored message is identified by an ObjectId (what `insert_one` assigns to the
      documents this consumer writes, which never carry their own `_id`). */
  predicate ObjectIdsOnly(docs: seq<Dict>) {
    forall d :: d in docs ==> HasKey(d, FIELD_ID) && Get(d, FIELD_ID).value.ObjId?
  }

  /** The history as sent: None, or a non-empty list of records none of which has `_id`
      equal to `idText`. */
  predicate OmitsRecord(chatHistory: Value, idText: string) {
    || chatHistory.Null?
    || (&& chatHistory.List? && chatHistory.items != []
        && forall v :: v in chatHistory.items ==> v.Obj? && Get(v.entries, FIELD_ID) != Some(Str(idText)))
  }

  /** Inserting a document without its own `_id` keeps every id an ObjectId, and the new
      one is the fresh ObjectId. */
  lemma InsertKeepsObjectIds(docs: seq<Dict>, doc: Dict, freshOid: ObjectId, fails: bool)
    requires ObjectIdsOnly(docs) && !HasKey(doc, FIELD_ID)
    ensures ObjectIdsOnly(InsertOne(docs, doc, freshOid, fails).docs)
    ensures InsertOne(docs, doc, freshOid, fails).outcome.Success? ==>
              InsertOne(docs, doc, freshOid, fails).outcome.value == ObjId(freshOid)
  {
    var inserted := InsertOne(docs, doc, freshOid, fails);
    if inserted.outcome.Success? {
      forall d | d in inserted.docs ensures HasKey(d, FIELD_ID) && Get(d, FIELD_ID).value.ObjId? {
        var i :| 0 <= i < |inserted.docs| && inserted.docs[i] == d;
        if i < |docs| {
          assert d == docs[i] && d in docs;
        }
      }
    }
  }

  /** The history fetched while excluding a message's ObjectId, as sent, leaves that message out. */
  lemma HistoryValueOmits(docs: seq<Dict>, chat: string, oid: ObjectId)
    requires ObjectIdsOnly(docs)
    ensures OmitsRecord(HistoryValue(History(docs, Str(chat), ObjId(oid))), ObjectIdText(oid))
  {
    var history := History(docs, Str(chat), ObjId(oid));
    HistoryExcludesMessage(docs, Str(chat), oid);
    var hv := HistoryValue(history);
    if hv.List? {
      forall v | v in hv.items
        ensures v.Obj? && Get(v.entries, FIELD_ID) != Some(Str(ObjectIdText(oid)))
      {
        var i :| 0 <= i < |hv.items| && hv.items[i] == v;
        assert history[i] in history;
      }
    }
  }

  /** Asking posts at most the one payload built from the message, the chat and the history. */
  lemma AskPostsPayload(s: Session, chat: string, messageDoc: Dict, chatHistory: Value, o: FrameOracle)
    requires StoreInvariant(s.messages)
    ensures var t := Ask(s, chat, messageDoc, chatHistory, o).after;
            && Extends(s.messages, t.messages, 1)
            && Extends(s.requests, t.requests, 1)
            && (|t.requests| > |s.requests| ==>
                  t.requests[|s.requests|] == BuildPayload(Str(chat), Obj(messageDoc), chatHistory, DEFAULT_REFRESH_INDEX))
  {
    AskGrowth(s, chat, messageDoc, chatHistory, o);
    var payload := BuildPayload(Str(chat), Obj(messageDoc), chatHistory, DEFAULT_REFRESH_INDEX);
    var s3 := if JsonSerializable(Obj(payload)) then s.(requests := s.requests + [payload]) else s;
    var response := SendChatRequest(FASTAPI_CHAT_ENDPOINT, Obj(messageDoc), Str(chat), chatHistory, DEFAULT_REFRESH_INDEX, o.post);
    if response.Success? {
      AnswerGrowth(s3, chat, response.value, o);
    }
  }

  /** What a request says about the stored message it follows: the stored document has
      the fresh ObjectId and the chat's id; the request names the chat as session,
      carries that document with its id as text, and a history without it. */
  ghost predicate AskedAbout(stored: Dict, request: Dict, chat: string, oid: ObjectId) {
    && Get(stored, FIELD_ID) == Some(ObjId(oid))
    && Get(stored, FIELD_CHAT_ID) == Some(Str(chat))
    && Get(request, FIELD_SESSION_ID) == Some(Str(chat))
    && Get(request, FIELD_MESSAGE).Some? && Get(request, FIELD_MESSAGE).value.Obj?
    && Get(MessageOf(request), FIELD_ID) == Some(Str(ObjectIdText(oid)))
    && (forall k :: k != FIELD_ID ==> Get(MessageOf(request), k) == Get(stored, k))
    && Get(request, FIELD_CHAT_HISTORY).Some?
    && OmitsRecord(Get(request, FIELD_CHAT_HISTORY).value, ObjectIdText(oid))
  }

  /** After a successful insert of a document without `_id`, the stored document has the
      fresh ObjectId, and the copy the consumer goes on with has it as text and otherwise
      agrees with the stored one. */
  lemma SentDocMatchesStored(docs: seq<Dict>, messageDoc: Dict, oid: ObjectId)
    requires ObjectIdsOnly(docs) && !HasKey(messageDoc, FIELD_ID)
    requires InsertOne(docs, messageDoc, oid, false).outcome.Success?
    ensures var inserted := InsertOne(docs, messageDoc, oid, false);
            var id := inserted.outcome.value;
            var sentDoc := Set(Set(messageDoc, FIELD_ID, id), FIELD_ID, Str(PyStr(id)));
            && id == ObjId(oid)
            && Get(inserted.docs[|docs|], FIELD_ID) == Some(ObjId(oid))
            && (forall k :: k != FIELD_ID ==> Get(inserted.docs[|docs|], k) == Get(messageDoc, k))
            && Get(sentDoc, FIELD_ID) == Some(Str(ObjectIdText(oid)))
            && (forall k :: k != FIELD_ID ==> Get(sentDoc, k) == Get(messageDoc, k))
  {
    InsertKeepsObjectIds(docs, messageDoc, oid, false);
  }

  /** A payload carrying a copy of the stored document that differs only in its `_id`
      text, and a history that omits it, describes that document. */
  lemma PayloadDescribes(stored: Dict, sentDoc: Dict, chatHistory: Value, chat: string, oid: ObjectId)
    requires Get(stored, FIELD_ID) == Some(ObjId(oid)) && Get(stored, FIELD_CHAT_ID) == Some(Str(chat))
    requires Get(sentDoc, FIELD_ID) == Some(Str(ObjectIdText(oid)))
    requires forall k :: k != FIELD_ID ==> Get(sentDoc, k) == Get(stored, k)
    requires OmitsRecord(chatHistory, ObjectIdText(oid))
    ensures AskedAbout(stored, BuildPayload(Str(chat), Obj(sentDoc), chatHistory, DEFAULT_REFRESH_INDEX), chat, oid)
  {
    var request := BuildPayload(Str(chat), Obj(sentDoc), chatHistory, DEFAULT_REFRESH_INDEX);
    assert Truthy(chatHistory) || chatHistory.Null?;
    assert Get(request, FIELD_CHAT_HISTORY) == Some(chatHistory);
    assert MessageOf(request) == sentDoc;
  }

  /** The payload built right after a successful insert describes the stored document. */
  lemma PayloadAsksAboutStored(docs: seq<Dict>, chat: string, data: Dict, now: string, oid: ObjectId)
    requires StoreInvariant(docs) && ObjectIdsOnly(docs)
    requires InsertOne(docs, CreateMessageDocument(data, Str(chat), now), oid, false).outcome.Success?
    ensures var messageDoc := CreateMessageDocument(data, Str(chat), now);
            var inserted := InsertOne(docs, messageDoc, oid, false);
            var id := inserted.outcome.value;
            var sentDoc := Set(Set(messageDoc, FIELD_ID, id), FIELD_ID, Str(PyStr(id)));
            var hv := HistoryValue(History(inserted.docs, Str(chat), id));
            AskedAbout(inserted.docs[|docs|], BuildPayload(Str(chat), Obj(sentDoc), hv, DEFAULT_REFRESH_INDEX), chat, oid)
  {
    var messageDoc := CreateMessageDocument(data, Str(chat), now);
    var inserted := InsertOne(docs, messageDoc, oid, false);
    SentDocMatchesStored(docs, messageDoc, oid);
    InsertKeepsObjectIds(docs, messageDoc, oid, false);
    var id := inserted.outcome.value;
    var sentDoc := Set(Set(messageDoc, FIELD_ID, id), FIELD_ID, Str(PyStr(id)));
    HistoryValueOmits(inserted.docs, chat, oid);
    PayloadDescribes(inserted.docs[|docs|], sentDoc, HistoryValue(History(inserted.docs, Str(chat), id)), chat, oid);
  }

  /** The gateway is asked only after the user's message was stored: the request is the
      only one of the frame and describes the message just stored (see AskedAbout). */
  lemma RequestFollowsInsert(s: Session, chat: string, data: Dict, o: FrameOracle)
    requires StoreInvariant(s.messages) && ObjectIdsOnly(s.messages)
    ensures var t := PersistAndAsk(s, chat, data, o).after;
            |t.requests| > |s.requests| ==>
              && |t.requests| == |s.requests| + 1
              && |t.messages| > |s.messages|
              && AskedAbout(t.messages[|s.messages|], t.requests[|s.requests|], chat, o.inboundOid)
  {
    var messageDoc := CreateMessageDocument(data, Str(chat), o.inboundNow);
    var inserted := InsertOne(s.messages, messageDoc, o.inboundOid, o.inboundInsertFails);
    if inserted.outcome.Success? && !o.historyFails {
      InsertKeepsStoreInvariant(s.messages, messageDoc, o.inboundOid, o.inboundInsertFails);
      PayloadAsksAboutStored(s.messages, chat, data, o.inboundNow, o.inboundOid);
      var id := inserted.outcome.value;
      var s2 := s.(messages := inserted.docs);
      var sentDoc := Set(Set(messageDoc, FIELD_ID, id), FIELD_ID, Str(PyStr(id)));
      var hv := HistoryValue(History(s2.messages, Str(chat), id));
      AskPostsPayload(s2, chat, sentDoc, hv, o);
      var t := Ask(s2, chat, sentDoc, hv, o).after;
      assert t.messages[|s.messages|] == t.messages[..|s2.messages|][|s.messages|];
      assert t == PersistAndAsk(s, chat, data, o).after;
    } else {
      assert PersistAndAsk(s, chat, data, o).after.requests == s.requests;
    }
  }

  // ---------------------------------------------------------------------------
  // the gateway's answer

  /** A status other than 200 is reported with its code and text; no reply is stored. */
  lemma NonOkAnswerOnlyReports(s: Session, chat: string, response: Response, o: FrameOracle)
    requires StoreInvariant(s.messages)
    requires response.StatusCode() != HTTP_OK
    ensures Answer(s, chat, response, o)
            == Step(s.(frames := s.frames + [ErrorFrame(StatusReport(response))]), None)
  {
    var report := [("status_code", Int(response.StatusCode())), ("text", Str(response.Text()))];
    assert report[1..][1..] == [];
    assert EntriesSerializable(report);
    SendErrorFrame(s, StatusReport(response));
  }

  /** The reply as the client sees it: the reply document, then its `_id` as text, then
      the gateway's whole JSON under `response`. */
  function ReplyAsSent(body: Dict, chat: string, now: string, oid: ObjectId): Dict {
    CreateMessageDocument(body, Str(chat), now) + [(FIELD_ID, Str(ObjectIdText(oid))), (FIELD_RESPONSE, Obj(body))]
  }

  /** Normalising an `ok` frame turns its message's `_id` into text in place. */
  lemma NormalizeOkFrame(reply: Dict, id: Value, copy: Dict)
    requires Get(reply, FIELD_ID) == Some(id)
    requires Set(reply, FIELD_ID, Str(PyStr(id))) == copy
    ensures NormalizeFrame(OkFrame(reply)) == OkFrame(copy)
  {
    var frame := OkFrame(reply);
    assert frame == [frame[0]] + [(FIELD_MESSAGE, Obj(reply))];
    GetCons(frame[0], [(FIELD_MESSAGE, Obj(reply))]);
    GetSingle(FIELD_MESSAGE, Obj(reply));
    assert RESPONSE_OK != FIELD_MESSAGE;
    assert Get(frame, FIELD_MESSAGE) == Some(Obj(reply));
    GetSingle(RESPONSE_OK, Bool(true));
    assert frame[0] == (RESPONSE_OK, Bool(true));
    SetAfter([frame[0]], FIELD_MESSAGE, Obj(reply), Obj(copy), []);
    assert frame == [frame[0]] + [(FIELD_MESSAGE, Obj(reply))] + [];
  }

  /** The stored reply gets its `_id` and then `response` appended, and the id then
      becomes text in place. */
  lemma ReplyWithIdAsText(body: Dict, chat: string, now: string, oid: ObjectId)
    ensures var replyDoc := CreateMessageDocument(body, Str(chat), now);
            var reply := Set(Set(replyDoc, FIELD_ID, ObjId(oid)), FIELD_RESPONSE, Obj(body));
            && Get(reply, FIELD_ID) == Some(ObjId(oid))
            && Set(reply, FIELD_ID, Str(ObjectIdText(oid))) == ReplyAsSent(body, chat, now, oid)
  {
    var replyDoc := CreateMessageDocument(body, Str(chat), now);
    assert !HasKey(replyDoc, FIELD_ID) && !HasKey(replyDoc, FIELD_RESPONSE);
    AppendIdThenResponse(replyDoc, ObjId(oid), Str(ObjectIdText(oid)), Obj(body));
  }

  /** Setting a new `_id` and then a new `response` appends both; replacing the `_id`
      afterwards keeps its place. */
  lemma AppendIdThenResponse(doc: Dict, id: Value, idText: Value, response: Value)
    requires !HasKey(doc, FIELD_ID) && !HasKey(doc, FIELD_RESPONSE)
    ensures var reply := Set(Set(doc, FIELD_ID, id), FIELD_RESPONSE, response);
            && Get(reply, FIELD_ID) == Some(id)
            && Set(reply, FIELD_ID, idText) == doc + [(FIELD_ID, idText), (FIELD_RESPONSE, response)]
  {
    SetAppends(doc, FIELD_ID, id);
    var withId := doc + [(FIELD_ID, id)];
    GetAppend(doc, FIELD_ID, id, FIELD_RESPONSE);
    SetAppends(withId, FIELD_RESPONSE, response);
    var reply := withId + [(FIELD_RESPONSE, response)];
    assert reply == doc + [(FIELD_ID, id)] + [(FIELD_RESPONSE, response)];
    SetAfter(doc, FIELD_ID, id, idText, [(FIELD_RESPONSE, response)]);
    assert doc + [(FIELD_ID, idText)] + [(FIELD_RESPONSE, response)] == doc + [(FIELD_ID, idText), (FIELD_RESPONSE, response)];
  }

  /** Normalising the `ok` frame of a freshly stored reply turns its ObjectId into text. */
  lemma OkFrameNormalizes(body: Dict, chat: string, now: string, oid: ObjectId)
    ensures var replyDoc := CreateMessageDocument(body, Str(chat), now);
            var reply := Set(Set(replyDoc, FIELD_ID, ObjId(oid)), FIELD_RESPONSE, Obj(body));
            NormalizeFrame(OkFrame(reply)) == OkFrame(ReplyAsSent(body, chat, now, oid))
  {
    var replyDoc := CreateMessageDocument(body, Str(chat), now);
    var reply := Set(Set(replyDoc, FIELD_ID, ObjId(oid)), FIELD_RESPONSE, Obj(body));
    ReplyWithIdAsText(body, chat, now, oid);
    assert PyStr(ObjId(oid)) == ObjectIdText(oid);
    NormalizeOkFrame(reply, ObjId(oid), ReplyAsSent(body, chat, now, oid));
  }

  /** The sent reply serialises whenever the gateway's JSON does. */
  lemma ReplyAsSentSerializable(body: Dict, chat: string, now: string, oid: ObjectId)
    requires EntriesSerializable(body)
    ensures JsonSerializable(Obj(OkFrame(ReplyAsSent(body, chat, now, oid))))
  {
    var replyDoc := CreateMessageDocument(body, Str(chat), now);
    if HasKey(body, FIELD_ROLE) {
      GetSerializable(body, FIELD_ROLE);
    }
    if HasKey(body, FIELD_CONTENT) {
      GetSerializable(body, FIELD_CONTENT);
    }
    assert replyDoc[1].1 == GetOrNone(body, FIELD_ROLE) && replyDoc[2].1 == GetOrNone(body, FIELD_CONTENT);
    EntriesSerializableIff(replyDoc);
    var reply := ReplyAsSent(body, chat, now, oid);
    EntriesSerializableIff(reply);
    var frame := OkFrame(reply);
    assert frame[1..][1..] == [];
    assert EntriesSerializable(frame);
  }

  /** A 200 answer whose JSON is an object is stored as a new message under the fresh
      ObjectId (its role and content, the chat, the clock's time) and sent back as the
      only frame: `ok`, and the stored reply with its id as text and the whole JSON under
      `response`. */
  lemma OkAnswerStoredAndSent(s: Session, chat: string, text: string, body: Dict, o: FrameOracle)
    requires StoreInvariant(s.messages)
    requires EntriesSerializable(body)
    requires !o.replyInsertFails && !IdTaken(s.messages, ObjId(o.replyOid))
    ensures var t := Answer(s, chat, HttpResponse(HTTP_OK, text, Decoded(Obj(body))), o);
            && t.raised.None?
            && t.after.(messages := s.messages, frames := s.frames) == s
            && t.after.frames == s.frames + [OkFrame(ReplyAsSent(body, chat, o.replyNow, o.replyOid))]
            && |t.after.messages| == |s.messages| + 1 && t.after.messages[..|s.messages|] == s.messages
            && Get(t.after.messages[|s.messages|], FIELD_ID) == Some(ObjId(o.replyOid))
            && forall k :: k != FIELD_ID ==>
                 Get(t.after.messages[|s.messages|], k) == Get(CreateMessageDocument(body, Str(chat), o.replyNow), k)
  {
    var replyDoc := CreateMessageDocument(body, Str(chat), o.replyNow);
    assert Get(replyDoc, FIELD_ID) == None;
    var inserted := InsertOne(s.messages, replyDoc, o.replyOid, o.replyInsertFails);
    assert inserted.outcome == Success(ObjId(o.replyOid));
    OkFrameNormalizes(body, chat, o.replyNow, o.replyOid);
    ReplyAsSentSerializable(body, chat, o.replyNow, o.replyOid);
  }

  /** The frame that reports a status other than 200 as the consumer writes it, with the
      response object itself (an httpx response or an ErrorResponse) as the error. */
  function AsWrittenStatusFrame(response: Response): Dict {
    ErrorFrame(Opaque(ResponseClassName(response)))
  }

  /** The class of the object the gateway call hands back. */
  function ResponseClassName(response: Response): string {
    if response.ErrorResponse? then "ErrorResponse" else "httpx.Response"
  }

  /** As written, reporting a failed gateway call raises TypeError inside `json.dumps`,
      so the client gets no frame at all. */
  lemma AsWrittenStatusFrameRaises(s: Session, response: Response)
    ensures Send(s, AsWrittenStatusFrame(response)) == Step(s, Some("TypeError"))
  {
    var frame := AsWrittenStatusFrame(response);
    var error := Opaque(ResponseClassName(response));
    GetSingle(RESPONSE_ERRORS, error);
    assert RESPONSE_ERRORS != FIELD_MESSAGE;
    assert !CarriesMessageId(frame);
    assert frame[0].1 == error && !JsonSerializable(error);
    assert !EntriesSerializable(frame);
    assert NormalizeFrame(frame) == frame;
  }

  // ---------------------------------------------------------------------------
  // the user's message is stored

  /** A frame that validates goes on to storing the message under the resolved chat. */
  lemma ValidFrameProceeds(s: Session, payload: Dict, o: FrameOracle)
    requires StoreInvariant(s.messages)
    requires ValidateMessage(payload).Valid?
    ensures var resolved := Resolve(s.chatId, payload, o.freshChatId);
            ReceiveSpec(s, Decoded(Obj(payload)), o)
            == PersistAndAsk(s.(chatId := resolved.session), resolved.chatId, ValidateMessage(payload).data, o)
  {
    ResolvedPayloadValidates(s.chatId, payload, o.freshChatId);
  }

  /** When the insert goes through, the message document is stored right after what was
      there, under the fresh ObjectId, whatever happens afterwards. */
  lemma InboundStored(s: Session, chat: string, data: Dict, o: FrameOracle)
    requires StoreInvariant(s.messages)
    requires !o.inboundInsertFails && !IdTaken(s.messages, ObjId(o.inboundOid))
    ensures var t := PersistAndAsk(s, chat, data, o).after;
            && t.chatId == s.chatId
            && |t.messages| > |s.messages|
            && Get(t.messages[|s.messages|], FIELD_ID) == Some(ObjId(o.inboundOid))
            && forall k :: k != FIELD_ID ==>
                 Get(t.messages[|s.messages|], k) == Get(CreateMessageDocument(data, Str(chat), o.inboundNow), k)
  {
    var messageDoc := CreateMessageDocument(data, Str(chat), o.inboundNow);
    assert Get(messageDoc, FIELD_ID) == None;
    var inserted := InsertOne(s.messages, messageDoc, o.inboundOid, o.inboundInsertFails);
    assert inserted.outcome.Success?;
    PersistAndAskGrowth(s, chat, data, o);
    var t := PersistAndAsk(s, chat, data, o).after;
    assert t.messages[|s.messages|] == t.messages[..|inserted.docs|][|s.messages|];
  }

  /** A valid frame whose insert goes through leaves the user's message stored right
      after what was there, under the fresh ObjectId and the resolved chat, with the
      validated role and content, whatever happens afterwards. */
  lemma ValidFrameIsStored(s: Session, payload: Dict, o: FrameOracle)
    requires StoreInvariant(s.messages)
    requires ValidateMessage(payload).Valid?
    requires !o.inboundInsertFails && !IdTaken(s.messages, ObjId(o.inboundOid))
    ensures var resolved := Resolve(s.chatId, payload, o.freshChatId);
            var data := ValidateMessage(payload).data;
            var t := ReceiveSpec(s, Decoded(Obj(payload)), o).after;
            && t.chatId == resolved.session
            && |t.messages| > |s.messages|
            && Get(t.messages[|s.messages|], FIELD_ID) == Some(ObjId(o.inboundOid))
            && Get(t.messages[|s.messages|], FIELD_CHAT_ID) == Some(Str(resolved.chatId))
            && Get(t.messages[|s.messages|], FIELD_ROLE) == Get(data, FIELD_ROLE)
            && Get(t.messages[|s.messages|], FIELD_CONTENT) == Get(data, FIELD_CONTENT)
  {
    var resolved := Resolve(s.chatId, payload, o.freshChatId);
    var data := ValidateMessage(payload).data;
    assert HasKey(data, FIELD_ROLE) && HasKey(data, FIELD_CONTENT);
    ValidFrameProceeds(s, payload, o);
    InboundStoredFields(s.(chatId := resolved.session), resolved.chatId, data, o);
  }

  /** `InboundStored` for the fields the consumer sets: chat id, role and content. */
  lemma InboundStoredFields(s: Session, chat: string, data: Dict, o: FrameOracle)
    requires StoreInvariant(s.messages)
    requires !o.inboundInsertFails && !IdTaken(s.messages, ObjId(o.inboundOid))
    requires HasKey(data, FIELD_ROLE) && HasKey(data, FIELD_CONTENT)
    ensures var t := PersistAndAsk(s, chat, data, o).after;
            && t.chatId == s.chatId
            && |t.messages| > |s.messages|
            && Get(t.messages[|s.messages|], FIELD_ID) == Some(ObjId(o.inboundOid))
            && Get(t.messages[|s.messages|], FIELD_CHAT_ID) == Some(Str(chat))
            && Get(t.messages[|s.messages|], FIELD_ROLE) == Get(data, FIELD_ROLE)
            && Get(t.messages[|s.messages|], FIELD_CONTENT) == Get(data, FIELD_CONTENT)
  {
    InboundStored(s, chat, data, o);
    var doc := CreateMessageDocument(data, Str(chat), o.inboundNow);
    assert Get(doc, FIELD_CHAT_ID) == Some(Str(chat));
  }

  // ---------------------------------------------------------------------------
  // a worked case

  /** `{"role": "user", "content": "hi"}` validates to itself. */
  lemma UserHiValidates()
    ensures var payload := [(FIELD_ROLE, Str("user")), (FIELD_CONTENT, Str("hi"))];
            ValidateMessage(payload) == Valid(payload)
  {
    var hi := "hi";
    assert !IsSpace(hi[0]) && !IsSpace(hi[|hi| - 1]) && '\0' !in hi;
    CleanMessageValidatesAsIs("user", hi);
  }

  /** `{"role": "user", "content": "hi"}` on a connection whose chat is "X" (as after
      `chat.created`) is stored as a user message "hi" of chat "X". */
  lemma FrameStoredUnderConnectionsChat(s: Session, o: FrameOracle)
    requires StoreInvariant(s.messages) && s.chatId == Some("X")
    requires !o.inboundInsertFails && !IdTaken(s.messages, ObjId(o.inboundOid))
    ensures var t := ReceiveSpec(s, Decoded(Obj([(FIELD_ROLE, Str("user")), (FIELD_CONTENT, Str("hi"))])), o).after;
            && t.chatId == Some("X")
            && |t.messages| > |s.messages|
            && Get(t.messages[|s.messages|], FIELD_CHAT_ID) == Some(Str("X"))
            && Get(t.messages[|s.messages|], FIELD_ROLE) == Some(Str("user"))
            && Get(t.messages[|s.messages|], FIELD_CONTENT) == Some(Str("hi"))
  {
    var payload := [(FIELD_ROLE, Str("user")), (FIELD_CONTENT, Str("hi"))];
    GetCons(payload[0], [payload[1]]);
    GetSingle(FIELD_CONTENT, Str("hi"));
    assert payload == [payload[0]] + [payload[1]];
    assert Get(payload, FIELD_CHAT_ID) == None;
    assert !NamesChat(payload);
    assert Resolve(s.chatId, payload, o.freshChatId).chatId == "X";
    UserHiValidates();
    GetSingle(FIELD_CONTENT, Str("hi"));
    ValidFrameIsStored(s, payload, o);
  }
}
