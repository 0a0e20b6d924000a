/** The client side of the AI gateway: the request payload, the ErrorResponse stand-in
    for a transport failure, the mapping from what the POST did to what the caller
    gets, and the binding of a call's keyword arguments to the client's parameters. */
module FastApiClient {
  import opened Wrappers
  import opened Values
  import opened Constants

  /** What the gateway call hands back: an httpx response (its status, its body text and
      what parsing that body as JSON gives), or the ErrorResponse made from a transport error. */
  datatype Response =
    | HttpResponse(status: int, body: string, parsed: Decoded)
    | ErrorResponse(message: string)
  {
    /** `response.status_code`; an ErrorResponse always reports 500. */
    function StatusCode(): (code: int)
      ensures ErrorResponse? ==> code == HTTP_ERROR
      ensures HttpResponse? ==> code == status
    {
      if HttpResponse? then status else HTTP_ERROR
    }

    /** `response.text`. */
    function Text(): string {
      if HttpResponse? then body else message
    }

    /** `response.json()`: the parsed body, JSONDecodeError for a body that is not JSON,
        and `{"error": text}` for an ErrorResponse. */
    function Json(): (r: Result<Value, string>)
      ensures ErrorResponse? ==> r == Success(Obj([("error", Str(message))]))
      ensures HttpResponse? ==> (r.Failure? <==> parsed.Undecodable?)
      ensures HttpResponse? && parsed.Decoded? ==> r == Success(parsed.value)
    {
      match this
      case ErrorResponse(m) => Success(Obj([("error", Str(m))]))
      case HttpResponse(_, _, Undecodable) => Failure("JSONDecodeError")
      case HttpResponse(_, _, Decoded(v)) => Success(v)
    }
  }

  /** An ErrorResponse never looks like success to a caller that checks for 200, and its
      JSON names the error it was made from. */
  lemma ErrorResponseIsFailure(message: string)
    ensures ErrorResponse(message).StatusCode() != HTTP_OK
    ensures ErrorResponse(message).Text() == message
    ensures Get(ErrorResponse(message).Json().value.entries, "error") == Some(Str(message))
  {
  }

  /** What the POST did: the service answered, httpx raised a RequestError (connection
      failure, timeout and the like; carried by its text), or some other error was raised. */
  datatype PostOutcome =
    | Delivered(status: int, body: string, parsed: Decoded)
    | RequestError(message: string)
    | OtherError(error: string)

  const DEFAULT_REFRESH_INDEX := false

  /** The JSON body of the request: session, message, history (None when empty or missing)
      and the refresh flag, in that order. */
  function BuildPayload(sessionId: Value, message: Value, chatHistory: Value, refreshIndex: bool): (p: Dict)
    ensures Keys(p) == [FIELD_SESSION_ID, FIELD_MESSAGE, FIELD_CHAT_HISTORY, FIELD_REFRESH_INDEX]
    ensures Get(p, FIELD_SESSION_ID) == Some(sessionId)
    ensures Get(p, FIELD_MESSAGE) == Some(message)
    ensures Get(p, FIELD_CHAT_HISTORY) == Some(if Truthy(chatHistory) then chatHistory else Null)
    ensures Get(p, FIELD_REFRESH_INDEX) == Some(Bool(refreshIndex))
  {
    var p := [(FIELD_SESSION_ID, sessionId), (FIELD_MESSAGE, message),
              (FIELD_CHAT_HISTORY, if Truthy(chatHistory) then chatHistory else Null),
              (FIELD_REFRESH_INDEX, Bool(refreshIndex))];
    GetUnique(p);
    assert p[0].0 == FIELD_SESSION_ID && p[1].0 == FIELD_MESSAGE;
    assert p[2].0 == FIELD_CHAT_HISTORY && p[3].0 == FIELD_REFRESH_INDEX;
    p
  }

  /** An empty or missing history reaches the service as None; a non-empty one as it is. */
  lemma PayloadHistory(sessionId: Value, message: Value, history: seq<Value>, refreshIndex: bool)
    ensures Get(BuildPayload(sessionId, message, List([]), refreshIndex), FIELD_CHAT_HISTORY) == Some(Null)
    ensures Get(BuildPayload(sessionId, message, Null, refreshIndex), FIELD_CHAT_HISTORY) == Some(Null)
    ensures history != [] ==>
              Get(BuildPayload(sessionId, message, List(history), refreshIndex), FIELD_CHAT_HISTORY)
              == Some(List(history))
  {
  }

  /** `send_chat_request`: the payload is encoded as JSON (a value json cannot encode raises
      TypeError before anything is sent), then posted; a RequestError becomes an
      ErrorResponse, any other error propagates. */
  function SendChatRequest(endpoint: string, message: Value, sessionId: Value, chatHistory: Value,
                           refreshIndex: bool, outcome: PostOutcome): (r: Result<Response, string>)
    ensures r.Failure? <==>
              !JsonSerializable(Obj(BuildPayload(sessionId, message, chatHistory, refreshIndex)))
              || outcome.OtherError?
    ensures r.Success? && outcome.RequestError? ==>
              r.value == ErrorResponse(outcome.message) && r.value.StatusCode() == HTTP_ERROR
    ensures r.Success? && outcome.Delivered? ==>
              r.value.StatusCode() == outcome.status && r.value.Text() == outcome.body
    ensures r.Success? && outcome.Delivered? ==>
              r.value == HttpResponse(outcome.status, outcome.body, outcome.parsed)
  {
    var payload := BuildPayload(sessionId, message, chatHistory, refreshIndex);
    if !JsonSerializable(Obj(payload)) then Failure("TypeError")
    else
      match outcome
      case Delivered(status, body, parsed) => Success(HttpResponse(status, body, parsed))
      case RequestError(text) => Success(ErrorResponse(text))
      case OtherError(error) => Failure(error)
  }

  // ---------------------------------------------------------------------------
  // binding a call's keyword arguments

  const SEND_CHAT_REQUEST_PARAMETERS := ["endpoint", "message", "session_id", "chat_history", "refresh_index"]
  const SEND_CHAT_REQUEST_REQUIRED := ["endpoint", "message", "session_id"]

  /** The first keyword that names no parameter of `send_chat_request`. */
  function FirstUnexpected(keywords: seq<string>): (r: Option<string>)
    ensures r.None? <==> forall k :: k in keywords ==> k in SEND_CHAT_REQUEST_PARAMETERS
    ensures r.Some? ==> r.value in keywords && r.value !in SEND_CHAT_REQUEST_PARAMETERS
  {
    if keywords == [] then None
    else if keywords[0] !in SEND_CHAT_REQUEST_PARAMETERS then Some(keywords[0])
    else FirstUnexpected(keywords[1..])
  }

  /** The parameters without a default that no keyword supplies, in declaration order. */
  function MissingArguments(keywords: seq<string>, required: seq<string>): (r: seq<string>)
    ensures forall p :: p in r <==> p in required && p !in keywords
    ensures |r| <= |required|
  {
    if required == [] then []
    else if required[0] !in keywords then [required[0]] + MissingArguments(keywords, required[1..])
    else MissingArguments(keywords, required[1..])
  }

  /** The TypeError Python raises for a keyword that names no parameter. */
  function UnexpectedKeywordError(keyword: string): string {
    "TypeError: FastAPIClient.send_chat_request() got an unexpected keyword argument '" + keyword + "'"
  }

  /** The TypeError Python raises for required parameters left unsupplied. */
  function MissingArgumentsError(missing: seq<string>): string
    requires missing != []
  {
    "TypeError: FastAPIClient.send_chat_request() missing " + IntText(|missing|)
    + (if |missing| == 1 then " required positional argument: " else " required positional arguments: ")
    + QuotedNames(missing)
  }

  /** Names in single quotes, joined as Python's messages join them: `'a'`, `'a' and 'b'`,
      `'a', 'b', and 'c'`. */
  function QuotedNames(names: seq<string>): string
    requires names != []
  {
    if |names| == 1 then "'" + names[0] + "'"
    else if |names| == 2 then "'" + names[0] + "' and '" + names[1] + "'"
    else CommaNames(names[..|names| - 1]) + ", and '" + names[|names| - 1] + "'"
  }

  function CommaNames(names: seq<string>): string
    requires names != []
  {
    if |names| == 1 then "'" + names[0] + "'" else "'" + names[0] + "', " + CommaNames(names[1..])
  }

  /** Python's binding of keyword arguments to `send_chat_request`: an unknown keyword
      raises TypeError first, then the required parameters left unsupplied do. */
  function BindSendChatRequest(keywords: seq<string>): (r: Result<(), string>)
    ensures r.Success? <==>
              (forall k :: k in keywords ==> k in SEND_CHAT_REQUEST_PARAMETERS)
              && (forall p :: p in SEND_CHAT_REQUEST_REQUIRED ==> p in keywords)
  {
    match FirstUnexpected(keywords)
    case Some(k) => Failure(UnexpectedKeywordError(k))
    case None =>
      var missing := MissingArguments(keywords, SEND_CHAT_REQUEST_REQUIRED);
      assert missing != [] ==> missing[0] in missing;
      if missing != [] then Failure(MissingArgumentsError(missing)) else Success(())
  }

  /** A call that supplies only the endpoint is refused naming the two parameters it lacks. */
  lemma MissingMessageAndSession()
    ensures BindSendChatRequest(["endpoint"]) == Failure(MissingArgumentsError(["message", "session_id"]))
  {
    var keywords := ["endpoint"];
    assert FirstUnexpected(keywords) == None by {
      assert FirstUnexpected(keywords[1..]) == None;
    }
    assert MissingArguments(keywords, SEND_CHAT_REQUEST_REQUIRED) == ["message", "session_id"] by {
      var req := SEND_CHAT_REQUEST_REQUIRED;
      assert req[1..][1..][1..] == [];
      assert "message" != "endpoint" && "session_id" != "endpoint";
    }
  }

  /** The keywords of the call in the consumer as written. */
  const CONSUMER_CALL_KEYWORDS := ["endpoint", "new_message", "chat_history"]

  /** The keywords of the call the consumer evidently means: the message document as
      `message` and the chat id as `session_id`. */
  const CORRECTED_CALL_KEYWORDS := ["endpoint", "message", "session_id", "chat_history"]

  /** The call as written raises TypeError on its `new_message` keyword before any request is made. */
  lemma ConsumerCallRaises()
    ensures BindSendChatRequest(CONSUMER_CALL_KEYWORDS)
            == Failure(UnexpectedKeywordError("new_message"))
  {
    var keywords := CONSUMER_CALL_KEYWORDS;
    assert keywords[0] in SEND_CHAT_REQUEST_PARAMETERS;
    assert keywords[1..][0] == "new_message" && "new_message" !in SEND_CHAT_REQUEST_PARAMETERS;
    assert FirstUnexpected(keywords[1..]) == Some("new_message");
    assert FirstUnexpected(keywords) == Some("new_message");
  }

  /** The corrected call binds, with `refresh_index` left at its default. */
  lemma CorrectedCallBinds()
    ensures BindSendChatRequest(CORRECTED_CALL_KEYWORDS).Success?
    ensures "refresh_index" !in CORRECTED_CALL_KEYWORDS
  {
    assert forall k :: k in CORRECTED_CALL_KEYWORDS ==> k in SEND_CHAT_REQUEST_PARAMETERS;
    assert forall p :: p in SEND_CHAT_REQUEST_REQUIRED ==> p in CORRECTED_CALL_KEYWORDS;
  }
}
