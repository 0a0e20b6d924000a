/** The record shapers of the chat app: the message validator (role and content
    rules of MessageSerializer, as Django REST framework's CharField applies
    them), the dict-building `create` and `to_representation` of
    MessageSerializer, and ChatSerializer's `create` and in-place `update`. */
module Serializers {
  import opened Wrappers
  import opened Values
  import opened Constants

  // ---------------------------------------------------------------------------
  // CharField validation

  // the error texts of Django REST framework's CharField and of validate_role
  const REQUIRED_MSG := "This field is required."
  const NULL_MSG := "This field may not be null."
  const BLANK_MSG := "This field may not be blank."
  const INVALID_MSG := "Not a valid string."
  const NULL_CHARACTERS_MSG := "Null characters are not allowed."
  const INVALID_ROLE_MSG := "Invalid role"

  function MaxLengthMsg(n: nat): string {
    "Ensure this field has no more than " + NatText(n) + " characters."
  }

  /** ROLE_CHOICES as (value, label) pairs. */
  const ROLE_CHOICES: seq<(string, string)> := [("user", "User"), ("chatbot", "Chatbot")]

  const ROLE_DEFAULT := "user"
  const ROLE_MAX_LENGTH := 16
  const CONTENT_MAX_LENGTH := 1000

  /** A field either yields its validated value or a list of error messages. */
  datatype FieldResult = Accepted(value: string) | Rejected(messages: seq<string>)

  /** The text a CharField accepts `v` as: `str(v).strip()`, for strings and ints only. */
  predicate AcceptableText(v: Value, maxLength: nat) {
    (v.Str? || v.Int?)
    && var t := Strip(PyStr(v));
    t != "" && |t| <= maxLength && '\0' !in t
  }

  /** `CharField(max_length=maxLength[, default=default]).run_validation` on the value
      stored under the field's key (`data` is None when the key is absent).  The field
      allows neither blank nor null values and trims whitespace.  A length error and a
      NUL error are both reported, in that order. */
  function RunCharField(data: Option<Value>, default: Option<string>, maxLength: nat): (r: FieldResult)
    ensures r.Accepted? <==> (data.None? && default.Some?) || (data.Some? && AcceptableText(data.value, maxLength))
    ensures r.Accepted? && data.None? ==> r.value == default.value
    ensures r.Accepted? && data.Some? ==> r.value == Strip(PyStr(data.value)) && |r.value| <= maxLength
    ensures r.Rejected? ==> r.messages != []
    ensures data == Some(Null) ==> r == Rejected([NULL_MSG])
    ensures data.None? && default.None? ==> r == Rejected([REQUIRED_MSG])
  {
    if data.Some? && data.value.Str? && Strip(data.value.s) == "" then Rejected([BLANK_MSG])
    else if data.None? then
      (if default.Some? then Accepted(default.value) else Rejected([REQUIRED_MSG]))
    else if data.value.Null? then Rejected([NULL_MSG])
    else if !(data.value.Str? || data.value.Int?) then Rejected([INVALID_MSG])
    else RunTextValidators(data.value, maxLength)
  }

  /** The last stage of a CharField: `str(v).strip()`, then the max-length and the
      no-NUL validators, whose messages accumulate. */
  function RunTextValidators(v: Value, maxLength: nat): (r: FieldResult)
    requires v.Str? || v.Int?
    requires !(v.Str? && Strip(v.s) == "")
    ensures r.Accepted? <==> AcceptableText(v, maxLength)
    ensures r.Accepted? ==> r.value == Strip(PyStr(v))
    ensures r.Rejected? ==> r.messages != []
    ensures r.Rejected? ==> (MaxLengthMsg(maxLength) in r.messages <==> |Strip(PyStr(v))| > maxLength)
    ensures r.Rejected? ==> (NULL_CHARACTERS_MSG in r.messages <==> '\0' in Strip(PyStr(v)))
  {
    var text := Strip(PyStr(v));
    var messages := ValidatorMessages(text, maxLength);
    if messages == [] then
      StrippedTextNonEmpty(v);
      Accepted(text)
    else
      Rejected(messages)
  }

  /** The messages of the max-length validator and then the no-NUL validator, each present
      exactly when its validator refuses the text. */
  function ValidatorMessages(text: string, maxLength: nat): (m: seq<string>)
    ensures MaxLengthMsg(maxLength) in m <==> |text| > maxLength
    ensures NULL_CHARACTERS_MSG in m <==> '\0' in text
    ensures m == [] <==> |text| <= maxLength && '\0' !in text
  {
    assert MaxLengthMsg(maxLength)[0] != NULL_CHARACTERS_MSG[0];
    (if |text| > maxLength then [MaxLengthMsg(maxLength)] else [])
    + (if '\0' in text then [NULL_CHARACTERS_MSG] else [])
  }

  /** A text or an int that is not blank keeps something after `str(v).strip()`. */
  lemma StrippedTextNonEmpty(v: Value)
    requires v.Str? || v.Int?
    requires !(v.Str? && Strip(v.s) == "")
    ensures Strip(PyStr(v)) != ""
  {
    if v.Int? {
      var t := IntText(v.i);
      assert PyStr(v) == t;
      assert !IsSpace(t[0]) && !IsSpace(t[|t| - 1]);
      StripClean(t);
    }
  }

  /** `validate_role`: only the values of ROLE_CHOICES pass. */
  function ValidateRole(value: string): (r: Result<string, string>)
    ensures r.Success? <==> value == "user" || value == "chatbot"
    ensures r.Success? ==> r.value == value
    ensures r.Failure? ==> r.error == INVALID_ROLE_MSG
  {
    if exists i :: 0 <= i < |ROLE_CHOICES| && ROLE_CHOICES[i].0 == value then Success(value)
    else
      assert ROLE_CHOICES[0].0 == "user" && ROLE_CHOICES[1].0 == "chatbot";
      Failure(INVALID_ROLE_MSG)
  }

  /** The `role` field: `CharField(max_length=16, default="user")`, then `validate_role`. */
  function RoleField(payload: Dict): (r: FieldResult)
    ensures r.Accepted? ==> r.value == "user" || r.value == "chatbot"
    ensures r.Accepted? ==>
              r.value == (if Get(payload, FIELD_ROLE).Some? then Strip(PyStr(Get(payload, FIELD_ROLE).value))
                          else ROLE_DEFAULT)
    ensures r.Rejected? ==> r.messages != []
  {
    match RunCharField(Get(payload, FIELD_ROLE), Some(ROLE_DEFAULT), ROLE_MAX_LENGTH)
    case Rejected(m) => Rejected(m)
    case Accepted(v) =>
      match ValidateRole(v)
      case Success(role) => Accepted(role)
      case Failure(e) => Rejected([e])
  }

  /** The `content` field: `CharField(max_length=1000)`, required. */
  function ContentField(payload: Dict): (r: FieldResult)
    ensures r.Accepted? ==> 0 < |r.value| <= CONTENT_MAX_LENGTH
    ensures r.Accepted? ==>
              Get(payload, FIELD_CONTENT).Some? && r.value == Strip(PyStr(Get(payload, FIELD_CONTENT).value))
    ensures r.Rejected? ==> r.messages != []
  {
    RunCharField(Get(payload, FIELD_CONTENT), None, CONTENT_MAX_LENGTH)
  }

  /** The outcome of `MessageSerializer(data=payload).is_valid()`: the validated data,
      or the `errors` dict mapping each failing field to its messages. */
  datatype Validation = Valid(data: Dict) | Invalid(errors: Dict)

  /** `is_valid()`: the read-only fields `id` and `created_at` are ignored, the other keys
      of the payload (such as `chat_id`) are dropped, and the fields are checked in
      declaration order. */
  function ValidateMessage(payload: Dict): (r: Validation)
    ensures r.Valid? ==> Keys(r.data) == [FIELD_ROLE, FIELD_CONTENT]
    ensures r.Valid? ==>
              && RoleField(payload).Accepted? && ContentField(payload).Accepted?
              && Get(r.data, FIELD_ROLE) == Some(Str(RoleField(payload).value))
              && Get(r.data, FIELD_CONTENT) == Some(Str(ContentField(payload).value))
    ensures r.Valid? ==> Get(r.data, FIELD_ROLE) in {Some(Str("user")), Some(Str("chatbot"))}
    ensures r.Valid? ==> exists c :: Get(r.data, FIELD_CONTENT) == Some(Str(c)) && 0 < |c| <= CONTENT_MAX_LENGTH
    ensures r.Invalid? ==> r.errors != [] && forall k :: HasKey(r.errors, k) ==> k == FIELD_ROLE || k == FIELD_CONTENT
    ensures r.Invalid? ==> EntriesSerializable(r.errors)
    ensures r.Invalid? ==> (HasKey(r.errors, FIELD_ROLE) <==> RoleField(payload).Rejected?)
    ensures r.Invalid? ==> (HasKey(r.errors, FIELD_CONTENT) <==> ContentField(payload).Rejected?)
    ensures r.Invalid? && RoleField(payload).Rejected? ==>
              Get(r.errors, FIELD_ROLE) == Some(MessageList(RoleField(payload).messages))
    ensures r.Invalid? && ContentField(payload).Rejected? ==>
              Get(r.errors, FIELD_CONTENT) == Some(MessageList(ContentField(payload).messages))
  {
    var role := RoleField(payload);
    var content := ContentField(payload);
    if role.Accepted? && content.Accepted? then Valid(ValidatedData(role.value, content.value))
    else Invalid(ErrorDict(role, content))
  }

  /** The validated data is the list role, then content, holding the values the two fields
      accepted. */
  lemma ValidatedDataFromFields(payload: Dict)
    ensures ValidateMessage(payload).Valid? ==>
              ValidateMessage(payload).data
              == [(FIELD_ROLE, Str(RoleField(payload).value)), (FIELD_CONTENT, Str(ContentField(payload).value))]
  {
    var r := ValidateMessage(payload);
    if r.Valid? {
      TwoKeyDict(r.data, FIELD_ROLE, Str(RoleField(payload).value), FIELD_CONTENT, Str(ContentField(payload).value));
    }
  }

  /** `serializer.validated_data`: the role, then the content. */
  function ValidatedData(role: string, content: string): (d: Dict)
    ensures Keys(d) == [FIELD_ROLE, FIELD_CONTENT]
    ensures Get(d, FIELD_ROLE) == Some(Str(role)) && Get(d, FIELD_CONTENT) == Some(Str(content))
  {
    var d := [(FIELD_ROLE, Str(role)), (FIELD_CONTENT, Str(content))];
    assert d[1..] == [(FIELD_CONTENT, Str(content))] && d[1..][1..] == [];
    d
  }

  /** `serializer.errors`: each rejected field with its messages, in field order. */
  function ErrorDict(role: FieldResult, content: FieldResult): (errors: Dict)
    requires role.Rejected? || content.Rejected?
    ensures errors != []
    ensures forall k :: HasKey(errors, k) ==> k == FIELD_ROLE || k == FIELD_CONTENT
    ensures EntriesSerializable(errors)
    ensures HasKey(errors, FIELD_ROLE) <==> role.Rejected?
    ensures HasKey(errors, FIELD_CONTENT) <==> content.Rejected?
    ensures role.Rejected? ==> Get(errors, FIELD_ROLE) == Some(MessageList(role.messages))
    ensures content.Rejected? ==> Get(errors, FIELD_CONTENT) == Some(MessageList(content.messages))
  {
    var roleErrors := if role.Rejected? then [(FIELD_ROLE, MessageList(role.messages))] else [];
    var contentErrors := if content.Rejected? then [(FIELD_CONTENT, MessageList(content.messages))] else [];
    var errors := roleErrors + contentErrors;
    assert Keys(errors) == (if role.Rejected? then [FIELD_ROLE] else []) + (if content.Rejected? then [FIELD_CONTENT] else []);
    HasKeyIff(errors, FIELD_ROLE);
    HasKeyIff(errors, FIELD_CONTENT);
    assert forall k :: HasKey(errors, k) ==> k == FIELD_ROLE || k == FIELD_CONTENT by {
      forall k | HasKey(errors, k) ensures k == FIELD_ROLE || k == FIELD_CONTENT {
        HasKeyIff(errors, k);
        var i :| 0 <= i < |errors| && Keys(errors)[i] == k;
      }
    }
    EntriesSerializableIff(errors);
    errors
  }

  /** A list of message texts as a JSON value. */
  function MessageList(messages: seq<string>): (v: Value)
    ensures v.List? && |v.items| == |messages|
    ensures JsonSerializable(v)
  {
    var v := List(seq(|messages|, i requires 0 <= i < |messages| => Str(messages[i])));
    ItemsSerializableIff(v.items);
    v
  }

  /** The message rules stated on their own: `role` is absent or one of the two choices
      after stripping; `content` is present, a string or int, and strips to between 1 and
      1000 characters without a NUL. */
  predicate MessageRulesHold(payload: Dict) {
    && (match Get(payload, FIELD_ROLE)
        case None => true
        case Some(v) => (v.Str? || v.Int?) && Strip(PyStr(v)) in {"user", "chatbot"})
    && (match Get(payload, FIELD_CONTENT)
        case None => false
        case Some(v) => AcceptableText(v, CONTENT_MAX_LENGTH))
  }

  /** A payload validates exactly when it meets the message rules. */
  lemma ValidateMessageIff(payload: Dict)
    ensures ValidateMessage(payload).Valid? <==> MessageRulesHold(payload)
  {
    RoleFieldIff(payload);
    assert ContentField(payload).Accepted? <==>
      (match Get(payload, FIELD_CONTENT)
       case None => false
       case Some(v) => AcceptableText(v, CONTENT_MAX_LENGTH));
  }

  /** Text without surrounding whitespace, within the length and without NUL passes a
      CharField unchanged. */
  lemma CleanTextPasses(w: string, default: Option<string>, maxLength: nat)
    requires w != [] && !IsSpace(w[0]) && !IsSpace(w[|w| - 1])
    requires |w| <= maxLength && '\0' !in w
    ensures RunCharField(Some(Str(w)), default, maxLength) == Accepted(w)
  {
    StripClean(w);
  }

  lemma RoleFieldIff(payload: Dict)
    ensures RoleField(payload).Accepted? <==>
      match Get(payload, FIELD_ROLE)
      case None => true
      case Some(v) => (v.Str? || v.Int?) && Strip(PyStr(v)) in {"user", "chatbot"}
  {
    match Get(payload, FIELD_ROLE)
    case None =>
    case Some(v) =>
      var run := RunCharField(Some(v), Some(ROLE_DEFAULT), ROLE_MAX_LENGTH);
      if run.Accepted? {
        assert run.value == Strip(PyStr(v));
      } else if (v.Str? || v.Int?) && Strip(PyStr(v)) in {"user", "chatbot"} {
        RoleChoiceAcceptable(v);
      }
  }

  /** A value that strips to a role choice passes the role's CharField. */
  lemma RoleChoiceAcceptable(v: Value)
    requires v.Str? || v.Int?
    requires Strip(PyStr(v)) in {"user", "chatbot"}
    ensures AcceptableText(v, ROLE_MAX_LENGTH)
  {
    var t := Strip(PyStr(v));
    if t == "user" {
      assert '\0' !in t;
    } else {
      assert '\0' !in t;
    }
  }

  /** A payload without a `role` key validates to role "user". */
  lemma RoleDefaultsToUser(payload: Dict)
    requires !HasKey(payload, FIELD_ROLE)
    requires ValidateMessage(payload).Valid?
    ensures Get(ValidateMessage(payload).data, FIELD_ROLE) == Some(Str("user"))
  {
  }

  /** A message whose role is a choice and whose content is already clean validates to
      itself. */
  lemma CleanMessageValidatesAsIs(role: string, content: string)
    requires role == "user" || role == "chatbot"
    requires content != [] && !IsSpace(content[0]) && !IsSpace(content[|content| - 1])
    requires |content| <= CONTENT_MAX_LENGTH && '\0' !in content
    ensures var payload := [(FIELD_ROLE, Str(role)), (FIELD_CONTENT, Str(content))];
            ValidateMessage(payload) == Valid(payload)
  {
    var payload := [(FIELD_ROLE, Str(role)), (FIELD_CONTENT, Str(content))];
    GetCons(payload[0], [payload[1]]);
    GetSingle(FIELD_CONTENT, Str(content));
    assert payload == [payload[0]] + [payload[1]];
    assert Get(payload, FIELD_ROLE) == Some(Str(role));
    assert Get(payload, FIELD_CONTENT) == Some(Str(content));
    assert !IsSpace(role[0]) && !IsSpace(role[|role| - 1]) && '\0' !in role;
    CleanTextPasses(role, Some(ROLE_DEFAULT), ROLE_MAX_LENGTH);
    CleanTextPasses(content, None, CONTENT_MAX_LENGTH);
    assert RoleField(payload) == Accepted(role);
    assert ContentField(payload) == Accepted(content);
  }

  /** Whitespace around the content is stripped before it is checked and kept. */
  lemma ContentIsStripped(payload: Dict, c: string)
    requires Get(payload, FIELD_CONTENT) == Some(Str(c))
    requires ValidateMessage(payload).Valid?
    ensures Get(ValidateMessage(payload).data, FIELD_CONTENT) == Some(Str(Strip(c)))
  {
  }

  // ---------------------------------------------------------------------------
  // MessageSerializer.create and to_representation

  /** `MessageSerializer.create`: a copy of the validated data with `id` (a fresh UUID)
      and `created_at` (the clock's now) added where missing. */
  function CreateMessageRecord(validated: Dict, freshId: string, now: string): (r: Dict)
    ensures Get(r, "id") == if HasKey(validated, "id") then Get(validated, "id") else Some(Uuid(freshId))
    ensures Get(r, FIELD_CREATED_AT) ==
            if HasKey(validated, FIELD_CREATED_AT) then Get(validated, FIELD_CREATED_AT) else Some(DateTime(now))
    ensures forall k :: k != "id" && k != FIELD_CREATED_AT ==> Get(r, k) == Get(validated, k)
    ensures forall k :: HasKey(validated, k) ==> Get(r, k) == Get(validated, k)
    ensures Keys(validated) <= Keys(r)
  {
    SetDefault(SetDefault(validated, "id", Uuid(freshId)), FIELD_CREATED_AT, DateTime(now))
  }

  /** Creating twice changes nothing the second time: no default overwrites a value. */
  lemma CreateMessageRecordIdempotent(validated: Dict, id1: string, now1: string, id2: string, now2: string)
    ensures CreateMessageRecord(CreateMessageRecord(validated, id1, now1), id2, now2)
            == CreateMessageRecord(validated, id1, now1)
  {
  }

  /** `MessageSerializer.to_representation`: for a dict, a copy whose UUID `id` becomes
      its text and whose datetime `created_at` becomes its isoformat; any other instance
      has no `content` attribute, so the field-by-field path raises AttributeError. */
  function ToRepresentation(instance: Value): (r: Result<Dict, string>)
    ensures instance.Obj? <==> r.Success?
    ensures r.Failure? ==> r.error == "AttributeError"
    ensures r.Success? ==> Keys(r.value) == Keys(instance.entries)
    ensures r.Success? ==> Get(r.value, "id") == UuidAsText(Get(instance.entries, "id"))
    ensures r.Success? ==> Get(r.value, FIELD_CREATED_AT) == DateTimeAsText(Get(instance.entries, FIELD_CREATED_AT))
    ensures r.Success? ==> forall k :: k != "id" && k != FIELD_CREATED_AT ==> Get(r.value, k) == Get(instance.entries, k)
  {
    if instance.Obj? then Success(CreatedAtAsText(IdAsText(instance.entries)))
    else Failure("AttributeError")
  }

  /** The `id` field of the representation: a UUID `id` is replaced in place by its text. */
  function IdAsText(d: Dict): (r: Dict)
    ensures Keys(r) == Keys(d)
    ensures Get(r, "id") == UuidAsText(Get(d, "id"))
    ensures forall k :: k != "id" ==> Get(r, k) == Get(d, k)
  {
    match Get(d, "id")
    case Some(Uuid(t)) => (SetKeys(d, "id", Str(t)); Set(d, "id", Str(t)))
    case _ => d
  }

  /** The `created_at` field of the representation: a datetime is replaced in place by its
      isoformat. */
  function CreatedAtAsText(d: Dict): (r: Dict)
    ensures Keys(r) == Keys(d)
    ensures Get(r, FIELD_CREATED_AT) == DateTimeAsText(Get(d, FIELD_CREATED_AT))
    ensures forall k :: k != FIELD_CREATED_AT ==> Get(r, k) == Get(d, k)
  {
    match Get(d, FIELD_CREATED_AT)
    case Some(DateTime(iso)) => (SetKeys(d, FIELD_CREATED_AT, Str(iso)); Set(d, FIELD_CREATED_AT, Str(iso)))
    case _ => d
  }

  /** A UUID becomes its text; anything else stays as it is. */
  function UuidAsText(v: Option<Value>): Option<Value> {
    match v
    case Some(Uuid(t)) => Some(Str(t))
    case other => other
  }

  /** A datetime becomes its isoformat; anything else stays as it is. */
  function DateTimeAsText(v: Option<Value>): Option<Value> {
    match v
    case Some(DateTime(iso)) => Some(Str(iso))
    case other => other
  }

  /** A record made by `create` from validated data is represented with the fresh id's
      text and the clock's isoformat, and its role and content untouched. */
  lemma RepresentCreatedRecord(validated: Dict, freshId: string, now: string)
    requires !HasKey(validated, "id") && !HasKey(validated, FIELD_CREATED_AT)
    ensures var r := ToRepresentation(Obj(CreateMessageRecord(validated, freshId, now)));
            && r.Success?
            && Get(r.value, "id") == Some(Str(freshId))
            && Get(r.value, FIELD_CREATED_AT) == Some(Str(now))
            && Get(r.value, FIELD_ROLE) == Get(validated, FIELD_ROLE)
            && Get(r.value, FIELD_CONTENT) == Get(validated, FIELD_CONTENT)
  {
  }

  /** Representing a representation changes nothing more. */
  lemma ToRepresentationIdempotent(instance: Value)
    requires instance.Obj?
    ensures ToRepresentation(Obj(ToRepresentation(instance).value)) == ToRepresentation(instance)
  {
    var once := ToRepresentation(instance).value;
    assert !(Get(once, "id").Some? && Get(once, "id").value.Uuid?);
    assert !(Get(once, FIELD_CREATED_AT).Some? && Get(once, FIELD_CREATED_AT).value.DateTime?);
  }

  // ---------------------------------------------------------------------------
  // ChatSerializer

  /** `ChatSerializer.create`: a copy of the validated data with defaults for the missing
      fields only: a fresh UUID `id`, title "", status "draft", and one `now` for both
      timestamps. */
  function CreateChatRecord(validated: Dict, freshId: string, now: string): (r: Dict)
    ensures forall k :: HasKey(validated, k) ==> Get(r, k) == Get(validated, k)
    ensures !HasKey(validated, "id") ==> Get(r, "id") == Some(Uuid(freshId))
    ensures !HasKey(validated, FIELD_TITLE) ==> Get(r, FIELD_TITLE) == Some(Str(""))
    ensures !HasKey(validated, FIELD_STATUS) ==> Get(r, FIELD_STATUS) == Some(Str(CHAT_STATUS_DRAFT))
    ensures !HasKey(validated, FIELD_CREATED_AT) ==> Get(r, FIELD_CREATED_AT) == Some(DateTime(now))
    ensures !HasKey(validated, FIELD_UPDATED_AT) ==> Get(r, FIELD_UPDATED_AT) == Some(DateTime(now))
    ensures forall k :: !HasKey(validated, k) && k !in ChatDefaultKeys ==> Get(r, k) == None
  {
    var d := SetDefault(validated, "id", Uuid(freshId));
    var d := SetDefault(d, FIELD_TITLE, Str(""));
    var d := SetDefault(d, FIELD_STATUS, Str(CHAT_STATUS_DRAFT));
    var d := SetDefault(d, FIELD_CREATED_AT, DateTime(now));
    SetDefault(d, FIELD_UPDATED_AT, DateTime(now))
  }

  const ChatDefaultKeys: set<string> := {"id", FIELD_TITLE, FIELD_STATUS, FIELD_CREATED_AT, FIELD_UPDATED_AT}

  /** A new chat made from data without timestamps has equal `created_at` and `updated_at`. */
  lemma NewChatTimestampsAgree(validated: Dict, freshId: string, now: string)
    requires !HasKey(validated, FIELD_CREATED_AT) && !HasKey(validated, FIELD_UPDATED_AT)
    ensures var r := CreateChatRecord(validated, freshId, now);
            Get(r, FIELD_CREATED_AT) == Get(r, FIELD_UPDATED_AT) != None
  {
  }

  /** The dict `ChatSerializer.update` leaves behind: `validated` merged over `entries`,
      then `updated_at` set to the clock's now. */
  function MergeChat(entries: Dict, validated: Dict, now: string): (r: Dict)
    requires UniqueKeys(validated)
    ensures Get(r, FIELD_UPDATED_AT) == Some(DateTime(now))
    ensures forall k :: k != FIELD_UPDATED_AT ==>
              Get(r, k) == if HasKey(validated, k) then Get(validated, k) else Get(entries, k)
  {
    Set(Update(entries, validated), FIELD_UPDATED_AT, DateTime(now))
  }

  /** A Python object handed to `ChatSerializer.update`; it is changed in place. */
  class Instance {
    var value: Value

    constructor (v: Value)
      ensures value == v
    {
      value := v;
    }
  }

  /** `ChatSerializer.update`: a dict instance is merged in place and returned itself;
      anything else raises TypeError and is left alone. */
  method UpdateChat(instance: Instance, validated: Dict, now: string) returns (r: Result<Instance, string>)
    requires UniqueKeys(validated)
    modifies instance
    ensures old(instance.value).Obj? ==>
              r == Success(instance) && instance.value == Obj(MergeChat(old(instance.value).entries, validated, now))
    ensures !old(instance.value).Obj? ==> r == Failure("TypeError") && instance.value == old(instance.value)
  {
    if instance.value.Obj? {
      instance.value := Obj(Update(instance.value.entries, validated));
      instance.value := Obj(Set(instance.value.entries, FIELD_UPDATED_AT, DateTime(now)));
      return Success(instance);
    }
    return Failure("TypeError");
  }
}
