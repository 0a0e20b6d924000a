/** The Mongo side of the chat app: the `chats` and `messages` collections as
    sequences of stored documents, message-document construction, insertion
    with a store-generated id, the chat history query (filter, sort, copy and
    strip), and the response-file upload that records a file URL on a message. */
module Data {
  import opened Wrappers
  import opened Values
  import opened Constants

  // ---------------------------------------------------------------------------
  // message documents

  /** `create_message_document`: exactly `chat_id` (as text), `role`, `content` (copied,
      None where absent) and `created_at` (the clock's isoformat), in that order. */
  function CreateMessageDocument(validated: Dict, chatId: Value, now: string): (r: Dict)
    ensures Keys(r) == [FIELD_CHAT_ID, FIELD_ROLE, FIELD_CONTENT, FIELD_CREATED_AT]
    ensures Get(r, FIELD_CHAT_ID) == Some(Str(PyStr(chatId)))
    ensures Get(r, FIELD_ROLE) == if HasKey(validated, FIELD_ROLE) then Get(validated, FIELD_ROLE) else Some(Null)
    ensures Get(r, FIELD_CONTENT) == if HasKey(validated, FIELD_CONTENT) then Get(validated, FIELD_CONTENT) else Some(Null)
    ensures Get(r, FIELD_CREATED_AT) == Some(Str(now))
    ensures forall k :: k !in Keys(r) ==> Get(r, k) == None
  {
    var r := [(FIELD_CHAT_ID, Str(PyStr(chatId))),
              (FIELD_ROLE, GetOrNone(validated, FIELD_ROLE)),
              (FIELD_CONTENT, GetOrNone(validated, FIELD_CONTENT)),
              (FIELD_CREATED_AT, Str(now))];
    GetCons(r[3], []);
    GetCons(r[2], r[3..]);
    GetCons(r[1], r[2..]);
    GetCons(r[0], r[1..]);
    assert r == [r[0]] + r[1..] && r[1..] == [r[1]] + r[2..] && r[2..] == [r[2]] + r[3..] && r[3..] == [r[3]] + [];
    r
  }

  /** `d.get(k)`, with Python's None for a missing key. */
  function GetOrNone(d: Dict, k: string): Value {
    match Get(d, k)
    case Some(v) => v
    case None => Null
  }

  // ---------------------------------------------------------------------------
  // a collection of stored documents

  /** Every stored document has an `_id`, and no two share one. */
  predicate StoreInvariant(docs: seq<Dict>) {
    && (forall d :: d in docs ==> HasKey(d, FIELD_ID))
    && (forall i, j :: 0 <= i < j < |docs| ==> Get(docs[i], FIELD_ID) != Get(docs[j], FIELD_ID))
  }

  /** Some stored document already has `_id == id`. */
  predicate IdTaken(docs: seq<Dict>, id: Value) {
    exists i :: 0 <= i < |docs| && Get(docs[i], FIELD_ID) == Some(id)
  }

  /** The `_id` `insert_one` gives a document: its own, else a new ObjectId. */
  function InsertId(doc: Dict, freshOid: ObjectId): Value {
    match Get(doc, FIELD_ID)
    case Some(id) => id
    case None => ObjId(freshOid)
  }

  /** The document as the store keeps it: `_id` first, then the other fields in order. */
  function StoredForm(doc: Dict, id: Value): (r: Dict)
    ensures Get(r, FIELD_ID) == Some(id)
    ensures forall k :: k != FIELD_ID ==> Get(r, k) == Get(doc, k)
  {
    GetCons((FIELD_ID, id), Remove(doc, FIELD_ID));
    [(FIELD_ID, id)] + Remove(doc, FIELD_ID)
  }

  /** A document that already starts with its only `_id` is stored as it is. */
  lemma StoredFormOfLeadingId(id: Value, rest: Dict)
    requires !HasKey(rest, FIELD_ID)
    ensures StoredForm([(FIELD_ID, id)] + rest, id) == [(FIELD_ID, id)] + rest
  {
    var doc := [(FIELD_ID, id)] + rest;
    assert doc[1..] == rest;
    RemoveAbsent(rest, FIELD_ID);
  }

  /** The outcome of `insert_one`: the inserted id or the error raised, and the collection after. */
  datatype Insertion = Insertion(outcome: Result<Value, string>, docs: seq<Dict>)

  /** `collection.insert_one(doc)`: an unreachable store raises, a taken `_id` raises
      DuplicateKeyError, otherwise exactly one document is appended and its id returned. */
  function InsertOne(docs: seq<Dict>, doc: Dict, freshOid: ObjectId, fails: bool): (r: Insertion)
    ensures r.outcome.Success? <==> !fails && !IdTaken(docs, InsertId(doc, freshOid))
    ensures r.outcome.Success? ==>
              && r.outcome.value == InsertId(doc, freshOid)
              && |r.docs| == |docs| + 1 && r.docs[..|docs|] == docs
              && Get(r.docs[|docs|], FIELD_ID) == Some(r.outcome.value)
              && forall k :: k != FIELD_ID ==> Get(r.docs[|docs|], k) == Get(doc, k)
    ensures r.outcome.Failure? ==> r.docs == docs
  {
    var id := InsertId(doc, freshOid);
    if fails then Insertion(Failure("PyMongoError"), docs)
    else if IdTaken(docs, id) then Insertion(Failure("DuplicateKeyError"), docs)
    else
      var r := docs + [StoredForm(doc, id)];
      assert r[..|docs|] == docs;
      Insertion(Success(id), r)
  }

  /** Inserting keeps every stored document identified, and uniquely so. */
  lemma InsertKeepsStoreInvariant(docs: seq<Dict>, doc: Dict, freshOid: ObjectId, fails: bool)
    requires StoreInvariant(docs)
    ensures StoreInvariant(InsertOne(docs, doc, freshOid, fails).docs)
  {
    var r := InsertOne(docs, doc, freshOid, fails);
    if r.outcome.Success? {
      forall d | d in r.docs ensures HasKey(d, FIELD_ID) {
        if d !in docs {
          assert d == r.docs[|docs|];
        }
      }
      forall i, j | 0 <= i < j < |r.docs| ensures Get(r.docs[i], FIELD_ID) != Get(r.docs[j], FIELD_ID) {
        if j == |docs| {
          assert r.docs[i] == docs[i];
        } else {
          assert r.docs[i] == docs[i] && r.docs[j] == docs[j];
        }
      }
    }
  }

  // ---------------------------------------------------------------------------
  // sorting by created_at

  /** The rank of a value's BSON type in Mongo's sort order; a missing field sorts as null. */
  function TypeRank(v: Option<Value>): nat {
    match v
    case None => 0
    case Some(Null) => 0
    case Some(Int(_)) => 1
    case Some(Str(_)) => 2
    case Some(Obj(_)) => 3
    case Some(List(_)) => 4
    case Some(Uuid(_)) => 5
    case Some(ObjId(_)) => 6
    case Some(Bool(_)) => 7
    case Some(DateTime(_)) => 8
    case Some(Opaque(_)) => 9
  }

  /** Code-point lexicographic order on strings. */
  predicate LexLe(a: string, b: string) {
    a == [] || (b != [] && (a[0] < b[0] || (a[0] == b[0] && LexLe(a[1..], b[1..]))))
  }

  lemma {:induction false} LexLeTotal(a: string, b: string)
    ensures LexLe(a, b) || LexLe(b, a)
  {
    if a != [] && b != [] && a[0] == b[0] {
      LexLeTotal(a[1..], b[1..]);
    }
  }

  lemma {:induction false} LexLeTrans(a: string, b: string, c: string)
    requires LexLe(a, b) && LexLe(b, c)
    ensures LexLe(a, c)
  {
    if a != [] && b != [] && c != [] && a[0] == b[0] && b[0] == c[0] {
      LexLeTrans(a[1..], b[1..], c[1..]);
    }
  }

  /** Mongo's ascending order on two values of the same type rank; values of the
      container, binary and foreign types are taken as equal. */
  predicate SameRankLe(a: Option<Value>, b: Option<Value>) {
    match (a, b)
    case (Some(Int(x)), Some(Int(y))) => x <= y
    case (Some(Str(x)), Some(Str(y))) => LexLe(x, y)
    case (Some(ObjId(x)), Some(ObjId(y))) => x <= y
    case (Some(Bool(x)), Some(Bool(y))) => !x || y
    case (Some(DateTime(x)), Some(DateTime(y))) => LexLe(x, y)
    case _ => true
  }

  /** `a` may come before `b` in an ascending sort: a missing or null field sorts first, and
      a lower type rank always comes earlier. */
  predicate KeyLe(a: Option<Value>, b: Option<Value>)
    ensures (a.None? || a == Some(Null)) ==> KeyLe(a, b)
    ensures KeyLe(a, b) ==> TypeRank(a) <= TypeRank(b)
  {
    TypeRank(a) < TypeRank(b) || (TypeRank(a) == TypeRank(b) && SameRankLe(a, b))
  }

  lemma {:induction false} LexLeRefl(a: string)
    ensures LexLe(a, a)
  {
    if a != [] {
      LexLeRefl(a[1..]);
    }
  }

  /** Every key may sit next to an equal one: the sort order is reflexive. */
  lemma KeyLeRefl(a: Option<Value>)
    ensures KeyLe(a, a)
  {
    match a
    case Some(Str(x)) => LexLeRefl(x);
    case Some(DateTime(x)) => LexLeRefl(x);
    case _ =>
  }

  lemma KeyLeTotal(a: Option<Value>, b: Option<Value>)
    ensures KeyLe(a, b) || KeyLe(b, a)
  {
    if TypeRank(a) == TypeRank(b) {
      match (a, b)
      case (Some(Str(x)), Some(Str(y))) => LexLeTotal(x, y);
      case (Some(DateTime(x)), Some(DateTime(y))) => LexLeTotal(x, y);
      case _ =>
    }
  }

  lemma KeyLeTrans(a: Option<Value>, b: Option<Value>, c: Option<Value>)
    requires KeyLe(a, b) && KeyLe(b, c)
    ensures KeyLe(a, c)
  {
    if TypeRank(a) == TypeRank(b) == TypeRank(c) {
      match (a, b, c)
      case (Some(Str(x)), Some(Str(y)), Some(Str(z))) => LexLeTrans(x, y, z);
      case (Some(DateTime(x)), Some(DateTime(y)), Some(DateTime(z))) => LexLeTrans(x, y, z);
      case _ =>
    }
  }

  function CreatedAt(d: Dict): Option<Value> {
    Get(d, FIELD_CREATED_AT)
  }

  predicate SortedByCreatedAt(ms: seq<Dict>) {
    forall i, j :: 0 <= i < j < |ms| ==> KeyLe(CreatedAt(ms[i]), CreatedAt(ms[j]))
  }

  /** A document whose key is not above any in a sorted sequence can go in front of it. */
  lemma ConsSorted(d: Dict, ms: seq<Dict>)
    requires SortedByCreatedAt(ms)
    requires forall m :: m in ms ==> KeyLe(CreatedAt(d), CreatedAt(m))
    ensures SortedByCreatedAt([d] + ms)
  {
    var r := [d] + ms;
    forall i, j | 0 <= i < j < |r| ensures KeyLe(CreatedAt(r[i]), CreatedAt(r[j])) {
      if i == 0 {
        assert r[j] == ms[j - 1] && ms[j - 1] in ms;
      } else {
        assert r[i] == ms[i - 1] && r[j] == ms[j - 1];
      }
    }
  }

  /** The head of a sorted sequence is not above anything in it. */
  lemma HeadIsLeast(ms: seq<Dict>)
    requires SortedByCreatedAt(ms) && ms != []
    ensures forall m :: m in ms ==> KeyLe(CreatedAt(ms[0]), CreatedAt(m))
  {
    forall m | m in ms ensures KeyLe(CreatedAt(ms[0]), CreatedAt(m)) {
      var j :| 0 <= j < |ms| && ms[j] == m;
      if j == 0 {
        KeyLeTotal(CreatedAt(m), CreatedAt(m));
      }
    }
  }

  /** Puts `d` into the sorted `ms` after every document whose key is not above its own. */
  function InsertSorted(d: Dict, ms: seq<Dict>): (r: seq<Dict>)
    requires SortedByCreatedAt(ms)
    ensures SortedByCreatedAt(r)
    ensures multiset(r) == multiset(ms) + multiset{d}
  {
    if ms == [] then [d]
    else if !KeyLe(CreatedAt(ms[0]), CreatedAt(d)) then
      KeyLeTotal(CreatedAt(ms[0]), CreatedAt(d));
      HeadIsLeast(ms);
      forall m | m in ms ensures KeyLe(CreatedAt(d), CreatedAt(m)) {
        KeyLeTrans(CreatedAt(d), CreatedAt(ms[0]), CreatedAt(m));
      }
      ConsSorted(d, ms);
      [d] + ms
    else
      var rest := InsertSorted(d, ms[1..]);
      assert ms == [ms[0]] + ms[1..];
      HeadIsLeast(ms);
      forall m | m in rest ensures KeyLe(CreatedAt(ms[0]), CreatedAt(m)) {
        assert m in multiset(rest);
        assert m == d || m in ms;
      }
      ConsSorted(ms[0], rest);
      [ms[0]] + rest
  }

  /** The `.sort(created_at, 1)` of the query: ascending by `created_at`, equal keys in
      insertion order. */
  function SortByCreatedAt(ms: seq<Dict>): (r: seq<Dict>)
    ensures SortedByCreatedAt(r)
    ensures multiset(r) == multiset(ms)
  {
    if ms == [] then []
    else
      assert ms == ms[..|ms| - 1] + [ms[|ms| - 1]];
      InsertSorted(ms[|ms| - 1], SortByCreatedAt(ms[..|ms| - 1]))
  }

  // ---------------------------------------------------------------------------
  // the chat history query

  /** The query `{chat_id: chatText}`, with `{_id: {$ne: exclude}}` added when `exclude` is truthy. */
  predicate MatchesQuery(d: Dict, chatText: string, exclude: Value)
    ensures MatchesQuery(d, chatText, exclude) ==> Get(d, FIELD_CHAT_ID) == Some(Str(chatText))
    ensures Truthy(exclude) && Get(d, FIELD_ID) == Some(exclude) ==> !MatchesQuery(d, chatText, exclude)
    ensures !Truthy(exclude) ==> (MatchesQuery(d, chatText, exclude) <==> Get(d, FIELD_CHAT_ID) == Some(Str(chatText)))
  {
    Get(d, FIELD_CHAT_ID) == Some(Str(chatText)) && (!Truthy(exclude) || Get(d, FIELD_ID) != Some(exclude))
  }

  /** `collection.find(query)`: the matching documents, in store order. */
  function Find(docs: seq<Dict>, chatText: string, exclude: Value): (r: seq<Dict>)
    ensures forall d :: d in r ==> d in docs && MatchesQuery(d, chatText, exclude)
    ensures forall d :: d in docs && MatchesQuery(d, chatText, exclude) ==> d in r
  {
    if docs == [] then []
    else
      var rest := Find(docs[1..], chatText, exclude);
      assert forall d :: d in docs ==> d == docs[0] || d in docs[1..];
      if MatchesQuery(docs[0], chatText, exclude) then [docs[0]] + rest else rest
  }

  /** One history entry: a copy of the stored message with `_id` as text and without
      `response_file_url`. */
  function HistoryRecord(msg: Dict): (r: Dict)
    requires HasKey(msg, FIELD_ID)
    ensures Get(r, FIELD_ID) == Some(Str(PyStr(Get(msg, FIELD_ID).value)))
    ensures Get(r, FIELD_RESPONSE_FILE_URL) == None
    ensures forall k :: k != FIELD_ID && k != FIELD_RESPONSE_FILE_URL ==> Get(r, k) == Get(msg, k)
  {
    Remove(Set(msg, FIELD_ID, Str(PyStr(Get(msg, FIELD_ID).value))), FIELD_RESPONSE_FILE_URL)
  }

  /** `get_chat_history(chat_id, exclude)`: the records of the matching messages, oldest first. */
  function History(docs: seq<Dict>, chatId: Value, exclude: Value): (h: seq<Dict>)
    requires forall d :: d in docs ==> HasKey(d, FIELD_ID)
    ensures |h| == |Find(docs, PyStr(chatId), exclude)|
  {
    var ms := SortByCreatedAt(Find(docs, PyStr(chatId), exclude));
    assert forall i :: 0 <= i < |ms| ==> ms[i] in multiset(ms);
    assert |ms| == |multiset(ms)| == |Find(docs, PyStr(chatId), exclude)|;
    seq(|ms|, i requires 0 <= i < |ms| => HistoryRecord(ms[i]))
  }

  /** Every message the sorted query returns has an `_id`. */
  lemma QueriedMessagesHaveIds(docs: seq<Dict>, chatText: string, exclude: Value)
    requires forall d :: d in docs ==> HasKey(d, FIELD_ID)
    ensures forall m :: m in SortByCreatedAt(Find(docs, chatText, exclude)) ==> HasKey(m, FIELD_ID)
  {
    var messages := SortByCreatedAt(Find(docs, chatText, exclude));
    forall m | m in messages ensures HasKey(m, FIELD_ID) {
      assert m in multiset(messages);
    }
  }

  /** The history is the record of each message the sorted query returns, in order. */
  lemma HistoryRecords(docs: seq<Dict>, chatId: Value, exclude: Value)
    requires forall d :: d in docs ==> HasKey(d, FIELD_ID)
    ensures var ms := SortByCreatedAt(Find(docs, PyStr(chatId), exclude));
            |History(docs, chatId, exclude)| == |ms| &&
            forall i :: 0 <= i < |ms| ==> HasKey(ms[i], FIELD_ID) && History(docs, chatId, exclude)[i] == HistoryRecord(ms[i])
  {
    QueriedMessagesHaveIds(docs, PyStr(chatId), exclude);
  }

  /** The loop of `get_chat_history`: each message, in cursor order, copied with its `_id`
      as text and without `response_file_url`. */
  method CopyHistory(messages: seq<Dict>) returns (history: seq<Dict>)
    requires forall m :: m in messages ==> HasKey(m, FIELD_ID)
    ensures |history| == |messages|
    ensures forall j :: 0 <= j < |messages| ==> history[j] == HistoryRecord(messages[j])
  {
    history := [];
    var i := 0;
    while i < |messages|
      invariant 0 <= i <= |messages|
      invariant |history| == i
      invariant forall j :: 0 <= j < i ==> history[j] == HistoryRecord(messages[j])
    {
      var msg := messages[i];
      assert msg in messages;
      var msgCopy := Set(msg, FIELD_ID, Str(PyStr(Get(msg, FIELD_ID).value)));
      msgCopy := Remove(msgCopy, FIELD_RESPONSE_FILE_URL);
      history := history + [msgCopy];
      i := i + 1;
    }
  }

  /** Each history entry is the record of a stored message of the chat that passes the
      exclusion, and every such message has its record in the history. */
  lemma HistoryIsTheChatsMessages(docs: seq<Dict>, chatId: Value, exclude: Value)
    requires forall d :: d in docs ==> HasKey(d, FIELD_ID)
    ensures forall r :: r in History(docs, chatId, exclude) ==>
              exists d :: d in docs && MatchesQuery(d, PyStr(chatId), exclude) && r == HistoryRecord(d)
    ensures forall d :: d in docs && MatchesQuery(d, PyStr(chatId), exclude) ==>
              HistoryRecord(d) in History(docs, chatId, exclude)
  {
    var found := Find(docs, PyStr(chatId), exclude);
    var ms := SortByCreatedAt(found);
    var h := History(docs, chatId, exclude);
    forall r | r in h
      ensures exists d :: d in docs && MatchesQuery(d, PyStr(chatId), exclude) && r == HistoryRecord(d)
    {
      var i :| 0 <= i < |h| && h[i] == r;
      assert ms[i] in multiset(ms);
      assert ms[i] in found;
    }
    forall d | d in docs && MatchesQuery(d, PyStr(chatId), exclude)
      ensures HistoryRecord(d) in h
    {
      assert d in multiset(found);
      assert d in ms;
      var i :| 0 <= i < |ms| && ms[i] == d;
      assert h[i] == HistoryRecord(d);
    }
  }

  /** Every history entry belongs to the asked chat, carries its `_id` as text and has no
      `response_file_url`. */
  lemma HistoryRecordsShape(docs: seq<Dict>, chatId: Value, exclude: Value)
    requires forall d :: d in docs ==> HasKey(d, FIELD_ID)
    ensures forall r :: r in History(docs, chatId, exclude) ==>
              && Get(r, FIELD_CHAT_ID) == Some(Str(PyStr(chatId)))
              && Get(r, FIELD_ID).Some? && Get(r, FIELD_ID).value.Str?
              && !HasKey(r, FIELD_RESPONSE_FILE_URL)
  {
    HistoryIsTheChatsMessages(docs, chatId, exclude);
  }

  /** The history is ordered by `created_at`, oldest first. */
  lemma HistorySorted(docs: seq<Dict>, chatId: Value, exclude: Value)
    requires forall d :: d in docs ==> HasKey(d, FIELD_ID)
    ensures var h := History(docs, chatId, exclude);
            forall i, j :: 0 <= i < j < |h| ==> KeyLe(CreatedAt(h[i]), CreatedAt(h[j]))
  {
    var ms := SortByCreatedAt(Find(docs, PyStr(chatId), exclude));
    var h := History(docs, chatId, exclude);
    forall i, j | 0 <= i < j < |h| ensures KeyLe(CreatedAt(h[i]), CreatedAt(h[j])) {
      assert CreatedAt(h[i]) == CreatedAt(ms[i]) && CreatedAt(h[j]) == CreatedAt(ms[j]);
    }
  }

  /** When every stored id is an ObjectId, excluding an ObjectId leaves no entry with its text. */
  lemma HistoryExcludesMessage(docs: seq<Dict>, chatId: Value, exclude: ObjectId)
    requires forall d :: d in docs ==> HasKey(d, FIELD_ID) && Get(d, FIELD_ID).value.ObjId?
    ensures forall r :: r in History(docs, chatId, ObjId(exclude)) ==>
              Get(r, FIELD_ID) != Some(Str(ObjectIdText(exclude)))
  {
    var h := History(docs, chatId, ObjId(exclude));
    HistoryIsTheChatsMessages(docs, chatId, ObjId(exclude));
    forall r | r in h
      ensures Get(r, FIELD_ID) != Some(Str(ObjectIdText(exclude)))
    {
      var d :| d in docs && MatchesQuery(d, PyStr(chatId), ObjId(exclude)) && r == HistoryRecord(d);
      assert Truthy(ObjId(exclude));
      RecordOfOtherId(d, exclude);
    }
  }

  /** A message whose ObjectId differs from `exclude` has a record whose id text differs too. */
  lemma RecordOfOtherId(d: Dict, exclude: ObjectId)
    requires HasKey(d, FIELD_ID) && Get(d, FIELD_ID).value.ObjId?
    requires Get(d, FIELD_ID) != Some(ObjId(exclude))
    ensures Get(HistoryRecord(d), FIELD_ID) != Some(Str(ObjectIdText(exclude)))
  {
    var own := Get(d, FIELD_ID).value.oid;
    if ObjectIdText(own) == ObjectIdText(exclude) {
      ObjectIdTextInjective(own, exclude);
    }
  }

  /** A falsy exclusion id excludes nothing. */
  lemma {:induction false} FalsyExcludeKeepsAll(docs: seq<Dict>, chatText: string, exclude: Value)
    requires !Truthy(exclude)
    ensures Find(docs, chatText, exclude) == Find(docs, chatText, Null)
  {
    if docs != [] {
      FalsyExcludeKeepsAll(docs[1..], chatText, exclude);
    }
  }

  /** The `messages` collection. */
  class MessageCollection {
    var docs: seq<Dict>

    predicate Valid()
      reads this
    {
      StoreInvariant(docs)
    }

    constructor ()
      ensures docs == [] && Valid()
    {
      docs := [];
    }

    /** `insert_message`: one `insert_one`; returns the new document's id, or the error raised. */
    method InsertMessage(doc: Dict, freshOid: ObjectId, fails: bool) returns (r: Result<Value, string>)
      requires Valid()
      modifies this
      ensures Valid()
      ensures Insertion(r, docs) == InsertOne(old(docs), doc, freshOid, fails)
    {
      InsertKeepsStoreInvariant(docs, doc, freshOid, fails);
      var inserted := InsertOne(docs, doc, freshOid, fails);
      docs := inserted.docs;
      r := inserted.outcome;
    }

    /** `get_chat_history`: runs the query, then copies each message into the history,
        replacing its `_id` with text and dropping `response_file_url`. */
    method GetChatHistory(chatId: Value, exclude: Value) returns (history: seq<Dict>)
      requires Valid()
      ensures history == History(docs, chatId, exclude)
    {
      var messages := SortByCreatedAt(Find(docs, PyStr(chatId), exclude));
      QueriedMessagesHaveIds(docs, PyStr(chatId), exclude);
      history := CopyHistory(messages);
      HistoryRecords(docs, chatId, exclude);
    }

    /** `upload_response_file`: decode the file, upload it under its path, then record the
        URL on the message; a failure at any step is logged and swallowed. */
    method UploadResponseFile(responseFile: Value, messageId: Value, chatId: Value, decodes: bool,
                              upload: Result<string, string>, updateFails: bool)
      returns (destination: Option<string>)
      requires Valid()
      modifies this
      ensures Valid()
      ensures UploadTrace(destination, docs)
              == UploadEffect(old(docs), responseFile, messageId, chatId, decodes, upload, updateFails)
    {
      ghost var effect := UploadEffect(docs, responseFile, messageId, chatId, decodes, upload, updateFails);
      destination := None;
      var base64Data := if responseFile.Obj? then GetOrNone(responseFile.entries, FIELD_DATA) else responseFile;
      var filename := ResponseFileName(responseFile);
      if !(base64Data.Str? && decodes) {
        assert effect == UploadTrace(None, docs);
        return;  // b64decode raised
      }
      var destinationPath := UploadPath(chatId, messageId, filename);
      destination := Some(destinationPath);
      if upload.Failure? {
        assert effect == UploadTrace(destination, docs);
        return;  // the storage upload raised
      }
      var pdfUrl := upload.value;
      var messageObjId := if messageId.ObjId? then Some(messageId.oid) else ParseObjectId(PyStr(messageId));
      if messageObjId.None? || updateFails {
        assert effect == UploadTrace(destination, docs);
        return;  // ObjectId() raised InvalidId, or update_one raised
      }
      SetFileUrlKeepsStoreInvariant(docs, ObjId(messageObjId.value), pdfUrl);
      docs := SetFileUrl(docs, ObjId(messageObjId.value), pdfUrl);
      assert effect == UploadTrace(destination, docs);
    }
  }

  // ---------------------------------------------------------------------------
  // chats

  /** The connection's user as `scope.get("user")` gives it: absent, or a user object
      (Django's anonymous user is one that is not authenticated). */
  datatype User = User(id: Value, isAuthenticated: bool)

  /** `str(user.id)` for an authenticated user, None otherwise. */
  function UserId(user: Option<User>): (v: Value)
    ensures v.Null? <==> !(user.Some? && user.value.isAuthenticated)
    ensures !v.Null? ==> v == Str(PyStr(user.value.id))
  {
    if user.Some? && user.value.isAuthenticated then Str(PyStr(user.value.id)) else Null
  }

  /** The document `create_chat` inserts and returns; each timestamp is read from the clock
      on its own. */
  function ChatDocument(chatId: string, user: Option<User>, title: string, status: string,
                        createdAt: string, updatedAt: string): (r: Dict)
    ensures Keys(r) == [FIELD_ID, FIELD_USER, FIELD_TITLE, FIELD_STATUS, FIELD_CREATED_AT, FIELD_UPDATED_AT]
    ensures Get(r, FIELD_ID) == Some(Str(chatId))
    ensures Get(r, FIELD_USER) == Some(UserId(user))
    ensures Get(r, FIELD_TITLE) == Some(Str(title)) && Get(r, FIELD_STATUS) == Some(Str(status))
    ensures Get(r, FIELD_CREATED_AT) == Some(Str(createdAt)) && Get(r, FIELD_UPDATED_AT) == Some(Str(updatedAt))
  {
    var r := [(FIELD_ID, Str(chatId)), (FIELD_USER, UserId(user)), (FIELD_TITLE, Str(title)),
              (FIELD_STATUS, Str(status)), (FIELD_CREATED_AT, Str(createdAt)), (FIELD_UPDATED_AT, Str(updatedAt))];
    GetUnique(r);
    assert r[0].0 == FIELD_ID && r[1].0 == FIELD_USER && r[2].0 == FIELD_TITLE;
    assert r[3].0 == FIELD_STATUS && r[4].0 == FIELD_CREATED_AT && r[5].0 == FIELD_UPDATED_AT;
    r
  }

  /** The chat document starts with its only `_id`, so the store keeps it unchanged. */
  lemma ChatDocumentStoredAsIs(chatId: string, user: Option<User>, title: string, status: string,
                               createdAt: string, updatedAt: string)
    ensures var doc := ChatDocument(chatId, user, title, status, createdAt, updatedAt);
            StoredForm(doc, Str(chatId)) == doc
  {
    var doc := ChatDocument(chatId, user, title, status, createdAt, updatedAt);
    assert doc == [doc[0]] + doc[1..];
    GetCons(doc[0], doc[1..]);
    HasKeyIff(doc[1..], FIELD_ID);
    assert Keys(doc[1..]) == [FIELD_USER, FIELD_TITLE, FIELD_STATUS, FIELD_CREATED_AT, FIELD_UPDATED_AT];
    StoredFormOfLeadingId(Str(chatId), doc[1..]);
  }

  /** The `chats` collection. */
  class ChatCollection {
    var docs: seq<Dict>

    predicate Valid()
      reads this
    {
      StoreInvariant(docs)
    }

    constructor ()
      ensures docs == [] && Valid()
    {
      docs := [];
    }

    /** `create_chat`: a fresh UUID text as `_id`, the user's id only when authenticated,
        the given title and status; the one document is inserted and returned, and an
        insertion error propagates. */
    method CreateChat(user: Option<User>, title: string, status: string, freshId: string,
                      createdAt: string, updatedAt: string, fails: bool) returns (r: Result<Dict, string>)
      requires Valid()
      modifies this
      ensures Valid()
      ensures r.Success? <==> !fails && !IdTaken(old(docs), Str(freshId))
      ensures r.Success? ==>
                r.value == ChatDocument(freshId, user, title, status, createdAt, updatedAt)
                && docs == old(docs) + [r.value]
      ensures r.Failure? ==> docs == old(docs)
    {
      var chatDoc := ChatDocument(freshId, user, title, status, createdAt, updatedAt);
      ChatDocumentStoredAsIs(freshId, user, title, status, createdAt, updatedAt);
      InsertKeepsStoreInvariant(docs, chatDoc, 0, fails);
      var inserted := InsertOne(docs, chatDoc, 0, fails);
      docs := inserted.docs;
      if inserted.outcome.Failure? {
        return Failure(inserted.outcome.error);
      }
      return Success(chatDoc);
    }
  }

  // ---------------------------------------------------------------------------
  // response files

  /** The file name of a response file: a dict's own `filename` when it has one, else
      `response.pdf`. */
  function ResponseFileName(responseFile: Value): (name: string)
    ensures !(responseFile.Obj? && HasKey(responseFile.entries, FIELD_FILENAME)) ==> name == DEFAULT_FILENAME
    ensures responseFile.Obj? && HasKey(responseFile.entries, FIELD_FILENAME) ==>
              name == PyStr(Get(responseFile.entries, FIELD_FILENAME).value)
  {
    if responseFile.Obj? then
      match Get(responseFile.entries, FIELD_FILENAME)
      case Some(v) => PyStr(v)
      case None => DEFAULT_FILENAME
    else DEFAULT_FILENAME
  }

  /** The storage path `chat/{chat_id}/messages/{message_id}/response_{filename}`. */
  function UploadPath(chatId: Value, messageId: Value, filename: string): (r: string)
    ensures var folder := FILE_PATH_PREFIX + "/" + PyStr(chatId) + "/";
            |folder| <= |r| && r[..|folder|] == folder
    ensures var tail := "/" + FILE_PATH_RESPONSE_PREFIX + filename;
            |tail| <= |r| && r[|r| - |tail|..] == tail
  {
    FILE_PATH_PREFIX + "/" + PyStr(chatId) + "/" + FILE_PATH_MESSAGES + "/" + PyStr(messageId) + "/"
    + FILE_PATH_RESPONSE_PREFIX + filename
  }

  /** `s.split("/")`. */
  function SplitSlash(s: string): (parts: seq<string>)
    ensures |parts| >= 1
  {
    if s == [] then [""]
    else if s[0] == '/' then [""] + SplitSlash(s[1..])
    else
      var rest := SplitSlash(s[1..]);
      [[s[0]] + rest[0]] + rest[1..]
  }

  lemma {:induction false} SplitSlashNoSlash(a: string)
    requires '/' !in a
    ensures SplitSlash(a) == [a]
  {
    if a != [] {
      SplitSlashNoSlash(a[1..]);
      assert [a[0]] + a[1..] == a;
    }
  }

  lemma {:induction false} SplitSlashJoin(a: string, b: string)
    requires '/' !in a
    ensures SplitSlash(a + "/" + b) == [a] + SplitSlash(b)
  {
    if a == [] {
      assert a + "/" + b == ['/'] + b;
      assert (['/'] + b)[1..] == b;
    } else {
      var s := a + "/" + b;
      assert s[0] == a[0] && s[1..] == a[1..] + "/" + b;
      SplitSlashJoin(a[1..], b);
      assert [a[0]] + a[1..] == a;
    }
  }

  /** An ObjectId's text holds no slash. */
  lemma ObjectIdTextNoSlash(o: ObjectId)
    ensures '/' !in ObjectIdText(o)
  {
  }

  /** The path splits back into its five parts when the chat id and the file name hold no
      slash: the bucket prefix, the chat, the messages folder, the message and the file. */
  lemma UploadPathSegments(chatText: string, messageId: ObjectId, filename: string)
    requires '/' !in chatText && '/' !in filename
    ensures SplitSlash(UploadPath(Str(chatText), ObjId(messageId), filename))
            == [FILE_PATH_PREFIX, chatText, FILE_PATH_MESSAGES, ObjectIdText(messageId),
                FILE_PATH_RESPONSE_PREFIX + filename]
  {
    var idText := ObjectIdText(messageId);
    ObjectIdTextNoSlash(messageId);
    var last := FILE_PATH_RESPONSE_PREFIX + filename;
    assert '/' !in last by {
      assert forall i :: 0 <= i < |last| ==> last[i] == (if i < 9 then FILE_PATH_RESPONSE_PREFIX[i] else filename[i - 9]);
    }
    assert UploadPath(Str(chatText), ObjId(messageId), filename)
           == FILE_PATH_PREFIX + "/" + (chatText + "/" + (FILE_PATH_MESSAGES + "/" + (idText + "/" + last))) by {
      assert PyStr(Str(chatText)) == chatText && PyStr(ObjId(messageId)) == idText;
    }
    SplitFiveParts(FILE_PATH_PREFIX, chatText, FILE_PATH_MESSAGES, idText, last);
  }

  /** Five slash-free parts joined by slashes split back into those parts. */
  lemma SplitFiveParts(a: string, b: string, c: string, d: string, e: string)
    requires '/' !in a && '/' !in b && '/' !in c && '/' !in d && '/' !in e
    ensures SplitSlash(a + "/" + (b + "/" + (c + "/" + (d + "/" + e)))) == [a, b, c, d, e]
  {
    SplitSlashNoSlash(e);
    SplitSlashJoin(d, e);
    SplitSlashJoin(c, d + "/" + e);
    SplitSlashJoin(b, c + "/" + (d + "/" + e));
    SplitSlashJoin(a, b + "/" + (c + "/" + (d + "/" + e)));
  }

  /** `update_one({_id: id}, {$set: {response_file_url: url}})`: the first document with
      that `_id` gets the URL; every other document, and every other field, is left alone. */
  function SetFileUrl(docs: seq<Dict>, id: Value, url: string): (r: seq<Dict>)
    ensures |r| == |docs|
    ensures forall i, k :: 0 <= i < |docs| && k != FIELD_RESPONSE_FILE_URL ==> Get(r[i], k) == Get(docs[i], k)
    ensures forall i :: 0 <= i < |docs| && IdTaken(docs[..i], id) ==> r[i] == docs[i]
    ensures forall i :: 0 <= i < |docs| && Get(docs[i], FIELD_ID) != Some(id) ==> r[i] == docs[i]
    ensures forall i :: 0 <= i < |docs| && Get(docs[i], FIELD_ID) == Some(id) && !IdTaken(docs[..i], id) ==>
              Get(r[i], FIELD_RESPONSE_FILE_URL) == Some(Str(url))
  {
    if docs == [] then []
    else if Get(docs[0], FIELD_ID) == Some(id) then
      var r := [Set(docs[0], FIELD_RESPONSE_FILE_URL, Str(url))] + docs[1..];
      assert forall i :: 0 < i < |docs| ==> IdTaken(docs[..i], id) by {
        forall i | 0 < i < |docs| ensures IdTaken(docs[..i], id) {
          assert docs[..i][0] == docs[0];
        }
      }
      r
    else
      var rest := SetFileUrl(docs[1..], id, url);
      forall i | 0 < i < |docs| ensures IdTaken(docs[..i], id) <==> IdTaken(docs[1..][..i - 1], id) {
        IdTakenPastHead(docs, id, i);
      }
      [docs[0]] + rest
  }

  /** Below a head with another id, the id is taken in a prefix exactly when it is taken in
      the prefix of the tail. */
  lemma IdTakenPastHead(docs: seq<Dict>, id: Value, i: nat)
    requires 0 < i <= |docs| && Get(docs[0], FIELD_ID) != Some(id)
    ensures IdTaken(docs[..i], id) ==> IdTaken(docs[1..][..i - 1], id)
    ensures IdTaken(docs[1..][..i - 1], id) ==> IdTaken(docs[..i], id)
  {
    var tail := docs[1..][..i - 1];
    assert forall j :: 0 < j < i ==> docs[..i][j] == tail[j - 1];
    if IdTaken(docs[..i], id) {
      var j :| 0 <= j < i && Get(docs[..i][j], FIELD_ID) == Some(id);
      assert Get(tail[j - 1], FIELD_ID) == Some(id);
    }
    if IdTaken(tail, id) {
      var j :| 0 <= j < i - 1 && Get(tail[j], FIELD_ID) == Some(id);
      assert Get(docs[..i][j + 1], FIELD_ID) == Some(id);
    }
  }

  /** Recording a URL keeps every id, so the store stays identified and unique. */
  lemma SetFileUrlKeepsStoreInvariant(docs: seq<Dict>, id: Value, url: string)
    requires StoreInvariant(docs)
    ensures StoreInvariant(SetFileUrl(docs, id, url))
  {
    var r := SetFileUrl(docs, id, url);
    assert forall i :: 0 <= i < |docs| ==> Get(r[i], FIELD_ID) == Get(docs[i], FIELD_ID);
    forall d | d in r ensures HasKey(d, FIELD_ID) {
      var i :| 0 <= i < |r| && r[i] == d;
      assert docs[i] in docs;
    }
  }

  /** What `upload_response_file` did: the path it handed to storage, if it got that far,
      and the collection after. */
  datatype UploadTrace = UploadTrace(destination: Option<string>, docs: seq<Dict>)

  /** `upload_response_file`, with the base64 decoder's verdict, the storage upload's outcome
      (the public URL, or an error) and the update's failure as parameters.  Every failure
      is caught, so the only effects are the upload and the recorded URL. */
  function UploadEffect(docs: seq<Dict>, responseFile: Value, messageId: Value, chatId: Value,
                        decodes: bool, upload: Result<string, string>, updateFails: bool): (r: UploadTrace)
    ensures r.destination.Some? ==>
              r.destination.value == UploadPath(chatId, messageId, ResponseFileName(responseFile))
    ensures |r.docs| == |docs|
    ensures forall i, k :: 0 <= i < |docs| && k != FIELD_RESPONSE_FILE_URL ==> Get(r.docs[i], k) == Get(docs[i], k)
    ensures r.docs != docs ==> r.destination.Some? && upload.Success?
  {
    var data := if responseFile.Obj? then GetOrNone(responseFile.entries, FIELD_DATA) else responseFile;
    var filename := ResponseFileName(responseFile);
    if !(data.Str? && decodes) then UploadTrace(None, docs)
    else
      var path := UploadPath(chatId, messageId, filename);
      match upload
      case Failure(_) => UploadTrace(Some(path), docs)
      case Success(url) =>
        var oid := if messageId.ObjId? then Some(messageId.oid) else ParseObjectId(PyStr(messageId));
        if oid.None? || updateFails then UploadTrace(Some(path), docs)
        else UploadTrace(Some(path), SetFileUrl(docs, ObjId(oid.value), url))
  }

  /** Handing over the message id as its text reaches the same path and the same document
      as handing over the ObjectId itself. */
  lemma UploadByIdText(docs: seq<Dict>, responseFile: Value, messageId: ObjectId, chatId: Value,
                       decodes: bool, upload: Result<string, string>, updateFails: bool)
    ensures UploadEffect(docs, responseFile, Str(ObjectIdText(messageId)), chatId, decodes, upload, updateFails)
            == UploadEffect(docs, responseFile, ObjId(messageId), chatId, decodes, upload, updateFails)
  {
    ObjectIdRoundTrip(messageId);
  }

  /** With unique ids, a completed upload records the URL on exactly the message it names. */
  lemma UploadRecordsUrl(docs: seq<Dict>, responseFile: Value, messageId: ObjectId, chatId: Value,
                         url: string, i: nat)
    requires StoreInvariant(docs)
    requires responseFile.Obj? && Get(responseFile.entries, FIELD_DATA).Some?
    requires Get(responseFile.entries, FIELD_DATA).value.Str?
    requires i < |docs| && Get(docs[i], FIELD_ID) == Some(ObjId(messageId))
    ensures var r := UploadEffect(docs, responseFile, ObjId(messageId), chatId, true, Success(url), false);
            && Get(r.docs[i], FIELD_RESPONSE_FILE_URL) == Some(Str(url))
            && forall j :: 0 <= j < |docs| && j != i ==> r.docs[j] == docs[j]
  {
    assert !IdTaken(docs[..i], ObjId(messageId));
  }
}
