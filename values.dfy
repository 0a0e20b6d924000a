/** Python values as the chat pipeline handles them: what `json.loads` builds,
    plus the library objects (bson ObjectId, uuid.UUID, datetime, response
    objects) that travel through the same dicts.  A Python dict is kept as its
    entries in insertion order, so that the order the client sees in a JSON
    frame is part of the model. */
module Values {
  import opened Wrappers

  /** 16 to the power `w`. */
  function Pow16(w: nat): (p: nat)
    ensures p > 0
  {
    if w == 0 then 1 else 16 * Pow16(w - 1)
  }

  /** A bson ObjectId is twelve bytes, that is a number below 16^24. */
  type ObjectId = n: nat | n < Pow16(24) witness 0

  datatype Value =
    | Null
    | Bool(b: bool)
    | Int(i: int)
    | Str(s: string)
    | List(items: seq<Value>)
    | Obj(entries: Dict)
    | ObjId(oid: ObjectId)      // bson.ObjectId
    | Uuid(text: string)        // uuid.UUID, carried by its canonical text
    | DateTime(iso: string)     // datetime.datetime, carried by its isoformat()
    | Opaque(typeName: string)  // any other object, e.g. an httpx.Response

  /** A Python dict: its (key, value) entries in insertion order. */
  type Dict = seq<(string, Value)>

  /** What `json.loads` makes of a text: a value, or JSONDecodeError. */
  datatype Decoded = Undecodable | Decoded(value: Value)

  // ---------------------------------------------------------------------------
  // dict operations

  /** The keys of `d`, in insertion order (`list(d)`). */
  function Keys(d: Dict): (ks: seq<string>)
    ensures |ks| == |d|
    ensures forall i :: 0 <= i < |d| ==> ks[i] == d[i].0
  {
    if d == [] then [] else [d[0].0] + Keys(d[1..])
  }

  /** A real Python dict never holds a key twice. */
  predicate UniqueKeys(d: Dict) {
    forall i, j :: 0 <= i < j < |d| ==> d[i].0 != d[j].0
  }

  /** `d.get(k)`: the value stored under `k`, or None when `k` is absent. */
  function Get(d: Dict, k: string): Option<Value> {
    if d == [] then None
    else if d[0].0 == k then Some(d[0].1)
    else Get(d[1..], k)
  }

  /** `k in d`. */
  predicate HasKey(d: Dict, k: string) {
    Get(d, k).Some?
  }

  /** A key is in the dict exactly when it is among its keys. */
  lemma {:induction false} HasKeyIff(d: Dict, k: string)
    ensures HasKey(d, k) <==> k in Keys(d)
  {
    if d != [] {
      HasKeyIff(d[1..], k);
      assert Keys(d) == [d[0].0] + Keys(d[1..]);
    }
  }

  /** In a dict without repeated keys, each entry is what its key looks up. */
  lemma {:induction false} GetUnique(d: Dict)
    requires UniqueKeys(d)
    ensures forall i :: 0 <= i < |d| ==> Get(d, d[i].0) == Some(d[i].1)
  {
    if d != [] {
      GetUnique(d[1..]);
      forall i | 0 < i < |d| ensures Get(d, d[i].0) == Some(d[i].1) {
        assert d[1..][i - 1] == d[i];
      }
    }
  }

  /** Lookup and keys of a dict that starts with entry `e`. */
  lemma GetCons(e: (string, Value), rest: Dict)
    ensures forall j :: Get([e] + rest, j) == if j == e.0 then Some(e.1) else Get(rest, j)
    ensures Keys([e] + rest) == [e.0] + Keys(rest)
  {
    assert ([e] + rest)[1..] == rest;
  }

  /** A dict with two distinct keys is fixed by their order and the value under each. */
  lemma TwoKeyDict(d: Dict, k1: string, v1: Value, k2: string, v2: Value)
    requires Keys(d) == [k1, k2] && k1 != k2
    requires Get(d, k1) == Some(v1) && Get(d, k2) == Some(v2)
    ensures d == [(k1, v1), (k2, v2)]
  {
    assert d[0].0 == k1 && d[1].0 == k2;
    assert Get(d[1..], k2) == Some(v2);
  }

  /** Lookup in a one-entry dict. */
  lemma GetSingle(k: string, v: Value)
    ensures forall j :: Get([(k, v)], j) == if j == k then Some(v) else None
  {
    assert [(k, v)][1..] == [];
  }

  /** `d[k] = v` on a copy: an existing key keeps its place, a new one is appended. */
  function Set(d: Dict, k: string, v: Value): (r: Dict)
    ensures Get(r, k) == Some(v)
    ensures forall j :: j != k ==> Get(r, j) == Get(d, j)
  {
    if d == [] then [(k, v)]
    else if d[0].0 == k then
      GetCons((k, v), d[1..]);
      [(k, v)] + d[1..]
    else
      var rest := Set(d[1..], k, v);
      GetCons(d[0], rest);
      [d[0]] + rest
  }

  /** Setting a key keeps the key order: an existing key stays put, a new one goes last. */
  lemma {:induction false} SetKeys(d: Dict, k: string, v: Value)
    ensures Keys(Set(d, k, v)) == if HasKey(d, k) then Keys(d) else Keys(d) + [k]
  {
    if d != [] {
      GetCons(d[0], d[1..]);
      assert d == [d[0]] + d[1..];
      if d[0].0 == k {
        GetCons((k, v), d[1..]);
      } else {
        SetKeys(d[1..], k, v);
        GetCons(d[0], Set(d[1..], k, v));
        assert [d[0].0] + (Keys(d[1..]) + [k]) == Keys(d) + [k];
      }
    }
  }

  /** Setting a new key appends it. */
  lemma {:induction false} SetAppends(d: Dict, k: string, v: Value)
    requires !HasKey(d, k)
    ensures Set(d, k, v) == d + [(k, v)]
  {
    if d != [] {
      SetAppends(d[1..], k, v);
      assert d == [d[0]] + d[1..];
    }
  }

  /** Setting a key that first appears after the prefix `d` replaces that entry in place. */
  lemma {:induction false} SetAfter(d: Dict, k: string, v0: Value, v: Value, rest: Dict)
    requires !HasKey(d, k)
    ensures Set(d + [(k, v0)] + rest, k, v) == d + [(k, v)] + rest
  {
    if d == [] {
      assert ([(k, v0)] + rest)[1..] == rest;
    } else {
      assert (d + [(k, v0)] + rest)[1..] == d[1..] + [(k, v0)] + rest;
      SetAfter(d[1..], k, v0, v, rest);
    }
  }

  /** `d.pop(k, None)` on a copy: `k` is gone, every other entry stays, in order. */
  function Remove(d: Dict, k: string): (r: Dict)
    ensures Get(r, k) == None
    ensures forall j :: j != k ==> Get(r, j) == Get(d, j)
  {
    if d == [] then []
    else if d[0].0 == k then Remove(d[1..], k)
    else
      var rest := Remove(d[1..], k);
      GetCons(d[0], rest);
      [d[0]] + rest
  }

  /** Looking a key up in `d + [(k, v)]`: `d` wins where it has the key. */
  lemma {:induction false} GetAppend(d: Dict, k: string, v: Value, j: string)
    ensures Get(d + [(k, v)], j) ==
            if HasKey(d, j) then Get(d, j) else if j == k then Some(v) else None
  {
    if d != [] {
      assert (d + [(k, v)])[1..] == d[1..] + [(k, v)];
      GetAppend(d[1..], k, v, j);
    }
  }

  /** Setting a key to the value it already has gives back the same dict. */
  lemma {:induction false} SetSame(d: Dict, k: string, v: Value)
    requires Get(d, k) == Some(v)
    ensures Set(d, k, v) == d
  {
    if d[0].0 != k {
      SetSame(d[1..], k, v);
    }
  }

  /** Removing a key the dict does not have gives back the same dict. */
  lemma {:induction false} RemoveAbsent(d: Dict, k: string)
    requires !HasKey(d, k)
    ensures Remove(d, k) == d
  {
    if d != [] {
      RemoveAbsent(d[1..], k);
    }
  }

  /** `d.setdefault(k, v)` on a copy: `v` is added only where `k` is missing. */
  function SetDefault(d: Dict, k: string, v: Value): (r: Dict)
    ensures Get(r, k) == if HasKey(d, k) then Get(d, k) else Some(v)
    ensures forall j :: j != k ==> Get(r, j) == Get(d, j)
  {
    if HasKey(d, k) then d
    else
      var r := d + [(k, v)];
      assert forall j :: Get(r, j) == (if HasKey(d, j) then Get(d, j) else if j == k then Some(v) else None) by {
        forall j {
          GetAppend(d, k, v, j);
        }
      }
      r
  }

  /** `d.update(other)` on a copy: the keys of `other` win, the rest of `d` stays. */
  function Update(d: Dict, other: Dict): (r: Dict)
    requires UniqueKeys(other)
    ensures forall j :: Get(r, j) == if HasKey(other, j) then Get(other, j) else Get(d, j)
    decreases |other|
  {
    if other == [] then d
    else
      var e := other[0];
      var r := Update(Set(d, e.0, e.1), other[1..]);
      assert other == [e] + other[1..];
      GetCons(e, other[1..]);
      assert !HasKey(other[1..], e.0) by {
        HasKeyIff(other[1..], e.0);
      }
      r
  }

  // ---------------------------------------------------------------------------
  // truth values and str()

  /** Python's `bool(v)`. */
  predicate Truthy(v: Value) {
    match v
    case Null => false
    case Bool(b) => b
    case Int(i) => i != 0
    case Str(s) => s != ""
    case List(items) => items != []
    case Obj(d) => d != []
    case _ => true
  }

  function DigitChar(d: nat): char
    requires d < 10
  {
    ('0' as int + d) as char
  }

  /** Decimal text of a natural number. */
  function NatText(n: nat): (s: string)
    ensures |s| > 0
    ensures forall i :: 0 <= i < |s| ==> '0' <= s[i] <= '9'
  {
    if n < 10 then [DigitChar(n)] else NatText(n / 10) + [DigitChar(n % 10)]
  }

  /** `str(i)` for a Python int. */
  function IntText(i: int): (s: string)
    ensures |s| > 0
    ensures forall k :: 0 <= k < |s| ==> s[k] == '-' || '0' <= s[k] <= '9'
  {
    if i < 0 then "-" + NatText(-i) else NatText(i)
  }

  function HexDigitChar(d: nat): (c: char)
    requires d < 16
  {
    if d < 10 then ('0' as int + d) as char else ('a' as int + d - 10) as char
  }

  predicate IsHexChar(c: char) {
    '0' <= c <= '9' || 'a' <= c <= 'f' || 'A' <= c <= 'F'
  }

  function HexDigitValue(c: char): (d: nat)
    requires IsHexChar(c)
    ensures d < 16
  {
    if '0' <= c <= '9' then c as int - '0' as int
    else if 'a' <= c <= 'f' then c as int - 'a' as int + 10
    else c as int - 'A' as int + 10
  }

  /** `n` written with exactly `width` lower-case hex digits, most significant first. */
  function HexDigits(n: nat, width: nat): (s: string)
    requires n < Pow16(width)
    ensures |s| == width
    ensures forall i :: 0 <= i < |s| ==> IsHexChar(s[i])
  {
    if width == 0 then "" else HexDigits(n / 16, width - 1) + [HexDigitChar(n % 16)]
  }

  /** The number a string of hex digits (either case) denotes. */
  function HexValue(s: string): (n: nat)
    requires forall i :: 0 <= i < |s| ==> IsHexChar(s[i])
    ensures n < Pow16(|s|)
  {
    if s == [] then 0 else HexValue(s[..|s| - 1]) * 16 + HexDigitValue(s[|s| - 1])
  }

  /** `str(oid)`: the 24 lower-case hex digits of the ObjectId. */
  function ObjectIdText(o: ObjectId): string {
    HexDigits(o, 24)
  }

  /** `ObjectId(s)` for a string `s`: 24 hex digits, else bson raises InvalidId. */
  function ParseObjectId(s: string): (r: Option<ObjectId>)
    ensures r.Some? ==> |s| == 24
  {
    if |s| == 24 && forall i :: 0 <= i < |s| ==> IsHexChar(s[i]) then Some(HexValue(s)) else None
  }

  lemma {:induction false} HexRoundTrip(n: nat, width: nat)
    requires n < Pow16(width)
    ensures HexValue(HexDigits(n, width)) == n
  {
    if width > 0 {
      var s := HexDigits(n, width);
      assert s[..|s| - 1] == HexDigits(n / 16, width - 1);
      HexRoundTrip(n / 16, width - 1);
      assert HexDigitValue(s[|s| - 1]) == n % 16;
    }
  }

  /** `ObjectId(str(oid)) == oid`: the text of an ObjectId parses back to it. */
  lemma ObjectIdRoundTrip(o: ObjectId)
    ensures ParseObjectId(ObjectIdText(o)) == Some(o)
  {
    HexRoundTrip(o, 24);
  }

  /** Distinct ObjectIds have distinct texts. */
  lemma ObjectIdTextInjective(a: ObjectId, b: ObjectId)
    requires ObjectIdText(a) == ObjectIdText(b)
    ensures a == b
  {
    ObjectIdRoundTrip(a);
    ObjectIdRoundTrip(b);
  }

  /** `str(d)` of a datetime: its isoformat with a space instead of the 'T'. */
  function DateTimeText(iso: string): string {
    if |iso| > 10 && iso[10] == 'T' then iso[..10] + " " + iso[11..] else iso
  }

  /** Python's `str(v)`. */
  function PyStr(v: Value): string {
    match v
    case Str(s) => s
    case Uuid(t) => t
    case DateTime(iso) => DateTimeText(iso)
    case ObjId(o) => ObjectIdText(o)
    case _ => Repr(v)
  }

  /** Python's `repr(v)` for the values of the model; a datetime and a foreign object are
      shown by the fields the model keeps of them. */
  function Repr(v: Value): string
    decreases v, 1
  {
    match v
    case Null => "None"
    case Bool(b) => if b then "True" else "False"
    case Int(i) => IntText(i)
    case Str(s) => StrRepr(s)
    case List(items) => "[" + ReprItems(items) + "]"
    case Obj(d) => "{" + ReprEntries(d) + "}"
    case ObjId(o) => "ObjectId('" + ObjectIdText(o) + "')"
    case Uuid(t) => "UUID('" + t + "')"
    case DateTime(iso) => "datetime.datetime(" + iso + ")"
    case Opaque(t) => "<" + t + " object>"
  }

  function ReprItems(items: seq<Value>): string
    decreases items, 0
  {
    if items == [] then ""
    else if |items| == 1 then Repr(items[0])
    else Repr(items[0]) + ", " + ReprItems(items[1..])
  }

  function ReprEntries(d: Dict): string
    decreases d, 0
  {
    if d == [] then ""
    else
      var e := d[0];
      assert e in d && e.1 < e;
      var entry := StrRepr(e.0) + ": " + Repr(e.1);
      if |d| == 1 then entry else entry + ", " + ReprEntries(d[1..])
  }

  /** `repr(s)` of a str: in single quotes, or in double quotes when `s` holds a single
      quote and no double quote; the chosen quote, the backslash, tab, newline and
      carriage return are escaped, and so are the other control characters, which are
      written as `\xNN`. */
  function StrRepr(s: string): (r: string)
    ensures |r| >= 2 && r[0] == r[|r| - 1] && (r[0] == '\'' || r[0] == '"')
    ensures r[0] == '"' <==> '\'' in s && '"' !in s
    ensures forall i :: 0 <= i < |r| ==> !IsControl(r[i])
  {
    var q := if '\'' in s && '"' !in s then '"' else '\'';
    [q] + EscapeChars(s, q) + [q]
  }

  /** The characters `repr` of a str writes as an escape: the C0 controls, DEL, the C1
      controls, the no-break space and the soft hyphen. */
  predicate IsControl(c: char) {
    c < ' ' || ('\U{7f}' <= c <= '\U{a0}') || c == '\U{ad}'
  }

  /** The body of `repr(s)` for the quote `q`. */
  function EscapeChars(s: string, q: char): (r: string)
    requires q == '\'' || q == '"'
    ensures forall i :: 0 <= i < |r| ==> !IsControl(r[i])
  {
    if s == [] then "" else EscapeChar(s[0], q) + EscapeChars(s[1..], q)
  }

  /** Every printable character of the text appears in its repr. */
  lemma StrReprKeepsText(s: string)
    ensures forall c :: c in s && !IsControl(c) ==> c in StrRepr(s)
  {
    var q := if '\'' in s && '"' !in s then '"' else '\'';
    EscapeCharsKeepText(s, q);
    assert StrRepr(s) == [q] + EscapeChars(s, q) + [q];
  }

  /** A printable character survives its escape, and an ordinary one is its own escape. */
  lemma EscapeCharKeeps(c: char, q: char)
    requires q == '\'' || q == '"'
    ensures !IsControl(c) ==> c in EscapeChar(c, q)
    ensures !IsControl(c) && c != q && c != '\\' ==> EscapeChar(c, q) == [c]
  {
  }

  lemma {:induction false} EscapeCharsKeepText(s: string, q: char)
    requires q == '\'' || q == '"'
    ensures forall c :: c in s && !IsControl(c) ==> c in EscapeChars(s, q)
  {
    if s != [] {
      EscapeCharKeeps(s[0], q);
      EscapeCharsKeepText(s[1..], q);
      assert forall c :: c in s ==> c == s[0] || c in s[1..];
    }
  }

  /** Text without quotes, backslashes and control characters is shown as it is, in single
      quotes. */
  lemma StrReprPlain(s: string)
    requires forall c :: c in s ==> !IsControl(c) && c != '\'' && c != '\\'
    ensures StrRepr(s) == "'" + s + "'"
  {
    EscapeCharsPlain(s, '\'');
  }

  lemma {:induction false} EscapeCharsPlain(s: string, q: char)
    requires q == '\'' || q == '"'
    requires forall c :: c in s ==> !IsControl(c) && c != q && c != '\\'
    ensures EscapeChars(s, q) == s
  {
    if s != [] {
      assert s[0] in s;
      assert forall c :: c in s[1..] ==> c in s;
      EscapeCharKeeps(s[0], q);
      EscapeCharsPlain(s[1..], q);
      assert s == [s[0]] + s[1..];
    }
  }

  function EscapeChar(c: char, q: char): (r: string)
    requires q == '\'' || q == '"'
    ensures forall i :: 0 <= i < |r| ==> !IsControl(r[i])
  {
    if c == q || c == '\\' then ['\\', c]
    else if c == '\t' then "\\t"
    else if c == '\n' then "\\n"
    else if c == '\r' then "\\r"
    else if IsControl(c) then
      assert Pow16(2) == 256;
      "\\x" + HexDigits(c as nat, 2)
    else [c]
  }

  /** A str holding a single quote is shown in double quotes. */
  lemma ReprOfQuotedText()
    ensures PyStr(List([Str("a'b")])) == "[\"a'b\"]"
  {
    var shown := "\"a'b\"";
    StrReprOfQuotedText();
    assert ReprItems([Str("a'b")]) == shown;
    assert "[" + shown + "]" == "[\"a'b\"]" by {
      assert |"[" + shown + "]"| == 7;
    }
  }

  lemma StrReprOfQuotedText()
    ensures StrRepr("a'b") == "\"a'b\""
  {
    var s := "a'b";
    assert s[1] == '\'' && '\'' in s && '"' !in s;
    assert forall c :: c in s ==> c == 'a' || c == '\'' || c == 'b';
    EscapeCharsPlain(s, '"');
  }

  /** A newline inside a str is shown as backslash and `n`. */
  lemma ReprOfNewline()
    ensures PyStr(List([Str("a\nb")])) == "['a\\nb']"
  {
    var shown := "'a\\nb'";
    StrReprOfNewline();
    assert ReprItems([Str("a\nb")]) == shown;
    assert "[" + shown + "]" == "['a\\nb']" by {
      assert |"[" + shown + "]"| == 8;
    }
  }

  lemma StrReprOfNewline()
    ensures StrRepr("a\nb") == "'a\\nb'"
  {
    var s := "a\nb";
    assert '\'' !in s;
    assert EscapeChars(s, '\'') == "a\\nb" by {
      assert s[1..][1..][1..] == [];
    }
  }

  // ---------------------------------------------------------------------------
  // str.strip()

  /** The characters Python's `str.isspace` accepts (and `str.strip` removes). */
  predicate IsSpace(c: char) {
    ('\t' <= c <= '\r') || ('\U{1c}' <= c <= ' ') || c == '\U{85}' || c == '\U{a0}'
    || c == '\U{1680}' || ('\U{2000}' <= c <= '\U{200a}') || c == '\U{2028}' || c == '\U{2029}'
    || c == '\U{202f}' || c == '\U{205f}' || c == '\U{3000}'
  }

  function TrimStart(s: string): (r: string)
    ensures |r| <= |s| && r == s[|s| - |r|..]
    ensures r == [] || !IsSpace(r[0])
    ensures forall i :: 0 <= i < |s| - |r| ==> IsSpace(s[i])
  {
    if s != [] && IsSpace(s[0]) then TrimStart(s[1..]) else s
  }

  function TrimEnd(s: string): (r: string)
    ensures |r| <= |s| && r == s[..|r|]
    ensures r == [] || !IsSpace(r[|r| - 1])
    ensures forall i :: |r| <= i < |s| ==> IsSpace(s[i])
  {
    if s != [] && IsSpace(s[|s| - 1]) then TrimEnd(s[..|s| - 1]) else s
  }

  /** `s.strip()`: the longest slice of `s` that neither starts nor ends with whitespace. */
  function Strip(s: string): (r: string)
    ensures |r| <= |s|
    ensures r == [] || (!IsSpace(r[0]) && !IsSpace(r[|r| - 1]))
  {
    TrimEnd(TrimStart(s))
  }

  /** `s.strip()` is a slice of `s` with only whitespace cut off either end. */
  lemma StripIsTrimmedSlice(s: string)
    ensures exists i, j :: 0 <= i <= j <= |s| && Strip(s) == s[i..j] &&
              (forall k :: 0 <= k < i ==> IsSpace(s[k])) &&
              (forall k :: j <= k < |s| ==> IsSpace(s[k]))
  {
    var t := TrimStart(s);
    var i := |s| - |t|;
    var j := i + |Strip(s)|;
    assert t == s[i..];
    assert Strip(s) == t[..|Strip(s)|];
    assert Strip(s) == s[i..j];
    forall k | j <= k < |s| ensures IsSpace(s[k]) {
      assert s[k] == t[k - i];
    }
  }

  /** Text that neither starts nor ends with whitespace is its own strip. */
  lemma StripClean(w: string)
    requires w != [] && !IsSpace(w[0]) && !IsSpace(w[|w| - 1])
    ensures Strip(w) == w
  {
  }

  // ---------------------------------------------------------------------------
  // what json.dumps accepts

  /** `json.dumps(v)` succeeds: only JSON values, no library objects, anywhere in `v`. */
  predicate JsonSerializable(v: Value)
    decreases v, 1
  {
    match v
    case List(items) => ItemsSerializable(items)
    case Obj(d) => EntriesSerializable(d)
    case ObjId(_) => false
    case Uuid(_) => false
    case DateTime(_) => false
    case Opaque(_) => false
    case _ => true
  }

  /** A dict serialises exactly when each of its values does. */
  lemma {:induction false} EntriesSerializableIff(d: Dict)
    ensures EntriesSerializable(d) <==> forall i :: 0 <= i < |d| ==> JsonSerializable(d[i].1)
  {
    if d != [] {
      EntriesSerializableIff(d[1..]);
      assert forall i :: 0 < i < |d| ==> d[i] == d[1..][i - 1];
    }
  }

  /** A list serialises exactly when each of its items does. */
  lemma {:induction false} ItemsSerializableIff(items: seq<Value>)
    ensures ItemsSerializable(items) <==> forall i :: 0 <= i < |items| ==> JsonSerializable(items[i])
  {
    if items != [] {
      ItemsSerializableIff(items[1..]);
      assert forall i :: 0 < i < |items| ==> items[i] == items[1..][i - 1];
    }
  }

  /** What a serialisable dict stores under a key serialises too. */
  lemma {:induction false} GetSerializable(d: Dict, k: string)
    requires EntriesSerializable(d) && HasKey(d, k)
    ensures JsonSerializable(Get(d, k).value)
  {
    if d[0].0 != k {
      GetSerializable(d[1..], k);
    }
  }

  predicate ItemsSerializable(items: seq<Value>)
    decreases items, 0
  {
    items == [] || (JsonSerializable(items[0]) && ItemsSerializable(items[1..]))
  }

  predicate EntriesSerializable(d: Dict)
    decreases d, 0
  {
    d == [] || (var e := d[0]; assert e in d && e.1 < e; JsonSerializable(e.1) && EntriesSerializable(d[1..]))
  }
}
