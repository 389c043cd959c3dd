/**
 * The Python ctypes mirror of the envelope
 * (examples/iceoryx2/amadeus_message_data.py). Its `__init__` fills the same
 * C struct field by field; its getters read the buffers back. Two ctypes
 * behaviours matter: reading a `c_char * N` field yields the bytes before the
 * first zero byte, and storing into `c_uint8` / `c_uint64` keeps the value
 * modulo 2^8 / 2^64.
 */
module PyEnvelope {
  import opened Wrappers
  import opened Utf8
  import Text
  import Json
  import Envelope

  /** The Python field list: `c_char * 64`, `c_uint8`, `c_char * 4096`, `c_uint16`, `c_uint8`, `c_uint64`. */
  const FIELDS: seq<Envelope.Field> := [
    Envelope.Field("message_type", 64, 1), Envelope.Field("message_type_len", 1, 1),
    Envelope.Field("json_data", 4096, 1), Envelope.Field("json_data_len", 2, 2),
    Envelope.Field("priority", 1, 1), Envelope.Field("timestamp", 8, 8)]

  /** `type_name()`. */
  const TYPE_NAME: string := "AmadeusMessage"

  /** The `ValueError` raised by `__init__`. */
  datatype ValueError = MessageTypeTooLong | JsonPayloadTooLong

  /** What reading a `c_char` array field returns: the bytes before the first zero byte. */
  function BeforeZero(b: Bytes): (r: Bytes)
    ensures |r| <= |b| && r == b[..|r|] && 0 !in r
    ensures |r| < |b| ==> b[|r|] == 0
  {
    if b == [] || b[0] == 0 then [] else [b[0]] + BeforeZero(b[1..])
  }

  /** The characters before the first U+0000. */
  function BeforeNul(s: string): (r: string)
    ensures |r| <= |s| && r == s[..|r|] && '\0' !in r
    ensures |r| < |s| ==> s[|r|] == '\0'
  {
    if s == [] || s[0] == '\0' then [] else [s[0]] + BeforeNul(s[1..])
  }

  /** Python's `b[:n]` for `n >= 0`: at most `n` bytes, fewer when `b` is shorter. */
  function Prefix(b: Bytes, n: nat): (r: Bytes)
  {
    if n <= |b| then b[..n] else b
  }

  /**
   * Assigning `value` to a `c_char * |field|` structure field: ctypes copies
   * the bytes before the first zero byte of `value` plus one terminating zero
   * when there is room, and leaves the rest of the field as it was; a value
   * whose bytes before the first zero do not fit raises `ValueError` (`None`).
   */
  function SetChars(field: Bytes, value: Bytes): (r: Option<Bytes>)
    ensures r.Some? <==> |BeforeZero(value)| <= |field|
    ensures r.Some? ==> |r.value| == |field|
    ensures r.Some? ==> r.value[..|BeforeZero(value)|] == BeforeZero(value)
    ensures r.Some? && |BeforeZero(value)| < |field| ==>
      r.value[|BeforeZero(value)|] == 0 && r.value[|BeforeZero(value)| + 1..] == field[|BeforeZero(value)| + 1..]
  {
    var v := BeforeZero(value);
    if |v| > |field| then None
    else if |v| == |field| then Some(v)
    else
      var r := v + [0] + field[|v| + 1..];
      assert r[..|v|] == v;
      assert r[|v| + 1..] == field[|v| + 1..];
      Some(r)
  }

  /** `bytes.ljust(n, b'\x00')`. */
  function LJust(b: Bytes, n: nat): (r: Bytes)
    ensures |r| == (if |b| < n then n else |b|)
    ensures Envelope.HoldsPadded(r, b)
  {
    if |b| < n then
      var r := b + Envelope.Zeros(n - |b|);
      assert r[..|b|] == b;
      r
    else
      assert b[..|b|] == b;
      b
  }

  /** The struct's contents after a successful `__init__`, before any ctypes reading is applied. */
  datatype Fields = Fields(messageType: Bytes, messageTypeLen: int, jsonData: Bytes, jsonDataLen: int, priority: int, timestamp: int)

  /** Which timestamp `__init__` stores: the given one, or the current time in milliseconds. */
  function ChosenTimestamp(timestamp: Option<int>, nowMillis: int): (t: int)
    ensures timestamp.Some? ==> t == timestamp.value
    ensures timestamp.None? ==> t == nowMillis
  {
    match timestamp
    case None => nowMillis
    case Some(t) => t
  }

  class AmadeusMessageData {
    /** Raw storage of the struct's fields. */
    var messageType: Bytes
    var messageTypeLen: int
    var jsonData: Bytes
    var jsonDataLen: int
    var priority: int
    var timestamp: int

    /** The field values as stored. */
    function Contents(): Fields
      reads this
    {
      Fields(messageType, messageTypeLen, jsonData, jsonDataLen, priority, timestamp)
    }

    /** `super().__init__()`: ctypes zero-fills a fresh structure. */
    constructor Zeroed()
      ensures Contents() == Fields(Envelope.Zeros(64), 0, Envelope.Zeros(4096), 0, 0, 0)
    {
      messageType := Envelope.Zeros(64);
      messageTypeLen := 0;
      jsonData := Envelope.Zeros(4096);
      jsonDataLen := 0;
      priority := 0;
      timestamp := 0;
    }

    /**
     * `AmadeusMessageData(message_type, json_payload, priority, timestamp)`:
     * raises `ValueError` for an encoded type over 64 bytes or encoded JSON over
     * 4096 bytes; otherwise assigns the zero-padded encodings to the two
     * `c_char` fields, which keeps only the text before the first U+0000, and
     * stores the full encoded lengths, the priority modulo 256 and the
     * timestamp modulo 2^64.
     */
    static method Init(messageType: string, jsonPayload: string, priority: int, timestamp: Option<int>, nowMillis: int)
        returns (r: Result<AmadeusMessageData, ValueError>)
      ensures r.Err? <==> |Encode(messageType)| > 64 || |Encode(jsonPayload)| > 4096
      ensures r.Err? ==> r.error == (if |Encode(messageType)| > 64 then MessageTypeTooLong else JsonPayloadTooLong)
      ensures r.Ok? ==> fresh(r.value) && r.value.Contents() == Fields(
        LJust(Encode(BeforeNul(messageType)), 64), |Encode(messageType)|,
        LJust(Encode(BeforeNul(jsonPayload)), 4096), |Encode(jsonPayload)|,
        priority % 256, ChosenTimestamp(timestamp, nowMillis) % Envelope.U64_LIMIT)
    {
      var ts := ChosenTimestamp(timestamp, nowMillis);
      var d := new AmadeusMessageData.Zeroed();
      var typeBytes := Encode(messageType);
      if |typeBytes| > 64 {
        return Err(MessageTypeTooLong);
      }
      d.messageType := AssignText(messageType, 64);
      d.messageTypeLen := |typeBytes| % 256;
      var jsonBytes := Encode(jsonPayload);
      if |jsonBytes| > 4096 {
        return Err(JsonPayloadTooLong);
      }
      d.jsonData := AssignText(jsonPayload, 4096);
      d.jsonDataLen := |jsonBytes| % 0x1_0000;
      d.priority := priority % 256;
      d.timestamp := ts % Envelope.U64_LIMIT;
      r := Ok(d);
    }

    /**
     * `self.f = s.encode('utf-8').ljust(n, b'\x00')` on the zero-filled
     * `c_char * n` field `f` of a fresh structure: the field then holds the
     * encoding of the text before the first U+0000, zero-padded.
     */
    static method AssignText(s: string, n: nat) returns (stored: Bytes)
      requires |Encode(s)| <= n
      ensures stored == LJust(Encode(BeforeNul(s)), n)
    {
      StoreIntoZeroed(s, n);
      stored := SetChars(Envelope.Zeros(n), LJust(Encode(s), n)).value;
    }

    /** The constructor's defaults: type "", payload "{}", priority 1, timestamp now. */
    static method InitDefaults(nowMillis: int) returns (r: Result<AmadeusMessageData, ValueError>)
      ensures r.Ok? && fresh(r.value)
      ensures r.value.Contents() == Fields(Envelope.Zeros(64), 0, LJust(Encode("{}"), 4096), 2, 1, nowMillis % Envelope.U64_LIMIT)
    {
      assert Encode("{}") == [0x7B, 0x7D];
      assert BeforeNul("{}") == "{}" && BeforeNul("") == "";
      assert LJust(Encode(""), 64) == Envelope.Zeros(64);
      r := Init("", "{}", 1, None, nowMillis);
    }

    /**
     * `get_message_type`: the first `message_type_len` bytes of the field
     * value, UTF-8 decoded; bytes that are not UTF-8 raise (`None`).
     */
    function GetMessageType(): (r: Option<string>)
      reads this
      ensures r.Some? <==> messageTypeLen >= 0 && exists s :: Encode(s) == Prefix(BeforeZero(messageType), messageTypeLen)
      ensures r.Some? ==> Encode(r.value) == Prefix(BeforeZero(messageType), messageTypeLen) && '\0' !in r.value
    {
      if messageTypeLen < 0 then None
      else ReadChars(messageType, messageTypeLen); Decode(Prefix(BeforeZero(messageType), messageTypeLen))
    }

    /**
     * `get_json_payload`: the first `json_data_len` bytes of the field value,
     * UTF-8 decoded; bytes that are not UTF-8 raise (`None`).
     */
    function GetJsonPayload(): (r: Option<string>)
      reads this
      ensures r.Some? <==> jsonDataLen >= 0 && exists s :: Encode(s) == Prefix(BeforeZero(jsonData), jsonDataLen)
      ensures r.Some? ==> Encode(r.value) == Prefix(BeforeZero(jsonData), jsonDataLen) && '\0' !in r.value
    {
      if jsonDataLen < 0 then None
      else ReadChars(jsonData, jsonDataLen); Decode(Prefix(BeforeZero(jsonData), jsonDataLen))
    }

    /** `get_priority_name`: one of the four names exactly for a stored priority below 4. */
    function GetPriorityName(): (r: string)
      reads this
      ensures r in PRIORITY_NAMES <==> 0 <= priority < 4
      ensures 0 <= priority < 4 ==> r == PRIORITY_NAMES[priority]
    {
      PriorityName(priority)
    }

    /**
     * `to_dict`: the parsed payload, or `{"error": "Invalid JSON payload"}` when
     * it does not parse. A payload that is not UTF-8 raises (`None` here).
     */
    function ToDict(loads: string -> Option<Json.Value>): (r: Option<Json.Value>)
      reads this
      ensures r.Some? <==> GetJsonPayload().Some?
      ensures r.Some? && loads(GetJsonPayload().value).Some? ==> r.value == loads(GetJsonPayload().value).value
      ensures r.Some? && loads(GetJsonPayload().value).None? ==> r.value == INVALID_JSON
    {
      match GetJsonPayload()
      case None => None
      case Some(text) => Some(LoadsOrError(loads, text))
    }
  }

  const PRIORITY_NAMES: seq<string> := ["Low", "Normal", "High", "Critical"]

  /**
   * `priorities[p] if 0 <= p < 4 else f"Unknown({p})"`: a name exactly for
   * 0..3, otherwise `Unknown(` and the decimal text of `p`, which reads back
   * as `p`, and `)`.
   */
  function PriorityName(p: int): (r: string)
    ensures r in PRIORITY_NAMES <==> 0 <= p < 4
    ensures 0 <= p < 4 ==> r == PRIORITY_NAMES[p]
    ensures 4 <= p ==> r == "Unknown(" + Text.NatToString(p) + ")" && Text.ParseNat(r[8..|r| - 1]) == p
    ensures p < 0 ==> r == "Unknown(-" + Text.NatToString(-p) + ")" && Text.ParseNat(r[9..|r| - 1]) == -p
  {
    if 0 <= p < 4 then PRIORITY_NAMES[p]
    else
      var n: nat := if p < 0 then -p else p;
      var digits := Text.NatToString(n);
      var inner := if p < 0 then "-" + digits else digits;
      UnknownText(inner, if p < 0 then 9 else 8);
      Text.ParseNatToString(n);
      "Unknown(" + inner + ")"
  }

  /** `Unknown(` and `)` around `inner`: not a priority name, and `inner`'s text, from its first digit, sits between. */
  lemma UnknownText(inner: string, start: nat)
    requires 8 <= start <= 8 + |inner| && inner != []
    ensures var r := "Unknown(" + inner + ")";
      && |r| >= 10 && r !in PRIORITY_NAMES && r[start..|r| - 1] == inner[start - 8..]
  {
    var r := "Unknown(" + inner + ")";
    assert r[start..|r| - 1] == inner[start - 8..];
    assert r[0] == 'U';
  }

  const INVALID_JSON: Json.Value := Json.JObj(map["error" := Json.JStr("Invalid JSON payload")])

  function LoadsOrError(loads: string -> Option<Json.Value>, text: string): (j: Json.Value)
    ensures loads(text).Some? ==> j == loads(text).value
    ensures loads(text).None? ==> j == INVALID_JSON
  {
    match loads(text)
    case None => INVALID_JSON
    case Some(v) => v
  }

  /** `from_dict`: the JSON text of `data` (via `json.dumps`) under the given type and priority, stamped now. */
  method FromDict(messageType: string, data: Json.Value, priority: int, dumps: Json.Value -> string, nowMillis: int)
      returns (r: Result<AmadeusMessageData, ValueError>)
    ensures r.Err? <==> |Encode(messageType)| > 64 || |Encode(dumps(data))| > 4096
    ensures r.Err? ==> r.error == (if |Encode(messageType)| > 64 then MessageTypeTooLong else JsonPayloadTooLong)
    ensures r.Ok? ==> fresh(r.value) && r.value.Contents() == Fields(
      LJust(Encode(BeforeNul(messageType)), 64), |Encode(messageType)|,
      LJust(Encode(BeforeNul(dumps(data))), 4096), |Encode(dumps(data))|,
      priority % 256, nowMillis % Envelope.U64_LIMIT)
  {
    var jsonPayload := dumps(data);
    r := AmadeusMessageData.Init(messageType, jsonPayload, priority, None, nowMillis);
  }

  lemma {:induction false} BeforeZeroPadded(s: string, n: nat)
    ensures BeforeZero(Encode(s) + Envelope.Zeros(n)) == Encode(BeforeNul(s))
  {
    if s == [] {
      assert Encode(s) + Envelope.Zeros(n) == Envelope.Zeros(n);
    } else {
      var e := EncodeScalar(s[0]);
      var rest := Encode(s[1..]) + Envelope.Zeros(n);
      assert Encode(s) + Envelope.Zeros(n) == e + rest;
      if s[0] == '\0' {
        assert (e + rest)[0] == 0;
      } else {
        BeforeZeroPadded(s[1..], n);
        BeforeZeroNonZeroPrefix(e, rest);
        assert Encode(BeforeNul(s)) == e + Encode(BeforeNul(s[1..]));
      }
    }
  }

  lemma {:induction false} BeforeZeroNonZeroPrefix(e: Bytes, rest: Bytes)
    requires 0 !in e
    ensures BeforeZero(e + rest) == e + BeforeZero(rest)
  {
    if e != [] {
      assert (e + rest)[0] == e[0];
      assert (e + rest)[1..] == e[1..] + rest;
      BeforeZeroNonZeroPrefix(e[1..], rest);
      assert [e[0]] + (e[1..] + BeforeZero(rest)) == e + BeforeZero(rest);
    } else {
      assert e + rest == rest;
    }
  }

  lemma {:induction false} EncodePrefixLength(s: string)
    ensures |Encode(BeforeNul(s))| <= |Encode(s)|
  {
    var k := |BeforeNul(s)|;
    assert s == BeforeNul(s) + s[k..];
    EncodeAppend(BeforeNul(s), s[k..]);
  }

  /** Assigning the padded encoding of `s` to a zeroed field keeps the encoding of the text before its first U+0000. */
  lemma StoreIntoZeroed(s: string, n: nat)
    requires |Encode(s)| <= n
    ensures SetChars(Envelope.Zeros(n), LJust(Encode(s), n)) == Some(LJust(Encode(BeforeNul(s)), n))
  {
    var e := Encode(s);
    PadsToZeros(e, n);
    BeforeZeroPadded(s, n - |e|);
    EncodePrefixLength(s);
    SetCharsZeroed(Encode(BeforeNul(s)), LJust(e, n), n);
  }

  lemma PadsToZeros(b: Bytes, n: nat)
    requires |b| <= n
    ensures LJust(b, n) == b + Envelope.Zeros(n - |b|)
  {
  }

  /** Assigning a value whose bytes before the first zero are `v` to a zeroed field of size `n` gives `v` padded to `n`. */
  lemma SetCharsZeroed(v: Bytes, value: Bytes, n: nat)
    requires BeforeZero(value) == v && |v| <= n
    ensures SetChars(Envelope.Zeros(n), value) == Some(LJust(v, n))
  {
    var z := Envelope.Zeros(n);
    if |v| < n {
      var w := v + [0] + z[|v| + 1..];
      assert w == v + Envelope.Zeros(n - |v|) by {
        forall i | 0 <= i < n ensures w[i] == (v + Envelope.Zeros(n - |v|))[i] {
          if i < |v| {
            assert w[i] == v[i];
          } else if i > |v| {
            assert w[i] == z[i];
          }
        }
      }
    }
  }

  /** A read of `len` bytes through the `c_char` getter decodes exactly when its bytes are an encoding, and never yields U+0000. */
  lemma ReadChars(field: Bytes, len: nat)
    ensures Decode(Prefix(BeforeZero(field), len)).Some? <==> exists s :: Encode(s) == Prefix(BeforeZero(field), len)
    ensures Decode(Prefix(BeforeZero(field), len)).Some? ==>
      var s := Decode(Prefix(BeforeZero(field), len)).value;
      Encode(s) == Prefix(BeforeZero(field), len) && '\0' !in s
  {
    var b := Prefix(BeforeZero(field), len);
    DecodableIff(b);
    if Decode(b).Some? {
      var s := Decode(b).value;
      EncodeDecode(b);
      EncodeHasZeroIff(s);
      assert 0 !in b;
    }
  }

  /**
   * What the getters return for a stored text: everything before its first
   * U+0000, so exactly the text when it has none (the empty text included).
   */
  lemma StoredTextReadsBack(s: string, capacity: nat, len: int)
    requires |Encode(s)| <= capacity && len == |Encode(s)|
    ensures Decode(Prefix(BeforeZero(LJust(Encode(BeforeNul(s)), capacity)), len)) == Some(BeforeNul(s))
    ensures '\0' !in s ==> BeforeNul(s) == s
  {
    var t := BeforeNul(s);
    BeforeNulIdempotent(s);
    EncodePrefixLength(s);
    var e := Encode(t);
    assert LJust(e, capacity) == e + Envelope.Zeros(capacity - |e|);
    BeforeZeroPadded(t, capacity - |e|);
    assert BeforeZero(LJust(e, capacity)) == e;
    assert Prefix(e, len) == e;
    DecodeEncode(t);
    if '\0' !in s {
      assert |t| == |s|;
    }
  }

  lemma BeforeNulIdempotent(s: string)
    ensures BeforeNul(BeforeNul(s)) == BeforeNul(s)
  {
    var t := BeforeNul(s);
    var u := BeforeNul(t);
    if |u| < |t| {
      assert t[|u|] == '\0';
    }
  }

  /** Round trip of the constructor and the getters. */
  lemma RoundTrip(d: AmadeusMessageData, messageType: string, jsonPayload: string, priority: int, ts: int,
                  loads: string -> Option<Json.Value>)
    requires d.Contents() == Fields(
      LJust(Encode(BeforeNul(messageType)), 64), |Encode(messageType)|,
      LJust(Encode(BeforeNul(jsonPayload)), 4096), |Encode(jsonPayload)|,
      priority % 256, ts % Envelope.U64_LIMIT)
    requires |Encode(messageType)| <= 64 && |Encode(jsonPayload)| <= 4096
    ensures d.GetMessageType() == Some(BeforeNul(messageType))
    ensures d.GetJsonPayload() == Some(BeforeNul(jsonPayload))
    ensures d.ToDict(loads) == Some(LoadsOrError(loads, BeforeNul(jsonPayload)))
    ensures '\0' !in messageType && '\0' !in jsonPayload ==>
      d.GetMessageType() == Some(messageType) && d.GetJsonPayload() == Some(jsonPayload)
  {
    StoredTextReadsBack(messageType, 64, |Encode(messageType)|);
    StoredTextReadsBack(jsonPayload, 4096, |Encode(jsonPayload)|);
  }

  /** Every U+0000 of `s` is followed only by U+0000 (vacuously so when it has none). */
  predicate NulsOnlyTrailing(s: string)
  {
    forall i :: |BeforeNul(s)| <= i < |s| ==> s[i] == '\0'
  }

  /**
   * Both ends declare the same fields in the same order (so they agree on
   * every offset and the size) under the same type name. The Python
   * constructor accepts exactly what Rust's `from_json` accepts, and it
   * writes the same bytes exactly when neither text has a character other
   * than U+0000 after its first U+0000: for `"a\u0000b"` Python's `c_char`
   * setter keeps only `a`, while Rust copies all three bytes.
   */
  lemma SameBytesAsRust(messageType: string, jsonPayload: string, priority: int, ts: int)
    requires 0 <= priority < 256 && 0 <= ts < Envelope.U64_LIMIT
    ensures FIELDS == Envelope.LAYOUT && TYPE_NAME == Envelope.TYPE_NAME
    ensures Envelope.Pack(messageType, jsonPayload, priority, ts).Ok?
      <==> |Encode(messageType)| <= 64 && |Encode(jsonPayload)| <= 4096
    ensures Envelope.Pack(messageType, jsonPayload, priority, ts).Ok? ==>
      var p := Envelope.Pack(messageType, jsonPayload, priority, ts).value;
      (Fields(p.messageType, p.messageTypeLen, p.jsonData, p.jsonDataLen, p.priority, p.timestamp)
       == Fields(LJust(Encode(BeforeNul(messageType)), 64), |Encode(messageType)|,
                 LJust(Encode(BeforeNul(jsonPayload)), 4096), |Encode(jsonPayload)|,
                 priority % 256, ts % Envelope.U64_LIMIT))
      <==> NulsOnlyTrailing(messageType) && NulsOnlyTrailing(jsonPayload)
  {
    if Envelope.Pack(messageType, jsonPayload, priority, ts).Ok? {
      var p := Envelope.Pack(messageType, jsonPayload, priority, ts).value;
      PaddedUnique(p.messageType, LJust(Encode(messageType), 64), Encode(messageType));
      PaddedUnique(p.jsonData, LJust(Encode(jsonPayload), 4096), Encode(jsonPayload));
      StoredSameIff(messageType, 64);
      StoredSameIff(jsonPayload, 4096);
    }
  }

  /** The Python field equals the Rust field exactly when nothing but U+0000 follows the first U+0000. */
  lemma StoredSameIff(s: string, n: nat)
    requires |Encode(s)| <= n
    ensures LJust(Encode(BeforeNul(s)), n) == LJust(Encode(s), n) <==> NulsOnlyTrailing(s)
  {
    var a := BeforeNul(s);
    var rest := s[|a|..];
    assert s == a + rest;
    EncodeAppend(a, rest);
    EncodeAllZeroIff(rest);
    PaddedEqualIff(Encode(a), Encode(rest), n);
    assert NulsOnlyTrailing(s) <==> forall i :: 0 <= i < |rest| ==> rest[i] == '\0' by {
      forall i | 0 <= i < |rest| ensures rest[i] == s[|a| + i] { }
    }
  }

  /** Padding `a` and padding `a + r` give the same buffer exactly when `r` is all zero bytes. */
  lemma PaddedEqualIff(a: Bytes, r: Bytes, n: nat)
    requires |a| + |r| <= n
    ensures LJust(a, n) == LJust(a + r, n) <==> forall i :: 0 <= i < |r| ==> r[i] == 0
  {
    var x, y := LJust(a, n), LJust(a + r, n);
    if forall i :: 0 <= i < |r| ==> r[i] == 0 {
      assert x[..|a + r|] == a + r by {
        forall i | 0 <= i < |a + r| ensures x[i] == (a + r)[i] {
          if i < |a| { assert x[i] == x[..|a|][i]; }
        }
      }
      PaddedUnique(x, y, a + r);
    }
    if x == y {
      forall i | 0 <= i < |r| ensures r[i] == 0 {
        assert y[|a| + i] == y[..|a + r|][|a| + i] == (a + r)[|a| + i];
      }
    }
  }

  /** An encoding is all zero bytes exactly when its text is all U+0000. */
  lemma {:induction false} EncodeAllZeroIff(s: string)
    ensures (forall i :: 0 <= i < |Encode(s)| ==> Encode(s)[i] == 0) <==> (forall i :: 0 <= i < |s| ==> s[i] == '\0')
  {
    if s != [] {
      var e := EncodeScalar(s[0]);
      assert Encode(s) == e + Encode(s[1..]);
      EncodeAllZeroIff(s[1..]);
      if s[0] != '\0' {
        assert Encode(s)[0] == e[0] != 0;
      } else {
        forall i | 0 <= i < |Encode(s[1..])| ensures Encode(s)[1 + i] == Encode(s[1..])[i] { }
        forall i | 1 <= i < |s| ensures s[i] == s[1..][i - 1] { }
      }
    }
  }

  lemma PaddedUnique(a: Bytes, b: Bytes, content: Bytes)
    requires |a| == |b| && Envelope.HoldsPadded(a, content) && Envelope.HoldsPadded(b, content)
    ensures a == b
  {
    forall i | 0 <= i < |a| ensures a[i] == b[i] {
      if i < |content| {
        assert a[i] == a[..|content|][i] && b[i] == b[..|content|][i];
      }
    }
  }
}
