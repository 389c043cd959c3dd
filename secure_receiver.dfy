/**
 * The external receiver of examples/iceoryx2/rsa_test.py: it drains envelopes
 * from the subscriber, parses each body, and treats it as a hybrid-encrypted
 * message (RSA PKCS#1 v1.5 key wrap, RFC 8017 section 7.2, plus AES-GCM,
 * NIST SP 800-38D, with base64 fields, RFC 4648 section 4), a legacy
 * RSA-only message, or plaintext. The cryptographic and codec primitives are
 * parameters; the model is the branching and the error handling around them.
 */
module SecureReceiver {
  import opened Wrappers
  import opened Utf8
  import Text
  import Json
  import PyEnvelope

  /**
   * The foreign calls, with the private key of this run bound in:
   * `base64.b64decode` on a str, `private_key.decrypt(_, PKCS1v15())`,
   * `AESGCM(key).decrypt(iv, data, None)` (a bad key size or a failed tag check
   * both raise), and `json.loads`. `None` is "raised an exception".
   */
  datatype Primitives = Primitives(
    b64decode: string -> Option<Bytes>,
    rsaDecrypt: Bytes -> Option<Bytes>,
    aesGcmDecrypt: (Bytes, Bytes, Bytes) -> Option<Bytes>,
    loads: string -> Option<Json.Value>)

  datatype Scheme = Hybrid | Legacy

  /** The step whose exception ended the processing of one message. */
  datatype Stage =
    | FieldAccess(field: string)
    | Base64(field: string)
    | KeyUnwrap
    | Aead
    | Utf8Text
    | JsonText
    | BodyNotUtf8
    | NotAContainer

  /**
   * What happens to one message: printed as plaintext, decrypted, reported by
   * the inner `except` as "Decryption Failed", or reported by the outer
   * `except` as "Error processing message".
   */
  datatype Outcome =
    | Plaintext(body: Json.Value)
    | Decrypted(scheme: Scheme, content: Json.Value)
    | DecryptionFailed(scheme: Scheme, stage: Stage)
    | ProcessingError(stage: Stage)

  /** Python's `key in value` for what `json.loads` returns; `None` is the `TypeError` of a number, bool or null. */
  function PyIn(key: string, value: Json.Value): Option<bool>
  {
    match value
    case JObj(fields) => Some(key in fields)
    case JArr(items) => Some(Json.JStr(key) in items)
    case JStr(s) => Some(Text.Contains(s, key))
    case _ => None
  }

  /** Python's `value[key]` with a str key; only a dict with that key answers. */
  function PyIndex(value: Json.Value, key: string): Option<Json.Value>
  {
    if value.JObj? && key in value.fields then Some(value.fields[key]) else None
  }

  datatype Kind = HybridKind | LegacyKind | PlaintextKind

  /** The `if` / `elif` / `else` of lines 107, 130 and 145, with `and` short-circuiting. */
  function Classify(body: Json.Value): (r: Option<Kind>)
    ensures r.None? <==> PyIn("secure_key", body).None?
  {
    match PyIn("secure_key", body)
    case None => None
    case Some(hasKey) =>
      var hasPayload := PyIn("secure_payload", body).value;
      if hasKey && hasPayload then Some(HybridKind)
      else if hasPayload then Some(LegacyKind)
      else Some(PlaintextKind)
  }

  /** A field value through `base64.b64decode`: a str is decoded, any other value raises. */
  function B64(p: Primitives, v: Json.Value): Option<Bytes>
  {
    if v.JStr? then p.b64decode(v.s) else None
  }

  /** Bytes through `.decode('utf-8')` and `json.loads`. */
  function ParseDecrypted(p: Primitives, scheme: Scheme, data: Bytes): Outcome
  {
    match Decode(data)
    case None => DecryptionFailed(scheme, Utf8Text)
    case Some(text) =>
      match p.loads(text)
      case None => DecryptionFailed(scheme, JsonText)
      case Some(j) => Decrypted(scheme, j)
  }

  /** Reads and base64-decodes one field inside the hybrid `try`: both failures are decryption failures. */
  function HybridField(p: Primitives, body: Json.Value, name: string): Result<Bytes, Stage>
  {
    match PyIndex(body, name)
    case None => Err(FieldAccess(name))
    case Some(v) =>
      match B64(p, v)
      case None => Err(Base64(name))
      case Some(b) => Ok(b)
  }

  /** Lines 110-129: three fields decoded, the key unwrapped, the payload opened with no associated data, then parsed. */
  function OpenHybrid(p: Primitives, body: Json.Value): Outcome
  {
    match HybridField(p, body, "secure_key")
    case Err(s) => DecryptionFailed(Hybrid, s)
    case Ok(wrappedKey) =>
      match HybridField(p, body, "iv")
      case Err(s) => DecryptionFailed(Hybrid, s)
      case Ok(iv) =>
        match HybridField(p, body, "secure_payload")
        case Err(s) => DecryptionFailed(Hybrid, s)
        case Ok(ciphertext) =>
          match p.rsaDecrypt(wrappedKey)
          case None => DecryptionFailed(Hybrid, KeyUnwrap)
          case Some(aesKey) =>
            match p.aesGcmDecrypt(aesKey, iv, ciphertext)
            case None => DecryptionFailed(Hybrid, Aead)
            case Some(data) => ParseDecrypted(p, Hybrid, data)
  }

  /**
   * Lines 130-144: reading and base64-decoding `secure_payload` happen before
   * the inner `try`, so their failures reach the outer handler.
   */
  function OpenLegacy(p: Primitives, body: Json.Value): Outcome
  {
    match PyIndex(body, "secure_payload")
    case None => ProcessingError(FieldAccess("secure_payload"))
    case Some(v) =>
      match B64(p, v)
      case None => ProcessingError(Base64("secure_payload"))
      case Some(ciphertext) =>
        match p.rsaDecrypt(ciphertext)
        case None => DecryptionFailed(Legacy, KeyUnwrap)
        case Some(data) => ParseDecrypted(p, Legacy, data)
  }

  /** Everything done with one parsed body (lines 107-146). */
  function HandleBody(p: Primitives, body: Json.Value): Outcome
  {
    match Classify(body)
    case None => ProcessingError(NotAContainer)
    case Some(HybridKind) => OpenHybrid(p, body)
    case Some(LegacyKind) => OpenLegacy(p, body)
    case Some(PlaintextKind) => Plaintext(body)
  }

  /** One received sample (lines 103-149): `to_dict`, then the body handling; nothing escapes the outer `except`. */
  function Process(p: Primitives, sample: PyEnvelope.AmadeusMessageData): Outcome
    reads sample
  {
    match sample.ToDict(p.loads)
    case None => ProcessingError(BodyNotUtf8)
    case Some(body) => HandleBody(p, body)
  }

  /**
   * The inner drain loop (lines 98-149): every available sample is processed
   * in arrival order, and a failure on one does not stop the next.
   */
  method Drain(p: Primitives, samples: seq<PyEnvelope.AmadeusMessageData>) returns (outcomes: seq<Outcome>)
    ensures |outcomes| == |samples|
    ensures forall i :: 0 <= i < |samples| ==> outcomes[i] == Process(p, samples[i])
  {
    outcomes := [];
    var i := 0;
    while i < |samples|
      invariant 0 <= i <= |samples|
      invariant |outcomes| == i
      invariant forall k :: 0 <= k < i ==> outcomes[k] == Process(p, samples[k])
    {
      var sample := samples[i];
      var outcome := Process(p, sample);
      outcomes := outcomes + [outcome];
      i := i + 1;
    }
  }

  /** For a JSON object the branch is chosen by field presence alone. */
  lemma ClassifyObject(fields: map<string, Json.Value>)
    ensures Classify(Json.JObj(fields)) == Some(HybridKind) <==> "secure_key" in fields && "secure_payload" in fields
    ensures Classify(Json.JObj(fields)) == Some(LegacyKind) <==> "secure_key" !in fields && "secure_payload" in fields
    ensures Classify(Json.JObj(fields)) == Some(PlaintextKind) <==> "secure_payload" !in fields
  {
  }

  /** Plaintext bodies, a `secure_key` without `secure_payload` among them, are passed on untouched. */
  lemma PlaintextUntouched(p: Primitives, fields: map<string, Json.Value>)
    requires "secure_payload" !in fields
    ensures HandleBody(p, Json.JObj(fields)) == Plaintext(Json.JObj(fields))
  {
  }

  /**
   * A hybrid body without `iv` ends as a hybrid decryption failure: it is
   * never decrypted, never retried as legacy and never shown as plaintext.
   */
  lemma MissingIvIsHybridFailure(p: Primitives, fields: map<string, Json.Value>)
    requires "secure_key" in fields && "secure_payload" in fields && "iv" !in fields
    ensures HandleBody(p, Json.JObj(fields)).DecryptionFailed?
    ensures HandleBody(p, Json.JObj(fields)).scheme == Hybrid
    ensures HandleBody(p, Json.JObj(fields)).stage in {Base64("secure_key"), FieldAccess("iv")}
  {
  }

  /**
   * The hybrid path succeeds exactly when every step succeeds in order, and
   * then yields what `json.loads` makes of the decrypted UTF-8 text.
   */
  lemma HybridOpens(p: Primitives, fields: map<string, Json.Value>,
                    k64: string, iv64: string, c64: string,
                    wrapped: Bytes, iv: Bytes, c: Bytes, key: Bytes, text: string, j: Json.Value)
    requires "secure_key" in fields && fields["secure_key"] == Json.JStr(k64)
    requires "iv" in fields && fields["iv"] == Json.JStr(iv64)
    requires "secure_payload" in fields && fields["secure_payload"] == Json.JStr(c64)
    requires p.b64decode(k64) == Some(wrapped) && p.b64decode(iv64) == Some(iv) && p.b64decode(c64) == Some(c)
    requires p.rsaDecrypt(wrapped) == Some(key)
    requires p.aesGcmDecrypt(key, iv, c) == Some(Encode(text))
    requires p.loads(text) == Some(j)
    ensures HandleBody(p, Json.JObj(fields)) == Decrypted(Hybrid, j)
  {
    DecodeEncode(text);
  }

  /** A ciphertext or tag that fails authentication is reported, never shown. */
  lemma TamperedHybridRejected(p: Primitives, fields: map<string, Json.Value>, wrapped: Bytes, iv: Bytes, c: Bytes, key: Bytes)
    requires "secure_key" in fields && "iv" in fields && "secure_payload" in fields
    requires B64(p, fields["secure_key"]) == Some(wrapped) && B64(p, fields["iv"]) == Some(iv)
    requires B64(p, fields["secure_payload"]) == Some(c)
    requires p.rsaDecrypt(wrapped) == Some(key)
    requires p.aesGcmDecrypt(key, iv, c).None?
    ensures HandleBody(p, Json.JObj(fields)) == DecryptionFailed(Hybrid, Aead)
  {
  }

  /** A legacy body whose `secure_payload` is not valid base64 reaches the outer handler, not the decryption one. */
  lemma LegacyBadBase64IsProcessingError(p: Primitives, fields: map<string, Json.Value>)
    requires "secure_key" !in fields && "secure_payload" in fields
    requires B64(p, fields["secure_payload"]).None?
    ensures HandleBody(p, Json.JObj(fields)) == ProcessingError(Base64("secure_payload"))
  {
  }

  /** Numbers, booleans and null make the membership test raise; a string body is searched as text. */
  lemma NonObjectBodies(p: Primitives, n: int, s: string)
    ensures HandleBody(p, Json.JNum(n)) == ProcessingError(NotAContainer)
    ensures HandleBody(p, Json.JNull) == ProcessingError(NotAContainer)
    ensures Text.Contains(s, "secure_payload") ==>
              (HandleBody(p, Json.JStr(s)).DecryptionFailed? || HandleBody(p, Json.JStr(s)).ProcessingError?)
    ensures !Text.Contains(s, "secure_payload") ==> HandleBody(p, Json.JStr(s)) == Plaintext(Json.JStr(s))
  {
  }
}
