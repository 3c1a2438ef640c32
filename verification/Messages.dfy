// Message shapes and structural validation (src/protocol/message.js).
module Messages {
  import opened Wrappers
  import opened Text
  import opened Crypto
  import Base64
  import Canonical

  const PROTOCOL_VERSION := 1
  const MAX_IDENTITY_LENGTH := 64
  const MAX_PEM_LENGTH := 4096
  const MIN_RSA_OUTPUT_BYTES := MIN_MODULUS_LENGTH / 8
  const MAX_RSA_OUTPUT_BYTES := 1024
  const PRIVATE_KEY_MARK := "PRIVATE KEY"

  // ---- Decoded JSON ------------------------------------------------------------------

  // A field value. Of a nested object only the names of its own properties ever matter.
  datatype Value =
    | Str(s: string) | Num(n: int) | Bool(b: bool) | Null
    | List(items: seq<Value>) | Nested(keys: set<string>)

  predicate IsScalar(v: Value) {
    !v.List? && !v.Nested?
  }

  // Whether a decoded value can be converted to text. Arrays convert their items. An object with an own
  // property toString hides the inherited method behind a value that cannot be called, and the
  // inherited valueOf gives no primitive either: the conversion throws a TypeError.
  predicate Printable(v: Value) {
    match v
    case List(items) => forall i :: 0 <= i < |items| ==> Printable(items[i])
    case Nested(keys) => "toString" !in keys
    case _ => true
  }

  // The value under a list of positions.
  function At(v: Value, path: seq<nat>): Option<Value> {
    if path == [] then Some(v)
    else if v.List? && path[0] < |v.items| then At(v.items[path[0]], path[1..]) else None
  }

  // An object with an own property toString, in a list or a list of lists.
  predicate HidesText(v: Value, path: seq<nat>) {
    At(v, path).Some? && At(v, path).value.Nested? && "toString" in At(v, path).value.keys
  }

  // A value has no text exactly if it is such an object or holds one.
  lemma {:induction false} PrintableExactly(v: Value)
    ensures Printable(v) <==> !exists path :: HidesText(v, path)
  {
    match v
    case List(items) =>
      forall i | 0 <= i < |items|
        ensures Printable(items[i]) <==> !exists path :: HidesText(items[i], path)
      {
        PrintableExactly(items[i]);
      }
      if path :| HidesText(v, path) {
        assert path != [] && HidesText(items[path[0]], path[1..]);
      }
      if i :| 0 <= i < |items| && !Printable(items[i]) {
        var path :| HidesText(items[i], path);
        var p: seq<nat> := [i] + path;
        assert p[1..] == path;
        assert HidesText(v, p);
      }
    case Nested(keys) =>
      assert HidesText(v, []) <==> "toString" in keys;
      assert forall path: seq<nat> :: path != [] ==> !HidesText(v, path);
    case _ =>
      assert forall path: seq<nat> :: !HidesText(v, path);
  }

  type Object = map<string, Value>

  datatype Json = Obj(fields: Object) | Arr | Scalar(value: Value)

  function TextOf(o: Object, field: string): string {
    if field in o && o[field].Str? then o[field].s else ""
  }

  // ---- Handshake messages ---------------------------------------------------------------

  datatype Msg =
    | Hello(version: int, sender: string, encryptionPublicKey: string, signingPublicKey: string)
    | KeyExchange(version: int, sender: string, recipient: string, sessionId: string,
                  encryptedSessionKey: string, signature: string)
    | KeyExchangeAck(version: int, sender: string, recipient: string, sessionId: string, signature: string)

  // createHelloMessage, createKeyExchangeMessage, createKeyExchangeAckMessage
  function ToObject(m: Msg): Object {
    match m
    case Hello(v, s, e, g) =>
      map["type" := Str("HELLO"), "version" := Num(v), "sender" := Str(s),
          "encryptionPublicKey" := Str(e), "signingPublicKey" := Str(g)]
    case KeyExchange(v, s, r, i, k, g) =>
      map["type" := Str("KEY_EXCHANGE"), "version" := Num(v), "sender" := Str(s), "recipient" := Str(r),
          "sessionId" := Str(i), "encryptedSessionKey" := Str(k), "signature" := Str(g)]
    case KeyExchangeAck(v, s, r, i, g) =>
      map["type" := Str("KEY_EXCHANGE_ACK"), "version" := Num(v), "sender" := Str(s), "recipient" := Str(r),
          "sessionId" := Str(i), "signature" := Str(g)]
  }

  predicate IsHandshakeType(kind: string) {
    kind == "HELLO" || kind == "KEY_EXCHANGE" || kind == "KEY_EXCHANGE_ACK"
  }

  // The message an object of a handshake type stands for, reading absent fields as empty.
  function FromObject(o: Object): Msg {
    var version := if "version" in o && o["version"].Num? then o["version"].n else 0;
    if TextOf(o, "type") == "HELLO" then
      Hello(version, TextOf(o, "sender"), TextOf(o, "encryptionPublicKey"), TextOf(o, "signingPublicKey"))
    else if TextOf(o, "type") == "KEY_EXCHANGE" then
      KeyExchange(version, TextOf(o, "sender"), TextOf(o, "recipient"), TextOf(o, "sessionId"),
                  TextOf(o, "encryptedSessionKey"), TextOf(o, "signature"))
    else
      KeyExchangeAck(version, TextOf(o, "sender"), TextOf(o, "recipient"), TextOf(o, "sessionId"),
                     TextOf(o, "signature"))
  }

  // ---- Field checks ---------------------------------------------------------------------

  predicate IsIdentity(s: string) {
    !IsBlank(s) && Utf16Length(s) <= MAX_IDENTITY_LENGTH
  }

  predicate IsRsaOutputField(s: string) {
    && Base64.IsCanonicalBase64(s)
    && MIN_RSA_OUTPUT_BYTES <= |Base64.Decode(s)| <= MAX_RSA_OUTPUT_BYTES
  }

  function ParsePem(env: Env, pem: string): Option<PublicKey> {
    if pem == "" || Utf16Length(pem) > MAX_PEM_LENGTH then None else ImportPublicKey(env, pem)
  }

  function AsciiLowerChar(c: char): char {
    if 'A' <= c <= 'Z' then (c as int + 32) as char else c
  }

  function AsciiLower(s: string): (r: string)
    ensures |r| == |s|
  {
    seq(|s|, i requires 0 <= i < |s| => AsciiLowerChar(s[i]))
  }

  predicate ContainsPrivateKeyMaterial(o: Object) {
    exists field :: field in o &&
      (Contains(AsciiLower(field), "private") || (o[field].Str? && Contains(o[field].s, PRIVATE_KEY_MARK)))
  }

  // ---- Validation ----------------------------------------------------------------------------

  datatype Reason =
    | NotAnObject | MissingType | ReservedType | UnsupportedType
    | PrivateKeyMaterial | VersionRequired | UnsupportedVersion | UnexpectedField | MissingField(name: string)
    | BadIdentity(name: string) | BadPublicKey(name: string) | ReusedKeys | SameParties
    | BadSessionId | BadRsaField(name: string) | BadText | UnknownEvent | BadPeer

  // Throws: the text of the refusal names a value that cannot be converted to text.
  datatype Verdict = Valid | Invalid(reason: Reason) | Throws

  // A refusal whose reason quotes the value.
  function Quoting(v: Value, reason: Reason): Verdict {
    if Printable(v) then Invalid(reason) else Throws
  }

  function Allowed(kind: string): (r: seq<string>)
    ensures "type" in r && "version" in r && "sender" in r
  {
    if kind == "HELLO" then ["type", "version", "sender", "encryptionPublicKey", "signingPublicKey"]
    else if kind == "KEY_EXCHANGE" then
      ["type", "version", "sender", "recipient", "sessionId", "encryptedSessionKey", "signature"]
    else ["type", "version", "sender", "recipient", "sessionId", "signature"]
  }

  // The first of the fields that the object lacks.
  function FirstMissing(o: Object, fields: seq<string>): (r: Option<string>)
    ensures r.None? <==> forall f :: f in fields ==> f in o
  {
    if fields == [] then None
    else if fields[0] !in o then Some(fields[0])
    else FirstMissing(o, fields[1..])
  }

  predicate IsText(o: Object, field: string) {
    field in o && o[field].Str?
  }

  // The checks after the field lists have been compared.
  function FieldVerdict(env: Env, o: Object, kind: string): Verdict {
    if !IsText(o, "sender") || !IsIdentity(o["sender"].s) then Invalid(BadIdentity("sender"))
    else if kind == "HELLO" then
      if !IsText(o, "encryptionPublicKey") || ParsePem(env, o["encryptionPublicKey"].s).None? then
        Invalid(BadPublicKey("encryptionPublicKey"))
      else if !IsText(o, "signingPublicKey") || ParsePem(env, o["signingPublicKey"].s).None? then
        Invalid(BadPublicKey("signingPublicKey"))
      else if ParsePem(env, o["encryptionPublicKey"].s) == ParsePem(env, o["signingPublicKey"].s) then
        Invalid(ReusedKeys)
      else Valid
    else if !IsText(o, "recipient") || !IsIdentity(o["recipient"].s) then Invalid(BadIdentity("recipient"))
    else if o["recipient"].s == o["sender"].s then Invalid(SameParties)
    else if !IsText(o, "sessionId") || !IsSessionId(o["sessionId"].s) then Invalid(BadSessionId)
    else if kind == "KEY_EXCHANGE" &&
         (!IsText(o, "encryptedSessionKey") || !IsRsaOutputField(o["encryptedSessionKey"].s)) then
      Invalid(BadRsaField("encryptedSessionKey"))
    else if !IsText(o, "signature") || !IsRsaOutputField(o["signature"].s) then Invalid(BadRsaField("signature"))
    else Valid
  }

  function HandshakeVerdict(env: Env, o: Object, kind: string): Verdict {
    if ContainsPrivateKeyMaterial(o) then Invalid(PrivateKeyMaterial)
    else if "version" !in o then Invalid(VersionRequired)
    else if o["version"] != Num(PROTOCOL_VERSION) then Quoting(o["version"], UnsupportedVersion)
    else if exists field :: field in o && field !in Allowed(kind) then Invalid(UnexpectedField)
    else
      match FirstMissing(o, Allowed(kind))
      case Some(name) => Invalid(MissingField(name))
      case None => FieldVerdict(env, o, kind)
  }

  // validateHandshakeMessage; keys is Object.keys(msg) in its own order.
  method ValidateHandshakeMessage(env: Env, o: Object, keys: seq<string>) returns (v: Verdict)
    requires forall k :: k in keys <==> k in o
    requires IsText(o, "type")
    ensures v == HandshakeVerdict(env, o, o["type"].s)
  {
    hide Contains, FieldVerdict, ContainsPrivateKeyMaterial, Allowed;
    var kind := o["type"].s;
    if ContainsPrivateKeyMaterial(o) {
      return Invalid(PrivateKeyMaterial);
    }
    if "version" !in o {
      return Invalid(VersionRequired);
    }
    if o["version"] != Num(PROTOCOL_VERSION) {
      return Quoting(o["version"], UnsupportedVersion);
    }
    var allowed := Allowed(kind);
    for i := 0 to |keys|
      invariant forall j :: 0 <= j < i ==> keys[j] in allowed
    {
      if keys[i] !in allowed {
        return Invalid(UnexpectedField);
      }
    }
    for i := 0 to |allowed|
      invariant FirstMissing(o, allowed) == FirstMissing(o, allowed[i..])
    {
      if allowed[i] !in o {
        return Invalid(MissingField(allowed[i]));
      }
      assert allowed[i..][1..] == allowed[i + 1..];
    }
    v := FieldVerdict(env, o, kind);
  }

  function ValidateMessage(env: Env, j: Json): Verdict {
    if !j.Obj? then Invalid(NotAnObject)
    else
      var o := j.fields;
      if !IsText(o, "type") || IsBlank(o["type"].s) then Invalid(MissingType)
      else
        var kind := o["type"].s;
        if kind in {"REKEY", "REKEY_ACK"} then Invalid(ReservedType)
        else if kind !in {"HELLO", "CHAT", "SYSTEM", "ERROR", "KEY_EXCHANGE",
                          "KEY_EXCHANGE_ACK"} then Invalid(UnsupportedType)
        else if IsHandshakeType(kind) then HandshakeVerdict(env, o, kind)
        else if "version" in o && o["version"] != Num(PROTOCOL_VERSION) then Quoting(o["version"], UnsupportedVersion)
        else if !IsText(o, "text") || IsBlank(o["text"].s) then Invalid(BadText)
        else if kind == "SYSTEM" && "event" in o then
          if o["event"] != Str("PEER_JOINED") && o["event"] != Str("PEER_LEFT") then Quoting(o["event"], UnknownEvent)
          else if !IsText(o, "peer") || !IsIdentity(o["peer"].s) then Invalid(BadPeer)
          else Valid
        else Valid
  }

  // ---- What validation accepts ---------------------------------------------------------------

  predicate NoPrivateMark(s: string) {
    !Contains(s, PRIVATE_KEY_MARK)
  }

  // The handshake messages the protocol description allows.
  predicate WellFormed(env: Env, m: Msg) {
    && m.version == PROTOCOL_VERSION
    && IsIdentity(m.sender) && NoPrivateMark(m.sender)
    && match m
       case Hello(_, _, e, g) =>
         && NoPrivateMark(e) && NoPrivateMark(g)
         && ParsePem(env, e).Some? && ParsePem(env, g).Some? && ParsePem(env, e) != ParsePem(env, g)
       case KeyExchange(_, s, r, i, k, g) =>
         && IsIdentity(r) && NoPrivateMark(r) && r != s && IsSessionId(i)
         && IsRsaOutputField(k) && IsRsaOutputField(g)
       case KeyExchangeAck(_, s, r, i, g) =>
         && IsIdentity(r) && NoPrivateMark(r) && r != s && IsSessionId(i) && IsRsaOutputField(g)
  }

  predicate IsValidHandshake(env: Env, o: Object) {
    ValidateMessage(env, Obj(o)).Valid? && IsHandshakeType(TextOf(o, "type"))
  }

  lemma MarkHasSpace(s: string)
    requires Contains(s, PRIVATE_KEY_MARK)
    ensures ' ' in s
  {
    var i :| 0 <= i <= |s| && PRIVATE_KEY_MARK <= s[i..];
    assert s[i..][7] == PRIVATE_KEY_MARK[7];
  }

  lemma HexHasNoMark(s: string)
    requires IsSessionId(s)
    ensures NoPrivateMark(s)
  {
    if Contains(s, PRIVATE_KEY_MARK) {
      MarkHasSpace(s);
    }
  }

  lemma Base64HasNoMark(s: string)
    requires Base64.IsCanonicalBase64(s)
    ensures NoPrivateMark(s)
  {
    if Contains(s, PRIVATE_KEY_MARK) {
      MarkHasSpace(s);
    }
  }

  predicate LacksV(s: string) {
    'v' !in s && 'V' !in s
  }

  lemma ShortNamesLackV()
    ensures LacksV("type") && LacksV("sender") && LacksV("recipient") && LacksV("sessionId") && LacksV("signature")
  {
  }

  lemma LongNamesLackV()
    ensures LacksV("encryptedSessionKey") && LacksV("encryptionPublicKey") && LacksV("signingPublicKey")
  {
  }

  lemma PrivateHasVa(s: string)
    requires Contains(s, "private")
    ensures exists i :: 0 <= i < |s| - 1 && s[i] == 'v' && s[i + 1] == 'a'
  {
    var j :| 0 <= j <= |s| && "private" <= s[j..];
    assert s[j..][3] == "private"[3] && s[j..][4] == "private"[4];
    assert s[j + 3] == 'v' && s[j + 3 + 1] == 'a';
  }

  lemma NotPrivate(field: string)
    requires LacksV(field) || field == "version"
    ensures !Contains(AsciiLower(field), "private")
  {
    hide Contains;
    var low := AsciiLower(field);
    assert forall i :: 0 <= i < |low| ==> low[i] == AsciiLowerChar(field[i]);
    if Contains(low, "private") {
      PrivateHasVa(low);
    }
  }

  // Every field name of the three schemas is free of the word "private", in any case.
  lemma SchemaNamesArePublic(kind: string, field: string)
    requires field in Allowed(kind)
    ensures !Contains(AsciiLower(field), "private")
  {
    ShortNamesLackV();
    LongNamesLackV();
    hide LacksV;
    NotPrivate(field);
  }

  // ---- When validation throws ------------------------------------------------------------------

  // The version is looked at: any implemented type, and no private material in a handshake message.
  predicate ReachesVersion(o: Object) {
    && IsText(o, "type")
    && o["type"].s in {"HELLO", "CHAT", "SYSTEM", "ERROR", "KEY_EXCHANGE", "KEY_EXCHANGE_ACK"}
    && (IsHandshakeType(o["type"].s) ==> !ContainsPrivateKeyMaterial(o))
  }

  // The event is looked at: a SYSTEM message that passed every check before it.
  predicate ReachesEvent(o: Object) {
    && IsText(o, "type") && o["type"].s == "SYSTEM"
    && ("version" in o ==> o["version"] == Num(PROTOCOL_VERSION))
    && IsText(o, "text") && !IsBlank(o["text"].s)
  }

  // validateMessage returns for every input but these: the version, or the event of a SYSTEM message, is
  // looked at and cannot be converted to text.
  lemma ThrowsExactly(env: Env, j: Json)
    ensures ValidateMessage(env, j).Throws? <==>
      && j.Obj?
      && (|| (ReachesVersion(j.fields) && "version" in j.fields && !Printable(j.fields["version"]))
          || (ReachesEvent(j.fields) && "event" in j.fields && !Printable(j.fields["event"])))
  {
    hide ContainsPrivateKeyMaterial, FieldVerdict, FirstMissing, IsIdentity, Allowed;
    if j.Obj? && IsText(j.fields, "type") {
      if j.fields["type"].s in {"HELLO", "CHAT", "SYSTEM", "ERROR", "KEY_EXCHANGE", "KEY_EXCHANGE_ACK"} {
        TypesAreNotBlank(j.fields["type"].s);
      }
      FieldsNeverThrow(env, j.fields, j.fields["type"].s);
    }
  }

  lemma TypesAreNotBlank(kind: string)
    requires kind in {"HELLO", "CHAT", "SYSTEM", "ERROR", "KEY_EXCHANGE", "KEY_EXCHANGE_ACK"}
    ensures !IsBlank(kind)
  {
    assert !IsJsSpace(kind[0]);
  }

  lemma FieldsNeverThrow(env: Env, o: Object, kind: string)
    ensures !FieldVerdict(env, o, kind).Throws?
  {
    hide ParsePem, IsIdentity, IsSessionId, IsRsaOutputField;
  }
}
