// The cryptographic primitives of src/crypto, idealised. Random choices are parameters; what the
// primitives remember (issued signatures, wrapped plaintexts) is a ledger that is passed along.
module Crypto {
  import opened Wrappers
  import opened Text

  const MIN_MODULUS_LENGTH := 3072
  const SESSION_KEY_BYTES := 32
  const SESSION_ID_BYTES := 16
  const OAEP_HASH_BYTES := 32
  const PUBLIC_KEY_HEADER := "-----BEGIN PUBLIC KEY-----"

  type Digest = d: Bytes | |d| == 32 witness seq(32, _ => 0)

  // A public key is identified with the SHA-256 of its SPKI encoding, so fingerprints do not collide.
  datatype PublicKey = PublicKey(fingerprint: Digest)

  // Calls into Node: PEM parsing and writing, and the modulus length of a key.
  datatype Env = Env(
    parseKey: string -> Option<PublicKey>,
    exportKey: PublicKey -> string,
    modulusBits: PublicKey -> nat)

  function ModulusBytes(env: Env, key: PublicKey): nat {
    (env.modulusBits(key) + 7) / 8
  }

  // importPublicKey: an SPKI PEM holding an RSA key of an acceptable size.
  function ImportPublicKey(env: Env, pem: string): Option<PublicKey> {
    if !Contains(pem, PUBLIC_KEY_HEADER) then None
    else
      match env.parseKey(pem)
      case None => None
      case Some(key) => if env.modulusBits(key) < MIN_MODULUS_LENGTH then None else Some(key)
  }

  // ---- Identities ------------------------------------------------------------

  // The two key pairs of a client. Holding this value means holding both private halves.
  datatype Identity = Identity(encryption: PublicKey, signing: PublicKey)

  // ---- Ledger ------------------------------------------------------------------

  datatype Signature = Signature(signer: PublicKey, data: Bytes, bytes: Bytes)
  datatype Wrapping = Wrapping(recipient: PublicKey, ciphertext: Bytes)

  datatype Ledger = Ledger(signatures: set<Signature>, wraps: map<Wrapping, Bytes>)

  const EMPTY_LEDGER := Ledger({}, map[])

  // verify(publicKey, data, signature)
  predicate Verify(ledger: Ledger, key: PublicKey, data: Bytes, signature: Bytes) {
    data != [] && signature != [] && Signature(key, data, signature) in ledger.signatures
  }

  function Signed(ledger: Ledger, key: PublicKey, data: Bytes, signature: Bytes): (r: Ledger)
    ensures data != [] && signature != [] ==> Verify(r, key, data, signature)
  {
    ledger.(signatures := ledger.signatures + {Signature(key, data, signature)})
  }

  function Wrapped(ledger: Ledger, key: PublicKey, plaintext: Bytes, ciphertext: Bytes): (r: Ledger)
    ensures RsaDecrypt(r, key, ciphertext) == Some(plaintext)
  {
    ledger.(wraps := ledger.wraps[Wrapping(key, ciphertext) := plaintext])
  }

  // rsaDecrypt with the private half of key; None is the thrown 'RSA-OAEP decryption failed.'
  function RsaDecrypt(ledger: Ledger, key: PublicKey, ciphertext: Bytes): Option<Bytes> {
    if Wrapping(key, ciphertext) in ledger.wraps then Some(ledger.wraps[Wrapping(key, ciphertext)]) else None
  }

  // ---- Session identifiers ---------------------------------------------------------

  function HexChar(v: nat): (c: char)
    requires v < 16
    ensures IsHexChar(c)
  {
    if v < 10 then (v + 48) as char else (v + 87) as char
  }

  predicate IsHexChar(c: char) { '0' <= c <= '9' || 'a' <= c <= 'f' }

  // buffer.toString('hex')
  function Hex(b: Bytes): (s: string)
    ensures |s| == 2 * |b|
    ensures forall k :: 0 <= k < |s| ==> IsHexChar(s[k])
  {
    if b == [] then "" else [HexChar(b[0] / 16), HexChar(b[0] % 16)] + Hex(b[1..])
  }

  const HEX_DIGITS := "0123456789abcdef"

  // Two digits for each byte, the higher one first.
  lemma {:induction false} HexAt(b: Bytes, k: nat)
    requires k < |b|
    ensures Hex(b)[2 * k] == HEX_DIGITS[b[k] / 16] && Hex(b)[2 * k + 1] == HEX_DIGITS[b[k] % 16]
  {
    if k > 0 {
      HexAt(b[1..], k - 1);
    }
  }

  // /^[0-9a-f]{32}$/
  predicate IsSessionId(s: string) {
    |s| == 32 && forall k :: 0 <= k < |s| ==> IsHexChar(s[k])
  }

  // ---- Random choices --------------------------------------------------------------

  // What the primitives draw during one createKeyExchange.
  datatype KeyCoins = KeyCoins(sessionKey: Bytes, idBytes: Bytes, ciphertext: Bytes, signature: Bytes)

  // What the primitives guarantee about their outputs: the sizes, and that OAEP never gives one
  // ciphertext two meanings under the same key.
  predicate LawfulKeyCoins(env: Env, ledger: Ledger, recipient: PublicKey, signer: PublicKey, c: KeyCoins) {
    && |c.sessionKey| == SESSION_KEY_BYTES
    && |c.idBytes| == SESSION_ID_BYTES
    && |c.ciphertext| == ModulusBytes(env, recipient)
    && |c.signature| == ModulusBytes(env, signer)
    && RsaDecrypt(ledger, recipient, c.ciphertext) in {None, Some(c.sessionKey)}
  }

  predicate LawfulSignature(env: Env, signer: PublicKey, signature: Bytes) {
    |signature| == ModulusBytes(env, signer)
  }

  // The length guard of rsaEncrypt: section 7.1.1 of RFC 8017 allows k - 2*hLen - 2 bytes, and empty
  // plaintexts are refused too. The source divides the modulus length by 8 without rounding.
  predicate FitsOaep(env: Env, key: PublicKey, plaintext: Bytes) {
    plaintext != [] && 8 * |plaintext| <= env.modulusBits(key) - 8 * (2 * OAEP_HASH_BYTES + 2)
  }

  // Section 7.1.1 of RFC 8017 for a modulus of whole bytes: two hashes of 32 bytes and two bytes are taken.
  lemma FitsOaepExactly(env: Env, key: PublicKey, plaintext: Bytes)
    requires env.modulusBits(key) % 8 == 0
    ensures FitsOaep(env, key, plaintext) <==> 1 <= |plaintext| <= env.modulusBits(key) / 8 - 66
  {
  }

  // A session key passes the guard under every acceptable key.
  lemma SessionKeyFitsOaep(env: Env, key: PublicKey, sessionKey: Bytes)
    requires env.modulusBits(key) >= MIN_MODULUS_LENGTH && |sessionKey| == SESSION_KEY_BYTES
    ensures FitsOaep(env, key, sessionKey)
  {
  }
}
