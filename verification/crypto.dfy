/** The library primitives the script calls. They are not re-implemented:
    a `Crypto` value supplies them as functions, and every property of the
    model holds for every choice of them. A primitive that can raise
    returns `Err(str(e))`. */
module Crypto {
  import opened Results
  import opened PyJson

  newtype uint8 = x: int | 0 <= x < 256

  type Bytes = seq<uint8>

  datatype Crypto = Crypto(
    /** `base64.b64decode` on a text argument (section 4 of RFC 4648). */
    base64Decode: string -> Result<Bytes, string>,
    /** PBKDF2-HMAC-SHA256 (section 5.2 of RFC 8018): password, salt,
        iteration count, key length in bytes. */
    pbkdf2: (string, Bytes, nat, nat) -> Bytes,
    /** `AESGCM(key).decrypt(nonce, data, None)`, authenticated decryption
        (section 7.2 of NIST SP 800-38D) where `data` is ciphertext followed
        by the tag. */
    aesGcmOpen: (Bytes, Bytes, Bytes) -> Result<Bytes, string>,
    /** `bytes.decode('utf-8')`. */
    utf8Decode: Bytes -> Result<string, string>)

  /** The iteration count and key length the script passes to PBKDF2. */
  const Iterations: nat := 1000000
  const KeyLength: nat := 32

  /** PBKDF2 returns exactly as many bytes as asked for. */
  ghost predicate Sound(c: Crypto) {
    forall password, salt, iterations, length ::
      |c.pbkdf2(password, salt, iterations, length)| == length
  }

  /** `base64.b64decode(v)` on a parsed JSON value: text goes to the
      decoder, any other value is refused with a TypeError. */
  function Base64Decode(c: Crypto, v: Json): (r: Result<Bytes, string>)
    ensures !v.Str? ==> r.Err?
    ensures v.Str? ==> r == c.base64Decode(v.s)
  {
    match v
    case Str(s) => c.base64Decode(s)
    case _ => Err("argument should be a bytes-like object or ASCII string, not '" + TypeName(v) + "'")
  }
}
