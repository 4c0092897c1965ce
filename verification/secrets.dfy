/** The script's own cryptographic glue: deriving the key from the master
    password, checking it against the stored hash, and decrypting one
    secret value. */
module Secrets {
  import opened Results
  import opened PyJson
  import opened Crypto
  import opened Layout

  /** `derive_key_from_password`: Base64-decode the salt, then run PBKDF2
      with one million iterations for a 32-byte key. Only the decoding can
      raise. */
  function DeriveKey(c: Crypto, password: string, salt: Json): (r: Result<Bytes, string>)
    ensures r.Err? <==> Base64Decode(c, salt).Err?
    ensures r.Err? ==> r.error == Base64Decode(c, salt).error
    ensures r.Ok? ==> r.value == c.pbkdf2(password, Base64Decode(c, salt).value, Iterations, KeyLength)
    ensures Sound(c) && r.Ok? ==> |r.value| == KeyLength
  {
    var saltBytes :- Base64Decode(c, salt);
    Ok(c.pbkdf2(password, saltBytes, Iterations, KeyLength))
  }

  /** `verify_password`: true exactly when PBKDF2 over the password and the
      decoded salt equals the Base64-decoded stored hash; an exception
      raised on the way makes it false. */
  function VerifyPassword(c: Crypto, password: string, salt: Json, hash: Json): (ok: bool)
    ensures ok <==> (&& Base64Decode(c, salt).Ok?
                     && Base64Decode(c, hash).Ok?
                     && c.pbkdf2(password, Base64Decode(c, salt).value, Iterations, KeyLength)
                          == Base64Decode(c, hash).value)
  {
    match DeriveKey(c, password, salt)
    case Err(_) => false
    case Ok(derived) =>
      match Base64Decode(c, hash)
      case Err(_) => false
      case Ok(expected) => derived == expected
  }

  /** A password that passes the check yields, on a second derivation, the
      very bytes stored as the hash, so the decryption key is the decoded
      hash; with a sound PBKDF2 that hash must be 32 bytes long. */
  lemma VerifiedKeyIsStoredHash(c: Crypto, password: string, salt: Json, hash: Json)
    requires VerifyPassword(c, password, salt, hash)
    ensures DeriveKey(c, password, salt) == Ok(Base64Decode(c, hash).value)
    ensures Sound(c) ==> |Base64Decode(c, hash).value| == KeyLength
  {
  }

  /** The only exception `decrypt_value` lets escape. */
  datatype ValueError = ValueError(message: string)

  const FailurePrefix: string := "Decryption failed: "

  function DecryptionFailed(cause: string): (e: ValueError)
    ensures |e.message| == |FailurePrefix| + |cause|
    ensures e.message[..|FailurePrefix|] == FailurePrefix && e.message[|FailurePrefix|..] == cause
  {
    ValueError(FailurePrefix + cause)
  }

  /** `decrypt_value(value, key, tag_size)`: Base64-decode the value, split
      it into nonce, tag and ciphertext, open `ciphertext + tag` under the
      nonce with AES-GCM and decode the plaintext as UTF-8. A failure at any
      of the three steps is re-raised as one `ValueError` carrying the
      step's own message. */
  function DecryptValue(c: Crypto, value: Json, key: Bytes, tagSize: int): (r: Result<string, ValueError>)
    ensures Base64Decode(c, value).Err? ==>
              r == Err(DecryptionFailed(Base64Decode(c, value).error))
    ensures Base64Decode(c, value).Ok? ==>
              var parts := Split(Base64Decode(c, value).value, tagSize);
              var sealed := c.aesGcmOpen(key, parts.nonce, parts.ciphertext + parts.tag);
              && (sealed.Err? ==> r == Err(DecryptionFailed(sealed.error)))
              && (sealed.Ok? ==> r == c.utf8Decode(sealed.value).MapError(DecryptionFailed))
  {
    match Base64Decode(c, value)
    case Err(e) => Err(DecryptionFailed(e))
    case Ok(encrypted) =>
      var parts := Split(encrypted, tagSize);
      match c.aesGcmOpen(key, parts.nonce, Sealed(parts))
      case Err(e) => Err(DecryptionFailed(e))
      case Ok(plaintext) =>
        match c.utf8Decode(plaintext)
        case Err(e) => Err(DecryptionFailed(e))
        case Ok(text) => Ok(text)
  }

  /** Every failure of `decrypt_value` is a `ValueError` whose message
      starts with "Decryption failed: ", whichever step failed. */
  lemma FailureIsDecryptionFailed(c: Crypto, value: Json, key: Bytes, tagSize: int)
    requires DecryptValue(c, value, key, tagSize).Err?
    ensures var m := DecryptValue(c, value, key, tagSize).error.message;
            |m| >= |FailurePrefix| && m[..|FailurePrefix|] == FailurePrefix
  {
  }

  /** A value laid out the way the encrypting side writes it, nonce, a tag
      of `tagSize` bytes, then ciphertext, is opened with that nonce on
      exactly `ciphertext + tag`, and its plaintext comes back unchanged. */
  lemma DecryptsPackedValue(c: Crypto, value: Json, key: Bytes, tagSize: int, p: Parts, text: string)
    requires |p.nonce| == NonceSize && tagSize >= 0 && |p.tag| == tagSize
    requires Base64Decode(c, value) == Ok(Pack(p))
    requires c.aesGcmOpen(key, p.nonce, p.ciphertext + p.tag).Ok?
    requires c.utf8Decode(c.aesGcmOpen(key, p.nonce, p.ciphertext + p.tag).value) == Ok(text)
    ensures DecryptValue(c, value, key, tagSize) == Ok(text)
  {
    SplitPack(p, tagSize);
  }
}
