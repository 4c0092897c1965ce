# Aspirate secrets decryption, modelled in Dafny

This project models `decrypt-secrets.py`. That is the deploy-time script that
reads the secrets Aspirate stored in `aspirate-state.json` and writes them back
as plain `key=value` files beside each service's Kubernetes manifests. The
script works as follows:

- It derives an AES-256 key from the master password with PBKDF2-HMAC-SHA256
  (one million iterations, 32 bytes).
- It accepts the password only if that key equals the Base64-decoded stored
  `hash`.
- It then decrypts every secret. A secret's Base64 text is
  `[nonce 12][tag 16][ciphertext]`. The script cuts it with Python slices and
  hands `ciphertext + tag` to AES-GCM.
- It writes `manifests/{service}/.{service}.secrets`, one line per secret.
  A secret that does not decrypt keeps its encrypted value.
- It counts the secrets that were decrypted and those that failed.

The library primitives are not re-implemented. These are Base64 decoding
(section 4 of RFC 4648), PBKDF2 (section 5.2 of RFC 8018), AES-GCM
authenticated decryption (section 7.2 of NIST SP 800-38D) and UTF-8 decoding.
A `Crypto` value carries them as functions, and every result holds for every
choice of them. A primitive that raises returns `Err(str(e))`.

Modules, one per concern:

- `Results` (results.dfy): `Option` and `Result`.
- `PyJson` (pyjson.dfy): the parsed JSON values the script handles. It covers
  Python truthiness, `dict.get` and `f"{v}"` formatting.
- `Crypto` (crypto.dfy): bytes, the primitives, and `b64decode` applied to a
  JSON value.
- `Layout` (layout.dfy): Python slice semantics and the nonce/tag/ciphertext
  split.
- `Secrets` (secrets.dfy): `derive_key_from_password`, `verify_password` and
  `decrypt_value`.
- `Render` (render.dfy): the per-service loop that writes the secrets files and
  keeps the two counters. It comes both as a fold and as the imperative
  `DecryptServices`.
- `Pipeline` (pipeline.dfy): `main`'s checks and early returns, and the
  `__main__` wrapper's exit status.

## Model

| member | source | states |
|---|---|---|
| PyJson.Get | AspireToKube.Cli/Scripts/Linux/decrypt-secrets.py:171-173 | `dict.get(key, default)` gives the default when no member has the key, and otherwise gives the value of the member holding it |
| PyJson.Format | AspireToKube.Cli/Scripts/Linux/decrypt-secrets.py:256-262 | formatting a stored string into a line reproduces the string unchanged; `None` is written as `None`, booleans as `True`/`False`, an int as its decimal numeral with a leading `-` when negative, and a list or dict inside its brackets or braces |
| PyJson.DecimalDigitsValue | AspireToKube.Cli/Scripts/Linux/decrypt-secrets.py:262 | the digits written for a number read back as that number, so an undecryptable numeric value is written as its own decimal numeral |
| Layout.Slice | AspireToKube.Cli/Scripts/Linux/decrypt-secrets.py:139-141 | a Python slice `s[lo:hi]` has length `max(0, hi' - lo')` for the bounds normalised from the end and clamped, and holds the elements of `s` starting at `lo'` |
| Layout.Split | AspireToKube.Cli/Scripts/Linux/decrypt-secrets.py:138-141 | for every blob length and non-negative tag size, `nonce ++ tag ++ ciphertext` is the blob, with `\|nonce\| = min(12, n)`, `\|tag\| = min(t, max(0, n-12))` and `\|ciphertext\| = max(0, n-12-t)` |
| Layout.SplitPack | AspireToKube.Cli/Scripts/Linux/decrypt-secrets.py:119-141 | splitting a blob laid out as `[12-byte nonce][tag of tag_size bytes][ciphertext]` recovers exactly those three fields |
| Layout.PackSplit | AspireToKube.Cli/Scripts/Linux/decrypt-secrets.py:138-141 | re-joining the three slices of any blob gives the blob back: no byte is lost or duplicated |
| Layout.ShortBlobs | AspireToKube.Cli/Scripts/Linux/decrypt-secrets.py:138-141 | with the default tag size, a blob of at most 28 bytes has an empty ciphertext, and a blob of at most 12 bytes is all nonce |
| Layout.Sealed | AspireToKube.Cli/Scripts/Linux/decrypt-secrets.py:143-144 | the buffer handed to AES-GCM is the ciphertext followed by the tag: its first `\|ciphertext\|` bytes are the ciphertext and the rest is the tag |
| Layout.NegativeTagSizeOverlaps | AspireToKube.Cli/Scripts/Linux/decrypt-secrets.py:115-141 | a negative `tag_size` breaks the partition: for 20 bytes and tag size -4 the ciphertext is bytes 8..19 and 24 bytes come out of 20 |
| Secrets.DeriveKey | AspireToKube.Cli/Scripts/Linux/decrypt-secrets.py:74-94 | key derivation fails exactly when the salt does not Base64-decode, with that error; otherwise the key is PBKDF2 over the password and the decoded salt with 1,000,000 iterations and 32 bytes of output, and with a sound PBKDF2 it is 32 bytes long |
| Crypto.Base64Decode | AspireToKube.Cli/Scripts/Linux/decrypt-secrets.py:133-135 | a stored string goes to the Base64 decoder unchanged; any other JSON value is refused with an error, as `b64decode` raises `TypeError` for it |
| Secrets.VerifyPassword | AspireToKube.Cli/Scripts/Linux/decrypt-secrets.py:96-113 | the password is accepted exactly when salt and stored hash both Base64-decode and PBKDF2 over the password and the decoded salt (1,000,000 iterations, 32 bytes) equals the decoded hash; any failure along the way means rejection |
| Secrets.VerifiedKeyIsStoredHash | AspireToKube.Cli/Scripts/Linux/decrypt-secrets.py:103-111 | after a successful verification, deriving the key again yields exactly the decoded stored hash, which is 32 bytes long when PBKDF2 is sound |
| Secrets.DecryptionFailed | AspireToKube.Cli/Scripts/Linux/decrypt-secrets.py:151-152 | the error message is `Decryption failed: ` followed by exactly the message of the exception caught |
| Secrets.DecryptValue | AspireToKube.Cli/Scripts/Linux/decrypt-secrets.py:133-152 | AES-GCM receives the 12-byte nonce slice unchanged and the buffer `ciphertext ++ tag`; a Base64, AES-GCM or UTF-8 failure becomes `ValueError("Decryption failed: " + str(e))` carrying that step's message |
| Secrets.FailureIsDecryptionFailed | AspireToKube.Cli/Scripts/Linux/decrypt-secrets.py:151-152 | every failure of `decrypt_value` is a `ValueError` whose message starts with `Decryption failed: ` |
| Secrets.DecryptsPackedValue | AspireToKube.Cli/Scripts/Linux/decrypt-secrets.py:119-150 | a value laid out by the encrypting side, whose sealed part opens and decodes, decrypts to that plaintext |
| Render.ValueText | AspireToKube.Cli/Scripts/Linux/decrypt-secrets.py:254-262 | the text after `key=` is the plaintext when decryption succeeds and the stored value when it fails |
| Render.SecretLines | AspireToKube.Cli/Scripts/Linux/decrypt-secrets.py:250-263 | a secrets file has exactly as many lines as the service has secrets |
| Render.SecretLinesContent | AspireToKube.Cli/Scripts/Linux/decrypt-secrets.py:250-263 | line i of a secrets file is the i-th key, `=`, and then either that secret's plaintext when it decrypts or its stored value when it does not, in input order |
| Render.SecretTally | AspireToKube.Cli/Scripts/Linux/decrypt-secrets.py:254-263 | neither counter of a service exceeds its number of secrets; the exact counts are stated by the three lemmas below |
| Render.SecretTallyTotal | AspireToKube.Cli/Scripts/Linux/decrypt-secrets.py:254-263 | every secret of a service moves exactly one of the two counters |
| Render.SecretStep | AspireToKube.Cli/Scripts/Linux/decrypt-secrets.py:251-263 | handling one more secret appends exactly its own line and bumps exactly one counter, chosen by whether it decrypts |
| Render.DecryptedCountsSuccesses | AspireToKube.Cli/Scripts/Linux/decrypt-secrets.py:254-258 | `decrypted_count` equals the number of secrets whose decryption succeeded |
| Render.FailedCountsFailures | AspireToKube.Cli/Scripts/Linux/decrypt-secrets.py:259-263 | `failed_count` equals the number of secrets whose decryption failed |
| Render.ProcessedServices | AspireToKube.Cli/Scripts/Linux/decrypt-secrets.py:234-243 | a service gets a file if and only if it is an input service whose directory exists and whose secrets are a non-empty dict |
| Render.ProcessedServicesSnoc | AspireToKube.Cli/Scripts/Linux/decrypt-secrets.py:234-243 | one more service at the end of the list is kept exactly when it passes both checks, and is then placed after all earlier kept services (the defining equation, stated on an appended list) |
| Render.ProcessedIndices | AspireToKube.Cli/Scripts/Linux/decrypt-secrets.py:234-243 | the positions of the kept services lie inside the input and increase strictly |
| Render.ProcessedServicesInOrder | AspireToKube.Cli/Scripts/Linux/decrypt-secrets.py:234-243 | the kept services are the input services at those positions, so they appear in input order |
| Render.ProcessedIndicesExact | AspireToKube.Cli/Scripts/Linux/decrypt-secrets.py:234-243 | a position is listed exactly when the service there passes both checks, so the filter drops nothing it should keep |
| Render.ProcessServices | AspireToKube.Cli/Scripts/Linux/decrypt-secrets.py:231-263 | the outer loop writes exactly one file per processed service |
| Render.ProcessServicesWritesProcessed | AspireToKube.Cli/Scripts/Linux/decrypt-secrets.py:231-263 | exactly one file per processed service, in input order, each holding that service's rendered lines; the counters together count every secret of every processed service once |
| Render.ProcessServicesStep | AspireToKube.Cli/Scripts/Linux/decrypt-secrets.py:234-263 | a skipped service adds no file and leaves both counters unchanged; a processed one appends its own file and adds its own counts |
| Render.WriteSecret | AspireToKube.Cli/Scripts/Linux/decrypt-secrets.py:254-263 | one iteration reports success exactly when `decrypt_value` succeeds, and writes the plaintext then or the stored value otherwise |
| Render.WriteSecretsFile | AspireToKube.Cli/Scripts/Linux/decrypt-secrets.py:250-263 | the inner loop appends one line and bumps one counter per secret, giving exactly the lines and counts of the fold |
| Render.DecryptServices | AspireToKube.Cli/Scripts/Linux/decrypt-secrets.py:231-263 | the outer loop skips services without a directory or without a non-empty dict of secrets, and computes exactly the files and counters of the fold |
| Pipeline.Unlock | AspireToKube.Cli/Scripts/Linux/decrypt-secrets.py:160-213 | the checks succeed only when the state file holds a dict, the password is non-empty and verifies against the stored salt and hash; the key they hand on is then the decoded stored hash, and they never fail at the second key derivation |
| Pipeline.UnlockIgnoresPassword | AspireToKube.Cli/Scripts/Linux/decrypt-secrets.py:160-189 | when the checks stop at a missing state file, salt or hash, any other password gives the same result |
| Pipeline.Run | AspireToKube.Cli/Scripts/Linux/decrypt-secrets.py:154-291 | a run completes, and so writes files, only when the state file exists, a non-empty password was typed and `manifests/` exists |
| Pipeline.EarlyReturns | AspireToKube.Cli/Scripts/Linux/decrypt-secrets.py:215-234 | after the checks pass, a missing `manifests/` and a falsy `secrets` section are plain returns with status 0, while a truthy `secrets` section that is not a dict raises on `.items()` and exits with status 1 |
| Pipeline.CompletesExactlyWhenChecksPass | AspireToKube.Cli/Scripts/Linux/decrypt-secrets.py:160-243 | the run completes if and only if the state file exists, salt and hash are present, the password is non-empty and verifies, `manifests/` exists and there is a non-empty dict of services |
| Pipeline.FailedCheckExitsWithOne | AspireToKube.Cli/Scripts/Linux/decrypt-secrets.py:175-201 | a missing or empty salt or hash, an empty password or a wrong password ends the run with status 1 during the checks |
| Pipeline.AbortsBeforeAnyService | AspireToKube.Cli/Scripts/Linux/decrypt-secrets.py:160-213 | an abort during the checks does not depend on `manifests/` or any service directory, writes no file and exits with status 1 |
| Pipeline.MissingStateIgnoresPassword | AspireToKube.Cli/Scripts/Linux/decrypt-secrets.py:160-189 | a missing state file, salt or hash is reported whatever password would have been typed |
| Pipeline.KeyDerivationNeverFails | AspireToKube.Cli/Scripts/Linux/decrypt-secrets.py:198-213 | once the password verifies, the second key derivation cannot fail, so its error exit is never taken |
| Pipeline.CompletedRunUsesStoredHash | AspireToKube.Cli/Scripts/Linux/decrypt-secrets.py:198-263 | a completed run decrypts with the decoded stored hash as key, and its files and counters are those of the service loop with that key |
| Pipeline.CompletedCountsEverySecret | AspireToKube.Cli/Scripts/Linux/decrypt-secrets.py:231-263 | in a completed run, decrypted plus failed equals the number of secrets held by the processed services |

Helpers without a row of their own are covered by the rows that use them.
`PyJson.Truthy` (`if not x` at lines 175, 179, 224 and 242) is covered
by the `Pipeline.Unlock`, `Pipeline.CompletesExactlyWhenChecksPass`,
`Pipeline.EarlyReturns` and `Render.ProcessedServices` rows.
`Pipeline.ExitStatus` (`sys.exit(1)` at lines 164-213 and 291, and status 0
for a plain return) is covered by the `Pipeline.FailedCheckExitsWithOne`,
`Pipeline.AbortsBeforeAnyService` and `Pipeline.EarlyReturns` rows.
`Render.Processed` (lines 238-243) is covered by the `Render.ProcessedServices`,
`Render.ProcessedIndicesExact` and `Render.ProcessedServicesInOrder` rows.
`Render.DecryptWith` (line 255, with the default `tag_size` of 16) is covered
by the `Pipeline.CompletedRunUsesStoredHash` row.

Notes on the model:

- Where a blob is split, `tag_size` is an arbitrary integer with Python slice
  semantics. The script itself always uses the default of 16.
  `Layout.NegativeTagSizeOverlaps` shows that the partition needs a
  non-negative tag size.
- `expected_hash[:20]` on line 184 raises for a truthy hash that is a number,
  a bool or a dict. The `__main__` wrapper turns this into an unexpected-error
  exit with status 1, before the password is asked for. The model keeps this
  abort as `UnexpectedError(NotSliceable(...))`.
- A truthy `secrets` section that is not a dict raises on `.items()` only after
  the `manifests/` check. It therefore also ends in an unexpected-error exit.
- Secrets file lines are written each followed by a newline. A key or value
  that itself contains a newline spans several physical lines of the file.

## Left out

- The cryptographic primitives are supplied as functions, not implemented:
  Base64 decoding, PBKDF2-HMAC-SHA256, AES-GCM and UTF-8 decoding. The model
  assumes only what `Crypto.Sound` says: PBKDF2 returns the requested length.
- JSON parsing of aspirate-state.json is not modelled; the parsed value is an
  input. A malformed file raises inside `json.load` and exits with status 1
  through the wrapper; that path is not modelled.
- JSON numbers are modelled as integers only. Floats, and Python's limit on
  the digits of `str(int)`, are not modelled.
- Object members are taken to have distinct keys, as in the dict `json.load`
  builds. `PyJson.Get` returns the first match.
- When a list or dict value is formatted, `repr` escaping of non-ASCII
  characters that Python considers non-printable is not modelled. Those
  characters are written unescaped.
- Filesystem effects are inputs or outputs. Directory existence is a
  predicate, file contents are returned line sequences, and `chmod 0o600` is
  not modelled. An error raised by `open`, by the `chmod` or by the write of
  the fallback line (line 262) would end the run through the wrapper with
  status 1; those paths are not modelled.
- Render.WriteSecret: assumes that writing the plaintext line (line 256) and
  printing the `✓` mark (line 257) succeed. Both sit inside the `try` of line
  254, so an exception raised by either is caught at line 259. The script
  then prints the `✗` message (line 260). Only if that print succeeds does it
  go on to write the stored value as well and count the secret as failed.
  If the print raises too, the run ends through the wrapper with status 1,
  leaving the current file partly written and the counters unreported. A
  console that cannot encode `✓` cannot encode `✗` either, so an encoding
  error on the console takes this second path. The model writes only the
  plaintext line and counts it as decrypted, because I/O errors are outside
  it. `Render.ValueText` and the counting lemmas share this assumption.
- Render.SecretTally: its own contract only bounds the two counters. The
  exact counts are stated by `Render.SecretTallyTotal`,
  `Render.DecryptedCountsSuccesses` and `Render.FailedCountsFailures`.
- The `getpass` prompt is left out; the typed password is an input. Also left
  out: console output and colours, and `KeyboardInterrupt` handling (status
  130). Every print is taken to succeed. A print that raises inside the
  service loop changes which files and lines exist. That is the print at
  line 247 (before `open`), line 252 (outside the `try`), line 257 (covered
  under `Render.WriteSecret`) or line 260 (inside the `except`). Any of these
  would end the run with status 1 through the wrapper, except line 257,
  whose exception is caught at line 259. Those paths are not modelled.
- The `ImportError` exit when the cryptography library is missing (lines
  52-62) is not modelled.
- Encoding the password as UTF-8 cannot fail for a Dafny string, because
  Dafny characters are Unicode scalar values. So it is not modelled.
- The rest of the repository is not part of this model: the .NET command-line
  shell and the bash and PowerShell install, generate, deploy and destroy
  scripts.
