/** `main`: the checks that must pass before any secret is touched, then
    the per-service loop. The working directory, the typed password and
    the library primitives are inputs; the outcome says how the script
    ends and what it wrote. */
module Pipeline {
  import opened Results
  import opened PyJson
  import opened Crypto
  import opened Secrets
  import opened Render

  /** What `main` observes of the outside world. */
  datatype Environment = Environment(
    /** The parsed aspirate-state.json, `None` when the file is missing. */
    stateFile: Option<Json>,
    /** What `getpass` returned. */
    password: string,
    /** Whether `manifests/` exists. */
    manifestsExist: bool,
    /** Whether `manifests/{service}` exists. */
    serviceDirExists: string -> bool)

  /** An exception raised by `main` itself on malformed state, which the
      `__main__` wrapper reports as an unexpected error. */
  datatype Unexpected =
    | NoGet(typeName: string)          // `.get` on something other than a dict
    | NotSliceable(typeName: string)   // `expected_hash[:20]` on a number, bool or dict
    | NoItems(typeName: string)        // `.items()` on a truthy non-dict

  datatype AbortReason =
    | StateFileMissing
    | NoSalt
    | NoHash
    | EmptyPassword
    | IncorrectPassword
    | KeyDerivationFailed(message: string)
    | UnexpectedError(cause: Unexpected)

  datatype Outcome =
    | Aborted(reason: AbortReason)
    | ManifestsMissing
    | NoServicesWithSecrets
    | Completed(files: seq<SecretFile>, tally: Tally)

  /** The process exit status: 1 for every abort, 0 for every return. */
  function ExitStatus(o: Outcome): int {
    if o.Aborted? then 1 else 0
  }

  /** `state.get('secrets', {})` and the three keys read from it. */
  function Config(state: Json): Json
    requires state.Object?
  {
    Get(state.members, "secrets", Object([]))
  }

  function Salt(config: Json): Json
    requires config.Object?
  {
    Get(config.members, "salt", Null)
  }

  function Hash(config: Json): Json
    requires config.Object?
  {
    Get(config.members, "hash", Null)
  }

  function Services(config: Json): Json
    requires config.Object?
  {
    Get(config.members, "secrets", Object([]))
  }

  /** Whether `v[:20]` can be evaluated: only strings and lists slice. */
  predicate Sliceable(v: Json) {
    v.Str? || v.Array?
  }

  /** Lines 160-213: everything `main` does before it looks at
      `manifests/`. On success it yields the decryption key and the
      `secrets` section of the state. */
  function Unlock(c: Crypto, stateFile: Option<Json>, password: string): (r: Result<(Bytes, Json), AbortReason>)
    ensures r.Ok? ==> && stateFile.Some? && stateFile.value.Object?
                      && r.value.1 == Config(stateFile.value) && r.value.1.Object?
                      && password != ""
                      && VerifyPassword(c, password, Salt(r.value.1), Hash(r.value.1))
                      && r.value.0 == Base64Decode(c, Hash(r.value.1)).value
    ensures r.Err? ==> !r.error.KeyDerivationFailed?
  {
    match stateFile
    case None => Err(StateFileMissing)
    case Some(state) =>
      if !state.Object? then Err(UnexpectedError(NoGet(TypeName(state))))
      else
        var config := Config(state);
        if !config.Object? then Err(UnexpectedError(NoGet(TypeName(config))))
        else if !Truthy(Salt(config)) then Err(NoSalt)
        else if !Truthy(Hash(config)) then Err(NoHash)
        else if !Sliceable(Hash(config)) then Err(UnexpectedError(NotSliceable(TypeName(Hash(config)))))
        else if password == "" then Err(EmptyPassword)
        else if !VerifyPassword(c, password, Salt(config), Hash(config)) then Err(IncorrectPassword)
        else
          match DeriveKey(c, password, Salt(config))
          case Err(e) => Err(KeyDerivationFailed(e))
          case Ok(key) => Ok((key, config))
  }

  /** `main` followed by the `__main__` wrapper's handling of an
      unexpected exception. */
  function Run(c: Crypto, env: Environment): (o: Outcome)
    ensures o.Completed? ==> env.stateFile.Some? && env.password != "" && env.manifestsExist
  {
    match Unlock(c, env.stateFile, env.password)
    case Err(reason) => Aborted(reason)
    case Ok((key, config)) =>
      if !env.manifestsExist then ManifestsMissing
      else
        var all := Services(config);
        if !Truthy(all) then NoServicesWithSecrets
        else if !all.Object? then Aborted(UnexpectedError(NoItems(TypeName(all))))
        else
          var (files, tally) := ProcessServices(DecryptWith(c, key), env.serviceDirExists, all.members);
          Completed(files, tally)
  }

  /** Once the checks pass, a missing `manifests/` directory and an empty or
      missing `secrets` section make `main` return normally, with status 0;
      a `secrets` section that is truthy but not a dict makes `.items()`
      raise, which the wrapper turns into status 1. */
  lemma EarlyReturns(c: Crypto, env: Environment)
    requires Unlock(c, env.stateFile, env.password).Ok?
    ensures !env.manifestsExist ==> Run(c, env) == ManifestsMissing && ExitStatus(Run(c, env)) == 0
    ensures var config := Unlock(c, env.stateFile, env.password).value.1;
            env.manifestsExist && !Truthy(Services(config)) ==>
              Run(c, env) == NoServicesWithSecrets && ExitStatus(Run(c, env)) == 0
    ensures var config := Unlock(c, env.stateFile, env.password).value.1;
            env.manifestsExist && Truthy(Services(config)) && !Services(config).Object? ==>
              Run(c, env) == Aborted(UnexpectedError(NoItems(TypeName(Services(config)))))
              && ExitStatus(Run(c, env)) == 1
  {
  }

  /** The script runs to completion exactly when every check passes: the
      state file is there, its salt and hash are present, the password is
      non-empty and verifies, `manifests/` exists and there is a non-empty
      dict of services. */
  lemma CompletesExactlyWhenChecksPass(c: Crypto, env: Environment)
    ensures Run(c, env).Completed? <==>
      && env.stateFile.Some?
      && env.stateFile.value.Object?
      && Config(env.stateFile.value).Object?
      && var config := Config(env.stateFile.value);
         && Truthy(Salt(config))
         && Truthy(Hash(config))
         && Sliceable(Hash(config))
         && env.password != ""
         && VerifyPassword(c, env.password, Salt(config), Hash(config))
         && env.manifestsExist
         && Truthy(Services(config))
         && Services(config).Object?
  {
  }

  /** Once the password has verified, deriving the key again cannot fail,
      so the script never stops for a failed key derivation. */
  lemma KeyDerivationNeverFails(c: Crypto, env: Environment)
    ensures !(Run(c, env).Aborted? && Run(c, env).reason.KeyDerivationFailed?)
  {
  }

  /** A completed run decrypts every secret with the Base64-decoded stored
      hash as the key, and its files and counters are those of the
      per-service loop run with that key. */
  lemma CompletedRunUsesStoredHash(c: Crypto, env: Environment)
    requires Run(c, env).Completed?
    ensures env.stateFile.Some? && env.stateFile.value.Object?
    ensures var config := Config(env.stateFile.value);
            && config.Object?
            && Base64Decode(c, Hash(config)).Ok?
            && Services(config).Object?
            && (Run(c, env).files, Run(c, env).tally)
                 == ProcessServices(DecryptWith(c, Base64Decode(c, Hash(config)).value),
                                    env.serviceDirExists, Services(config).members)
  {
  }

  /** An abort raised by the checks before `manifests/` is consulted ends
      the run with status 1 whatever the filesystem holds: no service
      directory is looked at and no file is written. */
  lemma AbortsBeforeAnyService(c: Crypto, env: Environment, other: Environment)
    requires Unlock(c, env.stateFile, env.password).Err?
    requires other.stateFile == env.stateFile && other.password == env.password
    ensures Run(c, other) == Run(c, env) == Aborted(Unlock(c, env.stateFile, env.password).error)
    ensures ExitStatus(Run(c, other)) == 1
  {
  }

  /** A missing or empty salt, a missing or empty hash, an empty password
      or a password that does not verify stops the script with status 1
      during the checks, before `manifests/` or any service is looked at. */
  lemma FailedCheckExitsWithOne(c: Crypto, env: Environment)
    requires env.stateFile.Some? && env.stateFile.value.Object?
    requires Config(env.stateFile.value).Object?
    requires var config := Config(env.stateFile.value);
             || !Truthy(Salt(config))
             || !Truthy(Hash(config))
             || env.password == ""
             || !VerifyPassword(c, env.password, Salt(config), Hash(config))
    ensures Unlock(c, env.stateFile, env.password).Err?
    ensures Run(c, env).Aborted? && ExitStatus(Run(c, env)) == 1
  {
  }

  /** A missing state file, salt or hash is reported before the password
      is asked for, so the password typed makes no difference. */
  lemma MissingStateIgnoresPassword(c: Crypto, env: Environment, other: Environment)
    requires Run(c, env) in {Aborted(StateFileMissing), Aborted(NoSalt), Aborted(NoHash)}
    requires other.stateFile == env.stateFile
    ensures Run(c, other) == Run(c, env)
  {
    var u := Unlock(c, env.stateFile, env.password);
    assert u.Err? && u.error in {StateFileMissing, NoSalt, NoHash};
    UnlockIgnoresPassword(c, env.stateFile, env.password, other.password);
  }

  /** The checks on the state file come before the password is looked at. */
  lemma UnlockIgnoresPassword(c: Crypto, stateFile: Option<Json>, password: string, other: string)
    requires Unlock(c, stateFile, password) in {Err(StateFileMissing), Err(NoSalt), Err(NoHash)}
    ensures Unlock(c, stateFile, other) == Unlock(c, stateFile, password)
  {
  }

  /** Every secret of every processed service is counted once, as
      decrypted or as failed; skipped services contribute nothing. */
  lemma CompletedCountsEverySecret(c: Crypto, env: Environment)
    requires Run(c, env).Completed?
    ensures var config := Config(env.stateFile.value);
            Run(c, env).tally.Total() == SecretCount(ProcessedServices(env.serviceDirExists, Services(config).members))
  {
    var config := Config(env.stateFile.value);
    var key := Unlock(c, env.stateFile, env.password).value.0;
    ProcessServicesWritesProcessed(DecryptWith(c, key), env.serviceDirExists, Services(config).members);
  }
}
