/** The loop at the heart of `main`: for every service that has a manifest
    directory and a non-empty dict of secrets, write `.{service}.secrets`
    with one `key=value` line per secret, and count the secrets that were
    decrypted and those that were not. */
module Render {
  import opened Results
  import opened PyJson
  import opened Crypto
  import opened Layout
  import opened Secrets

  /** `decrypted_count` and `failed_count`. */
  datatype Tally = Tally(decrypted: nat, failed: nat) {
    function Total(): nat { decrypted + failed }

    function Plus(other: Tally): Tally {
      Tally(decrypted + other.decrypted, failed + other.failed)
    }

    /** The counters after one more secret was handled. */
    function Count(ok: bool): Tally {
      if ok then Tally(decrypted + 1, failed) else Tally(decrypted, failed + 1)
    }
  }

  /** The secrets file of one service, `manifests/{service}/.{service}.secrets`. */
  datatype SecretFile = SecretFile(service: string, lines: seq<string>)

  /** `decrypt_value(v, key)` with the key derived in `main` and the
      default tag length: the only way the loop decrypts a value. */
  function DecryptWith(c: Crypto, key: Bytes): Json -> Result<string, ValueError> {
    v => DecryptValue(c, v, key, DefaultTagSize)
  }

  /** Whether decryption succeeds on this value. */
  predicate Decrypts(decrypt: Json -> Result<string, ValueError>, value: Json) {
    decrypt(value).Ok?
  }

  /** The text written after `key=` for one secret: the plaintext when
      decryption succeeds, otherwise the value exactly as stored. */
  function ValueText(decrypt: Json -> Result<string, ValueError>, value: Json): (t: string)
    ensures Decrypts(decrypt, value) ==> t == decrypt(value).value
    ensures !Decrypts(decrypt, value) ==> t == Format(value)
  {
    match decrypt(value)
    case Ok(text) => text
    case Err(_) => Format(value)
  }

  /** The lines the inner `for secret_key, encrypted_value in
      service_secrets.items()` loop writes to one secrets file, each
      followed by a newline. */
  function SecretLines(decrypt: Json -> Result<string, ValueError>, entries: seq<(string, Json)>): (lines: seq<string>)
    ensures |lines| == |entries|
    decreases |entries|
  {
    if entries == [] then []
    else
      var last := entries[|entries| - 1];
      SecretLines(decrypt, entries[..|entries| - 1]) + [last.0 + "=" + ValueText(decrypt, last.1)]
  }

  /** A secrets file holds exactly one line per secret, in input order:
      line i is the i-th key, `=`, and the plaintext when that secret
      decrypts or its stored value when it does not. */
  lemma {:induction false} SecretLinesContent(decrypt: Json -> Result<string, ValueError>, entries: seq<(string, Json)>)
    ensures var lines := SecretLines(decrypt, entries);
            forall i | 0 <= i < |entries| ::
              && (Decrypts(decrypt, entries[i].1) ==> lines[i] == entries[i].0 + "=" + decrypt(entries[i].1).value)
              && (!Decrypts(decrypt, entries[i].1) ==> lines[i] == entries[i].0 + "=" + Format(entries[i].1))
    decreases |entries|
  {
    if entries != [] {
      var n := |entries| - 1;
      SecretLinesContent(decrypt, entries[..n]);
      assert forall i | 0 <= i < n :: entries[..n][i] == entries[i];
    }
  }

  /** The counters after the inner loop over one service's secrets. */
  function SecretTally(decrypt: Json -> Result<string, ValueError>, entries: seq<(string, Json)>): (t: Tally)
    ensures t.decrypted <= |entries| && t.failed <= |entries|
    decreases |entries|
  {
    if entries == [] then Tally(0, 0)
    else
      var last := entries[|entries| - 1];
      SecretTally(decrypt, entries[..|entries| - 1]).Count(Decrypts(decrypt, last.1))
  }

  /** Every secret moves exactly one of the two counters. */
  lemma {:induction false} SecretTallyTotal(decrypt: Json -> Result<string, ValueError>, entries: seq<(string, Json)>)
    ensures SecretTally(decrypt, entries).Total() == |entries|
    decreases |entries|
  {
    if entries != [] {
      SecretTallyTotal(decrypt, entries[..|entries| - 1]);
    }
  }

  /** The indices of the secrets that decrypt, and of those that do not. */
  ghost function DecryptedAt(decrypt: Json -> Result<string, ValueError>, entries: seq<(string, Json)>): set<nat> {
    set i: nat | i < |entries| && Decrypts(decrypt, entries[i].1)
  }

  ghost function FailedAt(decrypt: Json -> Result<string, ValueError>, entries: seq<(string, Json)>): set<nat> {
    set i: nat | i < |entries| && !Decrypts(decrypt, entries[i].1)
  }

  /** `decrypted_count` counts exactly the secrets whose decryption
      succeeded. */
  lemma {:induction false} DecryptedCountsSuccesses(decrypt: Json -> Result<string, ValueError>, entries: seq<(string, Json)>)
    ensures SecretTally(decrypt, entries).decrypted == |DecryptedAt(decrypt, entries)|
    decreases |entries|
  {
    if entries == [] {
      assert DecryptedAt(decrypt, entries) == {};
    } else {
      var n := |entries| - 1;
      var init := entries[..n];
      DecryptedCountsSuccesses(decrypt, init);
      var ok := Decrypts(decrypt, entries[n].1);
      assert SecretTally(decrypt, entries).decrypted == SecretTally(decrypt, init).decrypted + (if ok then 1 else 0);
      var d, d' := DecryptedAt(decrypt, entries), DecryptedAt(decrypt, init);
      assert forall i | 0 <= i < n :: init[i] == entries[i];
      assert forall i: nat :: i in d <==> i in d' || (ok && i == n);
      if ok {
        assert d == d' + {n};
      } else {
        assert d == d';
      }
    }
  }

  /** `failed_count` counts exactly the secrets whose decryption failed. */
  lemma {:induction false} FailedCountsFailures(decrypt: Json -> Result<string, ValueError>, entries: seq<(string, Json)>)
    ensures SecretTally(decrypt, entries).failed == |FailedAt(decrypt, entries)|
    decreases |entries|
  {
    if entries == [] {
      assert FailedAt(decrypt, entries) == {};
    } else {
      var n := |entries| - 1;
      var init := entries[..n];
      FailedCountsFailures(decrypt, init);
      var ok := Decrypts(decrypt, entries[n].1);
      assert SecretTally(decrypt, entries).failed == SecretTally(decrypt, init).failed + (if ok then 0 else 1);
      var f, f' := FailedAt(decrypt, entries), FailedAt(decrypt, init);
      assert forall i | 0 <= i < n :: init[i] == entries[i];
      assert forall i: nat :: i in f <==> i in f' || (!ok && i == n);
      if ok {
        assert f == f';
      } else {
        assert f == f' + {n};
      }
    }
  }

  /** The two skip conditions of the outer loop: the service's directory
      must exist, and its secrets must be a non-empty dict. */
  predicate Processed(dirExists: string -> bool, service: (string, Json)) {
    dirExists(service.0) && Truthy(service.1) && service.1.Object?
  }

  /** The services that get a secrets file, in input order. */
  function ProcessedServices(dirExists: string -> bool, services: seq<(string, Json)>): (ps: seq<(string, Json)>)
    ensures |ps| <= |services|
    ensures forall s | s in ps :: s in services && Processed(dirExists, s)
    ensures forall s | s in services && Processed(dirExists, s) :: s in ps
    decreases |services|
  {
    if services == [] then []
    else
      var init := services[..|services| - 1];
      var last := services[|services| - 1];
      var prev := ProcessedServices(dirExists, init);
      assert services == init + [last];
      if Processed(dirExists, last) then prev + [last] else prev
  }

  /** One more service at the end of the list is kept exactly when it
      passes both checks, and then comes after every service kept before
      it, so the processed services keep their input order. */
  lemma ProcessedServicesSnoc(dirExists: string -> bool, services: seq<(string, Json)>, last: (string, Json))
    ensures ProcessedServices(dirExists, services + [last])
              == ProcessedServices(dirExists, services) + (if Processed(dirExists, last) then [last] else [])
  {
    assert (services + [last])[..|services|] == services;
  }

  /** The positions of the services that get a secrets file, in increasing
      order. */
  function ProcessedIndices(dirExists: string -> bool, services: seq<(string, Json)>): (idx: seq<nat>)
    ensures forall k | 0 <= k < |idx| :: idx[k] < |services|
    ensures forall k, l | 0 <= k < l < |idx| :: idx[k] < idx[l]
    decreases |services|
  {
    if services == [] then []
    else
      var n := |services| - 1;
      var prev := ProcessedIndices(dirExists, services[..n]);
      if Processed(dirExists, services[n]) then prev + [n] else prev
  }

  /** The processed services are the input services at the positions
      `ProcessedIndices` lists; since those increase strictly, the filter
      keeps input order. */
  lemma {:induction false} ProcessedServicesInOrder(dirExists: string -> bool, services: seq<(string, Json)>)
    ensures var idx := ProcessedIndices(dirExists, services);
            var ps := ProcessedServices(dirExists, services);
            && |idx| == |ps|
            && (forall k | 0 <= k < |idx| :: ps[k] == services[idx[k]])
    decreases |services|
  {
    if services != [] {
      var n := |services| - 1;
      var init := services[..n];
      ProcessedServicesInOrder(dirExists, init);
      var idx0, ps0 := ProcessedIndices(dirExists, init), ProcessedServices(dirExists, init);
      forall k | 0 <= k < |idx0|
        ensures ps0[k] == services[idx0[k]]
      {
        assert init[idx0[k]] == services[idx0[k]];
      }
    }
  }

  /** A position is listed by `ProcessedIndices` exactly when the service
      there passes both checks: the filter drops nothing it should keep. */
  lemma {:induction false} ProcessedIndicesExact(dirExists: string -> bool, services: seq<(string, Json)>)
    ensures var idx := ProcessedIndices(dirExists, services);
            forall i | 0 <= i < |services| :: Processed(dirExists, services[i]) <==> i in idx
    decreases |services|
  {
    if services != [] {
      var n := |services| - 1;
      var init := services[..n];
      ProcessedIndicesExact(dirExists, init);
      var idx0 := ProcessedIndices(dirExists, init);
      var idx := ProcessedIndices(dirExists, services);
      assert idx == idx0 + (if Processed(dirExists, services[n]) then [n] else []);
      forall i | 0 <= i < |services|
        ensures Processed(dirExists, services[i]) <==> i in idx
      {
        if i < n {
          assert init[i] == services[i];
          assert n !in idx0;
        }
      }
    }
  }

  /** The number of secrets held by a list of processed services. */
  function SecretCount(services: seq<(string, Json)>): nat
    decreases |services|
  {
    if services == [] then 0
    else
      var last := services[|services| - 1];
      SecretCount(services[..|services| - 1]) + (if last.1.Object? then |last.1.members| else 0)
  }

  /** The outer `for service_name, service_secrets in all_secrets.items()`
      loop: the files written, in order, and the two counters. */
  function ProcessServices(decrypt: Json -> Result<string, ValueError>, dirExists: string -> bool,
                           services: seq<(string, Json)>): (r: (seq<SecretFile>, Tally))
    ensures |r.0| == |ProcessedServices(dirExists, services)|
    decreases |services|
  {
    if services == [] then ([], Tally(0, 0))
    else
      var last := services[|services| - 1];
      var prev := ProcessServices(decrypt, dirExists, services[..|services| - 1]);
      if Processed(dirExists, last) then
        (prev.0 + [SecretFile(last.0, SecretLines(decrypt, last.1.members))],
         prev.1.Plus(SecretTally(decrypt, last.1.members)))
      else
        prev
  }

  /** The loop writes one file per processed service, in input order, each
      holding that service's rendered secrets, and its two counters together
      count every secret of every processed service once. */
  lemma {:induction false} ProcessServicesWritesProcessed(decrypt: Json -> Result<string, ValueError>,
                                                          dirExists: string -> bool, services: seq<(string, Json)>)
    ensures var r := ProcessServices(decrypt, dirExists, services);
            var ps := ProcessedServices(dirExists, services);
            && |r.0| == |ps|
            && (forall j | 0 <= j < |ps| ::
                  ps[j].1.Object? && r.0[j] == SecretFile(ps[j].0, SecretLines(decrypt, ps[j].1.members)))
            && r.1.Total() == SecretCount(ps)
    decreases |services|
  {
    if services != [] {
      var last := services[|services| - 1];
      var init := services[..|services| - 1];
      ProcessServicesWritesProcessed(decrypt, dirExists, init);
      var ps := ProcessedServices(dirExists, init);
      if Processed(dirExists, last) {
        SecretTallyTotal(decrypt, last.1.members);
        assert (ps + [last])[..|ps|] == ps;
        assert SecretCount(ps + [last]) == SecretCount(ps) + |last.1.members|;
      }
    }
  }

  /** One more service at the end of the list: a skipped service adds no
      file and leaves both counters unchanged, a processed one adds its own
      file last and adds its own counts. */
  lemma ProcessServicesStep(decrypt: Json -> Result<string, ValueError>, dirExists: string -> bool,
                            services: seq<(string, Json)>, last: (string, Json))
    ensures var prev := ProcessServices(decrypt, dirExists, services);
            ProcessServices(decrypt, dirExists, services + [last])
              == if Processed(dirExists, last)
                 then (prev.0 + [SecretFile(last.0, SecretLines(decrypt, last.1.members))],
                       prev.1.Plus(SecretTally(decrypt, last.1.members)))
                 else prev
  {
    assert (services + [last])[..|services|] == services;
  }

  /** One more secret: its line is appended and exactly one counter moves. */
  lemma SecretStep(decrypt: Json -> Result<string, ValueError>, entries: seq<(string, Json)>, j: nat)
    requires j < |entries|
    ensures SecretLines(decrypt, entries[..j + 1])
              == SecretLines(decrypt, entries[..j]) + [entries[j].0 + "=" + ValueText(decrypt, entries[j].1)]
    ensures SecretTally(decrypt, entries[..j + 1])
              == SecretTally(decrypt, entries[..j]).Count(Decrypts(decrypt, entries[j].1))
  {
    assert entries[..j + 1][..j] == entries[..j];
  }

  /** One iteration of the inner loop: try `decrypt_value`, and write the
      plaintext on success or the stored value on failure. */
  method WriteSecret(decrypt: Json -> Result<string, ValueError>, secretKey: string, encryptedValue: Json)
    returns (line: string, decrypted: bool)
    ensures decrypted == Decrypts(decrypt, encryptedValue)
    ensures decrypted ==> line == secretKey + "=" + decrypt(encryptedValue).value
    ensures !decrypted ==> line == secretKey + "=" + Format(encryptedValue)
  {
    match decrypt(encryptedValue) {
      case Ok(decryptedValue) =>
        line, decrypted := secretKey + "=" + decryptedValue, true;
      case Err(_) =>
        line, decrypted := secretKey + "=" + Format(encryptedValue), false;
    }
  }

  /** The body of `with open(secret_file, 'w')` as the script runs it: one
      line appended and one counter bumped per secret. It computes exactly
      the lines and counts of `SecretLines` and `SecretTally`. */
  method WriteSecretsFile(decrypt: Json -> Result<string, ValueError>, entries: seq<(string, Json)>)
    returns (lines: seq<string>, decryptedCount: nat, failedCount: nat)
    ensures lines == SecretLines(decrypt, entries)
    ensures Tally(decryptedCount, failedCount) == SecretTally(decrypt, entries)
  {
    lines := [];
    var tally := Tally(0, 0);
    var j := 0;
    while j < |entries|
      invariant 0 <= j <= |entries|
      invariant lines == SecretLines(decrypt, entries[..j])
      invariant tally == SecretTally(decrypt, entries[..j])
    {
      SecretStep(decrypt, entries, j);
      var line, decrypted := WriteSecret(decrypt, entries[j].0, entries[j].1);
      lines := lines + [line];
      tally := tally.Count(decrypted);
      j := j + 1;
    }
    assert entries[..j] == entries;
    decryptedCount, failedCount := tally.decrypted, tally.failed;
  }

  /** The outer loop as the script runs it: skip a service without a
      directory or without a non-empty dict of secrets, otherwise write its
      file and add its counts. It computes exactly the files and counters
      of `ProcessServices`. */
  method DecryptServices(decrypt: Json -> Result<string, ValueError>, dirExists: string -> bool,
                         services: seq<(string, Json)>)
    returns (files: seq<SecretFile>, decryptedCount: nat, failedCount: nat)
    ensures (files, Tally(decryptedCount, failedCount)) == ProcessServices(decrypt, dirExists, services)
  {
    files := [];
    var tally := Tally(0, 0);
    var i := 0;
    while i < |services|
      invariant 0 <= i <= |services|
      invariant (files, tally) == ProcessServices(decrypt, dirExists, services[..i])
    {
      var (serviceName, serviceSecrets) := services[i];
      ProcessServicesStep(decrypt, dirExists, services[..i], services[i]);
      assert services[..i + 1] == services[..i] + [services[i]];
      if dirExists(serviceName) && Truthy(serviceSecrets) && serviceSecrets.Object? {
        var lines, decrypted, failed := WriteSecretsFile(decrypt, serviceSecrets.members);
        files := files + [SecretFile(serviceName, lines)];
        tally := tally.Plus(Tally(decrypted, failed));
      }
      i := i + 1;
    }
    assert services[..i] == services;
    decryptedCount, failedCount := tally.decrypted, tally.failed;
  }
}
