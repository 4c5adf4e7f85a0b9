/** What a VaultServer must look like to be accepted, backend by backend and mode by mode, with
    the keys that every secret must hold. */
module AdmissionTables {
  import opened Results
  import opened Admission

  /** The secret, if one is named, exists and has something under `key`. */
  predicate HasKey(c: Cluster, ns: string, name: string, key: string) {
    name != "" ==>
      (ns, name) in c.secrets && key in c.secrets[(ns, name)] && c.secrets[(ns, name)][key] != []
  }

  function One(b: bool): nat { if b then 1 else 0 }

  function BackendsGiven(b: Backend): nat {
    One(b.inmem) + One(b.file) + One(b.etcd.Some?) + One(b.mySQL.Some?) + One(b.postgreSQL.Some?) + One(b.gcs.Some?)
    + One(b.s3.Some?) + One(b.azure.Some?) + One(b.dynamoDB.Some?) + One(b.swift.Some?) + One(b.consul.Some?)
  }

  function ModesGiven(m: Mode): nat {
    One(m.kubernetesSecret) + One(m.googleKmsGcs.Some?) + One(m.awsKmsSsm.Some?) + One(m.azureKeyVault.Some?)
  }

  predicate S3Secrets(c: Cluster, ns: string, s: S3Spec) {
    && HasKey(c, ns, s.credentialSecret, "access_key") && HasKey(c, ns, s.credentialSecret, "secret_key")
    && HasKey(c, ns, s.sessionTokenSecret, "session_token")
  }

  predicate TLSSecret(c: Cluster, ns: string, name: string) {
    HasKey(c, ns, name, "ca.crt") && HasKey(c, ns, name, "tls.crt") && HasKey(c, ns, name, "tls.key")
  }

  predicate UserSecret(c: Cluster, ns: string, name: string) {
    HasKey(c, ns, name, "username") && HasKey(c, ns, name, "password")
  }

  /** The secrets of every backend that is given. */
  predicate BackendSecrets(c: Cluster, ns: string, b: Backend) {
    && (b.etcd.Some? ==> UserSecret(c, ns, b.etcd.value.credentialSecretName) && TLSSecret(c, ns, b.etcd.value.tlsSecretName))
    && (b.mySQL.Some? ==>
          UserSecret(c, ns, b.mySQL.value.userCredentialSecret) && HasKey(c, ns, b.mySQL.value.tlsCASecret, "tls_ca_file"))
    && (b.postgreSQL.Some? ==> HasKey(c, ns, b.postgreSQL.value, "connection_url"))
    && (b.gcs.Some? ==> HasKey(c, ns, b.gcs.value, "sa.json"))
    && (b.s3.Some? ==> S3Secrets(c, ns, b.s3.value))
    && (b.azure.Some? ==> HasKey(c, ns, b.azure.value, "account_key"))
    && (b.dynamoDB.Some? ==> S3Secrets(c, ns, b.dynamoDB.value))
    && (b.swift.Some? ==>
          UserSecret(c, ns, b.swift.value.credentialSecret) && HasKey(c, ns, b.swift.value.authTokenSecret, "auth_token"))
    && (b.consul.Some? ==>
          HasKey(c, ns, b.consul.value.aclTokenSecretName, "aclToken") && TLSSecret(c, ns, b.consul.value.tlsSecretName))
  }

  /** The secrets of every unsealing mode that is given. */
  predicate ModeSecrets(c: Cluster, ns: string, m: Mode) {
    && (m.googleKmsGcs.Some? ==> HasKey(c, ns, m.googleKmsGcs.value, "sa.json"))
    && (m.awsKmsSsm.Some? ==> HasKey(c, ns, m.awsKmsSsm.value, "access_key") && HasKey(c, ns, m.awsKmsSsm.value, "secret_key"))
    && (m.azureKeyVault.Some? ==>
          && HasKey(c, ns, m.azureKeyVault.value.aadClientSecret, "client-id")
          && HasKey(c, ns, m.azureKeyVault.value.aadClientSecret, "client-secret")
          && HasKey(c, ns, m.azureKeyVault.value.clientCertSecret, "client-cert")
          && HasKey(c, ns, m.azureKeyVault.value.clientCertSecret, "client-cert-password"))
  }

  // ----- one choice -----

  lemma Keys(c: Cluster, ns: string, name: string, keys: seq<string>)
    requires keys != []
    ensures Provides(c, ns, name, keys) <==> forall i | 0 <= i < |keys| :: HasKey(c, ns, name, keys[i])
  {
    if name != "" && forall i | 0 <= i < |keys| :: HasKey(c, ns, name, keys[i]) {
      assert HasKey(c, ns, name, keys[0]);
      forall k | k in keys ensures k in c.secrets[(ns, name)] && c.secrets[(ns, name)][k] != [] {
        var i :| 0 <= i < |keys| && keys[i] == k;
        assert HasKey(c, ns, name, keys[i]);
      }
    }
  }

  lemma OneKey(c: Cluster, ns: string, name: string, k: string)
    ensures Provides(c, ns, name, [k]) <==> HasKey(c, ns, name, k)
  {
    Keys(c, ns, name, [k]);
    hide Provides, HasKey;
    assert [k][0] == k;
  }

  lemma TwoKeys(c: Cluster, ns: string, name: string, k: string, l: string)
    ensures Provides(c, ns, name, [k, l]) <==> HasKey(c, ns, name, k) && HasKey(c, ns, name, l)
  {
    var keys := [k, l];
    Keys(c, ns, name, keys);
    hide Provides, HasKey;
    assert keys[0] == k && keys[1] == l;
  }

  lemma TLSKeys(c: Cluster, ns: string, name: string)
    ensures Provides(c, ns, name, ["ca.crt", "tls.crt", "tls.key"]) <==> TLSSecret(c, ns, name)
  {
    var keys := ["ca.crt", "tls.crt", "tls.key"];
    Keys(c, ns, name, keys);
    hide Provides, HasKey;
    assert keys[0] == "ca.crt" && keys[1] == "tls.crt" && keys[2] == "tls.key";
  }

  lemma OneNeed(c: Cluster, ns: string, n: Need)
    ensures AllProvided(c, ns, [n]) <==> Provides(c, ns, n.name, n.keys)
  {
    hide Provides;
    assert [n][0] == n;
  }

  lemma TwoNeeds(c: Cluster, ns: string, n: Need, m: Need)
    ensures AllProvided(c, ns, [n, m]) <==> Provides(c, ns, n.name, n.keys) && Provides(c, ns, m.name, m.keys)
  {
    hide Provides;
    assert [n, m][0] == n && [n, m][1] == m;
  }

  /** The secrets of one choice. */
  predicate InPlace(c: Cluster, ns: string, choice: Choice) {
    choice.Chosen? ==> AllProvided(c, ns, choice.needs)
  }

  lemma S3InPlace(c: Cluster, ns: string, o: Option<S3Spec>)
    ensures InPlace(c, ns, S3Choice(o)) <==> (o.Some? ==> S3Secrets(c, ns, o.value))
  {
    if o.Some? {
      var n, m := Need(o.value.credentialSecret, ["access_key", "secret_key"]), Need(o.value.sessionTokenSecret, ["session_token"]);
      TwoNeeds(c, ns, n, m);
      TwoKeys(c, ns, n.name, "access_key", "secret_key");
      OneKey(c, ns, m.name, "session_token");
    }
    hide AllProvided, Provides, HasKey;
  }

  lemma SecretInPlace(c: Cluster, ns: string, o: Option<string>, k: string)
    ensures InPlace(c, ns, OneSecret(o, [k])) <==> (o.Some? ==> HasKey(c, ns, o.value, k))
  {
    if o.Some? {
      OneNeed(c, ns, Need(o.value, [k]));
      OneKey(c, ns, o.value, k);
    }
    hide AllProvided, Provides, HasKey;
  }

  /** A secret of a user name and a password or the like, and another one. */
  lemma PairInPlace(c: Cluster, ns: string, name: string, k: string, l: string, other: Need)
    ensures InPlace(c, ns, Chosen([Need(name, [k, l]), other])) <==>
            HasKey(c, ns, name, k) && HasKey(c, ns, name, l) && Provides(c, ns, other.name, other.keys)
  {
    TwoNeeds(c, ns, Need(name, [k, l]), other);
    TwoKeys(c, ns, name, k, l);
    hide AllProvided, Provides, HasKey;
  }

  // ----- all choices -----

  lemma ElevenInPlace(c: Cluster, ns: string, cs: seq<Choice>)
    requires |cs| == 11
    ensures SecretsInPlace(c, ns, cs) <==>
      && InPlace(c, ns, cs[0]) && InPlace(c, ns, cs[1]) && InPlace(c, ns, cs[2]) && InPlace(c, ns, cs[3])
      && InPlace(c, ns, cs[4]) && InPlace(c, ns, cs[5]) && InPlace(c, ns, cs[6]) && InPlace(c, ns, cs[7])
      && InPlace(c, ns, cs[8]) && InPlace(c, ns, cs[9]) && InPlace(c, ns, cs[10])
  {
    hide AllProvided;
  }

  lemma BackendSecretsInPlace(c: Cluster, ns: string, b: Backend)
    ensures SecretsInPlace(c, ns, BackendChoices(b)) <==> BackendSecrets(c, ns, b)
  {
    BackendsChosen(b);
    PairSecrets(c, ns, b);
    SingleSecrets(c, ns, b);
    hide BackendChoices, Provides, HasKey, AllProvided, SecretsInPlace, S3Secrets, TLSSecret, UserSecret, InPlace;
    ElevenInPlace(c, ns, BackendChoices(b));
  }

  /** The backends with two secrets. */
  lemma PairSecrets(c: Cluster, ns: string, b: Backend)
    ensures var cs := BackendChoices(b);
      && (InPlace(c, ns, cs[2]) <==> (b.etcd.Some? ==>
            UserSecret(c, ns, b.etcd.value.credentialSecretName) && TLSSecret(c, ns, b.etcd.value.tlsSecretName)))
      && (InPlace(c, ns, cs[3]) <==> (b.mySQL.Some? ==>
            UserSecret(c, ns, b.mySQL.value.userCredentialSecret) && HasKey(c, ns, b.mySQL.value.tlsCASecret, "tls_ca_file")))
      && (InPlace(c, ns, cs[9]) <==> (b.swift.Some? ==>
            UserSecret(c, ns, b.swift.value.credentialSecret) && HasKey(c, ns, b.swift.value.authTokenSecret, "auth_token")))
      && (InPlace(c, ns, cs[10]) <==> (b.consul.Some? ==>
            HasKey(c, ns, b.consul.value.aclTokenSecretName, "aclToken") && TLSSecret(c, ns, b.consul.value.tlsSecretName)))
  {
    NothingNeeded(c, ns);
    hide Provides, HasKey, AllProvided, SecretsInPlace, InPlace, S3Choice, OneSecret, TLSSecret;
    if b.etcd.Some? {
      PairInPlace(c, ns, b.etcd.value.credentialSecretName, "username", "password",
                  Need(b.etcd.value.tlsSecretName, ["ca.crt", "tls.crt", "tls.key"]));
      TLSKeys(c, ns, b.etcd.value.tlsSecretName);
    }
    if b.mySQL.Some? {
      PairInPlace(c, ns, b.mySQL.value.userCredentialSecret, "username", "password",
                  Need(b.mySQL.value.tlsCASecret, ["tls_ca_file"]));
      OneKey(c, ns, b.mySQL.value.tlsCASecret, "tls_ca_file");
    }
    if b.swift.Some? {
      PairInPlace(c, ns, b.swift.value.credentialSecret, "username", "password",
                  Need(b.swift.value.authTokenSecret, ["auth_token"]));
      OneKey(c, ns, b.swift.value.authTokenSecret, "auth_token");
    }
    if b.consul.Some? {
      ConsulInPlace(c, ns, b.consul.value);
    }
  }

  /** The other backends. */
  lemma SingleSecrets(c: Cluster, ns: string, b: Backend)
    ensures var cs := BackendChoices(b);
      && InPlace(c, ns, cs[0]) && InPlace(c, ns, cs[1])
      && (InPlace(c, ns, cs[4]) <==> (b.postgreSQL.Some? ==> HasKey(c, ns, b.postgreSQL.value, "connection_url")))
      && (InPlace(c, ns, cs[5]) <==> (b.gcs.Some? ==> HasKey(c, ns, b.gcs.value, "sa.json")))
      && (InPlace(c, ns, cs[6]) <==> (b.s3.Some? ==> S3Secrets(c, ns, b.s3.value)))
      && (InPlace(c, ns, cs[7]) <==> (b.azure.Some? ==> HasKey(c, ns, b.azure.value, "account_key")))
      && (InPlace(c, ns, cs[8]) <==> (b.dynamoDB.Some? ==> S3Secrets(c, ns, b.dynamoDB.value)))
  {
    NothingNeeded(c, ns);
    SecretInPlace(c, ns, b.postgreSQL, "connection_url");
    SecretInPlace(c, ns, b.gcs, "sa.json");
    S3InPlace(c, ns, b.s3);
    SecretInPlace(c, ns, b.azure, "account_key");
    S3InPlace(c, ns, b.dynamoDB);
    hide Provides, HasKey, AllProvided, SecretsInPlace, InPlace, S3Choice, S3Secrets, OneSecret;
  }

  lemma NothingNeeded(c: Cluster, ns: string)
    ensures InPlace(c, ns, Absent) && InPlace(c, ns, Chosen([]))
  {
  }

  lemma ConsulInPlace(c: Cluster, ns: string, s: ConsulSpec)
    ensures InPlace(c, ns, Chosen([Need(s.aclTokenSecretName, ["aclToken"]),
                                   Need(s.tlsSecretName, ["ca.crt", "tls.crt", "tls.key"])])) <==>
            HasKey(c, ns, s.aclTokenSecretName, "aclToken") && TLSSecret(c, ns, s.tlsSecretName)
  {
    TwoNeeds(c, ns, Need(s.aclTokenSecretName, ["aclToken"]), Need(s.tlsSecretName, ["ca.crt", "tls.crt", "tls.key"]));
    OneKey(c, ns, s.aclTokenSecretName, "aclToken");
    TLSKeys(c, ns, s.tlsSecretName);
    hide AllProvided, Provides, HasKey, TLSSecret;
  }

  lemma ModeSecretsInPlace(c: Cluster, ns: string, m: Mode)
    ensures SecretsInPlace(c, ns, ModeChoices(m)) <==> ModeSecrets(c, ns, m)
  {
    var cs := ModeChoices(m);
    hide Provides, HasKey;
    SecretInPlace(c, ns, m.googleKmsGcs, "sa.json");
    if m.awsKmsSsm.Some? {
      OneNeed(c, ns, Need(m.awsKmsSsm.value, ["access_key", "secret_key"]));
      TwoKeys(c, ns, m.awsKmsSsm.value, "access_key", "secret_key");
    }
    if m.azureKeyVault.Some? {
      PairInPlace(c, ns, m.azureKeyVault.value.aadClientSecret, "client-id", "client-secret",
                  Need(m.azureKeyVault.value.clientCertSecret, ["client-cert", "client-cert-password"]));
      TwoKeys(c, ns, m.azureKeyVault.value.clientCertSecret, "client-cert", "client-cert-password");
    }
    hide AllProvided;
    assert SecretsInPlace(c, ns, cs) <==>
      InPlace(c, ns, cs[0]) && InPlace(c, ns, cs[1]) && InPlace(c, ns, cs[2]) && InPlace(c, ns, cs[3]);
  }

  lemma BackendsCounted(b: Backend)
    ensures ExactlyOne(BackendChoices(b)) <==> BackendsGiven(b) == 1
  {
    var cs := BackendChoices(b);
    CountOne(cs);
    CountUpTo(cs, 11);
    assert cs[..11] == cs;
    BackendsChosen(b);
    hide Count, ExactlyOne, BackendChoices, One;
    GivenEleven(cs);
  }

  lemma GivenEleven(cs: seq<Choice>)
    requires |cs| == 11
    ensures Given(cs, 11) ==
      One(cs[0].Chosen?) + One(cs[1].Chosen?) + One(cs[2].Chosen?) + One(cs[3].Chosen?) + One(cs[4].Chosen?)
      + One(cs[5].Chosen?) + One(cs[6].Chosen?) + One(cs[7].Chosen?) + One(cs[8].Chosen?) + One(cs[9].Chosen?)
      + One(cs[10].Chosen?)
  {
    hide One;
    assert Given(cs, 0) == 0 && Given(cs, 1) == One(cs[0].Chosen?);
    assert Given(cs, 2) == One(cs[0].Chosen?) + One(cs[1].Chosen?);
    assert Given(cs, 4) == Given(cs, 2) + One(cs[2].Chosen?) + One(cs[3].Chosen?);
    assert Given(cs, 6) == Given(cs, 4) + One(cs[4].Chosen?) + One(cs[5].Chosen?);
    assert Given(cs, 8) == Given(cs, 6) + One(cs[6].Chosen?) + One(cs[7].Chosen?);
    assert Given(cs, 10) == Given(cs, 8) + One(cs[8].Chosen?) + One(cs[9].Chosen?);
  }

  lemma BackendsChosen(b: Backend)
    ensures var cs := BackendChoices(b);
      && |cs| == 11
      && cs[0].Chosen? == b.inmem && cs[1].Chosen? == b.file && cs[2].Chosen? == b.etcd.Some?
      && cs[3].Chosen? == b.mySQL.Some? && cs[4].Chosen? == b.postgreSQL.Some? && cs[5].Chosen? == b.gcs.Some?
      && cs[6].Chosen? == b.s3.Some? && cs[7].Chosen? == b.azure.Some? && cs[8].Chosen? == b.dynamoDB.Some?
      && cs[9].Chosen? == b.swift.Some? && cs[10].Chosen? == b.consul.Some?
  {
  }

  /** The counter, alternative by alternative. */
  function Given(cs: seq<Choice>, n: nat): nat
    requires n <= |cs|
  {
    if n == 0 then 0 else Given(cs, n - 1) + One(cs[n - 1].Chosen?)
  }

  lemma {:induction false} CountUpTo(cs: seq<Choice>, n: nat)
    requires n <= |cs|
    ensures Count(cs[..n]) == Given(cs, n)
  {
    if n > 0 {
      CountUpTo(cs, n - 1);
      assert cs[..n][..n - 1] == cs[..n - 1];
    }
  }

  lemma ModesCounted(m: Mode)
    ensures ExactlyOne(ModeChoices(m)) <==> ModesGiven(m) == 1
  {
    var cs := ModeChoices(m);
    CountOne(cs);
    CountUpTo(cs, 4);
    assert cs[..4] == cs;
    hide Count, ExactlyOne;
    assert Given(cs, 1) == One(m.kubernetesSecret);
    assert Given(cs, 2) == Given(cs, 1) + One(m.googleKmsGcs.Some?);
    assert Given(cs, 3) == Given(cs, 2) + One(m.awsKmsSsm.Some?);
    assert Given(cs, 4) == Given(cs, 3) + One(m.azureKeyVault.Some?);
  }

  /** A VaultServer is accepted if and only if its version is known, its replicas are positive,
      one backend is given and has its secrets, and an unsealer, if there is one, splits the key
      properly and has one mode with its secrets. */
  lemma AcceptedExactly(c: Cluster, vs: VaultServer)
    ensures ValidServer(c, vs) <==>
      && vs.version != "" && vs.version in c.versions
      && (vs.replicas.None? || vs.replicas.value > 0)
      && BackendsGiven(vs.backend) == 1 && BackendSecrets(c, vs.namespace, vs.backend)
      && (vs.unsealer.None? ||
            var u := vs.unsealer.value;
            && 1 <= u.secretThreshold && u.secretThreshold <= u.secretShares
            && ModesGiven(u.mode) == 1 && ModeSecrets(c, vs.namespace, u.mode))
  {
    BackendsCounted(vs.backend);
    BackendSecretsInPlace(c, vs.namespace, vs.backend);
    if vs.unsealer.Some? {
      ModesCounted(vs.unsealer.value.mode);
      ModeSecretsInPlace(c, vs.namespace, vs.unsealer.value.mode);
    }
    hide BackendsGiven, BackendSecrets, ModesGiven, ModeSecrets, ExactlyOne, SecretsInPlace, BackendChoices, ModeChoices;
  }

  /** Of the fields of the record, an admitted update changes version and replicas at most. */
  lemma UpdateKeeps(new_: VaultServer, old_: VaultServer)
    ensures UpdateAllowed(new_, old_) <==> new_ == old_.(version := new_.version, replicas := new_.replicas)
  {
  }
}
