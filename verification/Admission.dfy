/** The validating webhooks: the freeze of decided access requests, and the rules for
    VaultServer objects. */
module Admission {
  import opened Results
  import AR = AccessRequest

  datatype Operation = Create | Update | Delete | Connect

  datatype Response = Allowed | Uninitialized | BadRequest | Forbidden

  // ----- access requests -----

  /** `object` and `oldObject` are None when they do not parse. */
  datatype AccessReview = AccessReview(
    op: Operation, subResource: string, ours: bool,
    object_: Option<AR.Request>, oldObject: Option<AR.Request>)

  class AccessKeyRequestValidator {
    var initialized: bool

    constructor ()
      ensures !initialized
    {
      initialized := false;
    }

    method Initialize()
      modifies this
      ensures initialized
    {
      initialized := true;
    }

    /** `Admit`: only updates of the object itself are judged; an update that carries an
        approve or deny condition must not change the spec. */
    method Admit(req: AccessReview) returns (r: Response)
      ensures r.Allowed? <==>
        || !req.op.Update? || req.subResource != "" || !req.ours
        || (initialized && req.object_.Some? && req.oldObject.Some? &&
            AR.Admissible(req.oldObject.value, req.object_.value))
      ensures r.Uninitialized? <==>
        req.op.Update? && req.subResource == "" && req.ours && !initialized
    {
      if !req.op.Update? || |req.subResource| != 0 || !req.ours {
        return Allowed;
      }
      if !initialized {
        return Uninitialized;
      }
      if req.object_.None? || req.oldObject.None? {
        return BadRequest;
      }
      var new_, old_ := req.object_.value, req.oldObject.value;
      var isApprovedOrDenied := false;
      for k := 0 to |new_.conditions|
        invariant isApprovedOrDenied <==>
          exists i | 0 <= i < k :: new_.conditions[i].typ.RequestApproved? || new_.conditions[i].typ.RequestDenied?
      {
        if new_.conditions[k].typ.RequestApproved? || new_.conditions[k].typ.RequestDenied? {
          isApprovedOrDenied := true;
        }
      }
      if isApprovedOrDenied && old_.spec != new_.spec {
        return BadRequest;
      }
      return Allowed;
    }
  }

  // ----- VaultServer -----

  datatype EtcdSpec = EtcdSpec(credentialSecretName: string, tlsSecretName: string)
  datatype MySQLSpec = MySQLSpec(userCredentialSecret: string, tlsCASecret: string)
  datatype S3Spec = S3Spec(credentialSecret: string, sessionTokenSecret: string)
  datatype SwiftSpec = SwiftSpec(credentialSecret: string, authTokenSecret: string)
  datatype ConsulSpec = ConsulSpec(aclTokenSecretName: string, tlsSecretName: string)

  /** Storage backends; those without secrets are just present or not, those with one secret
      are given by its name. DynamoDB names the same secrets as S3. */
  datatype Backend = Backend(
    inmem: bool, file: bool, etcd: Option<EtcdSpec>, mySQL: Option<MySQLSpec>,
    postgreSQL: Option<string>, gcs: Option<string>, s3: Option<S3Spec>, azure: Option<string>,
    dynamoDB: Option<S3Spec>, swift: Option<SwiftSpec>, consul: Option<ConsulSpec>)

  datatype AzureKeyVault = AzureKeyVault(aadClientSecret: string, clientCertSecret: string)

  datatype Mode = Mode(
    kubernetesSecret: bool, googleKmsGcs: Option<string>, awsKmsSsm: Option<string>,
    azureKeyVault: Option<AzureKeyVault>)

  datatype Unsealer = Unsealer(secretShares: int, secretThreshold: int, mode: Mode)

  /** `identity` stands for apiVersion, kind and name. */
  datatype VaultServer = VaultServer(
    identity: string, namespace: string, version: string, replicas: Option<int>,
    backend: Backend, unsealer: Option<Unsealer>, nodeSelector: map<string, string>)

  /** What the API server answers: the known versions, and the data of existing secrets by
      namespace and name. */
  datatype Cluster = Cluster(versions: set<string>, secrets: map<(string, string), map<string, seq<int>>>)

  /** A secret, if named at all, exists and has a non-empty value for every key. */
  predicate Provides(c: Cluster, ns: string, name: string, keys: seq<string>) {
    name == "" ||
    ((ns, name) in c.secrets &&
     forall k | k in keys :: k in c.secrets[(ns, name)] && c.secrets[(ns, name)][k] != [])
  }

  /** A secret that a choice names, and the keys it must have. */
  datatype Need = Need(name: string, keys: seq<string>)

  /** One of several alternatives: whether it is chosen, and the secrets it then needs. */
  datatype Choice = Absent | Chosen(needs: seq<Need>)

  function S3Choice(o: Option<S3Spec>): Choice {
    if o.None? then Absent else Chosen([
      Need(o.value.credentialSecret, ["access_key", "secret_key"]),
      Need(o.value.sessionTokenSecret, ["session_token"])])
  }

  function OneSecret(o: Option<string>, keys: seq<string>): Choice {
    if o.None? then Absent else Chosen([Need(o.value, keys)])
  }

  /** The storage backends in the order in which the validator looks at them. */
  function BackendChoices(b: Backend): seq<Choice> {
    [if b.inmem then Chosen([]) else Absent,
     if b.file then Chosen([]) else Absent,
     if b.etcd.None? then Absent else Chosen([
       Need(b.etcd.value.credentialSecretName, ["username", "password"]),
       Need(b.etcd.value.tlsSecretName, ["ca.crt", "tls.crt", "tls.key"])]),
     if b.mySQL.None? then Absent else Chosen([
       Need(b.mySQL.value.userCredentialSecret, ["username", "password"]),
       Need(b.mySQL.value.tlsCASecret, ["tls_ca_file"])]),
     OneSecret(b.postgreSQL, ["connection_url"]),
     OneSecret(b.gcs, ["sa.json"]),
     S3Choice(b.s3),
     OneSecret(b.azure, ["account_key"]),
     S3Choice(b.dynamoDB),
     if b.swift.None? then Absent else Chosen([
       Need(b.swift.value.credentialSecret, ["username", "password"]),
       Need(b.swift.value.authTokenSecret, ["auth_token"])]),
     if b.consul.None? then Absent else Chosen([
       Need(b.consul.value.aclTokenSecretName, ["aclToken"]),
       Need(b.consul.value.tlsSecretName, ["ca.crt", "tls.crt", "tls.key"])])]
  }

  /** The unsealing modes. */
  function ModeChoices(m: Mode): seq<Choice> {
    [if m.kubernetesSecret then Chosen([]) else Absent,
     OneSecret(m.googleKmsGcs, ["sa.json"]),
     OneSecret(m.awsKmsSsm, ["access_key", "secret_key"]),
     if m.azureKeyVault.None? then Absent else Chosen([
       Need(m.azureKeyVault.value.aadClientSecret, ["client-id", "client-secret"]),
       Need(m.azureKeyVault.value.clientCertSecret, ["client-cert", "client-cert-password"])])]
  }

  predicate ExactlyOne(choices: seq<Choice>) {
    exists i | 0 <= i < |choices| ::
      choices[i].Chosen? && forall j | 0 <= j < |choices| && j != i :: choices[j].Absent?
  }

  predicate AllProvided(c: Cluster, ns: string, needs: seq<Need>) {
    forall i | 0 <= i < |needs| :: Provides(c, ns, needs[i].name, needs[i].keys)
  }

  /** Every secret named by a choice is there. */
  predicate SecretsInPlace(c: Cluster, ns: string, choices: seq<Choice>) {
    forall i | 0 <= i < |choices| && choices[i].Chosen? :: AllProvided(c, ns, choices[i].needs)
  }

  predicate ValidUnsealer(c: Cluster, ns: string, u: Unsealer) {
    && 0 < u.secretThreshold <= u.secretShares
    && ExactlyOne(ModeChoices(u.mode)) && SecretsInPlace(c, ns, ModeChoices(u.mode))
  }

  /** What a VaultServer has to be, in no particular order. */
  predicate ValidServer(c: Cluster, vs: VaultServer) {
    && vs.version != "" && vs.version in c.versions
    && (vs.replicas.Some? ==> vs.replicas.value >= 1)
    && ExactlyOne(BackendChoices(vs.backend)) && SecretsInPlace(c, vs.namespace, BackendChoices(vs.backend))
    && (vs.unsealer.Some? ==> ValidUnsealer(c, vs.namespace, vs.unsealer.value))
  }

  // ----- counting -----

  function Count(choices: seq<Choice>): nat {
    if choices == [] then 0
    else Count(choices[..|choices| - 1]) + if choices[|choices| - 1].Chosen? then 1 else 0
  }

  lemma {:induction false} CountZero(choices: seq<Choice>)
    ensures Count(choices) == 0 <==> forall i | 0 <= i < |choices| :: choices[i].Absent?
    decreases |choices|
  {
    if choices != [] {
      CountZero(choices[..|choices| - 1]);
    }
  }

  lemma ExactlyOneSnoc(front: seq<Choice>, last: Choice)
    ensures ExactlyOne(front + [last]) <==>
      if last.Chosen? then forall i | 0 <= i < |front| :: front[i].Absent? else ExactlyOne(front)
  {
    var all, n := front + [last], |front|;
    if ExactlyOne(all) {
      var i :| 0 <= i < |all| && all[i].Chosen? && forall j | 0 <= j < |all| && j != i :: all[j].Absent?;
      assert forall j | 0 <= j < n :: front[j] == all[j];
      assert all[n] == last;
    }
    if ExactlyOne(front) && last.Absent? {
      var i :| 0 <= i < n && front[i].Chosen? && forall j | 0 <= j < n && j != i :: front[j].Absent?;
      assert all[i].Chosen?;
    }
    if last.Chosen? && forall i | 0 <= i < n :: front[i].Absent? {
      assert all[n].Chosen?;
    }
  }

  /** The counters of the validator tell whether exactly one alternative is chosen. */
  lemma {:induction false} CountOne(choices: seq<Choice>)
    ensures Count(choices) == 1 <==> ExactlyOne(choices)
    decreases |choices|
  {
    if choices != [] {
      var front, last := choices[..|choices| - 1], choices[|choices| - 1];
      assert choices == front + [last];
      CountZero(front);
      CountOne(front);
      ExactlyOneSnoc(front, last);
      hide ExactlyOne;
    }
  }

  // ----- the validator, check by check -----

  /** `validateSecret`, called only for non-empty names. */
  method ValidateSecret(c: Cluster, name: string, ns: string, requiredKeys: seq<string>) returns (ok: bool)
    requires name != ""
    ensures ok == Provides(c, ns, name, requiredKeys)
  {
    if (ns, name) !in c.secrets {
      return false;
    }
    var data := c.secrets[(ns, name)];
    for i := 0 to |requiredKeys|
      invariant forall k | k in requiredKeys[..i] :: k in data && data[k] != []
    {
      var k := requiredKeys[i];
      assert requiredKeys[..i + 1] == requiredKeys[..i] + [k];
      if k !in data || |data[k]| == 0 {
        assert k in requiredKeys;
        return false;
      }
    }
    assert requiredKeys[..|requiredKeys|] == requiredKeys;
    return true;
  }

  /** The run of `if x != nil { num++; ... validateSecret ... }` blocks over a list of
      alternatives: stops at the first secret that is not in place. */
  method ValidateChoices(c: Cluster, ns: string, choices: seq<Choice>) returns (ok: bool, num: nat)
    ensures ok == SecretsInPlace(c, ns, choices)
    ensures ok ==> num == Count(choices)
  {
    num := 0;
    for i := 0 to |choices|
      invariant SecretsInPlace(c, ns, choices[..i]) && num == Count(choices[..i])
    {
      assert choices[..i + 1][..i] == choices[..i];
      if choices[i].Chosen? {
        num := num + 1;
        ok := ValidateNeeds(c, ns, choices[i].needs);
        if !ok {
          return;
        }
      }
    }
    assert choices[..|choices|] == choices;
    ok := true;
  }

  method ValidateNeeds(c: Cluster, ns: string, needs: seq<Need>) returns (ok: bool)
    ensures ok == AllProvided(c, ns, needs)
  {
    for i := 0 to |needs|
      invariant AllProvided(c, ns, needs[..i])
    {
      if needs[i].name != "" {
        ok := ValidateSecret(c, needs[i].name, ns, needs[i].keys);
        if !ok {
          return;
        }
      }
    }
    assert needs[..|needs|] == needs;
    ok := true;
  }

  datatype Verdict =
    | Accepted | VersionMissing | VersionUnknown | BadReplicas | SecretMissing | NoBackend | ManyBackends
    | BadShares | BadThreshold | ThresholdAboveShares | NoMode | ManyModes

  /** `ValidateVaultServer` accepts exactly the valid servers. */
  method ValidateVaultServer(c: Cluster, vs: VaultServer) returns (v: Verdict)
    ensures v.Accepted? <==> ValidServer(c, vs)
    ensures v.VersionMissing? <==> vs.version == ""
    ensures v.VersionUnknown? <==> vs.version != "" && vs.version !in c.versions
    ensures v.BadReplicas? <==> vs.version != "" && vs.version in c.versions && vs.replicas.Some? && vs.replicas.value < 1
    ensures v.NoBackend? || v.ManyBackends? ==>
      SecretsInPlace(c, vs.namespace, BackendChoices(vs.backend)) && !ExactlyOne(BackendChoices(vs.backend))
  {
    hide SecretsInPlace, ExactlyOne, Count, BackendChoices, ModeChoices;
    if vs.version == "" {
      return VersionMissing;
    }
    if vs.version !in c.versions {
      return VersionUnknown;
    }
    if vs.replicas.Some? && vs.replicas.value < 1 {
      return BadReplicas;
    }
    var ok, numOfBackend := ValidateChoices(c, vs.namespace, BackendChoices(vs.backend));
    if !ok {
      return SecretMissing;
    }
    CountOne(BackendChoices(vs.backend));
    if numOfBackend != 1 {
      return if numOfBackend == 0 then NoBackend else ManyBackends;
    }
    if vs.unsealer.Some? {
      var unslr := vs.unsealer.value;
      if unslr.secretShares <= 0 {
        return BadShares;
      }
      if unslr.secretThreshold <= 0 {
        return BadThreshold;
      }
      if unslr.secretThreshold > unslr.secretShares {
        return ThresholdAboveShares;
      }
      var modeOk, numOfModes := ValidateChoices(c, vs.namespace, ModeChoices(unslr.mode));
      if !modeOk {
        return SecretMissing;
      }
      CountOne(ModeChoices(unslr.mode));
      if numOfModes != 1 {
        return if numOfModes == 0 then NoMode else ManyModes;
      }
    }
    return Accepted;
  }

  /** `validateUpdate`: the patch from `old_` to `new_` leaves the protected keys alone. */
  predicate UpdateAllowed(new_: VaultServer, old_: VaultServer) {
    && new_.identity == old_.identity && new_.namespace == old_.namespace
    && new_.unsealer == old_.unsealer && new_.backend == old_.backend
    && new_.nodeSelector == old_.nodeSelector
  }

  datatype ServerReview = ServerReview(
    op: Operation, subResource: string, ours: bool,
    object_: Option<VaultServer>, oldObject: Option<VaultServer>)

  class VaultServerValidator {
    var initialized: bool

    constructor ()
      ensures !initialized
    {
      initialized := false;
    }

    method Initialize()
      modifies this
      ensures initialized
    {
      initialized := true;
    }

    /** `Admit`. */
    method Admit(c: Cluster, req: ServerReview) returns (r: Response)
      ensures r.Allowed? <==>
        || req.op.Connect? || req.subResource != "" || !req.ours
        || (initialized && req.op.Delete?)
        || (initialized && (req.op.Create? || req.op.Update?) && req.object_.Some? &&
            (req.op.Update? ==> req.oldObject.Some? && UpdateAllowed(req.object_.value, req.oldObject.value)) &&
            ValidServer(c, req.object_.value))
      ensures r.Uninitialized? <==> !req.op.Connect? && req.subResource == "" && req.ours && !initialized
      ensures r.Forbidden? ==> req.object_.Some? && !ValidServer(c, req.object_.value)
    {
      hide ValidServer;
      if req.op.Connect? || |req.subResource| != 0 || !req.ours {
        return Allowed;
      }
      if !initialized {
        return Uninitialized;
      }
      if req.op.Create? || req.op.Update? {
        if req.object_.None? {
          return BadRequest;
        }
        if req.op.Update? {
          if req.oldObject.None? {
            return BadRequest;
          }
          if !UpdateAllowed(req.object_.value, req.oldObject.value) {
            return BadRequest;
          }
        }
        var v := ValidateVaultServer(c, req.object_.value);
        if !v.Accepted? {
          return Forbidden;
        }
      }
      return Allowed;
    }
  }

  /** Successive versions of one server, each admitted as an update of the one before, the
      cluster changing in between. */
  predicate AdmittedChain(cs: seq<Cluster>, vss: seq<VaultServer>) {
    |cs| == |vss| &&
    forall i | 0 < i < |vss| :: UpdateAllowed(vss[i], vss[i - 1]) && ValidServer(cs[i], vss[i])
  }

  /** Backend and unsealer stay as created along every chain of admitted updates, so exactly
      one backend and one key split serve the stored data throughout. */
  lemma {:induction false} BackendIsForever(cs: seq<Cluster>, vss: seq<VaultServer>, i: nat)
    requires AdmittedChain(cs, vss) && i < |vss| && ValidServer(cs[0], vss[0])
    ensures vss[i].backend == vss[0].backend && vss[i].unsealer == vss[0].unsealer
    ensures vss[i].identity == vss[0].identity && vss[i].namespace == vss[0].namespace
    ensures ExactlyOne(BackendChoices(vss[i].backend))
  {
    hide SecretsInPlace, ExactlyOne, BackendChoices;
    if i > 0 {
      BackendIsForever(cs, vss, i - 1);
      assert UpdateAllowed(vss[i], vss[i - 1]);
    }
  }
}
