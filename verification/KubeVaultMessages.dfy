/** Messages of the kubevault package on the wire: the unsealer settings as a record, and what
    holds of every message type. */
module KubeVaultMessages {
  import opened Bits
  import opened Results
  import opened Varint
  import opened Messages
  import opened Decoder
  import opened Schemas
  import RoundTrip

  /** Every message of these types is unmarshalled to what was marshalled. */
  lemma ShippedRoundTrip(sch: Schema, y: Message)
    requires sch in Shipped() && Typed(sch, y) && |Encode(sch, y)| < TWO_63
    ensures Decode(sch, Zero(sch), Encode(sch, y), 0) == Ok(y)
  {
    ShippedWellFormed(sch);
    RoundTrip.DecodeInvertsEncode(sch, y);
  }

  // ----- ConsulSpec -----

  /** The fields before index `k` come first on the wire. */
  lemma {:induction false} EncodeSuffix(sch: Schema, m: Message, k: nat) returns (front: seq<Byte>)
    requires Typed(sch, m) && k <= |sch|
    ensures Encode(sch, m) == front + EncodeFrom(sch, m, k)
  {
    hide EncodeValue, TypedValue;
    if k == 0 {
      front := [];
    } else {
      var before := EncodeSuffix(sch, m, k - 1);
      front := before + EncodeValue(sch[k - 1], m.vals[k - 1]);
    }
  }

  lemma LastField()
    ensures |CONSUL_SPEC_SCHEMA| == 16 && CONSUL_SPEC_SCHEMA[15] == Field(16, KBool)
  {
    var kinds := [
      KString, KString, KString, KString, KString, KString, KString, KString,
      KString, KString, KString, KString, KString, KString, KString, KBool];
    assert CONSUL_SPEC_SCHEMA == Numbered(kinds);
    hide Numbered;
  }

  /** TLSSkipVerify, field 16, is always written, last, as 0x80 0x01 and the flag. */
  lemma ConsulSkipVerify(y: Message)
    requires Typed(CONSUL_SPEC_SCHEMA, y)
    ensures |y.vals| == 16 && y.vals[15].VBool?
    ensures var wire := Encode(CONSUL_SPEC_SCHEMA, y);
      |wire| >= 3 && wire[|wire| - 3..] == [0x80, 0x01, if y.vals[15].b then 1 else 0]
  {
    LastField();
    var sch, flag := CONSUL_SPEC_SCHEMA, if y.vals[15].b then 1 else 0;
    var front := EncodeSuffix(sch, y, 15);
    hide Encode, Typed, Numbered;
    TagBytes(16, 0);
    FieldBytes(sch, y, 15, flag);
    assert Encode(sch, y) == front + [0x80, 0x01, flag];
  }

  lemma FieldBytes(sch: Schema, y: Message, k: nat, flag: nat)
    requires Typed(sch, y) && |sch| == k + 1 && sch[k].kind == KBool && flag < 128
    requires |y.vals| == |sch| && y.vals[k].VBool? && flag == if y.vals[k].b then 1 else 0
    ensures EncodeFrom(sch, y, k) == Tag(sch[k].num, 0) + [flag]
  {
    var item := IVarint(flag);
    assert [item][1..] == [];
    assert EncodeVarint(flag) == [flag];
    hide EncodeVarint, Tag;
    assert EncodeItem(sch[k].num, item) == Tag(sch[k].num, 0) + [flag];
    assert EncodeItems(sch[k].num, [item]) == EncodeItem(sch[k].num, item);
    assert EncodeValue(sch[k], y.vals[k]) == EncodeItems(sch[k].num, [item]);
    assert EncodeFrom(sch, y, k + 1) == [];
  }

  // ----- UnsealerSpec -----

  type Int64 = i: int | -TWO_63 <= i < TWO_63

  datatype GoogleKmsGcs = GoogleKmsGcs(
    kmsCryptoKey: seq<Byte>, kmsKeyRing: seq<Byte>, kmsLocation: seq<Byte>, kmsProject: seq<Byte>,
    bucket: seq<Byte>, credentialSecret: seq<Byte>)

  datatype AwsKmsSsm = AwsKmsSsm(
    kmsKeyID: seq<Byte>, ssmKeyPrefix: seq<Byte>, region: seq<Byte>, credentialSecret: seq<Byte>, endpoint: seq<Byte>)

  datatype AzureKeyVault = AzureKeyVault(
    vaultBaseURL: seq<Byte>, cloud: seq<Byte>, tenantID: seq<Byte>, clientCertSecret: seq<Byte>,
    aadClientSecret: seq<Byte>, useManagedIdentity: bool)

  datatype ModeSpec = ModeSpec(
    kubernetesSecret: Option<seq<Byte>>, googleKmsGcs: Option<GoogleKmsGcs>,
    awsKmsSsm: Option<AwsKmsSsm>, azureKeyVault: Option<AzureKeyVault>)

  datatype UnsealerSpec = UnsealerSpec(
    secretShares: Int64, secretThreshold: Int64, retryPeriod: Int64,
    overwriteExisting: bool, storeRootToken: bool, mode: ModeSpec)

  function GoogleMessage(g: GoogleKmsGcs): Message {
    Message([VString(g.kmsCryptoKey), VString(g.kmsKeyRing), VString(g.kmsLocation), VString(g.kmsProject),
             VString(g.bucket), VString(g.credentialSecret)])
  }

  function AwsMessage(a: AwsKmsSsm): Message {
    Message([VString(a.kmsKeyID), VString(a.ssmKeyPrefix), VString(a.region), VString(a.credentialSecret),
             VString(a.endpoint)])
  }

  function AzureMessage(a: AzureKeyVault): Message {
    Message([VString(a.vaultBaseURL), VString(a.cloud), VString(a.tenantID), VString(a.clientCertSecret),
             VString(a.aadClientSecret), VBool(a.useManagedIdentity)])
  }

  function ModeMessage(m: ModeSpec): Message {
    Message([
      VMessagePtr(if m.kubernetesSecret.Some? then Some(Message([VString(m.kubernetesSecret.value)])) else None),
      VMessagePtr(if m.googleKmsGcs.Some? then Some(GoogleMessage(m.googleKmsGcs.value)) else None),
      VMessagePtr(if m.awsKmsSsm.Some? then Some(AwsMessage(m.awsKmsSsm.value)) else None),
      VMessagePtr(if m.azureKeyVault.Some? then Some(AzureMessage(m.azureKeyVault.value)) else None)])
  }

  function UnsealerMessage(u: UnsealerSpec): Message {
    Message([VInt64(u.secretShares), VInt64(u.secretThreshold), VInt64(u.retryPeriod),
             VBool(u.overwriteExisting), VBool(u.storeRootToken), VMessage(ModeMessage(u.mode))])
  }

  lemma NumberedTyped(kinds: seq<Kind>, m: Message)
    requires |kinds| == |m.vals| && forall i | 0 <= i < |kinds| :: TypedValue(kinds[i], m.vals[i])
    ensures Typed(Numbered(kinds), m)
  {
    hide Numbered, TypedValue;
  }

  lemma GoogleTyped(g: GoogleKmsGcs)
    ensures Typed(GOOGLE_KMS_GCS_SCHEMA, GoogleMessage(g))
  {
    hide Numbered;
    NumberedTyped([KString, KString, KString, KString, KString, KString], GoogleMessage(g));
  }

  lemma AwsTyped(a: AwsKmsSsm)
    ensures Typed(AWS_KMS_SSM_SCHEMA, AwsMessage(a))
  {
    hide Numbered;
    NumberedTyped([KString, KString, KString, KString, KString], AwsMessage(a));
  }

  lemma AzureTyped(a: AzureKeyVault)
    ensures Typed(AZURE_KEY_VAULT_SCHEMA, AzureMessage(a))
  {
    hide Numbered;
    NumberedTyped([KString, KString, KString, KString, KString, KBool], AzureMessage(a));
  }

  lemma ModeTyped(m: ModeSpec)
    ensures Typed(MODE_SPEC_SCHEMA, ModeMessage(m))
  {
    hide Numbered;
    if m.kubernetesSecret.Some? { NumberedTyped([KString], Message([VString(m.kubernetesSecret.value)])); }
    if m.googleKmsGcs.Some? { GoogleTyped(m.googleKmsGcs.value); }
    if m.awsKmsSsm.Some? { AwsTyped(m.awsKmsSsm.value); }
    if m.azureKeyVault.Some? { AzureTyped(m.azureKeyVault.value); }
    hide Typed, GoogleMessage, AwsMessage, AzureMessage;
    NumberedTyped([
      KMessagePtr(KUBERNETES_SECRET_SCHEMA), KMessagePtr(GOOGLE_KMS_GCS_SCHEMA),
      KMessagePtr(AWS_KMS_SSM_SCHEMA), KMessagePtr(AZURE_KEY_VAULT_SCHEMA)], ModeMessage(m));
  }

  lemma UnsealerTyped(u: UnsealerSpec)
    ensures Typed(UNSEALER_SPEC_SCHEMA, UnsealerMessage(u))
  {
    hide Numbered;
    ModeTyped(u.mode);
    hide Typed, ModeMessage;
    NumberedTyped([KInt64, KInt64, KInt64, KBool, KBool, KMessage(MODE_SPEC_SCHEMA)], UnsealerMessage(u));
  }

  lemma UnsealerMessageInjective(u: UnsealerSpec, v: UnsealerSpec)
    requires UnsealerMessage(u) == UnsealerMessage(v)
    ensures u == v
  {
    var x, y := UnsealerMessage(u), UnsealerMessage(v);
    assert x.vals[0] == y.vals[0] && x.vals[1] == y.vals[1] && x.vals[2] == y.vals[2];
    assert x.vals[3] == y.vals[3] && x.vals[4] == y.vals[4] && x.vals[5] == y.vals[5];
    ModeMessageInjective(u.mode, v.mode);
  }

  lemma ModeMessageInjective(m: ModeSpec, n: ModeSpec)
    requires ModeMessage(m) == ModeMessage(n)
    ensures m == n
  {
    var x, y := ModeMessage(m), ModeMessage(n);
    assert x.vals[0] == y.vals[0] && x.vals[1] == y.vals[1] && x.vals[2] == y.vals[2] && x.vals[3] == y.vals[3];
    if m.kubernetesSecret.Some? {
      assert x.vals[0].mp.value.vals[0] == y.vals[0].mp.value.vals[0];
    }
    if m.googleKmsGcs.Some? {
      var g, h := x.vals[1].mp.value, y.vals[1].mp.value;
      assert g.vals[0] == h.vals[0] && g.vals[1] == h.vals[1] && g.vals[2] == h.vals[2];
      assert g.vals[3] == h.vals[3] && g.vals[4] == h.vals[4] && g.vals[5] == h.vals[5];
    }
    if m.awsKmsSsm.Some? {
      var g, h := x.vals[2].mp.value, y.vals[2].mp.value;
      assert g.vals[0] == h.vals[0] && g.vals[1] == h.vals[1] && g.vals[2] == h.vals[2];
      assert g.vals[3] == h.vals[3] && g.vals[4] == h.vals[4];
    }
    if m.azureKeyVault.Some? {
      var g, h := x.vals[3].mp.value, y.vals[3].mp.value;
      assert g.vals[0] == h.vals[0] && g.vals[1] == h.vals[1] && g.vals[2] == h.vals[2];
      assert g.vals[3] == h.vals[3] && g.vals[4] == h.vals[4] && g.vals[5] == h.vals[5];
    }
  }

  /** The unsealer settings survive the wire, negative numbers and absent modes included, and
      two of them with the same wire form are the same. */
  lemma UnsealerRoundTrip(u: UnsealerSpec, v: UnsealerSpec)
    ensures Typed(UNSEALER_SPEC_SCHEMA, UnsealerMessage(u)) && Typed(UNSEALER_SPEC_SCHEMA, UnsealerMessage(v))
    ensures var wire := Encode(UNSEALER_SPEC_SCHEMA, UnsealerMessage(u)); |wire| < TWO_63 ==>
      && Decode(UNSEALER_SPEC_SCHEMA, Zero(UNSEALER_SPEC_SCHEMA), wire, 0) == Ok(UnsealerMessage(u))
      && (wire == Encode(UNSEALER_SPEC_SCHEMA, UnsealerMessage(v)) ==> u == v)
  {
    UnsealerTyped(u);
    UnsealerTyped(v);
    hide Encode, Decode, Zero, Typed, Numbered, UnsealerMessage;
    var sch := UNSEALER_SPEC_SCHEMA;
    assert Shipped()[8] == sch;
    ShippedWellFormed(sch);
    hide Shipped;
    if |Encode(sch, UnsealerMessage(u))| < TWO_63 {
      RoundTrip.DecodeInvertsEncode(sch, UnsealerMessage(u));
      if Encode(sch, UnsealerMessage(u)) == Encode(sch, UnsealerMessage(v)) {
        RoundTrip.EncodeInjective(sch, UnsealerMessage(u), UnsealerMessage(v));
        UnsealerMessageInjective(u, v);
      }
    }
  }
}
