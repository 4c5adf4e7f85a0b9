/** The message types of the config, catalog and kubevault API packages, as field tables. */
module Schemas {
  import opened Bits
  import opened Results
  import opened Varint
  import opened Messages

  /** The generated types number their fields 1, 2, ... in the order of the struct. */
  function Numbered(kinds: seq<Kind>): (sch: Schema)
    ensures |sch| == |kinds|
    ensures forall i | 0 <= i < |kinds| :: sch[i] == Field(i + 1, kinds[i])
  {
    if kinds == [] then []
    else Numbered(kinds[..|kinds| - 1]) + [Field(|kinds|, kinds[|kinds| - 1])]
  }

  predicate WellFormedKinds(kinds: seq<Kind>) {
    forall i | 0 <= i < |kinds| :: WellFormedField(Field(i + 1, kinds[i]))
  }

  lemma NumberedWellFormed(kinds: seq<Kind>)
    requires WellFormedKinds(kinds) && |kinds| < 0x1000_0000
    ensures WellFormed(Numbered(kinds))
  {
    hide Numbered, WellFormedField;
  }

  // config package
  const AWS_AUTH_CONFIG_SCHEMA := Numbered([KString])
  const AZURE_AUTH_CONFIG_SCHEMA := Numbered([KString, KString, KString, KString])
  const KUBERNETES_AUTH_CONFIG_SCHEMA := Numbered([KString, KString, KBool])
  const VAULT_SERVER_CONFIGURATION_SCHEMA := Numbered([
    KString, KString,
    KMessagePtr(KUBERNETES_AUTH_CONFIG_SCHEMA),
    KMessagePtr(AZURE_AUTH_CONFIG_SCHEMA),
    KMessagePtr(AWS_AUTH_CONFIG_SCHEMA)])

  // catalog package
  const IMAGE_SCHEMA := Numbered([KString])
  const VAULT_SERVER_VERSION_SPEC_SCHEMA := Numbered([
    KString, KMessage(IMAGE_SCHEMA), KMessage(IMAGE_SCHEMA), KMessage(IMAGE_SCHEMA), KBool])

  // kubevault package
  const AUTH_CONFIG_SCHEMA := Numbered([KString, KString, KString, KStrings, KStrings, KString, KStrings])
  const AUTH_METHOD_SCHEMA := Numbered([
    KString, KString, KString, KMessagePtr(AUTH_CONFIG_SCHEMA), KString, KBool])
  const TLS_POLICY_SCHEMA := Numbered([KString, KBytes])
  const KUBERNETES_SECRET_SCHEMA := Numbered([KString])
  const GOOGLE_KMS_GCS_SCHEMA := Numbered([KString, KString, KString, KString, KString, KString])
  const AWS_KMS_SSM_SCHEMA := Numbered([KString, KString, KString, KString, KString])
  const AZURE_KEY_VAULT_SCHEMA := Numbered([KString, KString, KString, KString, KString, KBool])
  const MODE_SPEC_SCHEMA := Numbered([
    KMessagePtr(KUBERNETES_SECRET_SCHEMA), KMessagePtr(GOOGLE_KMS_GCS_SCHEMA),
    KMessagePtr(AWS_KMS_SSM_SCHEMA), KMessagePtr(AZURE_KEY_VAULT_SCHEMA)])
  const UNSEALER_SPEC_SCHEMA := Numbered([KInt64, KInt64, KInt64, KBool, KBool, KMessage(MODE_SPEC_SCHEMA)])
  const VAULT_STATUS_SCHEMA := Numbered([KString, KStrings, KStrings, KStrings])
  const CONSUL_SPEC_SCHEMA := Numbered([
    KString, KString, KString, KString, KString, KString, KString, KString,
    KString, KString, KString, KString, KString, KString, KString, KBool])

  /** The first two fields of VaultServerSpec, Replicas and Version. */
  const VAULT_SERVER_SPEC_HEAD_SCHEMA := Numbered([KInt32Ptr, KString])

  lemma FlatWellFormed(kinds: seq<Kind>)
    requires forall i | 0 <= i < |kinds| :: !kinds[i].KMessage? && !kinds[i].KMessagePtr? && !kinds[i].KMessages?
    requires |kinds| < 0x1000_0000
    ensures WellFormed(Numbered(kinds))
  {
    NumberedWellFormed(kinds);
  }

  lemma ConfigWellFormed()
    ensures WellFormed(VAULT_SERVER_CONFIGURATION_SCHEMA)
  {
    hide Numbered;
    FlatWellFormed([KString]);
    FlatWellFormed([KString, KString, KString, KString]);
    FlatWellFormed([KString, KString, KBool]);
    hide WellFormed;
    NumberedWellFormed([
      KString, KString,
      KMessagePtr(KUBERNETES_AUTH_CONFIG_SCHEMA),
      KMessagePtr(AZURE_AUTH_CONFIG_SCHEMA),
      KMessagePtr(AWS_AUTH_CONFIG_SCHEMA)]);
  }

  lemma CatalogWellFormed()
    ensures WellFormed(VAULT_SERVER_VERSION_SPEC_SCHEMA)
  {
    hide Numbered;
    FlatWellFormed([KString]);
    hide WellFormed;
    NumberedWellFormed([
      KString, KMessage(IMAGE_SCHEMA), KMessage(IMAGE_SCHEMA), KMessage(IMAGE_SCHEMA), KBool]);
  }

  lemma AuthWellFormed()
    ensures WellFormed(AUTH_CONFIG_SCHEMA) && WellFormed(AUTH_METHOD_SCHEMA)
    ensures WellFormed(TLS_POLICY_SCHEMA) && WellFormed(VAULT_STATUS_SCHEMA)
    ensures WellFormed(VAULT_SERVER_SPEC_HEAD_SCHEMA)
  {
    hide Numbered;
    FlatWellFormed([KString, KString, KString, KStrings, KStrings, KString, KStrings]);
    FlatWellFormed([KString, KBytes]);
    FlatWellFormed([KString, KStrings, KStrings, KStrings]);
    FlatWellFormed([KInt32Ptr, KString]);
    hide WellFormed;
    NumberedWellFormed([KString, KString, KString, KMessagePtr(AUTH_CONFIG_SCHEMA), KString, KBool]);
  }

  lemma ConsulWellFormed()
    ensures WellFormed(CONSUL_SPEC_SCHEMA)
  {
    hide Numbered;
    FlatWellFormed([
      KString, KString, KString, KString, KString, KString, KString, KString,
      KString, KString, KString, KString, KString, KString, KString, KBool]);
  }

  lemma ModeWellFormed()
    ensures WellFormed(MODE_SPEC_SCHEMA)
  {
    hide Numbered;
    FlatWellFormed([KString]);
    FlatWellFormed([KString, KString, KString, KString, KString, KString]);
    FlatWellFormed([KString, KString, KString, KString, KString]);
    FlatWellFormed([KString, KString, KString, KString, KString, KBool]);
    hide WellFormed;
    NumberedWellFormed([
      KMessagePtr(KUBERNETES_SECRET_SCHEMA), KMessagePtr(GOOGLE_KMS_GCS_SCHEMA),
      KMessagePtr(AWS_KMS_SSM_SCHEMA), KMessagePtr(AZURE_KEY_VAULT_SCHEMA)]);
  }

  lemma UnsealerWellFormed()
    ensures WellFormed(UNSEALER_SPEC_SCHEMA)
  {
    hide Numbered;
    ModeWellFormed();
    hide WellFormed;
    NumberedWellFormed([KInt64, KInt64, KInt64, KBool, KBool, KMessage(MODE_SPEC_SCHEMA)]);
  }

  /** Tag literals of the generated writers: `num << 3 | wireType` in one byte up to field
      15, in two bytes from field 16 on. */
  lemma TagBytes(num: nat, wt: nat)
    requires 1 <= num < 2048 && wt < 8
    ensures Tag(num, wt) ==
            if num < 16 then [num * 8 + wt] else [(num * 8 + wt) % 128 + 128, num / 16]
  {
    var tag := num * 8 + wt;
    if num >= 16 {
      assert tag / 128 == num / 16 < 128;
      assert EncodeVarint(tag / 128) == [tag / 128];
    }
  }

  /** The message types of the three packages that are modelled in full, and the first two
      fields of VaultServerSpec. */
  function Shipped(): seq<Schema> {
    [VAULT_SERVER_CONFIGURATION_SCHEMA, VAULT_SERVER_VERSION_SPEC_SCHEMA, AUTH_CONFIG_SCHEMA, AUTH_METHOD_SCHEMA,
     TLS_POLICY_SCHEMA, VAULT_STATUS_SCHEMA, CONSUL_SPEC_SCHEMA, MODE_SPEC_SCHEMA, UNSEALER_SPEC_SCHEMA,
     VAULT_SERVER_SPEC_HEAD_SCHEMA]
  }

  lemma ShippedWellFormed(sch: Schema)
    requires sch in Shipped()
    ensures WellFormed(sch)
  {
    hide Numbered, WellFormed;
    ConfigWellFormed();
    CatalogWellFormed();
    AuthWellFormed();
    ConsulWellFormed();
    ModeWellFormed();
    UnsealerWellFormed();
  }
}

/** The client-side configuration of a VaultServer, as a record. */
module VaultServerConfig {
  import opened Bits
  import opened Results
  import opened Messages
  import opened Decoder
  import opened Schemas
  import RoundTrip

  datatype AWSAuthConfig = AWSAuthConfig(headerValue: seq<Byte>)

  datatype AzureAuthConfig = AzureAuthConfig(
    subscriptionID: seq<Byte>, resourceGroupName: seq<Byte>, vmName: seq<Byte>, vmssName: seq<Byte>)

  datatype KubernetesAuthConfig = KubernetesAuthConfig(
    serviceAccountName: seq<Byte>, tokenReviewerServiceAccountName: seq<Byte>,
    usePodServiceAccountForCSIDriver: bool)

  datatype VaultServerConfiguration = VaultServerConfiguration(
    path: seq<Byte>, vaultRole: seq<Byte>,
    kubernetes: Option<KubernetesAuthConfig>, azure: Option<AzureAuthConfig>, aws: Option<AWSAuthConfig>)

  function KubernetesMessage(k: KubernetesAuthConfig): (m: Message)
    ensures Typed(KUBERNETES_AUTH_CONFIG_SCHEMA, m)
  {
    Message([VString(k.serviceAccountName), VString(k.tokenReviewerServiceAccountName),
             VBool(k.usePodServiceAccountForCSIDriver)])
  }

  function AzureMessage(a: AzureAuthConfig): (m: Message)
    ensures Typed(AZURE_AUTH_CONFIG_SCHEMA, m)
  {
    Message([VString(a.subscriptionID), VString(a.resourceGroupName), VString(a.vmName), VString(a.vmssName)])
  }

  function AWSMessage(a: AWSAuthConfig): (m: Message)
    ensures Typed(AWS_AUTH_CONFIG_SCHEMA, m)
  {
    Message([VString(a.headerValue)])
  }

  function OptionMap<T, U>(o: Option<T>, f: T -> U): Option<U> {
    match o
    case None => None
    case Some(x) => Some(f(x))
  }

  function ToMessage(c: VaultServerConfiguration): (m: Message)
    ensures Typed(VAULT_SERVER_CONFIGURATION_SCHEMA, m)
  {
    Message([VString(c.path), VString(c.vaultRole),
             VMessagePtr(OptionMap(c.kubernetes, KubernetesMessage)),
             VMessagePtr(OptionMap(c.azure, AzureMessage)),
             VMessagePtr(OptionMap(c.aws, AWSMessage))])
  }

  lemma TypedField(kinds: seq<Kind>, m: Message, i: nat)
    requires Typed(Numbered(kinds), m) && i < |kinds|
    ensures |m.vals| == |kinds| && TypedValue(kinds[i], m.vals[i])
  {
    hide Numbered, TypedValue;
    assert Numbered(kinds)[i].kind == kinds[i];
  }

  function KubernetesOf(m: Message): KubernetesAuthConfig
    requires Typed(KUBERNETES_AUTH_CONFIG_SCHEMA, m)
  {
    var kinds := [KString, KString, KBool];
    TypedField(kinds, m, 0);
    TypedField(kinds, m, 1);
    TypedField(kinds, m, 2);
    KubernetesAuthConfig(m.vals[0].s, m.vals[1].s, m.vals[2].b)
  }

  function AzureOf(m: Message): AzureAuthConfig
    requires Typed(AZURE_AUTH_CONFIG_SCHEMA, m)
  {
    var kinds := [KString, KString, KString, KString];
    TypedField(kinds, m, 0);
    TypedField(kinds, m, 1);
    TypedField(kinds, m, 2);
    TypedField(kinds, m, 3);
    AzureAuthConfig(m.vals[0].s, m.vals[1].s, m.vals[2].s, m.vals[3].s)
  }

  function AWSOf(m: Message): AWSAuthConfig
    requires Typed(AWS_AUTH_CONFIG_SCHEMA, m)
  {
    TypedField([KString], m, 0);
    AWSAuthConfig(m.vals[0].s)
  }

  function FromMessage(m: Message): VaultServerConfiguration
    requires Typed(VAULT_SERVER_CONFIGURATION_SCHEMA, m)
  {
    TypedSections(m);
    var k, az, aws := m.vals[2].mp, m.vals[3].mp, m.vals[4].mp;
    VaultServerConfiguration(m.vals[0].s, m.vals[1].s,
      if k.Some? then Some(KubernetesOf(k.value)) else None,
      if az.Some? then Some(AzureOf(az.value)) else None,
      if aws.Some? then Some(AWSOf(aws.value)) else None)
  }

  lemma TypedSections(m: Message)
    requires Typed(VAULT_SERVER_CONFIGURATION_SCHEMA, m)
    ensures |m.vals| == 5 && m.vals[0].VString? && m.vals[1].VString?
    ensures m.vals[2].VMessagePtr? && m.vals[3].VMessagePtr? && m.vals[4].VMessagePtr?
    ensures m.vals[2].mp.Some? ==> Typed(KUBERNETES_AUTH_CONFIG_SCHEMA, m.vals[2].mp.value)
    ensures m.vals[3].mp.Some? ==> Typed(AZURE_AUTH_CONFIG_SCHEMA, m.vals[3].mp.value)
    ensures m.vals[4].mp.Some? ==> Typed(AWS_AUTH_CONFIG_SCHEMA, m.vals[4].mp.value)
  {
    var kinds := [
      KString, KString, KMessagePtr(KUBERNETES_AUTH_CONFIG_SCHEMA),
      KMessagePtr(AZURE_AUTH_CONFIG_SCHEMA), KMessagePtr(AWS_AUTH_CONFIG_SCHEMA)];
    hide Numbered, Typed;
    TypedField(kinds, m, 0);
    TypedField(kinds, m, 1);
    TypedField(kinds, m, 2);
    TypedField(kinds, m, 3);
    TypedField(kinds, m, 4);
  }

  lemma FromTo(c: VaultServerConfiguration)
    ensures FromMessage(ToMessage(c)) == c
  {
    hide Numbered, Typed;
  }

  /** `c.Marshal()`. */
  function Wire(c: VaultServerConfiguration): seq<Byte> {
    Encode(VAULT_SERVER_CONFIGURATION_SCHEMA, ToMessage(c))
  }

  /** `target.Unmarshal(data)`. */
  function Parse(target: VaultServerConfiguration, data: seq<Byte>): Result<VaultServerConfiguration> {
    var m :- Decode(VAULT_SERVER_CONFIGURATION_SCHEMA, ToMessage(target), data, 0);
    Ok(FromMessage(m))
  }

  /** `VaultServerConfiguration{}`. */
  const EMPTY := VaultServerConfiguration([], [], None, None, None)

  lemma EmptyIsZero()
    ensures ToMessage(EMPTY) == Zero(VAULT_SERVER_CONFIGURATION_SCHEMA)
  {
    var z := Zero(VAULT_SERVER_CONFIGURATION_SCHEMA);
    var sch := VAULT_SERVER_CONFIGURATION_SCHEMA;
    assert z.vals[0] == ZeroValue(sch[0]) && z.vals[1] == ZeroValue(sch[1]);
    assert z.vals[2] == ZeroValue(sch[2]) && z.vals[3] == ZeroValue(sch[3]);
    assert z.vals[4] == ZeroValue(sch[4]);
    hide Numbered, Typed;
    assert ToMessage(EMPTY).vals == z.vals;
  }

  /** A configuration survives the wire, absent sections staying absent and empty sections
      staying present. */
  lemma ConfigRoundTrip(c: VaultServerConfiguration)
    requires |Wire(c)| < TWO_63
    ensures Parse(EMPTY, Wire(c)) == Ok(c)
  {
    hide Numbered, Typed, WellFormed, Encode, Decode, Zero;
    ConfigWellFormed();
    EmptyIsZero();
    FromTo(c);
    hide ToMessage, FromMessage;
    RoundTrip.DecodeInvertsEncode(VAULT_SERVER_CONFIGURATION_SCHEMA, ToMessage(c));
  }

  /** `later` over `earlier`: every section and string that `later` has wins. */
  function Override(earlier: VaultServerConfiguration, later: VaultServerConfiguration): VaultServerConfiguration {
    VaultServerConfiguration(later.path, later.vaultRole,
      if later.kubernetes.Some? then later.kubernetes else earlier.kubernetes,
      if later.azure.Some? then later.azure else earlier.azure,
      if later.aws.Some? then later.aws else earlier.aws)
  }

  lemma FlatMerge(kinds: seq<Kind>, x: Message, y: Message)
    requires forall i | 0 <= i < |kinds| :: kinds[i].KString? || kinds[i].KBool?
    requires Typed(Numbered(kinds), x) && Typed(Numbered(kinds), y)
    ensures Merge(Numbered(kinds), x, y) == y
  {
    hide Numbered;
    assert Merge(Numbered(kinds), x, y).vals == y.vals;
  }

  lemma MergedField(kinds: seq<Kind>, x: Message, y: Message, i: nat)
    requires Typed(Numbered(kinds), x) && Typed(Numbered(kinds), y) && i < |kinds|
    ensures |x.vals| == |y.vals| == |Merge(Numbered(kinds), x, y).vals| == |kinds|
    ensures TypedValue(kinds[i], x.vals[i]) && TypedValue(kinds[i], y.vals[i])
    ensures Merge(Numbered(kinds), x, y).vals[i] == MergeValue(kinds[i], x.vals[i], y.vals[i])
  {
    hide Numbered, TypedValue, MergeValue;
    assert Numbered(kinds)[i].kind == kinds[i];
  }

  /** A section of strings and flags replaces the one before it. */
  lemma MergeSection(kinds: seq<Kind>, x: Option<Message>, y: Option<Message>)
    requires forall i | 0 <= i < |kinds| :: kinds[i].KString? || kinds[i].KBool?
    requires x.Some? ==> Typed(Numbered(kinds), x.value)
    requires y.Some? ==> Typed(Numbered(kinds), y.value)
    ensures MergeValue(KMessagePtr(Numbered(kinds)), VMessagePtr(x), VMessagePtr(y)) ==
            VMessagePtr(if y.Some? then y else x)
  {
    hide Numbered, Typed, Merge;
    if y.Some? {
      FlatMerge(kinds, if x.Some? then x.value else Zero(Numbered(kinds)), y.value);
    }
  }

  lemma MergeIsOverride(a: VaultServerConfiguration, b: VaultServerConfiguration)
    ensures Merge(VAULT_SERVER_CONFIGURATION_SCHEMA, ToMessage(a), ToMessage(b)) == ToMessage(Override(a, b))
  {
    hide Numbered, Typed, Merge, KubernetesMessage, AzureMessage, AWSMessage;
    var kinds := [
      KString, KString, KMessagePtr(KUBERNETES_AUTH_CONFIG_SCHEMA),
      KMessagePtr(AZURE_AUTH_CONFIG_SCHEMA), KMessagePtr(AWS_AUTH_CONFIG_SCHEMA)];
    var x, y := ToMessage(a), ToMessage(b);
    var m := Merge(VAULT_SERVER_CONFIGURATION_SCHEMA, x, y);
    MergeSection([KString, KString, KBool], x.vals[2].mp, y.vals[2].mp);
    MergeSection([KString, KString, KString, KString], x.vals[3].mp, y.vals[3].mp);
    MergeSection([KString], x.vals[4].mp, y.vals[4].mp);
    forall i | 0 <= i < 5 ensures |m.vals| == 5 && m.vals[i] == ToMessage(Override(a, b)).vals[i] {
      MergedField(kinds, x, y, i);
    }
  }

  /** Two configurations one after the other on the wire: the last one wins. */
  lemma LastOneWins(a: VaultServerConfiguration, b: VaultServerConfiguration)
    requires |Wire(a)| < TWO_63 && |Wire(b)| < TWO_63
    ensures Parse(EMPTY, Wire(a) + Wire(b)) == Ok(Override(a, b))
  {
    hide Numbered, Typed, WellFormed, Encode, Decode, Zero;
    ConfigWellFormed();
    EmptyIsZero();
    FromTo(Override(a, b));
    hide ToMessage, FromMessage;
    RoundTrip.ConcatenationIsMerge(VAULT_SERVER_CONFIGURATION_SCHEMA, ToMessage(a), ToMessage(b));
    MergeIsOverride(a, b);
  }
}
