/** The wire forms of the messages, spelled out as bytes: which field goes under which tag, in
    which order, and how each kind of value is written. */
module WireForms {
  import opened Bits
  import opened Results
  import opened Varint
  import opened Messages
  import opened Schemas
  import opened VaultServerConfig
  import KM = KubeVaultMessages

  /** A length-delimited field. */
  function Str(tag: Byte, s: seq<Byte>): seq<Byte> {
    [tag] + EncodeVarint(|s|) + s
  }

  function OptStr(tag: Byte, s: Option<seq<Byte>>): seq<Byte> {
    if s.Some? then Str(tag, s.value) else []
  }

  function Strs(tag: Byte, ss: seq<seq<Byte>>): seq<Byte> {
    if ss == [] then [] else Str(tag, ss[0]) + Strs(tag, ss[1..])
  }

  function Flag(tag: Byte, b: bool): seq<Byte> {
    [tag, if b then 1 else 0]
  }

  /** A signed number, negative ones in two's complement of 64 bits. */
  function Number(tag: Byte, i: int): seq<Byte>
    requires -0x8000_0000_0000_0000 <= i < 0x8000_0000_0000_0000
  {
    [tag] + EncodeVarint(if i >= 0 then i else i + 0x1_0000_0000_0000_0000)
  }

  // ----- one field -----

  /** The value `v` of field `num` is written as `part`. */
  predicate Written(num: nat, kind: Kind, v: Value, part: seq<Byte>) {
    TypedValue(kind, v) && EncodeValue(Field(num, kind), v) == part
  }

  lemma ItemBytes(num: nat, item: Item)
    requires 1 <= num < 16
    ensures EncodeItems(num, [item]) == EncodeItem(num, item)
    ensures item.IBytes? ==> EncodeItem(num, item) == Str(num * 8 + 2, item.payload)
    ensures item.IVarint? ==> EncodeItem(num, item) == [num * 8] + EncodeVarint(item.v)
  {
    TagBytes(num, 0);
    TagBytes(num, 2);
    assert [item][1..] == [];
    hide EncodeVarint, Tag;
  }

  lemma StringBytes(num: nat, s: seq<Byte>)
    requires 1 <= num < 16
    ensures Written(num, KString, VString(s), Str(num * 8 + 2, s))
  {
    ItemBytes(num, IBytes(s));
    hide EncodeItem, EncodeItems, Str;
    assert TypedValue(KString, VString(s)) && EncodeValue(Field(num, KString), VString(s)) == Str(num * 8 + 2, s);
  }

  lemma OptBytes(num: nat, s: Option<seq<Byte>>)
    requires 1 <= num < 16
    ensures Written(num, KBytes, VBytes(s), OptStr(num * 8 + 2, s))
  {
    if s.Some? {
      ItemBytes(num, IBytes(s.value));
      hide EncodeItem, EncodeItems, Str;
    }
    assert TypedValue(KBytes, VBytes(s)) && EncodeValue(Field(num, KBytes), VBytes(s)) == OptStr(num * 8 + 2, s);
  }

  lemma BoolBytes(num: nat, b: bool)
    requires 1 <= num < 16
    ensures Written(num, KBool, VBool(b), Flag(num * 8, b))
  {
    ItemBytes(num, IVarint(if b then 1 else 0));
    assert EncodeVarint(if b then 1 else 0) == [if b then 1 else 0];
    hide EncodeItem, EncodeItems, EncodeVarint;
    assert TypedValue(KBool, VBool(b)) && EncodeValue(Field(num, KBool), VBool(b)) == Flag(num * 8, b);
  }

  lemma NumberBytes(num: nat, i: int)
    requires 1 <= num < 16 && -TWO_63 <= i < TWO_63
    ensures Written(num, KInt64, VInt64(i), Number(num * 8, i))
  {
    ItemBytes(num, IVarint(FromInt64(i)));
    assert FromInt64(i) == if i >= 0 then i else i + 0x1_0000_0000_0000_0000;
    hide EncodeItem, EncodeItems, EncodeVarint, FromInt64;
    assert TypedValue(KInt64, VInt64(i)) && EncodeValue(Field(num, KInt64), VInt64(i)) == Number(num * 8, i);
  }

  lemma PtrBytes(num: nat, p: Option<int>)
    requires 1 <= num < 16 && (p.Some? ==> -TWO_31 <= p.value < TWO_31)
    ensures Written(num, KInt32Ptr, VInt32Ptr(p), if p.Some? then Number(num * 8, p.value) else [])
  {
    if p.Some? {
      ItemBytes(num, IVarint(FromInt64(p.value)));
      assert FromInt64(p.value) == if p.value >= 0 then p.value else p.value + 0x1_0000_0000_0000_0000;
      hide EncodeItem, EncodeItems, EncodeVarint, FromInt64;
    }
    assert TypedValue(KInt32Ptr, VInt32Ptr(p)) && EncodeValue(Field(num, KInt32Ptr), VInt32Ptr(p)) ==
           if p.Some? then Number(num * 8, p.value) else [];
  }

  lemma MessageBytes(num: nat, sub: Schema, m: Message)
    requires 1 <= num < 16 && Typed(sub, m)
    ensures Written(num, KMessage(sub), VMessage(m), Str(num * 8 + 2, Encode(sub, m)))
  {
    ItemBytes(num, IBytes(Encode(sub, m)));
    hide EncodeItem, EncodeItems, Str, Encode;
    assert TypedValue(KMessage(sub), VMessage(m)) &&
           EncodeValue(Field(num, KMessage(sub)), VMessage(m)) == Str(num * 8 + 2, Encode(sub, m));
  }

  lemma MessagePtrBytes(num: nat, sub: Schema, m: Option<Message>)
    requires 1 <= num < 16 && (m.Some? ==> Typed(sub, m.value))
    ensures Written(num, KMessagePtr(sub), VMessagePtr(m), if m.Some? then Str(num * 8 + 2, Encode(sub, m.value)) else [])
  {
    if m.Some? {
      ItemBytes(num, IBytes(Encode(sub, m.value)));
      hide EncodeItem, EncodeItems, Str, Encode;
    }
    assert TypedValue(KMessagePtr(sub), VMessagePtr(m)) &&
           EncodeValue(Field(num, KMessagePtr(sub)), VMessagePtr(m)) ==
           if m.Some? then Str(num * 8 + 2, Encode(sub, m.value)) else [];
  }

  lemma {:induction false} StringItemsBytes(num: nat, ss: seq<seq<Byte>>)
    requires 1 <= num < 16
    ensures EncodeItems(num, StringItems(ss)) == Strs(num * 8 + 2, ss)
  {
    if ss != [] {
      ItemBytes(num, IBytes(ss[0]));
      StringItemsBytes(num, ss[1..]);
      assert StringItems(ss)[1..] == StringItems(ss[1..]);
      hide EncodeItem, Str;
    }
  }

  lemma StringsBytes(num: nat, ss: seq<seq<Byte>>)
    requires 1 <= num < 16
    ensures Written(num, KStrings, VStrings(ss), Strs(num * 8 + 2, ss))
  {
    StringItemsBytes(num, ss);
    hide EncodeItem, EncodeItems, StringItems, Strs;
    assert TypedValue(KStrings, VStrings(ss)) && EncodeValue(Field(num, KStrings), VStrings(ss)) == EncodeItems(num, StringItems(ss));
  }

  // ----- field after field -----

  lemma NumberedField(kinds: seq<Kind>, k: nat)
    requires k < |kinds|
    ensures |Numbered(kinds)| == |kinds| && Numbered(kinds)[k] == Field(k + 1, kinds[k])
  {
    hide Numbered;
  }

  /** Fields are written in the order of their numbers. */
  lemma NextField(kinds: seq<Kind>, m: Message, k: nat)
    requires Typed(Numbered(kinds), m) && k < |kinds|
    ensures |m.vals| == |kinds| && TypedValue(kinds[k], m.vals[k])
    ensures EncodeFrom(Numbered(kinds), m, k) ==
            EncodeValue(Field(k + 1, kinds[k]), m.vals[k]) + EncodeFrom(Numbered(kinds), m, k + 1)
  {
    NumberedField(kinds, k);
    hide Numbered, EncodeValue, TypedValue;
  }

  lemma NoMoreFields(kinds: seq<Kind>, m: Message)
    requires Typed(Numbered(kinds), m)
    ensures |m.vals| == |kinds| && EncodeFrom(Numbered(kinds), m, |kinds|) == []
    ensures Encode(Numbered(kinds), m) == EncodeFrom(Numbered(kinds), m, 0)
  {
    hide Numbered, TypedValue;
  }

  /** The bytes of the fields from index `k` on, one value after the other. */
  function Fields(kinds: seq<Kind>, vals: seq<Value>, k: nat): seq<Byte>
    requires |vals| == |kinds| && k <= |kinds| && forall i | 0 <= i < |kinds| :: TypedValue(kinds[i], vals[i])
    decreases |kinds| - k
  {
    if k == |kinds| then [] else EncodeValue(Field(k + 1, kinds[k]), vals[k]) + Fields(kinds, vals, k + 1)
  }

  lemma {:induction false} EncodeIsFields(kinds: seq<Kind>, m: Message, k: nat)
    requires |m.vals| == |kinds| && k <= |kinds| && forall i | 0 <= i < |kinds| :: TypedValue(kinds[i], m.vals[i])
    ensures Typed(Numbered(kinds), m)
    ensures EncodeFrom(Numbered(kinds), m, k) == Fields(kinds, m.vals, k)
    ensures Encode(Numbered(kinds), m) == EncodeFrom(Numbered(kinds), m, 0)
    decreases |kinds| - k
  {
    hide Numbered, EncodeValue, TypedValue;
    KM.NumberedTyped(kinds, m);
    NoMoreFields(kinds, m);
    if k < |kinds| {
      NextField(kinds, m, k);
      EncodeIsFields(kinds, m, k + 1);
    }
  }

  function Concat(parts: seq<seq<Byte>>): seq<Byte> {
    if parts == [] then [] else parts[0] + Concat(parts[1..])
  }

  lemma {:induction false} FieldsConcat(kinds: seq<Kind>, vals: seq<Value>, parts: seq<seq<Byte>>, k: nat)
    requires |vals| == |kinds| == |parts| && k <= |kinds| && forall i | 0 <= i < |kinds| :: TypedValue(kinds[i], vals[i])
    requires forall i | 0 <= i < |kinds| :: EncodeValue(Field(i + 1, kinds[i]), vals[i]) == parts[i]
    ensures Fields(kinds, vals, k) == Concat(parts[k..])
    decreases |kinds| - k
  {
    hide EncodeValue, TypedValue;
    if k < |kinds| {
      FieldsConcat(kinds, vals, parts, k + 1);
      assert parts[k..][1..] == parts[k + 1..];
    }
  }

  /** A message whose fields are written as `parts`. */
  lemma MessageIs(kinds: seq<Kind>, m: Message, parts: seq<seq<Byte>>)
    requires |m.vals| == |kinds| == |parts|
    requires forall i | 0 <= i < |kinds| :: Written(i + 1, kinds[i], m.vals[i], parts[i])
    ensures Typed(Numbered(kinds), m) && Encode(Numbered(kinds), m) == Concat(parts)
  {
    hide EncodeValue, TypedValue;
    assert forall i | 0 <= i < |kinds| :: TypedValue(kinds[i], m.vals[i]);
    EncodeIsFields(kinds, m, 0);
    FieldsConcat(kinds, m.vals, parts, 0);
    assert parts[0..] == parts;
  }

  // ----- the config package -----

  /** KubernetesAuthConfig. */
  lemma KubernetesWire(serviceAccount: seq<Byte>, tokenReviewer: seq<Byte>, usePod: bool)
    ensures var m := Message([
      VString(serviceAccount), VString(tokenReviewer), VBool(usePod)]);
      Typed(KUBERNETES_AUTH_CONFIG_SCHEMA, m) && Encode(KUBERNETES_AUTH_CONFIG_SCHEMA, m) == Concat([
        Str(0x0A, serviceAccount), Str(0x12, tokenReviewer), Flag(0x18, usePod)])
  {
    hide Numbered, Typed, TypedValue, Encode, EncodeFrom, EncodeValue, EncodeItems, EncodeVarint;
    hide Concat, Written, Str, OptStr, Strs, Flag, Number;
    var kinds := [
      KString, KString, KBool];
    var m := Message([
      VString(serviceAccount), VString(tokenReviewer), VBool(usePod)]);
    var parts := [
      Str(0x0A, serviceAccount), Str(0x12, tokenReviewer), Flag(0x18, usePod)];
    StringBytes(1, serviceAccount);
    StringBytes(2, tokenReviewer);
    BoolBytes(3, usePod);
    assert Written(1, kinds[0], m.vals[0], parts[0]);
    assert Written(2, kinds[1], m.vals[1], parts[1]);
    assert Written(3, kinds[2], m.vals[2], parts[2]);
    MessageIs(kinds, m, parts);
  }

  /** AzureAuthConfig. */
  lemma AzureWire(subscription: seq<Byte>, resourceGroup: seq<Byte>, vm: seq<Byte>, vmss: seq<Byte>)
    ensures var m := Message([
      VString(subscription), VString(resourceGroup), VString(vm), VString(vmss)]);
      Typed(AZURE_AUTH_CONFIG_SCHEMA, m) && Encode(AZURE_AUTH_CONFIG_SCHEMA, m) == Concat([
        Str(0x0A, subscription), Str(0x12, resourceGroup), Str(0x1A, vm), Str(0x22, vmss)])
  {
    hide Numbered, Typed, TypedValue, Encode, EncodeFrom, EncodeValue, EncodeItems, EncodeVarint;
    hide Concat, Written, Str, OptStr, Strs, Flag, Number;
    var kinds := [
      KString, KString, KString, KString];
    var m := Message([
      VString(subscription), VString(resourceGroup), VString(vm), VString(vmss)]);
    var parts := [
      Str(0x0A, subscription), Str(0x12, resourceGroup), Str(0x1A, vm), Str(0x22, vmss)];
    StringBytes(1, subscription);
    StringBytes(2, resourceGroup);
    StringBytes(3, vm);
    StringBytes(4, vmss);
    assert Written(1, kinds[0], m.vals[0], parts[0]);
    assert Written(2, kinds[1], m.vals[1], parts[1]);
    assert Written(3, kinds[2], m.vals[2], parts[2]);
    assert Written(4, kinds[3], m.vals[3], parts[3]);
    MessageIs(kinds, m, parts);
  }

  /** AWSAuthConfig. */
  lemma AWSWire(header: seq<Byte>)
    ensures var m := Message([VString(header)]);
      Typed(AWS_AUTH_CONFIG_SCHEMA, m) && Encode(AWS_AUTH_CONFIG_SCHEMA, m) == Concat([Str(0x0A, header)])
  {
    hide Numbered, Typed, TypedValue, Encode, EncodeFrom, EncodeValue, EncodeItems, EncodeVarint;
    hide Concat, Written, Str, OptStr, Strs, Flag, Number;
    var kinds := [KString];
    var m := Message([VString(header)]);
    var parts := [Str(0x0A, header)];
    StringBytes(1, header);
    assert Written(1, kinds[0], m.vals[0], parts[0]);
    MessageIs(kinds, m, parts);
  }

  function KubernetesBytes(k: KubernetesAuthConfig): seq<Byte> {
    Concat([Str(0x0A, k.serviceAccountName), Str(0x12, k.tokenReviewerServiceAccountName),
            Flag(0x18, k.usePodServiceAccountForCSIDriver)])
  }

  function AzureBytes(a: AzureAuthConfig): seq<Byte> {
    Concat([Str(0x0A, a.subscriptionID), Str(0x12, a.resourceGroupName), Str(0x1A, a.vmName), Str(0x22, a.vmssName)])
  }

  function AWSBytes(a: AWSAuthConfig): seq<Byte> {
    Concat([Str(0x0A, a.headerValue)])
  }

  /** A configuration on the wire: path and role, always, and then the sections that are there. */
  lemma ConfigWire(c: VaultServerConfiguration)
    ensures Wire(c) == Concat([
      Str(0x0A, c.path), Str(0x12, c.vaultRole),
      if c.kubernetes.Some? then Str(0x1A, KubernetesBytes(c.kubernetes.value)) else [],
      if c.azure.Some? then Str(0x22, AzureBytes(c.azure.value)) else [],
      if c.aws.Some? then Str(0x2A, AWSBytes(c.aws.value)) else []])
  {
    hide Numbered, Typed, TypedValue, Encode, EncodeFrom, EncodeValue, EncodeItems, EncodeVarint;
    hide Concat, Written, Str, OptStr, Strs, Flag, Number;
    var kinds := [
      KString, KString, KMessagePtr(KUBERNETES_AUTH_CONFIG_SCHEMA),
      KMessagePtr(AZURE_AUTH_CONFIG_SCHEMA), KMessagePtr(AWS_AUTH_CONFIG_SCHEMA)];
    var m := ToMessage(c);
    var parts := [
      Str(0x0A, c.path), Str(0x12, c.vaultRole),
      if c.kubernetes.Some? then Str(0x1A, KubernetesBytes(c.kubernetes.value)) else [],
      if c.azure.Some? then Str(0x22, AzureBytes(c.azure.value)) else [],
      if c.aws.Some? then Str(0x2A, AWSBytes(c.aws.value)) else []];
    StringBytes(1, c.path);
    StringBytes(2, c.vaultRole);
    SectionBytes(c);
    assert Written(1, kinds[0], m.vals[0], parts[0]);
    assert Written(2, kinds[1], m.vals[1], parts[1]);
    assert Written(3, kinds[2], m.vals[2], parts[2]);
    assert Written(4, kinds[3], m.vals[3], parts[3]);
    assert Written(5, kinds[4], m.vals[4], parts[4]);
    MessageIs(kinds, m, parts);
  }

  lemma SectionBytes(c: VaultServerConfiguration)
    ensures var vals := ToMessage(c).vals;
      && Written(3, KMessagePtr(KUBERNETES_AUTH_CONFIG_SCHEMA), vals[2],
                 if c.kubernetes.Some? then Str(0x1A, KubernetesBytes(c.kubernetes.value)) else [])
      && Written(4, KMessagePtr(AZURE_AUTH_CONFIG_SCHEMA), vals[3],
                 if c.azure.Some? then Str(0x22, AzureBytes(c.azure.value)) else [])
      && Written(5, KMessagePtr(AWS_AUTH_CONFIG_SCHEMA), vals[4],
                 if c.aws.Some? then Str(0x2A, AWSBytes(c.aws.value)) else [])
  {
    hide Numbered, Typed, TypedValue, Encode, EncodeFrom, EncodeValue, EncodeItems, EncodeVarint;
    hide Concat, Written, Str, OptStr, Strs, Flag, Number;
    var vals := ToMessage(c).vals;
    MessagePtrBytes(3, KUBERNETES_AUTH_CONFIG_SCHEMA, vals[2].mp);
    MessagePtrBytes(4, AZURE_AUTH_CONFIG_SCHEMA, vals[3].mp);
    MessagePtrBytes(5, AWS_AUTH_CONFIG_SCHEMA, vals[4].mp);
    if c.kubernetes.Some? {
      var k := c.kubernetes.value;
      KubernetesWire(k.serviceAccountName, k.tokenReviewerServiceAccountName, k.usePodServiceAccountForCSIDriver);
    }
    if c.azure.Some? {
      var a := c.azure.value;
      AzureWire(a.subscriptionID, a.resourceGroupName, a.vmName, a.vmssName);
    }
    if c.aws.Some? {
      AWSWire(c.aws.value.headerValue);
    }
  }

  // ----- the catalog package -----

  /** VaultServerVersionVault and the other two images. */
  lemma ImageWire(image: seq<Byte>)
    ensures var m := Message([VString(image)]);
      Typed(IMAGE_SCHEMA, m) && Encode(IMAGE_SCHEMA, m) == Concat([Str(0x0A, image)])
  {
    hide Numbered, Typed, TypedValue, Encode, EncodeFrom, EncodeValue, EncodeItems, EncodeVarint;
    hide Concat, Written, Str, OptStr, Strs, Flag, Number;
    var kinds := [KString];
    var m := Message([VString(image)]);
    var parts := [Str(0x0A, image)];
    StringBytes(1, image);
    assert Written(1, kinds[0], m.vals[0], parts[0]);
    MessageIs(kinds, m, parts);
  }

  /** VaultServerVersionSpec. */
  lemma VersionWire(version: seq<Byte>, vault: seq<Byte>, unsealer: seq<Byte>, exporter: seq<Byte>, deprecated: bool)
    ensures var m := Message([
      VString(version), VMessage(Message([VString(vault)])), VMessage(Message([VString(unsealer)])),
      VMessage(Message([VString(exporter)])), VBool(deprecated)]);
      Typed(VAULT_SERVER_VERSION_SPEC_SCHEMA, m) && Encode(VAULT_SERVER_VERSION_SPEC_SCHEMA, m) == Concat([
        Str(0x0A, version), Str(0x12, Concat([Str(0x0A, vault)])),
        Str(0x1A, Concat([Str(0x0A, unsealer)])), Str(0x22, Concat([Str(0x0A, exporter)])),
        Flag(0x28, deprecated)])
  {
    hide Numbered, Typed, TypedValue, Encode, EncodeFrom, EncodeValue, EncodeItems, EncodeVarint;
    hide Concat, Written, Str, OptStr, Strs, Flag, Number;
    ImageWire(vault);
    ImageWire(unsealer);
    ImageWire(exporter);
    var kinds := [
      KString, KMessage(IMAGE_SCHEMA), KMessage(IMAGE_SCHEMA), KMessage(IMAGE_SCHEMA), KBool];
    var m := Message([
      VString(version), VMessage(Message([VString(vault)])), VMessage(Message([VString(unsealer)])),
      VMessage(Message([VString(exporter)])), VBool(deprecated)]);
    var parts := [
      Str(0x0A, version), Str(0x12, Concat([Str(0x0A, vault)])),
      Str(0x1A, Concat([Str(0x0A, unsealer)])), Str(0x22, Concat([Str(0x0A, exporter)])),
      Flag(0x28, deprecated)];
    StringBytes(1, version);
    MessageBytes(2, IMAGE_SCHEMA, Message([VString(vault)]));
    MessageBytes(3, IMAGE_SCHEMA, Message([VString(unsealer)]));
    MessageBytes(4, IMAGE_SCHEMA, Message([VString(exporter)]));
    BoolBytes(5, deprecated);
    assert Written(1, kinds[0], m.vals[0], parts[0]);
    assert Written(2, kinds[1], m.vals[1], parts[1]);
    assert Written(3, kinds[2], m.vals[2], parts[2]);
    assert Written(4, kinds[3], m.vals[3], parts[3]);
    assert Written(5, kinds[4], m.vals[4], parts[4]);
    MessageIs(kinds, m, parts);
  }

  // ----- the kubevault package -----

  /** AuthConfig: repeated strings in their order. */
  lemma AuthConfigWire(
    defaultTTL: seq<Byte>, maxTTL: seq<Byte>, plugin: seq<Byte>, requestKeys: seq<seq<Byte>>, responseKeys: seq<seq<Byte>>, visibility: seq<Byte>,
    headers: seq<seq<Byte>>)
    ensures var m := Message([
      VString(defaultTTL), VString(maxTTL), VString(plugin), VStrings(requestKeys),
      VStrings(responseKeys), VString(visibility), VStrings(headers)]);
      Typed(AUTH_CONFIG_SCHEMA, m) && Encode(AUTH_CONFIG_SCHEMA, m) == Concat([
        Str(0x0A, defaultTTL), Str(0x12, maxTTL), Str(0x1A, plugin), Strs(0x22, requestKeys),
        Strs(0x2A, responseKeys), Str(0x32, visibility), Strs(0x3A, headers)])
  {
    hide Numbered, Typed, TypedValue, Encode, EncodeFrom, EncodeValue, EncodeItems, EncodeVarint;
    hide Concat, Written, Str, OptStr, Strs, Flag, Number;
    var kinds := [
      KString, KString, KString, KStrings, KStrings, KString, KStrings];
    var m := Message([
      VString(defaultTTL), VString(maxTTL), VString(plugin), VStrings(requestKeys),
      VStrings(responseKeys), VString(visibility), VStrings(headers)]);
    var parts := [
      Str(0x0A, defaultTTL), Str(0x12, maxTTL), Str(0x1A, plugin), Strs(0x22, requestKeys),
      Strs(0x2A, responseKeys), Str(0x32, visibility), Strs(0x3A, headers)];
    StringBytes(1, defaultTTL);
    StringBytes(2, maxTTL);
    StringBytes(3, plugin);
    StringsBytes(4, requestKeys);
    StringsBytes(5, responseKeys);
    StringBytes(6, visibility);
    StringsBytes(7, headers);
    assert Written(1, kinds[0], m.vals[0], parts[0]);
    assert Written(2, kinds[1], m.vals[1], parts[1]);
    assert Written(3, kinds[2], m.vals[2], parts[2]);
    assert Written(4, kinds[3], m.vals[3], parts[3]);
    assert Written(5, kinds[4], m.vals[4], parts[4]);
    assert Written(6, kinds[5], m.vals[5], parts[5]);
    assert Written(7, kinds[6], m.vals[6], parts[6]);
    MessageIs(kinds, m, parts);
  }

  /** AuthMethod, with or without a configuration. */
  lemma AuthMethodWire(typ: seq<Byte>, path: seq<Byte>, description: seq<Byte>, config: Option<Message>,
                       plugin: seq<Byte>, isLocal: bool)
    requires config.Some? ==> Typed(AUTH_CONFIG_SCHEMA, config.value)
    ensures var m := Message([
      VString(typ), VString(path), VString(description), VMessagePtr(config), VString(plugin), VBool(isLocal)]);
      Typed(AUTH_METHOD_SCHEMA, m) && Encode(AUTH_METHOD_SCHEMA, m) == Concat([
        Str(0x0A, typ), Str(0x12, path), Str(0x1A, description),
        if config.Some? then Str(0x22, Encode(AUTH_CONFIG_SCHEMA, config.value)) else [],
        Str(0x2A, plugin), Flag(0x30, isLocal)])
  {
    hide Numbered, Typed, TypedValue, Encode, EncodeFrom, EncodeValue, EncodeItems, EncodeVarint;
    hide Concat, Written, Str, OptStr, Strs, Flag, Number;
    var kinds := [KString, KString, KString, KMessagePtr(AUTH_CONFIG_SCHEMA), KString, KBool];
    var m := Message([
      VString(typ), VString(path), VString(description), VMessagePtr(config), VString(plugin), VBool(isLocal)]);
    var parts := [
      Str(0x0A, typ), Str(0x12, path), Str(0x1A, description),
      if config.Some? then Str(0x22, Encode(AUTH_CONFIG_SCHEMA, config.value)) else [],
      Str(0x2A, plugin), Flag(0x30, isLocal)];
    StringBytes(1, typ);
    StringBytes(2, path);
    StringBytes(3, description);
    MessagePtrBytes(4, AUTH_CONFIG_SCHEMA, config);
    StringBytes(5, plugin);
    BoolBytes(6, isLocal);
    assert Written(1, kinds[0], m.vals[0], parts[0]);
    assert Written(2, kinds[1], m.vals[1], parts[1]);
    assert Written(3, kinds[2], m.vals[2], parts[2]);
    assert Written(4, kinds[3], m.vals[3], parts[3]);
    assert Written(5, kinds[4], m.vals[4], parts[4]);
    assert Written(6, kinds[5], m.vals[5], parts[5]);
    MessageIs(kinds, m, parts);
  }

  /** TLSPolicy: a nil bundle is not written, an empty one is. */
  lemma TLSPolicyWire(tlsSecret: seq<Byte>, bundle: Option<seq<Byte>>)
    ensures var m := Message([
      VString(tlsSecret), VBytes(bundle)]);
      Typed(TLS_POLICY_SCHEMA, m) && Encode(TLS_POLICY_SCHEMA, m) == Concat([
        Str(0x0A, tlsSecret), OptStr(0x12, bundle)])
  {
    hide Numbered, Typed, TypedValue, Encode, EncodeFrom, EncodeValue, EncodeItems, EncodeVarint;
    hide Concat, Written, Str, OptStr, Strs, Flag, Number;
    var kinds := [
      KString, KBytes];
    var m := Message([
      VString(tlsSecret), VBytes(bundle)]);
    var parts := [
      Str(0x0A, tlsSecret), OptStr(0x12, bundle)];
    StringBytes(1, tlsSecret);
    OptBytes(2, bundle);
    assert Written(1, kinds[0], m.vals[0], parts[0]);
    assert Written(2, kinds[1], m.vals[1], parts[1]);
    MessageIs(kinds, m, parts);
  }

  /** VaultStatus. */
  lemma VaultStatusWire(active: seq<Byte>, standby: seq<seq<Byte>>, isSealed: seq<seq<Byte>>, unsealed: seq<seq<Byte>>)
    ensures var m := Message([
      VString(active), VStrings(standby), VStrings(isSealed), VStrings(unsealed)]);
      Typed(VAULT_STATUS_SCHEMA, m) && Encode(VAULT_STATUS_SCHEMA, m) == Concat([
        Str(0x0A, active), Strs(0x12, standby), Strs(0x1A, isSealed), Strs(0x22, unsealed)])
  {
    hide Numbered, Typed, TypedValue, Encode, EncodeFrom, EncodeValue, EncodeItems, EncodeVarint;
    hide Concat, Written, Str, OptStr, Strs, Flag, Number;
    var kinds := [
      KString, KStrings, KStrings, KStrings];
    var m := Message([
      VString(active), VStrings(standby), VStrings(isSealed), VStrings(unsealed)]);
    var parts := [
      Str(0x0A, active), Strs(0x12, standby), Strs(0x1A, isSealed), Strs(0x22, unsealed)];
    StringBytes(1, active);
    StringsBytes(2, standby);
    StringsBytes(3, isSealed);
    StringsBytes(4, unsealed);
    assert Written(1, kinds[0], m.vals[0], parts[0]);
    assert Written(2, kinds[1], m.vals[1], parts[1]);
    assert Written(3, kinds[2], m.vals[2], parts[2]);
    assert Written(4, kinds[3], m.vals[3], parts[3]);
    MessageIs(kinds, m, parts);
  }

  /** The head of VaultServerSpec: a nil number of replicas is not written. */
  lemma SpecHeadWire(replicas: Option<int>, version: seq<Byte>)
    requires replicas.Some? ==> -0x8000_0000 <= replicas.value < 0x8000_0000
    ensures var m := Message([VInt32Ptr(replicas), VString(version)]);
      Typed(VAULT_SERVER_SPEC_HEAD_SCHEMA, m) && Encode(VAULT_SERVER_SPEC_HEAD_SCHEMA, m) == Concat([
        if replicas.Some? then Number(0x08, replicas.value) else [], Str(0x12, version)])
  {
    hide Numbered, Typed, TypedValue, Encode, EncodeFrom, EncodeValue, EncodeItems, EncodeVarint;
    hide Concat, Written, Str, OptStr, Strs, Flag, Number;
    var kinds := [KInt32Ptr, KString];
    var m := Message([VInt32Ptr(replicas), VString(version)]);
    var parts := [if replicas.Some? then Number(0x08, replicas.value) else [], Str(0x12, version)];
    PtrBytes(1, replicas);
    StringBytes(2, version);
    assert Written(1, kinds[0], m.vals[0], parts[0]);
    assert Written(2, kinds[1], m.vals[1], parts[1]);
    MessageIs(kinds, m, parts);
  }

  function GoogleBytes(g: KM.GoogleKmsGcs): seq<Byte> {
    Concat([Str(0x0A, g.kmsCryptoKey), Str(0x12, g.kmsKeyRing), Str(0x1A, g.kmsLocation), Str(0x22, g.kmsProject),
            Str(0x2A, g.bucket), Str(0x32, g.credentialSecret)])
  }

  function AwsKmsBytes(a: KM.AwsKmsSsm): seq<Byte> {
    Concat([Str(0x0A, a.kmsKeyID), Str(0x12, a.ssmKeyPrefix), Str(0x1A, a.region), Str(0x22, a.credentialSecret),
            Str(0x2A, a.endpoint)])
  }

  function AzureKeyVaultBytes(a: KM.AzureKeyVault): seq<Byte> {
    Concat([Str(0x0A, a.vaultBaseURL), Str(0x12, a.cloud), Str(0x1A, a.tenantID), Str(0x22, a.clientCertSecret),
            Str(0x2A, a.aadClientSecret), Flag(0x30, a.useManagedIdentity)])
  }

  function ModeBytes(m: KM.ModeSpec): seq<Byte> {
    Concat([
      if m.kubernetesSecret.Some? then Str(0x0A, Concat([Str(0x0A, m.kubernetesSecret.value)])) else [],
      if m.googleKmsGcs.Some? then Str(0x12, GoogleBytes(m.googleKmsGcs.value)) else [],
      if m.awsKmsSsm.Some? then Str(0x1A, AwsKmsBytes(m.awsKmsSsm.value)) else [],
      if m.azureKeyVault.Some? then Str(0x22, AzureKeyVaultBytes(m.azureKeyVault.value)) else []])
  }

  lemma GoogleWire(g: KM.GoogleKmsGcs)
    ensures Typed(GOOGLE_KMS_GCS_SCHEMA, KM.GoogleMessage(g))
    ensures Encode(GOOGLE_KMS_GCS_SCHEMA, KM.GoogleMessage(g)) == GoogleBytes(g)
  {
    hide Numbered, Typed, TypedValue, Encode, EncodeFrom, EncodeValue, EncodeItems, EncodeVarint;
    hide Concat, Written, Str, OptStr, Strs, Flag, Number;
    var kinds := [KString, KString, KString, KString, KString, KString];
    var parts := [
      Str(0x0A, g.kmsCryptoKey),
      Str(0x12, g.kmsKeyRing),
      Str(0x1A, g.kmsLocation),
      Str(0x22, g.kmsProject),
      Str(0x2A, g.bucket),
      Str(0x32, g.credentialSecret)];
    StringBytes(1, g.kmsCryptoKey);
    StringBytes(2, g.kmsKeyRing);
    StringBytes(3, g.kmsLocation);
    StringBytes(4, g.kmsProject);
    StringBytes(5, g.bucket);
    StringBytes(6, g.credentialSecret);
    var m := KM.GoogleMessage(g);
    assert Written(1, kinds[0], m.vals[0], parts[0]);
    assert Written(2, kinds[1], m.vals[1], parts[1]);
    assert Written(3, kinds[2], m.vals[2], parts[2]);
    assert Written(4, kinds[3], m.vals[3], parts[3]);
    assert Written(5, kinds[4], m.vals[4], parts[4]);
    assert Written(6, kinds[5], m.vals[5], parts[5]);
    MessageIs(kinds, m, parts);
  }

  lemma AwsKmsWire(a: KM.AwsKmsSsm)
    ensures Typed(AWS_KMS_SSM_SCHEMA, KM.AwsMessage(a))
    ensures Encode(AWS_KMS_SSM_SCHEMA, KM.AwsMessage(a)) == AwsKmsBytes(a)
  {
    hide Numbered, Typed, TypedValue, Encode, EncodeFrom, EncodeValue, EncodeItems, EncodeVarint;
    hide Concat, Written, Str, OptStr, Strs, Flag, Number;
    var kinds := [KString, KString, KString, KString, KString];
    var parts := [
      Str(0x0A, a.kmsKeyID),
      Str(0x12, a.ssmKeyPrefix),
      Str(0x1A, a.region),
      Str(0x22, a.credentialSecret),
      Str(0x2A, a.endpoint)];
    StringBytes(1, a.kmsKeyID);
    StringBytes(2, a.ssmKeyPrefix);
    StringBytes(3, a.region);
    StringBytes(4, a.credentialSecret);
    StringBytes(5, a.endpoint);
    var m := KM.AwsMessage(a);
    assert Written(1, kinds[0], m.vals[0], parts[0]);
    assert Written(2, kinds[1], m.vals[1], parts[1]);
    assert Written(3, kinds[2], m.vals[2], parts[2]);
    assert Written(4, kinds[3], m.vals[3], parts[3]);
    assert Written(5, kinds[4], m.vals[4], parts[4]);
    MessageIs(kinds, m, parts);
  }

  lemma AzureKeyVaultWire(a: KM.AzureKeyVault)
    ensures Typed(AZURE_KEY_VAULT_SCHEMA, KM.AzureMessage(a))
    ensures Encode(AZURE_KEY_VAULT_SCHEMA, KM.AzureMessage(a)) == AzureKeyVaultBytes(a)
  {
    hide Numbered, Typed, TypedValue, Encode, EncodeFrom, EncodeValue, EncodeItems, EncodeVarint;
    hide Concat, Written, Str, OptStr, Strs, Flag, Number;
    var kinds := [KString, KString, KString, KString, KString, KBool];
    var parts := [
      Str(0x0A, a.vaultBaseURL),
      Str(0x12, a.cloud),
      Str(0x1A, a.tenantID),
      Str(0x22, a.clientCertSecret),
      Str(0x2A, a.aadClientSecret),
      Flag(0x30, a.useManagedIdentity)];
    StringBytes(1, a.vaultBaseURL);
    StringBytes(2, a.cloud);
    StringBytes(3, a.tenantID);
    StringBytes(4, a.clientCertSecret);
    StringBytes(5, a.aadClientSecret);
    BoolBytes(6, a.useManagedIdentity);
    var m := KM.AzureMessage(a);
    assert Written(1, kinds[0], m.vals[0], parts[0]);
    assert Written(2, kinds[1], m.vals[1], parts[1]);
    assert Written(3, kinds[2], m.vals[2], parts[2]);
    assert Written(4, kinds[3], m.vals[3], parts[3]);
    assert Written(5, kinds[4], m.vals[4], parts[4]);
    assert Written(6, kinds[5], m.vals[5], parts[5]);
    MessageIs(kinds, m, parts);
  }

  lemma KubernetesSecretWire(name: seq<Byte>)
    ensures Typed(KUBERNETES_SECRET_SCHEMA, Message([VString(name)]))
    ensures Encode(KUBERNETES_SECRET_SCHEMA, Message([VString(name)])) == Concat([Str(0x0A, name)])
  {
    hide Numbered;
    StringBytes(1, name);
    MessageIs([KString], Message([VString(name)]), [Str(0x0A, name)]);
  }

  /** ModeSpec: the modes that are there. */
  lemma ModeWire(m: KM.ModeSpec)
    ensures Typed(MODE_SPEC_SCHEMA, KM.ModeMessage(m))
    ensures Encode(MODE_SPEC_SCHEMA, KM.ModeMessage(m)) == ModeBytes(m)
  {
    hide Numbered, Typed, TypedValue, Encode, EncodeFrom, EncodeValue, EncodeItems, EncodeVarint;
    hide Concat, Written, Str, OptStr, Strs, Flag, Number;
    var kinds := [
      KMessagePtr(KUBERNETES_SECRET_SCHEMA), KMessagePtr(GOOGLE_KMS_GCS_SCHEMA),
      KMessagePtr(AWS_KMS_SSM_SCHEMA), KMessagePtr(AZURE_KEY_VAULT_SCHEMA)];
    var parts := [
      if m.kubernetesSecret.Some? then Str(0x0A, Concat([Str(0x0A, m.kubernetesSecret.value)])) else [],
      if m.googleKmsGcs.Some? then Str(0x12, GoogleBytes(m.googleKmsGcs.value)) else [],
      if m.awsKmsSsm.Some? then Str(0x1A, AwsKmsBytes(m.awsKmsSsm.value)) else [],
      if m.azureKeyVault.Some? then Str(0x22, AzureKeyVaultBytes(m.azureKeyVault.value)) else []];
    ModeParts(m);
    var m := KM.ModeMessage(m);
    assert Written(1, kinds[0], m.vals[0], parts[0]);
    assert Written(2, kinds[1], m.vals[1], parts[1]);
    assert Written(3, kinds[2], m.vals[2], parts[2]);
    assert Written(4, kinds[3], m.vals[3], parts[3]);
    MessageIs(kinds, m, parts);
  }

  lemma ModeParts(m: KM.ModeSpec)
    ensures var vals := KM.ModeMessage(m).vals;
      && Written(1, KMessagePtr(KUBERNETES_SECRET_SCHEMA), vals[0],
                 if m.kubernetesSecret.Some? then Str(0x0A, Concat([Str(0x0A, m.kubernetesSecret.value)])) else [])
      && Written(2, KMessagePtr(GOOGLE_KMS_GCS_SCHEMA), vals[1],
                 if m.googleKmsGcs.Some? then Str(0x12, GoogleBytes(m.googleKmsGcs.value)) else [])
      && Written(3, KMessagePtr(AWS_KMS_SSM_SCHEMA), vals[2],
                 if m.awsKmsSsm.Some? then Str(0x1A, AwsKmsBytes(m.awsKmsSsm.value)) else [])
      && Written(4, KMessagePtr(AZURE_KEY_VAULT_SCHEMA), vals[3],
                 if m.azureKeyVault.Some? then Str(0x22, AzureKeyVaultBytes(m.azureKeyVault.value)) else [])
  {
    hide Numbered, Typed, TypedValue, Encode, EncodeFrom, EncodeValue, EncodeItems, EncodeVarint;
    hide Concat, Written, Str, OptStr, Strs, Flag, Number;
    hide GoogleBytes, AwsKmsBytes, AzureKeyVaultBytes;
    var vals := KM.ModeMessage(m).vals;
    if m.kubernetesSecret.Some? { KubernetesSecretWire(m.kubernetesSecret.value); }
    if m.googleKmsGcs.Some? { GoogleWire(m.googleKmsGcs.value); }
    if m.awsKmsSsm.Some? { AwsKmsWire(m.awsKmsSsm.value); }
    if m.azureKeyVault.Some? { AzureKeyVaultWire(m.azureKeyVault.value); }
    MessagePtrBytes(1, KUBERNETES_SECRET_SCHEMA, vals[0].mp);
    MessagePtrBytes(2, GOOGLE_KMS_GCS_SCHEMA, vals[1].mp);
    MessagePtrBytes(3, AWS_KMS_SSM_SCHEMA, vals[2].mp);
    MessagePtrBytes(4, AZURE_KEY_VAULT_SCHEMA, vals[3].mp);
  }

  /** UnsealerSpec: the numbers in two's complement, both flags and the mode always. */
  lemma UnsealerWire(u: KM.UnsealerSpec)
    ensures Typed(UNSEALER_SPEC_SCHEMA, KM.UnsealerMessage(u))
    ensures Encode(UNSEALER_SPEC_SCHEMA, KM.UnsealerMessage(u)) == Concat([
      Number(0x08, u.secretShares), Number(0x10, u.secretThreshold), Number(0x18, u.retryPeriod),
      Flag(0x20, u.overwriteExisting), Flag(0x28, u.storeRootToken), Str(0x32, ModeBytes(u.mode))])
  {
    hide Numbered, Typed, TypedValue, Encode, EncodeFrom, EncodeValue, EncodeItems, EncodeVarint;
    hide Concat, Written, Str, OptStr, Strs, Flag, Number;
    var kinds := [KInt64, KInt64, KInt64, KBool, KBool, KMessage(MODE_SPEC_SCHEMA)];
    var parts := [
      Number(0x08, u.secretShares), Number(0x10, u.secretThreshold), Number(0x18, u.retryPeriod),
      Flag(0x20, u.overwriteExisting), Flag(0x28, u.storeRootToken), Str(0x32, ModeBytes(u.mode))];
    ModeWire(u.mode);
        NumberBytes(1, u.secretShares);
    NumberBytes(2, u.secretThreshold);
    NumberBytes(3, u.retryPeriod);
    BoolBytes(4, u.overwriteExisting);
    BoolBytes(5, u.storeRootToken);
    MessageBytes(6, MODE_SPEC_SCHEMA, KM.ModeMessage(u.mode));
    var m := KM.UnsealerMessage(u);
    assert Written(1, kinds[0], m.vals[0], parts[0]);
    assert Written(2, kinds[1], m.vals[1], parts[1]);
    assert Written(3, kinds[2], m.vals[2], parts[2]);
    assert Written(4, kinds[3], m.vals[3], parts[3]);
    assert Written(5, kinds[4], m.vals[4], parts[4]);
    assert Written(6, kinds[5], m.vals[5], parts[5]);
    MessageIs(kinds, m, parts);
  }
}
