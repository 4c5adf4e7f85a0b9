# KubeVault operator: wire codec and controllers in Dafny

The project models two parts of the KubeVault operator and proves what they promise.

**The protobuf wire codec** of the API packages. A message type is a schema, a message a list
of values, and every generated `Size`, `MarshalToSizedBuffer` and `Unmarshal` is one instance
of the methods in `Marshaller.dfy` and `Unmarshaller.dfy`, which write a buffer backwards and
read it with Go's 64-bit index arithmetic. `Varint.dfy`, `Skipper.dfy` and `WireGrammar.dfy`
treat base 128 varints and the stepping over unknown fields; `Messages.dfy` and `Decoder.dfy`
say what bytes mean; `DecoderLaws.dfy`, `RoundTrip.dfy` and `Compatibility.dfy` prove the laws;
`Schemas.dfy` and `KubeVaultMessages.dfy` hold the concrete message types, and `WireForms.dfy` spells
out their bytes, tag by tag. The format is that of
the Protocol Buffers Encoding specification, sections "Base 128 Varints", "Message Structure", "Last One Wins" and
"Groups".

**The operator as step machines.** `AuthMethods.dfy` (auth mounts over many reconciles) and
`AuthOverlap.dfy` (reconciles that overlap); access requests in `AccessRequest.dfy` (the machine,
one call at a time, with users who interfere and a cache that lags), `AccessController.dfy` (the
code), `AccessLaws.dfy`, `AccessOutcomes.dfy`, `AccessLeases.dfy`, `AccessRuns.dfy`,
`AccessBinding.dfy` and `AccessExamples.dfy` (what holds of it, and what does not); `FinalizerHold.dfy` (how a finalizer
holds an object under a lagging cache), `FinalizerProtocol.dfy`, `FinalizerOutcomes.dfy`,
`FinalizerRuns.dfy` and `FinalizerController.dfy` (roles, policies and secret engines); `Contexts.dfy`,
`ContextOutcomes.dfy` and `ContextRegistry.dfy` (the goroutines of a VaultServer);
`StatusMonitor.dfy` and `StatusRounds.dfy` (pod polling and three concurrent status writers);
`Admission.dfy` and `AdmissionTables.dfy` (the webhooks). The `Outcomes`, `Rounds`, `Tables` and
`Forms` files say in the plainest terms, artifact by artifact and field by field, what the
specifications amount to. Every call to Vault or the API
server may fail, or be carried out and reported as failed.

Some promises hold only under a condition. Each has a concrete run that breaks it and the exact
condition under which it holds:

- An auth mount can lose its record, after which nothing removes it: when its path is relisted
  with another type (`RetypeLeaks`), or when one disable call fails (`FailedDisableLeaks`).
  Condition: `TrackedExactly`, over runs `TrackedOverRuns`.
- When reconciles of one VaultServer overlap, the older one may write its status last, and a
  mount of the newer one has no record (`OverlapLosesRecord`). Condition: `UntrackedExactly`.
- A finalizer deletes where the spec it read points, so what was created before an edit of path,
  policy name or Vault stays (`RetargetLeaks`). Condition: `FinalizerCleansExactly` for one
  finalizer, `FinalizerSafety` and `NothingLeftBehind` over runs.
- A credential issued by a run that fails later is not always revoked, because the cleanup
  knows only the snapshot taken before it was issued (`LateFailureLeavesCredential`).
  Condition: `OrphansExactly`, `StraysExactly`, and for the cleanup alone `CleanupLosesLease`.
- A lease is lost when the role that the request refers to names another Vault by the time of
  the revocation (`EditedRoleLosesLease`). Condition: `FinalizerLosesLease`.
- A request is issued again by a run that read it before its references were recorded
  (`StaleSnapshotIssuesAgain`). Condition: `NeverIssuedTwice`.
- An approval seen late binds the subjects of an earlier spec (`StaleApprovalBindsOthers`).
  Condition: `BoundRightForever`, for a given run `BoundIffReadRight`.
- A monitor's look-up, cancel and delete can be overtaken by a deletion and re-creation of its
  VaultServer, which leaves a goroutine that nothing cancels (`RaceLosesMonitor`).
  Condition: `AccountedOverRuns`.
- The phase can stay Running without an active pod (`StaysRunning`).
  Condition: `RunningWithoutActive`.

Two details follow the code although one might expect otherwise: `reconcileVault` does not
remove a Failed condition when it succeeds (pkg/controller/vaultservers.go:186-195), and an
end-group tag need not repeat the number of its start tag.

## Model

| member | source | states |
|---|---|---|
| Varint.SovIsEncodedLength | apis/config/v1alpha1/generated.pb.go:470-472 | the byte count computed from the bit length, with the low bit forced on, is the length of the base-128 encoding of every number |
| Varint.SovRange | apis/config/v1alpha1/generated.pb.go:470-472 | every uint64 takes one to ten bytes |
| Varint.EncodeVarintGenerated | apis/config/v1alpha1/generated.pb.go:392-402 | the in-place writer leaves exactly the encoding of v just before offset, touches nothing else, and returns where it starts |
| Varint.VarintRoundTrip | apis/config/v1alpha1/generated.pb.go:539-552 | reading the encoding of any uint64, whatever follows, gives the value back and consumes exactly its bytes |
| Varint.ReadVarintPrefix | apis/config/v1alpha1/generated.pb.go:539-552 | a successful read does not depend on the bytes after the varint |
| Varint.ReadVarintStops | apis/config/v1alpha1/generated.pb.go:539-552 | a read succeeds if and only if a byte without the high bit comes among the first ten, stops there, and otherwise reports overflow or the end of the input |
| Varint.ReadVarintDigits | apis/config/v1alpha1/generated.pb.go:539-552 | byte i of a varint holds bits 7i to 7i+6 of the value, and the value has no others |
| Varint.DecodeVarint | apis/config/v1alpha1/generated.pb.go:539-552 | the shift loop with bitwise OR into an accumulator of any width computes the arithmetic value cut to that width, and reports overflow after ten bytes and end of input exactly where the specification does |
| Bits.AccumulateStep | apis/kubevault/v1alpha1/generated.pb.go:9283-9296 | one OR-and-shift round keeps the true sum modulo the accumulator width, also when the shift pushes bits out |
| Bits.Int32SurvivesSignExtension | apis/kubevault/v1alpha1/generated.pb.go:2601-2605 | a negative int32 written sign-extended to 64 bits is read back by truncation to 32 |
| Bits.Wrap64 | apis/config/v1alpha1/generated.pb.go:989-992 | index plus length in 64-bit arithmetic: in range it is exact, a wrapped sum is negative and so caught |
| Skipper.SkipGenerated | apis/config/v1alpha1/generated.pb.go:1161-1238 | the skipping loop with its depth counter and wrapping index returns the specified length or error for every buffer |
| Skipper.SkipBody | apis/config/v1alpha1/generated.pb.go:1179-1227 | the index after the body of each wire type, wrapped to 64 bits, for every start index |
| Skipper.NextToken | apis/config/v1alpha1/generated.pb.go:1165-1227 | the wire type of a tag survives truncation to 64 bits; an end-group tag at depth zero is refused |
| Skipper.SkipOneByteTag | apis/config/v1alpha1/generated.pb.go:1161-1238 | a field with a one-byte tag, by wire type: 0 passes a varint, 1 eight bytes, 2 the announced length, 5 four bytes, 6 and 7 are refused, and a start group goes on one level deeper |
| Skipper.SkipNestedGroups | apis/config/v1alpha1/generated.pb.go:1217-1227 | any number of nested empty groups is passed exactly, and one end tag too few is the end of the input |
| Skipper.SkipStable | apis/catalog/v1alpha1/generated.pb.go:1379-1456 | a field that fits is skipped alike whatever follows it and wherever it stands |
| Unmarshaller.SkipStaysBelow | apis/catalog/v1alpha1/generated.pb.go:1379-1456 | a length that the skipper returns never wrapped |
| WireGrammar.SkipWire | apis/config/v1alpha1/generated.pb.go:1161-1238 | every well-formed field, groups nested to any depth, is stepped over exactly |
| WireGrammar.ParseLevels | apis/config/v1alpha1/generated.pb.go:1161-1238 | bytes consumed with n groups open are n levels of well-formed fields, each ended by its own end tag |
| WireGrammar.SkipAcceptsExactlyWires | apis/config/v1alpha1/generated.pb.go:1161-1238 | the depth counter accepts a byte string if and only if it is one serialized field with balanced groups |
| Messages.MergeIntoZero | apis/config/v1alpha1/generated.pb.go:936-1160 | the zero message is the unit of merging |
| Messages.MergeAssociative | apis/kubevault/v1alpha1/generated.pb.go:4116-4352 | merging messages is associative, so the grouping of concatenated parts is irrelevant |
| Decoder.Find | apis/config/v1alpha1/generated.pb.go:964-1136 | the case of the field switch that handles a number, and none if no field has it |
| DecoderLaws.RecordPrefix | apis/config/v1alpha1/generated.pb.go:936-1160 | a record is decoded from its own bytes only |
| DecoderLaws.DecodeConcat | apis/config/v1alpha1/generated.pb.go:936-1160 | if a decodes, decoding a followed by b into m is decoding b into the result of a |
| DecoderLaws.DecodeAnywhere | apis/config/v1alpha1/generated.pb.go:936-1160 | whether and to what bytes decode does not depend on their index in the buffer |
| DecoderLaws.UnknownFieldIsSkipped | apis/config/v1alpha1/generated.pb.go:1137-1153 | an unknown field at the front, of any wire type and nesting, leaves the message as it is |
| DecoderLaws.InsertUnknownField | apis/config/v1alpha1/generated.pb.go:1137-1153 | inserting an unknown field at any field boundary changes neither whether the bytes decode nor the message |
| DecoderLaws.TagRefusals | apis/config/v1alpha1/generated.pb.go:940-963 | which records are refused for their tag: end-group tags, field numbers that are not positive in 32 bits, and known fields of another wire type |
| DecoderLaws.LengthRefusals | apis/config/v1alpha1/generated.pb.go:969-996 | a length of 2^63 or more is bad, one that runs past the end is the end of the input or, when the sum wraps, a bad length, and every other is taken |
| DecoderLaws.NumberRead | apis/kubevault/v1alpha1/generated.pb.go:8822-8841 | a number in any varint form: a bool is true unless its 64 bits are all zero, an int64 or *int32 is the number in range that is congruent to what was read, no other field changes |
| DecoderLaws.PayloadRead | apis/kubevault/v1alpha1/generated.pb.go:3839-4115 | a length-delimited value: strings and bytes are replaced, repeated fields grow by one at the end, an embedded message decodes into what was there, and its error is the error of the record |
| DecoderLaws.ReceiverOnSuccess | apis/config/v1alpha1/generated.pb.go:936-1160 | on success the receiver holds the decoded message |
| DecoderLaws.FailureKeepsPrefix | apis/kubevault/v1alpha1/generated.pb.go:8794-8976 | a failing decode leaves in the receiver what the records before the failing one decode to, but for one field, and that is an int64 or an embedded message |
| DecoderLaws.BrokenNumber | apis/kubevault/v1alpha1/generated.pb.go:8822-8841 | a truncated number leaves a bool or a pointer field as it was, and an int64 field with the bits read so far |
| DecoderLaws.UnfinishedDigits | apis/kubevault/v1alpha1/generated.pb.go:8822-8841 | those bits are, for each byte that is there, its seven bits in its place |
| RoundTrip.RecordOfItem | apis/kubevault/v1alpha1/generated.pb.go:1077-1130 | an encoded record is decoded to the item it was made from and consumes exactly its bytes |
| RoundTrip.ItemsMerge | apis/kubevault/v1alpha1/generated.pb.go:3839-4115 | taking in the records of a value merges it into the old value: scalars replace, repeated fields append in order, embedded messages merge |
| RoundTrip.DecodeOfEncode | apis/config/v1alpha1/generated.pb.go:936-1160 | decoding the wire form of y into any m is the merge of y over m, for every schema and nesting |
| RoundTrip.DecodeInvertsEncode | apis/kubevault/v1alpha1/generated.pb.go:2327-2368 | what is marshalled is what is unmarshalled into a zero value: repeated order, nil against empty bytes, negative integers, absent against empty sections |
| RoundTrip.EncodeInjective | apis/kubevault/v1alpha1/generated.pb.go:2292-2310 | different messages have different wire forms; nil and empty CABundle in particular |
| RoundTrip.ConcatenationIsMerge | apis/config/v1alpha1/generated.pb.go:936-1160 | concatenated wire forms decode to the merge of the messages |
| RoundTrip.SplitEmbeddedField | apis/kubevault/v1alpha1/generated.pb.go:4116-4352 | two copies of an embedded field decode like one copy with the joined payload, for all payloads that decode |
| RoundTrip.JoinedPayload | apis/kubevault/v1alpha1/generated.pb.go:4116-4352 | the same for the field alone, whether it was nil, empty or set before |
| Compatibility.RecordIsSkipped | apis/catalog/v1alpha1/generated.pb.go:1005-1208 | whatever a decoder takes in as one record, the skipper passes in as many bytes |
| Compatibility.DecodableIsFields | apis/catalog/v1alpha1/generated.pb.go:1005-1208 | bytes that decode under any schema are exactly a sequence of well-formed fields, nothing left over |
| Compatibility.OlderReader | apis/config/v1alpha1/generated.pb.go:1137-1153 | all that a decoder reads, the decoder lacking one of its fields reads too, with the same result in the other fields |
| Compatibility.OlderReaderOfEncoding | apis/config/v1alpha1/generated.pb.go:1137-1153 | a reader without a field gets from a newer writer the message without that field |
| Marshaller.Size | apis/config/v1alpha1/generated.pb.go:403-468 | Size is the length of the wire form, for every message and nesting |
| Marshaller.FieldSize | apis/kubevault/v1alpha1/generated.pb.go:2769-2803 | each summand of Size is the length of that field's records |
| Marshaller.MarshalToSizedBuffer | apis/config/v1alpha1/generated.pb.go:338-390 | on any buffer that is large enough, the last Size bytes become the wire form, the rest is untouched, and Size is returned |
| Marshaller.MarshalField | apis/kubevault/v1alpha1/generated.pb.go:1986-2043 | each field shape is written backwards as its records, and only when it is present |
| Marshaller.MarshalEmbedded | apis/config/v1alpha1/generated.pb.go:343-378 | the nested call, the length and the tag together make the record of an embedded message |
| Marshaller.MarshalStrings | apis/kubevault/v1alpha1/generated.pb.go:1082-1090 | the loop from the last string to the first leaves the strings in order |
| Marshaller.Marshal | apis/config/v1alpha1/generated.pb.go:323-331 | a fresh buffer holding exactly the wire form |
| Marshaller.MarshalTo | apis/config/v1alpha1/generated.pb.go:333-336 | the wire form at the front of the buffer, the rest untouched |
| Unmarshaller.DecodeHeader | apis/config/v1alpha1/generated.pb.go:940-963 | field number with 32-bit truncation, wire type, and the refusal of end-group tags and of non-positive numbers |
| Unmarshaller.DecodeSlice | apis/config/v1alpha1/generated.pb.go:969-996 | negative lengths and wrapped or overlong bounds are errors; otherwise the payload is the announced slice, inside the buffer |
| Unmarshaller.DecodeUnknown | apis/config/v1alpha1/generated.pb.go:1137-1153 | the default case with its wrap checks steps over the field as specified |
| Unmarshaller.DecodeScalar | apis/kubevault/v1alpha1/generated.pb.go:8822-8841 | an int64 field is zeroed and assembled in place, also when the varint breaks off; other scalars change only on success |
| Unmarshaller.DecodePayload | apis/config/v1alpha1/generated.pb.go:1029-1064 | strings replace, repeated fields append, embedded messages are decoded in place, also when they fail |
| Unmarshaller.UnmarshalRecord | apis/config/v1alpha1/generated.pb.go:939-1154 | one round of the loop does what the specification says at every index of every buffer, error for error, and leaves the receiver as specified even when it fails |
| Unmarshaller.Unmarshal | apis/catalog/v1alpha1/generated.pb.go:1005-1208 | for every byte string the loop terminates within bounds, returns the specified error or none, and leaves the receiver exactly as specified in both cases |
| Schemas.TagBytes | apis/kubevault/v1alpha1/generated.pb.go:1558-1567 | the tag literals: one byte up to field 15, two bytes from field 16 |
| Schemas.ShippedWellFormed | apis/kubevault/v1alpha1/generated.pb.go:3839-10100 | the field numbers of all message types modelled in full are distinct, so the laws above apply to them |
| KubeVaultMessages.ShippedRoundTrip | apis/kubevault/v1alpha1/generated.pb.go:3839-10100 | every message of these types is unmarshalled to what was marshalled |
| KubeVaultMessages.ConsulSkipVerify | apis/kubevault/v1alpha1/generated.pb.go:1556-1567 | field 16 of ConsulSpec is always written, last, as 0x80 0x01 and the flag |
| KubeVaultMessages.UnsealerRoundTrip | apis/kubevault/v1alpha1/generated.pb.go:2327-2368 | the unsealer settings as a record survive the wire, negative numbers and absent modes included, and different settings have different wire forms |
| VaultServerConfig.ConfigRoundTrip | apis/config/v1alpha1/generated.pb.go:338-390 | every configuration survives the wire, absent sections staying absent and empty ones present; which field goes under which tag is WireForms.ConfigWire |
| VaultServerConfig.LastOneWins | apis/config/v1alpha1/generated.pb.go:936-1160 | two configurations on the wire decode to the second over the first, section by section |
| WireForms.ConfigWire | apis/config/v1alpha1/generated.pb.go:338-390 | a configuration as bytes: 0x0A path, 0x12 vaultRole, then 0x1A, 0x22 and 0x2A with the Kubernetes, Azure and AWS sections that are there, each spelled out field by field |
| WireForms.UnsealerWire | apis/kubevault/v1alpha1/generated.pb.go:2327-2368 | UnsealerSpec as bytes: 0x08 shares, 0x10 threshold, 0x18 retry period in two's complement, 0x20 and 0x28 the flags, 0x32 the mode |
| WireForms.ModeWire | apis/kubevault/v1alpha1/generated.pb.go:1986-2040 | ModeSpec as bytes: 0x0A, 0x12, 0x1A and 0x22 with the four modes that are there, spelled out field by field |
| WireForms.GoogleWire | apis/kubevault/v1alpha1/generated.pb.go:1882-1918 | its six strings under 0x0A to 0x32: crypto key, key ring, location, project, bucket, credential secret |
| WireForms.AwsKmsWire | apis/kubevault/v1alpha1/generated.pb.go:1253-1284 | its five strings under 0x0A to 0x2A: key ID, parameter prefix, region, credential secret, endpoint |
| WireForms.AzureKeyVaultWire | apis/kubevault/v1alpha1/generated.pb.go:1301-1340 | its five strings under 0x0A to 0x2A: base URL, cloud, tenant, client certificate secret, AAD secret; and the managed identity flag under 0x30 |
| WireForms.VersionWire | apis/catalog/v1alpha1/generated.pb.go:397-446 | VaultServerVersionSpec as bytes: version, three images as messages of one string, the deprecated flag |
| WireForms.AuthMethodWire | apis/kubevault/v1alpha1/generated.pb.go:1147-1193 | AuthMethod as bytes: the configuration under 0x22 only if there is one, everything else always |
| WireForms.AuthConfigWire | apis/kubevault/v1alpha1/generated.pb.go:1077-1130 | AuthConfig as bytes: single strings always, and one record per repeated string, in order |
| WireForms.TLSPolicyWire | apis/kubevault/v1alpha1/generated.pb.go:2292-2310 | a nil bundle is not written, an empty one is, as 0x12 and length zero |
| WireForms.VaultStatusWire | apis/kubevault/v1alpha1/generated.pb.go:2718-2756 | the active pod under 0x0A, then one record per standby, sealed and unsealed pod under 0x12, 0x1A and 0x22 |
| WireForms.SpecHeadWire | apis/kubevault/v1alpha1/generated.pb.go:2596-2607 | replicas under 0x08 only if set, negative ones in two's complement, and the version under 0x12 |
| AuthMethods.VaultSys.EnableAuthMethods | pkg/controller/auth_method.go:236-304 | the loop over the listed methods: mounts and entries are those of the specification, whichever calls fail |
| AuthMethods.VaultSys.DisableAuthMethods | pkg/controller/auth_method.go:309-331 | the two loops of disabling, likewise; every recorded, unlisted method whose disable call does not report success is returned as DisableFailed with its type and path |
| AuthMethods.VaultSys.ReconcileAuthMethods | pkg/controller/auth_method.go:135-153 | listing, enabling, disabling and the status write in order, with the early return |
| AuthMethods.EnableEntry | pkg/controller/auth_method.go:243-304 | an entry reported as enabled is mounted with its type; for a path that was mounted before, success depends on its type alone |
| AuthMethods.EnableNew | pkg/controller/auth_method.go:264-304 | for a free path the first attempt that is carried out decides the type, and only its entry can report success, which it does if the call was acknowledged |
| AuthMethods.EnableReports | pkg/controller/auth_method.go:243-304 | entry i names method i and reports success if and only if its path was mounted before with that type, or was free, all earlier attempts on it failed, and its own call was acknowledged |
| AuthMethods.DisableExactly | pkg/controller/auth_method.go:309-331 | a mount goes if and only if some disable call for a recorded, no longer listed entry of its path is carried out |
| AuthMethods.DisableFrame | pkg/controller/auth_method.go:309-331 | what stays mounted is unchanged, and what goes was recorded as enabled and is not listed |
| AuthMethods.DisableReports | pkg/controller/auth_method.go:309-331 | the reported entries are, in order, one for each recorded success whose path is not listed and whose disable call does not report success, with its type and path and the status DisableFailed |
| AuthMethods.WrittenStatus | pkg/controller/auth_method.go:135-153 | the status after a reconcile: an entry for each listed method and then one for each that could not be disabled, or what it was before if the listing or the write failed |
| AuthMethods.ReconcileSafety | pkg/controller/auth_method.go:236-331 | whatever calls fail, reported successes are mounted with that type, and a mount that is neither listed nor recorded is untouched |
| AuthMethods.TrackedExactly | pkg/controller/auth_method.go:135-153 | whatever calls fail or lose their answers, a reconcile leaves every mount of the operator recorded if and only if: it never reached Vault; or the status was written, no owned mount retyped, none that must go stayed, none came unacknowledged; or the write failed and everything new was recorded before |
| AuthMethods.AccountedExactly | pkg/controller/auth_method.go:135-153 | it leaves them also listed if and only if, in addition, what is no longer listed goes |
| AuthMethods.TrackedOverRuns | pkg/controller/auth_method.go:135-153 | recorded throughout every run, with others changing the mounts in between, if and only if every reconcile keeps track |
| AuthMethods.OwnershipOverRuns | pkg/controller/auth_method.go:135-153 | recorded and listed throughout every run, likewise |
| AuthMethods.RetypedLosesItsRecord | pkg/controller/auth_method.go:250-263 | a mount relisted with another type stays but loses its record |
| AuthMethods.LeakIsPermanent | pkg/controller/auth_method.go:309-331 | a mount without a record is never removed while no spec lists its path |
| AuthMethods.RetypeLeaks | pkg/controller/auth_method.go:236-331 | a concrete run in which every call succeeds and a mount is left with neither record nor listing |
| AuthMethods.FailedDisableLeaks | pkg/controller/auth_method.go:318-329 | a concrete run with all types kept in which one failing disable call leaves a mount for good |
| AuthOverlap.BalanceAt | pkg/controller/auth_method.go:88-160 | which call of which of several overlapping reconciles loses or settles which record |
| AuthOverlap.UntrackedExactly | pkg/controller/auth_method.go:88-160 | over every interleaving of any number of reconciles: the mounts of the operator that nobody has a record of are exactly those that some step lost and none settled since |
| AuthOverlap.TrackedIffNothingLost | pkg/controller/auth_method.go:144-153 | every mount is known throughout if and only if no step loses one |
| AuthOverlap.AloneIsReconcile | pkg/controller/auth_method.go:135-153 | call by call, a reconcile that nobody overlaps does what the sequential model says |
| AuthOverlap.OverlapLosesRecord | pkg/controller/auth_method.go:93-153 | a concrete overlap in which all calls succeed and the older reconcile writes last, so that a mount has no record |
| AccessRequest.DecisionLoop | pkg/controller/aws_access_key_request.go:79-84 | the loop returns the type of the last condition that is true and of type RequestApproved or RequestDenied, and none if there is no such condition |
| AccessRequest.SuccessfullyProcessed | pkg/controller/aws_access_key_request.go:375-391 | the loop decides: conditions present, secret recorded, no Failed condition |
| AccessOutcomes.DecisionIsLast | pkg/controller/aws_access_key_request.go:79-84 | approved, denied or undecided by the last true condition of type RequestApproved or RequestDenied, whatever stands before it |
| AccessOutcomes.DeniedStops | pkg/controller/aws_access_key_request.go:62-84 | a run whose snapshot was denied last stops, at once or after the finalizer patch, whatever others do and whatever the answer, and asks for nothing |
| AccessOutcomes.AskedIsApproved | pkg/controller/aws_access_key_request.go:62-189 | wherever in a run a credential is asked for, the last deciding condition of the snapshot approves, it has neither lease nor secret and is not being deleted, and the stored object has the finalizer |
| AccessOutcomes.TakenUpExactly | pkg/controller/aws_access_key_request.go:86-189 | a run takes up a request if and only if its last deciding condition approves and there is no secret yet or a Failed condition; with a lease or a secret it then cleans up, and only without either it asks |
| AccessOutcomes.UndecidedWaits | pkg/controller/aws_access_key_request.go:85-105 | a live request that nobody decided gets its phase written and nothing else happens |
| AccessOutcomes.FailureIsNoted | pkg/controller/aws_access_key_request.go:191-331 | a credential, role or binding that could not be had leaves a Failed condition on the stored request once the status is written, others acting in between, and the cleanup follows |
| AccessOutcomes.SecretFailureIsNoted | pkg/controller/aws_access_key_request.go:211-238 | a secret that could not be created: its lease is revoked first, and only if that was done the failure is noted |
| AccessOutcomes.ManagerFailureIsNoted | pkg/controller/aws_access_key_request.go:107-136 | without a credential manager the stored request gets a Failed condition and the generation that was read |
| AccessOutcomes.IssueCompletes | pkg/controller/aws_access_key_request.go:240-331 | a run whose last four calls are done records lease and secret, points the reader role to that secret, binds the subjects that were read, and leaves the status available, without failure, at the generation that was read |
| AccessOutcomes.FinalizerCompletes | pkg/controller/aws_access_key_request.go:333-363 | a finalizer that gets through removes exactly the recorded lease from the Vault of its manager, and the request goes |
| AccessOutcomes.FinalizerWithoutManager | pkg/controller/aws_access_key_request.go:333-363 | without a credential manager nothing is revoked and the request goes |
| AccessOutcomes.EditsWhileUndecided | pkg/admission/aws_access_key_request_validator.go:93-107 | an edit of the spec goes through if and only if no approve or deny condition is there, true or not, or the spec stays what it was |
| AccessController.Controller.RunInjector | pkg/controller/aws_access_key_request.go:47-173 | the injector's code, with others acting between its calls and any answers, is a run of the machine from idle to idle and asks for at most one credential |
| AccessController.Controller.RunApproved | pkg/controller/aws_access_key_request.go:107-165 | the approved case with the cleanup that knows only the snapshot |
| AccessController.Controller.ReconcileRequest | pkg/controller/aws_access_key_request.go:181-331 | asks for a credential only without references, and ends in the cleanup after any failure |
| AccessController.Controller.RunFinalizer | pkg/controller/aws_access_key_request.go:333-363 | revokes the lease of its snapshot, or skips, then removes the finalizer |
| AccessController.Controller.RevokeLease | pkg/controller/access_key_request.go:29-42 | nothing to do without a lease ID; if it reports success the lease is gone |
| AccessController.Controller.DeleteCredSecret | pkg/controller/aws_access_key_request.go:365-373 | nothing to do without a secret; if it reports success the secret is gone |
| AccessLaws.InvNext | pkg/controller/aws_access_key_request.go:47-363 | the invariant that ties cache, stored request, worker, leases and secrets is kept by every step of worker, users and cache |
| AccessLaws.RequestsAreGated | pkg/controller/aws_access_key_request.go:62-189 | in every run, whenever a credential is requested the snapshot is live, approved, unprocessed and without lease or secret, and the stored object carries the finalizer |
| AccessLaws.SnapshotFromCache | pkg/controller/aws_access_key_request.go:47-58 | every snapshot is a version that the cache showed |
| AccessLaws.SnapshotDecides | pkg/controller/aws_access_key_request.go:62-189 | a run reaches the request for a credential if and only if its snapshot is live, approved, unprocessed and without references, the finalizer is or can be set, and there is a credential manager |
| AccessLaws.CleanupRun | pkg/controller/aws_access_key_request.go:138-165 | a run that finds a lease or secret never issues, and clears the references if and only if both could be removed and the status written, users interfering at will; then both are gone |
| AccessLaws.EarlyFailureLeavesNoLease | pkg/controller/aws_access_key_request.go:191-238 | failing to get a credential, or to store it with a working revocation, leaves leases and secrets as they were |
| AccessLeases.OrphansStep | pkg/controller/aws_access_key_request.go:138-263 | which step leaves which lease behind: a lost answer, a failed revocation, an unrecorded, overwritten or cleared reference, a finalizer |
| AccessLeases.OrphansExactly | pkg/controller/aws_access_key_request.go:138-263 | over every run, from any cache: the live leases that neither request nor worker mentions are exactly those that some step abandoned and none revoked since |
| AccessLeases.StraysExactly | pkg/controller/aws_access_key_request.go:212-263 | likewise the secrets that the request does not mention |
| AccessLeases.CleanupLosesLease | pkg/controller/aws_access_key_request.go:144-162 | clearing the references loses a lease if and only if the stored one is live and not the snapshot's, or lies in another Vault |
| AccessLeases.FinalizerLosesLease | pkg/controller/aws_access_key_request.go:333-363 | the object goes with its lease live if and only if the finalizer skipped, its snapshot has another lease, or its credential manager talks to another Vault |
| AccessRuns.IssuedIsSettled | pkg/controller/aws_access_key_request.go:305-331 | a successful run records the secret and leaves no Failed condition |
| AccessRuns.RestingWork | pkg/controller/aws_access_key_request.go:110-113 | a worker that sees no work leaves conditions, references, generation and spec alone and requests nothing |
| AccessRuns.NeverIssuedTwice | pkg/controller/aws_access_key_request.go:110-113 | after a successful run no later run requests another credential or touches the references, whatever people do: if and only if the cache is past every version that was approved and not processed |
| AccessRuns.OnlySkipsLoseLease | pkg/controller/aws_access_key_request.go:333-363 | once the cache has seen the recorded lease, only a finalizer without a credential manager, or with one for another Vault, loses it |
| AccessRuns.BoundIffReadRight | pkg/controller/aws_access_key_request.go:283-303 | while a decision stands the spec is constant, and the secret is bound to its subjects if and only if every run that binds it read a version with them |
| AccessRuns.ApprovedSubjectsAreBound | pkg/controller/aws_access_key_request.go:283-303 | with a cache inside the window of the decision, what is bound to the secret are the approved subjects |
| AccessBinding.BoundRightForever | pkg/controller/aws_access_key_request.go:283-303 | at any moment while a decision stands: whatever follows, the secret stays bound to the stored subjects if and only if every version in sight that can reach the binding call, and the snapshot in use, has them |
| AccessBinding.UidStep | pkg/controller/aws_access_key_request.go:47-58 | identities only grow along what the cache can show, and the worker's snapshot is not newer |
| AccessExamples.EditedRoleLosesLease | pkg/vault/credential/aws/aws.go:45-56 | a finalizer whose role refers to another Vault by then: every call succeeds and the lease stays live |
| AccessExamples.LateFailureLeavesCredential | pkg/controller/aws_access_key_request.go:138-165 | a concrete run whose last status update fails: lease live, secret readable, both unmentioned |
| AccessExamples.StaleSnapshotIssuesAgain | pkg/controller/aws_access_key_request.go:47-58 | a concrete run in which a lagging cache leads to a second credential and the first is orphaned |
| AccessExamples.StaleApprovalBindsOthers | pkg/controller/aws_access_key_request.go:283-303 | a concrete run in which an earlier approval seen late binds Alice while the approved spec names Bob |
| Admission.AccessKeyRequestValidator.Admit | pkg/admission/aws_access_key_request_validator.go:62-111 | an update of the object is allowed if and only if it carries no decision or keeps the spec; everything else passes |
| Admission.ValidateSecret | pkg/admission/vault_server_validator.go:443-455 | accepts if and only if the secret exists with a non-empty value for every required key |
| Admission.ValidateChoices | pkg/admission/vault_server_validator.go:150-330 | all named secrets are in place, and the counter is the number of chosen alternatives |
| Admission.CountOne | pkg/admission/vault_server_validator.go:313-317 | the counter is one if and only if exactly one alternative is chosen |
| Admission.ValidateVaultServer | pkg/admission/vault_server_validator.go:126-394 | accepts if and only if the server meets the order-free specification; an unusable version or replica number is reported as such |
| Admission.VaultServerValidator.Admit | pkg/admission/vault_server_validator.go:79-119 | an update is allowed if and only if the protected parts are unchanged and the new server is valid; creation if it is valid |
| Admission.BackendIsForever | pkg/admission/vault_server_validator.go:396-428 | along every chain of admitted updates backend, unsealer and identity stay as created, with exactly one backend |
| AdmissionTables.AcceptedExactly | pkg/admission/vault_server_validator.go:126-394 | acceptance spelled out: known version, positive replicas, one backend of eleven and for each its secrets with their keys, and for an unsealer 1 <= threshold <= shares and one mode of four with its secrets |
| AdmissionTables.BackendSecretsInPlace | pkg/admission/vault_server_validator.go:137-310 | the secrets and keys that each backend requires, name by name |
| AdmissionTables.ModeSecretsInPlace | pkg/admission/vault_server_validator.go:332-382 | the secrets and keys that each unsealing mode requires |
| AdmissionTables.UpdateKeeps | pkg/admission/vault_server_validator.go:396-428 | of the modelled fields an admitted update changes at most version and replicas |
| FinalizerHold.DispatchKeepsWorkerInv | pkg/controller/aws_role.go:58-78 | a lagging cache never misleads a worker: a cached finalizer is still there, and a finalizer run never meets a revived object |
| FinalizerHold.ChangesKeepWorkerInv | pkg/controller/aws_role.go:48-110 | creation, deletion and the progress of the cache keep the invariant between what the cache can show and what the worker is doing |
| FinalizerProtocol.InvNext | pkg/controller/aws_role.go:48-196 | the invariant that ties cache, stored object, worker position and Vault is kept by every step of worker, users (who also edit the spec) and cache |
| FinalizerProtocol.VaultExactly | pkg/vault/role/aws/aws_role.go:38-105 | over every run, what is in Vault is what was created at the place that the spec pointed to when it was read, and not deleted since |
| FinalizerProtocol.FinalizerSafety | pkg/controller/secret_engine.go:48-264 | for roles, policies and engines, all interleavings, edits and failures: without the finalizer on the object, Vault holds exactly what some finalizer skipped, or missed because the spec it read points elsewhere, and none deleted since |
| FinalizerOutcomes.RoleReconcile | pkg/controller/aws_role.go:116-160 | with others acting around it, the one call of a role reconcile makes the role of the spec that was read unless it failed, and the status update follows in any case |
| FinalizerOutcomes.PolicyReconcile | pkg/controller/vault_policy.go:107-153 | the same for a policy |
| FinalizerOutcomes.EngineReconcile | pkg/controller/secret_engine.go:117-227 | the four calls of an engine reconcile, others acting in between: the policy, the auth role, the mount, the configuration, each only after the one before was done; a new mount only behind a policy that was done, and after four done calls policy and mount are both in Vault |
| FinalizerOutcomes.RoleFinalizer | pkg/controller/aws_role.go:162-196 | the role of the spec that was read goes unless the call failed, and the finalizer goes on when it was done or its code was a 4xx one |
| FinalizerOutcomes.PolicyFinalizer | pkg/controller/vault_policy.go:157-186 | the same for a policy, without the 4xx rule |
| FinalizerOutcomes.EngineFinalizer | pkg/controller/secret_engine.go:229-264 | the policy is deleted first, the mount only if that was done, and the finalizer is removed only after both |
| FinalizerOutcomes.DoneElsewhere | pkg/controller/aws_role.go:48-110 | what each other call does when it is done; in particular the first status update hands on the stored object, and removing the finalizer drops a deleted one |
| FinalizerOutcomes.BeginsWith | pkg/controller/aws_role.go:58-85 | what a run begins with, by deletion mark, finalizer, conditions and kind |
| FinalizerOutcomes.ReconcileAlone | pkg/controller/aws_role.go:48-160 | a new object that nobody else touches ends with the finalizer, its artifacts in Vault and a noted status |
| FinalizerOutcomes.FinalizeAlone | pkg/controller/aws_role.go:162-196 | a deleted object whose finalizer gets through ends with its artifacts and itself gone |
| FinalizerOutcomes.FinalizeWithoutClient | pkg/controller/aws_role.go:165-196 | without a client nothing is deleted and the object goes |
| FinalizerRuns.FinalizerDeletes | pkg/vault/engine/engine.go:131-141 | a finalizer that gets through without skipping deletes exactly what lies where the spec it read points |
| FinalizerRuns.FinalizerCleansExactly | pkg/controller/aws_role.go:162-196 | it leaves Vault clean if and only if every create call carried out, and not undone since, went there |
| FinalizerRuns.SamePlace | pkg/vault/engine/engine.go:65-77 | two specs point to the same place if and only if they name the same Vault and, but for the policy of an engine, the same path or name |
| FinalizerRuns.LeavingsStay | pkg/controller/aws_role.go:165-196 | what a finalizer skips or misses on its way to the patch stays when the object goes |
| FinalizerRuns.NothingLeftBehind | pkg/controller/vault_policy.go:157-185 | over every run nothing ever exists in Vault without the finalizer, if and only if nothing skipped or missed is outstanding whenever the finalizer is taken off |
| FinalizerRuns.SteadyRunsLeaveNothing | pkg/controller/secret_engine.go:229-264 | so it is when the spec always points to the same place and no finalizer skips |
| FinalizerRuns.RetargetLeaks | pkg/controller/aws_role.go:96-104 | a concrete run in which every call succeeds, nothing is skipped, and the role at the path of the first spec stays |
| FinalizerController.Cluster.RunInjector | pkg/controller/aws_role.go:48-110 | the injector's code, with others acting between its calls, is a run of the machine and leaves a safe state |
| FinalizerController.Cluster.ReconcileObject | pkg/controller/aws_role.go:79-106 | the first status update replaces the object, and with it the target; a policy has none |
| FinalizerController.Cluster.Reconcile | pkg/controller/secret_engine.go:117-227 | the creating calls, each for the target of the object, stopping at the first error, then the status update; success means that the role, the policy, or both policy and mount of the engine are in Vault, and nothing is removed |
| FinalizerController.Cluster.RunFinalizer | pkg/controller/secret_engine.go:229-264 | the finalizers: client, deletes in order for the target of the object, the 4xx rule for roles, removal of the finalizer; of an engine the mount goes only after the policy, and success means both went or there was no client |
| Contexts.AccountedStep | pkg/controller/vault_status.go:168-175 | a step loses a goroutine if and only if a monitor deletes a live entry other than the one it looked up |
| Contexts.AccountedOverRuns | pkg/controller/vault_status.go:168-175 | in every state of a run each context is cancelled, registered or about to be, if and only if no monitor's delete is overtaken |
| Contexts.AtMostOneRuns | pkg/controller/vaultservers.go:203-214 | then at most one running goroutine of each role exists per VaultServer |
| Contexts.NoneAfterMissing | pkg/controller/vaultservers.go:59-73 | and none once the missing object has been handled |
| Contexts.UndisturbedRunsAreAccounted | pkg/controller/vault_status.go:168-175 | monitors whose three steps are not interleaved with the start of their successor lose nothing |
| Contexts.LostForever | pkg/controller/vault_status.go:168-175 | a goroutine that no registry, worker or round names is never cancelled by any later step |
| Contexts.ReconcileAlone | pkg/controller/vaultservers.go:203-214 | an uninterrupted reconcile without a registered monitor starts and registers both goroutines |
| Contexts.MissingAlone | pkg/controller/vaultservers.go:59-73 | an uninterrupted handling of a missing object cancels and removes both entries |
| ContextOutcomes.ReconcileAgain | pkg/controller/auth_method.go:68-82 | with both goroutines registered, a reconcile leaves the monitor alone, cancels the old auth goroutine and registers a new one |
| ContextOutcomes.NotFoundAlone | pkg/controller/vault_status.go:168-175 | a monitor that finds its object missing cancels itself and removes its entry; the auth goroutine stays |
| ContextOutcomes.MissingAuthOnly | pkg/controller/vaultservers.go:59-73 | after that the worker has only the auth goroutine to cancel and remove |
| ContextOutcomes.MissingCancelsBoth | pkg/controller/vaultservers.go:59-73 | the handling of a missing object cancels exactly the two registered contexts |
| Contexts.RaceLosesMonitor | pkg/controller/vaultservers.go:203-211 | a concrete interleaving after which two monitors of one VaultServer run |
| ContextRegistry.Registry.HandleMissing | pkg/controller/vaultservers.go:59-73 | access by access, others acting in between: leaves no live context of the key, unless some monitor's delete was overtaken |
| ContextRegistry.Registry.StartGoroutines | pkg/controller/vaultservers.go:202-214 | access by access: starts a monitor only if it found none, and always the auth reconcile, as a run of the machine |
| ContextRegistry.Registry.RunAuthMethodsReconcile | pkg/controller/auth_method.go:68-82 | creates a context, cancels the previous one, registers the new one, as a run of the machine |
| ContextRegistry.Registry.HandleNotFound | pkg/controller/vault_status.go:168-175 | look-up, cancel and delete as three accesses with others in between, as a run of the machine |
| StatusMonitor.PollPods | pkg/controller/vault_status.go:103-144 | the loop collects, in order, the names that the pods' own answers define, and the last active pod |
| StatusMonitor.VaultServerMonitor.UpdateLocalStatus | pkg/controller/vault_status.go:79-164 | the round with its early returns does what LocalRound says; what that means for phase and lists is StatusRounds.PhaseOfRound and ListsOfRound |
| StatusMonitor.VaultServerMonitor.UpdateStoredStatus | pkg/controller/vault_status.go:180-199 | writes the nine fields of the monitor and takes the stored status back |
| StatusMonitor.VaultServerMonitor.MonitorAndUpdateStatus | pkg/controller/vault_status.go:41-76 | the loop, with the other writers interleaved, keeps the pod lists consistent |
| StatusMonitor.SealedAndUnsealedPartition | pkg/controller/vault_status.go:136-140 | Sealed and Unsealed partition the responding running pods, with multiplicity |
| StatusMonitor.NamesMember | pkg/controller/vault_status.go:112-144 | a name is listed if and only if a pod of that name answered so |
| StatusMonitor.RoundIsConsistent | pkg/controller/vault_status.go:130-155 | Sealed and Unsealed are disjoint, Standby lies in Unsealed, and a non-empty Active lies in Unsealed and not in Standby |
| StatusRounds.PhaseOfRound | pkg/controller/vault_status.go:146-164 | by what the pods answer: somebody answered but no one initialized gives Uninitialized, an active pod Running, a sealed but no active one Sealed, anything else keeps the phase; a round nobody answered changes nothing |
| StatusRounds.StoredPhaseIsWhatPodsSaid | pkg/controller/vault_status.go:41-199 | over every run with other writers: the stored phase is what the pods answered in the last phase-setting round before the monitor's last write, and Processing if there was none |
| StatusRounds.ListsOfRound | pkg/controller/vault_status.go:103-155 | who is on the standby, sealed, unsealed and updated lists, by the pods' own running state, deletion mark, image and health answer |
| StatusRounds.NamesInOrder | pkg/controller/vault_status.go:103-144 | each list has one name for each pod that qualifies, in the order of the pods |
| StatusRounds.ActiveIsLast | pkg/controller/vault_status.go:128-130 | the active pod is the last one of the list that is active |
| StatusRounds.MonitorWriteFields | pkg/controller/vault_status.go:181-199 | a monitor's write copies nine named fields and no other, and an acknowledged one leaves the monitor with the stored status |
| StatusRounds.OthersLeaveMonitorFields | pkg/controller/vaultservers.go:182-197 | no other writer touches the nine fields of the monitor |
| StatusRounds.FirstWrite | pkg/controller/vault_status.go:41-60 | the first write says Processing, not initialized, with the given service name and port and empty lists |
| StatusMonitor.ConsistentOverRuns | pkg/controller/vault_status.go:41-76 | the same for the local status after every run, and for the stored one once the monitor has written |
| StatusMonitor.LocalPhaseIsLastVerdict | pkg/controller/vault_status.go:156-163 | whatever is written in between, the monitor's phase is that of the last round that set one |
| StatusMonitor.StoredPhase | pkg/controller/vault_status.go:156-199 | the stored phase is Running only if the last phase-setting round before the last write saw an active pod; before any such round it is Processing |
| StatusMonitor.RunningWithoutActive | pkg/controller/vault_status.go:156-163 | a responding round leaves the phase Running without an active pod if and only if it was Running and only unsealed standbys are initialized |
| StatusMonitor.StaysRunning | pkg/controller/vault_status.go:156-163 | two concrete rounds after which the phase is Running and Active is empty |
| StatusMonitor.WritersAreIndependent | pkg/controller/vault_status.go:181-198 | however monitor, auth and reconcile writers interleave, each one's fields are what it alone would have left |
| StatusMonitor.LastMonitorWriteStands | pkg/controller/vault_status.go:181-198 | phase, initialized, active, standby, sealed, unsealed, updatedNodes, serviceName and clientPort are those of the monitor's copy at its last write, field by field |
| StatusMonitor.LastAuthWriteStands | pkg/controller/auth_method.go:144-153 | the auth status is the last one written |
| StatusMonitor.LastReconcileStands | pkg/controller/vaultservers.go:182-197 | generation and Ready condition are those of the last success, and a Failed condition survives it |

## Left out

- Unmarshaller.Unmarshal: the receiver is a message value that the method takes and returns, where the source updates a struct through a pointer; aliasing between messages is not modelled.
- Unmarshaller.DecodePayload: does not model that the generated code copies byte slices, since values cannot alias.
- Marshaller.MarshalToSizedBuffer: requires a buffer of at least Size bytes, as the generated callers provide; a shorter one panics in the source.
- Admission.ValidateChoices: the validator's unrolled blocks, one per backend or mode, are written as a loop over the table of alternatives in the same order; the error texts are reduced to their kinds.
- AuthMethods.OwnershipOverRuns: path cleaning is a parameter and Vault is taken to mount at the cleaned path and to refuse a path in use.
- AccessRuns.NeverIssuedTwice: concerns one object; people do not edit the Failed condition, and a request created anew under the same name counts as another one.
- AccessLeases.OrphansExactly: Vault is taken never to issue a lease ID that is live or recorded, and the random suffix to make secret names new; expiry of leases is not modelled.
- AccessLeases.StraysExactly: garbage collection of what a removed request owns is taken to be immediate.
- FinalizerController.Cluster.RunInjector: of the status only whether it has conditions is modelled; deleting an engine's policy and updating the auth role is one call that may be carried out in part.
- FinalizerProtocol.FinalizerSafety: concerns one object; two objects that point to the same path or policy name, and artifacts that others create or remove in Vault, are not modelled.
- Contexts.AccountedOverRuns: API objects are not part of this machine, so any monitor may find its object missing at any time, which allows more runs than the source has. Go's undefined behaviour for unsynchronized map access is not modelled.
- Admission.VaultServerValidator.Admit: the strategic merge patch is taken to detect every change of the protected parts (apiVersion, kind, name, namespace, unsealer, backend, node selector).
- ObjectMeta, ListMeta, Condition, VolumeSource, pod templates and volume claim templates on the wire, and the messages that embed them; of VaultServerSpec only Replicas and Version are modelled.
- `String`, descriptors, `sozGenerated` and deep copies have no hard property.
- The Azure, GCP and database access requests, the other role kinds and policy bindings are the same machines as those modelled; the MongoDB role differs only in keeping the Failed condition.
- SetCondition, RemoveCondition and the status update helpers are given small contracts: set or remove by type, and an atomic read, modify and write.
- TLS generation, deployment, app bindings, port forwarding, Prometheus, logging and events would only add calls that may fail.
- Requeueing, rate limits and wall-clock polling: no liveness is claimed.
