/** Messages of the generated API packages. A schema lists the fields of a message type in
    the order in which the marshaller lays them out; a message gives one value per field.
    Each `KX` below is one of the field shapes that occur in the generated code. */
module Messages {
  import opened Bits
  import opened Results
  import opened Varint

  datatype Kind =
    | KString                          // string, always written
    | KBytes                           // []byte, written unless nil
    | KBool                            // bool, always written
    | KInt64                           // int64 and time.Duration, always written
    | KInt32Ptr                        // *int32, written unless nil
    | KMessage(fields: seq<Field>)     // embedded struct, always written
    | KMessagePtr(fields: seq<Field>)  // pointer to struct, written unless nil
    | KStrings                         // []string
    | KMessages(fields: seq<Field>)    // []struct

  datatype Field = Field(num: nat, kind: Kind)

  type Schema = seq<Field>

  /** Go strings are byte strings; nil and empty slices of fields are the same. */
  datatype Value =
    | VString(s: seq<Byte>)
    | VBytes(bytes: Option<seq<Byte>>)
    | VBool(b: bool)
    | VInt64(i: int)
    | VInt32Ptr(p: Option<int>)
    | VMessage(m: Message)
    | VMessagePtr(mp: Option<Message>)
    | VStrings(ss: seq<seq<Byte>>)
    | VMessages(ms: seq<Message>)

  datatype Message = Message(vals: seq<Value>)

  predicate Typed(sch: Schema, m: Message)
    decreases m
  {
    |sch| == |m.vals| && forall i | 0 <= i < |sch| :: TypedValue(sch[i].kind, m.vals[i])
  }

  predicate TypedValue(kind: Kind, v: Value)
    decreases v
  {
    match kind
    case KString => v.VString?
    case KBytes => v.VBytes?
    case KBool => v.VBool?
    case KInt64 => v.VInt64? && -TWO_63 <= v.i < TWO_63
    case KInt32Ptr => v.VInt32Ptr? && (v.p.Some? ==> -TWO_31 <= v.p.value < TWO_31)
    case KMessage(sub) => v.VMessage? && Typed(sub, v.m)
    case KMessagePtr(sub) => v.VMessagePtr? && (v.mp.Some? ==> Typed(sub, v.mp.value))
    case KStrings => v.VStrings?
    case KMessages(sub) => v.VMessages? && forall j | 0 <= j < |v.ms| :: Typed(sub, v.ms[j])
  }

  /** Field numbers are positive, small enough for a 32-bit tag, and distinct: they are the
      labels of one Go `switch`. */
  predicate WellFormed(sch: Schema)
    decreases sch
  {
    && (forall i | 0 <= i < |sch| :: 1 <= sch[i].num < 0x2000_0000 && WellFormedField(sch[i]))
    && (forall i, j | 0 <= i < j < |sch| :: sch[i].num != sch[j].num)
  }

  predicate WellFormedField(f: Field)
    decreases f
  {
    match f.kind
    case KMessage(sub) => WellFormed(sub)
    case KMessagePtr(sub) => WellFormed(sub)
    case KMessages(sub) => WellFormed(sub)
    case _ => true
  }

  /** `T{}`. */
  function Zero(sch: Schema): (m: Message)
    ensures Typed(sch, m)
    decreases sch, |sch| + 1
  {
    Message(ZeroFields(sch, |sch|))
  }

  /** The zero values of the first `n` fields. */
  function ZeroFields(sch: Schema, n: nat): (vs: seq<Value>)
    requires n <= |sch|
    ensures |vs| == n && forall i | 0 <= i < n :: vs[i] == ZeroValue(sch[i])
    ensures forall i | 0 <= i < n :: TypedValue(sch[i].kind, vs[i])
    decreases sch, n
  {
    if n == 0 then [] else ZeroFields(sch, n - 1) + [ZeroValue(sch[n - 1])]
  }

  function ZeroValue(f: Field): (v: Value)
    ensures TypedValue(f.kind, v)
    decreases f
  {
    match f.kind
    case KString => VString([])
    case KBytes => VBytes(None)
    case KBool => VBool(false)
    case KInt64 => VInt64(0)
    case KInt32Ptr => VInt32Ptr(None)
    case KMessage(sub) => VMessage(Zero(sub))
    case KMessagePtr(_) => VMessagePtr(None)
    case KStrings => VStrings([])
    case KMessages(_) => VMessages([])
  }

  // ----- encoding -----

  /** What one record of a field carries. */
  datatype Item = IVarint(v: nat) | IBytes(payload: seq<Byte>)

  function WireType(item: Item): nat {
    if item.IVarint? then 0 else 2
  }

  function KindWireType(kind: Kind): nat {
    match kind
    case KBool => 0
    case KInt64 => 0
    case KInt32Ptr => 0
    case _ => 2
  }

  /** The records that a field value is written as, in wire order. */
  function Items(kind: Kind, v: Value): (items: seq<Item>)
    requires TypedValue(kind, v)
    decreases v, 0
  {
    match kind
    case KString => [IBytes(v.s)]
    case KBytes => if v.bytes.Some? then [IBytes(v.bytes.value)] else []
    case KBool => [IVarint(if v.b then 1 else 0)]
    case KInt64 => [IVarint(FromInt64(v.i))]
    case KInt32Ptr => if v.p.Some? then [IVarint(FromInt64(v.p.value))] else []
    case KMessage(sub) => [IBytes(Encode(sub, v.m))]
    case KMessagePtr(sub) => if v.mp.Some? then [IBytes(Encode(sub, v.mp.value))] else []
    case KStrings => StringItems(v.ss)
    case KMessages(sub) => MessageItems(sub, v.ms)
  }

  function StringItems(ss: seq<seq<Byte>>): seq<Item> {
    if ss == [] then [] else [IBytes(ss[0])] + StringItems(ss[1..])
  }

  function MessageItems(sub: Schema, ms: seq<Message>): seq<Item>
    requires forall j | 0 <= j < |ms| :: Typed(sub, ms[j])
    decreases ms, 0
  {
    if ms == [] then [] else [IBytes(Encode(sub, ms[0]))] + MessageItems(sub, ms[1..])
  }

  function Tag(num: nat, wt: nat): seq<Byte> {
    EncodeVarint(num * 8 + wt)
  }

  function EncodeItem(num: nat, item: Item): (s: seq<Byte>)
    ensures |s| > 0
  {
    Tag(num, WireType(item)) +
    match item
    case IVarint(v) => EncodeVarint(v)
    case IBytes(p) => EncodeVarint(|p|) + p
  }

  function EncodeItems(num: nat, items: seq<Item>): seq<Byte> {
    if items == [] then [] else EncodeItem(num, items[0]) + EncodeItems(num, items[1..])
  }

  function EncodeValue(f: Field, v: Value): seq<Byte>
    requires TypedValue(f.kind, v)
    decreases v, 1
  {
    EncodeItems(f.num, Items(f.kind, v))
  }

  /** The bytes of the fields from index `k` on. */
  function EncodeFrom(sch: Schema, m: Message, k: nat): seq<Byte>
    requires Typed(sch, m) && k <= |sch|
    decreases m, |sch| - k
  {
    if k == |sch| then []
    else EncodeValue(sch[k], m.vals[k]) + EncodeFrom(sch, m, k + 1)
  }

  /** The wire form of a message. */
  function Encode(sch: Schema, m: Message): seq<Byte>
    requires Typed(sch, m)
    decreases m, |sch| + 1
  {
    EncodeFrom(sch, m, 0)
  }

  // ----- merging -----

  /** Protocol-buffer merge of `y` over `x`: scalars present in `y` win, repeated fields
      concatenate, embedded messages merge field by field. */
  function MergeValue(kind: Kind, x: Value, y: Value): (v: Value)
    requires TypedValue(kind, x) && TypedValue(kind, y)
    ensures TypedValue(kind, v)
    decreases y, 0
  {
    match kind
    case KBytes => if y.bytes.Some? then y else x
    case KInt32Ptr => if y.p.Some? then y else x
    case KMessage(sub) => VMessage(Merge(sub, x.m, y.m))
    case KMessagePtr(sub) =>
      if y.mp.None? then x
      else VMessagePtr(Some(Merge(sub, if x.mp.Some? then x.mp.value else Zero(sub), y.mp.value)))
    case KStrings => VStrings(x.ss + y.ss)
    case KMessages(sub) => VMessages(x.ms + y.ms)
    case _ => y
  }

  function Merge(sch: Schema, x: Message, y: Message): (m: Message)
    requires Typed(sch, x) && Typed(sch, y)
    ensures Typed(sch, m)
    decreases y, |sch| + 1
  {
    MergeFrom(sch, x, y, 0)
  }

  /** `x` with the fields from index `k` on merged. */
  function MergeFrom(sch: Schema, x: Message, y: Message, k: nat): (m: Message)
    requires Typed(sch, x) && Typed(sch, y) && k <= |sch|
    ensures Typed(sch, m)
    ensures forall i | 0 <= i < k :: m.vals[i] == x.vals[i]
    ensures forall i | k <= i < |sch| :: m.vals[i] == MergeValue(sch[i].kind, x.vals[i], y.vals[i])
    decreases y, |sch| - k
  {
    if k == |sch| then x
    else
      var v := MergeValue(sch[k].kind, x.vals[k], y.vals[k]);
      Message(MergeFrom(sch, x, y, k + 1).vals[k := v])
  }

  /** The zero message is the unit of merging. */
  lemma {:induction false} MergeIntoZero(sch: Schema, y: Message)
    requires Typed(sch, y)
    ensures Merge(sch, Zero(sch), y) == y
    decreases y
  {
    forall i | 0 <= i < |sch| ensures Merge(sch, Zero(sch), y).vals[i] == y.vals[i] {
      MergeValueIntoZero(sch[i], y.vals[i]);
    }
  }

  lemma {:induction false} MergeValueIntoZero(f: Field, y: Value)
    requires TypedValue(f.kind, y)
    ensures MergeValue(f.kind, ZeroValue(f), y) == y
    decreases y
  {
    match f.kind
    case KMessage(sub) => MergeIntoZero(sub, y.m);
    case KMessagePtr(sub) =>
      if y.mp.Some? {
        MergeIntoZero(sub, y.mp.value);
      }
    case _ =>
  }

  lemma {:induction false} MergeAssociative(sch: Schema, x: Message, y: Message, z: Message)
    requires Typed(sch, x) && Typed(sch, y) && Typed(sch, z)
    ensures Merge(sch, Merge(sch, x, y), z) == Merge(sch, x, Merge(sch, y, z))
    decreases z
  {
    forall i | 0 <= i < |sch|
      ensures Merge(sch, Merge(sch, x, y), z).vals[i] == Merge(sch, x, Merge(sch, y, z)).vals[i]
    {
      MergeValueAssociative(sch[i].kind, x.vals[i], y.vals[i], z.vals[i]);
    }
  }

  lemma {:induction false} MergeValueAssociative(kind: Kind, x: Value, y: Value, z: Value)
    requires TypedValue(kind, x) && TypedValue(kind, y) && TypedValue(kind, z)
    ensures MergeValue(kind, MergeValue(kind, x, y), z) == MergeValue(kind, x, MergeValue(kind, y, z))
    decreases z
  {
    match kind
    case KMessage(sub) => MergeAssociative(sub, x.m, y.m, z.m);
    case KMessagePtr(sub) =>
      if z.mp.Some? {
        if y.mp.Some? {
          var x0 := if x.mp.Some? then x.mp.value else Zero(sub);
          MergeAssociative(sub, x0, y.mp.value, z.mp.value);
        } else {
          MergeIntoZero(sub, z.mp.value);
        }
      }
    case _ =>
  }
}
