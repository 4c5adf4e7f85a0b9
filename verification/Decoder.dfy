/** The meaning of the generated `Unmarshal` methods, and the laws of decoding: reading
    record by record, concatenation, unknown fields. */
module Decoder {
  import opened Bits
  import opened Results
  import opened Varint
  import opened Skipper
  import opened Messages

  /** The `case` of the field switch that handles `num`. */
  function Find(sch: Schema, num: int): (r: Option<nat>)
    ensures r.Some? ==> r.value < |sch| && sch[r.value].num == num
    ensures r.None? ==> forall i | 0 <= i < |sch| :: sch[i].num != num
  {
    if sch == [] then None
    else if sch[|sch| - 1].num == num then Some(|sch| - 1)
    else Find(sch[..|sch| - 1], num)
  }

  datatype Header = Header(num: int, wt: nat, n: nat)

  /** `fieldNum := int32(wire >> 3)`, which drops all but 32 bits, and `wireType`. */
  function ReadHeader(data: seq<Byte>): (r: Result<Header>)
    ensures r.Ok? ==> 1 <= r.value.n <= |data| && r.value.num > 0 && r.value.wt < 8 && r.value.wt != 4
  {
    var tag :- ReadVarint(data, 0);
    var wire := tag.raw % TWO_64;
    var num, wt := ToInt32(wire / 8 % TWO_32), wire % 8;
    if wt == 4 then Err(EndGroupForNonGroup)
    else if num <= 0 then Err(IllegalTag)
    else Ok(Header(num, wt, tag.n))
  }

  /** The slice bound `index + length` lies beyond the buffer: the error depends on whether
      the 64-bit sum wrapped. */
  function Beyond(end: nat): Error {
    if end >= TWO_63 then InvalidLength else UnexpectedEOF
  }

  datatype Content = Content(item: Item, n: nat)

  /** The value that follows a tag of wire type 0 or 2. */
  function ReadContent(wt: nat, rest: seq<Byte>, pos: nat): (r: Result<Content>)
    requires wt == 0 || wt == 2
    ensures r.Ok? ==> r.value.n <= |rest| && WireType(r.value.item) == wt
    ensures r.Ok? && wt == 2 ==> |r.value.item.payload| < |rest|
  {
    var v :- ReadVarint(rest, 0);
    if wt == 0 then Ok(Content(IVarint(v.raw), v.n))
    else
      var length :- LengthOf(v.raw);
      if v.n + length > |rest| then Err(Beyond(pos + v.n + length))
      else Ok(Content(IBytes(rest[v.n..v.n + length]), v.n + length))
  }

  /** The `default` case: step over a field that the message does not have. */
  function SkipUnknown(data: seq<Byte>, pos: nat): (r: Result<nat>)
    ensures r.Ok? ==> 1 <= r.value <= |data|
  {
    var n :- Skip(data, 0, 0);
    if n > |data| then Err(Beyond(pos + n)) else Ok(n)
  }

  ghost function ItemSize(item: Item): nat {
    if item.IBytes? then |item.payload| else 0
  }

  /** How a field takes in one record. */
  function Apply(f: Field, old_: Value, item: Item): (r: Result<Value>)
    requires TypedValue(f.kind, old_) && WireType(item) == KindWireType(f.kind)
    ensures r.Ok? ==> TypedValue(f.kind, r.value)
    decreases ItemSize(item), 3
  {
    match f.kind
    case KString => Ok(VString(item.payload))
    case KBytes => Ok(VBytes(Some(item.payload)))
    case KBool => Ok(VBool(item.v % TWO_64 != 0))
    case KInt64 => Ok(VInt64(ToInt64(item.v % TWO_64)))
    case KInt32Ptr => Ok(VInt32Ptr(Some(ToInt32(item.v % TWO_32))))
    case KMessage(sub) =>
      var m :- Decode(sub, old_.m, item.payload, 0);
      Ok(VMessage(m))
    case KMessagePtr(sub) =>
      var m :- Decode(sub, if old_.mp.None? then Zero(sub) else old_.mp.value, item.payload, 0);
      Ok(VMessagePtr(Some(m)))
    case KStrings => Ok(VStrings(old_.ss + [item.payload]))
    case KMessages(sub) =>
      var m :- Decode(sub, Zero(sub), item.payload, 0);
      Ok(VMessages(old_.ms + [m]))
  }

  datatype Step = Step(m: Message, n: nat)

  /** One round of the outer loop: the record at the front of `data`. */
  function DecodeRecord(sch: Schema, m: Message, data: seq<Byte>, pos: nat): (r: Result<Step>)
    requires Typed(sch, m)
    ensures r.Ok? ==> 1 <= r.value.n <= |data| && Typed(sch, r.value.m)
    decreases |data|, 1
  {
    var h :- ReadHeader(data);
    match Find(sch, h.num)
    case None =>
      var n :- SkipUnknown(data, pos);
      Ok(Step(m, n))
    case Some(k) =>
      if KindWireType(sch[k].kind) != h.wt then Err(WrongWireType)
      else
        var c :- ReadContent(h.wt, data[h.n..], pos + h.n);
        var v :- Apply(sch[k], m.vals[k], c.item);
        Ok(Step(Message(m.vals[k := v]), h.n + c.n))
  }

  /** `m.Unmarshal(data)`: the message after all of `data`, or the error. `pos` is the index
      of `data` in the buffer; it decides only which error is reported. */
  function Decode(sch: Schema, m: Message, data: seq<Byte>, pos: nat): (r: Result<Message>)
    requires Typed(sch, m)
    ensures r.Ok? ==> Typed(sch, r.value)
    decreases |data|, 2
  {
    if data == [] then Ok(m)
    else
      var s :- DecodeRecord(sch, m, data, pos);
      Decode(sch, s.m, data[s.n..], pos + s.n)
  }

  // ----- what the receiver holds -----

  /** What the receiver holds when `m.Unmarshal(data)` returns, whether or not it fails. */
  function Receiver(sch: Schema, m: Message, data: seq<Byte>, pos: nat): (r: Message)
    requires Typed(sch, m)
    ensures Typed(sch, r)
    decreases |data|, 2
  {
    if data == [] then m
    else
      var s := DecodeRecord(sch, m, data, pos);
      if s.Ok? then Receiver(sch, s.value.m, data[s.value.n..], pos + s.value.n)
      else PartialRecord(sch, m, data, pos)
  }

  /** The receiver after a record that fails. */
  function PartialRecord(sch: Schema, m: Message, data: seq<Byte>, pos: nat): (r: Message)
    requires Typed(sch, m)
    ensures Typed(sch, r)
    decreases |data|, 1
  {
    var h := ReadHeader(data);
    if h.Err? then m
    else
      match Find(sch, h.value.num)
      case None => m
      case Some(k) =>
        if KindWireType(sch[k].kind) != h.value.wt then m
        else Message(m.vals[k := PartialField(sch[k], m.vals[k], data[h.value.n..], pos + h.value.n)])
  }

  /** An int64 field is assembled in place; other scalars, strings and bytes are assigned only
      when they are complete. */
  function PartialField(f: Field, old_: Value, rest: seq<Byte>, pos: nat): (v: Value)
    requires TypedValue(f.kind, old_)
    ensures TypedValue(f.kind, v)
    decreases |rest|, 4
  {
    var c := ReadContent(KindWireType(f.kind), rest, pos);
    if c.Ok? then PartialApply(f, old_, c.value.item)
    else if f.kind.KInt64? then VInt64(ToInt64(Unfinished(rest, 0) % TWO_64))
    else old_
  }

  /** An embedded message is decoded in place, a repeated one after it was appended. */
  function PartialApply(f: Field, old_: Value, item: Item): (v: Value)
    requires TypedValue(f.kind, old_) && WireType(item) == KindWireType(f.kind)
    ensures TypedValue(f.kind, v)
    decreases ItemSize(item), 3
  {
    match f.kind
    case KMessage(sub) => VMessage(Receiver(sub, old_.m, item.payload, 0))
    case KMessagePtr(sub) =>
      VMessagePtr(Some(Receiver(sub, if old_.mp.None? then Zero(sub) else old_.mp.value, item.payload, 0)))
    case KMessages(sub) => VMessages(old_.ms + [Receiver(sub, Zero(sub), item.payload, 0)])
    case _ => old_
  }
}
