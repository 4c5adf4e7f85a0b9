/** The generated `Unmarshal` loop over a buffer, with Go's 64-bit index arithmetic. */
module Unmarshaller {
  import opened Bits
  import opened Results
  import opened Varint
  import opened Skipper
  import opened Messages
  import opened Decoder

  /** The tag at index `i`: `fieldNum`, `wireType` and the index after it. */
  method DecodeHeader(dAtA: seq<Byte>, i: nat) returns (r: Result<Header>)
    requires i <= |dAtA|
    ensures r == ReadHeader(dAtA[i..])
  {
    Pow2Widths();
    hide ReadVarint, Pow2;
    var tag, _ := DecodeVarint(dAtA, i, 64);
    if tag.Err? {
      return Err(tag.error);
    }
    var wire := tag.value.raw;
    var fieldNum := ToInt32(wire / 8 % TWO_32);
    var wireType := wire % 8;
    if wireType == 4 {
      return Err(EndGroupForNonGroup);
    }
    if fieldNum <= 0 {
      return Err(IllegalTag);
    }
    return Ok(Header(fieldNum, wireType, tag.value.n));
  }

  /** A length prefix at index `i` and the slice it announces: bounds of the payload. */
  method DecodeSlice(dAtA: seq<Byte>, i: nat) returns (r: Result<(nat, nat)>)
    requires i <= |dAtA| < TWO_63
    ensures var c := ReadContent(2, dAtA[i..], i);
      if c.Err? then r == Err(c.error)
      else r.Ok? && i <= r.value.0 <= r.value.1 == i + c.value.n <= |dAtA| &&
           dAtA[r.value.0..r.value.1] == c.value.item.payload
  {
    Pow2Widths();
    hide ReadVarint, Pow2;
    var prefix, _ := DecodeVarint(dAtA, i, 64);
    if prefix.Err? {
      return Err(prefix.error);
    }
    var from := i + prefix.value.n;
    var length := ToInt64(prefix.value.raw);
    if length < 0 {
      return Err(InvalidLength);
    }
    var postIndex := Wrap64(from + length);
    if postIndex < 0 {
      return Err(InvalidLength);
    }
    if postIndex > |dAtA| {
      return Err(UnexpectedEOF);
    }
    assert dAtA[i..][prefix.value.n..prefix.value.n + length] == dAtA[from..postIndex];
    return Ok((from, postIndex));
  }

  /** The `default` case at index `i`: the index after the skipped field. */
  method DecodeUnknown(dAtA: seq<Byte>, i: nat) returns (r: Result<nat>)
    requires i <= |dAtA| < TWO_63
    ensures var s := SkipUnknown(dAtA[i..], i);
      if s.Err? then r == Err(s.error) else r == Ok(i + s.value)
  {
    hide Skip;
    var skippy := SkipGenerated(dAtA[i..]);
    if skippy.Err? {
      return Err(skippy.error);
    }
    SkipIsAnInt(dAtA[i..]);
    if Wrap64(i + skippy.value) < 0 {
      return Err(InvalidLength);
    }
    if Wrap64(i + skippy.value) > |dAtA| {
      return Err(UnexpectedEOF);
    }
    return Ok(i + skippy.value);
  }

  /** The skipper never returns an index that wrapped. */
  lemma {:induction false} SkipIsAnInt(data: seq<Byte>)
    requires |data| < TWO_63 && Skip(data, 0, 0).Ok?
    ensures Skip(data, 0, 0).value < TWO_63
  {
    SkipStaysBelow(data, 0, 0);
  }

  lemma {:induction false} SkipStaysBelow(data: seq<Byte>, pos: nat, depth: nat)
    requires pos + |data| < TWO_63 && Skip(data, pos, depth).Ok?
    ensures pos + Skip(data, pos, depth).value < TWO_63
    decreases |data|
  {
    hide ReadToken;
    var t := ReadToken(data, depth).value;
    if NextDepth(t.wt, depth) != 0 {
      SkipStaysBelow(data[t.n..], pos + t.n, NextDepth(t.wt, depth));
    }
  }

  /** The varint cases of the switch: what the field holds afterwards, and the next index. */
  method DecodeScalar(f: Field, old_: Value, dAtA: seq<Byte>, i: nat) returns (r: Result<nat>, v: Value)
    requires KindWireType(f.kind) == 0 && TypedValue(f.kind, old_) && i <= |dAtA|
    ensures var c := ReadContent(0, dAtA[i..], i);
      if c.Err? then r == Err(c.error) && v == PartialField(f, old_, dAtA[i..], i)
      else Apply(f, old_, c.value.item) == Ok(v) && r == Ok(i + c.value.n)
  {
    Pow2Widths();
    hide ReadVarint, Pow2, Unfinished;
    v := old_;
    var read, raw := DecodeVarint(dAtA, i, if f.kind.KInt32Ptr? then 32 else 64);
    if f.kind.KInt64? {
      v := VInt64(ToInt64(raw));
    }
    if read.Err? {
      r := Err(read.error);
      return;
    }
    r := Ok(i + read.value.n);
    match f.kind {
      case KBool => v := VBool(raw != 0);
      case KInt64 =>
      case KInt32Ptr => v := VInt32Ptr(Some(ToInt32(raw)));
    }
  }

  /** The length-delimited cases: the payload is taken in by the field. */
  method DecodePayload(f: Field, old_: Value, payload: seq<Byte>) returns (err: Option<Error>, v: Value)
    requires KindWireType(f.kind) == 2 && TypedValue(f.kind, old_) && |payload| < TWO_63
    ensures var a := Apply(f, old_, IBytes(payload));
      if a.Ok? then err.None? && v == a.value
      else err == Some(a.error) && v == PartialApply(f, old_, IBytes(payload))
    decreases |payload|, 3
  {
    hide Decode, Zero, Receiver;
    err := None;
    match f.kind {
      case KString => v := VString(payload);
      case KBytes => v := VBytes(Some(payload));
      case KMessage(sub) =>
        var m;
        err, m := Unmarshal(sub, old_.m, payload);
        v := VMessage(m);
      case KMessagePtr(sub) =>
        var m := if old_.mp.None? then Zero(sub) else old_.mp.value;
        err, m := Unmarshal(sub, m, payload);
        v := VMessagePtr(Some(m));
      case KStrings => v := VStrings(old_.ss + [payload]);
      case KMessages(sub) =>
        var m;
        err, m := Unmarshal(sub, Zero(sub), payload);
        v := VMessages(old_.ms + [m]);
    }
  }

  /** One round of the loop: the record at index `i`. */
  method UnmarshalRecord(sch: Schema, m: Message, dAtA: seq<Byte>, i: nat) returns (r: Result<nat>, m': Message)
    requires Typed(sch, m) && i < |dAtA| < TWO_63
    ensures var s := DecodeRecord(sch, m, dAtA[i..], i);
      if s.Ok? then r == Ok(i + s.value.n) && m' == s.value.m
      else r == Err(s.error) && m' == PartialRecord(sch, m, dAtA[i..], i)
    decreases |dAtA|, 1
  {
    hide Typed, TypedValue, ReadHeader, ReadContent, Apply, PartialApply, Find, SkipUnknown;
    TypedFields(sch, m);
    m' := m;
    var h := DecodeHeader(dAtA, i);
    if h.Err? {
      r := Err(h.error);
      return;
    }
    var wt, j := h.value.wt, i + h.value.n;
    assert dAtA[i..][h.value.n..] == dAtA[j..];
    match Find(sch, h.value.num) {
      case None =>
        r := DecodeUnknown(dAtA, i);
      case Some(k) =>
        if KindWireType(sch[k].kind) != wt {
          r := Err(WrongWireType);
          return;
        }
        var v;
        r, v := UnmarshalField(sch[k], m.vals[k], dAtA, j);
        m' := Message(m.vals[k := v]);
        assert m.vals[k := m.vals[k]] == m.vals;
    }
  }

  /** The value of a known field at index `i`, and the index after it. */
  method UnmarshalField(f: Field, old_: Value, dAtA: seq<Byte>, i: nat) returns (r: Result<nat>, v: Value)
    requires TypedValue(f.kind, old_) && i <= |dAtA| < TWO_63
    ensures var c := ReadContent(KindWireType(f.kind), dAtA[i..], i);
      if c.Err? then r == Err(c.error) && v == PartialField(f, old_, dAtA[i..], i)
      else
        var a := Apply(f, old_, c.value.item);
        if a.Ok? then r == Ok(i + c.value.n) && v == a.value
        else r == Err(a.error) && v == PartialField(f, old_, dAtA[i..], i)
    decreases |dAtA|, 0
  {
    hide TypedValue, ReadContent, Apply, PartialApply, Unfinished;
    if KindWireType(f.kind) == 0 {
      r, v := DecodeScalar(f, old_, dAtA, i);
      return;
    }
    v := old_;
    var bounds := DecodeSlice(dAtA, i);
    if bounds.Err? {
      r := Err(bounds.error);
      return;
    }
    var (from, to) := bounds.value;
    PayloadShrinks(dAtA, i);
    var err;
    err, v := DecodePayload(f, old_, dAtA[from..to]);
    r := if err.Some? then Err(err.value) else Ok(to);
  }

  lemma TypedFields(sch: Schema, m: Message)
    requires Typed(sch, m)
    ensures |m.vals| == |sch| && forall i | 0 <= i < |sch| :: TypedValue(sch[i].kind, m.vals[i])
  {
  }

  lemma PayloadShrinks(dAtA: seq<Byte>, j: nat)
    requires j <= |dAtA| && ReadContent(2, dAtA[j..], j).Ok?
    ensures ReadContent(2, dAtA[j..], j).value.item.IBytes?
    ensures |ReadContent(2, dAtA[j..], j).value.item.payload| < |dAtA|
  {
    hide ReadVarint;
  }

  /** `Unmarshal`: decodes `dAtA` into a receiver that holds `m0`; `m` is what it holds when
      the method returns, in the error case too. */
  method Unmarshal(sch: Schema, m0: Message, dAtA: seq<Byte>) returns (err: Option<Error>, m: Message)
    requires Typed(sch, m0) && |dAtA| < TWO_63
    ensures var d := Decode(sch, m0, dAtA, 0);
      && err == (if d.Ok? then None else Some(d.error)) && (d.Ok? ==> m == d.value)
    ensures m == Receiver(sch, m0, dAtA, 0)
    decreases |dAtA|, 2
  {
    hide DecodeRecord, PartialRecord, Typed;
    m := m0;
    var i := 0;
    while i < |dAtA|
      invariant 0 <= i <= |dAtA| && Typed(sch, m)
      invariant Decode(sch, m0, dAtA, 0) == Decode(sch, m, dAtA[i..], i)
      invariant Receiver(sch, m0, dAtA, 0) == Receiver(sch, m, dAtA[i..], i)
    {
      var next;
      ghost var s := DecodeRecord(sch, m, dAtA[i..], i);
      next, m := UnmarshalRecord(sch, m, dAtA, i);
      if next.Err? {
        return Some(next.error), m;
      }
      assert dAtA[i..][s.value.n..] == dAtA[next.value..];
      i := next.value;
    }
    err := None;
  }
}
