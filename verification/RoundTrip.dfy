/** Decoding inverts encoding, for every schema and every message of it. */
module RoundTrip {
  import opened Bits
  import opened Results
  import opened Varint
  import opened Skipper
  import opened Messages
  import opened Decoder
  import opened DecoderLaws

  /** What the marshaller can hold in memory: 64-bit varints, payloads of a Go length. */
  predicate Fits(item: Item) {
    match item
    case IVarint(v) => v < TWO_64
    case IBytes(p) => |p| < TWO_63
  }

  /** `items` can be records of the field `f`. */
  predicate Suit(f: Field, items: seq<Item>) {
    forall i | 0 <= i < |items| :: Fits(items[i]) && WireType(items[i]) == KindWireType(f.kind)
  }

  function ItemBody(item: Item): seq<Byte> {
    match item
    case IVarint(v) => EncodeVarint(v)
    case IBytes(p) => EncodeVarint(|p|) + p
  }

  lemma HeaderOfTag(num: nat, wt: nat, rest: seq<Byte>)
    requires 1 <= num < 0x2000_0000 && (wt == 0 || wt == 2)
    ensures ReadHeader(Tag(num, wt) + rest) == Ok(Header(num, wt, |Tag(num, wt)|))
  {
    var tag := num * 8 + wt;
    VarintRoundTrip(tag, rest);
    SovIsEncodedLength(tag);
    TagArithmetic(num, wt);
    hide ReadVarint, EncodeVarint, Sov;
  }

  lemma TagArithmetic(num: nat, wt: nat)
    requires 1 <= num < 0x2000_0000 && wt < 8
    ensures (num * 8 + wt) % TWO_64 == num * 8 + wt
    ensures (num * 8 + wt) / 8 == num && (num * 8 + wt) % 8 == wt
    ensures num % TWO_32 == num && ToInt32(num) == num
  {
  }

  lemma ContentOfItem(item: Item, rest: seq<Byte>, pos: nat)
    requires Fits(item)
    ensures ReadContent(WireType(item), ItemBody(item) + rest, pos) == Ok(Content(item, |ItemBody(item)|))
  {
    hide ReadVarint, EncodeVarint, Sov;
    match item
    case IVarint(v) =>
      VarintRoundTrip(v, rest);
      SovIsEncodedLength(v);
    case IBytes(p) =>
      var n := EncodeVarint(|p|);
      assert ItemBody(item) + rest == n + (p + rest);
      VarintRoundTrip(|p|, p + rest);
      SovIsEncodedLength(|p|);
      assert (n + (p + rest))[|n|..|n| + |p|] == p;
  }

  lemma FindField(sch: Schema, k: nat)
    requires Messages.WellFormed(sch) && k < |sch|
    ensures Find(sch, sch[k].num) == Some(k)
  {
  }

  lemma TypedAt(sch: Schema, m: Message, k: nat)
    requires Typed(sch, m) && k < |sch|
    ensures |m.vals| == |sch| && TypedValue(sch[k].kind, m.vals[k])
  {
    hide TypedValue;
  }

  lemma TypedUpdate(sch: Schema, m: Message, k: nat, v: Value)
    requires Typed(sch, m) && k < |sch| && TypedValue(sch[k].kind, v)
    ensures Typed(sch, Message(m.vals[k := v]))
  {
    hide TypedValue;
  }

  lemma RecordOf(sch: Schema, m: Message, k: nat, data: seq<Byte>, pos: nat, h: Header, c: Content, v: Value)
    requires Messages.WellFormed(sch) && Typed(sch, m) && k < |sch| && h.num == sch[k].num
    requires ReadHeader(data) == Ok(h) && h.wt == KindWireType(sch[k].kind)
    requires ReadContent(h.wt, data[h.n..], pos + h.n) == Ok(c)
    requires Apply(sch[k], m.vals[k], c.item) == Ok(v)
    ensures DecodeRecord(sch, m, data, pos) == Ok(Step(Message(m.vals[k := v]), h.n + c.n))
  {
    FindField(sch, k);
    hide Find, ReadHeader, ReadContent, Apply, Typed;
  }

  /** An encoded record is decoded back to the item it was made from. */
  lemma RecordOfItem(sch: Schema, m: Message, k: nat, item: Item, rest: seq<Byte>, pos: nat, v: Value)
    requires Messages.WellFormed(sch) && Typed(sch, m) && k < |sch| && Fits(item)
    requires WireType(item) == KindWireType(sch[k].kind) && Apply(sch[k], m.vals[k], item) == Ok(v)
    ensures var s := EncodeItem(sch[k].num, item);
      DecodeRecord(sch, m, s + rest, pos) == Ok(Step(Message(m.vals[k := v]), |s|))
  {
    var num := sch[k].num;
    hide Find, ReadHeader, ReadContent, Apply, Typed, EncodeVarint, TypedValue, DecodeRecord;
    var tag, body := Tag(num, WireType(item)), ItemBody(item);
    assert EncodeItem(num, item) + rest == tag + (body + rest);
    HeaderOfTag(num, WireType(item), body + rest);
    assert (tag + (body + rest))[|tag|..] == body + rest;
    ContentOfItem(item, rest, pos + |tag|);
    RecordOf(sch, m, k, tag + (body + rest), pos, Header(num, WireType(item), |tag|), Content(item, |body|), v);
  }

  function ApplyAll(f: Field, v: Value, items: seq<Item>): (r: Result<Value>)
    requires TypedValue(f.kind, v) && Suit(f, items)
    ensures r.Ok? ==> TypedValue(f.kind, r.value)
    decreases |items|
  {
    if items == [] then Ok(v)
    else
      var v' :- Apply(f, v, items[0]);
      ApplyAll(f, v', items[1..])
  }

  lemma {:induction false} DecodeItems(sch: Schema, m: Message, k: nat, items: seq<Item>, rest: seq<Byte>, pos: nat)
    requires Messages.WellFormed(sch) && Typed(sch, m) && k < |sch| && Suit(sch[k], items)
    requires ApplyAll(sch[k], m.vals[k], items).Ok?
    ensures var v := ApplyAll(sch[k], m.vals[k], items).value; var s := EncodeItems(sch[k].num, items);
      Decode(sch, m, s + rest, pos) == Decode(sch, Message(m.vals[k := v]), rest, pos + |s|)
    decreases |items|
  {
    hide Decode, DecodeRecord, Apply, Messages.WellFormed, EncodeItem;
    if items == [] {
      assert [] + rest == rest;
      assert m.vals[k := m.vals[k]] == m.vals;
    } else {
      var head, tail := EncodeItem(sch[k].num, items[0]), EncodeItems(sch[k].num, items[1..]);
      var v := Apply(sch[k], m.vals[k], items[0]).value;
      var m' := Message(m.vals[k := v]);
      assert (head + tail) + rest == head + (tail + rest);
      RecordOfItem(sch, m, k, items[0], tail + rest, pos, v);
      DecodeFirst(sch, m, head, tail + rest, pos, m');
      DecodeItems(sch, m', k, items[1..], rest, pos + |head|);
      assert m'.vals[k := ApplyAll(sch[k], v, items[1..]).value]
          == m.vals[k := ApplyAll(sch[k], v, items[1..]).value];
    }
  }

  // ----- the records of a value -----

  lemma {:induction false} SmallItems(num: nat, items: seq<Item>, i: nat)
    requires i < |items| && items[i].IBytes?
    ensures |items[i].payload| < |EncodeItems(num, items)|
    decreases |items|
  {
    if i > 0 {
      SmallItems(num, items[1..], i - 1);
    }
  }

  lemma {:induction false} StringItemsApply(f: Field, x: seq<seq<Byte>>, ss: seq<seq<Byte>>)
    requires f.kind.KStrings?
    requires |EncodeItems(f.num, StringItems(ss))| < TWO_63
    ensures Suit(f, StringItems(ss))
    ensures ApplyAll(f, VStrings(x), StringItems(ss)) == Ok(VStrings(x + ss))
    decreases |ss|
  {
    if ss == [] {
      assert x + ss == x;
    } else {
      SmallItems(f.num, StringItems(ss), 0);
      assert StringItems(ss)[1..] == StringItems(ss[1..]);
      StringItemsApply(f, x + [ss[0]], ss[1..]);
      assert x + [ss[0]] + ss[1..] == x + ss;
    }
  }

  lemma {:induction false} MessageItemsApply(f: Field, sub: Schema, x: seq<Message>, ms: seq<Message>)
    requires f.kind == KMessages(sub) && Messages.WellFormed(sub)
    requires TypedValue(f.kind, VMessages(x)) && TypedValue(f.kind, VMessages(ms))
    requires |EncodeItems(f.num, MessageItems(sub, ms))| < TWO_63
    ensures Suit(f, MessageItems(sub, ms))
    ensures ApplyAll(f, VMessages(x), MessageItems(sub, ms)) == Ok(VMessages(x + ms))
    decreases ms, 1
  {
    if ms == [] {
      assert x + ms == x;
    } else {
      MessageItemApplies(f, sub, x, ms);
      SmallItems(f.num, MessageItems(sub, ms), 0);
      var items := MessageItems(sub, ms);
      hide Encode, Apply, EncodeItem;
      assert items[1..] == MessageItems(sub, ms[1..]);
      MessageItemsApply(f, sub, x + [ms[0]], ms[1..]);
      assert x + [ms[0]] + ms[1..] == x + ms;
    }
  }

  lemma {:induction false} MessageItemApplies(f: Field, sub: Schema, x: seq<Message>, ms: seq<Message>)
    requires f.kind == KMessages(sub) && Messages.WellFormed(sub) && ms != []
    requires TypedValue(f.kind, VMessages(x)) && TypedValue(f.kind, VMessages(ms))
    requires |EncodeItems(f.num, MessageItems(sub, ms))| < TWO_63
    ensures Apply(f, VMessages(x), MessageItems(sub, ms)[0]) == Ok(VMessages(x + [ms[0]]))
    decreases ms, 0
  {
    SmallItems(f.num, MessageItems(sub, ms), 0);
    hide Encode, Decode, Merge, Zero, EncodeItems;
    DecodeOfEncode(sub, Zero(sub), ms[0], 0);
    MergeIntoZero(sub, ms[0]);
  }

  /** Taking in the records of `y` over `x` merges `y` into `x`. */
  lemma {:induction false} ItemsMerge(f: Field, x: Value, y: Value)
    requires WellFormedField(f) && TypedValue(f.kind, x) && TypedValue(f.kind, y)
    requires |EncodeValue(f, y)| < TWO_63
    ensures Suit(f, Items(f.kind, y))
    ensures ApplyAll(f, x, Items(f.kind, y)) == Ok(MergeValue(f.kind, x, y))
    decreases y, 0
  {
    var items := Items(f.kind, y);
    forall i | 0 <= i < |items| && items[i].IBytes? ensures Fits(items[i]) {
      SmallItems(f.num, items, i);
    }
    hide Encode, EncodeItems, Decode, Merge, Zero;
    match f.kind
    case KInt32Ptr =>
      if y.p.Some? {
        Int32SurvivesSignExtension(y.p.value);
      }
    case KMessage(sub) =>
      DecodeOfEncode(sub, x.m, y.m, 0);
    case KMessagePtr(sub) =>
      if y.mp.Some? {
        DecodeOfEncode(sub, if x.mp.Some? then x.mp.value else Zero(sub), y.mp.value, 0);
      }
    case KStrings => StringItemsApply(f, x.ss, y.ss);
    case KMessages(sub) => MessageItemsApply(f, sub, x.ms, y.ms);
    case _ =>
  }

  // ----- messages -----

  lemma {:induction false} DecodeFields(sch: Schema, m: Message, y: Message, k: nat, pos: nat)
    requires Messages.WellFormed(sch) && Typed(sch, m) && Typed(sch, y) && k <= |sch|
    requires |EncodeFrom(sch, y, k)| < TWO_63
    ensures Decode(sch, m, EncodeFrom(sch, y, k), pos) == Ok(MergeFrom(sch, m, y, k))
    decreases y, |sch| - k, 1
  {
    if k == |sch| {
    } else {
      DecodeField(sch, m, y, k, pos);
    }
  }

  lemma {:induction false} DecodeField(sch: Schema, m: Message, y: Message, k: nat, pos: nat)
    requires Messages.WellFormed(sch) && Typed(sch, m) && Typed(sch, y) && k < |sch|
    requires |EncodeFrom(sch, y, k)| < TWO_63
    ensures Decode(sch, m, EncodeFrom(sch, y, k), pos) == Ok(MergeFrom(sch, m, y, k))
    decreases y, |sch| - k, 0
  {
    hide *;
    EncodeFirstField(sch, y, k);
    MergeOneField(sch, m, y, k);
    var f, a, b := sch[k], m.vals[k], y.vals[k];
    var items, rest := Items(f.kind, b), EncodeFrom(sch, y, k + 1);
    ItemsMerge(f, a, b);
    DecodeItems(sch, m, k, items, rest, pos);
    DecodeFields(sch, Message(m.vals[k := MergeValue(f.kind, a, b)]), y, k + 1, pos + |EncodeItems(f.num, items)|);
  }

  lemma EncodeFirstField(sch: Schema, y: Message, k: nat)
    requires Messages.WellFormed(sch) && Typed(sch, y) && k < |sch|
    ensures |y.vals| == |sch| && WellFormedField(sch[k]) && TypedValue(sch[k].kind, y.vals[k])
    ensures EncodeValue(sch[k], y.vals[k]) == EncodeItems(sch[k].num, Items(sch[k].kind, y.vals[k]))
    ensures EncodeFrom(sch, y, k) == EncodeValue(sch[k], y.vals[k]) + EncodeFrom(sch, y, k + 1)
  {
    hide Items, EncodeItems, TypedValue;
  }

  lemma MergeOneField(sch: Schema, m: Message, y: Message, k: nat)
    requires Typed(sch, m) && Typed(sch, y) && k < |sch|
    ensures |m.vals| == |y.vals| == |sch|
    ensures TypedValue(sch[k].kind, m.vals[k]) && TypedValue(sch[k].kind, y.vals[k])
    ensures var m' := Message(m.vals[k := MergeValue(sch[k].kind, m.vals[k], y.vals[k])]);
      Typed(sch, m') && MergeFrom(sch, m', y, k + 1) == MergeFrom(sch, m, y, k)
  {
    hide MergeValue, TypedValue;
    var m' := Message(m.vals[k := MergeValue(sch[k].kind, m.vals[k], y.vals[k])]);
    assert MergeFrom(sch, m', y, k + 1).vals == MergeFrom(sch, m, y, k).vals;
  }

  /** Decoding an encoded message into any message merges the two. */
  lemma {:induction false} DecodeOfEncode(sch: Schema, m: Message, y: Message, pos: nat)
    requires Messages.WellFormed(sch) && Typed(sch, m) && Typed(sch, y)
    requires |Encode(sch, y)| < TWO_63
    ensures Decode(sch, m, Encode(sch, y), pos) == Ok(Merge(sch, m, y))
    decreases y, |sch| + 1
  {
    DecodeFields(sch, m, y, 0, pos);
  }

  /** Round trip: what is marshalled is what is unmarshalled into a zero value. */
  lemma DecodeInvertsEncode(sch: Schema, y: Message)
    requires Messages.WellFormed(sch) && Typed(sch, y) && |Encode(sch, y)| < TWO_63
    ensures Decode(sch, Zero(sch), Encode(sch, y), 0) == Ok(y)
  {
    DecodeOfEncode(sch, Zero(sch), y, 0);
    MergeIntoZero(sch, y);
  }

  /** Two messages with the same wire form are equal. */
  lemma EncodeInjective(sch: Schema, x: Message, y: Message)
    requires Messages.WellFormed(sch) && Typed(sch, x) && Typed(sch, y)
    requires |Encode(sch, x)| < TWO_63 && Encode(sch, x) == Encode(sch, y)
    ensures x == y
  {
    DecodeInvertsEncode(sch, x);
    DecodeInvertsEncode(sch, y);
  }

  /** Concatenating wire forms merges messages. */
  lemma ConcatenationIsMerge(sch: Schema, x: Message, y: Message)
    requires Messages.WellFormed(sch) && Typed(sch, x) && Typed(sch, y)
    requires |Encode(sch, x)| < TWO_63 && |Encode(sch, y)| < TWO_63
    ensures Decode(sch, Zero(sch), Encode(sch, x) + Encode(sch, y), 0) == Ok(Merge(sch, x, y))
  {
    hide Encode, Decode, Merge, Messages.WellFormed, Typed;
    DecodeInvertsEncode(sch, x);
    DecodeConcat(sch, Zero(sch), Encode(sch, x), Encode(sch, y), 0);
    DecodeOfEncode(sch, x, y, |Encode(sch, x)|);
  }

  /** Runs of records of one field that have the same effect on it are interchangeable. */
  lemma SameEffect(sch: Schema, m: Message, k: nat, one: seq<Item>, two: seq<Item>, rest: seq<Byte>)
    requires Messages.WellFormed(sch) && Typed(sch, m) && k < |sch|
    requires Suit(sch[k], one) && Suit(sch[k], two)
    requires ApplyAll(sch[k], m.vals[k], one).Ok?
    requires ApplyAll(sch[k], m.vals[k], one) == ApplyAll(sch[k], m.vals[k], two)
    ensures Agree(Decode(sch, m, EncodeItems(sch[k].num, one) + rest, 0),
                  Decode(sch, m, EncodeItems(sch[k].num, two) + rest, 0))
  {
    hide *;
    TypedAt(sch, m, k);
    var f := sch[k];
    var v := ApplyAll(f, m.vals[k], one).value;
    var m' := Message(m.vals[k := v]);
    TypedUpdate(sch, m, k, v);
    DecodeItems(sch, m, k, one, rest, 0);
    DecodeItems(sch, m, k, two, rest, 0);
    DecodeAgrees(sch, m', rest, |EncodeItems(f.num, one)|, |EncodeItems(f.num, two)|);
  }

  /** Two records of an embedded field decode like one record with the joined payload. */
  lemma SplitEmbeddedField(sch: Schema, m: Message, k: nat, p1: seq<Byte>, p2: seq<Byte>, rest: seq<Byte>)
    requires Messages.WellFormed(sch) && Typed(sch, m) && k < |sch|
    requires sch[k].kind.KMessage? || sch[k].kind.KMessagePtr?
    requires |p1| + |p2| < TWO_63
    requires ApplyAll(sch[k], m.vals[k], [IBytes(p1), IBytes(p2)]).Ok?
    ensures Agree(Decode(sch, m, EncodeItems(sch[k].num, [IBytes(p1 + p2)]) + rest, 0),
                  Decode(sch, m, EncodeItems(sch[k].num, [IBytes(p1), IBytes(p2)]) + rest, 0))
  {
    TypedAt(sch, m, k);
    hide Decode, Messages.WellFormed, EncodeItems, ApplyAll, Typed, TypedValue;
    JoinedPayload(sch[k], m.vals[k], p1, p2);
    SameEffect(sch, m, k, [IBytes(p1 + p2)], [IBytes(p1), IBytes(p2)], rest);
  }

  lemma JoinedPayload(f: Field, v: Value, p1: seq<Byte>, p2: seq<Byte>)
    requires TypedValue(f.kind, v) && (f.kind.KMessage? || f.kind.KMessagePtr?)
    requires |p1| + |p2| < TWO_63
    requires ApplyAll(f, v, [IBytes(p1), IBytes(p2)]).Ok?
    ensures ApplyAll(f, v, [IBytes(p1 + p2)]) == ApplyAll(f, v, [IBytes(p1), IBytes(p2)])
  {
    hide Decode;
    ApplyOne(f, v, IBytes(p1 + p2));
    ApplyTwo(f, v, IBytes(p1), IBytes(p2));
    var sub := f.kind.fields;
    var m0 := if f.kind.KMessage? then v.m else if v.mp.Some? then v.mp.value else Zero(sub);
    hide ApplyAll;
    var m1 := Decode(sub, m0, p1, 0).value;
    DecodeConcat(sub, m0, p1, p2, 0);
    DecodeAnywhere(sub, m1, p2, 0, |p1|);
  }

  lemma ApplyOne(f: Field, v: Value, a: Item)
    requires TypedValue(f.kind, v) && Suit(f, [a])
    ensures [a][0] == a && ApplyAll(f, v, [a]) == Apply(f, v, a)
  {
    hide Apply;
    assert [a][1..] == [];
  }

  lemma ApplyTwo(f: Field, v: Value, a: Item, b: Item)
    requires TypedValue(f.kind, v) && Suit(f, [a]) && Suit(f, [b])
    ensures Suit(f, [a, b]) && ApplyAll(f, v, [a, b]) ==
            assert [a][0] == a && [b][0] == b; var r := Apply(f, v, a); if r.Ok? then Apply(f, r.value, b) else r
  {
    hide Apply;
    assert [a, b][1..] == [b] && [a][0] == a && [b][0] == b;
    if Apply(f, v, a).Ok? {
      ApplyOne(f, Apply(f, v, a).value, b);
    }
  }
}
