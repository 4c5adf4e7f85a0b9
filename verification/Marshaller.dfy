/** The marshalling side of the generated code: `Size`, the writer that fills a buffer from
    the end backwards, and the two entry points built on it. */
module Marshaller {
  import opened Bits
  import opened Results
  import opened Varint
  import opened Messages

  // ----- lengths -----

  lemma ItemLength(num: nat, item: Item)
    ensures |EncodeItem(num, item)| == Sov(num * 8 + WireType(item)) +
            if item.IVarint? then Sov(item.v) else Sov(|item.payload|) + |item.payload|
  {
    SovIsEncodedLength(num * 8 + WireType(item));
    SovIsEncodedLength(if item.IVarint? then item.v else |item.payload|);
    hide EncodeVarint, Sov;
  }

  lemma OneItem(num: nat, item: Item)
    ensures EncodeItems(num, [item]) == EncodeItem(num, item)
  {
    hide EncodeItem;
    assert [item][1..] == [];
  }

  /** `n += 1 + l + sovGenerated(uint64(l))`; the leading 1 is the size of the tag. */
  function LenSize(num: nat, l: nat): nat {
    Sov(num * 8 + 2) + l + Sov(l)
  }

  lemma BytesLength(num: nat, p: seq<Byte>)
    ensures |EncodeItem(num, IBytes(p))| == LenSize(num, |p|)
    ensures EncodeItems(num, [IBytes(p)]) == EncodeItem(num, IBytes(p))
  {
    ItemLength(num, IBytes(p));
    OneItem(num, IBytes(p));
  }

  lemma VarintLength(num: nat, v: nat)
    ensures |EncodeItem(num, IVarint(v))| == Sov(num * 8) + Sov(v)
    ensures EncodeItems(num, [IVarint(v)]) == EncodeItem(num, IVarint(v))
  {
    ItemLength(num, IVarint(v));
    OneItem(num, IVarint(v));
  }

  lemma BoolLength()
    ensures Sov(0) == 1 && Sov(1) == 1
  {
    SovIsEncodedLength(0);
    SovIsEncodedLength(1);
  }

  lemma StringItemsStep(num: nat, ss: seq<seq<Byte>>, j: nat)
    requires j < |ss|
    ensures EncodeItems(num, StringItems(ss[j..])) ==
            EncodeItem(num, IBytes(ss[j])) + EncodeItems(num, StringItems(ss[j + 1..]))
  {
    hide EncodeItem;
    assert ss[j..][1..] == ss[j + 1..];
    assert StringItems(ss[j..])[1..] == StringItems(ss[j + 1..]);
  }

  lemma MessageItemsStep(num: nat, sub: Schema, ms: seq<Message>, j: nat)
    requires j < |ms| && forall i | 0 <= i < |ms| :: Typed(sub, ms[i])
    ensures EncodeItems(num, MessageItems(sub, ms[j..])) ==
            EncodeItem(num, IBytes(Encode(sub, ms[j]))) + EncodeItems(num, MessageItems(sub, ms[j + 1..]))
  {
    hide EncodeItem, Encode;
    assert ms[j..][1..] == ms[j + 1..];
    assert MessageItems(sub, ms[j..])[1..] == MessageItems(sub, ms[j + 1..]);
  }

  // ----- Size -----

  /** `Size` of a message. */
  method Size(sch: Schema, m: Message) returns (n: nat)
    requires Typed(sch, m)
    ensures n == |Encode(sch, m)|
    decreases m
  {
    n := 0;
    for k := 0 to |sch|
      invariant n + |EncodeFrom(sch, m, k)| == |Encode(sch, m)|
    {
      var l := FieldSize(sch[k], m.vals[k]);
      n := n + l;
    }
  }

  /** The summand of `Size` for one field. */
  method FieldSize(f: Field, v: Value) returns (n: nat)
    requires TypedValue(f.kind, v)
    ensures n == |EncodeValue(f, v)|
    decreases v
  {
    hide EncodeItem, EncodeItems, LenSize, Sov;
    match f.kind {
      case KString =>
        BytesLength(f.num, v.s);
        n := LenSize(f.num, |v.s|);
      case KBytes =>
        if v.bytes.Some? {
          BytesLength(f.num, v.bytes.value);
          n := LenSize(f.num, |v.bytes.value|);
        } else {
          NoItems(f.num);
          n := 0;
        }
      case KBool =>
        VarintLength(f.num, if v.b then 1 else 0);
        BoolLength();
        n := Sov(f.num * 8) + 1;
      case KInt64 =>
        VarintLength(f.num, FromInt64(v.i));
        n := Sov(f.num * 8) + Sov(FromInt64(v.i));
      case KInt32Ptr =>
        if v.p.Some? {
          VarintLength(f.num, FromInt64(v.p.value));
          n := Sov(f.num * 8) + Sov(FromInt64(v.p.value));
        } else {
          NoItems(f.num);
          n := 0;
        }
      case KMessage(sub) =>
        var l := Size(sub, v.m);
        BytesLength(f.num, Encode(sub, v.m));
        n := LenSize(f.num, l);
      case KMessagePtr(sub) =>
        if v.mp.Some? {
          var l := Size(sub, v.mp.value);
          BytesLength(f.num, Encode(sub, v.mp.value));
          n := LenSize(f.num, l);
        } else {
          NoItems(f.num);
          n := 0;
        }
      case KStrings =>
        n := StringsSize(f.num, v.ss);
      case KMessages(sub) =>
        n := MessagesSize(f.num, sub, v.ms);
    }
  }

  lemma NoItems(num: nat)
    ensures EncodeItems(num, []) == []
  {
  }

  method StringsSize(num: nat, ss: seq<seq<Byte>>) returns (n: nat)
    ensures n == |EncodeItems(num, StringItems(ss))|
  {
    hide EncodeItem, EncodeItems, StringItems, LenSize;
    n := 0;
    assert ss[0..] == ss;
    for j := 0 to |ss|
      invariant n + |EncodeItems(num, StringItems(ss[j..]))| == |EncodeItems(num, StringItems(ss))|
    {
      StringItemsStep(num, ss, j);
      BytesLength(num, ss[j]);
      n := n + LenSize(num, |ss[j]|);
    }
    NoStrings(num, ss[|ss|..]);
  }

  lemma NoStrings(num: nat, ss: seq<seq<Byte>>)
    requires ss == []
    ensures EncodeItems(num, StringItems(ss)) == []
  {
  }

  method MessagesSize(num: nat, sub: Schema, ms: seq<Message>) returns (n: nat)
    requires forall i | 0 <= i < |ms| :: Typed(sub, ms[i])
    ensures n == |EncodeItems(num, MessageItems(sub, ms))|
    decreases ms
  {
    hide EncodeItem, EncodeItems, MessageItems, LenSize, Typed;
    n := 0;
    assert ms[0..] == ms;
    for j := 0 to |ms|
      invariant n + |EncodeItems(num, MessageItems(sub, ms[j..]))| == |EncodeItems(num, MessageItems(sub, ms))|
    {
      var l := Size(sub, ms[j]);
      MessageItemsStep(num, sub, ms, j);
      BytesLength(num, Encode(sub, ms[j]));
      n := n + LenSize(num, l);
    }
    NoMessages(num, sub, ms[|ms|..]);
  }

  lemma NoMessages(num: nat, sub: Schema, ms: seq<Message>)
    requires ms == []
    ensures EncodeItems(num, MessageItems(sub, ms)) == []
  {
  }

  // ----- the backward writer -----

  lemma PatchTwice(buf: seq<Byte>, end: nat, lo: seq<Byte>, hi: seq<Byte>)
    requires |lo| + |hi| <= end <= |buf|
    ensures Patch(Patch(buf, end, hi), end - |hi|, lo) == Patch(buf, end, lo + hi)
  {
    var once := Patch(buf, end, hi);
    var i := end - |hi| - |lo|;
    assert once[..i] == buf[..i];
    assert once[end - |hi|..] == hi + buf[end..];
  }

  lemma PatchNothing(buf: seq<Byte>, end: nat)
    requires end <= |buf|
    ensures Patch(buf, end, []) == buf
  {
  }

  /** `i -= len(s); copy(dAtA[i:], s)`. */
  method WriteBytes(dAtA: array<Byte>, end: nat, s: seq<Byte>) returns (i: nat)
    requires |s| <= end <= dAtA.Length
    modifies dAtA
    ensures i == end - |s|
    ensures dAtA[..] == Patch(old(dAtA[..]), end, s)
  {
    i := end - |s|;
    forall k | 0 <= k < |s| {
      dAtA[i + k] := s[k];
    }
  }

  /** A length-delimited record whose payload already ends at the tail of the buffer. */
  method WritePrefix(dAtA: array<Byte>, end: nat, num: nat, len: nat) returns (i: nat)
    requires len < TWO_64 && |Tag(num, 2)| + |EncodeVarint(len)| <= end <= dAtA.Length
    modifies dAtA
    ensures i == end - |Tag(num, 2)| - |EncodeVarint(len)|
    ensures dAtA[..] == Patch(old(dAtA[..]), end, Tag(num, 2) + EncodeVarint(len))
  {
    hide EncodeVarint, Tag;
    ghost var buf := dAtA[..];
    i := EncodeVarintGenerated(dAtA, end, len);
    PatchTwice(buf, end, Tag(num, 2), EncodeVarint(len));
    i := WriteBytes(dAtA, i, Tag(num, 2));
  }

  /** A record holding `s`. */
  method WriteString(dAtA: array<Byte>, end: nat, num: nat, s: seq<Byte>) returns (i: nat)
    requires |s| < TWO_64 && |EncodeItem(num, IBytes(s))| <= end <= dAtA.Length
    modifies dAtA
    ensures i == end - |EncodeItem(num, IBytes(s))|
    ensures dAtA[..] == Patch(old(dAtA[..]), end, EncodeItem(num, IBytes(s)))
  {
    ghost var head := Tag(num, 2) + EncodeVarint(|s|);
    assert EncodeItem(num, IBytes(s)) == head + s;
    hide EncodeVarint, Tag, EncodeItem;
    ghost var buf := dAtA[..];
    i := WriteBytes(dAtA, end, s);
    PatchTwice(buf, end, head, s);
    i := WritePrefix(dAtA, i, num, |s|);
  }

  /** A varint record. */
  method WriteVarint(dAtA: array<Byte>, end: nat, num: nat, v: nat) returns (i: nat)
    requires v < TWO_64 && |EncodeItem(num, IVarint(v))| <= end <= dAtA.Length
    modifies dAtA
    ensures i == end - |EncodeItem(num, IVarint(v))|
    ensures dAtA[..] == Patch(old(dAtA[..]), end, EncodeItem(num, IVarint(v)))
  {
    assert EncodeItem(num, IVarint(v)) == Tag(num, 0) + EncodeVarint(v);
    hide EncodeVarint, Tag, EncodeItem;
    ghost var buf := dAtA[..];
    i := EncodeVarintGenerated(dAtA, end, v);
    PatchTwice(buf, end, Tag(num, 0), EncodeVarint(v));
    i := WriteBytes(dAtA, i, Tag(num, 0));
  }

  /** `MarshalToSizedBuffer(dAtA[:end])`: the message occupies the last `n` bytes before
      `end`; nothing else in the buffer changes. */
  method MarshalToSizedBuffer(sch: Schema, m: Message, dAtA: array<Byte>, end: nat) returns (n: nat)
    requires Typed(sch, m) && |Encode(sch, m)| <= end <= dAtA.Length && end < TWO_63
    modifies dAtA
    ensures n == |Encode(sch, m)|
    ensures dAtA[..] == Patch(old(dAtA[..]), end, Encode(sch, m))
    ensures dAtA[end - n..end] == Encode(sch, m)
    ensures dAtA[..end - n] == old(dAtA[..end - n]) && dAtA[end..] == old(dAtA[end..])
    decreases m, 1
  {
    hide TypedValue, EncodeValue, Patch;
    ghost var buf := dAtA[..];
    var i := end;
    PatchNothing(buf, end);
    EncodeFromBound(sch, m, |sch|);
    for k := |sch| downto 0
      invariant i == end - |EncodeFrom(sch, m, k)| && |EncodeFrom(sch, m, k)| <= end
      invariant dAtA[..] == Patch(buf, end, EncodeFrom(sch, m, k))
    {
      EncodeFromBound(sch, m, k);
      ghost var here, rest := EncodeValue(sch[k], m.vals[k]), EncodeFrom(sch, m, k + 1);
      PatchTwice(buf, end, here, rest);
      i := MarshalField(sch[k], m.vals[k], dAtA, i);
    }
    n := end - i;
    PatchParts(dAtA, buf, end, Encode(sch, m));
  }

  /** A patched buffer, part by part. */
  lemma PatchParts(dAtA: array<Byte>, was: seq<Byte>, end: nat, bytes: seq<Byte>)
    requires |bytes| <= end <= |was| && dAtA[..] == Patch(was, end, bytes)
    ensures dAtA.Length == |was| && dAtA[end - |bytes|..end] == bytes
    ensures dAtA[..end - |bytes|] == was[..end - |bytes|] && dAtA[end..] == was[end..]
  {
    var now := dAtA[..];
    assert now[..end - |bytes|] == dAtA[..end - |bytes|] && now[end - |bytes|..end] == dAtA[end - |bytes|..end];
    assert now[end..] == dAtA[end..];
  }

  lemma {:induction false} EncodeFromBound(sch: Schema, m: Message, k: nat)
    requires Typed(sch, m) && k <= |sch|
    ensures |EncodeFrom(sch, m, k)| <= |Encode(sch, m)|
  {
    hide TypedValue, EncodeValue;
    if k > 0 {
      EncodeFromBound(sch, m, k - 1);
    }
  }

  /** One field, written backwards from `end`. */
  method MarshalField(f: Field, v: Value, dAtA: array<Byte>, end: nat) returns (i: nat)
    requires TypedValue(f.kind, v) && |EncodeValue(f, v)| <= end <= dAtA.Length && end < TWO_63
    modifies dAtA
    ensures i == end - |EncodeValue(f, v)|
    ensures dAtA[..] == Patch(old(dAtA[..]), end, EncodeValue(f, v))
    decreases v
  {
    NoItems(f.num);
    PatchNothing(dAtA[..], end);
    hide EncodeItem, EncodeItems, Patch, Sov, LenSize;
    match f.kind {
      case KString =>
        BytesLength(f.num, v.s);
        i := WriteString(dAtA, end, f.num, v.s);
      case KBytes =>
        if v.bytes.Some? {
          BytesLength(f.num, v.bytes.value);
          i := WriteString(dAtA, end, f.num, v.bytes.value);
        } else {
          i := end;
        }
      case KBool =>
        VarintLength(f.num, if v.b then 1 else 0);
        i := WriteVarint(dAtA, end, f.num, if v.b then 1 else 0);
      case KInt64 =>
        VarintLength(f.num, FromInt64(v.i));
        i := WriteVarint(dAtA, end, f.num, FromInt64(v.i));
      case KInt32Ptr =>
        if v.p.Some? {
          VarintLength(f.num, FromInt64(v.p.value));
          i := WriteVarint(dAtA, end, f.num, FromInt64(v.p.value));
        } else {
          i := end;
        }
      case KMessage(sub) =>
        BytesLength(f.num, Encode(sub, v.m));
        i := MarshalEmbedded(f.num, sub, v.m, dAtA, end);
      case KMessagePtr(sub) =>
        if v.mp.Some? {
          BytesLength(f.num, Encode(sub, v.mp.value));
          i := MarshalEmbedded(f.num, sub, v.mp.value, dAtA, end);
        } else {
          i := end;
        }
      case KStrings =>
        i := MarshalStrings(f.num, v.ss, dAtA, end);
      case KMessages(sub) =>
        i := MarshalMessages(f.num, sub, v.ms, dAtA, end);
    }
  }

  lemma BytesItemParts(num: nat, p: seq<Byte>)
    ensures EncodeItem(num, IBytes(p)) == (Tag(num, 2) + EncodeVarint(|p|)) + p
  {
    hide Tag, EncodeVarint;
  }

  /** An embedded message: the nested call writes the payload, then come its length and the
      tag. */
  method MarshalEmbedded(num: nat, sub: Schema, m: Message, dAtA: array<Byte>, end: nat) returns (i: nat)
    requires Typed(sub, m) && |EncodeItem(num, IBytes(Encode(sub, m)))| <= end <= dAtA.Length && end < TWO_63
    modifies dAtA
    ensures i == end - |EncodeItem(num, IBytes(Encode(sub, m)))|
    ensures dAtA[..] == Patch(old(dAtA[..]), end, EncodeItem(num, IBytes(Encode(sub, m))))
    decreases m, 2
  {
    hide Encode, Typed, EncodeItem, EncodeVarint, Tag, Patch;
    ghost var payload := Encode(sub, m);
    BytesItemParts(num, payload);
    ghost var head := Tag(num, 2) + EncodeVarint(|payload|);
    ghost var buf := dAtA[..];
    var size := MarshalToSizedBuffer(sub, m, dAtA, end);
    i := end - size;
    PatchTwice(buf, end, head, payload);
    i := WritePrefix(dAtA, i, num, size);
  }

  /** A repeated string field: the loop runs from the last element to the first, and the
      elements end up in order. */
  method MarshalStrings(num: nat, ss: seq<seq<Byte>>, dAtA: array<Byte>, end: nat) returns (i: nat)
    requires |EncodeItems(num, StringItems(ss))| <= end <= dAtA.Length && end < TWO_63
    modifies dAtA
    ensures i == end - |EncodeItems(num, StringItems(ss))|
    ensures dAtA[..] == Patch(old(dAtA[..]), end, EncodeItems(num, StringItems(ss)))
  {
    hide EncodeItem, EncodeItems, StringItems, Patch;
    ghost var buf := dAtA[..];
    i := end;
    NoStrings(num, ss[|ss|..]);
    PatchNothing(buf, end);
    for j := |ss| downto 0
      invariant |EncodeItems(num, StringItems(ss[j..]))| <= |EncodeItems(num, StringItems(ss))|
      invariant i == end - |EncodeItems(num, StringItems(ss[j..]))|
      invariant dAtA[..] == Patch(buf, end, EncodeItems(num, StringItems(ss[j..])))
    {
      StringItemsStep(num, ss, j);
      StringItemsBound(num, ss, j);
      BytesLength(num, ss[j]);
      PatchTwice(buf, end, EncodeItem(num, IBytes(ss[j])), EncodeItems(num, StringItems(ss[j + 1..])));
      i := WriteString(dAtA, i, num, ss[j]);
    }
    assert ss[0..] == ss;
  }

  lemma {:induction false} StringItemsBound(num: nat, ss: seq<seq<Byte>>, j: nat)
    requires j <= |ss|
    ensures |EncodeItems(num, StringItems(ss[j..]))| <= |EncodeItems(num, StringItems(ss))|
  {
    hide EncodeItem, EncodeItems, StringItems;
    if j == 0 {
      assert ss[0..] == ss;
    } else {
      StringItemsStep(num, ss, j - 1);
      StringItemsBound(num, ss, j - 1);
    }
  }

  /** A repeated message field. */
  method MarshalMessages(num: nat, sub: Schema, ms: seq<Message>, dAtA: array<Byte>, end: nat) returns (i: nat)
    requires forall j | 0 <= j < |ms| :: Typed(sub, ms[j])
    requires |EncodeItems(num, MessageItems(sub, ms))| <= end <= dAtA.Length && end < TWO_63
    modifies dAtA
    ensures i == end - |EncodeItems(num, MessageItems(sub, ms))|
    ensures dAtA[..] == Patch(old(dAtA[..]), end, EncodeItems(num, MessageItems(sub, ms)))
    decreases ms
  {
    hide EncodeItem, EncodeItems, MessageItems, Patch, Typed, Encode;
    ghost var buf := dAtA[..];
    i := end;
    NoMessages(num, sub, ms[|ms|..]);
    PatchNothing(buf, end);
    for j := |ms| downto 0
      invariant |EncodeItems(num, MessageItems(sub, ms[j..]))| <= |EncodeItems(num, MessageItems(sub, ms))|
      invariant i == end - |EncodeItems(num, MessageItems(sub, ms[j..]))|
      invariant dAtA[..] == Patch(buf, end, EncodeItems(num, MessageItems(sub, ms[j..])))
    {
      MessageItemsStep(num, sub, ms, j);
      MessageItemsBound(num, sub, ms, j);
      ghost var here := EncodeItem(num, IBytes(Encode(sub, ms[j])));
      PatchTwice(buf, end, here, EncodeItems(num, MessageItems(sub, ms[j + 1..])));
      i := MarshalEmbedded(num, sub, ms[j], dAtA, i);
    }
    assert ms[0..] == ms;
  }

  lemma {:induction false} MessageItemsBound(num: nat, sub: Schema, ms: seq<Message>, j: nat)
    requires j <= |ms| && forall i | 0 <= i < |ms| :: Typed(sub, ms[i])
    ensures |EncodeItems(num, MessageItems(sub, ms[j..]))| <= |EncodeItems(num, MessageItems(sub, ms))|
    decreases j
  {
    hide EncodeItem, EncodeItems, MessageItems, Encode, Typed;
    if j == 0 {
      assert ms[0..] == ms;
    } else {
      MessageItemsStep(num, sub, ms, j - 1);
      MessageItemsBound(num, sub, ms, j - 1);
    }
  }

  // ----- entry points -----

  /** `Marshal`: a fresh buffer holding exactly the wire form. */
  method Marshal(sch: Schema, m: Message) returns (dAtA: array<Byte>)
    requires Typed(sch, m) && |Encode(sch, m)| < TWO_63
    ensures fresh(dAtA) && dAtA[..] == Encode(sch, m)
  {
    hide Encode, Typed;
    var size := Size(sch, m);
    dAtA := new Byte[size];
    ghost var buf := dAtA[..];
    var n := MarshalToSizedBuffer(sch, m, dAtA, size);
    assert Patch(buf, size, Encode(sch, m)) == Encode(sch, m);
  }

  /** `MarshalTo`: the wire form at the front of a buffer that may be longer. */
  method MarshalTo(sch: Schema, m: Message, dAtA: array<Byte>) returns (n: nat)
    requires Typed(sch, m) && |Encode(sch, m)| <= dAtA.Length && |Encode(sch, m)| < TWO_63
    modifies dAtA
    ensures n == |Encode(sch, m)|
    ensures dAtA[..] == Encode(sch, m) + old(dAtA[..])[n..]
  {
    hide Encode, Typed;
    var size := Size(sch, m);
    n := MarshalToSizedBuffer(sch, m, dAtA, size);
  }
}
