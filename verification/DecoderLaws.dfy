/** Laws of decoding that hold for every schema, every message and every byte string. */
module DecoderLaws {
  import opened Bits
  import opened Results
  import opened Varint
  import opened Skipper
  import opened Messages
  import opened Decoder
  import opened WireGrammar

  // ----- a record is decoded from its own bytes only -----

  lemma ReadHeaderPrefix(a: seq<Byte>, b: seq<Byte>)
    requires ReadHeader(a).Ok?
    ensures ReadHeader(a + b) == ReadHeader(a)
  {
    ReadVarintPrefix(a, b, 0);
  }

  lemma ReadContentPrefix(wt: nat, a: seq<Byte>, b: seq<Byte>, p: nat, q: nat)
    requires wt == 0 || wt == 2
    requires ReadContent(wt, a, p).Ok?
    ensures ReadContent(wt, a + b, q) == ReadContent(wt, a, p)
  {
    ReadVarintPrefix(a, b, 0);
    if wt == 2 {
      var v := ReadVarint(a, 0).value;
      var e := v.n + v.raw % TWO_64;
      assert (a + b)[v.n..e] == a[v.n..e];
    }
  }

  lemma SkipUnknownPrefix(a: seq<Byte>, b: seq<Byte>, p: nat, q: nat)
    requires SkipUnknown(a, p).Ok?
    ensures SkipUnknown(a + b, q) == SkipUnknown(a, p)
  {
    SkipStable(a, b, 0, 0, 0);
  }

  lemma RecordPrefix(sch: Schema, m: Message, a: seq<Byte>, b: seq<Byte>, p: nat, q: nat)
    requires Typed(sch, m) && DecodeRecord(sch, m, a, p).Ok?
    ensures DecodeRecord(sch, m, a + b, q) == DecodeRecord(sch, m, a, p)
  {
    hide ReadHeader, ReadContent, SkipUnknown, Apply, Typed, Find;
    ReadHeaderPrefix(a, b);
    var h := ReadHeader(a).value;
    assert (a + b)[h.n..] == a[h.n..] + b;
    match Find(sch, h.num)
    case None => SkipUnknownPrefix(a, b, p, q);
    case Some(k) => ReadContentPrefix(h.wt, a[h.n..], b, p + h.n, q + h.n);
  }

  // ----- concatenation -----

  /** Decoding a concatenation decodes the second part into the result of the first. */
  lemma {:induction false} DecodeConcat(sch: Schema, m: Message, a: seq<Byte>, b: seq<Byte>, pos: nat)
    requires Typed(sch, m) && Decode(sch, m, a, pos).Ok?
    ensures Decode(sch, m, a + b, pos) == Decode(sch, Decode(sch, m, a, pos).value, b, pos + |a|)
    decreases |a|
  {
    hide DecodeRecord, Typed;
    if a == [] {
      assert a + b == b;
    } else {
      RecordPrefix(sch, m, a, b, pos, pos);
      var s := DecodeRecord(sch, m, a, pos).value;
      assert (a + b)[s.n..] == a[s.n..] + b;
      DecodeConcat(sch, s.m, a[s.n..], b, pos + s.n);
    }
  }

  /** Whether and to what a byte string decodes does not depend on where it stands. */
  lemma {:induction false} DecodeAnywhere(sch: Schema, m: Message, a: seq<Byte>, p: nat, q: nat)
    requires Typed(sch, m) && Decode(sch, m, a, p).Ok?
    ensures Decode(sch, m, a, q) == Decode(sch, m, a, p)
    decreases |a|
  {
    hide DecodeRecord, Typed;
    if a != [] {
      RecordPrefix(sch, m, a, [], p, q);
      assert a + [] == a;
      var s := DecodeRecord(sch, m, a, p).value;
      DecodeAnywhere(sch, s.m, a[s.n..], p + s.n, q + s.n);
    }
  }

  /** Equality of outcomes up to which error is reported. */
  predicate Agree(x: Result<Message>, y: Result<Message>) {
    (x.Ok? || y.Ok?) ==> x == y
  }

  lemma DecodeAgrees(sch: Schema, m: Message, a: seq<Byte>, p: nat, q: nat)
    requires Typed(sch, m)
    ensures Agree(Decode(sch, m, a, p), Decode(sch, m, a, q))
  {
    hide Decode, Typed;
    if Decode(sch, m, a, p).Ok? {
      DecodeAnywhere(sch, m, a, p, q);
    } else if Decode(sch, m, a, q).Ok? {
      DecodeAnywhere(sch, m, a, q, p);
    }
  }

  /** A record at the front is taken in first. */
  lemma DecodeFirst(sch: Schema, m: Message, a: seq<Byte>, rest: seq<Byte>, pos: nat, m': Message)
    requires Typed(sch, m) && a != [] && Typed(sch, m')
    requires DecodeRecord(sch, m, a + rest, pos) == Ok(Step(m', |a|))
    ensures Decode(sch, m, a + rest, pos) == Decode(sch, m', rest, pos + |a|)
  {
    hide DecodeRecord, Typed;
    assert (a + rest)[|a|..] == rest;
  }

  // ----- refusals -----

  /** Which records are refused for their tag. */
  lemma TagRefusals(sch: Schema, m: Message, data: seq<Byte>, pos: nat)
    requires Typed(sch, m)
    ensures var r := DecodeRecord(sch, m, data, pos); var tag := ReadVarint(data, 0);
      if tag.Err? then r == Err(tag.error)
      else
        var wire := tag.value.raw % 0x1_0000_0000_0000_0000;
        var num := wire / 8 % 0x1_0000_0000;
        && (wire % 8 == 4 ==> r == Err(EndGroupForNonGroup))
        && (wire % 8 != 4 && (num == 0 || num >= 0x8000_0000) ==> r == Err(IllegalTag))
        && (wire % 8 != 4 && 0 < num < 0x8000_0000 ==>
              forall k | 0 <= k < |sch| && sch[k].num == num && KindWireType(sch[k].kind) != wire % 8 ::
                (forall j | 0 <= j < |sch| && j != k :: sch[j].num != num) ==> r == Err(WrongWireType))
  {
    hide ReadVarint, ReadContent, SkipUnknown, Apply, Typed;
  }

  /** Which length-delimited values are refused: those of negative length, and those that run
      past the end, where a sum that wraps counts as a bad length. */
  lemma LengthRefusals(rest: seq<Byte>, pos: nat)
    ensures var r := ReadContent(2, rest, pos); var v := ReadVarint(rest, 0);
      if v.Err? then r == Err(v.error)
      else
        var length := v.value.raw % 0x1_0000_0000_0000_0000;
        var end := v.value.n + length;
        if length >= 0x8000_0000_0000_0000 then r == Err(InvalidLength)
        else if end > |rest| then r == Err(if pos + end >= 0x8000_0000_0000_0000 then InvalidLength else UnexpectedEOF)
        else r == Ok(Content(IBytes(rest[v.value.n..end]), end))
  {
    hide ReadVarint;
  }

  // ----- what a record does to its field -----

  /** A number, in whatever varint form: a bool is true unless all 64 bits are zero, and a
      signed number is the one in range that is congruent to what was read. */
  lemma NumberRead(sch: Schema, m: Message, k: nat, data: seq<Byte>, pos: nat, n: nat)
    requires Messages.WellFormed(sch) && Typed(sch, m) && k < |sch| && KindWireType(sch[k].kind) == 0
    requires ReadHeader(data) == Ok(Header(sch[k].num, 0, n)) && ReadVarint(data[n..], 0).Ok?
    ensures var r, v := DecodeRecord(sch, m, data, pos), ReadVarint(data[n..], 0).value;
      && r.Ok? && r.value.n == n + v.n && |r.value.m.vals| == |m.vals|
      && (forall i | 0 <= i < |sch| && i != k :: r.value.m.vals[i] == m.vals[i])
      && IsNumber(sch[k].kind, r.value.m.vals[k], v.raw)
  {
    NumberOf(sch[k], m.vals[k], ReadVarint(data[n..], 0).value.raw);
    hide ReadHeader, ReadVarint, WellFormedField, Apply, IsNumber, TypedValue;
  }

  lemma NumberOf(f: Field, old_: Value, v: nat)
    requires TypedValue(f.kind, old_) && KindWireType(f.kind) == 0
    ensures Apply(f, old_, IVarint(v)).Ok? && IsNumber(f.kind, Apply(f, old_, IVarint(v)).value, v)
  {
    Signed64(v);
    Signed32(v);
    hide ToInt64, ToInt32;
  }

  /** Signed numbers are congruent to the pattern that they are read from. */
  lemma Signed64(v: int)
    requires v >= 0
    ensures (ToInt64(v % TWO_64) - v) % 0x1_0000_0000_0000_0000 == 0
  {
    var d := v / 0x1_0000_0000_0000_0000;
    assert v == d * 0x1_0000_0000_0000_0000 + v % 0x1_0000_0000_0000_0000;
    assert (-d * 0x1_0000_0000_0000_0000) % 0x1_0000_0000_0000_0000 == 0;
    assert ((-d - 1) * 0x1_0000_0000_0000_0000) % 0x1_0000_0000_0000_0000 == 0;
  }

  lemma Signed32(v: int)
    requires v >= 0
    ensures (ToInt32(v % TWO_32) - v) % 0x1_0000_0000 == 0
  {
    var d := v / 0x1_0000_0000;
    assert v == d * 0x1_0000_0000 + v % 0x1_0000_0000;
    assert (-d * 0x1_0000_0000) % 0x1_0000_0000 == 0 && ((-d - 1) * 0x1_0000_0000) % 0x1_0000_0000 == 0;
  }

  /** `x` is what a field of kind `kind` makes of the varint `v`. */
  predicate IsNumber(kind: Kind, x: Value, v: nat) {
    match kind
    case KBool => x.VBool? && (x.b <==> v % 0x1_0000_0000_0000_0000 != 0)
    case KInt64 => x.VInt64? && -0x8000_0000_0000_0000 <= x.i < 0x8000_0000_0000_0000 && (x.i - v) % 0x1_0000_0000_0000_0000 == 0
    case KInt32Ptr =>
      x.VInt32Ptr? && x.p.Some? && -0x8000_0000 <= x.p.value < 0x8000_0000 && (x.p.value - v) % 0x1_0000_0000 == 0
    case _ => false
  }

  /** A length-delimited value: strings and bytes are replaced by the payload, repeated strings
      grow by it, and an embedded message decodes it into what it held before, whose failure is
      the failure of the record. */
  lemma PayloadRead(sch: Schema, m: Message, k: nat, data: seq<Byte>, pos: nat, n: nat, p: seq<Byte>, size: nat)
    requires Messages.WellFormed(sch) && Typed(sch, m) && k < |sch| && KindWireType(sch[k].kind) == 2
    requires ReadHeader(data) == Ok(Header(sch[k].num, 2, n)) && ReadContent(2, data[n..], pos + n) == Ok(Content(IBytes(p), size))
    ensures var r, old_ := DecodeRecord(sch, m, data, pos), m.vals[k];
      && (r.Ok? ==> r.value.n == n + size && |r.value.m.vals| == |m.vals|)
      && (r.Ok? ==> forall i | 0 <= i < |sch| && i != k :: r.value.m.vals[i] == m.vals[i])
      && (sch[k].kind.KString? ==> r.Ok? && r.value.m.vals[k] == VString(p))
      && (sch[k].kind.KBytes? ==> r.Ok? && r.value.m.vals[k] == VBytes(Some(p)))
      && (sch[k].kind.KStrings? ==> r.Ok? && r.value.m.vals[k] == VStrings(old_.ss + [p]))
      && (sch[k].kind.KMessage? ==>
            var e := Decode(sch[k].kind.fields, old_.m, p, 0);
            if e.Ok? then r.Ok? && r.value.m.vals[k] == VMessage(e.value) else r == Err(e.error))
      && (sch[k].kind.KMessagePtr? ==>
            var e := Decode(sch[k].kind.fields, if old_.mp.Some? then old_.mp.value else Zero(sch[k].kind.fields), p, 0);
            if e.Ok? then r.Ok? && r.value.m.vals[k] == VMessagePtr(Some(e.value)) else r == Err(e.error))
      && (sch[k].kind.KMessages? ==>
            var e := Decode(sch[k].kind.fields, Zero(sch[k].kind.fields), p, 0);
            if e.Ok? then r.Ok? && r.value.m.vals[k] == VMessages(old_.ms + [e.value]) else r == Err(e.error))
  {
    hide ReadHeader, ReadContent, Decode, Zero, WellFormedField;
  }

  // ----- the receiver of a failing decode -----

  /** On success the receiver holds the decoded message. */
  lemma {:induction false} ReceiverOnSuccess(sch: Schema, m: Message, data: seq<Byte>, pos: nat)
    requires Typed(sch, m) && Decode(sch, m, data, pos).Ok?
    ensures Receiver(sch, m, data, pos) == Decode(sch, m, data, pos).value
    decreases |data|
  {
    hide DecodeRecord, PartialRecord, Typed;
    if data != [] {
      var s := DecodeRecord(sch, m, data, pos).value;
      ReceiverOnSuccess(sch, s.m, data[s.n..], pos + s.n);
    }
  }

  /** A failing decode keeps all that the records before the failing one decoded to, but for
      one field: an int64 or an embedded message that was being assembled in place. */
  lemma {:induction false} FailureKeepsPrefix(sch: Schema, m: Message, data: seq<Byte>, pos: nat) returns (n: nat, k: nat)
    requires Typed(sch, m) && Decode(sch, m, data, pos).Err?
    ensures n < |data| && Decode(sch, m, data[..n], pos).Ok?
    ensures var m1, r := Decode(sch, m, data[..n], pos).value, Receiver(sch, m, data, pos);
      && DecodeRecord(sch, m1, data[n..], pos + n) == Err(Decode(sch, m, data, pos).error)
      && |r.vals| == |m1.vals| == |sch|
      && (forall i | 0 <= i < |sch| && r.vals[i] != m1.vals[i] :: i == k)
      && (r != m1 ==> k < |sch| && AssembledInPlace(sch[k].kind))
    decreases |data|
  {
    hide DecodeRecord, PartialRecord, Typed, AssembledInPlace;
    var s := DecodeRecord(sch, m, data, pos);
    if s.Err? {
      k := PartialFrame(sch, m, data, pos);
      n := 0;
      assert data[0..] == data && data[..0] == [];
    } else {
      var a, b := data[..s.value.n], data[s.value.n..];
      assert data == a + b;
      RecordAlone(sch, m, data, pos);
      var n', k' := FailureKeepsPrefix(sch, s.value.m, b, pos + s.value.n);
      n, k := s.value.n + n', k';
      DecodeFirstOf(sch, m, a, b[..n'], pos);
      assert data[..n] == a + b[..n'] && data[n..] == b[n'..];
    }
  }

  predicate AssembledInPlace(kind: Kind) {
    kind.KInt64? || kind.KMessage? || kind.KMessagePtr? || kind.KMessages?
  }

  lemma PartialFrame(sch: Schema, m: Message, data: seq<Byte>, pos: nat) returns (k: nat)
    requires Typed(sch, m)
    ensures var r := PartialRecord(sch, m, data, pos);
      && |r.vals| == |m.vals| == |sch|
      && (forall i | 0 <= i < |sch| && r.vals[i] != m.vals[i] :: i == k)
      && (r != m ==> k < |sch| && AssembledInPlace(sch[k].kind))
  {
    hide ReadHeader, ReadContent, Find, Typed, Receiver, TypedValue;
    TypedLength(sch, m);
    k := 0;
    var h := ReadHeader(data);
    if h.Ok? && Find(sch, h.value.num).Some? {
      k := Find(sch, h.value.num).value;
      FieldKept(sch[k], m.vals[k], data[h.value.n..], pos + h.value.n);
      assert m.vals[k := m.vals[k]] == m.vals;
      hide PartialField;
    }
  }

  lemma FieldKept(f: Field, v: Value, rest: seq<Byte>, pos: nat)
    requires TypedValue(f.kind, v)
    ensures !AssembledInPlace(f.kind) ==> PartialField(f, v, rest, pos) == v
  {
    hide ReadContent, Receiver;
  }

  lemma TypedLength(sch: Schema, m: Message)
    requires Typed(sch, m)
    ensures |m.vals| == |sch| && forall i | 0 <= i < |sch| :: TypedValue(sch[i].kind, m.vals[i])
  {
    hide TypedValue;
  }

  /** A record decodes alike when nothing follows it. */
  lemma RecordAlone(sch: Schema, m: Message, data: seq<Byte>, pos: nat)
    requires Typed(sch, m) && DecodeRecord(sch, m, data, pos).Ok?
    ensures var s := DecodeRecord(sch, m, data, pos).value;
      DecodeRecord(sch, m, data[..s.n], pos) == Ok(s)
  {
    hide Typed, ReadHeader, ReadContent, SkipUnknown, Apply, Find;
    var s, h := DecodeRecord(sch, m, data, pos).value, ReadHeader(data).value;
    var a := data[..s.n];
    if Find(sch, h.num).None? {
      UnknownCoversTag(data, pos);
    }
    HeaderTake(data, s.n);
    assert a[h.n..] == data[h.n..][..s.n - h.n];
    match Find(sch, h.num)
    case None => UnknownTake(data, pos, s.n);
    case Some(k) => ContentTake(h.wt, data[h.n..], pos + h.n);
  }

  lemma UnknownCoversTag(data: seq<Byte>, pos: nat)
    requires ReadHeader(data).Ok? && SkipUnknown(data, pos).Ok?
    ensures ReadHeader(data).value.n <= SkipUnknown(data, pos).value
  {
    hide ReadVarint, BodyLength;
  }

  lemma HeaderTake(data: seq<Byte>, n: nat)
    requires ReadHeader(data).Ok? && ReadHeader(data).value.n <= n <= |data|
    ensures ReadHeader(data[..n]) == ReadHeader(data)
  {
    var k := ReadHeader(data).value.n;
    ReadVarintTake(data, 0);
    ReadVarintPrefix(data[..k], data[k..n], 0);
    assert data[..k] + data[k..n] == data[..n];
  }

  lemma ContentTake(wt: nat, rest: seq<Byte>, pos: nat)
    requires (wt == 0 || wt == 2) && ReadContent(wt, rest, pos).Ok?
    ensures ReadContent(wt, rest[..ReadContent(wt, rest, pos).value.n], pos) == ReadContent(wt, rest, pos)
  {
    var n, k := ReadContent(wt, rest, pos).value.n, ReadVarint(rest, 0).value.n;
    ReadVarintTake(rest, 0);
    ReadVarintPrefix(rest[..k], rest[k..n], 0);
    assert rest[..k] + rest[k..n] == rest[..n];
    if wt == 2 {
      assert rest[..n][k..n] == rest[k..n];
    }
  }

  lemma UnknownTake(data: seq<Byte>, pos: nat, n: nat)
    requires SkipUnknown(data, pos) == Ok(n)
    ensures SkipUnknown(data[..n], pos) == Ok(n)
  {
    SkipTake(data, 0, 0);
    hide Skip;
  }

  lemma DecodeFirstOf(sch: Schema, m: Message, a: seq<Byte>, rest: seq<Byte>, pos: nat)
    requires Typed(sch, m) && a != [] && DecodeRecord(sch, m, a, pos).Ok?
    requires DecodeRecord(sch, m, a, pos).value.n == |a|
    ensures Decode(sch, m, a + rest, pos) == Decode(sch, DecodeRecord(sch, m, a, pos).value.m, rest, pos + |a|)
  {
    hide DecodeRecord, Typed, Decode;
    RecordPrefix(sch, m, a, rest, pos, pos);
    DecodeFirst(sch, m, a, rest, pos, DecodeRecord(sch, m, a, pos).value.m);
  }

  // ----- unknown fields -----

  /** `u` is one serialized field, groups balanced, whose number the message lacks. */
  ghost predicate UnknownField(sch: Schema, u: seq<Byte>) {
    && (exists w :: WireGrammar.WellFormed(w) && Bytes(w) == u)
    && ReadHeader(u).Ok? && Find(sch, ReadHeader(u).value.num).None?
  }

  lemma UnknownFieldLength(sch: Schema, u: seq<Byte>, pos: nat)
    requires UnknownField(sch, u)
    ensures SkipUnknown(u, pos) == Ok(|u|) && ReadHeader(u).Ok? && u != []
    ensures Find(sch, ReadHeader(u).value.num).None?
  {
    hide Find, ReadHeader, Skip, WireGrammar.WellFormed, Bytes;
    var w :| WireGrammar.WellFormed(w) && Bytes(w) == u;
    SkipWire(w, [], 0, 0);
    assert u + [] == u;
  }

  lemma UnknownFieldIsSkipped(sch: Schema, m: Message, u: seq<Byte>, rest: seq<Byte>, pos: nat)
    requires Typed(sch, m) && UnknownField(sch, u)
    ensures Decode(sch, m, u + rest, pos) == Decode(sch, m, rest, pos + |u|)
  {
    hide UnknownField, Find, ReadHeader, SkipUnknown, Typed, Apply, Decode;
    UnknownFieldLength(sch, u, pos);
    ReadHeaderPrefix(u, rest);
    SkipUnknownPrefix(u, rest, pos, pos);
    assert DecodeRecord(sch, m, u + rest, pos) == Ok(Step(m, |u|));
    DecodeFirst(sch, m, u, rest, pos, m);
  }

  /** Inserting an unknown field at any field boundary of a byte string changes neither
      whether it decodes nor the decoded message. */
  lemma InsertUnknownField(sch: Schema, m: Message, a: seq<Byte>, u: seq<Byte>, b: seq<Byte>)
    requires Typed(sch, m) && UnknownField(sch, u) && Decode(sch, m, a, 0).Ok?
    ensures Agree(Decode(sch, m, a + u + b, 0), Decode(sch, m, a + b, 0))
  {
    hide UnknownField, Decode, Typed;
    var m' := Decode(sch, m, a, 0).value;
    DecodeConcat(sch, m, a, b, 0);
    assert a + u + b == a + (u + b);
    DecodeConcat(sch, m, a, u + b, 0);
    UnknownFieldIsSkipped(sch, m', u, b, |a|);
    DecodeAgrees(sch, m', b, |a| + |u|, |a|);
  }

  /** What an int64 field is left with when its varint breaks off: bits 7i to 7i+6 come from
      byte `i`, for every byte that is there and for ten at most. */
  lemma {:induction false} UnfinishedDigits(rest: seq<Byte>, k: nat, i: nat)
    requires i < |rest| && k + i < 10
    ensures Digit(Unfinished(rest, k), i) == rest[i] % 128
    decreases i
  {
    LowDigit(rest[0] % 128, Unfinished(rest[1..], k + 1));
    if i > 0 {
      UnfinishedDigits(rest[1..], k + 1, i - 1);
      ShiftPlace(rest[0] % 128, Unfinished(rest[1..], k + 1), i);
    }
    hide Digit;
  }

  /** A truncated number leaves a bool or a pointer field as it was, and an int64 field with the
      bits read so far. */
  lemma BrokenNumber(f: Field, old_: Value, rest: seq<Byte>, pos: nat)
    requires TypedValue(f.kind, old_) && KindWireType(f.kind) == 0 && ReadVarint(rest, 0).Err?
    ensures var v := PartialField(f, old_, rest, pos);
      && (!f.kind.KInt64? ==> v == old_)
      && (f.kind.KInt64? ==> -0x8000_0000_0000_0000 <= v.i < 0x8000_0000_0000_0000)
      && (f.kind.KInt64? ==> (v.i - Unfinished(rest, 0)) % 0x1_0000_0000_0000_0000 == 0)
  {
    Signed64(Unfinished(rest, 0));
    hide Unfinished, ReadVarint;
  }
}
