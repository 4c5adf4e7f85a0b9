/** Readers of an older version: a decoder that lacks a field reads everything that the
    decoder with the field reads, and both accept nothing but sequences of well-formed
    fields. */
module Compatibility {
  import opened Bits
  import opened Results
  import opened Varint
  import opened Skipper
  import opened Messages
  import opened Decoder
  import opened WireGrammar
  import RoundTrip

  // ----- known records are skippable -----

  /** The skipper steps over a known record in as many bytes as its decoding consumes. */
  lemma KnownRecordIsSkipped(data: seq<Byte>, pos: nat, p: nat)
    requires ReadHeader(data).Ok? && (ReadHeader(data).value.wt == 0 || ReadHeader(data).value.wt == 2)
    requires ReadContent(ReadHeader(data).value.wt, data[ReadHeader(data).value.n..], p).Ok?
    ensures var h := ReadHeader(data).value;
      SkipUnknown(data, pos) == Ok(h.n + ReadContent(h.wt, data[h.n..], p).value.n)
  {
    hide ReadVarint, Pow2;
    TagBits(ReadVarint(data, 0).value.raw);
  }

  /** Whatever a decoder takes in as one record is one field to the skipper. */
  lemma RecordIsSkipped(sch: Schema, m: Message, data: seq<Byte>, pos: nat)
    requires Typed(sch, m) && DecodeRecord(sch, m, data, pos).Ok?
    ensures SkipUnknown(data, pos) == Ok(DecodeRecord(sch, m, data, pos).value.n)
  {
    hide ReadHeader, ReadContent, SkipUnknown, Apply, Find, Typed;
    var h := ReadHeader(data).value;
    match Find(sch, h.num)
    case None =>
    case Some(k) => KnownRecordIsSkipped(data, pos, pos + h.n);
  }

  lemma SkippedIsField(data: seq<Byte>, pos: nat, n: nat) returns (w: Wire)
    requires SkipUnknown(data, pos) == Ok(n)
    ensures n <= |data| && WireGrammar.WellFormed(w) && Bytes(w) == data[..n]
  {
    SkipTake(data, 0, 0);
    hide Skip;
    w := ParseWire(data[..n], 0);
  }

  /** A byte string that decodes, under any schema, is exactly a sequence of well-formed
      fields: nothing is left over, and nothing is malformed. */
  lemma {:induction false} DecodableIsFields(sch: Schema, m: Message, data: seq<Byte>, pos: nat) returns (ws: seq<Wire>)
    requires Typed(sch, m) && Decode(sch, m, data, pos).Ok?
    ensures AllWellFormed(ws) && BytesAll(ws) == data
    decreases |data|
  {
    hide DecodeRecord, Typed, WireGrammar.WellFormed, Bytes;
    if data == [] {
      ws := [];
    } else {
      var s := DecodeRecord(sch, m, data, pos).value;
      RecordIsSkipped(sch, m, data, pos);
      var w := SkippedIsField(data, pos, s.n);
      var rest := DecodableIsFields(sch, s.m, data[s.n..], pos + s.n);
      ws := [w] + rest;
      assert ws[1..] == rest && data == data[..s.n] + data[s.n..];
    }
  }

  // ----- a schema without one of its fields -----

  function Without<T>(s: seq<T>, k: nat): seq<T>
    requires k < |s|
  {
    s[..k] + s[k + 1..]
  }

  function Drop(m: Message, k: nat): Message
    requires k < |m.vals|
  {
    Message(Without(m.vals, k))
  }

  lemma TypedWithout(sch: Schema, m: Message, k: nat)
    requires Typed(sch, m) && k < |sch|
    ensures |m.vals| == |sch| && Typed(Without(sch, k), Drop(m, k))
  {
    hide TypedValue;
  }

  /** Where a field is found once field `k` is gone. */
  function Shifted(r: Option<nat>, k: nat): Option<nat> {
    match r
    case None => None
    case Some(j) => if j < k then Some(j) else if j == k then None else Some(j - 1)
  }

  lemma DistinctNumbers(sch: Schema)
    requires Messages.WellFormed(sch)
    ensures forall i, j | 0 <= i < j < |sch| :: sch[i].num != sch[j].num
  {
    hide WellFormedField;
  }

  lemma FindWithout(sch: Schema, k: nat, num: int)
    requires Messages.WellFormed(sch) && k < |sch|
    ensures Find(Without(sch, k), num) == Shifted(Find(sch, num), k)
  {
    hide Find, Messages.WellFormed, Without;
    DistinctNumbers(sch);
    var less, r := Without(sch, k), Find(sch, num);
    WithoutAt(sch, k);
    if r.None? {
      assert Find(less, num).None?;
    } else if r.value == k {
      assert forall i | 0 <= i < |less| :: less[i].num != num;
    } else {
      var i := if r.value < k then r.value else r.value - 1;
      assert less[i].num == num;
      assert forall j | 0 <= j < |less| && j != i :: less[j].num != num;
    }
  }

  lemma WithoutAt<T>(s: seq<T>, k: nat)
    requires k < |s|
    ensures |Without(s, k)| == |s| - 1
    ensures forall i | 0 <= i < |s| - 1 :: Without(s, k)[i] == s[if i < k then i else i + 1]
  {
  }

  /** What a record does, in terms of the field it is for. */
  lemma RecordParts(sch: Schema, m: Message, data: seq<Byte>, pos: nat) returns (h: Header, j: Option<nat>, v: Value)
    requires Typed(sch, m) && DecodeRecord(sch, m, data, pos).Ok?
    ensures var s := DecodeRecord(sch, m, data, pos).value;
      && ReadHeader(data) == Ok(h) && j == Find(sch, h.num) && |m.vals| == |sch|
      && SkipUnknown(data, pos) == Ok(s.n)
      && s.m == if j.None? then m else Message(m.vals[j.value := v])
  {
    RecordIsSkipped(sch, m, data, pos);
    hide ReadHeader, ReadContent, SkipUnknown, Apply, Find, Typed;
    h := ReadHeader(data).value;
    j := Find(sch, h.num);
    if j.Some? {
      RoundTrip.TypedAt(sch, m, j.value);
      v := Apply(sch[j.value], m.vals[j.value], ReadContent(h.wt, data[h.n..], pos + h.n).value.item).value;
    } else {
      v := VBool(false);
    }
  }

  /** A record does the same to its field wherever the schema has it. */
  lemma SameField(a: Schema, x: Message, j: nat, b: Schema, y: Message, i: nat, data: seq<Byte>, pos: nat)
    requires Typed(a, x) && Typed(b, y) && DecodeRecord(a, x, data, pos).Ok? && |x.vals| == |a| && |y.vals| == |b|
    requires ReadHeader(data).Ok? && Find(a, ReadHeader(data).value.num) == Some(j)
    requires Find(b, ReadHeader(data).value.num) == Some(i) && b[i] == a[j] && y.vals[i] == x.vals[j]
    ensures var s := DecodeRecord(a, x, data, pos).value;
      |s.m.vals| == |a| && DecodeRecord(b, y, data, pos) == Ok(Step(Message(y.vals[i := s.m.vals[j]]), s.n))
  {
    hide ReadHeader, ReadContent, SkipUnknown, Apply, Find, Typed;
    RoundTrip.TypedAt(a, x, j);
  }

  lemma DropUpdate(m: Message, k: nat, j: nat, v: Value)
    requires k < |m.vals| && j < |m.vals|
    ensures j == k ==> Drop(Message(m.vals[j := v]), k) == Drop(m, k)
    ensures j != k ==> var i := if j < k then j else j - 1;
      |Drop(m, k).vals| == |m.vals| - 1 && Drop(m, k).vals[i] == m.vals[j] &&
      Drop(Message(m.vals[j := v]), k) == Message(Drop(m, k).vals[i := v])
  {
    if j != k {
      var i := if j < k then j else j - 1;
      assert Drop(Message(m.vals[j := v]), k).vals == Drop(m, k).vals[i := v];
    }
  }

  /** One record, read with and without field `k`. */
  lemma RecordWithout(sch: Schema, m: Message, k: nat, data: seq<Byte>, pos: nat)
    requires Messages.WellFormed(sch) && Typed(sch, m) && k < |sch| && DecodeRecord(sch, m, data, pos).Ok?
    ensures |m.vals| == |sch| && Typed(Without(sch, k), Drop(m, k))
    ensures var s := DecodeRecord(sch, m, data, pos).value;
      |s.m.vals| == |sch| && DecodeRecord(Without(sch, k), Drop(m, k), data, pos) == Ok(Step(Drop(s.m, k), s.n))
  {
    hide *;
    TypedWithout(sch, m, k);
    WithoutAt(sch, k);
    var h, j, v := RecordParts(sch, m, data, pos);
    FindWithout(sch, k, h.num);
    ShiftedAt(j, k);
    if j.None? || j.value == k {
      UnknownRecord(Without(sch, k), Drop(m, k), data, pos, h);
    }
    if j.Some? {
      DropUpdate(m, k, j.value, v);
      if j.value != k {
        var i := if j.value < k then j.value else j.value - 1;
        SameField(sch, m, j.value, Without(sch, k), Drop(m, k), i, data, pos);
      }
    }
  }

  lemma ShiftedAt(r: Option<nat>, k: nat)
    ensures r.None? || r.value == k ==> Shifted(r, k).None?
    ensures r.Some? && r.value != k ==> Shifted(r, k) == Some(if r.value < k then r.value else r.value - 1)
  {
  }

  lemma UnknownRecord(sch: Schema, m: Message, data: seq<Byte>, pos: nat, h: Header)
    requires Typed(sch, m) && ReadHeader(data) == Ok(h) && Find(sch, h.num).None? && SkipUnknown(data, pos).Ok?
    ensures DecodeRecord(sch, m, data, pos) == Ok(Step(m, SkipUnknown(data, pos).value))
  {
    hide ReadHeader, ReadContent, SkipUnknown, Apply, Find, Typed;
  }

  /** Everything that a decoder reads, the decoder without field `k` reads too, with the same
      result in all other fields. */
  lemma {:induction false} OlderReader(sch: Schema, m: Message, k: nat, data: seq<Byte>, pos: nat)
    requires Messages.WellFormed(sch) && Typed(sch, m) && k < |sch| && Decode(sch, m, data, pos).Ok?
    ensures |m.vals| == |sch| == |Decode(sch, m, data, pos).value.vals| && Typed(Without(sch, k), Drop(m, k))
    ensures Decode(Without(sch, k), Drop(m, k), data, pos) == Ok(Drop(Decode(sch, m, data, pos).value, k))
    decreases |data|
  {
    hide *;
    TypedWithout(sch, m, k);
    if data == [] {
      DecodeNothing(sch, m, pos);
      DecodeNothing(Without(sch, k), Drop(m, k), pos);
    } else {
      FirstRecord(sch, m, data, pos);
      RecordWithout(sch, m, k, data, pos);
      FirstRecord(Without(sch, k), Drop(m, k), data, pos);
      var s := DecodeRecord(sch, m, data, pos).value;
      OlderReader(sch, s.m, k, data[s.n..], pos + s.n);
    }
  }

  lemma DecodeNothing(sch: Schema, m: Message, pos: nat)
    requires Typed(sch, m)
    ensures Decode(sch, m, [], pos) == Ok(m)
  {
  }

  lemma FirstRecord(sch: Schema, m: Message, data: seq<Byte>, pos: nat)
    requires Typed(sch, m) && data != []
    ensures Decode(sch, m, data, pos).Ok? ==> DecodeRecord(sch, m, data, pos).Ok?
    ensures DecodeRecord(sch, m, data, pos).Ok? ==>
      var s := DecodeRecord(sch, m, data, pos).value;
      Decode(sch, m, data, pos) == Decode(sch, s.m, data[s.n..], pos + s.n)
  {
    hide DecodeRecord, Typed;
  }

  lemma ZeroWithout(sch: Schema, k: nat)
    requires k < |sch|
    ensures |Zero(sch).vals| == |sch| && Drop(Zero(sch), k) == Zero(Without(sch, k))
  {
    var less := Without(sch, k);
    assert forall i | 0 <= i < |less| :: less[i] == sch[if i < k then i else i + 1];
    hide ZeroValue, Typed;
    assert Drop(Zero(sch), k).vals == Zero(less).vals;
  }

  /** An old reader gets from a new writer's bytes the message without the new field. */
  lemma OlderReaderOfEncoding(sch: Schema, y: Message, k: nat)
    requires Messages.WellFormed(sch) && Typed(sch, y) && k < |sch| && |Encode(sch, y)| < TWO_63
    ensures |y.vals| == |sch| && Typed(Without(sch, k), Zero(Without(sch, k)))
    ensures Decode(Without(sch, k), Zero(Without(sch, k)), Encode(sch, y), 0) == Ok(Drop(y, k))
  {
    TypedWithout(sch, y, k);
    hide Decode, Encode, Messages.WellFormed, Typed, Zero, Without;
    RoundTrip.DecodeInvertsEncode(sch, y);
    ZeroWithout(sch, k);
    OlderReader(sch, Zero(sch), k, Encode(sch, y), 0);
  }
}
