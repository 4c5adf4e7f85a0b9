/** Base 128 varints: the value-level encoding, the byte count `sovGenerated`, the
    in-place writer `encodeVarintGenerated` and the shift loop that reads them back. */
module Varint {
  import opened Bits
  import opened Results

  function EncodeVarint(v: nat): (s: seq<Byte>)
    ensures |s| >= 1
  {
    if v < 128 then [v] else [v % 128 + 128] + EncodeVarint(v / 128)
  }

  /** `math_bits.Len64`. */
  function BitLen(v: nat): nat {
    if v == 0 then 0 else 1 + BitLen(v / 2)
  }

  /** `sovGenerated`. */
  function Sov(x: nat): nat {
    (BitLen(BitOr(x, 1)) + 6) / 7
  }

  lemma OrOne(x: nat)
    ensures BitOr(x, 1) == (if x % 2 == 0 then x + 1 else x)
  {
    if x != 0 {
      assert BitOr(x / 2, 0) == x / 2;
    }
  }

  lemma BitLenOfEvenSuccessor(x: nat)
    requires x % 2 == 0 && x > 0
    ensures BitLen(x + 1) == BitLen(x)
  {
    assert (x + 1) / 2 == x / 2;
  }

  lemma BitLenShift7(v: nat)
    requires v >= 128
    ensures BitLen(v) == 7 + BitLen(v / 128)
  {
    var v1, v2, v3 := v / 2, v / 4, v / 8;
    var v4, v5, v6 := v / 16, v / 32, v / 64;
    assert v1 / 2 == v2 && v2 / 2 == v3 && v3 / 2 == v4;
    assert v4 / 2 == v5 && v5 / 2 == v6 && v6 / 2 == v / 128;
    assert BitLen(v) == 1 + BitLen(v1) == 2 + BitLen(v2) == 3 + BitLen(v3);
    assert BitLen(v3) == 1 + BitLen(v4) == 2 + BitLen(v5) == 3 + BitLen(v6);
  }

  lemma SovIsBitLen(x: nat)
    ensures Sov(x) == if x == 0 then 1 else (BitLen(x) + 6) / 7
  {
    OrOne(x);
    if x == 0 {
      assert BitLen(1) == 1;
    } else if x % 2 == 0 {
      BitLenOfEvenSuccessor(x);
    }
  }

  /** The byte count computed from the bit length is the length of the encoding. */
  lemma {:induction false} SovIsEncodedLength(v: nat)
    ensures |EncodeVarint(v)| == Sov(v)
  {
    SovIsBitLen(v);
    if v < 128 {
      SmallBitLen(v);
    } else {
      SovIsEncodedLength(v / 128);
      SovIsBitLen(v / 128);
      BitLenShift7(v);
    }
  }

  lemma SmallBitLen(v: nat)
    requires v < 128
    ensures v > 0 ==> 1 <= BitLen(v) <= 7
  {
    BitLenBound(v, 7);
  }

  lemma {:induction false} BitLenBound(v: nat, n: nat)
    requires v < Pow2(n)
    ensures BitLen(v) <= n
  {
    if v > 0 {
      BitLenBound(v / 2, n - 1);
    }
  }

  /** Every uint64 takes one to ten bytes. */
  lemma SovRange(v: nat)
    requires v < TWO_64
    ensures 1 <= Sov(v) <= 10
  {
    SovIsEncodedLength(v);
    SovIsBitLen(v);
    Pow2Widths();
    BitLenBound(v, 64);
  }

  /** What a read yields: the value of the 7-bit groups before any truncation, and the
      number of bytes consumed. */
  datatype Read = Read(raw: nat, n: nat)

  /** Reads one varint from the front of `data` when `k` bytes of it were already
      consumed (`shift == 7 * k`). */
  function ReadVarint(data: seq<Byte>, k: nat): (r: Result<Read>)
    ensures r.Ok? ==> 1 <= r.value.n <= |data| && k + r.value.n <= 10
    decreases |data|
  {
    if k >= 10 then Err(IntOverflow)
    else if data == [] then Err(UnexpectedEOF)
    else if data[0] < 128 then Ok(Read(data[0], 1))
    else
      var rest :- ReadVarint(data[1..], k + 1);
      Ok(Read(data[0] - 128 + 128 * rest.raw, 1 + rest.n))
  }

  /** Reading looks only at the bytes it consumes. */
  lemma {:induction false} ReadVarintPrefix(a: seq<Byte>, b: seq<Byte>, k: nat)
    requires ReadVarint(a, k).Ok?
    ensures ReadVarint(a + b, k) == ReadVarint(a, k)
    decreases |a|
  {
    assert (a + b)[0] == a[0];
    if a[0] >= 128 {
      assert (a + b)[1..] == a[1..] + b;
      ReadVarintPrefix(a[1..], b, k + 1);
    }
  }

  lemma {:induction false} ReadVarintTake(a: seq<Byte>, k: nat)
    requires ReadVarint(a, k).Ok?
    ensures ReadVarint(a[..ReadVarint(a, k).value.n], k) == ReadVarint(a, k)
    decreases |a|
  {
    var n := ReadVarint(a, k).value.n;
    if a[0] >= 128 {
      ReadVarintTake(a[1..], k + 1);
      assert a[..n][1..] == a[1..][..n - 1];
    }
  }

  /** A read succeeds if and only if a byte without the high bit comes among the first ten, and
      it stops there; otherwise the input is too long or too short. */
  lemma {:induction false} ReadVarintStops(data: seq<Byte>, k: nat)
    requires k <= 10
    ensures ReadVarint(data, k).Ok? <==> exists i :: 0 <= i < |data| && i < 10 - k && data[i] < 128
    ensures ReadVarint(data, k).Ok? ==>
      var n := ReadVarint(data, k).value.n;
      data[n - 1] < 128 && forall i | 0 <= i < n - 1 :: data[i] >= 128
    ensures ReadVarint(data, k).Err? ==>
      ReadVarint(data, k).error == if |data| >= 10 - k then IntOverflow else UnexpectedEOF
    decreases |data|
  {
    if k < 10 && data != [] && data[0] >= 128 {
      var rest := data[1..];
      ReadVarintStops(rest, k + 1);
      if i :| 0 <= i < |data| && i < 10 - k && data[i] < 128 {
        assert rest[i - 1] == data[i];
      }
      if i :| 0 <= i < |rest| && i < 10 - (k + 1) && rest[i] < 128 {
        assert data[i + 1] == rest[i];
      }
    }
  }

  /** Bits 7i to 7i+6. */
  function Digit(raw: nat, i: nat): nat {
    (raw / Pow2(7 * i)) % 128
  }

  /** Byte `i` of a varint holds bits 7i to 7i+6 of the value, and the value has no others. */
  lemma {:induction false} ReadVarintDigits(data: seq<Byte>, k: nat, i: nat)
    requires ReadVarint(data, k).Ok? && i < ReadVarint(data, k).value.n
    ensures var r := ReadVarint(data, k).value;
      Digit(r.raw, i) == data[i] % 128 && r.raw < Pow2(7 * r.n)
    decreases |data|
  {
    hide ReadVarint, Pow2, Digit;
    ReadVarintUnfold(data, k);
    if data[0] < 128 {
      OneDigit(data[0]);
    } else {
      var rest := ReadVarint(data[1..], k + 1).value;
      ReadVarintDigits(data[1..], k + 1, if i > 0 then i - 1 else 0);
      ShiftBound(data[0] - 128, rest.raw, rest.n);
      if i == 0 {
        LowDigit(data[0] - 128, rest.raw);
      } else {
        ShiftPlace(data[0] - 128, rest.raw, i);
        assert data[1..][i - 1] == data[i];
      }
    }
  }

  lemma ReadVarintUnfold(data: seq<Byte>, k: nat)
    requires ReadVarint(data, k).Ok?
    ensures data != []
    ensures data[0] < 128 ==> ReadVarint(data, k) == Ok(Read(data[0], 1))
    ensures data[0] >= 128 ==>
      var rest := ReadVarint(data[1..], k + 1);
      rest.Ok? && ReadVarint(data, k) == Ok(Read((data[0] - 128) + 128 * rest.value.raw, 1 + rest.value.n))
  {
  }

  lemma OneDigit(b: Byte)
    requires b < 128
    ensures Digit(b, 0) == b % 128 && b < Pow2(7 * 1)
  {
    assert Pow2(0) == 1;
    Pow2Widths();
  }

  lemma LowDigit(x: nat, raw: nat)
    requires x < 128
    ensures Digit(x + 128 * raw, 0) == x
  {
    assert Pow2(0) == 1;
    ModUnique(x + 128 * raw, 128, raw, x);
  }

  lemma ShiftBound(x: nat, raw: nat, n: nat)
    requires x < 128 && raw < Pow2(7 * n)
    ensures x + 128 * raw < Pow2(7 * (1 + n))
  {
    hide Pow2;
    Pow2Widths();
    Pow2Add(7, 7 * n);
    assert 7 * (1 + n) == 7 + 7 * n;
    MulLessEqual(raw + 1, Pow2(7 * n), 128);
  }

  lemma ShiftPlace(x: nat, raw: nat, i: nat)
    requires x < 128 && i > 0
    ensures Digit(x + 128 * raw, i) == Digit(raw, i - 1)
  {
    hide Pow2;
    Pow2Widths();
    Pow2Add(7, 7 * (i - 1));
    assert 7 * i == 7 + 7 * (i - 1);
    ShiftDigit(x, raw, Pow2(7 * (i - 1)));
  }

  lemma ShiftDigit(x: nat, raw: nat, p: nat)
    requires x < 128 && p > 0
    ensures (x + 128 * raw) / (128 * p) == raw / p
  {
    var q, r := raw / p, raw % p;
    assert raw == q * p + r;
    assert x + 128 * raw == q * (128 * p) + (128 * r + x) by {
      assert 128 * (q * p) == q * (128 * p);
    }
    var a := x + 128 * raw;
    var m := 128 * p;
    assert a == (a / m) * m + a % m;
    QuotientUnique(m, q, 128 * r + x, a / m, a % m);
  }

  /** The 7-bit shift loop reads back every uint64, consuming exactly its bytes. */
  lemma {:induction false} VarintRoundTrip(v: nat, rest: seq<Byte>)
    requires v < TWO_64
    ensures ReadVarint(EncodeVarint(v) + rest, 0) == Ok(Read(v, Sov(v)))
  {
    SovRange(v);
    SovIsEncodedLength(v);
    ReadBack(v, rest, 0);
  }

  lemma {:induction false} ReadBack(v: nat, rest: seq<Byte>, k: nat)
    requires k + |EncodeVarint(v)| <= 10
    ensures ReadVarint(EncodeVarint(v) + rest, k) == Ok(Read(v, |EncodeVarint(v)|))
    decreases v
  {
    var data := EncodeVarint(v) + rest;
    if v >= 128 {
      ReadBack(v / 128, rest, k + 1);
      assert data[1..] == EncodeVarint(v / 128) + rest;
    }
  }

  /** `buf` with `bytes` written so that they end just before `end`. */
  function Patch(buf: seq<Byte>, end: nat, bytes: seq<Byte>): (r: seq<Byte>)
    requires |bytes| <= end <= |buf|
    ensures |r| == |buf|
  {
    buf[..end - |bytes|] + bytes + buf[end..]
  }

  /** `encodeVarintGenerated`: writes `v` so that it ends just before `offset` and returns
      where it starts. */
  method EncodeVarintGenerated(dAtA: array<Byte>, offset: nat, v: nat) returns (base: nat)
    requires v < TWO_64
    requires |EncodeVarint(v)| <= offset <= dAtA.Length
    modifies dAtA
    ensures base == offset - |EncodeVarint(v)| == offset - Sov(v)
    ensures dAtA[..] == Patch(old(dAtA[..]), offset, EncodeVarint(v))
  {
    SovIsEncodedLength(v);
    base := offset - Sov(v);
    var o, w := base, v;
    ghost var buf := dAtA[..];
    ghost var done: seq<Byte> := [];
    while w >= 128
      invariant base <= o < offset
      invariant o - base == |done| && done + EncodeVarint(w) == EncodeVarint(v)
      invariant dAtA[..o] == buf[..base] + done
      invariant dAtA[offset..] == buf[offset..]
      decreases w
    {
      hide BitOr, Sov, Pow2;
      LowSevenBitsWithFlag(w);
      ExtendDone(done, w, v);
      hide EncodeVarint;
      PutByte(dAtA, o, BitOr(w % 128, 128), offset);
      done := done + [w % 128 + 128];
      w := w / 128;
      o := o + 1;
    }
    assert o + 1 == offset && EncodeVarint(v) == done + [w];
    hide EncodeVarint, Sov;
    PutByte(dAtA, o, w, offset);
    assert dAtA[..] == dAtA[..offset] + dAtA[offset..];
  }

  /** `dAtA[o] = b` below `end`. */
  method PutByte(dAtA: array<Byte>, o: nat, b: Byte, end: nat)
    requires o < end <= dAtA.Length
    modifies dAtA
    ensures dAtA[..o + 1] == old(dAtA[..o]) + [b] && dAtA[end..] == old(dAtA[end..])
  {
    dAtA[o] := b;
  }

  lemma ExtendDone(done: seq<Byte>, w: nat, v: nat)
    requires w >= 128 && done + EncodeVarint(w) == EncodeVarint(v)
    ensures (done + [w % 128 + 128]) + EncodeVarint(w / 128) == EncodeVarint(v)
    ensures |done| + 1 + |EncodeVarint(w / 128)| == |EncodeVarint(v)|
  {
    assert (done + [w % 128 + 128]) + EncodeVarint(w / 128) == done + EncodeVarint(w);
  }

  /** `uint8(v & 0x7f | 0x80)`. */
  lemma LowSevenBitsWithFlag(v: nat)
    ensures BitOr(v % 128, 128) == v % 128 + 128
  {
    Pow2Widths();
    OrDisjoint(v % 128, 1, 7);
  }

  /** A read of the bytes after the first ones, whose groups are worth `low`. */
  ghost function Prepend(low: nat, shift: nat, k: nat, r: Result<Read>): Result<Read> {
    match r
    case Ok(rd) => Ok(Read(low + Pow2(shift) * rd.raw, k + rd.n))
    case Err(e) => Err(e)
  }

  lemma GroupArithmetic(x: nat, p: nat, raw: nat)
    ensures p * (x + 128 * raw) == x * p + (p * 128) * raw
  {
    assert p * (128 * raw) == (p * 128) * raw;
  }

  lemma GroupBound(low: nat, x: nat, shift: nat)
    requires low < Pow2(shift) && x < 128
    ensures low + x * Pow2(shift) < Pow2(shift + 7) == Pow2(shift) * 128
  {
    Pow2Widths();
    Pow2Add(shift, 7);
    MulLessEqual(x + 1, 128, Pow2(shift));
    assert (x + 1) * Pow2(shift) == x * Pow2(shift) + Pow2(shift);
  }

  /** A continuation byte moves its group into the part already read. */
  lemma PrependStep(low: nat, shift: nat, k: nat, data: seq<Byte>, next: nat)
    requires k < 10 && data != [] && data[0] >= 128 && low < Pow2(shift)
    requires next == low + (data[0] - 128) * Pow2(shift)
    ensures next < Pow2(shift + 7)
    ensures Prepend(low, shift, k, ReadVarint(data, k)) ==
            Prepend(next, shift + 7, k + 1, ReadVarint(data[1..], k + 1))
  {
    hide Pow2;
    GroupBound(low, data[0] - 128, shift);
    var rest := ReadVarint(data[1..], k + 1);
    if rest.Ok? {
      GroupArithmetic(data[0] - 128, Pow2(shift), rest.value.raw);
    }
  }

  /** What a read that fails has accumulated: the groups of up to ten bytes. */
  function Unfinished(data: seq<Byte>, k: nat): nat {
    if k >= 10 || data == [] then 0 else data[0] % 128 + 128 * Unfinished(data[1..], k + 1)
  }

  /** `v | T(b & 0x7F) << shift` for an accumulator type T of `width` bits. */
  function OrGroup(v: nat, b: Byte, shift: nat, width: nat): nat {
    BitOr(v, (b % 128) * Pow2(shift) % Pow2(width))
  }

  /** The groups read so far, as a number. */
  ghost function AddGroup(low: nat, b: Byte, shift: nat): nat {
    low + (b % 128) * Pow2(shift)
  }

  lemma OrGroupAdds(low: nat, b: Byte, shift: nat, width: nat)
    requires low < Pow2(shift)
    ensures OrGroup(low % Pow2(width), b, shift, width) == AddGroup(low, b, shift) % Pow2(width)
  {
    AccumulateStep(low, b % 128, shift, width);
  }

  /** After the bytes `dAtA[start..i]`, all continuation bytes, `low` holds their groups. */
  ghost predicate ReadSoFar(dAtA: seq<Byte>, start: nat, i: nat, low: nat)
    requires start <= i <= |dAtA|
  {
    low < Pow2(7 * (i - start)) &&
    Unfinished(dAtA[start..], 0) == low + Pow2(7 * (i - start)) * Unfinished(dAtA[i..], i - start) &&
    ReadVarint(dAtA[start..], 0) ==
      Prepend(low, 7 * (i - start), i - start, ReadVarint(dAtA[i..], i - start))
  }

  lemma ReadSoFarStart(dAtA: seq<Byte>, start: nat)
    requires start <= |dAtA|
    ensures ReadSoFar(dAtA, start, start, 0)
  {
    assert Pow2(0) == 1;
  }

  lemma ReadSoFarStop(dAtA: seq<Byte>, start: nat, i: nat, low: nat)
    requires start <= i < |dAtA| && i - start < 10 && ReadSoFar(dAtA, start, i, low)
    requires dAtA[i] < 128
    ensures ReadVarint(dAtA[start..], 0) ==
            Ok(Read(AddGroup(low, dAtA[i], 7 * (i - start)), i + 1 - start))
  {
    hide Pow2;
    assert ReadVarint(dAtA[i..], i - start) == Ok(Read(dAtA[i], 1));
    hide ReadVarint;
    assert dAtA[i] % 128 == dAtA[i];
    assert Pow2(7 * (i - start)) * dAtA[i] == dAtA[i] * Pow2(7 * (i - start));
  }

  lemma ReadSoFarContinue(dAtA: seq<Byte>, start: nat, i: nat, low: nat)
    requires start <= i < |dAtA| && i - start < 10 && ReadSoFar(dAtA, start, i, low)
    requires dAtA[i] >= 128
    ensures ReadSoFar(dAtA, start, i + 1, AddGroup(low, dAtA[i], 7 * (i - start)))
  {
    hide Pow2, ReadVarint;
    var shift, rest := 7 * (i - start), Unfinished(dAtA[i + 1..], i + 1 - start);
    PrependStep(low, shift, i - start, dAtA[i..], AddGroup(low, dAtA[i], shift));
    assert dAtA[i..][1..] == dAtA[i + 1..];
    assert dAtA[i] % 128 == dAtA[i] - 128;
    GroupBound(low, dAtA[i] - 128, shift);
    GroupArithmetic(dAtA[i] - 128, Pow2(shift), rest);
  }

  /** What the loop returns for what the specification reads: the value cut to the
      accumulator's width. */
  ghost function Truncated(r: Result<Read>, width: nat): Result<Read> {
    match r
    case Ok(rd) => Ok(Read(rd.raw % Pow2(width), rd.n))
    case Err(e) => Err(e)
  }

  /** The loop `for shift := uint(0); ; shift += 7` over `dAtA`, from index `start`, into an
      accumulator `v` of `width` bits. */
  method DecodeVarint(dAtA: seq<Byte>, start: nat, width: nat) returns (r: Result<Read>, v: nat)
    requires start <= |dAtA|
    ensures r == Truncated(ReadVarint(dAtA[start..], 0), width)
    ensures v == if r.Ok? then r.value.raw else Unfinished(dAtA[start..], 0) % Pow2(width)
  {
    var shift, i := 0, start;
    v := 0;
    ghost var low: nat := 0;
    ReadSoFarStart(dAtA, start);
    hide OrGroup, AddGroup, Pow2;
    while true
      invariant start <= i <= |dAtA| && shift == 7 * (i - start) && shift <= 70
      invariant ReadSoFar(dAtA, start, i, low) && v == low % Pow2(width)
      decreases 70 - shift
    {
      if shift >= 64 {
        r := Err(IntOverflow);
        return;
      }
      if i >= |dAtA| {
        r := Err(UnexpectedEOF);
        return;
      }
      var b := dAtA[i];
      OrGroupAdds(low, b, shift, width);
      v := OrGroup(v, b, shift, width);
      if b < 128 {
        ReadSoFarStop(dAtA, start, i, low);
        r := Ok(Read(v, i + 1 - start));
        return;
      }
      ReadSoFarContinue(dAtA, start, i, low);
      low := AddGroup(low, b, shift);
      i := i + 1;
      shift := shift + 7;
    }
  }
}
