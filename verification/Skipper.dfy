/** `skipGenerated`: stepping over one field of any wire type, groups included. */
module Skipper {
  import opened Bits
  import opened Results
  import opened Varint

  /** `int(length)` of a length prefix, or the error for a negative one. */
  function LengthOf(raw: nat): (r: Result<nat>)
    ensures r.Ok? ==> r.value == raw % TWO_64 < TWO_63
    ensures r.Err? ==> r.error == InvalidLength
  {
    var length := ToInt64(raw % TWO_64);
    if length < 0 then Err(InvalidLength) else Ok(length)
  }

  /** The number of bytes after a tag of wire type `wt`, as announced by the bytes
      themselves: it may run past the end of `rest`. */
  function BodyLength(wt: nat, rest: seq<Byte>): Result<nat> {
    match wt
    case 0 =>
      var v :- ReadVarint(rest, 0);
      Ok(v.n)
    case 1 => Ok(8)
    case 2 =>
      var v :- ReadVarint(rest, 0);
      var length :- LengthOf(v.raw);
      Ok(v.n + length)
    case 3 => Ok(0)
    case 4 => Ok(0)
    case 5 => Ok(4)
    case _ => Err(IllegalWireType)
  }

  function NextDepth(wt: nat, depth: nat): nat
    requires wt == 4 ==> depth > 0
  {
    if wt == 3 then depth + 1 else if wt == 4 then depth - 1 else depth
  }

  /** A tag and its body: wire type and total length. */
  datatype Token = Token(wt: nat, n: nat)

  function ReadToken(data: seq<Byte>, depth: nat): (r: Result<Token>)
    ensures r.Ok? ==> r.value.n >= 1 && (r.value.wt == 4 ==> depth > 0)
  {
    var tag :- ReadVarint(data, 0);
    var wt := tag.raw % 8;
    if wt == 4 && depth == 0 then Err(UnexpectedEndOfGroup)
    else
      var body :- BodyLength(wt, data[tag.n..]);
      Ok(Token(wt, tag.n + body))
  }

  /** The length of the field at the front of `data`, `depth` groups being open. `pos` is
      the index of `data` in the buffer; it decides only which error is reported. */
  function Skip(data: seq<Byte>, pos: nat, depth: nat): (r: Result<nat>)
    ensures r.Ok? ==> r.value >= 1
    decreases |data|
  {
    if data == [] then Err(UnexpectedEOF)
    else
      var t :- ReadToken(data, depth);
      if t.n > |data| && pos + t.n >= TWO_63 then Err(InvalidLength)
      else if NextDepth(t.wt, depth) == 0 then Ok(t.n)
      else if t.n > |data| then Err(UnexpectedEOF)
      else
        var rest :- Skip(data[t.n..], pos + t.n, NextDepth(t.wt, depth));
        Ok(t.n + rest)
  }

  lemma BodyLengthPrefix(wt: nat, a: seq<Byte>, b: seq<Byte>)
    requires BodyLength(wt, a).Ok?
    ensures BodyLength(wt, a + b) == BodyLength(wt, a)
  {
    if wt == 0 || wt == 2 {
      ReadVarintPrefix(a, b, 0);
    }
  }

  lemma ReadTokenPrefix(a: seq<Byte>, b: seq<Byte>, depth: nat)
    requires ReadToken(a, depth).Ok?
    ensures ReadToken(a + b, depth) == ReadToken(a, depth)
  {
    ReadVarintPrefix(a, b, 0);
    var tag := ReadVarint(a, 0).value;
    assert (a + b)[tag.n..] == a[tag.n..] + b;
    BodyLengthPrefix(tag.raw % 8, a[tag.n..], b);
  }

  /** A field that fits is skipped alike whatever follows it and wherever it stands. */
  lemma {:induction false} SkipStable(a: seq<Byte>, b: seq<Byte>, p: nat, q: nat, depth: nat)
    requires Skip(a, p, depth).Ok? && Skip(a, p, depth).value <= |a|
    ensures Skip(a + b, q, depth) == Skip(a, p, depth)
    decreases |a|
  {
    hide ReadToken;
    ReadTokenPrefix(a, b, depth);
    var t := ReadToken(a, depth).value;
    if NextDepth(t.wt, depth) != 0 {
      assert (a + b)[t.n..] == a[t.n..] + b;
      SkipStable(a[t.n..], b, p + t.n, q + t.n, NextDepth(t.wt, depth));
    }
  }

  /** The skipper needs no more than the field itself. */
  lemma {:induction false} SkipTake(data: seq<Byte>, pos: nat, depth: nat)
    requires Skip(data, pos, depth).Ok? && Skip(data, pos, depth).value <= |data|
    ensures Skip(data[..Skip(data, pos, depth).value], pos, depth) == Skip(data, pos, depth)
    decreases |data|
  {
    hide ReadToken;
    var n, t := Skip(data, pos, depth).value, ReadToken(data, depth).value;
    var d := NextDepth(t.wt, depth);
    ReadTokenTake(data, depth, n);
    if d != 0 {
      SkipTake(data[t.n..], pos + t.n, d);
      assert data[..n][t.n..] == data[t.n..][..n - t.n];
    }
  }

  lemma ReadTokenTake(data: seq<Byte>, depth: nat, n: nat)
    requires ReadToken(data, depth).Ok? && ReadToken(data, depth).value.n <= n <= |data|
    ensures ReadToken(data[..n], depth) == ReadToken(data, depth)
  {
    var tag := ReadVarint(data, 0).value;
    var body, rest := data[tag.n..n], data[n..];
    ReadVarintTake(data, 0);
    ReadVarintPrefix(data[..tag.n], body, 0);
    assert data[..tag.n] + body == data[..n];
    assert data[..n][tag.n..] == body && data[tag.n..] == body + rest;
    hide ReadVarint;
    BodyLengthTake(tag.raw % 8, body, rest);
  }

  lemma BodyLengthTake(wt: nat, body: seq<Byte>, rest: seq<Byte>)
    requires BodyLength(wt, body + rest).Ok? && BodyLength(wt, body + rest).value <= |body|
    ensures BodyLength(wt, body) == BodyLength(wt, body + rest)
  {
    if wt == 0 || wt == 2 {
      ReadVarintTake(body + rest, 0);
      var n := ReadVarint(body + rest, 0).value.n;
      assert (body + rest)[..n] == body[..n];
      ReadVarintPrefix(body[..n], body[n..], 0);
      assert body[..n] + body[n..] == body;
    }
  }

  /** What follows a one-byte tag: a varint, eight bytes, a length and that many bytes, a group,
      or four bytes; an end of group that was not opened and the types 6 and 7 are errors. */
  lemma SkipOneByteTag(tag: Byte, rest: seq<Byte>)
    requires tag < 128
    ensures var s := Skip([tag] + rest, 0, 0); var v := ReadVarint(rest, 0); var wt := tag % 8;
      && (wt == 0 ==> s == if v.Ok? then Ok(1 + v.value.n) else Err(v.error))
      && (wt == 1 && |rest| >= 8 ==> s == Ok(9))
      && (wt == 2 && v.Err? ==> s == Err(v.error))
      && (wt == 2 && v.Ok? ==>
            var length := v.value.raw % 0x1_0000_0000_0000_0000;
            if length >= 0x8000_0000_0000_0000 then s == Err(InvalidLength)
            else v.value.n + length <= |rest| ==> s == Ok(1 + v.value.n + length))
      && (wt == 4 ==> s == Err(UnexpectedEndOfGroup))
      && (wt == 5 && |rest| >= 4 ==> s == Ok(5))
      && (wt == 6 || wt == 7 ==> s == Err(IllegalWireType))
  {
    var data := [tag] + rest;
    assert ReadVarint(data, 0) == Ok(Read(tag, 1));
    assert data[1..] == rest;
    hide ReadVarint;
  }

  /** A group ends with the end tag of its own level. */
  lemma SkipNestedGroups(open: Byte, close: Byte, open': Byte, close': Byte, rest: seq<Byte>)
    requires open < 128 && close < 128 && open % 8 == 3 && close % 8 == 4
    requires open' < 128 && close' < 128 && open' % 8 == 3 && close' % 8 == 4
    ensures Skip([open, open', close', close] + rest, 0, 0) == Ok(4)
    ensures Skip([open, close] + rest, 0, 0) == Ok(2)
    ensures Skip([open, open', close'], 0, 0) == Err(UnexpectedEOF)
  {
    hide Skip;
    var r3, r2, r1 := [open', close', close] + rest, [close', close] + rest, [close] + rest;
    assert [open] + r3 == [open, open', close', close] + rest && [open] + r1 == [open, close] + rest;
    assert [open'] + r2 == r3 && [close'] + r1 == r2;
    GroupTag(open, r3, 0, 0);
    GroupTag(open', r2, 1, 1);
    GroupTag(close', r1, 2, 2);
    GroupTag(close, rest, 3, 1);
    GroupTag(open, r1, 0, 0);
    GroupTag(close, rest, 1, 1);
    OpenGroup(open, open', close');
  }

  lemma OpenGroup(open: Byte, open': Byte, close': Byte)
    requires open < 128 && open % 8 == 3 && open' < 128 && close' < 128 && open' % 8 == 3 && close' % 8 == 4
    ensures Skip([open, open', close'], 0, 0) == Err(UnexpectedEOF)
  {
    hide Skip;
    assert [open] + [open', close'] == [open, open', close'] && [open'] + [close'] == [open', close'];
    assert [close'] + [] == [close'];
    GroupTag(open, [open', close'], 0, 0);
    GroupTag(open', [close'], 1, 1);
    GroupTag(close', [], 2, 2);
    SkipNothing(3, 1);
  }

  lemma SkipNothing(pos: nat, depth: nat)
    ensures Skip([], pos, depth) == Err(UnexpectedEOF)
  {
  }

  lemma GroupTag(tag: Byte, rest: seq<Byte>, pos: nat, depth: nat)
    requires tag < 128 && (tag % 8 == 3 || (tag % 8 == 4 && depth > 0))
    ensures var d := if tag % 8 == 3 then depth + 1 else depth - 1;
      Skip([tag] + rest, pos, depth) ==
        if d == 0 then Ok(1) else After(1, Skip(rest, pos + 1, d))
  {
    OneByteToken(tag, rest, depth);
    SkipGroupToken([tag] + rest, pos, depth, tag % 8);
    hide ReadToken, Skip;
    assert ([tag] + rest)[1..] == rest;
  }

  lemma SkipGroupToken(data: seq<Byte>, pos: nat, depth: nat, wt: nat)
    requires data != [] && ReadToken(data, depth) == Ok(Token(wt, 1)) && (wt == 3 || (wt == 4 && depth > 0))
    ensures var d := if wt == 3 then depth + 1 else depth - 1;
      Skip(data, pos, depth) == if d == 0 then Ok(1) else After(1, Skip(data[1..], pos + 1, d))
  {
    hide ReadToken;
  }

  lemma OneByteToken(tag: Byte, rest: seq<Byte>, depth: nat)
    requires tag < 128 && (tag % 8 == 3 || (tag % 8 == 4 && depth > 0))
    ensures ReadToken([tag] + rest, depth) == Ok(Token(tag % 8, 1))
  {
    assert ReadVarint([tag] + rest, 0) == Ok(Read(tag, 1));
    hide ReadVarint;
  }

  /** What the skipper returns once it has passed `i` bytes. */
  ghost function After(i: nat, r: Result<nat>): Result<nat> {
    match r
    case Ok(n) => Ok(i + n)
    case Err(e) => Err(e)
  }

  /** The body of the `switch wireType`: the index after the body, wrapped to 64 bits. */
  method SkipBody(dAtA: seq<Byte>, start: nat, wt: nat) returns (r: Result<int>)
    requires start <= |dAtA| < TWO_63
    ensures match BodyLength(wt, dAtA[start..])
            case Ok(n) => n < TWO_63 + 10 && start + n < TWO_64 && r == Ok(Wrap64(start + n))
            case Err(e) => r == Err(e)
  {
    Pow2Widths();
    hide Pow2, ReadVarint;
    match wt {
      case 0 =>
        var v, _ := DecodeVarint(dAtA, start, 64);
        if v.Err? {
          return Err(v.error);
        }
        return Ok(start + v.value.n);
      case 1 =>
        return Ok(Wrap64(start + 8));
      case 2 =>
        var v, _ := DecodeVarint(dAtA, start, 64);
        if v.Err? {
          return Err(v.error);
        }
        var length := ToInt64(v.value.raw);
        if length < 0 {
          return Err(InvalidLength);
        }
        return Ok(Wrap64(start + v.value.n + length));
      case 3 =>
        return Ok(start);
      case 4 =>
        return Ok(start);
      case 5 =>
        return Ok(Wrap64(start + 4));
      case _ =>
        return Err(IllegalWireType);
    }
  }

  /** The tag at `start` and the index after its body. */
  method NextToken(dAtA: seq<Byte>, start: nat, depth: nat) returns (r: Result<(nat, int)>)
    requires start <= |dAtA| < TWO_63
    ensures match ReadToken(dAtA[start..], depth)
            case Ok(t) => start + t.n < TWO_64 && r == Ok((t.wt, Wrap64(start + t.n)))
            case Err(e) => r == Err(e)
  {
    hide BodyLength, ReadVarint, Pow2;
    var tag, _ := DecodeVarint(dAtA, start, 64);
    if tag.Err? {
      return Err(tag.error);
    }
    TagBits(ReadVarint(dAtA[start..], 0).value.raw);
    var wt, i := tag.value.raw % 8, start + tag.value.n;
    if wt == 4 && depth == 0 {
      return Err(UnexpectedEndOfGroup);
    }
    assert dAtA[start..][tag.value.n..] == dAtA[i..];
    var end := SkipBody(dAtA, i, wt);
    if end.Err? {
      return Err(end.error);
    }
    return Ok((wt, end.value));
  }

  /** The rest of the buffer from index `i`, token by token. */
  lemma SkipFrom(dAtA: seq<Byte>, i: nat, depth: nat)
    requires i < |dAtA|
    ensures var s := Skip(dAtA[i..], i, depth);
      match ReadToken(dAtA[i..], depth)
      case Err(e) => s == Err(e)
      case Ok(t) =>
        var end := i + t.n;
        if end > |dAtA| && end >= TWO_63 then s == Err(InvalidLength)
        else if NextDepth(t.wt, depth) == 0 then s == Ok(t.n)
        else if end > |dAtA| then s == Err(UnexpectedEOF)
        else s == After(t.n, Skip(dAtA[end..], end, NextDepth(t.wt, depth)))
  {
    hide ReadToken;
    var r := ReadToken(dAtA[i..], depth);
    if r.Ok? && i + r.value.n <= |dAtA| {
      assert dAtA[i..][r.value.n..] == dAtA[i + r.value.n..];
    }
  }

  /** `skipGenerated`. */
  method SkipGenerated(dAtA: seq<Byte>) returns (r: Result<nat>)
    requires |dAtA| < TWO_63
    ensures r == Skip(dAtA, 0, 0)
  {
    hide ReadToken, Skip;
    var i, depth := 0, 0;
    SkipNothing(|dAtA|, 0);
    assert dAtA[0..] == dAtA;
    while i < |dAtA|
      invariant 0 <= i && 0 <= depth
      invariant i <= |dAtA| ==> Skip(dAtA, 0, 0) == After(i, Skip(dAtA[i..], i, depth))
      invariant i > |dAtA| ==> Skip(dAtA, 0, 0) == Err(UnexpectedEOF)
      decreases |dAtA| - i
    {
      SkipFrom(dAtA, i, depth);
      var token := NextToken(dAtA, i, depth);
      if token.Err? {
        return Err(token.error);
      }
      var (wt, end) := token.value;
      if wt == 3 {
        depth := depth + 1;
      } else if wt == 4 {
        depth := depth - 1;
      }
      i := end;
      if i < 0 {
        return Err(InvalidLength);
      }
      if depth == 0 {
        return Ok(i);
      }
    }
    if i == |dAtA| {
      SkipNothing(i, depth);
      assert dAtA[i..] == [];
    }
    return Err(UnexpectedEOF);
  }

  /** `wire & 0x7` is not touched by the truncation to 64 bits. */
  lemma TagBits(raw: nat)
    ensures raw % Pow2(64) % 8 == raw % 8
    ensures raw % Pow2(64) == raw % TWO_64
  {
    Pow2Widths();
    var q, r := raw / TWO_64, raw % TWO_64;
    ModUnique(raw, 8, q * 0x2000_0000_0000_0000 + r / 8, r % 8);
  }
}
