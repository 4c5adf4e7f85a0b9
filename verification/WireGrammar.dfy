/** The grammar of skippable fields, as trees: scalar and length-delimited fields are
    leaves, groups nest to any depth. The skipper keeps only a depth counter; this module
    proves that it nevertheless accepts exactly the serialized trees. */
module WireGrammar {
  import opened Bits
  import opened Results
  import opened Varint
  import opened Skipper

  datatype Wire =
    | Leaf(tag: seq<Byte>, body: seq<Byte>)
    | Group(open: seq<Byte>, items: seq<Wire>, close: seq<Byte>)

  predicate IsVarint(s: seq<Byte>) {
    ReadVarint(s, 0).Ok? && ReadVarint(s, 0).value.n == |s|
  }

  function VarintValue(s: seq<Byte>): nat
    requires IsVarint(s)
  {
    ReadVarint(s, 0).value.raw
  }

  predicate IsTag(s: seq<Byte>, wt: nat) {
    IsVarint(s) && VarintValue(s) % 8 == wt
  }

  /** `body[..k]` is a length prefix that announces exactly the rest of `body`. */
  ghost predicate IsLengthPrefix(body: seq<Byte>, k: nat) {
    k <= |body| && IsVarint(body[..k]) &&
    VarintValue(body[..k]) % TWO_64 == |body| - k < TWO_63
  }

  ghost predicate IsLeafBody(wt: nat, body: seq<Byte>) {
    || (wt == 0 && IsVarint(body))
    || (wt == 1 && |body| == 8)
    || (wt == 2 && exists k: nat :: IsLengthPrefix(body, k))
    || (wt == 5 && |body| == 4)
  }

  /** The end-group tag need not repeat the number of its start tag: the skipper does not
      compare them. */
  ghost predicate WellFormed(w: Wire) {
    match w
    case Leaf(tag, body) => IsVarint(tag) && IsLeafBody(VarintValue(tag) % 8, body)
    case Group(open, items, close) =>
      IsTag(open, 3) && IsTag(close, 4) && forall i | 0 <= i < |items| :: WellFormed(items[i])
  }

  ghost predicate AllWellFormed(ws: seq<Wire>) {
    forall i | 0 <= i < |ws| :: WellFormed(ws[i])
  }

  function Bytes(w: Wire): seq<Byte> {
    match w
    case Leaf(tag, body) => tag + body
    case Group(open, items, close) => open + BytesAll(items) + close
  }

  function BytesAll(ws: seq<Wire>): seq<Byte> {
    if ws == [] then [] else Bytes(ws[0]) + BytesAll(ws[1..])
  }

  // ----- tokens -----

  lemma VarintPrefixOf(s: seq<Byte>, rest: seq<Byte>)
    requires IsVarint(s)
    ensures ReadVarint(s + rest, 0) == Ok(Read(VarintValue(s), |s|))
  {
    ReadVarintPrefix(s, rest, 0);
  }

  /** The announced length of a leaf body is its length, and conversely. */
  lemma LeafBodyLength(wt: nat, body: seq<Byte>)
    requires wt < 8
    ensures IsLeafBody(wt, body) <==> wt != 3 && wt != 4 && BodyLength(wt, body) == Ok(|body|)
  {
    if wt == 2 {
      if k: nat :| IsLengthPrefix(body, k) {
        VarintPrefixOf(body[..k], body[k..]);
        assert body == body[..k] + body[k..];
      }
      if BodyLength(2, body) == Ok(|body|) {
        ReadVarintTake(body, 0);
        assert IsLengthPrefix(body, ReadVarint(body, 0).value.n);
      }
    }
  }

  lemma TokenOfLeaf(tag: seq<Byte>, body: seq<Byte>, rest: seq<Byte>, depth: nat)
    requires WellFormed(Leaf(tag, body))
    ensures ReadToken(tag + body + rest, depth) == Ok(Token(VarintValue(tag) % 8, |tag| + |body|))
    ensures VarintValue(tag) % 8 != 3 && VarintValue(tag) % 8 != 4
  {
    var data := tag + body + rest;
    assert data == tag + (body + rest);
    VarintPrefixOf(tag, body + rest);
    LeafBodyLength(VarintValue(tag) % 8, body);
    hide ReadVarint, BodyLength, IsLeafBody;
    assert data[|tag|..] == body + rest;
    BodyLengthPrefix(VarintValue(tag) % 8, body, rest);
  }

  lemma TokenOfGroupTag(tag: seq<Byte>, wt: nat, rest: seq<Byte>, depth: nat)
    requires IsTag(tag, wt) && (wt == 3 || (wt == 4 && depth > 0))
    ensures ReadToken(tag + rest, depth) == Ok(Token(wt, |tag|))
  {
    VarintPrefixOf(tag, rest);
    hide ReadVarint;
    assert (tag + rest)[|tag|..] == rest;
  }

  lemma SkipStep(a: seq<Byte>, rest: seq<Byte>, pos: nat, depth: nat, wt: nat)
    requires |a| > 0 && ReadToken(a + rest, depth) == Ok(Token(wt, |a|))
    ensures var d := NextDepth(wt, depth);
      Skip(a + rest, pos, depth) ==
        if d == 0 then Ok(|a|) else After(|a|, Skip(rest, pos + |a|, d))
  {
    hide ReadToken;
    assert (a + rest)[|a|..] == rest;
  }

  // ----- every tree is skipped -----

  lemma {:induction false} SkipWire(w: Wire, rest: seq<Byte>, pos: nat, depth: nat)
    requires WellFormed(w)
    ensures Skip(Bytes(w) + rest, pos, depth) ==
            if depth == 0 then Ok(|Bytes(w)|) else After(|Bytes(w)|, Skip(rest, pos + |Bytes(w)|, depth))
    decreases w
  {
    hide Skip, ReadToken, IsLeafBody, BytesAll;
    match w
    case Leaf(tag, body) =>
      TokenOfLeaf(tag, body, rest, depth);
      SkipStep(tag + body, rest, pos, depth, VarintValue(tag) % 8);
    case Group(open, items, close) =>
      var inner := BytesAll(items);
      var p1, p2 := pos + |open|, pos + |open| + |inner|;
      assert Bytes(w) + rest == open + (inner + (close + rest));
      TokenOfGroupTag(open, 3, inner + (close + rest), depth);
      SkipStep(open, inner + (close + rest), pos, depth, 3);
      SkipWires(items, close + rest, p1, depth + 1);
      TokenOfGroupTag(close, 4, rest, depth + 1);
      SkipStep(close, rest, p2, depth + 1, 4);
  }

  lemma {:induction false} SkipWires(ws: seq<Wire>, rest: seq<Byte>, pos: nat, depth: nat)
    requires AllWellFormed(ws) && depth > 0
    ensures Skip(BytesAll(ws) + rest, pos, depth) ==
            After(|BytesAll(ws)|, Skip(rest, pos + |BytesAll(ws)|, depth))
    decreases ws
  {
    hide Skip, WellFormed, Bytes;
    if ws == [] {
      assert BytesAll(ws) + rest == rest;
    } else {
      var head, tail := Bytes(ws[0]), BytesAll(ws[1..]);
      assert BytesAll(ws) + rest == head + (tail + rest);
      SkipWire(ws[0], tail + rest, pos, depth);
      SkipWires(ws[1..], rest, pos + |head|, depth);
    }
  }

  // ----- everything skipped is a tree -----

  /** The fields up to the end tag of one open group. */
  datatype Level = Level(items: seq<Wire>, close: seq<Byte>)

  ghost predicate WellFormedLevel(l: Level) {
    AllWellFormed(l.items) && IsTag(l.close, 4)
  }

  function LevelBytes(ls: seq<Level>): seq<Byte> {
    if ls == [] then [] else BytesAll(ls[0].items) + ls[0].close + LevelBytes(ls[1..])
  }

  ghost predicate WellFormedLevels(ls: seq<Level>) {
    forall i | 0 <= i < |ls| :: WellFormedLevel(ls[i])
  }

  /** What the skipper saw when it accepted a token that fits. */
  lemma TokenShape(data: seq<Byte>, depth: nat)
    requires ReadToken(data, depth).Ok? && ReadToken(data, depth).value.n <= |data|
    ensures var t := ReadToken(data, depth).value; var u := data[..t.n];
      if t.wt == 3 || t.wt == 4 then IsTag(u, t.wt)
      else exists k | 0 <= k <= t.n :: WellFormed(Leaf(u[..k], u[k..]))
  {
    var t := ReadToken(data, depth).value;
    var tag := ReadVarint(data, 0).value;
    var u := data[..t.n];
    ReadVarintTake(data, 0);
    assert u[..tag.n] == data[..tag.n];
    if t.wt != 3 && t.wt != 4 {
      var body, rest := u[tag.n..], data[t.n..];
      assert data[tag.n..] == body + rest;
      BodyLengthFits(t.wt, body, rest);
      LeafBodyLength(t.wt, body);
      assert WellFormed(Leaf(u[..tag.n], u[tag.n..]));
    }
  }

  lemma BodyLengthFits(wt: nat, body: seq<Byte>, rest: seq<Byte>)
    requires BodyLength(wt, body + rest) == Ok(|body|)
    ensures BodyLength(wt, body) == Ok(|body|)
  {
    if wt == 0 || wt == 2 {
      ReadVarintTake(body + rest, 0);
      var n := ReadVarint(body + rest, 0).value.n;
      assert (body + rest)[..n] == body[..n];
      ReadVarintPrefix(body[..n], body[n..], 0);
      assert body[..n] + body[n..] == body;
    }
  }

  lemma PrependItem(w: Wire, ls: seq<Level>) returns (r: seq<Level>)
    requires WellFormed(w) && ls != [] && WellFormedLevels(ls)
    ensures WellFormedLevels(r) && |r| == |ls| && LevelBytes(r) == Bytes(w) + LevelBytes(ls)
  {
    hide WellFormed, Bytes;
    r := [Level([w] + ls[0].items, ls[0].close)] + ls[1..];
    assert r[1..] == ls[1..];
    assert ([w] + ls[0].items)[1..] == ls[0].items;
    assert BytesAll([w] + ls[0].items) == Bytes(w) + BytesAll(ls[0].items);
    assert WellFormedLevels(r) by {
      assert forall i | 0 < i < |r| :: r[i] == ls[i];
      assert AllWellFormed([w] + ls[0].items);
    }
    assert LevelBytes(r) == Bytes(w) + LevelBytes(ls);
  }

  lemma PrependClose(close: seq<Byte>, ls: seq<Level>) returns (r: seq<Level>)
    requires IsTag(close, 4) && WellFormedLevels(ls)
    ensures WellFormedLevels(r) && |r| == |ls| + 1 && LevelBytes(r) == close + LevelBytes(ls)
  {
    r := [Level([], close)] + ls;
    assert r[1..] == ls;
    assert BytesAll([]) + close == close;
  }

  lemma CloseGroup(open: seq<Byte>, ls: seq<Level>) returns (w: Wire)
    requires IsTag(open, 3) && ls != [] && WellFormedLevel(ls[0])
    ensures WellFormed(w) && Bytes(w) + LevelBytes(ls[1..]) == open + LevelBytes(ls)
  {
    w := Group(open, ls[0].items, ls[0].close);
  }

  /** Bytes skipped with `depth` groups open are that many levels of fields. */
  lemma {:induction false} ParseLevels(u: seq<Byte>, pos: nat, depth: nat) returns (ls: seq<Level>)
    requires depth > 0 && Skip(u, pos, depth) == Ok(|u|)
    ensures |ls| == depth && WellFormedLevels(ls) && LevelBytes(ls) == u
    decreases |u|
  {
    hide ReadToken, WellFormed, LevelBytes, WellFormedLevels, IsTag;
    var t := ReadToken(u, depth).value;
    TokenShape(u, depth);
    var a, rest := u[..t.n], u[t.n..];
    var d := NextDepth(t.wt, depth);
    assert u == a + rest;
    if d == 0 {
      assert rest == [];
      NoLevels();
      ls := PrependClose(a, []);
    } else {
      var below := ParseLevels(rest, pos + t.n, d);
      if t.wt == 3 {
        Tail(below);
        var w := CloseGroup(a, below);
        ls := PrependItem(w, below[1..]);
      } else if t.wt == 4 {
        ls := PrependClose(a, below);
      } else {
        var k :| 0 <= k <= t.n && WellFormed(Leaf(a[..k], a[k..]));
        ls := PrependItem(Leaf(a[..k], a[k..]), below);
        assert a[..k] + a[k..] == a;
      }
    }
  }

  lemma NoLevels()
    ensures WellFormedLevels([]) && LevelBytes([]) == []
  {
  }

  lemma Tail(ls: seq<Level>)
    requires ls != [] && WellFormedLevels(ls)
    ensures WellFormedLevel(ls[0]) && WellFormedLevels(ls[1..])
  {
  }

  lemma ParseWire(u: seq<Byte>, pos: nat) returns (w: Wire)
    requires Skip(u, pos, 0) == Ok(|u|)
    ensures WellFormed(w) && Bytes(w) == u
  {
    hide ReadToken, WellFormed, IsTag;
    var t := ReadToken(u, 0).value;
    TokenShape(u, 0);
    var a, rest := u[..t.n], u[t.n..];
    assert u == a + rest;
    if t.wt == 3 {
      var below := ParseLevels(rest, pos + t.n, 1);
      w := CloseGroup(a, below);
      assert below[1..] == [] && LevelBytes([]) == [];
    } else {
      assert rest == [];
      var k :| 0 <= k <= t.n && WellFormed(Leaf(a[..k], a[k..]));
      w := Leaf(a[..k], a[k..]);
      assert a[..k] + a[k..] == a;
    }
  }

  /** The skipper consumes all of `u` if and only if `u` is one serialized field, its
      groups balanced to any depth. */
  lemma SkipAcceptsExactlyWires(u: seq<Byte>, pos: nat)
    ensures Skip(u, pos, 0) == Ok(|u|) <==> exists w :: WellFormed(w) && Bytes(w) == u
  {
    hide Skip, WellFormed;
    if Skip(u, pos, 0) == Ok(|u|) {
      var w := ParseWire(u, pos);
    }
    if w :| WellFormed(w) && Bytes(w) == u {
      SkipWire(w, [], pos, 0);
      assert u + [] == u;
    }
  }
}
