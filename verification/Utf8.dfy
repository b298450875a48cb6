/**
 UTF-8 as defined by sections 3 and 4 of RFC 3629, and the validator of the base library.
 */
module Utf8 {
  import opened Bytes

  // Unicode scalar values.
  predicate Scalar(c: nat) { c < 0xd800 || 0xe000 <= c <= 0x10ffff }

  type scalar = c: nat | c < 0xd800 || 0xe000 <= c <= 0x10ffff

  // The table of section 3, six bits at a time.
  function Encode(c: scalar): (r: seq<byte>)
    ensures 1 <= |r| <= 4
  {
    if c < 0x80 then [c as byte]
    else if c < 0x800 then [(0xc0 + c / 64) as byte, (0x80 + c % 64) as byte]
    else if c < 0x1_0000 then [(0xe0 + c / 64 / 64) as byte, (0x80 + c / 64 % 64) as byte, (0x80 + c % 64) as byte]
    else [(0xf0 + c / 64 / 64 / 64) as byte, (0x80 + c / 64 / 64 % 64) as byte, (0x80 + c / 64 % 64) as byte,
      (0x80 + c % 64) as byte]
  }

  // The examples of section 7 of RFC 3629, and both sides of each border of the table.
  lemma EncodeExamples()
    ensures Encode(0x41) == [0x41] && Encode(0x391) == [0xce, 0x91] && Encode(0x2262) == [0xe2, 0x89, 0xa2]
    ensures Encode(0xd55c) == [0xed, 0x95, 0x9c] && Encode(0x233b4) == [0xf0, 0xa3, 0x8e, 0xb4]
    ensures Encode(0x7f) == [0x7f] && Encode(0x80) == [0xc2, 0x80] && Encode(0x7ff) == [0xdf, 0xbf]
    ensures Encode(0x800) == [0xe0, 0xa0, 0x80] && Encode(0xffff) == [0xef, 0xbf, 0xbf]
    ensures Encode(0x1_0000) == [0xf0, 0x90, 0x80, 0x80] && Encode(0x10_ffff) == [0xf4, 0x8f, 0xbf, 0xbf]
  {
  }

  function EncodeAll(cs: seq<scalar>): seq<byte> {
    if cs == [] then [] else Encode(cs[0]) + EncodeAll(cs[1..])
  }

  // A text is a concatenation of encoded scalar values.
  ghost predicate Valid(text: seq<byte>) {
    exists cs: seq<scalar> :: Encodes(cs, text)
  }

  predicate Encodes(cs: seq<scalar>, text: seq<byte>) { text == EncodeAll(cs) }

  predicate Continuation(b: byte) { 0x80 <= b < 0xc0 }

  // The length of an encoding by its first byte.
  function Length(lead: byte): nat {
    if lead < 0x80 then 1 else if 0xc2 <= lead <= 0xdf then 2 else if 0xe0 <= lead <= 0xef then 3
      else if 0xf0 <= lead <= 0xf4 then 4 else 0
  }

  // Only the bytes behind the first are continuation bytes, and the first tells how many.
  lemma EncodeShape(c: scalar)
    ensures |Encode(c)| == Length(Encode(c)[0]) && !Continuation(Encode(c)[0])
    ensures forall i :: 1 <= i < |Encode(c)| ==> Continuation(Encode(c)[i])
    ensures c < 0x80 <==> Encode(c)[0] < 0x80
  {
  }

  // The bits of the first byte.
  function Lead(lead: byte): nat {
    if lead < 0x80 then lead as nat else if lead < 0xe0 then lead as nat % 32 else if lead < 0xf0 then lead as nat % 16
      else lead as nat % 8
  }

  function Six(b: byte): nat { b as nat % 64 }

  // The bits of some continuation bytes behind a value.
  function Gather(value: nat, tail: seq<byte>): nat {
    if tail == [] then value else Gather(value, tail[..|tail| - 1]) * 64 + Six(tail[|tail| - 1])
  }

  function Minimum(n: nat): nat { if n == 2 then 0x80 else if n == 3 then 0x800 else 0x1_0000 }

  // What a first byte and a continuation byte carry.
  lemma Carries(a: nat, d: nat)
    ensures d < 64 ==> Six((0x80 + d) as byte) == d
    ensures a < 32 ==> Lead((0xc0 + a) as byte) == a
    ensures a < 16 ==> Lead((0xe0 + a) as byte) == a
    ensures a < 8 ==> Lead((0xf0 + a) as byte) == a
  {
  }

  lemma CarriesBack(b: byte)
    ensures Continuation(b) ==> Six(b) < 64 && 0x80 + Six(b) == b as nat
    ensures Length(b) == 2 ==> 2 <= Lead(b) < 32 && 0xc0 + Lead(b) == b as nat
    ensures Length(b) == 3 ==> Lead(b) < 16 && 0xe0 + Lead(b) == b as nat
    ensures Length(b) == 4 ==> Lead(b) < 5 && 0xf0 + Lead(b) == b as nat
  {
  }

  // The value gathered from an encoding is the scalar.
  lemma GatherEncoded(c: scalar)
    requires c >= 0x80
    ensures var e := Encode(c); Continuations(e[1..]) && Gather(Lead(e[0]), e[1..]) == c && c >= Minimum(|e|)
  {
    EncodeShape(c);
    if c >= 0x1_0000 { GatherFour(c); } else if c >= 0x800 { GatherThree(c); } else { GatherTwo(c); }
  }

  lemma GatherFour(c: scalar)
    requires c >= 0x1_0000
    ensures var e := Encode(c); Gather(Lead(e[0]), e[1..]) == c
  {
    var tail := Encode(c)[1..];
    Unrolled(Lead(Encode(c)[0]), tail);
    Carries(c / 64, c % 64);
    Carried(c);
    assert tail == [(0x80 + c / 64 / 64 % 64) as byte, (0x80 + c / 64 % 64) as byte, (0x80 + c % 64) as byte];
  }

  lemma GatherThree(c: scalar)
    requires 0x800 <= c < 0x1_0000
    ensures var e := Encode(c); Gather(Lead(e[0]), e[1..]) == c
  {
    var tail := Encode(c)[1..];
    Unrolled(Lead(Encode(c)[0]), tail);
    Carries(c / 64, c % 64);
    Carried(c);
    assert tail == [(0x80 + c / 64 % 64) as byte, (0x80 + c % 64) as byte];
  }

  lemma GatherTwo(c: scalar)
    requires 0x80 <= c < 0x800
    ensures var e := Encode(c); Gather(Lead(e[0]), e[1..]) == c
  {
    var tail := Encode(c)[1..];
    Unrolled(Lead(Encode(c)[0]), tail);
    Carries(c / 64, c % 64);
    assert tail == [(0x80 + c % 64) as byte];
  }

  lemma Carried(c: scalar)
    ensures Six((0x80 + c % 64) as byte) == c % 64 && Six((0x80 + c / 64 % 64) as byte) == c / 64 % 64
    ensures Six((0x80 + c / 64 / 64 % 64) as byte) == c / 64 / 64 % 64
    ensures c < 0x1_0000 ==> Lead((0xe0 + c / 64 / 64) as byte) == c / 64 / 64
    ensures Lead((0xf0 + c / 64 / 64 / 64) as byte) == c / 64 / 64 / 64
  {
    Carries(c / 64, c % 64);
    Carries(c / 64 / 64, c / 64 % 64);
    Carries(c / 64 / 64 / 64, c / 64 / 64 % 64);
  }

  predicate Continuations(tail: seq<byte>) { forall i :: 0 <= i < |tail| ==> Continuation(tail[i]) }

  lemma Unrolled(value: nat, tail: seq<byte>)
    requires 1 <= |tail| <= 3
    ensures |tail| == 1 ==> Gather(value, tail) == value * 64 + Six(tail[0])
    ensures |tail| == 2 ==> Gather(value, tail) == (value * 64 + Six(tail[0])) * 64 + Six(tail[1])
    ensures |tail| == 3 ==>
      Gather(value, tail) == ((value * 64 + Six(tail[0])) * 64 + Six(tail[1])) * 64 + Six(tail[2])
  {
    var one := tail[..1];
    assert one[..0] == [];
    assert Gather(value, one) == value * 64 + Six(tail[0]);
    if |tail| >= 2 {
      var two := tail[..2];
      assert two[..1] == one;
      if |tail| == 3 { assert tail[..2] == two; } else { assert tail == two; }
    } else {
      assert tail == one;
    }
  }

  // The last six bits of a value come off again.
  lemma Split(q: nat, r: nat)
    requires r < 64
    ensures (q * 64 + r) / 64 == q && (q * 64 + r) % 64 == r
  {
  }

  // And a gathered value that is not overlong and is a scalar encodes to the same bytes.
  lemma EncodeGathered(lead: byte, tail: seq<byte>)
    requires Length(lead) >= 2 && |tail| == Length(lead) - 1 && Continuations(tail)
    requires Scalar(Gather(Lead(lead), tail)) && Gather(Lead(lead), tail) >= Minimum(|tail| + 1)
    ensures Encode(Gather(Lead(lead), tail)) == [lead] + tail
  {
    Unrolled(Lead(lead), tail);
    CarriesBack(lead);
    CarriesBack(tail[0]);
    if |tail| == 1 {
      Encode2(Lead(lead), Six(tail[0]));
    } else if |tail| == 2 {
      CarriesBack(tail[1]);
      Encode3(Lead(lead), Six(tail[0]), Six(tail[1]));
    } else {
      CarriesBack(tail[1]);
      CarriesBack(tail[2]);
      Encode4(Lead(lead), Six(tail[0]), Six(tail[1]), Six(tail[2]));
    }
  }

  lemma Encode2(l: nat, a: nat)
    requires 2 <= l < 32 && a < 64
    ensures Encode(l * 64 + a) == [(0xc0 + l) as byte, (0x80 + a) as byte]
  {
    Split(l, a);
  }

  lemma Encode3(l: nat, a: nat, b: nat)
    requires l < 16 && a < 64 && b < 64 && Scalar((l * 64 + a) * 64 + b) && (l * 64 + a) * 64 + b >= 0x800
    ensures Encode((l * 64 + a) * 64 + b) == [(0xe0 + l) as byte, (0x80 + a) as byte, (0x80 + b) as byte]
  {
    Split(l, a);
    Split(l * 64 + a, b);
  }

  lemma Encode4(l: nat, a: nat, b: nat, c: nat)
    requires l < 5 && a < 64 && b < 64 && c < 64 && Scalar(((l * 64 + a) * 64 + b) * 64 + c)
      && ((l * 64 + a) * 64 + b) * 64 + c >= 0x1_0000
    ensures Encode(((l * 64 + a) * 64 + b) * 64 + c) == [(0xf0 + l) as byte, (0x80 + a) as byte, (0x80 + b) as byte,
      (0x80 + c) as byte]
  {
    Split(l, a);
    Split(l * 64 + a, b);
    Split((l * 64 + a) * 64 + b, c);
  }

  // ---------- texts ----------

  lemma {:induction false} EncodeConcat(a: seq<scalar>, b: seq<scalar>)
    ensures EncodeAll(a + b) == EncodeAll(a) + EncodeAll(b)
  {
    if a == [] {
      assert a + b == b;
    } else {
      assert (a + b)[1..] == a[1..] + b;
      EncodeConcat(a[1..], b);
    }
  }

  lemma EncodeOne(c: scalar)
    ensures EncodeAll([c]) == Encode(c)
  {
    assert EncodeAll([c][1..]) == [];
  }

  // A byte sequence starts with at most one encoded scalar.
  lemma EncodeUnique(c: scalar, x: seq<byte>, d: scalar, y: seq<byte>)
    requires Encode(c) + x == Encode(d) + y
    ensures c == d && x == y
  {
    EncodeShape(c);
    EncodeShape(d);
    assert (Encode(c) + x)[0] == Encode(c)[0] && (Encode(d) + y)[0] == Encode(d)[0];
    var n := |Encode(c)|;
    assert Encode(c) == (Encode(c) + x)[..n] == Encode(d);
    assert x == (Encode(c) + x)[n..] == y;
    if c >= 0x80 {
      GatherEncoded(c);
      GatherEncoded(d);
    }
  }

  // If a valid text starts with some scalars, what follows is empty or starts with another one.
  lemma {:induction false} NextScalar(ds: seq<scalar>, cs: seq<scalar>, rest: seq<byte>) returns (y: seq<byte>)
    requires EncodeAll(ds) == EncodeAll(cs) + rest && rest != []
    ensures |cs| < |ds| && rest == Encode(ds[|cs|]) + y
  {
    if cs == [] {
      assert EncodeAll(cs) + rest == rest;
      y := EncodeAll(ds[1..]);
    } else {
      var x := EncodeAll(cs[1..]) + rest;
      assert EncodeAll(cs) + rest == Encode(cs[0]) + x;
      assert |EncodeAll(ds)| > 0;
      EncodeUnique(ds[0], EncodeAll(ds[1..]), cs[0], x);
      y := NextScalar(ds[1..], cs[1..], rest);
    }
  }

  ghost predicate NoScalar(d: seq<byte>) { forall c: scalar, x :: d != Encode(c) + x }

  lemma NotValid(cs: seq<scalar>, rest: seq<byte>)
    requires rest != [] && NoScalar(rest)
    ensures !Valid(EncodeAll(cs) + rest)
  {
    forall ds: seq<scalar> ensures !Encodes(ds, EncodeAll(cs) + rest) {
      if Encodes(ds, EncodeAll(cs) + rest) {
        var y := NextScalar(ds, cs, rest);
      }
    }
  }

  // ---------- the validator ----------

  // What the bytes of a text that starts with a scalar look like.
  lemma StartsWith(d: seq<byte>, c: scalar, x: seq<byte>)
    requires d == Encode(c) + x
    ensures var n := Length(d[0]);
      1 <= n <= |d| && (n >= 2 ==> Continuations(d[1..n]) && Gather(Lead(d[0]), d[1..n]) == c >= Minimum(n))
  {
    EncodeShape(c);
    if c >= 0x80 {
      GatherEncoded(c);
      assert d[1..|Encode(c)|] == Encode(c)[1..];
    }
  }

  // Others are refused.
  lemma RefusedBytes(d: seq<byte>)
    requires d != []
    requires var n := Length(d[0]);
      n == 0 || n > |d| || (n >= 2 && !Continuations(d[1..n])) ||
      (n >= 2 && (Gather(Lead(d[0]), d[1..n]) < Minimum(n) || !Scalar(Gather(Lead(d[0]), d[1..n]))))
    ensures NoScalar(d)
  {
    forall c: scalar, x ensures d != Encode(c) + x {
      if d == Encode(c) + x { StartsWith(d, c, x); }
    }
  }

  // The inner loop: the continuation bytes of one scalar.
  method ReadTail(text: seq<byte>, at: nat, count: nat, lead: nat) returns (ok: bool, value: nat)
    requires at + count <= |text|
    ensures ok <==> Continuations(text[at..at + count])
    ensures ok ==> value == Gather(lead, text[at..at + count])
  {
    value := lead;
    var i := 0;
    while i < count
      invariant i <= count && Continuations(text[at..at + i]) && value == Gather(lead, text[at..at + i])
    {
      var b := text[at + i];
      if !Continuation(b) {
        assert text[at..at + count][i] == b;
        return false, value;
      }
      value := value * 64 + Six(b);
      assert text[at..at + i + 1] == text[at..at + i] + [b];
      i := i + 1;
    }
    ok := true;
  }

  // One turn of the outer loop.
  method ReadScalar(text: seq<byte>, at: nat) returns (ok: bool, next: nat, ghost c: scalar)
    requires at < |text|
    ensures ok ==> at < next <= |text| && text[at..next] == Encode(c)
    ensures !ok ==> NoScalar(text[at..])
  {
    var lead := text[at];
    ghost var d := text[at..];
    next, c := at + 1, 0;
    if lead < 0x80 {
      c := lead as nat;
      assert text[at..next] == [lead];
      return true, next, c;
    }
    var count, minimum := 0, 0;
    if 0xc2 <= lead <= 0xdf {
      count, minimum := 1, 0x80;
    } else if 0xe0 <= lead <= 0xef {
      count, minimum := 2, 0x800;
    } else if 0xf0 <= lead <= 0xf4 {
      count, minimum := 3, 0x1_0000;
    } else {
      RefusedBytes(d);
      return false, next, c;
    }
    ok, next, c := ReadLong(text, at, count, minimum);
  }

  // More than one byte.
  method ReadLong(text: seq<byte>, at: nat, count: nat, minimum: nat) returns (ok: bool, next: nat, ghost c: scalar)
    requires at < |text| && 1 <= count && Length(text[at]) == count + 1 && minimum == Minimum(count + 1)
    ensures ok ==> at < next <= |text| && text[at..next] == Encode(c)
    ensures !ok ==> NoScalar(text[at..])
  {
    var lead := text[at];
    ghost var d := text[at..];
    next, c := at + 1, 0;
    if count > |text| - next {
      RefusedBytes(d);
      return false, next, c;
    }
    var value;
    assert text[next..next + count] == d[1..count + 1];
    ok, value := ReadTail(text, next, count, Lead(lead));
    next := next + count;
    if !ok || value < minimum || value > 0x10ffff || 0xd800 <= value <= 0xdfff {
      RefusedBytes(d);
      return false, next, c;
    }
    c := value;
    EncodeGathered(lead, d[1..count + 1]);
    FirstAndTail(text, at, count);
  }

  lemma FirstAndTail(text: seq<byte>, at: nat, count: nat)
    requires at + 1 + count <= |text|
    ensures text[at..at + 1 + count] == [text[at]] + text[at..][1..count + 1]
  {
  }

  // base_text_utf8_valid_bytes: accepts exactly the concatenations of encoded scalar values.
  method Validate(text: seq<byte>) returns (ok: bool)
    ensures ok <==> Valid(text)
  {
    var at := 0;
    ghost var cs: seq<scalar> := [];
    while at < |text|
      invariant at <= |text| && text[..at] == EncodeAll(cs)
    {
      ghost var c;
      var next;
      ok, next, c := ReadScalar(text, at);
      if !ok {
        NotValid(cs, text[at..]);
        assert text == EncodeAll(cs) + text[at..];
        return;
      }
      EncodeConcat(cs, [c]);
      EncodeOne(c);
      assert text[..next] == text[..at] + text[at..next];
      at, cs := next, cs + [c];
    }
    assert text[..at] == text;
    assert Encodes(cs, text);
    ok := true;
  }
}
