/**
 Bytes and the flat view of a medium.
 */
module Bytes {

  newtype byte = x: int | 0 <= x < 256

  // A sequence with some bytes overwritten from an offset on.
  function Overwrite(s: seq<byte>, offset: nat, bytes: seq<byte>): (r: seq<byte>)
    requires offset + |bytes| <= |s|
    ensures |r| == |s|
    ensures forall i :: 0 <= i < |s| ==> r[i] == if offset <= i < offset + |bytes| then bytes[i - offset] else s[i]
  {
    s[..offset] + bytes + s[offset + |bytes|..]
  }

  function Repeat(value: byte, count: nat): (r: seq<byte>)
    ensures |r| == count && forall i :: 0 <= i < count ==> r[i] == value
  {
    seq(count, _ => value)
  }

  // The first `done` bytes of a write, one after the other.
  function Written(s: seq<byte>, offset: nat, bytes: seq<byte>, done: nat): (r: seq<byte>)
    requires done <= |bytes| && (done > 0 ==> offset + done <= |s|)
    ensures |r| == |s|
  {
    if done == 0 then s else Written(s, offset, bytes, done - 1)[offset + done - 1 := bytes[done - 1]]
  }

  // They are the flat sequence overwritten by a prefix.
  lemma {:induction false} WrittenIsOverwrite(s: seq<byte>, offset: nat, bytes: seq<byte>, done: nat)
    requires done <= |bytes| && offset + done <= |s|
    ensures Written(s, offset, bytes, done) == Overwrite(s, offset, bytes[..done])
  {
    if done > 0 { WrittenIsOverwrite(s, offset, bytes, done - 1); }
  }

  // The first `done` bytes of a write have taken effect, and nothing else has.
  ghost predicate Wrote(before: seq<byte>, after: seq<byte>, offset: nat, bytes: seq<byte>, done: nat) {
    done <= |bytes| && (done > 0 ==> offset + done <= |before|) && after == Written(before, offset, bytes, done)
  }

  // A prefix that went through is extended by a prefix of what followed it.
  lemma {:induction false} WroteJoins(a: seq<byte>, b: seq<byte>, c: seq<byte>, offset: nat, bytes: seq<byte>,
      done: nat, rest: seq<byte>, more: nat)
    requires done <= |bytes| && rest <= bytes[done..] && Wrote(a, b, offset, bytes, done)
      && Wrote(b, c, offset + done, rest, more)
    ensures Wrote(a, c, offset, bytes, done + more)
    decreases more
  {
    if more > 0 {
      assert rest[more - 1] == bytes[done..][more - 1] == bytes[done + more - 1];
      WroteJoins(a, b, Written(b, offset + done, rest, more - 1), offset, bytes, done, rest, more - 1);
    }
  }

  function Power256(n: nat): (r: nat)
    ensures r > 0
  {
    if n == 0 then 1 else 256 * Power256(n - 1)
  }

  // A value shifted right by some whole bytes.
  function ShiftBytes(value: nat, i: nat): nat { if i == 0 then value else ShiftBytes(value / 256, i - 1) }

  // The i-th least significant byte of a value.
  function ByteOf(value: nat, i: nat): byte { (ShiftBytes(value, i) % 256) as byte }
}
