/**
 Hashing a message block by block as it arrives, for any compression function: the padding of
 section 5.1.1 of FIPS 180-4 and the streaming code of the media snapshot.
 */
module BlockHash {
  import opened Bytes

  // The hash value after the complete blocks of some data, for any compression function.
  function Hash<X>(compress: (X, seq<byte>) -> X, x: X, data: seq<byte>): X
    decreases |data|
  {
    if |data| < 64 then x else Hash(compress, compress(x, data[..64]), data[64..])
  }

  const WRAP_64 := 0x1_0000_0000_0000_0000

  function BigEndian64(value: nat): (r: seq<byte>)
    ensures |r| == 8
  {
    seq(8, i requires 0 <= i < 8 => ByteOf(value, 7 - i))
  }

  // The message, a one bit, as many zero bits as complete the last block, and a 64-bit number.
  function PaddedWith(message: seq<byte>, bits: nat): (r: seq<byte>)
    ensures |r| % 64 == 0
  {
    message + [0x80] + Repeat(0, (119 - |message| % 64) % 64) + BigEndian64(bits)
  }

  // The number is the length of the message in bits.
  function Padded(message: seq<byte>): (r: seq<byte>)
    ensures |r| % 64 == 0
  {
    PaddedWith(message, |message| * 8 % WRAP_64)
  }

  // ---------- hashing in pieces ----------

  // Complete blocks can be hashed before what follows them.
  lemma {:induction false} HashSplits<X>(compress: (X, seq<byte>) -> X, x: X, a: seq<byte>, b: seq<byte>)
    requires |a| % 64 == 0
    ensures Hash(compress, x, a + b) == Hash(compress, Hash(compress, x, a), b)
    decreases |a|
  {
    if a == [] {
      assert a + b == b;
    } else {
      assert (a + b)[..64] == a[..64] && (a + b)[64..] == a[64..] + b;
      HashSplits(compress, compress(x, a[..64]), a[64..], b);
    }
  }

  lemma HashBlockAppended<X>(compress: (X, seq<byte>) -> X, x: X, a: seq<byte>, block: seq<byte>)
    requires |a| % 64 == 0 && |block| == 64
    ensures Hash(compress, x, a + block) == compress(Hash(compress, x, a), block)
  {
    HashSplits(compress, x, a, block);
    assert block[..64] == block && block[64..] == [];
  }

  // The padding of complete blocks followed by a tail: one block if 0x80 and the length fit
  // behind the tail, else two.
  lemma PaddingBlocks(head: seq<byte>, tail: seq<byte>, bits: nat)
    requires |head| % 64 == 0 && |tail| < 64
    ensures PaddedWith(head + tail, bits) ==
      if |tail| + 1 <= 56
      then head + (tail + [0x80] + Repeat(0, 55 - |tail|) + BigEndian64(bits))
      else head + (tail + [0x80] + Repeat(0, 63 - |tail|)) + (Repeat(0, 56) + BigEndian64(bits))
  {
    assert |head + tail| % 64 == |tail|;
    if |tail| + 1 > 56 {
      assert Repeat(0, 119 - |tail|) == Repeat(0, 63 - |tail|) + Repeat(0, 56);
    }
  }

  // ---------- the streaming code ----------

  // The running hash of the code, over a hash value X and the compression it is given.
  class MediaHash<X> {
    const compress: (X, seq<byte>) -> X
    const initial: X
    var h: X
    var bytes: nat                // modulo 2^64
    const block: array<byte>
    var used: nat
    ghost var Message: seq<byte>  // everything added so far
    ghost var Head: seq<byte>     // its complete blocks
    ghost var Blocks: nat         // their number
    ghost var Laps: nat           // how often `bytes` has wrapped round

    // Complete blocks are in h, the rest is in the block buffer.
    ghost predicate Buffered()
      reads this, block
    {
      && block.Length == 64 && used < 64 && |Head| == 64 * Blocks
      && Message == Head + block[..used] && h == Hash(compress, initial, Head)
    }

    ghost predicate Valid()
      reads this, block
    {
      Buffered() && bytes < WRAP_64 && bytes + Laps * WRAP_64 == |Message|
    }

    // hash_begin.
    constructor (compress: (X, seq<byte>) -> X, initial: X)
      ensures Valid() && Message == [] && this.compress == compress && this.initial == initial && fresh(block)
    {
      this.compress, this.initial, h := compress, initial, initial;
      bytes, used, Message, Head, Blocks, Laps := 0, 0, [], [], 0, 0;
      block := new byte[64](_ => 0);
    }

    // hash_add.
    method Add(data: seq<byte>)
      requires Valid()
      modifies this, block
      ensures Valid() && Message == old(Message) + data
    {
      Count(|data|);
      var at := 0;
      while at != |data|
        invariant at <= |data| && Buffered() && Message == old(Message) + data[..at]
        invariant bytes < WRAP_64 && bytes + Laps * WRAP_64 == |old(Message)| + |data|
        decreases |data| - at
      {
        var n := if 64 - used > |data| - at then |data| - at else 64 - used;
        AddPiece(data[at..at + n]);
        assert data[..at] + data[at..at + n] == data[..at + n];
        at := at + n;
      }
    }

    // The byte count of hash_add.
    method Count(count: nat)
      requires bytes < WRAP_64 && bytes + Laps * WRAP_64 == |Message|
      modifies this`bytes, this`Laps
      ensures bytes < WRAP_64 && bytes + Laps * WRAP_64 == |Message| + count
    {
      Laps := Laps + (bytes + count) / WRAP_64;
      bytes := (bytes + count) % WRAP_64;
    }

    // One turn of the loop of hash_add: a piece that does not overrun the block.
    method AddPiece(piece: seq<byte>)
      requires Buffered() && piece != [] && used + |piece| <= 64
      modifies this`h, this`used, this`Message, this`Head, this`Blocks, block
      ensures Buffered() && Message == old(Message) + piece
    {
      forall i | 0 <= i < |piece| { block[used + i] := piece[i]; }
      assert block[..used + |piece|] == old(block[..used]) + piece;
      used := used + |piece|;
      Message := Message + piece;
      assert Message == Head + block[..used];
      if used == 64 {
        assert block[..64] == block[..];
        HashBlockAppended(compress, initial, Head, block[..]);
        h := compress(h, block[..]);
        used := 0;
        Head, Blocks := Message, Blocks + 1;
      }
    }

    // hash_end.
    method End() returns (result: X)
      requires Valid()
      modifies this, block
      ensures result == Hash(compress, initial, Padded(old(Message)))
    {
      var bits := Bits();
      result := Close(bits);
    }

    // The length of the message in bits.
    method Bits() returns (bits: nat)
      requires bytes + Laps * WRAP_64 == |Message|
      ensures bits == |Message| * 8 % WRAP_64
    {
      bits := bytes * 8 % WRAP_64;
    }

    // The rest of hash_end: the padding, in one block or in two, and the final hash value.
    method Close(bits: nat) returns (result: X)
      requires Buffered()
      modifies this, block
      ensures result == Hash(compress, initial, PaddedWith(old(Message), bits))
    {
      ghost var head, tail := Head, block[..used];
      PaddingBlocks(head, tail, bits);
      block[used] := 0x80;
      used := used + 1;
      assert block[..used] == tail + [0x80];
      if used > 56 {
        ZeroFill(64);
        assert block[..64] == block[..];
        HashWhole(head);
        head := head + (tail + [0x80] + Repeat(0, 63 - |tail|));
        used := 0;
        assert [] + Repeat(0, 56) == Repeat(0, 56);
        LastBlock(head, [], bits);
      } else {
        LastBlock(head, tail + [0x80], bits);
      }
      result := h;
    }

    // The block with the length, behind the complete blocks `head`.
    method LastBlock(ghost head: seq<byte>, ghost tail: seq<byte>, bits: nat)
      requires block.Length == 64 && |head| % 64 == 0 && h == Hash(compress, initial, head)
      requires used <= 56 && tail == block[..used]
      modifies this`h, block
      ensures h == Hash(compress, initial, head + (tail + Repeat(0, 56 - |tail|) + BigEndian64(bits)))
    {
      ZeroFill(56);
      WriteLength(bits);
      assert block[..] == block[..56] + block[56..];
      HashWhole(head);
    }

    // Clears the block from the used part up to an end.
    method ZeroFill(end: nat)
      requires used <= end <= block.Length == 64
      modifies block
      ensures block[..end] == old(block[..used]) + Repeat(0, end - used)
    {
      forall i | used <= i < end { block[i] := 0; }
    }

    // Hashes the whole block behind the complete blocks `head`.
    method HashWhole(ghost head: seq<byte>)
      requires block.Length == 64 && |head| % 64 == 0 && h == Hash(compress, initial, head)
      modifies this`h
      ensures h == Hash(compress, initial, head + block[..])
    {
      HashBlockAppended(compress, initial, head, block[..]);
      h := compress(h, block[..]);
    }

    // The length loop of hash_end, least significant byte last.
    method WriteLength(bits: nat)
      requires block.Length == 64
      modifies block
      ensures block[..56] == old(block[..56]) && block[56..] == BigEndian64(bits)
    {
      var i := 0;
      while i < 8
        invariant 0 <= i <= 8 && block[..56] == old(block[..56])
        invariant forall j :: 0 <= j < i ==> block[63 - j] == ByteOf(bits, j)
      {
        block[63 - i] := ByteOf(bits, i);
        i := i + 1;
      }
      forall j | 0 <= j < 8 ensures block[56..][j] == BigEndian64(bits)[j] {
        assert block[63 - (7 - j)] == ByteOf(bits, 7 - j);
      }
    }
  }

  // ---------- independence of the chunking ----------

  function Concatenation(chunks: seq<seq<byte>>): seq<byte> {
    if chunks == [] then [] else Concatenation(chunks[..|chunks| - 1]) + chunks[|chunks| - 1]
  }

  // However a message is split into hash_add calls, hash_end returns the hash of the padded message.
  method HashOfChunks<X>(compress: (X, seq<byte>) -> X, initial: X, chunks: seq<seq<byte>>) returns (value: X)
    ensures value == Hash(compress, initial, Padded(Concatenation(chunks)))
  {
    var hash := new MediaHash(compress, initial);
    var i := 0;
    while i < |chunks|
      invariant 0 <= i <= |chunks| && hash.Valid() && fresh(hash) && fresh(hash.block)
      invariant hash.compress == compress && hash.initial == initial && hash.Message == Concatenation(chunks[..i])
    {
      hash.Add(chunks[i]);
      assert chunks[..i + 1][..i] == chunks[..i];
      i := i + 1;
    }
    assert chunks[..i] == chunks;
    value := hash.End();
  }
}
