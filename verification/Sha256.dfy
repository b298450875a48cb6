/**
 The SHA-256 of the media snapshot, against the one-shot definition of FIPS 180-4: message
 schedule and compression as in section 6.2.
 */
module Sha256 {
  import opened Bytes
  import opened BlockHash

  // ---------- the standard ----------

  // The eight working variables, or the eight words of a hash value.
  datatype Words = Words(a: bv32, b: bv32, c: bv32, d: bv32, e: bv32, f: bv32, g: bv32, h: bv32)

  // The round constants, eight to a row.
  const K0: seq<bv32> :=
    [0x428a2f98, 0x71374491, 0xb5c0fbcf, 0xe9b5dba5, 0x3956c25b, 0x59f111f1, 0x923f82a4, 0xab1c5ed5]
  const K1: seq<bv32> :=
    [0xd807aa98, 0x12835b01, 0x243185be, 0x550c7dc3, 0x72be5d74, 0x80deb1fe, 0x9bdc06a7, 0xc19bf174]
  const K2: seq<bv32> :=
    [0xe49b69c1, 0xefbe4786, 0x0fc19dc6, 0x240ca1cc, 0x2de92c6f, 0x4a7484aa, 0x5cb0a9dc, 0x76f988da]
  const K3: seq<bv32> :=
    [0x983e5152, 0xa831c66d, 0xb00327c8, 0xbf597fc7, 0xc6e00bf3, 0xd5a79147, 0x06ca6351, 0x14292967]
  const K4: seq<bv32> :=
    [0x27b70a85, 0x2e1b2138, 0x4d2c6dfc, 0x53380d13, 0x650a7354, 0x766a0abb, 0x81c2c92e, 0x92722c85]
  const K5: seq<bv32> :=
    [0xa2bfe8a1, 0xa81a664b, 0xc24b8b70, 0xc76c51a3, 0xd192e819, 0xd6990624, 0xf40e3585, 0x106aa070]
  const K6: seq<bv32> :=
    [0x19a4c116, 0x1e376c08, 0x2748774c, 0x34b0bcb5, 0x391c0cb3, 0x4ed8aa4a, 0x5b9cca4f, 0x682e6ff3]
  const K7: seq<bv32> :=
    [0x748f82ee, 0x78a5636f, 0x84c87814, 0x8cc70208, 0x90befffa, 0xa4506ceb, 0xbef9a3f7, 0xc67178f2]
  const K: seq<bv32> := (K0 + K1 + (K2 + K3)) + (K4 + K5 + (K6 + K7))

  const H0 := Words(0x6a09e667, 0xbb67ae85, 0x3c6ef372, 0xa54ff53a, 0x510e527f, 0x9b05688c, 0x1f83d9ab, 0x5be0cd19)

  function Plus(x: bv32, y: bv32): bv32 { x + y }
  function Ch(x: bv32, y: bv32, z: bv32): bv32 { (x & y) ^ (!x & z) }
  function Maj(x: bv32, y: bv32, z: bv32): bv32 { (x & y) ^ (x & z) ^ (y & z) }
  function BigSigma0(x: bv32): bv32 { x.RotateRight(2) ^ x.RotateRight(13) ^ x.RotateRight(22) }
  function BigSigma1(x: bv32): bv32 { x.RotateRight(6) ^ x.RotateRight(11) ^ x.RotateRight(25) }
  function SmallSigma0(x: bv32): bv32 { x.RotateRight(7) ^ x.RotateRight(18) ^ (x >> 3) }
  function SmallSigma1(x: bv32): bv32 { x.RotateRight(17) ^ x.RotateRight(19) ^ (x >> 10) }

  // Four bytes, most significant first.
  function Pack(b0: byte, b1: byte, b2: byte, b3: byte): bv32 {
    (b0 as bv32 << 24) | (b1 as bv32 << 16) | (b2 as bv32 << 8) | b3 as bv32
  }

  // The i-th big-endian word of a block.
  function Word(block: seq<byte>, i: nat): bv32
    requires |block| == 64 && i < 16
  {
    Pack(block[4 * i], block[4 * i + 1], block[4 * i + 2], block[4 * i + 3])
  }

  // A word of the message schedule from the words 2, 7, 15 and 16 places before it.
  function NextWord(w2: bv32, w7: bv32, w15: bv32, w16: bv32): bv32 {
    SmallSigma1(w2) + w7 + SmallSigma0(w15) + w16
  }

  // The first n words of the message schedule.
  function Schedule(block: seq<byte>, n: nat): (w: seq<bv32>)
    requires |block| == 64
    ensures |w| == n
  {
    if n == 0 then []
    else
      var w, t := Schedule(block, n - 1), n - 1;
      w + [if t < 16 then Word(block, t) else NextWord(w[t - 2], w[t - 7], w[t - 15], w[t - 16])]
  }

  function T1(e: bv32, f: bv32, g: bv32, h: bv32, k: bv32, w: bv32): bv32 { h + BigSigma1(e) + Ch(e, f, g) + k + w }
  function T2(a: bv32, b: bv32, c: bv32): bv32 { BigSigma0(a) + Maj(a, b, c) }

  function Round(x: Words, k: bv32, w: bv32): Words {
    var t1, t2 := T1(x.e, x.f, x.g, x.h, k, w), T2(x.a, x.b, x.c);
    Words(Plus(t1, t2), x.a, x.b, x.c, Plus(x.d, t1), x.e, x.f, x.g)
  }

  // The first n rounds.
  function Rounds(x: Words, w: seq<bv32>, n: nat): Words
    requires n <= |w| == 64
  {
    if n == 0 then x else Round(Rounds(x, w, n - 1), K[n - 1], w[n - 1])
  }

  function AddWords(x: Words, y: Words): Words {
    Words(Plus(x.a, y.a), Plus(x.b, y.b), Plus(x.c, y.c), Plus(x.d, y.d), Plus(x.e, y.e), Plus(x.f, y.f),
      Plus(x.g, y.g), Plus(x.h, y.h))
  }

  function Compress(x: Words, block: seq<byte>): Words
    requires |block| == 64
  {
    AddWords(x, Rounds(x, Schedule(block, |K|), |K|))
  }

  const COMPRESS: (Words, seq<byte>) -> Words := (x, block) => if |block| == 64 then Compress(x, block) else x

  function WordBytes(w: bv32): seq<byte> {
    [((w >> 24) as int % 256) as byte, ((w >> 16) as int % 256) as byte, ((w >> 8) as int % 256) as byte,
      (w as int % 256) as byte]
  }

  function WordsBytes(x: Words): (r: seq<byte>)
    ensures |r| == 32
  {
    WordBytes(x.a) + WordBytes(x.b) + WordBytes(x.c) + WordBytes(x.d)
    + WordBytes(x.e) + WordBytes(x.f) + WordBytes(x.g) + WordBytes(x.h)
  }

  function Digest(message: seq<byte>): (r: seq<byte>)
    ensures |r| == 32
  {
    WordsBytes(Hash(COMPRESS, H0, Padded(message)))
  }

  // ---------- hash_block ----------

  // The rotate of the code.
  function Rotate(n: bv32, bits: nat): bv32
    requires 0 < bits < 32
  {
    (n >> bits) | (n << (32 - bits))
  }

  // The sigmas as the code writes them, with its rotate written out.
  lemma SigmasOfTheCode(x: bv32)
    ensures BigSigma0(x) == ((x >> 2) | (x << 30)) ^ ((x >> 13) | (x << 19)) ^ ((x >> 22) | (x << 10))
    ensures BigSigma1(x) == ((x >> 6) | (x << 26)) ^ ((x >> 11) | (x << 21)) ^ ((x >> 25) | (x << 7))
    ensures SmallSigma0(x) == ((x >> 7) | (x << 25)) ^ ((x >> 18) | (x << 14)) ^ (x >> 3)
    ensures SmallSigma1(x) == ((x >> 17) | (x << 15)) ^ ((x >> 19) | (x << 13)) ^ (x >> 10)
  {
  }

  // The code adds the four terms of a schedule word in the opposite order.
  function CodeSum(w16: bv32, w15: bv32, w7: bv32, w2: bv32): (r: bv32)
    ensures r == NextWord(w2, w7, w15, w16)
  {
    w16 + SmallSigma0(w15) + w7 + SmallSigma1(w2)
  }

  // One more word of the schedule, as the code computes it.
  method NextScheduleWord(w: seq<bv32>, ghost block: seq<byte>) returns (next: bv32)
    requires |block| == 64 && 16 <= |w| < 64 && w == Schedule(block, |w|)
    ensures w + [next] == Schedule(block, |w| + 1)
  {
    var i := |w|;
    var x, y, far, near := w[i - 15], w[i - 2], w[i - 16], w[i - 7];
    next := CodeSum(far, x, near, y);
  }

  // One word of the block itself.
  method LoadWord(w: seq<bv32>, block: seq<byte>) returns (word: bv32)
    requires |block| == 64 && |w| < 16 && w == Schedule(block, |w|)
    ensures w + [word] == Schedule(block, |w| + 1)
  {
    var p := 4 * |w|;
    word := Pack(block[p], block[p + 1], block[p + 2], block[p + 3]);
  }

  // The first schedule loop of hash_block.
  method LoadBlock(block: seq<byte>) returns (w: seq<bv32>)
    requires |block| == 64
    ensures w == Schedule(block, 16)
  {
    w := [];
    while |w| < 16
      invariant |w| <= 16 && w == Schedule(block, |w|)
    {
      var word := LoadWord(w, block);
      w := w + [word];
    }
  }

  // The second schedule loop.
  method ExpandBlock(block: seq<byte>) returns (w: seq<bv32>)
    requires |block| == 64
    ensures w == Schedule(block, 64)
  {
    w := LoadBlock(block);
    while |w| < 64
      invariant 16 <= |w| <= 64 && w == Schedule(block, |w|)
    {
      var next := NextScheduleWord(w, block);
      w := w + [next];
    }
  }

  // The 64 rounds of hash_block, the eight words shifted one place a round.
  method RunRounds(x: Words, w: seq<bv32>) returns (r: Words)
    requires |w| == 64
    ensures r == Rounds(x, w, 64)
  {
    var a, b, c, d, e, f, g, h := x.a, x.b, x.c, x.d, x.e, x.f, x.g, x.h;
    var i := 0;
    while i < 64
      invariant 0 <= i <= 64 && Words(a, b, c, d, e, f, g, h) == Rounds(x, w, i)
    {
      var t1 := T1(e, f, g, h, K[i], w[i]);
      var t2 := T2(a, b, c);
      h := g;
      g := f;
      f := e;
      e := Plus(d, t1);
      d := c;
      c := b;
      b := a;
      a := Plus(t1, t2);
      i := i + 1;
    }
    r := Words(a, b, c, d, e, f, g, h);
  }

  // hash_block.
  method HashBlock(x: Words, block: seq<byte>) returns (r: Words)
    requires |block| == 64
    ensures r == COMPRESS(x, block)
  {
    var w := ExpandBlock(block);
    var y := RunRounds(x, w);
    r := AddWords(x, y);
  }

  // The shifts of the code make rotations.
  lemma RotateIsRotation(n: bv32)
    ensures Rotate(n, 2) == n.RotateRight(2) && Rotate(n, 13) == n.RotateRight(13) && Rotate(n, 22) == n.RotateRight(22)
    ensures Rotate(n, 6) == n.RotateRight(6) && Rotate(n, 11) == n.RotateRight(11) && Rotate(n, 25) == n.RotateRight(25)
    ensures Rotate(n, 7) == n.RotateRight(7) && Rotate(n, 18) == n.RotateRight(18)
    ensures Rotate(n, 17) == n.RotateRight(17) && Rotate(n, 19) == n.RotateRight(19)
  {
  }

  // A running SHA-256.
  ghost predicate Running(hash: MediaHash<Words>)
    reads hash, hash.block
  {
    hash.Valid() && hash.compress == COMPRESS && hash.initial == H0
  }

  // hash_begin.
  method Start() returns (hash: MediaHash<Words>)
    ensures Running(hash) && hash.Message == [] && fresh(hash) && fresh(hash.block)
  {
    hash := new MediaHash(COMPRESS, H0);
  }

  // hash_end.
  method Finish(hash: MediaHash<Words>) returns (digest: seq<byte>)
    requires Running(hash)
    modifies hash, hash.block
    ensures digest == Digest(old(hash.Message))
  {
    var value := hash.End();
    digest := WordsBytes(value);
  }

  // However a message is split into hash_add calls, hash_end returns the digest of the standard.
  method DigestOfChunks(chunks: seq<seq<byte>>) returns (digest: seq<byte>)
    ensures digest == Digest(Concatenation(chunks))
  {
    var value := HashOfChunks(COMPRESS, H0, chunks);
    digest := WordsBytes(value);
  }
}
