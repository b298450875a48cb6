/**
 The specification of SHA-256 computed step by step on the empty message, whose digest is known.
 */
module Sha256Vector {
  import opened Bytes
  import opened BlockHash
  import opened Sha256
  import opened Sha256Constants

  // The message schedule, eight to a row.
  const W0: seq<bv32> := [0x80000000, 0, 0, 0, 0, 0, 0, 0]
  const W1: seq<bv32> := [0, 0, 0, 0, 0, 0, 0, 0]
  const W2: seq<bv32> := [0x80000000, 0, 0x00205000, 0, 0x22000800, 0, 0x05089542, 0x80000000]
  const W3: seq<bv32> :=
    [0x58080000, 0x0040a000, 0x00162505, 0x66001800, 0xd6222580, 0x14225508, 0xd645f95c, 0xc9282000]
  const W4: seq<bv32> :=
    [0xc3f10094, 0x284ca766, 0x06886dc6, 0xa37bf116, 0x717cbe96, 0xfec2d74a, 0xa7b67f00, 0x811596a2]
  const W5: seq<bv32> :=
    [0x98a6e768, 0x03b20c82, 0x5d1da7c9, 0xb156b935, 0xc3ddca11, 0x249c107f, 0xc48d24ef, 0x5de54c30]
  const W6: seq<bv32> :=
    [0xdefece65, 0x2ca1480d, 0x3c15332c, 0x01cec9ad, 0x160cccd0, 0x0bacda98, 0x361b8fe0, 0xd2320ba6]
  const W7: seq<bv32> :=
    [0x029b7007, 0x7546587c, 0x07f54f39, 0xf808ddc3, 0xdcca7608, 0x5e427188, 0x44bcec5d, 0x3b5ec49b]

  // ---------- the block ----------

  lemma {:induction false} ShiftedZero(i: nat)
    ensures ShiftBytes(0, i) == 0
  {
    if i > 0 { ShiftedZero(i - 1); }
  }

  // The padding of the empty message.
  lemma EmptyPadded(block: seq<byte>)
    requires block == Padded([])
    ensures |block| == 64 && block[0] == 0x80 && forall i :: 1 <= i < 64 ==> block[i] == 0
  {
    forall i | 0 <= i < 8 ensures BigEndian64(0)[i] == 0 { ShiftedZero(7 - i); }
    assert block == [] + [0x80] + Repeat(0, 55) + BigEndian64(0);
  }

  // ---------- the schedule ----------

  // The words s are a whole schedule.
  ghost predicate IsSchedule(block: seq<byte>, s: seq<bv32>) {
    |block| == 64 && |s| == |K| == 64 && s == Schedule(block, |s|)
  }

  lemma {:induction false} SchedulePrefix(block: seq<byte>, n: nat, m: nat)
    requires |block| == 64 && n <= m
    ensures n <= |Schedule(block, m)| && Schedule(block, m)[..n] == Schedule(block, n)
    decreases m
  {
    var w := Schedule(block, m);
    if n < m {
      SchedulePrefix(block, n, m - 1);
      PrefixMore(Schedule(block, m - 1), w, n);
    } else {
      assert w[..m] == w;
    }
  }

  lemma PrefixMore(v: seq<bv32>, w: seq<bv32>, n: nat)
    requires n <= |v| && w != [] && w == v + [w[|w| - 1]]
    ensures w[..n] == v[..n]
  {
  }

  lemma ScheduleAt(block: seq<byte>, s: seq<bv32>, t: nat)
    requires IsSchedule(block, s) && t < |s|
    ensures s[t] == if t < 16 then Word(block, t) else NextWord(s[t - 2], s[t - 7], s[t - 15], s[t - 16])
  {
    SchedulePrefix(block, t + 1, |s|);
    SchedulePrefix(block, t, |s|);
    assert s[t] == s[..t + 1][t];
  }

  // Eight words from a place on.
  predicate Row(s: seq<bv32>, at: nat, r: seq<bv32>) {
    && at + 8 <= |s| && |r| == 8 && s[at] == r[0] && s[at + 1] == r[1] && s[at + 2] == r[2] && s[at + 3] == r[3]
    && s[at + 4] == r[4] && s[at + 5] == r[5] && s[at + 6] == r[6] && s[at + 7] == r[7]
  }

  lemma ZeroWord(block: seq<byte>, i: nat)
    requires |block| == 64 && 1 <= i < 16 && forall i :: 1 <= i < 64 ==> block[i] == 0
    ensures Word(block, i) == 0
  {
    assert Pack(0, 0, 0, 0) == 0;
  }

  lemma FirstWords(block: seq<byte>, s: seq<bv32>)
    requires |block| == 64 && block[0] == 0x80 && (forall i :: 1 <= i < 64 ==> block[i] == 0)
    requires IsSchedule(block, s)
    ensures Row(s, 0, W0) && Row(s, 8, W1)
  {
    ScheduleAt(block, s, 0);
    assert Pack(0x80, 0, 0, 0) == 0x80000000;
    forall t | 1 <= t < 16 ensures s[t] == 0 {
      ScheduleAt(block, s, t);
      ZeroWord(block, t);
    }
  }

  // One more word.
  lemma Next(block: seq<byte>, s: seq<bv32>, t: nat, w2: bv32, w7: bv32, w15: bv32, w16: bv32, word: bv32)
    requires IsSchedule(block, s) && 16 <= t < |s| && NextWord(w2, w7, w15, w16) == word
    requires s[t - 2] == w2 && s[t - 7] == w7 && s[t - 15] == w15 && s[t - 16] == w16
    ensures s[t] == word
  {
    ScheduleAt(block, s, t);
  }

  lemma Words2(block: seq<byte>, s: seq<bv32>, t: nat)
    requires IsSchedule(block, s) && t + 24 <= |s| && Row(s, t, W0) && Row(s, t + 8, W1)
    ensures Row(s, t + 16, W2)
  {
    Next(block, s, t + 16, 0, 0, 0, 0x80000000, 0x80000000);
    Next(block, s, t + 17, 0, 0, 0, 0, 0);
    Next(block, s, t + 18, 0x80000000, 0, 0, 0, 0x00205000);
    Next(block, s, t + 19, 0, 0, 0, 0, 0);
    Next(block, s, t + 20, 0x00205000, 0, 0, 0, 0x22000800);
    Next(block, s, t + 21, 0, 0, 0, 0, 0);
    Next(block, s, t + 22, 0x22000800, 0, 0, 0, 0x05089542);
    Next(block, s, t + 23, 0, 0x80000000, 0, 0, 0x80000000);
  }

  lemma Words3(block: seq<byte>, s: seq<bv32>, t: nat)
    requires IsSchedule(block, s) && t + 24 <= |s| && Row(s, t, W1) && Row(s, t + 8, W2)
    ensures Row(s, t + 16, W3)
  {
    Next(block, s, t + 16, 0x05089542, 0, 0, 0, 0x58080000);
    Next(block, s, t + 17, 0x80000000, 0x00205000, 0, 0, 0x0040a000);
    Next(block, s, t + 18, 0x58080000, 0, 0, 0, 0x00162505);
    Next(block, s, t + 19, 0x0040a000, 0x22000800, 0, 0, 0x66001800);
    Next(block, s, t + 20, 0x00162505, 0, 0, 0, 0xd6222580);
    Next(block, s, t + 21, 0x66001800, 0x05089542, 0, 0, 0x14225508);
    Next(block, s, t + 22, 0xd6222580, 0x80000000, 0, 0, 0xd645f95c);
    Next(block, s, t + 23, 0x14225508, 0x58080000, 0x80000000, 0, 0xc9282000);
  }

  lemma Words4(block: seq<byte>, s: seq<bv32>, t: nat)
    requires IsSchedule(block, s) && t + 24 <= |s| && Row(s, t, W2) && Row(s, t + 8, W3)
    ensures Row(s, t + 16, W4)
  {
    Next(block, s, t + 16, 0xd645f95c, 0x0040a000, 0, 0x80000000, 0xc3f10094);
    Next(block, s, t + 17, 0xc9282000, 0x00162505, 0x00205000, 0, 0x284ca766);
    Next(block, s, t + 18, 0xc3f10094, 0x66001800, 0, 0x00205000, 0x06886dc6);
    Next(block, s, t + 19, 0x284ca766, 0xd6222580, 0x22000800, 0, 0xa37bf116);
    Next(block, s, t + 20, 0x06886dc6, 0x14225508, 0, 0x22000800, 0x717cbe96);
    Next(block, s, t + 21, 0xa37bf116, 0xd645f95c, 0x05089542, 0, 0xfec2d74a);
    Next(block, s, t + 22, 0x717cbe96, 0xc9282000, 0x80000000, 0x05089542, 0xa7b67f00);
    Next(block, s, t + 23, 0xfec2d74a, 0xc3f10094, 0x58080000, 0x80000000, 0x811596a2);
  }

  lemma Words5(block: seq<byte>, s: seq<bv32>, t: nat)
    requires IsSchedule(block, s) && t + 24 <= |s| && Row(s, t, W3) && Row(s, t + 8, W4)
    ensures Row(s, t + 16, W5)
  {
    Next(block, s, t + 16, 0xa7b67f00, 0x284ca766, 0x0040a000, 0x58080000, 0x98a6e768);
    Next(block, s, t + 17, 0x811596a2, 0x06886dc6, 0x00162505, 0x0040a000, 0x03b20c82);
    Next(block, s, t + 18, 0x98a6e768, 0xa37bf116, 0x66001800, 0x00162505, 0x5d1da7c9);
    Next(block, s, t + 19, 0x03b20c82, 0x717cbe96, 0xd6222580, 0x66001800, 0xb156b935);
    Next(block, s, t + 20, 0x5d1da7c9, 0xfec2d74a, 0x14225508, 0xd6222580, 0xc3ddca11);
    Next(block, s, t + 21, 0xb156b935, 0xa7b67f00, 0xd645f95c, 0x14225508, 0x249c107f);
    Next(block, s, t + 22, 0xc3ddca11, 0x811596a2, 0xc9282000, 0xd645f95c, 0xc48d24ef);
    Next(block, s, t + 23, 0x249c107f, 0x98a6e768, 0xc3f10094, 0xc9282000, 0x5de54c30);
  }

  lemma Words6(block: seq<byte>, s: seq<bv32>, t: nat)
    requires IsSchedule(block, s) && t + 24 <= |s| && Row(s, t, W4) && Row(s, t + 8, W5)
    ensures Row(s, t + 16, W6)
  {
    Next(block, s, t + 16, 0xc48d24ef, 0x03b20c82, 0x284ca766, 0xc3f10094, 0xdefece65);
    Next(block, s, t + 17, 0x5de54c30, 0x5d1da7c9, 0x06886dc6, 0x284ca766, 0x2ca1480d);
    Next(block, s, t + 18, 0xdefece65, 0xb156b935, 0xa37bf116, 0x06886dc6, 0x3c15332c);
    Next(block, s, t + 19, 0x2ca1480d, 0xc3ddca11, 0x717cbe96, 0xa37bf116, 0x01cec9ad);
    Next(block, s, t + 20, 0x3c15332c, 0x249c107f, 0xfec2d74a, 0x717cbe96, 0x160cccd0);
    Next(block, s, t + 21, 0x01cec9ad, 0xc48d24ef, 0xa7b67f00, 0xfec2d74a, 0x0bacda98);
    Next(block, s, t + 22, 0x160cccd0, 0x5de54c30, 0x811596a2, 0xa7b67f00, 0x361b8fe0);
    Next(block, s, t + 23, 0x0bacda98, 0xdefece65, 0x98a6e768, 0x811596a2, 0xd2320ba6);
  }

  lemma Words7(block: seq<byte>, s: seq<bv32>, t: nat)
    requires IsSchedule(block, s) && t + 24 <= |s| && Row(s, t, W5) && Row(s, t + 8, W6)
    ensures Row(s, t + 16, W7)
  {
    Next(block, s, t + 16, 0x361b8fe0, 0x2ca1480d, 0x03b20c82, 0x98a6e768, 0x029b7007);
    Next(block, s, t + 17, 0xd2320ba6, 0x3c15332c, 0x5d1da7c9, 0x03b20c82, 0x7546587c);
    Next(block, s, t + 18, 0x029b7007, 0x01cec9ad, 0xb156b935, 0x5d1da7c9, 0x07f54f39);
    Next(block, s, t + 19, 0x7546587c, 0x160cccd0, 0xc3ddca11, 0xb156b935, 0xf808ddc3);
    Next(block, s, t + 20, 0x07f54f39, 0x0bacda98, 0x249c107f, 0xc3ddca11, 0xdcca7608);
    Next(block, s, t + 21, 0xf808ddc3, 0x361b8fe0, 0xc48d24ef, 0x249c107f, 0x5e427188);
    Next(block, s, t + 22, 0xdcca7608, 0xd2320ba6, 0x5de54c30, 0xc48d24ef, 0x44bcec5d);
    Next(block, s, t + 23, 0x5e427188, 0x029b7007, 0xdefece65, 0x5de54c30, 0x3b5ec49b);
  }

  // ---------- the rounds ----------

  // One more round.
  lemma Turn(w: seq<bv32>, n: nat, x: Words, k: bv32, word: bv32, a: bv32, e: bv32) returns (y: Words)
    requires n < 64 == |w| == |K| && Rounds(H0, w, n) == x && K[n] == k && w[n] == word
    requires Round(x, k, word) == Words(a, x.a, x.b, x.c, e, x.e, x.f, x.g)
    ensures y == Words(a, x.a, x.b, x.c, e, x.e, x.f, x.g) == Rounds(H0, w, n + 1)
  {
    y := Rounds(H0, w, n + 1);
  }

  lemma FirstTurns(w: seq<bv32>, n: nat)
    requires |w| == 64 == |K| && Row(K, n, K0) && Row(w, n, W0) && Rounds(H0, w, n) == H0
    ensures Rounds(H0, w, n + 4) ==
      Words(0x4c23eacb, 0xc4ac5526, 0x9ce564d0, 0x7c08884d, 0x3037e1b5, 0x6fdb22fa, 0x2001b256, 0x18c7e2a2)
  {
    var x := H0;
    x := Turn(w, n, x, 0x428a2f98, 0x80000000, 0x7c08884d, 0x18c7e2a2);
    x := Turn(w, n + 1, x, 0x71374491, 0, 0x9ce564d0, 0x2001b256);
    x := Turn(w, n + 2, x, 0xb5c0fbcf, 0, 0xc4ac5526, 0x6fdb22fa);
    x := Turn(w, n + 3, x, 0xe9b5dba5, 0, 0x4c23eacb, 0x3037e1b5);
  }

  lemma Turns0(w: seq<bv32>, n: nat)
    requires |w| == 64 == |K| && Row(K, n, K0) && Row(w, n, W0) && Rounds(H0, w, n) == H0
    ensures Rounds(H0, w, n + 8) ==
      Words(0x7ad5b1b6, 0xf0205590, 0x292e3b42, 0x4366f730, 0x53f94dcb, 0x82ede06f, 0x4f6540fa, 0xe7d0641e)
  {
    FirstTurns(w, n);
    var x := Rounds(H0, w, n + 4);
    x := Turn(w, n + 4, x, 0x3956c25b, 0, 0x4366f730, 0xe7d0641e);
    x := Turn(w, n + 5, x, 0x59f111f1, 0, 0x292e3b42, 0x4f6540fa);
    x := Turn(w, n + 6, x, 0x923f82a4, 0, 0xf0205590, 0x82ede06f);
    x := Turn(w, n + 7, x, 0xab1c5ed5, 0, 0x7ad5b1b6, 0x53f94dcb);
  }

  lemma Turns1(w: seq<bv32>, n: nat)
    requires |w| == 64 == |K| && Row(K, n, K1) && Row(w, n, W1) && Rounds(H0, w, n) ==
      Words(0x7ad5b1b6, 0xf0205590, 0x292e3b42, 0x4366f730, 0x53f94dcb, 0x82ede06f, 0x4f6540fa, 0xe7d0641e)
    ensures Rounds(H0, w, n + 8) ==
      Words(0xb40085b5, 0xb88afddb, 0x45c013a7, 0x2102d2cd, 0x5cb8e863, 0x1ccfac39, 0x2b427296, 0xcdfdfe52)
  {
    var x := Rounds(H0, w, n);
    x := Turn(w, n, x, 0xd807aa98, 0, 0xf52d63a5, 0x7aafc618);
    x := Turn(w, n + 1, x, 0x12835b01, 0, 0xefe8bf51, 0x53072289);
    x := Turn(w, n + 2, x, 0x243185be, 0, 0x158bb921, 0xe23643ce);
    x := Turn(w, n + 3, x, 0x550c7dc3, 0, 0xf5434c40, 0xd7e07c92);
    x := Turn(w, n + 4, x, 0x72be5d74, 0, 0x2102d2cd, 0xcdfdfe52);
    x := Turn(w, n + 5, x, 0x80deb1fe, 0, 0x45c013a7, 0x2b427296);
    x := Turn(w, n + 6, x, 0x9bdc06a7, 0, 0xb88afddb, 0x1ccfac39);
    x := Turn(w, n + 7, x, 0xc19bf174, 0, 0xb40085b5, 0x5cb8e863);
  }

  lemma Turns2(w: seq<bv32>, n: nat)
    requires |w| == 64 == |K| && Row(K, n, K2) && Row(w, n, W2) && Rounds(H0, w, n) ==
      Words(0xb40085b5, 0xb88afddb, 0x45c013a7, 0x2102d2cd, 0x5cb8e863, 0x1ccfac39, 0x2b427296, 0xcdfdfe52)
    ensures Rounds(H0, w, n + 8) ==
      Words(0x985bed55, 0x404d8054, 0x99a6cb19, 0x75c7f0d8, 0x2c2c028d, 0xb1653710, 0xc287981e, 0x39953ccd)
  {
    var x := Rounds(H0, w, n);
    x := Turn(w, n, x, 0xe49b69c1, 0x80000000, 0x470d554a, 0x70d43aa7);
    x := Turn(w, n + 1, x, 0xefbe4786, 0, 0xdd999a2b, 0x608c93d3);
    x := Turn(w, n + 2, x, 0x0fc19dc6, 0x00205000, 0x3067996a, 0xd398dcea);
    x := Turn(w, n + 3, x, 0x240ca1cc, 0, 0x0a480908, 0x900d27ac);
    x := Turn(w, n + 4, x, 0x2de92c6f, 0x22000800, 0x75c7f0d8, 0x39953ccd);
    x := Turn(w, n + 5, x, 0x4a7484aa, 0, 0x99a6cb19, 0xc287981e);
    x := Turn(w, n + 6, x, 0x5cb0a9dc, 0x05089542, 0x404d8054, 0xb1653710);
    x := Turn(w, n + 7, x, 0x76f988da, 0x80000000, 0x985bed55, 0x2c2c028d);
  }

  lemma Turns3(w: seq<bv32>, n: nat)
    requires |w| == 64 == |K| && Row(K, n, K3) && Row(w, n, W3) && Rounds(H0, w, n) ==
      Words(0x985bed55, 0x404d8054, 0x99a6cb19, 0x75c7f0d8, 0x2c2c028d, 0xb1653710, 0xc287981e, 0x39953ccd)
    ensures Rounds(H0, w, n + 8) ==
      Words(0x11e7025f, 0xa0bb0cdf, 0x72d3a00d, 0x64bc9e1c, 0xbbd7846c, 0x564a6626, 0xb04ab22d, 0x95696b75)
  {
    var x := Rounds(H0, w, n);
    x := Turn(w, n, x, 0x983e5152, 0x58080000, 0x7af6d48d, 0xf55f8c25);
    x := Turn(w, n + 1, x, 0xa831c66d, 0x0040a000, 0xc5b814ae, 0xe57ac3f4);
    x := Turn(w, n + 2, x, 0xb00327c8, 0x00162505, 0x2c8b2ab9, 0x9f934283);
    x := Turn(w, n + 3, x, 0xbf597fc7, 0x66001800, 0x6d8cc697, 0x66ed54fa);
    x := Turn(w, n + 4, x, 0xc6e00bf3, 0xd6222580, 0x64bc9e1c, 0x95696b75);
    x := Turn(w, n + 5, x, 0xd5a79147, 0x14225508, 0x72d3a00d, 0xb04ab22d);
    x := Turn(w, n + 6, x, 0x06ca6351, 0xd645f95c, 0xa0bb0cdf, 0x564a6626);
    x := Turn(w, n + 7, x, 0x14292967, 0xc9282000, 0x11e7025f, 0xbbd7846c);
  }

  lemma Turns4(w: seq<bv32>, n: nat)
    requires |w| == 64 == |K| && Row(K, n, K4) && Row(w, n, W4) && Rounds(H0, w, n) ==
      Words(0x11e7025f, 0xa0bb0cdf, 0x72d3a00d, 0x64bc9e1c, 0xbbd7846c, 0x564a6626, 0xb04ab22d, 0x95696b75)
    ensures Rounds(H0, w, n + 8) ==
      Words(0x499911b1, 0x9e58e42f, 0x56e3dc4e, 0xa096535d, 0x716bb025, 0x85a71424, 0xe807ea7f, 0xfac06aed)
  {
    var x := Rounds(H0, w, n);
    x := Turn(w, n, x, 0x27b70a85, 0xc3f10094, 0xe390f3b6, 0xccd25d8b);
    x := Turn(w, n + 1, x, 0x2e1b2138, 0x284ca766, 0xa141b695, 0x0bc457df);
    x := Turn(w, n + 2, x, 0x4d2c6dfc, 0x06886dc6, 0x44a181a7, 0x6973aac2);
    x := Turn(w, n + 3, x, 0x53380d13, 0xa37bf116, 0x641fe878, 0x3a705ea9);
    x := Turn(w, n + 4, x, 0x650a7354, 0x717cbe96, 0xa096535d, 0xfac06aed);
    x := Turn(w, n + 5, x, 0x766a0abb, 0xfec2d74a, 0x56e3dc4e, 0xe807ea7f);
    x := Turn(w, n + 6, x, 0x81c2c92e, 0xa7b67f00, 0x9e58e42f, 0x85a71424);
    x := Turn(w, n + 7, x, 0x92722c85, 0x811596a2, 0x499911b1, 0x716bb025);
  }

  lemma Turns5(w: seq<bv32>, n: nat)
    requires |w| == 64 == |K| && Row(K, n, K5) && Row(w, n, W5) && Rounds(H0, w, n) ==
      Words(0x499911b1, 0x9e58e42f, 0x56e3dc4e, 0xa096535d, 0x716bb025, 0x85a71424, 0xe807ea7f, 0xfac06aed)
    ensures Rounds(H0, w, n + 8) ==
      Words(0x365a34cd, 0x54982d6c, 0x32fa442b, 0xa40972d4, 0xcbb3f8eb, 0x8a6a82b2, 0xd285c679, 0xaa2c1810)
  {
    var x := Rounds(H0, w, n);
    x := Turn(w, n, x, 0xa2bfe8a1, 0x98a6e768, 0xfe86c833, 0x849879df);
    x := Turn(w, n + 1, x, 0xa81a664b, 0x03b20c82, 0x2298f88e, 0xf5c58ae9);
    x := Turn(w, n + 2, x, 0xc24b8b70, 0x5d1da7c9, 0xdbb545ab, 0xe0403eb9);
    x := Turn(w, n + 3, x, 0xc76c51a3, 0xb156b935, 0xe8e34752, 0x29426caa);
    x := Turn(w, n + 4, x, 0xd192e819, 0xc3ddca11, 0xa40972d4, 0xaa2c1810);
    x := Turn(w, n + 5, x, 0xd6990624, 0x249c107f, 0x32fa442b, 0xd285c679);
    x := Turn(w, n + 6, x, 0xf40e3585, 0xc48d24ef, 0x54982d6c, 0x8a6a82b2);
    x := Turn(w, n + 7, x, 0x106aa070, 0x5de54c30, 0x365a34cd, 0xcbb3f8eb);
  }

  lemma Turns6(w: seq<bv32>, n: nat)
    requires |w| == 64 == |K| && Row(K, n, K6) && Row(w, n, W6) && Rounds(H0, w, n) ==
      Words(0x365a34cd, 0x54982d6c, 0x32fa442b, 0xa40972d4, 0xcbb3f8eb, 0x8a6a82b2, 0xd285c679, 0xaa2c1810)
    ensures Rounds(H0, w, n + 8) ==
      Words(0x01638014, 0x2caf58ca, 0x3a0e9477, 0xb1b29c90, 0xadf94e0a, 0xe588e598, 0xfd99936e, 0x43a5def8)
  {
    var x := Rounds(H0, w, n);
    x := Turn(w, n, x, 0x19a4c116, 0xdefece65, 0x62a82a5e, 0x4cab6d8a);
    x := Turn(w, n + 1, x, 0x1e376c08, 0x2ca1480d, 0x9798f5ed, 0xe90aa770);
    x := Turn(w, n + 2, x, 0x2748774c, 0x3c15332c, 0xc163cb21, 0x36068bde);
    x := Turn(w, n + 3, x, 0x34b0bcb5, 0x01cec9ad, 0xd55e06c2, 0xa194d14f);
    x := Turn(w, n + 4, x, 0x391c0cb3, 0x160cccd0, 0xb1b29c90, 0x43a5def8);
    x := Turn(w, n + 5, x, 0x4ed8aa4a, 0x0bacda98, 0x3a0e9477, 0xfd99936e);
    x := Turn(w, n + 6, x, 0x5b9cca4f, 0x361b8fe0, 0x2caf58ca, 0xe588e598);
    x := Turn(w, n + 7, x, 0x682e6ff3, 0xd2320ba6, 0x01638014, 0xadf94e0a);
  }

  lemma Turns7(w: seq<bv32>, n: nat)
    requires |w| == 64 == |K| && Row(K, n, K7) && Row(w, n, W7) && Rounds(H0, w, n) ==
      Words(0x01638014, 0x2caf58ca, 0x3a0e9477, 0xb1b29c90, 0xadf94e0a, 0xe588e598, 0xfd99936e, 0x43a5def8)
    ensures Rounds(H0, w, n + 8) ==
      Words(0x79a6dddb, 0xdd946d8f, 0x5e8d0156, 0xf41fc3ea, 0xd69fef65, 0xc9962ac0, 0x8511bf70, 0x1c71eb3c)
  {
    var x := Rounds(H0, w, n);
    x := Turn(w, n, x, 0x748f82ee, 0x029b7007, 0x7ec75212, 0x7951a330);
    x := Turn(w, n + 1, x, 0x78a5636f, 0x7546587c, 0xe7ec45bc, 0xe2a91edc);
    x := Turn(w, n + 2, x, 0x84c87814, 0x07f54f39, 0xe923abc6, 0x08e0e6ea);
    x := Turn(w, n + 3, x, 0x8cc70208, 0xf808ddc3, 0x04441c0e, 0xaaefa044);
    x := Turn(w, n + 4, x, 0x90befffa, 0xdcca7608, 0xf41fc3ea, 0x1c71eb3c);
    x := Turn(w, n + 5, x, 0xa4506ceb, 0x5e427188, 0x5e8d0156, 0x8511bf70);
    x := Turn(w, n + 6, x, 0xbef9a3f7, 0x44bcec5d, 0xdd946d8f, 0xc9962ac0);
    x := Turn(w, n + 7, x, 0xc67178f2, 0x3b5ec49b, 0x79a6dddb, 0xd69fef65);
  }

  // ---------- the digest ----------

  // All rows of the schedule.
  ghost predicate AllRows(s: seq<bv32>, t: nat) {
    && Row(s, t, W0) && Row(s, t + 8, W1) && Row(s, t + 16, W2) && Row(s, t + 24, W3)
    && Row(s, t + 32, W4) && Row(s, t + 40, W5) && Row(s, t + 48, W6) && Row(s, t + 56, W7)
  }

  lemma AllWords(block: seq<byte>, s: seq<bv32>, t: nat)
    requires IsSchedule(block, s) && t == 0 && Row(s, t, W0) && Row(s, t + 8, W1)
    ensures AllRows(s, t)
  {
    Words2(block, s, t);
    Words3(block, s, t + 8);
    Words4(block, s, t + 16);
    Words5(block, s, t + 24);
    Words6(block, s, t + 32);
    Words7(block, s, t + 40);
  }

  ghost predicate ConstantsFrom(n: nat) {
    && Row(K, n, K0) && Row(K, n + 8, K1) && Row(K, n + 16, K2) && Row(K, n + 24, K3)
    && Row(K, n + 32, K4) && Row(K, n + 40, K5) && Row(K, n + 48, K6) && Row(K, n + 56, K7)
  }

  lemma AllConstants(n: nat)
    requires n == 0
    ensures ConstantsFrom(n)
  {
    ConstantRows();
  }

  lemma AllTurns(s: seq<bv32>, n: nat)
    requires |s| == |K| == 64 && AllRows(s, n) && ConstantsFrom(n) && Rounds(H0, s, n) == H0
    ensures Rounds(H0, s, n + 64) ==
      Words(0x79a6dddb, 0xdd946d8f, 0x5e8d0156, 0xf41fc3ea, 0xd69fef65, 0xc9962ac0, 0x8511bf70, 0x1c71eb3c)
  {
    Turns0(s, n);
    Turns1(s, n + 8);
    Turns2(s, n + 16);
    Turns3(s, n + 24);
    Turns4(s, n + 32);
    Turns5(s, n + 40);
    Turns6(s, n + 48);
    Turns7(s, n + 56);
  }

  lemma Sums(x: Words)
    requires x ==
      Words(0x79a6dddb, 0xdd946d8f, 0x5e8d0156, 0xf41fc3ea, 0xd69fef65, 0xc9962ac0, 0x8511bf70, 0x1c71eb3c)
    ensures AddWords(H0, x) ==
      Words(0xe3b0c442, 0x98fc1c14, 0x9afbf4c8, 0x996fb924, 0x27ae41e4, 0x649b934c, 0xa495991b, 0x7852b855)
  {
  }

  lemma Compressed(block: seq<byte>)
    requires block == Padded([])
    ensures |block| == 64 && Compress(H0, block) ==
      Words(0xe3b0c442, 0x98fc1c14, 0x9afbf4c8, 0x996fb924, 0x27ae41e4, 0x649b934c, 0xa495991b, 0x7852b855)
  {
    EmptyPadded(block);
    AllConstants(0);
    var s := Schedule(block, |K|);
    FirstWords(block, s);
    AllWords(block, s, 0);
    AllTurns(s, 0);
    Sums(Rounds(H0, s, |K|));
  }

  lemma OneBlock(x: Words, block: seq<byte>)
    requires |block| == 64
    ensures Hash(COMPRESS, x, block) == Compress(x, block)
  {
    assert block[..64] == block && block[64..] == [];
  }

  lemma FirstBytes()
    ensures WordBytes(0xe3b0c442) == [0xe3, 0xb0, 0xc4, 0x42]
    ensures WordBytes(0x98fc1c14) == [0x98, 0xfc, 0x1c, 0x14]
    ensures WordBytes(0x9afbf4c8) == [0x9a, 0xfb, 0xf4, 0xc8]
    ensures WordBytes(0x996fb924) == [0x99, 0x6f, 0xb9, 0x24]
  {
  }

  lemma LastBytes()
    ensures WordBytes(0x27ae41e4) == [0x27, 0xae, 0x41, 0xe4]
    ensures WordBytes(0x649b934c) == [0x64, 0x9b, 0x93, 0x4c]
    ensures WordBytes(0xa495991b) == [0xa4, 0x95, 0x99, 0x1b]
    ensures WordBytes(0x7852b855) == [0x78, 0x52, 0xb8, 0x55]
  {
  }

  lemma Encoded(x: Words)
    requires x ==
      Words(0xe3b0c442, 0x98fc1c14, 0x9afbf4c8, 0x996fb924, 0x27ae41e4, 0x649b934c, 0xa495991b, 0x7852b855)
    ensures WordsBytes(x) ==
      [0xe3, 0xb0, 0xc4, 0x42] + [0x98, 0xfc, 0x1c, 0x14] + [0x9a, 0xfb, 0xf4, 0xc8] + [0x99, 0x6f, 0xb9, 0x24]
      + [0x27, 0xae, 0x41, 0xe4] + [0x64, 0x9b, 0x93, 0x4c] + [0xa4, 0x95, 0x99, 0x1b] + [0x78, 0x52, 0xb8, 0x55]
  {
    FirstBytes();
    LastBytes();
  }

  // SHA-256 of the empty message.
  lemma EmptyDigest()
    ensures Digest([]) ==
      [0xe3, 0xb0, 0xc4, 0x42] + [0x98, 0xfc, 0x1c, 0x14] + [0x9a, 0xfb, 0xf4, 0xc8] + [0x99, 0x6f, 0xb9, 0x24]
      + [0x27, 0xae, 0x41, 0xe4] + [0x64, 0x9b, 0x93, 0x4c] + [0xa4, 0x95, 0x99, 0x1b] + [0x78, 0x52, 0xb8, 0x55]
  {
    var block := Padded([]);
    Compressed(block);
    OneBlock(H0, block);
    Encoded(Compress(H0, block));
  }
}
