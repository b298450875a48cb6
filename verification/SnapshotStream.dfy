/**
 The byte streams of a snapshot: little-endian numbers, the writer that stores and the writer
 that only counts, and readers of a whole stream or of a section of it.
 */
module SnapshotStream {
  import opened Bytes
  import opened Medium

  const U32_LIMIT := 0x1_0000_0000
  const U64_LIMIT := 0x1_0000_0000_0000_0000

  type u16 = x: nat | x < 0x1_0000
  type u32 = x: nat | x < U32_LIMIT
  type u64 = x: nat | x < U64_LIMIT

  // ---------- little-endian numbers ----------

  // The n low bytes of a value, least significant first.
  function Little(value: nat, n: nat): (r: seq<byte>)
    ensures |r| == n
  {
    seq(n, i requires 0 <= i < n => ByteOf(value, i))
  }

  lemma LittleStep(value: nat, n: nat)
    requires n > 0
    ensures Little(value, n) == [(value % 256) as byte] + Little(value / 256, n - 1)
  {
  }

  function Number(bytes: seq<byte>): (r: nat)
    ensures r < Power256(|bytes|)
  {
    if bytes == [] then 0 else bytes[0] as nat + 256 * Number(bytes[1..])
  }

  lemma {:induction false} NumberOfLittle(value: nat, n: nat)
    requires value < Power256(n)
    ensures Number(Little(value, n)) == value
  {
    if n > 0 {
      NumberOfLittle(value / 256, n - 1);
      LittleStep(value, n);
      assert Little(value, n)[1..] == Little(value / 256, n - 1);
    }
  }

  lemma {:induction false} LittleOfNumber(bytes: seq<byte>)
    ensures Little(Number(bytes), |bytes|) == bytes
  {
    if bytes != [] {
      LittleOfNumber(bytes[1..]);
      LittleStep(Number(bytes), |bytes|);
      assert Number(bytes) / 256 == Number(bytes[1..]);
    }
  }

  lemma Regroup(x: nat, p: nat)
    ensures x * (256 * p) == 256 * (x * p)
  {
  }

  // Adding a byte shifted into place extends the number.
  lemma {:induction false} NumberAppends(bytes: seq<byte>, b: byte)
    ensures Number(bytes + [b]) == Number(bytes) + b as nat * Power256(|bytes|)
  {
    if bytes == [] {
      assert [b][1..] == [];
    } else {
      NumberAppends(bytes[1..], b);
      assert (bytes + [b])[1..] == bytes[1..] + [b];
      Regroup(b as nat, Power256(|bytes| - 1));
    }
  }

  lemma Powers()
    ensures Power256(1) == 0x100 && Power256(2) == 0x1_0000 && Power256(3) == 0x100_0000
    ensures Power256(4) == U32_LIMIT && Power256(8) == U64_LIMIT
  {
    assert Power256(5) == 256 * Power256(4);
    assert Power256(7) == 256 * Power256(6);
  }

  // ---------- prefixes ----------

  // Two encodings of the same length at the same place are the same.
  lemma Peel(a: seq<byte>, x: seq<byte>, b: seq<byte>, y: seq<byte>)
    requires |a| == |b| && a + x == b + y
    ensures a == b && x == y
  {
    assert (a + x)[..|a|] == a && (b + y)[..|a|] == b;
    assert (a + x)[|a|..] == x && (b + y)[|a|..] == y;
  }

  lemma Associate(a: seq<byte>, b: seq<byte>, c: seq<byte>)
    ensures (a + b) + c == a + (b + c)
  {
  }

  lemma PeelU32(v: u32, x: seq<byte>, w: u32, y: seq<byte>)
    requires Little(v, 4) + x == Little(w, 4) + y
    ensures v == w && x == y
  {
    Peel(Little(v, 4), x, Little(w, 4), y);
    Powers();
    NumberOfLittle(v, 4);
    NumberOfLittle(w, 4);
  }

  lemma PeelU64(v: u64, x: seq<byte>, w: u64, y: seq<byte>)
    requires Little(v, 8) + x == Little(w, 8) + y
    ensures v == w && x == y
  {
    Peel(Little(v, 8), x, Little(w, 8), y);
    Powers();
    NumberOfLittle(v, 8);
    NumberOfLittle(w, 8);
  }

  // The encodings of some items, one after the other.
  function ListBytes<T>(encode: T -> seq<byte>, items: seq<T>): seq<byte> {
    if items == [] then [] else ListBytes(encode, items[..|items| - 1]) + encode(items[|items| - 1])
  }

  // Every item is good at its place.
  predicate Each<T>(good: (nat, T) -> bool, items: seq<T>) {
    items == [] || (Each(good, items[..|items| - 1]) && good(|items| - 1, items[|items| - 1]))
  }

  // If a stream starts with at most one item, it starts with at most one list of a given length.
  lemma {:induction false} ListUnique<T(!new)>(encode: T -> seq<byte>, good: (nat, T) -> bool, a: seq<T>, x: seq<byte>,
      b: seq<T>, y: seq<byte>)
    requires forall n: nat, s, x, t, y :: good(n, s) && good(n, t) && encode(s) + x == encode(t) + y ==>
      s == t && x == y
    requires |a| == |b| && Each(good, a) && Each(good, b) && ListBytes(encode, a) + x == ListBytes(encode, b) + y
    ensures a == b && x == y
    decreases |a|
  {
    if a == [] {
      assert [] + x == x && [] + y == y;
    } else {
      var n := |a| - 1;
      var s, t := encode(a[n]), encode(b[n]);
      Associate(ListBytes(encode, a[..n]), s, x);
      Associate(ListBytes(encode, b[..n]), t, y);
      ListUnique(encode, good, a[..n], s + x, b[..n], t + y);
      assert a == a[..n] + [a[n]] && b == b[..n] + [b[n]];
    }
  }

  // A stream that starts with a list starts with each prefix of the list.
  lemma {:induction false} ListSplit<T>(encode: T -> seq<byte>, items: seq<T>, x: seq<byte>, k: nat)
      returns (y: seq<byte>)
    requires k <= |items|
    ensures ListBytes(encode, items) + x == ListBytes(encode, items[..k]) + y
    decreases |items|
  {
    if k == |items| {
      assert items[..k] == items;
      y := x;
    } else {
      var n := |items| - 1;
      Associate(ListBytes(encode, items[..n]), encode(items[n]), x);
      y := ListSplit(encode, items[..n], encode(items[n]) + x, k);
      assert items[..n][..k] == items[..k];
    }
  }

  // So no prefix of a list takes more bytes than the list.
  lemma ListGrows<T>(encode: T -> seq<byte>, items: seq<T>, k: nat)
    requires k <= |items|
    ensures |ListBytes(encode, items[..k])| <= |ListBytes(encode, items)|
  {
    var y := ListSplit(encode, items, [], k);
  }

  function U32Bytes(value: u32): seq<byte> { Little(value, 4) }

  function U32Array(values: seq<u32>): seq<byte> { ListBytes(U32Bytes, values) }

  lemma {:induction false} U32ArrayLength(values: seq<u32>)
    ensures |U32Array(values)| == 4 * |values|
  {
    if values != [] { U32ArrayLength(values[..|values| - 1]); }
  }

  // What is read back from an array of words is what was written.
  lemma U32ArrayUnique(v: seq<u32>, x: seq<byte>, w: seq<u32>, y: seq<byte>)
    requires |v| == |w| && U32Array(v) + x == U32Array(w) + y
    ensures v == w && x == y
  {
    forall s, x, t, y | U32Bytes(s) + x == U32Bytes(t) + y ensures s == t && x == y {
      PeelU32(s, x, t, y);
    }
    AnyWords(v);
    AnyWords(w);
    ListUnique(U32Bytes, Any, v, x, w, y);
  }

  predicate Any(n: nat, value: u32) { true }

  lemma {:induction false} AnyWords(values: seq<u32>)
    ensures Each(Any, values)
  {
    if values != [] { AnyWords(values[..|values| - 1]); }
  }

  // ---------- writing ----------

  datatype Kind = Storing | Counting

  // A write callback and its context: the counter of the image writer, or the host's sink.
  class Writer {
    const kind: Kind
    const reliable: bool  // the host stores whatever it is offered
    var count: nat
    var data: seq<byte>
    ghost var Written: seq<byte>

    ghost predicate Valid()
      reads this
    {
      if kind == Counting then count == |Written| < U64_LIMIT else data == Written
    }

    constructor (kind: Kind, reliable: bool)
      ensures Valid() && this.kind == kind && this.reliable == reliable && Written == []
    {
      this.kind, this.reliable, count, data, Written := kind, reliable, 0, [], [];
    }

    // What becomes of some bytes offered behind others: a count fails exactly beyond 64 bits,
    // a store only if the host fails.
    predicate Answers(before: nat, added: nat, status: Status) {
      if kind == Counting then status == (if before + added < U64_LIMIT then Ok else InvalidArgument)
      else status == Ok || (status == IoError && !reliable)
    }

    method Write(bytes: seq<byte>) returns (status: Status)
      requires Valid()
      modifies this
      ensures Valid() && (status == Ok ==> Written == old(Written) + bytes)
      ensures Answers(|old(Written)|, |bytes|, status)
    {
      if kind == Counting {
        if |bytes| > U64_LIMIT - 1 - count { return InvalidArgument; }
        count := count + |bytes|;
        Written := Written + bytes;
        return Ok;
      }
      var failed: bool := *;
      if failed && !reliable { return IoError; }
      data := data + bytes;
      Written := data;
      return Ok;
    }

    method WriteU16(value: u16) returns (status: Status)
      requires Valid()
      modifies this
      ensures Valid() && (status == Ok ==> Written == old(Written) + Little(value, 2))
      ensures Answers(|old(Written)|, 2, status)
    {
      var bytes: seq<byte> := [(value % 256) as byte, (value / 0x100 % 256) as byte];
      assert ShiftBytes(value, 1) == value / 256;
      assert bytes == Little(value, 2);
      status := Write(bytes);
    }

    method WriteU32(value: u32) returns (status: Status)
      requires Valid()
      modifies this
      ensures Valid() && (status == Ok ==> Written == old(Written) + Little(value, 4))
      ensures Answers(|old(Written)|, 4, status)
    {
      var bytes := Bytes32(value);
      status := Write(bytes);
    }

    method WriteU64(value: u64) returns (status: Status)
      requires Valid()
      modifies this
      ensures Valid() && (status == Ok ==> Written == old(Written) + Little(value, 8))
      ensures Answers(|old(Written)|, 8, status)
    {
      var bytes := Bytes64(value);
      status := Write(bytes);
    }

    method WriteU32Array(values: seq<u32>) returns (status: Status)
      requires Valid()
      modifies this
      ensures Valid() && (status == Ok ==> Written == old(Written) + U32Array(values))
      ensures Answers(|old(Written)|, 4 * |values|, status)
    {
      var i := 0;
      while i < |values|
        invariant i <= |values| && Valid() && Written == old(Written) + U32Array(values[..i])
      {
        U32ArrayLength(values[..i]);
        status := WriteU32(values[i]);
        if status != Ok { return; }
        assert values[..i + 1][..i] == values[..i];
        i := i + 1;
      }
      assert values[..i] == values;
      U32ArrayLength(values);
      status := Ok;
    }
  }

  lemma ThreeShifts(value: nat)
    ensures ShiftBytes(value, 1) == value / 0x100 && ShiftBytes(value, 2) == value / 0x1_0000
      && ShiftBytes(value, 3) == value / 0x100_0000
  {
    var once := value / 256;
    var twice := once / 256;
    assert ShiftBytes(once, 1) == twice && ShiftBytes(once, 2) == ShiftBytes(twice, 1) == twice / 256;
  }

  method Bytes32(value: u32) returns (bytes: seq<byte>)
    ensures bytes == Little(value, 4)
  {
    bytes := [(value % 256) as byte, (value / 0x100 % 256) as byte, (value / 0x1_0000 % 256) as byte,
      (value / 0x100_0000 % 256) as byte];
    ThreeShifts(value);
  }

  method Bytes64(value: u64) returns (bytes: seq<byte>)
    ensures bytes == Little(value, 8)
  {
    bytes := [];
    while |bytes| < 8
      invariant |bytes| <= 8 && forall j :: 0 <= j < |bytes| ==> bytes[j] == ByteOf(value, j)
    {
      bytes := bytes + [ByteOf(value, |bytes|)];
    }
  }

  // ---------- reading ----------

  // A stream of bytes with a position; the host may fail.
  class Source {
    const data: seq<byte>
    const reliable: bool  // the host never fails
    var at: nat

    constructor (data: seq<byte>, reliable: bool)
      ensures this.data == data && this.reliable == reliable && at == 0
    {
      this.data, this.reliable, at := data, reliable, 0;
    }

    method Read(n: nat) returns (status: Status, bytes: seq<byte>)
      requires at <= |data|
      modifies this
      ensures at <= |data| && (status == Ok || status == IoError)
      ensures reliable && old(at) + n <= |data| ==> status == Ok
      ensures status == Ok ==> old(at) + n <= |data| && at == old(at) + n && bytes == data[old(at)..at]
    {
      var failed: bool := *;
      if (failed && !reliable) || n > |data| - at { return IoError, []; }
      bytes := data[at..at + n];
      at := at + n;
      status := Ok;
    }
  }

  datatype Limit = Unlimited | Remaining(count: nat)

  // A read callback and its context: the source itself, or a section of it.
  class Reader {
    const source: Source
    var limit: Limit

    ghost predicate Valid()
      reads this, source
    {
      source.at <= |source.data|
    }

    // Where a section ends; -1 if there is no limit.
    ghost function End(): int
      reads this, source
    {
      match limit
      case Unlimited => -1
      case Remaining(count) => source.at + count
    }

    // The bytes that can still be read.
    ghost function Rest(): seq<byte>
      requires Valid()
      reads this, source
    {
      source.data[source.at..if 0 <= End() <= |source.data| then End() else |source.data|]
    }

    constructor (source: Source, limit: Limit)
      ensures this.source == source && this.limit == limit
    {
      this.source, this.limit := source, limit;
    }

    // A failure that is not the host's: what was asked for is not there.
    predicate Refuted(status: Status) { status == InvalidArgument || (status != Ok && source.reliable) }

    // softpc_snapshot_section_read, or the source's own read.
    method Read(n: nat) returns (status: Status, bytes: seq<byte>)
      requires Valid()
      modifies this, source
      ensures Valid() && (status == Ok || status == InvalidArgument || status == IoError)
      ensures status == Ok ==> End() == old(End()) && |bytes| == n && old(Rest()) == bytes + Rest()
      ensures status == InvalidArgument <==> old(limit).Remaining? && n > old(limit).count
      ensures Refuted(status) ==> |old(Rest())| < n
    {
      if limit.Remaining? && n > limit.count { return InvalidArgument, []; }
      status, bytes := source.Read(n);
      if status == Ok && limit.Remaining? { limit := Remaining(limit.count - n); }
    }

    method ReadU16() returns (status: Status, value: u16)
      requires Valid()
      modifies this, source
      ensures Valid() && (status == Ok || status == InvalidArgument || status == IoError)
      ensures status == Ok ==> End() == old(End()) && old(Rest()) == Little(value, 2) + Rest()
      ensures Refuted(status) ==> |old(Rest())| < 2
    {
      value := 0;
      var bytes;
      status, bytes := Read(2);
      if status == Ok { value := Value16(bytes); }
    }

    method ReadU32() returns (status: Status, value: u32)
      requires Valid()
      modifies this, source
      ensures Valid() && (status == Ok || status == InvalidArgument || status == IoError)
      ensures status == Ok ==> End() == old(End()) && old(Rest()) == Little(value, 4) + Rest()
      ensures status == InvalidArgument <==> old(limit).Remaining? && 4 > old(limit).count
      ensures Refuted(status) ==> |old(Rest())| < 4
    {
      value := 0;
      var bytes;
      status, bytes := Read(4);
      if status == Ok { value := Value32(bytes); }
    }

    method ReadU64() returns (status: Status, value: u64)
      requires Valid()
      modifies this, source
      ensures Valid() && (status == Ok || status == InvalidArgument || status == IoError)
      ensures status == Ok ==> End() == old(End()) && old(Rest()) == Little(value, 8) + Rest()
      ensures status == InvalidArgument <==> old(limit).Remaining? && 8 > old(limit).count
      ensures Refuted(status) ==> |old(Rest())| < 8
    {
      value := 0;
      var bytes;
      status, bytes := Read(8);
      if status == Ok { value := Value64(bytes); }
    }

    method ReadU32Array(count: nat) returns (status: Status, values: seq<u32>)
      requires Valid()
      modifies this, source
      ensures Valid()
      ensures status == Ok ==> |values| == count && old(Rest()) == U32Array(values) + Rest()
      ensures Refuted(status) ==> |old(Rest())| < 4 * count
    {
      values := [];
      while |values| < count
        invariant |values| <= count && Valid() && old(Rest()) == U32Array(values) + Rest()
      {
        var value;
        U32ArrayLength(values);
        status, value := ReadU32();
        if status != Ok { return; }
        Associate(U32Array(values), Little(value, 4), Rest());
        values := values + [value];
      }
      status := Ok;
    }
  }

  method Value16(bytes: seq<byte>) returns (value: u16)
    requires |bytes| == 2
    ensures Little(value, |bytes|) == bytes
  {
    value := bytes[0] as nat + bytes[1] as nat * 0x100;
    assert ShiftBytes(value, 1) == value / 256;
  }

  method Value32(bytes: seq<byte>) returns (value: u32)
    requires |bytes| == 4
    ensures Little(value, |bytes|) == bytes
  {
    LittleOfNumber(bytes);
    Powers();
    var b := bytes[1..];
    assert bytes[2..] == b[1..] && bytes[3..] == b[1..][1..] && [] == b[1..][1..][1..];
    assert Number(b[1..][1..]) == bytes[3] as nat;
    assert Number(b[1..]) == bytes[2] as nat + 256 * Number(b[1..][1..]);
    assert Number(b) == bytes[1] as nat + 256 * Number(b[1..]);
    value := bytes[0] as nat + bytes[1] as nat * 0x100 + bytes[2] as nat * 0x1_0000 + bytes[3] as nat * 0x100_0000;
  }

  method Value64(bytes: seq<byte>) returns (value: u64)
    requires |bytes| == 8
    ensures Little(value, |bytes|) == bytes
  {
    var sum: nat, i := 0, 0;
    while i < 8
      invariant 0 <= i <= 8 && sum == Number(bytes[..i])
    {
      sum := sum + bytes[i] as nat * Power256(i);
      NumberAppends(bytes[..i], bytes[i]);
      assert bytes[..i + 1] == bytes[..i] + [bytes[i]];
      i := i + 1;
    }
    assert bytes[..8] == bytes;
    LittleOfNumber(bytes);
    Powers();
    value := sum;
  }
}
