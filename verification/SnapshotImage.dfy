/**
 The snapshot image: a core, a device and a media section, each behind its length, which a
 counting pass finds out beforehand and a section reader must use up. The core and device
 archives are any formats that can be read back.
 */
module SnapshotImage {
  import opened Bytes
  import opened SnapshotStream
  import opened MediaArchive
  import opened MediaArchiveStream
  import M = Medium

  const FORMAT: u32 := 0x32504353

  datatype Parse<T> = Parsed(value: T, used: nat) | Refused

  // A format of some archive: how it is written, and what of some bytes a reader takes.
  datatype Codec<!T> = Codec(encode: T -> seq<byte>, parse: seq<byte> -> Parse<T>)

  // Reading undoes writing, and what is read was written; nothing is written as no bytes.
  ghost predicate Lawful<T(!new)>(c: Codec<T>) {
    && (forall v, x :: c.parse(c.encode(v) + x) == Parsed(v, |c.encode(v)|))
    && (forall d :: c.parse(d).Parsed? ==> c.parse(d).used <= |d| && d[..c.parse(d).used] == c.encode(c.parse(d).value))
    && (forall v :: c.encode(v) != [])
  }

  lemma CodecUnique<T(!new)>(c: Codec<T>, v: T, x: seq<byte>, w: T, y: seq<byte>)
    requires Lawful(c) && c.encode(v) + x == c.encode(w) + y
    ensures v == w && x == y
  {
    assert c.parse(c.encode(v) + x) == c.parse(c.encode(w) + y);
    Peel(c.encode(v), x, c.encode(w), y);
  }

  // A section: its length, then its bytes.
  function Section(bytes: seq<byte>): seq<byte> { Little(|bytes|, 8) + bytes }

  datatype Image<C, D> = Image(memory: nat, core: C, devices: D, media: seq<Slot>, halted: nat, trap: nat)

  predicate EntryFits(halted: nat, trap: nat) { halted <= 1 && trap <= 1 && (halted == 0 ==> trap == 0) }

  function EntryBytes(halted: nat, trap: nat): seq<byte> { Little(halted, 4) + Little(trap, 4) }

  function Sections(core: seq<byte>, devices: seq<byte>, media: seq<byte>): seq<byte> {
    Section(core) + (Section(devices) + Section(media))
  }

  function Tail<C, D>(cores: nat -> Codec<C>, devices: Codec<D>, image: Image<C, D>): seq<byte> {
    Sections(cores(image.memory).encode(image.core), devices.encode(image.devices), ArchiveBytes(image.media))
      + EntryBytes(image.halted, image.trap)
  }

  function ImageBytes<C, D>(cores: nat -> Codec<C>, devices: Codec<D>, image: Image<C, D>): seq<byte> {
    Little(FORMAT, 4) + (Little(image.memory, 4) + Tail(cores, devices, image))
  }

  // Where everything stands in an image: the letters SCP2, the size of the memory, the core, device
  // and media sections, each behind its length, and the entry.
  lemma ImageLayout<C, D>(cores: nat -> Codec<C>, devices: Codec<D>, image: Image<C, D>)
    ensures var d := ImageBytes(cores, devices, image);
      var a, b, c := cores(image.memory).encode(image.core), devices.encode(image.devices), ArchiveBytes(image.media);
      && |d| == |a| + |b| + |c| + 40 && d[..4] == [0x53, 0x43, 0x50, 0x32] && d[4..8] == Little(image.memory, 4)
      && d[8..16] == Little(|a|, 8) && d[16..|a| + 16] == a
      && d[|a| + 16..|a| + 24] == Little(|b|, 8) && d[|a| + 24..|a| + |b| + 24] == b
      && d[|a| + |b| + 24..|a| + |b| + 32] == Little(|c|, 8) && d[|a| + |b| + 32..|a| + |b| + |c| + 32] == c
      && d[|d| - 8..|d| - 4] == Little(image.halted, 4) && d[|d| - 4..] == Little(image.trap, 4)
  {
    var a, b, c := cores(image.memory).encode(image.core), devices.encode(image.devices), ArchiveBytes(image.media);
    FormatBytes();
    FlatImage(Little(FORMAT, 4), Little(image.memory, 4), a, b, c, Little(image.halted, 4), Little(image.trap, 4));
  }

  lemma FormatBytes()
    ensures Little(FORMAT, 4) == [0x53, 0x43, 0x50, 0x32]
  {
    var bytes: seq<byte> := [0x53, 0x43, 0x50, 0x32];
    assert bytes[1..][1..][1..][1..] == [];
    assert Number(bytes) == FORMAT;
    LittleOfNumber(bytes);
  }

  lemma FlatImage(f: seq<byte>, m: seq<byte>, a: seq<byte>, b: seq<byte>, c: seq<byte>, h: seq<byte>, t: seq<byte>)
    requires |f| == |m| == |h| == |t| == 4
    ensures var d := f + (m + (Sections(a, b, c) + (h + t)));
      && |d| == |a| + |b| + |c| + 40 && d[..4] == f && d[4..8] == m && d[8..16] == Little(|a|, 8)
         && d[16..|a| + 16] == a
      && d[|a| + 16..|a| + 24] == Little(|b|, 8) && d[|a| + 24..|a| + |b| + 24] == b
      && d[|a| + |b| + 24..|a| + |b| + 32] == Little(|c|, 8) && d[|a| + |b| + 32..|a| + |b| + |c| + 32] == c
      && d[|d| - 8..|d| - 4] == h && d[|d| - 4..] == t
  {
  }

  // ---------- writing ----------

  datatype Outcome = Status(status: M.Status) | LimitExceeded

  // An archive written through some writer.
  method WritePart<T>(c: Codec<T>, w: Writer, value: T) returns (status: M.Status)
    requires w.Valid()
    modifies w
    ensures w.Valid() && (status == M.Ok ==> w.Written == old(w.Written) + c.encode(value))
      && w.Answers(|old(w.Written)|, |c.encode(value)|, status)
  {
    status := w.Write(c.encode(value));
  }

  // The counting pass.
  method CountPart<T>(c: Codec<T>, value: T) returns (status: M.Status, count: u64)
    ensures status == if |c.encode(value)| < U64_LIMIT then M.Ok else M.InvalidArgument
    ensures status == M.Ok ==> count == |c.encode(value)|
  {
    var w := new Writer(Counting, true);
    status := WritePart(c, w, value);
    count := if status == M.Ok then w.count else 0;
    assert [] + c.encode(value) == c.encode(value);
  }

  method CountMedia(archive: seq<Slot>) returns (status: M.Status, count: u64)
    requires HoldsAll(archive)
    ensures status == if |ArchiveBytes(CutAll(archive))| < U64_LIMIT then M.Ok else M.InvalidArgument
    ensures status == M.Ok ==> count == |ArchiveBytes(CutAll(archive))|
  {
    var w := new Writer(Counting, true);
    status := WriteArchive(w, archive);
    count := if status == M.Ok then w.count else 0;
  }

  method WriteSections<C, D>(core: Codec<C>, devices: Codec<D>, w: Writer, image: Image<C, D>, counts: (u64, u64, u64))
      returns (status: M.Status)
    requires w.Valid() && HoldsAll(image.media)
    requires counts.0 == |core.encode(image.core)| && counts.1 == |devices.encode(image.devices)|
      && counts.2 == |ArchiveBytes(CutAll(image.media))|
    modifies w
    ensures w.Valid() && w.Answers(|old(w.Written)|,
      |Sections(core.encode(image.core), devices.encode(image.devices), ArchiveBytes(CutAll(image.media)))|, status)
    ensures status == M.Ok ==>
      w.Written == old(w.Written)
      + Sections(core.encode(image.core), devices.encode(image.devices), ArchiveBytes(CutAll(image.media)))
  {
    ghost var start, a, b, c := w.Written, core.encode(image.core), devices.encode(image.devices),
      ArchiveBytes(CutAll(image.media));
    status := w.WriteU64(counts.0);
    if status == M.Ok { status := WritePart(core, w, image.core); }
    if status != M.Ok { return; }
    Associate(start, Little(|a|, 8), a);
    status := w.WriteU64(counts.1);
    if status == M.Ok { status := WritePart(devices, w, image.devices); }
    if status != M.Ok { return; }
    Associate(start + Section(a), Little(|b|, 8), b);
    status := w.WriteU64(counts.2);
    if status == M.Ok { status := WriteArchive(w, image.media); }
    if status != M.Ok { return; }
    Associate(start + Section(a) + Section(b), Little(|c|, 8), c);
    Associate(start + Section(a), Section(b), Section(c));
    Associate(start, Section(a), Section(b) + Section(c));
  }

  // What of an image is written: its paths as C text.
  function CutImage<C, D>(image: Image<C, D>): Image<C, D> { image.(media := CutAll(image.media)) }

  // What can be written: a consistent entry, and lengths that fit their fields.
  predicate Writable<C, D>(cores: nat -> Codec<C>, devices: Codec<D>, image: Image<C, D>) {
    && EntryFits(image.halted, image.trap) && image.memory < U32_LIMIT
       && |cores(image.memory).encode(image.core)| < U64_LIMIT
    && |devices.encode(image.devices)| < U64_LIMIT && |ArchiveBytes(CutAll(image.media))| < U64_LIMIT
  }

  // softpc_snapshot_image_write: it succeeds exactly if the image can be written, unless the host
  // fails.
  method WriteImage<C, D>(cores: nat -> Codec<C>, devices: Codec<D>, w: Writer, image: Image<C, D>) returns (r: Outcome)
    requires w.Valid() && HoldsAll(image.media)
    modifies w
    ensures w.Valid()
    ensures r == Status(M.Ok) ==> w.Written == old(w.Written) + ImageBytes(cores, devices, CutImage(image))
    ensures r == Status(M.Ok) ==> Writable(cores, devices, image)
    ensures Writable(cores, devices, image) ==>
      r.Status? && w.Answers(|old(w.Written)|, |ImageBytes(cores, devices, CutImage(image))|, r.status)
  {
    if !EntryFits(image.halted, image.trap) { return Status(M.InvalidArgument); }
    var status, a, b, c;
    status, a := CountPart(cores(image.memory), image.core);
    if status != M.Ok { return Status(status); }
    status, b := CountPart(devices, image.devices);
    if status != M.Ok { return Status(status); }
    status, c := CountMedia(image.media);
    if status != M.Ok { return Status(status); }
    if image.memory >= U32_LIMIT { return LimitExceeded; }
    status := WriteCounted(cores, devices, w, image, (a, b, c));
    r := Status(status);
  }

  method WriteCounted<C,
      D>(cores: nat -> Codec<C>, devices: Codec<D>, w: Writer, image: Image<C, D>, counts: (u64, u64, u64))
      returns (status: M.Status)
    requires w.Valid() && HoldsAll(image.media) && EntryFits(image.halted, image.trap) && image.memory < U32_LIMIT
    requires counts.0 == |cores(image.memory).encode(image.core)| && counts.1 == |devices.encode(image.devices)|
    requires counts.2 == |ArchiveBytes(CutAll(image.media))|
    modifies w
    ensures w.Valid() && (status == M.Ok ==> w.Written == old(w.Written) + ImageBytes(cores, devices, CutImage(image)))
    ensures w.Answers(|old(w.Written)|, |ImageBytes(cores, devices, CutImage(image))|, status)
  {
    ghost var start := w.Written;
    status := w.WriteU32(FORMAT);
    if status == M.Ok { status := w.WriteU32(image.memory); }
    if status != M.Ok { return; }
    ghost var sections :=
      Sections(cores(image.memory).encode(image.core), devices.encode(image.devices),
      ArchiveBytes(CutAll(image.media)));
    status := WriteSections(cores(image.memory), devices, w, image, counts);
    if status == M.Ok { status := w.WriteU32(image.halted); }
    if status == M.Ok { status := w.WriteU32(image.trap); }
    if status != M.Ok { return; }
    Joined(start, Little(FORMAT, 4), Little(image.memory, 4), sections, Little(image.halted, 4), Little(image.trap, 4));
  }

  lemma Joined(start: seq<byte>, a: seq<byte>, b: seq<byte>, c: seq<byte>, d: seq<byte>, e: seq<byte>)
    ensures start + a + b + c + d + e == start + (a + (b + (c + (d + e))))
  {
  }

  // ---------- reading ----------

  // An archive read through a section reader.
  method ReadPart<T(!new)>(c: Codec<T>, r: Reader, ghost v: T, ghost x: seq<byte>)
      returns (status: M.Status, value: Parse<T>)
    requires r.Valid() && Lawful(c)
    modifies r, r.source
    ensures r.Valid() && (status == M.Ok ==>
      r.End() == old(r.End()) && value.Parsed? && old(r.Rest()) == c.encode(value.value) + r.Rest())
    ensures old(r.Rest()) == c.encode(v) + x ==>
      !r.Refuted(status) && (status == M.Ok ==> value.value == v && r.Rest() == x)
  {
    var stop := if r.limit.Unlimited? || r.source.at + r.limit.count > |r.source.data| then |r.source.data|
      else r.source.at + r.limit.count;
    value := c.parse(r.source.data[r.source.at..stop]);
    if value.Refused? { return M.InvalidArgument, value; }
    var bytes;
    status, bytes := r.Read(value.used);
    if status == M.Ok {
      ghost var d := old(r.Rest());
      if d == c.encode(v) + x { CodecUnique(c, v, x, value.value, r.Rest()); }
    }
  }

  // The media archive, likewise.
  method ReadMedia(r: Reader, ghost a: seq<Slot>, ghost x: seq<byte>) returns (status: M.Status, archive: seq<Slot>)
    requires r.Valid()
    modifies r, r.source
    ensures r.Valid() && (status == M.Ok ==>
      r.End() == old(r.End()) && |archive| == SLOTS && WellFormed(archive)
      && old(r.Rest()) == ArchiveBytes(archive) + r.Rest())
    ensures |a| == SLOTS && WellFormed(a) && old(r.Rest()) == ArchiveBytes(a) + x ==>
      !r.Refuted(status) && (status == M.Ok ==> archive == a && r.Rest() == x)
  {
    ghost var d := r.Rest();
    status, archive := ReadArchive(r);
    if status == M.Ok && |a| == SLOTS && WellFormed(a) && d == ArchiveBytes(a) + x {
      ArchiveUnique(a, x, archive, r.Rest());
    }
  }

  // The length of a section and a reader of as many bytes.
  method OpenSection(r: Reader) returns (status: M.Status, section: Reader)
    requires r.Valid() && r.limit.Unlimited?
    modifies r, r.source
    ensures r.Valid() && section.source == r.source && fresh(section)
    ensures status == M.Ok ==> r.limit.Unlimited?
    ensures status == M.Ok ==> section.limit.Remaining? && 0 < section.limit.count < U64_LIMIT
    ensures status == M.Ok ==> old(r.Rest()) == Little(section.limit.count, 8) + r.Rest()
    ensures status == M.InvalidArgument ==> old(r.Rest()) == Little(0, 8) + r.Rest()
    ensures status == M.IoError && r.source.reliable ==> |old(r.Rest())| < 8
    ensures status == M.Ok || status == M.InvalidArgument || status == M.IoError
  {
    var length;
    status, length := r.ReadU64();
    section := new Reader(r.source, Remaining(length));
    if status == M.Ok && length == 0 { status := M.InvalidArgument; }
  }

  // What is there of a section.
  ghost function Front(d: seq<byte>, length: nat): seq<byte> { d[..if length <= |d| then length else |d|] }

  // At first a section reader sees the section.
  lemma SectionStarts(r: Reader, section: Reader)
    requires r.Valid() && r.limit.Unlimited? && section.source == r.source && section.limit.Remaining?
    ensures section.Valid() && section.Rest() == Front(r.Rest(), section.limit.count)
      && section.End() == r.source.at + section.limit.count
  {
  }

  // When it has ended at zero, the stream is just behind the section.
  lemma SectionEnds(r: Reader, section: Reader, at: nat, length: nat)
    requires r.Valid() && r.limit.Unlimited? && section.source == r.source && section.limit == Remaining(0)
    requires at <= |r.source.data| && section.End() == at + length
    ensures section.Rest() == [] && length <= |r.source.data[at..]| && r.Rest() == r.source.data[at..][length..]
  {
  }

  // What a section reader that ended at zero has taken is exactly the section.
  lemma SectionTaken(d: seq<byte>, length: nat, e: seq<byte>, rest: seq<byte>, after: seq<byte>)
    requires Front(d, length) == e + rest && length <= |d| && |rest| == 0 && after == d[length..]
    ensures d == e + after && |e| == length
  {
  }

  // What a section reader sees of a section is exactly the section.
  lemma SectionSeen(d: seq<byte>, length: nat, e: seq<byte>, x: seq<byte>)
    requires length == |e| && d == e + x
    ensures length <= |d| && d[..length] == e + []
  {
  }

  // The length in front of a section is its length.
  lemma LengthRead(d: seq<byte>, length: u64, e: seq<byte>, x: seq<byte>)
    requires |e| < U64_LIMIT && Little(length, 8) + d == Section(e) + x
    ensures length == |e| && d == e + x
  {
    Associate(Little(|e|, 8), e, x);
    PeelU64(length, d, |e|, e + x);
  }

  // The section behind its length: the reader must end at zero.
  method ReadWithin<T(!new)>(c: Codec<T>, r: Reader, section: Reader, ghost v: T, ghost x: seq<byte>)
      returns (status: M.Status, value: Parse<T>)
    requires r.Valid() && r.limit.Unlimited? && section != r && section.source == r.source && section.limit.Remaining?
      && Lawful(c)
    modifies section, r.source
    ensures r.Valid()
    ensures status == M.Ok ==>
      value.Parsed? && |c.encode(value.value)| == old(section.limit.count)
      && old(r.Rest()) == c.encode(value.value) + r.Rest()
    ensures |c.encode(v)| == old(section.limit.count) && old(r.Rest()) == c.encode(v) + x ==>
      !r.Refuted(status) && (status == M.Ok ==> value.value == v)
  {
    ghost var length, d, at := section.limit.count, r.Rest(), r.source.at;
    SectionStarts(r, section);
    if |c.encode(v)| == length && d == c.encode(v) + x { SectionSeen(d, length, c.encode(v), x); }
    status, value := ReadPart(c, section, v, []);
    if status == M.Ok && section.limit.count != 0 { status := M.InvalidArgument; }
    if status == M.Ok {
      SectionEnds(r, section, at, length);
      SectionTaken(d, length, c.encode(value.value), section.Rest(), r.Rest());
    }
  }

  method ReadMediaWithin(r: Reader, section: Reader, ghost a: seq<Slot>, ghost x: seq<byte>)
      returns (status: M.Status, archive: seq<Slot>)
    requires r.Valid() && r.limit.Unlimited? && section != r && section.source == r.source && section.limit.Remaining?
    modifies section, r.source
    ensures r.Valid() && (status == M.Ok ==> |archive| == SLOTS && WellFormed(archive))
    ensures status == M.Ok ==>
      |ArchiveBytes(archive)| == old(section.limit.count) && old(r.Rest()) == ArchiveBytes(archive) + r.Rest()
    ensures
      (|a| == SLOTS && WellFormed(a) && |ArchiveBytes(a)| == old(section.limit.count)
       && old(r.Rest()) == ArchiveBytes(a) + x) ==>
      !r.Refuted(status) && (status == M.Ok ==> archive == a)
  {
    ghost var length, d, at := section.limit.count, r.Rest(), r.source.at;
    SectionStarts(r, section);
    if |ArchiveBytes(a)| == length && d == ArchiveBytes(a) + x { SectionSeen(d, length, ArchiveBytes(a), x); }
    status, archive := ReadMedia(section, a, []);
    if status == M.Ok && section.limit.count != 0 { status := M.InvalidArgument; }
    if status == M.Ok {
      SectionEnds(r, section, at, length);
      SectionTaken(d, length, ArchiveBytes(archive), section.Rest(), r.Rest());
    }
  }

  method ReadSection<T(!new)>(c: Codec<T>, r: Reader, ghost v: T, ghost x: seq<byte>)
      returns (status: M.Status, value: Parse<T>)
    requires r.Valid() && r.limit.Unlimited? && Lawful(c)
    modifies r, r.source
    ensures r.Valid() && (status == M.Ok ==> r.limit.Unlimited?)
    ensures status == M.Ok ==>
      value.Parsed? && |c.encode(value.value)| < U64_LIMIT && old(r.Rest()) == Section(c.encode(value.value)) + r.Rest()
    ensures |c.encode(v)| < U64_LIMIT && old(r.Rest()) == Section(c.encode(v)) + x ==>
      !r.Refuted(status) && (status == M.Ok ==> value.value == v && r.Rest() == x)
  {
    value := Refused;
    ghost var e, whole := c.encode(v), r.Rest();
    var section;
    status, section := OpenSection(r);
    if status == M.IoError { return; }
    ghost var length, d := if status == M.Ok then section.limit.count else 0, r.Rest();
    if |e| < U64_LIMIT && whole == Section(e) + x { LengthRead(d, length, e, x); }
    if status != M.Ok { return; }
    status, value := ReadWithin(c, r, section, v, x);
    if status == M.Ok { Sectioned(length, c.encode(value.value), r.Rest(), e, x); }
  }

  lemma Sectioned(length: u64, e: seq<byte>, rest: seq<byte>, f: seq<byte>, x: seq<byte>)
    requires |e| == length
    ensures Little(length, 8) + (e + rest) == Section(e) + rest
    ensures Section(e) + rest == Section(f) + x && e == f ==> rest == x
  {
    Associate(Little(length, 8), e, rest);
    if Section(e) + rest == Section(f) + x && e == f { Peel(Section(e), rest, Section(f), x); }
  }

  method ReadMediaSection(r: Reader, ghost a: seq<Slot>, ghost x: seq<byte>)
      returns (status: M.Status, archive: seq<Slot>)
    requires r.Valid() && r.limit.Unlimited?
    modifies r, r.source
    ensures r.Valid() && (status == M.Ok ==> r.limit.Unlimited? && |archive| == SLOTS && WellFormed(archive))
    ensures status == M.Ok ==>
      |ArchiveBytes(archive)| < U64_LIMIT && old(r.Rest()) == Section(ArchiveBytes(archive)) + r.Rest()
    ensures
      (|a| == SLOTS && WellFormed(a) && |ArchiveBytes(a)| < U64_LIMIT
       && old(r.Rest()) == Section(ArchiveBytes(a)) + x) ==>
      !r.Refuted(status) && (status == M.Ok ==> archive == a && r.Rest() == x)
  {
    archive := [];
    ghost var e, whole := ArchiveBytes(a), r.Rest();
    var section;
    status, section := OpenSection(r);
    if status == M.IoError { return; }
    ghost var length, d := if status == M.Ok then section.limit.count else 0, r.Rest();
    if |e| < U64_LIMIT && whole == Section(e) + x { LengthRead(d, length, e, x); }
    if status != M.Ok { return; }
    status, archive := ReadMediaWithin(r, section, a, x);
    if status == M.Ok { Sectioned(length, ArchiveBytes(archive), r.Rest(), e, x); }
  }

  // ---- the image ----

  ghost predicate ImageFits<C, D>(cores: nat -> Codec<C>, devices: Codec<D>, image: Image<C, D>) {
    && |image.media| == SLOTS && WellFormed(image.media) && EntryFits(image.halted, image.trap)
       && image.memory < U32_LIMIT
    && |cores(image.memory).encode(image.core)| < U64_LIMIT && |devices.encode(image.devices)| < U64_LIMIT
       && |ArchiveBytes(image.media)| < U64_LIMIT
  }

  method ReadEntry(r: Reader, ghost halted0: nat, ghost trap0: nat, ghost x: seq<byte>)
      returns (status: M.Status, halted: u32, trap: u32)
    requires r.Valid() && r.limit.Unlimited?
    modifies r, r.source
    ensures r.Valid() && (status == M.Ok ==>
      EntryFits(halted, trap) && old(r.Rest()) == EntryBytes(halted, trap) + r.Rest())
    ensures EntryFits(halted0, trap0) && old(r.Rest()) == EntryBytes(halted0, trap0) + x ==>
      !r.Refuted(status) && (status == M.Ok ==> halted == halted0 && trap == trap0 && r.Rest() == x)
  {
    trap := 0;
    ghost var d := r.Rest();
    status, halted := r.ReadU32();
    if status == M.Ok { status, trap := r.ReadU32(); }
    if status != M.Ok { return; }
    Associate(Little(halted, 4), Little(trap, 4), r.Rest());
    if EntryFits(halted0, trap0) && d == EntryBytes(halted0, trap0) + x {
      Associate(Little(halted0, 4), Little(trap0, 4), x);
      PeelU32(halted, Little(trap, 4) + r.Rest(), halted0, Little(trap0, 4) + x);
      PeelU32(trap, r.Rest(), trap0, x);
    }
    if !EntryFits(halted, trap) { status := M.InvalidArgument; }
  }

  // The format and the memory size.
  method ReadFront(r: Reader, expected: u32, ghost x: seq<byte>) returns (status: M.Status)
    requires r.Valid() && r.limit.Unlimited?
    modifies r, r.source
    ensures r.Valid() && (status == M.Ok ==>
      r.limit.Unlimited? && old(r.Rest()) == Little(FORMAT, 4) + (Little(expected, 4) + r.Rest()))
    ensures old(r.Rest()) == Little(FORMAT, 4) + (Little(expected, 4) + x) ==>
      !r.Refuted(status) && (status == M.Ok ==> r.Rest() == x)
  {
    ghost var right := r.Rest() == Little(FORMAT, 4) + (Little(expected, 4) + x);
    var format, memory;
    status, format := r.ReadU32();
    if status != M.Ok { return; }
    if right { PeelU32(format, r.Rest(), FORMAT, Little(expected, 4) + x); }
    if format != FORMAT { return M.InvalidArgument; }
    status, memory := r.ReadU32();
    if status != M.Ok { return; }
    if right { PeelU32(memory, r.Rest(), expected, x); }
    if memory != expected { return M.InvalidArgument; }
  }

  method ReadSections<C(!new),
      D(!new)>(core: Codec<C>, devices: Codec<D>, r: Reader, ghost image: Image<C, D>, ghost x: seq<byte>)
    returns (status: M.Status, c: Parse<C>, d: Parse<D>, media: seq<Slot>)
    requires r.Valid() && r.limit.Unlimited? && Lawful(core) && Lawful(devices)
    modifies r, r.source
    ensures r.Valid() && (status == M.Ok ==>
      r.limit.Unlimited? && c.Parsed? && d.Parsed? && |media| == SLOTS && WellFormed(media))
    ensures status == M.Ok ==>
      |core.encode(c.value)| < U64_LIMIT && |devices.encode(d.value)| < U64_LIMIT && |ArchiveBytes(media)| < U64_LIMIT
    ensures status == M.Ok ==>
      old(r.Rest()) == Sections(core.encode(c.value), devices.encode(d.value), ArchiveBytes(media)) + r.Rest()
    ensures
      (|image.media| == SLOTS && WellFormed(image.media) && |core.encode(image.core)| < U64_LIMIT
        && |devices.encode(image.devices)| < U64_LIMIT && |ArchiveBytes(image.media)| < U64_LIMIT
       && old(r.Rest()) == Sections(core.encode(image.core), devices.encode(image.devices), ArchiveBytes(image.media))
          + x) ==>
        !r.Refuted(status) && (status == M.Ok ==>
          c.value == image.core && d.value == image.devices && media == image.media && r.Rest() == x)
  {
    c, d, media := Refused, Refused, [];
    ghost var s2 := Section(ArchiveBytes(image.media)) + x;
    ghost var s1 := Section(devices.encode(image.devices)) + s2;
    Nested(Section(core.encode(image.core)), Section(devices.encode(image.devices)), Section(ArchiveBytes(image.media)),
      x);
    status, c := ReadSection(core, r, image.core, s1);
    if status != M.Ok { return; }
    status, d := ReadSection(devices, r, image.devices, s2);
    if status != M.Ok { return; }
    status, media := ReadMediaSection(r, image.media, x);
    if status != M.Ok { return; }
    Nested(Section(core.encode(c.value)), Section(devices.encode(d.value)), Section(ArchiveBytes(media)), r.Rest());
  }

  lemma Nested(a: seq<byte>, b: seq<byte>, c: seq<byte>, d: seq<byte>)
    ensures (a + (b + c)) + d == a + (b + (c + d))
  {
  }

  // softpc_snapshot_image_read. What it accepts is the encoding of the image it returns, with
  // every section used up; and where an image was written, it returns that image and stops
  // behind it unless the host fails.
  method ReadImage<C(!new),
      D(!new)>(cores: nat -> Codec<C>, devices: Codec<D>, r: Reader, expected: u32, ghost image: Image<C, D>,
      ghost x: seq<byte>)
    returns (status: M.Status, decoded: Parse<Image<C, D>>)
    requires r.Valid() && r.limit.Unlimited? && Lawful(cores(expected)) && Lawful(devices)
    modifies r, r.source
    ensures status == M.Ok ==>
      r.Valid() && decoded.Parsed? && ImageFits(cores, devices, decoded.value) && decoded.value.memory == expected > 0
    ensures status == M.Ok ==> old(r.Rest()) == ImageBytes(cores, devices, decoded.value) + r.Rest()
    ensures
      (ImageFits(cores, devices, image) && image.memory == expected > 0
       && old(r.Rest()) == ImageBytes(cores, devices, image) + x) ==>
      !r.Refuted(status) && (status == M.Ok ==> decoded.value == image && r.Rest() == x)
  {
    decoded := Refused;
    if expected == 0 { return M.InvalidArgument, decoded; }
    ghost var sections :=
      Sections(cores(image.memory).encode(image.core), devices.encode(image.devices), ArchiveBytes(image.media));
    ghost var entry := EntryBytes(image.halted, image.trap) + x;
    Framed(Little(FORMAT, 4), Little(image.memory, 4), sections, EntryBytes(image.halted, image.trap), x);
    status := ReadFront(r, expected, sections + entry);
    if status != M.Ok { return; }
    var c, d, media, halted, trap;
    status, c, d, media := ReadSections(cores(expected), devices, r, image, entry);
    if status != M.Ok { return; }
    status, halted, trap := ReadEntry(r, image.halted, image.trap, x);
    if status != M.Ok { return; }
    decoded := Parsed(Image(expected, c.value, d.value, media, halted, trap), 0);
    Framed(Little(FORMAT, 4), Little(expected, 4),
      Sections(cores(expected).encode(c.value), devices.encode(d.value), ArchiveBytes(media)), EntryBytes(halted, trap),
      r.Rest());
  }

  lemma Framed(a: seq<byte>, b: seq<byte>, c: seq<byte>, d: seq<byte>, e: seq<byte>)
    ensures (a + (b + (c + d))) + e == a + (b + (c + (d + e)))
  {
  }

  method StoreImage<C, D>(cores: nat -> Codec<C>, devices: Codec<D>, image: Image<C, D>)
      returns (r: Outcome, data: seq<byte>)
    requires ImageFits(cores, devices, image) && forall i :: 0 <= i < |image.media| ==> Plain(image.media[i])
    ensures r == Status(M.Ok) && data == ImageBytes(cores, devices, image)
  {
    WellFormedHolds(image.media);
    assert CutAll(image.media) == image.media;
    assert CutImage(image) == image;
    var w := new Writer(Storing, true);
    r := WriteImage(cores, devices, w, image);
    data := w.data;
  }

  // What is stored on a host that does not fail is read back the same, with every section used
  // up, for any core and device formats that can be read back.
  method StoreAndReadImage<C(!new), D(!new)>(cores: nat -> Codec<C>, devices: Codec<D>, image: Image<C, D>)
    returns (r: Outcome, copy: Parse<Image<C, D>>)
    requires ImageFits(cores, devices, image) && image.memory > 0 && forall i :: 0 <= i < |image.media| ==>
      Plain(image.media[i])
    requires Lawful(cores(image.memory)) && Lawful(devices)
    ensures r == Status(M.Ok) && copy.Parsed? && copy.value == image
  {
    var data;
    r, data := StoreImage(cores, devices, image);
    var source := new Source(data, true);
    var reader := new Reader(source, Unlimited);
    assert reader.Rest() == ImageBytes(cores, devices, image) + [];
    var status;
    status, copy := ReadImage(cores, devices, reader, image.memory, image, []);
    r := Status(status);
  }
}
