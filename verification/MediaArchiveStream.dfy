/**
 Writing a media archive to a stream and reading one back, field by field.
 */
module MediaArchiveStream {
  import opened Bytes
  import opened SnapshotStream
  import opened MediaArchive
  import M = Medium

  // ---------- writing ----------

  // What the writer sees of a slot: its path as C text.
  function Cut(s: Slot): Slot { if s.Empty? then s else s.(path := Text(s.path)) }

  function CutAll(archive: seq<Slot>): (r: seq<Slot>)
    ensures |r| == |archive| && forall i :: 0 <= i < |r| ==> r[i] == Cut(archive[i])
  {
    seq(|archive|, i requires 0 <= i < |archive| => Cut(archive[i]))
  }

  // What the structures can hold: a path with its terminator, pages of at most one block.
  predicate Holds(s: Slot) {
    s.Saved? ==> |s.path| < PATH_MAX && |s.pages| < U64_LIMIT && forall i :: 0 <= i < |s.pages| ==>
      |s.pages[i].bytes| <= BLOCK_BYTES
  }

  predicate HoldsAll(archive: seq<Slot>) { forall i :: 0 <= i < |archive| ==> Holds(archive[i]) }

  lemma WellFormedHolds(archive: seq<Slot>)
    requires WellFormed(archive)
    ensures HoldsAll(archive)
  {
    forall i | 0 <= i < |archive| ensures Holds(archive[i]) {
      WellFormedAt(archive, i);
      SlotHolds(i, archive[i]);
    }
  }

  lemma SlotHolds(slot: nat, s: Slot)
    requires WellFormedSlot(slot, s)
    ensures Holds(s)
  {
    if s.Saved? {
      forall i | 0 <= i < |s.pages| ensures |s.pages[i].bytes| <= BLOCK_BYTES { PagesAscend(s.size, s.pages, i); }
    }
  }

  method WriteFixed(w: Writer, h: Header) returns (status: M.Status)
    requires w.Valid()
    modifies w
    ensures w.Valid() && w.Answers(|old(w.Written)|,
      |Little(h.mode, 4) + (Little(h.cylinder, 4) + (Little(h.size, 8) + h.digest))|, status)
    ensures status == M.Ok ==>
      w.Written == old(w.Written) + (Little(h.mode, 4) + (Little(h.cylinder, 4) + (Little(h.size, 8) + h.digest)))
  {
    status := w.WriteU32(h.mode);
    if status == M.Ok { status := w.WriteU32(h.cylinder); }
    if status == M.Ok { status := w.WriteU64(h.size); }
    if status == M.Ok { status := w.Write(h.digest); }
  }

  method WritePath(w: Writer, path: seq<byte>, count: u64) returns (status: M.Status)
    requires w.Valid() && |path| < PATH_MAX
    modifies w
    ensures w.Valid() && w.Answers(|old(w.Written)|, |PathBytes(Text(path)) + Little(count, 8)|, status)
    ensures status == M.Ok ==> w.Written == old(w.Written) + (PathBytes(Text(path)) + Little(count, 8))
  {
    var text := Text(path);
    status := w.WriteU32(|text|);
    if status == M.Ok { status := w.Write(text); }
    if status == M.Ok { status := w.WriteU64(count); }
  }

  method WriteHeader(w: Writer, h: Header) returns (status: M.Status)
    requires w.Valid() && h.count < U64_LIMIT && |h.path| < PATH_MAX
    modifies w
    ensures w.Valid() && w.Answers(|old(w.Written)|, |HeaderBytes(h.(path := Text(h.path)))|, status)
    ensures status == M.Ok ==> w.Written == old(w.Written) + HeaderBytes(h.(path := Text(h.path)))
  {
    status := WriteFixed(w, h);
    if status == M.Ok { status := WritePath(w, h.path, h.count); }
    HeaderParts(old(w.Written), Little(h.mode, 4), Little(h.cylinder, 4), Little(h.size, 8), h.digest,
      PathBytes(Text(h.path)) + Little(h.count, 8));
  }

  lemma HeaderParts(start: seq<byte>, a: seq<byte>, b: seq<byte>, c: seq<byte>, d: seq<byte>, e: seq<byte>)
    ensures start + (a + (b + (c + d))) + e == start + (a + (b + (c + (d + e))))
    ensures (a + (b + (c + d))) + e == a + (b + (c + (d + e)))
  {
  }

  method WritePage(w: Writer, p: SavedPage) returns (status: M.Status)
    requires w.Valid() && |p.bytes| <= BLOCK_BYTES
    modifies w
    ensures w.Valid() && w.Answers(|old(w.Written)|, |PageBytes(p)|, status)
    ensures status == M.Ok ==> w.Written == old(w.Written) + PageBytes(p)
  {
    status := w.WriteU64(p.offset);
    if status == M.Ok { status := w.WriteU32(|p.bytes|); }
    if status == M.Ok { status := w.Write(p.bytes); }
  }

  method WritePages(w: Writer, pages: seq<SavedPage>) returns (status: M.Status)
    requires w.Valid() && forall i :: 0 <= i < |pages| ==> |pages[i].bytes| <= BLOCK_BYTES
    modifies w
    ensures w.Valid() && w.Answers(|old(w.Written)|, |PagesBytes(pages)|, status)
    ensures status == M.Ok ==> w.Written == old(w.Written) + PagesBytes(pages)
  {
    var p := 0;
    while p < |pages|
      invariant p <= |pages| && w.Valid() && w.Written == old(w.Written) + PagesBytes(pages[..p])
    {
      assert pages[..p + 1][..p] == pages[..p];
      ListGrows(PageBytes, pages, p + 1);
      status := WritePage(w, pages[p]);
      if status != M.Ok { return; }
      Associate(old(w.Written), PagesBytes(pages[..p]), PageBytes(pages[p]));
      p := p + 1;
    }
    assert pages[..p] == pages;
    status := M.Ok;
  }

  method WriteSlot(w: Writer, s: Slot) returns (status: M.Status)
    requires w.Valid() && Holds(s)
    modifies w
    ensures w.Valid() && w.Answers(|old(w.Written)|, |SlotBytes(Cut(s))|, status)
    ensures status == M.Ok ==> w.Written == old(w.Written) + SlotBytes(Cut(s))
  {
    status := w.WriteU32(Present(s));
    if status != M.Ok || s.Empty? { return; }
    status := WriteHeader(w, HeaderOf(s));
    if status != M.Ok { return; }
    status := WritePages(w, s.pages);
    if status != M.Ok { return; }
    ghost var h, p := HeaderBytes(HeaderOf(Cut(s))), PagesBytes(s.pages);
    Associate(old(w.Written), Little(1, 4), h + p);
    Associate(old(w.Written) + Little(1, 4), h, p);
  }

  // One turn of the loop below.
  method WriteNext(w: Writer, archive: seq<Slot>, i: nat, ghost start: seq<byte>) returns (status: M.Status)
    requires w.Valid() && HoldsAll(archive) && i < |archive| && w.Written == start + ArchiveBytes(CutAll(archive)[..i])
    modifies w
    ensures w.Valid() && (status != M.Ok ==> w.Answers(|start|, |ArchiveBytes(CutAll(archive))|, status))
    ensures status == M.Ok ==> w.Written == start + ArchiveBytes(CutAll(archive)[..i + 1])
  {
    ghost var cut := CutAll(archive);
    assert cut[..i + 1][..i] == cut[..i];
    ListGrows(SlotBytes, cut, i + 1);
    status := WriteSlot(w, archive[i]);
    Associate(start, ArchiveBytes(cut[..i]), SlotBytes(cut[i]));
  }

  // softpc_media_archive_write.
  method WriteArchive(w: Writer, archive: seq<Slot>) returns (status: M.Status)
    requires w.Valid() && HoldsAll(archive)
    modifies w
    ensures w.Valid() && w.Answers(|old(w.Written)|, |ArchiveBytes(CutAll(archive))|, status)
    ensures status == M.Ok ==> w.Written == old(w.Written) + ArchiveBytes(CutAll(archive))
  {
    var i := 0;
    while i < |archive|
      invariant i <= |archive| && w.Valid() && w.Written == old(w.Written) + ArchiveBytes(CutAll(archive)[..i])
    {
      status := WriteNext(w, archive, i, old(w.Written));
      if status != M.Ok { return; }
      i := i + 1;
    }
    assert CutAll(archive)[..i] == CutAll(archive);
    status := M.Ok;
  }

  lemma {:induction false} WellFormedAt(archive: seq<Slot>, i: nat)
    requires WellFormed(archive) && i < |archive|
    ensures WellFormedSlot(i, archive[i])
  {
    if i < |archive| - 1 { WellFormedAt(archive[..|archive| - 1], i); }
  }

  // ---------- reading ----------

  // Some bytes do not start with a page that fits.
  ghost predicate NoPage(d: seq<byte>, size: nat, first: nat) {
    forall p: SavedPage, x :: PageFits(size, first, p.offset, |p.bytes|) ==> d != PageBytes(p) + x
  }

  // The two words in front of a page decide its place and length.
  lemma PageWords(p: SavedPage, x: seq<byte>, offset: u64, count: u32, d: seq<byte>)
    requires |p.bytes| <= BLOCK_BYTES && PageBytes(p) + x == Little(offset, 8) + (Little(count, 4) + d)
    ensures p.offset == offset && |p.bytes| == count && p.bytes + x == d
  {
    var a := Little(|p.bytes|, 4) + (p.bytes + x);
    assert PageBytes(p) + x == Little(p.offset, 8) + a;
    PeelU64(p.offset, a, offset, Little(count, 4) + d);
    PeelU32(|p.bytes|, p.bytes + x, count, d);
  }

  lemma PageRefused(offset: u64, count: u32, d: seq<byte>, size: nat, first: nat)
    requires PageFits(size, first, offset, count) ==> |d| < count
    ensures NoPage(Little(offset, 8) + (Little(count, 4) + d), size, first)
  {
    forall p: SavedPage, x | |p.bytes| <= BLOCK_BYTES && Little(offset, 8) + (Little(count, 4) + d) == PageBytes(p) + x
      ensures p.offset == offset && |p.bytes| == count && count <= |d|
    {
      PageWords(p, x, offset, count, d);
    }
  }

  // The offset and the byte count of a page.
  method ReadPageHead(r: Reader) returns (status: M.Status, offset: u64, count: u32)
    requires r.Valid()
    modifies r, r.source
    ensures r.Valid() && (status == M.Ok || status == M.InvalidArgument || status == M.IoError)
    ensures status == M.Ok ==>
      r.End() == old(r.End()) && old(r.Rest()) == Little(offset, 8) + (Little(count, 4) + r.Rest())
    ensures r.Refuted(status) ==> |old(r.Rest())| < 12
  {
    count := 0;
    status, offset := r.ReadU64();
    if status != M.Ok { return; }
    status, count := r.ReadU32();
  }

  method ReadPage(r: Reader, size: nat, first: nat) returns (status: M.Status, page: SavedPage)
    requires r.Valid()
    modifies r, r.source
    ensures r.Valid() && status != M.InvalidState
    ensures status == M.Ok ==> r.End() == old(r.End()) && old(r.Rest()) == PageBytes(page) + r.Rest()
    ensures status == M.Ok ==> PageFits(size, first, page.offset, |page.bytes|)
    ensures r.Refuted(status) ==> NoPage(old(r.Rest()), size, first)
  {
    page := SavedPage(0, []);
    var offset, count, bytes;
    ghost var d := r.Rest();
    status, offset, count := ReadPageHead(r);
    if status != M.Ok { return; }
    ghost var d1 := r.Rest();
    if !PageFits(size, first, offset, count) {
      PageRefused(offset, count, d1, size, first);
      return M.InvalidArgument, page;
    }
    var refused: bool := *;
    if refused && !r.source.reliable { return M.NoMemory, page; }
    status, bytes := r.Read(count);
    if r.Refuted(status) { PageRefused(offset, count, d1, size, first); }
    page := SavedPage(offset, bytes);
    if status == M.Ok {
      assert PageBytes(page) + r.Rest() == Little(offset, 8) + (Little(count, 4) + (bytes + r.Rest()));
    }
  }

  // ---- a list of pages ----

  ghost predicate NoPages(d: seq<byte>, size: nat, count: nat) {
    forall ps, x :: |ps| == count && PagesFit(size, ps) ==> d != PagesBytes(ps) + x
  }

  // If a stream starts with a list of pages, the page behind those already read is next.
  lemma NextPage(size: nat, ps: seq<SavedPage>, x: seq<byte>, pages: seq<SavedPage>, rest: seq<byte>)
      returns (y: seq<byte>)
    requires PagesFit(size, ps) && PagesFit(size, pages) && |pages| < |ps|
      && PagesBytes(ps) + x == PagesBytes(pages) + rest
    ensures PageFits(size, After(pages), ps[|pages|].offset, |ps[|pages|].bytes|) && rest == PageBytes(ps[|pages|]) + y
  {
    var k := |pages|;
    y := ListSplit(PageBytes, ps, x, k + 1);
    PagesAscend(size, ps, k);
    assert ps[..k + 1][..k] == ps[..k];
    Associate(PagesBytes(ps[..k]), PageBytes(ps[k]), y);
    PagesUnique(size, ps[..k], PageBytes(ps[k]) + y, pages, rest);
  }

  lemma PagesRefused(size: nat, count: nat, pages: seq<SavedPage>, rest: seq<byte>)
    requires PagesFit(size, pages) && |pages| < count && NoPage(rest, size, After(pages))
    ensures NoPages(PagesBytes(pages) + rest, size, count)
  {
    forall ps, x | |ps| == count && PagesFit(size, ps)
      ensures PagesBytes(pages) + rest != PagesBytes(ps) + x
    {
      if PagesBytes(pages) + rest == PagesBytes(ps) + x {
        var y := NextPage(size, ps, x, pages, rest);
      }
    }
  }

  method ReadPages(r: Reader, size: nat, count: nat) returns (status: M.Status, pages: seq<SavedPage>)
    requires r.Valid()
    modifies r, r.source
    ensures r.Valid() && status != M.InvalidState
    ensures status == M.Ok ==> r.End() == old(r.End()) && old(r.Rest()) == PagesBytes(pages) + r.Rest()
    ensures status == M.Ok ==> |pages| == count && PagesFit(size, pages)
    ensures r.Refuted(status) ==> NoPages(old(r.Rest()), size, count)
  {
    pages := [];
    var first := 0;
    while |pages| < count
      invariant r.Valid() && r.End() == old(r.End()) && old(r.Rest()) == PagesBytes(pages) + r.Rest()
      invariant |pages| <= count && PagesFit(size, pages) && first == After(pages)
    {
      ghost var rest := r.Rest();
      var page;
      status, page := ReadPage(r, size, first);
      if r.Refuted(status) { PagesRefused(size, count, pages, rest); }
      if status != M.Ok { return; }
      Associate(PagesBytes(pages), PageBytes(page), r.Rest());
      assert (pages + [page])[..|pages|] == pages;
      pages, first := pages + [page], page.offset + 1;
    }
    status := M.Ok;
  }

  // ---- a header ----

  ghost predicate NoHeader(d: seq<byte>) {
    forall h, x :: HeaderShaped(h) ==> d != HeaderBytes(h) + x
  }

  // The path length in front of a path decides.
  lemma PathRefused(fixed: seq<byte>, length: u32, d: seq<byte>)
    requires |fixed| == 48 && (1 <= length < PATH_MAX ==> |d| < length + 8)
    ensures NoHeader(fixed + (Little(length, 4) + d))
  {
    forall h, x | HeaderShaped(h)
      ensures fixed + (Little(length, 4) + d) != HeaderBytes(h) + x
    {
      var a := Little(h.mode, 4) + (Little(h.cylinder, 4) + (Little(h.size, 8) + h.digest));
      var b := h.path + (Little(h.count, 8) + x);
      assert HeaderBytes(h) + x == a + (Little(|h.path|, 4) + b);
      if fixed + (Little(length, 4) + d) == HeaderBytes(h) + x {
        Peel(fixed, Little(length, 4) + d, a, Little(|h.path|, 4) + b);
        PeelU32(length, d, |h.path|, b);
      }
    }
  }

  // Mode, cylinder, size and digest.
  method ReadFixed(r: Reader) returns (status: M.Status, mode: u32, cylinder: u32, size: u64, digest: seq<byte>)
    requires r.Valid()
    modifies r, r.source
    ensures r.Valid() && (status == M.Ok || status == M.InvalidArgument || status == M.IoError)
    ensures status == M.Ok ==> r.End() == old(r.End()) && |digest| == 32
    ensures status == M.Ok ==>
      old(r.Rest()) == (Little(mode, 4) + (Little(cylinder, 4) + (Little(size, 8) + digest))) + r.Rest()
    ensures r.Refuted(status) ==> |old(r.Rest())| < 48
  {
    cylinder, size, digest := 0, 0, [];
    status, mode := r.ReadU32();
    if status == M.Ok { status, cylinder := r.ReadU32(); }
    if status == M.Ok { status, size := r.ReadU64(); }
    if status == M.Ok { status, digest := r.Read(32); }
  }

  // The path and its length, and the page count.
  method ReadPath(r: Reader, ghost fixed: seq<byte>) returns (status: M.Status, path: seq<byte>, count: u64)
    requires r.Valid() && |fixed| == 48
    modifies r, r.source
    ensures r.Valid() && (status == M.Ok || status == M.InvalidArgument || status == M.IoError)
    ensures status == M.Ok ==> r.End() == old(r.End()) && 1 <= |path| < PATH_MAX
    ensures status == M.Ok ==> old(r.Rest()) == PathBytes(path) + (Little(count, 8) + r.Rest())
    ensures r.Refuted(status) ==> NoHeader(fixed + old(r.Rest()))
  {
    path, count := [], 0;
    var length;
    status, length := r.ReadU32();
    if r.Refuted(status) { assert |fixed + old(r.Rest())| < 52; }
    if status != M.Ok { return; }
    ghost var d := r.Rest();
    if length == 0 || length >= PATH_MAX {
      PathRefused(fixed, length, d);
      status := M.InvalidArgument;
      return;
    }
    status, path := r.Read(length);
    if status == M.Ok { status, count := r.ReadU64(); }
    if r.Refuted(status) { PathRefused(fixed, length, d); }
    if status == M.Ok { Associate(Little(length, 4), path, Little(count, 8) + r.Rest()); }
  }

  method ReadHeader(r: Reader) returns (status: M.Status, h: Header)
    requires r.Valid()
    modifies r, r.source
    ensures r.Valid() && (status == M.Ok || status == M.InvalidArgument || status == M.IoError)
    ensures status == M.Ok ==> r.End() == old(r.End()) && HeaderShaped(h) && old(r.Rest()) == HeaderBytes(h) + r.Rest()
    ensures r.Refuted(status) ==> NoHeader(old(r.Rest()))
  {
    h := Header(0, 0, 0, [], [], 0);
    var mode, cylinder, size, digest, path, count;
    status, mode, cylinder, size, digest := ReadFixed(r);
    if status != M.Ok { return; }
    ghost var fixed := Little(mode, 4) + (Little(cylinder, 4) + (Little(size, 8) + digest));
    status, path, count := ReadPath(r, fixed);
    if status != M.Ok { return; }
    h := Header(mode, cylinder, size, digest, path, count);
    HeaderParts([], Little(mode, 4), Little(cylinder, 4), Little(size, 8), digest, PathBytes(path) + Little(count, 8));
    Associate(fixed, PathBytes(path) + Little(count, 8), r.Rest());
    Associate(PathBytes(path), Little(count, 8), r.Rest());
  }

  // ---- a slot ----

  ghost predicate NoSlot(d: seq<byte>, slot: nat) {
    forall s, x :: WellFormedSlot(slot, s) ==> d != SlotBytes(s) + x
  }

  // The header and the pages of a slot.
  ghost predicate NoBody(d: seq<byte>, slot: nat) {
    forall s: Slot, x :: s.Saved? && WellFormedSlot(slot, s) ==>
      d != HeaderBytes(HeaderOf(s)) + (PagesBytes(s.pages) + x)
  }

  lemma PagesMissing(slot: nat, h: Header, d: seq<byte>)
    requires HeaderShaped(h) && (HeaderFits(slot, h) ==> NoPages(d, h.size, h.count))
    ensures NoBody(HeaderBytes(h) + d, slot)
  {
    forall s: Slot, x | s.Saved? && WellFormedSlot(slot, s)
      ensures HeaderBytes(h) + d != HeaderBytes(HeaderOf(s)) + (PagesBytes(s.pages) + x)
    {
      if HeaderBytes(h) + d == HeaderBytes(HeaderOf(s)) + (PagesBytes(s.pages) + x) {
        HeaderUnique(h, d, HeaderOf(s), PagesBytes(s.pages) + x);
      }
    }
  }

  lemma SlotRefused(slot: nat, present: u32, d: seq<byte>)
    requires present > 1 || (present == 1 && NoBody(d, slot))
    ensures NoSlot(Little(present, 4) + d, slot)
  {
    forall s, x | WellFormedSlot(slot, s)
      ensures Little(present, 4) + d != SlotBytes(s) + x
    {
      if Little(present, 4) + d == SlotBytes(s) + x {
        PeelU32(present, d, Present(s), Rest(s, x));
        Associate(HeaderBytes(HeaderOf(s)), PagesBytes(s.pages), x);
      }
    }
  }

  method ReadBody(r: Reader, slot: nat) returns (status: M.Status, s: Slot)
    requires r.Valid()
    modifies r, r.source
    ensures r.Valid() && status != M.InvalidState
    ensures status == M.Ok ==> r.End() == old(r.End()) && s.Saved? && WellFormedSlot(slot, s)
    ensures status == M.Ok ==> old(r.Rest()) == HeaderBytes(HeaderOf(s)) + (PagesBytes(s.pages) + r.Rest())
    ensures r.Refuted(status) ==> NoBody(old(r.Rest()), slot)
  {
    s := Empty;
    var h, pages;
    status, h := ReadHeader(r);
    if status != M.Ok { return; }
    ghost var d := r.Rest();
    if !HeaderFits(slot, h) {
      PagesMissing(slot, h, d);
      return M.InvalidArgument, s;
    }
    status, pages := ReadPages(r, h.size, h.count);
    if r.Refuted(status) { PagesMissing(slot, h, d); }
    if status == M.Ok {
      s := Saved(ModeOf(h.mode), h.cylinder, h.size, h.digest, h.path, pages);
      assert HeaderOf(s) == h;
    }
  }

  method ReadSlot(r: Reader, slot: nat) returns (status: M.Status, s: Slot)
    requires r.Valid()
    modifies r, r.source
    ensures r.Valid() && status != M.InvalidState
    ensures status == M.Ok ==>
      r.End() == old(r.End()) && WellFormedSlot(slot, s) && old(r.Rest()) == SlotBytes(s) + r.Rest()
    ensures r.Refuted(status) ==> NoSlot(old(r.Rest()), slot)
  {
    s := Empty;
    var present;
    status, present := r.ReadU32();
    if r.Refuted(status) { assert |old(r.Rest())| < 4; }
    if status != M.Ok { return; }
    ghost var d := r.Rest();
    if present > 1 {
      SlotRefused(slot, present, d);
      return M.InvalidArgument, s;
    }
    if present == 0 { return; }
    status, s := ReadBody(r, slot);
    if r.Refuted(status) { SlotRefused(slot, present, d); }
    if status == M.Ok {
      ghost var h, p := HeaderBytes(HeaderOf(s)), PagesBytes(s.pages);
      Associate(h, p, r.Rest());
      Associate(Little(1, 4), h + p, r.Rest());
    }
  }

  // ---- the archive ----

  ghost predicate NoArchive(d: seq<byte>) {
    forall a, x :: |a| == SLOTS && WellFormed(a) ==> d != ArchiveBytes(a) + x
  }

  lemma NextSlot(a: seq<Slot>, x: seq<byte>, slots: seq<Slot>, rest: seq<byte>) returns (y: seq<byte>)
    requires WellFormed(a) && WellFormed(slots) && |slots| < |a| && ArchiveBytes(a) + x == ArchiveBytes(slots) + rest
    ensures WellFormedSlot(|slots|, a[|slots|]) && rest == SlotBytes(a[|slots|]) + y
  {
    var k := |slots|;
    y := ListSplit(SlotBytes, a, x, k + 1);
    WellFormedAt(a, k);
    WellFormedPrefix(a, k);
    assert a[..k + 1][..k] == a[..k];
    Associate(ArchiveBytes(a[..k]), SlotBytes(a[k]), y);
    ArchiveUnique(a[..k], SlotBytes(a[k]) + y, slots, rest);
  }

  lemma {:induction false} WellFormedPrefix(archive: seq<Slot>, k: nat)
    requires WellFormed(archive) && k <= |archive|
    ensures WellFormed(archive[..k])
  {
    var n := |archive| - 1;
    if k < |archive| {
      WellFormedPrefix(archive[..n], k);
      assert archive[..n][..k] == archive[..k];
    } else {
      assert archive[..k] == archive;
    }
  }

  lemma ArchiveRefused(slots: seq<Slot>, rest: seq<byte>)
    requires WellFormed(slots) && |slots| < SLOTS && NoSlot(rest, |slots|)
    ensures NoArchive(ArchiveBytes(slots) + rest)
  {
    forall a, x | |a| == SLOTS && WellFormed(a)
      ensures ArchiveBytes(slots) + rest != ArchiveBytes(a) + x
    {
      if ArchiveBytes(slots) + rest == ArchiveBytes(a) + x {
        var y := NextSlot(a, x, slots, rest);
      }
    }
  }

  // softpc_media_archive_read. What it accepts starts with a well-formed archive, which it
  // returns, leaving what follows; what it calls invalid does not start with one.
  method ReadArchive(r: Reader) returns (status: M.Status, archive: seq<Slot>)
    requires r.Valid()
    modifies r, r.source
    ensures r.Valid() && status != M.InvalidState
    ensures status == M.Ok ==> r.End() == old(r.End()) && |archive| == SLOTS && WellFormed(archive)
    ensures status == M.Ok ==> old(r.Rest()) == ArchiveBytes(archive) + r.Rest()
    ensures r.Refuted(status) ==> NoArchive(old(r.Rest()))
  {
    archive := [];
    var refused: bool := *;
    if refused && !r.source.reliable { return M.NoMemory, archive; }
    while |archive| < SLOTS
      invariant r.Valid() && r.End() == old(r.End()) && old(r.Rest()) == ArchiveBytes(archive) + r.Rest()
      invariant |archive| <= SLOTS && WellFormed(archive)
    {
      ghost var rest := r.Rest();
      var s;
      status, s := ReadSlot(r, |archive|);
      if r.Refuted(status) { ArchiveRefused(archive, rest); }
      if status != M.Ok { return; }
      Associate(ArchiveBytes(archive), SlotBytes(s), r.Rest());
      assert (archive + [s])[..|archive|] == archive;
      archive := archive + [s];
    }
    status := M.Ok;
  }

  // ---------- the round trip ----------

  // An archive that was read is written back as the very bytes it was read from, exactly when
  // no path holds a zero byte.
  lemma RewriteIsIdentity(archive: seq<Slot>)
    ensures ArchiveBytes(CutAll(archive)) == ArchiveBytes(archive) <==> forall i :: 0 <= i < |archive| ==>
      Plain(archive[i])
  {
    RewriteLength(archive);
    if forall i :: 0 <= i < |archive| ==> Plain(archive[i]) {
      assert CutAll(archive) == archive;
    }
  }

  // Cutting a path makes the encoding shorter.
  lemma {:induction false} RewriteLength(archive: seq<Slot>)
    ensures |ArchiveBytes(CutAll(archive))| <= |ArchiveBytes(archive)|
    ensures (exists i :: 0 <= i < |archive| && !Plain(archive[i])) ==>
      |ArchiveBytes(CutAll(archive))| < |ArchiveBytes(archive)|
  {
    if archive != [] {
      var n := |archive| - 1;
      RewriteLength(archive[..n]);
      assert CutAll(archive)[..n] == CutAll(archive[..n]);
      CutLength(archive[n]);
      assert forall i :: 0 <= i < n ==> archive[..n][i] == archive[i];
    }
  }

  lemma CutLength(s: Slot)
    ensures |SlotBytes(Cut(s))| <= |SlotBytes(s)| && (!Plain(s) ==> |SlotBytes(Cut(s))| < |SlotBytes(s)|)
  {
  }

  // Writing to a store stores exactly the encoding, unless the host fails.
  method StoreArchive(archive: seq<Slot>, reliable: bool) returns (status: M.Status, data: seq<byte>)
    requires HoldsAll(archive) && forall i :: 0 <= i < |archive| ==> Plain(archive[i])
    ensures status == M.Ok || (status == M.IoError && !reliable)
    ensures status == M.Ok ==> data == ArchiveBytes(archive)
  {
    var w := new Writer(Storing, reliable);
    status := WriteArchive(w, archive);
    data := w.data;
    RewriteIsIdentity(archive);
  }

  // Where an archive was written, reading gives back that archive and stops exactly behind it,
  // unless the host fails.
  method ReadBack(r: Reader, ghost archive: seq<Slot>, ghost behind: seq<byte>)
      returns (status: M.Status, copy: seq<Slot>)
    requires r.Valid() && |archive| == SLOTS && WellFormed(archive) && r.Rest() == ArchiveBytes(archive) + behind
    modifies r, r.source
    ensures r.Valid() && (status == M.Ok || ((status == M.IoError || status == M.NoMemory) && !r.source.reliable))
    ensures status == M.Ok ==> r.End() == old(r.End()) && copy == archive && r.Rest() == behind
  {
    status, copy := ReadArchive(r);
    if status == M.Ok { ArchiveUnique(archive, behind, copy, r.Rest()); }
  }

  // What is stored on a host that does not fail is read back the same.
  method StoreAndReadBack(archive: seq<Slot>) returns (status: M.Status, copy: seq<Slot>)
    requires |archive| == SLOTS && WellFormed(archive) && forall i :: 0 <= i < |archive| ==> Plain(archive[i])
    ensures status == M.Ok && copy == archive
  {
    WellFormedHolds(archive);
    var data;
    status, data := StoreArchive(archive, true);
    var source := new Source(data, true);
    var r := new Reader(source, Unlimited);
    assert r.Rest() == ArchiveBytes(archive) + [];
    status, copy := ReadBack(r, archive, []);
  }

  // A path with a zero byte in front is written as no path at all.
  lemma RewriteLosesAPath()
    ensures var slot := Saved(M.Direct, 0, 512, Repeat(0, 32), [0], []);
      var archive := [slot, Empty, Empty, Empty];
      WellFormed(archive) && ArchiveBytes(CutAll(archive)) != ArchiveBytes(archive)
  {
    var slot := Saved(M.Direct, 0, 512, Repeat(0, 32), [0], []);
    var archive := [slot, Empty, Empty, Empty];
    assert archive[..3] == [slot, Empty, Empty] && [slot, Empty, Empty][..2] == [slot, Empty]
      && [slot, Empty][..1] == [slot] && [slot][..0] == [];
    assert WellFormedSlot(0, slot) && !Plain(archive[0]);
    assert Each(WellFormedSlot, [slot]);
    assert Each(WellFormedSlot, [slot, Empty]);
    assert Each(WellFormedSlot, [slot, Empty, Empty]);
    RewriteIsIdentity(archive);
  }
}
