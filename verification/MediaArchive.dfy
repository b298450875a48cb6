/**
 The media archive of a snapshot: four slots, each empty or holding the attachment of a drive
 and the 4 KiB blocks in which an overlay differs from its base image. Its byte format, the
 checks of its reader, and the round trip.
 */
module MediaArchive {
  import opened Bytes
  import opened SnapshotStream
  import M = Medium

  const SLOTS := 4
  const BLOCK_BYTES := 4096
  const PATH_MAX := 1024

  datatype SavedPage = SavedPage(offset: u64, bytes: seq<byte>)

  datatype Slot = Empty | Saved(mode: M.Mode, cylinder: u32, size: u64, digest: seq<byte>, path: seq<byte>,
      pages: seq<SavedPage>)

  // What precedes the pages of a slot.
  datatype Header = Header(mode: u32, cylinder: u32, size: u64, digest: seq<byte>, path: seq<byte>, count: nat)

  function ModeNumber(mode: M.Mode): u32 {
    match mode
    case Direct => 0
    case ReadOnly => 1
    case Overlay => 2
  }

  function ModeOf(n: u32): (mode: M.Mode)
    requires n <= 2
    ensures ModeNumber(mode) == n
  {
    if n == 0 then M.Direct else if n == 1 then M.ReadOnly else M.Overlay
  }

  // A path buffer read as C text: up to its first zero byte.
  function Text(path: seq<byte>): (r: seq<byte>)
    ensures |r| <= |path| && (|r| == |path| <==> 0 !in path) && (0 !in path ==> r == path)
  {
    if path == [] || path[0] == 0 then [] else [path[0]] + Text(path[1..])
  }

  // ---------- well-formed archives ----------

  function BlockLength(size: nat, offset: nat): nat
    requires offset < size
  {
    if size - offset < BLOCK_BYTES then size - offset else BLOCK_BYTES
  }

  predicate PageFits(size: nat, first: nat, offset: nat, count: nat) {
    first <= offset < size && offset % BLOCK_BYTES == 0 && count == BlockLength(size, offset)
  }

  // Aligned, strictly ascending, exactly sized pages within the size.
  predicate PagesFit(size: nat, pages: seq<SavedPage>) {
    pages == [] ||
    var n := |pages| - 1;
    PagesFit(size, pages[..n]) && PageFits(size, After(pages[..n]), pages[n].offset, |pages[n].bytes|)
  }

  // Where the next page may start at the earliest.
  function After(pages: seq<SavedPage>): nat { if pages == [] then 0 else pages[|pages| - 1].offset + 1 }

  // Page by page: each fits, and each is at least one block further than the one before.
  lemma {:induction false} PagesAscend(size: nat, pages: seq<SavedPage>, i: nat)
    requires PagesFit(size, pages) && i < |pages|
    ensures PageFits(size, After(pages[..i]), pages[i].offset, |pages[i].bytes|) && PagesFit(size, pages[..i])
    ensures i > 0 ==> pages[i - 1].offset + BLOCK_BYTES <= pages[i].offset
    decreases |pages|
  {
    var n := |pages| - 1;
    if i < n {
      PagesAscend(size, pages[..n], i);
      assert pages[..n][..i] == pages[..i];
    } else if i > 0 {
      PagesAscend(size, pages[..n], i - 1);
    }
  }

  // So there are no more pages than blocks.
  lemma {:induction false} PagesAreFew(size: nat, pages: seq<SavedPage>)
    requires PagesFit(size, pages) && size > 0
    ensures |pages| <= (size - 1) / BLOCK_BYTES + 1
    ensures pages != [] ==> (|pages| - 1) * BLOCK_BYTES <= pages[|pages| - 1].offset
  {
    if |pages| > 1 {
      PagesAreFew(size, pages[..|pages| - 1]);
      PagesAscend(size, pages, |pages| - 1);
    }
  }

  // The reader's checks on a header.
  predicate HeaderFits(slot: nat, h: Header) {
    && h.mode <= 2 && 512 <= h.size && (slot < 2 ==> h.size % 512 == 0)
    && h.cylinder <= (if slot < 2 then 255 else 0)
    && h.count <= (h.size - 1) / BLOCK_BYTES + 1 && (h.mode != 2 ==> h.count == 0)
  }

  predicate HeaderShaped(h: Header) { |h.digest| == 32 && 1 <= |h.path| < PATH_MAX && h.count < U64_LIMIT }

  function HeaderOf(s: Slot): Header
    requires s.Saved?
  {
    Header(ModeNumber(s.mode), s.cylinder, s.size, s.digest, s.path, |s.pages|)
  }

  predicate WellFormedSlot(slot: nat, s: Slot) {
    s.Saved? ==> HeaderShaped(HeaderOf(s)) && HeaderFits(slot, HeaderOf(s)) && PagesFit(s.size, s.pages)
  }

  predicate WellFormed(archive: seq<Slot>) {
    Each(WellFormedSlot, archive)
  }

  // Without a zero byte in its path.
  predicate Plain(s: Slot) { s.Saved? ==> 0 !in s.path }

  // ---------- the format ----------

  function PageBytes(p: SavedPage): (r: seq<byte>)
    ensures |r| == 12 + |p.bytes|
  {
    Little(p.offset, 8) + (Little(|p.bytes|, 4) + p.bytes)
  }

  function PagesBytes(pages: seq<SavedPage>): seq<byte> { ListBytes(PageBytes, pages) }

  function HeaderBytes(h: Header): (r: seq<byte>)
    ensures |r| == 28 + |h.digest| + |h.path|
  {
    Little(h.mode, 4) + (Little(h.cylinder, 4)
      + (Little(h.size, 8) + (h.digest + (PathBytes(h.path) + Little(h.count, 8)))))
  }

  function PathBytes(path: seq<byte>): seq<byte> { Little(|path|, 4) + path }

  function SlotBytes(s: Slot): (r: seq<byte>)
    ensures |r| >= 4
  {
    if s.Empty? then Little(0, 4) else Little(1, 4) + (HeaderBytes(HeaderOf(s)) + PagesBytes(s.pages))
  }

  function ArchiveBytes(archive: seq<Slot>): seq<byte> { ListBytes(SlotBytes, archive) }

  // Where everything stands in an occupied slot: presence, mode, cylinder, size, digest, length of
  // the path, path, number of pages, pages.
  lemma SlotLayout(s: Slot)
    requires s.Saved? && |s.digest| == 32
    ensures var d, n := SlotBytes(s), |s.path|;
      && |d| >= n + 64 && d[..4] == Little(1, 4)
      && d[4..8] == Little(match s.mode case Direct => 0 case ReadOnly => 1 case Overlay => 2, 4)
      && d[8..12] == Little(s.cylinder, 4) && d[12..20] == Little(s.size, 8) && d[20..52] == s.digest
      && d[52..56] == Little(n, 4) && d[56..n + 56] == s.path && d[n + 56..n + 64] == Little(|s.pages|, 8)
      && d[n + 64..] == PagesBytes(s.pages)
  {
    var h := HeaderOf(s);
    HeaderLayout(h);
    var b := HeaderBytes(h);
    Shifted(Little(1, 4), b, PagesBytes(s.pages));
  }

  lemma HeaderLayout(h: Header)
    requires |h.digest| == 32
    ensures var b, n := HeaderBytes(h), |h.path|;
      && |b| == n + 60 && b[..4] == Little(h.mode, 4) && b[4..8] == Little(h.cylinder, 4)
         && b[8..16] == Little(h.size, 8)
      && b[16..48] == h.digest && b[48..52] == Little(n, 4) && b[52..n + 52] == h.path
         && b[n + 52..] == Little(h.count, 8)
  {
  }

  lemma Shifted(a: seq<byte>, b: seq<byte>, c: seq<byte>)
    requires |a| == 4
    ensures forall i, j :: 0 <= i <= j <= |b| ==> (a + (b + c))[i + 4..j + 4] == b[i..j]
    ensures (a + (b + c))[..4] == a && (a + (b + c))[|b| + 4..] == c
  {
  }

  // A page is its offset, its length and its bytes.
  lemma PageLayout(p: SavedPage)
    ensures var d := PageBytes(p);
      d[..8] == Little(p.offset, 8) && d[8..12] == Little(|p.bytes|, 4) && d[12..] == p.bytes
  {
  }

  // ---------- a stream starts with at most one archive ----------

  lemma PageUnique(p: SavedPage, x: seq<byte>, q: SavedPage, y: seq<byte>)
    requires |p.bytes| <= BLOCK_BYTES && |q.bytes| <= BLOCK_BYTES
    requires PageBytes(p) + x == PageBytes(q) + y
    ensures p == q && x == y
  {
    var a, b := Little(|p.bytes|, 4), Little(|q.bytes|, 4);
    assert PageBytes(p) + x == Little(p.offset, 8) + (a + (p.bytes + x));
    assert PageBytes(q) + y == Little(q.offset, 8) + (b + (q.bytes + y));
    PeelU64(p.offset, a + (p.bytes + x), q.offset, b + (q.bytes + y));
    PeelU32(|p.bytes|, p.bytes + x, |q.bytes|, q.bytes + y);
    Peel(p.bytes, x, q.bytes, y);
  }

  lemma {:induction false} PagesUnique(size: nat, ps: seq<SavedPage>, x: seq<byte>, qs: seq<SavedPage>, y: seq<byte>)
    requires |ps| == |qs| && PagesFit(size, ps) && PagesFit(size, qs)
    requires PagesBytes(ps) + x == PagesBytes(qs) + y
    ensures ps == qs && x == y
    decreases |ps|
  {
    if ps == [] {
      assert [] + x == x && [] + y == y;
    } else {
      var n := |ps| - 1;
      var p, q := PageBytes(ps[n]), PageBytes(qs[n]);
      Associate(PagesBytes(ps[..n]), p, x);
      Associate(PagesBytes(qs[..n]), q, y);
      PagesUnique(size, ps[..n], p + x, qs[..n], q + y);
      PageUnique(ps[n], x, qs[n], y);
      assert ps == ps[..n] + [ps[n]] && qs == qs[..n] + [qs[n]];
    }
  }

  lemma PathUnique(p: seq<byte>, x: seq<byte>, q: seq<byte>, y: seq<byte>)
    requires |p| < PATH_MAX && |q| < PATH_MAX && PathBytes(p) + x == PathBytes(q) + y
    ensures p == q && x == y
  {
    Associate(Little(|p|, 4), p, x);
    Associate(Little(|q|, 4), q, y);
    PeelU32(|p|, p + x, |q|, q + y);
    Peel(p, x, q, y);
  }

  lemma HeaderUnique(g: Header, x: seq<byte>, h: Header, y: seq<byte>)
    requires HeaderShaped(g) && HeaderShaped(h) && HeaderBytes(g) + x == HeaderBytes(h) + y
    ensures g == h && x == y
  {
    var g3, h3 := Little(g.count, 8) + x, Little(h.count, 8) + y;
    var g2, h2 := PathBytes(g.path) + g3, PathBytes(h.path) + h3;
    var g1, h1 := Little(g.size, 8) + (g.digest + g2), Little(h.size, 8) + (h.digest + h2);
    assert HeaderBytes(g) + x == Little(g.mode, 4) + (Little(g.cylinder, 4) + g1);
    assert HeaderBytes(h) + y == Little(h.mode, 4) + (Little(h.cylinder, 4) + h1);
    PeelU32(g.mode, Little(g.cylinder, 4) + g1, h.mode, Little(h.cylinder, 4) + h1);
    PeelU32(g.cylinder, g1, h.cylinder, h1);
    PeelU64(g.size, g.digest + g2, h.size, h.digest + h2);
    Peel(g.digest, g2, h.digest, h2);
    PathUnique(g.path, g3, h.path, h3);
    PeelU64(g.count, x, h.count, y);
  }

  lemma SlotUnique(slot: nat, s: Slot, x: seq<byte>, t: Slot, y: seq<byte>)
    requires WellFormedSlot(slot, s) && WellFormedSlot(slot, t) && SlotBytes(s) + x == SlotBytes(t) + y
    ensures s == t && x == y
  {
    var a, b := Rest(s, x), Rest(t, y);
    PeelU32(Present(s), a, Present(t), b);
    if s.Saved? {
      var g, h := HeaderOf(s), HeaderOf(t);
      Associate(HeaderBytes(g), PagesBytes(s.pages), x);
      Associate(HeaderBytes(h), PagesBytes(t.pages), y);
      HeaderUnique(g, PagesBytes(s.pages) + x, h, PagesBytes(t.pages) + y);
      PagesUnique(s.size, s.pages, x, t.pages, y);
    }
  }

  function Present(s: Slot): u32 { if s.Empty? then 0 else 1 }

  // What follows the presence word of a slot.
  function Rest(s: Slot, x: seq<byte>): (r: seq<byte>)
    ensures SlotBytes(s) + x == Little(Present(s), 4) + r
  {
    if s.Empty? then x
    else
      Associate(Little(1, 4), HeaderBytes(HeaderOf(s)) + PagesBytes(s.pages), x);
      (HeaderBytes(HeaderOf(s)) + PagesBytes(s.pages)) + x
  }

  // A stream starts with at most one archive of a given number of slots. With the reader
  // returning an archive the stream starts with, it returns the archive that was written and
  // leaves exactly what follows it.
  lemma ArchiveUnique(a: seq<Slot>, x: seq<byte>, b: seq<Slot>, y: seq<byte>)
    requires |a| == |b| && WellFormed(a) && WellFormed(b) && ArchiveBytes(a) + x == ArchiveBytes(b) + y
    ensures a == b && x == y
  {
    forall n: nat, s, x, t, y | WellFormedSlot(n, s) && WellFormedSlot(n, t) && SlotBytes(s) + x == SlotBytes(t) + y
      ensures s == t && x == y
    {
      SlotUnique(n, s, x, t, y);
    }
    ListUnique(SlotBytes, WellFormedSlot, a, x, b, y);
  }
}
