/**
 What a snapshot keeps of an attached medium: where it came from, and the blocks in which it
 differs from its base image.
 */
module MediaDiff {
  import opened Bytes
  import opened MediaArchive
  import opened SnapshotStream
  import M = Medium

  // The number of blocks of an image.
  function Blocks(size: nat): (k: nat)
    ensures k * BLOCK_BYTES >= size && (k > 0 ==> (k - 1) * BLOCK_BYTES < size)
  {
    (size + BLOCK_BYTES - 1) / BLOCK_BYTES
  }

  // Where the first k blocks end.
  function Edge(size: nat, k: nat): nat { if k * BLOCK_BYTES < size then k * BLOCK_BYTES else size }

  function Block(s: seq<byte>, k: nat): (r: seq<byte>)
    requires k * BLOCK_BYTES < |s|
    ensures |r| == BlockLength(|s|, k * BLOCK_BYTES)
  {
    s[k * BLOCK_BYTES..Edge(|s|, k + 1)]
  }

  // The pages of the first k blocks of `now` that are not as in `base`.
  function Diff(base: seq<byte>, now: seq<byte>, k: nat): seq<SavedPage>
    requires |base| == |now| < U64_LIMIT && k <= Blocks(|base|)
  {
    if k == 0 then []
    else Diff(base, now, k - 1) +
         if Block(base, k - 1) == Block(now, k - 1) then [] else [SavedPage((k - 1) * BLOCK_BYTES, Block(now, k - 1))]
  }

  // An image with some pages put over it, in order.
  function Apply(base: seq<byte>, pages: seq<SavedPage>): (r: seq<byte>)
    requires PagesFit(|base|, pages)
    ensures |r| == |base|
  {
    if pages == [] then base
    else
      var n := |pages| - 1;
      Overwrite(Apply(base, pages[..n]), pages[n].offset, pages[n].bytes)
  }

  // A block is a page that fits behind any page of an earlier block.
  lemma BlockPageFits(now: seq<byte>, k: nat, first: nat)
    requires |now| < U64_LIMIT && k < Blocks(|now|) && first <= k * BLOCK_BYTES
    ensures k * BLOCK_BYTES < |now| && PageFits(|now|, first, k * BLOCK_BYTES, |Block(now, k)|)
  {
  }

  lemma PagesFitMore(size: nat, pages: seq<SavedPage>, page: SavedPage)
    requires PagesFit(size, pages) && PageFits(size, After(pages), page.offset, |page.bytes|)
    ensures PagesFit(size, pages + [page]) && After(pages + [page]) == page.offset + 1
  {
    assert (pages + [page])[..|pages|] == pages;
  }

  // The pages of a difference are in order, aligned and exactly sized.
  lemma {:induction false} DiffFits(base: seq<byte>, now: seq<byte>, k: nat)
    requires |base| == |now| < U64_LIMIT && k <= Blocks(|base|)
    ensures PagesFit(|base|, Diff(base, now, k)) && (k > 0 ==> After(Diff(base, now, k)) <= (k - 1) * BLOCK_BYTES + 1)
    ensures k == 0 ==> Diff(base, now, k) == []
  {
    if k > 0 {
      DiffFits(base, now, k - 1);
      var d := Diff(base, now, k - 1);
      if Block(base, k - 1) == Block(now, k - 1) {
        assert d + [] == d;
      } else {
        BlockPageFits(now, k - 1, After(d));
        PagesFitMore(|base|, d, SavedPage((k - 1) * BLOCK_BYTES, Block(now, k - 1)));
      }
    }
  }

  // The first k blocks of `now` and the rest of the base.
  ghost function Mixed(base: seq<byte>, now: seq<byte>, k: nat): (r: seq<byte>)
    requires |base| == |now|
    ensures |r| == |base| && (k == 0 ==> r == base)
  {
    now[..Edge(|base|, k)] + base[Edge(|base|, k)..]
  }

  // What the difference makes of the base.
  ghost function Patched(base: seq<byte>, now: seq<byte>, k: nat): seq<byte>
    requires |base| == |now| < U64_LIMIT && k <= Blocks(|base|)
  {
    DiffFits(base, now, k);
    Apply(base, Diff(base, now, k))
  }

  lemma {:induction false} PatchedIsMixed(base: seq<byte>, now: seq<byte>, k: nat)
    requires |base| == |now| < U64_LIMIT && k <= Blocks(|base|)
    ensures Patched(base, now, k) == Mixed(base, now, k)
  {
    if k > 0 {
      PatchedIsMixed(base, now, k - 1);
      PatchedMore(base, now, k - 1, k, Mixed(base, now, k - 1));
    } else {
      assert Diff(base, now, k) == [];
    }
  }

  lemma PatchedMore(base: seq<byte>, now: seq<byte>, k: nat, next: nat, x: seq<byte>)
    requires |base| == |now| < U64_LIMIT && k < Blocks(|base|) && next == k + 1
    requires Patched(base, now, k) == x == Mixed(base, now, k)
    ensures Patched(base, now, next) == Mixed(base, now, next)
  {
    NextBlock(base, now, k, next);
    PatchedGrows(base, now, k, next, x, Mixed(base, now, next));
  }

  // Putting the difference over the base gives the first k blocks of `now`, though only the
  // blocks that differ were kept.
  lemma DiffApplies(base: seq<byte>, now: seq<byte>, k: nat)
    requires |base| == |now| < U64_LIMIT && k <= Blocks(|base|)
    ensures PagesFit(|base|, Diff(base, now, k)) && Apply(base, Diff(base, now, k)) == Mixed(base, now, k)
  {
    DiffFits(base, now, k);
    PatchedIsMixed(base, now, k);
  }

  // Block k of `now` makes y of x, unless it is as in the base.
  ghost predicate NextOf(base: seq<byte>, now: seq<byte>, k: nat, x: seq<byte>, y: seq<byte>)
    requires |base| == |now| && k * BLOCK_BYTES < |base|
  {
    && |x| == |base| && k * BLOCK_BYTES + |Block(now, k)| <= |base|
    && y == if Block(base, k) == Block(now, k) then x else Overwrite(x, k * BLOCK_BYTES, Block(now, k))
  }

  lemma PatchedGrows(base: seq<byte>, now: seq<byte>, k: nat, next: nat, x: seq<byte>, y: seq<byte>)
    requires |base| == |now| < U64_LIMIT && k < Blocks(|base|) && next == k + 1
    requires Patched(base, now, k) == x && NextOf(base, now, k, x, y)
    ensures Patched(base, now, next) == y
  {
    DiffFits(base, now, k);
    DiffFits(base, now, next);
    var d := Diff(base, now, k);
    if Block(base, k) == Block(now, k) {
      assert Diff(base, now, next) == d;
    } else {
      ApplyOne(base, d, SavedPage(k * BLOCK_BYTES, Block(now, k)));
    }
  }

  // One more block of `now` over the base.
  lemma NextBlock(base: seq<byte>, now: seq<byte>, k: nat, next: nat)
    requires |base| == |now| && k < Blocks(|base|) && next == k + 1
    ensures k * BLOCK_BYTES < |base| && NextOf(base, now, k, Mixed(base, now, k), Mixed(base, now, next))
  {
    assert Edge(|base|, k) == k * BLOCK_BYTES;
    Mix(base, now, k * BLOCK_BYTES, Edge(|base|, next));
  }

  lemma Mix(base: seq<byte>, now: seq<byte>, at: nat, end: nat)
    requires at <= end <= |base| == |now|
    ensures base[at..end] == now[at..end] ==> now[..at] + base[at..] == now[..end] + base[end..]
    ensures Overwrite(now[..at] + base[at..], at, now[at..end]) == now[..end] + base[end..]
  {
    assert now[..end] == now[..at] + now[at..end] && base[at..] == base[at..end] + base[end..];
  }

  lemma ApplyOne(base: seq<byte>, pages: seq<SavedPage>, page: SavedPage)
    requires PagesFit(|base|, pages + [page])
    ensures PagesFit(|base|, pages) && page.offset + |page.bytes| <= |base|
    ensures Apply(base, pages + [page]) == Overwrite(Apply(base, pages), page.offset, page.bytes)
  {
    assert (pages + [page])[..|pages|] == pages;
  }

  // ---------- attached media ----------

  // A drive of the machine as the user sees it: nothing, or a medium with these logical bytes
  // over this base image.
  datatype View = NoMedium | View(mode: M.Mode, path: seq<byte>, cylinder: nat, base: seq<byte>, contents: seq<byte>)

  // What the drives accept: a floppy of whole sectors (slots 0 and 1), a fixed disk (2 and 3).
  const FLOPPY_LIMIT := 0x7fff_ffff
  const DISK_LIMIT := 0x8000_0000

  predicate ValidView(slot: nat, v: View) {
    v.View? ==>
      && 1 <= |v.path| < PATH_MAX && 0 !in v.path && |v.base| == |v.contents| && 512 <= |v.contents|
      && |v.contents| <= (if slot < 2 then FLOPPY_LIMIT else DISK_LIMIT)
      && (slot < 2 ==> |v.contents| % 512 == 0) && v.cylinder <= (if slot < 2 then 255 else 0)
      && (v.mode != M.Overlay ==> v.contents == v.base)
  }

  predicate Storable(v: View) { v.View? ==> |v.base| == |v.contents| < U64_LIMIT && v.cylinder < U32_LIMIT }

  // The slot a snapshot keeps for it, for some digest function.
  function SlotOf(digest: seq<byte> -> seq<byte>, v: View): Slot
    requires Storable(v)
  {
    if v.NoMedium? then Empty
    else Saved(v.mode, v.cylinder, |v.contents|, digest(v.base), v.path,
               if v.mode == M.Overlay then Diff(v.base, v.contents, Blocks(|v.base|)) else [])
  }

  // Every captured slot of a valid medium passes the reader.
  lemma CapturedIsWellFormed(digest: seq<byte> -> seq<byte>, slot: nat, v: View)
    requires ValidView(slot, v) && (v.View? ==> |digest(v.base)| == 32)
    ensures Storable(v) && WellFormedSlot(slot, SlotOf(digest, v)) && Plain(SlotOf(digest, v))
  {
    if v.View? && v.mode == M.Overlay {
      var pages := Diff(v.base, v.contents, Blocks(|v.base|));
      DiffFits(v.base, v.contents, Blocks(|v.base|));
      PagesAreFew(|v.base|, pages);
    }
  }

  // Putting the captured pages over the base gives the captured contents.
  lemma CapturedIsComplete(digest: seq<byte> -> seq<byte>, slot: nat, v: View)
    requires ValidView(slot, v) && v.View?
    ensures PagesFit(|v.base|, SlotOf(digest, v).pages) && Apply(v.base, SlotOf(digest, v).pages) == v.contents
  {
    if v.mode == M.Overlay {
      var k := Blocks(|v.base|);
      DiffApplies(v.base, v.contents, k);
      assert Edge(|v.base|, k) == |v.base|;
      assert v.contents[..|v.base|] + v.base[|v.base|..] == v.contents;
    }
  }
}
