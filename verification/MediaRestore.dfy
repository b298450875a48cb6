/**
 Capturing the attached media into an archive and restoring them from one.
 */
module MediaRestore {
  import opened Bytes
  import opened BlockHash
  import opened Sha256
  import opened SnapshotStream
  import opened MediaArchive
  import opened MediaDiff
  import M = Medium

  // The host's files by path.
  class Host {
    const files: map<seq<byte>, M.File>
    const reliable: bool  // it grants whatever is asked of it

    constructor (files: map<seq<byte>, M.File>, reliable: bool)
      ensures this.files == files && this.reliable == reliable
    {
      this.files, this.reliable := files, reliable;
    }

    // A failure that is not the host's.
    predicate Refuted(status: M.Status) {
      status == M.InvalidArgument || (reliable && (status == M.IoError || status == M.NoMemory))
    }

    // lib_storage_medium_open. A path may be missing, the host may refuse.
    method Open(path: seq<byte>, mode: M.Mode) returns (status: M.Status, medium: M.Medium?)
      ensures status == M.Ok || status == M.IoError || status == M.NoMemory
      ensures status == M.Ok <==> medium != null
      ensures reliable && path in files ==> status == M.Ok
      ensures medium != null ==>
        && medium.reliable == reliable && fresh(medium) && fresh(medium.pages) && medium.Valid() && medium.mode == mode
        && path in files && medium.file == files[path] && medium.Contents() == files[path].bytes
    {
      var failed: int := *;
      if (failed == 1 && !reliable) || path !in files { return M.IoError, null; }
      if failed == 2 && !reliable { return M.NoMemory, null; }
      medium := new M.Medium(files[path], |files[path].bytes|, mode, reliable);
      status := M.Ok;
    }
  }

  // Adds the next block of a medium to a hash of what precedes it.
  method HashBlockAt(medium: M.Medium, hash: MediaHash<Words>, offset: nat, count: nat)
      returns (status: M.Status, bytes: seq<byte>)
    requires medium.Valid() && Running(hash) && offset + count <= medium.byteCount
      && hash.Message == medium.Contents()[..offset]
    modifies hash, hash.block
    ensures (status == M.Ok || status == M.IoError) && (medium.reliable ==> status == M.Ok)
    ensures status == M.Ok ==> bytes == medium.Contents()[offset..offset + count]
    ensures status == M.Ok ==> Running(hash) && hash.Message == medium.Contents()[..offset + count]
  {
    status, bytes := medium.ReadAt(offset, count);
    if status != M.Ok { return; }
    assert medium.Contents()[..offset] + bytes == medium.Contents()[..offset + count];
    hash.Add(bytes);
  }

  // Adds all of a medium to an empty hash, block by block.
  method HashAll(medium: M.Medium, hash: MediaHash<Words>) returns (status: M.Status)
    requires medium.Valid() && Running(hash) && hash.Message == []
    modifies hash, hash.block
    ensures (status == M.Ok || status == M.IoError) && (medium.reliable ==> status == M.Ok)
    ensures status == M.Ok ==> Running(hash) && hash.Message == medium.Contents()
  {
    var offset := 0;
    while offset < medium.byteCount
      invariant offset <= medium.byteCount && Running(hash) && hash.Message == medium.Contents()[..offset]
    {
      var count := if medium.byteCount - offset > BLOCK_BYTES then BLOCK_BYTES else medium.byteCount - offset;
      var bytes;
      status, bytes := HashBlockAt(medium, hash, offset, count);
      if status != M.Ok { return; }
      offset := offset + count;
    }
    status := M.Ok;
  }

  // The digest of the logical bytes of a medium.
  method DigestOf(medium: M.Medium) returns (status: M.Status, digest: seq<byte>)
    requires medium.Valid()
    ensures (status == M.Ok || status == M.IoError) && (medium.reliable ==> status == M.Ok)
    ensures status == M.Ok ==> digest == Digest(medium.Contents())
  {
    digest := [];
    var hash := Start();
    status := HashAll(medium, hash);
    if status == M.Ok { digest := Finish(hash); }
  }

  // verify_base: the base has the recorded size and digest.
  method VerifyBase(s: Slot, base: M.Medium) returns (status: M.Status)
    requires s.Saved? && base.Valid()
    ensures status == M.Ok || status == M.InvalidArgument || (status == M.IoError && !base.reliable)
    ensures status == M.Ok ==> |base.Contents()| == s.size && Digest(base.Contents()) == s.digest
    ensures status == M.InvalidArgument ==> |base.Contents()| != s.size || Digest(base.Contents()) != s.digest
  {
    if base.byteCount != s.size { return M.InvalidArgument; }
    var digest;
    status, digest := DigestOf(base);
    if status == M.Ok && digest != s.digest { status := M.InvalidArgument; }
  }

  // ---------- the drives ----------

  datatype Attachment = Detached | Attached(medium: M.Medium, path: seq<byte>, mode: M.Mode, cylinder: nat)

  function Objects(a: Attachment): set<object?> {
    if a.Detached? then {} else {a.medium, a.medium.file, a.medium.pages}
  }

  ghost predicate Working(a: Attachment)
    reads Objects(a)
  {
    a.Attached? ==>
      a.medium.Valid() && a.medium.mode == a.mode && a.cylinder < U32_LIMIT && a.medium.byteCount < U64_LIMIT
  }

  // The base of an overlay is what its path names; other media are their own base.
  ghost function BaseOf(host: Host, a: Attachment): seq<byte>
    requires Working(a) && a.Attached?
    reads Objects(a), host.files.Values
  {
    if a.mode == M.Overlay && a.path in host.files then host.files[a.path].bytes else a.medium.Contents()
  }

  ghost function ViewOf(host: Host, a: Attachment): View
    requires Working(a)
    reads Objects(a), host.files.Values
  {
    if a.Detached? then NoMedium else View(a.mode, a.path, a.cylinder, BaseOf(host, a), a.medium.Contents())
  }

  // ---------- capturing ----------

  // The pages of the first k blocks, which only an overlay has.
  ghost function Kept(overlay: bool, was: seq<byte>, now: seq<byte>, k: nat): seq<SavedPage>
    requires |was| == |now| < U64_LIMIT && k <= Blocks(|was|)
  {
    if overlay then Diff(was, now, k) else []
  }

  // The second half of a turn of the loop of capture_slot: block k goes into the pages if it
  // differs from the original.
  method CaptureBlock(source: M.Medium, overlay: bool, original: seq<byte>, k: nat, pages: seq<SavedPage>,
      ghost was: seq<byte>)
    returns (status: M.Status, more: seq<SavedPage>)
    requires source.Valid() && |was| == source.byteCount < U64_LIMIT && k < Blocks(|was|) && original == Block(was, k)
    requires pages == Kept(overlay, was, source.Contents(), k)
    ensures (status == M.Ok || status == M.IoError || status == M.NoMemory) && (source.reliable ==> status == M.Ok)
    ensures status == M.Ok ==> more == Kept(overlay, was, source.Contents(), k + 1)
  {
    more, status := pages, M.Ok;
    if !overlay { return; }
    var effective;
    status, effective := source.ReadAt(k * BLOCK_BYTES, |original|);
    if status != M.Ok { return; }
    assert effective == Block(source.Contents(), k);
    if original != effective {
      var refused: bool := *;
      if refused && !source.reliable { return M.NoMemory, more; }
      more := pages + [SavedPage(k * BLOCK_BYTES, effective)];
    }
  }

  // The first k blocks of the origin are in the hash, and those of them that differ in the pages.
  ghost predicate Progress(source: M.Medium, origin: M.Medium, overlay: bool, hash: MediaHash<Words>, k: nat,
      pages: seq<SavedPage>)
    reads source, source.file, source.pages, origin, origin.file, origin.pages, hash, hash.block
  {
    && source.Valid() && origin.Valid() && origin.byteCount == source.byteCount < U64_LIMIT
       && k <= Blocks(source.byteCount)
    && Running(hash) && hash.Message == origin.Contents()[..Edge(source.byteCount, k)]
    && pages == Kept(overlay, origin.Contents(), source.Contents(), k)
  }

  // The first half of a turn: block k goes into the hash.
  method HashTurn(origin: M.Medium, hash: MediaHash<Words>, k: nat) returns (status: M.Status, original: seq<byte>)
    requires origin.Valid() && k < Blocks(origin.byteCount) && Running(hash)
      && hash.Message == origin.Contents()[..Edge(origin.byteCount, k)]
    modifies hash, hash.block
    ensures (status == M.Ok || status == M.IoError) && (origin.reliable ==> status == M.Ok)
    ensures status == M.Ok ==>
      Running(hash) && hash.Message == origin.Contents()[..Edge(origin.byteCount, k + 1)]
      && original == Block(origin.Contents(), k)
  {
    var offset := k * BLOCK_BYTES;
    var count := if origin.byteCount - offset > BLOCK_BYTES then BLOCK_BYTES else origin.byteCount - offset;
    status, original := HashBlockAt(origin, hash, offset, count);
  }

  method CaptureTurn(source: M.Medium, origin: M.Medium, overlay: bool, hash: MediaHash<Words>, k: nat,
      pages: seq<SavedPage>)
    returns (status: M.Status, more: seq<SavedPage>)
    requires Progress(source, origin, overlay, hash, k, pages) && k < Blocks(source.byteCount)
    modifies hash, hash.block
    ensures (status == M.Ok || status == M.IoError || status == M.NoMemory)
      && (source.reliable && origin.reliable ==> status == M.Ok)
    ensures status == M.Ok ==> Progress(source, origin, overlay, hash, k + 1, more)
  {
    more := pages;
    var original;
    status, original := HashTurn(origin, hash, k);
    if status != M.Ok { return; }
    status, more := CaptureBlock(source, overlay, original, k, pages, origin.Contents());
  }

  // The loop of capture_slot.
  method CaptureBlocks(source: M.Medium, origin: M.Medium, overlay: bool, hash: MediaHash<Words>)
      returns (status: M.Status, pages: seq<SavedPage>)
    requires Progress(source, origin, overlay, hash, 0, [])
    modifies hash, hash.block
    ensures (status == M.Ok || status == M.IoError || status == M.NoMemory)
      && (source.reliable && origin.reliable ==> status == M.Ok)
    ensures status == M.Ok ==> Running(hash) && hash.Message == origin.Contents()
    ensures status == M.Ok ==> pages == Kept(overlay, origin.Contents(), source.Contents(), Blocks(source.byteCount))
  {
    pages := [];
    var k := 0;
    while k < Blocks(source.byteCount)
      invariant k <= Blocks(source.byteCount) && Progress(source, origin, overlay, hash, k, pages)
    {
      status, pages := CaptureTurn(source, origin, overlay, hash, k, pages);
      if status != M.Ok { return; }
      k := k + 1;
    }
    ProgressEnds(source, origin, overlay, hash, k, pages);
    status := M.Ok;
  }

  lemma ProgressStarts(source: M.Medium, origin: M.Medium, overlay: bool, hash: MediaHash<Words>)
    requires source.Valid() && origin.Valid() && origin.byteCount == source.byteCount < U64_LIMIT && Running(hash)
      && hash.Message == []
    ensures Progress(source, origin, overlay, hash, 0, [])
  {
  }

  lemma ProgressEnds(source: M.Medium, origin: M.Medium, overlay: bool, hash: MediaHash<Words>, k: nat,
      pages: seq<SavedPage>)
    requires Progress(source, origin, overlay, hash, k, pages) && k >= Blocks(source.byteCount)
    ensures Running(hash) && hash.Message == origin.Contents()
    ensures pages == Kept(overlay, origin.Contents(), source.Contents(), Blocks(source.byteCount))
  {
    assert origin.Contents()[..Edge(source.byteCount, k)] == origin.Contents();
  }

  // The rest of capture_slot: the loop and the digest.
  method CaptureWith(source: M.Medium, origin: M.Medium, overlay: bool, hash: MediaHash<Words>, ghost was: seq<byte>,
      ghost now: seq<byte>)
    returns (status: M.Status, digest: seq<byte>, pages: seq<SavedPage>)
    requires Progress(source, origin, overlay, hash, 0, []) && was == origin.Contents() && now == source.Contents()
    modifies hash, hash.block
    ensures (status == M.Ok || status == M.IoError || status == M.NoMemory)
      && (source.reliable && origin.reliable ==> status == M.Ok)
    ensures status == M.Ok ==> digest == Digest(was) && pages == Kept(overlay, was, now, Blocks(|now|))
  {
    digest := [];
    status, pages := CaptureBlocks(source, origin, overlay, hash);
    if status == M.Ok { digest := Finish(hash); }
  }

  // A medium is captured: its slot but for its attachment.
  method CaptureMedium(source: M.Medium, origin: M.Medium, overlay: bool, ghost was: seq<byte>, ghost now: seq<byte>)
    returns (status: M.Status, digest: seq<byte>, pages: seq<SavedPage>)
    requires source.Valid() && origin.Valid() && origin.byteCount == source.byteCount < U64_LIMIT
    requires was == origin.Contents() && now == source.Contents()
    ensures (status == M.Ok || status == M.IoError || status == M.NoMemory)
      && (source.reliable && origin.reliable ==> status == M.Ok)
    ensures status == M.Ok ==> digest == Digest(was) && pages == Kept(overlay, was, now, Blocks(|now|))
  {
    var hash := Start();
    ProgressStarts(source, origin, overlay, hash);
    status, digest, pages := CaptureWith(source, origin, overlay, hash, was, now);
  }

  // A slot of an archive is what is kept of a view.
  ghost predicate SavedAs(s: Slot, v: View) { Storable(v) && s == SlotOf(Digest, v) }

  // A view that does not fit a slot.
  predicate Unsavable(v: View) { v.View? && (|v.path| >= PATH_MAX || !Storable(v)) }

  // The host serves a drive: it fails nothing, and the base of an overlay is still there.
  predicate Served(host: Host, a: Attachment) {
    host.reliable && (a.Attached? ==> a.medium.reliable && (a.mode == M.Overlay ==> a.path in host.files))
  }

  // What the hash of a capture is taken over: the base of an overlay, opened by its path, or the
  // medium itself.
  method OpenOrigin(host: Host, a: Attachment, ghost v: View) returns (status: M.Status, origin: M.Medium?)
    requires Working(a) && a.Attached? && v == ViewOf(host, a)
    ensures status != M.InvalidState && (Served(host, a) ==> status == M.Ok || status == M.InvalidArgument)
    ensures status == M.InvalidArgument ==> Unsavable(v)
    ensures status == M.Ok ==>
      && origin != null && origin.Valid() && origin.byteCount == a.medium.byteCount
      && origin.Contents() == v.base && (Served(host, a) ==> origin.reliable)
  {
    if a.mode != M.Overlay { return M.Ok, a.medium; }
    status, origin := host.Open(a.path, M.ReadOnly);
    if status == M.Ok && origin.byteCount != a.medium.byteCount { status := M.InvalidArgument; }
  }

  lemma CapturedAs(v: View, digest: seq<byte>, pages: seq<SavedPage>)
    requires v.View? && Storable(v) && digest == Digest(v.base)
    requires pages == Kept(v.mode == M.Overlay, v.base, v.contents, Blocks(|v.contents|))
    ensures SavedAs(Saved(v.mode, v.cylinder, |v.contents|, digest, v.path, pages), v)
  {
  }

  // The hash and the pages of an attached medium.
  method CaptureAttached(host: Host, a: Attachment, ghost v: View)
      returns (status: M.Status, digest: seq<byte>, pages: seq<SavedPage>)
    requires Working(a) && a.Attached? && v == ViewOf(host, a)
    ensures status == M.Ok ==> Storable(v) && digest == Digest(v.base)
    ensures status == M.Ok ==> pages == Kept(v.mode == M.Overlay, v.base, v.contents, Blocks(|v.contents|))
    ensures status == M.InvalidArgument ==> Unsavable(v)
    ensures status != M.InvalidState && (Served(host, a) ==> status == M.Ok || status == M.InvalidArgument)
  {
    digest, pages := [], [];
    var origin;
    status, origin := OpenOrigin(host, a, v);
    if status != M.Ok { return; }
    status, digest, pages := CaptureMedium(a.medium, origin, a.mode == M.Overlay, v.base, v.contents);
  }

  // capture_slot.
  method CaptureSlot(host: Host, a: Attachment, ghost v: View) returns (status: M.Status, s: Slot)
    requires Working(a) && v == ViewOf(host, a)
    ensures status == M.Ok ==> SavedAs(s, v)
    ensures status == M.InvalidArgument ==> Unsavable(v)
    ensures status != M.InvalidState && (Served(host, a) ==> status == M.Ok || status == M.InvalidArgument)
  {
    s := Empty;
    if a.Detached? { return M.Ok, s; }
    if |a.path| >= PATH_MAX { return M.InvalidArgument, s; }
    var pages, digest;
    status, digest, pages := CaptureAttached(host, a, v);
    if status != M.Ok { return; }
    CapturedAs(v, digest, pages);
    s := Saved(a.mode, a.cylinder, a.medium.byteCount, digest, a.path, pages);
    var failed: bool := *;
    if failed && !host.reliable && a.mode == M.Overlay { status := M.IoError; }
  }
}
