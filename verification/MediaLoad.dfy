/**
 Preparing and restoring the media of a snapshot: the base images are verified first, then every
 drive is emptied and refilled.
 */
module MediaLoad {
  import opened Bytes
  import opened Sha256
  import opened SnapshotStream
  import opened MediaArchive
  import opened MediaArchiveStream
  import opened MediaDiff
  import opened MediaRestore
  import M = Medium

  // The file a slot names has the recorded size and digest.
  ghost predicate Matches(host: Host, s: Slot)
    requires s.Saved?
    reads host.files.Values
  {
    && Text(s.path) in host.files && |host.files[Text(s.path)].bytes| == s.size
    && Digest(host.files[Text(s.path)].bytes) == s.digest
  }

  // ---------- preparing ----------

  // A live medium that is not an overlay is the file its path names.
  ghost predicate Live(host: Host, a: Attachment)
    reads Objects(a), host.files.Values
  {
    && Working(a) && (a.Attached? && host.reliable ==> a.medium.reliable)
    && (a.Attached? && a.mode != M.Overlay ==> a.path in host.files && a.medium.file == host.files[a.path])
  }

  lemma PlainContents(medium: M.Medium)
    requires medium.Valid() && medium.mode != M.Overlay
    ensures medium.file != null && medium.Contents() == medium.file.bytes
  {
    medium.ContentsAt();
  }

  // The search of media_prepare_slot: a live medium on the same path, other than an overlay.
  method FindBase(host: Host, drives: seq<Attachment>, path: seq<byte>) returns (base: M.Medium?)
    requires forall i :: 0 <= i < |drives| ==> Live(host, drives[i])
    ensures base != null ==>
      base.Valid() && path in host.files && base.Contents() == host.files[path].bytes
      && (host.reliable ==> base.reliable)
  {
    base := null;
    var i := 0;
    while i < |drives| && base == null
      invariant i <= |drives|
      invariant base != null ==>
        base.Valid() && path in host.files && base.Contents() == host.files[path].bytes
        && (host.reliable ==> base.reliable)
    {
      var a := drives[i];
      if a.Attached? && a.path == path && a.mode != M.Overlay {
        PlainContents(a.medium);
        base := a.medium;
      }
      i := i + 1;
    }
  }

  // A live medium, or the file opened by its path.
  method PickBase(host: Host, drives: seq<Attachment>, path: seq<byte>) returns (status: M.Status, base: M.Medium?)
    requires forall i :: 0 <= i < |drives| ==> Live(host, drives[i])
    ensures (status == M.Ok || status == M.IoError || status == M.NoMemory)
      && (host.Refuted(status) ==> path !in host.files)
    ensures status == M.Ok ==>
      base != null && base.Valid() && path in host.files && base.Contents() == host.files[path].bytes
        && (host.reliable ==> base.reliable)
  {
    status := M.Ok;
    base := FindBase(host, drives, path);
    if base == null { status, base := host.Open(path, M.ReadOnly); }
  }

  // media_prepare_slot.
  method PrepareSlot(host: Host, drives: seq<Attachment>, s: Slot) returns (status: M.Status)
    requires forall i :: 0 <= i < |drives| ==> Live(host, drives[i])
    ensures status != M.InvalidState && (status == M.Ok && s.Saved? ==> Matches(host, s))
    ensures host.Refuted(status) ==> s.Saved? && !Matches(host, s)
  {
    if s.Empty? { return M.Ok; }
    var base;
    status, base := PickBase(host, drives, Text(s.path));
    if status != M.Ok { return; }
    status := VerifyBase(s, base);
    var failed: bool := *;
    if failed && !host.reliable && status == M.Ok { status := M.IoError; }
  }

  // ---------- restoring one slot ----------

  // What the pages of a slot make of the file it names.
  ghost predicate Rebuilt(host: Host, s: Slot, medium: M.Medium)
    requires s.Saved?
    reads host.files.Values, medium, medium.file, medium.pages
  {
    && Matches(host, s) && PagesFit(s.size, s.pages) && medium.Valid() && medium.mode == s.mode
    && medium.file == host.files[Text(s.path)]
    && medium.Contents() == Apply(host.files[Text(s.path)].bytes, s.pages)
  }

  // media_apply_pages.
  method ApplyPages(medium: M.Medium, pages: seq<SavedPage>) returns (status: M.Status)
    requires medium.Valid() && medium.mode == M.Overlay && PagesFit(medium.byteCount, pages)
    modifies medium.pages
    ensures medium.Valid() && (status == M.Ok || status == M.IoError || status == M.NoMemory)
      && (medium.reliable ==> status == M.Ok)
    ensures status == M.Ok ==> medium.Contents() == Apply(old(medium.Contents()), pages)
  {
    ghost var base := medium.Contents();
    var p := 0;
    status := M.Ok;
    while p < |pages| && status == M.Ok
      invariant p <= |pages| && PagesFit(medium.byteCount, pages[..p]) && medium.Valid()
      invariant (status == M.Ok || status == M.IoError || status == M.NoMemory) && (medium.reliable ==> status == M.Ok)
      invariant status == M.Ok ==> medium.Contents() == Apply(base, pages[..p])
    {
      PagesAscend(medium.byteCount, pages, p);
      status := ApplyPage(medium, pages[p]);
      assert pages[..p + 1] == pages[..p] + [pages[p]] && pages[..p + 1][..p] == pages[..p];
      p := p + 1;
    }
    assert pages[..|pages|] == pages;
  }

  method ApplyPage(medium: M.Medium, page: SavedPage) returns (status: M.Status)
    requires medium.Valid() && medium.mode == M.Overlay && page.offset + |page.bytes| <= medium.byteCount
    modifies medium.pages
    ensures medium.Valid() && (status == M.Ok || status == M.IoError || status == M.NoMemory)
      && (medium.reliable ==> status == M.Ok)
    ensures status == M.Ok ==> medium.Contents() == Overwrite(old(medium.Contents()), page.offset, page.bytes)
  {
    ghost var before, done := medium.Contents(), 0;
    status, done := medium.WriteAt(page.offset, page.bytes);
    if status == M.Ok {
      WrittenIsOverwrite(before, page.offset, page.bytes, |page.bytes|);
      assert page.bytes[..|page.bytes|] == page.bytes;
    }
  }

  // The file a slot names, opened and verified.
  method OpenVerified(host: Host, s: Slot) returns (status: M.Status, medium: M.Medium?)
    requires s.Saved?
    ensures status != M.InvalidState && (host.Refuted(status) ==> !Matches(host, s))
    ensures status == M.Ok ==>
      medium != null && fresh(medium) && fresh(medium.pages) && medium.reliable == host.reliable
    ensures status == M.Ok ==> Matches(host, s) && medium.Valid() && medium.mode == s.mode
    ensures status == M.Ok ==>
      medium.file == host.files[Text(s.path)] && medium.Contents() == host.files[Text(s.path)].bytes
  {
    status, medium := host.Open(Text(s.path), s.mode);
    if status == M.Ok { status := VerifyBase(s, medium); }
  }

  // The first half of a turn of the restore loop: open the path, verify it, apply the pages.
  method Rebuild(host: Host, s: Slot) returns (status: M.Status, medium: M.Medium?)
    requires s.Saved? && PagesFit(s.size, s.pages) && (s.mode != M.Overlay ==> s.pages == [])
    ensures status != M.InvalidState && (host.Refuted(status) ==> !Matches(host, s))
    ensures status == M.Ok ==>
      medium != null && fresh(medium) && fresh(medium.pages) && medium.reliable == host.reliable
    ensures status == M.Ok ==> Rebuilt(host, s, medium)
  {
    status, medium := OpenVerified(host, s);
    if status == M.Ok && s.mode == M.Overlay { status := ApplyPages(medium, s.pages); }
  }

  // ---------- the drives ----------

  // What a drive takes: floppy A whole sectors, the fixed disks at least one sector.
  predicate Accepts(slot: nat, size: nat, cylinder: nat, path: seq<byte>) {
    && |path| < PATH_MAX && 512 <= size
    && if slot < 2 then slot == 0 && cylinder <= 255 && size <= FLOPPY_LIMIT && size % 512 == 0 else size <= DISK_LIMIT
  }

  // The drive holds what was saved; a fixed disk has no cylinder.
  ghost predicate Refilled(host: Host, slot: nat, a: Attachment, s: Slot)
    reads Objects(a), host.files.Values
  {
    if s.Empty? then a.Detached?
    else
      && a.Attached? && a.path == Text(s.path) && a.mode == s.mode && a.cylinder == (if slot < 2 then s.cylinder else 0)
      && Rebuilt(host, s, a.medium)
  }

  // softpc_floppy_media_restore and softpc_hdd_media_restore with a replacement, on an empty drive.
  method Attach(drives: array<Attachment>, slot: nat, medium: M.Medium, path: seq<byte>, mode: M.Mode, cylinder: nat)
      returns (status: M.Status)
    requires slot < drives.Length == SLOTS
    modifies drives
    ensures status == if Accepts(slot, medium.byteCount, cylinder, path) then M.Ok else M.InvalidArgument
    ensures forall i :: 0 <= i < SLOTS && i != slot ==> drives[i] == old(drives[i])
    ensures status == M.Ok ==> drives[slot] == Attached(medium, path, mode, if slot < 2 then cylinder else 0)
  {
    if |path| >= PATH_MAX { return M.InvalidArgument; }
    if slot < 2 {
      if cylinder > 255 || slot != 0 || medium.byteCount > FLOPPY_LIMIT { return M.InvalidArgument; }
      drives[slot] := Attached(medium, path, mode, if drives[slot].Attached? then drives[slot].cylinder else 0);
      if medium.byteCount % 512 != 0 || medium.byteCount / 512 < 1 { return M.InvalidArgument; }
      drives[slot] := Attached(medium, path, mode, cylinder);
    } else {
      if medium.byteCount < 512 || medium.byteCount > DISK_LIMIT { return M.InvalidArgument; }
      drives[slot] := Attached(medium, path, mode, 0);
    }
    status := M.Ok;
  }

  // The first loop of the restore. Floppy B is never touched; closing a medium may fail.
  method DetachAll(host: Host, drives: array<Attachment>) returns (status: M.Status)
    requires drives.Length == SLOTS
    modifies drives
    ensures drives[1] == old(drives[1])
    ensures (status == M.IoError && !host.reliable)
      || (status == M.Ok && drives[0].Detached? && drives[2].Detached? && drives[3].Detached?)
  {
    var i := 0;
    while i < SLOTS
      invariant i <= SLOTS && drives[1] == old(drives[1])
      invariant forall j :: 0 <= j < i && j != 1 ==> drives[j].Detached?
    {
      if i != 1 {
        drives[i] := Detached;
        var failed: bool := *;
        if failed && !host.reliable { return M.IoError; }
      }
      i := i + 1;
    }
    status := M.Ok;
  }

  // A turn of the second loop of the restore.
  method RestoreSlot(host: Host, drives: array<Attachment>, slot: nat, s: Slot) returns (status: M.Status)
    requires slot < drives.Length == SLOTS && WellFormedSlot(slot, s) && drives[slot].Detached?
    modifies drives
    ensures status != M.InvalidState
    ensures forall i :: 0 <= i < SLOTS && i != slot ==> drives[i] == old(drives[i])
    ensures status == M.Ok ==> Refilled(host, slot, drives[slot], s)
    ensures host.Refuted(status) ==> s.Saved? && (Matches(host, s) ==> !Accepts(slot, s.size, s.cylinder, Text(s.path)))
  {
    if s.Empty? { return M.Ok; }
    var medium;
    status, medium := Rebuild(host, s);
    if status != M.Ok { return; }
    status := Attach(drives, slot, medium, Text(s.path), s.mode, s.cylinder);
  }

  // ---------- the whole archive ----------

  // The file of a slot is what was recorded, and its drive takes it.
  ghost predicate Fits(host: Host, slot: nat, s: Slot)
    reads host.files.Values
  {
    s.Saved? ==> Matches(host, s) && Accepts(slot, s.size, s.cylinder, Text(s.path))
  }

  ghost predicate Unfit(host: Host, slots: seq<Slot>)
    reads host.files.Values
  {
    exists i :: 0 <= i < |slots| && !Fits(host, i, slots[i])
  }

  // Every drive up to n holds what was saved, and the rest are empty.
  ghost predicate RefilledTo(host: Host, drives: array<Attachment>, slots: seq<Slot>, n: nat)
    requires n <= |slots| == drives.Length
    reads drives, set i, o | 0 <= i < drives.Length && o in Objects(drives[i]) :: o, host.files.Values
  {
    && (forall i :: 0 <= i < n ==> Refilled(host, i, drives[i], slots[i]))
    && (forall i :: n <= i < |slots| ==> drives[i].Detached?)
  }

  // The files of the first n slots are what was recorded.
  ghost predicate AllMatch(host: Host, slots: seq<Slot>, n: nat)
    requires n <= |slots|
    reads host.files.Values
  {
    forall i :: 0 <= i < n && slots[i].Saved? ==> Matches(host, slots[i])
  }

  lemma MatchesMore(host: Host, slots: seq<Slot>, i: nat, status: M.Status)
    requires i < |slots| && AllMatch(host, slots, i) && (status == M.Ok && slots[i].Saved? ==> Matches(host, slots[i]))
    requires host.Refuted(status) ==> slots[i].Saved? && !Matches(host, slots[i])
    ensures (status == M.Ok ==> AllMatch(host, slots, i + 1)) && (host.Refuted(status) ==> Unfit(host, slots))
  {
    if host.Refuted(status) { assert !Fits(host, i, slots[i]); }
  }

  class SavedMedia {
    const slots: seq<Slot>
    var prepared: bool

    constructor (slots: seq<Slot>)
      ensures this.slots == slots && !prepared
    {
      this.slots, prepared := slots, false;
    }

    // softpc_media_archive_prepare. Nothing but the mark on the archive changes.
    method Prepare(host: Host, drives: seq<Attachment>) returns (status: M.Status)
      requires |slots| == SLOTS && forall i :: 0 <= i < |drives| ==> Live(host, drives[i])
      modifies this
      ensures status != M.InvalidState && prepared == (status == M.Ok)
      ensures status == M.Ok ==> slots[1].Empty? && slots[3].Empty?
      ensures status == M.Ok ==> AllMatch(host, slots, SLOTS)
      ensures host.Refuted(status) ==> slots[1].Saved? || slots[3].Saved? || Unfit(host, slots)
    {
      prepared := false;
      if slots[1].Saved? || slots[3].Saved? { return M.InvalidArgument; }
      var i := 0;
      while i < SLOTS
        invariant i <= SLOTS && !prepared && AllMatch(host, slots, i)
      {
        status := PrepareNext(host, drives, i);
        if status != M.Ok { return; }
        i := i + 1;
      }
      prepared := true;
      status := M.Ok;
    }

    method PrepareNext(host: Host, drives: seq<Attachment>, i: nat) returns (status: M.Status)
      requires i < |slots| && AllMatch(host, slots, i) && forall i :: 0 <= i < |drives| ==> Live(host, drives[i])
      ensures status != M.InvalidState && (status == M.Ok ==> AllMatch(host, slots, i + 1))
        && (host.Refuted(status) ==> Unfit(host, slots))
    {
      status := PrepareSlot(host, drives, slots[i]);
      MatchesMore(host, slots, i, status);
    }

    // softpc_media_archive_restore.
    method Restore(host: Host, drives: array<Attachment>) returns (status: M.Status)
      requires drives.Length == |slots| == SLOTS && WellFormed(slots) && drives[1].Detached?
      modifies this, drives
      ensures !prepared && (status == M.InvalidState <==> !old(prepared))
      ensures status == M.InvalidState ==> drives[..] == old(drives[..])
      ensures host.Refuted(status) ==> Unfit(host, slots)
      ensures status == M.Ok ==> RefilledTo(host, drives, slots, SLOTS)
    {
      if !prepared { return M.InvalidState; }
      prepared := false;
      status := DetachAll(host, drives);
      if status != M.Ok { return; }
      var i := 0;
      while i < SLOTS
        invariant i <= SLOTS && !prepared && RefilledTo(host, drives, slots, i)
      {
        status := RestoreNext(host, drives, i);
        if status != M.Ok { return; }
        i := i + 1;
      }
      status := M.Ok;
    }

    method RestoreNext(host: Host, drives: array<Attachment>, i: nat) returns (status: M.Status)
      requires i < drives.Length == |slots| == SLOTS && WellFormed(slots) && RefilledTo(host, drives, slots, i)
      modifies drives
      ensures status != M.InvalidState && (host.Refuted(status) ==> Unfit(host, slots))
      ensures status == M.Ok ==> RefilledTo(host, drives, slots, i + 1)
    {
      WellFormedAt(slots, i);
      status := RestoreSlot(host, drives, i, slots[i]);
    }
  }
}
