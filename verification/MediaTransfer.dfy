/**
 Saving the attached media of the machine into a snapshot stream and loading them from one.
 */
module MediaTransfer {
  import opened Bytes
  import opened Sha256
  import opened SnapshotStream
  import opened MediaArchive
  import opened MediaArchiveStream
  import opened MediaDiff
  import opened MediaRestore
  import opened MediaLoad
  import M = Medium

  // ---------- saving ----------

  // Two sequences agree item by item.
  ghost predicate Pairs<A, B>(agree: (A, B) -> bool, xs: seq<A>, ys: seq<B>) {
    |xs| == |ys| &&
    (xs == [] ||
     var n := |xs| - 1;
     Pairs(agree, xs[..n], ys[..n]) && agree(xs[n], ys[n]))
  }

  lemma PairsMore<A, B>(agree: (A, B) -> bool, xs: seq<A>, x: A, ys: seq<B>)
    requires |xs| < |ys| && Pairs(agree, xs, ys[..|xs|]) && agree(x, ys[|xs|])
    ensures Pairs(agree, xs + [x], ys[..|xs| + 1])
  {
    assert ys[..|xs| + 1][..|xs|] == ys[..|xs|] && (xs + [x])[..|xs|] == xs;
  }

  // Slot by slot, an archive is what is kept of some views.
  ghost predicate Captures(archive: seq<Slot>, views: seq<View>) { Pairs(SavedAs, archive, views) }

  lemma SavedIsWellFormed(slot: nat, s: Slot, v: View)
    requires SavedAs(s, v) && ValidView(slot, v)
    ensures WellFormedSlot(slot, s) && Plain(s)
  {
    CapturedIsWellFormed(Digest, slot, v);
  }

  lemma {:induction false} CapturedWellFormed(archive: seq<Slot>, views: seq<View>)
    requires Captures(archive, views) && Each(ValidView, views)
    ensures WellFormed(archive)
  {
    if views != [] {
      var n := |views| - 1;
      CapturedWellFormed(archive[..n], views[..n]);
      SavedIsWellFormed(n, archive[n], views[n]);
    }
  }

  lemma CapturedArchive(archive: seq<Slot>, views: seq<View>)
    requires Captures(archive, views) && Each(ValidView, views)
    ensures WellFormed(archive) && forall i :: 0 <= i < |archive| ==> Plain(archive[i])
  {
    CapturedWellFormed(archive, views);
    forall i | 0 <= i < |archive| ensures Plain(archive[i]) {
      CapturesAt(archive, views, i);
      SavedIsWellFormed(i, archive[i], views[i]);
    }
  }

  lemma CapturesMore(archive: seq<Slot>, s: Slot, views: seq<View>)
    requires |archive| < |views| && Captures(archive, views[..|archive|]) && SavedAs(s, views[|archive|])
    ensures Captures(archive + [s], views[..|archive| + 1])
  {
    PairsMore(SavedAs, archive, s, views);
  }

  // The views of some drives.
  ghost predicate Shows(host: Host, drives: seq<Attachment>, views: seq<View>)
    reads set a, o | a in drives && o in Objects(a) :: o, host.files.Values
  {
    |drives| == |views| && forall i :: 0 <= i < |drives| ==> Working(drives[i]) && views[i] == ViewOf(host, drives[i])
  }

  // The host serves all of them.
  predicate AllServed(host: Host, drives: seq<Attachment>) { forall i :: 0 <= i < |drives| ==> Served(host, drives[i]) }

  // Some view cannot be captured.
  ghost predicate Uncapturable(views: seq<View>) { exists i :: 0 <= i < |views| && Unsavable(views[i]) }

  // One turn of the loop below.
  method CaptureNext(host: Host, drives: seq<Attachment>, archive: seq<Slot>, ghost views: seq<View>)
      returns (status: M.Status, more: seq<Slot>)
    requires Shows(host, drives, views) && |archive| < |drives| && Captures(archive, views[..|archive|])
    ensures status != M.InvalidState && (AllServed(host, drives) ==> status == M.Ok || status == M.InvalidArgument)
    ensures status == M.InvalidArgument ==> Uncapturable(views)
    ensures status == M.Ok ==> |more| == |archive| + 1 && Captures(more, views[..|more|])
  {
    var s;
    var a := drives[|archive|];
    status, s := CaptureSlot(host, a, views[|archive|]);
    more := archive + [s];
    if status == M.Ok { CapturesMore(archive, s, views); }
  }

  // softpc_media_archive_capture: one slot after the other, stopping at the first failure.
  method Capture(host: Host, drives: seq<Attachment>, ghost views: seq<View>)
      returns (status: M.Status, archive: seq<Slot>)
    requires |drives| == SLOTS && Shows(host, drives, views)
    ensures status != M.InvalidState && (AllServed(host, drives) ==> status == M.Ok || status == M.InvalidArgument)
    ensures status == M.InvalidArgument ==> Uncapturable(views)
    ensures status == M.Ok ==> Captures(archive, views)
  {
    archive := [];
    while |archive| < SLOTS
      invariant |archive| <= SLOTS && Captures(archive, views[..|archive|])
    {
      status, archive := CaptureNext(host, drives, archive, views);
      if status != M.Ok { return; }
    }
    assert views[..SLOTS] == views;
    status := M.Ok;
  }

  // Capture and write: the stream is an archive of the views, unless the host fails.
  method Save(host: Host, drives: seq<Attachment>, ghost views: seq<View>)
      returns (status: M.Status, data: seq<byte>, ghost archive: seq<Slot>)
    requires |drives| == SLOTS && Shows(host, drives, views) && Each(ValidView, views)
    ensures status == M.Ok || ((status == M.IoError || status == M.NoMemory) && !AllServed(host, drives))
    ensures status == M.Ok ==> Captures(archive, views) && data == ArchiveBytes(archive)
  {
    data := [];
    var slots;
    status, slots := Capture(host, drives, views);
    archive := slots;
    if status == M.InvalidArgument { Stored(views); }
    if status != M.Ok { return; }
    CapturedArchive(slots, views);
    WellFormedHolds(slots);
    status, data := StoreArchive(slots, host.reliable);
  }

  lemma {:induction false} Stored(views: seq<View>)
    requires Each(ValidView, views)
    ensures !Uncapturable(views)
  {
    if views != [] {
      Stored(views[..|views| - 1]);
      assert forall i :: 0 <= i < |views| - 1 ==> views[..|views| - 1][i] == views[i];
    }
  }

  // ---------- loading ----------

  // The file a view was based on still has the same bytes.
  ghost predicate Unchanged(host: Host, v: View)
    reads host.files.Values
  {
    v.View? ==> v.path in host.files && host.files[v.path].bytes == v.base
  }

  // Then what was saved of it fits the drive.
  lemma StillFits(host: Host, slot: nat, s: Slot, v: View)
    requires SavedAs(s, v) && ValidView(slot, v) && Unchanged(host, v) && (slot == 1 || slot == 3 ==> v.NoMedium?)
    ensures Fits(host, slot, s) && (v.NoMedium? ==> s.Empty?)
  {
  }

  // And a drive refilled from it shows it again: the same bytes, mode, path and cylinder.
  lemma RefilledShows(host: Host, slot: nat, a: Attachment, s: Slot, v: View)
    requires SavedAs(s, v) && ValidView(slot, v) && Unchanged(host, v) && Refilled(host, slot, a, s)
    ensures Working(a) && ViewOf(host, a) == v
  {
    if v.View? { CapturedIsComplete(Digest, slot, v); }
  }

  lemma {:induction false} CapturesAt(archive: seq<Slot>, views: seq<View>, i: nat)
    requires Captures(archive, views) && Each(ValidView, views) && i < |archive|
    ensures SavedAs(archive[i], views[i]) && ValidView(i, views[i])
  {
    var n := |archive| - 1;
    if i < n { CapturesAt(archive[..n], views[..n], i); }
  }

  // An archive of valid views on the supported drives, whose base images have not changed.
  ghost predicate Reloadable(host: Host, archive: seq<Slot>, views: seq<View>)
    reads host.files.Values
  {
    && |archive| == SLOTS && Captures(archive, views) && Each(ValidView, views) && views[1].NoMedium?
       && views[3].NoMedium?
    && forall i :: 0 <= i < SLOTS ==> Unchanged(host, views[i])
  }

  lemma NoneUnfit(host: Host, slots: seq<Slot>, views: seq<View>)
    requires Reloadable(host, slots, views)
    ensures !Unfit(host, slots) && slots[1].Empty? && slots[3].Empty?
  {
    forall i | 0 <= i < SLOTS ensures Fits(host, i, slots[i]) && (views[i].NoMedium? ==> slots[i].Empty?) {
      CapturesAt(slots, views, i);
      StillFits(host, i, slots[i], views[i]);
    }
  }

  lemma AllShow(host: Host, drives: array<Attachment>, slots: seq<Slot>, views: seq<View>)
    requires Reloadable(host, slots, views) && drives.Length == SLOTS && RefilledTo(host, drives, slots, SLOTS)
    ensures Shows(host, drives[..], views)
  {
    forall i | 0 <= i < SLOTS ensures Working(drives[..][i]) && views[i] == ViewOf(host, drives[..][i]) {
      CapturesAt(slots, views, i);
      RefilledShows(host, i, drives[i], slots[i], views[i]);
    }
  }

  // Where the archive of some views was written, reading it back, preparing and restoring makes
  // the drives show the same views, unless the host fails. The drives may have held anything in
  // between.
  method Load(host: Host, drives: array<Attachment>, r: Reader, ghost views: seq<View>, ghost archive: seq<Slot>,
      ghost behind: seq<byte>)
    returns (status: M.Status)
    requires drives.Length == SLOTS && drives[1].Detached? && forall i :: 0 <= i < SLOTS ==> Live(host, drives[i])
    requires Reloadable(host, archive, views) && r.Valid() && r.Rest() == ArchiveBytes(archive) + behind
    modifies r, r.source, drives
    ensures status == M.Ok || ((status == M.IoError || status == M.NoMemory) && !(host.reliable && r.source.reliable))
    ensures status == M.Ok ==> Shows(host, drives[..], views)
  {
    var slots;
    CapturedArchive(archive, views);
    status, slots := ReadBack(r, archive, behind);
    if status != M.Ok { return; }
    status := Reinstate(host, drives, slots, views);
  }

  method Reinstate(host: Host, drives: array<Attachment>, slots: seq<Slot>, ghost views: seq<View>)
      returns (status: M.Status)
    requires drives.Length == SLOTS && drives[1].Detached? && forall i :: 0 <= i < SLOTS ==> Live(host, drives[i])
    requires Reloadable(host, slots, views) && WellFormed(slots)
    modifies drives
    ensures status == M.Ok || ((status == M.IoError || status == M.NoMemory) && !host.reliable)
    ensures status == M.Ok ==> Shows(host, drives[..], views)
  {
    NoneUnfit(host, slots, views);
    var media := new SavedMedia(slots);
    status := media.Prepare(host, drives[..]);
    if status != M.Ok { return; }
    status := Refill(host, drives, media, views);
  }

  method Refill(host: Host, drives: array<Attachment>, media: SavedMedia, ghost views: seq<View>)
      returns (status: M.Status)
    requires drives.Length == SLOTS && drives[1].Detached? && media.prepared
    requires Reloadable(host, media.slots, views) && WellFormed(media.slots) && !Unfit(host, media.slots)
    modifies drives, media
    ensures status == M.Ok || ((status == M.IoError || status == M.NoMemory) && !host.reliable)
    ensures status == M.Ok ==> Shows(host, drives[..], views)
  {
    status := media.Restore(host, drives);
    if status == M.Ok { AllShow(host, drives, media.slots, views); }
  }

  // ---------- the end-to-end law ----------

  // A drive of a supported slot with a valid medium on a file that is still there, which the
  // host serves.
  ghost predicate Ready(host: Host, slot: nat, a: Attachment)
    reads Objects(a), host.files.Values
  {
    && Live(host, a) && Served(host, a) && ValidView(slot, ViewOf(host, a)) && (slot == 1 || slot == 3 ==> a.Detached?)
  }

  // On a host that does not fail, saving the media of some drives and loading them into others,
  // whatever these hold, succeeds and makes these show the same bytes, mode, path and cylinder.
  method SaveThenLoad(host: Host, saved: seq<Attachment>, drives: array<Attachment>, ghost views: seq<View>)
      returns (status: M.Status)
    requires |saved| == drives.Length == SLOTS && Shows(host, saved, views) && forall i :: 0 <= i < SLOTS ==>
      Ready(host, i, saved[i])
    requires drives[1].Detached? && forall i :: 0 <= i < SLOTS ==> Live(host, drives[i])
    modifies drives
    ensures status == M.Ok && Shows(host, drives[..], views)
  {
    ReadyViews(host, saved, views);
    var data;
    ghost var archive;
    status, data, archive := Save(host, saved, views);
    var source := new Source(data, true);
    var r := new Reader(source, Unlimited);
    assert r.Rest() == ArchiveBytes(archive) + [];
    status := Load(host, drives, r, views, archive, []);
  }

  lemma ReadyViews(host: Host, saved: seq<Attachment>, views: seq<View>)
    requires |saved| == SLOTS && Shows(host, saved, views) && forall i :: 0 <= i < SLOTS ==> Ready(host, i, saved[i])
    ensures Each(ValidView, views) && views[1].NoMedium? && views[3].NoMedium? && AllServed(host, saved)
      && host.reliable
    ensures forall i :: 0 <= i < SLOTS ==> Unchanged(host, views[i])
  {
    forall i | 0 <= i < SLOTS ensures Unchanged(host, views[i]) && ValidView(i, views[i]) && Served(host, saved[i]) {
      ReadyView(host, i, saved[i]);
    }
    EachOfFour(views);
  }

  lemma ReadyView(host: Host, slot: nat, a: Attachment)
    requires Ready(host, slot, a)
    ensures Unchanged(host, ViewOf(host, a))
  {
    if a.Attached? && a.mode != M.Overlay { PlainContents(a.medium); }
  }

  lemma EachOfFour(views: seq<View>)
    requires |views| == SLOTS && forall i :: 0 <= i < SLOTS ==> ValidView(i, views[i])
    ensures Each(ValidView, views)
  {
    EachUpTo(views, SLOTS);
    assert views[..SLOTS] == views;
  }

  lemma {:induction false} EachUpTo(views: seq<View>, n: nat)
    requires n <= |views| && forall i :: 0 <= i < n ==> ValidView(i, views[i])
    ensures Each(ValidView, views[..n])
  {
    if n > 0 {
      EachUpTo(views, n - 1);
      assert views[..n][..n - 1] == views[..n - 1];
    }
  }
}
