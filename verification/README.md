# Protocol cores of the SoftPC emulator host

A model, in Dafny, of the portable protocol cores of the emulator: the executor rendezvous of
the machine, the hotkey matcher, the copy-on-write medium with the media snapshot on top of it,
the latest-wins frame exchange, the console broker, the session queue and presentation
reconciler, the debugger's execution plans, incremental rendering, UTF-8 validation and chunked
monitor output, and aspect fitting. Files, media, streams, allocation, the native console and the
signals of the session appear as calls that may fail at any time, and what is proved holds
whatever they do; the calls that are taken to succeed are listed under "Left out". Where success
is promised the answers of the host are explicit: arguments of the call (what is granted, what
succeeds), or the flag `reliable` of a medium, stream or host that fails nothing.

`dafny verify dfyconfig.toml` checks the whole project.

How the modules hang together:

- `MachineModel` gives the control caller and the worker as step functions, one step per atomic
  access, event call or section of an inner lock; `MachineProof` carries the invariants through
  every step, `MachineSave` those of a save request, `MachineLife` what start, pause, resume, stop
  and reset achieve and `MachineInput` that no input is lost; `MachineTheorems` states what follows
  for every schedule. `InputQueue` is the ring the machine's input goes through.
- `HotkeyModel` is the ledger and the transition as functions over any sink; `HotkeyProof` and
  `HotkeyOrder` prove whole-run properties; `HotkeyAccount` is a reference without a ledger that
  the matcher refines; `HotkeyMatcher` is the code in place against them.
- `Bytes` and `Medium` are the overlay; `BlockHash` is streaming hashing for any compression
  function and `Sha256` the concrete one, which `Sha256.HashBlock` shows the code's block function
  to be; `Sha256Constants` derives its constants from their definition and `Sha256Vector` computes
  the known digest of the empty message; `SnapshotStream` the numbers and streams;
  `MediaArchive` and `MediaArchiveStream` the archive format, its writer and its reader;
  `MediaDiff`, `MediaRestore`, `MediaLoad` and `MediaTransfer` capture, verification, restore and
  the end-to-end law; `SnapshotImage` the framed image.
- `SessionModel` is the session's event queue as a value with its whole-run properties, and
  `SessionQueue` the ring, the latches and the event updated in place against it; `Reconciler` is
  the reconciler as functions and `ControlState` the same state updated in place.
- `FrameExchange`, `ConsoleBroker`, `Debugger`, `Render`, `Utf8`, `MonitorText` and `Geometry`
  stand alone.

Four results are about where the code does not meet an unconditional promise. Each has its exact
condition and an input that fails:

- The session's event is signalled exactly while something can be taken, if and only if no latch
  set on an empty queue without its signal has gone unfollowed by a signal: the result of the
  latch's signal is ignored (`SessionModel.SignalIsExact`; `SessionModel.StrandedFault` is the
  input whose fault no take returns).
- A completion processed in another run than the one it was done in is dropped
  (`Reconciler.DroppedExactly`), and from then on no presentation action is ever issued again
  (`Reconciler.DroppedBlocks`; `Reconciler.DroppedForever` is a session that gets there).
- Rewriting an archive that was read reproduces its bytes exactly when no path holds a zero byte
  (`MediaArchiveStream.RewriteIsIdentity`); the reader does not refuse such paths
  (`MediaArchiveStream.RewriteLosesAPath` is an archive that changes).
- A guest that a reset has parked runs again only if the pause was withdrawn after the worker saw it
  (`MachineLife.OnlyTheReleasedRun`, `MachineLife.ParkedRunsIff`). The reset call itself withdraws
  the pause after it has asked for the stop, and may be overtaken by the worker
  (`MachineLife.ResetRunsOn` is a schedule in which a completed reset runs on by itself).

## Model

| member | source | states |
|---|---|---|
| `MachineProof.RunKeeps` | src/emulator/machine/machine.c:171-616 | Every interleaving of caller and worker, from creation on, keeps the invariants on requests, locks, the draining of requests at exit, lifecycle, wake-ups, input and frames |
| `MachineTheorems.EachRequestCompletesAtMostOnce` | src/emulator/machine/machine.c:171-341 | In every schedule acceptances and completions of media, debug, save and load requests alternate, each completion answering the acceptance before it, including parked loads and saves that un-pause the guest |
| `MachineTheorems.NothingOutlivesTheWorker` | src/emulator/machine/machine.c:308-341 | Once the worker has exited no request is left uncompleted and none is accepted or completed later, whatever happens next |
| `MachineTheorems.ExitIsFinal` | src/emulator/machine/machine.c:512-616 | No step leaves the worker's exit or observes anything after it |
| `MachineTheorems.WaitEndsWithItsOwnCompletion` | src/emulator/machine/machine.c:182-196 | A caller leaves its wait only with its own request's completion as the last observation, never through the cancelled exit |
| `MachineTheorems.NoLostWakeUp` | src/emulator/machine/machine.c:286-304 | A stored request of any kind, save included, whose caller waits finds the worker's wait enabled, in the main loop and in the paused loop |
| `MachineSave.RunKeepsSave` | src/emulator/machine/machine.c:234-284 | Every schedule keeps the invariants on how a save request travels: accepted in PAUSED or behind a pause, and announced until the worker takes it |
| `MachineSave.SaveIsAnnounced` | src/emulator/machine/machine.c:395-430 | A stored save finds the worker outside the main wait, and its paused wait signalled |
| `MachineTheorems.InputsStayInTheirRun` | src/emulator/machine/machine.c:130-143 | Every input delivered in a run was accepted in that run; inputs are delivered in acceptance order and none twice, across start, reset and load |
| `MachineTheorems.FramesStayInTheirRun` | src/emulator/machine/machine.c:853-894 | With the frame lock free, a frame observable under a run number was published in that run, although the stamp is a step of its own outside the publication |
| `MachineLife.RunRemembers` | src/emulator/machine/machine.c:343-616 | Every schedule keeps the request flags and the lifecycle to what pause, resume, stop, reset, start, load, debug stop and save have asked for in it |
| `MachineLife.FlagsAreAsked` | src/emulator/machine/machine.c:690-770 | In every schedule the pause, stop and reset flags are set exactly while what set them has not been withdrawn or taken up, whichever of start and reset began the run |
| `MachineLife.PausedWasAsked` | src/emulator/machine/machine.c:376-392 | The guest is PAUSED only if a pause, reset, load, debug stop or save has asked for it since it last began to run |
| `MachineLife.OnlyTheReleasedRun` | src/emulator/machine/machine.c:392-446 | The guest goes from PAUSED to RUNNING only if the pause was withdrawn since the worker saw it |
| `MachineLife.ParkedRunsIff` | src/emulator/machine/machine.c:392-446 | A parked worker that looks again leaves the guest alone exactly if the pause is still asked for |
| `MachineLife.LaunchAdmits` | src/emulator/machine/machine.c:555-570 | A launched run opens its input exactly if no pause is asked for |
| `MachineLife.RunEndsAsAsked` | src/emulator/machine/machine.c:576-606 | A run ends without failure only if a stop, reset or shutdown was asked for since it began, and starts anew exactly if a reset was |
| `MachineLife.RequestsHaveTheirStates` | src/emulator/machine/machine.c:286-304 | A request is admitted exactly in the lifecycle states it is meant for |
| `MachineLife.ResetRunsOn` | src/emulator/machine/machine.c:745-770 | A schedule in which a completed reset, parked in PAUSED, runs on without any other call |
| `MachineInput.InputsAreConserved` | src/emulator/machine/machine.c:130-143 | In every schedule the inputs accepted since the queue was last emptied are those delivered since then followed by those queued |
| `InputQueue.InputQueue.Admit` | src/emulator/machine/input_queue.c:17-22 | Admission changes no content |
| `InputQueue.InputQueue.Push` | src/emulator/machine/input_queue.c:24-43 | Appends to a bounded FIFO; closed admission and a full ring refuse and change nothing |
| `InputQueue.InputQueue.Pop` | src/emulator/machine/input_queue.c:45-58 | Removes exactly the oldest event, at any ring position |
| `InputQueue.InputQueue.Pending` | src/emulator/machine/input_queue.c:60-68 | Tells whether the FIFO is nonempty |
| `InputQueue.InputQueue.Clear` | src/emulator/machine/input_queue.c:70-77 | Empties the FIFO |
| `HotkeyProof.OutputMirrorsLedger` | src/lib/kvm-base/hotkey.c:45-128 | With replay allowed, in every run and whatever the sink refuses: each physical key's output is a prefix of (make, repeats, break)* with one key code per cycle, and a key is down in the output exactly when its entry is DELIVERED |
| `HotkeyOrder.NeverReorders` | src/lib/kvm-base/hotkey.c:45-128 | At every point of every run the key and text output followed by the withheld makes is a subsequence of the input |
| `HotkeyOrder.OnlyRegisteredModifiersWait` | src/lib/kvm-base/hotkey.c:166-180 | Between successful submits only keys of registered modifiers are PENDING |
| `HotkeyOrder.LedgerFollowsTheKeys` | src/lib/kvm-base/hotkey.c:58-128 | While no submit failed, a key is in the ledger exactly when its last input transition was a press |
| `HotkeyOrder.AllUpEmptiesTheLedger` | src/lib/kvm-base/hotkey.c:58-128 | Once every key has been released the ledger is empty |
| `HotkeyOrder.ConsumedKeysAreSilent` | src/lib/kvm-base/hotkey.c:58-128 | A consumed key emits nothing whatever is submitted, and stays consumed until its own release |
| `HotkeyOrder.SilentUntilReleased` | src/lib/kvm-base/hotkey.c:58-128 | From the chord that consumed a key on, a run of any length without its release puts nothing of it into the output and keeps it consumed |
| `HotkeyOrder.ReleaseOfConsumedIsSilent` | src/lib/kvm-base/hotkey.c:58-128 | Its release after any such run is silent too and takes it out of the ledger |
| `HotkeyOrder.ChordFires` | src/lib/kvm-base/hotkey.c:11-21 | With an accepting sink a press fires a hotkey if and only if its key is not DELIVERED, none of the modifiers was delivered, and exactly this chord is registered |
| `HotkeyAccount.AccountIsExact` | src/lib/kvm-base/hotkey.c:58-180 | With replay allowed and nothing refused, no submit fails, and what came out and what waits are exactly what a reference without ledger says of the input, chords with their identifiers included |
| `HotkeyAccount.OnlyThreeKinds` | src/lib/kvm-base/hotkey.c:58-128 | Every key and text event comes out or waits but for three kinds: those of keys a chord has taken, repeats of a waiting make, breaks of keys that are up |
| `HotkeyAccount.TransparentWithoutHotkeys` | src/lib/kvm-base/hotkey.c:58-180 | Without registrations every event comes out at once and in order, but for breaks of keys that are up |
| `HotkeyAccount.ChordCanBeTyped` | src/lib/kvm-base/hotkey.c:107-127 | The modifier of a registered chord waits, and with the key the chord comes out and nothing else |
| `HotkeyMatcher.Matcher.FlushPending` | src/lib/kvm-base/hotkey.c:45-56 | The in-place flush leaves the ledger and output of the specification |
| `HotkeyMatcher.Matcher.Transition` | src/lib/kvm-base/hotkey.c:58-128 | The in-place transition equals the specified one for every ledger, event, sink and allocation outcome |
| `HotkeyMatcher.Matcher.SubmitEvent` | src/lib/kvm-base/hotkey.c:166-180 | A submit is the specified step for key and other events |
| `HotkeyMatcher.Matcher.MatchRegistry` | src/lib/kvm-base/hotkey.c:11-21 | Finds the first registration of exactly this key and modifiers, or none |
| `HotkeyMatcher.Matcher.RegistryHasModifier` | src/lib/kvm-base/hotkey.c:23-33 | Tells whether some registration uses a modifier |
| `HotkeyMatcher.Matcher.Find` | src/lib/kvm-base/hotkey.c:35-43 | Finds the first ledger entry of the same physical key, or none |
| `HotkeyMatcher.Matcher.Discard` | src/lib/kvm-base/hotkey.c:182-189 | Empties the ledger |
| `HotkeyMatcher.Registry.Register` | src/lib/kvm-base/hotkey.c:135-156 | Adds a registration or refuses it, with the refusing conditions |
| `Medium.Medium.PageForWrite` | src/lib/storage/medium.c:161-190 | Creating a page changes no logical byte, whether it succeeds or not |
| `Medium.Medium.ReadBase` | src/lib/storage/medium.c:145-159 | Returns the file's bytes, or zeros without a file |
| `Medium.Medium.ReadAt` | src/lib/storage/medium.c:192-219 | A successful read returns exactly the logical bytes; it is refused exactly out of range |
| `Medium.Medium.Write` | src/lib/storage/medium.c:221-253 | Success overwrites exactly the range; failure has written a prefix and nothing else; only a direct medium touches its file |
| `Medium.Medium.WriteAt` | src/lib/storage/medium.c:255-262 | The same with the flush of a direct medium |
| `Medium.Medium.FillAt` | src/lib/storage/medium.c:264-288 | A fill is a write of the repeated value, in 512-byte pieces, with the same prefix law; an empty one succeeds at once, and the refusals are exact |
| `Medium.RunAll` | src/lib/storage/medium.c:136-288 | After any sequence of reads, writes and fills with any failures the contents are the initial bytes overwritten in order by what each got done; each is refused exactly out of range or for changing a read-only medium, and every read returned the bytes at its point; the base file is unchanged; on a host that does not fail contents, statuses and results are those of a flat array |
| `Medium.HonestRunIsFlat` | src/lib/storage/medium.c:192-288 | A run in which the host fails nothing is the run on the flat array, operation by operation: every read in range returns its bytes, every allowed write is done in full |
| `BlockHash.HashSplits` | src/app-softpc/compat/media_snapshot.c:81-91 | Complete blocks can be hashed before what follows them, for any compression function |
| `BlockHash.PaddingBlocks` | src/app-softpc/compat/media_snapshot.c:93-107 | The padding of section 5.1.1 of FIPS 180-4 is one more block if 0x80 and the length fit behind the tail, else two |
| `BlockHash.MediaHash.Add` | src/app-softpc/compat/media_snapshot.c:81-91 | Adding bytes appends them to the message, from any fill of the block buffer and with a wrapping byte count |
| `BlockHash.MediaHash.End` | src/app-softpc/compat/media_snapshot.c:93-107 | The end is the one-shot hash of the padded message |
| `BlockHash.HashOfChunks` | src/app-softpc/compat/media_snapshot.c:74-107 | Every split of a message into hash_add calls gives the one-shot hash of the padded whole |
| `Sha256.NextScheduleWord` | src/app-softpc/compat/media_snapshot.c:56-60 | The code's schedule step extends the message schedule of section 6.2 of FIPS 180-4 |
| `Sha256.RunRounds` | src/app-softpc/compat/media_snapshot.c:61-69 | The in-place rotation of eight words is the 64 rounds of the standard |
| `Sha256.HashBlock` | src/app-softpc/compat/media_snapshot.c:37-72 | hash_block is the compression function of the standard |
| `Sha256.RotateIsRotation` | src/app-softpc/compat/media_snapshot.c:34-35 | The two shifts of the code are the rotations of the standard at every amount used |
| `Sha256.SigmasOfTheCode` | src/app-softpc/compat/media_snapshot.c:57-66 | What the code writes for the four sigmas is what the standard says |
| `Sha256Constants.RoundConstants` | src/app-softpc/compat/media_snapshot.c:39-48 | The i-th round constant is the first 32 bits of the fractional part of the cube root of the i-th prime (section 4.2.2 of FIPS 180-4) |
| `Sha256Constants.InitialValue` | src/app-softpc/compat/media_snapshot.c:74-80 | The initial words are those of the square roots of the first eight primes (section 5.3.3) |
| `Sha256Constants.TrialDivision` | src/app-softpc/compat/media_snapshot.c:39-48 | A number is prime exactly if no divisor up to its root divides it |
| `Sha256Constants.Chooses` | src/app-softpc/compat/media_snapshot.c:63-64 | Ch is y where x has a bit and z elsewhere |
| `Sha256Constants.Agrees` | src/app-softpc/compat/media_snapshot.c:65-66 | Maj is x and y where they agree |
| `Sha256Constants.Decides` | src/app-softpc/compat/media_snapshot.c:65-66 | Maj is z where x and y differ |
| `Sha256Vector.EmptyDigest` | src/app-softpc/compat/media_snapshot.c:37-107 | The digest of the empty message is e3b0c442 98fc1c14 9afbf4c8 996fb924 27ae41e4 649b934c a495991b 7852b855 |
| `Sha256.DigestOfChunks` | src/app-softpc/compat/media_snapshot.c:74-107 | However a message is chunked, the 32 bytes are its SHA-256 |
| `SnapshotStream.NumberOfLittle` | src/app-softpc/compat/snapshot_stream.c:18-45 | Decoding the little-endian bytes of a number gives the number |
| `SnapshotStream.LittleOfNumber` | src/app-softpc/compat/snapshot_stream.c:47-92 | Encoding a decoded number gives the bytes back |
| `SnapshotStream.Bytes32` | src/app-softpc/compat/snapshot_stream.c:26-33 | The four shifted bytes are the little-endian encoding |
| `SnapshotStream.Bytes64` | src/app-softpc/compat/snapshot_stream.c:35-45 | The shifting loop writes the little-endian encoding |
| `SnapshotStream.Value32` | src/app-softpc/compat/snapshot_stream.c:61-74 | The value read is the one whose encoding these bytes are |
| `SnapshotStream.Value64` | src/app-softpc/compat/snapshot_stream.c:76-92 | The accumulating loop reads the value whose encoding these bytes are |
| `SnapshotStream.Value16` | src/app-softpc/compat/snapshot_stream.c:47-59 | The value read is the one whose encoding these bytes are |
| `SnapshotStream.Writer.WriteU16` | src/app-softpc/compat/snapshot_stream.c:18-24 | Writes the little-endian encoding |
| `SnapshotStream.Writer.WriteU32Array` | src/app-softpc/compat/snapshot_stream.c:94-106 | Writes the encodings of all words in order |
| `SnapshotStream.Reader.ReadU32Array` | src/app-softpc/compat/snapshot_stream.c:108-120 | Reads words whose encodings the stream started with |
| `SnapshotStream.U32ArrayUnique` | src/app-softpc/compat/snapshot_stream.c:94-120 | A stream starts with at most one array of a given length, so reading undoes writing |
| `SnapshotStream.Writer.Write` | src/app-softpc/machine/snapshot_image.c:13-23 | The counting writer counts exactly the bytes offered and refuses only a count beyond 64 bits; the storing one stores them or fails |
| `SnapshotStream.Reader.Read` | src/app-softpc/machine/snapshot_image.c:31-44 | A section reader takes exactly the next bytes; it refuses with InvalidArgument if and only if they exceed the section |
| `MediaArchive.PagesAscend` | src/app-softpc/compat/media_snapshot.c:292-303 | Pages that passed the checks are aligned, exactly sized, within the size and each at least one block behind the one before |
| `MediaArchive.PagesAreFew` | src/app-softpc/compat/media_snapshot.c:288-288 | There are never more such pages than blocks |
| `MediaArchive.SlotLayout` | src/app-softpc/compat/media_snapshot.c:230-241 | Where presence, mode, cylinder, size, digest, path and page count stand in a slot |
| `MediaArchive.PageLayout` | src/app-softpc/compat/media_snapshot.c:242-246 | Where offset, length and bytes stand in a page |
| `MediaArchive.ArchiveUnique` | src/app-softpc/compat/media_snapshot.c:222-315 | A stream starts with at most one well-formed archive |
| `MediaArchiveStream.WriteArchive` | src/app-softpc/compat/media_snapshot.c:222-249 | Success has written exactly the encoding, paths cut at their first zero byte, to a storing or a counting writer |
| `MediaArchiveStream.ReadArchive` | src/app-softpc/compat/media_snapshot.c:251-315 | What is accepted starts with the encoding of the returned, well-formed archive; what is called invalid starts with the encoding of none |
| `MediaArchiveStream.ReadBack` | src/app-softpc/compat/media_snapshot.c:251-315 | Where an archive was written, reading returns that archive and stops exactly behind it; a stream that does not fail makes it succeed |
| `MediaArchiveStream.StoreArchive` | src/app-softpc/compat/media_snapshot.c:222-249 | On a reliable host it succeeds and stores exactly the encoding |
| `MediaArchiveStream.StoreAndReadBack` | src/app-softpc/compat/media_snapshot.c:222-315 | On a host that does not fail, storing an archive and reading it back succeeds and returns it |
| `MediaArchiveStream.RewriteIsIdentity` | src/app-softpc/compat/media_snapshot.c:237-240 | Writing an archive back reproduces its encoding if and only if no path holds a zero byte |
| `MediaArchiveStream.RewriteLosesAPath` | src/app-softpc/compat/media_snapshot.c:237-240 | A well-formed archive with a zero byte in a path whose rewrite differs |
| `MediaDiff.DiffFits` | src/app-softpc/compat/media_snapshot.c:176-195 | The captured pages are in order, aligned and exactly sized |
| `MediaDiff.DiffApplies` | src/app-softpc/compat/media_snapshot.c:176-195 | Putting the differing blocks over the base gives the captured bytes, block by block |
| `MediaDiff.CapturedIsWellFormed` | src/app-softpc/compat/media_snapshot.c:284-291 | Every captured slot of a valid medium passes every check of the reader |
| `MediaDiff.CapturedIsComplete` | src/app-softpc/compat/media_snapshot.c:151-202 | The captured pages put over the base are all of the contents |
| `MediaRestore.DigestOf` | src/app-softpc/compat/media_snapshot.c:117-131 | Hashing a medium block by block gives the SHA-256 of its logical bytes |
| `MediaRestore.VerifyBase` | src/app-softpc/compat/media_snapshot.c:115-134 | Accepts exactly a base of the recorded size and digest |
| `MediaRestore.CaptureSlot` | src/app-softpc/compat/media_snapshot.c:151-202 | A captured slot is the mode, path, cylinder, size, digest of the base and differing pages of the drive |
| `MediaLoad.ApplyPages` | src/app-softpc/compat/media_snapshot.c:324-334 | Success has put all pages over the contents in order |
| `MediaLoad.PrepareSlot` | src/app-softpc/compat/media_snapshot.c:336-363 | Success means the named file has the recorded size and digest, found through a live medium or by opening it; invalid means it has not |
| `MediaLoad.SavedMedia.Prepare` | src/app-softpc/compat/media_snapshot.c:365-384 | Success marks the archive, with only supported slots populated and all bases matching; the reasons for a refusal |
| `MediaLoad.Attach` | src/app-softpc/compat/gfi_image.c:394-436 | Attaching succeeds exactly for what the drive accepts and changes only that drive |
| `MediaLoad.DetachAll` | src/app-softpc/compat/media_snapshot.c:411-420 | Empties every drive but the unsupported floppy B, which it does not touch |
| `MediaLoad.SavedMedia.Restore` | src/app-softpc/compat/media_snapshot.c:399-443 | Refused with nothing changed unless prepared; on success every drive holds what its slot says, over a base of the recorded digest |
| `MediaTransfer.Capture` | src/app-softpc/compat/media_snapshot.c:204-220 | Captures every drive or stops at the first failure |
| `MediaTransfer.Save` | src/app-softpc/compat/media_snapshot.c:204-249 | The stream is the archive of what the drives show; on a host that serves all drives it always succeeds |
| `MediaTransfer.Load` | src/app-softpc/compat/media_snapshot.c:251-443 | Reading it back, preparing and restoring over unchanged bases makes the drives show the same bytes, mode, path and cylinder, whatever they held in between; it fails only if host or stream are unreliable |
| `MediaTransfer.SaveThenLoad` | src/app-softpc/compat/media_snapshot.c:204-443 | On a host that does not fail, saving the media of any drives and loading them always succeeds and shows the same bytes, mode, path and cylinder |
| `SnapshotImage.CountPart` | src/app-softpc/machine/snapshot_image.c:96-101 | The counting pass finds the length of the encoding |
| `SnapshotImage.ImageLayout` | src/app-softpc/machine/snapshot_image.c:104-124 | Where format, memory size, the three sections with their lengths and the entry stand in an image |
| `SnapshotImage.WriteImage` | src/app-softpc/machine/snapshot_image.c:86-125 | Success has written exactly the image with every section behind its true length; on a reliable host it succeeds exactly if the image can be encoded |
| `SnapshotImage.ReadWithin` | src/app-softpc/machine/snapshot_image.c:149-153 | A section is accepted only if its reader ends at zero, and the section that was written always is |
| `SnapshotImage.ReadImage` | src/app-softpc/machine/snapshot_image.c:127-185 | What is accepted is the encoding of the returned image for the expected memory size; where an image was written it is returned and exactly consumed, and refused only by a host that fails, for any core and device formats that can be read back |
| `SnapshotImage.StoreAndReadImage` | src/app-softpc/machine/snapshot_image.c:86-185 | On a host that does not fail, writing an image and reading it back succeeds and returns it |
| `FrameExchange.Pigeonhole` | src/lib/kvm-base/frame_exchange.c:15-24 | Three roles leave one of four slots free |
| `FrameExchange.StepKeeps` | src/lib/kvm-base/frame_exchange.c:66-150 | Every operation keeps the role invariant, in which a latest publication is always held |
| `FrameExchange.WriterNeverAliases` | src/lib/kvm-base/frame_exchange.c:66-83 | In every run the writer is a slot no other role names, and the latest is held by one of the three roles |
| `FrameExchange.TakenFrameIsImmutable` | src/lib/kvm-base/frame_exchange.c:85-112 | A taken frame and the one displayed before it are not written until finish or detach |
| `FrameExchange.NewestIsTakenNext` | src/lib/kvm-base/frame_exchange.c:85-98 | The newest uninvalidated, undisplayed publication is what the next possible take returns |
| `FrameExchange.PreviousIsOnScreen` | src/lib/kvm-base/frame_exchange.c:85-112 | With every frame it returns a take returns the frame of the last successful finish since the last detach, still intact, or nothing if there is none |
| `FrameExchange.NoFrameLeaks` | src/lib/kvm-base/frame_exchange.c:15-24 | Every frame no role holds any more has been handed to retire |
| `FrameExchange.NothingStaleIsTaken` | src/lib/kvm-base/frame_exchange.c:144-150 | After an invalidation nothing is taken before the next publication |
| `FrameExchange.RedrawRepeatsTheLatest` | src/lib/kvm-base/frame_exchange.c:114-121 | A redraw makes the newest frame takeable again, at once or once a busy consumer has finished |
| `FrameExchange.FrameExchange.PublishFrame` | src/lib/kvm-base/frame_exchange.c:66-83 | The scan loop finds the free slot of the specification and retires only unheld ones |
| `FrameExchange.FrameExchange.TakeFrame` | src/lib/kvm-base/frame_exchange.c:85-98 | The in-place take is the specified one |
| `FrameExchange.FrameExchange.FinishFrame` | src/lib/kvm-base/frame_exchange.c:100-112 | The in-place finish is the specified one |
| `FrameExchange.FrameExchange.RetireFreeSlots` | src/lib/kvm-base/frame_exchange.c:15-24 | The scan retires exactly the slots no role holds |
| `FrameExchange.FrameExchange.RedrawFrame` | src/lib/kvm-base/frame_exchange.c:114-121 | The in-place redraw is the specified one |
| `FrameExchange.FrameExchange.DetachConsumer` | src/lib/kvm-base/frame_exchange.c:123-130 | The in-place detach is the specified one |
| `FrameExchange.FrameExchange.InvalidateFrames` | src/lib/kvm-base/frame_exchange.c:144-150 | The in-place invalidation is the specified one |
| `FrameExchange.FrameExchange.ObserveLatest` | src/lib/kvm-base/frame_exchange.c:132-142 | Observes the latest publication if there is one and changes nothing |
| `ConsoleBroker.Console.Deliver` | src/lib/console/console.c:99-130 | Only an event of the bound generation reaches the sink; only a missing sink is reported |
| `ConsoleBroker.Console.Retain` | src/lib/console/console.c:55-61 | Adds one reference |
| `ConsoleBroker.Console.Release` | src/lib/console/console.c:63-73 | Drops one reference; exactly the last one destroys |
| `ConsoleBroker.Console.Bind` | src/lib/console/console.c:132-140 | Binds any generation but zero |
| `ConsoleBroker.Broker.ActivateBound` | src/lib/console-broker/console.c:86-101 | Success binds the Console and starts its reader; failure leaves it unbound without a reader |
| `ConsoleBroker.Broker.Replace` | src/lib/console-broker/console.c:167-269 | Refused exactly for the stated reasons; else committed with the next generation exactly if prepare, memory, deactivation and activation succeed, shut with nothing bound exactly if the old reader cannot be retired or neither can be started, and otherwise rolled back with nothing changed including the unfinished line request; at the end at most the current Console is bound, and the broker holds one reference, on it |
| `ConsoleBroker.ReplaceSucceeds` | src/lib/console-broker/console.c:167-269 | A replacement succeeds if and only if the broker is live, the expected Console current and another, a generation left and everything granted; then next is current in its mode with the next generation and no line asked for |
| `ConsoleBroker.ReplaceFails` | src/lib/console-broker/console.c:167-254 | A failure changes nothing, with the status of each refusal, but breaks the broker exactly if the old reader cannot be retired or neither reader started |
| `ConsoleBroker.LineCalls` | src/lib/console-broker/console.c:271-306 | When a line is armed, cancelled or refused, and what a failed cancellation breaks, field by field |
| `ConsoleBroker.Broker.GoBack` | src/lib/console-broker/console.c:230-254 | The old Console is active again as it was, or the broker is broken with nothing bound |
| `ConsoleBroker.Broker.RequestCookedLine` | src/lib/console-broker/console.c:271-287 | Arms a line exactly for the current Console of a live broker in cooked mode and a backend that accepts |
| `ConsoleBroker.Broker.CancelCookedLine` | src/lib/console-broker/console.c:289-306 | Refused likewise; a failed cancellation, and nothing else here, breaks the broker; tells whether the line was already complete |
| `ConsoleBroker.Broker.Destroy` | src/lib/console-broker/console.c:308-335 | Leaves no Console bound, gives back the broker's only reference and releases the process claim, whatever fails; reports exactly a failure |
| `ConsoleBroker.Process.CreateBroker` | src/lib/console-broker/console.c:114-165 | At most one broker at a time; succeeds if and only if everything is granted; a failure leaves every Console and the claim as they were |
| `ConsoleBroker.RunCalls` | src/lib/console-broker/console.c:167-306 | In every run of calls over any backend, with lines completed by the user in between, the broker stays valid, and state and statuses are those of the specified calls |
| `ConsoleBroker.GenerationCounts` | src/lib/console-broker/console.c:167-269 | In every run the generation counts exactly the committed replacements |
| `ConsoleBroker.BrokenForever` | src/lib/console-broker/console.c:167-306 | A broken broker stays as it is whatever is called |
| `SessionQueue.SessionQueue.MakeRoom` | src/emulator/session/control.c:43-61 | Doubling keeps all events in order from any ring position; fails exactly if full and refused memory |
| `SessionQueue.SessionQueue.PushEvent` | src/emulator/session/control.c:36-71 | Appends and signals, or fails with contents and signal unchanged, exactly as memory and signal are granted |
| `SessionQueue.SessionQueue.PushKvmEvent` | src/emulator/session/control.c:97-113 | An input event is queued, or its loss is latched behind the first one of its class and signalled if the latch's signal is granted |
| `SessionQueue.SessionQueue.PushRequired` | src/emulator/session/control.c:23-34 | Any other event is queued, or its loss is latched and signalled likewise |
| `SessionQueue.SessionQueue.TakeItem` | src/emulator/session/control.c:174-201 | Takes the oldest event; the first latched fault only after the FIFO drained, KVM before control; nothing without the signal, which goes with the last item |
| `SessionQueue.RunQueue` | src/emulator/session/control.c:5-201 | Any run of pushes and takes on the ring puts out what the specification does |
| `SessionModel.FirstInFirstOut` | src/emulator/session/control.c:36-201 | In every run the accepted events are those delivered so far followed by those queued |
| `SessionModel.PutOutInOrder` | src/emulator/session/control.c:36-201 | The events among the outputs of a run are these deliveries: every accepted event is put out in order, none lost, none twice |
| `SessionModel.GrantedIsAccepted` | src/emulator/session/control.c:36-71 | Where everything is granted every pushed event is accepted, in order, and nothing latched |
| `SessionModel.FaultsStay` | src/emulator/session/control.c:7-34 | One operation: a failed push latches the first fault of its class, and a fault leaves its latch only by being taken behind a drained FIFO |
| `SessionModel.FaultsAreReported` | src/emulator/session/control.c:7-34 | In every run the faults of a class that were put out, followed by the latched one, are exactly the failures that found the earlier ones taken, in order and with their status |
| `SessionModel.SignalIsExact` | src/emulator/session/control.c:10-21 | In every run: never signalled for nothing; signalled exactly while something can be taken if and only if no latch set on an empty queue without its signal has gone unfollowed by a signal |
| `SessionModel.SignalsSuffice` | src/emulator/session/control.c:10-21 | While every latch can be signalled, the signal is exact |
| `SessionModel.StrandedFault` | src/emulator/session/control.c:10-21 | An empty queue, a refused push and a refused signal leave a fault that no take returns |
| `Reconciler.RunInStep` | src/emulator/session/control_state.c:20-105 | In every run what is known differs from what is there by at most the one action in flight, and its completion is the only one queued |
| `Reconciler.EveryActionIsReady` | src/emulator/ui/ui.c:222-265 | In every run each issued action meets the user interface's precondition; the VM console is never destroyed while Current |
| `Reconciler.OneInFlight` | src/emulator/session/control_state.c:97-105 | No action is issued while one is in flight, and only its own completion ends its flight |
| `Reconciler.DroppedExactly` | src/emulator/session/session.c:255-257 | A completion counts exactly when its run is zero or the current one |
| `Reconciler.DroppedBlocks` | src/emulator/session/session.c:255-257 | After a dropped completion no action is ever issued again |
| `Reconciler.DroppedForever` | src/emulator/session/session.c:255-257 | A session in which a new run drops the completion of a window's creation and which never issues another action, whatever follows |
| `Reconciler.OnePiece` | src/emulator/session/control_state.c:154-182 | Each action does one piece of the missing work, console work before window work, and none is chosen exactly when all is as planned |
| `Reconciler.PlanIs` | src/emulator/session/presentation_plan.c:3-41 | Exactly when VM console, monitor and window are wanted |
| `Reconciler.FactsFollowNotices` | src/emulator/session/control_state.c:20-51 | In every session the machine is taken to be in the state last noticed |
| `Reconciler.ClosedUntilRunning` | src/emulator/session/control_state.c:15-51 | A window that was closed is not wanted in a pause before the machine runs again |
| `Reconciler.Converges` | src/emulator/session/control_state.c:140-182 | From every reachable session: unless the action in flight has lost or will lose its completion, processing what is queued and then exactly the missing actions, at most three, reach the plan with the facts up to date; otherwise no action is ever issued again |
| `ControlState.SessionState.OnRuntime` | src/emulator/session/control_state.c:20-51 | The in-place update is the specified fact |
| `ControlState.SessionState.OnFrame` | src/emulator/session/control_state.c:53-62 | A frame is noted exactly if its wrapping serial is newer |
| `ControlState.SessionState.OnWindowClose` | src/emulator/session/control_state.c:15-18 | The in-place update is the specified fact |
| `ControlState.SessionState.OnWindow` | src/emulator/session/control_state.c:64-71 | Notes the window and ends exactly its own action's flight |
| `ControlState.SessionState.OnVmConsole` | src/emulator/session/control_state.c:73-81 | Notes the VM console and ends exactly its own action's flight |
| `ControlState.SessionState.OnCurrentConsole` | src/emulator/session/control_state.c:83-95 | Notes the Current console and ends exactly its own action's flight |
| `ControlState.SessionState.Take` | src/emulator/session/control_state.c:97-105 | Takes the specified action and marks it in flight |
| `ControlState.SessionState.FrameTargetsReady` | src/emulator/session/control_state.c:128-138 | Frames are shown only on wanted components that are there, and always once a running machine's plan is reached |
| `Debugger.TraceStopsExactly` | src/app-softpc/machine/debug.c:90-139 | A trace plan of n lets any n instructions retire that touch no watch, none fewer, and stops at the next boundary |
| `Debugger.BreakStopsBefore` | src/app-softpc/machine/debug.c:90-126 | A break plan stops before an instruction if and only if it is at the target, except one step off the boundary last stopped at |
| `Debugger.PlanIsFresh` | src/app-softpc/machine/debug.c:246-267 | Setting a plan starts afresh and skips a boundary exactly if it is the last stop and the current one |
| `Debugger.WatchStops` | src/app-softpc/machine/debug.c:128-168 | A touched watch stops at the next boundary and the result names the first one touched |
| `Debugger.ExecuteWatchStops` | src/app-softpc/machine/debug.c:100-112 | An execute watch stops before its instruction, but for one step off the last stop, and is named |
| `Debugger.StopsAreRemembered` | src/app-softpc/machine/debug.c:113-126 | A stop is remembered with the boundary it happened at, and going on keeps the last one |
| `Debugger.BreakStopsAgain` | src/app-softpc/machine/debug.c:90-126 | A break set where it stopped lets the instruction run and stops there again the next time |
| `Debugger.TraceRecords` | src/app-softpc/machine/debug.c:142-168 | A trace records the accesses of an instruction in order up to the capacity and says if there were more |
| `Debugger.DebugState.OnBegin` | src/app-softpc/machine/debug.c:90-126 | The in-place hook is the specified step |
| `Debugger.DebugState.OnRetired` | src/app-softpc/machine/debug.c:128-139 | The in-place hook is the specified step |
| `Debugger.DebugState.OnAccess` | src/app-softpc/machine/debug.c:142-168 | The in-place hook is the specified step |
| `Debugger.DebugState.RequestPlan` | src/app-softpc/machine/debug.c:246-267 | Refuses exactly no plan and traces of no or too many instructions, else sets the plan |
| `Debugger.DebugState.RequestClear` | src/app-softpc/machine/debug.c:239-244 | Clears the plan and its result, keeping the last stop |
| `Render.RenderFrame` | src/lib/kvm-window/render.c:32-76 | A frame of another size is rejected with nothing changed; otherwise every pixel equals the direct decoding, the damage is the exact bounding box of the pixels that differed, all of an invalid surface, and none means nothing differed |
| `Render.UpdatePixel` | src/lib/kvm-window/render.c:21-30 | Sets one pixel and widens an exact bounding box by exactly the pixels that changed |
| `Render.LeftmostIsHighest` | src/lib/kvm-window/render.c:61-66 | The leftmost of the eight pixels of a line is its highest bit |
| `Render.FullAndEmptyLines` | src/lib/kvm-window/render.c:58-66 | An underlined line shows the foreground, an empty line of a glyph the background |
| `Render.InsideIsSize` | src/lib/kvm-window/render.c:3-19 | The size of a frame is exactly the pixels its cells or lines cover |
| `Utf8.Validate` | src/lib/base/text.c:3-29 | Accepts a span if and only if it is a concatenation of encoded scalar values (sections 3 and 4 of RFC 3629) |
| `Utf8.EncodeUnique` | src/lib/base/text.c:7-26 | A span starts with at most one encoded scalar value |
| `Utf8.EncodeExamples` | src/lib/base/text.c:7-26 | The examples of section 7 of RFC 3629 and the borders of its table |
| `MonitorText.WriteText` | src/emulator/session/session.c:73-94 | Chunks are valid and below 1024 bytes; when done they are the text with each bare LF made CRLF; a valid text on a reliable console is always done: neither the overflow exit nor the console's check (src/lib/console/console.c:150-165) refuses |
| `Geometry.FitIsIdeal` | src/lib/kvm-window/geometry.c:78-100 | A fit exists exactly for positive bounds and picture; no 64-bit product or 32-bit result overflows; it stays in the bounds and meets one |
| `Geometry.FitIsStable` | src/lib/kvm-window/geometry.c:4-7 | Fitting into the result of a fit returns it |
| `Geometry.RoundingIsTight` | src/lib/kvm-window/geometry.c:4-7 | Rounding up costs less than one unit on the other axis |
| `Geometry.OuterIsInside` | src/lib/kvm-window/geometry.c:29-53 | The outer rectangle is nonempty, inside the work area and centred, and keeps a size that fits |
| `Geometry.ClientFits` | src/lib/kvm-window/geometry.c:55-76 | Client and decorations stay inside the work area and refitting changes nothing |

## Left out

- Failure of the machine's native synchronisation calls, the debug lease number, state and frame notification callbacks, liveness of the driver, and the 32-bit wrap of run generations in the machine.
- The machine's control interface is one caller thread, as its documentation requires; the section of the request lock in take_request is one step.
- Directory and permission behaviour of file opening, exclusive leases and media replacement beyond what restoring needs.
- The core and device archives inside a snapshot image: any formats that can be read back.
- Size limits of the host: `size_t` is taken as 64 bits and `long` as 32 bits; allocation-size overflow is one more refused allocation.
- Shifts and bitwise or on whole bytes and six-bit groups are written as arithmetic on disjoint digits, outside SHA-256.
- The pressed-key ledger and input dispatch of the session, monitor prompts and pending text: easy members.
- Resetting the session's event is taken to succeed.
- Native console output gating and text-frame output of logical Consoles.
- The copied operand data, register, port and memory requests of the debugger.
- Cursor rectangles, damage mapping and interactive sizing of the window.
- Audio, MIDI, serial, printer, assembler, command parsing and startup: host sequencing or presentation.
