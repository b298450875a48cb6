/**
 The copy-on-write medium: a table of 4 KiB pages over a base file. Reads, writes and fills
 walk the pages; the logical contents are a flat sequence of bytes. The host may refuse any
 allocation and any file access.
 */
module Medium {
  import opened Bytes

  const PAGE_BYTES := 4096
  const FILL_BYTES := 512

  datatype Mode = Direct | ReadOnly | Overlay

  datatype Status = Ok | InvalidArgument | InvalidState | NoMemory | IoError

  datatype Page = Absent | Present(bytes: seq<byte>)

  function PageCount(byteCount: nat): nat {
    byteCount / PAGE_BYTES + if byteCount % PAGE_BYTES != 0 then 1 else 0
  }

  // The backing file of a medium; its length never changes.
  class File {
    var bytes: seq<byte>

    constructor (bytes: seq<byte>)
      ensures this.bytes == bytes
    {
      this.bytes := bytes;
    }
  }

  class Medium {
    const file: File?
    const byteCount: nat
    const mode: Mode
    const reliable: bool  // the host grants whatever is asked through this medium
    const pages: array<Page>

    ghost predicate Valid()
      reads this, file, pages
    {
      && (file == null ==> mode == Overlay)
      && (file != null ==> |file.bytes| == byteCount)
      && (mode == Overlay ==>
            pages.Length == PageCount(byteCount) &&
            forall p :: 0 <= p < pages.Length && pages[p].Present? ==> |pages[p].bytes| == PAGE_BYTES)
    }

    // What the file holds; a medium without a file reads as zeros.
    ghost function Base(): (r: seq<byte>)
      requires Valid()
      reads this, file, pages
      ensures |r| == byteCount
    {
      if file == null then Repeat(0, byteCount) else file.bytes
    }

    // One logical byte: from its page if there is one, else from the file.
    ghost function ByteAt(i: nat): byte
      requires Valid() && i < byteCount
      reads this, file, pages
    {
      if mode == Overlay && pages[i / PAGE_BYTES].Present? then pages[i / PAGE_BYTES].bytes[i % PAGE_BYTES]
        else Base()[i]
    }

    // The first n logical bytes.
    ghost function Prefix(n: nat): (r: seq<byte>)
      requires Valid() && n <= byteCount
      reads this, file, pages
      ensures |r| == n
    {
      if n == 0 then [] else Prefix(n - 1) + [ByteAt(n - 1)]
    }

    ghost function Contents(): (r: seq<byte>)
      requires Valid()
      reads this, file, pages
      ensures |r| == byteCount
    {
      Prefix(byteCount)
    }

    lemma {:induction false} PrefixAt(n: nat)
      requires Valid() && n <= byteCount
      ensures forall i :: 0 <= i < n ==> Prefix(n)[i] == ByteAt(i)
    {
      if n > 0 { PrefixAt(n - 1); }
    }

    lemma ContentsAt()
      requires Valid()
      ensures forall i :: 0 <= i < byteCount ==> Contents()[i] == ByteAt(i)
    {
      PrefixAt(byteCount);
    }

    // A medium on a file starts out as the file; an overlay without a file as zeros.
    constructor (file: File?, byteCount: nat, mode: Mode, reliable: bool)
      requires file == null ==> mode == Overlay
      requires file != null ==> |file.bytes| == byteCount
      ensures Valid() && fresh(pages) && this.file == file && this.byteCount == byteCount && this.mode == mode
        && this.reliable == reliable
      ensures Contents() == Base()
    {
      this.file, this.byteCount, this.mode, this.reliable := file, byteCount, mode, reliable;
      pages := new Page[PageCount(byteCount)](_ => Absent);
      new;
      ContentsAt();
    }

    // lib_storage_medium_range.
    predicate InRange(offset: nat, count: nat) { offset <= byteCount && count <= byteCount - offset }

    method ReadBase(offset: nat, count: nat) returns (status: Status, bytes: seq<byte>)
      requires Valid() && offset + count <= byteCount
      ensures (status == Ok || status == IoError) && (reliable ==> status == Ok)
      ensures status == Ok ==> bytes == Base()[offset..offset + count]
    {
      if count == 0 { return Ok, []; }
      if file == null { return Ok, Repeat(0, count); }
      var failed: bool := *;
      if failed && !reliable { return IoError, []; }
      return Ok, file.bytes[offset..offset + count];
    }

    // Makes a page writable. Whether it succeeds or not, the contents stay what they were.
    method PageForWrite(index: nat) returns (status: Status)
      requires Valid() && mode == Overlay && index < pages.Length
      modifies pages
      ensures Valid() && Contents() == old(Contents())
      ensures status == Ok <==> pages[index].Present?
      ensures (status == Ok || status == NoMemory || status == IoError) && (reliable ==> status == Ok)
    {
      if pages[index].Present? { return Ok; }
      ContentsAt();
      var refused: bool := *;
      if refused && !reliable { return NoMemory; }
      var offset := index * PAGE_BYTES;
      var count := byteCount - offset;
      if count > PAGE_BYTES { count := PAGE_BYTES; }
      var bytes;
      status, bytes := ReadBase(offset, count);
      if status != Ok { return; }
      if count < PAGE_BYTES { bytes := bytes + Repeat(0, PAGE_BYTES - count); }
      pages[index] := Present(bytes);
      ContentsAt();
    }

    // The part of an access at `at` that falls into one page.
    function Piece(at: nat, left: nat): (n: nat)
      ensures n <= left && at % PAGE_BYTES + n <= PAGE_BYTES && (left > 0 ==> n > 0)
    {
      if PAGE_BYTES - at % PAGE_BYTES > left then left else PAGE_BYTES - at % PAGE_BYTES
    }

    // Every byte of such a part is on the page of its first byte.
    lemma SamePage(at: nat, left: nat, i: nat)
      requires i < Piece(at, left)
      ensures (at + i) / PAGE_BYTES == at / PAGE_BYTES && (at + i) % PAGE_BYTES == at % PAGE_BYTES + i
    {
    }

    method ReadPiece(at: nat, left: nat) returns (status: Status, piece: seq<byte>)
      requires Valid() && mode == Overlay && 0 < left && at + left <= byteCount
      ensures (status == Ok || status == IoError) && (reliable ==> status == Ok)
      ensures status == Ok ==> piece == Contents()[at..at + Piece(at, left)]
    {
      var page, start, n := at / PAGE_BYTES, at % PAGE_BYTES, Piece(at, left);
      status := Ok;
      if pages[page].Present? {
        piece := pages[page].bytes[start..start + n];
      } else {
        status, piece := ReadBase(at, n);
        if status != Ok { return; }
      }
      ContentsAt();
      forall i | 0 <= i < n ensures piece[i] == Contents()[at + i] {
        SamePage(at, left, i);
      }
    }

    // Reads exactly the logical bytes, or fails.
    method ReadAt(offset: nat, count: nat) returns (status: Status, bytes: seq<byte>)
      requires Valid()
      ensures !InRange(offset, count) <==> status == InvalidArgument
      ensures status == Ok || status == InvalidArgument || status == IoError
      ensures reliable ==> status != IoError
      ensures status == Ok ==> bytes == Contents()[offset..offset + count]
    {
      bytes := [];
      if !InRange(offset, count) { return InvalidArgument, []; }
      if mode != Overlay {
        status, bytes := ReadBase(offset, count);
        ContentsAt();
        assert Contents() == Base();
        return;
      }
      var at, left := offset, count;
      while left != 0
        invariant offset <= at && 0 <= left && at + left == offset + count
        invariant bytes == Contents()[offset..at]
        decreases left
      {
        var piece;
        status, piece := ReadPiece(at, left);
        if status != Ok { return; }
        bytes := bytes + piece;
        at, left := at + |piece|, left - |piece|;
      }
      status := Ok;
    }

    // Writes the part that falls into one page, all of it or nothing.
    method WritePiece(at: nat, bytes: seq<byte>) returns (status: Status)
      requires Valid() && mode == Overlay && bytes != [] && at + |bytes| <= byteCount
      modifies pages
      ensures Valid() && (status == Ok || status == NoMemory || status == IoError) && (reliable ==> status == Ok)
      ensures Wrote(old(Contents()), Contents(), at, bytes, if status == Ok then Piece(at, |bytes|) else 0)
    {
      var page, start, n := at / PAGE_BYTES, at % PAGE_BYTES, Piece(at, |bytes|);
      status := PageForWrite(page);
      if status != Ok { return; }
      ghost var before := Contents();
      CopyPiece(at, bytes[..n], |bytes|);
      WrittenIsOverwrite(before, at, bytes, n);
    }

    // The copy into a page.
    method CopyPiece(at: nat, piece: seq<byte>, ghost left: nat)
      requires Valid() && mode == Overlay && |piece| == Piece(at, left) > 0 && at + |piece| <= byteCount
        && pages[at / PAGE_BYTES].Present?
      modifies pages
      ensures Valid() && Contents() == Overwrite(old(Contents()), at, piece)
    {
      var page, start := at / PAGE_BYTES, at % PAGE_BYTES;
      ContentsAt();
      pages[page] := Present(Overwrite(pages[page].bytes, start, piece));
      forall i | 0 <= i < byteCount ensures ByteAt(i) == if at <= i < at + |piece| then piece[i - at]
        else old(ByteAt(i)) {
        if at <= i < at + |piece| { SamePage(at, left, i - at); }
      }
      ContentsAt();
    }

    // Seek and exact write on the file: a failure may leave a prefix written.
    method WriteFile(offset: nat, bytes: seq<byte>) returns (status: Status, ghost done: nat)
      requires Valid() && mode == Direct && offset + |bytes| <= byteCount
      modifies file
      ensures Valid() && (status == Ok || status == IoError) && (reliable ==> status == Ok)
      ensures (status == Ok ==> done == |bytes|) && Wrote(old(Contents()), Contents(), offset, bytes, done)
    {
      var written: int := *;
      if written < 0 || written > |bytes| || reliable { written := |bytes|; }
      ContentsAt();
      file.bytes := Overwrite(file.bytes, offset, bytes[..written]);
      ContentsAt();
      WrittenIsOverwrite(old(file.bytes), offset, bytes, written);
      assert Contents() == file.bytes && old(Contents()) == old(file.bytes);
      status, done := if written == |bytes| then Ok else IoError, written;
    }

    // lib_storage_medium_write. What a failed write has done is to write a prefix. Only a
    // direct medium changes its file.
    method Write(offset: nat, bytes: seq<byte>) returns (status: Status, ghost done: nat)
      requires Valid()
      modifies pages, if mode == Direct then {file} else {}
      ensures Valid()
      ensures !InRange(offset, |bytes|) <==> status == InvalidArgument
      ensures InRange(offset, |bytes|) && mode == ReadOnly <==> status == InvalidState
      ensures reliable ==> status == Ok || status == InvalidArgument || status == InvalidState
      ensures (status == Ok ==> done == |bytes|) && (status == InvalidArgument || status == InvalidState ==> done == 0)
      ensures Wrote(old(Contents()), Contents(), offset, bytes, done)
      ensures mode != Direct && file != null ==> file.bytes == old(file.bytes)
    {
      if !InRange(offset, |bytes|) { return InvalidArgument, 0; }
      if mode == ReadOnly { return InvalidState, 0; }
      if mode == Direct {
        status, done := WriteFile(offset, bytes);
        return;
      }
      status, done := WritePages(offset, bytes);
    }

    // The page loop of an overlay write.
    method WritePages(offset: nat, bytes: seq<byte>) returns (status: Status, ghost done: nat)
      requires Valid() && mode == Overlay && offset + |bytes| <= byteCount
      modifies pages
      ensures Valid() && (status == Ok || status == NoMemory || status == IoError) && (reliable ==> status == Ok)
      ensures (status == Ok ==> done == |bytes|) && Wrote(old(Contents()), Contents(), offset, bytes, done)
    {
      done := 0;
      var at := 0;
      ghost var start := Contents();
      while at != |bytes|
        invariant Valid()
        invariant done == at <= |bytes| && Wrote(start, Contents(), offset, bytes, at)
        decreases |bytes| - at
      {
        ghost var before := Contents();
        status := WritePiece(offset + at, bytes[at..]);
        if status != Ok { return; }
        var n := Piece(offset + at, |bytes| - at);
        WroteJoins(start, before, Contents(), offset, bytes, at, bytes[at..], n);
        at := at + n;
        done := at;
      }
      status := Ok;
    }

    // lib_storage_medium_write_at: a direct write is flushed, which may fail too.
    method WriteAt(offset: nat, bytes: seq<byte>) returns (status: Status, ghost done: nat)
      requires Valid()
      modifies pages, if mode == Direct then {file} else {}
      ensures Valid()
      ensures !InRange(offset, |bytes|) <==> status == InvalidArgument
      ensures InRange(offset, |bytes|) && mode == ReadOnly <==> status == InvalidState
      ensures reliable ==> status == Ok || status == InvalidArgument || status == InvalidState
      ensures (status == Ok ==> done == |bytes|) && (status == InvalidArgument || status == InvalidState ==> done == 0)
      ensures Wrote(old(Contents()), Contents(), offset, bytes, done)
      ensures mode != Direct && file != null ==> file.bytes == old(file.bytes)
    {
      status, done := Write(offset, bytes);
      if status == Ok && mode == Direct {
        var failed: bool := *;
        if failed && !reliable { status := IoError; }
      }
    }

    // lib_storage_medium_fill_at: the value over the whole range, or over a prefix of it. An
    // empty fill asks nothing of the host; any other on a direct medium is flushed, and the
    // first failure counts.
    method FillAt(offset: nat, count: nat, value: byte) returns (status: Status, ghost done: nat)
      requires Valid()
      modifies pages, if mode == Direct then {file} else {}
      ensures Valid()
      ensures !InRange(offset, count) <==> status == InvalidArgument
      ensures InRange(offset, count) && count > 0 && mode == ReadOnly <==> status == InvalidState
      ensures reliable || count == 0 ==> status == Ok || status == InvalidArgument || status == InvalidState
      ensures (status == Ok ==> done == count) && (status == InvalidArgument || status == InvalidState ==> done == 0)
      ensures Wrote(old(Contents()), Contents(), offset, Repeat(value, count), done)
      ensures mode != Direct && file != null ==> file.bytes == old(file.bytes)
    {
      if !InRange(offset, count) { return InvalidArgument, 0; }
      if count == 0 { return Ok, 0; }
      status, done := FillPieces(offset, count, value);
      if mode == Direct {
        var failed: bool := *;
        if failed && !reliable && status == Ok { status := IoError; }
      }
    }

    // The loop of a fill, 512 bytes at a time.
    method FillPieces(offset: nat, count: nat, value: byte) returns (status: Status, ghost done: nat)
      requires Valid() && offset + count <= byteCount && count > 0
      modifies pages, if mode == Direct then {file} else {}
      ensures Valid() && status != InvalidArgument && (status == InvalidState <==> mode == ReadOnly)
      ensures reliable ==> status == Ok || status == InvalidState
      ensures (status == Ok ==> done == count) && (status == InvalidArgument || status == InvalidState ==> done == 0)
      ensures Wrote(old(Contents()), Contents(), offset, Repeat(value, count), done)
      ensures mode != Direct && file != null ==> file.bytes == old(file.bytes)
    {
      done := 0;
      var at := 0;
      ghost var start, all := Contents(), Repeat(value, count);
      while at != count
        invariant Valid() && (mode != Direct && file != null ==> file.bytes == old(file.bytes))
        invariant done == at <= count && Wrote(start, Contents(), offset, all, at) && (at > 0 ==> mode != ReadOnly)
        decreases count - at
      {
        var n := if count - at > FILL_BYTES then FILL_BYTES else count - at;
        status, done := FillPiece(offset, at, n, value, start, all);
        if status != Ok { return; }
        at := at + n;
      }
      status := Ok;
    }

    // One turn of it.
    method FillPiece(offset: nat, at: nat, n: nat, value: byte, ghost start: seq<byte>, ghost all: seq<byte>)
        returns (status: Status, ghost done: nat)
      requires Valid() && offset + at + n <= byteCount && n > 0 && at + n <= |all| && all == Repeat(value, |all|)
      requires Wrote(start, Contents(), offset, all, at)
      modifies pages, if mode == Direct then {file} else {}
      ensures Valid() && status != InvalidArgument && (status == InvalidState <==> mode == ReadOnly)
      ensures reliable ==> status == Ok || status == InvalidState
      ensures (status == Ok ==> done == at + n) && (status == InvalidState ==> done == at)
        && Wrote(start, Contents(), offset, all, done)
      ensures mode != Direct && file != null ==> file.bytes == old(file.bytes)
    {
      ghost var before, k := Contents(), 0;
      status, k := Write(offset + at, Repeat(value, n));
      WroteJoins(start, before, Contents(), offset, all, at, Repeat(value, n), k);
      done := at + k;
    }
  }

  // ---------- whole runs ----------

  datatype Op =
    | ReadOp(offset: nat, count: nat)
    | WriteOp(offset: nat, bytes: seq<byte>)
    | FillOp(offset: nat, count: nat, value: byte)

  datatype ReadResult = NotRead | Read(bytes: seq<byte>)

  // The prefix of an operation's bytes that has taken effect.
  datatype Effect = Effect(offset: nat, bytes: seq<byte>, done: nat)

  // The bytes an operation would write.
  ghost function Intended(op: Op): seq<byte> {
    match op
    case ReadOp(_, _) => []
    case WriteOp(_, bytes) => bytes
    case FillOp(_, count, value) => Repeat(value, count)
  }

  ghost function Applied(s: seq<byte>, e: Effect): (r: seq<byte>)
    ensures |r| == |s|
  {
    if e.done <= |e.bytes| && (e.done > 0 ==> e.offset + e.done <= |s|) then Written(s, e.offset, e.bytes, e.done)
      else s
  }

  // The flat sequence after the effects, in order.
  ghost function Flat(s: seq<byte>, effects: seq<Effect>): (r: seq<byte>)
    ensures |r| == |s|
  {
    if effects == [] then s else Applied(Flat(s, effects[..|effects| - 1]), effects[|effects| - 1])
  }

  // What an operation is refused for: a range beyond the end, or changing a medium that is read
  // only. An empty fill changes nothing.
  ghost function Refusal(size: nat, mode: Mode, op: Op): Status {
    var count := if op.ReadOp? then op.count else |Intended(op)|;
    if op.offset > size || count > size - op.offset then InvalidArgument
    else if mode == ReadOnly && (op.WriteOp? || (op.FillOp? && count > 0)) then InvalidState
    else Ok
  }

  // An operation on flat bytes is refused exactly as it must be, and then does nothing; if it is
  // not, it succeeds or the host fails. It got done a prefix of what it was asked to write, all of
  // it if it succeeded, and a successful read returned the flat bytes.
  ghost predicate Honest(flat: seq<byte>, mode: Mode, op: Op, status: Status, result: ReadResult, e: Effect) {
    && e.offset == op.offset && e.bytes == Intended(op) && e.done <= |e.bytes| && (status == Ok ==> e.done == |e.bytes|)
    && (if Refusal(|flat|, mode, op) != Ok then status == Refusal(|flat|, mode, op) && e.done == 0
        else status == Ok || status == NoMemory || status == IoError)
    && result == (if op.ReadOp? && status == Ok && op.offset + op.count <= |flat|
                  then Read(flat[op.offset..op.offset + op.count]) else NotRead)
  }

  // Every operation of a run was honest about the flat bytes at its point.
  ghost predicate HonestRun(s: seq<byte>, mode: Mode, ops: seq<Op>, statuses: seq<Status>, results: seq<ReadResult>,
      effects: seq<Effect>) {
    && |ops| == |statuses| == |results| == |effects|
    && (ops == [] ||
        var n := |ops| - 1;
        && HonestRun(s, mode, ops[..n], statuses[..n], results[..n], effects[..n])
        && Honest(Flat(s, effects[..n]), mode, ops[n], statuses[n], results[n], effects[n]))
  }

  // ---------- the flat array ----------

  // Operations on an array of bytes that never fails, and what they answer.
  datatype Array = Array(bytes: seq<byte>, statuses: seq<Status>, results: seq<ReadResult>)

  ghost function ArrayStep(s: seq<byte>, mode: Mode, op: Op): (seq<byte>, Status, ReadResult) {
    if Refusal(|s|, mode, op) != Ok then (s, Refusal(|s|, mode, op), NotRead)
    else if op.ReadOp? then (s, Ok, Read(s[op.offset..op.offset + op.count]))
    else (Overwrite(s, op.offset, Intended(op)), Ok, NotRead)
  }

  ghost function ArrayRun(s: seq<byte>, mode: Mode, ops: seq<Op>): Array {
    if ops == [] then Array(s, [], [])
    else
      var n := |ops| - 1;
      var before := ArrayRun(s, mode, ops[..n]);
      var (bytes, status, result) := ArrayStep(before.bytes, mode, ops[n]);
      Array(bytes, before.statuses + [status], before.results + [result])
  }

  // An honest operation that the host does not fail is the one on the array.
  lemma HonestIsFlat(flat: seq<byte>, mode: Mode, op: Op, status: Status, result: ReadResult, e: Effect)
    requires Honest(flat, mode, op, status, result, e) && status != NoMemory && status != IoError
    ensures (Applied(flat, e), status, result) == ArrayStep(flat, mode, op)
  {
    if status == Ok && !op.ReadOp? {
      WrittenIsOverwrite(flat, e.offset, e.bytes, e.done);
      assert e.bytes[..e.done] == e.bytes;
    }
  }

  method RunOne(m: Medium, op: Op) returns (status: Status, result: ReadResult, ghost effect: Effect)
    requires m.Valid()
    modifies m.pages, if m.mode == Direct then {m.file} else {}
    ensures m.Valid() && m.Contents() == Applied(old(m.Contents()), effect)
    ensures Honest(old(m.Contents()), m.mode, op, status, result, effect)
    ensures m.reliable ==> status != NoMemory && status != IoError
    ensures m.mode != Direct && m.file != null ==> m.file.bytes == old(m.file.bytes)
  {
    if op.ReadOp? {
      status, result := RunRead(m, op);
      effect := Effect(op.offset, [], 0);
    } else {
      ghost var done;
      status, done := RunWrite(m, op);
      result, effect := NotRead, Effect(op.offset, Intended(op), done);
    }
  }

  method RunRead(m: Medium, op: Op) returns (status: Status, result: ReadResult)
    requires m.Valid() && op.ReadOp?
    ensures Honest(m.Contents(), m.mode, op, status, result, Effect(op.offset, [], 0))
    ensures m.reliable ==> status != NoMemory && status != IoError
  {
    var bytes;
    status, bytes := m.ReadAt(op.offset, op.count);
    result := if status == Ok then Read(bytes) else NotRead;
  }

  method RunWrite(m: Medium, op: Op) returns (status: Status, ghost done: nat)
    requires m.Valid() && !op.ReadOp?
    modifies m.pages, if m.mode == Direct then {m.file} else {}
    ensures m.Valid() && Wrote(old(m.Contents()), m.Contents(), op.offset, Intended(op), done)
    ensures Honest(old(m.Contents()), m.mode, op, status, NotRead, Effect(op.offset, Intended(op), done))
    ensures m.reliable ==> status != NoMemory && status != IoError
    ensures m.mode != Direct && m.file != null ==> m.file.bytes == old(m.file.bytes)
  {
    match op {
      case WriteOp(offset, data) => status, done := m.WriteAt(offset, data);
      case FillOp(offset, count, value) => status, done := m.FillAt(offset, count, value);
    }
  }

  lemma HonestMore(s: seq<byte>, mode: Mode, ops: seq<Op>, n: nat, statuses: seq<Status>, status: Status,
                   results: seq<ReadResult>, result: ReadResult, effects: seq<Effect>, effect: Effect)
    requires n < |ops| && HonestRun(s, mode, ops[..n], statuses, results, effects)
    requires Honest(Flat(s, effects), mode, ops[n], status, result, effect)
    ensures HonestRun(s, mode, ops[..n + 1], statuses + [status], results + [result], effects + [effect])
    ensures Flat(s, effects + [effect]) == Applied(Flat(s, effects), effect)
  {
    assert ops[..n + 1][..n] == ops[..n] && (statuses + [status])[..n] == statuses;
    assert (results + [result])[..n] == results && (effects + [effect])[..n] == effects;
  }

  // The host failed nothing.
  ghost predicate NothingFailed(statuses: seq<Status>) {
    forall i :: 0 <= i < |statuses| ==> statuses[i] != NoMemory && statuses[i] != IoError
  }

  lemma ArrayMore(s: seq<byte>, mode: Mode, ops: seq<Op>, n: nat, before: Array, after: Array)
    requires |ops| == n + 1 && before == ArrayRun(s, mode, ops[..n])
    requires |after.statuses| == |after.results| == n + 1
    requires before.statuses == after.statuses[..n] && before.results == after.results[..n]
    requires (after.bytes, after.statuses[n], after.results[n]) == ArrayStep(before.bytes, mode, ops[n])
    ensures after == ArrayRun(s, mode, ops)
  {
    assert after.statuses == after.statuses[..n] + [after.statuses[n]];
    assert after.results == after.results[..n] + [after.results[n]];
  }

  // A run on a host that does not fail is the run on the array, operation by operation.
  lemma {:induction false} HonestRunIsFlat(s: seq<byte>, mode: Mode, ops: seq<Op>, statuses: seq<Status>,
      results: seq<ReadResult>, effects: seq<Effect>)
    requires HonestRun(s, mode, ops, statuses, results, effects) && NothingFailed(statuses)
    ensures Array(Flat(s, effects), statuses, results) == ArrayRun(s, mode, ops)
  {
    if ops != [] {
      var n := |ops| - 1;
      HonestRunIsFlat(s, mode, ops[..n], statuses[..n], results[..n], effects[..n]);
      HonestIsFlat(Flat(s, effects[..n]), mode, ops[n], statuses[n], results[n], effects[n]);
      ArrayMore(s, mode, ops, n, Array(Flat(s, effects[..n]), statuses[..n], results[..n]),
        Array(Flat(s, effects), statuses, results));
    }
  }

  // Some operations have been done on a medium that held the bytes `start`.
  ghost predicate Ran(m: Medium, start: seq<byte>, ops: seq<Op>, statuses: seq<Status>, results: seq<ReadResult>,
      effects: seq<Effect>)
    reads m, m.file, m.pages
  {
    && m.Valid() && m.Contents() == Flat(start, effects) && HonestRun(start, m.mode, ops, statuses, results, effects)
    && (m.reliable ==> NothingFailed(statuses))
  }

  method RunNext(m: Medium, ops: seq<Op>, n: nat, statuses: seq<Status>, results: seq<ReadResult>,
      ghost effects: seq<Effect>, ghost start: seq<byte>)
      returns (status: Status, result: ReadResult, ghost effect: Effect)
    requires n < |ops| && Ran(m, start, ops[..n], statuses, results, effects)
    modifies m.pages, if m.mode == Direct then {m.file} else {}
    ensures Ran(m, start, ops[..n + 1], statuses + [status], results + [result], effects + [effect])
    ensures m.mode != Direct && m.file != null ==> m.file.bytes == old(m.file.bytes)
  {
    status, result, effect := RunOne(m, ops[n]);
    HonestMore(start, m.mode, ops, n, statuses, status, results, result, effects, effect);
  }

  // After any sequence of operations on a medium, with any failures, the contents are the
  // initial contents overwritten by what each operation got done, in order; every operation
  // was honest; and unless the medium is direct its file is unchanged. On a host that does not
  // fail the run is the one on the flat array: contents, statuses and results.
  method RunAll(m: Medium, ops: seq<Op>)
      returns (statuses: seq<Status>, results: seq<ReadResult>, ghost effects: seq<Effect>)
    requires m.Valid()
    modifies m.pages, if m.mode == Direct then {m.file} else {}
    ensures m.Valid() && HonestRun(old(m.Contents()), m.mode, ops, statuses, results, effects)
    ensures m.Contents() == Flat(old(m.Contents()), effects)
    ensures m.reliable ==> Array(m.Contents(), statuses, results) == ArrayRun(old(m.Contents()), m.mode, ops)
    ensures m.mode != Direct && m.file != null ==> m.file.bytes == old(m.file.bytes)
  {
    statuses, results, effects := [], [], [];
    ghost var start := m.Contents();
    var n := 0;
    while n < |ops|
      invariant n <= |ops| && Ran(m, start, ops[..n], statuses, results, effects)
      invariant m.mode != Direct && m.file != null ==> m.file.bytes == old(m.file.bytes)
    {
      var status, result;
      ghost var effect;
      status, result, effect := RunNext(m, ops, n, statuses, results, effects, start);
      statuses, results, effects := statuses + [status], results + [result], effects + [effect];
      n := n + 1;
    }
    assert ops[..n] == ops;
    if m.reliable { HonestRunIsFlat(start, m.mode, ops, statuses, results, effects); }
  }
}
