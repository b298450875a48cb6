/**
 Writing a text to the monitor console in chunks that never split a scalar, with a carriage
 return in front of every bare line feed.
 */
module MonitorText {
  import opened Bytes
  import opened Utf8

  const CHUNK_BYTES := 1024
  const CR: byte := 13
  const LF: byte := 10

  // A text with each bare LF made CRLF.
  function Crlf(text: seq<byte>): seq<byte> {
    if text == [] then []
    else
      var n := |text| - 1;
      Crlf(text[..n]) + if text[n] == LF && (n == 0 || text[n - 1] != CR) then [CR, LF] else [text[n]]
  }

  function Joined(chunks: seq<seq<byte>>): seq<byte> {
    if chunks == [] then [] else Joined(chunks[..|chunks| - 1]) + chunks[|chunks| - 1]
  }

  // Each a valid text of less than the chunk size.
  ghost predicate Proper(chunks: seq<seq<byte>>) {
    forall i :: 0 <= i < |chunks| ==> |chunks[i]| < CHUNK_BYTES && Valid(chunks[i])
  }

  lemma JoinedMore(chunks: seq<seq<byte>>, chunk: seq<byte>)
    requires Proper(chunks) && |chunk| < CHUNK_BYTES && Valid(chunk)
    ensures Joined(chunks + [chunk]) == Joined(chunks) + chunk && Proper(chunks + [chunk])
  {
    assert (chunks + [chunk])[..|chunks|] == chunks;
  }

  datatype Result = Done | HostFailed | Rejected | Overflow

  class MonitorWriter {
    const chunk: array<byte>
    const reliable: bool            // the host shows whatever the console takes
    var used: nat
    var previous: byte
    var written: seq<seq<byte>>     // what the console has accepted
    ghost var Text: seq<byte>       // the bytes processed
    ghost var All: seq<scalar>      // if the text is valid, its scalars,
    ghost var J: nat                // how many of them are complete,
    ghost var P: nat                // how many bytes there are of the next one,
    ghost var Here: seq<scalar>     // and the complete scalars in the chunk

    // The chunks and the buffer hold the converted bytes.
    ghost predicate Sound()
      reads this, chunk
    {
      && chunk.Length == CHUNK_BYTES && used < CHUNK_BYTES && Proper(written)
      && Joined(written) + chunk[..used] == Crlf(Text)
      && previous == (if Text == [] then 0 else Text[|Text| - 1])
    }

    // The bytes of the scalar that is not complete.
    ghost function Part(): seq<byte>
      requires J <= |All| && if J == |All| then P == 0 else P < |Encode(All[J])|
      reads this
    {
      if P == 0 then [] else Encode(All[J])[..P]
    }

    ghost predicate InScalars()
      reads this, chunk
    {
      && (J <= |All| && if J == |All| then P == 0 else P < |Encode(All[J])|)
      && used <= chunk.Length && chunk[..used] == EncodeAll(Here) + Part()
      && used <= CHUNK_BYTES - 2 && (P > 0 ==> used <= CHUNK_BYTES - 6 + P)
    }

    constructor (reliable: bool, ghost all: seq<scalar>)
      ensures this.reliable == reliable && Sound() && InScalars() && Text == [] && All == all && J == 0 && P == 0
        && fresh(chunk) && written == []
    {
      chunk := new byte[CHUNK_BYTES](_ => 0);
      this.reliable, used, previous, written := reliable, 0, 0, [];
      Text, All, J, P, Here := [], all, 0, 0, [];
      new;
      assert chunk[..0] == [];
    }

    // The console checks the text before it takes it, and the host may fail.
    method Flush() returns (r: Result)
      requires Sound()
      modifies this`used, this`written, this`Here
      ensures Sound() && Text == old(Text) && (r == Done || (r == HostFailed && !reliable) || r == Rejected)
      ensures r == Done ==> used == 0 && (old(InScalars()) && P == 0 ==> InScalars())
      ensures r == Rejected ==> !Valid(chunk[..old(used)])
    {
      var valid := Validate(chunk[..used]);
      if !valid { return Rejected; }
      var failed: bool := *;
      if failed && !reliable { return HostFailed; }
      Accept();
      r := Done;
    }

    method Accept()
      requires Sound() && Valid(chunk[..used])
      modifies this`used, this`written, this`Here
      ensures Sound() && used == 0 && Here == []
    {
      JoinedMore(written, chunk[..used]);
      written := written + [chunk[..used]];
      used, Here := 0, [];
      assert Joined(written) + chunk[..0] == Joined(written);
    }

    // The room check in front of a byte.
    method Room(b: byte) returns (r: Result)
      requires Sound()
      modifies this`used, this`written, this`Here
      ensures Sound() && (r == Done ==> used < CHUNK_BYTES - 1 && (!Continuation(b) ==> used <= CHUNK_BYTES - 6))
      ensures old(InScalars()) && J < |All| && b == Encode(All[J])[P] ==>
        (r == Done || (r == HostFailed && !reliable)) && (r == Done ==> InScalars() && used <= CHUNK_BYTES - 6 + P)
    {
      ghost var scalars := InScalars() && J < |All| && b == Encode(All[J])[P];
      if scalars { EncodeShape(All[J]); }
      r := Done;
      if used + 5 >= CHUNK_BYTES && !Continuation(b) {
        if scalars { assert Encodes(Here, chunk[..used]); }
        r := Flush();
        if r != Done { return; }
      }
      if used >= CHUNK_BYTES - 1 { r := Overflow; }
    }

    // Stores a byte, behind a carriage return if it is a bare line feed.
    method Store(b: byte)
      requires Sound() && used < CHUNK_BYTES - 1 && (b == LF ==> used < CHUNK_BYTES - 2)
      modifies this`used, this`previous, this`Text, chunk
      ensures Sound() && Text == old(Text) + [b]
      ensures chunk[..used] == old(chunk[..used]) + if b == LF && old(previous) != CR then [CR, LF] else [b]
    {
      ghost var before := chunk[..used];
      if b == LF && previous != CR {
        chunk[used] := CR;
        used := used + 1;
      }
      chunk[used] := b;
      used := used + 1;
      previous := b;
      assert chunk[..used] == before + if b == LF && old(previous) != CR then [CR, LF] else [b];
      Text := Text + [b];
      assert Text[..|Text| - 1] == old(Text);
    }

    // One turn of the loop.
    method Put(b: byte) returns (r: Result)
      requires Sound()
      modifies this, chunk
      ensures Sound() && All == old(All) && (r == Done ==> Text == old(Text) + [b])
      ensures old(InScalars()) && old(J) < |All| && b == Encode(All[old(J)])[old(P)] ==>
        (r == Done || (r == HostFailed && !reliable))
          && (r == Done ==> InScalars() && (J, P) == Next(All, old(J), old(P)))
    {
      ghost var scalars := InScalars() && J < |All| && b == Encode(All[J])[P];
      r := Room(b);
      if r != Done { return; }
      ghost var bare := b == LF && previous != CR;
      Store(b);
      if scalars { Advance(b, bare); }
    }

    // What a stored byte means for the scalars.
    ghost method Advance(b: byte, bare: bool)
      requires chunk.Length == CHUNK_BYTES && J < |All| && P < |Encode(All[J])| && b == Encode(All[J])[P]
        && (bare ==> b == LF)
      requires used <= chunk.Length && chunk[..used] == EncodeAll(Here) + Part() + if bare then [CR, LF] else [b]
      requires used <= CHUNK_BYTES - 6 + P + if bare then 2 else 1
      modifies this`Here, this`J, this`P
      ensures InScalars() && (J, P) == Next(All, old(J), old(P))
    {
      var c := All[J];
      if P + 1 == |Encode(c)| {
        Completed(Here, c, P, bare, chunk[..used]);
        Here := Here + if bare then [13, 10] else [c];
        J, P := J + 1, 0;
      } else {
        Extended(Here, c, P, bare, chunk[..used]);
        P := P + 1;
      }
    }
  }

  // Where the next byte is.
  ghost function Next(all: seq<scalar>, j: nat, p: nat): (nat, nat)
    requires j < |all|
  {
    if p + 1 == |Encode(all[j])| then (j + 1, 0) else (j, p + 1)
  }

  // The last byte of an encoding makes it complete; another one extends it.
  lemma LastByte(x: seq<byte>, e: seq<byte>, p: nat)
    requires p + 1 == |e|
    ensures x + (if p == 0 then [] else e[..p]) + [e[p]] == x + e
  {
    assert e == e[..p] + [e[p]];
  }

  lemma NextByte(x: seq<byte>, e: seq<byte>, p: nat)
    requires p + 1 < |e|
    ensures x + (if p == 0 then [] else e[..p]) + [e[p]] == x + e[..p + 1]
  {
    assert e[..p + 1] == e[..p] + [e[p]];
  }

  // With the last byte of a scalar, the buffer holds complete scalars.
  lemma Completed(here: seq<scalar>, c: scalar, p: nat, bare: bool, buffer: seq<byte>)
    requires p + 1 == |Encode(c)| && (bare ==> Encode(c)[p] == LF)
    requires buffer == EncodeAll(here) + (if p == 0 then [] else Encode(c)[..p]) + if bare then [CR, LF]
      else [Encode(c)[p]]
    ensures buffer == EncodeAll(here + if bare then [13, 10] else [c])
  {
    EncodeShape(c);
    if bare {
      EncodeCrlf(here);
    } else {
      LastByte(EncodeAll(here), Encode(c), p);
      EncodeSnoc(here, c);
    }
  }

  lemma Extended(here: seq<scalar>, c: scalar, p: nat, bare: bool, buffer: seq<byte>)
    requires p + 1 < |Encode(c)| && (bare ==> Encode(c)[p] == LF)
    requires buffer == EncodeAll(here) + (if p == 0 then [] else Encode(c)[..p]) + if bare then [CR, LF]
      else [Encode(c)[p]]
    ensures !bare && buffer == EncodeAll(here) + Encode(c)[..p + 1]
  {
    EncodeShape(c);
    NextByte(EncodeAll(here), Encode(c), p);
  }

  lemma EncodeSnoc(cs: seq<scalar>, c: scalar)
    ensures EncodeAll(cs + [c]) == EncodeAll(cs) + Encode(c)
  {
    EncodeConcat(cs, [c]);
    EncodeOne(c);
  }

  lemma EncodeCrlf(cs: seq<scalar>)
    ensures EncodeAll(cs + [13, 10]) == EncodeAll(cs) + [] + [CR, LF]
  {
    EncodeSnoc(cs, 13);
    EncodeSnoc(cs + [13], 10);
    assert cs + [13] + [10] == cs + [13, 10];
    assert EncodeAll(cs) + [] == EncodeAll(cs);
  }

  // The scalars of a valid text.
  ghost function Scalars(text: seq<byte>): (cs: seq<scalar>)
    ensures Valid(text) ==> Encodes(cs, text)
  {
    if Valid(text) then var cs: seq<scalar> :| Encodes(cs, text); cs else []
  }

  // emulator_session_write_text. What has been written is valid chunks below the chunk size;
  // when it is done they make up the whole text with each bare LF made CRLF; and on a valid
  // text only the host can make it fail, never the overflow exit or the console's check.
  method WriteText(text: seq<byte>, reliable: bool) returns (r: Result, chunks: seq<seq<byte>>)
    ensures Proper(chunks)
    ensures r == Done ==> Joined(chunks) == Crlf(text)
    ensures Valid(text) ==> r == Done || (r == HostFailed && !reliable)
  {
    ghost var all := Scalars(text);
    var w := new MonitorWriter(reliable, all);
    r := WriteAll(w, text, all, Valid(text));
    chunks := w.written;
  }

  method WriteAll(w: MonitorWriter, text: seq<byte>, ghost all: seq<scalar>, ghost valid: bool) returns (r: Result)
    requires Progress(w, text, all, 0, valid) && (valid ==> Encodes(all, text))
    modifies w, w.chunk
    ensures Proper(w.written) && (r == Done ==> Joined(w.written) == Crlf(text))
    ensures valid ==> r == Done || (r == HostFailed && !w.reliable)
  {
    r := WriteBytes(w, text, all, valid);
    if r == Done { r := Finish(w, text, all, valid); }
  }

  method WriteBytes(w: MonitorWriter, text: seq<byte>, ghost all: seq<scalar>, ghost valid: bool) returns (r: Result)
    requires Progress(w, text, all, 0, valid) && (valid ==> Encodes(all, text))
    modifies w, w.chunk
    ensures Proper(w.written) && (r == Done ==> Progress(w, text, all, |text|, valid))
    ensures valid ==> r == Done || (r == HostFailed && !w.reliable)
  {
    var i := 0;
    r := Done;
    while i < |text|
      invariant i <= |text| && Progress(w, text, all, i, valid) && r == Done
    {
      r := WriteByte(w, text, all, i, valid);
      if r != Done { return; }
      i := i + 1;
    }
  }

  // The first i bytes have been put; those of a valid text are in order.
  ghost predicate Progress(w: MonitorWriter, text: seq<byte>, all: seq<scalar>, i: nat, valid: bool)
    reads w, w.chunk
  {
    i <= |text| && w.Sound() && w.Text == text[..i] && w.All == all
      && (valid ==> w.InScalars() && (w.J, w.P) == PlaceOf(all, i))
  }

  method WriteByte(w: MonitorWriter, text: seq<byte>, ghost all: seq<scalar>, i: nat, ghost valid: bool)
      returns (r: Result)
    requires Progress(w, text, all, i, valid) && i < |text| && (valid ==> Encodes(all, text))
    modifies w, w.chunk
    ensures Proper(w.written) && (r == Done ==> Progress(w, text, all, i + 1, valid))
    ensures valid ==> r == Done || (r == HostFailed && !w.reliable)
  {
    if valid {
      PlaceIsAt(text, all, i);
      ByteAt(text, all, i, w.J, w.P);
    }
    r := w.Put(text[i]);
  }

  // The rest of the text, if any.
  method Finish(w: MonitorWriter, text: seq<byte>, ghost all: seq<scalar>, ghost valid: bool) returns (r: Result)
    requires Progress(w, text, all, |text|, valid) && (valid ==> Encodes(all, text))
    modifies w, w.chunk
    ensures Proper(w.written) && (r == Done ==> Joined(w.written) == Crlf(text))
    ensures valid ==> r == Done || (r == HostFailed && !w.reliable)
  {
    assert text[..|text|] == text;
    if valid {
      PlaceIsAt(text, all, |text|);
      AtEnd(text, all, w.J, w.P);
      assert Encodes(w.Here, w.chunk[..w.used]);
    }
    r := Done;
    if w.used != 0 { r := w.Flush(); }
  }

  // Where the byte behind the first i ones is.
  ghost function PlaceOf(all: seq<scalar>, i: nat): (nat, nat) {
    if i == 0 then (0, 0)
    else
      var (j, p) := PlaceOf(all, i - 1);
      if j < |all| then Next(all, j, p) else (j, p)
  }

  lemma {:induction false} PlaceIsAt(text: seq<byte>, all: seq<scalar>, i: nat)
    requires Encodes(all, text) && i <= |text|
    ensures At(text, all, i, PlaceOf(all, i).0, PlaceOf(all, i).1)
  {
    if i > 0 {
      PlaceIsAt(text, all, i - 1);
      ByteAt(text, all, i - 1, PlaceOf(all, i - 1).0, PlaceOf(all, i - 1).1);
    } else {
      assert all[..0] == [];
    }
  }

  // A place in a valid text: the bytes of some complete scalars and of a part of the next.
  ghost predicate At(text: seq<byte>, all: seq<scalar>, i: nat, j: nat, p: nat) {
    && Encodes(all, text) && j <= |all| && i <= |text|
    && (if j == |all| then p == 0 else p < |Encode(all[j])|)
    && i == |EncodeAll(all[..j])| + p
  }

  lemma ByteAt(text: seq<byte>, all: seq<scalar>, i: nat, j: nat, p: nat)
    requires At(text, all, i, j, p) && i < |text|
    ensures j < |all| && text[i] == Encode(all[j])[p]
    ensures var (j1, p1) := Next(all, j, p); At(text, all, i + 1, j1, p1)
  {
    assert all[..|all|] == all;
    if j < |all| {
      assert all == all[..j] + [all[j]] + all[j + 1..];
      EncodeConcat(all[..j] + [all[j]], all[j + 1..]);
      EncodeSnoc(all[..j], all[j]);
      assert all[..j + 1] == all[..j] + [all[j]];
    }
  }

  lemma AtEnd(text: seq<byte>, all: seq<scalar>, j: nat, p: nat)
    requires At(text, all, |text|, j, p)
    ensures p == 0
  {
    if j < |all| {
      assert all == all[..j] + [all[j]] + all[j + 1..];
      EncodeConcat(all[..j] + [all[j]], all[j + 1..]);
      EncodeSnoc(all[..j], all[j]);
    }
  }
}
