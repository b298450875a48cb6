/**
 Incremental rendering of a published frame onto the surface of a window, with the rectangle of
 what changed.
 */
module Render {

  const INT32_MAX := 0x7fff_ffff
  const DEFAULT_FONT_HEIGHT := 16
  const FONT_HEIGHT := 32  // slot size of a glyph in the font tables

  datatype Cell = Cell(glyph: nat, secondary: bool, foreground: nat, background: nat, underline: bool)

  // Rows of pixels or cells may be longer than the visible part.
  datatype Frame =
    | Graphics(width: nat, height: nat, pixels: seq<seq<nat>>)
    | Text(columns: nat, rows: nat, fontHeight: nat, underlineRow: nat, cells: seq<seq<Cell>>,
           palette: seq<nat>, font: seq<nat>, secondaryFont: seq<nat>)

  function CellHeight(f: Frame): (h: nat)
    requires f.Text?
    ensures h > 0
  {
    if f.fontHeight == 0 then DEFAULT_FONT_HEIGHT else f.fontHeight
  }

  // What the publication boundary has checked.
  predicate ValidCell(f: Frame, c: Cell)
    requires f.Text?
  {
    c.glyph < 256 && c.foreground < |f.palette| && c.background < |f.palette|
  }

  predicate Validated(f: Frame) {
    match f
    case Graphics(width, height, pixels) =>
      |pixels| >= height && forall y :: 0 <= y < height ==> |pixels[y]| >= width
    case Text(columns, rows, fontHeight, underlineRow, cells, palette, font, secondaryFont) =>
      && CellHeight(f) <= FONT_HEIGHT && |font| == |secondaryFont| == 256 * FONT_HEIGHT
      && |cells| >= rows && (forall r :: 0 <= r < rows ==> |cells[r]| >= columns)
      && (forall r, c :: 0 <= r < rows && 0 <= c < columns ==> ValidCell(f, cells[r][c]))
  }

  datatype Size = NoSize | Size(width: nat, height: nat)

  // kvm_window_frame_size.
  function FrameSize(f: Frame): Size {
    var size :=
      match f
      case Graphics(width, height, _) => Size(width, height)
      case Text(columns, rows, _, _, _, _, _, _) =>
        if columns > INT32_MAX / 8 || rows > INT32_MAX / CellHeight(f) then NoSize
          else Size(columns * 8, rows * CellHeight(f));
    if size.NoSize? || size.width == 0 || size.height == 0 || size.width > INT32_MAX || size.height > INT32_MAX
    then NoSize else size
  }

  // ---------- direct decoding ----------

  // The bits of one line of a cell.
  function Bits(f: Frame, c: Cell, line: nat): nat
    requires f.Text? && Validated(f) && ValidCell(f, c) && line < CellHeight(f)
  {
    if c.underline && line == f.underlineRow then 0xff
    else (if c.secondary then f.secondaryFont else f.font)[c.glyph * FONT_HEIGHT + line]
  }

  function Power2(n: nat): (r: nat)
    ensures r > 0
  {
    if n == 0 then 1 else 2 * Power2(n - 1)
  }

  function CellColour(f: Frame, c: Cell, line: nat, bit: nat): nat
    requires f.Text? && Validated(f) && ValidCell(f, c) && line < CellHeight(f) && bit < 8
  {
    f.palette[if Bits(f, c, line) / Power2(7 - bit) % 2 == 1 then c.foreground else c.background]
  }

  // The value of the first n of eight pixels read as bits, leftmost first.
  function Value(bits: nat, n: nat): nat
    requires n <= 8
  {
    if n == 0 then 0 else 2 * Value(bits, n - 1) + bits / Power2(8 - n) % 2
  }

  // The leftmost pixel of a line is its highest bit: the eight pixels, as bits, are the byte.
  lemma LeftmostIsHighest(bits: nat)
    requires bits < 256
    ensures Value(bits, 8) == bits
  {
    FirstPixels(bits, 8);
    assert Power2(0) == 1;
  }

  lemma {:induction false} FirstPixels(bits: nat, n: nat)
    requires bits < 256 && n <= 8
    ensures Value(bits, n) == bits / Power2(8 - n)
  {
    if n == 0 {
      Powers();
      assert bits / 256 == 0;
    } else {
      FirstPixels(bits, n - 1);
      Halves(bits, Power2(8 - n));
    }
  }

  lemma Halves(bits: nat, p: nat)
    requires p > 0
    ensures bits / p == 2 * (bits / (2 * p)) + bits / p % 2
  {
    var q := bits / p;
    assert q * p <= bits < q * p + p;
    Monotone(q / 2 * 2, q, p);
    Monotone(q + 1, (q / 2 + 1) * 2, p);
    Quotient(bits, 2 * p, q / 2);
  }

  lemma Monotone(a: nat, b: nat, d: nat)
    requires a <= b
    ensures a * d <= b * d
  {
  }

  lemma Quotient(n: nat, d: nat, q: nat)
    requires d > 0 && q * d <= n < (q + 1) * d
    ensures n / d == q
  {
    var k := n / d;
    assert k * d <= n < k * d + d;
    if k < q { Monotone(k + 1, q, d); } else if k > q { Monotone(q + 1, k, d); }
  }

  lemma Powers()
    ensures Power2(0) == 1 && Power2(1) == 2 && Power2(2) == 4 && Power2(3) == 8
    ensures Power2(4) == 16 && Power2(5) == 32 && Power2(6) == 64 && Power2(7) == 128 && Power2(8) == 256
  {
    assert Power2(3) == 8;
    assert Power2(6) == 64;
  }

  // An underlined line shows the foreground, an empty line of a glyph the background.
  lemma FullAndEmptyLines(f: Frame, c: Cell, line: nat, bit: nat)
    requires f.Text? && Validated(f) && ValidCell(f, c) && line < CellHeight(f) && bit < 8
    ensures c.underline && line == f.underlineRow ==> CellColour(f, c, line, bit) == f.palette[c.foreground]
    ensures (!c.underline || line != f.underlineRow)
      && (if c.secondary then f.secondaryFont else f.font)[c.glyph * FONT_HEIGHT + line] == 0
      ==> CellColour(f, c, line, bit) == f.palette[c.background]
  {
    Powers();
    assert 0 / Power2(7 - bit) == 0;
  }

  // A pixel of a frame; that of a text frame lies in one of its cells.
  predicate Inside(f: Frame, x: int, y: int) {
    && 0 <= x && 0 <= y
    && match f
       case Graphics(width, height, _) => x < width && y < height
       case Text(columns, rows, _, _, _, _, _, _) => x / 8 < columns && y / CellHeight(f) < rows
  }

  lemma Below(y: nat, h: nat, n: nat)
    requires h > 0
    ensures y / h < n <==> y < n * h
  {
    var q := y / h;
    assert q * h <= y < q * h + h;
    assert q >= n ==> q * h >= n * h;
    assert q + 1 <= n ==> (q + 1) * h <= n * h;
  }

  // The pixels of a frame are those within its size.
  lemma InsideIsSize(f: Frame, x: int, y: int)
    requires FrameSize(f).Size?
    ensures Inside(f, x, y) <==> 0 <= x < FrameSize(f).width && 0 <= y < FrameSize(f).height
  {
    if f.Text? && 0 <= y { Below(y, CellHeight(f), f.rows); }
  }

  // The colour a pixel should have.
  function Colour(f: Frame, x: int, y: int): nat
    requires Validated(f) && Inside(f, x, y)
  {
    match f
    case Graphics(_, _, pixels) => pixels[y][x]
    case Text(_, _, _, _, cells, _, _, _) => CellColour(f, cells[y / CellHeight(f)][x / 8], y % CellHeight(f), x % 8)
  }

  // ---------- damage ----------

  datatype Rect = Rect(left: int, top: int, right: int, bottom: int)

  // The exact bounding box of some pixels; a rectangle of no pixels has its right side at zero.
  ghost predicate Box(r: Rect, pixels: set<(int, int)>, width: nat, height: nat) {
    if pixels == {} then r == Rect(width, height, 0, 0)
    else
      && (forall p :: p in pixels ==> 0 <= r.left <= p.0 < r.right <= width && 0 <= r.top <= p.1 < r.bottom <= height)
      && (exists p :: p in pixels && p.0 == r.left) && (exists p :: p in pixels && p.0 + 1 == r.right)
      && (exists p :: p in pixels && p.1 == r.top) && (exists p :: p in pixels && p.1 + 1 == r.bottom)
  }

  function Widened(r: Rect, x: int, y: int): Rect {
    Rect(if x < r.left then x else r.left, if y < r.top then y else r.top,
         if x + 1 > r.right then x + 1 else r.right, if y + 1 > r.bottom then y + 1 else r.bottom)
  }

  lemma BoxWidens(r: Rect, pixels: set<(int, int)>, width: nat, height: nat, x: int, y: int)
    requires Box(r, pixels, width, height) && 0 <= x < width && 0 <= y < height
    ensures Box(Widened(r, x, y), pixels + {(x, y)}, width, height)
  {
    var more := pixels + {(x, y)};
    assert (x, y) in more;
    var w := Widened(r, x, y);
    if pixels != {} {
      var a :| a in pixels && a.0 == r.left;
      var b :| b in pixels && b.0 + 1 == r.right;
      var c :| c in pixels && c.1 == r.top;
      var d :| d in pixels && d.1 + 1 == r.bottom;
      assert a in more && b in more && c in more && d in more;
    }
  }

  // ---------- the surface ----------

  // kvm_window_update_pixel. `dirty` collects the pixels that had to change.
  method UpdatePixel(pixels: array2<nat>, x: nat, y: nat, colour: nat, valid: bool, damage: Rect,
      ghost dirty: set<(int, int)>)
    returns (grown: Rect, ghost more: set<(int, int)>)
    requires x < pixels.Length1 && y < pixels.Length0 && Box(damage, dirty, pixels.Length1, pixels.Length0)
    modifies pixels
    ensures pixels[y, x] == colour
    ensures forall i, j :: 0 <= i < pixels.Length0 && 0 <= j < pixels.Length1 && (i != y || j != x) ==>
      pixels[i, j] == old(pixels[i, j])
    ensures Box(grown, more, pixels.Length1, pixels.Length0)
    ensures more == if !valid || old(pixels[y, x]) != colour then dirty + {(x, y)} else dirty
  {
    grown, more := damage, dirty;
    if valid && pixels[y, x] == colour { return; }
    pixels[y, x] := colour;
    if x < grown.left { grown := grown.(left := x); }
    if y < grown.top { grown := grown.(top := y); }
    if x + 1 > grown.right { grown := grown.(right := x + 1); }
    if y + 1 > grown.bottom { grown := grown.(bottom := y + 1); }
    more := dirty + {(x, y)};
    BoxWidens(damage, dirty, pixels.Length1, pixels.Length0, x, y);
  }

  predicate Before(i: int, j: int, y: int, x: int) { i < y || (i == y && j < x) }

  // The picture of a frame.
  ghost predicate Picture(f: Frame, want: seq<seq<nat>>) {
    Validated(f) && forall i, j :: 0 <= i < |want| && 0 <= j < |want[i]| ==>
      Inside(f, j, i) && want[i][j] == Colour(f, j, i)
  }

  ghost predicate Shaped(picture: seq<seq<nat>>, pixels: array2<nat>) {
    |picture| == pixels.Length0 && forall i :: 0 <= i < |picture| ==> |picture[i]| == pixels.Length1
  }

  // In raster order, the pixels before a place are as wanted and the others as they were.
  ghost predicate Painted(pixels: array2<nat>, was: seq<seq<nat>>, want: seq<seq<nat>>, y: nat, x: nat)
    requires Shaped(was, pixels) && Shaped(want, pixels)
    reads pixels
  {
    forall i, j :: 0 <= i < pixels.Length0 && 0 <= j < pixels.Length1 ==>
      pixels[i, j] == if Before(i, j, y, x) then want[i][j] else was[i][j]
  }

  // The dirty pixels are those before it that were not as wanted, or all if nothing was valid.
  ghost predicate Collected(was: seq<seq<nat>>, want: seq<seq<nat>>, valid: bool, y: nat, x: nat,
      dirty: set<(int, int)>) {
    && |was| == |want| && (forall i :: 0 <= i < |was| ==> |was[i]| == |want[i]|)
    && (forall p :: p in dirty <==>
          0 <= p.1 < |was| && 0 <= p.0 < |was[p.1]| && Before(p.1, p.0, y, x)
            && (!valid || was[p.1][p.0] != want[p.1][p.0]))
  }

  ghost predicate Progress(pixels: array2<nat>, was: seq<seq<nat>>, want: seq<seq<nat>>, valid: bool, y: nat, x: nat,
      damage: Rect, dirty: set<(int, int)>)
    reads pixels
  {
    && Shaped(was, pixels) && Shaped(want, pixels) && Painted(pixels, was, want, y, x)
    && Collected(was, want, valid, y, x, dirty) && Box(damage, dirty, pixels.Length1, pixels.Length0)
  }

  lemma CollectOne(was: seq<seq<nat>>, want: seq<seq<nat>>, valid: bool, y: nat, x: nat, dirty: set<(int, int)>)
    requires Collected(was, want, valid, y, x, dirty) && y < |was| && x < |was[y]|
    ensures Collected(was, want, valid, y, x + 1, if !valid || was[y][x] != want[y][x] then dirty + {(x, y)} else dirty)
  {
  }

  // One pixel further.
  method Paint(pixels: array2<nat>, ghost was: seq<seq<nat>>, ghost want: seq<seq<nat>>, valid: bool, y: nat, x: nat,
      colour: nat, damage: Rect, ghost dirty: set<(int, int)>)
    returns (grown: Rect, ghost more: set<(int, int)>)
    requires Progress(pixels, was, want, valid, y, x, damage, dirty) && x < pixels.Length1 && y < pixels.Length0
      && colour == want[y][x]
    modifies pixels
    ensures Progress(pixels, was, want, valid, y, x + 1, grown, more)
  {
    CollectOne(was, want, valid, y, x, dirty);
    assert pixels[y, x] == was[y][x];
    grown, more := UpdatePixel(pixels, x, y, colour, valid, damage, dirty);
  }

  // A line of a graphics frame.
  method PaintGraphicsRow(f: Frame, pixels: array2<nat>, ghost was: seq<seq<nat>>, ghost want: seq<seq<nat>>,
      valid: bool, y: nat, damage: Rect, ghost dirty: set<(int, int)>)
    returns (grown: Rect, ghost more: set<(int, int)>)
    requires f.Graphics? && Picture(f, want) && Progress(pixels, was, want, valid, y, 0, damage, dirty)
      && y < pixels.Length0
    modifies pixels
    ensures Progress(pixels, was, want, valid, y, pixels.Length1, grown, more)
  {
    grown, more := damage, dirty;
    var column := 0;
    while column < pixels.Length1
      invariant column <= pixels.Length1 && Progress(pixels, was, want, valid, y, column, grown, more)
    {
      assert Inside(f, column, y) && want[y][column] == Colour(f, column, y);
      grown, more := Paint(pixels, was, want, valid, y, column, f.pixels[y][column], grown, more);
      column := column + 1;
    }
  }

  // What is wanted of one line of a cell.
  ghost predicate LineWanted(f: Frame, want: seq<seq<nat>>, y: nat, column: nat, cell: Cell, line: nat) {
    && f.Text? && Validated(f) && ValidCell(f, cell) && line < CellHeight(f) && y < |want|
       && column * 8 + 8 <= |want[y]|
    && forall bit :: 0 <= bit < 8 ==> want[y][column * 8 + bit] == CellColour(f, cell, line, bit)
  }

  lemma CellPixel(f: Frame, want: seq<seq<nat>>, y: nat, column: nat, bit: nat, cell: Cell, line: nat)
    requires f.Text? && Picture(f, want) && bit < 8 && y < |want| && column * 8 + bit < |want[y]|
    requires column < f.columns && y / CellHeight(f) < f.rows && cell == f.cells[y / CellHeight(f)][column]
      && line == y % CellHeight(f)
    ensures want[y][column * 8 + bit] == CellColour(f, cell, line, bit)
  {
    var x := column * 8 + bit;
    assert x / 8 == column && x % 8 == bit;
    assert want[y][x] == Colour(f, x, y);
  }

  lemma InCell(f: Frame, want: seq<seq<nat>>, y: nat, column: nat)
    requires f.Text? && Picture(f, want) && y < |want| && column * 8 < |want[y]|
    ensures column < f.columns && y / CellHeight(f) < f.rows
  {
    assert want[y][column * 8] == Colour(f, column * 8, y);
  }

  lemma CellLine(f: Frame, want: seq<seq<nat>>, y: nat, column: nat, cell: Cell, line: nat)
    requires f.Text? && Picture(f, want) && y < |want| && column * 8 + 8 <= |want[y]|
    requires column < f.columns && y / CellHeight(f) < f.rows && cell == f.cells[y / CellHeight(f)][column]
      && line == y % CellHeight(f)
    ensures LineWanted(f, want, y, column, cell, line)
  {
    forall bit | 0 <= bit < 8 ensures want[y][column * 8 + bit] == CellColour(f, cell, line, bit) {
      CellPixel(f, want, y, column, bit, cell, line);
    }
  }

  // One line of a cell, bit by bit.
  method PaintBits(f: Frame, pixels: array2<nat>, ghost was: seq<seq<nat>>, ghost want: seq<seq<nat>>, valid: bool,
      y: nat, column: nat,
                   cell: Cell, line: nat, damage: Rect, ghost dirty: set<(int, int)>)
    returns (grown: Rect, ghost more: set<(int, int)>)
    requires LineWanted(f, want, y, column, cell, line)
      && Progress(pixels, was, want, valid, y, column * 8, damage, dirty)
    modifies pixels
    ensures Progress(pixels, was, want, valid, y, column * 8 + 8, grown, more)
  {
    grown, more := damage, dirty;
    var bits := Bits(f, cell, line);
    var bit := 0;
    while bit < 8
      invariant bit <= 8 && Progress(pixels, was, want, valid, y, column * 8 + bit, grown, more)
    {
      var colour := f.palette[if bits / Power2(7 - bit) % 2 == 1 then cell.foreground else cell.background];
      assert colour == CellColour(f, cell, line, bit);
      grown, more := Paint(pixels, was, want, valid, y, column * 8 + bit, colour, grown, more);
      bit := bit + 1;
    }
  }

  method PaintCellLine(f: Frame, pixels: array2<nat>, ghost was: seq<seq<nat>>, ghost want: seq<seq<nat>>, valid: bool,
      y: nat, column: nat, damage: Rect, ghost dirty: set<(int, int)>)
    returns (grown: Rect, ghost more: set<(int, int)>)
    requires f.Text? && Picture(f, want) && Progress(pixels, was, want, valid, y, column * 8, damage, dirty)
      && y < pixels.Length0 && column * 8 + 8 <= pixels.Length1
    modifies pixels
    ensures Progress(pixels, was, want, valid, y, column * 8 + 8, grown, more)
  {
    InCell(f, want, y, column);
    var cell, line := f.cells[y / CellHeight(f)][column], y % CellHeight(f);
    CellLine(f, want, y, column, cell, line);
    grown, more := PaintBits(f, pixels, was, want, valid, y, column, cell, line, damage, dirty);
  }

  // A line of a text frame.
  method PaintTextRow(f: Frame, pixels: array2<nat>, ghost was: seq<seq<nat>>, ghost want: seq<seq<nat>>, valid: bool,
      y: nat, damage: Rect, ghost dirty: set<(int, int)>)
    returns (grown: Rect, ghost more: set<(int, int)>)
    requires f.Text? && Picture(f, want) && Progress(pixels, was, want, valid, y, 0, damage, dirty)
      && y < pixels.Length0 && pixels.Length1 == f.columns * 8
    modifies pixels
    ensures Progress(pixels, was, want, valid, y, pixels.Length1, grown, more)
  {
    grown, more := damage, dirty;
    var column := 0;
    while column < f.columns
      invariant column <= f.columns && Progress(pixels, was, want, valid, y, column * 8, grown, more)
    {
      grown, more := PaintCellLine(f, pixels, was, want, valid, y, column, grown, more);
      column := column + 1;
    }
  }

  lemma NextRow(pixels: array2<nat>, was: seq<seq<nat>>, want: seq<seq<nat>>, valid: bool, y: nat, damage: Rect,
      dirty: set<(int, int)>)
    requires Progress(pixels, was, want, valid, y, pixels.Length1, damage, dirty)
    ensures Progress(pixels, was, want, valid, y + 1, 0, damage, dirty)
  {
  }

  // The damage of an invalid surface is all of it.
  lemma WholeSurface(pixels: array2<nat>, was: seq<seq<nat>>, want: seq<seq<nat>>, y: nat, damage: Rect,
      dirty: set<(int, int)>)
    requires Progress(pixels, was, want, false, y, 0, damage, dirty) && y == pixels.Length0 > 0 && pixels.Length1 > 0
    ensures damage == Rect(0, 0, pixels.Length1, pixels.Length0)
  {
    assert (0, 0) in dirty && (pixels.Length1 - 1, pixels.Length0 - 1) in dirty;
  }

  ghost function Snapshot(pixels: array2<nat>): (r: seq<seq<nat>>)
    reads pixels
    ensures |r| == pixels.Length0
    ensures forall i :: 0 <= i < |r| ==> |r[i]| == pixels.Length1 && forall j :: 0 <= j < |r[i]| ==>
      r[i][j] == pixels[i, j]
  {
    seq(pixels.Length0, i requires 0 <= i < pixels.Length0 reads pixels =>
          seq(pixels.Length1, j requires 0 <= j < pixels.Length1 reads pixels => pixels[i, j]))
  }

  // The picture of a frame, pixel by pixel.
  ghost function Target(f: Frame, width: nat, height: nat): (r: seq<seq<nat>>)
    requires Validated(f) && FrameSize(f) == Size(width, height)
    ensures Picture(f, r) && |r| == height && forall i :: 0 <= i < |r| ==> |r[i]| == width
  {
    assert forall i, j :: 0 <= i < height && 0 <= j < width ==> Inside(f, j, i) by {
      forall i, j | 0 <= i < height && 0 <= j < width ensures Inside(f, j, i) { InsideIsSize(f, j, i); }
    }
    seq(height, i requires 0 <= i < height => seq(width, j requires 0 <= j < width => Colour(f, j, i)))
  }

  datatype Outcome = Rejected | Unchanged | Changed(damage: Rect)

  // The surface shows the frame.
  ghost predicate Shows(f: Frame, pixels: array2<nat>)
    reads pixels
  {
    Validated(f) &&
    forall i, j :: 0 <= i < pixels.Length0 && 0 <= j < pixels.Length1 ==>
      Inside(f, j, i) && pixels[i, j] == Colour(f, j, i)
  }

  // The pixels of the surface that did not show the frame, or all of an invalid surface.
  ghost predicate Dirty(f: Frame, was: seq<seq<nat>>, valid: bool, dirty: set<(int, int)>) {
    Validated(f) &&
    forall p :: p in dirty <==>
      0 <= p.1 < |was| && 0 <= p.0 < |was[p.1]| && Inside(f, p.0, p.1)
        && (!valid || was[p.1][p.0] != Colour(f, p.0, p.1))
  }

  // kvm_window_render_frame. A frame of another size is rejected with nothing changed. Otherwise
  // the surface shows the frame afterwards, and the damage is the exact bounding box of the
  // pixels that had to change, of which there are none if nothing changed.
  method RenderFrame(f: Frame, pixels: array2<nat>, valid: bool)
      returns (r: Outcome, nowValid: bool, ghost dirty: set<(int, int)>)
    requires Validated(f)
    modifies pixels
    ensures r == Rejected <==> FrameSize(f) != Size(pixels.Length1, pixels.Length0)
    ensures r == Rejected ==> nowValid == valid && Snapshot(pixels) == old(Snapshot(pixels))
    ensures r != Rejected ==> nowValid && Shows(f, pixels) && Dirty(f, old(Snapshot(pixels)), valid, dirty)
    ensures r == Unchanged ==> dirty == {}
    ensures r.Changed? ==> dirty != {} && Box(r.damage, dirty, pixels.Length1, pixels.Length0)
    ensures r != Rejected && !valid ==> r == Changed(Rect(0, 0, pixels.Length1, pixels.Length0))
  {
    dirty := {};
    if FrameSize(f) != Size(pixels.Length1, pixels.Length0) { return Rejected, valid, dirty; }
    ghost var was := Snapshot(pixels);
    var damage := Rect(pixels.Length1, pixels.Length0, 0, 0);
    ghost var want := Target(f, pixels.Length1, pixels.Length0);
    var row := 0;
    while row < pixels.Length0
      invariant row <= pixels.Length0 && Progress(pixels, was, want, valid, row, 0, damage, dirty)
    {
      if f.Graphics? {
        damage, dirty := PaintGraphicsRow(f, pixels, was, want, valid, row, damage, dirty);
      } else {
        damage, dirty := PaintTextRow(f, pixels, was, want, valid, row, damage, dirty);
      }
      NextRow(pixels, was, want, valid, row, damage, dirty);
      row := row + 1;
    }
    if !valid { WholeSurface(pixels, was, want, row, damage, dirty); }
    nowValid := true;
    r := if damage.right == 0 then Unchanged else Changed(damage);
  }
}
