/**
 Fitting a picture into available bounds with its aspect ratio kept, in the 32- and 64-bit
 arithmetic of the program.
 */
module Geometry {

  const LIMIT_31 := 0x8000_0000
  const LIMIT_32 := 0x1_0000_0000
  const LIMIT_64 := 0x1_0000_0000_0000_0000

  type i32 = x: int | -LIMIT_31 <= x < LIMIT_31
  type u32 = x: nat | x < LIMIT_32

  // Unsigned 64-bit arithmetic, and the conversions to it and from it.
  function Wrap64(x: int): (r: nat)
    ensures r < LIMIT_64
  {
    x % LIMIT_64
  }

  function ToI32(x: nat): i32 {
    if x % LIMIT_32 < LIMIT_31 then x % LIMIT_32 else x % LIMIT_32 - LIMIT_32
  }

  // kvm_window_scale_extent: rounded up.
  function ScaleExtent(extent: i32, numerator: u32, denominator: u32): i32
    requires denominator > 0
  {
    ToI32(Wrap64(Wrap64(Wrap64(extent) * numerator) + denominator - 1) / denominator)
  }

  datatype Fit = NoFit | Fit(width: i32, height: i32)

  // kvm_window_fit_aspect_size.
  function FitAspect(availableWidth: i32, availableHeight: i32, sourceWidth: u32, sourceHeight: u32): Fit {
    if availableWidth <= 0 || availableHeight <= 0 || sourceWidth == 0 || sourceHeight == 0 then NoFit
    else
      var byWidth := Wrap64(Wrap64(availableWidth) * sourceHeight) <= Wrap64(Wrap64(availableHeight) * sourceWidth);
      var width := if byWidth then availableWidth else ScaleExtent(availableHeight, sourceWidth, sourceHeight);
      var height := if byWidth then ScaleExtent(availableWidth, sourceHeight, sourceWidth) else availableHeight;
      if width <= 0 || height <= 0 then NoFit else Fit(width, height)
  }

  // ---------- ceiling division ----------

  function Ceiling(a: nat, b: nat): nat
    requires b > 0
  {
    (a + b - 1) / b
  }

  // The least number whose product with b is at least a.
  lemma CeilingIsLeast(a: nat, b: nat, q: nat)
    requires b > 0
    ensures Ceiling(a, b) <= q <==> a <= q * b
  {
    var c := Ceiling(a, b);
    assert c * b <= a + b - 1 < c * b + b by { DivisionBounds(a + b - 1, b); }
    if c <= q {
      assert c * b <= q * b;
    } else {
      assert (q + 1) * b <= c * b;
    }
  }

  lemma DivisionBounds(x: nat, b: nat)
    requires b > 0
    ensures x / b * b <= x < x / b * b + b
  {
    assert x == x / b * b + x % b;
  }

  // ---------- no overflow ----------

  lemma Monotone(a: nat, b: nat, c: nat, d: nat)
    requires a <= c && b <= d
    ensures a * b <= c * d
  {
    assert a * b <= c * b <= c * d;
  }

  lemma ProductBound(a: nat, b: nat)
    requires a < LIMIT_31 && b < LIMIT_32
    ensures a * b + LIMIT_32 <= LIMIT_64
  {
    Monotone(a, b, LIMIT_31, LIMIT_32);
    assert LIMIT_31 * LIMIT_32 + LIMIT_32 <= LIMIT_64;
  }

  lemma Exact(x: nat)
    ensures x < LIMIT_64 ==> Wrap64(x) == x
    ensures x < LIMIT_31 ==> ToI32(x) == x
  {
  }

  // No product wraps round, and a result that is below the other bound is not truncated.
  lemma ScaleIsCeiling(extent: i32, numerator: u32, denominator: u32, bound: i32)
    requires extent > 0 && numerator > 0 && denominator > 0 && bound > 0 && extent * numerator <= bound * denominator
    ensures ScaleExtent(extent, numerator, denominator) == Ceiling(extent * numerator, denominator)
    ensures 0 < ScaleExtent(extent, numerator, denominator) <= bound
  {
    var p := extent * numerator;
    Monotone(1, 1, extent, numerator);
    ScaleUnwraps(extent, numerator, denominator, p);
    CeilingIsLeast(p, denominator, bound);
    CeilingIsLeast(p, denominator, 0);
    Exact(Ceiling(p, denominator));
  }

  lemma ScaleUnwraps(extent: i32, numerator: u32, denominator: u32, p: nat)
    requires extent > 0 && denominator > 0 && p == extent * numerator
    ensures ScaleExtent(extent, numerator, denominator) == ToI32(Ceiling(p, denominator))
  {
    ProductBound(extent, numerator);
    Exact(extent);
    Exact(p);
    Exact(p + denominator - 1);
  }

  lemma ComparisonIsExact(extent: i32, factor: u32)
    requires extent > 0
    ensures Wrap64(Wrap64(extent) * factor) == extent * factor
  {
    ProductBound(extent, factor);
    Exact(extent);
    Exact(extent * factor);
  }

  // ---------- fitting ----------

  // The fit in unbounded arithmetic.
  function Ideal(w: nat, h: nat, sw: nat, sh: nat): (nat, nat)
    requires sw > 0 && sh > 0
  {
    if w * sh <= h * sw then (w, Ceiling(w * sh, sw)) else (Ceiling(h * sw, sh), h)
  }

  // A fit exists exactly for positive bounds and a nonempty picture; it is the ideal one, no
  // arithmetic overflows, it stays within the bounds and meets one of them.
  lemma FitIsIdeal(w: i32, h: i32, sw: u32, sh: u32)
    ensures FitAspect(w, h, sw, sh).Fit? <==> w > 0 && h > 0 && sw > 0 && sh > 0
    ensures FitAspect(w, h, sw, sh).Fit? ==>
      var f := FitAspect(w, h, sw, sh);
      && (f.width, f.height) == Ideal(w, h, sw, sh)
      && 0 < f.width <= w && 0 < f.height <= h && (f.width == w || f.height == h)
  {
    if w > 0 && h > 0 && sw > 0 && sh > 0 {
      ComparisonIsExact(w, sh);
      ComparisonIsExact(h, sw);
      if w * sh <= h * sw {
        ScaleIsCeiling(w, sh, sw, h);
      } else {
        ScaleIsCeiling(h, sw, sh, w);
      }
    }
  }

  // Fitting into the result of a fit gives that result again.
  lemma FitIsStable(w: i32, h: i32, sw: u32, sh: u32)
    requires FitAspect(w, h, sw, sh).Fit?
    ensures var f := FitAspect(w, h, sw, sh); FitAspect(f.width, f.height, sw, sh) == f
  {
    FitIsIdeal(w, h, sw, sh);
    var f := FitAspect(w, h, sw, sh);
    FitIsIdeal(f.width, f.height, sw, sh);
    IdealIsStable(w, h, sw, sh);
  }

  lemma IdealIsStable(w: nat, h: nat, sw: nat, sh: nat)
    requires sw > 0 && sh > 0
    ensures var (a, b) := Ideal(w, h, sw, sh); Ideal(a, b, sw, sh) == (a, b)
  {
    if w * sh <= h * sw {
      CeilingIsLeast(w * sh, sw, Ceiling(w * sh, sw));
    } else {
      var a := Ceiling(h * sw, sh);
      CeilingIsLeast(h * sw, sh, a);
      if a * sh <= h * sw {
        assert a * sh == h * sw;
        CeilingIsLeast(h * sw, sw, h);
        CeilingIsLeast(h * sw, sw, Ceiling(h * sw, sw));
        assert Ceiling(h * sw, sw) * sw >= h * sw;
        CancelFactor(h, Ceiling(h * sw, sw), sw);
      }
    }
  }

  lemma CancelFactor(a: nat, b: nat, f: nat)
    requires f > 0 && a * f <= b * f
    ensures a <= b
  {
    assert b < a ==> (b + 1) * f <= a * f;
  }

  // Rounding up costs less than one unit: the result is the smallest size on the other axis
  // that does not cut the picture off.
  lemma RoundingIsTight(w: i32, h: i32, sw: u32, sh: u32)
    requires FitAspect(w, h, sw, sh).Fit?
    ensures var f := FitAspect(w, h, sw, sh);
      if w * sh <= h * sw then (f.height - 1) * sw < f.width * sh <= f.height * sw
      else (f.width - 1) * sh < f.height * sw <= f.width * sh
  {
    FitIsIdeal(w, h, sw, sh);
    var f := FitAspect(w, h, sw, sh);
    if w * sh <= h * sw {
      CeilingIsLeast(w * sh, sw, f.height);
      CeilingIsLeast(w * sh, sw, f.height - 1);
    } else {
      CeilingIsLeast(h * sw, sh, f.width);
      CeilingIsLeast(h * sw, sh, f.width - 1);
    }
  }

  // ---------- rectangles ----------

  datatype Rect = Rect(left: int, top: int, right: int, bottom: int)

  datatype Placed = NotPlaced | Placed(rect: Rect)

  // kvm_window_fit_outer_rect, for a work area whose extents are representable.
  function FitOuter(area: Rect, desiredWidth: i32, desiredHeight: i32): Placed
    requires -LIMIT_31 <= area.right - area.left < LIMIT_31 && -LIMIT_31 <= area.bottom - area.top < LIMIT_31
  {
    var w, h := area.right - area.left, area.bottom - area.top;
    if desiredWidth <= 0 || desiredHeight <= 0 || w <= 0 || h <= 0 then NotPlaced
    else
      var f := if desiredWidth > w || desiredHeight > h then FitAspect(w, h, desiredWidth, desiredHeight)
        else Fit(desiredWidth, desiredHeight);
      if f.NoFit? then NotPlaced
      else
        var left, top := area.left + (w - f.width) / 2, area.top + (h - f.height) / 2;
        Placed(Rect(left, top, left + f.width, top + f.height))
  }

  // The placed rectangle is nonempty, inside the work area and centred in it; and a size that
  // fits is kept.
  lemma OuterIsInside(area: Rect, desiredWidth: i32, desiredHeight: i32)
    requires -LIMIT_31 <= area.right - area.left < LIMIT_31 && -LIMIT_31 <= area.bottom - area.top < LIMIT_31
    requires FitOuter(area, desiredWidth, desiredHeight).Placed?
    ensures var r := FitOuter(area, desiredWidth, desiredHeight).rect;
      && area.left <= r.left < r.right <= area.right && area.top <= r.top < r.bottom <= area.bottom
      && 0 <= (area.right - r.right) - (r.left - area.left) <= 1
         && 0 <= (area.bottom - r.bottom) - (r.top - area.top) <= 1
      && (desiredWidth <= area.right - area.left && desiredHeight <= area.bottom - area.top ==>
            r.right - r.left == desiredWidth && r.bottom - r.top == desiredHeight)
  {
    var w, h := area.right - area.left, area.bottom - area.top;
    FitIsIdeal(w, h, desiredWidth, desiredHeight);
  }

  // kvm_window_fit_client_size: what is left of the work area beside the decorations.
  function FitClient(area: Rect, decorationWidth: i32, decorationHeight: i32, desiredWidth: i32,
      desiredHeight: i32): Fit
    requires -LIMIT_31 <= area.right - area.left < LIMIT_31 && -LIMIT_31 <= area.bottom - area.top < LIMIT_31
  {
    if decorationWidth < 0 || decorationHeight < 0 || desiredWidth <= 0 || desiredHeight <= 0 then NoFit
    else
      var w, h := area.right - area.left - decorationWidth, area.bottom - area.top - decorationHeight;
      if w <= 0 || h <= 0 then NoFit
      else if desiredWidth <= w && desiredHeight <= h then Fit(desiredWidth, desiredHeight)
      else FitAspect(w, h, desiredWidth, desiredHeight)
  }

  // The client and its decorations stay inside the work area, and fitting the client again
  // changes nothing.
  lemma ClientFits(area: Rect, decorationWidth: i32, decorationHeight: i32, desiredWidth: i32, desiredHeight: i32)
    requires -LIMIT_31 <= area.right - area.left < LIMIT_31 && -LIMIT_31 <= area.bottom - area.top < LIMIT_31
    requires FitClient(area, decorationWidth, decorationHeight, desiredWidth, desiredHeight).Fit?
    ensures var f := FitClient(area, decorationWidth, decorationHeight, desiredWidth, desiredHeight);
      && 0 < f.width && 0 < f.height
      && f.width + decorationWidth <= area.right - area.left && f.height + decorationHeight <= area.bottom - area.top
      && FitClient(area, decorationWidth, decorationHeight, f.width, f.height) == f
  {
    FitIsIdeal(area.right - area.left - decorationWidth, area.bottom - area.top - decorationHeight, desiredWidth,
      desiredHeight);
  }
}
