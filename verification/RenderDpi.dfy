/** The bound on the render resolution of a PDF page, over exact reals. */
module RenderDpi {
  import opened Wrappers

  const MIN_RENDER_DPI: nat := 50
  const POINTS_PER_INCH: real := 72.0

  datatype PageSize = PageSize(widthPt: real, heightPt: real)

  /** Area of a page in square inches. */
  function Area(size: PageSize): real {
    (size.widthPt / POINTS_PER_INCH) * (size.heightPt / POINTS_PER_INCH)
  }

  /** `dpi` fits: the rasterised page has at most `maxPixels` pixels. */
  predicate Fits(dpi: nat, area: real, maxPixels: nat) {
    (dpi * dpi) as real * area <= maxPixels as real
  }

  /** `Math.floor(Math.sqrt(x))` */
  function FloorSqrt(x: real, from: nat): (n: nat)
    requires (from * from) as real <= x
    ensures from <= n && (n * n) as real <= x < ((n + 1) * (n + 1)) as real
    decreases x.Floor - from
  {
    if ((from + 1) * (from + 1)) as real <= x then
      assert from + 1 <= (from + 1) * (from + 1) <= x.Floor;
      FloorSqrt(x, from + 1)
    else from
  }

  /** `renderDpiFor`: the resolution to use, or nothing when the page is refused. */
  function RenderDpiFor(size: Option<PageSize>, configured: nat, maxPixels: nat): Option<nat> {
    if size.None? || Area(size.value) <= 0.0 then Some(configured)
    else
      var fitting := FloorSqrt(maxPixels as real / Area(size.value), 0);
      var dpi := if configured < fitting then configured else fitting;
      if dpi < MIN_RENDER_DPI then None else Some(dpi)
  }

  lemma SquareMonotone(m: nat, n: nat)
    requires m <= n
    ensures m * m <= n * n
  {
  }

  lemma ScaleKeepsOrder(a: real, b: real, scale: real)
    requires scale > 0.0
    ensures a * scale <= b * scale <==> a <= b
  {
    var gap := b - a;
    assert gap * scale == b * scale - a * scale;
    SignOfProduct(gap, scale);
  }

  lemma SignOfProduct(gap: real, scale: real)
    requires scale > 0.0
    ensures gap * scale >= 0.0 <==> gap >= 0.0
  {
  }

  lemma DivideBack(p: real, area: real)
    requires area > 0.0
    ensures p / area * area == p
  {
  }

  lemma FitsQuotient(dpi: nat, area: real, maxPixels: nat)
    requires area > 0.0
    ensures Fits(dpi, area, maxPixels) <==> (dpi * dpi) as real <= maxPixels as real / area
  {
    DivideBack(maxPixels as real, area);
    ScaleKeepsOrder((dpi * dpi) as real, maxPixels as real / area, area);
  }

  /** A resolution fits exactly when it is at most the integer square root. */
  lemma FitsExactly(dpi: nat, area: real, maxPixels: nat)
    requires area > 0.0
    ensures Fits(dpi, area, maxPixels) <==> dpi <= FloorSqrt(maxPixels as real / area, 0)
  {
    FitsQuotient(dpi, area, maxPixels);
    var n := FloorSqrt(maxPixels as real / area, 0);
    if dpi <= n {
      SquareMonotone(dpi, n);
    } else {
      SquareMonotone(n + 1, dpi);
    }
  }

  /**
   The chosen resolution is the largest integer, no greater than the configured
   one, whose pixel count fits; a page is refused exactly when no resolution of
   at least 50 within the configured one fits.
   */
  lemma RenderDpiIsLargest(size: PageSize, configured: nat, maxPixels: nat, dpi: nat)
    requires Area(size) > 0.0
    ensures RenderDpiFor(Some(size), configured, maxPixels) == Some(dpi) <==>
            && MIN_RENDER_DPI <= dpi <= configured
            && Fits(dpi, Area(size), maxPixels)
            && forall n: nat :: dpi < n <= configured ==> !Fits(n, Area(size), maxPixels)
  {
    forall n: nat
      ensures Fits(n, Area(size), maxPixels) <==> n <= FloorSqrt(maxPixels as real / Area(size), 0)
    {
      FitsExactly(n, Area(size), maxPixels);
    }
    var fitting := FloorSqrt(maxPixels as real / Area(size), 0);
    if dpi < fitting && dpi < configured {
      assert Fits(dpi + 1, Area(size), maxPixels);
    }
  }

  /** From 72 dpi on, a page is refused exactly when 50 dpi would not fit. */
  lemma RefusedExactly(size: PageSize, configured: nat, maxPixels: nat)
    requires 72 <= configured && Area(size) > 0.0
    ensures RenderDpiFor(Some(size), configured, maxPixels).None? <==> !Fits(MIN_RENDER_DPI, Area(size), maxPixels)
  {
    FitsExactly(MIN_RENDER_DPI, Area(size), maxPixels);
  }

  /** A page is as large as its inches say: 72 points make one. */
  lemma AreaInInches(w: real, h: real)
    ensures Area(PageSize(72.0 * w, 72.0 * h)) == w * h
  {
    assert 72.0 * w / POINTS_PER_INCH == w && 72.0 * h / POINTS_PER_INCH == h;
  }

  /** No bound applies exactly where there is no area to bound. */
  lemma UnsizedIsConfigured(size: Option<PageSize>, configured: nat, maxPixels: nat)
    requires size.None? || Area(size.value) <= 0.0
    ensures RenderDpiFor(size, configured, maxPixels) == Some(configured)
  {
  }
}
