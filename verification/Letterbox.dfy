/** Fitting a frame into the model's canvas: the ratio, the pads, and the value every
    cell of the tensor must end up with. */
module Letterbox {
  import opened Types
  import opened Geometry

  type Byte = b: int | 0 <= b < 256

  /** A decoded frame, three interleaved channels, rows packed. */
  datatype Frame = Frame(width: int, height: int, pixels: seq<Byte>, timestamp: real)

  ghost predicate WellFormed(f: Frame)
  {
    f.width > 0 && f.height > 0 && |f.pixels| == f.width * f.height * 3
  }

  datatype Options = Options(
    targetWidth: int,
    targetHeight: int,
    letterbox: bool,
    scale: real,
    mean: seq<real>,
    std: seq<real>,
    chwOrder: bool)

  ghost predicate Usable(o: Options)
  {
    && o.targetWidth > 0 && o.targetHeight > 0
    && |o.mean| == 3 && |o.std| == 3 && forall c :: 0 <= c < 3 ==> o.std[c] != 0.0
  }

  function DefaultOptions(width: int, height: int): Options
  {
    Options(width, height, true, 1.0 / 255.0, [0.0, 0.0, 0.0], [1.0, 1.0, 1.0], true)
  }

  /** The C conversion from a real to an integer: towards zero. */
  function Truncate(x: real): int
  {
    if x >= 0.0 then x.Floor else -((-x).Floor)
  }

  function Scaled(side: int, ratio: real): real { side as real * ratio }

  datatype Fit = Fit(ratio: real, padX: real, padY: real)

  function ScaleX(o: Options, f: Frame): real
    requires f.width > 0
  {
    o.targetWidth as real / f.width as real
  }

  function ScaleY(o: Options, f: Frame): real
    requires f.height > 0
  {
    o.targetHeight as real / f.height as real
  }

  function FitOf(o: Options, f: Frame): Fit
    requires f.width > 0 && f.height > 0
  {
    if o.letterbox then
      var ratio := if ScaleX(o, f) < ScaleY(o, f) then ScaleX(o, f) else ScaleY(o, f);
      Fit(ratio,
          (o.targetWidth - Truncate(Scaled(f.width, ratio))) as real / 2.0,
          (o.targetHeight - Truncate(Scaled(f.height, ratio))) as real / 2.0)
    else Fit(1.0, 0.0, 0.0)
  }

  // ----- the letterbox geometry -----

  lemma QuotientPositive(a: real, b: real)
    requires a > 0.0 && b > 0.0
    ensures a / b > 0.0 && b * (a / b) == a
  {
    var q := a / b;
    assert q * b == a;
    assert q <= 0.0 ==> q * b <= 0.0;
  }

  lemma ScaledSide(side: real, ratio: real, other: real)
    requires side > 0.0 && 0.0 < ratio <= other
    ensures 0.0 < side * ratio <= side * other
  {
    var k := ProductPositive(side, ratio);
  }

  lemma RatioPositive(o: Options, f: Frame)
    requires Usable(o) && f.width > 0 && f.height > 0
    ensures FitOf(o, f).ratio > 0.0
    ensures ScaleX(o, f) > 0.0 && ScaleY(o, f) > 0.0
  {
    QuotientPositive(o.targetWidth as real, f.width as real);
    QuotientPositive(o.targetHeight as real, f.height as real);
  }

  /** One side of the canvas: how much of it the scaled frame covers, and by how much the
      exact image of the frame can run over, given that the drawn size is truncated. */
  lemma SideFits(target: int, scaled: real, pad: real)
    requires target > 0 && 0.0 < scaled <= target as real
    requires pad == (target - Truncate(scaled)) as real / 2.0
    ensures pad >= 0.0 && pad + scaled.Floor as real + pad == target as real
    ensures scaled == target as real ==> pad == 0.0
    ensures pad + scaled - target as real < 0.5
    ensures pad + scaled > 0.0
  {
    var n := scaled.Floor;
    assert n as real <= scaled < n as real + 1.0;
  }

  lemma ScaledSides(o: Options, f: Frame)
    requires Usable(o) && o.letterbox && f.width > 0 && f.height > 0
    ensures var r := FitOf(o, f).ratio;
      && 0.0 < Scaled(f.width, r) <= o.targetWidth as real
      && 0.0 < Scaled(f.height, r) <= o.targetHeight as real
      && (Scaled(f.width, r) == o.targetWidth as real || Scaled(f.height, r) == o.targetHeight as real)
  {
    hide FitOf;
    RatioPositive(o, f);
    RatioIsSmaller(o, f);
    var r := FitOf(o, f).ratio;
    QuotientPositive(o.targetWidth as real, f.width as real);
    QuotientPositive(o.targetHeight as real, f.height as real);
    ScaledSide(f.width as real, r, ScaleX(o, f));
    ScaledSide(f.height as real, r, ScaleY(o, f));
  }

  lemma RatioIsSmaller(o: Options, f: Frame)
    requires o.letterbox && f.width > 0 && f.height > 0
    ensures var r := FitOf(o, f).ratio;
      r <= ScaleX(o, f) && r <= ScaleY(o, f) && (r == ScaleX(o, f) || r == ScaleY(o, f))
  {
    hide ScaleX, ScaleY;
  }

  /** What one side of the canvas holds: the whole pixels drawn stand in the middle, so the
      margin before them is the margin after them. */
  ghost predicate Centred(pad: real, side: int, ratio: real, target: int)
  {
    && pad >= 0.0 && pad + (side as real * ratio).Floor as real + pad == target as real
    && side as real * ratio <= target as real
    && (side as real * ratio == target as real ==> pad == 0.0)
    && pad + side as real * ratio < target as real + 0.5
  }

  lemma SideCentred(target: int, side: int, ratio: real, pad: real)
    requires target > 0 && 0.0 < Scaled(side, ratio) <= target as real
    requires pad == (target - Truncate(Scaled(side, ratio))) as real / 2.0
    ensures Centred(pad, side, ratio, target)
    ensures Scaled(side, ratio) == target as real ==> side as real * ratio == target as real
  {
    hide Truncate;
    SideFits(target, Scaled(side, ratio), pad);
  }

  /** The ratio is the largest under which the frame fits, and the frame is drawn in the
      middle. The margin is zero across the side that fits exactly, and the exact image of
      the whole frame stays within half a pixel of the canvas. */
  lemma LetterboxFits(o: Options, f: Frame)
    requires Usable(o) && o.letterbox && f.width > 0 && f.height > 0
    ensures var g := FitOf(o, f);
      && g.ratio > 0.0
      && Centred(g.padX, f.width, g.ratio, o.targetWidth) && Centred(g.padY, f.height, g.ratio, o.targetHeight)
      && (f.width as real * g.ratio == o.targetWidth as real || f.height as real * g.ratio == o.targetHeight as real)
  {
    hide ScaleX, ScaleY, Truncate, Scaled, Centred;
    var g := FitOf(o, f);
    RatioPositive(o, f);
    ScaledSides(o, f);
    SideCentred(o.targetWidth, f.width, g.ratio, g.padX);
    SideCentred(o.targetHeight, f.height, g.ratio, g.padY);
  }

  /** Without a letterbox nothing is scaled or moved. */
  lemma FitPlaces(o: Options, f: Frame)
    requires Usable(o) && f.width > 0 && f.height > 0
    ensures var g := FitOf(o, f);
      if o.letterbox then
        Centred(g.padX, f.width, g.ratio, o.targetWidth) && Centred(g.padY, f.height, g.ratio, o.targetHeight)
      else g == Fit(1.0, 0.0, 0.0)
  {
    hide Centred, ScaleX, ScaleY, Truncate, Scaled;
    if o.letterbox {
      LetterboxFits(o, f);
    }
  }

  /** A wide frame on a square canvas has its margins above and below. */
  lemma WideFrameOnSquare(f: Frame)
    requires f.width == 1920 && f.height == 1080
    ensures FitOf(DefaultOptions(640, 640), f) == Fit(1.0 / 3.0, 0.0, 140.0)
  {
    var o := DefaultOptions(640, 640);
    assert 640.0 / 1920.0 == 1.0 / 3.0 < 640.0 / 1080.0;
    assert 1920.0 * (1.0 / 3.0) == 640.0 && 1080.0 * (1.0 / 3.0) == 360.0;
  }

  // ----- sampling -----

  /** A number of two digits, the lower one with base d, is below n times d. */
  lemma DigitsBound(q: int, n: int, d: int, r: int)
    requires 0 <= q < n && 0 <= r < d
    ensures 0 <= q * d + r < n * d
  {
    assert q * d <= (n - 1) * d;
    assert (n - 1) * d + d == n * d;
    assert 0 <= q * d;
  }

  function PixelIndex(w: int, x: int, y: int, c: int): int { (y * w + x) * 3 + c }

  lemma PixelInRange(w: int, h: int, x: int, y: int, c: int)
    requires 0 <= x < w && 0 <= y < h && 0 <= c < 3
    ensures 0 <= PixelIndex(w, x, y, c) < w * h * 3
  {
    assert y * w <= (h - 1) * w;
    assert 0 <= y * w;
    assert (h - 1) * w + w == w * h;
  }

  function PixelAt(f: Frame, x: int, y: int, c: int): real
    requires WellFormed(f) && 0 <= x < f.width && 0 <= y < f.height && 0 <= c < 3
  {
    PixelInRange(f.width, f.height, x, y, c);
    f.pixels[PixelIndex(f.width, x, y, c)] as real
  }

  /** The source point has a neighbour to the right and below. */
  predicate Inner(f: Frame, fx: real, fy: real)
  {
    0.0 <= fx < (f.width - 1) as real && 0.0 <= fy < (f.height - 1) as real
  }

  function Blend(a: real, b: real, t: real): real { (1.0 - t) * a + t * b }

  function BilinearSample(f: Frame, fx: real, fy: real, c: int): real
    requires WellFormed(f) && Inner(f, fx, fy) && 0 <= c < 3
  {
    var x0 := if Truncate(fx) < 0 then 0 else Truncate(fx);
    var x1 := if Truncate(fx) + 1 >= f.width then f.width - 1 else Truncate(fx) + 1;
    var y0 := if Truncate(fy) < 0 then 0 else Truncate(fy);
    var y1 := if Truncate(fy) + 1 >= f.height then f.height - 1 else Truncate(fy) + 1;
    var dx, dy := fx - Truncate(fx) as real, fy - Truncate(fy) as real;
    Blend(
      Blend(PixelAt(f, x0, y0, c), PixelAt(f, x1, y0, c), dx),
      Blend(PixelAt(f, x0, y1, c), PixelAt(f, x1, y1, c), dx),
      dy)
  }

  lemma PartOf(t: real, e: real) returns (s: real)
    requires 0.0 <= t <= 1.0
    ensures s == t * e
    ensures e >= 0.0 ==> 0.0 <= s <= e
    ensures e <= 0.0 ==> e <= s <= 0.0
  {
    s := t * e;
  }

  lemma BlendIsStep(a: real, b: real, t: real, s: real)
    requires s == t * (b - a)
    ensures Blend(a, b, t) == a + s
  {
  }

  lemma BlendBetween(a: real, b: real, t: real, lo: real, hi: real)
    requires 0.0 <= t <= 1.0 && lo <= a <= hi && lo <= b <= hi
    ensures lo <= Blend(a, b, t) <= hi
  {
    hide Blend;
    var s := PartOf(t, b - a);
    BlendIsStep(a, b, t, s);
  }

  /** Inside the guard no clamp fires: the four reads are the cell around the point, all
      in range, and the sample lies between any bounds on those four pixels. */
  lemma SampleOfNeighbours(f: Frame, fx: real, fy: real, c: int, lo: real, hi: real)
    requires WellFormed(f) && Inner(f, fx, fy) && 0 <= c < 3
    ensures var x, y := fx.Floor, fy.Floor;
      && 0 <= x && x + 1 < f.width && 0 <= y && y + 1 < f.height
      && BilinearSample(f, fx, fy, c)
         == Blend(Blend(PixelAt(f, x, y, c), PixelAt(f, x + 1, y, c), fx - x as real),
                  Blend(PixelAt(f, x, y + 1, c), PixelAt(f, x + 1, y + 1, c), fx - x as real),
                  fy - y as real)
      && ((&& lo <= PixelAt(f, x, y, c) <= hi && lo <= PixelAt(f, x + 1, y, c) <= hi
           && lo <= PixelAt(f, x, y + 1, c) <= hi && lo <= PixelAt(f, x + 1, y + 1, c) <= hi)
          ==> lo <= BilinearSample(f, fx, fy, c) <= hi)
  {
    hide PixelAt, Blend;
    var x, y := fx.Floor, fy.Floor;
    assert x as real <= fx < x as real + 1.0 && y as real <= fy < y as real + 1.0;
    var a, b := PixelAt(f, x, y, c), PixelAt(f, x + 1, y, c);
    var p, q := PixelAt(f, x, y + 1, c), PixelAt(f, x + 1, y + 1, c);
    if lo <= a <= hi && lo <= b <= hi && lo <= p <= hi && lo <= q <= hi {
      BlendBetween(a, b, fx - x as real, lo, hi);
      BlendBetween(p, q, fx - x as real, lo, hi);
      BlendBetween(Blend(a, b, fx - x as real), Blend(p, q, fx - x as real), fy - y as real, lo, hi);
    }
  }

  // ----- the value of a cell -----

  function SourceX(o: Options, f: Frame, x: int): real
    requires Usable(o) && f.width > 0 && f.height > 0
  {
    RatioPositive(o, f);
    if o.letterbox then (x as real - FitOf(o, f).padX) / FitOf(o, f).ratio
    else x as real / ScaleX(o, f) * 1.0
  }

  function SourceY(o: Options, f: Frame, y: int): real
    requires Usable(o) && f.width > 0 && f.height > 0
  {
    RatioPositive(o, f);
    if o.letterbox then (y as real - FitOf(o, f).padY) / FitOf(o, f).ratio
    else y as real / ScaleY(o, f) * 1.0
  }

  function PadValue(o: Options): real { if o.letterbox then 0.5 else 0.0 }

  function Normalised(o: Options, val: real, c: int): real
    requires Usable(o) && 0 <= c < 3
  {
    (val * o.scale - o.mean[c]) / o.std[c]
  }

  /** What the cell of channel c at row y and column x must hold. */
  function CellValue(o: Options, f: Frame, c: int, y: int, x: int): real
    requires Usable(o) && WellFormed(f) && 0 <= c < 3
  {
    var fx, fy := SourceX(o, f, x), SourceY(o, f, y);
    if Inner(f, fx, fy) then Normalised(o, BilinearSample(f, fx, fy, c), c) else PadValue(o)
  }

  lemma UnitScale(v: real)
    requires 0.0 <= v <= 255.0
    ensures 0.0 <= v * (1.0 / 255.0) <= 1.0
  {
  }

  /** With the default options every cell is in [0, 1]. */
  lemma DefaultCellInUnit(width: int, height: int, f: Frame, c: int, y: int, x: int)
    requires width > 0 && height > 0 && WellFormed(f) && 0 <= c < 3
    ensures Usable(DefaultOptions(width, height))
    ensures 0.0 <= CellValue(DefaultOptions(width, height), f, c, y, x) <= 1.0
  {
    hide BilinearSample, SourceX, SourceY, FitOf, Normalised;
    var o := DefaultOptions(width, height);
    var fx, fy := SourceX(o, f, x), SourceY(o, f, y);
    if Inner(f, fx, fy) {
      SampleInByteRange(f, fx, fy, c);
      UnitScale(BilinearSample(f, fx, fy, c));
      assert o.mean[c] == 0.0 && o.std[c] == 1.0;
      DefaultNormal(BilinearSample(f, fx, fy, c), width, height, c);
    }
  }

  lemma DefaultNormal(v: real, width: int, height: int, c: int)
    requires width > 0 && height > 0 && 0 <= c < 3
    ensures Usable(DefaultOptions(width, height))
    ensures Normalised(DefaultOptions(width, height), v, c) == v * (1.0 / 255.0)
  {
    var o := DefaultOptions(width, height);
    assert o.mean[c] == 0.0 && o.std[c] == 1.0;
  }

  lemma SampleInByteRange(f: Frame, fx: real, fy: real, c: int)
    requires WellFormed(f) && Inner(f, fx, fy) && 0 <= c < 3
    ensures 0.0 <= BilinearSample(f, fx, fy, c) <= 255.0
  {
    hide BilinearSample, PixelAt, Blend;
    var x, y := fx.Floor, fy.Floor;
    SampleOfNeighbours(f, fx, fy, c, 0.0, 255.0);
    PixelIsByte(f, x, y, c);
    PixelIsByte(f, x + 1, y, c);
    PixelIsByte(f, x, y + 1, c);
    PixelIsByte(f, x + 1, y + 1, c);
  }

  lemma PixelIsByte(f: Frame, x: int, y: int, c: int)
    requires WellFormed(f) && 0 <= x < f.width && 0 <= y < f.height && 0 <= c < 3
    ensures 0.0 <= PixelAt(f, x, y, c) <= 255.0
  {
    PixelInRange(f.width, f.height, x, y, c);
  }

  /** A canvas of the frame's own size copies every pixel that has neighbours to the
      right and below, and leaves the last column and the last row at the pad value. */
  lemma SameSizeCopies(f: Frame, c: int, y: int, x: int)
    requires WellFormed(f) && 0 <= c < 3 && 0 <= x < f.width && 0 <= y < f.height
    ensures Usable(DefaultOptions(f.width, f.height))
    ensures FitOf(DefaultOptions(f.width, f.height), f) == Fit(1.0, 0.0, 0.0)
    ensures CellValue(DefaultOptions(f.width, f.height), f, c, y, x)
         == if x < f.width - 1 && y < f.height - 1 then PixelAt(f, x, y, c) * (1.0 / 255.0) else 0.5
  {
    hide BilinearSample, PixelAt, Normalised, FitOf, SourceX, SourceY;
    SameSizeFit(f, x, y);
    if x < f.width - 1 && y < f.height - 1 {
      SampleAtPixel(f, x, y, c);
      DefaultNormal(PixelAt(f, x, y, c), f.width, f.height, c);
    }
  }

  lemma SameSizeFit(f: Frame, x: int, y: int)
    requires f.width > 0 && f.height > 0
    ensures Usable(DefaultOptions(f.width, f.height))
    ensures FitOf(DefaultOptions(f.width, f.height), f) == Fit(1.0, 0.0, 0.0)
    ensures SourceX(DefaultOptions(f.width, f.height), f, x) == x as real
    ensures SourceY(DefaultOptions(f.width, f.height), f, y) == y as real
  {
    hide ScaleX, ScaleY, Scaled, Truncate;
    var o := DefaultOptions(f.width, f.height);
    SameSizeScale(o, f);
    UnitSide(f.width);
    UnitSide(f.height);
    assert FitOf(o, f) == Fit(1.0, 0.0, 0.0);
  }

  lemma SameSizeScale(o: Options, f: Frame)
    requires f.width == o.targetWidth > 0 && f.height == o.targetHeight > 0
    ensures ScaleX(o, f) == 1.0 && ScaleY(o, f) == 1.0
  {
    QuotientPositive(f.width as real, f.width as real);
    QuotientPositive(f.height as real, f.height as real);
    OnlyOne(f.width as real, ScaleX(o, f));
    OnlyOne(f.height as real, ScaleY(o, f));
  }

  lemma OnlyOne(n: real, q: real)
    requires n > 0.0 && n * q == n
    ensures q == 1.0
  {
    assert n * (q - 1.0) == 0.0;
  }

  lemma UnitSide(side: int)
    requires side > 0
    ensures Truncate(Scaled(side, 1.0)) == side
  {
  }

  lemma SampleAtPixel(f: Frame, x: int, y: int, c: int)
    requires WellFormed(f) && 0 <= c < 3 && 0 <= x < f.width - 1 && 0 <= y < f.height - 1
    ensures Inner(f, x as real, y as real)
    ensures BilinearSample(f, x as real, y as real, c) == PixelAt(f, x, y, c)
  {
    hide BilinearSample, PixelAt, Blend;
    SampleOfNeighbours(f, x as real, y as real, c, 0.0, 0.0);
    BlendEnd(PixelAt(f, x, y, c), PixelAt(f, x + 1, y, c));
    BlendEnd(PixelAt(f, x, y + 1, c), PixelAt(f, x + 1, y + 1, c));
    BlendEnd(PixelAt(f, x, y, c), PixelAt(f, x, y + 1, c));
  }

  lemma BlendEnd(a: real, b: real)
    ensures Blend(a, b, 0.0) == a
  {
  }

  /** A cell lying exactly on the image of a source pixel carries that pixel, so what
      the model sees there is what decoding maps back to the same place. */
  lemma CellAtImage(o: Options, f: Frame, c: int, y: int, x: int, px: int, py: int)
    requires Usable(o) && o.letterbox && WellFormed(f) && 0 <= c < 3
    requires 0 <= px < f.width - 1 && 0 <= py < f.height - 1
    requires var g := FitOf(o, f);
      var p := ToModel(BBox(px as real, py as real, 0.0, 0.0), g.padX, g.padY, g.ratio);
      p.x == x as real && p.y == y as real
    ensures CellValue(o, f, c, y, x) == Normalised(o, PixelAt(f, px, py, c), c)
  {
    hide BilinearSample, PixelAt, Normalised, FitOf;
    var g := FitOf(o, f);
    SourceInvertsPlacement(o, f, BBox(px as real, py as real, 0.0, 0.0));
    assert SourceX(o, f, x) == px as real && SourceY(o, f, y) == py as real;
    SampleAtPixel(f, px, py, c);
  }

  /** Whatever box is placed with the letterbox of a frame comes back when that letterbox
      is undone. */
  lemma SourceInvertsPlacement(o: Options, f: Frame, b: BBox)
    requires Usable(o) && f.width > 0 && f.height > 0
    ensures var g := FitOf(o, f);
      g.ratio > 0.0 && ToSource(ToModel(b, g.padX, g.padY, g.ratio), g.padX, g.padY, g.ratio) == b
  {
    hide FitOf, ToSource, ToModel;
    RatioPositive(o, f);
    var g := FitOf(o, f);
    ToSourceInvertsToModel(b, g.padX, g.padY, g.ratio);
  }
}
