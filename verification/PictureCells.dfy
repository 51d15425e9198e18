/** What the model is shown of a frame, told from the frame's own pixels. */
module PictureCells {
  import opened Letterbox
  import opened Preprocessor

  // ----- reading the frame -----

  /** The bytes of a frame follow one another channel by channel, then column by column,
      then row by row. */
  lemma BytesInOrder(w: int, h: int, x: int, y: int, c: int)
    requires w > 0 && h > 0
    ensures PixelIndex(w, 0, 0, 0) == 0
    ensures PixelIndex(w, x, y, c + 1) == PixelIndex(w, x, y, c) + 1
    ensures PixelIndex(w, x + 1, y, 0) == PixelIndex(w, x, y, 2) + 1
    ensures PixelIndex(w, 0, y + 1, 0) == PixelIndex(w, w - 1, y, 2) + 1
    ensures PixelIndex(w, w - 1, h - 1, 2) == w * h * 3 - 1
  {
    assert (y + 1) * w == y * w + w && (h - 1) * w == h * w - w;
  }

  /** The sample starts at the pixel on the upper left and adds the steps to its neighbours,
      each in its share, and the twist of the four in the product of the shares. */
  lemma SampleIsBilinear(f: Frame, fx: real, fy: real, c: int)
    requires WellFormed(f) && Inner(f, fx, fy) && 0 <= c < 3
    ensures var x, y := fx.Floor, fy.Floor;
      && 0 <= x && x + 1 < f.width && 0 <= y && y + 1 < f.height
      && var dx, dy := fx - x as real, fy - y as real;
         var v := PixelAt(f, x, y, c);
         var right, below, across :=
           PixelAt(f, x + 1, y, c) - v, PixelAt(f, x, y + 1, c) - v, PixelAt(f, x + 1, y + 1, c) - v;
         BilinearSample(f, fx, fy, c) == v + right * dx + below * dy + (across - right - below) * (dx * dy)
  {
    hide PixelAt, BilinearSample, Blend;
    SampleOfNeighbours(f, fx, fy, c, 0.0, 0.0);
    var x, y := fx.Floor, fy.Floor;
    TwoBlends(PixelAt(f, x, y, c), PixelAt(f, x + 1, y, c), PixelAt(f, x, y + 1, c), PixelAt(f, x + 1, y + 1, c),
              fx - x as real, fy - y as real);
  }

  lemma TwoBlends(a: real, b: real, p: real, q: real, dx: real, dy: real)
    ensures Blend(Blend(a, b, dx), Blend(p, q, dx), dy)
         == a + (b - a) * dx + (p - a) * dy + (q - a - (b - a) - (p - a)) * (dx * dy)
  {
    BlendSteps(a, b, dx);
    BlendSteps(p, q, dx);
    var upper, lower := a + (b - a) * dx, p + (q - p) * dx;
    BlendSteps(upper, lower, dy);
    Spread(p - a, q - p - (b - a), dx, dy);
  }

  lemma BlendSteps(a: real, b: real, t: real)
    ensures Blend(a, b, t) == a + (b - a) * t
  {
  }

  lemma Spread(u: real, v: real, dx: real, dy: real)
    ensures (u + v * dx) * dy == u * dy + v * (dx * dy)
  {
  }

  // ----- what a cell holds -----

  /** Coordinate s of the frame, placed with a letterbox, is x. */
  ghost predicate PlacedAt(s: real, x: int, ratio: real, pad: real) { s * ratio + pad == x as real }

  /** Coordinate s is as far along the frame as x is along the canvas. */
  ghost predicate StretchedTo(s: real, x: int, side: int, target: int)
  {
    s * target as real == x as real * side as real
  }

  /** The point of the frame that a cell of the canvas looks at: undoing the letterbox, or
      in the same proportion of the frame as the cell is of the canvas. */
  ghost predicate LooksAt(o: Options, f: Frame, x: int, y: int, sx: real, sy: real)
    requires f.width > 0 && f.height > 0
  {
    if o.letterbox then
      var g := FitOf(o, f);
      PlacedAt(sx, x, g.ratio, g.padX) && PlacedAt(sy, y, g.ratio, g.padY)
    else
      StretchedTo(sx, x, f.width, o.targetWidth) && StretchedTo(sy, y, f.height, o.targetHeight)
  }

  lemma SourceOf(o: Options, f: Frame, x: int, y: int, sx: real, sy: real)
    requires Usable(o) && f.width > 0 && f.height > 0
    ensures LooksAt(o, f, x, y, sx, sy) <==> sx == SourceX(o, f, x) && sy == SourceY(o, f, y)
  {
    hide FitOf, ScaleX, ScaleY, PlacedAt, StretchedTo;
    RatioPositive(o, f);
    if o.letterbox {
      var g := FitOf(o, f);
      PlacedIff(sx, x, g.padX, g.ratio);
      PlacedIff(sy, y, g.padY, g.ratio);
    } else {
      ScaleTimesSide(o, f);
      StretchedIff(sx, x, f.width, o.targetWidth, ScaleX(o, f));
      StretchedIff(sy, y, f.height, o.targetHeight, ScaleY(o, f));
    }
  }

  lemma ScaleTimesSide(o: Options, f: Frame)
    requires Usable(o) && f.width > 0 && f.height > 0
    ensures f.width as real * ScaleX(o, f) == o.targetWidth as real
    ensures f.height as real * ScaleY(o, f) == o.targetHeight as real
  {
    QuotientPositive(o.targetWidth as real, f.width as real);
    QuotientPositive(o.targetHeight as real, f.height as real);
  }

  lemma PlacedIff(s: real, x: int, pad: real, ratio: real)
    requires ratio > 0.0
    ensures PlacedAt(s, x, ratio, pad) <==> s == (x as real - pad) / ratio
  {
    var q := (x as real - pad) / ratio;
    assert q * ratio == x as real - pad;
    if s * ratio == q * ratio {
      SameFactor(s, q, ratio);
    }
  }

  lemma SameFactor(a: real, b: real, r: real)
    requires r > 0.0 && a * r == b * r
    ensures a == b
  {
    assert (a - b) * r == 0.0;
  }

  lemma StretchedIff(s: real, x: int, side: int, target: int, scale: real)
    requires side > 0 && target > 0 && scale > 0.0 && side as real * scale == target as real
    ensures StretchedTo(s, x, side, target) <==> s == x as real / scale * 1.0
  {
    var n, p, q := side as real, x as real, x as real / scale;
    assert q * scale == p;
    assert s * target as real == s * scale * n;
    if s * scale * n == p * n {
      SameFactor(s * scale, p, n);
      SameFactor(s, q, scale);
    }
  }

  /** A cell that looks at a point with neighbours holds the sample of the frame there,
      scaled and normalised; every other cell holds the colour of the margin, grey in a
      letterbox and black otherwise. */
  lemma CellShows(o: Options, f: Frame, k: Cell, sx: real, sy: real)
    requires Usable(o) && WellFormed(f) && InTensor(o, k) && LooksAt(o, f, k.x, k.y, sx, sy)
    ensures 0 <= IndexOf(o, k) < |TensorOf(o, f)|
    ensures var v := TensorOf(o, f)[IndexOf(o, k)];
      if 0.0 <= sx < (f.width - 1) as real && 0.0 <= sy < (f.height - 1) as real then
        Inner(f, sx, sy) && v * o.std[k.c] + o.mean[k.c] == BilinearSample(f, sx, sy, k.c) * o.scale
      else
        v == if o.letterbox then 0.5 else 0.0
  {
    hide LooksAt, BilinearSample, SourceX, SourceY, IndexOf, TensorOf;
    TensorCells(o, f, k);
    SourceOf(o, f, k.x, k.y, sx, sy);
  }

  // ----- where a cell lives -----

  /** The cells follow one another column by column, row by row and plane by plane when the
      channels come first, and like the bytes of a frame when they come last. */
  lemma CellsInOrder(o: Options, c: int, y: int, x: int)
    requires o.targetWidth > 0 && o.targetHeight > 0
    ensures var w, h := o.targetWidth, o.targetHeight;
      && IndexOf(o, Cell(0, 0, 0)) == 0
      && IndexOf(o, Cell(2, h - 1, w - 1)) == w * h * 3 - 1
      && (o.chwOrder ==>
            && IndexOf(o, Cell(c, y, x + 1)) == IndexOf(o, Cell(c, y, x)) + 1
            && IndexOf(o, Cell(c, y + 1, 0)) == IndexOf(o, Cell(c, y, w - 1)) + 1
            && IndexOf(o, Cell(c + 1, 0, 0)) == IndexOf(o, Cell(c, h - 1, w - 1)) + 1)
      && (!o.chwOrder ==> IndexOf(o, Cell(c, y, x)) == PixelIndex(w, x, y, c))
  {
    var w, h := o.targetWidth, o.targetHeight;
    if o.chwOrder {
      RowsOf(c * h + y, w);
      RowsOf(c * h + (h - 1), w);
      RowsOf(c, h);
      RowsOf(2 * h + (h - 1), w);
      assert 3 * h * w == w * h * 3;
    } else {
      BytesInOrder(w, h, x, y, c);
    }
  }

  lemma RowsOf(n: int, w: int)
    ensures (n + 1) * w == n * w + w
  {
  }

  /** The default tensor has the planes one after the other. */
  lemma DefaultIsPlanar(width: int, height: int, f: Frame, k: Cell)
    requires width > 0 && height > 0 && WellFormed(f) && InTensor(DefaultOptions(width, height), k)
    ensures var o, i := DefaultOptions(width, height), (k.c * height + k.y) * width + k.x;
      Usable(o) && 0 <= i < |TensorOf(o, f)| && TensorOf(o, f)[i] == CellValue(o, f, k.c, k.y, k.x)
  {
    hide CellValue, TensorOf;
    TensorCells(DefaultOptions(width, height), f, k);
  }
}
