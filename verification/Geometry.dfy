/** Overlap of boxes, and the maps between model pixels and source pixels. */
module Geometry {
  import opened Types

  function Max(a: real, b: real): real { if a >= b then a else b }

  function Min(a: real, b: real): real { if a <= b then a else b }

  /** Extent of the overlap of the intervals [a, a + w] and [b, b + v]. */
  function Shared(a: real, w: real, b: real, v: real): real
  {
    Max(0.0, Min(a + w, b + v) - Max(a, b))
  }

  function Area(b: BBox): real { b.w * b.h }

  function Overlap(a: BBox, b: BBox): real
  {
    Shared(a.x, a.w, b.x, b.w) * Shared(a.y, a.h, b.y, b.h)
  }

  /** An overlap as a share of the area the two boxes cover together; zero when
      they cover none. */
  function Share(inter: real, areaA: real, areaB: real): real
  {
    var union := areaA + areaB - inter;
    if union > 0.0 then inter / union else 0.0
  }

  /** Intersection over union. */
  function Iou(a: BBox, b: BBox): real
  {
    Share(Overlap(a, b), Area(a), Area(b))
  }

  predicate Proper(b: BBox) { b.w >= 0.0 && b.h >= 0.0 }

  lemma ProductMonotone(a: real, b: real, c: real, d: real)
    requires 0.0 <= a <= c && 0.0 <= b <= d
    ensures 0.0 <= a * b <= c * d
  {
    assert a * b <= c * b;
    assert c * b <= c * d;
  }

  lemma OverlapFits(a: BBox, b: BBox)
    requires Proper(a) && Proper(b)
    ensures 0.0 <= Overlap(a, b) <= Area(a)
    ensures Overlap(a, b) <= Area(b)
  {
    hide Shared;
    var w, h := Shared(a.x, a.w, b.x, b.w), Shared(a.y, a.h, b.y, b.h);
    SharedFits(a.x, a.w, b.x, b.w);
    SharedFits(a.y, a.h, b.y, b.h);
    ProductMonotone(w, h, a.w, a.h);
    ProductMonotone(w, h, b.w, b.h);
  }

  lemma SharedFits(a: real, w: real, b: real, v: real)
    requires w >= 0.0 && v >= 0.0
    ensures 0.0 <= Shared(a, w, b, v) <= w && Shared(a, w, b, v) <= v
  {
  }

  lemma QuotientInUnit(x: real, u: real)
    requires 0.0 <= x <= u && u > 0.0
    ensures 0.0 <= x / u <= 1.0
  {
  }

  lemma ShareInUnit(inter: real, areaA: real, areaB: real)
    requires 0.0 <= inter <= areaA && inter <= areaB
    ensures 0.0 <= Share(inter, areaA, areaB) <= 1.0
    ensures inter == areaA == areaB > 0.0 ==> Share(inter, areaA, areaB) == 1.0
  {
    var union := areaA + areaB - inter;
    if union > 0.0 {
      QuotientInUnit(inter, union);
    }
  }

  lemma SharedSymmetric(a: real, w: real, b: real, v: real)
    ensures Shared(a, w, b, v) == Shared(b, v, a, w)
  {
  }

  lemma OverlapSymmetric(a: BBox, b: BBox)
    ensures Overlap(a, b) == Overlap(b, a)
  {
    hide Shared;
    SharedSymmetric(a.x, a.w, b.x, b.w);
    SharedSymmetric(a.y, a.h, b.y, b.h);
  }

  lemma IouSymmetric(a: BBox, b: BBox)
    ensures Iou(a, b) == Iou(b, a)
  {
    hide Overlap, Area;
    OverlapSymmetric(a, b);
  }

  lemma IouInUnit(a: BBox, b: BBox)
    requires Proper(a) && Proper(b)
    ensures 0.0 <= Iou(a, b) <= 1.0
  {
    hide Overlap, Area, Share;
    OverlapFits(a, b);
    ShareInUnit(Overlap(a, b), Area(a), Area(b));
  }

  lemma IouOfSelf(a: BBox)
    requires a.w > 0.0 && a.h > 0.0
    ensures Iou(a, a) == 1.0
  {
    assert Shared(a.x, a.w, a.x, a.w) == a.w && Shared(a.y, a.h, a.y, a.h) == a.h;
    var area := ProductPositive(a.w, a.h);
    ShareInUnit(area, area, area);
  }

  lemma ProductPositive(r: real, s: real) returns (k: real)
    requires r > 0.0 && s > 0.0
    ensures k == r * s && k > 0.0
  {
    k := r * s;
  }

  /** Undoing the letterbox on a box in model pixels. */
  function ToSource(b: BBox, padX: real, padY: real, ratio: real): BBox
    requires ratio != 0.0
  {
    BBox((b.x - padX) / ratio, (b.y - padY) / ratio, b.w / ratio, b.h / ratio)
  }

  /** Placing a source box on the letterboxed canvas. */
  function ToModel(b: BBox, padX: real, padY: real, ratio: real): BBox
  {
    BBox(b.x * ratio + padX, b.y * ratio + padY, b.w * ratio, b.h * ratio)
  }

  lemma ToSourceInvertsToModel(b: BBox, padX: real, padY: real, ratio: real)
    requires ratio > 0.0
    ensures ToSource(ToModel(b, padX, padY, ratio), padX, padY, ratio) == b
    ensures ToModel(ToSource(b, padX, padY, ratio), padX, padY, ratio) == b
  {
    CornerRoundTrip(b.x, padX, ratio);
    CornerRoundTrip(b.y, padY, ratio);
    ScaleBack(b.w, ratio);
    ScaleBack(b.h, ratio);
  }

  lemma CornerRoundTrip(x: real, pad: real, ratio: real)
    requires ratio > 0.0
    ensures (x * ratio + pad - pad) / ratio == x
    ensures (x - pad) / ratio * ratio + pad == x
  {
    assert x * ratio + pad - pad == x * ratio;
    ScaleBack(x, ratio);
    ScaleBack(x - pad, ratio);
  }

  lemma ScaleBack(x: real, r: real)
    requires r > 0.0
    ensures x * r / r == x && x / r * r == x
  {
  }

  lemma SharedScales(a: real, w: real, b: real, v: real, p: real, r: real)
    requires r > 0.0
    ensures Shared((a - p) / r, w / r, (b - p) / r, v / r) == Shared(a, w, b, v) / r
  {
    var e, f := a + w, b + v;
    QuotientSum(a - p, w, r);
    QuotientSum(b - p, v, r);
    QuotientOrder(a - p, b - p, r);
    QuotientOrder(e - p, f - p, r);
    var hi, lo := Min(e, f), Max(a, b);
    assert Min((e - p) / r, (f - p) / r) == (hi - p) / r;
    assert Max((a - p) / r, (b - p) / r) == (lo - p) / r;
    QuotientSum(hi - lo, lo - p, r);
    QuotientOrder(0.0, hi - lo, r);
    assert 0.0 / r == 0.0;
  }

  lemma QuotientSum(x: real, y: real, r: real)
    requires r > 0.0
    ensures x / r + y / r == (x + y) / r
  {
  }

  lemma QuotientOrder(x: real, y: real, r: real)
    requires r > 0.0
    ensures x <= y <==> x / r <= y / r
  {
    ScaleBack(x, r);
    ScaleBack(y, r);
    if x / r <= y / r {
      assert x / r * r <= y / r * r;
    }
    if y / r < x / r {
      assert y / r * r < x / r * r;
    }
  }

  lemma QuotientProduct(x: real, y: real, r: real, k: real)
    requires r > 0.0 && k == r * r && k > 0.0
    ensures (x / r) * (y / r) == (x * y) / k
  {
    ScaleBack(x, r);
    ScaleBack(y, r);
    var p, q := x / r, y / r;
    assert x * y == (p * q) * k by {
      assert x * y == (p * r) * (q * r);
    }
    ScaleBack(p * q, k);
  }

  lemma AreaScales(a: BBox, padX: real, padY: real, ratio: real, k: real)
    requires ratio > 0.0 && k == ratio * ratio && k > 0.0
    ensures Area(ToSource(a, padX, padY, ratio)) == Area(a) / k
  {
    QuotientProduct(a.w, a.h, ratio, k);
  }

  lemma OverlapScales(a: BBox, b: BBox, padX: real, padY: real, ratio: real, k: real)
    requires ratio > 0.0 && k == ratio * ratio && k > 0.0
    ensures Overlap(ToSource(a, padX, padY, ratio), ToSource(b, padX, padY, ratio)) == Overlap(a, b) / k
  {
    hide Shared;
    SharedScales(a.x, a.w, b.x, b.w, padX, ratio);
    SharedScales(a.y, a.h, b.y, b.h, padY, ratio);
    QuotientProduct(Shared(a.x, a.w, b.x, b.w), Shared(a.y, a.h, b.y, b.h), ratio, k);
  }

  /** Overlap of two boxes does not depend on which side of the letterbox it is
      measured: areas scale together, so their quotient stays. */
  lemma IouUnchangedByToSource(a: BBox, b: BBox, padX: real, padY: real, ratio: real)
    requires ratio > 0.0
    ensures Iou(ToSource(a, padX, padY, ratio), ToSource(b, padX, padY, ratio)) == Iou(a, b)
  {
    hide Overlap, Area, ToSource, Share;
    var k := ProductPositive(ratio, ratio);
    AreaScales(a, padX, padY, ratio, k);
    AreaScales(b, padX, padY, ratio, k);
    OverlapScales(a, b, padX, padY, ratio, k);
    ShareScales(Overlap(a, b), Area(a), Area(b), k);
  }

  lemma ShareScales(inter: real, areaA: real, areaB: real, k: real)
    requires k > 0.0
    ensures Share(inter / k, areaA / k, areaB / k) == Share(inter, areaA, areaB)
  {
    var u := areaA + areaB - inter;
    QuotientSum(areaA, areaB, k);
    QuotientSum(areaA + areaB, -inter, k);
    assert (-inter) / k == -(inter / k);
    QuotientOrder(u, 0.0, k);
    assert 0.0 / k == 0.0;
    if u > 0.0 {
      CommonFactor(inter, u, k);
    }
  }

  lemma CommonFactor(x: real, u: real, k: real)
    requires u > 0.0 && k > 0.0 && u / k > 0.0
    ensures (x / k) / (u / k) == x / u
  {
    ScaleBack(x, k);
    ScaleBack(u, k);
    var p, q := x / k, u / k;
    ScaleBack(p, q);
    var t := p / q;
    assert x == t * u by {
      assert p * k == t * q * k;
    }
    ScaleBack(t, u);
  }

  /** The smallest box containing both. */
  function Hull(a: BBox, b: BBox): BBox
  {
    var x, y := Min(a.x, b.x), Min(a.y, b.y);
    BBox(x, y, Max(a.x + a.w, b.x + b.w) - x, Max(a.y + a.h, b.y + b.h) - y)
  }

  predicate Inside(a: BBox, b: BBox)
  {
    && b.x <= a.x && b.y <= a.y
    && a.x + a.w <= b.x + b.w && a.y + a.h <= b.y + b.h
  }
}
