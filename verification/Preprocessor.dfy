/** Filling the tensor cell by cell. */
module Preprocessor {
  import opened Letterbox

  // ----- where a cell lives -----

  datatype Cell = Cell(c: int, y: int, x: int)

  predicate InTensor(o: Options, k: Cell)
  {
    0 <= k.c < 3 && 0 <= k.y < o.targetHeight && 0 <= k.x < o.targetWidth
  }

  function TensorSize(o: Options): int { o.targetWidth * o.targetHeight * 3 }

  function IndexOf(o: Options, k: Cell): int
  {
    if o.chwOrder then (k.c * o.targetHeight + k.y) * o.targetWidth + k.x
    else (k.y * o.targetWidth + k.x) * 3 + k.c
  }

  function CellAt(o: Options, i: int): Cell
    requires o.targetWidth > 0 && o.targetHeight > 0
  {
    if o.chwOrder then
      Cell(i / o.targetWidth / o.targetHeight, i / o.targetWidth % o.targetHeight, i % o.targetWidth)
    else
      Cell(i % 3, i / 3 / o.targetWidth, i / 3 % o.targetWidth)
  }

  lemma DivModOf(q: int, d: int, r: int)
    requires d > 0 && 0 <= r < d
    ensures (q * d + r) / d == q && (q * d + r) % d == r
  {
    var n := q * d + r;
    assert n == (n / d) * d + n % d;
    var e := n / d - q;
    assert e * d == r - n % d;
    assert e >= 1 ==> e * d >= d;
    assert e <= -1 ==> e * d <= -d;
  }

  /** Three digits with bases n, d and e make a number below n * d * e, and division
      takes them apart again. */
  lemma ThreeDigits(a: int, n: int, b: int, d: int, c: int, e: int) returns (k: int)
    requires 0 <= a < n && 0 <= b < d && 0 <= c < e
    ensures k == (a * d + b) * e + c && 0 <= k < n * d * e
    ensures k / e / d == a && k / e % d == b && k % e == c
  {
    var q := a * d + b;
    DigitsBound(a, n, d, b);
    DigitsBound(q, n * d, e, c);
    DivModOf(q, e, c);
    DivModOf(a, d, b);
    k := q * e + c;
  }

  lemma SizeForms(w: int, h: int)
    ensures 3 * h * w == w * h * 3 && h * w * 3 == w * h * 3
  {
  }

  /** Cells and positions correspond one to one: no two cells share a position and no
      position is outside the tensor. */
  lemma CellRoundTrip(o: Options, k: Cell)
    requires InTensor(o, k)
    ensures 0 <= IndexOf(o, k) < TensorSize(o)
    ensures CellAt(o, IndexOf(o, k)) == k
  {
    SizeForms(o.targetWidth, o.targetHeight);
    if o.chwOrder {
      var i := ThreeDigits(k.c, 3, k.y, o.targetHeight, k.x, o.targetWidth);
    } else {
      var i := ThreeDigits(k.y, o.targetHeight, k.x, o.targetWidth, k.c, 3);
    }
  }

  lemma QuotientBelow(i: int, d: int, n: int)
    requires d > 0 && 0 <= i < n * d
    ensures 0 <= i / d < n && i == i / d * d + i % d
  {
    var q := i / d;
    assert i == q * d + i % d;
    assert q >= n ==> q * d >= n * d;
    assert q < 0 ==> q * d <= -d;
  }

  lemma PositionRoundTrip(o: Options, i: int)
    requires o.targetWidth > 0 && o.targetHeight > 0 && 0 <= i < TensorSize(o)
    ensures InTensor(o, CellAt(o, i)) && IndexOf(o, CellAt(o, i)) == i
  {
    var w, h := o.targetWidth, o.targetHeight;
    if o.chwOrder {
      assert TensorSize(o) == (3 * h) * w;
      QuotientBelow(i, w, 3 * h);
      QuotientBelow(i / w, h, 3);
    } else {
      assert TensorSize(o) == (h * w) * 3;
      QuotientBelow(i, 3, h * w);
      QuotientBelow(i / 3, w, h);
    }
  }

  // ----- the finished tensor -----

  function ValueAt(o: Options, f: Frame, i: int): real
    requires Usable(o) && WellFormed(f) && 0 <= i < TensorSize(o)
  {
    PositionRoundTrip(o, i);
    var k := CellAt(o, i);
    CellValue(o, f, k.c, k.y, k.x)
  }

  function TensorOf(o: Options, f: Frame): (r: seq<real>)
    requires Usable(o) && WellFormed(f)
    ensures |r| == TensorSize(o)
  {
    SizePositive(o);
    seq(TensorSize(o), i requires 0 <= i < TensorSize(o) => ValueAt(o, f, i))
  }

  lemma SizePositive(o: Options)
    requires o.targetWidth > 0 && o.targetHeight > 0
    ensures TensorSize(o) > 0
  {
    var a := o.targetWidth * o.targetHeight;
    assert a > 0;
    assert a * 3 > 0;
  }

  /** Every cell of the finished tensor holds the value of its cell. */
  lemma TensorCells(o: Options, f: Frame, k: Cell)
    requires Usable(o) && WellFormed(f) && InTensor(o, k)
    ensures 0 <= IndexOf(o, k) < |TensorOf(o, f)|
    ensures TensorOf(o, f)[IndexOf(o, k)] == CellValue(o, f, k.c, k.y, k.x)
  {
    hide CellValue, CellAt, IndexOf, TensorSize;
    CellRoundTrip(o, k);
  }

  /** The channel-first and the channel-last tensors are one image, indexed two ways. */
  lemma LayoutsAgree(o: Options, f: Frame, k: Cell)
    requires Usable(o) && WellFormed(f) && InTensor(o, k)
    ensures var chw, hwc := o.(chwOrder := true), o.(chwOrder := false);
      && 0 <= IndexOf(chw, k) < |TensorOf(chw, f)| && 0 <= IndexOf(hwc, k) < |TensorOf(hwc, f)|
      && TensorOf(chw, f)[IndexOf(chw, k)] == TensorOf(hwc, f)[IndexOf(hwc, k)]
  {
    var chw, hwc := o.(chwOrder := true), o.(chwOrder := false);
    TensorCells(chw, f, k);
    TensorCells(hwc, f, k);
    SameCell(chw, hwc, f, k);
  }

  lemma SameScales(a: Options, b: Options, f: Frame)
    requires b == a.(chwOrder := false) && f.width > 0 && f.height > 0
    ensures ScaleX(a, f) == ScaleX(b, f) && ScaleY(a, f) == ScaleY(b, f)
  {
  }

  lemma SameFit(a: Options, b: Options, f: Frame)
    requires b == a.(chwOrder := false) && f.width > 0 && f.height > 0
    ensures FitOf(a, f) == FitOf(b, f)
  {
    hide ScaleX, ScaleY, Truncate, Scaled;
    SameScales(a, b, f);
  }

  lemma SameSource(a: Options, b: Options, f: Frame, k: Cell)
    requires Usable(a) && b == a.(chwOrder := false) && f.width > 0 && f.height > 0
    ensures SourceX(a, f, k.x) == SourceX(b, f, k.x) && SourceY(a, f, k.y) == SourceY(b, f, k.y)
  {
    hide ScaleX, ScaleY, FitOf;
    SameScales(a, b, f);
    SameFit(a, b, f);
  }

  lemma SameNormal(a: Options, b: Options, v: real, c: int)
    requires Usable(a) && b == a.(chwOrder := false) && 0 <= c < 3
    ensures Normalised(a, v, c) == Normalised(b, v, c)
  {
  }

  lemma SameCell(a: Options, b: Options, f: Frame, k: Cell)
    requires Usable(a) && WellFormed(f) && InTensor(a, k) && b == a.(chwOrder := false)
    ensures CellValue(a, f, k.c, k.y, k.x) == CellValue(b, f, k.c, k.y, k.x)
  {
    hide BilinearSample, Inner, SourceX, SourceY, Normalised;
    SameSource(a, b, f, k);
    var fx, fy := SourceX(a, f, k.x), SourceY(a, f, k.y);
    if Inner(f, fx, fy) {
      SameNormal(a, b, BilinearSample(f, fx, fy, k.c), k.c);
    }
  }

  lemma DefaultTensorInUnit(width: int, height: int, f: Frame)
    requires width > 0 && height > 0 && WellFormed(f)
    ensures Usable(DefaultOptions(width, height))
    ensures forall i :: 0 <= i < |TensorOf(DefaultOptions(width, height), f)| ==>
      0.0 <= TensorOf(DefaultOptions(width, height), f)[i] <= 1.0
  {
    hide CellValue, CellAt, IndexOf, TensorSize;
    var o := DefaultOptions(width, height);
    forall i | 0 <= i < |TensorOf(o, f)| ensures 0.0 <= TensorOf(o, f)[i] <= 1.0 {
      PositionRoundTrip(o, i);
      var k := CellAt(o, i);
      DefaultCellInUnit(width, height, f, k.c, k.y, k.x);
    }
  }

  // ----- the loops -----

  class Tensor {
    var data: array?<real>

    constructor ()
      ensures data == null
    {
      data := null;
    }
  }

  class PreprocessConfig {
    const options: Options
    var padX: real
    var padY: real
    var ratio: real

    constructor (width: int, height: int)
      ensures options == DefaultOptions(width, height)
    {
      options := DefaultOptions(width, height);
      padX, padY, ratio := 0.0, 0.0, 0.0;
    }
  }

  /** Cell k comes before the loop position (y, x, c). */
  predicate Before(k: Cell, y: int, x: int, c: int)
  {
    k.y < y || (k.y == y && (k.x < x || (k.x == x && k.c < c)))
  }

  /** The tensor once the loops have reached (y, x, c): finished cells hold their value
      and the others the pad value. */
  ghost predicate FilledTo(data: seq<real>, o: Options, f: Frame, y: int, x: int, c: int)
    requires Usable(o) && WellFormed(f) && |data| == TensorSize(o)
  {
    forall i :: 0 <= i < |data| ==>
      data[i] == if Before(CellAt(o, i), y, x, c) then ValueAt(o, f, i) else PadValue(o)
  }

  lemma FillOne(data: seq<real>, o: Options, f: Frame, y: int, x: int, c: int, val: real)
    requires Usable(o) && WellFormed(f) && |data| == TensorSize(o)
    requires InTensor(o, Cell(c, y, x)) && FilledTo(data, o, f, y, x, c)
    requires val == CellValue(o, f, c, y, x)
    ensures 0 <= IndexOf(o, Cell(c, y, x)) < |data|
    ensures FilledTo(data[IndexOf(o, Cell(c, y, x)) := val], o, f, y, x, c + 1)
  {
    hide CellValue, CellAt, IndexOf, TensorSize, PadValue;
    var k := Cell(c, y, x);
    CellRoundTrip(o, k);
    var n := IndexOf(o, k);
    var after := data[n := val];
    forall i | 0 <= i < |data|
      ensures after[i] == if Before(CellAt(o, i), y, x, c + 1) then ValueAt(o, f, i) else PadValue(o)
    {
      PositionRoundTrip(o, i);
    }
  }

  /** A cell outside the source keeps the pad value it was filled with. */
  lemma SkipCell(data: seq<real>, o: Options, f: Frame, y: int, x: int)
    requires Usable(o) && WellFormed(f) && |data| == TensorSize(o)
    requires 0 <= y < o.targetHeight && 0 <= x < o.targetWidth
    requires FilledTo(data, o, f, y, x, 0) && !Inner(f, SourceX(o, f, x), SourceY(o, f, y))
    ensures FilledTo(data, o, f, y, x + 1, 0)
  {
    hide CellAt, TensorSize, SourceX, SourceY, Inner, BilinearSample;
    forall i | 0 <= i < |data|
      ensures data[i] == if Before(CellAt(o, i), y, x + 1, 0) then ValueAt(o, f, i) else PadValue(o)
    {
      PositionRoundTrip(o, i);
    }
  }

  lemma NextColumn(data: seq<real>, o: Options, f: Frame, y: int, x: int)
    requires Usable(o) && WellFormed(f) && |data| == TensorSize(o)
    requires FilledTo(data, o, f, y, x, 3)
    ensures FilledTo(data, o, f, y, x + 1, 0)
  {
    hide CellAt, TensorSize, ValueAt;
    forall i | 0 <= i < |data|
      ensures Before(CellAt(o, i), y, x, 3) == Before(CellAt(o, i), y, x + 1, 0)
    {
      PositionRoundTrip(o, i);
    }
  }

  lemma NextRow(data: seq<real>, o: Options, f: Frame, y: int)
    requires Usable(o) && WellFormed(f) && |data| == TensorSize(o)
    requires FilledTo(data, o, f, y, o.targetWidth, 0)
    ensures FilledTo(data, o, f, y + 1, 0, 0)
  {
    hide CellAt, TensorSize, ValueAt;
    forall i | 0 <= i < |data|
      ensures Before(CellAt(o, i), y, o.targetWidth, 0) == Before(CellAt(o, i), y + 1, 0, 0)
    {
      PositionRoundTrip(o, i);
    }
  }

  lemma AllFilled(data: seq<real>, o: Options, f: Frame)
    requires Usable(o) && WellFormed(f) && |data| == TensorSize(o)
    requires FilledTo(data, o, f, o.targetHeight, 0, 0)
    ensures data == TensorOf(o, f)
  {
    hide CellAt, TensorSize, ValueAt;
    forall i | 0 <= i < |data| ensures data[i] == TensorOf(o, f)[i] {
      PositionRoundTrip(o, i);
    }
  }

  lemma NothingFilled(data: seq<real>, o: Options, f: Frame)
    requires Usable(o) && WellFormed(f) && |data| == TensorSize(o)
    requires forall i :: 0 <= i < |data| ==> data[i] == PadValue(o)
    ensures FilledTo(data, o, f, 0, 0, 0)
  {
    hide CellAt, TensorSize, ValueAt, PadValue;
    forall i | 0 <= i < |data| ensures !Before(CellAt(o, i), 0, 0, 0) {
      PositionRoundTrip(o, i);
    }
  }

  /** Fills the tensor, allocating it on first use, and leaves the letterbox state in
      the configuration. */
  method PreprocessFrame(f: Frame, tensor: Tensor, config: PreprocessConfig)
    requires WellFormed(f) && Usable(config.options)
    requires tensor.data != null ==> tensor.data.Length == TensorSize(config.options)
    modifies tensor, config, if tensor.data == null then {} else {tensor.data}
    ensures tensor.data != null && (tensor.data == old(tensor.data) || fresh(tensor.data))
    ensures tensor.data[..] == TensorOf(config.options, f)
    ensures Fit(config.ratio, config.padX, config.padY) == FitOf(config.options, f)
    ensures var o := config.options;
      if o.letterbox then
        Centred(config.padX, f.width, config.ratio, o.targetWidth)
        && Centred(config.padY, f.height, config.ratio, o.targetHeight)
      else config.ratio == 1.0 && config.padX == config.padY == 0.0
  {
    hide TensorSize, FitOf, Usable, ValueAt, TensorOf, Centred;
    var o := config.options;
    if tensor.data == null {
      tensor.data := NewTensor(o);
    }
    var fit := FitOf(o, f);
    FitPlaces(o, f);
    config.padX, config.padY, config.ratio := fit.padX, fit.padY, fit.ratio;
    FillTensor(f, tensor.data, o);
  }

  method NewTensor(o: Options) returns (data: array<real>)
    requires Usable(o)
    ensures fresh(data) && data.Length == TensorSize(o)
  {
    SizePositive(o);
    data := new real[TensorSize(o)](_ => 0.0);
  }

  method FillTensor(f: Frame, data: array<real>, o: Options)
    requires WellFormed(f) && Usable(o) && data.Length == TensorSize(o)
    modifies data
    ensures data[..] == TensorOf(o, f)
  {
    hide TensorSize, FilledTo, SourceX, SourceY, TensorOf, PadValue, CellValue;
    for i := 0 to data.Length
      invariant forall k :: 0 <= k < i ==> data[k] == PadValue(o)
    {
      data[i] := PadValue(o);
    }
    NothingFilled(data[..], o, f);
    for y := 0 to o.targetHeight
      invariant FilledTo(data[..], o, f, y, 0, 0)
    {
      for x := 0 to o.targetWidth
        invariant FilledTo(data[..], o, f, y, x, 0)
      {
        FillCells(f, data, o, y, x);
      }
      NextRow(data[..], o, f, y);
    }
    AllFilled(data[..], o, f);
  }

  /** The three channels of one canvas position. */
  method FillCells(f: Frame, data: array<real>, o: Options, y: int, x: int)
    requires WellFormed(f) && Usable(o) && data.Length == TensorSize(o)
    requires 0 <= y < o.targetHeight && 0 <= x < o.targetWidth
    requires FilledTo(data[..], o, f, y, x, 0)
    modifies data
    ensures FilledTo(data[..], o, f, y, x + 1, 0)
  {
    hide TensorSize, FilledTo, SourceX, SourceY, BilinearSample, IndexOf, Inner, Normalised;
    var srcX, srcY := SourceX(o, f, x), SourceY(o, f, y);
    if !Inner(f, srcX, srcY) {
      SkipCell(data[..], o, f, y, x);
      return;
    }
    for c := 0 to 3
      invariant FilledTo(data[..], o, f, y, x, c)
    {
      var val := BilinearSample(f, srcX, srcY, c);
      val := Normalised(o, val, c);
      FillOne(data[..], o, f, y, x, c, val);
      data[IndexOf(o, Cell(c, y, x))] := val;
    }
    NextColumn(data[..], o, f, y, x);
  }
}
