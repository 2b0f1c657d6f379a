/** Clamping a requested box to an image and enlarging it to the smallest size the model accepts,
    in exact real arithmetic. */
module BoundingBox {
  import opened Wrappers

  const MIN_DIMENSION := 28.0

  datatype Box = Box(left: real, top: real, right: real, bottom: real)

  datatype Size = Size(w: real, h: real)

  function MinR(a: real, b: real): real {
    if a <= b then a else b
  }

  function MaxR(a: real, b: real): real {
    if a >= b then a else b
  }

  function Ceil(x: real): int {
    -((-x).Floor)
  }

  // The longer side over the shorter one.
  function Aspect(width: real, height: real): real
    requires width > 0.0 && height > 0.0
  {
    Over(MaxR(height, width), MinR(height, width))
  }

  predicate Validate(b: Box) {
    b.left < b.right && b.top < b.bottom
    && Aspect(b.right - b.left, b.bottom - b.top) <= 100.0
  }

  function Clamped(b: Box, width: int, height: int): Box {
    Box(MaxR(0.0, b.left), MaxR(0.0, b.top), MinR(width as real, b.right), MinR(height as real, b.bottom))
  }

  // ------------------------------------------------------------------ the method

  method MaybeResizeBbox(bbox: Box, imageWidth: int, imageHeight: int) returns (r: Option<Box>)
    ensures r == Resized(bbox, imageWidth, imageHeight)
  {
    hide Target, Aspect, Ceil;
    var left := MaxR(0.0, bbox.left);
    var top := MaxR(0.0, bbox.top);
    var right := MinR(imageWidth as real, bbox.right);
    var bottom := MinR(imageHeight as real, bbox.bottom);
    if !Validate(Box(left, top, right, bottom)) {
      return None;
    }
    var current := Box(left, top, right, bottom);
    var height := bottom - top;
    var width := right - left;
    if height < MIN_DIMENSION || width < MIN_DIMENSION {
      var centerX := (left + right) / 2.0;
      var centerY := (top + bottom) / 2.0;
      var targetWidth, targetHeight := TargetSize(width, height, imageWidth as real, imageHeight as real);
      var newLeft := centerX - targetWidth / 2.0;
      var newTop := centerY - targetHeight / 2.0;
      if newLeft < 0.0 {
        newLeft := 0.0;
      }
      if newTop < 0.0 {
        newTop := 0.0;
      }
      if newLeft + targetWidth > imageWidth as real {
        newLeft := imageWidth as real - targetWidth;
      }
      if newTop + targetHeight > imageHeight as real {
        newTop := imageHeight as real - targetHeight;
      }
      var newRight := newLeft + targetWidth;
      var newBottom := newTop + targetHeight;
      current := Box(newLeft.Floor as real, newTop.Floor as real, Ceil(newRight) as real, Ceil(newBottom) as real);
      assert newLeft == Place(left, right, targetWidth, imageWidth as real);
      assert newTop == Place(top, bottom, targetHeight, imageHeight as real);
      assert current == Enlarged(Box(left, top, right, bottom), imageWidth, imageHeight);
    }
    if !Validate(current) {
      return None;
    }
    var finalHeight := current.bottom.Floor - current.top.Floor;
    var finalWidth := current.right.Floor - current.left.Floor;
    if finalHeight < 28 || finalWidth < 28 {
      return None;
    }
    r := Some(current);
  }

  // The proportional enlargement, first to a smallest side of MIN_DIMENSION, then down into the image.
  method TargetSize(width: real, height: real, w: real, h: real) returns (targetWidth: real, targetHeight: real)
    requires width > 0.0 && height > 0.0 && w > 0.0 && h > 0.0
    ensures Size(targetWidth, targetHeight) == Target(width, height, w, h)
  {
    hide Over, Times, Ratio;
    var ratio := Ratio(width, height);
    targetWidth := Times(width, ratio);
    targetHeight := Times(height, ratio);
    ghost var raised := Size(targetWidth, targetHeight);
    if targetWidth > w {
      var scaleDown := Over(w, targetWidth);
      targetWidth := w;
      targetHeight := Times(targetHeight, scaleDown);
    }
    ghost var fitted := Size(targetWidth, targetHeight);
    assert fitted == FitWidth(raised, w);
    if targetHeight > h {
      var scaleDown := Over(h, targetHeight);
      targetHeight := h;
      targetWidth := Times(targetWidth, scaleDown);
    }
    assert Size(targetWidth, targetHeight) == FitHeight(fitted, h);
  }

  // ------------------------------------------------------------------ what it computes

  // Product and quotient of lengths, named so that proofs can keep them folded.
  function Times(a: real, b: real): (p: real)
    ensures a > 0.0 && b > 0.0 ==> p > 0.0
  {
    a * b
  }

  function Over(a: real, b: real): (q: real)
    requires a > 0.0 && b > 0.0
    ensures q > 0.0 && q * b == a
  {
    a / b
  }

  function Ratio(width: real, height: real): (r: real)
    requires width > 0.0 && height > 0.0
    ensures r > 0.0
  {
    Over(MIN_DIMENSION, MinR(height, width))
  }

  function FitWidth(t: Size, w: real): (r: Size)
    requires t.w > 0.0 && t.h > 0.0 && w > 0.0
    ensures r.w > 0.0 && r.h > 0.0
  {
    if t.w > w then
      var scaleDown := Over(w, t.w);
      Size(w, Times(t.h, scaleDown))
    else t
  }

  function FitHeight(t: Size, h: real): (r: Size)
    requires t.w > 0.0 && t.h > 0.0 && h > 0.0
    ensures r.w > 0.0 && r.h > 0.0
  {
    if t.h > h then
      var scaleDown := Over(h, t.h);
      Size(Times(t.w, scaleDown), h)
    else t
  }

  function Target(width: real, height: real, w: real, h: real): Size
    requires width > 0.0 && height > 0.0 && w > 0.0 && h > 0.0
  {
    var ratio := Ratio(width, height);
    FitHeight(FitWidth(Size(Times(width, ratio), Times(height, ratio)), w), h)
  }

  // One axis: a stretch of length t about the centre of [lo, hi], shifted into [0, size].
  function Place(lo: real, hi: real, t: real, size: real): real {
    var at := (lo + hi) / 2.0 - t / 2.0;
    var shifted := if at < 0.0 then 0.0 else at;
    if shifted + t > size then size - t else shifted
  }

  function Enlarged(c: Box, imageWidth: int, imageHeight: int): Box
    requires c.left < c.right && c.top < c.bottom && imageWidth > 0 && imageHeight > 0
  {
    var t := Target(c.right - c.left, c.bottom - c.top, imageWidth as real, imageHeight as real);
    var x := Place(c.left, c.right, t.w, imageWidth as real);
    var y := Place(c.top, c.bottom, t.h, imageHeight as real);
    Box(x.Floor as real, y.Floor as real, Ceil(x + t.w) as real, Ceil(y + t.h) as real)
  }

  predicate TooSmall(c: Box) {
    c.bottom - c.top < MIN_DIMENSION || c.right - c.left < MIN_DIMENSION
  }

  function Resized(bbox: Box, imageWidth: int, imageHeight: int): Option<Box> {
    var c := Clamped(bbox, imageWidth, imageHeight);
    if !Validate(c) then None
    else
      var final := if TooSmall(c) then Enlarged(c, imageWidth, imageHeight) else c;
      if !Validate(final) then None
      else if final.bottom.Floor - final.top.Floor < 28 || final.right.Floor - final.left.Floor < 28 then None
      else Some(final)
  }

  // ------------------------------------------------------------------ one step at a time

  lemma Positive(a: real, b: real)
    requires a > 0.0 && b > 0.0
    ensures a * b > 0.0
  {
  }

  lemma ScaleUp(a: real, k: real)
    requires a > 0.0 && k >= 1.0
    ensures Times(a, k) >= a
  {
    assert a * (k - 1.0) >= 0.0;
  }

  lemma CrossAtLeast(a: real, b: real, c: real, d: real)
    requires a > 0.0 && b > 0.0 && c >= a && c * b == d * a
    ensures d >= b
  {
    var k := c / a;
    assert d == k * b by { assert k * a == c; assert (k * b) * a == d * a; }
    ScaleUp(b, k);
  }

  lemma RatioEnlarges(width: real, height: real)
    requires width > 0.0 && height > 0.0 && (width < MIN_DIMENSION || height < MIN_DIMENSION)
    ensures Ratio(width, height) >= 1.0
  {
    var m := MinR(height, width);
    var r := Ratio(width, height);
    assert r * m == MIN_DIMENSION;
    if r < 1.0 {
      Positive(m, 1.0 - r);
    }
  }

  predicate Proportional(t: Size, width: real, height: real) {
    t.w * height == t.h * width
  }

  lemma ScaledIsProportional(width: real, height: real, k: real)
    ensures Proportional(Size(Times(width, k), Times(height, k)), width, height)
  {
  }

  // Both fitting steps keep the proportions, go no lower than the given size and end inside the image.
  lemma FitWidthKeeps(t: Size, w: real, width: real, height: real)
    requires 0.0 < width <= t.w && 0.0 < height <= t.h && width <= w
    requires Proportional(t, width, height)
    ensures var r := FitWidth(t, w); width <= r.w <= w && height <= r.h <= t.h && Proportional(r, width, height)
  {
    hide Over;
    if t.w > w {
      var k := Over(w, t.w);
      var r := FitWidth(t, w);
      assert w * height == r.h * width by {
        assert w * height == k * (t.w * height) == k * (t.h * width);
      }
      CrossAtLeast(width, height, w, r.h);
      assert k <= 1.0;
      ShrinkBy(t.h, k);
    }
  }

  lemma ShrinkBy(a: real, k: real)
    requires a > 0.0 && k <= 1.0
    ensures a * k <= a
  {
    assert a * (1.0 - k) >= 0.0;
  }

  lemma FitHeightKeeps(t: Size, h: real, width: real, height: real)
    requires 0.0 < width <= t.w && 0.0 < height <= t.h && height <= h
    requires Proportional(t, width, height)
    ensures var r := FitHeight(t, h); height <= r.h <= h && width <= r.w <= t.w && Proportional(r, width, height)
  {
    FitWidthKeeps(Size(t.h, t.w), h, height, width);
  }

  lemma {:induction false} TargetFits(width: real, height: real, w: real, h: real)
    requires 0.0 < width <= w && 0.0 < height <= h && (width < MIN_DIMENSION || height < MIN_DIMENSION)
    ensures var t := Target(width, height, w, h);
            width <= t.w <= w && height <= t.h <= h && Proportional(t, width, height)
  {
    hide FitWidth, FitHeight, Ratio, Proportional;
    var k := Ratio(width, height);
    RatioEnlarges(width, height);
    ScaleUp(width, k);
    ScaleUp(height, k);
    var t := Size(Times(width, k), Times(height, k));
    assert Proportional(t, width, height) by { ScaledIsProportional(width, height, k); }
    FitWidthKeeps(t, w, width, height);
    FitHeightKeeps(FitWidth(t, w), h, width, height);
  }

  // A stretch that is at least as long as [lo, hi] and fits the axis is placed inside it, around [lo, hi].
  lemma PlaceCovers(lo: real, hi: real, t: real, size: real)
    requires 0.0 <= lo <= hi <= size && hi - lo <= t <= size
    ensures 0.0 <= Place(lo, hi, t, size) <= lo
    ensures hi <= Place(lo, hi, t, size) + t <= size
  {
  }

  // Of all places inside the image it is the one nearest to the middle of [lo, hi].
  lemma PlaceNearest(lo: real, hi: real, t: real, size: real, x: real)
    requires 0.0 <= x && x + t <= size
    ensures var placed, middle := Place(lo, hi, t, size) + t / 2.0, (lo + hi) / 2.0;
            && 0.0 <= Place(lo, hi, t, size) <= size - t
            && (if placed > middle then placed - middle else middle - placed) <=
               (if x + t / 2.0 > middle then x + t / 2.0 - middle else middle - (x + t / 2.0))
  {
  }

  // The target is the largest size of the box's proportions that fits the image and whose shorter side is at most
  // MIN_DIMENSION.
  lemma TargetLargest(width: real, height: real, w: real, h: real, s: Size)
    requires 0.0 < width <= w && 0.0 < height <= h && (width < MIN_DIMENSION || height < MIN_DIMENSION)
    requires 0.0 < s.w <= w && 0.0 < s.h <= h && Proportional(s, width, height) && MinR(s.w, s.h) <= MIN_DIMENSION
    ensures var t := Target(width, height, w, h);
            s.w <= t.w && s.h <= t.h && MinR(t.w, t.h) <= MIN_DIMENSION
  {
    TargetFits(width, height, w, h);
    TargetTouches(width, height, w, h);
    hide Target;
    var t := Target(width, height, w, h);
    SameProportions(s, t, width, height);
  }

  // Of two sizes of the same proportions one is larger on both sides.
  lemma SameProportions(s: Size, t: Size, width: real, height: real)
    requires width > 0.0 && height > 0.0 && Proportional(s, width, height) && Proportional(t, width, height)
    ensures s.w > t.w <==> s.h > t.h
  {
    var dw, dh := s.w - t.w, s.h - t.h;
    assert dw * height == dh * width;
    if dw > 0.0 {
      Positive(dw, height);
    } else if dh > 0.0 {
      Positive(dh, width);
    }
  }

  // It reaches the image's width or height, or its shorter side is MIN_DIMENSION.
  lemma TargetTouches(width: real, height: real, w: real, h: real)
    requires 0.0 < width <= w && 0.0 < height <= h && (width < MIN_DIMENSION || height < MIN_DIMENSION)
    ensures var t := Target(width, height, w, h);
            MinR(t.w, t.h) <= MIN_DIMENSION && (t.w == w || t.h == h || MinR(t.w, t.h) == MIN_DIMENSION)
  {
    hide FitWidth, FitHeight, Ratio, Proportional;
    var k := Ratio(width, height);
    RatioEnlarges(width, height);
    ScaleUp(width, k);
    ScaleUp(height, k);
    var raised := Size(Times(width, k), Times(height, k));
    RaisedSides(width, height);
    ScaledIsProportional(width, height, k);
    FitWidthKeeps(raised, w, width, height);
    FitHeightKeeps(FitWidth(raised, w), h, width, height);
    FitTouches(raised, w);
    FitTouchesHeight(FitWidth(raised, w), h);
  }

  lemma FitTouches(t: Size, w: real)
    requires t.w > 0.0 && t.h > 0.0 && w > 0.0
    ensures FitWidth(t, w) == t || FitWidth(t, w).w == w <= t.w
  {
    hide Over, Times;
  }

  lemma FitTouchesHeight(t: Size, h: real)
    requires t.w > 0.0 && t.h > 0.0 && h > 0.0
    ensures FitHeight(t, h) == t || FitHeight(t, h).h == h <= t.h
  {
    hide Over, Times;
  }

  lemma RaisedSides(width: real, height: real)
    requires width > 0.0 && height > 0.0
    ensures var k := Ratio(width, height); MinR(Times(width, k), Times(height, k)) == MIN_DIMENSION
  {
    var k, lo, hi := Ratio(width, height), MinR(height, width), MaxR(height, width);
    assert lo * k == MIN_DIMENSION;
    assert (hi - lo) * k >= 0.0;
    assert hi * k >= lo * k;
  }

  // Rounding outwards stays inside an image whose sides are whole numbers.
  lemma RoundOut(x: real, y: real, size: int)
    requires 0.0 <= x <= y <= size as real
    ensures 0.0 <= x.Floor as real <= x && y <= Ceil(y) as real <= size as real
    ensures Ceil(y) as real - x.Floor as real < (y - x) + 2.0
  {
    hide Ceil;
    FloorBounds(x);
    CeilBounds(y);
    WholeBelow(Ceil(y), size);
    WholeBelow(0, x.Floor);
  }

  lemma WholeBelow(a: int, b: int)
    requires a as real < b as real + 1.0
    ensures a as real <= b as real
  {
    if a > b {
      WholeAbove(a, b);
    }
  }

  lemma WholeAbove(a: int, b: int)
    requires a > b
    ensures a as real >= b as real + 1.0
  {
  }

  lemma CeilBounds(x: real)
    ensures Ceil(x) as real - 1.0 < x <= Ceil(x) as real
  {
    var f := (-x).Floor;
    FloorBounds(-x);
    assert (-f) as real == -(f as real);
  }

  lemma FloorBounds(x: real)
    ensures x.Floor as real <= x < x.Floor as real + 1.0
  {
  }

  // ------------------------------------------------------------------ what a returned box is worth

  predicate Inside(b: Box, imageWidth: int, imageHeight: int) {
    0.0 <= b.left && 0.0 <= b.top && b.right <= imageWidth as real && b.bottom <= imageHeight as real
  }

  predicate Contains(outer: Box, inner: Box) {
    outer.left <= inner.left && outer.top <= inner.top && inner.right <= outer.right && inner.bottom <= outer.bottom
  }

  lemma EnlargedCovers(c: Box, imageWidth: int, imageHeight: int)
    requires c.left < c.right && c.top < c.bottom && Inside(c, imageWidth, imageHeight) && TooSmall(c)
    ensures var e := Enlarged(c, imageWidth, imageHeight); Inside(e, imageWidth, imageHeight) && Contains(e, c)
  {
    hide Target, Ceil, Place, Proportional;
    var width, height := c.right - c.left, c.bottom - c.top;
    var w, h := imageWidth as real, imageHeight as real;
    TargetFits(width, height, w, h);
    var t := Target(width, height, w, h);
    PlaceCovers(c.left, c.right, t.w, w);
    PlaceCovers(c.top, c.bottom, t.h, h);
    var x, y := Place(c.left, c.right, t.w, w), Place(c.top, c.bottom, t.h, h);
    RoundOut(x, x + t.w, imageWidth);
    RoundOut(y, y + t.h, imageHeight);
  }

  // A returned box lies inside the image, is at least MIN_DIMENSION on both sides (also once its corners
  // are rounded down), is not too elongated, and contains what the image keeps of the requested box.
  lemma ReturnedBoxIsGood(bbox: Box, imageWidth: int, imageHeight: int)
    requires Resized(bbox, imageWidth, imageHeight).Some?
    ensures var b := Resized(bbox, imageWidth, imageHeight).value;
            && Inside(b, imageWidth, imageHeight) && Contains(b, Clamped(bbox, imageWidth, imageHeight))
            && b.right - b.left >= MIN_DIMENSION && b.bottom - b.top >= MIN_DIMENSION
            && b.right.Floor - b.left.Floor >= 28 && b.bottom.Floor - b.top.Floor >= 28
            && Validate(b)
  {
    hide Enlarged, Aspect;
    var c := Clamped(bbox, imageWidth, imageHeight);
    if TooSmall(c) {
      EnlargedCovers(c, imageWidth, imageHeight);
      EnlargedIsWhole(c, imageWidth, imageHeight);
    }
  }

  lemma EnlargedIsWhole(c: Box, imageWidth: int, imageHeight: int)
    requires c.left < c.right && c.top < c.bottom && imageWidth > 0 && imageHeight > 0
    ensures var e := Enlarged(c, imageWidth, imageHeight);
            && e.left.Floor as real == e.left && e.top.Floor as real == e.top
            && e.right.Floor as real == e.right && e.bottom.Floor as real == e.bottom
  {
    hide Target, Place;
  }

  // ------------------------------------------------------------------ when a box is not rejected

  // A valid box that is large enough on both sides is returned as it is.
  lemma LargeBoxUnchanged(bbox: Box, imageWidth: int, imageHeight: int)
    requires var c := Clamped(bbox, imageWidth, imageHeight); Validate(c) && !TooSmall(c)
    ensures Resized(bbox, imageWidth, imageHeight) == Some(Clamped(bbox, imageWidth, imageHeight))
  {
    hide Aspect;
  }

  // What is valid: a box with an inside, and no side more than a hundred times the other.
  lemma ValidExactlyWhen(b: Box)
    ensures Validate(b) <==>
            b.left < b.right && b.top < b.bottom
            && b.right - b.left <= 100.0 * (b.bottom - b.top) && b.bottom - b.top <= 100.0 * (b.right - b.left)
  {
    if b.left < b.right && b.top < b.bottom {
      AspectBound(b.right - b.left, b.bottom - b.top, 100.0);
    }
    hide Aspect;
  }

  // A box whose part in the image is not valid is rejected, and one whose part is large enough only then.
  lemma RejectedWhen(bbox: Box, imageWidth: int, imageHeight: int)
    ensures var c := Clamped(bbox, imageWidth, imageHeight);
            && (!Validate(c) ==> Resized(bbox, imageWidth, imageHeight) == None)
            && (!TooSmall(c) ==> (Resized(bbox, imageWidth, imageHeight) == None <==> !Validate(c)))
  {
    hide Aspect;
  }

  predicate Holds(b: Box, x: real, y: real) {
    b.left <= x <= b.right && b.top <= y <= b.bottom
  }

  // Point by point: what the image holds of the requested box is in the returned one, and if that is large enough
  // nothing else is.
  lemma ReturnedPoints(bbox: Box, imageWidth: int, imageHeight: int, x: real, y: real)
    requires Resized(bbox, imageWidth, imageHeight).Some?
    ensures var r := Resized(bbox, imageWidth, imageHeight).value;
            var image := Box(0.0, 0.0, imageWidth as real, imageHeight as real);
            && (Holds(bbox, x, y) && Holds(image, x, y) ==> Holds(r, x, y))
            && (Holds(r, x, y) ==> Holds(image, x, y))
            && (!TooSmall(Clamped(bbox, imageWidth, imageHeight)) && Holds(r, x, y) ==> Holds(bbox, x, y))
  {
    ReturnedBoxIsGood(bbox, imageWidth, imageHeight);
    var c := Clamped(bbox, imageWidth, imageHeight);
    if !TooSmall(c) {
      RejectedWhen(bbox, imageWidth, imageHeight);
      LargeBoxUnchanged(bbox, imageWidth, imageHeight);
    }
    hide Resized, Validate;
  }

  // Zooming in again on a returned box changes nothing.
  lemma Idempotent(bbox: Box, imageWidth: int, imageHeight: int)
    requires Resized(bbox, imageWidth, imageHeight).Some?
    ensures var b := Resized(bbox, imageWidth, imageHeight).value;
            Resized(b, imageWidth, imageHeight) == Some(b)
  {
    hide Resized, Aspect;
    ReturnedBoxIsGood(bbox, imageWidth, imageHeight);
    var b := Resized(bbox, imageWidth, imageHeight).value;
    assert Clamped(b, imageWidth, imageHeight) == b;
    LargeBoxUnchanged(b, imageWidth, imageHeight);
  }

  // The box's size once its smaller side is MIN_DIMENSION fits the image.
  predicate ScaledFits(c: Box, imageWidth: int, imageHeight: int)
    requires c.left < c.right && c.top < c.bottom
  {
    var ratio := Ratio(c.right - c.left, c.bottom - c.top);
    Times(c.right - c.left, ratio) <= imageWidth as real && Times(c.bottom - c.top, ratio) <= imageHeight as real
  }

  lemma AspectBound(width: real, height: real, bound: real)
    requires width > 0.0 && height > 0.0
    ensures Aspect(width, height) <= bound <==> MaxR(height, width) <= bound * MinR(height, width)
  {
    var hi, lo := MaxR(height, width), MinR(height, width);
    var a := Aspect(width, height);
    assert a * lo == hi;
    if a <= bound {
      assert (bound - a) * lo >= 0.0;
    } else {
      Positive(a - bound, lo);
    }
  }

  // A proportion whose enlarged size cannot round to more than a hundred times MIN_DIMENSION.
  predicate SurvivesRounding(proportion: real) {
    28.0 * proportion <= 2799.0
  }

  // The sides of a box scaled to a smallest side of MIN_DIMENSION.
  lemma ScaledSides(width: real, height: real)
    requires width > 0.0 && height > 0.0 && SurvivesRounding(Aspect(width, height))
    ensures var k := Ratio(width, height);
            28.0 <= Times(width, k) <= 2799.0 && 28.0 <= Times(height, k) <= 2799.0
  {
    hide Aspect;
    AspectBound(width, height, Aspect(width, height));
    var k, a := Ratio(width, height), Aspect(width, height);
    var lo, hi := MinR(height, width), MaxR(height, width);
    assert lo * k == 28.0;
    assert (hi - lo) * k >= 0.0;
    assert (a * lo - hi) * k >= 0.0;
    assert (a * lo) * k == a * 28.0;
    assert hi * k >= 28.0 && hi * k <= 2799.0;
  }

  // A valid box that needs enlarging and whose scaled size fits the image is not rejected up to that
  // proportion; what comes back is the scaled size, up to rounding.
  lemma NeverRejected(bbox: Box, imageWidth: int, imageHeight: int)
    requires var c := Clamped(bbox, imageWidth, imageHeight);
             Validate(c) && TooSmall(c) && SurvivesRounding(Aspect(c.right - c.left, c.bottom - c.top))
             && ScaledFits(c, imageWidth, imageHeight)
    ensures Resized(bbox, imageWidth, imageHeight).Some?
    ensures ScaledTo(Resized(bbox, imageWidth, imageHeight).value, Clamped(bbox, imageWidth, imageHeight))
  {
    hide Aspect, Enlarged, ScaledTo;
    var c := Clamped(bbox, imageWidth, imageHeight);
    EnlargedIsValid(c, imageWidth, imageHeight);
  }

  lemma EnlargedIsValid(c: Box, imageWidth: int, imageHeight: int)
    requires Validate(c) && TooSmall(c) && Inside(c, imageWidth, imageHeight)
    requires SurvivesRounding(Aspect(c.right - c.left, c.bottom - c.top)) && ScaledFits(c, imageWidth, imageHeight)
    ensures var e := Enlarged(c, imageWidth, imageHeight);
            Validate(e) && ScaledTo(e, c) && e.right.Floor - e.left.Floor >= 28 && e.bottom.Floor - e.top.Floor >= 28
  {
    hide Aspect, Enlarged, ScaledTo;
    EnlargedSides(c, imageWidth, imageHeight);
    var e := Enlarged(c, imageWidth, imageHeight);
    EnlargedIsWhole(c, imageWidth, imageHeight);
    var width, height := e.right - e.left, e.bottom - e.top;
    WholeSide(e.left, e.right);
    WholeSide(e.top, e.bottom);
    assert MaxR(height, width) <= 100.0 * MinR(height, width);
    AspectBound(width, height, 100.0);
  }

  // A whole length below 2801 is at most 2800.
  lemma WholeSide(from: real, to': real)
    requires from.Floor as real == from && to'.Floor as real == to' && 28.0 <= to' - from < 2801.0
    ensures to' - from <= 2800.0
    ensures to'.Floor - from.Floor >= 28
  {
    var length := to'.Floor - from.Floor;
    assert length as real == to' - from;
    WholeBelow(length, 2800);
    WholeBelow(28, length);
  }

  // ------------------------------------------------------------------ boxes shrunken into the image

  // How far a coordinate lies behind the whole number below it.
  function Fraction(x: real): real {
    x - x.Floor as real
  }

  // A stretch rounds outwards to at least MIN_DIMENSION exactly when its length and the fraction it starts at
  // together exceed one less.
  lemma SideRounds(x: real, t: real)
    ensures Ceil(x + t) - x.Floor >= 28 <==> Fraction(x) + t > 27.0
  {
    CeilBounds(x + t);
    hide Ceil;
    var far, near := Ceil(x + t), x.Floor;
    if far - near >= 28 {
      assert far as real >= near as real + 28.0 by {
        WholeBelow(28, far - near);
      }
    } else {
      WholeBelow(far - near, 27);
    }
  }

  function TargetOf(c: Box, imageWidth: int, imageHeight: int): Size
    requires c.left < c.right && c.top < c.bottom && imageWidth > 0 && imageHeight > 0
  {
    Target(c.right - c.left, c.bottom - c.top, imageWidth as real, imageHeight as real)
  }

  // Whether the rounded box keeps both sides, from the target size and where it is placed.
  predicate SidesKept(c: Box, imageWidth: int, imageHeight: int)
    requires c.left < c.right && c.top < c.bottom && imageWidth > 0 && imageHeight > 0
  {
    var t := TargetOf(c, imageWidth, imageHeight);
    && Fraction(Place(c.left, c.right, t.w, imageWidth as real)) + t.w > 27.0
    && Fraction(Place(c.top, c.bottom, t.h, imageHeight as real)) + t.h > 27.0
  }

  // A box that needs enlarging, whether or not its scaled size fits the image, is accepted exactly when both rounded
  // sides are kept and the rounded proportion is valid: always for a target of sides above 27 and up to 2799, whatever
  // its place, and never for one with a side up to 26.
  lemma EnlargedExactlyWhen(bbox: Box, imageWidth: int, imageHeight: int)
    requires var c := Clamped(bbox, imageWidth, imageHeight); Validate(c) && TooSmall(c)
    ensures var c := Clamped(bbox, imageWidth, imageHeight);
            var t := TargetOf(c, imageWidth, imageHeight);
            && (Resized(bbox, imageWidth, imageHeight).Some? <==>
                SidesKept(c, imageWidth, imageHeight) && Validate(Enlarged(c, imageWidth, imageHeight)))
            && (MinR(t.w, t.h) > 27.0 ==> SidesKept(c, imageWidth, imageHeight))
            && (MinR(t.w, t.h) > 27.0 && MaxR(t.w, t.h) <= 2799.0 ==> Resized(bbox, imageWidth, imageHeight).Some?)
            && (MinR(t.w, t.h) <= 26.0 ==> Resized(bbox, imageWidth, imageHeight).None?)
  {
    hide Aspect, Target, Place, Ceil;
    var c := Clamped(bbox, imageWidth, imageHeight);
    var t := TargetOf(c, imageWidth, imageHeight);
    var x, y := Place(c.left, c.right, t.w, imageWidth as real), Place(c.top, c.bottom, t.h, imageHeight as real);
    SideRounds(x, t.w);
    SideRounds(y, t.h);
    FloorBounds(x);
    FloorBounds(y);
    EnlargedIsWhole(c, imageWidth, imageHeight);
    if MinR(t.w, t.h) > 27.0 && MaxR(t.w, t.h) <= 2799.0 {
      EnlargedProportion(c, imageWidth, imageHeight);
    }
  }

  lemma EnlargedProportion(c: Box, imageWidth: int, imageHeight: int)
    requires Inside(c, imageWidth, imageHeight) && Validate(c) && TooSmall(c)
    requires var t := TargetOf(c, imageWidth, imageHeight); MinR(t.w, t.h) > 27.0 && MaxR(t.w, t.h) <= 2799.0
    ensures Validate(Enlarged(c, imageWidth, imageHeight))
  {
    hide Aspect, Enlarged, TargetOf;
    EnlargedLengths(c, imageWidth, imageHeight);
    EnlargedIsWhole(c, imageWidth, imageHeight);
    var e := Enlarged(c, imageWidth, imageHeight);
    WholeAtLeast(e.left, e.right);
    WholeAtLeast(e.top, e.bottom);
    WholeSide(e.left, e.right);
    WholeSide(e.top, e.bottom);
    var width, height := e.right - e.left, e.bottom - e.top;
    assert MaxR(height, width) <= 100.0 * MinR(height, width);
    AspectBound(width, height, 100.0);
  }

  // Rounding adds less than two columns and two rows to the target size.
  lemma EnlargedLengths(c: Box, imageWidth: int, imageHeight: int)
    requires Inside(c, imageWidth, imageHeight) && Validate(c) && TooSmall(c)
    ensures var t, e := TargetOf(c, imageWidth, imageHeight), Enlarged(c, imageWidth, imageHeight);
            t.w <= e.right - e.left < t.w + 2.0 && t.h <= e.bottom - e.top < t.h + 2.0
  {
    hide Aspect, Target, Place, Ceil, Proportional;
    var w, h := imageWidth as real, imageHeight as real;
    var t := TargetOf(c, imageWidth, imageHeight);
    TargetFits(c.right - c.left, c.bottom - c.top, w, h);
    var x, y := Place(c.left, c.right, t.w, w), Place(c.top, c.bottom, t.h, h);
    PlaceCovers(c.left, c.right, t.w, w);
    PlaceCovers(c.top, c.bottom, t.h, h);
    RoundOut(x, x + t.w, imageWidth);
    RoundOut(y, y + t.h, imageHeight);
  }

  // A whole length above 27 is at least 28.
  lemma WholeAtLeast(from: real, to': real)
    requires from.Floor as real == from && to'.Floor as real == to' && to' - from > 27.0
    ensures to' - from >= 28.0
  {
    var length := to'.Floor - from.Floor;
    assert length as real == to' - from;
    WholeBelow(28, length);
  }

  // e is c scaled to a smallest side of MIN_DIMENSION, up to rounding outwards.
  predicate ScaledTo(e: Box, c: Box)
    requires c.left < c.right && c.top < c.bottom
  {
    var ratio := Ratio(c.right - c.left, c.bottom - c.top);
    && Times(c.right - c.left, ratio) <= e.right - e.left < Times(c.right - c.left, ratio) + 2.0
    && Times(c.bottom - c.top, ratio) <= e.bottom - e.top < Times(c.bottom - c.top, ratio) + 2.0
  }

  lemma EnlargedSides(c: Box, imageWidth: int, imageHeight: int)
    requires Validate(c) && TooSmall(c) && Inside(c, imageWidth, imageHeight)
    requires SurvivesRounding(Aspect(c.right - c.left, c.bottom - c.top)) && ScaledFits(c, imageWidth, imageHeight)
    ensures var e := Enlarged(c, imageWidth, imageHeight);
            && 28.0 <= e.right - e.left < 2801.0 && 28.0 <= e.bottom - e.top < 2801.0
            && ScaledTo(e, c)
  {
    hide Aspect, Ratio, Place, Ceil, Times, Proportional, SurvivesRounding;
    var width, height := c.right - c.left, c.bottom - c.top;
    var w, h := imageWidth as real, imageHeight as real;
    ScaledSides(width, height);
    TargetFits(width, height, w, h);
    var t := Target(width, height, w, h);
    assert t == Size(Times(width, Ratio(width, height)), Times(height, Ratio(width, height)));
    var x, y := Place(c.left, c.right, t.w, w), Place(c.top, c.bottom, t.h, h);
    PlaceCovers(c.left, c.right, t.w, w);
    PlaceCovers(c.top, c.bottom, t.h, h);
    RoundOut(x, x + t.w, imageWidth);
    RoundOut(y, y + t.h, imageHeight);
  }

  // ------------------------------------------------------------------ the exact proportion

  // A valid box that needs enlarging and whose scaled size fits the image.
  predicate Enlargeable(bbox: Box, imageWidth: int, imageHeight: int) {
    var c := Clamped(bbox, imageWidth, imageHeight);
    Validate(c) && TooSmall(c) && ScaledFits(c, imageWidth, imageHeight)
  }

  function ProportionOf(bbox: Box, imageWidth: int, imageHeight: int): real
    requires Enlargeable(bbox, imageWidth, imageHeight)
  {
    var c := Clamped(bbox, imageWidth, imageHeight);
    Aspect(c.right - c.left, c.bottom - c.top)
  }

  // A box 14 high whose enlarged left edge has a fraction large enough to round to one column more.
  function Unlucky(proportion: real): Box {
    var f := 1.0 - (28.0 * proportion - 2799.0) / 2.0;
    Box(7.0 * proportion + f, 7.0, 21.0 * proportion + f, 21.0)
  }

  lemma UnluckyRejected(r: real)
    requires 1.0 <= r <= 100.0 && !SurvivesRounding(r)
    ensures Enlargeable(Unlucky(r), 3000, 28) && ProportionOf(Unlucky(r), 3000, 28) == r
    ensures Resized(Unlucky(r), 3000, 28) == None
  {
    var c := Unlucky(r);
    var f := 1.0 - (28.0 * r - 2799.0) / 2.0;
    var width := c.right - c.left;
    assert Clamped(c, 3000, 28) == c;
    assert width == 14.0 * r && c.bottom - c.top == 14.0;
    UnluckySize(r);
    assert Validate(c);
    assert Times(width, 2.0) == 28.0 * r && Times(14.0, 2.0) == 28.0;
    assert Target(width, 14.0, 3000.0, 28.0) == Size(28.0 * r, 28.0);
    assert Place(c.left, c.right, 28.0 * r, 3000.0) == f;
    assert Place(7.0, 21.0, 28.0, 28.0) == 0.0;
    CeilIs(f + 28.0 * r, 2801);
    assert f.Floor == 0 && Ceil(28.0) == 28;
    assert Enlarged(c, 3000, 28) == Box(0.0, 0.0, 2801.0, 28.0);
    AspectBound(2801.0, 28.0, 100.0);
  }

  lemma UnluckySize(r: real)
    requires 1.0 <= r
    ensures Ratio(14.0 * r, 14.0) == 2.0 && Aspect(14.0 * r, 14.0) == r
  {
    assert MinR(14.0, 14.0 * r) == 14.0;
    assert Over(14.0 * r, 14.0) == r;
  }

  lemma CeilIs(x: real, n: int)
    requires (n - 1) as real < x <= n as real
    ensures Ceil(x) == n
  {
    CeilBounds(x);
    hide Ceil;
    if Ceil(x) < n {
      WholeAbove(n, Ceil(x));
    } else if Ceil(x) > n {
      WholeAbove(Ceil(x), n);
    }
  }

  // Of all proportions a valid box can have, exactly those up to 2799/28 are safe from rejection by rounding.
  lemma NeverRejectedExactlyWhen(r: real)
    requires 1.0 <= r <= 100.0
    ensures (forall bbox, w, h :: Enlargeable(bbox, w, h) && ProportionOf(bbox, w, h) == r ==>
              Resized(bbox, w, h).Some?)
            <==> SurvivesRounding(r)
  {
    hide Resized, Enlargeable;
    if SurvivesRounding(r) {
      forall bbox, w, h | Enlargeable(bbox, w, h) && ProportionOf(bbox, w, h) == r
        ensures Resized(bbox, w, h).Some?
      {
        Accepted(bbox, w, h);
      }
    } else {
      UnluckyRejected(r);
    }
  }

  lemma Accepted(bbox: Box, imageWidth: int, imageHeight: int)
    requires Enlargeable(bbox, imageWidth, imageHeight)
    requires SurvivesRounding(ProportionOf(bbox, imageWidth, imageHeight))
    ensures Resized(bbox, imageWidth, imageHeight).Some?
  {
    NeverRejected(bbox, imageWidth, imageHeight);
  }
}
