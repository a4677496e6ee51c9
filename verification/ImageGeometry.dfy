/** Where images go: the preview of a sprite, the crop shown on a button, and the 16:9 thumbnail. Numbers
    the program keeps as float or double are real here. */
module ImageGeometry {

  datatype Rectangle = Rectangle(x: int, y: int, width: int, height: int)

  // ----- Rounding -----

  /** Math.Round: to the nearest integer, ties to the even one. */
  function Round(x: real): (r: int)
    ensures r as real - 0.5 <= x <= r as real + 0.5
    ensures x == r as real - 0.5 || x == r as real + 0.5 ==> r % 2 == 0
  {
    var down := x.Floor;
    var over := x - down as real;
    if over < 0.5 || (over == 0.5 && down % 2 == 0) then down else down + 1
  }

  function MaxInt(a: int, b: int): int { if a < b then b else a }
  function MinReal(a: real, b: real): real { if a < b then a else b }
  function MaxReal(a: real, b: real): real { if a < b then b else a }

  lemma MulLe(a: real, b: real, c: real)
    requires a <= b && c >= 0.0
    ensures a * c <= b * c
  {
  }

  lemma Positive(a: int, b: int)
    requires a > 0 && b > 0
    ensures a as real / b as real > 0.0
  {
  }

  lemma Reorder(a: real, b: real, c: real)
    ensures a * b * c == a * (b * c)
  {
  }

  lemma MulReals(a: int, b: int)
    ensures a as real * b as real == (a * b) as real
  {
  }

  /** A scale that is at most one side's ratio keeps that side within its target. */
  lemma ScaledDown(original: int, available: int, scale: real)
    requires original > 0 && available > 0 && scale <= available as real / original as real
    ensures original as real * scale <= available as real
    ensures scale == available as real / original as real ==> original as real * scale == available as real
  {
    MulLe(scale, available as real / original as real, original as real);
    assert available as real / original as real * original as real == available as real;
  }

  // ----- The sprite preview -----

  const MARGIN := 9

  function Available(target: int): (r: int)
    ensures r > 0
  {
    MaxInt(1, target - MARGIN * 2)
  }

  function PreviewScale(width: int, height: int, targetWidth: int, targetHeight: int): real
    requires width > 0 && height > 0
  {
    MinReal(Available(targetWidth) as real / width as real, Available(targetHeight) as real / height as real)
  }

  function PreviewSide(original: int, scale: real): int {
    MaxInt(1, Round(original as real * scale))
  }

  /** C# division truncates towards zero. */
  function Half(n: int): int { if n >= 0 then n / 2 else -(-n / 2) }

  function CalculatePreviewBounds(width: int, height: int, targetWidth: int, targetHeight: int): Rectangle {
    if width <= 0 || height <= 0 || targetWidth <= 0 || targetHeight <= 0 then Rectangle(0, 0, 0, 0)
    else
      var scale := PreviewScale(width, height, targetWidth, targetHeight);
      var w, h := PreviewSide(width, scale), PreviewSide(height, scale);
      Rectangle(MARGIN + Half(Available(targetWidth) - w), MARGIN + Half(Available(targetHeight) - h), w, h)
  }

  /** A side fits the space, and fills it when the scale is its own. */
  lemma SideFits(original: int, available: int, scale: real)
    requires original > 0 && available > 0 && scale <= available as real / original as real
    ensures 1 <= PreviewSide(original, scale) <= available
    ensures scale == available as real / original as real ==> PreviewSide(original, scale) == available
  {
    hide Round;
    ScaledDown(original, available, scale);
  }

  /** The rectangle leaves the margin on all sides of the target. */
  predicate InsideMargins(r: Rectangle, targetWidth: int, targetHeight: int) {
    && r.width > 0 && r.height > 0
    && MARGIN <= r.x && r.x + r.width <= targetWidth - MARGIN
    && MARGIN <= r.y && r.y + r.height <= targetHeight - MARGIN
  }

  lemma PreviewSides(width: int, height: int, targetWidth: int, targetHeight: int)
    requires width > 0 && height > 0 && targetWidth > 0 && targetHeight > 0
    ensures var scale := PreviewScale(width, height, targetWidth, targetHeight);
            var w, h := PreviewSide(width, scale), PreviewSide(height, scale);
            1 <= w <= Available(targetWidth) && 1 <= h <= Available(targetHeight) &&
            (w == Available(targetWidth) || h == Available(targetHeight))
  {
    hide PreviewSide, Available;
    var scale := PreviewScale(width, height, targetWidth, targetHeight);
    SideFits(width, Available(targetWidth), scale);
    SideFits(height, Available(targetHeight), scale);
  }

  /** There is no preview without pixels on either side, and only then; a preview has nine pixels of margin on
      each side, or a single pixel where they do not leave one. */
  lemma NoPreview(width: int, height: int, targetWidth: int, targetHeight: int)
    ensures CalculatePreviewBounds(width, height, targetWidth, targetHeight) == Rectangle(0, 0, 0, 0) <==>
              width <= 0 || height <= 0 || targetWidth <= 0 || targetHeight <= 0
    ensures Available(targetWidth) == if targetWidth > 18 then targetWidth - 18 else 1
  {
    hide Round;
  }

  /** The preview keeps the margins exactly on targets of at least 19 pixels each way. */
  lemma PreviewFits(width: int, height: int, targetWidth: int, targetHeight: int)
    requires width > 0 && height > 0 && targetWidth > 0 && targetHeight > 0
    ensures InsideMargins(CalculatePreviewBounds(width, height, targetWidth, targetHeight), targetWidth, targetHeight)
       <==> targetWidth >= 19 && targetHeight >= 19
  {
    hide PreviewSide, PreviewScale;
    PreviewSides(width, height, targetWidth, targetHeight);
  }

  /** It is as large as it can be: one side fills the space, the other is in proportion up to half a
      pixel, and what is left over is shared equally. */
  lemma PreviewFills(width: int, height: int, targetWidth: int, targetHeight: int)
    requires width > 0 && height > 0 && targetWidth > 0 && targetHeight > 0
    ensures var r := CalculatePreviewBounds(width, height, targetWidth, targetHeight);
            var scale := PreviewScale(width, height, targetWidth, targetHeight);
            (r.width == Available(targetWidth) || r.height == Available(targetHeight)) &&
            (r.width == 1 || -0.5 <= r.width as real - width as real * scale <= 0.5) &&
            (r.height == 1 || -0.5 <= r.height as real - height as real * scale <= 0.5) &&
            0 <= Available(targetWidth) - r.width - 2 * (r.x - MARGIN) <= 1 &&
            0 <= Available(targetHeight) - r.height - 2 * (r.y - MARGIN) <= 1
  {
    hide PreviewScale;
    PreviewSides(width, height, targetWidth, targetHeight);
  }

  // ----- The image on a sprite button -----

  const BUTTON_MARGIN := 4

  function Content(target: int): int { MaxInt(1, target - BUTTON_MARGIN * 2) }

  /** Four pixels on each side, or a single pixel. */
  lemma ContentIs(target: int)
    ensures Content(target) == if target > 8 then target - 8 else 1
  {
  }

  function CoverScale(width: int, height: int, contentWidth: int, contentHeight: int): real
    requires width > 0 && height > 0
  {
    MaxReal(contentWidth as real / width as real, contentHeight as real / height as real)
  }

  /** What is shown of one side: all of it, or the middle part that fits. */
  function CropSide(original: int, content: int, scale: real): (int, int)
    requires scale > 0.0
  {
    if Round(original as real * scale) > content then
      var length := Round(content as real / scale);
      (Half(original - length), length)
    else (0, original)
  }

  lemma Inverse(original: int, content: int, scale: real)
    requires original > 0 && content > 0 && scale >= content as real / original as real
    ensures scale > 0.0 && 0.0 <= content as real / scale <= original as real
  {
    var ratio := content as real / original as real;
    assert ratio > 0.0;
    MulLe(ratio, scale, original as real);
    assert ratio * original as real == content as real;
    assert content as real / scale * scale == content as real;
    if content as real / scale > original as real {
      Stretched(content as real / scale, original as real, scale);
    }
  }

  lemma Stretched(a: real, b: real, c: real)
    requires a > b && c > 0.0
    ensures a * c > b * c
  {
  }

  /** One side of the crop lies in the image, in the middle. */
  lemma SideInside(original: int, content: int, scale: real)
    requires original > 0 && content > 0 && scale >= content as real / original as real
    ensures scale > 0.0
    ensures var (x, length) := CropSide(original, content, scale);
            0 <= x && 0 <= length && x + length <= original && 0 <= original - length - 2 * x <= 1 &&
            (scale == content as real / original as real ==> length == original)
  {
    hide Round;
    Inverse(original, content, scale);
    if scale == content as real / original as real { ScaledDown(original, content, scale); }
  }

  /** The part drawn lies in the image, in the middle of it, and one side is shown in full. */
  lemma CropInside(width: int, height: int, targetWidth: int, targetHeight: int)
    requires width > 0 && height > 0 && targetWidth > 0 && targetHeight > 0
    ensures var scale := CoverScale(width, height, Content(targetWidth), Content(targetHeight));
            scale > 0.0 &&
            var (x, w) := CropSide(width, Content(targetWidth), scale);
            var (y, h) := CropSide(height, Content(targetHeight), scale);
            0 <= x && x + w <= width && 0 <= y && y + h <= height &&
            0 <= width - w - 2 * x <= 1 && 0 <= height - h - 2 * y <= 1 &&
            (w == width || h == height)
  {
    hide CropSide;
    var cw, ch := Content(targetWidth), Content(targetHeight);
    var scale := CoverScale(width, height, cw, ch);
    SideInside(width, cw, scale);
    SideInside(height, ch, scale);
  }

  lemma NotNegative(a: real, c: real)
    requires a >= 0.0 && c >= 0.0
    ensures a * c >= 0.0
  {
  }

  lemma OneAndTwice(d: real, c: real)
    ensures (1.0 - d - d) * c == c - d * c - d * c && (1.0 + d + d) * c == c + d * c + d * c
  {
  }

  lemma WithinHalf(x: real, a: real, c: real, ac: real, xc: real)
    requires c > 0.0 && a - 0.5 <= x <= a + 0.5 && ac == a * c && xc == x * c
    ensures 2.0 * ac - c <= 2.0 * xc <= 2.0 * ac + c
  {
    var d := x - a;
    assert d * c == xc - ac;
    NotNegative(1.0 - d - d, c);
    NotNegative(1.0 + d + d, c);
    OneAndTwice(d, c);
  }

  /** A quotient of integers is rounded to within half a unit. */
  lemma RoundedRatio(p: int, q: int, x: real)
    requires q > 0 && x * q as real == p as real
    ensures -q <= 2 * (Round(x) * q - p) <= q
  {
    var y := Round(x);
    var yq := y * q;
    MulReals(y, q);
    WithinHalf(x, y as real, q as real, yq as real, p as real);
  }

  /** A side times a ratio of integers, the ratio's denominator multiplied out. */
  lemma RatioTimes(side: int, limit: int, whole: int)
    requires whole > 0
    ensures side as real * (limit as real / whole as real) * whole as real == (limit * side) as real
    ensures side == whole ==> side as real * (limit as real / whole as real) == limit as real
  {
    var ratio, w := limit as real / whole as real, whole as real;
    assert ratio * w == limit as real;
    Reorder(side as real, ratio, w);
    MulReals(side, limit);
  }

  lemma DividedBack(content: int, wide: int, full: int, scale: real)
    requires wide > 0 && full > 0 && scale == full as real / wide as real
    ensures scale > 0.0 && content as real / scale * full as real == (content * wide) as real
  {
    Positive(full, wide);
    var back, w := content as real / scale, wide as real;
    assert full as real == scale * w;
    Reorder(back, scale, w);
    assert back * scale == content as real;
    MulReals(content, wide);
  }

  lemma RatioOrder(content: int, original: int, full: int, wide: int)
    requires original > 0 && wide > 0 && full as real / wide as real >= content as real / original as real
    ensures content * wide <= original * full
  {
    var scale, ratio := full as real / wide as real, content as real / original as real;
    MulLe(ratio, scale, original as real);
    assert ratio * original as real == content as real;
    RatioTimes(original, full, wide);
    MulLe(content as real, original as real * scale, wide as real);
    MulReals(content, wide);
  }

  lemma MulOrder(a: int, b: int, k: int)
    requires a <= b && k >= 0
    ensures a * k <= b * k
  {
    MulReals(a, k);
    MulReals(b, k);
    MulLe(a as real, b as real, k as real);
  }

  /** The part of a side that is drawn when the scale is that of the other side: it takes wide to full. */
  lemma SideProportional(original: int, content: int, wide: int, full: int, scale: real)
    requires original > 0 && content > 0 && wide > 0 && full > 0
    requires scale == full as real / wide as real && scale >= content as real / original as real
    ensures scale > 0.0
    ensures var length := CropSide(original, content, scale).1;
            (length == original && 0 <= 2 * (original * full - content * wide) <= wide) ||
            -full <= 2 * (length * full - content * wide) <= full
  {
    hide *;
    DividedBack(content, wide, full, scale);
    RatioTimes(original, full, wide);
    RatioOrder(content, original, full, wide);
    RoundedRatio(original * full, wide, original as real * scale);
    RoundedRatio(content * wide, full, content as real / scale);
    var rounded := Round(original as real * scale);
    if rounded <= content { MulOrder(rounded, content, wide); }
    ChooseSide(original, content, scale);
  }

  lemma ChooseSide(original: int, content: int, scale: real)
    requires scale > 0.0
    ensures CropSide(original, content, scale).1 ==
              if Round(original as real * scale) > content then Round(content as real / scale) else original
  {
  }

  /** The part drawn has the proportions of the button's content, up to half a pixel of the image or of the
      button. */
  lemma CropProportional(width: int, height: int, targetWidth: int, targetHeight: int)
    requires width > 0 && height > 0 && targetWidth > 0 && targetHeight > 0
    ensures var cw, ch := Content(targetWidth), Content(targetHeight);
            var scale := CoverScale(width, height, cw, ch);
            scale > 0.0 &&
            var w, h := CropSide(width, cw, scale).1, CropSide(height, ch, scale).1;
            (w == width && h == height && 0 <= 2 * (height * cw - ch * width) <= width) ||
            (w == width && h == height && 0 <= 2 * (width * ch - cw * height) <= height) ||
            (w == width && -cw <= 2 * (h * cw - ch * width) <= cw) ||
            (h == height && -ch <= 2 * (w * ch - cw * height) <= ch)
  {
    hide CropSide, Content;
    var cw, ch := Content(targetWidth), Content(targetHeight);
    assert cw > 0 && ch > 0 by { ContentPositive(targetWidth); ContentPositive(targetHeight); }
    var scale := CoverScale(width, height, cw, ch);
    SideInside(width, cw, scale);
    SideInside(height, ch, scale);
    if scale == cw as real / width as real {
      SideProportional(height, ch, width, cw, scale);
    } else {
      SideProportional(width, cw, height, ch, scale);
    }
  }

  lemma ContentPositive(target: int)
    ensures Content(target) > 0
  {
  }

  // ----- The 16:9 thumbnail -----

  const MAX_WIDTH := 640
  const MAX_HEIGHT := 360

  /** The part of the screenshot that is used, and the size of the result. */
  datatype Thumbnail = Thumbnail(yOffset: int, cropWidth: int, cropHeight: int, destWidth: int, destHeight: int)

  function CropHeight(width: int, height: int): (int, int) {
    var wide := (width as real / 16.0 * 9.0).Floor;
    if height - wide >= 5 then ((height - wide) / 2, wide) else (0, height)
  }

  /** Dividing by a height of nothing gives infinity, so the width alone decides. */
  function ThumbnailScale(width: int, cropHeight: int): real
    requires width > 0
  {
    if cropHeight <= 0 then MAX_WIDTH as real / width as real
    else MinReal(MAX_WIDTH as real / width as real, MAX_HEIGHT as real / cropHeight as real)
  }

  function Scaled(side: int, scale: real): int {
    if scale < 1.0 then (side as real * scale).Floor else side
  }

  function CropTo16x9(width: int, height: int): Thumbnail
    requires width > 0 && height > 0
  {
    var (yOffset, cropHeight) := CropHeight(width, height);
    var scale := ThumbnailScale(width, cropHeight);
    Thumbnail(yOffset, width, cropHeight, Scaled(width, scale), Scaled(cropHeight, scale))
  }

  /** The part used lies in the screenshot; it is cut only when it is too tall, and then to 9/16 of the width. */
  lemma ThumbnailInside(width: int, height: int)
    requires width > 0 && height > 0
    ensures var t := CropTo16x9(width, height);
            t.cropWidth == width && 0 <= t.yOffset && 0 <= t.cropHeight && t.yOffset + t.cropHeight <= height &&
            (t.cropHeight != height ==>
              t.cropHeight <= height - 5 && 16 * t.cropHeight <= 9 * width < 16 * t.cropHeight + 16) &&
            (t.cropHeight == height ==> t.yOffset == 0) &&
            (t.cropHeight != height ==> 0 <= height - t.cropHeight - 2 * t.yOffset <= 1)
  {
    Wide(width);
  }

  lemma Wide(width: int)
    requires width > 0
    ensures var wide := (width as real / 16.0 * 9.0).Floor;
            0 <= wide && 16 * wide <= 9 * width < 16 * wide + 16
  {
    var x := width as real / 16.0 * 9.0;
    assert x * 16.0 == (9 * width) as real;
    assert x.Floor as real <= x < x.Floor as real + 1.0;
  }

  lemma ScaledSide(side: int, limit: int, scale: real)
    requires side >= 0 && limit > 0 && scale > 0.0 && (side > 0 ==> scale <= limit as real / side as real)
    ensures 0 <= Scaled(side, scale) <= limit
  {
    if side > 0 {
      ScaledDown(side, limit, scale);
      if scale >= 1.0 { MulLe(1.0, scale, side as real); }
    } else {
      assert side as real * scale == 0.0;
    }
  }

  /** The result is never larger than 640 by 360. */
  lemma ThumbnailCapped(width: int, height: int)
    requires width > 0 && height > 0
    ensures var t := CropTo16x9(width, height);
            0 <= t.destWidth <= MAX_WIDTH && 0 <= t.destHeight <= MAX_HEIGHT
  {
    hide Scaled;
    Wide(width);
    var (yOffset, cropHeight) := CropHeight(width, height);
    var scale := ThumbnailScale(width, cropHeight);
    Positive(MAX_WIDTH, width);
    if cropHeight > 0 { Positive(MAX_HEIGHT, cropHeight); }
    ScaledSide(width, MAX_WIDTH, scale);
    ScaledSide(cropHeight, MAX_HEIGHT, scale);
  }

  lemma WithinOne(x: real, d: real, c: real, xc: real, dc: real)
    requires c > 0.0 && d <= x < d + 1.0 && xc == x * c && dc == d * c
    ensures dc <= xc < dc + c
  {
    var over := x - d;
    assert over * c == xc - dc;
    NotNegative(over, c);
    Stretched(1.0 - over, 0.0, c);
    assert (1.0 - over) * c == c - over * c;
  }

  lemma FlooredQuotient(p: int, q: int, x: real)
    requires q > 0 && x * q as real == p as real
    ensures 0 <= p - x.Floor * q < q
  {
    var d := x.Floor;
    var dq := d * q;
    MulReals(d, q);
    WithinOne(x, d as real, q as real, p as real, dq as real);
  }

  lemma ScaledIs(side: int, scale: real)
    ensures scale < 1.0 ==> Scaled(side, scale) == (side as real * scale).Floor
  {
  }

  lemma FloorOfInt(n: int, x: real)
    requires x == n as real
    ensures x.Floor == n
  {
  }

  lemma ReducedTo(side: int, limit: int, whole: int, x: real)
    requires whole > 0 && x * whole as real == (limit * side) as real && (side == whole ==> x == limit as real)
    ensures 0 <= limit * side - x.Floor * whole < whole && (side == whole ==> x.Floor == limit)
  {
    FlooredQuotient(limit * side, whole, x);
    if side == whole { FloorOfInt(limit, x); }
  }

  /** Both sides reduced by the scale that takes whole to limit. */
  lemma Reduced(side: int, limit: int, whole: int)
    requires whole > 0 && limit > 0 && side >= 0 && limit as real / whole as real < 1.0
    ensures var d := Scaled(side, limit as real / whole as real);
            0 <= limit * side - d * whole < whole && (side == whole ==> d == limit)
  {
    var ratio := limit as real / whole as real;
    RatioTimes(side, limit, whole);
    ScaledIs(side, ratio);
    ReducedTo(side, limit, whole, side as real * ratio);
  }

  lemma BelowOne(limit: int, side: int)
    requires side > 0 && limit > 0
    ensures limit as real / side as real < 1.0 <==> side > limit
  {
    var ratio := limit as real / side as real;
    assert ratio * side as real == limit as real;
    if ratio >= 1.0 { MulLe(1.0, ratio, side as real); } else { Stretched(1.0, ratio, side as real); }
  }

  lemma SmallerScale(width: int, cropHeight: int)
    requires width > 0 && cropHeight >= 0
    ensures var scale := ThumbnailScale(width, cropHeight);
            (scale == 640 as real / width as real || (cropHeight > 0 && scale == 360 as real / cropHeight as real)) &&
            (scale < 1.0 <==> width > 640 || cropHeight > 360)
  {
    BelowOne(640, width);
    if cropHeight > 0 { BelowOne(360, cropHeight); }
  }

  /** A screenshot larger than 640 by 360 is reduced until one side has that size; the other is in proportion up
      to a pixel. A smaller one keeps its size. */
  lemma ThumbnailProportional(width: int, height: int)
    requires width > 0 && height > 0
    ensures var t := CropTo16x9(width, height);
            if t.cropWidth > 640 || t.cropHeight > 360 then
              (t.destWidth == 640 && 0 <= 640 * t.cropHeight - t.destHeight * t.cropWidth < t.cropWidth) ||
              (t.destHeight == 360 && 0 <= 360 * t.cropWidth - t.destWidth * t.cropHeight < t.cropHeight)
            else t.destWidth == t.cropWidth && t.destHeight == t.cropHeight
  {
    ThumbnailInside(width, height);
    hide CropHeight, ThumbnailScale;
    var t := CropTo16x9(width, height);
    var scale := ThumbnailScale(width, t.cropHeight);
    SmallerScale(width, t.cropHeight);
    if scale < 1.0 {
      hide Scaled;
      if scale == 640 as real / width as real {
        Reduced(width, 640, width);
        Reduced(t.cropHeight, 640, width);
      } else {
        Reduced(width, 360, t.cropHeight);
        Reduced(t.cropHeight, 360, t.cropHeight);
      }
    }
  }

  lemma AtLeastOne(side: int, limit: int, whole: int)
    requires whole > 0 && limit > 0
    ensures side as real * (limit as real / whole as real) >= 1.0 <==> whole <= limit * side
  {
    var ratio, w := limit as real / whole as real, whole as real;
    var x := side as real * ratio;
    assert x * w == (limit * side) as real by {
      assert ratio * w == limit as real;
      Reorder(side as real, ratio, w);
      MulReals(side, limit);
    }
    Compare(x, w);
  }

  lemma Compare(x: real, w: real)
    requires w > 0.0
    ensures x >= 1.0 <==> x * w >= w
  {
    if x >= 1.0 { MulLe(1.0, x, w); } else { Stretched(1.0, x, w); }
  }

  /** Both ratios leave at least a pixel exactly when the smaller one does. */
  lemma SmallerRatio(side: int, p: real, q: real)
    requires side >= 0
    ensures side as real * MinReal(p, q) >= 1.0 <==> side as real * p >= 1.0 && side as real * q >= 1.0
  {
    if p <= q { MulLe(p, q, side as real); } else { MulLe(q, p, side as real); }
  }

  lemma ScaledPositive(side: int, scale: real)
    requires side >= 0
    ensures Scaled(side, scale) >= 1 <==> if scale < 1.0 then side as real * scale >= 1.0 else side >= 1
  {
  }

  /** There is a thumbnail, of at least one pixel each way, exactly for screenshots that are at most 640
      times as wide as high and are not a single column of five pixels or more. */
  lemma ThumbnailExists(width: int, height: int)
    requires width > 0 && height > 0
    ensures var t := CropTo16x9(width, height);
            t.destWidth >= 1 && t.destHeight >= 1 <==> width <= MAX_WIDTH * height && !(width == 1 && height >= 5)
  {
    hide Scaled, ThumbnailScale;
    Wide(width);
    var (yOffset, cropHeight) := CropHeight(width, height);
    BothPositive(width, cropHeight);
  }

  /** The sides left by the scale, in terms of the part that is used. */
  lemma BothPositive(width: int, cropHeight: int)
    requires width > 0 && cropHeight >= 0
    ensures var scale := ThumbnailScale(width, cropHeight);
            Scaled(width, scale) >= 1 && Scaled(cropHeight, scale) >= 1 <==>
              cropHeight >= 1 && width <= MAX_WIDTH * cropHeight && cropHeight <= MAX_HEIGHT * width
  {
    hide Scaled, MinReal;
    var scale := ThumbnailScale(width, cropHeight);
    ScaledPositive(width, scale);
    ScaledPositive(cropHeight, scale);
    if cropHeight > 0 {
      AtLeastOne(width, MAX_WIDTH, width);
      AtLeastOne(cropHeight, MAX_WIDTH, width);
      AtLeastOne(width, MAX_HEIGHT, cropHeight);
      AtLeastOne(cropHeight, MAX_HEIGHT, cropHeight);
      var p, q := MAX_WIDTH as real / width as real, MAX_HEIGHT as real / cropHeight as real;
      SmallerRatio(width, p, q);
      SmallerRatio(cropHeight, p, q);
      NotBelowOne(width, cropHeight);
    } else {
      assert cropHeight as real * scale == 0.0;
    }
  }

  /** A column of five pixels is cropped to nothing; 641 by 1 pixels are scaled to nothing. */
  lemma NoThumbnail()
    ensures CropTo16x9(1, 5).destHeight == 0 && CropTo16x9(641, 1).destHeight == 0
    ensures CropTo16x9(1, 4).destHeight == 4 && CropTo16x9(640, 1).destHeight == 1
  {
    ThumbnailCapped(1, 5);
    ThumbnailExists(1, 5);
    ThumbnailCapped(641, 1);
    ThumbnailExists(641, 1);
    assert CropHeight(1, 5) == (2, 0) && CropHeight(641, 1) == (0, 1);
  }

  lemma NotBelowOne(width: int, cropHeight: int)
    requires width > 0 && cropHeight > 0
    ensures ThumbnailScale(width, cropHeight) >= 1.0 ==> width <= MAX_WIDTH && cropHeight <= MAX_HEIGHT
  {
    RatioAtLeastOne(MAX_WIDTH, width);
    RatioAtLeastOne(MAX_HEIGHT, cropHeight);
  }

  lemma RatioAtLeastOne(limit: int, side: int)
    requires side > 0
    ensures limit as real / side as real >= 1.0 ==> side <= limit
  {
    var ratio := limit as real / side as real;
    if ratio >= 1.0 {
      MulLe(1.0, ratio, side as real);
      assert ratio * side as real == limit as real;
    }
  }
}
