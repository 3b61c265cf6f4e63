/** The coordinate normalizer: the detector's two-corner box turned into a
    pixel box clamped to the image and into an unclamped box normalised by
    the image size. */
module BoxGeometry {
  import opened Wrappers

  /** A corner `[x, y]` in pixel coordinates. */
  datatype Corner = Corner(x: real, y: real)

  /** The box a detection carries: its top-left and bottom-right corners. */
  datatype DetectorBox = DetectorBox(topLeft: Corner, bottomRight: Corner)

  /** A box `[x, y, width, height]`. */
  datatype Rect = Rect(x: real, y: real, width: real, height: real)

  /** The size of the input image: `width` is `shape[2]` of the input tensor
      and `height` is `shape[1]`. */
  datatype ImageSize = ImageSize(width: nat, height: nat)

  function Max(a: real, b: real): (r: real)
    ensures r >= a && r >= b && (r == a || r == b)
  {
    if a >= b then a else b
  }

  function Min(a: real, b: real): (r: real)
    ensures r <= a && r <= b && (r == a || r == b)
  {
    if a <= b then a else b
  }

  /** The detector's left and top edges are at least 0 and its right and
      bottom edges at most the image size. The corners are not required to
      be in order, so an inverted box can still start past the image. */
  predicate InsideImage(b: DetectorBox, image: ImageSize) {
    0.0 <= b.topLeft.x && 0.0 <= b.topLeft.y &&
    b.bottomRight.x <= image.width as real && b.bottomRight.y <= image.height as real
  }

  /** The pixel box of a detection: the left and top edges are raised to 0,
      the right and bottom edges are lowered to the image size, and a missing
      box gives `[0, 0, 0, 0]`. Width and height are not floored at zero. */
  function PixelBox(box: Option<DetectorBox>, image: ImageSize): (r: Rect)
    ensures box.None? ==> r == Rect(0.0, 0.0, 0.0, 0.0)
    ensures box.Some? ==>
      0.0 <= r.x && r.x + r.width <= image.width as real &&
      0.0 <= r.y && r.y + r.height <= image.height as real
    ensures box.Some? ==>
      box.value.topLeft.x <= r.x && r.x + r.width <= box.value.bottomRight.x &&
      box.value.topLeft.y <= r.y && r.y + r.height <= box.value.bottomRight.y
  {
    match box
    case None => Rect(0.0, 0.0, 0.0, 0.0)
    case Some(b) =>
      var left := Max(0.0, b.topLeft.x);
      var top := Max(0.0, b.topLeft.y);
      Rect(left, top,
           Min(image.width as real, b.bottomRight.x) - left,
           Min(image.height as real, b.bottomRight.y) - top)
  }

  /** Each edge of the pixel box is the corresponding detector edge clamped
      on its own side only: left and top at 0, right and bottom at the image
      size. */
  lemma PixelBoxEdges(b: DetectorBox, image: ImageSize)
    ensures var r := PixelBox(Some(b), image);
      r.x == Max(0.0, b.topLeft.x) && r.y == Max(0.0, b.topLeft.y) &&
      r.x + r.width == Min(image.width as real, b.bottomRight.x) &&
      r.y + r.height == Min(image.height as real, b.bottomRight.y)
  {
  }

  /** Clamping a box whose edges are within the image changes nothing. */
  lemma PixelBoxInside(b: DetectorBox, image: ImageSize)
    requires InsideImage(b, image)
    ensures PixelBox(Some(b), image) ==
      Rect(b.topLeft.x, b.topLeft.y, b.bottomRight.x - b.topLeft.x, b.bottomRight.y - b.topLeft.y)
  {
  }

  /** Width is not floored at zero: a box to the right of the image gets a
      negative width. */
  lemma PixelBoxWidthMayBeNegative()
    ensures PixelBox(Some(DetectorBox(Corner(150.0, 0.0), Corner(200.0, 10.0))), ImageSize(100, 100)).width == -50.0
  {
  }

  /** The normalised box: the unclamped corners divided by the image size. */
  function BoxRaw(b: DetectorBox, image: ImageSize): (r: Rect)
    requires image.width > 0 && image.height > 0
    ensures r.x * image.width as real == b.topLeft.x
    ensures r.y * image.height as real == b.topLeft.y
    ensures r.width * image.width as real == b.bottomRight.x - b.topLeft.x
    ensures r.height * image.height as real == b.bottomRight.y - b.topLeft.y
  {
    var w, h := image.width as real, image.height as real;
    Rect(b.topLeft.x / w, b.topLeft.y / h,
         (b.bottomRight.x - b.topLeft.x) / w, (b.bottomRight.y - b.topLeft.y) / h)
  }

  /** A normalised box scaled back to pixel corners. */
  function Denormalize(r: Rect, image: ImageSize): DetectorBox {
    var w, h := image.width as real, image.height as real;
    DetectorBox(Corner(r.x * w, r.y * h), Corner((r.x + r.width) * w, (r.y + r.height) * h))
  }

  /** The normalised box loses nothing: scaling it back gives the detector's
      corners. */
  lemma BoxRawRoundTrip(b: DetectorBox, image: ImageSize)
    requires image.width > 0 && image.height > 0
    ensures Denormalize(BoxRaw(b, image), image) == b
  {
    var r := BoxRaw(b, image);
    var w, h := image.width as real, image.height as real;
    assert (r.x + r.width) * w == r.x * w + r.width * w;
    assert (r.y + r.height) * h == r.y * h + r.height * h;
  }

  /** For a box whose edges are within the image, the normalised box is the
      pixel box divided by the image size, its left and top edges are at
      least 0 and its right and bottom edges at most 1. An inverted box is
      not excluded, so `x` or `y` alone may exceed 1. */
  lemma BoxRawInside(b: DetectorBox, image: ImageSize)
    requires image.width > 0 && image.height > 0
    requires InsideImage(b, image)
    ensures var r, p := BoxRaw(b, image), PixelBox(Some(b), image);
      r.x * image.width as real == p.x && r.y * image.height as real == p.y &&
      r.width * image.width as real == p.width && r.height * image.height as real == p.height
    ensures var r := BoxRaw(b, image);
      0.0 <= r.x && r.x + r.width <= 1.0 && 0.0 <= r.y && r.y + r.height <= 1.0
  {
    PixelBoxInside(b, image);
    var r := BoxRaw(b, image);
    var w, h := image.width as real, image.height as real;
    assert (r.x + r.width) * w == b.bottomRight.x;
    assert (r.y + r.height) * h == b.bottomRight.y;
    ScaledBounds(r.x, w, b.topLeft.x);
    ScaledBounds(r.y, h, b.topLeft.y);
    ScaledBounds(r.x + r.width, w, b.bottomRight.x);
    ScaledBounds(r.y + r.height, h, b.bottomRight.y);
  }

  /** A factor that scales a positive size to `v` is non-negative when `v`
      is, and at most one when `v` is at most the size. */
  lemma ScaledBounds(q: real, size: real, v: real)
    requires size > 0.0 && q * size == v
    ensures v >= 0.0 ==> q >= 0.0
    ensures v <= size ==> q <= 1.0
  {
    if q < 0.0 { assert (0.0 - q) * size > 0.0; }
    if q > 1.0 { assert (q - 1.0) * size > 0.0; }
  }

  /** A box within a 300 x 400 image: `[10, 20, 100, 200]` and
      `[10/300, 20/400, 100/300, 200/400]`. */
  lemma ExampleInside()
    ensures var b := DetectorBox(Corner(10.0, 20.0), Corner(110.0, 220.0));
      PixelBox(Some(b), ImageSize(300, 400)) == Rect(10.0, 20.0, 100.0, 200.0) &&
      BoxRaw(b, ImageSize(300, 400)) == Rect(10.0 / 300.0, 20.0 / 400.0, 100.0 / 300.0, 200.0 / 400.0)
  {
  }

  /** A box overhanging the top-left of a 100 x 100 image: the pixel box is
      clamped to `[0, 0, 50, 50]`, the normalised box is not. */
  lemma ExampleOverhang()
    ensures var b := DetectorBox(Corner(-5.0, -5.0), Corner(50.0, 50.0));
      PixelBox(Some(b), ImageSize(100, 100)) == Rect(0.0, 0.0, 50.0, 50.0) &&
      BoxRaw(b, ImageSize(100, 100)) == Rect(-0.05, -0.05, 0.55, 0.55)
  {
  }
}
