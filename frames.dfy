/**
 * Frames, segmentation masks, and the numpy/OpenCV array operations that
 * virtual_background.py applies to them, as pure functions on values.
 */
module Frames {
  import opened Wrappers

  /** One unsigned 8-bit channel value (numpy uint8). */
  newtype byte = x: int | 0 <= x < 256

  /** A height × width × channels array, indexed [row][column][channel]. */
  type Image<T> = seq<seq<seq<T>>>

  /** A camera frame: uint8 values, three channels per pixel, in B, G, R order. */
  type Frame = Image<byte>

  /** A segmentation mask: one foreground probability per pixel, height × width. */
  type Mask = seq<seq<real>>

  /** The exceptions compositing can raise: numpy.where given arrays whose
      shapes do not agree, and cv2.cvtColor given an image with no pixels. */
  datatype Error = ShapeMismatch | EmptyImage

  /** BG_COLOR, the fill used when there is no background image. */
  const BgColor: seq<byte> := [192, 192, 192]

  /** The strict threshold a mask value must exceed to count as foreground.
      The mask is a float32 array, so numpy compares it with 0.1 rounded to
      float32, which is 13421773 / 2^27 exactly. Mask values are float32
      numbers too, so comparing them as reals with this value gives the
      same answer as the float32 comparison. */
  const Threshold: real := 13421773.0 / 134217728.0

  /** Both images have the same height, the same width in every row and the
      same number of channels in every pixel. */
  predicate SameShape<A, B>(a: Image<A>, b: Image<B>)
  {
    |a| == |b| &&
    forall y :: 0 <= y < |a| ==>
      |a[y]| == |b[y]| && forall x :: 0 <= x < |a[y]| ==> |a[y][x]| == |b[y][x]|
  }

  /** Every pixel of `f` has three channels. */
  predicate ThreeChannels<T>(f: Image<T>)
  {
    forall y, x :: 0 <= y < |f| && 0 <= x < |f[y]| ==> |f[y][x]| == 3
  }

  /** `f` is a three-channel image with exactly the mask's height and row widths. */
  predicate Fits<T>(f: Image<T>, m: Mask)
  {
    |f| == |m| &&
    forall y :: 0 <= y < |f| ==>
      |f[y]| == |m[y]| && forall x :: 0 <= x < |f[y]| ==> |f[y][x]| == 3
  }

  /** numpy.stack((m,) * 3, axis=-1): each mask value repeated over three channels. */
  function Stack3(m: Mask): (r: Image<real>)
    ensures |r| == |m|
    ensures forall y :: 0 <= y < |m| ==> |r[y]| == |m[y]|
    ensures forall y, x :: 0 <= y < |m| && 0 <= x < |m[y]| ==> r[y][x] == [m[y][x], m[y][x], m[y][x]]
  {
    seq(|m|, y requires 0 <= y < |m| =>
      seq(|m[y]|, x requires 0 <= x < |m[y]| => [m[y][x], m[y][x], m[y][x]]))
  }

  /** The elementwise comparison `img > t`. */
  function GreaterThan(img: Image<real>, t: real): (r: Image<bool>)
    ensures SameShape(r, img)
    ensures forall y, x, k :: 0 <= y < |img| && 0 <= x < |img[y]| && 0 <= k < |img[y][x]| ==>
      r[y][x][k] == (img[y][x][k] > t)
  {
    seq(|img|, y requires 0 <= y < |img| =>
      seq(|img[y]|, x requires 0 <= x < |img[y]| =>
        seq(|img[y][x]|, k requires 0 <= k < |img[y][x]| => img[y][x][k] > t)))
  }

  /** numpy.where(cond, a, b) on arrays of one shape: each element is taken from
      `a` where the condition holds and from `b` elsewhere. Arrays whose shapes
      differ make numpy raise. */
  function Where<T>(cond: Image<bool>, a: Image<T>, b: Image<T>): (r: Result<Image<T>, Error>)
    ensures r.Ok? <==> SameShape(cond, a) && SameShape(cond, b)
    ensures r.Err? ==> r.error == ShapeMismatch
    ensures r.Ok? ==> SameShape(r.value, cond)
    ensures r.Ok? ==> forall y, x, k :: 0 <= y < |cond| && 0 <= x < |cond[y]| && 0 <= k < |cond[y][x]| ==>
      r.value[y][x][k] == if cond[y][x][k] then a[y][x][k] else b[y][x][k]
  {
    if SameShape(cond, a) && SameShape(cond, b) then
      Ok(seq(|cond|, y requires 0 <= y < |cond| =>
        seq(|cond[y]|, x requires 0 <= x < |cond[y]| =>
          seq(|cond[y][x]|, k requires 0 <= k < |cond[y][x]| =>
            if cond[y][x][k] then a[y][x][k] else b[y][x][k]))))
    else
      Err(ShapeMismatch)
  }

  /** One pixel with its first and third channels exchanged. */
  function SwapRedBlue<T>(p: seq<T>): seq<T>
    requires |p| == 3
  {
    [p[2], p[1], p[0]]
  }

  /** An array with no elements: no rows, or only rows of width zero. */
  predicate NoPixels<T>(rows: seq<seq<T>>)
  {
    forall y :: 0 <= y < |rows| ==> |rows[y]| == 0
  }

  /** The BGR→RGB channel swap cv2.cvtColor performs on every pixel. */
  function BgrToRgb<T>(f: Image<T>): (r: Image<T>)
    requires ThreeChannels(f)
    ensures SameShape(r, f) && ThreeChannels(r)
  {
    seq(|f|, y requires 0 <= y < |f| =>
      seq(|f[y]|, x requires 0 <= x < |f[y]| => SwapRedBlue(f[y][x])))
  }

  /** cv2.cvtColor(f, cv2.COLOR_BGR2RGB), which raises on an empty image and
      otherwise swaps the channels. */
  function CvtColorBgrToRgb<T>(f: Image<T>): (r: Result<Image<T>, Error>)
    requires ThreeChannels(f)
    ensures r.Ok? <==> !NoPixels(f)
    ensures r.Err? ==> r.error == EmptyImage
    ensures r.Ok? ==> SameShape(r.value, f) && ThreeChannels(r.value)
  {
    if NoPixels(f) then Err(EmptyImage) else Ok(BgrToRgb(f))
  }

  /** np.zeros(f.shape, dtype=np.uint8) followed by `[:] = BG_COLOR`: a
      three-channel raster with the frame's height and row widths. */
  function SolidLike(f: Frame): (r: Frame)
    ensures |r| == |f|
    ensures forall y :: 0 <= y < |f| ==> |r[y]| == |f[y]|
    ensures ThreeChannels(r)
  {
    seq(|f|, y requires 0 <= y < |f| => seq(|f[y]|, x requires 0 <= x < |f[y]| => BgColor))
  }

  /** Converting BGR to RGB keeps the shape, exchanges the outer channels of
      every pixel and keeps the middle one; doing it twice restores the frame. */
  lemma {:induction false} BgrToRgbSwapsOuterChannels<T>(f: Image<T>)
    requires ThreeChannels(f)
    ensures SameShape(BgrToRgb(f), f) && ThreeChannels(BgrToRgb(f))
    ensures forall y, x :: 0 <= y < |f| && 0 <= x < |f[y]| ==>
      BgrToRgb(f)[y][x][0] == f[y][x][2] &&
      BgrToRgb(f)[y][x][1] == f[y][x][1] &&
      BgrToRgb(f)[y][x][2] == f[y][x][0]
    ensures BgrToRgb(BgrToRgb(f)) == f
  {
    var g := BgrToRgb(f);
    var h := BgrToRgb(g);
    assert |h| == |f|;
    forall y | 0 <= y < |f|
      ensures h[y] == f[y]
    {
      assert |h[y]| == |f[y]|;
      forall x | 0 <= x < |f[y]|
        ensures h[y][x] == f[y][x]
      {
        assert h[y][x] == SwapRedBlue(SwapRedBlue(f[y][x]));
      }
    }
  }
}
