/**
 * Background.frame_with_background: threshold the segmentation mask, pick
 * each pixel from the effect-processed frame or from the background, then
 * convert the result from BGR to RGB. A missing background is replaced, once,
 * by a solid BG_COLOR raster of the frame's shape.
 */
module Compositor {
  import opened Wrappers
  import opened Frames
  import opened EffectChain

  /** The composite frame_with_background returns for a mask, the frame the
      effects produced, and the background in use. */
  function Composite(mask: Mask, processed: Frame, background: Frame): (r: Result<Frame, Error>)
    ensures r.Ok? ==> Fits(r.value, mask) && !NoPixels(r.value)
  {
    var condition := GreaterThan(Stack3(mask), Threshold);
    match Where(condition, processed, background)
    case Err(e) => Err(e)
    case Ok(selected) =>
      assert SameShape(selected, condition);
      CvtColorBgrToRgb(selected)
  }

  /** The background a call uses: the stored one, or else the fallback built
      from the shape of the current frame. */
  function ResolvedBackground(stored: Option<Frame>, currentFrame: Frame): (r: Frame)
    ensures stored.None? ==> |r| == |currentFrame| && ThreeChannels(r)
    ensures stored.None? ==> forall y :: 0 <= y < |currentFrame| ==> |r[y]| == |currentFrame[y]|
  {
    match stored
    case Some(b) => b
    case None => SolidLike(currentFrame)
  }

  /** Compositing is hard per-pixel selection followed by the channel swap:
      where the mask value is strictly above float32(0.1) the output pixel is the
      processed pixel, elsewhere the background pixel, in both cases with its
      first and third channels exchanged. It succeeds exactly when both frames
      are three-channel and of the mask's size and the mask has a pixel, and the
      output has that size. Frames of the wrong size make numpy.where raise; an
      empty mask makes cv2.cvtColor raise. */
  lemma CompositeSelectsPixels(mask: Mask, processed: Frame, background: Frame)
    ensures Composite(mask, processed, background).Ok? <==>
      Fits(processed, mask) && Fits(background, mask) && !NoPixels(mask)
    ensures Composite(mask, processed, background).Err? ==>
      Composite(mask, processed, background).error ==
        if Fits(processed, mask) && Fits(background, mask) then EmptyImage else ShapeMismatch
    ensures var r := Composite(mask, processed, background);
      r.Ok? ==>
        Fits(r.value, mask) &&
        forall y, x :: 0 <= y < |mask| && 0 <= x < |mask[y]| ==>
          var p := if mask[y][x] > Threshold then processed[y][x] else background[y][x];
          r.value[y][x] == [p[2], p[1], p[0]]
  {
    var condition := GreaterThan(Stack3(mask), Threshold);
    assert Fits(condition, mask);
    assert SameShape(condition, processed) <==> Fits(processed, mask);
    assert SameShape(condition, background) <==> Fits(background, mask);
    var w := Where(condition, processed, background);
    if w.Ok? {
      assert NoPixels(w.value) <==> NoPixels(mask);
      var out := BgrToRgb(w.value);
      forall y, x | 0 <= y < |mask| && 0 <= x < |mask[y]|
        ensures var p := if mask[y][x] > Threshold then processed[y][x] else background[y][x];
          out[y][x] == [p[2], p[1], p[0]]
      {
        var p := if mask[y][x] > Threshold then processed[y][x] else background[y][x];
        assert forall k :: 0 <= k < 3 ==> condition[y][x][k] == (mask[y][x] > Threshold);
        assert forall k :: 0 <= k < 3 ==> w.value[y][x][k] == p[k];
      }
    }
  }

  /** Frames that fit a mask with a pixel composite without an exception. */
  lemma CompositeSucceeds(mask: Mask, processed: Frame, background: Frame)
    requires Fits(processed, mask) && Fits(background, mask) && !NoPixels(mask)
    ensures Composite(mask, processed, background).Ok?
  {
    CompositeSelectsPixels(mask, processed, background);
  }

  /** One pixel of a composite that succeeded. */
  lemma CompositePixel(mask: Mask, processed: Frame, background: Frame, y: int, x: int)
    requires Composite(mask, processed, background).Ok?
    requires 0 <= y < |mask| && 0 <= x < |mask[y]|
    ensures var p := if mask[y][x] > Threshold then processed[y][x] else background[y][x];
      Composite(mask, processed, background).value[y][x] == [p[2], p[1], p[0]]
  {
    CompositeSelectsPixels(mask, processed, background);
  }

  /** Two rows of one pixel: white live frame, black background, a top mask
      value above the threshold (0.9, say) and a bottom one at or below it
      (0.05, say) give a white top pixel and a black bottom pixel. */
  lemma TwoRowComposite(high: real, low: real)
    requires high > Threshold && low <= Threshold
    ensures var white: seq<byte> := [255, 255, 255];
      var black: seq<byte> := [0, 0, 0];
      Composite([[high], [low]], [[white], [white]], [[black], [black]]) == Ok([[white], [black]])
  {
    var white: seq<byte> := [255, 255, 255];
    var black: seq<byte> := [0, 0, 0];
    var mask: Mask := [[high], [low]];
    var live: Frame := [[white], [white]];
    var bg: Frame := [[black], [black]];
    assert Fits(live, mask) && Fits(bg, mask);
    assert !NoPixels(mask) by { assert |mask[0]| == 1; }
    CompositeSucceeds(mask, live, bg);
    var out := Composite(mask, live, bg).value;
    CompositePixel(mask, live, bg, 0, 0);
    CompositePixel(mask, live, bg, 1, 0);
    assert out[0] == [white] && out[1] == [black];
    assert out == [[white], [black]];
  }

  /** A mask value equal to float32(0.1) is not above the threshold, so that
      pixel comes from the background. */
  lemma ThresholdIsStrict()
    ensures var white: seq<byte> := [255, 255, 255];
      var black: seq<byte> := [0, 0, 0];
      Composite([[Threshold]], [[white]], [[black]]) == Ok([[black]])
  {
    var white: seq<byte> := [255, 255, 255];
    var black: seq<byte> := [0, 0, 0];
    var mask: Mask := [[Threshold]];
    assert Fits([[white]], mask) && Fits([[black]], mask) && |mask[0]| > 0;
    CompositeSelectsPixels(mask, [[white]], [[black]]);
    var out := Composite(mask, [[white]], [[black]]).value;
    assert out[0][0] == black;
    assert out[0] == [black];
    assert out == [[black]];
  }

  /** A frame with no rows, or with rows of width zero, gets through
      numpy.where and makes cv2.cvtColor raise. */
  lemma EmptyFrameRaises()
    ensures Composite([], [], []) == Err(EmptyImage)
    ensures Composite([[]], [[]], [[]]) == Err(EmptyImage)
  {
    CompositeSelectsPixels([], [], []);
    CompositeSelectsPixels([[]], [[]], [[]]);
  }

  /** The fallback raster has the frame's shape and is BG_COLOR everywhere; a
      stored background is used as it is. */
  lemma FallbackIsSolidGrey(stored: Option<Frame>, currentFrame: Frame)
    requires ThreeChannels(currentFrame)
    ensures stored.Some? ==> ResolvedBackground(stored, currentFrame) == stored.value
    ensures stored.None? ==> SameShape(ResolvedBackground(stored, currentFrame), currentFrame)
    ensures stored.None? ==> forall y, x :: 0 <= y < |currentFrame| && 0 <= x < |currentFrame[y]| ==>
      ResolvedBackground(stored, currentFrame)[y][x] == [192, 192, 192]
  {
  }

  /** Holds the background image between frames. */
  class Background {
    const width: int
    const height: int
    var backgroundImage: Option<Frame>

    /** Takes the image already loaded and resized, or None when there is none. */
    constructor (width: int, height: int, image: Option<Frame>)
      ensures this.width == width && this.height == height && backgroundImage == image
    {
      this.width := width;
      this.height := height;
      backgroundImage := image;
    }

    /** One composite. `mask` is the segmentation of `currentFrame`. The
        fallback is stored before compositing, so a later call reuses it and
        it stays stored even when compositing raises. */
    method FrameWithBackground(currentFrame: Frame, mask: Mask, effects: Effects, frameNo: int)
      returns (r: Result<Frame, Error>)
      modifies this
      ensures backgroundImage == Some(ResolvedBackground(old(backgroundImage), currentFrame))
      ensures old(backgroundImage).Some? ==> backgroundImage == old(backgroundImage)
      ensures r == Composite(mask, effects.Chain(currentFrame, frameNo), backgroundImage.value)
    {
      var condition := GreaterThan(Stack3(mask), Threshold);
      if backgroundImage.None? {
        var fill := SolidLike(currentFrame);
        backgroundImage := Some(fill);
      }
      var applicator := effects.ApplyEffects(currentFrame, frameNo);
      var masked := Where(condition, applicator.currentFrame, backgroundImage.value);
      match masked
      case Err(e) =>
        r := Err(e);
      case Ok(selected) =>
        r := CvtColorBgrToRgb(selected);
    }
  }
}
