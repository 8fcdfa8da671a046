# Linux virtual background — per-frame pipeline model

This project models the frame pipeline of `virtual_background.py`. The program reads webcam frames and segments the person in each one. It replaces everything else with a background image, can add sepia, film-jitter and noise effects, and writes the result to a v4l2loopback camera.

Model frames are `height × width × 3` arrays of unsigned bytes in B, G, R order, written as nested sequences. A segmentation mask is a `height × width` array of reals. The segmentation model is a function passed in from outside.

Modules, one per component of the script:

- `Wrappers`: `Option` and `Result`.
- `Frames`: the array operations the compositor calls, as pure functions:
  - `numpy.stack` and `>` (which build the per-channel condition);
  - `numpy.where`, which raises on arrays of different shapes;
  - `cv2.cvtColor(…, COLOR_BGR2RGB)`, which raises on an image with no pixels;
  - the solid `BG_COLOR` raster.
- `Flags`: `str2bool`.
- `EffectChain`:
  - the `Effects` class, whose `ApplyEffects` runs the toggled effects in the fixed order sepia → film jitter → noise;
  - the `EffectApplicator` class, whose methods overwrite `currentFrame` one effect at a time;
  - the film-jitter offset.

  Each effect's pixel work is an abstract transform, so only which effects run, their order and the offset are checked. A ghost record of the effects applied so far ties the applicator's frame to the specification function `Run`.
- `Compositor`:
  - the `Background` class, with its `backgroundImage` field and `FrameWithBackground`;
  - `Composite`, the specification of what one call returns.
- `Pump`: the `poll` loop over a finite sequence of camera reads, where `None` is a failed read. It comes in two forms:
  - `Poll` follows the source as written;
  - `PollSkippingEmpty` skips failed reads (see Findings).

  Both methods are proved equal to specification functions, `PollRun` and `PollRunSkipping`. The lemmas are stated about those functions.

On a failed read, `cam.run` logs "Ignoring empty frame." and returns None (virtual_background.py:53-57). This indicates that the read was meant to be skipped. `poll` instead counts the read and passes None on to `frame_with_background`. The model follows the code in `PollRun`/`Poll`. The skipping behaviour is modelled beside it, in `PollRunSkipping`/`PollSkippingEmpty`.

## Model

| member | source | states |
|---|---|---|
| Flags.Str2Bool | virtual_background.py:129-137 | a bool argument is returned unchanged; any rejected argument is text, and the error is the "Boolean value expected." ArgumentTypeError |
| Flags.Str2BoolReadsBooleanWords | virtual_background.py:132-137 | text yields True exactly when it is "true" or "t" in any mix of case, False exactly when it is "false" or "f", and raises exactly when it is none of these |
| Flags.Str2BoolIgnoresCase | virtual_background.py:132-134 | lower-casing the text first never changes the result |
| Flags.Str2BoolExamples | virtual_background.py:129-137 | "true", "T", "false" and "f" parse to True, True, False and False; "maybe" raises |
| EffectChain.JitterHeight | virtual_background.py:101-104 | for a height of 0 or more the offset has magnitude height/160; for a positive height it is positive exactly for even frame numbers and negative exactly for odd ones |
| EffectChain.JitterAlternates | virtual_background.py:101-104 | consecutive frame numbers get opposite offsets; numbers two apart get the same offset; frame 1, the first number poll passes, moves up |
| EffectChain.Enabled | virtual_background.py:71-79 | the effects run are in sepia → film jitter → noise order, and each one is present exactly when its toggle is True |
| EffectChain.OrderIsFixed | virtual_background.py:71-79 | any ordered list that holds exactly the toggled effects is the one that runs, so the toggles choose membership and never the order |
| EffectChain.ChainOrder | virtual_background.py:71-79 | the chain's result is sepia (if on), then the jitter translation by the frame's offset (if on), then noise (if on), each applied to the previous result; with every toggle off the frame comes back unchanged |
| EffectChain.RunSnoc | virtual_background.py:90-115 | running one more effect applies it to the frame the earlier effects left |
| EffectChain.Apply | virtual_background.py:90-115 | one effect: sepia and noise apply their transform to the frame; film jitter translates it vertically by JitterHeight(frame number, height) |
| EffectChain.Run | virtual_background.py:71-79 | the effects in the list applied one after another, the first to the input frame and each later one to the previous result |
| EffectChain.Effects.Chain | virtual_background.py:71-79 | the frame apply_effects produces for the toggles; with every toggle off it is the input frame |
| EffectChain.Effects.constructor | virtual_background.py:64-69 | stores the three toggles, the size and the transforms |
| EffectChain.Effects.ApplyEffects | virtual_background.py:71-79 | returns a fresh applicator built from the frame and frame number; it has run exactly the enabled effects in order, and its frame is the chain's result |
| EffectChain.EffectApplicator.constructor | virtual_background.py:84-88 | starts from the given frame with no effect applied |
| EffectChain.EffectApplicator.SepiaApplicator | virtual_background.py:90-97 | replaces the current frame by the sepia transform of it and records the step |
| EffectChain.EffectApplicator.FilmJitteringApplicator | virtual_background.py:99-107 | replaces the current frame by its translation by JitterHeight(frame number, height) and records the step |
| EffectChain.EffectApplicator.NoiseApplicator | virtual_background.py:109-115 | replaces the current frame by the noise transform of it and records the step |
| Frames.Stack3 | virtual_background.py:26 | the stacked mask has the mask's height and widths, and each pixel is the mask value repeated in three channels |
| Frames.GreaterThan | virtual_background.py:26 | the condition has the input's shape, and each element is true exactly where the value is strictly above the threshold |
| Frames.Where | virtual_background.py:31 | succeeds exactly when the condition and both frames have one shape, and otherwise reports a shape mismatch; on success each element is taken from the first frame where the condition holds and from the second elsewhere |
| Frames.BgrToRgb | virtual_background.py:32 | the channel swap cvtColor applies keeps the shape and leaves three channels in every pixel |
| Frames.CvtColorBgrToRgb | virtual_background.py:32 | cvtColor raises (EmptyImage) exactly when the image has no pixels; otherwise it returns the swapped image, of the same shape and three-channel |
| Frames.SolidLike | virtual_background.py:28-29 | the fallback raster has the frame's height and row widths and three channels per pixel |
| Frames.BgrToRgbSwapsOuterChannels | virtual_background.py:32 | BGR→RGB keeps the shape, exchanges the first and third channel of every pixel and keeps the middle one; converting twice restores the frame |
| Compositor.Composite | virtual_background.py:24-33 | a composite that succeeds has the mask's height and row widths, three channels per pixel, and at least one pixel |
| Compositor.ResolvedBackground | virtual_background.py:27-29 | without a stored image the background used has the current frame's height and row widths and three channels |
| Compositor.CompositeSelectsPixels | virtual_background.py:24-33 | compositing succeeds exactly when both frames have three channels and the mask's size and the mask has at least one pixel, and the output then has that size; frames of another size raise the numpy.where shape error, and an empty mask of the right size raises the cv2.cvtColor error; each output pixel is the effect-processed pixel where the mask is strictly above 0.1 (rounded to float32, as numpy compares it with the float32 mask), and the background pixel otherwise, in both cases with the first and third channels swapped |
| Compositor.CompositeSucceeds | virtual_background.py:24-33 | frames that have three channels and the mask's size, for a mask with a pixel, composite without an exception |
| Compositor.CompositePixel | virtual_background.py:26-32 | in a composite that succeeded, a single pixel is the processed or the background pixel, chosen by its mask value against the threshold, with the first and third channels swapped |
| Compositor.TwoRowComposite | virtual_background.py:26-32 | for a white live frame and a black background of two one-pixel rows, a top mask value above the threshold (such as 0.9) and a bottom one at or below it (such as 0.05) give a white top pixel and a black bottom pixel |
| Compositor.EmptyFrameRaises | virtual_background.py:31-32 | a composite of frames with no rows, or with one row of width zero, raises the cv2.cvtColor error rather than the numpy.where one |
| Compositor.ThresholdIsStrict | virtual_background.py:26 | a mask value equal to float32(0.1) is not above the threshold, so its pixel comes from the background |
| Compositor.FallbackIsSolidGrey | virtual_background.py:27-29 | a stored background is used as it is; without one, the background is frame-shaped and (192, 192, 192) everywhere |
| Compositor.Background.constructor | virtual_background.py:19-22 | stores the size and the loaded image, or None |
| Compositor.Background.FrameWithBackground | virtual_background.py:24-33 | the stored background is kept if present; otherwise the fallback is stored, before compositing, so later calls reuse it; the result is the composite of the mask, the effect chain's output and that background |
| Pump.PollCounts | virtual_background.py:187-193 | after k iterations from counter c the counter is c + k, and iteration k passes frame number c + k + 1, failed reads included; when the camera closes every read was consumed and every frame emitted; an exception loses exactly the frame of the iteration that raised it |
| Pump.PollStopsAtFailedRead | virtual_background.py:187-193 | a run that ends with the camera closed had only successful reads; a run ended by the AttributeError ended at a failed read, and every earlier read was successful |
| Pump.PollEmitsComposites | virtual_background.py:187-193 | the k-th emitted frame is the composite of the k-th read with frame number c + k + 1 and with the one background every iteration used; a background present at the start is never replaced |
| Pump.FailedReadStopsPump | virtual_background.py:187-192 | as written, the reads [None, frame] end the pump at counter 1 with nothing emitted, so the good frame is never reached; when failed reads are skipped, the same reads process that frame as frame 1 |
| Pump.SkippingIgnoresFailedReads | virtual_background.py:53-57 | skipping failed reads behaves exactly like the written loop run on the successful reads alone |
| Pump.SkippingCountsSuccessfulReads | virtual_background.py:187-191 | when failed reads are skipped, frame numbers run consecutively from c + 1; a run that ends with the camera closed leaves the counter at c + N for N successful reads, whatever the number and position of failed ones; the empty-read exception never occurs |
| Pump.PollRun | virtual_background.py:187-193 | poll as written, the state it ends in; the final counter is the start plus the number of iterations, there is at most one iteration per read and at most one emitted frame per iteration |
| Pump.PollRunSkipping | virtual_background.py:187-193 | poll with failed reads skipped; the same counting bounds hold |
| Pump.Poll | virtual_background.py:187-193 | the loop's counter, emitted frames, frame numbers, ending and stored background are those of PollRun |
| Pump.PollSkippingEmpty | virtual_background.py:187-193 | the same loop with failed reads skipped; its results are those of PollRunSkipping |

## Findings

| source | as written | input that shows it | evidently intended | confidence | as-written member | corrected member |
|---|---|---|---|---|---|---|
| virtual_background.py:187-192 | When a read fails, `cam.run` prints "Ignoring empty frame." and returns None. `poll` still increments the counter and passes None to `frame_with_background`. There `generate_mask` sets `None.flags.writeable`, which raises AttributeError and ends the pump. | The camera reads [None, frame], starting from counter 0. | A failed read is logged and skipped. The counter does not move, and the next read is processed. | high (not executed) | Pump.FailedReadStopsPump | Pump.SkippingCountsSuccessfulReads |

## Left out

- Segmentation (`generate_mask`: MediaPipe selfie segmentation after `cv2.bilateralFilter`) is an opaque model. It is the `segment` parameter, a function from frame to mask.
- Sepia, the jitter translation and noise are abstract transforms in `Transforms`:
  - the sepia colour matrix, `cv2.transform`'s saturation and the `> 255` clamp are not modelled;
  - `cv2.warpAffine` interpolation and border fill are not modelled;
  - numpy's uint8 arithmetic in noise is not modelled.
- Noise is a fixed function. The program draws fresh random values on every call.
- `EffectChain.JitterHeight`: the offset is an exact real. The source computes it with float division, whose rounding is not modelled.
- Errors an OpenCV or numpy effect could raise on a malformed frame are not modelled.
- `CameraOutput` is left out: opening the devices, `quit(1)` when the output device fails, and `schedule_frame`. Camera reads are a finite sequence of `Option<Frame>`. The end of that sequence stands for `isOpened()` turning false. Emitting a frame appends it to the `emitted` result.
- `Background.__init__` is left out (`cv2.imread` and `cv2.resize`). The constructor takes the loaded image, or None. In the source, a missing file makes `imread` return None, and `cv2.resize` then raises, so the fallback path looks unreachable from `__init__`. The model keeps the fallback as the code states it.
- `parse_args`, `main` and the argparse wiring are left out. The effect toggles are plain booleans. A bare `--sepia` gives argparse's `None`, which `is True` treats like False.
- `Frames.Where`: numpy's broadcasting of size-1 axes is not modelled. Every shape mismatch is reported as `ShapeMismatch`.
- Shapes are compared structurally (row count, row widths, channels). Two zero-height arrays of different widths count as the same shape.
- `Flags.Str2Bool` lower-cases ASCII letters only. Python's `str.lower` is Unicode-aware.
- The `width` and `height` fields of `Background` and of the applicators are stored, as in the source. The pipeline does not check frames against them.
- The source has no wave-distortion effect, so none is modelled.
