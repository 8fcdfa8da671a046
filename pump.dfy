/**
 * poll: the frame pump. Each iteration reads the camera, numbers the frame
 * with the incremented counter, composites it and emits the result, until
 * the camera closes. The camera is a finite sequence of read results (None
 * for a failed read) and the segmentation model a function from frames to
 * masks; "emitting" appends to the list of frames sent to the output device.
 */
module Pump {
  import opened Wrappers
  import opened Frames
  import opened EffectChain
  import opened Compositor

  /** How the loop ended: the camera closed; the AttributeError raised when a
      failed read (None) reaches the segmentation step; or an exception from
      compositing. */
  datatype Outcome = Closed | RaisedOnEmptyRead | Raised(error: Error)

  /** What the pump has done: the stored background, the frame counter, the
      frames emitted, the frame number each iteration passed on, and how the
      loop ended. */
  datatype PumpState = PumpState(
    background: Option<Frame>,
    counter: int,
    emitted: seq<Frame>,
    frameNumbers: seq<int>,
    outcome: Outcome)

  /** One iteration's work on a frame that was read: given the frame, its
      frame number and the background in use, the composite or the exception. */
  type Composer = (Frame, int, Frame) -> Result<Frame, Error>

  /** The step frame_with_background performs, for the given effects and
      segmentation model. */
  function FrameStep(effects: Effects, segment: Frame -> Mask): Composer
  {
    (frame: Frame, frameNo: int, background: Frame) => Composite(segment(frame), effects.Chain(frame, frameNo), background)
  }

  /** Puts earlier iterations' output in front of a later state. */
  function Prepend(emitted: seq<Frame>, frameNumbers: seq<int>, s: PumpState): PumpState
  {
    s.(emitted := emitted + s.emitted, frameNumbers := frameNumbers + s.frameNumbers)
  }

  /** poll as written: the counter is incremented before the frame is looked
      at, and a failed read hands None to the segmentation step, which raises,
      so the first failed read ends the loop. */
  function PollRun(background: Option<Frame>, compose: Composer,
                   camera: seq<Option<Frame>>, counter: int): (r: PumpState)
    ensures r.counter == counter + |r.frameNumbers|
    ensures |r.emitted| <= |r.frameNumbers| <= |camera|
    decreases |camera|
  {
    if camera == [] then PumpState(background, counter, [], [], Closed)
    else
      var frameNo := counter + 1;
      match camera[0]
      case None => PumpState(background, frameNo, [], [frameNo], RaisedOnEmptyRead)
      case Some(frame) =>
        var used := ResolvedBackground(background, frame);
        match compose(frame, frameNo, used)
        case Err(e) => PumpState(Some(used), frameNo, [], [frameNo], Raised(e))
        case Ok(out) => Prepend([out], [frameNo], PollRun(Some(used), compose, camera[1..], frameNo))
  }

  /** poll with a failed read logged and skipped: the counter is not touched
      and the loop goes on with the next read. */
  function PollRunSkipping(background: Option<Frame>, compose: Composer,
                           camera: seq<Option<Frame>>, counter: int): (r: PumpState)
    ensures r.counter == counter + |r.frameNumbers|
    ensures |r.emitted| <= |r.frameNumbers| <= |camera|
    decreases |camera|
  {
    if camera == [] then PumpState(background, counter, [], [], Closed)
    else
      match camera[0]
      case None => PollRunSkipping(background, compose, camera[1..], counter)
      case Some(frame) =>
        var frameNo := counter + 1;
        var used := ResolvedBackground(background, frame);
        match compose(frame, frameNo, used)
        case Err(e) => PumpState(Some(used), frameNo, [], [frameNo], Raised(e))
        case Ok(out) => Prepend([out], [frameNo], PollRunSkipping(Some(used), compose, camera[1..], frameNo))
  }

  /** The successful reads, in order. */
  function Acquired(camera: seq<Option<Frame>>): (r: seq<Option<Frame>>)
    ensures |r| <= |camera|
    ensures forall k :: 0 <= k < |r| ==> r[k].Some?
    decreases |camera|
  {
    if camera == [] then []
    else if camera[0].None? then Acquired(camera[1..])
    else [camera[0]] + Acquired(camera[1..])
  }

  /** The counter after k iterations is the starting value plus k, iteration
      k passes frame number start + k + 1, failed reads included; every read
      is consumed and every frame emitted when the camera closes, and an
      exception costs exactly the frame of the iteration that raised. */
  lemma {:induction false} PollCounts(background: Option<Frame>, compose: Composer,
                                      camera: seq<Option<Frame>>, counter: int)
    ensures var s := PollRun(background, compose, camera, counter);
      s.counter == counter + |s.frameNumbers| &&
      |s.frameNumbers| <= |camera| &&
      (forall k :: 0 <= k < |s.frameNumbers| ==> s.frameNumbers[k] == counter + k + 1) &&
      (s.outcome.Closed? ==> |s.frameNumbers| == |camera| && |s.emitted| == |camera|) &&
      (!s.outcome.Closed? ==> |s.frameNumbers| >= 1 && |s.emitted| == |s.frameNumbers| - 1)
    decreases |camera|
  {
    if camera != [] && camera[0].Some? {
      var frame := camera[0].value;
      var used := ResolvedBackground(background, frame);
      var r := compose(frame, counter + 1, used);
      if r.Ok? {
        PollCounts(Some(used), compose, camera[1..], counter + 1);
        var rest := PollRun(Some(used), compose, camera[1..], counter + 1);
        var s := PollRun(background, compose, camera, counter);
        assert s.frameNumbers == [counter + 1] + rest.frameNumbers;
        forall k | 0 <= k < |s.frameNumbers|
          ensures s.frameNumbers[k] == counter + k + 1
        {
          if k > 0 {
            assert s.frameNumbers[k] == rest.frameNumbers[k - 1];
          }
        }
      }
    }
  }

  /** A failed read ends the loop: a run that closes normally had only
      successful reads, and a run stopped by the AttributeError stopped at a failed
      read, with every earlier read successful. */
  lemma {:induction false} PollStopsAtFailedRead(background: Option<Frame>, compose: Composer,
                                                 camera: seq<Option<Frame>>, counter: int)
    ensures var s := PollRun(background, compose, camera, counter);
      (s.outcome.Closed? ==> forall k :: 0 <= k < |camera| ==> camera[k].Some?) &&
      (s.outcome == RaisedOnEmptyRead ==>
        0 < |s.frameNumbers| <= |camera| &&
        camera[|s.frameNumbers| - 1].None? &&
        forall k :: 0 <= k < |s.frameNumbers| - 1 ==> camera[k].Some?)
    decreases |camera|
  {
    if camera != [] && camera[0].Some? {
      var frame := camera[0].value;
      var used := ResolvedBackground(background, frame);
      var r := compose(frame, counter + 1, used);
      if r.Ok? {
        PollStopsAtFailedRead(Some(used), compose, camera[1..], counter + 1);
        var rest := PollRun(Some(used), compose, camera[1..], counter + 1);
        var s := PollRun(background, compose, camera, counter);
        assert s == Prepend([r.value], [counter + 1], rest);
        assert forall k :: 1 <= k < |camera| ==> camera[k] == camera[1..][k - 1];
        if s.outcome == RaisedOnEmptyRead {
          assert rest.outcome == RaisedOnEmptyRead;
          assert |s.frameNumbers| == |rest.frameNumbers| + 1;
          assert camera[|s.frameNumbers| - 1] == camera[1..][|rest.frameNumbers| - 1];
          forall k | 0 <= k < |s.frameNumbers| - 1
            ensures camera[k].Some?
          {
            if k > 0 { assert camera[k] == camera[1..][k - 1]; }
          }
        }
        if s.outcome.Closed? {
          forall k | 0 <= k < |camera|
            ensures camera[k].Some?
          {
            if k > 0 { assert camera[k] == camera[1..][k - 1]; }
          }
        }
      }
    }
  }

  /** Every emitted frame is the composite of the read at its position, with
      the frame number of its iteration and the background stored at the end,
      which is the one every iteration used. */
  lemma {:induction false} PollEmitsComposites(background: Option<Frame>, compose: Composer,
                                               camera: seq<Option<Frame>>, counter: int)
    ensures var s := PollRun(background, compose, camera, counter);
      |s.emitted| <= |camera| &&
      (background.Some? ==> s.background == background) &&
      (s.emitted != [] ==> s.background.Some?) &&
      forall k :: 0 <= k < |s.emitted| ==>
        camera[k].Some? &&
        compose(camera[k].value, counter + k + 1, s.background.value)
          == Ok(s.emitted[k])
    decreases |camera|
  {
    if camera != [] && camera[0].Some? {
      var frame := camera[0].value;
      var used := ResolvedBackground(background, frame);
      var r := compose(frame, counter + 1, used);
      if r.Ok? {
        PollEmitsComposites(Some(used), compose, camera[1..], counter + 1);
        var rest := PollRun(Some(used), compose, camera[1..], counter + 1);
        var s := PollRun(background, compose, camera, counter);
        assert s.emitted == [r.value] + rest.emitted;
        assert s.background == Some(used);
        forall k | 1 <= k < |s.emitted|
          ensures camera[k].Some? &&
            compose(camera[k].value, counter + k + 1, s.background.value)
              == Ok(s.emitted[k])
        {
          assert camera[k] == camera[1..][k - 1];
          assert s.emitted[k] == rest.emitted[k - 1];
        }
      }
    }
  }

  /** A read list with a failed read in front of a good frame: as written the
      loop raises at the failed read, after counting it, and never gets to the
      good frame; with failed reads skipped the good frame is processed as
      frame 1. */
  lemma FailedReadStopsPump(background: Option<Frame>, compose: Composer, frame: Frame)
    ensures PollRun(background, compose, [None, Some(frame)], 0)
      == PumpState(background, 1, [], [1], RaisedOnEmptyRead)
    ensures PollRunSkipping(background, compose, [None, Some(frame)], 0)
      == PollRunSkipping(background, compose, [Some(frame)], 0)
    ensures PollRunSkipping(background, compose, [None, Some(frame)], 0).frameNumbers == [1]
  {
  }

  /** With failed reads skipped, the pump behaves as the written loop would
      on the successful reads alone. */
  lemma {:induction false} SkippingIgnoresFailedReads(background: Option<Frame>, compose: Composer,
                                                      camera: seq<Option<Frame>>, counter: int)
    ensures PollRunSkipping(background, compose, camera, counter)
      == PollRun(background, compose, Acquired(camera), counter)
    decreases |camera|
  {
    if camera != [] {
      SkippingIgnoresFailedReads(background, compose, camera[1..], counter);
      if camera[0].Some? {
        var frame := camera[0].value;
        var used := ResolvedBackground(background, frame);
        SkippingIgnoresFailedReads(Some(used), compose, camera[1..], counter + 1);
        var acquired := Acquired(camera);
        assert acquired[0] == camera[0] && acquired[1..] == Acquired(camera[1..]);
      }
    }
  }

  /** With failed reads skipped, the counter counts successful reads: after a
      run that ends with the camera closed, N successful reads interleaved with
      any number of failed ones leave it at its start value plus N, and frame
      numbers run consecutively from start + 1. */
  lemma SkippingCountsSuccessfulReads(background: Option<Frame>, compose: Composer,
                                      camera: seq<Option<Frame>>, counter: int)
    ensures var s := PollRunSkipping(background, compose, camera, counter);
      s.counter == counter + |s.frameNumbers| &&
      (forall k :: 0 <= k < |s.frameNumbers| ==> s.frameNumbers[k] == counter + k + 1) &&
      (s.outcome.Closed? ==> s.counter == counter + |Acquired(camera)| && |s.emitted| == |Acquired(camera)|) &&
      s.outcome != RaisedOnEmptyRead
  {
    SkippingIgnoresFailedReads(background, compose, camera, counter);
    PollCounts(background, compose, Acquired(camera), counter);
    PollStopsAtFailedRead(background, compose, Acquired(camera), counter);
  }

  /** Output collected so far followed by a later state's output. */
  lemma PrependTwice(e1: seq<Frame>, n1: seq<int>, e2: seq<Frame>, n2: seq<int>, s: PumpState)
    ensures Prepend(e1, n1, Prepend(e2, n2, s)) == Prepend(e1 + e2, n1 + n2, s)
    ensures Prepend(e1, n1, PumpState(s.background, s.counter, [], n2, s.outcome))
      == PumpState(s.background, s.counter, e1, n1 + n2, s.outcome)
  {
  }

  /** poll as written, over a finite run of camera reads. Returns what the
      spec function describes; `frameNumbers` records the frame_no each
      iteration computed. */
  method Poll(background: Background, effects: Effects, segment: Frame -> Mask,
              camera: seq<Option<Frame>>, frameCounter: int)
    returns (emitted: seq<Frame>, frameNumbers: seq<int>, counter: int, outcome: Outcome)
    modifies background
    ensures PumpState(background.backgroundImage, counter, emitted, frameNumbers, outcome)
      == PollRun(old(background.backgroundImage), FrameStep(effects, segment), camera, frameCounter)
  {
    ghost var step := FrameStep(effects, segment);
    ghost var whole := PollRun(background.backgroundImage, step, camera, frameCounter);
    emitted, frameNumbers, counter, outcome := [], [], frameCounter, Closed;
    var i := 0;
    while i < |camera|
      invariant 0 <= i <= |camera|
      invariant whole == Prepend(emitted, frameNumbers, PollRun(background.backgroundImage, step, camera[i..], counter))
      decreases |camera| - i
    {
      ghost var stored, done, numbered := background.backgroundImage, emitted, frameNumbers;
      ghost var rest := PollRun(stored, step, camera[i..], counter);
      assert camera[i..][0] == camera[i] && camera[i..][1..] == camera[i + 1..];
      var frame := camera[i];
      var frameNo := counter + 1;
      counter := frameNo;
      frameNumbers := frameNumbers + [frameNo];
      if frame.None? {
        assert rest == PumpState(stored, frameNo, [], [frameNo], RaisedOnEmptyRead);
        PrependTwice(done, numbered, [], [frameNo], rest);
        outcome := RaisedOnEmptyRead;
        return;
      }
      ghost var used := ResolvedBackground(stored, frame.value);
      var composed := background.FrameWithBackground(frame.value, segment(frame.value), effects, frameNo);
      assert composed == step(frame.value, frameNo, used);
      if composed.Err? {
        assert rest == PumpState(Some(used), frameNo, [], [frameNo], Raised(composed.error));
        PrependTwice(done, numbered, [], [frameNo], rest);
        outcome := Raised(composed.error);
        return;
      }
      ghost var next := PollRun(Some(used), step, camera[i + 1..], frameNo);
      assert rest == Prepend([composed.value], [frameNo], next);
      PrependTwice(done, numbered, [composed.value], [frameNo], next);
      emitted := emitted + [composed.value];
      i := i + 1;
    }
  }

  /** poll with failed reads logged and skipped without touching the counter. */
  method PollSkippingEmpty(background: Background, effects: Effects, segment: Frame -> Mask,
                           camera: seq<Option<Frame>>, frameCounter: int)
    returns (emitted: seq<Frame>, frameNumbers: seq<int>, counter: int, outcome: Outcome)
    modifies background
    ensures PumpState(background.backgroundImage, counter, emitted, frameNumbers, outcome)
      == PollRunSkipping(old(background.backgroundImage), FrameStep(effects, segment), camera, frameCounter)
  {
    ghost var step := FrameStep(effects, segment);
    ghost var whole := PollRunSkipping(background.backgroundImage, step, camera, frameCounter);
    emitted, frameNumbers, counter, outcome := [], [], frameCounter, Closed;
    var i := 0;
    while i < |camera|
      invariant 0 <= i <= |camera|
      invariant whole == Prepend(emitted, frameNumbers, PollRunSkipping(background.backgroundImage, step, camera[i..], counter))
      decreases |camera| - i
    {
      ghost var stored, done, numbered := background.backgroundImage, emitted, frameNumbers;
      ghost var rest := PollRunSkipping(stored, step, camera[i..], counter);
      assert camera[i..][0] == camera[i] && camera[i..][1..] == camera[i + 1..];
      var frame := camera[i];
      if frame.Some? {
        var frameNo := counter + 1;
        counter := frameNo;
        frameNumbers := frameNumbers + [frameNo];
        ghost var used := ResolvedBackground(stored, frame.value);
        var composed := background.FrameWithBackground(frame.value, segment(frame.value), effects, frameNo);
        assert composed == step(frame.value, frameNo, used);
        if composed.Err? {
          assert rest == PumpState(Some(used), frameNo, [], [frameNo], Raised(composed.error));
          PrependTwice(done, numbered, [], [frameNo], rest);
          outcome := Raised(composed.error);
          return;
        }
        ghost var next := PollRunSkipping(Some(used), step, camera[i + 1..], frameNo);
        assert rest == Prepend([composed.value], [frameNo], next);
        PrependTwice(done, numbered, [composed.value], [frameNo], next);
        emitted := emitted + [composed.value];
      } else {
        assert rest == PollRunSkipping(stored, step, camera[i + 1..], counter);
      }
      i := i + 1;
    }
  }
}
