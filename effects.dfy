/**
 * The optional effect chain: Effects.apply_effects and the EffectApplicator
 * whose methods overwrite `current_frame` one effect at a time. The pixel
 * work of each effect is an abstract transform; what is modelled is which
 * effects run, in which order, and the film-jitter offset.
 */
module EffectChain {
  import opened Frames

  datatype Effect = Sepia | FilmJitter | Noise

  /** The transforms OpenCV and numpy carry out, kept abstract: the sepia
      colour matrix, the vertical translation by a given offset, the noise. */
  datatype Transforms = Transforms(
    sepia: Frame -> Frame,
    translate: (Frame, real) -> Frame,
    noise: Frame -> Frame)

  /** What an applicator knows besides the frame: the frame number, the
      configured height and the transforms. */
  datatype Context = Context(frameNo: int, height: int, transforms: Transforms)

  /** Position of each effect in the fixed order sepia → film jitter → noise. */
  function Rank(e: Effect): nat
  {
    match e
    case Sepia => 0
    case FilmJitter => 1
    case Noise => 2
  }

  /** The vertical offset film_jittering_applicator translates by: height/160
      pixels, downwards on even frame numbers and upwards on odd ones. */
  function JitterHeight(frameNo: int, height: int): (r: real)
    ensures height >= 0 ==> (if r < 0.0 then -r else r) == height as real / 160.0
    ensures height > 0 ==> (r > 0.0 <==> frameNo % 2 == 0)
    ensures height > 0 ==> (r < 0.0 <==> frameNo % 2 == 1)
  {
    if frameNo % 2 == 0 then height as real / 160.0 else -(height as real / 160.0)
  }

  /** Consecutive frame numbers get opposite offsets, numbers two apart the
      same one, and the first frame of the pump (number 1) moves up. */
  lemma JitterAlternates(frameNo: int, height: int)
    ensures JitterHeight(frameNo + 1, height) == -JitterHeight(frameNo, height)
    ensures JitterHeight(frameNo + 2, height) == JitterHeight(frameNo, height)
    ensures height > 0 ==> JitterHeight(1, height) < 0.0
  {
  }

  /** One applicator method's effect on the current frame. */
  function Apply(e: Effect, f: Frame, ctx: Context): Frame
  {
    match e
    case Sepia => ctx.transforms.sepia(f)
    case FilmJitter => ctx.transforms.translate(f, JitterHeight(ctx.frameNo, ctx.height))
    case Noise => ctx.transforms.noise(f)
  }

  /** The frame after the given effects have run, first to last. */
  function Run(effects: seq<Effect>, f: Frame, ctx: Context): Frame
    decreases |effects|
  {
    if effects == [] then f else Run(effects[1..], Apply(effects[0], f, ctx), ctx)
  }

  /** Running one more effect applies it to what the earlier ones produced. */
  lemma {:induction false} RunSnoc(effects: seq<Effect>, e: Effect, f: Frame, ctx: Context)
    ensures Run(effects + [e], f, ctx) == Apply(e, Run(effects, f, ctx), ctx)
    decreases |effects|
  {
    if effects == [] {
      assert [e][1..] == [];
    } else {
      assert (effects + [e])[1..] == effects[1..] + [e];
      RunSnoc(effects[1..], e, Apply(effects[0], f, ctx), ctx);
    }
  }

  /** The effects apply_effects runs for the given toggles. */
  function Enabled(sepia: bool, filmJitter: bool, noise: bool): (r: seq<Effect>)
    ensures Ordered(r)
    ensures Sepia in r <==> sepia
    ensures FilmJitter in r <==> filmJitter
    ensures Noise in r <==> noise
  {
    (if sepia then [Sepia] else []) +
    (if filmJitter then [FilmJitter] else []) +
    (if noise then [Noise] else [])
  }

  /** Each effect comes after every effect of lower rank. */
  predicate Ordered(s: seq<Effect>)
  {
    forall i, j :: 0 <= i < j < |s| ==> Rank(s[i]) < Rank(s[j])
  }

  /** Two ordered lists holding the same effects are the same list. */
  lemma {:induction false} OrderedUnique(s: seq<Effect>, r: seq<Effect>)
    requires Ordered(s) && Ordered(r)
    requires forall e :: e in s <==> e in r
    ensures s == r
    decreases |s|
  {
    assert s != [] ==> s[0] in r;
    assert r != [] ==> r[0] in s;
    if s == [] || r == [] {
      // then both are empty
    } else {
      assert s[0] == r[0] by {
        assert s[0] in r && r[0] in s;
        var i :| 0 <= i < |r| && r[i] == s[0];
        var j :| 0 <= j < |s| && s[j] == r[0];
        assert Rank(r[0]) <= Rank(s[0]) && Rank(s[0]) <= Rank(r[0]);
      }
      forall e
        ensures e in s[1..] <==> e in r[1..]
      {
        if e in s[1..] {
          var i :| 1 <= i < |s| && s[i] == e;
          assert e in s;
          var k :| 0 <= k < |r| && r[k] == e;
          assert k != 0 && r[1..][k - 1] == e;
        }
        if e in r[1..] {
          var i :| 1 <= i < |r| && r[i] == e;
          assert e in r;
          var k :| 0 <= k < |s| && s[k] == e;
          assert k != 0 && s[1..][k - 1] == e;
        }
      }
      OrderedUnique(s[1..], r[1..]);
    }
  }

  /** The order is fixed: any list of effects in sepia → film jitter → noise
      order holding exactly the toggled effects is the one apply_effects runs. */
  lemma OrderIsFixed(s: seq<Effect>, sepia: bool, filmJitter: bool, noise: bool)
    requires Ordered(s)
    requires (Sepia in s <==> sepia) && (FilmJitter in s <==> filmJitter) && (Noise in s <==> noise)
    ensures s == Enabled(sepia, filmJitter, noise)
  {
    var r := Enabled(sepia, filmJitter, noise);
    forall e
      ensures e in s <==> e in r
    {
      match e
      case Sepia =>
      case FilmJitter =>
      case Noise =>
    }
    OrderedUnique(s, r);
  }

  /** The chain with the toggles spelled out: sepia if on, then the jitter
      translation if on, then noise if on; with every toggle off the frame
      comes back unchanged. */
  lemma ChainOrder(sepia: bool, filmJitter: bool, noise: bool, f: Frame, ctx: Context)
    ensures var t := ctx.transforms;
      var afterSepia := if sepia then t.sepia(f) else f;
      var afterJitter := if filmJitter then t.translate(afterSepia, JitterHeight(ctx.frameNo, ctx.height)) else afterSepia;
      Run(Enabled(sepia, filmJitter, noise), f, ctx) == (if noise then t.noise(afterJitter) else afterJitter)
    ensures !sepia && !filmJitter && !noise ==> Run(Enabled(sepia, filmJitter, noise), f, ctx) == f
  {
    var t := ctx.transforms;
    var e0: seq<Effect> := if sepia then [Sepia] else [];
    var e1 := e0 + (if filmJitter then [FilmJitter] else []);
    var e2 := e1 + (if noise then [Noise] else []);
    assert e2 == Enabled(sepia, filmJitter, noise);
    var afterSepia := if sepia then t.sepia(f) else f;
    var afterJitter := if filmJitter then t.translate(afterSepia, JitterHeight(ctx.frameNo, ctx.height)) else afterSepia;
    if sepia { RunSnoc([], Sepia, f, ctx); }
    assert Run(e0, f, ctx) == afterSepia;
    if filmJitter { RunSnoc(e0, FilmJitter, f, ctx); } else { assert e1 == e0; }
    assert Run(e1, f, ctx) == afterJitter;
    if noise { RunSnoc(e1, Noise, f, ctx); } else { assert e2 == e1; }
  }

  /** Effects.apply_effects's view of the toggles and of the state it hands
      to each applicator. */
  class Effects {
    const sepia: bool
    const filmJitter: bool
    const noise: bool
    const width: int
    const height: int
    const transforms: Transforms

    constructor (sepia: bool, filmJitter: bool, noise: bool, width: int, height: int, transforms: Transforms)
      ensures this.sepia == sepia && this.filmJitter == filmJitter && this.noise == noise
      ensures this.width == width && this.height == height && this.transforms == transforms
    {
      this.sepia := sepia;
      this.filmJitter := filmJitter;
      this.noise := noise;
      this.width := width;
      this.height := height;
      this.transforms := transforms;
    }

    /** The frame apply_effects leaves in its applicator; with every toggle
        off it is the frame passed in. */
    function Chain(frame: Frame, frameNo: int): (r: Frame)
      ensures !sepia && !filmJitter && !noise ==> r == frame
    {
      Run(Enabled(sepia, filmJitter, noise), frame, Context(frameNo, height, transforms))
    }

    method ApplyEffects(currentFrame: Frame, frameNo: int) returns (applicator: EffectApplicator)
      ensures fresh(applicator) && applicator.Valid()
      ensures applicator.input == currentFrame && applicator.frameNo == frameNo
      ensures applicator.width == width && applicator.height == height
      ensures applicator.transforms == transforms
      ensures applicator.applied == Enabled(sepia, filmJitter, noise)
      ensures applicator.currentFrame == Chain(currentFrame, frameNo)
    {
      applicator := new EffectApplicator(currentFrame, frameNo, width, height, transforms);
      if sepia {
        applicator.SepiaApplicator();
      }
      if filmJitter {
        applicator.FilmJitteringApplicator();
      }
      if noise {
        applicator.NoiseApplicator();
      }
    }
  }

  /** The state one frame goes through while its effects run. `input` and
      `applied` record, for the proof, the frame it started from and the
      effects run so far. */
  class EffectApplicator {
    var currentFrame: Frame
    const frameNo: int
    const width: int
    const height: int
    const transforms: Transforms
    ghost const input: Frame
    ghost var applied: seq<Effect>

    function Ctx(): Context
    {
      Context(frameNo, height, transforms)
    }

    ghost predicate Valid()
      reads this
    {
      currentFrame == Run(applied, input, Ctx())
    }

    constructor (currentFrame: Frame, frameNo: int, width: int, height: int, transforms: Transforms)
      ensures Valid() && applied == [] && input == currentFrame
      ensures this.currentFrame == currentFrame && this.frameNo == frameNo
      ensures this.width == width && this.height == height && this.transforms == transforms
    {
      this.currentFrame := currentFrame;
      this.frameNo := frameNo;
      this.width := width;
      this.height := height;
      this.transforms := transforms;
      input := currentFrame;
      applied := [];
    }

    method SepiaApplicator()
      requires Valid()
      modifies this
      ensures Valid() && applied == old(applied) + [Sepia]
      ensures currentFrame == transforms.sepia(old(currentFrame))
    {
      RunSnoc(applied, Sepia, input, Ctx());
      currentFrame := transforms.sepia(currentFrame);
      applied := applied + [Sepia];
    }

    method FilmJitteringApplicator()
      requires Valid()
      modifies this
      ensures Valid() && applied == old(applied) + [FilmJitter]
      ensures currentFrame == transforms.translate(old(currentFrame), JitterHeight(frameNo, height))
    {
      RunSnoc(applied, FilmJitter, input, Ctx());
      var jitterHeight := JitterHeight(frameNo, height);
      currentFrame := transforms.translate(currentFrame, jitterHeight);
      applied := applied + [FilmJitter];
    }

    method NoiseApplicator()
      requires Valid()
      modifies this
      ensures Valid() && applied == old(applied) + [Noise]
      ensures currentFrame == transforms.noise(old(currentFrame))
    {
      RunSnoc(applied, Noise, input, Ctx());
      currentFrame := transforms.noise(currentFrame);
      applied := applied + [Noise];
    }
  }
}
