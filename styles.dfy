/**
 * The five animation styles and the per-unit schedule each one launches:
 * a start delay of index * stagger, and a style-specific effect whose length
 * is derived from the configured duration.
 */
module Styles {
  import opened Config

  datatype Style = FadeInUp | FlyInLeft | ZoomIn | Typewriter | Decoder

  function StyleName(s: Style): string {
    match s
    case FadeInUp => "fadeInUp"
    case FlyInLeft => "flyInLeft"
    case ZoomIn => "zoomIn"
    case Typewriter => "typewriter"
    case Decoder => "decoder"
  }

  predicate IsStyleName(name: string) {
    name == "fadeInUp" || name == "flyInLeft" || name == "zoomIn"
    || name == "typewriter" || name == "decoder"
  }

  /** The switch in runAnimation: an unrecognised name falls back to fadeInUp. */
  function ParseStyle(name: string): (s: Style)
    ensures IsStyleName(name) ==> StyleName(s) == name
    ensures !IsStyleName(name) ==> s == FadeInUp
  {
    match name
    case "flyInLeft" => FlyInLeft
    case "zoomIn" => ZoomIn
    case "typewriter" => Typewriter
    case "decoder" => Decoder
    case _ => FadeInUp
  }

  /** Every style is selected by its own name. */
  lemma ParseStyleName(s: Style)
    ensures ParseStyle(StyleName(s)) == s
  {
  }

  /** The start delay of unit i: i * stagger milliseconds. */
  function Delay(i: nat, stagger: int): (d: int)
    ensures i == 0 ==> d == 0
    ensures 0 <= stagger ==> 0 <= d
  {
    i * stagger
  }

  /** With a non-negative stagger a later unit never starts before an earlier one,
      and consecutive units start exactly one stagger apart. */
  lemma DelayMonotone(i: nat, j: nat, stagger: int)
    requires 0 <= stagger && i <= j
    ensures Delay(i, stagger) <= Delay(j, stagger)
    ensures Delay(i + 1, stagger) == Delay(i, stagger) + stagger
  {
    assert Delay(j, stagger) - Delay(i, stagger) == (j - i) * stagger;
  }

  /** The typewriter pop-in length, Math.max(120, Math.min(duration, 600)). */
  function TypewriterPopDuration(duration: int): (r: int)
    ensures 120 <= r <= 600
    ensures 120 <= duration <= 600 ==> r == duration
    ensures duration < 120 ==> r == 120
    ensures 600 < duration ==> r == 600
  {
    Max(120, Min(duration, 600))
  }

  /** The decoder's scramble step count, Math.max(6, Math.min(24, Math.floor(duration / 30))).
      Dafny's division by the positive constant 30 rounds down, as Math.floor does. */
  function ScrambleSteps(duration: int): (r: int)
    ensures 6 <= r <= 24
    ensures 180 <= duration < 750 ==> r == duration / 30 && r * 30 <= duration < r * 30 + 30
    ensures duration < 180 ==> r == 6
    ensures 750 <= duration ==> r == 24
  {
    Max(6, Min(24, duration / 30))
  }

  /** A 300 ms duration gives ten scramble steps. */
  lemma ScrambleStepsExample()
    ensures ScrambleSteps(300) == 10
  {
  }

  /** The transform each of the fade/slide/zoom family starts from. */
  datatype Motion = RiseUp | FromLeft | Grow

  /** What one unit plays once its delay has elapsed. */
  datatype Effect =
    | Keyframes(motion: Motion, length: int)  // opacity 0 to 1 with a transform, `length` ms
    | Pop(length: int)                        // the typewriter pop-in
    | Scramble(steps: int)                    // the decoder: `steps` random glyphs, then settle

  datatype Cue = Cue(delay: int, effect: Effect)

  /** The fade/slide/zoom family plays for the configured duration; the typewriter
      pop lasts 120 to 600 ms; the decoder scrambles 6 to 24 times. */
  function EffectOf(style: Style, duration: int): (e: Effect)
    ensures style == FadeInUp ==> e == Keyframes(RiseUp, duration)
    ensures style == FlyInLeft ==> e == Keyframes(FromLeft, duration)
    ensures style == ZoomIn ==> e == Keyframes(Grow, duration)
    ensures style == Typewriter ==> e.Pop? && 120 <= e.length <= 600
    ensures style == Typewriter && 120 <= duration <= 600 ==> e == Pop(duration)
    ensures style == Decoder ==> e.Scramble? && 6 <= e.steps <= 24
  {
    match style
    case FadeInUp => Keyframes(RiseUp, duration)
    case FlyInLeft => Keyframes(FromLeft, duration)
    case ZoomIn => Keyframes(Grow, duration)
    case Typewriter => Pop(TypewriterPopDuration(duration))
    case Decoder => Scramble(ScrambleSteps(duration))
  }

  /** The cue each of the style's routines gives unit i of n (the `spans.map((span, i) => ...)`). */
  function Plan(style: Style, n: nat, duration: int, stagger: int): (p: seq<Cue>)
    ensures |p| == n
  {
    seq(n, i requires 0 <= i < n => Cue(Delay(i, stagger), EffectOf(style, duration)))
  }

  /** In every style unit i is cued exactly i * stagger after the start, so with a
      non-negative stagger start times never decrease with the index; every unit
      plays the same effect. */
  lemma PlanSchedule(style: Style, n: nat, duration: int, stagger: int)
    ensures |Plan(style, n, duration, stagger)| == n
    ensures forall i :: 0 <= i < n ==> Plan(style, n, duration, stagger)[i].delay == i * stagger
    ensures 0 <= stagger ==> forall i, j :: 0 <= i <= j < n ==>
              Plan(style, n, duration, stagger)[i].delay <= Plan(style, n, duration, stagger)[j].delay
    ensures forall i :: 0 <= i < n ==> Plan(style, n, duration, stagger)[i].effect == EffectOf(style, duration)
  {
    var p := Plan(style, n, duration, stagger);
    if 0 <= stagger {
      forall i, j | 0 <= i <= j < n ensures p[i].delay <= p[j].delay {
        DelayMonotone(i, j, stagger);
      }
    }
  }

  /** "Hi" with fadeInUp, 500 ms and 60 ms stagger: H at 0 ms, i at 60 ms, each 500 ms long. */
  lemma HiExample()
    ensures Plan(FadeInUp, 2, 500, 60) == [Cue(0, Keyframes(RiseUp, 500)), Cue(60, Keyframes(RiseUp, 500))]
  {
  }

  /** animateFadeInUp: span i rises 20px into place, fading in, for `duration` ms
      after i * stagger ms. */
  function AnimateFadeInUp(spans: seq<nat>, duration: int, stagger: int): seq<Cue> {
    seq(|spans|, i requires 0 <= i < |spans| => Cue(i * stagger, Keyframes(RiseUp, duration)))
  }

  /** animateFlyInLeft: span i slides in from 30px to the left. */
  function AnimateFlyInLeft(spans: seq<nat>, duration: int, stagger: int): seq<Cue> {
    seq(|spans|, i requires 0 <= i < |spans| => Cue(i * stagger, Keyframes(FromLeft, duration)))
  }

  /** animateZoomIn: span i grows from 60% to full size. */
  function AnimateZoomIn(spans: seq<nat>, duration: int, stagger: int): seq<Cue> {
    seq(|spans|, i requires 0 <= i < |spans| => Cue(i * stagger, Keyframes(Grow, duration)))
  }

  /** animateTypewriter: a timer fires after i * stagger ms and span i pops in. */
  function AnimateTypewriter(spans: seq<nat>, duration: int, stagger: int): seq<Cue> {
    seq(|spans|, i requires 0 <= i < |spans| => Cue(i * stagger, Pop(TypewriterPopDuration(duration))))
  }

  /** animateDecoder: span i starts scrambling i * stagger ms after its own clock
      reading (see Decode.Jobs). */
  function AnimateDecoder(spans: seq<nat>, duration: int, stagger: int): seq<Cue> {
    var steps := ScrambleSteps(duration);
    seq(|spans|, i requires 0 <= i < |spans| => Cue(i * stagger, Scramble(steps)))
  }

  /** Each routine cues its spans exactly as its style's plan says. */
  lemma RoutinesMatchPlan(spans: seq<nat>, duration: int, stagger: int)
    ensures AnimateFadeInUp(spans, duration, stagger) == Plan(FadeInUp, |spans|, duration, stagger)
    ensures AnimateFlyInLeft(spans, duration, stagger) == Plan(FlyInLeft, |spans|, duration, stagger)
    ensures AnimateZoomIn(spans, duration, stagger) == Plan(ZoomIn, |spans|, duration, stagger)
    ensures AnimateTypewriter(spans, duration, stagger) == Plan(Typewriter, |spans|, duration, stagger)
    ensures AnimateDecoder(spans, duration, stagger) == Plan(Decoder, |spans|, duration, stagger)
  {
    var n := |spans|;
    forall i | 0 <= i < n ensures Delay(i, stagger) == i * stagger { }
  }
}
