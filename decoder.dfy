/**
 * The decoder (scramble) style, one unit at a time. Each animation frame
 * calls tick with the frame's time `now`; before the unit's start time it
 * does nothing, a white-space unit is shown and resolves at once, any other
 * unit shows one random glyph of the charset per frame for `steps` frames
 * and then settles on its final glyph and resolves. The random draw is the
 * frame's `pick`, an index into the charset.
 *
 * Next is the specification of one tick; ScrambleUnit.Tick is the per-frame
 * update of a unit's fields and is proved to follow it.
 */
module Decode {
  import opened Text
  import opened Config
  import opened Styles

  const Charset: string := "ABCDEFGHIJKLMNOPQRSTUVWXYZ0123456789!@#$%^&*"

  /** `finalChar.trim().length === 0`: the unit is not scrambled. */
  predicate Skippable(c: char) {
    Trim([c]) == []
  }

  /** A unit is skipped exactly when its final glyph is white space. */
  lemma SkippableIff(c: char)
    ensures Skippable(c) <==> IsWhitespace(c)
  {
    TrimEmptyIff([c]);
  }

  /** What a unit's scramble is set up with: its final glyph, the time it may
      start (`performance.now() + i * stagger`), and the run's step count. */
  datatype Job = Job(final: char, startTime: int, steps: int)

  /** The state tick updates: the step counter, the glyph shown, the opacity,
      and whether the unit's promise has been resolved. */
  datatype UnitState = UnitState(step: int, displayed: char, visible: bool, resolved: bool)

  /** One animation frame: its timestamp and the charset index drawn in it. */
  datatype Frame = Frame(now: int, pick: nat)

  predicate ValidFrames(frames: seq<Frame>) {
    forall j :: 0 <= j < |frames| ==> frames[j].pick < |Charset|
  }

  /** A freshly built span: no steps taken, its own glyph, invisible. */
  function Initial(job: Job): UnitState {
    UnitState(0, job.final, false, false)
  }

  /** One call of tick. The settle pop is an opaque animation that ends
      with the unit at rest, so settling resolves the unit. */
  function Next(job: Job, s: UnitState, f: Frame): (t: UnitState)
    requires f.pick < |Charset|
    ensures s.step <= t.step <= s.step + 1
    ensures t.step != s.step ==> t.displayed in Charset && t.visible
    ensures s.resolved ==> t.resolved
    ensures s.visible ==> t.visible
  {
    if f.now < job.startTime then s
    else if Skippable(job.final) then s.(visible := true, resolved := true)
    else if s.step < job.steps then
      s.(step := s.step + 1, displayed := Charset[f.pick], visible := true)
    else s.(displayed := job.final, resolved := true)
  }

  /** The frames the unit sees: tick runs on each until the unit resolves. */
  function Run(job: Job, s: UnitState, frames: seq<Frame>): (t: UnitState)
    requires ValidFrames(frames)
    ensures s.step <= t.step
    ensures s.resolved ==> t == s
    ensures s.visible ==> t.visible
    decreases |frames|
  {
    if frames == [] || s.resolved then s
    else Run(job, Next(job, s, frames[0]), frames[1..])
  }

  /** The random glyphs shown during those frames, in order. */
  function Scrambled(job: Job, s: UnitState, frames: seq<Frame>): string
    requires ValidFrames(frames)
    decreases |frames|
  {
    if frames == [] || s.resolved then []
    else
      var t := Next(job, s, frames[0]);
      (if t.step != s.step then [t.displayed] else []) + Scrambled(job, t, frames[1..])
  }

  /** The number of frames at or after the start time. */
  function Active(start: int, frames: seq<Frame>): nat {
    if frames == [] then 0
    else (if frames[0].now >= start then 1 else 0) + Active(start, frames[1..])
  }

  /** Before the start time tick changes nothing. */
  lemma {:induction false} IdleBeforeStart(job: Job, s: UnitState, frames: seq<Frame>)
    requires ValidFrames(frames)
    requires forall j :: 0 <= j < |frames| ==> frames[j].now < job.startTime
    ensures Run(job, s, frames) == s
    ensures Scrambled(job, s, frames) == []
  {
    if frames != [] && !s.resolved {
      IdleBeforeStart(job, s, frames[1..]);
    }
  }

  /** A white-space unit resolves, visible, on its first frame at or after the start
      time, shows no random glyph, and never displays anything but its final glyph. */
  lemma {:induction false} WhitespaceRun(job: Job, s: UnitState, frames: seq<Frame>)
    requires ValidFrames(frames) && IsWhitespace(job.final)
    requires !s.resolved && s.displayed == job.final
    ensures Run(job, s, frames).displayed == job.final
    ensures Scrambled(job, s, frames) == []
    ensures Run(job, s, frames).resolved <==> Active(job.startTime, frames) > 0
    ensures Run(job, s, frames).resolved ==> Run(job, s, frames).visible
    ensures Run(job, s, frames).step == s.step
    decreases |frames|
  {
    SkippableIff(job.final);
    if frames != [] {
      if frames[0].now < job.startTime {
        WhitespaceRun(job, s, frames[1..]);
      } else {
        var t := Next(job, s, frames[0]);
        assert t.resolved;
      }
    }
  }

  /** A unit with a visible glyph, from any reachable state: it shows one random
      glyph of the charset per active frame until `steps` have been shown, the
      counter never passes `steps`, and it resolves, on its final glyph,
      exactly when it has seen more active frames than steps remained. */
  lemma {:induction false} ScrambleRun(job: Job, s: UnitState, frames: seq<Frame>)
    requires ValidFrames(frames) && !IsWhitespace(job.final)
    requires !s.resolved && 0 <= s.step <= job.steps
    ensures |Scrambled(job, s, frames)| == Min(Active(job.startTime, frames), job.steps - s.step)
    ensures Run(job, s, frames).step == s.step + |Scrambled(job, s, frames)| <= job.steps
    ensures forall c :: c in Scrambled(job, s, frames) ==> c in Charset
    ensures Run(job, s, frames).resolved <==> Active(job.startTime, frames) > job.steps - s.step
    ensures Run(job, s, frames).resolved ==> Run(job, s, frames).displayed == job.final
    ensures (s.visible || s.step < job.steps) && Run(job, s, frames).resolved ==>
              Run(job, s, frames).visible
    decreases |frames|
  {
    SkippableIff(job.final);
    if frames != [] {
      var f := frames[0];
      var t := Next(job, s, f);
      assert ValidFrames(frames[1..]);
      if f.now < job.startTime {
        ScrambleRun(job, s, frames[1..]);
      } else if s.step < job.steps {
        assert t.displayed == Charset[f.pick];
        ScrambleRun(job, t, frames[1..]);
      } else {
        assert t.resolved && t.step == s.step;
      }
    }
  }

  /** From a freshly built span with the step count of a real run (6 to 24):
      once resolved, exactly `steps` random glyphs were shown, all from the
      charset, and the unit rests visible on its final glyph. */
  lemma DecodeFromStart(job: Job, frames: seq<Frame>)
    requires ValidFrames(frames) && !IsWhitespace(job.final)
    requires 6 <= job.steps <= 24
    ensures Run(job, Initial(job), frames).resolved <==> Active(job.startTime, frames) > job.steps
    ensures Run(job, Initial(job), frames).resolved ==>
              |Scrambled(job, Initial(job), frames)| == job.steps
              && Run(job, Initial(job), frames).displayed == job.final
              && Run(job, Initial(job), frames).visible
  {
    ScrambleRun(job, Initial(job), frames);
  }

  /** The jobs animateDecoder sets up for spans with these final glyphs: unit i
      reads the clock (`now[i]`) when its promise is created and starts
      i * stagger ms after that reading. */
  function Jobs(finals: string, now: seq<int>, duration: int, stagger: int): (jobs: seq<Job>)
    requires |now| == |finals|
    ensures |jobs| == |finals|
  {
    seq(|finals|, i requires 0 <= i < |finals| =>
      Job(finals[i], now[i] + Delay(i, stagger), ScrambleSteps(duration)))
  }

  /** Unit i may start i * stagger after its own clock reading and scrambles as
      often as the decoder style's cue says. */
  lemma JobsMatchPlan(finals: string, now: seq<int>, duration: int, stagger: int)
    requires |now| == |finals|
    ensures forall i :: 0 <= i < |finals| ==>
              var job := Jobs(finals, now, duration, stagger)[i];
              var cue := Plan(Decoder, |finals|, duration, stagger)[i];
              job.startTime == now[i] + cue.delay && cue.effect == Scramble(job.steps)
              && job.final == finals[i] && 6 <= job.steps <= 24
  {
    PlanSchedule(Decoder, |finals|, duration, stagger);
  }

  /** The clock never runs backwards while the spans are mapped, so with a
      non-negative stagger a later unit never starts before an earlier one. */
  lemma JobsInOrder(finals: string, now: seq<int>, duration: int, stagger: int)
    requires |now| == |finals| && 0 <= stagger
    requires forall i, j :: 0 <= i <= j < |now| ==> now[i] <= now[j]
    ensures forall i, j :: 0 <= i <= j < |finals| ==>
              Jobs(finals, now, duration, stagger)[i].startTime
              <= Jobs(finals, now, duration, stagger)[j].startTime
  {
    forall i, j | 0 <= i <= j < |finals|
      ensures Jobs(finals, now, duration, stagger)[i].startTime
              <= Jobs(finals, now, duration, stagger)[j].startTime
    {
      DelayMonotone(i, j, stagger);
    }
  }

  /** One span under the decoder style, with the state tick keeps across frames. */
  class ScrambleUnit {
    const job: Job
    var step: int
    var displayed: char
    var visible: bool
    var resolved: bool

    function State(): UnitState
      reads this
    {
      UnitState(step, displayed, visible, resolved)
    }

    constructor (final: char, startTime: int, steps: int)
      ensures job == Job(final, startTime, steps)
      ensures State() == Initial(job)
    {
      job := Job(final, startTime, steps);
      step := 0;
      displayed := final;
      visible := false;
      resolved := false;
    }

    /** tick(now): returns whether another frame is requested. */
    method Tick(now: int, pick: nat) returns (again: bool)
      requires !resolved && pick < |Charset|
      modifies this
      ensures State() == Next(job, old(State()), Frame(now, pick))
      ensures again == !resolved
    {
      if now < job.startTime {
        return true;
      }
      if Skippable(job.final) {
        visible := true;
        resolved := true;
        return false;
      }
      if step < job.steps {
        displayed := Charset[pick];
        visible := true;
        step := step + 1;
        again := true;
      } else {
        displayed := job.final;
        resolved := true;
        again := false;
      }
    }

    /** The requestAnimationFrame chain: tick once per frame until resolved. */
    method Animate(frames: seq<Frame>)
      requires ValidFrames(frames) && !resolved
      modifies this
      ensures State() == Run(job, old(State()), frames)
    {
      var j := 0;
      while j < |frames| && !resolved
        invariant 0 <= j <= |frames|
        invariant Run(job, State(), frames[j..]) == Run(job, old(State()), frames)
      {
        assert frames[j..][1..] == frames[j + 1..];
        var again := Tick(frames[j].now, frames[j].pick);
        j := j + 1;
      }
    }
  }
}
