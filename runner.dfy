/**
 * runAnimation: normalise the controls, refuse a blank text, otherwise
 * disable the trigger button, rebuild the canvas, run exactly one style
 * routine and, however it ends, report the outcome and enable the button.
 */
module Runner {
  import opened Wrappers
  import opened Text
  import opened Config
  import opened Decomposer
  import opened Surface
  import opened Styles

  const EmptyMessage := "Please enter some text to animate."
  const StartMessage := "Animating..."
  const DoneMessage := "Done!"
  const FailMessage := "Something went wrong while animating."

  /** How the awaited style routine ended: it settled, or it threw. */
  datatype Outcome = Succeeded | Threw

  class Animator {
    var disabled: bool
    var toasts: seq<string>
    const canvas: Canvas

    constructor ()
      ensures !disabled && toasts == []
      ensures fresh(canvas) && canvas.items == []
    {
      disabled := false;
      toasts := [];
      canvas := new Canvas();
    }

    /** The message box: each toast shows one message. */
    method Toast(message: string)
      modifies this`toasts
      ensures toasts == old(toasts) + [message]
    {
      toasts := toasts + [message];
    }

    /** The `switch (style)` of the try block: the selected style's routine
        cues every span, and its promise settles or throws as `outcome` says.
        Whichever routine runs, its cues are the style's plan. */
    method PlayStyle(style: Style, spans: seq<nat>, duration: int, stagger: int, outcome: Outcome)
      returns (plan: seq<Cue>, ok: bool)
      requires disabled
      ensures plan == Plan(style, |spans|, duration, stagger)
      ensures ok <==> outcome == Succeeded
    {
      RoutinesMatchPlan(spans, duration, stagger);
      match style {
        case FadeInUp => plan := AnimateFadeInUp(spans, duration, stagger);
        case FlyInLeft => plan := AnimateFlyInLeft(spans, duration, stagger);
        case ZoomIn => plan := AnimateZoomIn(spans, duration, stagger);
        case Typewriter => plan := AnimateTypewriter(spans, duration, stagger);
        case Decoder => plan := AnimateDecoder(spans, duration, stagger);
      }
      ok := outcome == Succeeded;
    }

    /** One run. `ran` is the style routine that ran, `plan` the cues it gave the spans. */
    method RunAnimation(controls: Controls, outcome: Outcome) returns (ran: Option<Style>, plan: seq<Cue>)
      modifies this, canvas
      ensures var s := Normalise(controls);
        IsBlank(s.text) ==>
          ran == None && plan == []
          && disabled == old(disabled)
          && toasts == old(toasts) + [EmptyMessage]
          && unchanged(canvas)
      ensures var s := Normalise(controls);
        !IsBlank(s.text) ==>
          ran == Some(ParseStyle(s.style))
          && !disabled
          && toasts == old(toasts) + [StartMessage, if outcome == Succeeded then DoneMessage else FailMessage]
          && canvas.items == Decompose(s.text)
          && canvas.fontSize == s.fontSize && canvas.color == s.color
          && plan == Plan(ParseStyle(s.style), |Remove(s.text, '\n')|, s.duration, s.stagger)
    {
      var s := Normalise(controls);
      TrimEmptyIff(s.text);
      if Trim(s.text) == [] {
        Toast(EmptyMessage);
        return None, [];
      }
      var style;
      style, plan := Perform(s, outcome);
      ran := Some(style);
    }

    /** Past the guard: disable the button, rebuild the canvas, run the selected
        routine and, in the `finally`, enable the button again. */
    method Perform(s: Settings, outcome: Outcome) returns (style: Style, plan: seq<Cue>)
      modifies this, canvas
      ensures style == ParseStyle(s.style)
      ensures !disabled
      ensures toasts == old(toasts) + [StartMessage, if outcome == Succeeded then DoneMessage else FailMessage]
      ensures canvas.items == Decompose(s.text)
      ensures canvas.fontSize == s.fontSize && canvas.color == s.color
      ensures plan == Plan(style, |Remove(s.text, '\n')|, s.duration, s.stagger)
    {
      disabled := true;
      Toast(StartMessage);

      canvas.Reset();
      var spans := canvas.BuildSpansFromText(s.text, s.fontSize, s.color);
      assert [] + Decompose(s.text) == Decompose(s.text);
      SpanCount(s.text);

      style := ParseStyle(s.style);
      var ok;
      plan, ok := PlayStyle(style, spans, s.duration, s.stagger, outcome);
      if ok {
        Toast(DoneMessage);
      } else {
        Toast(FailMessage);
      }
      disabled := false;
    }
  }
}
