# Kinetic Typography Generator: a verified model of its core

The Kinetic Typography Generator animates a short text in the browser one
character at a time. A user picks one of five styles: fadeInUp, flyInLeft,
zoomIn, typewriter or decoder. This project models the logic under the DOM
and Web Animations glue of `script.js`, and proves properties about it:

- **Config**: "parse, else default, then clamp" for font size (8 to 250,
  default 48), duration (50 to 4000, default 500) and stagger (0 to 1000,
  default 60). It keeps the code's `|| default` quirk: a parsed `0` counts as
  absent. The colour falls back to `#000000`, and carriage returns are
  stripped from the text.
- **Text**: the ECMAScript white-space set that `trim` removes, `trim` itself,
  character removal and counting, and `split("\n")` with its inverse `join`.
- **Decomposer**: what the render surface holds after a text is built. Each
  non-newline character becomes one `Unit(final, displayed, visible)`, and
  each `'\n'` becomes one `Br`. The spans array lists the positions of the
  units. `Decompose` reads the text one character at a time. `Layout` follows
  the code's structure: lines, then units per line, then a break between
  successive lines. A lemma proves the two agree.
- **Surface**: the canvas as a class. `Reset` empties it.
  `BuildSpansFromText` keeps the code's nested loops, over lines and then over
  characters. It is proved to append exactly `Decompose(text)` and to return
  the spans' positions.
- **Styles**: the closed set of styles and the fallback for an unknown name.
  It also holds the start delay `i * stagger`, the typewriter pop length, the
  decoder step count, and the cue each style gives every span.
- **Decode**: the decoder's per-unit `tick` state machine. The specification
  is the function `Next`, and `Run` applies `Next` over a sequence of frames.
  The class `ScrambleUnit` updates a unit's fields once per frame and is
  proved to follow `Next`. Time is an integer `now` per frame. The random draw
  is an index `pick` into the 44-character charset.
- **Runner**: `runAnimation`. It rejects blank text first. Otherwise it
  disables the button, resets and rebuilds the canvas, and runs exactly one
  style routine, whose outcome is an input (it settled, or it threw). It then
  reports the result and enables the button again.

Three behaviours of the code worth knowing when reading the model; the first and the third are kept as written, the second is not modelled:

- A numeric field falls back to its default when it is absent or not a
  number, and also when it is `0`, because the code tests the parsed value for
  truthiness. A stagger entered as 0 therefore becomes 60.
- The fadeInUp, flyInLeft and zoomIn routines wait on `Promise.all`, which
  fails fast, whereas the typewriter and decoder routines resolve each unit
  whether its animation succeeds or not. Neither form of aggregation is
  modelled: a routine's result is the `Outcome` input.
- The settle step of the decoder does not set the opacity itself. A unit is
  visible when it settles only because it has already shown at least one
  random glyph, which the 6-step minimum guarantees (`DecodeFromStart`).

## Model

| member | source | states |
|---|---|---|
| Config.Clamp | script.js:266-268 | With lo <= hi the result lies in [lo, hi]; an n already in range is returned unchanged; below or above the range gives that bound; with lo > hi the lower bound wins, as Math.max(min, Math.min(max, n)) does |
| Config.OrDefault | script.js:219-222 | The `or default` of `parseInt(..)`: NaN (None) and a parsed 0 both give the default; any other parsed value is kept |
| Config.Normalise | script.js:217-222 | Font size ends in [8, 250], duration in [50, 4000] and stagger in [0, 1000]. The text is the entered text with its carriage returns deleted (`Text.Remove`, so every other character is kept, in order and as often as it occurred); no carriage return is left and it is shorter by the number it had. The style name passes through. An empty colour becomes #000000 |
| Config.NormaliseDefaults | script.js:219-222 | An absent, non-numeric or zero field becomes 48, 500 or 60. A non-zero entry within its range is kept as entered |
| Config.StaggerZeroOnlyFromNegative | script.js:222 | The stagger comes out 0 exactly when a negative number was entered; an entered 0 never gives 0 |
| Text.IsWhitespace | script.js:224 | The characters `trim` treats as white space: the ECMAScript WhiteSpace and LineTerminator code points |
| Text.Trim | script.js:224 | `trim`: the start is trimmed, then the end. What that leaves is stated by TrimStartSpec, TrimEndSpec and TrimEmptyIff |
| Text.TrimStartSpec | script.js:224 | Trimming the start removes a blank prefix and keeps a suffix of the string that, when non-empty, starts with a non-white-space character |
| Text.TrimEndSpec | script.js:224 | Trimming the end removes a blank suffix and keeps a prefix that, when non-empty, ends with a non-white-space character |
| Text.TrimEmptyIff | script.js:224 | `text.trim()` is empty if and only if every character of the text is white space |
| Text.Remove | script.js:217 | `replace(/\r/g, "")`: the result is shorter by the number of occurrences, no occurrence remains, and every other character is still there |
| Text.RemoveMultiset | script.js:217 | Every character other than the removed one occurs in the result exactly as often as in the input, and the removed one not at all |
| Text.RemoveAppend | script.js:217 | Removing from a concatenation is removing from each part and concatenating, so the kept characters stay in their original order |
| Text.RemoveAbsent | script.js:217 | Removing a character that does not occur leaves the text unchanged |
| Text.Split | script.js:54 | `split("\n")` gives one more line than there are newlines, and no line contains a newline |
| Text.JoinSplit | script.js:54 | Joining the split lines with "\n" gives back the original text |
| Text.SplitJoin | script.js:54 | Splitting newline-free lines after joining them gives back the same lines |
| Decomposer.Decompose | script.js:47-78 | The decomposition has exactly one item per character of the text |
| Decomposer.LineItems | script.js:58-69 | The spans built for one line: one fresh unit per character, as many as the line has characters |
| Decomposer.Layout | script.js:54-75 | The items the forEach over the lines appends: each line's units with a break between successive lines. LayoutOfSplit shows this is the character-wise decomposition |
| Decomposer.Positions | script.js:55-68 | The spans array: the positions of the units among the appended items. PositionsSpec states what it holds |
| Decomposer.DecomposeAt | script.js:57-75 | Item k depends only on character k: a `Br` for '\n', otherwise a new unit for that character |
| Decomposer.FreshUnits | script.js:59-66 | Every unit starts invisible, with final glyph = displayed glyph = its source character; a blank line gives two consecutive breaks with no unit between them |
| Decomposer.RenderDecompose | script.js:54-75 | Round trip: mapping each unit back to its final glyph and each `Br` to '\n' reconstructs the input text exactly |
| Decomposer.DecomposeRender | script.js:54-75 | The other direction: a sequence made only of fresh units (none of them for '\n') and breaks is the decomposition of the text it renders |
| Decomposer.FinalsAppend | script.js:67-73 | The units' glyphs and line-break counts of two concatenated item sequences are those of the parts, concatenated or summed |
| Decomposer.DecomposeCounts | script.js:54-75 | The units' final glyphs, in order, are the text with its newlines removed. The number of units is the text's length minus its newlines, and one break per newline |
| Decomposer.PositionsSpec | script.js:67-68 | Each position in the spans array names a unit, and span i's glyph is the i-th unit glyph. The positions strictly increase (source order), and every unit appears in the array |
| Decomposer.SpanCount | script.js:55-68 | The spans array has one entry per non-newline character of the text |
| Decomposer.LayoutSnoc | script.js:57-75 | Adding one more line to a non-empty list adds a break followed by that line's units |
| Decomposer.LayoutOfSplit | script.js:54-75 | Building line by line over `split("\n")`, with a break between successive lines, gives the same items as the character-by-character decomposition |
| Surface.LayoutStep | script.js:57-75 | One round of `lines.forEach` appends the line's units, then a break unless it is the last line, which extends the items built so far to those of one more line |
| Surface.Canvas.Reset | script.js:40-44 | The canvas is emptied (nothing of the previous run remains), and its font size and colour are kept |
| Surface.Canvas.BuildSpansFromText | script.js:47-78 | Sets font size and colour, appends exactly `Decompose(text)` after what the canvas held, and returns the positions of the new spans in order |
| Surface.Canvas.BuildLine | script.js:57-75 | The forEach callback: the line's spans are appended, then a break if and only if the line is not the last; each new span's position is pushed onto the spans array |
| Surface.Canvas.AppendLine | script.js:58-69 | The inner for loop appends one invisible unit per character of the line, in order, and pushes each one's position |
| Styles.ParseStyle | script.js:237-255 | A recognised name selects the style of that name; any other name selects fadeInUp |
| Styles.ParseStyleName | script.js:237-255 | Every style is selected by its own name |
| Styles.Delay | script.js:91 | The start delay `i * stagger`: 0 for the first unit, never negative for a non-negative stagger |
| Styles.DelayMonotone | script.js:91 | With a non-negative stagger, unit j never starts before unit i when i <= j, and consecutive units start exactly one stagger apart |
| Styles.TypewriterPopDuration | script.js:147 | The pop lasts between 120 and 600 ms. It equals the duration when the duration is in that range, and is 120 below it and 600 above it |
| Styles.ScrambleSteps | script.js:164 | The step count is between 6 and 24. It equals floor(duration / 30) for durations from 180 to 749, is 6 below that and 24 above |
| Styles.ScrambleStepsExample | script.js:164 | A 300 ms duration gives 10 scramble steps |
| Styles.EffectOf | script.js:82-164 | fadeInUp, flyInLeft and zoomIn play their own transform for the full duration; the typewriter pop lasts 120 to 600 ms (the duration itself when in range); the decoder scrambles 6 to 24 times |
| Styles.Plan | script.js:87-96 | The cue each style gives the n spans, one per span: delay `i * stagger` and the style's effect |
| Styles.PlanSchedule | script.js:87-96 | In every style unit i is cued with start delay exactly i * stagger (so delays never decrease with the index when stagger >= 0), and every unit plays the same effect |
| Styles.HiExample | script.js:88-94 | "Hi" with fadeInUp, 500 ms and 60 ms stagger: H is cued at 0 ms and i at 60 ms, each for 500 ms |
| Styles.AnimateFadeInUp | script.js:82-96 | `spans.map`: span i rises into place for the duration, starting after i * stagger ms |
| Styles.AnimateFlyInLeft | script.js:99-113 | `spans.map`: span i slides in from the left for the duration, starting after i * stagger ms |
| Styles.AnimateZoomIn | script.js:116-130 | `spans.map`: span i grows to full size for the duration, starting after i * stagger ms |
| Styles.AnimateTypewriter | script.js:134-158 | `spans.map`: a timer fires after i * stagger ms, then span i pops in for Math.max(120, Math.min(duration, 600)) ms |
| Styles.AnimateDecoder | script.js:162-171 | `spans.map`: span i starts scrambling i * stagger ms after its clock reading, for the routine's step count |
| Styles.RoutinesMatchPlan | script.js:82-171 | Each of the five routines cues its spans exactly as its style's Plan says |
| Decode.Next | script.js:175-206 | One `tick(now)`: the step count grows by at most one, and when it grows the unit shows a charset glyph and is visible. A resolved unit stays resolved and a visible one stays visible |
| Decode.Run | script.js:175-208 | The requestAnimationFrame chain: tick once per frame until resolved. The step never decreases, a resolved unit is left as it is, and a visible unit stays visible |
| Decode.SkippableIff | script.js:168 | A unit is skipped (its glyph trims to nothing) exactly when its final glyph is white space |
| Decode.IdleBeforeStart | script.js:175-179 | Ticks before the unit's start time change nothing and show no glyph |
| Decode.WhitespaceRun | script.js:180-184 | A white-space unit always displays its final glyph and never a random one. It resolves on its first frame at or after the start time, and only then, and it is visible once resolved |
| Decode.ScrambleRun | script.js:185-206 | For any frames, a non-white-space unit shows one random charset glyph per frame at or after the start time, up to the remaining steps, and step never exceeds the step count. It resolves, on its final glyph, exactly when it has seen more such frames than steps remained |
| Decode.DecodeFromStart | script.js:164-206 | From a fresh span and a 6-to-24 step count, the unit resolves exactly after steps + 1 active frames. By then it has shown exactly `steps` random glyphs and rests visible on its final glyph |
| Decode.Jobs | script.js:165-171 | The jobs animateDecoder sets up: one per span, unit i starting i * stagger ms after its own clock reading |
| Decode.JobsMatchPlan | script.js:165-171 | Unit i of the decoder starts i * stagger after its own `performance.now()` reading, with its span's final glyph and the run's step count, matching the decoder style's cue |
| Decode.JobsInOrder | script.js:165-171 | With clock readings that never decrease and a non-negative stagger, a later unit never starts before an earlier one |
| Decode.ScrambleUnit.constructor | script.js:166-172 | A unit's job is its final glyph, its start time and the step count; it starts with no steps taken, its own glyph shown, invisible and unresolved |
| Decode.ScrambleUnit.Tick | script.js:175-206 | One call of `tick(now)` updates step, displayed glyph, visibility and resolution exactly as `Next` says. It asks for another frame exactly when the unit has not resolved |
| Decode.ScrambleUnit.Animate | script.js:175-208 | The requestAnimationFrame chain: ticking once per frame until resolved leaves the unit in the state `Run` gives |
| Runner.Animator.Toast | script.js:26-29 | Showing a message adds it to what the message box has shown |
| Runner.Animator.PlayStyle | script.js:236-255 | The `switch`: the selected style's own routine runs, one branch per style, with the button disabled. Whichever it is, the cues it gives the spans are that style's Plan, and it reports whether the routine settled or threw |
| Runner.Animator.Perform | script.js:229-263 | Past the guard: the canvas holds exactly the text's items in the given size and colour, the named style's routine (fadeInUp for an unknown name) cues the new spans, the messages are "Animating..." then "Done!" or the failure message, and the button ends enabled |
| Runner.Animator.RunAnimation | script.js:216-264 | A blank text (after the CR strip) builds nothing, runs nothing, leaves the button and canvas untouched and shows "Please enter some text to animate.". Otherwise the canvas holds exactly the new text's items, in the normalised font size and colour, and exactly one routine runs: the named style, or fadeInUp for an unknown name. Its cues match the new spans. The messages shown are "Animating..." then "Done!" or "Something went wrong while animating.", and the button ends enabled either way |

## Left out

- DOM element lookups, CSS property strings (font size unit, `pre-wrap`, line height, `inline-block`) and the event wiring for click, Ctrl/Cmd+Enter and the run on load (script.js:10-23, 49-52, 65, 270-285). These are plumbing. The font size and colour are kept on the canvas as numbers and strings.
- The toast's hide timer (script.js:30-33). `Toast` records the message shown and nothing about when it disappears.
- Web Animations keyframes, easing curves, `fill` and the `.finished` promises (script.js:82-131, 142-148, 196-202). These are platform calls. Each style's animation is a `Cue` (delay plus effect), and the model does not write the animated end state back into the canvas items.
- `Promise.all` aggregation and the ordering of `async`/`await`. How a style routine ends is the `Outcome` input.
- The `supportsWAAPI` branches of the typewriter and of the decoder's settle step. Both branches end with the unit at rest, so the model does not tell them apart.
- The typewriter's per-unit `setTimeout` and the `_twTimer` and `_decoderRAF` handles. A timer's scheduling is its `Cue` delay, within the bound on the next line, and the handles are never read.
- Styles.AnimateTypewriter: the cue delay is the unbounded `i * stagger`. The delay of `setTimeout` (script.js:139, 153) is a 32-bit `long`, so a delay of 2^31 ms or more wraps modulo 2^32, and a negative result becomes 0. Such units fire early, so for texts long enough that `i * stagger` reaches 2^31 ms (over 2,147,483 units at stagger 1000) the typewriter's start times, unlike the model's, are not in index order. PlanSchedule and the plan in RunAnimation describe the unwrapped delays.
- Surface.Canvas.Reset: does not model the call at script.js:42. `canvas.getAnimations()` is called without `{subtree: true}`, so it returns only animations whose target is the canvas element itself. Every animation targets a span, so the call cancels none of them. The decoder's requestAnimationFrame chains (script.js:177, 191, 208) and the typewriter's timers (script.js:139) are never stopped either. A run started while an earlier one is still animating leaves the earlier units ticking on detached spans. The model has no running animations, so `Reset` only discards the old items.
- `requestAnimationFrame` and `performance.now()`, which use floating-point timestamps. Each frame is a `Frame` with an integer `now`.
- `Math.random`, replaced by a supplied charset index `pick`.
- Concurrent or overlapping runs. The code gives no guarantee here.
- `console.error(e)` in the catch block (script.js:258). It writes to the developer console, which the model does not have; only the failure toast is modelled.
- Decode.Jobs: `performance.now()` (script.js:171) is read once per unit and is given as the sequence `now`. JobsInOrder assumes these readings never decrease, which the platform's monotonic clock ensures.
- `parseInt` text parsing. The parsed value is given as an `Option<int>`.
- Runner.Animator.RunAnimation: does not model `textInput.value` being null (`|| ""`), because a text field's value is always a string.
- Decomposer.Decompose: one Dafny character is one Unicode scalar value, while `line.length` and `line[i]` (script.js:58-59) count and index UTF-16 code units. A character outside the Basic Multilingual Plane, such as U+1F600, is one unit here. The source appends two spans for it, each holding a lone surrogate, and the decoder scrambles both. The same holds for Surface.Canvas.AppendLine and Surface.Canvas.BuildSpansFromText, and for every count of units and spans in the model.
- Text.IsWhitespace: the white-space set is written out as a fixed list of code points (ECMAScript WhiteSpace and LineTerminator, with the Unicode space separators listed). A later Unicode version that adds a space separator would not be covered.
