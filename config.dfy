/**
 * Normalisation of the control panel's values at the start of a run:
 * each numeric field is "parse, else default, then clamp", and the colour
 * falls back to black when empty.
 */
module Config {
  import opened Wrappers
  import Text

  const DefaultFontSize := 48
  const MinFontSize := 8
  const MaxFontSize := 250
  const DefaultDuration := 500
  const MinDuration := 50
  const MaxDuration := 4000
  const DefaultStagger := 60
  const MinStagger := 0
  const MaxStagger := 1000
  const DefaultColor := "#000000"

  function Max(a: int, b: int): int { if a >= b then a else b }
  function Min(a: int, b: int): int { if a <= b then a else b }

  /** Math.max(lo, Math.min(hi, n)); when lo > hi the lower bound wins. */
  function Clamp(n: int, lo: int, hi: int): (r: int)
    ensures lo <= hi ==> lo <= r <= hi
    ensures lo <= n <= hi ==> r == n
    ensures lo <= hi && n < lo ==> r == lo
    ensures lo <= hi && hi < n ==> r == hi
    ensures hi < lo ==> r == lo
  {
    Max(lo, Min(hi, n))
  }

  /** `parseInt(v, 10) || default`: NaN (None) and a parsed 0 are both falsy,
      so both give the default. */
  function OrDefault(parsed: Option<int>, default: int): (r: int)
    ensures parsed == None ==> r == default
    ensures parsed == Some(0) ==> r == default
    ensures parsed.Some? && parsed.value != 0 ==> r == parsed.value
  {
    match parsed
    case None => default
    case Some(n) => if n == 0 then default else n
  }

  /** What the control panel holds when a run starts, numbers already parsed. */
  datatype Controls = Controls(
    text: string,
    style: string,
    fontSize: Option<int>,
    color: string,
    duration: Option<int>,
    stagger: Option<int>)

  /** The configuration a run captures once and keeps while it is in flight. */
  datatype Settings = Settings(
    text: string,
    style: string,
    fontSize: int,
    color: string,
    duration: int,
    stagger: int)

  function NormaliseField(parsed: Option<int>, default: int, lo: int, hi: int): int {
    Clamp(OrDefault(parsed, default), lo, hi)
  }

  /** The start of runAnimation: strip carriage returns, then normalise each field. */
  function Normalise(c: Controls): (s: Settings)
    ensures MinFontSize <= s.fontSize <= MaxFontSize
    ensures MinDuration <= s.duration <= MaxDuration
    ensures MinStagger <= s.stagger <= MaxStagger
    ensures s.text == Text.Remove(c.text, '\r')
    ensures '\r' !in s.text && |s.text| == |c.text| - Text.Count(c.text, '\r')
    ensures s.style == c.style
    ensures s.color == if c.color == [] then DefaultColor else c.color
  {
    Settings(
      Text.Remove(c.text, '\r'),
      c.style,
      NormaliseField(c.fontSize, DefaultFontSize, MinFontSize, MaxFontSize),
      if c.color == [] then DefaultColor else c.color,
      NormaliseField(c.duration, DefaultDuration, MinDuration, MaxDuration),
      NormaliseField(c.stagger, DefaultStagger, MinStagger, MaxStagger))
  }

  /** A field left empty, not a number, or entered as 0 takes its default
      (48, 500, 60); a non-zero entry inside its range is kept as entered. */
  lemma NormaliseDefaults(c: Controls)
    ensures c.fontSize.None? || c.fontSize == Some(0) ==> Normalise(c).fontSize == 48
    ensures c.duration.None? || c.duration == Some(0) ==> Normalise(c).duration == 500
    ensures c.stagger.None? || c.stagger == Some(0) ==> Normalise(c).stagger == 60
    ensures c.fontSize.Some? && c.fontSize.value != 0 && 8 <= c.fontSize.value <= 250 ==>
              Normalise(c).fontSize == c.fontSize.value
    ensures c.duration.Some? && c.duration.value != 0 && 50 <= c.duration.value <= 4000 ==>
              Normalise(c).duration == c.duration.value
    ensures c.stagger.Some? && 1 <= c.stagger.value <= 1000 ==>
              Normalise(c).stagger == c.stagger.value
  {
  }

  /** The quirk of `|| 60`: a stagger entered as 0 becomes 60, never 0;
      the only way to get stagger 0 is a negative entry. */
  lemma StaggerZeroOnlyFromNegative(c: Controls)
    ensures Normalise(c).stagger == 0 <==> c.stagger.Some? && c.stagger.value < 0
  {
  }
}
