/**
 * The current-speed gauge (src/components/SpeedDisplay.tsx): the colour of
 * the number and the tint of the panel follow three speed bands with
 * boundaries at 30 and 60 km/h.
 */
module SpeedDisplay {

  datatype Band = Low | Medium | High

  /** The bands as intervals of km/h: [.., 30), [30, 60) and [60, ..). */
  predicate InBand(speed: real, band: Band) {
    match band
    case Low => speed < 30.0
    case Medium => 30.0 <= speed < 60.0
    case High => 60.0 <= speed
  }

  /** The bands in increasing order of speed. */
  function Rank(band: Band): nat {
    match band
    case Low => 0
    case Medium => 1
    case High => 2
  }

  /** Text colour class of each band. */
  function ColorClass(band: Band): string {
    match band
    case Low => "text-[hsl(var(--speed-low))]"
    case Medium => "text-[hsl(var(--speed-medium))]"
    case High => "text-[hsl(var(--speed-high))]"
  }

  /** Background tint class of each band. */
  function BgClass(band: Band): string {
    match band
    case Low => "bg-[hsl(var(--speed-low)/0.1)]"
    case Medium => "bg-[hsl(var(--speed-medium)/0.1)]"
    case High => "bg-[hsl(var(--speed-high)/0.1)]"
  }

  /** `getSpeedColor`: the colour of the band the speed lies in, and of no other band. */
  function SpeedColor(speed: real): (cls: string)
    ensures forall band :: cls == ColorClass(band) <==> InBand(speed, band)
  {
    if speed < 30.0 then "text-[hsl(var(--speed-low))]"
    else if speed < 60.0 then "text-[hsl(var(--speed-medium))]"
    else "text-[hsl(var(--speed-high))]"
  }

  /** `getSpeedBg`: the tint of the band the speed lies in, and of no other band. */
  function SpeedBg(speed: real): (cls: string)
    ensures forall band :: cls == BgClass(band) <==> InBand(speed, band)
  {
    if speed < 30.0 then "bg-[hsl(var(--speed-low)/0.1)]"
    else if speed < 60.0 then "bg-[hsl(var(--speed-medium)/0.1)]"
    else "bg-[hsl(var(--speed-high)/0.1)]"
  }

  /** Every speed lies in exactly one band. */
  lemma ExactlyOneBand(speed: real)
    ensures InBand(speed, Low) || InBand(speed, Medium) || InBand(speed, High)
    ensures forall b1, b2 :: InBand(speed, b1) && InBand(speed, b2) ==> b1 == b2
  {
  }

  /** The text colour and the panel tint always show the same band. */
  lemma ColorAndTintAgree(speed: real, band: Band)
    ensures SpeedColor(speed) == ColorClass(band) <==> SpeedBg(speed) == BgClass(band)
  {
  }

  /** A faster vehicle is never shown in a lower band. */
  lemma BandMonotone(s1: real, s2: real, b1: Band, b2: Band)
    requires s1 <= s2 && InBand(s1, b1) && InBand(s2, b2)
    ensures Rank(b1) <= Rank(b2)
  {
  }
}
