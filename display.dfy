/** The numbers behind each player's panel: the shown seconds, the height of the
    drain overlay and its colour, blended from a dark to a light tone as time drains. */
module Display {
  import opened Numeric

  /** A colour as its red, green and blue channels. */
  datatype Rgb = Rgb(r: int, g: int, b: int)

  /** Drain colours of the red side (dark red to light pink) and of the blue side
      (dark blue to light blue). */
  const RedStart: Rgb := Rgb(139, 0, 0)
  const RedEnd: Rgb := Rgb(255, 200, 200)
  const BlueStart: Rgb := Rgb(0, 0, 139)
  const BlueEnd: Rgb := Rgb(200, 200, 255)

  predicate ChannelBetween(x: int, a: int, b: int) {
    (a <= x <= b) || (b <= x <= a)
  }

  /** Every channel of `c` lies between the corresponding channels of `a` and `b`. */
  predicate ColorBetween(c: Rgb, a: Rgb, b: Rgb) {
    ChannelBetween(c.r, a.r, b.r) && ChannelBetween(c.g, a.g, b.g) && ChannelBetween(c.b, a.b, b.b)
  }

  /** Scaling a difference by a factor in [0, 1] keeps it between 0 and itself. */
  lemma ScaledDifference(d: real, factor: real)
    requires 0.0 <= factor <= 1.0
    ensures d >= 0.0 ==> 0.0 <= d * factor <= d
    ensures d < 0.0 ==> d <= d * factor <= 0.0
  {
    if d >= 0.0 {
      assert d * factor <= d * 1.0;
    } else {
      assert d * factor >= d * 1.0;
    }
  }

  /** The unrounded blend of one channel: `start + (end - start) * factor`. It is the
      start channel at factor 0, the end channel at factor 1, and lies between the two for
      a factor in [0, 1]. */
  function Lerp(start: int, end: int, factor: real): (x: real)
    ensures factor == 0.0 ==> x == start as real
    ensures factor == 1.0 ==> x == end as real
    ensures 0.0 <= factor <= 1.0 && start <= end ==> start as real <= x <= end as real
    ensures 0.0 <= factor <= 1.0 && end < start ==> end as real <= x <= start as real
  {
    if 0.0 <= factor <= 1.0 then
      ScaledDifference((end - start) as real, factor);
      start as real + (end - start) as real * factor
    else
      start as real + (end - start) as real * factor
  }

  /** One channel of the blend, rounded (`Math.round` of `Lerp`). It gives the start
      channel at factor 0, the end channel at factor 1 and, for a factor in [0, 1], a value
      between the two. */
  function Blend(start: int, end: int, factor: real): (v: int)
    ensures Lerp(start, end, factor) - 0.5 < v as real <= Lerp(start, end, factor) + 0.5
    ensures factor == 0.0 ==> v == start
    ensures factor == 1.0 ==> v == end
    ensures 0.0 <= factor <= 1.0 ==> ChannelBetween(v, start, end)
  {
    var x := Lerp(start, end, factor);
    if 0.0 <= factor <= 1.0 then
      if start <= end then
        RoundWithin(x, start, end);
        Round(x)
      else
        RoundWithin(x, end, start);
        Round(x)
    else
      Round(x)
  }

  /** The channel-by-channel blend from `start` to `end` (interpolateColor). */
  function InterpolateColor(start: Rgb, end: Rgb, factor: real): (c: Rgb)
    ensures Lerp(start.r, end.r, factor) - 0.5 < c.r as real <= Lerp(start.r, end.r, factor) + 0.5
    ensures Lerp(start.g, end.g, factor) - 0.5 < c.g as real <= Lerp(start.g, end.g, factor) + 0.5
    ensures Lerp(start.b, end.b, factor) - 0.5 < c.b as real <= Lerp(start.b, end.b, factor) + 0.5
    ensures factor == 0.0 ==> c == start
    ensures factor == 1.0 ==> c == end
    ensures 0.0 <= factor <= 1.0 ==> ColorBetween(c, start, end)
  {
    Rgb(Blend(start.r, end.r, factor), Blend(start.g, end.g, factor), Blend(start.b, end.b, factor))
  }

  /** Dividing by a positive amount: the quotient times the divisor gives the dividend
      back, a dividend of at most 0 gives at most 0 and one of at least the divisor gives
      at least 1. */
  lemma Quotient(n: real, d: real)
    requires d > 0.0
    ensures (n / d) * d == n
    ensures n <= 0.0 ==> n / d <= 0.0
    ensures n >= d ==> n / d >= 1.0
  {
    if n >= d {
      assert (n / d) * d >= 1.0 * d;
    }
  }

  /** The elapsed fraction `(initial - time) / initial`, clamped to [0, 1]. It is 0 while
      no time has been used and 1 once the time is used up. */
  function DrainFraction(initial: real, time: real): (f: real)
    requires initial != 0.0
    ensures 0.0 <= f <= 1.0
    ensures time == initial ==> f == 0.0
    ensures 0.0 < initial <= time ==> f == 0.0
    ensures 0.0 < initial && time <= 0.0 ==> f == 1.0
    ensures 0.0 < initial && 0.0 <= time <= initial ==> f * initial == initial - time
  {
    var q := (initial - time) / initial;
    if 0.0 < initial then
      Quotient(initial - time, initial);
      Min(1.0, Max(0.0, q))
    else
      Min(1.0, Max(0.0, q))
  }

  /** What one player's panel shows: the whole seconds, the drain height in percent and
      the drain colour. */
  datatype Panel = Panel(shown: int, height: real, color: Rgb)

  /** The panel for a side with the given initial and remaining time. */
  function PanelOf(initial: real, time: real, start: Rgb, end: Rgb): (p: Panel)
    requires initial != 0.0
    ensures p.shown as real - 1.0 < time <= p.shown as real
    ensures time >= 0.0 ==> (p.shown == 0 <==> time == 0.0)
    ensures 0.0 <= p.height <= 100.0
    ensures 0.0 < initial && 0.0 <= time <= initial ==> p.height * initial == 100.0 * (initial - time)
    ensures p.height == 100.0 * DrainFraction(initial, time)
    ensures p.color == InterpolateColor(start, end, DrainFraction(initial, time))
    ensures ColorBetween(p.color, start, end)
    ensures time == initial ==> p.height == 0.0 && p.color == start
    ensures 0.0 < initial && time <= 0.0 ==> p.height == 100.0 && p.color == end
  {
    var f := DrainFraction(initial, time);
    Panel(Ceil(time), f * 100.0, InterpolateColor(start, end, f))
  }
}
