/** The two-player countdown as values: the clock's whole state, and one function per
    handler giving the state that handler leaves behind. The `ClockState` class in module
    Timer is proved to follow these functions; the lemmas here state what the handlers
    promise. Times are in seconds, timestamps in milliseconds. */
module Countdown {
  import opened Numeric
  import Keys

  datatype Option<T> = None | Some(value: T)

  /** The value of `currentPlayer`: "red", "blue", or anything else (unset before the
      first start, or whatever the starting-colour field held). */
  datatype Player = Red | Blue | Other

  /** The player named by the starting-colour field. */
  function PlayerOf(color: string): (p: Player)
    ensures p == Red <==> color == "red"
    ensures p == Blue <==> color == "blue"
  {
    if color == "red" then Red else if color == "blue" then Blue else Other
  }

  /** The side the turn goes to: blue after red, red after anything else. */
  function Opponent(p: Player): (q: Player)
    ensures q != p && q != Other
    ensures p != Red ==> q == Red
  {
    if p == Red then Blue else Red
  }

  /** Seconds used when the start form's field is 0 or not a number. */
  const DefaultSeconds: real := 30.0

  const MillisPerSecond: real := 1000.0

  /** The clock's state; `buzzes` and `chimes` count how often the buzzer and the
      switch sound have been played. */
  datatype Clock = Clock(
    redTime: real, blueTime: real,
    redInitial: real, blueInitial: real,
    player: Player, paused: bool, lastUpdate: real,
    redEnded: bool, blueEnded: bool,
    buzzes: nat, chimes: nat)
  {
    /** The time a tick counts down: red's when red is to play, blue's otherwise. */
    function ActiveTime(): real {
      if player == Red then redTime else blueTime
    }

    function ActiveEnded(): bool {
      if player == Red then redEnded else blueEnded
    }
  }

  /** The state at page load: both sides at 30 seconds, no player, paused. */
  function Initial(now: real): (c: Clock)
    ensures Inv(c) && WithinInitial(c)
    ensures c.redTime == c.blueTime == c.redInitial == c.blueInitial == DefaultSeconds
    ensures !c.redEnded && !c.blueEnded
    ensures c.paused && c.player == Other && c.lastUpdate == now
    ensures c.buzzes == 0 && c.chimes == 0
  {
    Clock(DefaultSeconds, DefaultSeconds, DefaultSeconds, DefaultSeconds, Other, true, now,
          false, false, 0, 0)
  }

  /** What every handler keeps: no initial value is 0 (so the drain fraction never divides
      by zero), and a side's ended flag is set only while its time is 0. */
  predicate Inv(c: Clock) {
    c.redInitial != 0.0 && c.blueInitial != 0.0 &&
    (c.redEnded ==> c.redTime == 0.0) &&
    (c.blueEnded ==> c.blueTime == 0.0)
  }

  /** Neither side has more time left than it started with. */
  predicate WithinInitial(c: Clock) {
    c.redTime <= c.redInitial && c.blueTime <= c.blueInitial
  }

  predicate NonNegative(c: Clock) {
    c.redTime >= 0.0 && c.blueTime >= 0.0
  }

  /** Seconds between the last reference timestamp and `now`. */
  function Elapsed(c: Clock, now: real): (seconds: real)
    ensures seconds * MillisPerSecond == now - c.lastUpdate
    ensures now >= c.lastUpdate ==> seconds >= 0.0
  {
    (now - c.lastUpdate) / MillisPerSecond
  }

  /** The tick at `now` runs the active side's time out while its ended flag is clear. */
  predicate Expires(c: Clock, now: real) {
    !c.paused && c.ActiveTime() > 0.0 && c.ActiveTime() <= Elapsed(c, now) && !c.ActiveEnded()
  }

  /** One animation frame at timestamp `now` (animate). */
  function TickStep(c: Clock, now: real): (d: Clock)
    ensures d.lastUpdate == now
    ensures d.redInitial == c.redInitial && d.blueInitial == c.blueInitial && d.chimes == c.chimes
    // a paused clock does not move
    ensures c.paused ==> d == c.(lastUpdate := now)
    // only the active side's time moves
    ensures c.player == Red ==> d.blueTime == c.blueTime
    ensures c.player != Red ==> d.redTime == c.redTime
    // a time only moves while it is positive, and never below 0
    ensures d.redTime == c.redTime || (c.redTime > 0.0 && d.redTime >= 0.0)
    ensures d.blueTime == c.blueTime || (c.blueTime > 0.0 && d.blueTime >= 0.0)
    ensures now >= c.lastUpdate ==> d.redTime <= c.redTime && d.blueTime <= c.blueTime
    // a running side with time left counts down by the elapsed seconds, clamped at 0
    ensures !c.paused && c.player == Red && c.redTime > 0.0 ==>
      d.redTime == Max(0.0, c.redTime - Elapsed(c, now))
    ensures !c.paused && c.player != Red && c.blueTime > 0.0 ==>
      d.blueTime == Max(0.0, c.blueTime - Elapsed(c, now))
    // a side already at 0 (or below) fires nothing
    ensures c.ActiveTime() <= 0.0 ==> d == c.(lastUpdate := now)
    // the buzzer fires exactly on expiry, which hands the turn over and pauses
    ensures d.buzzes == if Expires(c, now) then c.buzzes + 1 else c.buzzes
    ensures Expires(c, now) ==>
      d.paused && d.player == Opponent(c.player) && !d.ActiveEnded() &&
      (if c.player == Red then d.redTime == 0.0 && d.redEnded
       else d.blueTime == 0.0 && d.blueEnded)
    ensures !Expires(c, now) ==>
      d.paused == c.paused && d.player == c.player &&
      d.redEnded == c.redEnded && d.blueEnded == c.blueEnded
    ensures Inv(c) ==> Inv(d)
    ensures now >= c.lastUpdate && WithinInitial(c) ==> WithinInitial(d)
    ensures NonNegative(c) ==> NonNegative(d)
  {
    var delta := Elapsed(c, now);
    var s := c.(lastUpdate := now);
    if s.paused then s
    else if s.player == Red then
      if s.redTime > 0.0 then
        var t := Max(0.0, s.redTime - delta);
        if t == 0.0 && !s.redEnded then
          s.(redTime := t, redEnded := true, buzzes := s.buzzes + 1,
             player := Blue, blueEnded := false, paused := true)
        else
          s.(redTime := t)
      else s
    else
      if s.blueTime > 0.0 then
        var t := Max(0.0, s.blueTime - delta);
        if t == 0.0 && !s.blueEnded then
          s.(blueTime := t, blueEnded := true, buzzes := s.buzzes + 1,
             player := Red, redEnded := false, paused := true)
        else
          s.(blueTime := t)
      else s
  }

  /** The value the start form turns a field into (`parseFloat(...) || 30`): `None`
      stands for a field that is not a number. */
  function OrDefault(input: Option<real>): (r: real)
    ensures r != 0.0
    ensures input.Some? && input.value != 0.0 ==> r == input.value
    ensures input == None || input == Some(0.0) ==> r == DefaultSeconds
  {
    match input
    case Some(v) => if v != 0.0 then v else DefaultSeconds
    case None => DefaultSeconds
  }

  /** The "Start Timer" button. */
  function StartStep(c: Clock, redInput: Option<real>, blueInput: Option<real>,
                     color: string, now: real): (d: Clock)
    ensures d.redInitial == OrDefault(redInput) && d.blueInitial == OrDefault(blueInput)
    ensures d.redTime == d.redInitial && d.blueTime == d.blueInitial
    ensures d.player == PlayerOf(color)
    ensures !d.redEnded && !d.blueEnded && d.paused && d.lastUpdate == now
    ensures d.buzzes == c.buzzes && d.chimes == c.chimes
    ensures Inv(d) && WithinInitial(d)
  {
    var red := OrDefault(redInput);
    var blue := OrDefault(blueInput);
    c.(redTime := red, blueTime := blue, redInitial := red, blueInitial := blue,
       player := PlayerOf(color), redEnded := false, blueEnded := false,
       paused := true, lastUpdate := now)
  }

  /** The body of the switch branch: ignored while paused; otherwise it plays the switch
      sound, hands the turn over and resets the tick reference, leaving `paused` as it
      was (its closing assignment is to an unrelated name, `pause`). */
  function SwitchStep(c: Clock, now: real): (d: Clock)
    ensures c.paused ==> d == c
    ensures !c.paused ==>
      d.player == Opponent(c.player) && d.chimes == c.chimes + 1 && d.lastUpdate == now && !d.paused
    ensures d.redTime == c.redTime && d.blueTime == c.blueTime
    ensures d.redInitial == c.redInitial && d.blueInitial == c.blueInitial
    ensures d.redEnded == c.redEnded && d.blueEnded == c.blueEnded && d.buzzes == c.buzzes
  {
    if c.paused then c
    else c.(chimes := c.chimes + 1, player := Opponent(c.player), lastUpdate := now)
  }

  /** The side whose indicator `passTurn` flashes: none unless the player is red or blue. */
  function Flashed(p: Player): (side: Option<Player>)
    ensures side == None <==> p == Other
    ensures side.Some? ==> side.value == p
  {
    if p == Other then None else Some(p)
  }

  /** `passTurn`'s effect on the clock: it pauses, whatever the state. */
  function PassStep(c: Clock): (d: Clock)
    ensures d.paused
    ensures d.(paused := c.paused) == c
  {
    c.(paused := true)
  }

  /** The effect of one dispatched key command. */
  function CommandStep(c: Clock, cmd: Keys.Command, now: real): (d: Clock)
    ensures d.redTime == c.redTime && d.blueTime == c.blueTime
    ensures d.redInitial == c.redInitial && d.blueInitial == c.blueInitial
    ensures d.redEnded == c.redEnded && d.blueEnded == c.blueEnded && d.buzzes == c.buzzes
    ensures cmd == Keys.TogglePause ==>
      d.paused == !c.paused && d.lastUpdate == now && d.player == c.player && d.chimes == c.chimes
    ensures cmd == Keys.Restart || cmd == Keys.Pass ==> d == c.(paused := true)
    ensures cmd == Keys.NoCommand ==> d == c
    ensures cmd == Keys.Switch ==> d == SwitchStep(c, now)
    ensures Inv(c) ==> Inv(d)
    ensures WithinInitial(c) ==> WithinInitial(d)
  {
    match cmd
    case Switch => SwitchStep(c, now)
    case TogglePause => c.(paused := !c.paused, lastUpdate := now)
    case Restart => c.(paused := true)
    case Pass => PassStep(c)
    case NoCommand => c
  }

  /** The keydown handler as written. */
  function KeyStep(c: Clock, key: string, now: real): (d: Clock)
    ensures d.redTime == c.redTime && d.blueTime == c.blueTime
    ensures Inv(c) ==> Inv(d)
  {
    CommandStep(c, Keys.Dispatch(key), now)
  }

  /** The keydown handler with the switch branch bound to the right-arrow key. */
  function IntendedKeyStep(c: Clock, key: string, now: real): (d: Clock)
    ensures d.redTime == c.redTime && d.blueTime == c.blueTime
    ensures Inv(c) ==> Inv(d)
  {
    CommandStep(c, Keys.IntendedDispatch(key), now)
  }

  /** No key changes whose turn it is or plays the switch sound, because the switch
      branch cannot be reached; space flips `paused` and resets the tick reference, and
      `r`, `p` only pause. */
  lemma KeyStepNeverSwitches(c: Clock, key: string, now: real)
    ensures KeyStep(c, key, now).player == c.player
    ensures KeyStep(c, key, now).chimes == c.chimes
    ensures key == " " ==>
      KeyStep(c, key, now) == c.(paused := !c.paused, lastUpdate := now)
    ensures key == "r" || key == "R" || key == "p" || key == "P" ==>
      KeyStep(c, key, now) == c.(paused := true)
    ensures key !in {" ", "r", "R", "p", "P"} ==> KeyStep(c, key, now) == c
  {
  }

  /** With the switch branch reachable, the right-arrow key switches only a running
      clock, and every other key behaves as in the written handler. */
  lemma IntendedKeyStepSwitches(c: Clock, key: string, now: real)
    ensures IntendedKeyStep(c, "ArrowRight", now) == SwitchStep(c, now)
    ensures Keys.Lower(key) == Keys.IntendedSwitchName ==>
      IntendedKeyStep(c, key, now) == SwitchStep(c, now)
    ensures c.paused ==> IntendedKeyStep(c, "ArrowRight", now) == c
    ensures Keys.Lower(key) != Keys.IntendedSwitchName ==>
      IntendedKeyStep(c, key, now) == KeyStep(c, key, now)
  {
    Keys.IntendedDispatchCases();
  }

  /** Two switches in a row on a running clock give the turn back and play the switch
      sound twice. */
  lemma SwitchTwice(c: Clock, now1: real, now2: real)
    requires !c.paused && c.player != Other
    ensures SwitchStep(SwitchStep(c, now1), now2).player == c.player
    ensures SwitchStep(SwitchStep(c, now1), now2).chimes == c.chimes + 2
  {
  }

  /** On a reachable state the ended-flag guard never holds a buzzer back: whenever the
      active side's positive time runs out on a tick of a running clock, the buzzer fires. */
  lemma RunningOutAlwaysBuzzes(c: Clock, now: real)
    requires Inv(c)
    requires !c.paused && 0.0 < c.ActiveTime() <= Elapsed(c, now)
    ensures TickStep(c, now).buzzes == c.buzzes + 1
    ensures TickStep(c, now).paused
  {
  }

  /** Timestamps that never go backwards, starting from `from`. */
  predicate Ascending(from: real, nows: seq<real>)
    decreases |nows|
  {
    nows == [] || (from <= nows[0] && Ascending(nows[0], nows[1..]))
  }

  /** The frames at timestamps `nows`, one after the other, with no key pressed. */
  function Run(c: Clock, nows: seq<real>): (d: Clock)
    ensures d.redInitial == c.redInitial && d.blueInitial == c.blueInitial
    ensures d.chimes == c.chimes
    decreases |nows|
  {
    if nows == [] then c else Run(TickStep(c, nows[0]), nows[1..])
  }

  /** While paused, frames only move the tick reference to the latest timestamp. */
  lemma {:induction false} RunWhilePaused(c: Clock, nows: seq<real>)
    requires c.paused
    ensures Run(c, nows) == if nows == [] then c else c.(lastUpdate := nows[|nows| - 1])
    decreases |nows|
  {
    if nows != [] {
      var c1 := TickStep(c, nows[0]);
      RunWhilePaused(c1, nows[1..]);
      if |nows| > 1 {
        assert nows[1..][|nows[1..]| - 1] == nows[|nows| - 1];
      }
    }
  }

  /** However many frames pass with no key pressed, and however large the gaps between
      them, the buzzer fires at most once: the expiry pauses the clock. */
  lemma {:induction false} RunBuzzesAtMostOnce(c: Clock, nows: seq<real>)
    ensures Run(c, nows).buzzes <= c.buzzes + 1
    ensures c.paused ==> Run(c, nows).buzzes == c.buzzes
    decreases |nows|
  {
    if nows != [] {
      var c1 := TickStep(c, nows[0]);
      if c1.buzzes == c.buzzes {
        RunBuzzesAtMostOnce(c1, nows[1..]);
      } else {
        RunWhilePaused(c1, nows[1..]);
      }
    }
  }

  /** Frames at timestamps that never go backwards never raise either time, so they keep
      both times within their initial values; and they keep non-negative times
      non-negative (a negative start value is left where it is). */
  lemma {:induction false} RunKeepsBounds(c: Clock, nows: seq<real>)
    requires Ascending(c.lastUpdate, nows)
    ensures WithinInitial(c) ==> WithinInitial(Run(c, nows))
    ensures NonNegative(c) ==> NonNegative(Run(c, nows))
    ensures Run(c, nows).redTime <= c.redTime && Run(c, nows).blueTime <= c.blueTime
    decreases |nows|
  {
    if nows != [] {
      RunKeepsBounds(TickStep(c, nows[0]), nows[1..]);
    }
  }

  /** A running side with `t` seconds left, given frames that span at least `t` seconds,
      runs out: its time is 0, its flag is set, the buzzer has fired once, the turn has
      passed to the other side and the clock is paused. */
  lemma {:induction false} RunOut(c: Clock, nows: seq<real>)
    requires !c.paused && c.ActiveTime() > 0.0 && !c.ActiveEnded()
    requires Ascending(c.lastUpdate, nows) && nows != []
    requires nows[|nows| - 1] - c.lastUpdate >= MillisPerSecond * c.ActiveTime()
    ensures Run(c, nows).buzzes == c.buzzes + 1
    ensures Run(c, nows).player == Opponent(c.player) && Run(c, nows).paused
    ensures c.player == Red ==> Run(c, nows).redTime == 0.0 && Run(c, nows).redEnded
    ensures c.player != Red ==> Run(c, nows).blueTime == 0.0 && Run(c, nows).blueEnded
    decreases |nows|
  {
    var c1 := TickStep(c, nows[0]);
    var rest := nows[1..];
    if Expires(c, nows[0]) {
      RunWhilePaused(c1, rest);
    } else {
      assert c1.ActiveTime() == c.ActiveTime() - Elapsed(c, nows[0]);
      assert rest != [] && rest[|rest| - 1] == nows[|nows| - 1];
      RunOut(c1, rest);
    }
  }

  /** Red and blue start at 10 seconds with red to play, space resumes at 0 ms, and frames
      arrive at 5000 ms and 10200 ms: red shows 0, the buzzer has fired once, blue is to
      play and the clock is paused. */
  lemma TenSecondGame(c: Clock)
    ensures
      var started := StartStep(c, Some(10.0), Some(10.0), "red", 0.0);
      var d := Run(KeyStep(started, " ", 0.0), [5000.0, 10200.0]);
      Ceil(d.redTime) == 0 && d.buzzes == c.buzzes + 1 && d.player == Blue && d.paused
  {
    var started := StartStep(c, Some(10.0), Some(10.0), "red", 0.0);
    var running := KeyStep(started, " ", 0.0);
    KeyStepNeverSwitches(started, " ", 0.0);
    RunOut(running, [5000.0, 10200.0]);
  }
}
