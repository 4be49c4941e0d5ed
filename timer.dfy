/** The clock as the page keeps it: one object whose fields the animation frame, the
    start button and the key handler assign in place. Each method is proved to leave the
    state that the matching function of module Countdown describes. Timestamps (the
    browser's `performance.now()`) are passed in as `now`; the buzzer and the switch
    sound are counted, not played. */
module Timer {
  import opened Numeric
  import opened Countdown
  import Keys
  import Display

  class ClockState {
    var redTime: real
    var blueTime: real
    var redInitial: real
    var blueInitial: real
    var currentPlayer: Player
    var paused: bool
    var lastUpdateTime: real
    var redEnded: bool
    var blueEnded: bool
    // how often the buzzer and the switch sound have been played
    ghost var buzzes: nat
    ghost var chimes: nat

    /** The object's state as a value. */
    ghost function Model(): Clock
      reads this
    {
      Clock(redTime, blueTime, redInitial, blueInitial, currentPlayer, paused,
            lastUpdateTime, redEnded, blueEnded, buzzes, chimes)
    }

    ghost predicate Valid()
      reads this
    {
      Inv(Model())
    }

    /** The globals as the page loads them, with the tick reference set at load time. */
    constructor (now: real)
      ensures Valid()
      ensures Model() == Initial(now)
    {
      redTime, blueTime, redInitial, blueInitial := DefaultSeconds, DefaultSeconds, DefaultSeconds, DefaultSeconds;
      currentPlayer := Other;
      paused := true;
      lastUpdateTime := now;
      redEnded, blueEnded := false, false;
      buzzes, chimes := 0, 0;
    }

    /** One animation frame (animate): count the active side down, clamped at 0, and on
        its first reaching 0 sound the buzzer, hand the turn over and pause. */
    method Tick(now: real)
      requires Valid()
      modifies this
      ensures Valid()
      ensures Model() == TickStep(old(Model()), now)
    {
      var delta := (now - lastUpdateTime) / MillisPerSecond;
      lastUpdateTime := now;
      if !paused {
        if currentPlayer == Red {
          if redTime > 0.0 {
            redTime := Max(0.0, redTime - delta);
            if redTime == 0.0 && !redEnded {
              redEnded := true;
              buzzes := buzzes + 1;
              currentPlayer := Blue;
              blueEnded := false;
              paused := true;
            }
          }
        } else {
          if blueTime > 0.0 {
            blueTime := Max(0.0, blueTime - delta);
            if blueTime == 0.0 && !blueEnded {
              blueEnded := true;
              buzzes := buzzes + 1;
              currentPlayer := Red;
              redEnded := false;
              paused := true;
            }
          }
        }
      }
    }

    /** The "Start Timer" button: both times from the form (0 or not a number gives 30),
        the starting colour, flags cleared, paused, tick reference reset. */
    method Start(redInput: Option<real>, blueInput: Option<real>, startingColor: string, now: real)
      requires Valid()
      modifies this
      ensures Valid()
      ensures Model() == StartStep(old(Model()), redInput, blueInput, startingColor, now)
    {
      redTime := OrDefault(redInput);
      blueTime := OrDefault(blueInput);
      redInitial := redTime;
      blueInitial := blueTime;
      currentPlayer := PlayerOf(startingColor);
      redEnded := false;
      blueEnded := false;
      paused := true;
      lastUpdateTime := now;
    }

    /** The body of the switch branch. Its last assignment (`pause = true`) names
        no field of the clock, so it leaves `paused` alone. */
    method SwitchTurn(now: real)
      requires Valid()
      modifies this
      ensures Valid()
      ensures Model() == SwitchStep(old(Model()), now)
    {
      if !paused {
        chimes := chimes + 1;
        currentPlayer := if currentPlayer == Red then Blue else Red;
        lastUpdateTime := now;
      }
    }

    /** `passTurn`: flash the active side's indicator (none for a player that is neither
        red nor blue) and pause. */
    method PassTurn() returns (flash: Option<Player>)
      requires Valid()
      modifies this
      ensures Valid()
      ensures flash == Flashed(old(currentPlayer))
      ensures Model() == PassStep(old(Model()))
    {
      if currentPlayer == Red {
        flash := Some(Red);
      } else if currentPlayer == Blue {
        flash := Some(Blue);
      } else {
        flash := None;
      }
      paused := true;
    }

    /** Run one dispatched key command. */
    method Perform(cmd: Keys.Command, now: real)
      requires Valid()
      modifies this
      ensures Valid()
      ensures Model() == CommandStep(old(Model()), cmd, now)
    {
      match cmd
      case Switch =>
        SwitchTurn(now);
      case TogglePause =>
        paused := !paused;
        lastUpdateTime := now;
      case Restart =>
        paused := true;
      case Pass =>
        var flash := PassTurn();
      case NoCommand =>
    }

    /** The keydown handler as written: lower-case the key, then compare. */
    method KeyDown(key: string, now: real)
      requires Valid()
      modifies this
      ensures Valid()
      ensures Model() == KeyStep(old(Model()), key, now)
      ensures currentPlayer == old(currentPlayer)
    {
      KeyStepNeverSwitches(Model(), key, now);
      Perform(Keys.Dispatch(key), now);
    }

    /** The keydown handler with its switch branch bound to the right-arrow key. */
    method KeyDownIntended(key: string, now: real)
      requires Valid()
      modifies this
      ensures Valid()
      ensures Model() == IntendedKeyStep(old(Model()), key, now)
    {
      Perform(Keys.IntendedDispatch(key), now);
    }

    /** What `updateDisplays` writes: for each side the shown seconds (the ceiling of the
        remaining time), the drain height in percent and the drain colour. */
    method UpdateDisplays() returns (red: Display.Panel, blue: Display.Panel)
      requires Valid()
      ensures red.shown as real - 1.0 < redTime <= red.shown as real
      ensures blue.shown as real - 1.0 < blueTime <= blue.shown as real
      ensures 0.0 <= red.height <= 100.0 && 0.0 <= blue.height <= 100.0
      ensures red.height == 100.0 * Display.DrainFraction(redInitial, redTime)
      ensures blue.height == 100.0 * Display.DrainFraction(blueInitial, blueTime)
      ensures red.color == Display.InterpolateColor(Display.RedStart, Display.RedEnd, Display.DrainFraction(redInitial, redTime))
      ensures blue.color == Display.InterpolateColor(Display.BlueStart, Display.BlueEnd, Display.DrainFraction(blueInitial, blueTime))
      ensures Display.ColorBetween(red.color, Display.RedStart, Display.RedEnd)
      ensures Display.ColorBetween(blue.color, Display.BlueStart, Display.BlueEnd)
      ensures redTime == redInitial ==> red.height == 0.0 && red.color == Display.RedStart
      ensures 0.0 < redInitial && redTime <= 0.0 ==> red.height == 100.0 && red.color == Display.RedEnd
      ensures blueTime == blueInitial ==> blue.height == 0.0 && blue.color == Display.BlueStart
      ensures 0.0 < blueInitial && blueTime <= 0.0 ==> blue.height == 100.0 && blue.color == Display.BlueEnd
    {
      red := Display.PanelOf(redInitial, redTime, Display.RedStart, Display.RedEnd);
      blue := Display.PanelOf(blueInitial, blueTime, Display.BlueStart, Display.BlueEnd);
    }
  }
}
