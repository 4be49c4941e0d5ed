# Floor chess timer: a verified model of the two-player countdown

The floor chess timer is a browser page for buzzer and trivia games. It shows two
countdown clocks, red and blue. Only the side whose turn it is counts down. Each side
has a "drain" overlay that rises and lightens as its time is used up. A buzzer sounds
when a side runs out, and keys pause, restart or pass a turn. All of the behaviour lives
in `js/main.js`. There, module-level variables are updated by the animation frame
(`animate`), the "Start Timer" button, the keydown handler and `passTurn`.

This project models that state machine in Dafny:

- `Numeric`: the `Math` functions the page uses (`max`, `min`, `ceil`, `round`), over
  exact reals.
- `Keys`: the keydown handler's choice of command. The key is lower-cased first and
  then compared with fixed names.
- `Display`: the numbers behind each panel. These are the shown seconds, the clamped
  elapsed fraction that sets the drain height, and the blended drain colour
  (`interpolateColor`).
- `Countdown`: the clock's state as a value (`Clock`), with one function per handler
  giving the state it leaves behind. Lemmas state what the handlers promise: times never
  go negative or up, a paused clock does not move, only the active side moves, and the
  buzzer fires once per expiry. Expiry hands the turn over and pauses the clock.
- `Timer`: the class `ClockState`, whose fields are the page's variables. Its methods
  assign them in place and are proved to leave exactly the state the `Countdown`
  function describes.

The object invariant `Countdown.Inv` keeps two facts. No initial time is 0, so the drain
fraction never divides by zero. A side's ended flag is set only while its time is 0.
From the second fact, `RunningOutAlwaysBuzzes` shows that the `!redEnded` and
`!blueEnded` guards never hold a buzzer back in any reachable state: the `time > 0`
guard already prevents a second buzzer.

Where the documented design and the code differ, the model follows the code:

- The switch key does nothing (see Findings).
- `r` only pauses and shows the start form. It does not reset any time; only a later
  Start does.
- `|| 30` replaces only 0 and not-a-number. A negative start value is kept. That side
  then never counts down, because of the `time > 0` guard, and its drain fraction is
  `(initial - time) / initial`, clamped.
- The starting player is whatever string the form held. Any value other than "red" is
  counted down as blue by the tick. A value that is neither "red" nor "blue" makes
  `passTurn` flash nothing, and the switch body hands the turn to red.

## Model

| member | source | states |
|---|---|---|
| `Numeric.Max` | js/main.js:49 | `Math.max` is an upper bound of both arguments and equals one of them |
| `Numeric.Min` | js/main.js:30-31 | `Math.min` is a lower bound of both arguments and equals one of them |
| `Numeric.Ceil` | js/main.js:27-28 | the shown value is the least integer not below the time |
| `Numeric.Round` | js/main.js:20 | `Math.round` gives the integer within half of its argument, halves rounding up |
| `Numeric.CeilOfRemaining` | js/main.js:27-28 | a non-negative time shows 0 exactly when it is 0, and shows 1 for any time in (0, 1] |
| `Numeric.RoundWithin` | js/main.js:20 | rounding stays inside any integer interval holding its argument and returns an integer unchanged |
| `Keys.LowerChar` | js/main.js:118 | lower-casing a character leaves no upper-case letter and changes only A to Z |
| `Keys.Lower` | js/main.js:118 | the lower-cased key has the same length, is lower-cased character by character and holds no upper-case letter |
| `Keys.LowerNeverUpperInitial` | js/main.js:118-119 | no key lower-cases to a name that starts with an upper-case letter |
| `Keys.DispatchWith` | js/main.js:118-134 | the if-chain over the lower-cased key: the switch branch is taken exactly when the lower-cased key equals the switch name, and no command is chosen exactly when it equals none of the switch name, " ", "Space", "r" and "p" |
| `Keys.Dispatch` | js/main.js:117-134 | the handler as written: the switch branch is never taken, only the space character toggles pause, `r`/`R` restarts and `p`/`P` passes |
| `Keys.IntendedDispatch` | js/main.js:117-134 | the handler with the switch name `arrowright`: the switch branch is taken exactly for keys that lower-case to it, and every other key is dispatched as in the written handler |
| `Keys.LowerArrowRight` | js/main.js:118-119 | the browser's right-arrow key name lower-cases to `arrowright` |
| `Keys.IntendedDispatchCases` | js/main.js:117-119 | with the switch name `arrowright`, the right-arrow key ("ArrowRight") takes the switch branch |
| `Display.Lerp` | js/main.js:20 | the unrounded channel `start + (end - start) * factor` is the start channel at factor 0, the end channel at factor 1, and between the two for a factor in [0, 1] |
| `Display.Blend` | js/main.js:20 | one channel is the linear blend rounded to the nearest integer, halves up; it equals the start channel at factor 0 and the end channel at factor 1, and lies between the two for a factor in [0, 1] |
| `Display.InterpolateColor` | js/main.js:19-22 | each channel of the colour is its linear blend rounded to the nearest integer; the colour is `start` at factor 0 and `end` at factor 1, and each channel lies between the endpoints for a factor in [0, 1] |
| `Display.DrainFraction` | js/main.js:30-31 | the elapsed fraction is in [0, 1]; it is 0 when no time has been used (or, for a positive initial time, when the remaining time is at least the initial time) and 1 when none is left, and it is exactly `(initial - time) / initial` in between |
| `Display.PanelOf` | js/main.js:26-37 | a panel shows the ceiling of the time (0 exactly at 0); its drain height is 100 times the elapsed fraction, so it lies in [0, 100] and is `100 * (initial - time) / initial` for a time in [0, initial]; its colour is the blend at that fraction, between the side's two tones, which are the start tone at full time and the end tone at no time |
| `Countdown.PlayerOf` | js/main.js:161 | the form's colour counts as red or blue exactly when it is "red" or "blue" |
| `Countdown.Opponent` | js/main.js:122 | the turn always goes to red or blue, never to the side that had it, and to red from anything but red |
| `Countdown.Initial` | js/main.js:3-8 | the state at page load keeps the invariant: both times and both initial values at 30, both flags clear, no player, paused, nothing played |
| `Countdown.Elapsed` | js/main.js:43 | the seconds elapsed since the tick reference: times 1000 they are the milliseconds between the reference and `now`, and they are not negative when `now` is not earlier than the reference |
| `Countdown.TickStep` | js/main.js:41-70 | a frame moves the tick reference to `now`; a paused clock is otherwise unchanged; a running side with time left becomes `max(0, time - elapsed seconds)`; only the active side's time moves, never below 0 and never up when time goes forward; initials are kept; the buzzer fires exactly on expiry, which sets the flag, hands the turn over, clears the new side's flag and pauses; the invariant and the bounds are kept |
| `Countdown.OrDefault` | js/main.js:157-158 | a start value is never 0: 0 and not-a-number become 30, and any other number is kept |
| `Countdown.StartStep` | js/main.js:156-167 | Start sets each time to its initial value (30 for 0 or not-a-number), the player from the form, clears both flags, pauses and resets the tick reference; the invariant holds afterwards |
| `Countdown.SwitchStep` | js/main.js:120-125 | the switch body does nothing while paused; otherwise it hands the turn over, plays the switch sound once and resets the tick reference, without pausing or touching times or flags |
| `Countdown.Flashed` | js/main.js:139-151 | `passTurn` flashes the active side, and nothing for a player that is neither red nor blue |
| `Countdown.PassStep` | js/main.js:138-153 | `passTurn` pauses and changes nothing else |
| `Countdown.CommandStep` | js/main.js:119-134 | no key command touches times, initials, flags or the buzzer; toggle flips `paused` and resets the tick reference; restart and pass only pause; other keys change nothing; the invariant is kept |
| `Countdown.KeyStep` | js/main.js:117-135 | the written key handler never changes a time and keeps the invariant |
| `Countdown.IntendedKeyStep` | js/main.js:117-135 | the corrected key handler never changes a time and keeps the invariant |
| `Countdown.KeyStepNeverSwitches` | js/main.js:117-135 | no key changes whose turn it is or plays the switch sound; space flips `paused` and resets the tick reference; `r` and `p` only pause; every other key leaves the clock unchanged |
| `Countdown.IntendedKeyStepSwitches` | js/main.js:119-125 | in the corrected handler every key that lower-cases to `arrowright`, the right-arrow key among them, runs the switch body, which does nothing while paused, and other keys behave as written |
| `Countdown.SwitchTwice` | js/main.js:120-125 | two switches on a running clock give the turn back and play the switch sound twice |
| `Countdown.RunningOutAlwaysBuzzes` | js/main.js:48-56 | under the invariant, a running side whose positive time runs out on a tick always sounds the buzzer and pauses |
| `Countdown.Run` | js/main.js:41-73 | frames with no key pressed never change the initial values or play the switch sound |
| `Countdown.RunWhilePaused` | js/main.js:43-46 | while paused, frames only move the tick reference to the latest timestamp |
| `Countdown.RunBuzzesAtMostOnce` | js/main.js:46-69 | any number of frames, with any gaps, sound the buzzer at most once, and never while paused |
| `Countdown.RunKeepsBounds` | js/main.js:47-69 | frames at non-decreasing timestamps never raise either time, so they keep each time within its initial value, and they keep non-negative times non-negative |
| `Countdown.RunOut` | js/main.js:47-69 | frames spanning at least the active side's remaining time run it out: time 0, flag set, one buzzer, the turn passed over, paused |
| `Countdown.TenSecondGame` | js/main.js:41-70 | after Start at 10 s each with red first, space, and frames at 5 s and 10.2 s: red shows 0, one buzzer, blue to play, paused |
| `Timer.ClockState.constructor` | js/main.js:3-8 | the fields start as the page's globals, with the tick reference set at load |
| `Timer.ClockState.Tick` | js/main.js:41-70 | the frame handler leaves exactly the state `TickStep` gives and keeps the invariant |
| `Timer.ClockState.Start` | js/main.js:156-167 | the start button leaves exactly the state `StartStep` gives |
| `Timer.ClockState.SwitchTurn` | js/main.js:119-125 | the switch body leaves exactly the state `SwitchStep` gives |
| `Timer.ClockState.PassTurn` | js/main.js:138-153 | `passTurn` reports the flashed side and leaves exactly the state `PassStep` gives |
| `Timer.ClockState.Perform` | js/main.js:119-134 | a dispatched command leaves exactly the state `CommandStep` gives |
| `Timer.ClockState.KeyDown` | js/main.js:117-135 | the written key handler leaves exactly the state `KeyStep` gives and never changes the player |
| `Timer.ClockState.KeyDownIntended` | js/main.js:117-135 | the corrected key handler leaves exactly the state `IntendedKeyStep` gives |
| `Timer.ClockState.UpdateDisplays` | js/main.js:26-37 | each side shows the ceiling of its time; its drain height is 100 times its elapsed fraction, in [0, 100]; its drain colour is its two tones blended at that fraction, between the two, the start tone at full time and the end tone at no time |

## Left out

- Audio synthesis in `playBuzzer` and `playSwitchSound` (js/main.js:77-113) calls the browser's audio API. The model counts each call in the ghost counters `buzzes` and `chimes`.
- DOM writes are presentation and are not modelled: display text, overlay style strings, the start form's visibility, and the yellow flash with its 3-second revert through `setTimeout`. Only the numbers and the flashed side that feed them are modelled.
- `requestAnimationFrame` rescheduling and `window.onload` (js/main.js:73, 170-174) are event-loop plumbing. One frame is one `Tick` call, and the load-time timestamp is the constructor's `now`.
- `performance.now()` is a parameter `now`. Nothing requires successive timestamps to grow; the lemmas that need it say so.
- `parseFloat` is not modelled. A form field is an `Option<real>`, with `None` standing for not-a-number.
- Float behaviour is not modelled: times and fractions are exact reals, with no rounding, infinities or NaN.
- Keys.LowerChar, Keys.Lower: lower-case only the letters A to Z. `toLowerCase`'s other Unicode mappings are not modelled; none of them can produce the upper-case `A` or `S` that the dead comparisons need.
- The model assumes that `playBuzzer` always returns. It builds a new `AudioContext` on every call (js/main.js:78). If that throws, `animate` stops right after setting the ended flag (js/main.js:51). The turn is then not handed over, the clock is not paused, and the next frame is never scheduled (js/main.js:73). The model always completes the expiry instead.
- The model assumes that `passTurn` always reaches `paused = true`. `redSide` and `blueSide` (js/main.js:141, 147) are not declared in js/main.js and exist only as globals named after page elements. If such an element is missing, `passTurn` throws before it pauses (js/main.js:152). The model always pauses.
- Timer.ClockState.SwitchTurn: the switch body's closing `pause = true` creates or sets an unrelated global in sloppy-mode script. It is modelled as changing nothing, and the strict-mode reference error is not modelled.

## Findings

| source | as written | input that shows it | evidently intended | confidence | as-written member | corrected member |
|---|---|---|---|---|---|---|
| js/main.js:118-119 | the key is lower-cased and then compared with "Arrow.Right", which holds upper-case letters, so the switch branch can never run (the `'Space'` alternative at line 126 is dead the same way) | pressing the right-arrow key: `e.key` is "ArrowRight", which lower-cases to "arrowright" and falls through every branch | a key switches turns while the clock runs; the compared name points to the right-arrow key, which is what the corrected member uses, but the comment at js/main.js:116 names "s" as the switch key, so "s" is the documented alternative | not executed; high that the branch is dead, medium on which key was meant | `Keys.Dispatch` | `Countdown.IntendedKeyStepSwitches` |
