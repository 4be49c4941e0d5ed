/** The keydown handler's choice of command: the key name the browser reports is
    lower-cased first and only then compared with fixed names. */
module Keys {

  /** What a key press can ask the clock to do. */
  datatype Command = Switch | TogglePause | Restart | Pass | NoCommand

  /** The name the switch branch compares the lower-cased key with, as written. */
  const WrittenSwitchName: string := "Arrow.Right"

  /** The browser's name of the right-arrow key ("ArrowRight"), lower-cased. */
  const IntendedSwitchName: string := "arrowright"

  predicate IsUpper(ch: char) {
    'A' <= ch <= 'Z'
  }

  /** `toLowerCase` on one character, for the letters A to Z. */
  function LowerChar(ch: char): (r: char)
    ensures !IsUpper(r)
    ensures !IsUpper(ch) ==> r == ch
    ensures IsUpper(ch) ==> r as int == ch as int + 32
  {
    if IsUpper(ch) then (ch as int + 32) as char else ch
  }

  /** `toLowerCase` on a whole key name: same length, lower-cased character by
      character, and no upper-case letter left in it. */
  function Lower(s: string): (r: string)
    ensures |r| == |s|
    ensures forall i :: 0 <= i < |s| ==> r[i] == LowerChar(s[i])
    ensures forall i :: 0 <= i < |r| ==> !IsUpper(r[i])
  {
    if s == [] then [] else [LowerChar(s[0])] + Lower(s[1..])
  }

  /** The if-chain of the keydown handler, with the switch branch's key name as a
      parameter so that the written and the intended handler share it. */
  function DispatchWith(switchName: string, key: string): (cmd: Command)
    ensures cmd == Switch <==> Lower(key) == switchName
    ensures cmd == NoCommand <==> Lower(key) !in {switchName, " ", "Space", "r", "p"}
  {
    var k := Lower(key);
    if k == switchName then Switch
    else if k == " " || k == "Space" then TogglePause
    else if k == "r" then Restart
    else if k == "p" then Pass
    else NoCommand
  }

  /** The handler as written. Its switch branch is dead: a lower-cased key never equals
      "Arrow.Right". The `'Space'` alternative never matches either, so only the space
      character toggles pause; `r`/`R` restarts and `p`/`P` passes. */
  function Dispatch(key: string): (cmd: Command)
    ensures cmd != Switch
    ensures cmd == TogglePause <==> key == " "
    ensures cmd == Restart <==> key == "r" || key == "R"
    ensures cmd == Pass <==> key == "p" || key == "P"
  {
    LowerNeverUpperInitial(key, WrittenSwitchName);
    LowerNeverUpperInitial(key, "Space");
    LowerSingle(key, ' ');
    LowerSingle(key, 'r');
    LowerSingle(key, 'p');
    assert |key| == 1 ==> key == [key[0]];
    DispatchWith(WrittenSwitchName, key)
  }

  /** The handler with its switch branch comparing against a name that a lower-cased key
      can equal. */
  function IntendedDispatch(key: string): (cmd: Command)
    ensures cmd == Switch <==> Lower(key) == IntendedSwitchName
    ensures cmd != Switch ==> cmd == Dispatch(key)
  {
    LowerNeverUpperInitial(key, WrittenSwitchName);
    DispatchWith(IntendedSwitchName, key)
  }

  /** A lower-cased key equals a one-character name exactly when the key is one
      character whose lower-case form is that character. */
  lemma LowerSingle(key: string, ch: char)
    ensures Lower(key) == [ch] <==> |key| == 1 && LowerChar(key[0]) == ch
  {
    if |key| == 1 && LowerChar(key[0]) == ch {
      assert Lower(key)[0] == ch;
    }
  }

  /** No key name can lower-case to a name that starts with an upper-case letter. */
  lemma LowerNeverUpperInitial(key: string, name: string)
    requires |name| > 0 && IsUpper(name[0])
    ensures Lower(key) != name
  {
    if |Lower(key)| == |name| {
      assert Lower(key)[0] != name[0];
    }
  }

  /** The browser's right-arrow key name lower-cases to the intended switch name. */
  lemma LowerArrowRight()
    ensures Lower("ArrowRight") == IntendedSwitchName
  {
    var arrow := Lower("ArrowRight");
    forall i | 0 <= i < |arrow|
      ensures arrow[i] == IntendedSwitchName[i]
    {
      assert arrow[i] == LowerChar("ArrowRight"[i]);
    }
  }

  /** The intended handler switches turns on the right-arrow key. */
  lemma IntendedDispatchCases()
    ensures IntendedDispatch("ArrowRight") == Switch
  {
    LowerArrowRight();
  }
}
