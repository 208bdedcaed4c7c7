/**
 * The key encoding of the input sender: each UTF-16 unit of the key string is looked
 * up in the character-to-virtual-key table, one keyboard input is filled in per unit
 * for the press, and the same array is filled in again for the release. The Win32
 * calls themselves (`SendInput`, `MapVirtualKeyA`) and the wait between the two
 * passes are not modelled; the inputs handed to each `SendInput` call are returned.
 */
module Key {
  import opened Options
  import opened Text

  /** `charToKeyMap[v]`: digits, letters in both cases and the four arrows; `undefined` for any other unit. */
  function KeyCode(c: char): Option<int> {
    match c
    case '0' => Some(48)
    case '1' => Some(49)
    case '2' => Some(50)
    case '3' => Some(51)
    case '4' => Some(52)
    case '5' => Some(53)
    case '6' => Some(54)
    case '7' => Some(55)
    case '8' => Some(56)
    case '9' => Some(57)
    case 'a' => Some(65)
    case 'b' => Some(66)
    case 'c' => Some(67)
    case 'd' => Some(68)
    case 'e' => Some(69)
    case 'f' => Some(70)
    case 'g' => Some(71)
    case 'h' => Some(72)
    case 'i' => Some(73)
    case 'j' => Some(74)
    case 'k' => Some(75)
    case 'l' => Some(76)
    case 'm' => Some(77)
    case 'n' => Some(78)
    case 'o' => Some(79)
    case 'p' => Some(80)
    case 'q' => Some(81)
    case 'r' => Some(82)
    case 's' => Some(83)
    case 't' => Some(84)
    case 'u' => Some(85)
    case 'v' => Some(86)
    case 'w' => Some(87)
    case 'x' => Some(88)
    case 'y' => Some(89)
    case 'z' => Some(90)
    case 'A' => Some(65)
    case 'B' => Some(66)
    case 'C' => Some(67)
    case 'D' => Some(68)
    case 'E' => Some(69)
    case 'F' => Some(70)
    case 'G' => Some(71)
    case 'H' => Some(72)
    case 'I' => Some(73)
    case 'J' => Some(74)
    case 'K' => Some(75)
    case 'L' => Some(76)
    case 'M' => Some(77)
    case 'N' => Some(78)
    case 'O' => Some(79)
    case 'P' => Some(80)
    case 'Q' => Some(81)
    case 'R' => Some(82)
    case 'S' => Some(83)
    case 'T' => Some(84)
    case 'U' => Some(85)
    case 'V' => Some(86)
    case 'W' => Some(87)
    case 'X' => Some(88)
    case 'Y' => Some(89)
    case 'Z' => Some(90)
    case '←' => Some(37)
    case '↑' => Some(38)
    case '→' => Some(39)
    case '↓' => Some(40)
    case _ => None
  }

  const INPUT_KEYBOARD := 1
  const KEYEVENTF_KEYDOWN := 0x0
  const KEYEVENTF_KEYUP := 0x2
  const KEYEVENTF_EXTENDEDKEY := 0x1

  /** A code point above the Basic Multilingual Plane is two UTF-16 units, neither of them in the table. */
  function Units(c: char): nat {
    if c as int > 0xFFFF then 2 else 1
  }

  /** `char.split('').map((v) => charToKeyMap[v])`: one entry per UTF-16 unit, in order. */
  function KeyCodes(s: string): (r: seq<Option<int>>)
    ensures |r| == Utf16Length(s)
  {
    if s == [] then []
    else (if Units(s[0]) == 2 then [None, None] else [KeyCode(s[0])]) + KeyCodes(s[1..])
  }

  /**
   * On a string with no character outside the Basic Multilingual Plane, the split has one
   * entry per character, and entry `i` is the table's code for character `i`.
   */
  lemma {:induction false} KeyCodesAt(s: string)
    requires forall i :: 0 <= i < |s| ==> s[i] as int <= 0xFFFF
    ensures |KeyCodes(s)| == |s|
    ensures forall i :: 0 <= i < |s| ==> KeyCodes(s)[i] == KeyCode(s[i])
  {
    if s != [] {
      KeyCodesAt(s[1..]);
      assert KeyCodes(s) == [KeyCode(s[0])] + KeyCodes(s[1..]);
      forall i | 0 < i < |s| ensures KeyCodes(s)[i] == KeyCode(s[i]) {
        assert s[1..][i - 1] == s[i];
      }
    }
  }

  /** A character outside the Basic Multilingual Plane splits into two surrogate halves, neither of which the table holds. */
  lemma KeyCodesAstral(c: char, s: string)
    requires c as int > 0xFFFF
    ensures KeyCodes([c] + s) == [None, None] + KeyCodes(s)
  {
    assert ([c] + s)[1..] == s;
  }

  /** `keys.length`, the length of the key string in UTF-16 units. */
  function Utf16Length(s: string): nat {
    if s == [] then 0 else Units(s[0]) + Utf16Length(s[1..])
  }

  /** The exact-code arrow test; an `undefined` code fails it. */
  predicate IsArrow(vk: Option<int>) {
    vk.Some? && 37 <= vk.value <= 40
  }

  function PressFlags(vk: Option<int>): int {
    if IsArrow(vk) then KEYEVENTF_KEYDOWN + KEYEVENTF_EXTENDEDKEY else KEYEVENTF_KEYDOWN
  }

  function ReleaseFlags(vk: Option<int>): int {
    if IsArrow(vk) then KEYEVENTF_KEYUP + KEYEVENTF_EXTENDEDKEY else KEYEVENTF_KEYUP
  }

  /** The modelled fields of one `INPUT` record: `type`, `u.ki.wVk`, `u.ki.dwFlags` and `u.ki.time`. */
  datatype KeyInput = KeyInput(inputType: int, wVk: Option<int>, dwFlags: int, time: int)

  /** A freshly allocated, zero-filled record. */
  const BlankInput := KeyInput(0, Some(0), 0, 0)

  function PressInput(vk: Option<int>): KeyInput {
    KeyInput(INPUT_KEYBOARD, vk, PressFlags(vk), 0)
  }

  function ReleaseInput(vk: Option<int>): KeyInput {
    KeyInput(INPUT_KEYBOARD, vk, ReleaseFlags(vk), 0)
  }

  /**
   * `startInputKey`: fill the array for the press, hand it over, then refill the same
   * array for the release and hand it over again. Both passes cover every unit of the
   * key string, in order, with the same codes.
   */
  method InputKey(key: string) returns (pressed: seq<KeyInput>, released: seq<KeyInput>)
    ensures |pressed| == |released| == Utf16Length(key)
    ensures forall i :: 0 <= i < |pressed| ==> pressed[i] == PressInput(KeyCodes(key)[i])
    ensures forall i :: 0 <= i < |released| ==> released[i] == ReleaseInput(KeyCodes(key)[i])
  {
    var keys := KeyCodes(key);
    var inputs := new KeyInput[|keys|](_ => BlankInput);
    var j := 0;
    while j < |keys|
      invariant 0 <= j <= |keys|
      invariant forall i :: 0 <= i < j ==> inputs[i] == PressInput(keys[i])
    {
      var vk := keys[j];
      inputs[j] := KeyInput(INPUT_KEYBOARD, vk, inputs[j].dwFlags, inputs[j].time);
      inputs[j] := inputs[j].(dwFlags := if IsArrow(vk) then KEYEVENTF_KEYDOWN + KEYEVENTF_EXTENDEDKEY else KEYEVENTF_KEYDOWN);
      inputs[j] := inputs[j].(time := 0);
      j := j + 1;
    }
    pressed := inputs[..];
    j := 0;
    while j < |keys|
      invariant 0 <= j <= |keys|
      invariant forall i :: 0 <= i < j ==> inputs[i] == ReleaseInput(keys[i])
    {
      var vk := keys[j];
      inputs[j] := KeyInput(INPUT_KEYBOARD, vk, inputs[j].dwFlags, inputs[j].time);
      inputs[j] := inputs[j].(dwFlags := if IsArrow(vk) then KEYEVENTF_KEYUP + KEYEVENTF_EXTENDEDKEY else KEYEVENTF_KEYUP);
      inputs[j] := inputs[j].(time := 0);
      j := j + 1;
    }
    released := inputs[..];
  }

  // ---------------------------------------------------------------- the table and the flag rule

  /** The digits map to their ASCII codes, 48 to 57. */
  lemma DigitCodes(c: char)
    requires '0' <= c <= '9'
    ensures KeyCode(c) == Some(c as int)
  {
    if c == '0' {
    } else if c == '1' {
    } else if c == '2' {
    } else if c == '3' {
    } else if c == '4' {
    } else if c == '5' {
    } else if c == '6' {
    } else if c == '7' {
    } else if c == '8' {
    } else {
      assert c == '9';
    }
  }

  /** Each lower-case letter maps to the code of its capital, 65 to 90. */
  lemma LowerLetterCodes(c: char)
    requires 'a' <= c <= 'z'
    ensures KeyCode(c) == Some(c as int - 32)
  {
    if c == 'a' {
    } else if c == 'b' {
    } else if c == 'c' {
    } else if c == 'd' {
    } else if c == 'e' {
    } else if c == 'f' {
    } else if c == 'g' {
    } else if c == 'h' {
    } else if c == 'i' {
    } else if c == 'j' {
    } else if c == 'k' {
    } else if c == 'l' {
    } else if c == 'm' {
    } else if c == 'n' {
    } else if c == 'o' {
    } else if c == 'p' {
    } else if c == 'q' {
    } else if c == 'r' {
    } else if c == 's' {
    } else if c == 't' {
    } else if c == 'u' {
    } else if c == 'v' {
    } else if c == 'w' {
    } else if c == 'x' {
    } else if c == 'y' {
    } else {
      assert c == 'z';
    }
  }

  /** Each capital maps to its own ASCII code, 65 to 90. */
  lemma UpperLetterCodes(c: char)
    requires 'A' <= c <= 'Z'
    ensures KeyCode(c) == Some(c as int)
  {
    if c == 'A' {
    } else if c == 'B' {
    } else if c == 'C' {
    } else if c == 'D' {
    } else if c == 'E' {
    } else if c == 'F' {
    } else if c == 'G' {
    } else if c == 'H' {
    } else if c == 'I' {
    } else if c == 'J' {
    } else if c == 'K' {
    } else if c == 'L' {
    } else if c == 'M' {
    } else if c == 'N' {
    } else if c == 'O' {
    } else if c == 'P' {
    } else if c == 'Q' {
    } else if c == 'R' {
    } else if c == 'S' {
    } else if c == 'T' {
    } else if c == 'U' {
    } else if c == 'V' {
    } else if c == 'W' {
    } else if c == 'X' {
    } else if c == 'Y' {
    } else {
      assert c == 'Z';
    }
  }

  lemma ArrowCodes()
    ensures KeyCode('←') == Some(37) && KeyCode('↑') == Some(38)
    ensures KeyCode('→') == Some(39) && KeyCode('↓') == Some(40)
  {
  }

  /** The table holds exactly the digits, the ASCII letters and the four arrows. */
  lemma TableDomain(c: char)
    ensures KeyCode(c).Some? <==> '0' <= c <= '9' || 'a' <= c <= 'z' || 'A' <= c <= 'Z' || c == '←' || c == '↑' || c == '→' || c == '↓'
  {
    if '0' <= c <= '9' {
      DigitCodes(c);
    } else if 'a' <= c <= 'z' {
      LowerLetterCodes(c);
    } else if 'A' <= c <= 'Z' {
      UpperLetterCodes(c);
    }
  }

  /** The arrows, and only the arrows, are extended keys. */
  lemma ArrowsAreExtended(c: char)
    ensures IsArrow(KeyCode(c)) <==> c == '←' || c == '↑' || c == '→' || c == '↓'
  {
    TableDomain(c);
    if '0' <= c <= '9' {
      DigitCodes(c);
    } else if 'a' <= c <= 'z' {
      LowerLetterCodes(c);
    } else if 'A' <= c <= 'Z' {
      UpperLetterCodes(c);
    } else {
      ArrowCodes();
    }
  }

  /** Both flag words carry the extended bit exactly for an arrow; the release word is the press word plus `KEYEVENTF_KEYUP`. */
  lemma FlagRule(vk: Option<int>)
    ensures PressFlags(vk) == (if IsArrow(vk) then 1 else 0)
    ensures ReleaseFlags(vk) == PressFlags(vk) + KEYEVENTF_KEYUP
  {
  }

  /** Lowercasing a key string changes none of its codes, so the random mode's `toLowerCase` presses the same keys. */
  lemma {:induction false} KeyCodesIgnoreCase(s: string)
    ensures KeyCodes(ToLower(s)) == KeyCodes(s)
  {
    if s != [] {
      var c := s[0];
      assert KeyCode(LowerChar(c)) == KeyCode(c) by {
        if 'A' <= c <= 'Z' {
          UpperLetterCodes(c);
          LowerLetterCodes(LowerChar(c));
        }
      }
      assert ToLower(s)[1..] == ToLower(s[1..]);
      KeyCodesIgnoreCase(s[1..]);
    }
  }

  /** The release pass presses nothing new: the same codes, in the same order, each with the key-up bit added. */
  lemma ReleaseMatchesPress(pressed: seq<KeyInput>, released: seq<KeyInput>, key: string)
    requires |pressed| == |released| == Utf16Length(key)
    requires forall i :: 0 <= i < |pressed| ==> pressed[i] == PressInput(KeyCodes(key)[i])
    requires forall i :: 0 <= i < |released| ==> released[i] == ReleaseInput(KeyCodes(key)[i])
    ensures forall i :: 0 <= i < |pressed| ==>
      released[i].wVk == pressed[i].wVk && released[i].dwFlags == pressed[i].dwFlags + KEYEVENTF_KEYUP
  {
  }
}
