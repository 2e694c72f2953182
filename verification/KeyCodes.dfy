/** Native key normalisation and the key / mouse-button name tables of the window
    (Window.h: enums KeyCodes and MouseButtonCodes; Window.cpp: ConvertGLFWKey,
    ConvertGLFWMouseButton, GetKeyName, GetMouseButtonName).

    The C++ enums are dense: every enumerator is its position, starting at 0, and the
    trailing NumKeyCodes / NumMouseButtonCodes enumerators are the array sizes. A key
    code is therefore an int below NumKeyCodes. Native codes are the constants of
    GLFW's glfw3.h (GLFW 3.3 and later); where a run of consecutive enumerators maps to
    a run of consecutive GLFW constants, the switch's cases are written as that run. */
module KeyCodes {

  const NumKeyCodes: int := 130
  const NumMouseButtonCodes: int := 7

  /** A value of the dense enum KeyCodes (UnknownKey .. Menu). */
  type KeyCode = k: int | 0 <= k < NumKeyCodes

  /** A value of the dense enum MouseButtonCodes (LeftButton .. Button7). */
  type MouseButtonCode = b: int | 0 <= b < NumMouseButtonCodes

  // Enumerators the rest of the model refers to by name.
  const UnknownKey: KeyCode := 0
  const A: KeyCode := 28

  // GLFW constants the rest of the model refers to by name.
  const GLFW_KEY_UNKNOWN: int := -1
  const GLFW_KEY_A: int := 65
  const GLFW_MOUSE_BUTTON_8: int := 7

  /** The GLFW code whose case label ConvertGLFWKey maps to each key code. */
  function GLFWKeyOf(k: KeyCode): int
  {
    if 16 <= k < 26 then 48 + (k - 16)  // Key0 .. Key9 -> GLFW_KEY_0 .. GLFW_KEY_9
    else if 28 <= k < 54 then 65 + (k - 28)  // A .. Z -> GLFW_KEY_A .. GLFW_KEY_Z
    else if 60 <= k < 74 then 256 + (k - 60)  // Escape .. End -> GLFW_KEY_ESCAPE .. GLFW_KEY_END
    else if 74 <= k < 79 then 280 + (k - 74)  // CapsLock .. Pause -> GLFW_KEY_CAPS_LOCK .. GLFW_KEY_PAUSE
    else if 79 <= k < 104 then 290 + (k - 79)  // F1 .. F25 -> GLFW_KEY_F1 .. GLFW_KEY_F25
    else if 104 <= k < 121 then 320 + (k - 104)  // KP0 .. KPEqual -> GLFW_KEY_KP_0 .. GLFW_KEY_KP_EQUAL
    else if 121 <= k < 130 then 340 + (k - 121)  // LeftShift .. Menu -> GLFW_KEY_LEFT_SHIFT .. GLFW_KEY_MENU
    else match k
      case 0 => -1  // UnknownKey -> GLFW_KEY_UNKNOWN
      case 1 => 0  // HatCentered -> GLFW_HAT_CENTERED
      case 2 => 1  // HatUp -> GLFW_HAT_UP
      case 3 => 2  // HatRight -> GLFW_HAT_RIGHT
      case 4 => 4  // HatDown -> GLFW_HAT_DOWN
      case 5 => 8  // HatLeft -> GLFW_HAT_LEFT
      case 6 => 3  // HatRightUp -> GLFW_HAT_RIGHT_UP
      case 7 => 6  // HatRightDown -> GLFW_HAT_RIGHT_DOWN
      case 8 => 9  // HatLeftUp -> GLFW_HAT_LEFT_UP
      case 9 => 12  // HatLeftDown -> GLFW_HAT_LEFT_DOWN
      case 10 => 32  // Space -> GLFW_KEY_SPACE
      case 11 => 39  // Apostrophe -> GLFW_KEY_APOSTROPHE
      case 12 => 44  // Comma -> GLFW_KEY_COMMA
      case 13 => 45  // Minus -> GLFW_KEY_MINUS
      case 14 => 46  // Period -> GLFW_KEY_PERIOD
      case 15 => 47  // Slash -> GLFW_KEY_SLASH
      case 26 => 59  // SemiColon -> GLFW_KEY_SEMICOLON
      case 27 => 61  // Equal -> GLFW_KEY_EQUAL
      case 54 => 91  // LeftBracket -> GLFW_KEY_LEFT_BRACKET
      case 55 => 92  // Backslash -> GLFW_KEY_BACKSLASH
      case 56 => 93  // RightBracket -> GLFW_KEY_RIGHT_BRACKET
      case 57 => 96  // GraveAccent -> GLFW_KEY_GRAVE_ACCENT
      case 58 => 161  // World1 -> GLFW_KEY_WORLD_1
      case 59 => 162  // World2 -> GLFW_KEY_WORLD_2
      case _ => -1  // unreachable: every other code lies in a run above
  }

  /** ConvertGLFWKey: the GLFW code of a key event becomes the dense enum value; the
      switch's default sends every code it does not list to UnknownKey. */
  function ConvertGLFWKey(glfwKey: int): (k: KeyCode)
    ensures k != UnknownKey ==> GLFWKeyOf(k) == glfwKey
    ensures glfwKey == GLFW_KEY_UNKNOWN ==> k == UnknownKey
  {
    if 48 <= glfwKey <= 57 then 16 + (glfwKey - 48)  // GLFW_KEY_0 .. GLFW_KEY_9 -> Key0 .. Key9
    else if 65 <= glfwKey <= 90 then 28 + (glfwKey - 65)  // GLFW_KEY_A .. GLFW_KEY_Z -> A .. Z
    else if 256 <= glfwKey <= 269 then 60 + (glfwKey - 256)  // GLFW_KEY_ESCAPE .. GLFW_KEY_END -> Escape .. End
    else if 280 <= glfwKey <= 284 then 74 + (glfwKey - 280)  // GLFW_KEY_CAPS_LOCK .. GLFW_KEY_PAUSE -> CapsLock .. Pause
    else if 290 <= glfwKey <= 314 then 79 + (glfwKey - 290)  // GLFW_KEY_F1 .. GLFW_KEY_F25 -> F1 .. F25
    else if 320 <= glfwKey <= 336 then 104 + (glfwKey - 320)  // GLFW_KEY_KP_0 .. GLFW_KEY_KP_EQUAL -> KP0 .. KPEqual
    else if 340 <= glfwKey <= 348 then 121 + (glfwKey - 340)  // GLFW_KEY_LEFT_SHIFT .. GLFW_KEY_MENU -> LeftShift .. Menu
    else match glfwKey
      case -1 => 0  // GLFW_KEY_UNKNOWN -> UnknownKey
      case 0 => 1  // GLFW_HAT_CENTERED -> HatCentered
      case 1 => 2  // GLFW_HAT_UP -> HatUp
      case 2 => 3  // GLFW_HAT_RIGHT -> HatRight
      case 4 => 4  // GLFW_HAT_DOWN -> HatDown
      case 8 => 5  // GLFW_HAT_LEFT -> HatLeft
      case 3 => 6  // GLFW_HAT_RIGHT_UP -> HatRightUp
      case 6 => 7  // GLFW_HAT_RIGHT_DOWN -> HatRightDown
      case 9 => 8  // GLFW_HAT_LEFT_UP -> HatLeftUp
      case 12 => 9  // GLFW_HAT_LEFT_DOWN -> HatLeftDown
      case 32 => 10  // GLFW_KEY_SPACE -> Space
      case 39 => 11  // GLFW_KEY_APOSTROPHE -> Apostrophe
      case 44 => 12  // GLFW_KEY_COMMA -> Comma
      case 45 => 13  // GLFW_KEY_MINUS -> Minus
      case 46 => 14  // GLFW_KEY_PERIOD -> Period
      case 47 => 15  // GLFW_KEY_SLASH -> Slash
      case 59 => 26  // GLFW_KEY_SEMICOLON -> SemiColon
      case 61 => 27  // GLFW_KEY_EQUAL -> Equal
      case 91 => 54  // GLFW_KEY_LEFT_BRACKET -> LeftBracket
      case 92 => 55  // GLFW_KEY_BACKSLASH -> Backslash
      case 93 => 56  // GLFW_KEY_RIGHT_BRACKET -> RightBracket
      case 96 => 57  // GLFW_KEY_GRAVE_ACCENT -> GraveAccent
      case 161 => 58  // GLFW_KEY_WORLD_1 -> World1
      case 162 => 59  // GLFW_KEY_WORLD_2 -> World2
      case _ => UnknownKey
  }

  /** GetKeyName's table, indexed by the enum's integer value and split by the groups
      of the KeyCodes declaration; anything that is not an enumerator falls through the
      switch to the empty string. */
  function GetKeyName(k: int): (name: string)
    ensures |name| > 0 <==> 0 <= k < NumKeyCodes
  {
    if k < 0 || NumKeyCodes <= k then ""
    else if k < 10 then (  // Hats
      match k
      case 0 => "Unknown"
      case 1 => "HatCentered"
      case 2 => "HatUp"
      case 3 => "HatRight"
      case 4 => "HatDown"
      case 5 => "HatLeft"
      case 6 => "HatRightUp"
      case 7 => "HatRightDown"
      case 8 => "HatLeftUp"
      case 9 => "HatLeftDown"
      case _ => "")
    else if k < 16 then (  // Punctuation
      match k
      case 10 => "Space"
      case 11 => "Apostrophe"
      case 12 => "Comma"
      case 13 => "Minus"
      case 14 => "Period"
      case 15 => "Slash"
      case _ => "")
    else if k < 28 then (  // Digits
      match k
      case 16 => "Key0"
      case 17 => "Key1"
      case 18 => "Key2"
      case 19 => "Key3"
      case 20 => "Key4"
      case 21 => "Key5"
      case 22 => "Key6"
      case 23 => "Key7"
      case 24 => "Key8"
      case 25 => "Key9"
      case 26 => "SemiColon"
      case 27 => "Equal"
      case _ => "")
    else if k < 54 then (  // Letters
      match k
      case 28 => "A"
      case 29 => "B"
      case 30 => "C"
      case 31 => "D"
      case 32 => "E"
      case 33 => "F"
      case 34 => "G"
      case 35 => "H"
      case 36 => "I"
      case 37 => "J"
      case 38 => "K"
      case 39 => "L"
      case 40 => "M"
      case 41 => "N"
      case 42 => "O"
      case 43 => "P"
      case 44 => "Q"
      case 45 => "R"
      case 46 => "S"
      case 47 => "T"
      case 48 => "U"
      case 49 => "V"
      case 50 => "W"
      case 51 => "X"
      case 52 => "Y"
      case 53 => "Z"
      case _ => "")
    else if k < 70 then (  // Editing
      match k
      case 54 => "LeftBracket"
      case 55 => "Backslash"
      case 56 => "RightBracket"
      case 57 => "GraveAccent"
      case 58 => "World1"
      case 59 => "World2"
      case 60 => "Escape"
      case 61 => "Enter"
      case 62 => "Tab"
      case 63 => "Backspace"
      case 64 => "Insert"
      case 65 => "Delete"
      case 66 => "Right"
      case 67 => "Left"
      case 68 => "Down"
      case 69 => "Up"
      case _ => "")
    else if k < 79 then (  // Navigation
      match k
      case 70 => "PageUp"
      case 71 => "PageDown"
      case 72 => "Home"
      case 73 => "End"
      case 74 => "CapsLock"
      case 75 => "ScrollLock"
      case 76 => "NumLock"
      case 77 => "PrintScreen"
      case 78 => "Pause"
      case _ => "")
    else if k < 104 then (  // FunctionKeys
      match k
      case 79 => "F1"
      case 80 => "F2"
      case 81 => "F3"
      case 82 => "F4"
      case 83 => "F5"
      case 84 => "F6"
      case 85 => "F7"
      case 86 => "F8"
      case 87 => "F9"
      case 88 => "F10"
      case 89 => "F11"
      case 90 => "F12"
      case 91 => "F13"
      case 92 => "F14"
      case 93 => "F15"
      case 94 => "F16"
      case 95 => "F17"
      case 96 => "F18"
      case 97 => "F19"
      case 98 => "F20"
      case 99 => "F21"
      case 100 => "F22"
      case 101 => "F23"
      case 102 => "F24"
      case 103 => "F25"
      case _ => "")
    else if k < 121 then (  // Keypad
      match k
      case 104 => "KP0"
      case 105 => "KP1"
      case 106 => "KP2"
      case 107 => "KP3"
      case 108 => "KP4"
      case 109 => "KP5"
      case 110 => "KP6"
      case 111 => "KP7"
      case 112 => "KP8"
      case 113 => "KP9"
      case 114 => "KPDecimal"
      case 115 => "KPDivide"
      case 116 => "KPMultiply"
      case 117 => "KPSubtract"
      case 118 => "KPAdd"
      case 119 => "KPEnter"
      case 120 => "KPEqual"
      case _ => "")
    else if k < 130 then (  // Modifiers
      match k
      case 121 => "LeftShift"
      case 122 => "LeftControl"
      case 123 => "LeftAlt"
      case 124 => "LeftSuper"
      case 125 => "RightShift"
      case 126 => "RightControl"
      case 127 => "RightAlt"
      case 128 => "RightSuper"
      case 129 => "Menu"
      case _ => "")
    else ""
  }

  /** A left inverse of GetKeyName on the key codes (KeyTablesInvert). It reads only a
      name's length, its last character and its middle character, which already tell
      the 130 names apart; -1 stands for "not a key name". */
  function KeyOfName(name: string): int
  {
    if |name| == 0 then -1 else
    var last, middle := name[|name| - 1], name[|name| / 2];
    match |name|
    case 1 => (
      match last
      case 'A' => if middle == 'A' then 28 else -1  // A
      case 'B' => if middle == 'B' then 29 else -1  // B
      case 'C' => if middle == 'C' then 30 else -1  // C
      case 'D' => if middle == 'D' then 31 else -1  // D
      case 'E' => if middle == 'E' then 32 else -1  // E
      case 'F' => if middle == 'F' then 33 else -1  // F
      case 'G' => if middle == 'G' then 34 else -1  // G
      case 'H' => if middle == 'H' then 35 else -1  // H
      case 'I' => if middle == 'I' then 36 else -1  // I
      case 'J' => if middle == 'J' then 37 else -1  // J
      case 'K' => if middle == 'K' then 38 else -1  // K
      case 'L' => if middle == 'L' then 39 else -1  // L
      case 'M' => if middle == 'M' then 40 else -1  // M
      case 'N' => if middle == 'N' then 41 else -1  // N
      case 'O' => if middle == 'O' then 42 else -1  // O
      case 'P' => if middle == 'P' then 43 else -1  // P
      case 'Q' => if middle == 'Q' then 44 else -1  // Q
      case 'R' => if middle == 'R' then 45 else -1  // R
      case 'S' => if middle == 'S' then 46 else -1  // S
      case 'T' => if middle == 'T' then 47 else -1  // T
      case 'U' => if middle == 'U' then 48 else -1  // U
      case 'V' => if middle == 'V' then 49 else -1  // V
      case 'W' => if middle == 'W' then 50 else -1  // W
      case 'X' => if middle == 'X' then 51 else -1  // X
      case 'Y' => if middle == 'Y' then 52 else -1  // Y
      case 'Z' => if middle == 'Z' then 53 else -1  // Z
      case _ => -1)
    case 2 => (
      match last
      case '1' => if middle == '1' then 79 else -1  // F1
      case '2' => if middle == '2' then 80 else -1  // F2
      case '3' => if middle == '3' then 81 else -1  // F3
      case '4' => if middle == '4' then 82 else -1  // F4
      case '5' => if middle == '5' then 83 else -1  // F5
      case '6' => if middle == '6' then 84 else -1  // F6
      case '7' => if middle == '7' then 85 else -1  // F7
      case '8' => if middle == '8' then 86 else -1  // F8
      case '9' => if middle == '9' then 87 else -1  // F9
      case 'p' => if middle == 'p' then 69 else -1  // Up
      case _ => -1)
    case 3 => (
      match last
      case '0' => (
        match middle
        case '1' => 88  // F10
        case '2' => 98  // F20
        case 'P' => 104  // KP0
        case _ => -1)
      case '1' => (
        match middle
        case '1' => 89  // F11
        case '2' => 99  // F21
        case 'P' => 105  // KP1
        case _ => -1)
      case '2' => (
        match middle
        case '1' => 90  // F12
        case '2' => 100  // F22
        case 'P' => 106  // KP2
        case _ => -1)
      case '3' => (
        match middle
        case '1' => 91  // F13
        case '2' => 101  // F23
        case 'P' => 107  // KP3
        case _ => -1)
      case '4' => (
        match middle
        case '1' => 92  // F14
        case '2' => 102  // F24
        case 'P' => 108  // KP4
        case _ => -1)
      case '5' => (
        match middle
        case '1' => 93  // F15
        case '2' => 103  // F25
        case 'P' => 109  // KP5
        case _ => -1)
      case '6' => (
        match middle
        case '1' => 94  // F16
        case 'P' => 110  // KP6
        case _ => -1)
      case '7' => (
        match middle
        case '1' => 95  // F17
        case 'P' => 111  // KP7
        case _ => -1)
      case '8' => (
        match middle
        case '1' => 96  // F18
        case 'P' => 112  // KP8
        case _ => -1)
      case '9' => (
        match middle
        case '1' => 97  // F19
        case 'P' => 113  // KP9
        case _ => -1)
      case 'b' => if middle == 'a' then 62 else -1  // Tab
      case 'd' => if middle == 'n' then 73 else -1  // End
      case _ => -1)
    case 4 => (
      match last
      case '0' => if middle == 'y' then 16 else -1  // Key0
      case '1' => if middle == 'y' then 17 else -1  // Key1
      case '2' => if middle == 'y' then 18 else -1  // Key2
      case '3' => if middle == 'y' then 19 else -1  // Key3
      case '4' => if middle == 'y' then 20 else -1  // Key4
      case '5' => if middle == 'y' then 21 else -1  // Key5
      case '6' => if middle == 'y' then 22 else -1  // Key6
      case '7' => if middle == 'y' then 23 else -1  // Key7
      case '8' => if middle == 'y' then 24 else -1  // Key8
      case '9' => if middle == 'y' then 25 else -1  // Key9
      case 'e' => if middle == 'm' then 72 else -1  // Home
      case 'n' => if middle == 'w' then 68 else -1  // Down
      case 't' => if middle == 'f' then 67 else -1  // Left
      case 'u' => if middle == 'n' then 129 else -1  // Menu
      case _ => -1)
    case 5 => (
      match last
      case 'a' => if middle == 'm' then 12 else -1  // Comma
      case 'd' => if middle == 'A' then 118 else -1  // KPAdd
      case 'e' => (
        match middle
        case 'a' => 10  // Space
        case 'u' => 78  // Pause
        case _ => -1)
      case 'h' => if middle == 'a' then 15 else -1  // Slash
      case 'l' => if middle == 'u' then 27 else -1  // Equal
      case 'p' => if middle == 't' then 2 else -1  // HatUp
      case 'r' => if middle == 't' then 61 else -1  // Enter
      case 's' => if middle == 'n' then 13 else -1  // Minus
      case 't' => if middle == 'g' then 66 else -1  // Right
      case _ => -1)
    case 6 => (
      match last
      case '1' => if middle == 'l' then 58 else -1  // World1
      case '2' => if middle == 'l' then 59 else -1  // World2
      case 'd' => if middle == 'i' then 14 else -1  // Period
      case 'e' => (
        match middle
        case 'a' => 60  // Escape
        case 'e' => 65  // Delete
        case _ => -1)
      case 'p' => if middle == 'e' then 70 else -1  // PageUp
      case 't' => if middle == 'e' then 64 else -1  // Insert
      case _ => -1)
    case 7 => (
      match last
      case 'k' => if middle == 'L' then 76 else -1  // NumLock
      case 'l' => if middle == 'q' then 120 else -1  // KPEqual
      case 'n' => (
        match middle
        case 'D' => 4  // HatDown
        case 'n' => 0  // Unknown
        case _ => -1)
      case 'r' => if middle == 'n' then 119 else -1  // KPEnter
      case 't' => (
        match middle
        case 'L' => 5  // HatLeft
        case 't' => 123  // LeftAlt
        case _ => -1)
      case _ => -1)
    case 8 => (
      match last
      case 'e' => if middle == 'v' then 115 else -1  // KPDivide
      case 'k' => if middle == 'L' then 74 else -1  // CapsLock
      case 'n' => if middle == 'D' then 71 else -1  // PageDown
      case 't' => (
        match middle
        case 'i' => 3  // HatRight
        case 't' => 127  // RightAlt
        case _ => -1)
      case _ => -1)
    case 9 => (
      match last
      case 'e' => if middle == 's' then 63 else -1  // Backspace
      case 'h' => if middle == 's' then 55 else -1  // Backslash
      case 'l' => if middle == 'c' then 114 else -1  // KPDecimal
      case 'n' => if middle == 'C' then 26 else -1  // SemiColon
      case 'p' => if middle == 'e' then 8 else -1  // HatLeftUp
      case 'r' => if middle == 'S' then 124 else -1  // LeftSuper
      case 't' => if middle == 'S' then 121 else -1  // LeftShift
      case _ => -1)
    case 10 => (
      match last
      case 'e' => if middle == 'r' then 11 else -1  // Apostrophe
      case 'k' => if middle == 'l' then 75 else -1  // ScrollLock
      case 'p' => if middle == 'g' then 6 else -1  // HatRightUp
      case 'r' => if middle == 'S' then 128 else -1  // RightSuper
      case 't' => (
        match middle
        case 'S' => 125  // RightShift
        case 't' => 117  // KPSubtract
        case _ => -1)
      case 'y' => if middle == 't' then 116 else -1  // KPMultiply
      case _ => -1)
    case 11 => (
      match last
      case 'd' => if middle == 'n' then 1 else -1  // HatCentered
      case 'l' => if middle == 'o' then 122 else -1  // LeftControl
      case 'n' => (
        match middle
        case 'S' => 77  // PrintScreen
        case 'f' => 9  // HatLeftDown
        case _ => -1)
      case 't' => (
        match middle
        case 'A' => 57  // GraveAccent
        case 'r' => 54  // LeftBracket
        case _ => -1)
      case _ => -1)
    case 12 => (
      match last
      case 'l' => if middle == 'o' then 126 else -1  // RightControl
      case 'n' => if middle == 'h' then 7 else -1  // HatRightDown
      case 't' => if middle == 'r' then 56 else -1  // RightBracket
      case _ => -1)
    case _ => -1
  }

  lemma KeyTablesInvertHats(k: KeyCode)
    requires 0 <= k < 10
    ensures ConvertGLFWKey(GLFWKeyOf(k)) == k
    ensures KeyOfName(GetKeyName(k)) == k
  {
  }

  lemma KeyTablesInvertPunctuation(k: KeyCode)
    requires 10 <= k < 16
    ensures ConvertGLFWKey(GLFWKeyOf(k)) == k
    ensures KeyOfName(GetKeyName(k)) == k
  {
  }

  lemma KeyTablesInvertDigits(k: KeyCode)
    requires 16 <= k < 28
    ensures ConvertGLFWKey(GLFWKeyOf(k)) == k
    ensures KeyOfName(GetKeyName(k)) == k
  {
  }

  lemma KeyTablesInvertLetters(k: KeyCode)
    requires 28 <= k < 54
    ensures ConvertGLFWKey(GLFWKeyOf(k)) == k
    ensures KeyOfName(GetKeyName(k)) == k
  {
  }

  lemma KeyTablesInvertEditing(k: KeyCode)
    requires 54 <= k < 70
    ensures ConvertGLFWKey(GLFWKeyOf(k)) == k
    ensures KeyOfName(GetKeyName(k)) == k
  {
  }

  lemma KeyTablesInvertNavigation(k: KeyCode)
    requires 70 <= k < 79
    ensures ConvertGLFWKey(GLFWKeyOf(k)) == k
    ensures KeyOfName(GetKeyName(k)) == k
  {
  }

  lemma KeyTablesInvertFunctionKeys(k: KeyCode)
    requires 79 <= k < 104
    ensures ConvertGLFWKey(GLFWKeyOf(k)) == k
    ensures KeyOfName(GetKeyName(k)) == k
  {
  }

  lemma KeyTablesInvertKeypad(k: KeyCode)
    requires 104 <= k < 121
    ensures ConvertGLFWKey(GLFWKeyOf(k)) == k
    ensures KeyOfName(GetKeyName(k)) == k
  {
  }

  lemma KeyTablesInvertModifiers(k: KeyCode)
    requires 121 <= k < 130
    ensures ConvertGLFWKey(GLFWKeyOf(k)) == k
    ensures KeyOfName(GetKeyName(k)) == k
  {
  }

  /** Every key code is reached from its own GLFW code, and its name identifies it. */
  lemma KeyTablesInvert(k: KeyCode)
    ensures ConvertGLFWKey(GLFWKeyOf(k)) == k
    ensures KeyOfName(GetKeyName(k)) == k
  {
    if k < 10 {
      KeyTablesInvertHats(k);
    } else if k < 16 {
      KeyTablesInvertPunctuation(k);
    } else if k < 28 {
      KeyTablesInvertDigits(k);
    } else if k < 54 {
      KeyTablesInvertLetters(k);
    } else if k < 70 {
      KeyTablesInvertEditing(k);
    } else if k < 79 {
      KeyTablesInvertNavigation(k);
    } else if k < 104 {
      KeyTablesInvertFunctionKeys(k);
    } else if k < 121 {
      KeyTablesInvertKeypad(k);
    } else {
      KeyTablesInvertModifiers(k);
    }
  }

  /** GetKeyName gives distinct names to distinct key codes. */
  lemma KeyNamesDistinct(a: KeyCode, b: KeyCode)
    requires a != b
    ensures GetKeyName(a) != GetKeyName(b)
  {
    KeyTablesInvert(a);
    KeyTablesInvert(b);
  }

  /** ConvertGLFWKey sends a listed GLFW code to the one key whose code it is, and an
      unlisted one to UnknownKey. */
  lemma ConvertGLFWKeyExactly(glfwKey: int, k: KeyCode)
    requires k != UnknownKey
    ensures ConvertGLFWKey(glfwKey) == k <==> GLFWKeyOf(k) == glfwKey
  {
    if GLFWKeyOf(k) == glfwKey {
      KeyTablesInvert(k);
    }
  }

  /** A GLFW code that no enumerator lists normalises to UnknownKey. */
  lemma UnlistedIsUnknown(glfwKey: int)
    requires forall k: KeyCode :: GLFWKeyOf(k) != glfwKey
    ensures ConvertGLFWKey(glfwKey) == UnknownKey
  {
  }

  /** The GLFW code of each mouse button (GLFW_MOUSE_BUTTON_1 .. GLFW_MOUSE_BUTTON_7
      are 0 .. 6 in glfw3.h). */
  function GLFWMouseButtonOf(b: MouseButtonCode): int
  {
    match b
    case 0 => 0  // LeftButton -> GLFW_MOUSE_BUTTON_LEFT
    case 1 => 1  // RightButton -> GLFW_MOUSE_BUTTON_RIGHT
    case 2 => 2  // MiddleWheel -> GLFW_MOUSE_BUTTON_MIDDLE
    case 3 => 3  // Button4 -> GLFW_MOUSE_BUTTON_4
    case 4 => 4  // Button5 -> GLFW_MOUSE_BUTTON_5
    case 5 => 5  // Button6 -> GLFW_MOUSE_BUTTON_6
    case 6 => 6  // Button7 -> GLFW_MOUSE_BUTTON_7
  }

  /** ConvertGLFWMouseButton as written: its switch has no default and nothing after
      it, so only the seven listed codes have a defined result. */
  function ConvertGLFWMouseButton(glfwButton: int): (b: MouseButtonCode)
    requires 0 <= glfwButton < NumMouseButtonCodes
    ensures GLFWMouseButtonOf(b) == glfwButton
  {
    match glfwButton
    case 0 => 0  // GLFW_MOUSE_BUTTON_LEFT -> LeftButton
    case 1 => 1  // GLFW_MOUSE_BUTTON_RIGHT -> RightButton
    case 2 => 2  // GLFW_MOUSE_BUTTON_MIDDLE -> MiddleWheel
    case 3 => 3  // GLFW_MOUSE_BUTTON_4 -> Button4
    case 4 => 4  // GLFW_MOUSE_BUTTON_5 -> Button5
    case 5 => 5  // GLFW_MOUSE_BUTTON_6 -> Button6
    case 6 => 6  // GLFW_MOUSE_BUTTON_7 -> Button7
  }

  /** Every mouse button is reached from its own GLFW code. */
  lemma MouseButtonTablesInvert(b: MouseButtonCode)
    ensures ConvertGLFWMouseButton(GLFWMouseButtonOf(b)) == b
  {
  }

  /** GetMouseButtonName's table; the empty string for anything that is not one of the
      seven enumerators. */
  function GetMouseButtonName(b: int): (name: string)
    ensures |name| > 0 <==> 0 <= b < NumMouseButtonCodes
  {
    match b
    case 0 => "MouseLeft"
    case 1 => "MouseRight"
    case 2 => "MouseMiddle"
    case 3 => "Mouse4"
    case 4 => "Mouse5"
    case 5 => "Mouse6"
    case 6 => "Mouse7"
    case _ => ""
  }

  /** GetMouseButtonName gives distinct names to distinct buttons. */
  lemma MouseButtonNamesDistinct(a: MouseButtonCode, b: MouseButtonCode)
    requires a != b
    ensures GetMouseButtonName(a) != GetMouseButtonName(b)
  {
  }
}
