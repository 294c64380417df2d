/**
 * The ASCII-to-keycode table of src/main.c (`char_to_keycode`), and the
 * US keyboard it is meant for, as an independent reference: the legends
 * printed on each key of the Keyboard/Keypad usage page (page 0x07 of the
 * USB HID Usage Tables, section 10), with and without shift.
 *
 * A keyboard report pairs a modifier byte with a keycode; `Typed` says what
 * character a host with a US layout reads from it, so that the lemmas below
 * can state that the table presses the key that carries each character.
 */
module Keymap {
  import opened CTypes

  // Usage IDs of the Keyboard/Keypad page
  const KEY_NONE: Byte := 0x00
  const KEY_A: Byte := 0x04
  const KEY_Z: Byte := 0x1D
  const KEY_1: Byte := 0x1E
  const KEY_2: Byte := 0x1F
  const KEY_3: Byte := 0x20
  const KEY_4: Byte := 0x21
  const KEY_5: Byte := 0x22
  const KEY_6: Byte := 0x23
  const KEY_7: Byte := 0x24
  const KEY_8: Byte := 0x25
  const KEY_9: Byte := 0x26
  const KEY_0: Byte := 0x27
  const KEY_ENTER: Byte := 0x28
  const KEY_ESCAPE: Byte := 0x29
  const KEY_TAB: Byte := 0x2B
  const KEY_SPACE: Byte := 0x2C
  const KEY_MINUS: Byte := 0x2D
  const KEY_EQUAL: Byte := 0x2E
  const KEY_BRACKET_LEFT: Byte := 0x2F
  const KEY_BRACKET_RIGHT: Byte := 0x30
  const KEY_BACKSLASH: Byte := 0x31
  const KEY_SEMICOLON: Byte := 0x33
  const KEY_APOSTROPHE: Byte := 0x34
  const KEY_GRAVE: Byte := 0x35
  const KEY_COMMA: Byte := 0x36
  const KEY_PERIOD: Byte := 0x37
  const KEY_SLASH: Byte := 0x38

  // Modifier bits of a keyboard report
  const MOD_NONE: Byte := 0x00
  const MOD_LEFTSHIFT: Byte := 0x02
  const MOD_LEFTGUI: Byte := 0x08

  /** One keyboard report: the modifier bits and the one key held down (0 for none). */
  datatype Report = Report(modifier: Byte, keycode: Byte)

  /** The report that releases every key. */
  const RELEASE: Report := Report(MOD_NONE, KEY_NONE)

  /**
   * `char_to_keycode`: letters of either case to their letter key, digits
   * to their digit key, space, tab and newline to their keys, and each
   * punctuation character to the key that carries it, shifted or not;
   * every other character to 0 (no key). What it returns is always a key
   * of the typing block of the usage page, or 0.
   */
  function CharToKeycode(c: char): (k: Byte)
    ensures k == KEY_NONE || KEY_A <= k <= KEY_SLASH
  {
    if 'a' <= c <= 'z' then KEY_A + (c as int - 'a' as int)
    else if 'A' <= c <= 'Z' then KEY_A + (c as int - 'A' as int)
    else if '1' <= c <= '9' then KEY_1 + (c as int - '1' as int)
    else if c == '0' then KEY_0
    else if c == ' ' then KEY_SPACE
    else if c == '\t' then KEY_TAB
    else if c == '\n' then KEY_ENTER
    else
      match c
      case '!' => KEY_1
      case '@' => KEY_2
      case '#' => KEY_3
      case '$' => KEY_4
      case '%' => KEY_5
      case '^' => KEY_6
      case '&' => KEY_7
      case '*' => KEY_8
      case '(' => KEY_9
      case ')' => KEY_0
      case '-' => KEY_MINUS
      case '_' => KEY_MINUS
      case '=' => KEY_EQUAL
      case '+' => KEY_EQUAL
      case '[' => KEY_BRACKET_LEFT
      case '{' => KEY_BRACKET_LEFT
      case ']' => KEY_BRACKET_RIGHT
      case '}' => KEY_BRACKET_RIGHT
      case '\\' => KEY_BACKSLASH
      case '|' => KEY_BACKSLASH
      case ';' => KEY_SEMICOLON
      case ':' => KEY_SEMICOLON
      case '\'' => KEY_APOSTROPHE
      case '"' => KEY_APOSTROPHE
      case '`' => KEY_GRAVE
      case '~' => KEY_GRAVE
      case ',' => KEY_COMMA
      case '<' => KEY_COMMA
      case '.' => KEY_PERIOD
      case '>' => KEY_PERIOD
      case '/' => KEY_SLASH
      case '?' => KEY_SLASH
      case _ => KEY_NONE
  }

  // ---------------------------------------------------------------------
  // The reference: key legends of a US keyboard
  // ---------------------------------------------------------------------

  /** No legend: the key types no character (Escape, Backspace, the non-US key, anything outside the typing block). */
  const NO_CHAR: char := '\0'

  /** The character key `u` types without shift on a US layout. */
  function Plain(u: Byte): char
  {
    if KEY_A <= u <= KEY_Z then ('a' as int + (u - KEY_A)) as char
    else if KEY_1 <= u <= KEY_9 then ('1' as int + (u - KEY_1)) as char
    else
      match u
      case 0x27 => '0'
      case 0x28 => '\n'
      case 0x2B => '\t'
      case 0x2C => ' '
      case 0x2D => '-'
      case 0x2E => '='
      case 0x2F => '['
      case 0x30 => ']'
      case 0x31 => '\\'
      case 0x33 => ';'
      case 0x34 => '\''
      case 0x35 => '`'
      case 0x36 => ','
      case 0x37 => '.'
      case 0x38 => '/'
      case _ => NO_CHAR
  }

  /** The character key `u` types with shift held on a US layout. */
  function Shifted(u: Byte): char
  {
    if KEY_A <= u <= KEY_Z then ('A' as int + (u - KEY_A)) as char
    else
      match u
      case 0x1E => '!'
      case 0x1F => '@'
      case 0x20 => '#'
      case 0x21 => '$'
      case 0x22 => '%'
      case 0x23 => '^'
      case 0x24 => '&'
      case 0x25 => '*'
      case 0x26 => '('
      case 0x27 => ')'
      case 0x28 => '\n'
      case 0x2B => '\t'
      case 0x2C => ' '
      case 0x2D => '_'
      case 0x2E => '+'
      case 0x2F => '{'
      case 0x30 => '}'
      case 0x31 => '|'
      case 0x33 => ':'
      case 0x34 => '"'
      case 0x35 => '~'
      case 0x36 => '<'
      case 0x37 => '>'
      case 0x38 => '?'
      case _ => NO_CHAR
  }

  /** What a host with a US layout types for a report: NO_CHAR when it types nothing or the modifiers are neither none nor left shift alone. */
  function Typed(r: Report): char
  {
    if r.modifier == MOD_NONE then Plain(r.keycode)
    else if r.modifier == MOD_LEFTSHIFT then Shifted(r.keycode)
    else NO_CHAR
  }

  /** A character typed with shift held: a capital letter or a symbol on the upper half of a key. */
  predicate IsShiftedChar(c: char)
  {
    'A' <= c <= 'Z' || c in {'!', '@', '#', '$', '%', '^', '&', '*', '(', ')', '_', '+', '{', '}', '|', ':', '"', '~', '<', '>', '?'}
  }

  /**
   * The table presses the key that carries the character: for every
   * character it maps, the key's legend is the character, shifted exactly
   * when the character is a shifted one.
   */
  lemma KeycodeCarriesChar(c: char)
    requires CharToKeycode(c) != KEY_NONE
    ensures IsShiftedChar(c) ==> Shifted(CharToKeycode(c)) == c
    ensures !IsShiftedChar(c) ==> Plain(CharToKeycode(c)) == c
  {
  }

  /**
   * Conversely, every legend of every key of the typing block is a
   * character the table maps, and it maps it to that key: the table misses
   * no character a US keyboard can type. First the unshifted legends.
   */
  lemma PlainLegendMapsBack(u: Byte)
    ensures Plain(u) != NO_CHAR ==> CharToKeycode(Plain(u)) == u && !IsShiftedChar(Plain(u))
  {
  }

  /**
   * Then the shifted legends, each counted as shifted exactly when shift
   * changes what the key types (Enter, Tab and Space type the same with or
   * without it).
   */
  lemma ShiftedLegendMapsBack(u: Byte)
    ensures Shifted(u) != NO_CHAR ==> CharToKeycode(Shifted(u)) == u && (IsShiftedChar(Shifted(u)) <==> Shifted(u) != Plain(u))
  {
  }

  /** A character the table does not map is no legend of any key. */
  lemma UnmappedIsNoLegend(c: char, u: Byte)
    requires CharToKeycode(c) == KEY_NONE && c != NO_CHAR
    ensures Plain(u) != c && Shifted(u) != c
  {
    PlainLegendMapsBack(u);
    ShiftedLegendMapsBack(u);
  }

  /** Upper- and lower-case letters share their key, the key of the alphabet position. */
  lemma LettersIgnoreCase(c: char)
    requires 'a' <= c <= 'z'
    ensures CharToKeycode(c) == CharToKeycode((c as int - 'a' as int + 'A' as int) as char) == KEY_A + (c as int - 'a' as int)
  {
  }

  /** Each shifted symbol shares its key with the character on the lower half of that key. */
  lemma ShiftPartnersShareKey(c: char)
    requires IsShiftedChar(c)
    ensures CharToKeycode(c) != KEY_NONE
    ensures CharToKeycode(Plain(CharToKeycode(c))) == CharToKeycode(c)
  {
    PlainLegendMapsBack(CharToKeycode(c));
  }
}
