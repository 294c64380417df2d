/**
 * The ducky-script interpreter of src/main.c: `process_ducky_script` cuts
 * the loaded script into lines, one line per call once the configured
 * delay has passed, and `parse_ducky_command` turns a line into keyboard
 * reports or a new delay.
 *
 * The reports the interpreter asks `send_hid_report` to send are recorded
 * in order; the current time, which the firmware reads from
 * `board_millis`, is a parameter.
 */
module Ducky {
  import opened CTypes
  import opened Keymap

  /** `char line[256]`: a line holds at most 255 characters and its terminator. */
  const LINE_SIZE: nat := 256
  /** The initial `key_delay`, in milliseconds. */
  const DEFAULT_DELAY: U32 := 50

  // ---------------------------------------------------------------------
  // C strings
  // ---------------------------------------------------------------------

  /** `strncmp(s, p, |p|) == 0` for a string `s` without NUL: `s` starts with `p`. */
  predicate StartsWith(s: seq<char>, p: seq<char>)
  {
    |p| <= |s| && s[..|p|] == p
  }

  /** `isspace` in the C locale. */
  predicate IsSpace(c: char)
  {
    c == ' ' || c == '\t' || c == '\n' || c == '\U{B}' || c == '\U{C}' || c == '\r'
  }

  predicate IsDigit(c: char)
  {
    '0' <= c <= '9'
  }

  /** The number of decimal digits `s` starts with. */
  function LeadingDigits(s: seq<char>): (n: nat)
    ensures n <= |s|
    ensures forall j :: 0 <= j < n ==> IsDigit(s[j])
    ensures n < |s| ==> !IsDigit(s[n])
  {
    if s != [] && IsDigit(s[0]) then 1 + LeadingDigits(s[1..]) else 0
  }

  /** The number of whitespace characters `s` starts with. */
  function LeadingSpaces(s: seq<char>): (n: nat)
    ensures n <= |s|
    ensures forall j :: 0 <= j < n ==> IsSpace(s[j])
    ensures n < |s| ==> !IsSpace(s[n])
  {
    if s != [] && IsSpace(s[0]) then 1 + LeadingSpaces(s[1..]) else 0
  }

  /** The value of one decimal digit. */
  function DigitValue(c: char): (v: nat)
    requires IsDigit(c)
    ensures v < 10
  {
    c as int - '0' as int
  }

  /** The value of a string of decimal digits, most significant first. */
  function DecimalValue(d: seq<char>): nat
    requires forall j :: 0 <= j < |d| ==> IsDigit(d[j])
  {
    if d == [] then 0 else 10 * DecimalValue(d[..|d| - 1]) + DigitValue(d[|d| - 1])
  }

  const INT_MAX: int := 0x7FFF_FFFF
  const INT_MIN: int := -0x8000_0000

  /**
   * `atoi` as the C library computes it (through `strtol` on a 32-bit
   * `long`): leading whitespace skipped, an optional sign, then as many
   * decimal digits as follow; 0 when there are none, and the nearest of
   * INT_MIN and INT_MAX when the value does not fit.
   */
  function Atoi(s: seq<char>): (v: int)
    ensures INT_MIN <= v <= INT_MAX
  {
    var t := s[LeadingSpaces(s)..];
    var negative := t != [] && t[0] == '-';
    var u := if t != [] && (t[0] == '-' || t[0] == '+') then t[1..] else t;
    var n: int := DecimalValue(u[..LeadingDigits(u)]);
    if negative then (if -n < INT_MIN then INT_MIN else -n)
    else (if n > INT_MAX then INT_MAX else n)
  }

  /** The decimal numeral of `n`, without leading zeros. */
  function Decimal(n: nat): (d: seq<char>)
    ensures |d| >= 1
    ensures forall j :: 0 <= j < |d| ==> IsDigit(d[j])
  {
    var last := ('0' as int + n % 10) as char;
    if n < 10 then [last] else Decimal(n / 10) + [last]
  }

  /** Reading a numeral back gives its number. */
  lemma {:induction false} DecimalValueOf(n: nat)
    ensures DecimalValue(Decimal(n)) == n
  {
    var d := Decimal(n);
    if n >= 10 {
      DecimalValueOf(n / 10);
      assert d[..|d| - 1] == Decimal(n / 10);
    }
  }

  /** A string of digits followed by something that is not a digit starts with exactly those digits. */
  lemma {:induction false} DigitsThenStop(d: seq<char>, rest: seq<char>)
    requires forall j :: 0 <= j < |d| ==> IsDigit(d[j])
    requires rest == [] || !IsDigit(rest[0])
    ensures LeadingDigits(d + rest) == |d|
  {
    if d != [] {
      assert (d + rest)[1..] == d[1..] + rest;
      DigitsThenStop(d[1..], rest);
    }
  }

  /**
   * `atoi` reads back every numeral in the range of `int`: a delay written
   * in decimal, and followed by anything but a digit, sets exactly that
   * delay.
   */
  lemma AtoiDecimal(n: nat, rest: seq<char>)
    requires n <= INT_MAX
    requires rest == [] || !IsDigit(rest[0])
    ensures Atoi(Decimal(n) + rest) == n
  {
    var s := Decimal(n) + rest;
    assert s[0] == Decimal(n)[0];
    assert LeadingSpaces(s) == 0;
    DigitsThenStop(Decimal(n), rest);
    assert s[..|Decimal(n)|] == Decimal(n);
    DecimalValueOf(n);
  }

  /** `key_delay = atoi(...)`: the `int` stored in a `uint32_t`, so that a negative delay wraps to a very long one. */
  function DelayOf(s: seq<char>): U32
  {
    FromInt32(Atoi(s))
  }

  // ---------------------------------------------------------------------
  // Commands (parse_ducky_command)
  // ---------------------------------------------------------------------

  /**
   * The shift decision of the STRING command: upper-case letters and the
   * symbols of `"!@#$%^&*()_+{}|:\"<>?"`. The list lacks `~`, which the
   * keymap nonetheless sends as the key it shares with `` ` ``.
   */
  predicate NeedsShift(c: char)
  {
    'A' <= c <= 'Z' || c in {'!', '@', '#', '$', '%', '^', '&', '*', '(', ')', '_', '+', '{', '}', '|', ':', '"', '<', '>', '?'}
  }

  /** The report STRING sends for `c`: its key, with left shift held exactly when NeedsShift says so. */
  function Press(c: char): (r: Report)
    ensures r.keycode == CharToKeycode(c)
    ensures r.modifier == MOD_LEFTSHIFT <==> NeedsShift(c)
    ensures r.modifier == MOD_NONE <==> !NeedsShift(c)
  {
    Report(if NeedsShift(c) then MOD_LEFTSHIFT else MOD_NONE, CharToKeycode(c))
  }

  /** STRING types `~` as `` ` ``: the tilde key is pressed without shift. */
  lemma TildeTypedAsGrave()
    ensures Press('~') == Report(MOD_NONE, KEY_GRAVE)
    ensures Typed(Press('~')) == '`'
  {
  }

  /** The press report evidently intended: left shift held for every character on the upper half of a key, `~` included. */
  function PressIntended(c: char): (r: Report)
    ensures r.keycode == CharToKeycode(c)
    ensures r.modifier == MOD_LEFTSHIFT <==> IsShiftedChar(c)
  {
    Report(if IsShiftedChar(c) then MOD_LEFTSHIFT else MOD_NONE, CharToKeycode(c))
  }

  /** The intended shift decision differs from the one STRING makes for `~` alone. */
  lemma PressDiffersOnlyOnTilde(c: char)
    ensures Press(c) != PressIntended(c) <==> c == '~'
  {
  }

  /** With the intended shift decision, every character the keymap knows is typed back by its press report. */
  lemma PressIntendedTypesChar(c: char)
    requires CharToKeycode(c) != KEY_NONE
    ensures Typed(PressIntended(c)) == c
  {
    KeycodeCarriesChar(c);
  }

  /** What a US-layout host types for a character the keymap knows, pressed as STRING presses it: the character itself, except that `~` comes out as `` ` ``. */
  function HostChar(c: char): char
  {
    if c == '~' then '`' else c
  }

  /** Every character the keymap knows is typed back by its press report, but for `~`, which is typed as `` ` ``. */
  lemma PressTypesChar(c: char)
    requires CharToKeycode(c) != KEY_NONE
    ensures Typed(Press(c)) == HostChar(c)
    ensures c != '~' ==> Typed(Press(c)) == c
  {
    PressDiffersOnlyOnTilde(c);
    if c != '~' {
      PressIntendedTypesChar(c);
    }
  }

  /** A report without a key types nothing. */
  lemma NoKeyTypesNothing(r: Report)
    requires r.keycode == KEY_NONE
    ensures Typed(r) == NO_CHAR
  {
  }

  /** STRING text: for every character a press report, then a release report. */
  function TypeText(text: seq<char>): (rs: seq<Report>)
    ensures |rs| == 2 * |text|
  {
    if text == [] then [] else [Press(text[0]), RELEASE] + TypeText(text[1..])
  }

  /** In what STRING sends, every report at an odd position is a release, and the one before it presses the key of a character of the text, shifted as NeedsShift says. */
  lemma {:induction false} TypeTextAlternates(text: seq<char>)
    ensures forall j :: 0 <= j < |text| ==> TypeText(text)[2 * j] == Press(text[j]) && TypeText(text)[2 * j + 1] == RELEASE
  {
    if text != [] {
      TypeTextAlternates(text[1..]);
      var rs := TypeText(text);
      var rest := TypeText(text[1..]);
      assert rs == [Press(text[0]), RELEASE] + rest;
      forall j | 1 <= j < |text|
        ensures rs[2 * j] == Press(text[j]) && rs[2 * j + 1] == RELEASE
      {
        assert text[1..][j - 1] == text[j];
        assert rs[2 * j] == rest[2 * (j - 1)];
        assert rs[2 * j + 1] == rest[2 * (j - 1) + 1];
      }
    }
  }

  /** What a host types from a sequence of reports, reading each report once (a release types nothing). */
  function TypedText(rs: seq<Report>): seq<char>
  {
    if rs == [] then []
    else
      var ch := Typed(rs[0]);
      (if ch == NO_CHAR then [] else [ch]) + TypedText(rs[1..])
  }

  /** The characters of `text` the keymap knows, in order. */
  function Known(text: seq<char>): seq<char>
  {
    if text == [] then [] else (if CharToKeycode(text[0]) != KEY_NONE then [text[0]] else []) + Known(text[1..])
  }

  /** The characters of `text` the keymap knows, in order, each as HostChar says the host types it. */
  function HostText(text: seq<char>): seq<char>
  {
    if text == [] then [] else (if CharToKeycode(text[0]) != KEY_NONE then [HostChar(text[0])] else []) + HostText(text[1..])
  }

  /**
   * What STRING types on a US layout: every character the keymap knows, in
   * order, with `~` turned into `` ` ``, and the others dropped.
   */
  lemma {:induction false} TypeTextRoundTrip(text: seq<char>)
    ensures TypedText(TypeText(text)) == HostText(text)
  {
    if text != [] {
      var rs := TypeText(text);
      assert rs[1..][1..] == TypeText(text[1..]);
      TypeTextRoundTrip(text[1..]);
      NoKeyTypesNothing(RELEASE);
      if CharToKeycode(text[0]) != KEY_NONE {
        PressTypesChar(text[0]);
      } else {
        NoKeyTypesNothing(Press(text[0]));
      }
    }
  }

  /** Without `~` the host types exactly the characters the keymap knows. */
  lemma {:induction false} HostTextWithoutTilde(text: seq<char>)
    requires '~' !in text
    ensures HostText(text) == Known(text)
  {
    if text != [] {
      assert '~' !in text[1..];
      HostTextWithoutTilde(text[1..]);
    }
  }

  /** So STRING types a text without `~` back exactly as far as the keymap knows it. */
  lemma TypeTextWithoutTilde(text: seq<char>)
    requires '~' !in text
    ensures TypedText(TypeText(text)) == Known(text)
  {
    TypeTextRoundTrip(text);
    HostTextWithoutTilde(text);
  }

  /** A line `STRING ~` sends the grave key without shift, which the host types as a backquote. */
  lemma StringTilde(delay: U32)
    ensures Interpret("STRING ~", delay).reports == [Report(MOD_NONE, KEY_GRAVE), RELEASE]
    ensures TypedText(Interpret("STRING ~", delay).reports) == "`"
  {
    var line := "STRING ~";
    assert LeadingBlanks(line) == 0;
    assert !StartsWith(line, "DELAY ");
    assert line[..7] == "STRING ";
    assert line[7..] == "~";
    TildeTypedAsGrave();
    NoKeyTypesNothing(RELEASE);
    var rs := Interpret(line, delay).reports;
    assert rs[1..] == [RELEASE] && rs[1..][1..] == [];
    assert TypedText(rs[1..]) == [] + TypedText([]);
    assert TypedText(rs) == ['`'] + TypedText(rs[1..]);
  }

  /** STRING text as evidently intended: the press reports of PressIntended. */
  function TypeTextIntended(text: seq<char>): (rs: seq<Report>)
    ensures |rs| == 2 * |text|
  {
    if text == [] then [] else [PressIntended(text[0]), RELEASE] + TypeTextIntended(text[1..])
  }

  /**
   * The intended STRING types its text back on a US layout: every character
   * the keymap knows comes out as itself, in order, and the others are
   * dropped.
   */
  lemma {:induction false} TypeTextIntendedRoundTrip(text: seq<char>)
    ensures TypedText(TypeTextIntended(text)) == Known(text)
  {
    if text != [] {
      var rs := TypeTextIntended(text);
      assert rs[1..][1..] == TypeTextIntended(text[1..]);
      TypeTextIntendedRoundTrip(text[1..]);
      NoKeyTypesNothing(RELEASE);
      if CharToKeycode(text[0]) != KEY_NONE {
        PressIntendedTypesChar(text[0]);
      } else {
        NoKeyTypesNothing(PressIntended(text[0]));
      }
    }
  }

  /** A key tap: the key pressed with `modifier`, then released. */
  function Tap(modifier: Byte, keycode: Byte): seq<Report>
  {
    [Report(modifier, keycode), RELEASE]
  }

  /** A blank as `parse_ducky_command` skips it: a space or a tab. */
  predicate IsBlank(c: char)
  {
    c == ' ' || c == '\t'
  }

  /** The number of blanks a line starts with. */
  function LeadingBlanks(line: seq<char>): (n: nat)
    ensures n <= |line|
    ensures forall j :: 0 <= j < n ==> IsBlank(line[j])
    ensures n < |line| ==> !IsBlank(line[n])
  {
    if line != [] && IsBlank(line[0]) then 1 + LeadingBlanks(line[1..]) else 0
  }

  /** The kinds of line `parse_ducky_command` tells apart. */
  datatype Command =
    | SetDelay(arg: seq<char>)              // DELAY n
    | Typing(text: seq<char>)               // STRING text
    | TapKey(modifier: Byte, keycode: Byte) // ENTER, SPACE, TAB, ESCAPE
    | Chord(key: char)                      // GUI x
    | NoCommand                             // anything else

  /**
   * The command of a line: after the leading blanks, the prefixes `DELAY `,
   * `STRING ` and `GUI ` take the rest of the line as argument (GUI only its
   * first character, or the terminator when there is none), and ENTER,
   * SPACE, TAB and ESCAPE must make up the whole rest of the line.
   */
  function Parse(line: seq<char>): Command
  {
    var cmd := line[LeadingBlanks(line)..];
    if StartsWith(cmd, "DELAY ") then SetDelay(cmd[6..])
    else if StartsWith(cmd, "STRING ") then Typing(cmd[7..])
    else if cmd == "ENTER" then TapKey(MOD_NONE, KEY_ENTER)
    else if cmd == "SPACE" then TapKey(MOD_NONE, KEY_SPACE)
    else if StartsWith(cmd, "GUI ") then Chord(if |cmd| > 4 then cmd[4] else NUL)
    else if cmd == "TAB" then TapKey(MOD_NONE, KEY_TAB)
    else if cmd == "ESCAPE" then TapKey(MOD_NONE, KEY_ESCAPE)
    else NoCommand
  }

  /** What a line does: the delay after it and the reports it sends. */
  datatype Effect = Effect(delay: U32, reports: seq<Report>)

  /**
   * A command run with the delay at `delay`: DELAY sets the delay to the
   * number its argument starts with, STRING types its text, the named keys
   * are tapped, GUI taps the key of its character with the GUI modifier.
   */
  function Run(c: Command, delay: U32): Effect
  {
    match c
    case SetDelay(arg) => Effect(DelayOf(arg), [])
    case Typing(text) => Effect(delay, TypeText(text))
    case TapKey(modifier, keycode) => Effect(delay, Tap(modifier, keycode))
    case Chord(key) => Effect(delay, Tap(MOD_LEFTGUI, CharToKeycode(key)))
    case NoCommand => Effect(delay, [])
  }

  /** `parse_ducky_command` on the line `line` with the delay at `delay`. */
  function Interpret(line: seq<char>, delay: U32): Effect
  {
    Run(Parse(line), delay)
  }

  /** Only DELAY changes the delay, and DELAY sends nothing. */
  lemma OnlyDelaySetsDelay(c: Command, delay: U32)
    ensures Run(c, delay).delay != delay ==> c.SetDelay?
    ensures c.SetDelay? ==> Run(c, delay).reports == []
  {
  }

  /** Every key a command presses it releases again: the reports come in pairs, a press and then a release. */
  lemma RunReleases(c: Command, delay: U32)
    ensures var rs := Run(c, delay).reports;
      && |rs| % 2 == 0
      && forall j :: 0 <= j < |rs| / 2 ==> rs[2 * j + 1] == RELEASE
  {
    if c.Typing? {
      TypeTextAlternates(c.text);
    }
  }

  /** A DELAY line sets exactly the delay it spells in decimal. */
  lemma DelayLine(n: nat, delay: U32)
    requires n <= INT_MAX
    ensures Parse("DELAY " + Decimal(n)) == SetDelay(Decimal(n))
    ensures Interpret("DELAY " + Decimal(n), delay) == Effect(n, [])
  {
    var line := "DELAY " + Decimal(n);
    assert LeadingBlanks(line) == 0;
    assert line[..6] == "DELAY ";
    assert line[6..] == Decimal(n) + [];
    AtoiDecimal(n, []);
  }

  /** Blanks before a command do not matter. */
  lemma ParseSkipsBlank(b: char, line: seq<char>)
    requires IsBlank(b)
    ensures Parse([b] + line) == Parse(line)
  {
    var l := [b] + line;
    assert l[1..] == line;
    assert l[LeadingBlanks(l)..] == line[LeadingBlanks(line)..];
  }

  /** But a key name must be the whole rest of the line: ENTER followed by a blank is no command. */
  lemma KeyNameIsWholeLine()
    ensures Parse("ENTER") == TapKey(MOD_NONE, KEY_ENTER)
    ensures Parse("ENTER ") == NoCommand
  {
    assert LeadingBlanks("ENTER") == 0;
    assert LeadingBlanks("ENTER ") == 0;
  }

  // ---------------------------------------------------------------------
  // Lines (process_ducky_script)
  // ---------------------------------------------------------------------

  predicate IsBreak(c: char)
  {
    c == '\n' || c == '\r'
  }

  /** The first position from `pos` on, before `end`, that is not a line break; `end` when there is none. */
  function SkipBreaks(s: seq<char>, end: nat, pos: nat): (p: nat)
    requires pos <= end <= |s|
    ensures pos <= p <= end
    ensures forall m :: pos <= m < p ==> IsBreak(s[m])
    ensures p < end ==> !IsBreak(s[p])
    decreases end - pos
  {
    if pos < end && IsBreak(s[pos]) then SkipBreaks(s, end, pos + 1) else pos
  }

  /**
   * Where the line that starts at `start` stops, scanning on from `pos`:
   * at the first line break, at `end`, or after 255 characters, whichever
   * comes first.
   */
  function LineStop(s: seq<char>, end: nat, start: nat, pos: nat): (p: nat)
    requires start <= pos <= end <= |s| && pos - start <= LINE_SIZE - 1
    ensures pos <= p <= end && p - start <= LINE_SIZE - 1
    ensures forall m :: pos <= m < p ==> !IsBreak(s[m])
    ensures p < end && p - start < LINE_SIZE - 1 ==> IsBreak(s[p])
    decreases end - pos
  {
    if pos < end && !IsBreak(s[pos]) && pos - start < LINE_SIZE - 1 then LineStop(s, end, start, pos + 1) else pos
  }

  /** The state `process_ducky_script` works on: the statics of src/main.c, and the reports sent so far. */
  datatype Session = Session(script: seq<char>, loaded: bool, running: bool, pos: nat,
                             lastKeyTime: U32, keyDelay: U32, reports: seq<Report>)

  /** The script position is within the script text. */
  predicate Sane(s: Session)
  {
    s.pos <= StrLen(s.script)
  }

  /** What one call of `process_ducky_script` does: wait, find the script's end, or run the line `script[start..stop]`. */
  datatype Step = Wait | End(at: nat) | RunLine(start: nat, stop: nat)

  /**
   * The step of a call at time `now`: nothing unless the script is loaded
   * and running and `key_delay` milliseconds have passed since the last
   * line (in `uint32_t` arithmetic); then the line breaks at the position
   * are skipped, and either the script has ended or the line from there
   * (at most 255 characters, up to the next break) runs.
   */
  function NextStep(s: Session, now: U32): Step
    requires Sane(s)
  {
    if !s.loaded || !s.running || Sub32(now, s.lastKeyTime) < s.keyDelay then Wait
    else
      var end := StrLen(s.script);
      var start := SkipBreaks(s.script, end, s.pos);
      if start >= end then End(start)
      else RunLine(start, LineStop(s.script, end, start, start))
  }

  /**
   * The line a call runs is a non-empty run of at most 255 characters
   * without line breaks and terminators, found right after the line
   * breaks at the old position; the script's end is found only past
   * nothing but line breaks.
   */
  lemma StepFindsLine(s: Session, now: U32)
    requires Sane(s)
    ensures NextStep(s, now).RunLine? ==>
      var st := NextStep(s, now);
      var line := s.script[st.start..st.stop];
      && s.pos <= st.start < st.stop <= StrLen(s.script)
      && |line| <= LINE_SIZE - 1
      && (forall j :: 0 <= j < |line| ==> !IsBreak(line[j]) && line[j] != NUL)
      && (forall m :: s.pos <= m < st.start ==> IsBreak(s.script[m]))
      && (st.stop < StrLen(s.script) && |line| < LINE_SIZE - 1 ==> IsBreak(s.script[st.stop]))
    ensures NextStep(s, now).End? ==>
      && NextStep(s, now).at == StrLen(s.script)
      && (forall m :: s.pos <= m < StrLen(s.script) ==> IsBreak(s.script[m]))
  {
  }

  /** One call of `process_ducky_script` at time `now`: the script stops at its end, and a line runs with its reports sent and the time recorded. */
  function Tick(s: Session, now: U32): Session
    requires Sane(s)
  {
    match NextStep(s, now)
    case Wait => s
    case End(at) => s.(running := false, pos := at)
    case RunLine(start, stop) =>
      var e := Interpret(s.script[start..stop], s.keyDelay);
      s.(pos := stop, keyDelay := e.delay, reports := s.reports + e.reports, lastKeyTime := now)
  }

  /**
   * A call that runs a line moves the position past it, never back and
   * never beyond the script's end, sends the reports of the line after
   * those already sent and takes the delay it sets.
   */
  lemma TickRunsLine(s: Session, now: U32)
    requires Sane(s) && NextStep(s, now).RunLine?
    ensures var st := NextStep(s, now);
      var t := Tick(s, now);
      var e := Interpret(s.script[st.start..st.stop], s.keyDelay);
      && Sane(t) && s.pos < t.pos == st.stop && t.running && t.lastKeyTime == now
      && t.reports == s.reports + e.reports && t.keyDelay == e.delay
      && t == s.(pos := st.stop, keyDelay := e.delay, reports := s.reports + e.reports, lastKeyTime := now)
  {
    StepFindsLine(s, now);
  }

  /** A call that finds only line breaks left stops the script, leaving the time of the last line and the delay as they were. */
  lemma TickEnds(s: Session, now: U32)
    requires Sane(s) && NextStep(s, now).End?
    ensures var t := Tick(s, now);
      && Sane(t) && !t.running && t.pos == StrLen(s.script)
      && t.lastKeyTime == s.lastKeyTime && t.keyDelay == s.keyDelay && t.reports == s.reports
  {
    StepFindsLine(s, now);
  }

  /**
   * Nothing changes while the script is not loaded or not running, or
   * while fewer than `key_delay` milliseconds have passed since the last
   * line, counting across a wrap of the millisecond clock.
   */
  lemma TickWaits(s: Session, now: U32)
    requires Sane(s)
    requires !s.loaded || !s.running || Sub32(now, s.lastKeyTime) < s.keyDelay
    ensures Tick(s, now) == s
    ensures s.loaded && s.running && now < s.lastKeyTime ==> Sub32(now, s.lastKeyTime) == now + TWO_32 - s.lastKeyTime
  {
  }

  /** The script and whether it is loaded never change, and the position stays in the script and never moves back. */
  lemma TickKeeps(s: Session, now: U32)
    requires Sane(s)
    ensures var t := Tick(s, now);
      && Sane(t) && t.script == s.script && t.loaded == s.loaded
      && s.pos <= t.pos && (t.running ==> s.running)
  {
  }

  // ---------------------------------------------------------------------
  // The interpreter's state
  // ---------------------------------------------------------------------

  class Interpreter {
    /** `ducky_script`: the script buffer; the script is its text up to the first NUL. */
    var script: seq<char>
    /** `script_loaded`. */
    var loaded: bool
    /** `script_running`. */
    var running: bool
    /** `script_pos`. */
    var pos: nat
    /** `last_key_time`. */
    var lastKeyTime: U32
    /** `key_delay`. */
    var keyDelay: U32
    /** The reports handed to `send_hid_report`, in order. */
    var reports: seq<Report>

    ghost function Snapshot(): Session
      reads this
    {
      Session(script, loaded, running, pos, lastKeyTime, keyDelay, reports)
    }

    ghost predicate Valid()
      reads this
    {
      pos <= StrLen(script)
    }

    /** The statics at boot, with the script `load_ducky_script` left in the buffer. */
    constructor (script: seq<char>, loaded: bool)
      ensures Valid()
      ensures Snapshot() == Session(script, loaded, false, 0, 0, DEFAULT_DELAY, [])
    {
      this.script := script;
      this.loaded := loaded;
      running := false;
      pos := 0;
      lastKeyTime := 0;
      keyDelay := DEFAULT_DELAY;
      reports := [];
    }

    /** The start of the script once the host is connected: it runs only when it was loaded. */
    method Start()
      requires Valid()
      modifies this`running
      ensures Valid()
      ensures Snapshot() == old(Snapshot()).(running := old(running) || loaded)
    {
      if loaded {
        running := true;
      }
    }

    /** `send_hid_report`: the report is recorded as sent. */
    method SendReport(modifier: Byte, keycode: Byte)
      modifies this`reports
      ensures reports == old(reports) + [Report(modifier, keycode)]
    {
      reports := reports + [Report(modifier, keycode)];
    }

    /** STRING: a press and a release report for every character of `text`. */
    method TypeString(text: seq<char>)
      modifies this`reports
      ensures reports == old(reports) + TypeText(text)
    {
      var i := 0;
      while i < |text|
        invariant 0 <= i <= |text|
        invariant old(reports) + TypeText(text) == reports + TypeText(text[i..])
      {
        var c := text[i];
        var keycode := CharToKeycode(c);
        var modifier := MOD_NONE;
        if NeedsShift(c) {
          modifier := MOD_LEFTSHIFT;
        }
        SendReport(modifier, keycode);
        SendReport(MOD_NONE, KEY_NONE);
        assert text[i..][1..] == text[i + 1..];
        i := i + 1;
      }
    }

    /** A key tap: the key with `modifier`, then the release report. */
    method TapKey(modifier: Byte, keycode: Byte)
      modifies this`reports
      ensures reports == old(reports) + Tap(modifier, keycode)
    {
      SendReport(modifier, keycode);
      SendReport(MOD_NONE, KEY_NONE);
    }

    /** `parse_ducky_command` on a line (its characters, without the terminator): the delay and the reports as Interpret says. */
    method ParseCommand(line: seq<char>)
      modifies this`keyDelay, this`reports
      ensures var e := Interpret(line, old(keyDelay));
        keyDelay == e.delay && reports == old(reports) + e.reports
    {
      var i := 0;
      while i < |line| && (line[i] == ' ' || line[i] == '\t')
        invariant 0 <= i <= LeadingBlanks(line)
      {
        i := i + 1;
      }
      var cmd := line[i..];
      if StartsWith(cmd, "DELAY ") {
        keyDelay := DelayOf(cmd[6..]);
      } else if StartsWith(cmd, "STRING ") {
        TypeString(cmd[7..]);
      } else if cmd == "ENTER" {
        TapKey(MOD_NONE, KEY_ENTER);
      } else if cmd == "SPACE" {
        TapKey(MOD_NONE, KEY_SPACE);
      } else if StartsWith(cmd, "GUI ") {
        var key := if |cmd| > 4 then cmd[4] else NUL;
        TapKey(MOD_LEFTGUI, CharToKeycode(key));
      } else if cmd == "TAB" {
        TapKey(MOD_NONE, KEY_TAB);
      } else if cmd == "ESCAPE" {
        TapKey(MOD_NONE, KEY_ESCAPE);
      }
    }

    /**
     * `process_ducky_script` at time `now`: skips the line breaks at the
     * position, copies the next line into a 256-character buffer, and runs
     * it, as Tick says.
     */
    method Process(now: U32)
      requires Valid()
      modifies this
      ensures Valid()
      ensures Snapshot() == Tick(old(Snapshot()), now)
    {
      ghost var s0 := Snapshot();
      if !loaded || !running {
        assert NextStep(s0, now) == Wait;
        return;
      }
      if Sub32(now, lastKeyTime) < keyDelay {
        assert NextStep(s0, now) == Wait;
        return;
      }
      // `script_pos`, advanced in a local and stored back
      var p := pos;
      ghost var end := StrLen(script);
      while p < StrLen(script) && (script[p] == '\n' || script[p] == '\r')
        invariant pos <= p <= end
        invariant SkipBreaks(script, end, p) == SkipBreaks(script, end, pos)
        decreases end - p
      {
        p := p + 1;
      }
      if p >= StrLen(script) {
        assert NextStep(s0, now) == End(p);
        assert Tick(s0, now) == s0.(running := false, pos := p);
        pos := p;
        running := false;
        return;
      }
      assert NextStep(s0, now) == RunLine(p, LineStop(script, end, p, p));
      TickRunsLine(s0, now);
      RunLineAt(p, now);
    }

    /** The line that starts at `start` copied out of the script and run: the position moves past it and the time is recorded. */
    method RunLineAt(start: nat, now: U32)
      requires Valid() && start < StrLen(script)
      modifies this
      ensures var stop := LineStop(old(script), StrLen(old(script)), start, start);
        var e := Interpret(old(script)[start..stop], old(keyDelay));
        Snapshot() == old(Snapshot()).(pos := stop, keyDelay := e.delay, reports := old(reports) + e.reports, lastKeyTime := now)
      ensures Valid()
    {
      var cmd := CopyLine(start);
      pos := start + |cmd|;
      if |cmd| > 0 {
        ParseCommand(cmd);
      }
      lastKeyTime := now;
    }

    /**
     * The copy loop of `process_ducky_script`: the line that starts at
     * `start` copied into a fresh 256-character buffer and terminated;
     * `cmd` is the buffer's text, the line up to where it stops.
     */
    method CopyLine(start: nat) returns (cmd: seq<char>)
      requires Valid() && start < StrLen(script)
      ensures cmd == script[start..LineStop(script, StrLen(script), start, start)]
    {
      ghost var end := StrLen(script);
      var p := start;
      var line := new char[LINE_SIZE];
      var n := 0;
      while p < StrLen(script) && script[p] != '\n' && script[p] != '\r' && n < LINE_SIZE - 1
        invariant start <= p <= end && n == p - start && n <= LINE_SIZE - 1
        invariant line[..n] == script[start..p]
        invariant forall j :: 0 <= j < n ==> line[j] != NUL
        invariant LineStop(script, end, start, p) == LineStop(script, end, start, start)
        decreases end - p
      {
        line[n] := script[p];
        n := n + 1;
        p := p + 1;
      }
      line[n] := NUL;
      assert line[..n] == script[start..p];
      TerminatedLength(line[..], n);
      cmd := line[..StrLen(line[..])];
    }
  }
}
