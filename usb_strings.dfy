/**
 * The USB string descriptors of src/main.c (`tud_descriptor_string_cb`):
 * descriptor 0 lists the supported language (US English, 0x0409), and
 * descriptors 1 to 3 hold the manufacturer, product and serial-number
 * strings, at most 31 characters each, one 16-bit code unit per character.
 * Every descriptor is built in the same static buffer of 32 words, whose
 * first word packs the descriptor type (3, STRING) above the length in
 * bytes, as section 9.6.7 of the USB 2.0 specification lays it out.
 */
module UsbStrings {
  import opened CTypes

  /** `TUSB_DESC_STRING`: the descriptor type of a string descriptor. */
  const STRING_TYPE: nat := 3
  /** `_desc_str` holds 32 words: the header and at most 31 characters. */
  const DESC_WORDS: nat := 32
  const MAX_CHARS: nat := 31

  /** Entry 0 of `string_desc_arr`: the two bytes of the language ID, low byte first. */
  const LANGUAGE_BYTES: seq<Byte> := [0x09, 0x04]
  /** US English. */
  const LANGID_EN_US: U16 := 0x0409

  /** Entries 1 to 3 of `string_desc_arr`: manufacturer, product, serial number. */
  const STRINGS: seq<string> := ["RubberDucky", "Pico Ducky Storage", "123456"]

  /** The number of entries of `string_desc_arr`. */
  const STRING_COUNT: nat := 4

  /** The code unit of a character: a C `char` is one byte, so only the low byte of a character is stored (all of it, for the ASCII of the table). */
  function Unit(c: char): U16
  {
    c as int % 0x100
  }

  /** The number of characters copied: `strlen` stored in the `uint8_t chr_count`, then cut to 31. */
  function CharCount(s: string): (n: nat)
    ensures n <= MAX_CHARS && n <= StrLen(s)
    ensures StrLen(s) < 0x100 ==> n == if StrLen(s) > MAX_CHARS then MAX_CHARS else StrLen(s)
  {
    var count := StrLen(s) % 0x100;
    if count > MAX_CHARS then MAX_CHARS else count
  }

  /** The first word of a descriptor of `n` characters: type 3 in the high byte, the length in bytes (2 for the header, 2 per character) in the low one. */
  function Header(n: nat): (h: U16)
    requires n <= MAX_CHARS
  {
    STRING_TYPE * 0x100 + (2 * n + 2)
  }

  /** Two bytes copied into one word of a little-endian machine, low byte first. */
  function LittleEndian(lo: Byte, hi: Byte): U16
  {
    lo + 0x100 * hi
  }

  /** The words of the descriptor of entry `index`: the header, then the language ID or the characters. */
  function Words(index: nat): (d: seq<U16>)
    requires index < STRING_COUNT
    ensures 2 <= |d| <= DESC_WORDS
  {
    if index == 0 then [Header(1), LittleEndian(LANGUAGE_BYTES[0], LANGUAGE_BYTES[1])]
    else StringWords(STRINGS[index - 1])
  }

  /** The code units of a string. */
  function Units(s: string): (u: seq<U16>)
    ensures |u| == |s|
    ensures forall j :: 0 <= j < |s| ==> u[j] == Unit(s[j])
  {
    seq(|s|, j requires 0 <= j < |s| => Unit(s[j]))
  }

  /** The descriptor of a string: its header, then its first CharCount characters as code units. */
  function StringWords(s: string): (d: seq<U16>)
    ensures 1 <= |d| <= DESC_WORDS
  {
    var n := CharCount(s);
    [Header(n)] + Units(s[..n])
  }

  // ---------------------------------------------------------------------
  // Reading a descriptor back, as a host does
  // ---------------------------------------------------------------------

  /** What a host reads from a descriptor: its type and the code units of its text. */
  datatype Decoded = Decoded(descType: nat, units: seq<U16>)

  /** A descriptor whose length field is even, at least 2, and covers no more words than there are. */
  predicate WellFormed(d: seq<U16>)
  {
    |d| >= 1 && d[0] % 0x100 >= 2 && d[0] % 2 == 0 && d[0] % 0x100 / 2 <= |d|
  }

  /** Section 9.6.7 of USB 2.0: bLength in the low byte of the first word, bDescriptorType in the high byte, then (bLength - 2) / 2 code units. */
  function Decode(d: seq<U16>): Decoded
    requires WellFormed(d)
  {
    Decoded(d[0] / 0x100, d[1..d[0] % 0x100 / 2])
  }


  /**
   * A host reads back a string descriptor as a string descriptor holding
   * the string's first characters: all of them up to the first NUL, but no
   * more than 31.
   */
  lemma StringRoundTrip(s: string)
    requires StrLen(s) < 0x100
    ensures WellFormed(StringWords(s))
    ensures Decode(StringWords(s)) == Decoded(STRING_TYPE, Units(s[..CharCount(s)]))
  {
    var d := StringWords(s);
    var n := CharCount(s);
    assert d[0] % 0x100 == 2 * n + 2 && d[0] / 0x100 == STRING_TYPE;
    assert d[1..n + 1] == Units(s[..n]);
  }

  /** Descriptor 0 reads back as the one language the device supports, US English, with header 0x0304. */
  lemma LanguageRoundTrip()
    ensures Words(0)[0] == 0x0304
    ensures WellFormed(Words(0)) && Decode(Words(0)) == Decoded(STRING_TYPE, [LANGID_EN_US])
  {
  }

  /** The three strings of the device are short enough that none is cut: each reads back whole, up to its terminator. */
  lemma TableRoundTrip(index: nat)
    requires 1 <= index < STRING_COUNT
    ensures var s := STRINGS[index - 1];
      WellFormed(Words(index)) && Decode(Words(index)) == Decoded(STRING_TYPE, Units(s[..StrLen(s)]))
  {
    var s := STRINGS[index - 1];
    assert |s| <= MAX_CHARS;
    StringRoundTrip(s);
  }

  /** The static descriptor buffer `_desc_str`. */
  class StringBuffer {
    var descStr: array<U16>

    ghost predicate Valid()
      reads this
    {
      descStr.Length == DESC_WORDS
    }

    /** The buffer as the C runtime leaves it: zeroed. */
    constructor ()
      ensures Valid() && fresh(descStr)
    {
      descStr := new U16[DESC_WORDS](_ => 0);
    }

    /**
     * `tud_descriptor_string_cb`: for an index of the table, the buffer
     * starts with the descriptor Words gives (the words past it keep what
     * they held) and true stands for the buffer's address; for any other
     * index false stands for NULL and the buffer is untouched. The language
     * ID asked for is ignored.
     */
    method Get(index: Byte, langid: U16) returns (found: bool)
      requires Valid()
      modifies descStr
      ensures found <==> index < STRING_COUNT
      ensures found ==> descStr[..|Words(index)|] == Words(index)
      ensures found ==> descStr[|Words(index)|..] == old(descStr[|Words(index)|..])
      ensures !found ==> descStr[..] == old(descStr[..])
    {
      if index == 0 {
        descStr[1] := LittleEndian(LANGUAGE_BYTES[0], LANGUAGE_BYTES[1]);
        descStr[0] := Header(1);
        assert descStr[..2] == [descStr[0], descStr[1]];
        return true;
      }
      if !(index < STRING_COUNT) {
        return false;
      }
      PutString(STRINGS[index - 1]);
      return true;
    }

    /** The branch for entries 1 to 3: the characters of `str` counted, copied and the header written in front of them. */
    method PutString(str: string)
      requires Valid()
      modifies descStr
      ensures descStr[..|StringWords(str)|] == StringWords(str)
      ensures descStr[|StringWords(str)|..] == old(descStr[|StringWords(str)|..])
    {
      var chrCount := StrLen(str) % 0x100;
      if chrCount > MAX_CHARS {
        chrCount := MAX_CHARS;
      }
      ghost var words := StringWords(str);
      assert chrCount == CharCount(str) && words == [Header(chrCount)] + Units(str[..chrCount]);
      CopyChars(str, chrCount);
      descStr[0] := Header(chrCount);
      assert descStr[..chrCount + 1] == [descStr[0]] + descStr[1..chrCount + 1];
    }

    /** The copy loop: characters 0 to `n - 1` of `str` into words 1 to `n`, the other words left as they were. */
    method CopyChars(str: string, n: nat)
      requires Valid() && n <= |str| && n <= MAX_CHARS
      modifies descStr
      ensures descStr[1..n + 1] == Units(str[..n])
      ensures descStr[0] == old(descStr[0]) && descStr[n + 1..] == old(descStr[n + 1..])
    {
      for i := 0 to n
        invariant descStr[1..i + 1] == Units(str[..i])
        invariant descStr[0] == old(descStr[0]) && descStr[n + 1..] == old(descStr[n + 1..])
      {
        descStr[1 + i] := Unit(str[i]);
        assert str[..i + 1] == str[..i] + [str[i]];
      }
    }
  }
}
