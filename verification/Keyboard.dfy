/** The scan codes of the keyboard handler (student-distrib/keyboard.c). */
module Keyboard {
  import opened CInt
  import LB = LineBuffer

  const KEYS := 60

  /** The modifier flags. */
  datatype Mods = Mods(shift: bool, ctrl: bool, caps: bool, alt: bool)

  /** The keys of one row of the scan code table, from 1 to /, by the row of the keyboard they are
      in. */
  datatype Keycaps = Keycaps(digits: string, top: string, brackets: string, home: string, quotes: string,
                             bar: string, bottom: string, marks: string) {
    predicate Valid() {
      && |digits| == 12 && |top| == 10 && |brackets| == 2 && |home| == 9
      && |quotes| == 3 && |bar| == 1 && |bottom| == 7 && |marks| == 3
    }

    /** The 60 entries of the row. */
    function Row(): string {
      Upper() + Lower()
    }

    function Upper(): string {
      "\0\0" + digits + "\0\0" + top + brackets + "\0\0"
    }

    function Lower(): string {
      home + quotes + "\0" + bar + bottom + marks + "\0" + "*" + "\0" + " " + "\0\0"
    }
  }

  /** The row of the table that the modifiers select. */
  function Caps(m: Mods): (k: Keycaps)
    ensures k.Valid()
  {
    if m.shift && m.caps then
      Keycaps("!@#$%^&*()_+", "qwertyuiop", "{}", "asdfghjkl", ":\"~", "|", "zxcvbnm", "<>?")
    else if m.shift then
      Keycaps("!@#$%^&*()_+", "QWERTYUIOP", "{}", "ASDFGHJKL", ":\"~", "|", "ZXCVBNM", "<>?")
    else if m.caps then
      Keycaps("1234567890-=", "QWERTYUIOP", "[]", "ASDFGHJKL", ";'`", "\\", "ZXCVBNM", ",./")
    else
      Keycaps("1234567890-=", "qwertyuiop", "[]", "asdfghjkl", ";'`", "\\", "zxcvbnm", ",./")
  }

  function Keymap(m: Mods): string {
    Caps(m).Row()
  }

  /** The character on a key, or NUL. */
  function KeyChar(m: Mods, scan: nat): (c: byte)
    requires scan < KEYS
    ensures c != NEWLINE && c != 13 && c != 0x0E
  {
    KeymapFacts(m);
    assert Harmless(Keymap(m)[scan]);
    Keymap(m)[scan] as byte
  }

  predicate Harmless(c: char) {
    c < 128 as char && c != '\n' && c != '\r' && c != 14 as char
  }

  predicate AllHarmless(s: string) {
    forall c :: c in s ==> Harmless(c)
  }

  lemma HarmlessTop(m: Mods)
    ensures AllHarmless(Caps(m).top)
  {
  }

  lemma HarmlessHome(m: Mods)
    ensures AllHarmless(Caps(m).home)
  {
  }

  lemma HarmlessBottom(m: Mods)
    ensures AllHarmless(Caps(m).bottom)
  {
  }

  lemma HarmlessDigits(m: Mods)
    ensures AllHarmless(Caps(m).digits)
  {
  }

  lemma HarmlessSymbols(m: Mods)
    ensures AllHarmless(Caps(m).brackets) && AllHarmless(Caps(m).quotes)
    ensures AllHarmless(Caps(m).bar) && AllHarmless(Caps(m).marks)
  {
  }

  lemma HarmlessRow(k: Keycaps)
    requires k.Valid()
    requires AllHarmless(k.digits) && AllHarmless(k.top) && AllHarmless(k.brackets) && AllHarmless(k.home)
    requires AllHarmless(k.quotes) && AllHarmless(k.bar) && AllHarmless(k.bottom) && AllHarmless(k.marks)
    ensures |k.Row()| == KEYS && AllHarmless(k.Row())
  {
  }

  /** Every key prints ASCII or nothing, and none prints a newline or a backspace. */
  lemma KeymapFacts(m: Mods)
    ensures |Keymap(m)| == KEYS && forall c :: c in Keymap(m) ==> Harmless(c)
  {
    HarmlessTop(m);
    HarmlessHome(m);
    HarmlessBottom(m);
    HarmlessDigits(m);
    HarmlessSymbols(m);
    hide Caps, AllHarmless;
    HarmlessRow(Caps(m));
  }

  lemma UpperPlaces(k: Keycaps)
    requires k.Valid()
    ensures var r := k.Upper();
            |r| == 30 && r[..2] == "\0\0" && r[2..14] == k.digits && r[16..26] == k.top && r[26..28] == k.brackets
  {
  }

  lemma LowerPlaces(k: Keycaps)
    requires k.Valid()
    ensures var r := k.Lower();
            && |r| == 30 && r[..9] == k.home && r[9..12] == k.quotes && r[13..14] == k.bar
            && r[14..21] == k.bottom && r[21..24] == k.marks && r[25..26] == "*" && r[27..28] == " "
  {
  }

  lemma SliceOfSum(s: string, t: string, i: nat, j: nat)
    requires i <= j
    ensures j <= |s| ==> (s + t)[i..j] == s[i..j]
    ensures |s| <= i && j <= |s + t| ==> (s + t)[i..j] == t[i - |s|..j - |s|]
  {
  }

  /** Where each part of the keyboard is in its row. */
  lemma Places(k: Keycaps)
    requires k.Valid()
    ensures var r := k.Row();
            && |r| == KEYS
            && r[0x00..0x02] == "\0\0" && r[0x02..0x0E] == k.digits && r[0x10..0x1A] == k.top
            && r[0x1A..0x1C] == k.brackets && r[0x1E..0x27] == k.home && r[0x27..0x2A] == k.quotes
            && r[0x2B..0x2C] == k.bar && r[0x2C..0x33] == k.bottom && r[0x33..0x36] == k.marks
            && r[0x37..0x38] == "*" && r[0x39..0x3A] == " "
  {
    UpperPlaces(k);
    LowerPlaces(k);
    var s, t := k.Upper(), k.Lower();
    hide k.Upper, k.Lower;
    SliceOfSum(s, t, 0x00, 0x02);
    SliceOfSum(s, t, 0x02, 0x0E);
    SliceOfSum(s, t, 0x10, 0x1A);
    SliceOfSum(s, t, 0x1A, 0x1C);
    SliceOfSum(s, t, 0x1E, 0x27);
    SliceOfSum(s, t, 0x27, 0x2A);
    SliceOfSum(s, t, 0x2B, 0x2C);
    SliceOfSum(s, t, 0x2C, 0x33);
    SliceOfSum(s, t, 0x33, 0x36);
    SliceOfSum(s, t, 0x37, 0x38);
    SliceOfSum(s, t, 0x39, 0x3A);
  }
}
