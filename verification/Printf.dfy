/** Number printing (student-distrib/lib.c): `itoa`, which writes the digits backwards and then
    reverses them in place, and the conversions of `printf` built on it. */
module Printf {
  import opened CInt
  import FS = FileSystem

  const UINT := 0x1_0000_0000
  const ZERO: byte := 48

  predicate Radix(r: nat) {
    2 <= r <= 36
  }

  /** The lookup table of `itoa`. */
  function Digit(d: nat): (c: byte)
    requires d < 36
    ensures c != NUL
  {
    if d < 10 then (48 + d) as byte else (55 + d) as byte
  }

  /** What a digit stands for. */
  function DigitValue(c: byte): nat {
    if 48 <= c <= 57 then c as int - 48 else if 65 <= c <= 90 then c as int - 55 else 36
  }

  /** A numeral read as a number. */
  function Reads(text: seq<byte>, radix: nat): nat
    decreases |text|
  {
    if text == [] then 0 else Reads(text[..|text| - 1], radix) * radix + DigitValue(text[|text| - 1])
  }

  function Quotient(v: nat, radix: nat): (q: nat)
    requires Radix(radix)
    ensures v > 0 ==> q < v
  {
    v / radix
  }

  function Remainder(v: nat, radix: nat): (r: nat)
    requires Radix(radix)
    ensures r < radix
  {
    v % radix
  }

  /** The digits of a positive number, highest first; none for 0. */
  function Digits(v: nat, radix: nat): (s: seq<byte>)
    requires Radix(radix)
    ensures NUL !in s && (v > 0 ==> s != [])
    decreases v
  {
    if v == 0 then [] else Digits(Quotient(v, radix), radix) + [Digit(Remainder(v, radix))]
  }

  /** What `itoa` leaves. */
  function Numeral(v: nat, radix: nat): (s: seq<byte>)
    requires Radix(radix)
    ensures NUL !in s && s != []
  {
    if v == 0 then [ZERO] else Digits(v, radix)
  }

  function Reversed(s: seq<byte>): (r: seq<byte>)
    ensures |r| == |s| && forall i :: 0 <= i < |s| ==> r[i] == s[|s| - 1 - i]
  {
    seq(|s|, i requires 0 <= i < |s| => s[|s| - 1 - i])
  }

  // ---------- what a numeral means ----------

  lemma ReadsSnoc(s: seq<byte>, c: byte, radix: nat)
    ensures Reads(s + [c], radix) == Reads(s, radix) * radix + DigitValue(c)
  {
    assert (s + [c])[..|s|] == s;
  }

  lemma {:induction false} DigitsRead(v: nat, radix: nat)
    requires Radix(radix)
    ensures Reads(Digits(v, radix), radix) == v
    decreases v
  {
    if v > 0 {
      DigitsStep(v, radix);
      hide Digits, Reads, Digit, DigitValue, Quotient, Remainder;
      DigitsRead(Quotient(v, radix), radix);
      ReadsSnoc(Digits(Quotient(v, radix), radix), Digit(Remainder(v, radix)), radix);
      DigitStands(Remainder(v, radix));
      DivMod(v, radix);
    }
  }

  lemma {:induction false} DigitsStep(v: nat, radix: nat)
    requires Radix(radix) && v > 0
    ensures Digits(v, radix) == Digits(Quotient(v, radix), radix) + [Digit(Remainder(v, radix))]
  {
  }

  lemma DigitStands(d: nat)
    requires d < 36
    ensures DigitValue(Digit(d)) == d
  {
  }

  lemma DivMod(v: nat, radix: nat)
    requires Radix(radix)
    ensures Quotient(v, radix) * radix + Remainder(v, radix) == v
  {
  }

  /** Reading back what `itoa` leaves gives the number, in every radix. */
  lemma {:induction false} NumeralReads(v: nat, radix: nat)
    requires Radix(radix)
    ensures Reads(Numeral(v, radix), radix) == v
  {
    DigitsRead(v, radix);
    ReadsSnoc([], ZERO, radix);
    assert [] + [ZERO] == [ZERO];
  }

  /** Every character is a digit below the radix, and only 0 starts with a zero. */
  lemma {:induction false} NumeralDigits(v: nat, radix: nat)
    requires Radix(radix)
    ensures forall c :: c in Numeral(v, radix) ==> DigitValue(c) < radix
    ensures Numeral(v, radix)[0] == ZERO <==> v == 0
    decreases v
  {
    if v > 0 {
      DigitsStep(v, radix);
      var q, d := Quotient(v, radix), Remainder(v, radix);
      NumeralDigits(q, radix);
      DigitStands(d);
      FirstDigit(v, radix);
      NoDigits(radix);
      hide Digits, Digit, DigitValue, Quotient, Remainder;
    }
  }

  /** A number below the radix is its own digit. */
  lemma FirstDigit(v: nat, radix: nat)
    requires Radix(radix)
    ensures Quotient(v, radix) == 0 ==> Remainder(v, radix) == v
    ensures v < 36 && v > 0 ==> Digit(v) != ZERO
  {
  }

  function Power(b: nat, k: nat): nat {
    if k == 0 then 1 else b * Power(b, k - 1)
  }

  lemma Shrinks(v: nat, radix: nat, b: nat, p: nat)
    requires Radix(radix) && 2 <= b <= radix && v < b * p
    ensures Quotient(v, radix) < p
  {
    if Quotient(v, radix) >= p {
      Monotone(radix, b, Quotient(v, radix), p);
    }
  }

  lemma Monotone(a: nat, b: nat, c: nat, d: nat)
    requires a >= b && c >= d
    ensures a * c >= b * d
  {
    assert a * c >= b * c >= b * d;
  }

  lemma {:induction false} DigitsFit(v: nat, radix: nat, b: nat, k: nat)
    requires Radix(radix) && 2 <= b <= radix && v < Power(b, k)
    ensures |Digits(v, radix)| <= k
    decreases k
  {
    if v > 0 {
      Shrinks(v, radix, b, Power(b, k - 1));
      DigitsFit(Quotient(v, radix), radix, b, k - 1);
    }
  }

  lemma {:induction false} PowerAdds(b: nat, j: nat, k: nat)
    ensures Power(b, j + k) == Power(b, j) * Power(b, k)
  {
    if j > 0 {
      PowerAdds(b, j - 1, k);
      assert b * (Power(b, j - 1) * Power(b, k)) == (b * Power(b, j - 1)) * Power(b, k);
    }
  }

  lemma WordPowers()
    ensures Power(16, 8) == UINT == Power(2, 32)
  {
    assert Power(16, 2) == 256 && Power(2, 4) == 16;
    PowerAdds(16, 2, 2);
    PowerAdds(16, 4, 4);
    PowerAdds(2, 4, 4);
    PowerAdds(2, 8, 8);
    PowerAdds(2, 16, 16);
  }

  /** A word has at most 32 digits in any radix, and at most 8 in hexadecimal. */
  lemma NumeralFits(v: nat, radix: nat)
    requires Radix(radix) && v < UINT
    ensures |Numeral(v, radix)| <= 32 && |Numeral(v, 16)| <= 8
  {
    WordPowers();
    DigitsFit(v, radix, 2, 32);
    DigitsFit(v, 16, 16, 8);
  }

  // ---------- the loops ----------

  /** `strlen` of the string at `at`. */
  method StrLen(s: array<byte>, at: nat, ghost end: nat) returns (len: nat)
    requires at <= end < s.Length && s[end] == NUL && NUL !in s[at..end]
    ensures len == end - at
  {
    ghost var text := s[at..];
    assert text[end - at] == NUL && text[..end - at] == s[at..end];
    len := FS.StrLen(s[at..]);
    FS.CStringPrefix(text, end - at);
  }

  /** The first and the last `b` bytes between `at` and `stop` exchanged in mirror order. */
  function Mirrored(s: seq<byte>, at: nat, stop: nat, b: nat): (r: seq<byte>)
    requires at <= stop <= |s| && b <= stop - at
    ensures |r| == |s|
  {
    seq(|s|, k requires 0 <= k < |s| => if at <= k < at + b || stop - b <= k < stop then s[at + stop - 1 - k] else s[k])
  }

  lemma MirrorStep(s: seq<byte>, at: nat, stop: nat, b: nat)
    requires at <= stop <= |s| && at + b < stop - 1 - b
    ensures var m := Mirrored(s, at, stop, b);
            m[stop - 1 - b := m[at + b]][at + b := m[stop - 1 - b]] == Mirrored(s, at, stop, b + 1)
  {
  }

  lemma MirrorEnds(s: seq<byte>, at: nat, stop: nat, b: nat)
    requires at <= stop <= |s| && b <= stop - at
    ensures Mirrored(s, at, stop, 0) == s
    ensures at + b >= stop - 1 - b ==> Mirrored(s, at, stop, b)[at..stop] == Reversed(s[at..stop])
    ensures forall k :: 0 <= k < |s| && !(at <= k < stop) ==> Mirrored(s, at, stop, b)[k] == s[k]
  {
  }

  /** `strrev`. */
  method StrRev(s: array<byte>, at: nat, ghost stop: nat)
    requires at <= stop < s.Length && s[stop] == NUL && NUL !in s[at..stop]
    modifies s
    ensures s[at..stop] == Reversed(old(s[at..stop]))
    ensures forall k :: 0 <= k < s.Length && !(at <= k < stop) ==> s[k] == old(s[k])
  {
    var n := StrLen(s, at, stop);
    ghost var was := s[..];
    var beg: int, end: int := 0, n - 1;
    MirrorEnds(was, at, stop, 0);
    hide Mirrored;
    while beg < end
      invariant 0 <= beg <= n && end == n - 1 - beg
      invariant s[..] == Mirrored(was, at, stop, beg)
    {
      MirrorStep(was, at, stop, beg);
      var tmp := s[at + end];
      s[at + end] := s[at + beg];
      s[at + beg] := tmp;
      beg := beg + 1;
      end := end - 1;
    }
    MirrorEnds(was, at, stop, beg);
    assert was[at..stop] == old(s[at..stop]) && s[at..stop] == s[..][at..stop];
    assert forall k :: 0 <= k < s.Length ==> s[k] == s[..][k];
  }

  lemma ReversedSnoc(s: seq<byte>, c: byte)
    ensures Reversed(s + [c]) == [c] + Reversed(s)
  {
  }

  lemma ReversedTwice(s: seq<byte>)
    ensures Reversed(Reversed(s)) == s
  {
  }

  /** The digits of `v` are those of `rest`, then `low` backwards. */
  predicate Split(v: nat, radix: nat, rest: nat, low: seq<byte>)
    requires Radix(radix)
  {
    Digits(v, radix) == Digits(rest, radix) + Reversed(low)
  }

  /** One turn of the loop moves the lowest digit over. */
  lemma {:induction false} MoveDigit(v: nat, radix: nat, rest: nat, low: seq<byte>)
    requires Radix(radix) && rest > 0 && Split(v, radix, rest, low)
    ensures |low| < |Digits(v, radix)|
    ensures Split(v, radix, Quotient(rest, radix), low + [Digit(Remainder(rest, radix))])
  {
    DigitsStep(rest, radix);
    hide Digits, Digit;
    var d := Digit(Remainder(rest, radix));
    ReversedSnoc(low, d);
    assert Digits(rest, radix) + Reversed(low) == Digits(Quotient(rest, radix), radix) + ([d] + Reversed(low));
  }

  lemma {:induction false} SplitEnds(v: nat, radix: nat, low: seq<byte>)
    requires Radix(radix)
    ensures Split(v, radix, v, [])
    ensures Split(v, radix, 0, low) ==> low == Reversed(Digits(v, radix))
  {
    NoDigits(radix);
    hide Digits;
    assert Digits(v, radix) + Reversed([]) == Digits(v, radix);
    ReversedTwice(low);
    assert Digits(0, radix) + Reversed(low) == Reversed(low);
  }

  /** The loop of `itoa`: the digits from the lowest, and a NUL. */
  method PutDigits(v: nat, buf: array<byte>, at: nat, radix: nat) returns (n: nat)
    requires Radix(radix) && v > 0 && at + |Digits(v, radix)| < buf.Length
    modifies buf
    ensures n == |Digits(v, radix)| && buf[at + n] == NUL
    ensures buf[at..at + n] == Reversed(Digits(v, radix))
    ensures forall k :: 0 <= k < buf.Length && !(at <= k <= at + n) ==> buf[k] == old(buf[k])
  {
    var newval: nat := v;
    n := 0;
    ghost var low: seq<byte> := [];
    SplitEnds(v, radix, low);
    hide Digits, Digit, Quotient, Remainder, Split;
    while newval > 0
      invariant Split(v, radix, newval, low)
      invariant |low| == n && at + n < buf.Length && buf[at..at + n] == low
      invariant forall k :: 0 <= k < buf.Length && !(at <= k < at + n) ==> buf[k] == old(buf[k])
      decreases newval
    {
      MoveDigit(v, radix, newval, low);
      buf[at + n] := Digit(Remainder(newval, radix));
      low := low + [Digit(Remainder(newval, radix))];
      newval := Quotient(newval, radix);
      n := n + 1;
    }
    buf[at + n] := NUL;
    assert buf[at..at + n] == low;
    SplitEnds(v, radix, low);
  }

  lemma {:induction false} NoDigits(radix: nat)
    requires Radix(radix)
    ensures Digits(0, radix) == []
  {
  }

  /** `itoa` at place `at` of a buffer. */
  method Itoa(value: nat, buf: array<byte>, at: nat, radix: nat)
    requires Radix(radix) && at + |Numeral(value, radix)| < buf.Length
    modifies buf
    ensures var n := |Numeral(value, radix)|;
            buf[at..at + n] == Numeral(value, radix) && buf[at + n] == NUL
    ensures forall k :: 0 <= k < buf.Length && !(at <= k <= at + |Numeral(value, radix)|) ==> buf[k] == old(buf[k])
  {
    if value == 0 {
      buf[at] := ZERO;
      buf[at + 1] := NUL;
      return;
    }
    var n := PutDigits(value, buf, at, radix);
    ghost var digits := buf[at..at + n];
    assert digits == Reversed(Digits(value, radix));
    ReversedText(Digits(value, radix));
    StrRev(buf, at, at + n);
    ReversedTwice(Digits(value, radix));
  }

  lemma ReversedText(s: seq<byte>)
    requires NUL !in s
    ensures NUL !in Reversed(s)
  {
    assert forall i :: 0 <= i < |s| ==> Reversed(s)[i] == s[|s| - 1 - i] && s[|s| - 1 - i] in s;
  }

  // ---------- the conversions ----------

  /** The loop of `%#x`: zeros up to place 8. */
  method ZeroFill(conv_buf: array<byte>, starting_index: nat)
    requires starting_index <= 8 < conv_buf.Length
    modifies conv_buf
    ensures conv_buf[starting_index..8] == Repeat(ZERO, 8 - starting_index)
    ensures conv_buf[8..] == old(conv_buf[8..])
  {
    var i := starting_index;
    while i < 8
      invariant starting_index <= i <= 8
      invariant forall k :: starting_index <= k < i ==> conv_buf[k] == ZERO
      invariant forall k :: 8 <= k < conv_buf.Length ==> conv_buf[k] == old(conv_buf[k])
    {
      conv_buf[i] := ZERO;
      i := i + 1;
    }
  }

  /** `%#x`: the digits go to the second half of the buffer and zeros before them. */
  method PrintAlignedHex(value: nat, conv_buf: array<byte>) returns (out: seq<byte>)
    requires value < UINT && conv_buf.Length == 64
    modifies conv_buf
    ensures |Numeral(value, 16)| <= 8 && out == Repeat(ZERO, 8 - |Numeral(value, 16)|) + Numeral(value, 16)
  {
    hide Numeral, Digits, Digit;
    NumeralFits(value, 16);
    ghost var digits := Numeral(value, 16);
    ghost var n := |digits|;
    Itoa(value, conv_buf, 8, 16);
    ghost var high := conv_buf[8..];
    assert conv_buf[8..8 + n] == high[..n] == digits && high[n] == NUL;
    var starting_index := StrLen(conv_buf, 8, 8 + n);
    ZeroFill(conv_buf, starting_index);
    assert conv_buf[8..8 + n] == conv_buf[8..][..n] == digits && conv_buf[8..][n] == conv_buf[8 + n];
    assert conv_buf[starting_index..8 + n] == conv_buf[starting_index..8] + conv_buf[8..8 + n];
    PaddedText(digits, 8 - n);
    var len := StrLen(conv_buf, starting_index, 8 + n);
    out := conv_buf[starting_index..starting_index + len];
  }

  /** It prints exactly eight hexadecimal digits that denote the number. */
  lemma EightHexDigits(value: nat)
    requires value < UINT
    ensures |Numeral(value, 16)| <= 8
    ensures var out := Repeat(ZERO, 8 - |Numeral(value, 16)|) + Numeral(value, 16);
            |out| == 8 && Reads(out, 16) == value && forall c :: c in out ==> DigitValue(c) < 16
  {
    NumeralFits(value, 16);
    PaddedReads(Numeral(value, 16), 8 - |Numeral(value, 16)|, 16);
    NumeralReads(value, 16);
    NumeralDigits(value, 16);
  }

  lemma PaddedText(s: seq<byte>, k: nat)
    requires NUL !in s
    ensures NUL !in Repeat(ZERO, k) + s
  {
  }

  lemma {:induction false} PaddedReads(s: seq<byte>, k: nat, radix: nat)
    ensures Reads(Repeat(ZERO, k) + s, radix) == Reads(s, radix)
    decreases |s|, k
  {
    if s != [] {
      var t := s[..|s| - 1];
      assert Repeat(ZERO, k) + s == (Repeat(ZERO, k) + t) + [s[|s| - 1]];
      PaddedReads(t, k, radix);
      ReadsSnoc(Repeat(ZERO, k) + t, s[|s| - 1], radix);
    } else if k > 0 {
      assert Repeat(ZERO, k) + s == Repeat(ZERO, k - 1) + [ZERO];
      assert Repeat(ZERO, k - 1) + [] == Repeat(ZERO, k - 1);
      PaddedReads([], k - 1, radix);
      ReadsSnoc(Repeat(ZERO, k - 1), ZERO, radix);
    }
  }

  /** A word read as a signed number. */
  function Signed(w: nat): (v: int)
    requires w < UINT
    ensures -0x8000_0000 <= v < 0x8000_0000
  {
    if w < 0x8000_0000 then w else w - UINT
  }

  /** A sign, if there is one, and the digits of the absolute value. */
  function SignedNumeral(v: int): seq<byte> {
    if v < 0 then [45] + Numeral(-v, 10) else Numeral(v, 10)
  }

  /** A number read with its sign. */
  function SignedReads(text: seq<byte>): int {
    if text != [] && text[0] == 45 then 0 - Reads(text[1..], 10) else Reads(text, 10)
  }

  /** What `%d` prints reads back as the number, whatever its sign. */
  lemma SignedReadsBack(v: int)
    ensures SignedReads(SignedNumeral(v)) == v
    ensures v < 0 <==> SignedNumeral(v)[0] == 45
  {
    hide Numeral, Reads, Digits, Digit;
    var n: nat := if v < 0 then -v else v;
    NumeralReads(n, 10);
    NoSign(n);
    AfterSign(Numeral(n, 10));
  }

  lemma NoSign(n: nat)
    ensures Numeral(n, 10)[0] != 45
  {
    hide Numeral;
    NumeralDigits(n, 10);
    assert Numeral(n, 10)[0] in Numeral(n, 10);
  }

  lemma AfterSign(s: seq<byte>)
    ensures ([45] + s)[0] == 45 && ([45] + s)[1..] == s
  {
  }

  /** The characters of the digits. */
  lemma DigitTable(d: nat)
    requires d < 36
    ensures Digit(d) == Ascii("0123456789ABCDEFGHIJKLMNOPQRSTUVWXYZ")[d]
  {
    DecimalTable(d);
    LetterTable(d);
  }

  lemma DecimalTable(d: nat)
    ensures d < 10 ==> "0123456789ABCDEFGHIJKLMNOPQRSTUVWXYZ"[d] as int == 48 + d
  {
  }

  lemma LetterTable(d: nat)
    ensures 10 <= d < 36 ==> "0123456789ABCDEFGHIJKLMNOPQRSTUVWXYZ"[d] as int == 55 + d
  {
  }

  /** `%d`: a sign and the digits of the absolute value, which for the most negative number is
      what its negation wraps around to. */
  method PrintSigned(value: int, conv_buf: array<byte>) returns (out: seq<byte>)
    requires -0x8000_0000 <= value < 0x8000_0000 && conv_buf.Length == 36
    modifies conv_buf
    ensures out == SignedNumeral(value)
  {
    var v: nat := if value < 0 then -value else value;
    NumeralFits(v, 10);
    var at := 0;
    if value < 0 {
      conv_buf[0] := 45;
      at := 1;
    }
    Itoa(v, conv_buf, at, 10);
    ghost var n := |Numeral(v, 10)|;
    assert conv_buf[0..at + n] == conv_buf[0..at] + conv_buf[at..at + n];
    var len := StrLen(conv_buf, 0, at + n);
    out := conv_buf[0..len];
  }
}
