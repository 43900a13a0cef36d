/** The keyboard line of one terminal (student-distrib/terminal_driver.c): `term_buffer` cut at
    `char_idx` into the text being edited and the rest of the 128 bytes. */
module LineBuffer {
  import opened CInt

  const SIZE := 128

  datatype Line = Line(text: seq<byte>, rest: seq<byte>, enter: bool) {
    predicate Valid() {
      && |text| + |rest| == SIZE
      && |text| < SIZE
      && NEWLINE !in text
    }

    function Buffer(): seq<byte> {
      text + rest
    }
  }

  /** What reaches the buffer from the keyboard. A character is never a newline. */
  datatype Press = Char(c: byte) | Enter | Erase {
    predicate Valid() {
      Char? ==> c != NEWLINE
    }
  }

  /** One key press. It reports whether the key is echoed. */
  function Type(l: Line, k: Press): (r: (Line, bool))
    requires l.Valid() && k.Valid()
    ensures r.0.Valid()
  {
    match k
    case Enter => (Line(l.text, [NEWLINE] + l.rest[1..], true), true)
    case Erase =>
      if l.text == [] then (l, false)
      else (Line(l.text[..|l.text| - 1], [SPACE] + l.rest, l.enter), true)
    case Char(c) =>
      if |l.text| == SIZE - 1 then (l, false)
      else (Line(l.text + [c], l.rest[1..], l.enter), true)
  }

  function TypeAll(l: Line, ks: seq<Press>): (r: Line)
    requires l.Valid() && forall k :: k in ks ==> k.Valid()
    ensures r.Valid()
    decreases |ks|
  {
    if ks == [] then l else TypeAll(Type(l, ks[0]).0, ks[1..])
  }

  /** Reference editor: a stack of at most 127 characters that Enter does not touch. */
  function Edited(text: seq<byte>, ks: seq<Press>): seq<byte>
    decreases |ks|
  {
    if ks == [] then text else
    var rest := ks[..|ks| - 1];
    var t := Edited(text, rest);
    match ks[|ks| - 1]
    case Enter => t
    case Erase => if t == [] then t else t[..|t| - 1]
    case Char(c) => if |t| >= SIZE - 1 then t else t + [c]
  }

  /** The newline-terminated prefix the reader gets, and the buffer it leaves. */
  function ReadLine(l: Line, n: nat): (r: (Line, seq<byte>))
    requires l.Valid()
    ensures r.0.Valid() && |r.1| <= n
  {
    var buf := l.Buffer();
    var m := if n < SIZE then n else SIZE;
    var p := IndexFrom(buf[..m], NEWLINE, 0);
    if p < m then (Line([], Repeat(SPACE, p + 1) + buf[p + 1..], false), buf[..p + 1])
    else if n >= SIZE || n == 0 then (Line([], Repeat(SPACE, m) + buf[m..], false), [])
    else (Line([], Repeat(SPACE, n) + buf[n..], false), buf[..n - 1] + [NEWLINE])
  }

  /** `line` cut to `n` bytes, of which the last one is then a newline. */
  function Cut(line: seq<byte>, n: nat): seq<byte> {
    if |line| <= n then line else if n == 0 then [] else line[..n - 1] + [NEWLINE]
  }

  lemma {:induction false} TypeAllAppend(l: Line, ks: seq<Press>, k: Press)
    requires l.Valid() && k.Valid() && forall j :: j in ks ==> j.Valid()
    ensures TypeAll(l, ks + [k]) == Type(TypeAll(l, ks), k).0
    decreases |ks|
  {
    if ks != [] {
      assert (ks + [k])[1..] == ks[1..] + [k];
      TypeAllAppend(Type(l, ks[0]).0, ks[1..], k);
    }
  }

  /** For every key sequence the bytes below `char_idx` are the edited line. */
  lemma {:induction false} TextIsEdited(l: Line, ks: seq<Press>)
    requires l.Valid() && forall k :: k in ks ==> k.Valid()
    ensures TypeAll(l, ks).text == Edited(l.text, ks)
    decreases |ks|
  {
    if ks != [] {
      var n := |ks| - 1;
      assert ks == ks[..n] + [ks[n]];
      TextIsEdited(l, ks[..n]);
      TypeAllAppend(l, ks[..n], ks[n]);
    }
  }

  /** A read gives the edited line with its newline, cut to `n`, exactly when the newline is
      still there or is cut away (and replaced) in any case. */
  lemma ReadGivesLine(l: Line, n: nat)
    requires l.Valid()
    ensures ReadLine(l, n).1 == Cut(l.text + [NEWLINE], n)
            <==> l.rest[0] == NEWLINE || n <= |l.text| || (n == |l.text| + 1 && n < SIZE)
    ensures ReadLine(l, n).0.text == [] && !ReadLine(l, n).0.enter
  {
    var buf := l.Buffer();
    var m := if n < SIZE then n else SIZE;
    var p := IndexFrom(buf[..m], NEWLINE, 0);
    var t := |l.text|;
    assert forall i :: 0 <= i < t ==> buf[i] == l.text[i] && l.text[i] in l.text && buf[i] != NEWLINE;
    assert forall i :: t <= i < SIZE ==> buf[i] == l.rest[i - t];
    if n <= t {
      assert p == m;
      assert n == 0 || buf[..n - 1] == l.text[..n - 1] == (l.text + [NEWLINE])[..n - 1];
    } else if l.rest[0] == NEWLINE {
      assert buf[..m][t] == NEWLINE;
      assert p == t;
      assert buf[..t + 1] == l.text + [NEWLINE];
    } else {
      assert p < m ==> p > t && buf[..p + 1][t] == buf[t] != NEWLINE;
      if p == m && n == t + 1 && n < SIZE {
        assert buf[..n - 1] == l.text;
      } else if p == m && n < SIZE {
        assert buf[..n - 1][t] == buf[t];
      }
    }
  }

  /** After any keys ending in Enter, a read of `n` bytes returns the edited line and its
      newline, cut to `n`, and starts a new line. */
  lemma ReadAfterEnter(l: Line, ks: seq<Press>, n: nat)
    requires l.Valid() && forall k :: k in ks ==> k.Valid()
    ensures var done := TypeAll(l, ks + [Enter]);
            done.enter && ReadLine(done, n).1 == Cut(Edited(l.text, ks) + [NEWLINE], n)
    ensures ReadLine(TypeAll(l, ks + [Enter]), n).0.text == []
  {
    TypeAllAppend(l, ks, Enter);
    TextIsEdited(l, ks);
    ReadGivesLine(TypeAll(l, ks + [Enter]), n);
  }

  /** A cut line has at most `n` bytes; if it is shorter than the line it ends in a newline. */
  lemma CutIs(line: seq<byte>, n: nat)
    ensures |Cut(line, n)| == if |line| < n then |line| else n
    ensures |line| <= n ==> Cut(line, n) == line
    ensures 0 < n < |line| ==> Cut(line, n)[..n - 1] == line[..n - 1] && Cut(line, n)[n - 1] == 10
  {
  }

  /** A read blanks the bytes it has looked at: up to the first newline within its reach, or all of
      them. */
  lemma ReadBlanks(l: Line, n: nat, k: nat)
    requires l.Valid() && k < 128
    ensures var buf := l.Buffer();
            var left := ReadLine(l, n).0.Buffer();
            && |left| == 128
            && left[k] == (if k < n && NEWLINE !in buf[..k] then 32 else buf[k])
  {
    var buf := l.Buffer();
    var m := if n < SIZE then n else SIZE;
    var p := IndexFrom(buf[..m], NEWLINE, 0);
    if k <= p {
      assert forall i :: 0 <= i < k ==> buf[..k][i] == buf[..m][i];
    } else {
      assert p < m ==> buf[..k][p] == buf[..m][p];
    }
  }

  /** The keys of a word type it, and erasing takes back the last character. */
  lemma {:induction false} EditedWord(text: seq<byte>, word: seq<byte>)
    requires |text| + |word| <= 127
    ensures Edited(text, Keys(word)) == text + word
    decreases |word|
  {
    if word == [] {
      assert text + word == text;
    } else {
      var init, c := word[..|word| - 1], word[|word| - 1];
      assert Keys(word)[..|word| - 1] == Keys(init);
      EditedWord(text, init);
      assert text + word == (text + init) + [c];
    }
  }

  function Keys(word: seq<byte>): (ks: seq<Press>)
    ensures |ks| == |word| && forall i :: 0 <= i < |ks| ==> ks[i] == Char(word[i])
  {
    seq(|word|, i requires 0 <= i < |word| => Char(word[i]))
  }

  lemma {:induction false} EditedErase(text: seq<byte>, ks: seq<Press>)
    ensures var t := Edited(text, ks);
            && Edited(text, ks + [Erase]) == (if t == [] then [] else t[..|t| - 1])
            && Edited(text, ks + [Enter]) == t
            && forall c :: |t| >= 127 ==> Edited(text, ks + [Char(c)]) == t
  {
    assert forall k :: (ks + [k])[..|ks|] == ks;
  }

  /** A key typed between Enter and the read takes the newline's place: with an otherwise
      blank buffer the reader of 128 bytes gets nothing at all. */
  lemma TypeAheadLosesLine(c: byte)
    requires c != NEWLINE
    ensures ReadLine(TypeAll(Line([], Repeat(SPACE, SIZE), false), [Enter, Char(c)]), SIZE).1 == []
  {
    var l := Line([], Repeat(SPACE, SIZE), false);
    assert [Enter, Char(c)] == [Enter] + [Char(c)];
    assert [Enter] == [] + [Enter];
    TypeAllAppend(l, [], Enter);
    TypeAllAppend(l, [Enter], Char(c));
    var r := TypeAll(l, [Enter, Char(c)]);
    assert r.Buffer() == [c] + Repeat(SPACE, SIZE - 1);
  }
}
