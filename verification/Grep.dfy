/** The line search of the grep program (syscalls/ece391grep.c): a window of 1024 bytes slides
    over the file, and is cut into lines in place. */
module Grep {
  import opened CInt
  import FS = FileSystem

  const BUFSIZE := 1024

  // ---------- what the program should print ----------

  /** The lines of a text; a last line may lack its newline. */
  function Lines(text: seq<byte>): (ls: seq<seq<byte>>)
    decreases |text|
  {
    if text == [] then [] else
    var i := IndexFrom(text, NEWLINE, 0);
    [text[..i]] + Lines(text[if i < |text| then i + 1 else i..])
  }

  /** `s` occurs in the line at `i`. */
  predicate OccursAt(line: seq<byte>, s: seq<byte>, i: nat) {
    i + |s| <= |line| && line[i..i + |s|] == s
  }

  /** The pattern is in the line; an empty pattern is in none. */
  predicate Matches(line: seq<byte>, s: seq<byte>) {
    s != [] && exists i :: 0 <= i < |line| && OccursAt(line, s, i)
  }

  function Printed(ls: seq<seq<byte>>, s: seq<byte>): seq<seq<byte>> {
    if ls == [] then [] else (if Matches(ls[0], s) then [ls[0]] else []) + Printed(ls[1..], s)
  }

  /** The output for a list of lines. */
  function Rendered(fname: seq<byte>, ls: seq<seq<byte>>): seq<byte> {
    if ls == [] then [] else (fname + [COLON] + ls[0] + [NEWLINE]) + Rendered(fname, ls[1..])
  }

  const COLON: byte := 58

  // ---------- what it searches ----------

  /** The piece that the window makes of the start of the text: a line, if it ends within the
      window, or else a windowful. */
  function Piece(text: seq<byte>): (i: nat)
    ensures i <= |text| && i <= BUFSIZE && NEWLINE !in text[..i]
    ensures i < |text| && i < BUFSIZE ==> text[i] == NEWLINE
  {
    IndexFrom(text[..if |text| < BUFSIZE then |text| else BUFSIZE], NEWLINE, 0)
  }

  /** How much of the text the piece takes, its newline included. */
  function Taken(text: seq<byte>): (n: nat)
    requires text != []
    ensures 0 < n <= |text|
  {
    var i := Piece(text);
    if i < |text| && i < BUFSIZE then i + 1 else i
  }

  function Pieces(text: seq<byte>): (ps: seq<seq<byte>>)
    decreases |text|
  {
    if text == [] then [] else [text[..Piece(text)]] + Pieces(text[Taken(text)..])
  }

  // ---------- the support library ----------

  /** `ece391_strncmp` of the line at `at`, which ends in a NUL, with the whole of `s`. */
  method StrNCmp(data: array<byte>, at: nat, ghost end: nat, s: seq<byte>) returns (r: int)
    requires at <= end < data.Length && data[end] == NUL && NUL !in data[at..end]
    requires NUL !in s
    ensures r == 0 <==> at + |s| <= end && data[at..at + |s|] == s
  {
    if |s| == 0 {
      return 0;
    }
    var i := 0;
    while data[at + i] == s[i]
      invariant 0 <= i < |s| && at + i <= end
      invariant data[at..at + i] == s[..i]
      decreases |s| - i
    {
      assert s[i] in s;
      assert at + i < end;
      if i + 1 == |s| {
        assert data[at..at + |s|] == data[at..at + i] + [s[i]];
        assert s == s[..i] + [s[i]];
        return 0;
      }
      assert data[at..at + (i + 1)] == data[at..at + i] + [s[i]];
      i := i + 1;
    }
    r := data[at + i] as int - s[i] as int;
    assert at + |s| <= end ==> data[at..at + |s|][i] == data[at + i];
  }

  /** `ece391_strcpy` onto the start of the buffer that the string is in. */
  method ShiftLeft(data: array<byte>, from: nat, ghost end: nat)
    requires 0 < from <= end < data.Length && data[end] == NUL && NUL !in data[from..end]
    modifies data
    ensures data[..end - from] == old(data[from..end])
    ensures forall k :: end - from < k < data.Length ==> data[k] == old(data[k])
  {
    assert forall k :: from <= k < end ==> old(data[from..end])[k - from] == old(data[k]) != NUL;
    var i := 0;
    while data[from + i] != NUL
      invariant 0 <= i <= end - from
      invariant forall k :: 0 <= k < i ==> data[k] == old(data[from + k])
      invariant forall k :: i <= k < data.Length ==> data[k] == old(data[k])
      decreases end - from - i
    {
      data[i] := data[from + i];
      i := i + 1;
    }
    data[i] := data[from + i];
  }

  /** What `ece391_fdputs` writes: the string up to its NUL. */
  method StringAt(data: array<byte>, at: nat, ghost end: nat) returns (s: seq<byte>)
    requires at <= end < data.Length && data[end] == NUL && NUL !in data[at..end]
    ensures s == data[at..end]
  {
    assert forall k :: at <= k < end ==> data[at..end][k - at] == data[k] != NUL;
    var len := 0;
    while data[at + len] != NUL
      invariant at + len <= end
      decreases end - at - len
    {
      len := len + 1;
    }
    s := data[at..at + len];
  }

  // ---------- one line ----------

  /** The search of one line, which the newline at `line_end` has been cut from. */
  method SearchLine(data: array<byte>, line_start: nat, line_end: nat, s: seq<byte>, fname: seq<byte>)
    returns (out: seq<byte>)
    requires line_start <= line_end < data.Length && data[line_end] == NUL && NUL !in data[line_start..line_end]
    requires NUL !in s
    ensures out == Rendered(fname, Printed([data[line_start..line_end]], s))
  {
    ghost var line := data[line_start..line_end];
    out := [];
    var check := line_start;
    var found := false;
    while check < line_end && !found
      invariant line_start <= check <= line_end
      invariant !found ==> forall i :: 0 <= i < check - line_start ==> s == [] || !OccursAt(line, s, i)
      invariant found ==> Matches(line, s)
      decreases line_end - check, !found
    {
      assert line[check - line_start] == data[check] != NUL;
      OccursFirst(line, s, check - line_start);
      assert forall k :: check <= k < line_end ==> data[k] == line[k - line_start] && data[k] in line;
      var first := if s == [] then NUL else s[0];
      if first == data[check] {
        var c := StrNCmp(data, check, line_end, s);
        OccursInData(data[..], line_start, line_end, check, s);
        found := c == 0;
      }
      if !found {
        check := check + 1;
      }
    }
    RenderOne(fname, line, s);
    if found {
      var text := StringAt(data, line_start, line_end);
      out := fname + [COLON] + text + [NEWLINE];
    }
  }

  lemma OccursInData(data: seq<byte>, lo: nat, hi: nat, at: nat, s: seq<byte>)
    requires lo <= at < hi <= |data|
    ensures OccursAt(data[lo..hi], s, at - lo) <==> at + |s| <= hi && data[at..at + |s|] == s
  {
    var line, i := data[lo..hi], at - lo;
    assert forall j :: 0 <= j < |line| ==> line[j] == data[lo + j];
    if at + |s| <= hi {
      assert line[i..i + |s|] == data[at..at + |s|];
    }
  }

  lemma OccursFirst(line: seq<byte>, s: seq<byte>, i: nat)
    requires i < |line|
    ensures s != [] && OccursAt(line, s, i) ==> line[i] == s[0]
  {
  }

  lemma RenderOne(fname: seq<byte>, line: seq<byte>, s: seq<byte>)
    ensures Rendered(fname, Printed([line], s)) == if Matches(line, s) then fname + [COLON] + line + [NEWLINE] else []
  {
    assert Printed([line], s) == if Matches(line, s) then [line] else [];
    assert [line][1..] == [];
  }

  // ---------- the window ----------

  /** The output for the text that is still to be searched. */
  function Expected(fname: seq<byte>, s: seq<byte>, text: seq<byte>): seq<byte> {
    Rendered(fname, Printed(Pieces(text), s))
  }

  lemma ExpectedStep(fname: seq<byte>, s: seq<byte>, text: seq<byte>)
    requires text != []
    ensures Expected(fname, s, text)
            == Rendered(fname, Printed([text[..Piece(text)]], s)) + Expected(fname, s, text[Taken(text)..])
  {
    var line, rest := text[..Piece(text)], Pieces(text[Taken(text)..]);
    assert Pieces(text) == [line] + rest;
    assert Pieces(text)[0] == line && Pieces(text)[1..] == rest;
    RenderOne(fname, line, s);
    if Matches(line, s) {
      assert Printed(Pieces(text), s) == [line] + Printed(rest, s);
      assert ([line] + Printed(rest, s))[1..] == Printed(rest, s);
    } else {
      assert Printed(Pieces(text), s) == Printed(rest, s);
    }
  }

  /** The line end that the window finds is the end of the next piece of the text, when the
      window is full or the file is at its end, and either the line starts the window or the
      file is at its end or there is a newline. */
  lemma PieceOfWindow(data: seq<byte>, lo: nat, end: nat, last: nat, rest: seq<byte>)
    requires lo <= end <= last <= BUFSIZE < |data|
    requires NEWLINE !in data[lo..end] && (end < last ==> data[end] == NEWLINE)
    requires last == BUFSIZE || rest == []
    requires end < last || rest == [] || lo == 0
    ensures var text := data[lo..last] + rest;
            if text == [] then lo == end == last else
              && Piece(text) == end - lo && text[..Piece(text)] == data[lo..end]
              && text[Taken(text)..] == data[if end < last then end + 1 else last..last] + rest
  {
    var text := data[lo..last] + rest;
    WindowAt(data, lo, end, last, rest);
    if text != [] {
      FirstNewline(text, end - lo);
      WindowAt(data, lo, if end < last then end + 1 else last, last, rest);
    }
  }

  /** The text from byte `k` of the window on. */
  lemma WindowAt(data: seq<byte>, lo: nat, k: nat, last: nat, rest: seq<byte>)
    requires lo <= k <= last <= |data|
    ensures var text := data[lo..last] + rest;
            && text[..k - lo] == data[lo..k] && text[k - lo..] == data[k..last] + rest
            && (k < last ==> text[k - lo] == data[k])
  {
    assert data[lo..last] == data[lo..k] + data[k..last];
    assert data[lo..last] + rest == data[lo..k] + (data[k..last] + rest);
  }

  lemma FirstNewline(text: seq<byte>, n: nat)
    requires n <= |text| && n <= BUFSIZE && NEWLINE !in text[..n]
    requires n < |text| && n < BUFSIZE ==> text[n] == NEWLINE
    ensures Piece(text) == n
  {
  }

  /** Searching the line that the window has found leaves the output for what follows it. */
  lemma LineOfWindow(fname: seq<byte>, s: seq<byte>, data: seq<byte>, lo: nat, end: nat, last: nat, rest: seq<byte>)
    requires lo <= end <= last <= BUFSIZE < |data|
    requires NEWLINE !in data[lo..end] && (end < last ==> data[end] == NEWLINE)
    requires last == BUFSIZE || rest == []
    requires end < last || rest == [] || lo == 0
    ensures Expected(fname, s, data[lo..last] + rest)
            == Rendered(fname, Printed([data[lo..end]], s))
               + Expected(fname, s, data[if end < last then end + 1 else last..last] + rest)
  {
    var text := data[lo..last] + rest;
    PieceOfWindow(data, lo, end, last, rest);
    if text == [] {
      RenderOne(fname, data[lo..end], s);
      assert data[last..last] + rest == [];
    } else {
      ExpectedStep(fname, s, text);
    }
  }

  /** The loop to the end of the line. */
  method LineEnd(data: array<byte>, line_start: nat, last: nat) returns (line_end: nat)
    requires line_start <= last < data.Length
    ensures line_start <= line_end <= last && NEWLINE !in data[line_start..line_end]
    ensures line_end < last ==> data[line_end] == NEWLINE
  {
    line_end := line_start;
    while line_end < last && data[line_end] != NEWLINE
      invariant line_start <= line_end <= last && NEWLINE !in data[line_start..line_end]
    {
      assert data[line_start..line_end + 1] == data[line_start..line_end] + [data[line_end]];
      line_end := line_end + 1;
    }
  }

  /** A text without NULs, as the string functions need it. */
  predicate IsText(s: seq<byte>) {
    NUL !in s
  }

  /** The newline is cut off and the line searched; what follows it in the window is left. */
  method CutLine(data: array<byte>, line_start: nat, line_end: nat, last: nat, s: seq<byte>, fname: seq<byte>,
                 ghost text: seq<byte>, ghost rest: seq<byte>)
    returns (out: seq<byte>, ghost left: seq<byte>)
    requires line_start <= line_end <= last <= BUFSIZE == data.Length - 1 && data[BUFSIZE] != NEWLINE
    requires text == data[line_start..last] && IsText(text) && IsText(s)
    requires NEWLINE !in data[line_start..line_end] && (line_end < last ==> data[line_end] == NEWLINE)
    requires last == BUFSIZE || rest == []
    requires line_end < last || rest == [] || line_start == 0
    modifies data
    ensures left == data[if line_end < last then line_end + 1 else last..last] && IsText(left)
    ensures Done(fname, s, text + rest, out, left + rest)
    ensures data[BUFSIZE] != NEWLINE
  {
    hide Expected, Rendered, Printed;
    ghost var was := data[..];
    ghost var next := if line_end < last then line_end + 1 else last;
    assert was[line_start..last] == text;
    LineOfWindow(fname, s, was, line_start, line_end, last, rest);
    data[line_end] := NUL;
    left := was[next..last];
    assert text == text[..line_end - line_start] + text[line_end - line_start..];
    assert data[line_start..line_end] == was[line_start..line_end] == text[..line_end - line_start];
    assert left == text[next - line_start..] && left == data[next..last];
    out := SearchLine(data, line_start, line_end, s, fname);
  }

  /** An unfinished line moves to the start of the window. */
  method ShiftWindow(data: array<byte>, line_start: nat, last: nat, ghost text: seq<byte>)
    requires 0 < line_start <= last <= BUFSIZE == data.Length - 1 && text == data[line_start..last] && IsText(text)
    modifies data
    ensures data[..last - line_start] == text
    ensures data[BUFSIZE] == old(data[BUFSIZE]) || data[BUFSIZE] == NUL
  {
    data[last] := NUL;
    assert data[line_start..last] == text;
    ShiftLeft(data, line_start, last);
  }

  /** `out` is the output for `text` up to what is expected of `rest`. */
  predicate Done(fname: seq<byte>, s: seq<byte>, text: seq<byte>, out: seq<byte>, rest: seq<byte>) {
    Expected(fname, s, text) == out + Expected(fname, s, rest)
  }

  lemma DoneStep(fname: seq<byte>, s: seq<byte>, text: seq<byte>, out: seq<byte>, mid: seq<byte>, found: seq<byte>,
                 rest: seq<byte>)
    requires Done(fname, s, text, out, mid) && Done(fname, s, mid, found, rest)
    ensures Done(fname, s, text, out + found, rest)
  {
    hide Expected;
    var a, b, c := out, found, Expected(fname, s, rest);
    assert a + (b + c) == (a + b) + c;
  }

  lemma DoneNothing(fname: seq<byte>, s: seq<byte>, text: seq<byte>)
    ensures Done(fname, s, text, [], text)
  {
    hide Expected;
    assert [] + Expected(fname, s, text) == Expected(fname, s, text);
  }

  lemma DoneAll(fname: seq<byte>, s: seq<byte>, text: seq<byte>, out: seq<byte>)
    requires Done(fname, s, text, out, [])
    ensures out == Expected(fname, s, text)
  {
    assert Expected(fname, s, []) == [];
    hide Expected;
  }

  /** The inner loop: cut and search every line the window holds, and move an unfinished one to
      its start. */
  method CutLines(data: array<byte>, filled: nat, cnt: nat, s: seq<byte>, fname: seq<byte>,
                  ghost window: seq<byte>, ghost rest: seq<byte>)
    returns (last: nat, out: seq<byte>, ghost text: seq<byte>)
    requires data.Length == BUFSIZE + 1 && filled <= BUFSIZE && data[BUFSIZE] != NEWLINE
    requires window == data[..filled] && IsText(window) && IsText(s)
    requires filled == BUFSIZE || rest == []
    requires cnt == 0 ==> rest == []
    modifies data
    ensures last < BUFSIZE && data[BUFSIZE] != NEWLINE
    ensures text == data[..last] && IsText(text)
    ensures cnt == 0 ==> text == []
    ensures Done(fname, s, window + rest, out, text + rest)
  {
    last, out := filled, [];
    var line_start := 0;
    var done := false;
    text := window;
    DoneNothing(fname, s, window + rest);
    hide Done, IsText, Expected;
    while !done
      invariant last <= BUFSIZE && data[BUFSIZE] != NEWLINE && IsText(text)
      invariant Done(fname, s, window + rest, out, text + rest)
      invariant if done then last < BUFSIZE && text == data[..last] && (cnt == 0 ==> last == 0)
                else last == filled && line_start <= last && text == data[line_start..last]
                     && (line_start == last ==> last == 0)
      decreases !done, filled - line_start
    {
      var line_end := LineEnd(data, line_start, last);
      if data[line_end] != NEWLINE && cnt != 0 && line_start != 0 {
        ShiftWindow(data, line_start, last, text);
        last := last - line_start;
        done := true;
      } else {
        var found: seq<byte>;
        ghost var before := text;
        found, text := CutLine(data, line_start, line_end, last, s, fname, text, rest);
        line_start := line_end + 1;
        DoneStep(fname, s, window + rest, out, before + rest, found, text + rest);
        out := out + found;
        if line_start >= last {
          last := 0;
          done := true;
        }
      }
    }
  }

  // ---------- one file ----------

  /** A file as the program finds it: its bytes, how many reads succeed before one fails if any
      does, and whether closing it works. */
  datatype Input = Input(text: seq<byte>, readable: Option<nat>, closes: bool)

  /** How a search ends. After a failed read the output is that for a part of the file, up to what
      is expected of the `rest`. */
  datatype Ending = NotOpened | NotRead(printed: seq<byte>, rest: seq<byte>) | NotClosed | Searched

  /** The whole file and its end take more reads than there are windows in it. */
  predicate EnoughReads(f: Input) {
    f.readable.Some? ==> |f.text| <= BUFSIZE * (f.readable.value - 1)
  }

  const OPEN_FAILED := Ascii("file open failed\n")
  const READ_FAILED := Ascii("file read failed\n")
  const CLOSE_FAILED := Ascii("file close failed\n")

  lemma FittingOutput(fname: seq<byte>, s: seq<byte>, text: seq<byte>)
    ensures Fits(text) ==> Expected(fname, s, text) == Rendered(fname, Printed(Lines(text), s))
  {
    if Fits(text) {
      WindowIsLineByLine(text, s);
    }
  }

  /** `do_one_file`. Reads that succeed are as `read_data` does them; the window is whatever was on
      the stack, but for its last byte. */
  method DoOneFile(s: seq<byte>, fname: seq<byte>, file: Option<Input>, data: array<byte>)
    returns (r: int, out: seq<byte>, ghost how: Ending)
    requires data.Length == BUFSIZE + 1 && data[BUFSIZE] != NEWLINE
    requires IsText(s) && (file.Some? ==> IsText(file.value.text))
    modifies data
    ensures how.NotOpened? <==> file.None?
    ensures how.NotRead? ==> file.value.readable.Some? && file.value.readable.value <= |file.value.text|
    ensures how.NotClosed? ==> !file.value.closes && EnoughReads(file.value)
    ensures how.Searched? ==> file.value.closes && EnoughReads(file.value)
    ensures match how
            case NotOpened => r == -1 && out == OPEN_FAILED
            case NotRead(printed, rest) =>
              && r == -1 && out == printed + READ_FAILED
              && Done(fname, s, file.value.text, printed, rest)
            case NotClosed => r == -1 && out == Expected(fname, s, file.value.text) + CLOSE_FAILED
            case Searched => r == 0 && out == Expected(fname, s, file.value.text)
    ensures how.Searched? && Fits(file.value.text) ==> out == Rendered(fname, Printed(Lines(file.value.text), s))
  {
    if file.None? {
      return -1, OPEN_FAILED, NotOpened;
    }
    var f := file.value;
    FittingOutput(fname, s, f.text);
    hide Expected, Done, Fits, Lines, Printed, Rendered, IsText, Ascii;
    var ok: bool;
    ghost var rest: seq<byte>;
    ok, out, rest := SearchFile(s, fname, f, data);
    if !ok {
      how := NotRead(out, rest);
      return -1, out + READ_FAILED, how;
    }
    if !f.closes {
      return -1, out + CLOSE_FAILED, NotClosed;
    }
    return 0, out, Searched;
  }

  /** What is still to be searched: the window, and the file from the cursor on. */
  function Unsearched(window: seq<byte>, text: seq<byte>, pos: nat): seq<byte>
    requires pos <= |text|
  {
    window + text[pos..]
  }

  /** One read and the lines it completes. */
  method Round(data: array<byte>, filled: nat, text: seq<byte>, pos: nat, s: seq<byte>, fname: seq<byte>,
               ghost window: seq<byte>)
    returns (last: nat, cnt: nat, out: seq<byte>, ghost left: seq<byte>)
    requires data.Length == BUFSIZE + 1 && data[BUFSIZE] != NEWLINE && filled < BUFSIZE && pos <= |text|
    requires window == data[..filled] && IsText(window) && IsText(s) && IsText(text)
    modifies data
    ensures pos + cnt <= |text| && last < BUFSIZE && data[BUFSIZE] != NEWLINE
    ensures left == data[..last] && IsText(left)
    ensures Done(fname, s, Unsearched(window, text, pos), out, Unsearched(left, text, pos + cnt))
    ensures cnt <= BUFSIZE && (cnt == 0 ==> pos == |text| && Unsearched(left, text, pos) == [])
  {
    hide Done;
    cnt := Fill(data, filled, text, pos, window);
    last, out, left := CutLines(data, filled + cnt, cnt, s, fname, data[..filled + cnt], text[pos + cnt..]);
  }

  /** The outer loop: fill the window, cut it into lines, until a read gives nothing or fails. */
  method SearchFile(s: seq<byte>, fname: seq<byte>, file: Input, data: array<byte>)
    returns (ok: bool, out: seq<byte>, ghost rest: seq<byte>)
    requires data.Length == BUFSIZE + 1 && data[BUFSIZE] != NEWLINE
    requires IsText(s) && IsText(file.text)
    modifies data
    ensures ok ==> out == Expected(fname, s, file.text) && EnoughReads(file)
    ensures !ok ==> file.readable.Some? && file.readable.value <= |file.text| && Done(fname, s, file.text, out, rest)
  {
    hide Done, Expected, IsText;
    var text := file.text;
    var pos: nat, last: nat, turns: nat := 0, 0, 0;
    var done := false;
    ghost var window: seq<byte> := [];
    out, rest := [], text;
    NoneSearched(text);
    DoneNothing(fname, s, text);
    hide Unsearched;
    while !done
      invariant pos <= |text| && last < BUFSIZE && data[BUFSIZE] != NEWLINE
      invariant window == data[..last] && IsText(window)
      invariant rest == Unsearched(window, text, pos) && Done(fname, s, text, out, rest)
      invariant file.readable.Some? ==> turns <= file.readable.value
      invariant if done then rest == [] && pos <= BUFSIZE * (turns - 1) && pos == |text|
                else turns <= pos <= BUFSIZE * turns
      decreases |text| - pos, !done
    {
      if file.readable == Some(turns) {
        return false, out, rest;
      }
      var cnt: nat, found: seq<byte>;
      ghost var before := rest;
      last, cnt, found, window := Round(data, last, text, pos, s, fname, window);
      pos := pos + cnt;
      turns := turns + 1;
      rest := Unsearched(window, text, pos);
      DoneStep(fname, s, text, out, before, found, rest);
      out := out + found;
      done := cnt == 0;
    }
    DoneAll(fname, s, text, out);
    ok := true;
  }

  lemma NoneSearched(text: seq<byte>)
    ensures IsText([]) && Unsearched([], text, 0) == text
  {
  }

  lemma PatchLeaves(s: seq<byte>, at: nat, run: seq<byte>, k: nat)
    requires at + |run| <= k < |s|
    ensures FS.Patched(s, at, run)[k] == s[k]
  {
  }

  /** The read into the rest of the window. */
  method Fill(data: array<byte>, last: nat, text: seq<byte>, pos: nat, ghost window: seq<byte>) returns (cnt: nat)
    requires data.Length == BUFSIZE + 1 && data[BUFSIZE] != NEWLINE && last < BUFSIZE && pos <= |text|
    requires window == data[..last] && IsText(window) && IsText(text)
    modifies data
    ensures last + cnt <= BUFSIZE && pos + cnt <= |text|
    ensures last + cnt == BUFSIZE || pos + cnt == |text|
    ensures cnt == 0 ==> pos == |text|
    ensures data[..last + cnt] + text[pos + cnt..] == window + text[pos..]
    ensures IsText(data[..last + cnt]) && data[BUFSIZE] != NEWLINE
  {
    cnt := FS.ReadEnd(|text|, pos, BUFSIZE - last) - pos;
    ghost var was := data[..];
    FS.CopyBytes(data, last, text, pos, cnt);
    assert data[..] == FS.Patched(was, last, text[pos..pos + cnt]);
    assert was[..last] == window;
    assert data[..last + cnt] == window + text[pos..pos + cnt];
    assert text[pos..] == text[pos..pos + cnt] + text[pos + cnt..];
    PatchLeaves(was, last, text[pos..pos + cnt], BUFSIZE);
    assert data[..][BUFSIZE] == data[BUFSIZE];
  }

  // ---------- against the line-by-line search ----------

  predicate AllFit(ls: seq<seq<byte>>) {
    forall l :: l in ls ==> |l| <= BUFSIZE
  }

  /** No line is longer than the window. */
  predicate Fits(text: seq<byte>) {
    AllFit(Lines(text))
  }

  lemma AllFitCons(l: seq<byte>, ls: seq<seq<byte>>)
    ensures AllFit([l] + ls) <==> |l| <= BUFSIZE && AllFit(ls)
  {
    assert ([l] + ls)[0] == l;
    assert forall k :: k in ls ==> k in [l] + ls;
  }

  /** What follows the first line. */
  function Following(text: seq<byte>): seq<byte> {
    var i := IndexFrom(text, NEWLINE, 0);
    text[if i < |text| then i + 1 else i..]
  }

  /** The first line, and what follows it. */
  lemma FirstLine(text: seq<byte>)
    requires text != []
    ensures var i := IndexFrom(text, NEWLINE, 0);
            && Lines(text) == [text[..i]] + Lines(Following(text))
            && (Fits(text) <==> i <= BUFSIZE && Fits(Following(text)))
  {
    AllFitCons(text[..IndexFrom(text, NEWLINE, 0)], Lines(Following(text)));
    hide AllFit, IndexFrom;
  }

  lemma PrintedCons(l: seq<byte>, ls: seq<seq<byte>>, s: seq<byte>)
    ensures Printed([l] + ls, s) == (if Matches(l, s) then [l] else []) + Printed(ls, s)
  {
    assert ([l] + ls)[1..] == ls;
  }

  lemma ShortLine(text: seq<byte>)
    requires IndexFrom(text, NEWLINE, 0) <= BUFSIZE
    ensures Piece(text) == IndexFrom(text, NEWLINE, 0)
  {
    FirstNewline(text, IndexFrom(text, NEWLINE, 0));
  }

  lemma BlankPiece(text: seq<byte>, s: seq<byte>)
    requires text != [] && text[0] == NEWLINE
    ensures Printed(Pieces(text), s) == Printed(Pieces(text[1..]), s)
  {
    FirstNewline(text, 0);
    assert text[..0] == [];
    PrintedCons([], Pieces(text[1..]), s);
  }

  /** A line that fits gives the same output either way; one of exactly a windowful leaves its
      newline behind as an empty line, which never matches. */
  lemma FirstPiece(text: seq<byte>, s: seq<byte>)
    requires text != [] && IndexFrom(text, NEWLINE, 0) <= BUFSIZE
    ensures var i := IndexFrom(text, NEWLINE, 0);
            Printed(Pieces(text), s)
            == (if Matches(text[..i], s) then [text[..i]] else [])
               + Printed(Pieces(Following(text)), s)
  {
    var i := IndexFrom(text, NEWLINE, 0);
    ShortLine(text);
    hide Printed, IndexFrom, Matches, Piece;
    PrintedCons(text[..i], Pieces(text[Taken(text)..]), s);
    if i == BUFSIZE && i < |text| {
      BlankPiece(text[i..], s);
      assert text[i..][1..] == text[i + 1..];
    }
  }

  /** When every line fits, the sliding window finds exactly the lines that contain the
      pattern, each once and in order. */
  lemma {:induction false} WindowIsLineByLine(text: seq<byte>, s: seq<byte>)
    requires Fits(text)
    ensures Printed(Pieces(text), s) == Printed(Lines(text), s)
    decreases |text|
  {
    if text != [] {
      FirstLine(text);
      FirstPiece(text, s);
      WindowIsLineByLine(Following(text), s);
      PrintedCons(text[..IndexFrom(text, NEWLINE, 0)], Lines(Following(text)), s);
    }
  }

  /** A first line that does not fit is printed in two outputs of different length. */
  lemma LongFirstLine(text: seq<byte>, s: seq<byte>)
    requires text != [] && IndexFrom(text, NEWLINE, 0) > BUFSIZE && s == [text[0]]
    ensures Printed(Pieces(text), s) != Printed(Lines(text), s)
  {
    var i := IndexFrom(text, NEWLINE, 0);
    FirstLine(text);
    FirstNewline(text, BUFSIZE);
    assert OccursAt(text[..i], s, 0) && OccursAt(text[..BUFSIZE], s, 0);
    PrintedCons(text[..BUFSIZE], Pieces(text[BUFSIZE..]), s);
    PrintedCons(text[..i], Lines(Following(text)), s);
    hide Printed, Lines, Pieces, IndexFrom;
    assert Printed(Pieces(text), s) != [] && Printed(Pieces(text), s)[0] == text[..BUFSIZE];
    assert Printed(Lines(text), s) != [] && Printed(Lines(text), s)[0] == text[..i];
  }

  lemma SameStart(a: seq<seq<byte>>, b: seq<seq<byte>>, c: seq<seq<byte>>)
    requires b != c
    ensures a + b != a + c
  {
    assert (a + b)[|a|..] == b && (a + c)[|a|..] == c;
  }

  /** A line that does not fit is broken: some pattern of one byte shows it. */
  lemma {:induction false} LongLineIsBroken(text: seq<byte>) returns (s: seq<byte>)
    requires !Fits(text)
    ensures |s| == 1 && Printed(Pieces(text), s) != Printed(Lines(text), s)
    decreases |text|
  {
    FirstLine(text);
    if IndexFrom(text, NEWLINE, 0) <= BUFSIZE {
      s := LongLineIsBroken(Following(text));
      FirstPiece(text, s);
      PrintedCons(text[..IndexFrom(text, NEWLINE, 0)], Lines(Following(text)), s);
      hide Printed, Lines, Pieces, IndexFrom, Fits, Matches;
      var line := text[..IndexFrom(text, NEWLINE, 0)];
      var first := if Matches(line, s) then [line] else [];
      SameStart(first, Printed(Pieces(Following(text)), s), Printed(Lines(Following(text)), s));
    } else {
      s := [text[0]];
      LongFirstLine(text, s);
    }
  }

  /** The program agrees with the line-by-line search for all patterns exactly if every line
      fits the window. */
  lemma ExactlyWhenLinesFit(text: seq<byte>)
    ensures Fits(text) <==> forall s :: Printed(Pieces(text), s) == Printed(Lines(text), s)
  {
    if Fits(text) {
      forall s
        ensures Printed(Pieces(text), s) == Printed(Lines(text), s)
      {
        WindowIsLineByLine(text, s);
      }
    } else {
      var s := LongLineIsBroken(text);
    }
  }

  /** A line matches exactly if the pattern, which is not empty, is somewhere in it. */
  lemma MatchesIs(line: seq<byte>, s: seq<byte>)
    ensures Matches(line, s) <==> s != [] && exists a, b :: line == a + s + b
  {
    if Matches(line, s) {
      var i :| 0 <= i < |line| && OccursAt(line, s, i);
      assert line == line[..i] + s + line[i + |s|..];
    }
    if a, b :| s != [] && line == a + s + b {
      assert line[|a|..|a| + |s|] == s;
      assert OccursAt(line, s, |a|);
    }
  }

  /** The lines that are printed are those of the file that match, in their order. */
  lemma {:induction false} PrintedParts(ls: seq<seq<byte>>, ms: seq<seq<byte>>, s: seq<byte>)
    ensures Printed(ls + ms, s) == Printed(ls, s) + Printed(ms, s)
    ensures |ls| == 1 ==> Printed(ls, s) == if Matches(ls[0], s) then ls else []
    decreases |ls|
  {
    if ls == [] {
      assert ls + ms == ms;
    } else {
      assert ls == [ls[0]] + ls[1..] && ls + ms == [ls[0]] + (ls[1..] + ms);
      PrintedCons(ls[0], ls[1..], s);
      PrintedCons(ls[0], ls[1..] + ms, s);
      PrintedParts(ls[1..], ms, s);
    }
  }

  /** Each is printed once, after the file's name and a colon, on a line of its own. */
  lemma {:induction false} RenderedParts(fname: seq<byte>, ls: seq<seq<byte>>, ms: seq<seq<byte>>)
    ensures Rendered(fname, ls + ms) == Rendered(fname, ls) + Rendered(fname, ms)
    ensures |ls| == 1 ==> Rendered(fname, ls) == fname + [58] + ls[0] + [10]
    decreases |ls|
  {
    hide Rendered;
    RenderedNone(fname);
    if ls == [] {
      assert ls + ms == ms;
      assert [] + Rendered(fname, ms) == Rendered(fname, ms);
    } else {
      assert (ls + ms)[1..] == ls[1..] + ms;
      RenderedParts(fname, ls[1..], ms);
      RenderedFirst(fname, ls);
      RenderedFirst(fname, ls + ms);
      Assoc(fname + [COLON] + ls[0] + [NEWLINE], Rendered(fname, ls[1..]), Rendered(fname, ms));
    }
  }

  lemma Assoc(a: seq<byte>, b: seq<byte>, c: seq<byte>)
    ensures (a + b) + c == a + (b + c) && a + [] == a
  {
  }

  lemma RenderedFirst(fname: seq<byte>, ls: seq<seq<byte>>)
    requires ls != []
    ensures Rendered(fname, ls) == (fname + [COLON] + ls[0] + [NEWLINE]) + Rendered(fname, ls[1..])
  {
  }

  lemma RenderedNone(fname: seq<byte>)
    ensures Rendered(fname, []) == []
  {
  }

  /** All bytes but newlines. */
  function Solid(text: seq<byte>): seq<byte> {
    if text == [] then [] else (if text[0] == NEWLINE then [] else [text[0]]) + Solid(text[1..])
  }

  function Flat(ps: seq<seq<byte>>): seq<byte> {
    if ps == [] then [] else ps[0] + Flat(ps[1..])
  }

  lemma {:induction false} SolidParts(a: seq<byte>, b: seq<byte>)
    ensures Solid(a + b) == Solid(a) + Solid(b)
    ensures NEWLINE !in a ==> Solid(a) == a
    decreases |a|
  {
    if a == [] {
      assert a + b == b;
    } else {
      assert (a + b)[1..] == a[1..] + b;
      SolidParts(a[1..], b);
      assert a == [a[0]] + a[1..];
    }
  }

  /** Whatever the lengths of its lines, every byte of the file but its newlines is searched in one
      piece, in order. */
  lemma {:induction false} PiecesCover(text: seq<byte>)
    ensures Flat(Pieces(text)) == Solid(text)
    decreases |text|
  {
    hide Flat, Solid, Piece, Taken, Pieces;
    PiecesStep(text);
    if text == [] {
      NothingSolid();
    } else {
      var i, n := Piece(text), Taken(text);
      PiecesCover(text[n..]);
      TakenIs(text);
      FlatFirst(text[..i], Pieces(text[n..]));
      SolidTaken(text, i, n);
    }
  }

  lemma PiecesStep(text: seq<byte>)
    ensures Pieces(text) == if text == [] then [] else [text[..Piece(text)]] + Pieces(text[Taken(text)..])
  {
  }

  lemma SolidTaken(text: seq<byte>, i: nat, n: nat)
    requires i <= n <= |text| && NEWLINE !in text[..i] && (text[i..n] == [] || text[i..n] == [NEWLINE])
    ensures Solid(text) == text[..i] + Solid(text[n..])
  {
    hide Solid;
    ThreeParts(text, i, n);
    SolidJoin(text[..i], text[i..n], text[n..]);
  }

  lemma ThreeParts(text: seq<byte>, i: nat, n: nat)
    requires i <= n <= |text|
    ensures text[..i] + (text[i..n] + text[n..]) == text
  {
  }

  lemma SolidJoin(a: seq<byte>, b: seq<byte>, c: seq<byte>)
    requires NEWLINE !in a && (b == [] || b == [NEWLINE])
    ensures Solid(a + (b + c)) == a + Solid(c)
  {
    hide Solid;
    SolidParts(a, b + c);
    SolidParts(b, c);
    OneNewline(b);
    assert [] + Solid(c) == Solid(c);
  }

  /** No piece is longer than the window, and none has a newline in it. */
  lemma {:induction false} PiecesFit(text: seq<byte>, k: nat)
    requires k < |Pieces(text)|
    ensures |Pieces(text)[k]| <= 1024 && NEWLINE !in Pieces(text)[k]
    decreases |text|
  {
    hide Piece, Taken;
    if k > 0 {
      PiecesFit(text[Taken(text)..], k - 1);
    }
  }

  lemma NothingSolid()
    ensures Flat([]) == [] && Solid([]) == []
  {
  }

  lemma FlatFirst(p: seq<byte>, ps: seq<seq<byte>>)
    ensures Flat([p] + ps) == p + Flat(ps)
  {
  }

  /** What is taken past the piece is a newline or nothing. */
  lemma TakenIs(text: seq<byte>)
    requires text != []
    ensures var i, n := Piece(text), Taken(text); i <= n && (text[i..n] == [] || text[i..n] == [NEWLINE])
  {
    hide IndexFrom;
  }

  lemma OneNewline(s: seq<byte>)
    requires s == [] || s == [NEWLINE]
    ensures Solid(s) == []
  {
  }

  /** Lines with their newlines. */
  function Joined(ls: seq<seq<byte>>): seq<byte> {
    if ls == [] then [] else (ls[0] + [NEWLINE]) + Joined(ls[1..])
  }

  lemma JoinedCons(l: seq<byte>, ls: seq<seq<byte>>)
    ensures Joined([l] + ls) == (l + [NEWLINE]) + Joined(ls)
  {
    assert ([l] + ls)[1..] == ls;
  }

  function Ended(text: seq<byte>): seq<byte> {
    if text == [] || text[|text| - 1] == NEWLINE then text else text + [NEWLINE]
  }

  lemma EndedLine(text: seq<byte>)
    requires text != []
    ensures Ended(text) == (text[..IndexFrom(text, NEWLINE, 0)] + [NEWLINE]) + Ended(Following(text))
  {
    var i := IndexFrom(text, NEWLINE, 0);
    hide IndexFrom;
    if i < |text| {
      assert text == (text[..i] + [NEWLINE]) + text[i + 1..];
    } else {
      assert text[..i] == text && text[|text| - 1] != NEWLINE;
    }
  }

  /** The lines are the text cut at its newlines. */
  lemma {:induction false} LinesAreTheText(text: seq<byte>)
    ensures Joined(Lines(text)) == Ended(text)
    ensures forall l :: l in Lines(text) ==> NEWLINE !in l
    decreases |text|
  {
    if text != [] {
      FirstLine(text);
      LinesAreTheText(Following(text));
      EndedLine(text);
      JoinedCons(text[..IndexFrom(text, NEWLINE, 0)], Lines(Following(text)));
    }
  }
}
