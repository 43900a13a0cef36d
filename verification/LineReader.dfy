/** The copy loops of `terminal_read` (student-distrib/terminal_driver.c). */
module LineReader {
  import opened CInt
  import opened LineBuffer

  lemma NextBlank(buffer: seq<byte>, i: nat)
    requires i < |buffer|
    ensures var left := Repeat(SPACE, i) + buffer[i..];
            left[i] == buffer[i] && left[i := SPACE] == Repeat(SPACE, i + 1) + buffer[i + 1..]
  {
  }

  lemma FirstIs(s: seq<byte>, i: nat)
    requires i <= |s| && forall k :: 0 <= k < i ==> s[k] != NEWLINE
    requires i < |s| ==> s[i] == NEWLINE
    ensures IndexFrom(s, NEWLINE, 0) == i
  {
  }

  /** The loop for a large caller: up to a newline, or the whole buffer and then nothing. */
  method CopyAll(buffer: seq<byte>, buf: array<byte>) returns (left: seq<byte>, read_bytes: nat)
    requires |buffer| == SIZE <= buf.Length
    modifies buf
    ensures var p := IndexFrom(buffer, NEWLINE, 0);
            if p < SIZE
            then read_bytes == p + 1 && left == Repeat(SPACE, p + 1) + buffer[p + 1..]
                 && buf[..p + 1] == buffer[..p + 1]
            else read_bytes == 0 && left == Repeat(SPACE, SIZE)
  {
    left, read_bytes := buffer, 0;
    var i := 0;
    while i < SIZE
      invariant 0 <= i <= SIZE && read_bytes == 0
      invariant left == Repeat(SPACE, i) + buffer[i..]
      invariant forall k :: 0 <= k < i ==> buf[k] == buffer[k] != NEWLINE
    {
      NextBlank(buffer, i);
      buf[i] := left[i];
      left := left[i := SPACE];
      if buf[i] == NEWLINE {
        FirstIs(buffer, i);
        read_bytes := i + 1;
        return;
      }
      i := i + 1;
    }
    FirstIs(buffer, SIZE);
  }

  /** What the loop for a small caller has copied when it stops at byte `i`. */
  lemma CutAt(buffer: seq<byte>, copy: seq<byte>, n: nat, i: nat)
    requires i < n <= |buffer| && |copy| == i + 1
    requires forall k :: 0 <= k < i ==> copy[k] == buffer[k] != NEWLINE
    requires copy[i] == NEWLINE && (buffer[i] == NEWLINE || i == n - 1)
    ensures var p := IndexFrom(buffer[..n], NEWLINE, 0);
            if p < n then i == p && copy == buffer[..p + 1] else i == n - 1 && copy == buffer[..n - 1] + [NEWLINE]
  {
    FirstIs(buffer[..n], if buffer[i] == NEWLINE then i else n);
    hide IndexFrom;
  }

  /** The loop for a small caller: up to a newline, or `n` bytes of which the last becomes
      one. */
  method CopySome(buffer: seq<byte>, buf: array<byte>, n: nat) returns (left: seq<byte>, read_bytes: nat)
    requires |buffer| == SIZE && n < SIZE && n <= buf.Length
    modifies buf
    ensures var p := IndexFrom(buffer[..n], NEWLINE, 0);
            if p < n
            then read_bytes == p + 1 && left == Repeat(SPACE, p + 1) + buffer[p + 1..]
                 && buf[..p + 1] == buffer[..p + 1]
            else read_bytes == n && left == Repeat(SPACE, n) + buffer[n..]
                 && (n > 0 ==> buf[..n] == buffer[..n - 1] + [NEWLINE])
  {
    left, read_bytes := buffer, 0;
    var i := 0;
    var done := false;
    assert left == Repeat(SPACE, 0) + buffer[0..];
    hide Repeat, IndexFrom;
    while i < n && !done
      invariant 0 <= i <= n && read_bytes == (if done then i + 1 else 0)
      invariant left == Repeat(SPACE, if done then i + 1 else i) + buffer[if done then i + 1 else i..]
      invariant forall k :: 0 <= k < i ==> buf[k] == buffer[k] != NEWLINE
      invariant if done then i < n && buf[i] == NEWLINE && (buffer[i] == NEWLINE || i == n - 1) else i == n ==> n == 0
      decreases n - i, !done
    {
      NextBlank(buffer, i);
      buf[i] := left[i];
      left := left[i := SPACE];
      if buf[i] == NEWLINE {
        read_bytes := i + 1;
        done := true;
      } else if i == n - 1 && buf[i] != NEWLINE {
        buf[i] := NEWLINE;
        read_bytes := i + 1;
        done := true;
      } else {
        i := i + 1;
      }
    }
    if done {
      CutAt(buffer, buf[..i + 1], n, i);
    }
  }

  /** `terminal_read` on a line, once Enter has been pressed. */
  method CopyLine(buffer: seq<byte>, buf: array<byte>, n: nat, ghost l: Line) returns (left: seq<byte>, read_bytes: nat)
    requires |buffer| == SIZE && n <= buf.Length && l.Valid() && buffer == l.Buffer()
    modifies buf
    ensures read_bytes == |ReadLine(l, n).1| <= buf.Length && buf[..read_bytes] == ReadLine(l, n).1
    ensures left == ReadLine(l, n).0.text + ReadLine(l, n).0.rest
    ensures ReadLine(l, n).0.text == [] && !ReadLine(l, n).0.enter
  {
    if n >= SIZE {
      assert buffer[..SIZE] == buffer;
      left, read_bytes := CopyAll(buffer, buf);
    } else {
      left, read_bytes := CopySome(buffer, buf, n);
    }
  }
}
