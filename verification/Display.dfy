/** The loops of student-distrib/lib.c that write a screen page in place. */
module Display {
  import opened CInt
  import opened Screen

  /** The loop of `scroll_down`, one cell at a time. */
  method ScrollBuffer(buf: array<byte>)
    requires buf.Length == PAGE
    modifies buf
    ensures buf[..] == Scrolled(old(buf[..]))
  {
    ghost var was := buf[..];
    var i := COLS;
    while i < ROWS * COLS
      invariant COLS <= i <= CELLS
      invariant Scrolling(buf[..], was, i)
    {
      ScrollStep(buf[..], was, i);
      ScrollCell(buf, i);
      i := i + 1;
    }
    ScrollDone(buf[..], was);
  }

  /** One turn of that loop. */
  method ScrollCell(buf: array<byte>, i: int)
    requires buf.Length == PAGE && COLS <= i < CELLS
    modifies buf
    ensures buf[..] == MovedUp(old(buf[..]), i)
  {
    buf[2 * (i - COLS)] := buf[2 * i];
    buf[2 * (i - COLS) + 1] := buf[2 * i + 1];
    if i > ROWS * COLS - COLS - 1 {
      buf[2 * i] := SPACE;
      buf[2 * i + 1] := ATTRIB;
    }
  }

  function MovedUp(mem: seq<byte>, i: int): (r: seq<byte>)
    requires |mem| == PAGE && COLS <= i < CELLS
    ensures |r| == PAGE
  {
    var m := mem[2 * (i - COLS) := mem[2 * i]][2 * (i - COLS) + 1 := mem[2 * i + 1]];
    if i >= CELLS - COLS then m[2 * i := SPACE][2 * i + 1 := ATTRIB] else m
  }

  lemma ScrollStep(now: seq<byte>, was: seq<byte>, i: int)
    requires |now| == |was| == PAGE && COLS <= i < CELLS && Scrolling(now, was, i)
    ensures Scrolling(MovedUp(now, i), was, i + 1)
  {
  }

  /** Cells up to `i` have moved up a row; those of the last row among them are blank. */
  ghost predicate Scrolling(now: seq<byte>, was: seq<byte>, i: int)
    requires |now| == |was| == PAGE && COLS <= i <= CELLS
  {
    && (forall j :: 0 <= j < 2 * (i - COLS) ==> now[j] == was[j + 2 * COLS])
    && (forall j :: 2 * (CELLS - COLS) <= j < 2 * i ==> now[j] == if j % 2 == 0 then SPACE else ATTRIB)
    && (forall j :: 2 * (i - COLS) <= j < 2 * (CELLS - COLS) ==> now[j] == was[j])
    && (forall j :: 2 * (CELLS - COLS) <= j && 2 * i <= j < PAGE ==> now[j] == was[j])
  }

  lemma ScrollDone(now: seq<byte>, was: seq<byte>)
    requires |now| == |was| == PAGE && Scrolling(now, was, CELLS)
    ensures now == Scrolled(was)
  {
  }

  /** The loop of `clear` and `clear_terminal`. */
  method ClearBuffer(buf: array<byte>)
    requires buf.Length == PAGE
    modifies buf
    ensures buf[..] == Cleared(old(buf[..]))
  {
    ghost var was := buf[..];
    var i := 0;
    while i < ROWS * COLS
      invariant 0 <= i <= CELLS
      invariant forall j :: 0 <= j < 2 * i ==> buf[j] == if j % 2 == 0 then SPACE else ATTRIB
      invariant forall j :: 2 * i <= j < PAGE ==> buf[j] == was[j]
    {
      buf[2 * i] := SPACE;
      buf[2 * i + 1] := ATTRIB;
      i := i + 1;
    }
    assert buf[..] == Cleared(was);
  }

  lemma SmallQuotient(x: int)
    requires -COLS < x < COLS
    ensures CDiv(x, COLS) == 0 && CMod(x, COLS) == x
  {
  }

  /** Stepping back: C's remainder keeps the negative column until a whole row is passed. */
  lemma StepBack(x: int)
    requires -COLS < x < COLS
    ensures CMod(x - 1, COLS) == if x == 1 - COLS then 0 else x - 1
    ensures CDiv(CMod(x - 1, COLS), COLS) == 0
  {
    if x > 1 - COLS {
      SmallQuotient(x - 1);
    }
  }

  lemma RowOf(y: int)
    requires 0 <= y < ROWS
    ensures CMod(y, ROWS) == y
  {
  }

  /** The branch of `putc` that erases. */
  method EraseIn(buf: array<byte>, x: int, y: int) returns (x': int, y': int)
    requires buf.Length == PAGE && CursorOk(x, y)
    modifies buf
    ensures Screen(buf[..], x', y') == Put(Screen(old(buf[..]), x, y), BACKSPACE)
  {
    x', y' := x, y;
    if !(x' == 0 && y' == 0) {
      RowOf(y);
      StepBack(x);
      hide CMod, CDiv;
      x' := x' - 1;
      x' := CMod(x', COLS);
      y' := CMod(y' + CDiv(x', COLS), ROWS);
      PokeIn(buf, COLS * y' + x', SPACE);
    }
  }

  /** The branches of `putc` that print a character. */
  method PrintIn(buf: array<byte>, c: byte, x: int, y: int) returns (x': int, y': int)
    requires buf.Length == PAGE && CursorOk(x, y) && Plain(c)
    modifies buf
    ensures Screen(buf[..], x', y') == Put(Screen(old(buf[..]), x, y), c)
  {
    x', y' := x, y;
    if x' == COLS - 1 {
      if y' == ROWS - 1 {
        ScrollBuffer(buf);
        x' := 0;
      } else {
        PokeIn(buf, COLS * y' + x', c);
        y' := y' + 1;
        x' := 0;
      }
    } else {
      PokeIn(buf, COLS * y' + x', c);
      SmallQuotient(x + 1);
      RowOf(y);
      hide CMod, CDiv;
      x' := x' + 1;
      x' := CMod(x', COLS);
      y' := CMod(y' + CDiv(x', COLS), ROWS);
    }
  }

  /** The body of `putc` on a page and a cursor: C's remainder and quotient, whose effect is
      that of the cell arithmetic of `Put`. */
  method PutIn(buf: array<byte>, c: byte, x: int, y: int) returns (x': int, y': int)
    requires buf.Length == PAGE && CursorOk(x, y)
    modifies buf
    ensures Screen(buf[..], x', y') == Put(Screen(old(buf[..]), x, y), c)
    ensures c == 10 || c == 13 ==> x' == 0 && y' == if y < 24 then y + 1 else 24
  {
    x', y' := x, y;
    if c == NEWLINE || c == RETURN {
      if y' == ROWS - 1 {
        ScrollBuffer(buf);
      } else {
        y' := y' + 1;
      }
      x' := 0;
    } else if c == BACKSPACE {
      x', y' := EraseIn(buf, x', y');
    } else {
      x', y' := PrintIn(buf, c, x', y');
    }
  }

  method PokeIn(buf: array<byte>, cell: int, c: byte)
    requires buf.Length == PAGE && 0 <= cell < CELLS
    modifies buf
    ensures buf[..] == Poke(old(buf[..]), cell, c)
  {
    buf[2 * cell] := c;
    buf[2 * cell + 1] := ATTRIB;
  }

  /** `memcpy` of a screen page. */
  method CopyPage(dst: array<byte>, src: array<byte>)
    requires dst.Length == src.Length == PAGE
    modifies dst
    ensures dst[..] == old(src[..])
  {
    var i := 0;
    while i < PAGE
      invariant 0 <= i <= PAGE
      invariant forall k :: 0 <= k < i ==> dst[k] == old(src[k])
      invariant forall k :: i <= k < PAGE ==> src[k] == old(src[k])
    {
      dst[i] := src[i];
      i := i + 1;
    }
  }
}
