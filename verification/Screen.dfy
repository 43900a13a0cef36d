/** The text screen of one terminal (student-distrib/lib.c): 25 rows of 80 cells, two bytes
    a cell, in a 4KB page whose last 96 bytes are never displayed. */
module Screen {
  import opened CInt

  const COLS := 80
  const ROWS := 25
  const CELLS := 2000
  const PAGE := 4096
  const ATTRIB: byte := 7
  const BACKSPACE: byte := 0x0E
  const RETURN: byte := 13

  /** A screen page and the logical cursor. After backspacing over a row boundary the
      column is negative: the cursor keeps its row and the cell is `COLS * y + x`. */
  datatype Screen = Screen(mem: seq<byte>, x: int, y: int) {
    predicate Valid() {
      && |mem| == PAGE
      && CursorOk(x, y)
    }

    function Cell(): int {
      COLS * y + x
    }
  }

  predicate CursorOk(x: int, y: int) {
    && 0 <= y < ROWS
    && -COLS < x < COLS
    && (y == 0 ==> x >= 0)
  }


  function Blanks(n: nat): (bs: seq<byte>)
    ensures |bs| == 2 * n
    ensures forall i :: 0 <= i < n ==> bs[2 * i] == SPACE && bs[2 * i + 1] == ATTRIB
  {
    seq(2 * n, i requires 0 <= i < 2 * n => if i % 2 == 0 then SPACE else ATTRIB)
  }

  /** Every row moves up one; the last row becomes blank; the tail of the page stays. */
  function Scrolled(mem: seq<byte>): (r: seq<byte>)
    requires |mem| == PAGE
    ensures |r| == PAGE
  {
    mem[2 * COLS..2 * CELLS] + Blanks(COLS) + mem[2 * CELLS..]
  }

  function Cleared(mem: seq<byte>): (r: seq<byte>)
    requires |mem| == PAGE
    ensures |r| == PAGE
  {
    Blanks(CELLS) + mem[2 * CELLS..]
  }

  function Poke(mem: seq<byte>, cell: int, c: byte): (r: seq<byte>)
    requires |mem| == PAGE && 0 <= cell < CELLS
    ensures |r| == PAGE
  {
    mem[2 * cell := c][2 * cell + 1 := ATTRIB]
  }

  /** The character and attribute of a cell. */
  function CellAt(mem: seq<byte>, cell: int): (byte, byte)
    requires |mem| == PAGE && 0 <= cell < CELLS
  {
    (mem[2 * cell], mem[2 * cell + 1])
  }

  predicate IsNewline(c: byte) {
    c == NEWLINE || c == RETURN
  }

  /** A character that takes up a cell. */
  predicate Plain(c: byte) {
    !IsNewline(c) && c != BACKSPACE
  }

  /** One character on a screen, in terms of cells: the code reaches the same result
      through C's truncating remainder and quotient. */
  function Put(s: Screen, c: byte): (r: Screen)
    requires s.Valid()
    ensures r.Valid()
    ensures c == 10 || c == 13 ==> r.x == 0 && r.y == if s.y < 24 then s.y + 1 else 24
  {
    if IsNewline(c) then
      if s.y == ROWS - 1 then Screen(Scrolled(s.mem), 0, s.y) else Screen(s.mem, 0, s.y + 1)
    else if c == BACKSPACE then
      if s.x == 0 && s.y == 0 then s else
      var x := if s.x == 1 - COLS then 0 else s.x - 1;
      Screen(Poke(s.mem, COLS * s.y + x, SPACE), x, s.y)
    else if s.Cell() == CELLS - 1 then
      Screen(Scrolled(s.mem), 0, s.y)
    else if s.x == COLS - 1 then
      Screen(Poke(s.mem, s.Cell(), c), 0, s.y + 1)
    else
      Screen(Poke(s.mem, s.Cell(), c), s.x + 1, s.y)
  }

  function PutAll(s: Screen, cs: seq<byte>): (r: Screen)
    requires s.Valid()
    ensures r.Valid()
    decreases |cs|
  {
    if cs == [] then s else PutAll(Put(s, cs[0]), cs[1..])
  }

  function Clear(s: Screen): (r: Screen)
    requires s.Valid()
    ensures r.Valid()
  {
    Screen(Cleared(s.mem), 0, 0)
  }

  lemma {:induction false} PutAllAppend(s: Screen, cs: seq<byte>, ds: seq<byte>)
    requires s.Valid()
    ensures PutAll(s, cs + ds) == PutAll(PutAll(s, cs), ds)
    decreases |cs|
  {
    if cs == [] {
      assert cs + ds == ds;
    } else {
      assert (cs + ds)[1..] == cs[1..] + ds;
      PutAllAppend(Put(s, cs[0]), cs[1..], ds);
    }
  }

  lemma PutAllNext(s: Screen, cs: seq<byte>, i: nat)
    requires s.Valid() && i < |cs|
    ensures PutAll(s, cs[..i + 1]) == Put(PutAll(s, cs[..i]), cs[i])
  {
    assert cs[..i + 1] == cs[..i] + [cs[i]];
    PutAllAppend(s, cs[..i], [cs[i]]);
    var q := PutAll(s, cs[..i]);
    assert PutAll(q, [cs[i]]) == PutAll(Put(q, cs[i]), []);
  }

  // ---------- typing and erasing ----------

  /** `r` differs from `s` only in the cells from `lo` up to `hi`. */
  ghost predicate SameOutside(r: seq<byte>, s: seq<byte>, lo: int, hi: int)
    requires |r| == |s| == PAGE
  {
    forall i :: 0 <= i < PAGE && !(2 * lo <= i < 2 * hi) ==> r[i] == s[i]
  }

  /** The cells from `lo` up to `lo + |cs|` show `cs`. */
  ghost predicate Shows(mem: seq<byte>, lo: int, cs: seq<byte>)
    requires |mem| == PAGE && 0 <= lo && lo + |cs| <= CELLS
  {
    forall k :: lo <= k < lo + |cs| ==> CellAt(mem, k) == (cs[k - lo], ATTRIB)
  }

  /** Typing plain characters that do not reach the last cell writes consecutive cells and
      advances the cursor by as many. */
  lemma {:induction false} Typed(s: Screen, cs: seq<byte>)
    requires s.Valid() && s.x >= 0
    requires forall c :: c in cs ==> Plain(c)
    requires s.Cell() + |cs| < CELLS
    ensures PutAll(s, cs).x >= 0
    ensures PutAll(s, cs).Cell() == s.Cell() + |cs|
    ensures SameOutside(PutAll(s, cs).mem, s.mem, s.Cell(), s.Cell() + |cs|)
    ensures Shows(PutAll(s, cs).mem, s.Cell(), cs)
    decreases |cs|
  {
    if cs != [] {
      assert Plain(cs[0]);
      var s' := Put(s, cs[0]);
      assert s'.Cell() == s.Cell() + 1;
      Typed(s', cs[1..]);
      var r := PutAll(s, cs);
      assert r == PutAll(s', cs[1..]);
      assert CellAt(s'.mem, s.Cell()) == CellAt(r.mem, s.Cell()) == (cs[0], ATTRIB);
    }
  }

  /** The column after `n` erasures from column `x >= 0` of a row below the first. */
  function ErasedColumn(x: nat, n: nat): int {
    if n <= x then x - n else -((n - x) % COLS)
  }

  lemma NoWrapColumn(x: nat, n: nat)
    ensures ErasedColumn(x, n) == x - n <==> n - x < COLS
  {
    if n > x {
      var m := n - x;
      assert m < COLS ==> m % COLS == m;
      assert m % COLS < COLS;
    }
  }

  lemma NextColumn(x: nat, n: nat)
    requires n > 0
    ensures ErasedColumn(x, n) == if ErasedColumn(x, n - 1) == 1 - COLS then 0 else ErasedColumn(x, n - 1) - 1
  {
    if n > x + 1 {
      var m := n - 1 - x;
      assert m % COLS == COLS - 1 ==> (m + 1) % COLS == 0;
      assert m % COLS < COLS - 1 ==> (m + 1) % COLS == m % COLS + 1;
    }
  }

  /** Erasing never leaves its row number; below the first row the column runs down to
      -79 and then jumps forward to 0. In the first row it stops at the origin. */
  lemma {:induction false} Erased(s: Screen, n: nat)
    requires s.Valid() && s.x >= 0
    ensures var r := PutAll(s, Repeat(BACKSPACE, n));
            && r.y == s.y
            && r.x == if s.y == 0 && n > s.x then 0 else ErasedColumn(s.x, n)
    decreases n
  {
    if n > 0 {
      assert Repeat(BACKSPACE, n) == Repeat(BACKSPACE, n - 1) + [BACKSPACE];
      PutAllAppend(s, Repeat(BACKSPACE, n - 1), [BACKSPACE]);
      Erased(s, n - 1);
      NextColumn(s.x, n);
      var q := PutAll(s, Repeat(BACKSPACE, n - 1));
      assert PutAll(q, [BACKSPACE]) == Put(q, BACKSPACE);
    }
  }

  /** While no forward jump happens, `n` erasures blank the `n` cells before the cursor. */
  lemma {:induction false} ErasedCells(s: Screen, n: nat)
    requires s.Valid() && s.x >= 0
    requires n - s.x < COLS && n <= s.Cell()
    ensures PutAll(s, Repeat(BACKSPACE, n)).Cell() == s.Cell() - n
    ensures SameOutside(PutAll(s, Repeat(BACKSPACE, n)).mem, s.mem, s.Cell() - n, s.Cell())
    ensures Shows(PutAll(s, Repeat(BACKSPACE, n)).mem, s.Cell() - n, Repeat(SPACE, n))
    decreases n
  {
    if n > 0 {
      assert Repeat(BACKSPACE, n) == Repeat(BACKSPACE, n - 1) + [BACKSPACE];
      PutAllAppend(s, Repeat(BACKSPACE, n - 1), [BACKSPACE]);
      ErasedCells(s, n - 1);
      Erased(s, n - 1);
      var q := PutAll(s, Repeat(BACKSPACE, n - 1));
      var r := Put(q, BACKSPACE);
      assert PutAll(q, [BACKSPACE]) == r;
      assert r.Cell() == q.Cell() - 1;
      forall k | r.Cell() <= k < s.Cell()
        ensures CellAt(r.mem, k) == (SPACE, ATTRIB)
      {
        if k > r.Cell() {
          assert CellAt(r.mem, k) == CellAt(q.mem, k);
        }
      }
    }
  }

  /** The column of a cell. */
  lemma ColumnReached(r: Screen)
    requires r.Valid() && r.x >= 0
    ensures r.Cell() >= 0 && r.x == r.Cell() % COLS
  {
  }

  /** Typing `cs` and erasing as many characters comes back to the cell it started from
      exactly when the erasures do not run 80 or more columns left of the column reached,
      which is known before the typing. */
  lemma {:induction false} TypeThenErase(s: Screen, cs: seq<byte>)
    requires s.Valid() && s.x >= 0
    requires forall c :: c in cs ==> Plain(c)
    requires s.Cell() + |cs| < CELLS
    ensures PutAll(s, cs + Repeat(BACKSPACE, |cs|)).Cell() == s.Cell()
            <==> |cs| - (s.Cell() + |cs|) % COLS < COLS
  {
    var n := |cs|;
    var typed := PutAll(s, cs);
    PutAllAppend(s, cs, Repeat(BACKSPACE, n));
    Typed(s, cs);
    ColumnReached(typed);
    Erased(typed, n);
    NoWrapColumn(typed.x, n);
    var r := PutAll(typed, Repeat(BACKSPACE, n));
    assert typed.y > 0 || n <= typed.x;
    assert r.Cell() - typed.Cell() == ErasedColumn(typed.x, n) - typed.x;
  }

  /** In that case the cells typed over are left blank and no other cell changes. */
  lemma {:induction false} TypeThenEraseCells(s: Screen, cs: seq<byte>)
    requires s.Valid() && s.x >= 0
    requires forall c :: c in cs ==> Plain(c)
    requires s.Cell() + |cs| < CELLS
    requires |cs| - (s.Cell() + |cs|) % COLS < COLS
    ensures SameOutside(PutAll(s, cs + Repeat(BACKSPACE, |cs|)).mem, s.mem, s.Cell(), s.Cell() + |cs|)
    ensures Shows(PutAll(s, cs + Repeat(BACKSPACE, |cs|)).mem, s.Cell(), Repeat(SPACE, |cs|))
  {
    PutAllAppend(s, cs, Repeat(BACKSPACE, |cs|));
    Typed(s, cs);
    ColumnReached(PutAll(s, cs));
    ErasedCells(PutAll(s, cs), |cs|);
  }

  /** In particular up to 79 characters can always be erased. */
  lemma UpTo79(s: Screen, cs: seq<byte>)
    requires s.Valid() && s.x >= 0
    requires forall c :: c in cs ==> Plain(c)
    requires |cs| < COLS && s.Cell() + |cs| < CELLS
    ensures PutAll(s, cs + Repeat(BACKSPACE, |cs|)).Cell() == s.Cell()
    ensures SameOutside(PutAll(s, cs + Repeat(BACKSPACE, |cs|)).mem, s.mem, s.Cell(), s.Cell() + |cs|)
    ensures Shows(PutAll(s, cs + Repeat(BACKSPACE, |cs|)).mem, s.Cell(), Repeat(SPACE, |cs|))
  {
    Typed(s, cs);
    TypeThenErase(s, cs);
    TypeThenEraseCells(s, cs);
  }

  /** 81 characters from the origin cannot be erased: the last erasure lands a row too far. */
  lemma EightyOneFails(s: Screen, cs: seq<byte>)
    requires s.Valid() && s.x == 0 && s.y == 0
    requires |cs| == 81 && forall c :: c in cs ==> Plain(c)
    ensures PutAll(s, cs + Repeat(BACKSPACE, 81)).Cell() == 80
  {
    hide PutAll, SameOutside, Shows;
    Typed(s, cs);
    PutAllAppend(s, cs, Repeat(BACKSPACE, 81));
    Erased(PutAll(s, cs), 81);
  }
}
