/** What a text looks like on the screen: lines stand on consecutive rows, and the rows move up as
    the last one is passed (student-distrib/lib.c). */
module Rows {
  import opened CInt
  import opened FileSystem
  import opened Programs
  import opened Screen
  import Terminals

  // ---------- one character ----------

  /** Every row shows what the one below it showed, the last one is blank, and the bytes past the
      screen are as they were. */
  ghost predicate Rolled(now: seq<byte>, was: seq<byte>) {
    && |now| == |was| == 4096
    && (forall k :: 0 <= k < 1920 ==> CellAt(now, k) == CellAt(was, k + 80))
    && (forall k :: 1920 <= k < 2000 ==> CellAt(now, k) == (32, 7))
    && (forall i :: 4000 <= i < 4096 ==> now[i] == was[i])
  }

  lemma ScrolledRolls(mem: seq<byte>)
    requires |mem| == PAGE
    ensures Rolled(Scrolled(mem), mem)
  {
    var r := Scrolled(mem);
    forall k | 0 <= k < 2000
      ensures CellAt(r, k) == if k < 1920 then CellAt(mem, k + 80) else (32, 7)
    {
      if k >= 1920 {
        assert r[2 * k] == Blanks(COLS)[2 * (k - 1920)];
        assert r[2 * k + 1] == Blanks(COLS)[2 * (k - 1920) + 1];
      }
    }
  }

  /** A newline or a return goes to the start of the next row; on the last row the screen rolls
      instead, and otherwise no cell changes. */
  lemma NewRow(s: Screen, c: byte)
    requires s.Valid() && (c == 10 || c == 13)
    ensures var r := Put(s, c);
            && r.x == 0
            && r.y == (if s.y < 24 then s.y + 1 else 24)
            && (if s.y < 24 then r.mem == s.mem else Rolled(r.mem, s.mem))
  {
    ScrolledRolls(s.mem);
  }

  /** Any other character but a backspace goes to the cursor's cell, and the cursor to the next
      one; in the very last cell it is lost and the screen rolls. */
  lemma NewCell(s: Screen, c: byte)
    requires s.Valid() && c != 10 && c != 13 && c != 14
    ensures var r := Put(s, c);
            if s.Cell() == 1999 then r.x == 0 && r.y == 24 && Rolled(r.mem, s.mem)
            else
              && r.Cell() == s.Cell() + 1
              && r.mem == s.mem[2 * s.Cell() := c][2 * s.Cell() + 1 := 7]
  {
    ScrolledRolls(s.mem);
  }

  /** A backspace blanks the cell before the cursor and goes there, except that 79 columns left
      of the screen it goes to the start of the row, and that the first cell is the end. */
  lemma BackOne(s: Screen)
    requires s.Valid()
    ensures var r := Put(s, 14);
            var cell := if s.x == -79 then 80 * s.y else s.Cell() - 1;
            if s.Cell() == 0 && s.y == 0 then r == s
            else r.y == s.y && r.Cell() == cell && 0 <= cell < 2000
                 && r.mem == s.mem[2 * cell := 32][2 * cell + 1 := 7]
  {
  }

  /** A clear blanks every cell and homes the cursor. */
  lemma AllBlank(s: Screen)
    requires s.Valid()
    ensures var r := Clear(s);
            && r.x == r.y == 0
            && (forall k :: 0 <= k < 2000 ==> CellAt(r.mem, k) == (32, 7))
            && (forall i :: 4000 <= i < 4096 ==> r.mem[i] == s.mem[i])
  {
  }

  // ---------- a line ----------

  function At(mem: seq<byte>, row: nat, col: nat): (byte, byte)
    requires |mem| == PAGE && row < 25 && col < 80
  {
    CellAt(mem, 80 * row + col)
  }

  ghost predicate SameTail(now: seq<byte>, was: seq<byte>)
    requires |now| == |was| == PAGE
  {
    forall i :: 4000 <= i < 4096 ==> now[i] == was[i]
  }

  ghost predicate ShortLine(l: seq<byte>) {
    |l| < 80 && forall c :: c in l ==> c != 10 && c != 13 && c != 14
  }

  lemma PlainIs(l: seq<byte>)
    requires ShortLine(l)
    ensures forall c :: c in l ==> Plain(c)
  {
  }

  /** A line typed from the start of a row stands on that row. */
  lemma OnItsRow(s: Screen, l: seq<byte>)
    requires s.Valid() && s.x == 0 && ShortLine(l)
    ensures var r := PutAll(s, l);
            && r.x == |l| && r.y == s.y && SameTail(r.mem, s.mem)
            && forall row: nat, col: nat :: row < 25 && col < 80 ==>
                 At(r.mem, row, col) == if row == s.y && col < |l| then (l[col], 7) else At(s.mem, row, col)
  {
    PlainIs(l);
    Typed(s, l);
    var r := PutAll(s, l);
    hide PutAll;
    forall row: nat, col: nat | row < 25 && col < 80
      ensures At(r.mem, row, col) == if row == s.y && col < |l| then (l[col], 7) else At(s.mem, row, col)
    {
      CellsApart(row, col, s.y, |l|);
    }
  }

  lemma CellsApart(row: nat, col: nat, y: nat, n: nat)
    requires row < 25 && col < 80 && y < 25 && n < 80
    ensures 80 * y <= 80 * row + col < 80 * y + n <==> row == y && col < n
  {
  }

  /** A row of what the screen shows once it has rolled `n` rows. */
  function Roll(mem: seq<byte>, n: nat, row: nat, col: nat): (byte, byte)
    requires |mem| == PAGE && col < 80
  {
    if row + n < 25 then At(mem, row + n, col) else (32, 7)
  }

  lemma RolledRows(now: seq<byte>, was: seq<byte>)
    requires Rolled(now, was)
    ensures forall row: nat, col: nat :: row < 25 && col < 80 ==> At(now, row, col) == Roll(was, 1, row, col)
  {
    forall row: nat, col: nat | row < 25 && col < 80
      ensures At(now, row, col) == Roll(was, 1, row, col)
    {
      CellsApart(row, col, 24, 79);
    }
  }

  // ---------- a text ----------

  /** Lines, each ended by a newline. */
  function Text(ls: seq<seq<byte>>): seq<byte> {
    if ls == [] then [] else Text(ls[..|ls| - 1]) + ls[|ls| - 1] + [10]
  }

  /** How far the screen rolls for `m` newlines from row `y`. */
  function Rolls(y: int, m: nat): nat {
    if y + m > 24 then y + m - 24 else 0
  }

  /** What stands at a place after the lines: on the `k`-th row from the first line's the `k`-th
      line, as far as it goes; elsewhere what was there, rolled up with the rows. */
  function Stands(s: Screen, ls: seq<seq<byte>>, row: nat, col: nat): (byte, byte)
    requires s.Valid() && row < 25 && col < 80
  {
    var k := row + Rolls(s.y, |ls|) - s.y;
    if 0 <= k < |ls| && col < |ls[k]| then (ls[k][col], 7) else Roll(s.mem, Rolls(s.y, |ls|), row, col)
  }

  ghost predicate AllStand(s: Screen, ls: seq<seq<byte>>, r: Screen) {
    && s.Valid() && r.Valid()
    && r.x == 0
    && r.y == (if s.y + |ls| > 24 then 24 else s.y + |ls|)
    && SameTail(r.mem, s.mem)
    && forall row: nat, col: nat :: row < 25 && col < 80 ==> At(r.mem, row, col) == Stands(s, ls, row, col)
  }

  /** The screen while the cursor is behind a line. */
  ghost predicate Behind(q: Screen, l: seq<byte>, p: Screen) {
    && q.Valid() && p.Valid()
    && p.x == |l| && p.y == q.y && SameTail(p.mem, q.mem)
    && forall row: nat, col: nat :: row < 25 && col < 80 ==>
         At(p.mem, row, col) == if row == q.y && col < |l| then (l[col], 7) else At(q.mem, row, col)
  }

  lemma LineEnds(q: Screen, l: seq<byte>, p: Screen)
    requires Behind(q, l, p) && |l| < 80
    ensures AllStand(q, [l], Put(p, 10))
  {
    NewRow(p, 10);
    var r := Put(p, 10);
    hide Put;
    if q.y == 24 {
      RolledRows(r.mem, p.mem);
      RolledTail(r.mem, p.mem);
    }
    hide At, Rolled;
    forall row: nat, col: nat | row < 25 && col < 80
      ensures At(r.mem, row, col) == Stands(q, [l], row, col)
    {
      if row + 1 < 25 {
        assert At(p.mem, row + 1, col) == if row + 1 == q.y && col < |l| then (l[col], 7) else At(q.mem, row + 1, col);
      }
      assert At(p.mem, row, col) == if row == q.y && col < |l| then (l[col], 7) else At(q.mem, row, col);
    }
  }

  lemma RolledTail(now: seq<byte>, was: seq<byte>)
    requires Rolled(now, was)
    ensures SameTail(now, was)
  {
  }

  lemma OneLine(q: Screen, l: seq<byte>)
    requires q.Valid() && q.x == 0 && ShortLine(l)
    ensures AllStand(q, [l], PutAll(q, l + [10]))
  {
    hide AllStand, At, Put;
    OnItsRow(q, l);
    LineEnds(q, l, PutAll(q, l));
    PutLast(q, l, 10);
  }

  lemma PutLast(s: Screen, cs: seq<byte>, c: byte)
    requires s.Valid()
    ensures PutAll(s, cs + [c]) == Put(PutAll(s, cs), c)
  {
    assert (cs + [c])[..|cs| + 1] == cs + [c] && (cs + [c])[..|cs|] == cs;
    hide Put, PutAll;
    PutAllNext(s, cs + [c], |cs|);
  }

  /** One more line after the others. */
  lemma OneMore(s: Screen, ls: seq<seq<byte>>, l: seq<byte>, q: Screen, r: Screen)
    requires AllStand(s, ls, q) && AllStand(q, [l], r)
    ensures AllStand(s, ls + [l], r)
  {
    hide At;
    forall row: nat, col: nat | row < 25 && col < 80
      ensures At(r.mem, row, col) == Stands(s, ls + [l], row, col)
    {
      assert At(r.mem, row, col) == Stands(q, [l], row, col);
      var n := Rolls(q.y, 1);
      if row + n < 25 {
        assert At(q.mem, row + n, col) == Stands(s, ls, row + n, col);
      }
    }
  }

  /** Lines typed from the start of a row, anywhere on the screen: each stands on a row of its own,
      in order, from column 0, and the cursor is at the start of the row after them. When the last
      row is passed, everything moves up by as many rows, and blank rows come in. */
  lemma {:induction false} LinesStand(s: Screen, ls: seq<seq<byte>>)
    requires s.Valid() && s.x == 0 && forall l :: l in ls ==> ShortLine(l)
    ensures AllStand(s, ls, PutAll(s, Text(ls)))
    decreases |ls|
  {
    hide AllStand, ShortLine, PutAll, Text;
    if ls == [] {
      NoLines(s);
    } else {
      var init, l := ls[..|ls| - 1], ls[|ls| - 1];
      assert forall k :: k in init ==> k in ls;
      LinesStand(s, init);
      Parts(s, init, PutAll(s, Text(init)));
      OneLine(PutAll(s, Text(init)), l);
      PutAllAppend(s, Text(init), l + [10]);
      LastLine(ls);
      OneMore(s, init, l, PutAll(s, Text(init)), PutAll(s, Text(ls)));
      assert ls == init + [l];
    }
  }

  lemma LastLine(ls: seq<seq<byte>>)
    requires ls != []
    ensures Text(ls) == Text(ls[..|ls| - 1]) + (ls[|ls| - 1] + [10])
  {
    TextStep(ls);
    hide Text;
    Assoc(Text(ls[..|ls| - 1]), ls[|ls| - 1], [10]);
  }

  lemma TextStep(ls: seq<seq<byte>>)
    requires ls != []
    ensures Text(ls) == Text(ls[..|ls| - 1]) + ls[|ls| - 1] + [10]
  {
  }

  lemma Assoc(a: seq<byte>, b: seq<byte>, c: seq<byte>)
    ensures a + b + c == a + (b + c)
  {
  }

  lemma NoLines(s: Screen)
    requires s.Valid() && s.x == 0
    ensures AllStand(s, [], PutAll(s, Text([])))
  {
  }

  lemma Parts(s: Screen, ls: seq<seq<byte>>, r: Screen)
    requires AllStand(s, ls, r)
    ensures r.Valid() && r.x == 0
  {
  }

  // ---------- a program's output ----------

  /** A program that writes such a text to its terminal gets all of it shown in that way. */
  lemma WrittenLines(img: Image, v: Terminals.Terminal, fd: int, ls: seq<seq<byte>>)
    requires Sized(img) && Terminals.TerminalOk(img, v) && v.procs != []
    requires Terminals.FdOf(v.Fds(), fd) == Some(Terminals.Stdout)
    requires v.screen.x == 0 && forall l :: l in ls ==> ShortLine(l) && NUL !in l
    ensures var (w, reply) := Terminals.Serve(img, v, Terminals.Write(fd, Text(ls)));
            && reply.value == |Text(ls)|
            && w == v.(screen := w.screen)
            && AllStand(v.screen, ls, w.screen)
  {
    LinesStand(v.screen, ls);
    NoNul(ls);
    Terminals.NonZeroText(Text(ls));
    hide AllStand, ShortLine, Text, PutAll;
  }

  lemma {:induction false} NoNul(ls: seq<seq<byte>>)
    requires forall l :: l in ls ==> NUL !in l
    ensures NUL !in Text(ls)
    decreases |ls|
  {
    if ls != [] {
      assert forall k :: k in ls[..|ls| - 1] ==> k in ls;
      NoNul(ls[..|ls| - 1]);
      assert ls[|ls| - 1] in ls;
    }
  }
}
