/** The screen shows the line being edited: the echo of a key (student-distrib/keyboard.c) and what
    the key does to the line (student-distrib/terminal_driver.c) agree. */
module Echo {
  import opened CInt
  import opened FileSystem
  import opened Programs
  import opened Terminals
  import opened Machine
  import opened Runs
  import opened Histories
  import opened Stacks
  import S = Screen
  import R = Rows
  import LB = LineBuffer

  const ROOM := 79

  /** The line stands on the screen from cell `start` on, and the cursor is right behind it. */
  ghost predicate OnScreen(v: Terminal, start: nat) {
    && v.screen.Valid() && v.line.Valid()
    && start + ROOM < S.CELLS && |v.line.text| <= ROOM
    && v.screen.Cell() == start + |v.line.text|
    && S.COLS * v.screen.y - ROOM <= start
    && S.Shows(v.screen.mem, start, v.line.text)
  }

  /** Cells outside the room for the line are as they were. */
  ghost predicate Around(v: Terminal, w: Terminal, start: nat) {
    && |v.screen.mem| == |w.screen.mem| == S.PAGE
    && S.SameOutside(w.screen.mem, v.screen.mem, start, start + ROOM)
  }

  /** A key that the screen can follow: not Enter, and not a character that moves the cursor. */
  predicate Follows(k: LB.Press) {
    && !k.Enter?
    && (k.Char? ==> k.c != 10 && k.c != 13 && k.c != 14)
  }

  /** A character appears behind the line, an erasure takes the last one away, and a key that the
      line does not take shows nothing. */
  lemma KeyFollows(v: Terminal, k: LB.Press, start: nat)
    requires OnScreen(v, start) && Follows(k) && |LB.Type(v.line, k).0.text| <= ROOM
    ensures OnScreen(TypeKey(v, k), start) && Around(v, TypeKey(v, k), start)
  {
    if k.Char? {
      CharFollows(v, k, start);
    } else if |v.line.text| > 0 {
      EraseFollows(v, start);
    }
    hide S.Put;
  }

  lemma CharFollows(v: Terminal, k: LB.Press, start: nat)
    requires OnScreen(v, start) && k.Char? && Follows(k) && |v.line.text| < ROOM
    ensures OnScreen(TypeKey(v, k), start) && Around(v, TypeKey(v, k), start)
  {
    var s, w := v.screen, TypeKey(v, k);
    var n := |v.line.text|;
    R.NewCell(s, k.c);
    hide S.Put;
    forall i | start <= i < start + n + 1
      ensures S.CellAt(w.screen.mem, i) == (w.line.text[i - start], S.ATTRIB)
    {
      assert i < start + n ==> S.CellAt(s.mem, i) == (v.line.text[i - start], S.ATTRIB);
    }
  }

  lemma EraseFollows(v: Terminal, start: nat)
    requires OnScreen(v, start) && |v.line.text| > 0
    ensures OnScreen(TypeKey(v, LB.Erase), start) && Around(v, TypeKey(v, LB.Erase), start)
  {
    var s, w := v.screen, TypeKey(v, LB.Erase);
    var n := |v.line.text|;
    R.BackOne(s);
    hide S.Put;
    forall i | start <= i < start + n - 1
      ensures S.CellAt(w.screen.mem, i) == (w.line.text[i - start], S.ATTRIB)
    {
      assert S.CellAt(s.mem, i) == (v.line.text[i - start], S.ATTRIB);
    }
  }

  lemma AroundTrans(u: Terminal, v: Terminal, w: Terminal, start: nat)
    requires Around(u, v, start) && Around(v, w, start)
    ensures Around(u, w, start)
  {
  }

  // ---------- through other events ----------

  /** The event puts something on the screen that is not an echo, reads the line, or is a key that
      the screen cannot follow in the room there is. */
  ghost predicate Disturbs(img: Image, v: Terminal, l: LEvent)
    requires Sized(img) && TerminalOk(img, v) && LEventOk(img, l)
  {
    || l.LPrint? || l.LWipe? || l.LStore?
    || (l.LSys? && v.procs != [] && l.c.Write? && On(v, l.c.fd, Stdout))
    || Does(img, v, l, ReadLine)
    || (l.LType? && !(Follows(l.k) && |LB.Type(v.line, l.k).0.text| <= ROOM))
  }

  ghost predicate Undisturbed(img: Image, v: Terminal, ls: seq<LEvent>)
    requires WellFormed(img) && TerminalOk(img, v) && AllOk(img, ls)
    decreases |ls|
  {
    ls == [] || (
      && !Disturbs(img, v, ls[0])
      && (LStepOk(img, v, ls[0]); Undisturbed(img, LStep(img, v, ls[0]), ls[1..])))
  }

  lemma StepFollows(img: Image, v: Terminal, l: LEvent, start: nat)
    requires WellFormed(img) && TerminalOk(img, v) && LEventOk(img, l)
    requires OnScreen(v, start) && !Disturbs(img, v, l)
    ensures OnScreen(LStep(img, v, l), start) && Around(v, LStep(img, v, l), start)
  {
    if l.LType? {
      KeyFollows(v, l.k, start);
    } else {
      ScreenStays(img, v, l);
    }
    hide LStep, Disturbs, WellFormed;
  }

  lemma ScreenStays(img: Image, v: Terminal, l: LEvent)
    requires WellFormed(img) && TerminalOk(img, v) && LEventOk(img, l) && !l.LType? && !Disturbs(img, v, l)
    ensures LStep(img, v, l).screen == v.screen && LStep(img, v, l).line == v.line
  {
    hide WellFormed, LB.ReadLine, Content, DirBytes, Lookup;
  }

  /** Whatever else happens at the terminal, until something is written or read there the screen
      shows what the keys have made of the line. */
  lemma {:induction false} LineStaysShown(img: Image, v: Terminal, ls: seq<LEvent>, start: nat)
    requires WellFormed(img) && TerminalOk(img, v) && AllOk(img, ls)
    requires OnScreen(v, start) && Undisturbed(img, v, ls)
    ensures OnScreen(LRun(img, v, ls), start) && Around(v, LRun(img, v, ls), start)
    decreases |ls|
  {
    hide OnScreen, Around, LStep, Disturbs;
    if ls == [] {
      AroundSelf(v, start);
    } else {
      LStepOk(img, v, ls[0]);
      StepFollows(img, v, ls[0], start);
      LineStaysShown(img, LStep(img, v, ls[0]), ls[1..], start);
      AroundTrans(v, LStep(img, v, ls[0]), LRun(img, v, ls), start);
    }
  }

  lemma AroundSelf(v: Terminal, start: nat)
    requires OnScreen(v, start)
    ensures Around(v, v, start)
  {
  }

  lemma {:induction false} NotRead(img: Image, v: Terminal, ls: seq<LEvent>)
    requires WellFormed(img) && TerminalOk(img, v) && AllOk(img, ls) && Undisturbed(img, v, ls)
    ensures Never(img, v, ls, ReadLine)
    decreases |ls|
  {
    if ls != [] {
      LStepOk(img, v, ls[0]);
      NotRead(img, LStep(img, v, ls[0]), ls[1..]);
    }
  }

  /** In every run, whatever happens at the other terminals and whichever of them is shown: what
      has been typed at a terminal, as edited, is what its screen shows from the place where the
      line began, with the cursor behind it, and nothing else on that screen has changed. */
  lemma ScreenShowsLine(img: Image, a: State, es: seq<Event>, t: nat, start: nat)
    requires WellFormed(img) && Possible(img, a, es) && t < MAX_TERMINALS && OnScreen(a.terms[t], start)
    requires Undisturbed(img, a.terms[t], Trace(img, a, es, t))
    ensures var v := Run(img, a, es).terms[t];
            var text := LB.Edited(a.terms[t].line.text, Presses(Trace(img, a, es, t)));
            && |text| <= ROOM && |v.screen.mem| == S.PAGE && start + ROOM < S.CELLS
            && S.Shows(v.screen.mem, start, text)
            && v.screen.Cell() == start + |text|
            && Around(a.terms[t], v, start)
  {
    var ls := Trace(img, a, es, t);
    TerminalsAreIndependent(img, a, es, t);
    LineStaysShown(img, a.terms[t], ls, start);
    NotRead(img, a.terms[t], ls);
    RunLine(img, a.terms[t], ls);
    LB.TextIsEdited(a.terms[t].line, Presses(ls));
    hide Trace, LRun, Undisturbed, WellFormed, Possible, Run;
  }
}
