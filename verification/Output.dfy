/** Which events of the whole machine change a screen, whose, and what it then shows. */
module Output {
  import opened CInt
  import opened FileSystem
  import opened Programs
  import opened Terminals
  import opened Machine
  import opened MachineFacts
  import opened MachineSteps
  import opened Runs
  import opened Stacks
  import opened Typing
  import S = Screen
  import R = Rows
  import LB = LineBuffer

  /** A store at byte `off` of the screen page changes one half of one cell of the running
      terminal's screen, at once and whether it is shown or not. */
  lemma StoreShows(img: Image, a: State, off: nat, b: byte, k: nat)
    requires WellFormed(img) && StateOk(img, a) && Enabled(img, a, Store(off, b)) && k < 2000
    ensures var v, w := a.terms[a.active].screen, Step(img, a, Store(off, b)).terms[a.active].screen;
            && w.Valid() && v.Valid() && w.Cell() == v.Cell()
            && S.CellAt(w.mem, k).0 == (if off == 2 * k then b else S.CellAt(v.mem, k).0)
            && S.CellAt(w.mem, k).1 == (if off == 2 * k + 1 then b else S.CellAt(v.mem, k).1)
  {
    StepStore(img, a, off, b);
    hide Step;
  }

  /** An exception's message is printed at the cursor of the terminal whose program it ends. */
  lemma ExceptionSays(img: Image, a: State, msg: seq<byte>, ctx: Ctx)
    requires WellFormed(img) && StateOk(img, a) && Enabled(img, a, Exception(msg, ctx))
    ensures Step(img, a, Exception(msg, ctx)).terms[a.active].screen == S.PutAll(a.terms[a.active].screen, msg)
  {
    StepException(img, a, msg, ctx);
    hide Step, S.PutAll;
  }

  /** A terminal starts on a blank screen with the cursor home. */
  lemma FirstStartClears(img: Image, a: State, ctx: Ctx, k: nat)
    requires WellFormed(img) && StateOk(img, a) && Enabled(img, a, Tick(ctx)) && a.terms[Next(a)].procs == []
    requires k < 2000
    ensures var w := Step(img, a, Tick(ctx)).terms[(a.active + 1) % 3].screen;
            w.x == w.y == 0 && |w.mem| == 4096 && S.CellAt(w.mem, k) == (32, 7)
  {
    StepTick(img, a, ctx);
    R.AllBlank(a.terms[Next(a)].screen);
    hide Step, S.Clear, Used, LowestFree;
  }

  /** Ctrl and L blank the shown terminal's screen and leave its line as it is. */
  lemma CtrlLClears(img: Image, a: State, k: nat)
    requires WellFormed(img) && StateOk(img, a) && PidsOk(a) && Running(a) && k < 2000
    ensures var v, w := a.terms[a.visible], Twice(img, a, 0x1D, 0x26).terms[a.visible];
            && w.line == v.line
            && w.screen.x == w.screen.y == 0 && |w.screen.mem| == 4096 && S.CellAt(w.screen.mem, k) == (32, 7)
  {
    OneCode(a.mods, 0x1D);
    OtherKeys(a.mods.(ctrl := true), 0x26);
    CtrlAlone(a.mods);
    R.AllBlank(a.terms[a.visible].screen);
    hide Step, PidsOk, KeyMeans, S.Clear;
    StepKeepsState(img, a, Key(0x1D));
    StepKeepsPids(img, a, Key(0x1D));
    KeyStepIs(img, a, 0x1D);
    WipeStep(img, Step(img, a, Key(0x1D)), 0x26);
  }

  lemma WipeStep(img: Image, a: State, scan: nat)
    requires WellFormed(img) && StateOk(img, a) && Enabled(img, a, Key(scan)) && KeyMeans(a.mods, scan).local == [LWipe]
    ensures Step(img, a, Key(scan)).terms[a.visible]
            == a.terms[a.visible].(screen := S.Clear(a.terms[a.visible].screen))
  {
    StepTerminal(img, a, Key(scan), a.visible);
    hide KeyMeans;
    LRunOne(img, a.terms[a.visible], LWipe);
  }

  /** Nothing else draws: an event that is not a write, an exception, a store, a key or a first start
      leaves all three screens as they are. */
  lemma OthersDrawNothing(img: Image, a: State, e: Event, t: nat)
    requires WellFormed(img) && StateOk(img, a) && Enabled(img, a, e) && t < MAX_TERMINALS
    requires !(e.Syscall? && e.c.Write?) && !e.Exception? && !e.Store? && !e.Key?
    requires !(e.Tick? && a.terms[Next(a)].procs == [])
    ensures Step(img, a, e).terms[t].screen == a.terms[t].screen
  {
    LocalOk(img, a, e, t);
    StepTerminal(img, a, e, t);
    LocalDraws(img, a, e, t);
    ScreenKept(img, a.terms[t], Local(img, a, e, t));
  }

  /** Local events that draw nothing. */
  predicate Quiet(l: LEvent) {
    || (l.LSys? && !l.c.Write?) || l.LPush? || l.LPop? || l.LHalt? || l.LSave? || l.LClock?
  }

  lemma LocalDraws(img: Image, a: State, e: Event, t: nat)
    requires Sized(img) && Shaped(a) && EventOk(e) && t < MAX_TERMINALS
    requires !(e.Syscall? && e.c.Write?) && !e.Exception? && !e.Store? && !e.Key?
    requires !(e.Tick? && a.terms[Next(a)].procs == [])
    ensures forall i :: 0 <= i < |Local(img, a, e, t)| ==> Quiet(Local(img, a, e, t)[i])
  {
  }

  lemma {:induction false} ScreenKept(img: Image, v: Terminal, ls: seq<LEvent>)
    requires WellFormed(img) && TerminalOk(img, v) && AllOk(img, ls)
    requires forall i :: 0 <= i < |ls| ==> Quiet(ls[i])
    ensures LRun(img, v, ls).screen == v.screen
    decreases |ls|
  {
    if ls != [] {
      LStepOk(img, v, ls[0]);
      assert Quiet(ls[0]);
      QuietStep(img, v, ls[0]);
      ScreenKept(img, LStep(img, v, ls[0]), ls[1..]);
    }
  }

  lemma QuietStep(img: Image, v: Terminal, l: LEvent)
    requires WellFormed(img) && TerminalOk(img, v) && LEventOk(img, l) && Quiet(l)
    ensures LStep(img, v, l).screen == v.screen
  {
    hide LB.ReadLine, Content, DirBytes, Lookup, WellFormed;
  }
}
