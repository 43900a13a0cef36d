/** What `execute`, the end of a process and a scheduler tick do to the kernel's variables, and
    that each is one step of the three terminals. */
module KernelProcesses {
  import opened CInt
  import opened FileSystem
  import opened Programs
  import opened Paging
  import opened Terminals
  import opened Machine
  import opened MachineSteps
  import opened Stacks
  import opened KernelState
  import opened KernelRefinement
  import opened KernelInterrupts
  import S = Screen

  // ---------- a process starts ----------

  /** Process `p` is started on top of the running terminal's stack, its pages mapped, and the
      screen page opened if the flag left in its slot says so. */
  ghost predicate StartEffect(l: Layout, r: Vars, q: Vars, p: int, ctx: Ctx, args: seq<byte>)
    requires Shape(r) && |r.stacks| == MAX_TERMINALS && 0 <= p < MAX_PROCESSES
  {
    && |q.tables.dir| == ENTRIES && |q.tables.table0| == ENTRIES
    && q == Started(r, p, ctx, args, q.tables)
    && Maps(l, q.tables, p, OpenScreen(l, q))
    && q.tables.dir[VIDMAP_PAGE].present == r.pcbs[p].vidmapActive
  }

  /** The terminal with one more process. */
  function Grown(v: Terminal, p: int, ctx: Ctx, args: seq<byte>): Terminal {
    v.(procs := v.procs + [Proc(p, ctx, INITIAL_TABLE, args)])
  }

  lemma VidOf(r: Vars, p: int)
    requires Shape(r) && PidsInRange(r) && 0 <= p < MAX_PROCESSES
    ensures |Abs(r).vid| == MAX_PROCESSES && Abs(r).vid[p] == r.pcbs[p].vidmapActive
  {
  }

  lemma StartInv(img: Image, l: Layout, r: Vars, q: Vars, p: int, ctx: Ctx, args: seq<byte>)
    requires Sized(img) && l.Valid() && Shape(r) && Structure(img, r) && OnOwnStack(r)
    requires 0 <= p < MAX_PROCESSES && p !in Used(r.stacks) && NUL !in args && StartEffect(l, r, q, p, ctx, args)
    ensures Inv(img, l, q)
  {
    StartedStructure(img, r, p, ctx, args, q.tables);
    hide Structure, Maps, TermOk, Used;
  }

  lemma StartAbs(l: Layout, r: Vars, q: Vars, p: int, ctx: Ctx, args: seq<byte>)
    requires Shape(r) && StacksOk(r.stacks) && PidsInRange(r)
    requires 0 <= p < MAX_PROCESSES && p !in Used(r.stacks) && StartEffect(l, r, q, p, ctx, args)
    ensures Shape(q) && PidsInRange(q) && |Abs(r).vid| == MAX_PROCESSES
    ensures Abs(q) == With(Abs(r), r.active, Grown(Abs(r).terms[r.active], p, ctx, args)).(mapped := Abs(r).vid[p])
  {
    StartedAbs(r, p, ctx, args, q.tables);
    VidOf(r, p);
    hide Maps, TermOk, Used, StacksOk, Abs, Started;
  }

  // ---------- execute ----------

  /** A load that fails half way: the pid is free again, but the slot has been written, the
      pages are mapped, and the freed process is the current one. */
  ghost function RolledBack(r: Vars, p: int, args: seq<byte>, tables: Tables): Vars
    requires Shape(r) && 0 <= p < MAX_PROCESSES
  {
    var was := r.pcbs[p];
    var pcb := NewPcb(was, p, if r.currPid < 0 then None else Some(r.currPid), was.save, was.tssEsp0, args);
    r.(pcbs := r.pcbs[p := pcb], currPid := p, tables := tables)
  }

  /** What `execute` does, on any image. */
  ghost predicate ExecEffect(img: Image, l: Layout, r: Vars, q: Vars, cmd: seq<byte>, junk: seq<byte>, ctx: Ctx,
                             o: Outcome)
    requires Sized(img) && Shape(r) && |r.stacks| == MAX_TERMINALS && |junk| == ELF_BYTES
  {
    var p := LowestFree(Used(r.stacks), 0);
    var found := Resolve(img, CommandName(cmd), junk);
    if found.NoProgram? || p == -1 then q == r && o == Returned(FAILED)
    else if found.MissingBlock? then
      && |q.tables.dir| == ENTRIES
      && q == RolledBack(r, p, CommandArgs(cmd), q.tables)
      && Maps(l, q.tables, p, OpenScreen(l, q))
      && o == Returned(FAILED)
    else StartEffect(l, r, q, p, ctx, CommandArgs(cmd)) && o == Entered(p, found.program)
  }

  lemma CurrentInUse(img: Image, r: Vars)
    requires Sized(img) && Shape(r) && Structure(img, r)
    ensures r.currPid < MAX_PROCESSES && (r.currPid >= 0 ==> r.pidarray[r.currPid])
    ensures |r.stacks| == MAX_TERMINALS
    ensures forall p :: 0 <= p < MAX_PROCESSES ==> (r.pidarray[p] <==> p in Used(r.stacks))
  {
    var st := r.stacks[r.active];
    if st != [] {
      InUse(r.stacks, r.active, |st| - 1);
    }
  }

  /** A failed `execute` leaves everything as it was except when the program's header passes,
      a pid is free, and a block is then missing. In that case the caller goes on as a process
      that is not its own and not in use. */
  lemma FailedExecute(img: Image, l: Layout, r: Vars, q: Vars, cmd: seq<byte>, junk: seq<byte>, ctx: Ctx, o: Outcome)
    requires Inv(img, l, r) && |junk| == ELF_BYTES && ExecEffect(img, l, r, q, cmd, junk, ctx, o)
    requires o == Returned(FAILED)
    ensures q == r <==> !(Resolve(img, CommandName(cmd), junk).MissingBlock? && LowestFree(Used(r.stacks), 0) != -1)
    ensures q != r ==>
              && q.currPid != r.currPid && 0 <= q.currPid < |q.pidarray| && !q.pidarray[q.currPid]
              && !Inv(img, l, q)
  {
    hide Resolve, CommandName, CommandArgs, FdsOk, TermOk;
    CurrentInUse(img, r);
    if q != r {
      assert q.stacks == r.stacks && q.active == r.active;
      assert q.currPid != TopOr(q.stacks[q.active]);
    }
  }

  /** Nothing in a machine but its own pids matters to the choice of a pid. */
  lemma ExecStep(img: Image, a: State, cmd: seq<byte>, junk: seq<byte>, ctx: Ctx, st: seq<Stack>)
    requires WellFormed(img) && StateOk(img, a) && Running(a) && AllPids(a) == st
    requires InDomain(cmd) && |junk| == ELF_BYTES
    ensures Enabled(img, a, Execute(cmd, junk, ctx))
    ensures var p := LowestFree(Used(st), 0);
            var found := Resolve(img, CommandName(cmd), junk);
            var e := Execute(cmd, junk, ctx);
            && !found.MissingBlock?
            && (found.NoProgram? || p == -1 ==> Step(img, a, e) == a && OutcomeOf(img, a, e) == Returned(FAILED))
            && (!found.NoProgram? && p != -1 ==>
                  && OutcomeOf(img, a, e) == Entered(p, found.program)
                  && Step(img, a, e)
                     == With(a, a.active, Grown(a.terms[a.active], p, ctx, CommandArgs(cmd))).(mapped := a.vid[p]))
  {
    var e := Execute(cmd, junk, ctx);
    hide Resolve, CommandName, CommandArgs, LowestFree, Used, StateOk;
    LoadsCompletely(img, CommandName(cmd), junk);
    StepExecute(img, a, cmd, junk, ctx);
    hide Step;
  }

  lemma ArgsAreText(cmd: seq<byte>)
    requires InDomain(cmd)
    ensures NUL !in CommandArgs(cmd)
  {
  }

  lemma ExecRefines(img: Image, l: Layout, r: Vars, q: Vars, cmd: seq<byte>, junk: seq<byte>, ctx: Ctx, o: Outcome)
    requires WellFormed(img) && Inv(img, l, r) && InDomain(cmd) && |junk| == ELF_BYTES
    requires ExecEffect(img, l, r, q, cmd, junk, ctx, o)
    ensures PidsInRange(r) && SteppedBy(img, l, r, q, Execute(cmd, junk, ctx))
    ensures o == OutcomeOf(img, Abs(r), Execute(cmd, junk, ctx))
  {
    AbsOk(img, l, r);
    AbsPids(r);
    ArgsAreText(cmd);
    hide Resolve, CommandName, CommandArgs, Abs, Step, Enabled, StateOk, PidsOk, OutcomeOf, TermOk, Grown, InDomain,
      With;
    ExecStep(img, Abs(r), cmd, junk, ctx, r.stacks);
    var p := LowestFree(Used(r.stacks), 0);
    if Resolve(img, CommandName(cmd), junk).Runnable? && p != -1 {
      hide Structure, Maps, LowestFree, Used;
      StartInv(img, l, r, q, p, ctx, CommandArgs(cmd));
      StartAbs(l, r, q, p, ctx, CommandArgs(cmd));
    }
  }

  // ---------- the end of a process ----------

  /** What `kill_current_proc` does: the leaf goes; its parent goes on in its `execute`, or a
      shell takes its place. */
  ghost predicate KillEffect(img: Image, l: Layout, r: Vars, q: Vars, code: nat, ctx: Ctx, o: Outcome)
    requires Sized(img) && Shape(r) && StacksOk(r.stacks) && r.stacks[r.active] != []
    requires r.currPid == Top(r.stacks[r.active])
  {
    FreedShape(r);
    var f := Freed(r);
    var pcb := r.pcbs[r.currPid];
    if f.currPid >= 0 then
      && f.currPid < MAX_PROCESSES
      && |q.tables.dir| == ENTRIES && |q.tables.table0| == ENTRIES
      && q == f.(tssEsp0 := pcb.tssEsp0, tables := q.tables)
      && Maps(l, q.tables, f.currPid, OpenScreen(l, q))
      && q.tables.dir[VIDMAP_PAGE].present == f.pcbs[f.currPid].vidmapActive
      && o == ExecReturned(pcb.save, code)
    else
      var p := LowestFree(Used(f.stacks), 0);
      p != -1 && StartEffect(l, f, q, p, ctx, []) && o == Entered(p, ShellProgram(img))
  }

  /** The process below the leaf, if there is one. */
  lemma FreedCurrent(img: Image, r: Vars)
    requires Sized(img) && Shape(r) && Structure(img, r) && r.stacks[r.active] != []
    ensures 0 <= r.currPid < MAX_PROCESSES && r.currPid == Top(r.stacks[r.active])
    ensures var n := |r.stacks[r.active]|;
            var f := Freed(r);
            && (f.currPid >= 0 <==> n > 1)
            && (n > 1 ==> f.currPid == r.stacks[r.active][n - 2] && 0 <= f.currPid < MAX_PROCESSES
                          && r.pcbs[r.currPid].tssEsp0 == StackTop(f.currPid))
            && (n == 1 ==> f.currPid == -1)
            && f.active == r.active && f.stacks == Popped(r.stacks, r.active)
  {
    InRange(r);
    var st := r.stacks[r.active];
    assert LinkOk(img, r.pcbs, st, |st| - 1);
    hide StacksOk, Used, TermOk, FdsOk;
  }

  /** The parent link of the leaf, read through the parent's own slot. */
  lemma ParentLink(img: Image, r: Vars)
    requires Sized(img) && Shape(r) && Structure(img, r) && r.stacks[r.active] != []
    requires r.currPid == Top(r.stacks[r.active]) && 0 <= r.currPid < MAX_PROCESSES
    ensures var parent := r.pcbs[r.currPid].parent;
            && (parent.Some? ==> 0 <= parent.value < MAX_PROCESSES)
            && TopOr(Popped(r.stacks, r.active)[r.active]) == if parent.None? then -1 else r.pcbs[parent.value].pid
  {
    var st := r.stacks[r.active];
    var n := |st|;
    assert LinkOk(img, r.pcbs, st, n - 1);
    if n > 1 {
      assert LinkOk(img, r.pcbs, st, n - 2);
    }
    hide StacksOk, Used, TermOk, FdsOk;
  }

  /** One of the first `n` descriptors is an open clock. */
  predicate AnyClock(fds: seq<Fd>, n: nat)
    requires n <= |fds|
  {
    n > 0 && (AnyClock(fds, n - 1) || IsClock(fds[n - 1]))
  }

  lemma {:induction false} AnyClockIn(fds: seq<Fd>, n: nat)
    requires n <= |fds|
    ensures AnyClock(fds, n) <==> exists k :: 0 <= k < n && IsClock(fds[k])
  {
    if n > 0 {
      AnyClockIn(fds, n - 1);
    }
  }

  lemma AnyClockIs(fds: seq<Fd>)
    ensures AnyClock(fds, |fds|) <==> exists f :: f in fds && IsClock(f)
  {
    AnyClockIn(fds, |fds|);
    if f :| f in fds && IsClock(f) {
      var k :| 0 <= k < |fds| && fds[k] == f;
      assert IsClock(fds[k]);
    }
  }

  /** `execute("shell")` finds the shell whatever is on the stack. */
  lemma ShellIsFound(img: Image, junk: seq<byte>)
    requires WellFormed(img) && HasShell(img) && |junk| == ELF_BYTES
    ensures InDomain(SHELL) && CommandName(SHELL) == SHELL && CommandArgs(SHELL) == []
    ensures Resolve(img, SHELL, junk) == Runnable(ShellProgram(img))
  {
    ShellCommand();
    ShellRuns(img, junk);
    ShellRuns(img, Repeat(0, ELF_BYTES));
  }

  /** When the last process of the running terminal is gone, its shell can be started. */
  lemma ShellStarts(img: Image, r: Vars, junk: seq<byte>)
    requires WellFormed(img) && HasShell(img) && |junk| == ELF_BYTES
    requires Shape(r) && Structure(img, r) && r.stacks[r.active] != [] && 0 <= r.currPid < MAX_PROCESSES
    ensures InDomain(SHELL) && CommandName(SHELL) == SHELL && CommandArgs(SHELL) == []
    ensures Resolve(img, SHELL, junk) == Runnable(ShellProgram(img))
    ensures |r.stacks[r.active]| == 1 ==> LowestFree(Used(Freed(r).stacks), 0) != -1
  {
    ShellIsFound(img, junk);
    if |r.stacks[r.active]| == 1 {
      RespawnCannotFail(r.stacks, r.active);
      PopKeeps(r.stacks, r.active);
    }
  }

  /** The parent's side of a kill. */
  lemma ParentInv(img: Image, l: Layout, r: Vars, q: Vars, code: nat, ctx: Ctx, o: Outcome)
    requires Sized(img) && l.Valid() && Shape(r) && Structure(img, r) && |r.stacks[r.active]| > 1
    requires r.currPid == Top(r.stacks[r.active]) && KillEffect(img, l, r, q, code, ctx, o)
    ensures Inv(img, l, q)
  {
    FreedCurrent(img, r);
    FreedStructure(img, r);
    var f := Freed(r);
    hide Freed, Maps, StacksOk, TermOk, FdsOk, LinkOk, Used;
    var g := f.(tssEsp0 := r.pcbs[r.currPid].tssEsp0);
    assert Structure(img, g);
    TablesStructure(img, g, q.tables);
  }

  lemma EspAbs(r: Vars, esp0: int)
    requires Shape(r) && PidsInRange(r)
    ensures Shape(r.(tssEsp0 := esp0)) && PidsInRange(r.(tssEsp0 := esp0)) && Abs(r.(tssEsp0 := esp0)) == Abs(r)
  {
    var q := r.(tssEsp0 := esp0);
    assert AbsTerminal(q, 0) == AbsTerminal(r, 0);
    assert AbsTerminal(q, 1) == AbsTerminal(r, 1);
    assert AbsTerminal(q, 2) == AbsTerminal(r, 2);
    hide AbsTerminal, TermOk;
  }

  lemma ParentAbs(img: Image, l: Layout, r: Vars, q: Vars, code: nat, ctx: Ctx, o: Outcome)
    requires Sized(img) && Shape(r) && Structure(img, r) && |r.stacks[r.active]| > 1
    requires r.currPid == Top(r.stacks[r.active]) && KillEffect(img, l, r, q, code, ctx, o)
    ensures Shape(q) && PidsInRange(q) && PidsInRange(r) && |Abs(r).vid| == MAX_PROCESSES
    ensures Abs(r).terms[r.active].procs != []
    ensures var p := r.stacks[r.active][|r.stacks[r.active]| - 2];
            && 0 <= p < MAX_PROCESSES
            && Abs(q) == With(Abs(r), r.active, Pop(Abs(r).terms[r.active])).(mapped := Abs(r).vid[p])
  {
    FreedCurrent(img, r);
    FreedAbs(r);
    FreedFlags(r);
    var f := Freed(r);
    VidOf(f, f.currPid);
    VidOf(r, f.currPid);
    hide Freed, Maps, StacksOk, TermOk, FdsOk, LinkOk, Used, Structure, Abs, Pop;
    EspAbs(f, r.pcbs[r.currPid].tssEsp0);
    TablesAbs(f.(tssEsp0 := r.pcbs[r.currPid].tssEsp0), q.tables);
  }

  /** The shell's side. */
  lemma ShellInv(img: Image, l: Layout, r: Vars, q: Vars, code: nat, ctx: Ctx, o: Outcome)
    requires Sized(img) && l.Valid() && Shape(r) && Structure(img, r) && |r.stacks[r.active]| == 1
    requires r.currPid == Top(r.stacks[r.active]) && KillEffect(img, l, r, q, code, ctx, o)
    ensures Inv(img, l, q)
  {
    FreedCurrent(img, r);
    FreedStructure(img, r);
    hide Freed, Maps, StacksOk, TermOk, FdsOk, LinkOk, Used, Structure, StartEffect;
    StartInv(img, l, Freed(r), q, LowestFree(Used(Freed(r).stacks), 0), ctx, []);
  }

  lemma ShellAbs(img: Image, l: Layout, r: Vars, q: Vars, code: nat, ctx: Ctx, o: Outcome)
    requires Sized(img) && Shape(r) && Structure(img, r) && |r.stacks[r.active]| == 1
    requires r.currPid == Top(r.stacks[r.active]) && KillEffect(img, l, r, q, code, ctx, o)
    ensures Shape(q) && PidsInRange(q) && PidsInRange(r) && |Abs(r).vid| == MAX_PROCESSES
    ensures Abs(r).terms[r.active].procs != []
    ensures var p := LowestFree(Used(Popped(r.stacks, r.active)), 0);
            && 0 <= p < MAX_PROCESSES
            && Abs(q)
               == With(Abs(r), r.active, Grown(Pop(Abs(r).terms[r.active]), p, ctx, [])).(mapped := Abs(r).vid[p])
  {
    FreedCurrent(img, r);
    FreedAbs(r);
    FreedStructure(img, r);
    var f := Freed(r);
    assert StacksOk(f.stacks);
    InRange(f);
    var p := LowestFree(Used(f.stacks), 0);
    hide Freed, Maps, StacksOk, TermOk, FdsOk, LinkOk, Used, Structure, Abs, Pop, StartEffect, Grown;
    StartAbs(l, f, q, p, ctx, []);
    WithTwice(Abs(r), r.active, Pop(Abs(r).terms[r.active]), Grown(Pop(Abs(r).terms[r.active]), p, ctx, []));
  }

  /** How the machine sees the pids of a kill. */
  lemma KillPidsOf(r: Vars)
    requires Shape(r) && StacksOk(r.stacks) && PidsInRange(r) && r.stacks[r.active] != []
    ensures var a := Abs(r);
            var n := |r.stacks[r.active]|;
            && a.terms[r.active].procs != [] && |a.terms[r.active].procs| == n
            && a.terms[r.active].Leaf().pid == Top(r.stacks[r.active])
            && (n > 1 ==> AfterKill(a, r.active) == r.stacks[r.active][n - 2])
            && RespawnPid(a, r.active) == LowestFree(Used(Popped(r.stacks, r.active)), 0)
  {
    AbsPids(r);
    AbsAt(r, r.active);
    PopKeeps(r.stacks, r.active);
    hide StacksOk, Used, LowestFree, TermOk, Abs, AbsProc;
  }

  lemma KillRefines(img: Image, l: Layout, r: Vars, q: Vars, code: nat, ctx: Ctx, o: Outcome)
    requires Sized(img) && l.Valid() && Shape(r) && Structure(img, r) && r.stacks[r.active] != []
    requires r.currPid == Top(r.stacks[r.active]) && KillEffect(img, l, r, q, code, ctx, o)
    ensures Inv(img, l, q) && PidsInRange(q) && PidsInRange(r)
    ensures var a := Abs(r);
            && a.terms[r.active].procs != [] && |a.vid| == MAX_PROCESSES && 0 <= AfterKill(a, r.active) < MAX_PROCESSES
            && Abs(q) == With(a, r.active, AfterEnd(a, r.active, ctx, a.terms[r.active])).(
                           mapped := a.vid[AfterKill(a, r.active)])
  {
    InRange(r);
    KillPidsOf(r);
    if |r.stacks[r.active]| > 1 {
      ParentInv(img, l, r, q, code, ctx, o);
      ParentAbs(img, l, r, q, code, ctx, o);
    } else {
      ShellInv(img, l, r, q, code, ctx, o);
      ShellAbs(img, l, r, q, code, ctx, o);
    }
  }

  lemma KillOutcomeIs(img: Image, l: Layout, r: Vars, q: Vars, code: nat, ctx: Ctx, o: Outcome)
    requires Sized(img) && l.Valid() && Shape(r) && Structure(img, r) && r.stacks[r.active] != []
    requires r.currPid == Top(r.stacks[r.active]) && KillEffect(img, l, r, q, code, ctx, o)
    ensures PidsInRange(r) && Abs(r).terms[r.active].procs != []
    ensures o == KillOutcome(img, Abs(r), r.active, code)
  {
    InRange(r);
    KillPidsOf(r);
    FreedCurrent(img, r);
    AbsAt(r, r.active);
    hide StacksOk, Used, LowestFree, TermOk, Abs, ShellProgram, Maps, Structure, StartEffect, RespawnPid, Freed;
  }

  lemma HaltStep(img: Image, a: State, status: nat, ctx: Ctx)
    requires WellFormed(img) && StateOk(img, a) && Running(a)
    requires 0 <= AfterKill(a, a.active) < MAX_PROCESSES
    ensures Enabled(img, a, Halt(status, ctx))
    ensures Step(img, a, Halt(status, ctx))
            == With(a, a.active, AfterEnd(a, a.active, ctx, a.terms[a.active])).(
                 mapped := a.vid[AfterKill(a, a.active)])
    ensures OutcomeOf(img, a, Halt(status, ctx)) == KillOutcome(img, a, a.active, status % 0x100)
  {
    StepHalt(img, a, status, ctx);
    hide Step, AfterEnd, AfterKill, KillOutcome;
  }

  lemma HaltCallRefines(img: Image, l: Layout, r: Vars, q: Vars, status: nat, ctx: Ctx, o: Outcome)
    requires WellFormed(img) && Inv(img, l, r) && r.currPid == Top(r.stacks[r.active])
    requires KillEffect(img, l, r, q, status % 0x100, ctx, o)
    ensures PidsInRange(r) && SteppedBy(img, l, r, q, Halt(status, ctx))
    ensures o == OutcomeOf(img, Abs(r), Halt(status, ctx))
  {
    AbsOk(img, l, r);
    hide Abs, Step, Enabled, StateOk, PidsOk, OutcomeOf, TermOk, Structure, Ready, KillEffect, AfterEnd, AfterKill,
      KillOutcome;
    KillRefines(img, l, r, q, status % 0x100, ctx, o);
    KillOutcomeIs(img, l, r, q, status % 0x100, ctx, o);
    HaltStep(img, Abs(r), status, ctx);
  }

  /** A kill looks at the pids only. */
  lemma AfterEndSame(a: State, b: State, t: nat, ctx: Ctx, v: Terminal)
    requires |a.terms| == |b.terms| == MAX_TERMINALS && t < MAX_TERMINALS
    requires forall u :: 0 <= u < MAX_TERMINALS ==> b.terms[u].procs == a.terms[u].procs
    requires a.terms[t].procs != [] && v.procs != []
    ensures AfterEnd(b, t, ctx, v) == AfterEnd(a, t, ctx, v)
    ensures AfterKill(b, t) == AfterKill(a, t)
    ensures forall img: Image, code: nat :: Sized(img) ==> KillOutcome(img, b, t, code) == KillOutcome(img, a, t, code)
  {
    assert AllPids(a) == AllPids(b);
    hide LowestFree, Used, Pop;
  }

  lemma ExceptionStep(img: Image, a: State, b: State, msg: seq<byte>, ctx: Ctx)
    requires WellFormed(img) && StateOk(img, a) && Running(a) && NUL !in msg
    requires a.terms[a.active].screen.Valid()
    requires var v := a.terms[a.active];
             b == With(a, a.active, v.(screen := S.PutAll(v.screen, msg)))
    requires 0 <= AfterKill(b, a.active) < MAX_PROCESSES
    ensures Enabled(img, a, Exception(msg, ctx)) && b.terms[a.active].procs != []
    ensures Step(img, a, Exception(msg, ctx))
            == With(b, a.active, AfterEnd(b, a.active, ctx, b.terms[a.active])).(
                 mapped := a.vid[AfterKill(b, a.active)])
    ensures OutcomeOf(img, a, Exception(msg, ctx)) == KillOutcome(img, b, a.active, KILLED)
  {
    var t := a.active;
    var v := a.terms[t].(screen := S.PutAll(a.terms[t].screen, msg));
    hide S.PutAll;
    AfterEndSame(a, b, t, ctx, v);
    StepException(img, a, msg, ctx);
    hide Step, AfterEnd, AfterKill, KillOutcome;
    WithTwice(a, t, v, AfterEnd(b, t, ctx, v));
  }

  lemma ExceptionRefines(img: Image, l: Layout, r: Vars, q: Vars, msg: seq<byte>, ctx: Ctx, o: Outcome)
    requires WellFormed(img) && Inv(img, l, r) && NUL !in msg && AbsScreen(r, r.active).Valid()
    requires Inv(img, l, Announced(r, msg)) && r.currPid == Top(r.stacks[r.active])
    requires KillEffect(img, l, Announced(r, msg), q, KILLED, ctx, o)
    ensures PidsInRange(r) && SteppedBy(img, l, r, q, Exception(msg, ctx))
    ensures o == OutcomeOf(img, Abs(r), Exception(msg, ctx))
  {
    AbsOk(img, l, r);
    RunningParts(img, l, r);
    hide Abs, Step, Enabled, StateOk, PidsOk, OutcomeOf, TermOk, Structure, Ready, KillEffect, AfterEnd, AfterKill,
      KillOutcome, S.PutAll, FdsOk, TerminalOk;
    ScreenRefines(img, l, r, r.active, S.PutAll(AbsScreen(r, r.active), msg));
    var m := Announced(r, msg);
    KillRefines(img, l, m, q, KILLED, ctx, o);
    KillOutcomeIs(img, l, m, q, KILLED, ctx, o);
    ExceptionStep(img, Abs(r), Abs(m), msg, ctx);
  }

  lemma EmptyStacks(st: seq<Stack>)
    requires st == [[], [], []]
    ensures StacksOk(st) && Used(st) == {} && LowestFree(Used(st), 0) == 0 && Pushed(st, 0, 0) == [[0], [], []]
  {
    assert Pushed(st, 0, 0) == [[] + [0], [], []];
    assert [] + [0] == [0];
  }

  /** Before the first process there is nothing to keep. */
  lemma BootStructure(img: Image, r: Vars)
    requires Sized(img) && Booting(r)
    ensures Structure(img, r) && OnOwnStack(r) && Used(r.stacks) == {} && LowestFree(Used(r.stacks), 0) == 0
    ensures Pushed(r.stacks, 0, 0) == [[0], [], []]
  {
    EmptyStacks(r.stacks);
    hide StacksOk, Used, TermOk, LowestFree, Pushed, LinkOk;
  }

  /** The first `execute` leaves the first screen and all clocks as they were. */
  lemma BootedTerminals(l: Layout, r: Vars, q: Vars, ctx: Ctx)
    requires Booting(r) && StartEffect(l, r, q, 0, ctx, []) && Shape(q) && PidsInRange(q)
    ensures Abs(q).terms[0].screen == AbsScreen(r, 0)
    ensures forall t :: 0 <= t < MAX_TERMINALS ==> Abs(q).terms[t].rtc == r.terms[t].rtc
  {
    hide TermOk, Maps;
    AbsAt(q, 0);
    AbsAt(q, 1);
    AbsAt(q, 2);
    hide Abs;
  }

  const BOOT_MESSAGE: seq<byte> := Ascii("Enabling Interrupts\n")

  /** The first terminal's screen after the boot message. */
  ghost function Greeted(r: Vars): (s: S.Screen)
    requires Booting(r)
    ensures s.Valid()
  {
    assert TermOk(r.terms[0]);
    S.PutAll(AbsScreen(r, 0), BOOT_MESSAGE)
  }

  lemma GreetedBooting(r: Vars)
    requires Booting(r)
    ensures AbsScreen(r, 0).Valid()
    ensures Booting(SetScreen(r, 0, Greeted(r))) && AbsScreen(SetScreen(r, 0, Greeted(r)), 0) == Greeted(r)
  {
    assert TermOk(r.terms[0]);
    hide S.PutAll, Ascii;
  }

  // ---------- parent chains ----------

  /** The pids met by following parent links from `p`, at most `n` of them. */
  function Chain(pcbs: seq<Pcb>, p: Option<int>, n: nat): seq<int>
    decreases n
  {
    if n == 0 || p.None? || !(0 <= p.value < |pcbs|) then []
    else [p.value] + Chain(pcbs, pcbs[p.value].parent, n - 1)
  }

  lemma ChainStep(img: Image, pcbs: seq<Pcb>, st: Stack, i: nat, n: nat)
    requires Sized(img) && i < |st| && n > i && LinkOk(img, pcbs, st, i)
    ensures Chain(pcbs, Some(st[i]), n) == [st[i]] + (if i == 0 then [] else Chain(pcbs, Some(st[i - 1]), n - 1))
  {
    hide FdsOk;
  }

  lemma {:induction false} ChainFrom(img: Image, pcbs: seq<Pcb>, st: Stack, i: nat, n: nat)
    requires Sized(img) && i < |st| && n > i
    requires forall k :: 0 <= k < |st| ==> LinkOk(img, pcbs, st, k)
    ensures var c := Chain(pcbs, Some(st[i]), n);
            |c| == i + 1 && forall k :: 0 <= k <= i ==> c[k] == st[i - k]
    decreases i
  {
    hide LinkOk, Chain;
    ChainStep(img, pcbs, st, i, n);
    if i > 0 {
      ChainFrom(img, pcbs, st, i - 1, n - 1);
    }
  }

  /** The process that terminal `t` runs or will go on with. */
  function LeafPid(r: Vars, t: nat): int
    requires t < |r.terms|
  {
    if t == r.active then r.currPid else r.terms[t].currPid
  }

  /** From each terminal's saved pid the parent links lead down that terminal's own stack and
      then end, however far they are followed. */
  lemma ParentChains(img: Image, l: Layout, r: Vars, t: nat, n: nat)
    requires Inv(img, l, r) && t < MAX_TERMINALS && n >= |r.stacks[t]|
    ensures var st := r.stacks[t];
            && (st == [] <==> LeafPid(r, t) == -1)
            && (st != [] ==>
                  var c := Chain(r.pcbs, Some(LeafPid(r, t)), n);
                  |c| == |st| && forall k :: 0 <= k < |st| ==> c[k] == st[|st| - 1 - k])
  {
    InRange(r);
    var st := r.stacks[t];
    assert LeafPid(r, t) == TopOr(st);
    if st != [] {
      assert forall i :: 0 <= i < |st| ==> LinkOk(img, r.pcbs, st, i);
      hide LinkOk, StacksOk, Used;
      ChainFrom(img, r.pcbs, st, |st| - 1, n);
    }
  }

  /** The pids in use are exactly those on the three stacks, each in one place. */
  lemma PidsInUse(img: Image, l: Layout, r: Vars, p: nat)
    requires Inv(img, l, r) && p < MAX_PROCESSES
    ensures StacksOk(r.stacks)
    ensures r.pidarray[p] <==> exists t, i :: 0 <= t < MAX_TERMINALS && 0 <= i < |r.stacks[t]| && r.stacks[t][i] == p
  {
    hide LinkOk;
    assert r.pidarray[p] <==> p in Used(r.stacks);
    assert |r.stacks| == MAX_TERMINALS;
    if t, i :| 0 <= t < MAX_TERMINALS && 0 <= i < |r.stacks[t]| && r.stacks[t][i] == p {
      InUse(r.stacks, t, i);
    }
    if p in Used(r.stacks) {
      var t, i :| 0 <= t < |r.stacks| && 0 <= i < |r.stacks[t]| && r.stacks[t][i] == p;
    }
  }
}
