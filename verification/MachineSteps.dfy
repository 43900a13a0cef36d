/** Each kind of step written out: the one or two terminals it changes, and how. */
module MachineSteps {
  import opened CInt
  import opened FileSystem
  import opened Programs
  import opened Terminals
  import opened Keyboard
  import opened Machine
  import opened Runs
  import opened Stacks
  import Paging
  import S = Screen

  /** The state with another terminal `t`. */
  function With(a: State, t: nat, v: Terminal): (b: State)
    requires |a.terms| == MAX_TERMINALS && t < MAX_TERMINALS
    ensures |b.terms| == MAX_TERMINALS
  {
    a.(terms := a.terms[t := v])
  }

  lemma Untouched(img: Image, a: State, e: Event, t: nat)
    requires WellFormed(img) && StateOk(img, a) && Enabled(img, a, e) && t < MAX_TERMINALS
    requires Local(img, a, e, t) == []
    ensures TerminalAfter(img, a, e, t) == a.terms[t]
  {
  }

  lemma TouchedOnce(img: Image, a: State, e: Event, t: nat, l: LEvent)
    requires WellFormed(img) && StateOk(img, a) && Enabled(img, a, e) && t < MAX_TERMINALS
    requires Local(img, a, e, t) == [l] && LEventOk(img, l)
    ensures TerminalAfter(img, a, e, t) == LStep(img, a.terms[t], l)
  {
    LRunOne(img, a.terms[t], l);
  }

  /** Only terminal `t` sees the event. */
  lemma Alone(img: Image, a: State, e: Event, t: nat)
    requires WellFormed(img) && StateOk(img, a) && Enabled(img, a, e) && t < MAX_TERMINALS
    requires forall u :: 0 <= u < MAX_TERMINALS && u != t ==> Local(img, a, e, u) == []
    ensures Step(img, a, e).terms == a.terms[t := TerminalAfter(img, a, e, t)]
  {
    hide WellFormed, TerminalOk, AllStored, LStep, LRun, KeyMeans, Resolve, AllPids, LowestFree, Used;
    forall u | 0 <= u < MAX_TERMINALS && u != t
      ensures TerminalAfter(img, a, e, u) == a.terms[u]
    {
      Untouched(img, a, e, u);
    }
    hide Local, TerminalAfter, NextVid, NextMapped, VisibleAfterTick, KeyMeans;
  }

  lemma StepSyscall(img: Image, a: State, c: Sys)
    requires WellFormed(img) && StateOk(img, a) && Enabled(img, a, Syscall(c))
    ensures Step(img, a, Syscall(c)) == With(a, a.active, Serve(img, a.terms[a.active], c).0)
  {
    Alone(img, a, Syscall(c), a.active);
    TouchedOnce(img, a, Syscall(c), a.active, LSys(c));
  }

  lemma StepStore(img: Image, a: State, off: nat, b: byte)
    requires WellFormed(img) && StateOk(img, a) && Enabled(img, a, Store(off, b))
    ensures Step(img, a, Store(off, b)) == With(a, a.active, LStep(img, a.terms[a.active], LStore(off, b)))
  {
    Alone(img, a, Store(off, b), a.active);
    TouchedOnce(img, a, Store(off, b), a.active, LStore(off, b));
  }

  lemma StepVidmap(img: Image, a: State, addr: nat)
    requires WellFormed(img) && StateOk(img, a) && Enabled(img, a, Vidmap(addr))
    ensures Step(img, a, Vidmap(addr))
            == a.(vid := NextVid(a, Vidmap(addr)), mapped := Paging.InProgram(addr) || a.mapped)
  {
    Alone(img, a, Vidmap(addr), a.active);
    Untouched(img, a, Vidmap(addr), a.active);
  }

  lemma StepClock(img: Image, a: State)
    requires WellFormed(img) && StateOk(img, a) && Enabled(img, a, ClockInterrupt)
    ensures Step(img, a, ClockInterrupt)
            == a.(terms := [LStep(img, a.terms[0], LClock), LStep(img, a.terms[1], LClock),
                            LStep(img, a.terms[2], LClock)])
  {
    TouchedOnce(img, a, ClockInterrupt, 0, LClock);
    TouchedOnce(img, a, ClockInterrupt, 1, LClock);
    TouchedOnce(img, a, ClockInterrupt, 2, LClock);
  }

  /** The visible terminal after a scan code. */
  ghost function Keyed(img: Image, a: State, scan: nat): Terminal
    requires Sized(img) && StateOk(img, a) && scan < 0x100
  {
    var ls := KeyMeans(a.mods, scan).local;
    var v := a.terms[a.visible];
    if |ls| == 1 && (ls[0].LType? ==> ls[0].k.Valid()) && LEventOk(img, ls[0]) then LStep(img, v, ls[0]) else v
  }

  lemma KeyHasOneEffect(m: Mods, scan: nat)
    requires scan < 0x100
    ensures |KeyMeans(m, scan).local| <= 1
  {
  }

  lemma StepKey(img: Image, a: State, scan: nat)
    requires WellFormed(img) && StateOk(img, a) && Enabled(img, a, Key(scan))
    ensures var k := KeyMeans(a.mods, scan);
            Step(img, a, Key(scan))
            == With(a, a.visible, Keyed(img, a, scan)).(mods := k.mods,
                 target := if k.show.Some? then k.show.value else a.target)
  {
    hide KeyMeans;
    Alone(img, a, Key(scan), a.visible);
    KeyHasOneEffect(a.mods, scan);
    KeyEventsOk(img, a.mods, scan);
    var ls := KeyMeans(a.mods, scan).local;
    if ls == [] {
      Untouched(img, a, Key(scan), a.visible);
    } else {
      assert ls == [ls[0]];
      TouchedOnce(img, a, Key(scan), a.visible, ls[0]);
    }
  }

  /** What `execute` delivers and what it changes besides. */
  lemma ExecuteParts(img: Image, a: State, e: Event, t: nat)
    requires Sized(img) && Shaped(a) && EventOk(e) && e.Execute? && t < MAX_TERMINALS
    ensures var p := ExecPid(img, a, e.cmd, e.junk);
            && Local(img, a, e, t)
               == (if t == a.active && p != -1 then [LPush(Proc(p, e.ctx, INITIAL_TABLE, CommandArgs(e.cmd)))] else [])
            && NextVid(a, e) == a.vid
            && -1 <= p < MAX_PROCESSES
            && NextMapped(img, a, e) == if 0 <= p < |a.vid| then a.vid[p] else a.mapped
  {
    hide Resolve, CommandName, CommandArgs;
  }

  lemma ExecuteRunning(img: Image, a: State, e: Event)
    requires WellFormed(img) && StateOk(img, a) && Enabled(img, a, e) && e.Execute?
    ensures var p := ExecPid(img, a, e.cmd, e.junk);
            var v := a.terms[a.active];
            TerminalAfter(img, a, e, a.active)
            == if p == -1 then v else v.(procs := v.procs + [Proc(p, e.ctx, INITIAL_TABLE, CommandArgs(e.cmd))])
  {
    hide Local, NextVid, NextMapped, ExecPid, CommandArgs, InDomain, Step, TerminalAfter;
    var p := ExecPid(img, a, e.cmd, e.junk);
    ExecuteParts(img, a, e, a.active);
    if p == -1 {
      Untouched(img, a, e, a.active);
    } else {
      TouchedOnce(img, a, e, a.active, LPush(Proc(p, e.ctx, INITIAL_TABLE, CommandArgs(e.cmd))));
    }
  }

  lemma ExecuteTerms(img: Image, a: State, e: Event)
    requires WellFormed(img) && StateOk(img, a) && Enabled(img, a, e) && e.Execute?
    ensures var p := ExecPid(img, a, e.cmd, e.junk);
            var v := a.terms[a.active];
            Step(img, a, e).terms
            == if p == -1 then a.terms
               else a.terms[a.active := v.(procs := v.procs + [Proc(p, e.ctx, INITIAL_TABLE, CommandArgs(e.cmd))])]
  {
    ExecuteParts(img, a, e, 0);
    ExecuteParts(img, a, e, 1);
    ExecuteParts(img, a, e, 2);
    ExecuteRunning(img, a, e);
    hide Local, NextVid, NextMapped, ExecPid, CommandArgs, WellFormed, InDomain, Step, TerminalAfter, TerminalOk;
    Alone(img, a, e, a.active);
  }

  lemma StepExecute(img: Image, a: State, cmd: seq<byte>, junk: seq<byte>, ctx: Ctx)
    requires WellFormed(img) && StateOk(img, a) && Enabled(img, a, Execute(cmd, junk, ctx))
    ensures var p := ExecPid(img, a, cmd, junk);
            Step(img, a, Execute(cmd, junk, ctx))
            == if p == -1 then a
               else With(a, a.active, a.terms[a.active].(procs := a.terms[a.active].procs
                                        + [Proc(p, ctx, INITIAL_TABLE, CommandArgs(cmd))])).(mapped := a.vid[p])
  {
    var e := Execute(cmd, junk, ctx);
    ExecuteTerms(img, a, e);
    ExecuteParts(img, a, e, a.active);
    hide Local, NextVid, NextMapped, ExecPid, CommandArgs, WellFormed, InDomain, TerminalAfter, TerminalOk;
  }

  /** A terminal `v`, with the processes of terminal `t`, after the end of its leaf. */
  function AfterEnd(a: State, t: nat, ctx: Ctx, v: Terminal): Terminal
    requires |a.terms| == MAX_TERMINALS && t < MAX_TERMINALS && a.terms[t].procs != []
    requires v.procs != []
  {
    if |a.terms[t].procs| > 1 then Pop(v)
    else Pop(v).(procs := Pop(v).procs + [ShellProc(RespawnPid(a, t), ctx)])
  }

  lemma RunKill(img: Image, a: State, t: nat, ctx: Ctx, v: Terminal)
    requires WellFormed(img) && TerminalOk(img, v) && |a.terms| == MAX_TERMINALS && t < MAX_TERMINALS
    requires a.terms[t].procs != [] && v.procs != []
    ensures AllOk(img, KillEvents(a, t, ctx))
    ensures LRun(img, v, KillEvents(a, t, ctx)) == AfterEnd(a, t, ctx, v)
  {
    KillEventsOk(img, a, t, ctx);
    hide RespawnPid, AllStored;
    LStepOk(img, v, LPop);
    LRunOne(img, v, LPop);
    if |a.terms[t].procs| <= 1 {
      var push := LPush(ShellProc(RespawnPid(a, t), ctx));
      assert KillEvents(a, t, ctx) == [LPop] + [push];
      LRunAppend(img, v, [LPop], [push]);
      LRunOne(img, LStep(img, v, LPop), push);
    }
  }

  lemma RunThenKill(img: Image, a: State, t: nat, ctx: Ctx, v: Terminal, l: LEvent)
    requires WellFormed(img) && TerminalOk(img, v) && |a.terms| == MAX_TERMINALS && t < MAX_TERMINALS
    requires LEventOk(img, l) && a.terms[t].procs != [] && LStep(img, v, l).procs != []
    ensures AllOk(img, [l] + KillEvents(a, t, ctx))
    ensures LRun(img, v, [l] + KillEvents(a, t, ctx)) == AfterEnd(a, t, ctx, LStep(img, v, l))
  {
    LStepOk(img, v, l);
    KillEventsOk(img, a, t, ctx);
    hide KillEvents, LStep, AfterEnd;
    LRunOne(img, v, l);
    LRunAppend(img, v, [l], KillEvents(a, t, ctx));
    RunKill(img, a, t, ctx, LStep(img, v, l));
  }

  lemma StepHalt(img: Image, a: State, status: nat, ctx: Ctx)
    requires WellFormed(img) && StateOk(img, a) && Enabled(img, a, Halt(status, ctx))
    ensures Step(img, a, Halt(status, ctx))
            == With(a, a.active, AfterEnd(a, a.active, ctx, a.terms[a.active])).(
                 mapped := NextMapped(img, a, Halt(status, ctx)))
  {
    Alone(img, a, Halt(status, ctx), a.active);
    RunKill(img, a, a.active, ctx, a.terms[a.active]);
  }

  lemma StepException(img: Image, a: State, msg: seq<byte>, ctx: Ctx)
    requires WellFormed(img) && StateOk(img, a) && Enabled(img, a, Exception(msg, ctx))
    ensures Step(img, a, Exception(msg, ctx))
            == With(a, a.active, AfterEnd(a, a.active, ctx, LStep(img, a.terms[a.active], LPrint(msg)))).(
                 mapped := NextMapped(img, a, Exception(msg, ctx)))
  {
    Alone(img, a, Exception(msg, ctx), a.active);
    RunThenKill(img, a, a.active, ctx, a.terms[a.active], LPrint(msg));
  }

  /** The terminal that a tick switches to, after the tick. */
  function Woken(a: State, ctx: Ctx): Terminal
    requires |a.terms| == MAX_TERMINALS && a.terms[Next(a)].screen.Valid()
  {
    var v := a.terms[Next(a)];
    if v.procs == [] then
      (var p := LowestFree(Used(AllPids(a)), 0);
       var w := v.(screen := S.Clear(v.screen));
       if p == -1 then w else w.(procs := [ShellProc(p, ctx)]))
    else if v.halt then AfterEnd(a, Next(a), ctx, v.(halt := false))
    else v
  }

  lemma WokenIsAfter(img: Image, a: State, ctx: Ctx)
    requires WellFormed(img) && StateOk(img, a) && Running(a)
    ensures AllOk(img, TickEvents(a, Next(a), ctx))
    ensures LRun(img, a.terms[Next(a)], TickEvents(a, Next(a), ctx)) == Woken(a, ctx)
  {
    var n := Next(a);
    var v := a.terms[n];
    TickEventsOk(img, a, n, ctx);
    hide LowestFree, Used, AllStored, RespawnPid;
    if v.procs == [] {
      var p := LowestFree(Used(AllPids(a)), 0);
      LRunOne(img, v, LWipe);
      if p != -1 {
        var push := LPush(ShellProc(p, ctx));
        assert TickEvents(a, n, ctx) == [LWipe] + [push];
        LStepOk(img, v, LWipe);
        LRunAppend(img, v, [LWipe], [push]);
        LRunOne(img, LStep(img, v, LWipe), push);
      }
    } else if v.halt {
      RunThenKill(img, a, n, ctx, v, LHalt(false));
    }
  }

  lemma TickTerms(img: Image, a: State, ctx: Ctx)
    requires WellFormed(img) && StateOk(img, a) && Enabled(img, a, Tick(ctx))
    ensures Step(img, a, Tick(ctx)).terms
            == a.terms[a.active := a.terms[a.active].(ctx := ctx)][Next(a) := Woken(a, ctx)]
  {
    var e := Tick(ctx);
    WokenIsAfter(img, a, ctx);
    hide Woken, WellFormed, AllPids, Used, LowestFree, LRun, NextMapped, NextVid, VisibleAfterTick;
    TouchedOnce(img, a, e, a.active, LSave(ctx));
    TickElsewhere(img, a, ctx);
    hide Local, TickEvents, TerminalOk;
  }

  lemma TickElsewhere(img: Image, a: State, ctx: Ctx)
    requires WellFormed(img) && StateOk(img, a) && Enabled(img, a, Tick(ctx))
    ensures forall u: nat :: u < MAX_TERMINALS && u != a.active && u != Next(a) ==>
              TerminalAfter(img, a, Tick(ctx), u) == a.terms[u]
    ensures Local(img, a, Tick(ctx), Next(a)) == TickEvents(a, Next(a), ctx)
  {
    hide AllPids, Used, LowestFree;
    forall u: nat | u < MAX_TERMINALS && u != a.active && u != Next(a)
      ensures TerminalAfter(img, a, Tick(ctx), u) == a.terms[u]
    {
      Untouched(img, a, Tick(ctx), u);
    }
  }

  lemma StepTick(img: Image, a: State, ctx: Ctx)
    requires WellFormed(img) && StateOk(img, a) && Enabled(img, a, Tick(ctx))
    ensures var saved := a.terms[a.active].(ctx := ctx);
            Step(img, a, Tick(ctx))
            == With(With(a, a.active, saved), Next(a), Woken(a, ctx)).(
                 active := Next(a), visible := VisibleAfterTick(a), mapped := NextMapped(img, a, Tick(ctx)))
  {
    TickTerms(img, a, ctx);
    hide Woken, NextMapped, VisibleAfterTick, TerminalAfter, WellFormed, TerminalOk;
  }
}
