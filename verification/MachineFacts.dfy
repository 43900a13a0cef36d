/** What every step of the machine keeps. */
module MachineFacts {
  import opened CInt
  import opened FileSystem
  import opened Programs
  import opened Terminals
  import opened Machine
  import opened Stacks

  // ---------- process stacks ----------

  /** The effect of a local event on a stack of pids. */
  function PidStep(st: Stack, l: LEvent): Stack {
    match l
    case LPush(p) => st + [p.pid]
    case LPop => if st == [] then st else st[..|st| - 1]
    case _ => st
  }

  function PidRun(st: Stack, ls: seq<LEvent>): Stack
    decreases |ls|
  {
    if ls == [] then st else PidRun(PidStep(st, ls[0]), ls[1..])
  }

  lemma LStepPids(img: Image, v: Terminal, l: LEvent)
    requires WellFormed(img) && TerminalOk(img, v) && LEventOk(img, l)
    ensures Pids(LStep(img, v, l).procs) == PidStep(Pids(v.procs), l)
  {
    if l.LSys? && v.procs != [] {
      ServePids(img, v, l.c);
    }
  }

  lemma ServePids(img: Image, v: Terminal, c: Sys)
    requires WellFormed(img) && TerminalOk(img, v) && v.procs != []
    ensures Pids(Serve(img, v, c).0.procs) == Pids(v.procs)
  {
    ServeProcs(img, v, c);
    hide Serve, TerminalOk, WellFormed;
  }

  lemma {:induction false} LRunPids(img: Image, v: Terminal, ls: seq<LEvent>)
    requires WellFormed(img) && TerminalOk(img, v) && AllOk(img, ls)
    ensures Pids(LRun(img, v, ls).procs) == PidRun(Pids(v.procs), ls)
    decreases |ls|
  {
    if ls != [] {
      LStepOk(img, v, ls[0]);
      LStepPids(img, v, ls[0]);
      LRunPids(img, LStep(img, v, ls[0]), ls[1..]);
    }
  }

  /** The stacks after a step, as a push, a pop or a replacement on at most one of them. */
  function NextStacks(img: Image, a: State, e: Event): seq<Stack>
    requires Sized(img) && Shaped(a) && EventOk(e)
  {
    var st := AllPids(a);
    match e
    case Execute(cmd, junk, _) =>
      var p := ExecPid(img, a, cmd, junk);
      if p == -1 then st else Pushed(st, a.active, p)
    case Halt(_, _) => Killed(a, a.active)
    case Exception(_, _) => Killed(a, a.active)
    case Tick(_) =>
      var n := Next(a);
      if a.terms[n].procs == [] then
        (var p := LowestFree(Used(st), 0);
         if p == -1 then st else Pushed(st, n, p))
      else if a.terms[n].halt then Killed(a, n) else st
    case _ => st
  }

  function Killed(a: State, t: nat): seq<Stack>
    requires |a.terms| == MAX_TERMINALS && t < MAX_TERMINALS && a.terms[t].procs != []
  {
    var st := Popped(AllPids(a), t);
    if |a.terms[t].procs| > 1 then st else Pushed(st, t, RespawnPid(a, t))
  }

  lemma KillPids(a: State, t: nat, ctx: Ctx)
    requires |a.terms| == MAX_TERMINALS && t < MAX_TERMINALS && a.terms[t].procs != []
    ensures PidRun(Pids(a.terms[t].procs), KillEvents(a, t, ctx)) == Killed(a, t)[t]
  {
    var st := Pids(a.terms[t].procs);
    if |a.terms[t].procs| > 1 {
      assert PidRun(st, [LPop]) == PidRun(PidStep(st, LPop), []);
    } else {
      var push := LPush(ShellProc(RespawnPid(a, t), ctx));
      assert [LPop, push][1..] == [push];
      assert PidRun(PidStep(st, LPop), [push]) == PidRun(PidStep(PidStep(st, LPop), push), []);
    }
  }

  lemma PidRunOne(st: Stack, l: LEvent)
    ensures PidRun(st, [l]) == PidStep(st, l)
  {
    assert PidRun(PidStep(st, l), []) == PidStep(st, l);
  }

  lemma PidRunCons(st: Stack, l: LEvent, ls: seq<LEvent>)
    ensures PidRun(st, [l] + ls) == PidRun(PidStep(st, l), ls)
  {
    assert ([l] + ls)[1..] == ls;
  }

  lemma TickPids(img: Image, a: State, t: nat, ctx: Ctx)
    requires Sized(img) && Shaped(a) && t < MAX_TERMINALS
    ensures PidRun(Pids(a.terms[t].procs), TickEvents(a, t, ctx)) == NextStacks(img, a, Tick(ctx))[t]
  {
    var st := Pids(a.terms[t].procs);
    hide Used, LowestFree;
    if t == a.active {
      PidRunOne(st, LSave(ctx));
    } else if t == Next(a) && a.terms[t].procs == [] {
      var p := LowestFree(Used(AllPids(a)), 0);
      PidRunOne(st, LWipe);
      PidRunCons(st, LWipe, [LPush(ShellProc(p, ctx))]);
      PidRunOne(st, LPush(ShellProc(p, ctx)));
    } else if t == Next(a) && a.terms[t].halt {
      KillPids(a, t, ctx);
      hide KillEvents, Killed;
      PidRunCons(st, LHalt(false), KillEvents(a, t, ctx));
    }
  }

  /** `execute` pushes on the running terminal's stack. */
  lemma ExecutePids(img: Image, a: State, e: Event, t: nat)
    requires Sized(img) && Shaped(a) && EventOk(e) && t < MAX_TERMINALS && e.Execute?
    ensures PidRun(Pids(a.terms[t].procs), Local(img, a, e, t)) == NextStacks(img, a, e)[t]
  {
    hide Resolve, CommandName, CommandArgs, Used, LowestFree;
    PidRunOne(Pids(a.terms[t].procs),
              LPush(Proc(ExecPid(img, a, e.cmd, e.junk), e.ctx, INITIAL_TABLE, CommandArgs(e.cmd))));
  }

  /** An end pops, after its message. */
  lemma EndPids(img: Image, a: State, e: Event, t: nat)
    requires Sized(img) && Shaped(a) && EventOk(e) && t < MAX_TERMINALS && (e.Halt? || e.Exception?)
    ensures PidRun(Pids(a.terms[t].procs), Local(img, a, e, t)) == NextStacks(img, a, e)[t]
  {
    if t == a.active {
      KillPids(a, t, e.ctx);
      hide KillEvents, Used, LowestFree;
      if e.Exception? {
        PidRunCons(Pids(a.terms[t].procs), LPrint(e.msg), KillEvents(a, t, e.ctx));
      }
    }
  }

  lemma LocalPids(img: Image, a: State, e: Event, t: nat)
    requires Sized(img) && Shaped(a) && EventOk(e) && t < MAX_TERMINALS
    ensures PidRun(Pids(a.terms[t].procs), Local(img, a, e, t)) == NextStacks(img, a, e)[t]
  {
    var st := Pids(a.terms[t].procs);
    if e.Execute? {
      ExecutePids(img, a, e, t);
    } else if e.Halt? || e.Exception? {
      EndPids(img, a, e, t);
    } else if e.Tick? {
      TickPids(img, a, t, e.ctx);
    } else if e.Key? {
      KeyPids(st, Local(img, a, e, t));
    } else {
      var ls := Local(img, a, e, t);
      if |ls| == 1 {
        PidRunOne(st, ls[0]);
      }
    }
  }

  lemma KeyPids(st: Stack, ls: seq<LEvent>)
    requires forall l :: l in ls ==> l.LType? || l.LHalt? || l.LWipe?
    ensures PidRun(st, ls) == st
    decreases |ls|
  {
    if ls != [] {
      assert ls[0] in ls;
      KeyPids(st, ls[1..]);
    }
  }

  lemma TerminalPids(img: Image, a: State, e: Event, t: nat)
    requires WellFormed(img) && StateOk(img, a) && Enabled(img, a, e) && t < MAX_TERMINALS
    ensures Pids(TerminalAfter(img, a, e, t).procs) == NextStacks(img, a, e)[t]
  {
    LocalOk(img, a, e, t);
    LRunPids(img, a.terms[t], Local(img, a, e, t));
    LocalPids(img, a, e, t);
  }

  lemma StepStacks(img: Image, a: State, e: Event)
    requires WellFormed(img) && StateOk(img, a) && Enabled(img, a, e)
    ensures AllPids(Step(img, a, e)) == NextStacks(img, a, e)
  {
    hide WellFormed, TerminalOk;
    TerminalPids(img, a, e, 0);
    TerminalPids(img, a, e, 1);
    TerminalPids(img, a, e, 2);
    hide NextStacks, TerminalAfter, Enabled, Pids;
  }

  lemma KilledOk(a: State, t: nat)
    requires |a.terms| == MAX_TERMINALS && PidsOk(a) && t < MAX_TERMINALS && a.terms[t].procs != []
    ensures StacksOk(Killed(a, t)) && Killed(a, t)[t] != []
  {
    PopKeeps(AllPids(a), t);
    if |a.terms[t].procs| == 1 {
      RespawnCannotFail(AllPids(a), t);
    }
  }

  /** Starting a terminal for the first time needs a free pid; nothing else can fail. */
  predicate Safe(a: State, e: Event)
    requires |a.terms| == MAX_TERMINALS
  {
    e.Tick? && a.terms[Next(a)].procs == [] ==> LowestFree(Used(AllPids(a)), 0) != -1
  }

  lemma NextStacksOk(img: Image, a: State, e: Event)
    requires Sized(img) && Shaped(a) && EventOk(e) && PidsOk(a)
    ensures StacksOk(NextStacks(img, a, e))
    ensures NextStacks(img, a, e)[if e.Tick? then Next(a) else a.active] != [] <==> Safe(a, e)
  {
    hide StacksOk, Used, Resolve, CommandName;
    var st := AllPids(a);
    match e {
      case Halt(_, _) => KilledOk(a, a.active);
      case Exception(_, _) => KilledOk(a, a.active);
      case Execute(cmd, junk, _) =>
        if ExecPid(img, a, cmd, junk) != -1 {
          PushKeeps(st, a.active, ExecPid(img, a, cmd, junk));
        }
      case Tick(_) =>
        if a.terms[Next(a)].procs == [] {
          if LowestFree(Used(st), 0) != -1 {
            PushKeeps(st, Next(a), LowestFree(Used(st), 0));
          }
        } else if a.terms[Next(a)].halt {
          KilledOk(a, Next(a));
        }
      case _ =>
    }
  }

  /** A step leaves every terminal well formed. */
  lemma StepKeepsState(img: Image, a: State, e: Event)
    requires WellFormed(img) && StateOk(img, a) && Enabled(img, a, e)
    ensures StateOk(img, Step(img, a, e))
  {
  }

  /** Every step keeps the process stacks disjoint; some process has the processor after it
      exactly if it is not the first start of a terminal with all six pids taken. */
  lemma StepKeepsPids(img: Image, a: State, e: Event)
    requires WellFormed(img) && StateOk(img, a) && Enabled(img, a, e) && PidsOk(a)
    ensures PidsOk(Step(img, a, e))
    ensures Running(Step(img, a, e)) <==> Safe(a, e)
  {
    StepStacks(img, a, e);
    NextStacksOk(img, a, e);
    RunningMeans(Step(img, a, e));
  }

  lemma RunningMeans(b: State)
    requires |b.terms| == MAX_TERMINALS && b.active < MAX_TERMINALS
    ensures Running(b) <==> AllPids(b)[b.active] != []
  {
  }
}
