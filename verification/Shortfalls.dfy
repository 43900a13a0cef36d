/** Inputs that meet the conditions under which the kernel falls short: too many programs for a
    terminal's first start, and a file with a block that is not there. */
module Shortfalls {
  import opened CInt
  import opened FileSystem
  import opened Programs
  import opened Paging
  import opened Terminals
  import opened Machine
  import opened MachineFacts
  import opened Runs
  import opened Stacks
  import opened KernelState
  import opened KernelRefinement
  import opened KernelProcesses
  import opened KernelTicks
  import K = Kernel
  import SmallImage
  import BrokenImage

  // ---------- six programs on one terminal ----------

  /** Pids 0 to `k - 1`, root first. */
  function Upto(k: nat): (st: Stack)
    ensures |st| == k && forall i :: 0 <= i < k ==> st[i] == i
  {
    seq(k, i => i)
  }

  lemma FreeAfter(k: nat)
    requires k <= MAX_PROCESSES
    ensures LowestFree(Used([Upto(k), [], []]), 0) == if k == MAX_PROCESSES then -1 else k
  {
    var st := [Upto(k), [], []];
    forall q: int
      ensures q in Used(st) <==> 0 <= q < k
    {
      if 0 <= q < k {
        assert st[0][q] == q;
      }
    }
  }

  /** `k` commands that start a shell. */
  function Shells(k: nat, junk: seq<byte>, ctx: Ctx): (es: seq<Event>)
    ensures |es| == k && forall i :: 0 <= i < k ==> es[i] == Execute(SHELL, junk, ctx)
  {
    if k == 0 then [] else [Execute(SHELL, junk, ctx)] + Shells(k - 1, junk, ctx)
  }

  /** On the first terminal, with nothing on the others. */
  ghost predicate Alone(img: Image, a: State, k: nat)
    requires Sized(img)
  {
    && StateOk(img, a) && PidsOk(a)
    && a.active == 0
    && AllPids(a) == [Upto(k), [], []]
  }

  lemma AloneRuns(img: Image, a: State, k: nat)
    requires WellFormed(img) && Alone(img, a, k) && k > 0
    ensures StateOk(img, a) && PidsOk(a) && Shaped(a)
  {
    RunningMeans(a);
  }

  /** A command that starts a shell takes the lowest free pid. */
  lemma ShellPid(img: Image, a: State, junk: seq<byte>, ctx: Ctx)
    requires WellFormed(img) && HasShell(img) && |a.terms| == MAX_TERMINALS && |junk| == ELF_BYTES
    ensures EventOk(Execute(SHELL, junk, ctx))
    ensures ExecPid(img, a, SHELL, junk) == LowestFree(Used(AllPids(a)), 0)
  {
    ShellCommand();
    ShellRuns(img, junk);
    hide Resolve, WellFormed, HasShell, Used, LowestFree, Content, U32;
  }

  lemma ShellStacks(img: Image, a: State, k: nat, junk: seq<byte>, ctx: Ctx)
    requires WellFormed(img) && HasShell(img) && Alone(img, a, k) && 0 < k < MAX_PROCESSES && |junk| == ELF_BYTES
    ensures Shaped(a) && EventOk(Execute(SHELL, junk, ctx))
    ensures NextStacks(img, a, Execute(SHELL, junk, ctx)) == [Upto(k + 1), [], []]
  {
    hide StateOk, PidsOk, HasShell, ExecPid, Used, LowestFree, Pids, EventOk;
    AloneRuns(img, a, k);
    ShellPid(img, a, junk, ctx);
    FreeAfter(k);
    assert Upto(k) + [k] == Upto(k + 1);
  }

  lemma OneMore(img: Image, a: State, k: nat, junk: seq<byte>, ctx: Ctx)
    requires WellFormed(img) && HasShell(img) && Alone(img, a, k) && 0 < k < MAX_PROCESSES && |junk| == ELF_BYTES
    ensures var e := Execute(SHELL, junk, ctx);
            Running(a) && Enabled(img, a, e) && Safe(a, e) && Alone(img, Step(img, a, e), k + 1)
  {
    var e := Execute(SHELL, junk, ctx);
    AloneRuns(img, a, k);
    ShellStacks(img, a, k, junk, ctx);
    hide TerminalAfter, PidsOk, HasShell, NextStacks, EventOk, AllPids;
    StepStacks(img, a, e);
    StepKeepsState(img, a, e);
    StepKeepsPids(img, a, e);
  }

  /** The run can happen and leaves pids 0 to `k - 1` on the first terminal. */
  ghost predicate Crowds(img: Image, a: State, es: seq<Event>, k: nat)
    requires WellFormed(img)
  {
    Possible(img, a, es) && Alone(img, Run(img, a, es), k)
  }

  lemma CrowdsNone(img: Image, a: State, k: nat)
    requires WellFormed(img) && Alone(img, a, k) && k > 0
    ensures Crowds(img, a, [], k)
  {
    AloneRuns(img, a, k);
  }

  lemma OneMoreCrowds(img: Image, a: State, k: nat, junk: seq<byte>, ctx: Ctx, es: seq<Event>, m: nat)
    requires WellFormed(img) && HasShell(img) && Alone(img, a, k) && 0 < k < MAX_PROCESSES && |junk| == ELF_BYTES
    requires var e := Execute(SHELL, junk, ctx);
             Running(a) && Enabled(img, a, e) && Safe(a, e) && Crowds(img, Step(img, a, e), es, m)
    ensures Crowds(img, a, [Execute(SHELL, junk, ctx)] + es, m)
  {
    AloneRuns(img, a, k);
    hide Step, StateOk, PidsOk, Safe, Enabled, Alone, HasShell;
    RunFirst(img, a, Execute(SHELL, junk, ctx), es);
  }

  lemma {:induction false} MoreShells(img: Image, a: State, k: nat, n: nat, junk: seq<byte>, ctx: Ctx)
    requires WellFormed(img) && HasShell(img) && Alone(img, a, k) && 0 < k && k + n <= MAX_PROCESSES
    requires |junk| == ELF_BYTES
    ensures Crowds(img, a, Shells(n, junk, ctx), k + n)
    decreases n
  {
    hide Step, Alone, StateOk, PidsOk, Enabled, Safe, WellFormed, HasShell, Crowds;
    AloneRuns(img, a, k);
    if n == 0 {
      CrowdsNone(img, a, k);
    } else {
      var e := Execute(SHELL, junk, ctx);
      OneMore(img, a, k, junk, ctx);
      MoreShells(img, Step(img, a, e), k + 1, n - 1, junk, ctx);
      OneMoreCrowds(img, a, k, junk, ctx, Shells(n - 1, junk, ctx), k + n);
    }
  }

  /** Five more shells on the first terminal take every pid: the next tick, which is the second
      terminal's first start, finds none. */
  lemma FirstStartFails(img: Image, a: State, junk: seq<byte>, ctx: Ctx)
    requires WellFormed(img) && HasShell(img) && StateOk(img, a) && PidsOk(a) && |junk| == ELF_BYTES
    requires a.active == 0 && AllPids(a) == [[0], [], []]
    ensures Possible(img, a, Shells(5, junk, ctx))
    ensures var b := Run(img, a, Shells(5, junk, ctx));
            Enabled(img, b, Tick(ctx)) && !Safe(b, Tick(ctx)) && OutcomeOf(img, b, Tick(ctx)) == FellThrough(ctx)
  {
    OneShell(img, a);
    hide StateOk, PidsOk, Alone, WellFormed, HasShell, Possible, Run, Enabled, Safe, OutcomeOf, AllPids;
    MoreShells(img, a, 1, 5, junk, ctx);
    FullTick(img, Run(img, a, Shells(5, junk, ctx)), ctx);
  }

  lemma OneShell(img: Image, a: State)
    requires Sized(img) && StateOk(img, a) && PidsOk(a) && a.active == 0 && AllPids(a) == [[0], [], []]
    ensures Alone(img, a, 1) && StateOk(img, a) && PidsOk(a)
  {
    assert [0] == Upto(1);
  }

  lemma FullTick(img: Image, b: State, ctx: Ctx)
    requires WellFormed(img) && Alone(img, b, MAX_PROCESSES)
    ensures Enabled(img, b, Tick(ctx)) && !Safe(b, Tick(ctx)) && OutcomeOf(img, b, Tick(ctx)) == FellThrough(ctx)
  {
    FreeAfter(MAX_PROCESSES);
    AloneRuns(img, b, MAX_PROCESSES);
    assert |Pids(b.terms[1].procs)| == |b.terms[1].procs|;
    hide StateOk, PidsOk, Used, LowestFree;
  }

  /** From power-on to that point: five commands at the first prompt, and no tick before them. */
  method FillTheTable(layout: Layout, memory: seq<Pcb>, junk: seq<byte>, ctx: Ctx) returns (k: K.Kernel)
    requires layout.Valid() && |junk| == ELF_BYTES
    requires |memory| == MAX_PROCESSES && forall p :: 0 <= p < MAX_PROCESSES ==> |memory[p].fds| == MAX_FDS
    ensures k.currPid == -1 && !k.Invariant()
  {
    hide Possible, Foreseen, AllPids, StateOk, PidsOk, Enabled, Safe, WellFormed, HasShell, Inv, Abs, Shells, BootVars,
      Maps, Booting, SmallImage.Image;
    SmallImage.ShellImage();
    k := new K.Kernel(SmallImage.Image(), layout, memory);
    var o := k.Entry(junk, ctx);
    ghost var a := k.Now();
    FirstStartFails(k.image, a, junk, ctx);
    var es := Shells(5, junk, ctx);
    ForeseenNext(k.image, a, es, Tick(ctx));
    StopsHere(k.image, a, es, Tick(ctx));
    var n := k.Run(es + [Tick(ctx)], junk);
  }

  lemma StopsHere(img: Image, a: State, es: seq<Event>, e: Event)
    requires WellFormed(img) && Possible(img, a, es) && !Safe(Run(img, a, es), e)
    ensures !Possible(img, a, es + [e])
  {
    assert (es + [e])[..|es|] == es && (es + [e])[|es|] == e;
    if Possible(img, a, es + [e]) {
      SafePrefix(img, a, es + [e], |es|);
    }
  }

  /** On the broken image: the shell starts, its `execute` of `bad` fails, and the shell then
      goes on as a process whose slot is free. */
  method LoseTheCaller(layout: Layout, memory: seq<Pcb>, junk: seq<byte>, ctx: Ctx) returns (k: K.Kernel, o: Outcome)
    requires layout.Valid() && |junk| == ELF_BYTES
    requires |memory| == MAX_PROCESSES && forall p :: 0 <= p < MAX_PROCESSES ==> |memory[p].fds| == MAX_FDS
    ensures o == Returned(FAILED)
    ensures 0 <= k.currPid < |k.pidarray| && !k.pidarray[k.currPid]
  {
    hide Structure, TermOk, Maps, Resolve, InDomain, CommandName, CommandArgs, Used, LowestFree, BootVars, Sized,
      BrokenImage.Image;
    ShellCommand();
    BrokenImage.BadCommand();
    BrokenImage.BadMissesBlock(junk);
    k := new K.Kernel(BrokenImage.Image(), layout, memory);
    ghost var was := k.View();
    BootStructure(k.image, was);
    o := k.LoadAndStart(SHELL, junk, ctx);
    ghost var shell := k.View();
    StartInv(k.image, layout, was, shell, 0, ctx, []);
    o := k.LoadAndStart(BrokenImage.BAD, junk, ctx);
    SecondPid(shell);
    FailedExecute(k.image, layout, shell, k.View(), BrokenImage.BAD, junk, ctx, o);
  }

  lemma SecondPid(r: Vars)
    requires r.stacks == [[0], [], []]
    ensures LowestFree(Used(r.stacks), 0) == 1
  {
    assert [0] == Upto(1);
    FreeAfter(1);
  }

  /** On the same image: the shell's `open` of `bad` fails, and descriptor 2, which was closed,
      is then marked open on a regular file. */
  method LeakDescriptor(layout: Layout, memory: seq<Pcb>, junk: seq<byte>, ctx: Ctx) returns (k: K.Kernel, r: int)
    requires layout.Valid() && |junk| == ELF_BYTES
    requires |memory| == MAX_PROCESSES && forall p :: 0 <= p < MAX_PROCESSES ==> |memory[p].fds| == MAX_FDS
    ensures r == -1 && k.currPid == 0 && |k.pcbs| == MAX_PROCESSES && |k.pcbs[0].fds| == MAX_FDS
    ensures k.pcbs[0].fds[2].open && k.pcbs[0].fds[2].ftable == RegularTable
  {
    hide Structure, TermOk, Maps, Resolve, InDomain, CommandName, CommandArgs, Used, LowestFree, BootVars, Sized,
      BrokenImage.Image, InitFds, Openable, Refusal, Lookup;
    ShellCommand();
    BrokenImage.BadMissesBlock(junk);
    BrokenImage.BadIsRefused();
    k := new K.Kernel(BrokenImage.Image(), layout, memory);
    ghost var was := k.View();
    BootStructure(k.image, was);
    var o := k.LoadAndStart(SHELL, junk, ctx);
    FreshTable(was.pcbs[0].fds);
    ghost var shell := k.View();
    hide OpenEffect, StartEffect, ExecEffect;
    r := k.DriverOpen(BrokenImage.BAD, U32(junk, 0));
    BadLeaks(shell, k.View(), U32(junk, 0), r);
  }

  /** What a failing `open` of `bad` leaves of a new process's descriptors. */
  lemma BadLeaks(r: Vars, q: Vars, word: nat, value: int)
    requires Sized(BrokenImage.Image()) && Shape(r) && r.currPid == 0 && word < 0x1_0000_0000
    requires FirstFree(r.pcbs[0].fds, 0) == 2 && OpenEffect(BrokenImage.Image(), r, q, BrokenImage.BAD, word, value)
    ensures value == -1 && q.currPid == 0 && |q.pcbs| == MAX_PROCESSES && |q.pcbs[0].fds| == MAX_FDS
    ensures q.pcbs[0].fds[2].open && q.pcbs[0].fds[2].ftable == RegularTable
  {
    hide Sized, BrokenImage.Image, Openable, Refusal, Lookup, TermOk;
    BrokenImage.BadIsRefused();
  }

  lemma FreshTable(fds: seq<Fd>)
    requires |fds| == MAX_FDS
    ensures |InitFds(fds)| == MAX_FDS && FirstFree(InitFds(fds), 0) == 2
  {
    assert InitFds(fds)[0].open && InitFds(fds)[1].open && !InitFds(fds)[2].open;
  }
}
