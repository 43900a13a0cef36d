/** Properties of whole runs: every interleaving of system calls, keys, clock interrupts,
    exceptions and scheduler ticks. */
module Runs {
  import opened CInt
  import opened FileSystem
  import opened Programs
  import opened Terminals
  import opened Machine
  import opened MachineFacts
  import opened Stacks

  /** Every event of the run can happen and keeps a process on the processor. */
  ghost predicate Possible(img: Image, a: State, es: seq<Event>)
    requires WellFormed(img)
    decreases |es|
  {
    && StateOk(img, a)
    && PidsOk(a)
    && Running(a)
    && (es != [] ==>
          && Enabled(img, a, es[0])
          && Safe(a, es[0])
          && Possible(img, Step(img, a, es[0]), es[1..]))
  }

  ghost function Run(img: Image, a: State, es: seq<Event>): (b: State)
    requires WellFormed(img) && Possible(img, a, es)
    ensures StateOk(img, b) && PidsOk(b) && Running(b)
    decreases |es|
  {
    if es == [] then a else Run(img, Step(img, a, es[0]), es[1..])
  }

  /** Every event can happen, as long as each tick before it found a process to run. */
  ghost predicate Foreseen(img: Image, a: State, es: seq<Event>)
    requires WellFormed(img)
    decreases |es|
  {
    && StateOk(img, a)
    && PidsOk(a)
    && Running(a)
    && (es != [] ==>
          && Enabled(img, a, es[0])
          && (Safe(a, es[0]) ==> Foreseen(img, Step(img, a, es[0]), es[1..])))
  }

  lemma RunOne(img: Image, a: State, e: Event)
    requires WellFormed(img) && StateOk(img, a) && PidsOk(a) && Running(a) && Enabled(img, a, e)
    ensures Foreseen(img, a, [e])
    ensures Safe(a, e) ==> Possible(img, a, [e]) && Run(img, a, [e]) == Step(img, a, e)
  {
    hide Step, Safe;
    StepKeepsState(img, a, e);
    StepKeepsPids(img, a, e);
  }

  lemma {:induction false} RunNext(img: Image, a: State, es: seq<Event>, e: Event)
    requires WellFormed(img) && Possible(img, a, es) && Enabled(img, Run(img, a, es), e)
    ensures Safe(Run(img, a, es), e) ==>
              Possible(img, a, es + [e]) && Run(img, a, es + [e]) == Step(img, Run(img, a, es), e)
    decreases |es|
  {
    hide Step, StateOk, PidsOk, Safe;
    if es != [] {
      assert (es + [e])[1..] == es[1..] + [e];
      RunNext(img, Step(img, a, es[0]), es[1..], e);
    } else {
      assert es + [e] == [e];
      RunOne(img, a, e);
    }
  }

  lemma RunFirst(img: Image, a: State, e: Event, es: seq<Event>)
    requires WellFormed(img) && StateOk(img, a) && PidsOk(a) && Running(a) && Enabled(img, a, e) && Safe(a, e)
    requires Possible(img, Step(img, a, e), es)
    ensures Possible(img, a, [e] + es) && Run(img, a, [e] + es) == Run(img, Step(img, a, e), es)
  {
    hide Step, StateOk, PidsOk, Safe, Enabled;
    assert ([e] + es)[1..] == es;
  }

  /** A possible run is safe at each of its events. */
  lemma {:induction false} SafePrefix(img: Image, a: State, es: seq<Event>, n: nat)
    requires WellFormed(img) && Possible(img, a, es) && n < |es|
    ensures Possible(img, a, es[..n]) && Safe(Run(img, a, es[..n]), es[n])
    decreases |es|
  {
    hide Step, StateOk, PidsOk, Safe;
    if n > 0 {
      assert es[..n][0] == es[0] && es[..n][1..] == es[1..][..n - 1];
      SafePrefix(img, Step(img, a, es[0]), es[1..], n - 1);
    }
  }

  /** A possible run and any event that can come then. */
  lemma {:induction false} ForeseenNext(img: Image, a: State, es: seq<Event>, e: Event)
    requires WellFormed(img) && Possible(img, a, es) && Enabled(img, Run(img, a, es), e)
    ensures Foreseen(img, a, es + [e])
    decreases |es|
  {
    hide Step, StateOk, PidsOk, Safe;
    if es != [] {
      assert (es + [e])[1..] == es[1..] + [e];
      ForeseenNext(img, Step(img, a, es[0]), es[1..], e);
    } else {
      assert es + [e] == [e];
      RunOne(img, a, e);
    }
  }

  /** The first `n` events have led to `now`. */
  ghost predicate Reached(img: Image, a: State, es: seq<Event>, n: nat, now: State)
    requires WellFormed(img)
  {
    && n <= |es|
    && Possible(img, a, es[..n])
    && now == Run(img, a, es[..n])
    && Foreseen(img, now, es[n..])
  }

  lemma ReachedStart(img: Image, a: State, es: seq<Event>)
    requires WellFormed(img) && Foreseen(img, a, es)
    ensures Reached(img, a, es, 0, a)
  {
    assert es[..0] == [] && es[0..] == es;
  }

  /** The next event is a step, or a tick that stops the run. */
  lemma ReachedNext(img: Image, a: State, es: seq<Event>, n: nat, now: State)
    requires WellFormed(img) && Reached(img, a, es, n, now) && n < |es|
    ensures StateOk(img, now) && Enabled(img, now, es[n])
    ensures Safe(now, es[n]) ==> Reached(img, a, es, n + 1, Step(img, now, es[n]))
    ensures !Safe(now, es[n]) ==> StopsAt(img, a, es, n) && !Possible(img, a, es)
  {
    hide Step, StateOk, PidsOk, Safe;
    assert es[n..][0] == es[n] && es[n..][1..] == es[n + 1..];
    assert es[..n + 1] == es[..n] + [es[n]];
    RunNext(img, a, es[..n], es[n]);
    if Possible(img, a, es) {
      SafePrefix(img, a, es, n);
    }
  }

  lemma ReachedEnd(img: Image, a: State, es: seq<Event>, now: State)
    requires WellFormed(img) && Reached(img, a, es, |es|, now)
    ensures Possible(img, a, es) && now == Run(img, a, es)
  {
    assert es[..|es|] == es;
  }

  /** Event `n` is a tick that starts a terminal for the first time with no free pid. */
  ghost predicate StopsAt(img: Image, a: State, es: seq<Event>, n: nat)
    requires WellFormed(img)
  {
    && n < |es|
    && Possible(img, a, es[..n])
    && !Safe(Run(img, a, es[..n]), es[n])
  }

  lemma OnlyTicksFail(a: State, e: Event)
    requires |a.terms| == MAX_TERMINALS
    ensures !e.Tick? ==> Safe(a, e)
  {
  }

  // ---------- independence ----------

  /** Everything that a run delivers to terminal `t`, in order. */
  ghost function Trace(img: Image, a: State, es: seq<Event>, t: nat): (ls: seq<LEvent>)
    requires WellFormed(img) && Possible(img, a, es) && t < MAX_TERMINALS
    ensures AllOk(img, ls)
    decreases |es|
  {
    if es == [] then [] else
    LocalOk(img, a, es[0], t);
    Local(img, a, es[0], t) + Trace(img, Step(img, a, es[0]), es[1..], t)
  }

  lemma StepTerminal(img: Image, a: State, e: Event, t: nat)
    requires WellFormed(img) && StateOk(img, a) && Enabled(img, a, e) && t < MAX_TERMINALS
    ensures Step(img, a, e).terms[t] == TerminalAfter(img, a, e, t)
  {
  }

  lemma StepThen(img: Image, a: State, e: Event, t: nat, ls: seq<LEvent>)
    requires WellFormed(img) && StateOk(img, a) && Enabled(img, a, e) && t < MAX_TERMINALS
    requires AllOk(img, ls)
    ensures AllOk(img, Local(img, a, e, t) + ls) && TerminalOk(img, TerminalAfter(img, a, e, t))
    ensures LRun(img, a.terms[t], Local(img, a, e, t) + ls) == LRun(img, TerminalAfter(img, a, e, t), ls)
  {
    LocalOk(img, a, e, t);
    LRunAppend(img, a.terms[t], Local(img, a, e, t), ls);
  }

  /** In every run, each terminal's processes, descriptors, screen, cursor, line and clock are
      those of a private terminal that saw only the events delivered to it. */
  lemma {:induction false} TerminalsAreIndependent(img: Image, a: State, es: seq<Event>, t: nat)
    requires WellFormed(img) && Possible(img, a, es) && t < MAX_TERMINALS
    ensures Run(img, a, es).terms[t] == LRun(img, a.terms[t], Trace(img, a, es, t))
    decreases |es|
  {
    if es != [] {
      var b := Step(img, a, es[0]);
      TerminalsAreIndependent(img, b, es[1..], t);
      StepTerminal(img, a, es[0], t);
      StepThen(img, a, es[0], t, Trace(img, b, es[1..], t));
    }
  }

  lemma LRunOne(img: Image, v: Terminal, l: LEvent)
    requires WellFormed(img) && TerminalOk(img, v) && LEventOk(img, l)
    ensures LRun(img, v, [l]) == LStep(img, v, l)
  {
    LStepOk(img, v, l);
    assert LRun(img, LStep(img, v, l), []) == LStep(img, v, l);
  }

  /** A terminal that is neither running, nor shown, nor switched to, sees clock interrupts
      only. */
  lemma OthersUndisturbed(img: Image, a: State, e: Event, t: nat)
    requires WellFormed(img) && StateOk(img, a) && Enabled(img, a, e) && t < MAX_TERMINALS
    requires t != a.active && (e.Key? ==> t != a.visible) && (e.Tick? ==> t != Next(a))
    ensures Step(img, a, e).terms[t]
            == if e.ClockInterrupt? then LStep(img, a.terms[t], LClock) else a.terms[t]
  {
    StepTerminal(img, a, e, t);
    LRunOne(img, a.terms[t], LClock);
  }

  // ---------- processes ----------

  /** In every run the three stacks hold at most six processes, no pid twice. */
  lemma AtMostSixProcesses(img: Image, a: State, es: seq<Event>)
    requires WellFormed(img) && Possible(img, a, es)
    ensures PidsOk(Run(img, a, es)) && |Used(AllPids(Run(img, a, es)))| <= MAX_PROCESSES
  {
    AtMostSix(AllPids(Run(img, a, es)));
  }

  /** The event ends the leaf process of terminal `t`. */
  predicate Kills(a: State, e: Event, t: nat)
    requires |a.terms| == MAX_TERMINALS && t < MAX_TERMINALS
  {
    || ((e.Halt? || e.Exception?) && t == a.active)
    || (e.Tick? && t == Next(a) && t != a.active && a.terms[t].procs != [] && a.terms[t].halt)
  }

  /** Process number `i` of terminal `t` is not ended during the run. */
  ghost predicate Survives(img: Image, a: State, es: seq<Event>, t: nat, i: nat)
    requires WellFormed(img) && Possible(img, a, es) && t < MAX_TERMINALS
    decreases |es|
  {
    && i < |a.terms[t].procs|
    && (es != [] ==>
          && !(Kills(a, es[0], t) && |a.terms[t].procs| == i + 1)
          && Survives(img, Step(img, a, es[0]), es[1..], t, i))
  }

  /** `q` is the same process as `p`, which may have used its descriptors since. */
  predicate SameProcess(p: Proc, q: Proc) {
    p.pid == q.pid && p.caller == q.caller && p.args == q.args
  }

  ghost predicate Kept(before: seq<Proc>, after: seq<Proc>, i: nat) {
    && i < |before| && i < |after|
    && after[..i] == before[..i]
    && SameProcess(before[i], after[i])
  }

  lemma LStepKeeps(img: Image, v: Terminal, l: LEvent, i: nat)
    requires WellFormed(img) && TerminalOk(img, v) && LEventOk(img, l)
    requires i < |v.procs| && !(l.LPop? && |v.procs| == i + 1)
    ensures Kept(v.procs, LStep(img, v, l).procs, i)
  {
    if l.LSys? {
      ServeKeeps(img, v, l.c, i);
    }
  }

  lemma ServeKeeps(img: Image, v: Terminal, c: Sys, i: nat)
    requires WellFormed(img) && TerminalOk(img, v) && i < |v.procs|
    ensures Kept(v.procs, Serve(img, v, c).0.procs, i)
  {
    ServeProcs(img, v, c);
    hide Serve, TerminalOk, WellFormed;
  }

  lemma KeptTrans(p: seq<Proc>, q: seq<Proc>, r: seq<Proc>, i: nat)
    requires Kept(p, q, i) && Kept(q, r, i)
    ensures Kept(p, r, i)
  {
  }

  /** No event of the list ends process number `i`. */
  ghost predicate NoneEnds(img: Image, v: Terminal, ls: seq<LEvent>, i: nat)
    requires WellFormed(img) && TerminalOk(img, v) && AllOk(img, ls)
    decreases |ls|
  {
    ls == [] || (
      && !(ls[0].LPop? && |v.procs| == i + 1)
      && (LStepOk(img, v, ls[0]); NoneEnds(img, LStep(img, v, ls[0]), ls[1..], i)))
  }

  lemma {:induction false} LRunKeeps(img: Image, v: Terminal, ls: seq<LEvent>, i: nat)
    requires WellFormed(img) && TerminalOk(img, v) && AllOk(img, ls)
    requires i < |v.procs| && NoneEnds(img, v, ls, i)
    ensures Kept(v.procs, LRun(img, v, ls).procs, i)
    decreases |ls|
  {
    if ls != [] {
      LStepOk(img, v, ls[0]);
      LStepKeeps(img, v, ls[0], i);
      var w := LStep(img, v, ls[0]);
      LRunKeeps(img, w, ls[1..], i);
      KeptTrans(v.procs, w.procs, LRun(img, v, ls).procs, i);
    }
  }

  lemma NoPops(img: Image, v: Terminal, ls: seq<LEvent>, i: nat)
    requires WellFormed(img) && TerminalOk(img, v) && AllOk(img, ls)
    requires forall k :: 0 <= k < |ls| ==> !ls[k].LPop?
    ensures NoneEnds(img, v, ls, i)
    decreases |ls|
  {
    if ls != [] {
      LStepOk(img, v, ls[0]);
      NoPops(img, LStep(img, v, ls[0]), ls[1..], i);
    }
  }

  lemma NoneEndsCons(img: Image, v: Terminal, l: LEvent, ls: seq<LEvent>, i: nat)
    requires WellFormed(img) && TerminalOk(img, v) && LEventOk(img, l) && AllOk(img, ls)
    requires !(l.LPop? && |v.procs| == i + 1) && TerminalOk(img, LStep(img, v, l))
    requires NoneEnds(img, LStep(img, v, l), ls, i)
    ensures AllOk(img, [l] + ls) && NoneEnds(img, v, [l] + ls, i)
  {
    assert ([l] + ls)[1..] == ls;
  }

  /** The only event that ends a process is its own kill. */
  lemma KillEndsLeafOnly(img: Image, a: State, v: Terminal, t: nat, ctx: Ctx, i: nat)
    requires WellFormed(img) && TerminalOk(img, v) && |a.terms| == MAX_TERMINALS && t < MAX_TERMINALS
    requires a.terms[t].procs != [] && |v.procs| == |a.terms[t].procs| && i < |v.procs| && |v.procs| != i + 1
    ensures AllOk(img, KillEvents(a, t, ctx)) && NoneEnds(img, v, KillEvents(a, t, ctx), i)
  {
    KillEventsOk(img, a, t, ctx);
    LStepOk(img, v, LPop);
    assert KillEvents(a, t, ctx) == [LPop];
    NoneEndsCons(img, v, LPop, [], i);
    assert [LPop] + [] == [LPop];
  }

  lemma LocalEnds(img: Image, a: State, e: Event, t: nat, i: nat)
    requires WellFormed(img) && StateOk(img, a) && Enabled(img, a, e) && t < MAX_TERMINALS
    requires i < |a.terms[t].procs| && !(Kills(a, e, t) && |a.terms[t].procs| == i + 1)
    ensures AllOk(img, Local(img, a, e, t)) && NoneEnds(img, a.terms[t], Local(img, a, e, t), i)
  {
    LocalOk(img, a, e, t);
    var v := a.terms[t];
    if !Kills(a, e, t) {
      QuietLocal(img, a, e, t);
      NoPops(img, v, Local(img, a, e, t), i);
    } else if e.Halt? {
      KillEndsLeafOnly(img, a, v, t, e.ctx, i);
    } else if e.Exception? {
      LStepOk(img, v, LPrint(e.msg));
      KillEndsLeafOnly(img, a, LStep(img, v, LPrint(e.msg)), t, e.ctx, i);
      NoneEndsCons(img, v, LPrint(e.msg), KillEvents(a, t, e.ctx), i);
    } else {
      LStepOk(img, v, LHalt(false));
      KillEndsLeafOnly(img, a, LStep(img, v, LHalt(false)), t, e.ctx, i);
      NoneEndsCons(img, v, LHalt(false), KillEvents(a, t, e.ctx), i);
    }
  }

  lemma QuietLocal(img: Image, a: State, e: Event, t: nat)
    requires Sized(img) && Shaped(a) && EventOk(e) && t < MAX_TERMINALS && !Kills(a, e, t)
    ensures forall k :: 0 <= k < |Local(img, a, e, t)| ==> !Local(img, a, e, t)[k].LPop?
  {
    if e.Key? {
      var ls := KeyMeans(a.mods, e.scan).local;
      forall k | 0 <= k < |ls|
        ensures !ls[k].LPop?
      {
        assert ls[k] in ls;
      }
    }
  }

  /** While a process lives, through every interleaving, it keeps its pid, its arguments and
      its way back to its parent; and every ancestor keeps all of its state, descriptors
      included. */
  lemma {:induction false} ProcessSurvives(img: Image, a: State, es: seq<Event>, t: nat, i: nat)
    requires WellFormed(img) && Possible(img, a, es) && t < MAX_TERMINALS
    requires Survives(img, a, es, t, i)
    ensures Kept(a.terms[t].procs, Run(img, a, es).terms[t].procs, i)
    decreases |es|
  {
    if es != [] {
      var b := Step(img, a, es[0]);
      LocalEnds(img, a, es[0], t, i);
      LRunKeeps(img, a.terms[t], Local(img, a, es[0], t), i);
      StepTerminal(img, a, es[0], t);
      ProcessSurvives(img, b, es[1..], t, i);
      KeptTrans(a.terms[t].procs, b.terms[t].procs, Run(img, a, es).terms[t].procs, i);
    }
  }

  /** The exit code a kill hands to the parent. */
  function ExitCode(e: Event): nat {
    if e.Halt? then e.status % 0x100 else KILLED
  }

  /** A program that halts hands over the low byte of its status; one that is killed hands over a
      code that no halt can. */
  lemma ExitCodeIs(e: Event)
    ensures e.Halt? ==> ExitCode(e) < 0x100 && (e.status < 0x100 ==> ExitCode(e) == e.status)
    ensures e.Halt? ==> (e.status - ExitCode(e)) % 0x100 == 0
    ensures !e.Halt? ==> ExitCode(e) == 256
  {
  }

  /** `execute` returns: whatever a program and its own children do, and whatever happens on
      the other terminals, when the program at last ends its parent resumes inside its
      `execute` call with the exit code, and the stack is as it was at that call, every
      descriptor included. */
  lemma ExecuteReturns(img: Image, a: State, exec: Event, es: seq<Event>, end: Event)
    requires WellFormed(img) && StateOk(img, a) && Enabled(img, a, exec) && exec.Execute?
    requires ExecPid(img, a, exec.cmd, exec.junk) != -1
    requires Possible(img, Step(img, a, exec), es)
    requires Survives(img, Step(img, a, exec), es, a.active, |a.terms[a.active].procs|)
    requires var b := Run(img, Step(img, a, exec), es);
             && Enabled(img, b, end) && Kills(b, end, a.active)
             && |b.terms[a.active].procs| == |a.terms[a.active].procs| + 1
    ensures var b := Run(img, Step(img, a, exec), es);
            && OutcomeOf(img, b, end) == ExecReturned(exec.ctx, ExitCode(end))
            && Step(img, b, end).terms[a.active].procs == a.terms[a.active].procs
  {
    var t := a.active;
    var a1 := Step(img, a, exec);
    ExecPushes(img, a, exec);
    ProcessSurvives(img, a1, es, t, |a.terms[t].procs|);
    var b := Run(img, a1, es);
    KeptMeans(a.terms[t].procs, Child(img, a, exec), b.terms[t].procs);
    KillPops(img, b, end, t);
  }

  /** The process that a successful `execute` starts. */
  function Child(img: Image, a: State, exec: Event): Proc
    requires Sized(img) && Shaped(a) && exec.Execute? && EventOk(exec)
  {
    Proc(ExecPid(img, a, exec.cmd, exec.junk), exec.ctx, INITIAL_TABLE, CommandArgs(exec.cmd))
  }

  lemma ExecPushes(img: Image, a: State, exec: Event)
    requires WellFormed(img) && StateOk(img, a) && Enabled(img, a, exec) && exec.Execute?
    requires ExecPid(img, a, exec.cmd, exec.junk) != -1
    ensures Step(img, a, exec).terms[a.active].procs == a.terms[a.active].procs + [Child(img, a, exec)]
  {
    hide Step, AllStored, NextMapped, Resolve, Used, LowestFree, CommandName, CommandArgs;
    StepTerminal(img, a, exec, a.active);
    LRunOne(img, a.terms[a.active], LPush(Child(img, a, exec)));
  }

  lemma KeptMeans(parents: seq<Proc>, child: Proc, after: seq<Proc>)
    requires Kept(parents + [child], after, |parents|) && |after| == |parents| + 1
    ensures after[..|parents|] == parents && SameProcess(child, after[|parents|])
  {
    assert (parents + [child])[..|parents|] == parents;
  }

  lemma KillPopsProcs(img: Image, b: State, e: Event, t: nat)
    requires WellFormed(img) && StateOk(img, b) && Enabled(img, b, e) && t < MAX_TERMINALS
    requires Kills(b, e, t) && |b.terms[t].procs| > 1
    ensures TerminalAfter(img, b, e, t).procs == b.terms[t].procs[..|b.terms[t].procs| - 1]
  {
    var v := b.terms[t];
    hide Resolve, WellFormed, AllPids, Used, LowestFree;
    if e.Halt? {
      LRunOne(img, v, LPop);
    } else {
      var first := if e.Exception? then LPrint(e.msg) else LHalt(false);
      assert Local(img, b, e, t) == [first] + [LPop];
      LStepOk(img, v, first);
      hide Local, TerminalOk;
      LRunOne(img, v, first);
      LRunAppend(img, v, [first], [LPop]);
      LRunOne(img, LStep(img, v, first), LPop);
    }
  }

  lemma KillPops(img: Image, b: State, e: Event, t: nat)
    requires WellFormed(img) && StateOk(img, b) && Enabled(img, b, e) && t < MAX_TERMINALS
    requires Kills(b, e, t) && |b.terms[t].procs| > 1
    ensures Step(img, b, e).terms[t].procs == b.terms[t].procs[..|b.terms[t].procs| - 1]
    ensures OutcomeOf(img, b, e) == ExecReturned(b.terms[t].Leaf().caller, ExitCode(e))
  {
    StepTerminal(img, b, e, t);
    KillPopsProcs(img, b, e, t);
    hide Step, TerminalAfter, WellFormed, TerminalOk, RespawnPid, ShellProgram;
  }
}
