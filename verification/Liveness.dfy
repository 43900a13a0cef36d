/** What the scheduler's ticks bring about within three of them, whatever else happens. */
module Liveness {
  import opened CInt
  import opened FileSystem
  import opened Programs
  import opened Terminals
  import opened Machine
  import opened MachineFacts
  import opened Runs
  import opened Stacks

  /** The number of ticks in a run. */
  function Ticks(es: seq<Event>): nat {
    if es == [] then 0 else (if es[0].Tick? then 1 else 0) + Ticks(es[1..])
  }

  /** The number of ticks until terminal `t` is switched to: 1, 2 or 3. */
  function Distance(active: nat, t: nat): nat
    requires active < MAX_TERMINALS && t < MAX_TERMINALS
  {
    if t > active then t - active else t + MAX_TERMINALS - active
  }

  /** Each tick brings a terminal one closer; its turn is at distance 1. */
  lemma Turn(active: nat, t: nat)
    requires active < MAX_TERMINALS && t < MAX_TERMINALS
    ensures var n := (active + 1) % MAX_TERMINALS;
            && (n == t <==> Distance(active, t) == 1)
            && (n != t ==> Distance(n, t) == Distance(active, t) - 1)
  {
  }

  /** The terminal that runs `n` ticks later. */
  function Later(active: nat, n: nat): nat {
    (active + n) % MAX_TERMINALS
  }

  lemma OneStepLater(active: nat, ticks: nat, n: nat)
    requires ticks <= 1 && active < MAX_TERMINALS
    ensures Later(if ticks == 1 then (active + 1) % MAX_TERMINALS else active, n) == Later(active, ticks + n)
    ensures Later(active, 0) == active
  {
  }

  lemma StepShared(img: Image, a: State, e: Event)
    requires WellFormed(img) && StateOk(img, a) && Enabled(img, a, e)
    ensures Step(img, a, e).active == (if e.Tick? then Next(a) else a.active)
    ensures Step(img, a, e).visible == (if e.Tick? then VisibleAfterTick(a) else a.visible)
  {
  }

  /** Round robin: the running terminal is a function of the number of ticks. */
  lemma {:induction false} RoundRobin(img: Image, a: State, es: seq<Event>)
    requires WellFormed(img) && Possible(img, a, es)
    ensures Run(img, a, es).active == Later(a.active, Ticks(es))
    decreases |es|
  {
    hide Step, PidsOk, WellFormed;
    OneStepLater(a.active, 0, 0);
    if es != [] {
      RoundRobin(img, Step(img, a, es[0]), es[1..]);
      StepShared(img, a, es[0]);
      OneStepLater(a.active, if es[0].Tick? then 1 else 0, Ticks(es[1..]));
    }
  }

  /** The request to show terminal `t` stands throughout the run. */
  ghost predicate Requested(img: Image, a: State, es: seq<Event>, t: nat)
    requires WellFormed(img) && Possible(img, a, es)
    decreases |es|
  {
    a.target == t && (es != [] ==> Requested(img, Step(img, a, es[0]), es[1..], t))
  }

  /** A standing request is met when its terminal's turn comes, at the third tick at the
      latest, and then stays met. */
  lemma {:induction false} RequestIsMet(img: Image, a: State, es: seq<Event>, t: nat)
    requires WellFormed(img) && Possible(img, a, es) && t < MAX_TERMINALS
    requires Requested(img, a, es, t)
    ensures a.visible == t || Ticks(es) >= Distance(a.active, t) ==> Run(img, a, es).visible == t
    decreases |es|
  {
    hide Step, PidsOk, WellFormed, AllPids;
    if es != [] {
      StepShared(img, a, es[0]);
      Turn(a.active, t);
      RequestIsMet(img, Step(img, a, es[0]), es[1..], t);
    }
  }

  lemma WithinThreeTicks(img: Image, a: State, es: seq<Event>, t: nat)
    requires WellFormed(img) && Possible(img, a, es) && t < MAX_TERMINALS
    requires Requested(img, a, es, t) && Ticks(es) >= 3
    ensures Run(img, a, es).visible == t
  {
    RequestIsMet(img, a, es, t);
  }

  // ---------- Ctrl-C ----------

  /** Some tick of the run ends the leaf process of terminal `t`. */
  ghost predicate Interrupted(img: Image, a: State, es: seq<Event>, t: nat)
    requires WellFormed(img) && Possible(img, a, es) && t < MAX_TERMINALS
    decreases |es|
  {
    es != [] && ((es[0].Tick? && Kills(a, es[0], t)) || Interrupted(img, Step(img, a, es[0]), es[1..], t))
  }

  /** Local events other than the tick's own never clear a pending Ctrl-C. */
  predicate KeepsHalt(l: LEvent) {
    l != LHalt(false)
  }

  lemma {:induction false} LRunHalt(img: Image, v: Terminal, ls: seq<LEvent>)
    requires WellFormed(img) && TerminalOk(img, v) && AllOk(img, ls)
    requires forall k :: 0 <= k < |ls| ==> KeepsHalt(ls[k])
    ensures v.halt ==> LRun(img, v, ls).halt
    decreases |ls|
  {
    if ls != [] {
      LStepOk(img, v, ls[0]);
      LStepHalt(img, v, ls[0]);
      LRunHalt(img, LStep(img, v, ls[0]), ls[1..]);
    }
  }

  lemma LStepHalt(img: Image, v: Terminal, l: LEvent)
    requires WellFormed(img) && TerminalOk(img, v) && LEventOk(img, l) && KeepsHalt(l)
    ensures v.halt ==> LStep(img, v, l).halt
  {
  }

  lemma LocalKeepsHalt(img: Image, a: State, e: Event, t: nat)
    requires Sized(img) && Shaped(a) && EventOk(e) && t < MAX_TERMINALS
    requires !(e.Tick? && Kills(a, e, t))
    ensures forall k :: 0 <= k < |Local(img, a, e, t)| ==> KeepsHalt(Local(img, a, e, t)[k])
  {
    if e.Key? {
      var ls := KeyMeans(a.mods, e.scan).local;
      forall k | 0 <= k < |ls|
        ensures KeepsHalt(ls[k])
      {
        assert ls[k] in ls;
      }
    }
  }

  /** A terminal that has been started always has a process. */
  lemma StaysStarted(img: Image, a: State, e: Event, t: nat)
    requires WellFormed(img) && StateOk(img, a) && Enabled(img, a, e) && PidsOk(a) && t < MAX_TERMINALS
    requires a.terms[t].procs != []
    ensures Step(img, a, e).terms[t].procs != []
  {
    TerminalPids(img, a, e, t);
    StepTerminal(img, a, e, t);
    hide Step, WellFormed;
    NeverEmptied(img, a, e, t);
  }

  lemma NeverEmptied(img: Image, a: State, e: Event, t: nat)
    requires Sized(img) && Shaped(a) && EventOk(e) && PidsOk(a) && t < MAX_TERMINALS
    requires a.terms[t].procs != []
    ensures NextStacks(img, a, e)[t] != []
  {
    hide Used, LowestFree, StacksOk, Resolve;
    if Kills(a, e, t) {
      KilledOk(a, t);
    }
  }

  /** An event that does not serve a pending Ctrl-C leaves it pending. */
  lemma StaysPending(img: Image, a: State, e: Event, t: nat)
    requires WellFormed(img) && StateOk(img, a) && Enabled(img, a, e) && PidsOk(a) && t < MAX_TERMINALS
    requires a.terms[t].halt && a.terms[t].procs != [] && !(e.Tick? && Kills(a, e, t))
    ensures Step(img, a, e).terms[t].halt && Step(img, a, e).terms[t].procs != []
  {
    LocalOk(img, a, e, t);
    LocalKeepsHalt(img, a, e, t);
    LRunHalt(img, a.terms[t], Local(img, a, e, t));
    StepTerminal(img, a, e, t);
    StaysStarted(img, a, e, t);
  }

  /** A Ctrl-C on a started terminal takes effect at that terminal's next turn, at the third
      tick at the latest. */
  lemma {:induction false} InterruptIsServed(img: Image, a: State, es: seq<Event>, t: nat)
    requires WellFormed(img) && Possible(img, a, es) && t < MAX_TERMINALS
    requires a.terms[t].halt && a.terms[t].procs != []
    requires Ticks(es) >= Distance(a.active, t)
    ensures Interrupted(img, a, es, t)
    decreases |es|
  {
    hide Step, PidsOk, WellFormed;
    var e := es[0];
    if !(e.Tick? && Kills(a, e, t)) {
      StaysPending(img, a, e, t);
      StepShared(img, a, e);
      Turn(a.active, t);
      InterruptIsServed(img, Step(img, a, e), es[1..], t);
    }
  }

  /** The tick that serves it ends exactly the leaf of that terminal's stack, or replaces a
      lone shell by a fresh one, and leaves the other two stacks alone. */
  lemma InterruptKillsLeaf(img: Image, a: State, e: Event, t: nat)
    requires WellFormed(img) && StateOk(img, a) && Enabled(img, a, e) && PidsOk(a) && t < MAX_TERMINALS
    requires e.Tick? && Kills(a, e, t)
    ensures AllPids(Step(img, a, e)) == Killed(a, t)
    ensures |a.terms[t].procs| > 1 ==> AllPids(Step(img, a, e)) == Popped(AllPids(a), t)
    ensures |a.terms[t].procs| == 1 ==>
              exists p :: 0 <= p < MAX_PROCESSES && AllPids(Step(img, a, e)) == AllPids(a)[t := [p]]
  {
    StepStacks(img, a, e);
    if |a.terms[t].procs| == 1 {
      LoneShell(a, t);
    }
  }

  lemma LoneShell(a: State, t: nat)
    requires |a.terms| == MAX_TERMINALS && PidsOk(a) && t < MAX_TERMINALS && |a.terms[t].procs| == 1
    ensures 0 <= RespawnPid(a, t) < MAX_PROCESSES && Killed(a, t) == AllPids(a)[t := [RespawnPid(a, t)]]
  {
    var st := AllPids(a);
    RespawnCannotFail(st, t);
    assert Top(st[t]) == a.terms[t].Leaf().pid;
    assert Popped(st, t)[t] + [RespawnPid(a, t)] == [RespawnPid(a, t)];
  }

  // ---------- coming back ----------

  lemma {:induction false} LRunContext(img: Image, v: Terminal, ls: seq<LEvent>)
    requires WellFormed(img) && TerminalOk(img, v) && AllOk(img, ls)
    requires forall k :: 0 <= k < |ls| ==> !ls[k].LSave?
    ensures LRun(img, v, ls).ctx == v.ctx
    decreases |ls|
  {
    if ls != [] {
      LStepOk(img, v, ls[0]);
      assert !ls[0].LSave?;
      StepContext(img, v, ls[0]);
      LRunContext(img, LStep(img, v, ls[0]), ls[1..]);
    }
  }

  lemma StepContext(img: Image, v: Terminal, l: LEvent)
    requires WellFormed(img) && TerminalOk(img, v) && LEventOk(img, l)
    ensures LStep(img, v, l).ctx == if l.LSave? then l.ctx else v.ctx
  {
  }

  lemma LocalSaves(img: Image, a: State, e: Event, t: nat)
    requires Sized(img) && Shaped(a) && EventOk(e) && t < MAX_TERMINALS && !(e.Tick? && t == a.active)
    ensures forall k :: 0 <= k < |Local(img, a, e, t)| ==> !Local(img, a, e, t)[k].LSave?
  {
    if e.Key? {
      var ls := KeyMeans(a.mods, e.scan).local;
      forall k | 0 <= k < |ls|
        ensures !ls[k].LSave?
      {
        assert ls[k] in ls;
      }
    }
  }

  /** A terminal's saved context changes only when a tick takes the processor from it. */
  lemma ContextStep(img: Image, a: State, e: Event, t: nat)
    requires WellFormed(img) && StateOk(img, a) && Enabled(img, a, e) && t < MAX_TERMINALS
    ensures Step(img, a, e).terms[t].ctx == if e.Tick? && t == a.active then e.ctx else a.terms[t].ctx
  {
    LocalOk(img, a, e, t);
    StepTerminal(img, a, e, t);
    if e.Tick? && t == a.active {
      LRunOne(img, a.terms[t], LSave(e.ctx));
      StepContext(img, a.terms[t], LSave(e.ctx));
    } else {
      LocalSaves(img, a, e, t);
      LRunContext(img, a.terms[t], Local(img, a, e, t));
    }
  }

  /** As long as the ticks of a run do not get round to a suspended terminal, it keeps its context
      and its processes. */
  lemma {:induction false} StaysSuspended(img: Image, a: State, es: seq<Event>, t: nat)
    requires WellFormed(img) && Possible(img, a, es) && t < MAX_TERMINALS
    requires a.terms[t].procs != [] && t != a.active && Ticks(es) < Distance(a.active, t)
    ensures Run(img, a, es).terms[t].ctx == a.terms[t].ctx && Run(img, a, es).terms[t].procs != []
    decreases |es|
  {
    hide Step, PidsOk, AllPids;
    if es != [] {
      ContextStep(img, a, es[0], t);
      StaysStarted(img, a, es[0], t);
      StepShared(img, a, es[0]);
      Turn(a.active, t);
      StaysSuspended(img, Step(img, a, es[0]), es[1..], t);
    }
  }

  /** A terminal from which a tick takes the processor gets it back with the third tick, whatever
      happens in between: at the very context it was interrupted at, unless a Ctrl-C is pending. */
  lemma ComesBack(img: Image, a: State, out: Ctx, es: seq<Event>, back: Ctx)
    requires WellFormed(img) && StateOk(img, a) && Enabled(img, a, Tick(out))
    requires PidsOk(a) && Possible(img, Step(img, a, Tick(out)), es) && Ticks(es) == 1
    ensures var b := Run(img, Step(img, a, Tick(out)), es);
            && Enabled(img, b, Tick(back))
            && Step(img, b, Tick(back)).active == a.active
            && (!b.terms[a.active].halt ==> OutcomeOf(img, b, Tick(back)) == Switched(out))
            && (b.terms[a.active].halt ==> Kills(b, Tick(back), a.active))
  {
    hide Step, PidsOk, AllPids, OutcomeOf, Kills;
    var b0 := Step(img, a, Tick(out));
    Suspends(img, a, out);
    StaysSuspended(img, b0, es, a.active);
    RoundRobin(img, b0, es);
    LastTick(img, Run(img, b0, es), back, a.active);
  }

  lemma Suspends(img: Image, a: State, out: Ctx)
    requires WellFormed(img) && StateOk(img, a) && Enabled(img, a, Tick(out)) && PidsOk(a)
    ensures var b := Step(img, a, Tick(out));
            && b.terms[a.active].ctx == out && b.terms[a.active].procs != []
            && b.active == (a.active + 1) % MAX_TERMINALS && b.active != a.active
            && Distance(b.active, a.active) == 2
  {
    ContextStep(img, a, Tick(out), a.active);
    StaysStarted(img, a, Tick(out), a.active);
    StepShared(img, a, Tick(out));
    hide Step, PidsOk;
  }

  lemma LastTick(img: Image, b: State, back: Ctx, t: nat)
    requires WellFormed(img) && StateOk(img, b) && Running(b) && t < MAX_TERMINALS
    requires b.active == (t + 2) % MAX_TERMINALS && b.terms[t].procs != []
    ensures Enabled(img, b, Tick(back)) && Step(img, b, Tick(back)).active == t
    ensures !b.terms[t].halt ==> OutcomeOf(img, b, Tick(back)) == Switched(b.terms[t].ctx)
    ensures b.terms[t].halt ==> Kills(b, Tick(back), t)
  {
    StepShared(img, b, Tick(back));
    hide Step, StateOk;
  }

  // ---------- nothing can get stuck ----------

  ghost predicate AllStarted(a: State)
    requires |a.terms| == MAX_TERMINALS
  {
    forall t :: 0 <= t < MAX_TERMINALS ==> a.terms[t].procs != []
  }

  /** Every event of the run can happen. */
  ghost predicate EachEnabled(img: Image, a: State, es: seq<Event>)
    requires WellFormed(img) && StateOk(img, a)
    decreases |es|
  {
    es != [] ==>
      && Enabled(img, a, es[0])
      && (StepKeepsState(img, a, es[0]); EachEnabled(img, Step(img, a, es[0]), es[1..]))
  }

  /** Once every terminal has its first shell, no sequence of events can leave the processor
      without a process: whichever process ends, its parent or a new shell takes over. */
  lemma {:induction false} StartedNeverStuck(img: Image, a: State, es: seq<Event>)
    requires WellFormed(img) && StateOk(img, a) && PidsOk(a) && AllStarted(a) && EachEnabled(img, a, es)
    ensures Possible(img, a, es) && AllStarted(Run(img, a, es))
    decreases |es|
  {
    hide Step, PidsOk, WellFormed, AllPids;
    if es != [] {
      var b := Step(img, a, es[0]);
      StepKeepsState(img, a, es[0]);
      StepKeepsPids(img, a, es[0]);
      forall t: nat | t < MAX_TERMINALS
        ensures b.terms[t].procs != []
      {
        StaysStarted(img, a, es[0], t);
      }
      StartedNeverStuck(img, b, es[1..]);
    } else {
      RunsNow(a);
    }
  }

  lemma RunsNow(a: State)
    requires |a.terms| == MAX_TERMINALS && a.active < MAX_TERMINALS && AllStarted(a)
    ensures Running(a)
  {
  }
}
