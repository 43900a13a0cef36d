/** The screen page over runs (student-distrib/syscalls.c, paging.c): once a program has opened it, it
    finds it open whenever it runs. */
module ScreenPage {
  import opened CInt
  import opened FileSystem
  import opened Programs
  import opened Terminals
  import opened Machine
  import opened MachineFacts
  import opened Runs
  import opened Stacks
  import Paging
  import MS = MachineSteps

  /** The pid of the process that has the processor. */
  function Current(a: State): int
    requires Shaped(a)
  {
    a.terms[a.active].Leaf().pid
  }

  /** The last pid of a stack, or none. */
  function Last(st: Stack): int {
    if st == [] then -1 else Top(st)
  }

  lemma CurrentIsTop(a: State)
    requires Shaped(a)
    ensures AllPids(a)[a.active] != [] && Current(a) == Last(AllPids(a)[a.active])
  {
  }

  lemma KilledTop(a: State, t: nat)
    requires |a.terms| == MAX_TERMINALS && PidsOk(a) && t < MAX_TERMINALS && a.terms[t].procs != []
    ensures Last(Killed(a, t)[t]) == AfterKill(a, t) && AfterKill(a, t) != -1
  {
    var st := AllPids(a);
    if |a.terms[t].procs| == 1 {
      assert Top(st[t]) == a.terms[t].Leaf().pid;
      RespawnCannotFail(st, t);
    } else {
      assert Killed(a, t)[t] == st[t][..|st[t]| - 1];
      assert st[t][|st[t]| - 2] == a.terms[t].procs[|st[t]| - 2].pid;
    }
  }

  /** Whose pages a step maps: those of the process that then has the processor, if another one
      has it or a new one does. */
  lemma MapsCurrent(img: Image, a: State, e: Event)
    requires Sized(img) && Shaped(a) && EventOk(e) && PidsOk(a) && Safe(a, e)
    ensures Last(NextStacks(img, a, e)[if e.Tick? then Next(a) else a.active])
            == if Mapped(img, a, e) != -1 then Mapped(img, a, e) else Current(a)
  {
    CurrentIsTop(a);
    hide StacksOk, Used, LowestFree, Resolve, CommandName, Pids, AfterKill, Killed;
    if e.Halt? || e.Exception? {
      KilledTop(a, a.active);
    } else if e.Tick? && a.terms[Next(a)].procs != [] {
      if a.terms[Next(a)].halt {
        KilledTop(a, Next(a));
      } else {
        NextLeaf(a);
      }
    }
  }

  lemma NextLeaf(a: State)
    requires |a.terms| == MAX_TERMINALS && PidsOk(a) && a.terms[Next(a)].procs != []
    ensures Last(AllPids(a)[Next(a)]) == a.terms[Next(a)].Leaf().pid != -1
  {
  }

  lemma CurrentAfter(img: Image, a: State, e: Event)
    requires WellFormed(img) && StateOk(img, a) && Enabled(img, a, e) && PidsOk(a) && Safe(a, e)
    ensures Shaped(Step(img, a, e))
    ensures Current(Step(img, a, e)) == if Mapped(img, a, e) != -1 then Mapped(img, a, e) else Current(a)
  {
    StepKeepsPids(img, a, e);
    StepStacks(img, a, e);
    MapsCurrent(img, a, e);
    ActiveAfter(img, a, e);
    hide Step, NextStacks, Mapped, AllPids, StateOk, PidsOk, Safe;
    CurrentIsTop(Step(img, a, e));
  }

  lemma ActiveAfter(img: Image, a: State, e: Event)
    requires WellFormed(img) && StateOk(img, a) && Enabled(img, a, e)
    ensures var b := Step(img, a, e);
            && |b.terms| == MAX_TERMINALS && b.active < MAX_TERMINALS
            && b.active == (if e.Tick? then Next(a) else a.active)
            && b.vid == NextVid(a, e) && b.mapped == NextMapped(img, a, e)
  {
  }

  /** Whenever a step gives the processor to another process, the page is open to it exactly if the
      flag in its slot is set, whoever set it. */
  lemma FlagDecides(img: Image, a: State, e: Event)
    requires WellFormed(img) && StateOk(img, a) && Enabled(img, a, e) && PidsOk(a) && Safe(a, e)
    ensures var b := Step(img, a, e);
            && Shaped(b)
            && (Current(b) != Current(a) ==> 0 <= Current(b) < |b.vid| && (b.mapped <==> b.vid[Current(b)]))
  {
    CurrentAfter(img, a, e);
    ActiveAfter(img, a, e);
    MappedInRange(img, a, e);
    hide Step, Mapped, Safe, PidsOk, StateOk;
  }

  lemma MappedInRange(img: Image, a: State, e: Event)
    requires Sized(img) && Shaped(a) && EventOk(e) && PidsOk(a) && Safe(a, e)
    ensures -1 <= Mapped(img, a, e) < MAX_PROCESSES
    ensures Mapped(img, a, e) != -1 ==> !e.Vidmap?
  {
    hide Used, LowestFree, Resolve, CommandName;
    if e.Halt? || e.Exception? {
      KillInRange(a, a.active);
    } else if e.Tick? && a.terms[Next(a)].procs != [] {
      if a.terms[Next(a)].halt {
        KillInRange(a, Next(a));
      } else {
        LeafInRange(a, Next(a));
      }
    }
  }

  lemma KillInRange(a: State, t: nat)
    requires |a.terms| == MAX_TERMINALS && PidsOk(a) && t < MAX_TERMINALS && a.terms[t].procs != []
    ensures -1 <= AfterKill(a, t) < MAX_PROCESSES
  {
    var n := |a.terms[t].procs|;
    if n > 1 {
      assert 0 <= AllPids(a)[t][n - 2] < MAX_PROCESSES;
    }
  }

  lemma LeafInRange(a: State, t: nat)
    requires |a.terms| == MAX_TERMINALS && PidsOk(a) && t < MAX_TERMINALS && a.terms[t].procs != []
    ensures 0 <= a.terms[t].Leaf().pid < MAX_PROCESSES
  {
    var n := |a.terms[t].procs|;
    assert 0 <= AllPids(a)[t][n - 1] < MAX_PROCESSES;
  }

  /** The page is open to process `p`: its flag is set, and if it has the processor the page is
      mapped. */
  predicate Open(a: State, p: nat)
    requires Shaped(a)
  {
    p < |a.vid| && a.vid[p] && (Current(a) == p ==> a.mapped)
  }

  /** A successful `vidmap` opens it, and stores its address. */
  lemma VidmapOpens(img: Image, a: State, addr: nat)
    requires WellFormed(img) && StateOk(img, a) && PidsOk(a) && Running(a)
    requires 0x800_0000 <= addr < 0x840_0000
    ensures Enabled(img, a, Vidmap(addr)) && Shaped(Step(img, a, Vidmap(addr)))
    ensures 0 <= Current(a) < MAX_PROCESSES && Current(Step(img, a, Vidmap(addr))) == Current(a)
    ensures Open(Step(img, a, Vidmap(addr)), Current(a))
    ensures var o := OutcomeOf(img, a, Vidmap(addr));
            && o.Returned? && o.reply.value == 0 && |o.reply.data| == 4 && U32(o.reply.data, 0) == 0x880_0000
  {
    CurrentIsTop(a);
    CurrentAfter(img, a, Vidmap(addr));
    ActiveAfter(img, a, Vidmap(addr));
    hide Step, Pids;
  }

  /** Whatever the pointer, the flag says afterwards whether it was null; the page that is mapped now
      is not closed by the call. */
  lemma VidmapSets(img: Image, a: State, addr: nat)
    requires WellFormed(img) && StateOk(img, a) && PidsOk(a) && Running(a)
    ensures Enabled(img, a, Vidmap(addr)) && 0 <= Current(a) < MAX_PROCESSES
    ensures var b := Step(img, a, Vidmap(addr));
            && b.vid == a.vid[Current(a) := addr != 0]
            && b.terms == a.terms
            && b.mapped == (a.mapped || 0x800_0000 <= addr < 0x840_0000)
    ensures !(0x800_0000 <= addr < 0x840_0000) ==> OutcomeOf(img, a, Vidmap(addr)) == Returned(Reply(-1, []))
  {
    LeafInRange(a, a.active);
    ActiveAfter(img, a, Vidmap(addr));
    MS.StepVidmap(img, a, addr);
    hide Step, PidsOk;
  }

  /** It stays open through every event but the process's own `vidmap`. */
  lemma StaysOpen(img: Image, a: State, e: Event, p: nat)
    requires WellFormed(img) && StateOk(img, a) && Enabled(img, a, e) && PidsOk(a) && Safe(a, e)
    requires Open(a, p) && !(e.Vidmap? && Current(a) == p)
    ensures Shaped(Step(img, a, e)) && Open(Step(img, a, e), p)
  {
    CurrentAfter(img, a, e);
    ActiveAfter(img, a, e);
    hide Step, Mapped, Safe, PidsOk, StateOk;
  }

  /** The process in slot `p` makes no `vidmap` call during the run. */
  ghost predicate LeavesIt(img: Image, a: State, es: seq<Event>, p: nat)
    requires WellFormed(img) && Possible(img, a, es)
    decreases |es|
  {
    es != [] ==>
      && Shaped(a)
      && !(es[0].Vidmap? && Current(a) == p)
      && LeavesIt(img, Step(img, a, es[0]), es[1..], p)
  }

  lemma {:induction false} StaysOpenInRuns(img: Image, a: State, es: seq<Event>, p: nat)
    requires WellFormed(img) && Possible(img, a, es) && Shaped(a) && Open(a, p) && LeavesIt(img, a, es, p)
    ensures Shaped(Run(img, a, es)) && Open(Run(img, a, es), p)
    decreases |es|
  {
    hide Step, StateOk, PidsOk, Open;
    if es != [] {
      StaysOpen(img, a, es[0], p);
      StaysOpenInRuns(img, Step(img, a, es[0]), es[1..], p);
    }
  }

  /** After its `vidmap` a program can store to its screen whenever it runs, whatever it and the
      others do, until it calls `vidmap` again. The flag belongs to the slot: a process that is
      later started in it inherits the open page. */
  lemma StoresGoOn(img: Image, a: State, addr: nat, es: seq<Event>, off: nat, b: byte)
    requires WellFormed(img) && StateOk(img, a) && PidsOk(a) && Running(a)
    requires 0x800_0000 <= addr < 0x840_0000 && off < 4096
    requires Enabled(img, a, Vidmap(addr)) && Possible(img, Step(img, a, Vidmap(addr)), es)
    requires 0 <= Current(a) && LeavesIt(img, Step(img, a, Vidmap(addr)), es, Current(a))
    ensures var c := Run(img, Step(img, a, Vidmap(addr)), es);
            Shaped(c) && (Current(c) == Current(a) ==> Enabled(img, c, Store(off, b)))
  {
    hide Step, PidsOk, Open, Possible, Run, Enabled, LeavesIt;
    VidmapOpens(img, a, addr);
    StaysOpenInRuns(img, Step(img, a, Vidmap(addr)), es, Current(a));
    OpenStores(img, Run(img, Step(img, a, Vidmap(addr)), es), Current(a), off, b);
  }

  lemma OpenStores(img: Image, c: State, p: nat, off: nat, b: byte)
    requires Sized(img) && StateOk(img, c) && Shaped(c) && Open(c, p) && off < 4096
    ensures Current(c) == p ==> Enabled(img, c, Store(off, b))
  {
  }
}
