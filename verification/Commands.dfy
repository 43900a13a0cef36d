/** From a command line to the program that asks for its arguments, over runs. */
module Commands {
  import opened CInt
  import opened FileSystem
  import opened Programs
  import opened Terminals
  import opened Machine
  import opened Runs
  import opened Stacks
  import Paging

  /** Whatever has happened since it was started, a program that asks for its arguments gets the
      rest of its own command line with a NUL, if there is room. */
  lemma ArgumentsArrive(img: Image, a: State, exec: Event, es: seq<Event>, addr: nat, room: int)
    requires WellFormed(img) && StateOk(img, a) && Enabled(img, a, exec) && exec.Execute?
    requires ExecPid(img, a, exec.cmd, exec.junk) != -1
    requires Possible(img, Step(img, a, exec), es)
    requires Survives(img, Step(img, a, exec), es, a.active, |a.terms[a.active].procs|)
    requires var b := Run(img, Step(img, a, exec), es);
             b.active == a.active && |b.terms[a.active].procs| == |a.terms[a.active].procs| + 1
    requires Paging.InProgram(addr)
    ensures var b := Run(img, Step(img, a, exec), es);
            var args := CommandArgs(exec.cmd);
            && Enabled(img, b, Syscall(GetArgs(addr, room)))
            && (|args| < room ==> OutcomeOf(img, b, Syscall(GetArgs(addr, room))) == Returned(Reply(0, args + [NUL])))
            && (|args| >= room ==> OutcomeOf(img, b, Syscall(GetArgs(addr, room))).reply.value == -1)
  {
    hide Step, Survives, Resolve, CommandName, CommandArgs;
    var t := a.active;
    var a1 := Step(img, a, exec);
    ExecPushes(img, a, exec);
    ProcessSurvives(img, a1, es, t, |a.terms[t].procs|);
    var b := Run(img, a1, es);
    KeptMeans(a.terms[t].procs, Child(img, a, exec), b.terms[t].procs);
    GetArgsNow(img, b, addr, room);
  }

  lemma GetArgsNow(img: Image, b: State, addr: nat, room: int)
    requires WellFormed(img) && StateOk(img, b) && Running(b) && Paging.InProgram(addr)
    ensures var args := b.terms[b.active].Leaf().args;
            && Enabled(img, b, Syscall(GetArgs(addr, room)))
            && (|args| < room ==> OutcomeOf(img, b, Syscall(GetArgs(addr, room))) == Returned(Reply(0, args + [NUL])))
            && (|args| >= room ==> OutcomeOf(img, b, Syscall(GetArgs(addr, room))).Returned?
                                   && OutcomeOf(img, b, Syscall(GetArgs(addr, room))).reply.value == -1)
  {
  }

  /** From the characters typed to the program: `execute` of a line gives the program of that name
      the rest of the line. */
  lemma LineArrives(img: Image, a: State, lead: nat, word: seq<byte>, gap: nat, rest: seq<byte>, tail: seq<byte>,
                    junk: seq<byte>, ctx: Ctx, addr: nat, room: int)
    requires WellFormed(img) && StateOk(img, a) && PidsOk(a) && word != [] && Pieces(word, gap, rest, tail)
    requires Enabled(img, a, Execute(Line(lead, word, gap, rest, tail), junk, ctx))
    requires Resolve(img, word, junk).Runnable? && LowestFree(Used(AllPids(a)), 0) != -1
    requires Paging.InProgram(addr) && |rest| < room
    ensures var e := Execute(Line(lead, word, gap, rest, tail), junk, ctx);
            var p := LowestFree(Used(AllPids(a)), 0);
            var b := Step(img, a, e);
            && OutcomeOf(img, a, e) == Entered(p, Resolve(img, word, junk).program)
            && StateOk(img, b)
            && Enabled(img, b, Syscall(GetArgs(addr, room)))
            && OutcomeOf(img, b, Syscall(GetArgs(addr, room))) == Returned(Reply(0, rest + [NUL]))
  {
    var e := Execute(Line(lead, word, gap, rest, tail), junk, ctx);
    ReadsBack(lead, word, gap, rest, tail);
    StartedNow(img, a, e, word, rest);
    hide Step, StateOk, Resolve, CommandName, CommandArgs, Line;
    GetArgsNow(img, Step(img, a, e), addr, room);
  }

  lemma StartedNow(img: Image, a: State, e: Event, word: seq<byte>, rest: seq<byte>)
    requires WellFormed(img) && StateOk(img, a) && Enabled(img, a, e) && e.Execute?
    requires CommandName(e.cmd) == word && CommandArgs(e.cmd) == rest
    requires Resolve(img, word, e.junk).Runnable? && LowestFree(Used(AllPids(a)), 0) != -1
    ensures OutcomeOf(img, a, e) == Entered(LowestFree(Used(AllPids(a)), 0), Resolve(img, word, e.junk).program)
    ensures var b := Step(img, a, e);
            StateOk(img, b) && b.active == a.active && Running(b) && b.terms[b.active].Leaf().args == rest
  {
    hide CommandName, CommandArgs, Resolve, Used, LowestFree;
    ExecPushes(img, a, e);
    StepShape(img, a, e);
    hide Step;
  }

  lemma StepShape(img: Image, a: State, e: Event)
    requires WellFormed(img) && StateOk(img, a) && Enabled(img, a, e) && e.Execute?
    ensures StateOk(img, Step(img, a, e)) && Step(img, a, e).active == a.active
  {
  }
}
