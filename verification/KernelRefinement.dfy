/** What changes to the kernel's variables mean for the three terminals they stand for. */
module KernelRefinement {
  import opened CInt
  import opened FileSystem
  import opened Programs
  import opened Paging
  import opened Terminals
  import opened Machine
  import opened MachineSteps
  import opened Stacks
  import opened Keyboard
  import opened KernelState
  import S = Screen
  import LB = LineBuffer
  import VR = VirtualRtc
  import PF = Printf

  /** Only terminal `t` and the presence of the screen page changed. */
  lemma OneTerminal(r: Vars, q: Vars, t: nat)
    requires Shape(r) && PidsInRange(r) && Shape(q) && PidsInRange(q) && t < MAX_TERMINALS
    requires forall u :: 0 <= u < MAX_TERMINALS && u != t ==> AbsTerminal(q, u) == AbsTerminal(r, u)
    requires VidFlags(q.pcbs) == VidFlags(r.pcbs)
    requires q.active == r.active && q.visible == r.visible && q.target == r.target && q.mods == r.mods
    ensures Abs(r).terms[t] == AbsTerminal(r, t)
    ensures Abs(q) == With(Abs(r), t, AbsTerminal(q, t)).(mapped := q.tables.dir[VIDMAP_PAGE].present)
  {
    hide AbsTerminal, VidFlags, TermOk;
  }

  // ---------- one terminal's entry and screen ----------

  /** Another entry and screen for terminal `t` that is the same process's. */
  ghost predicate EntryChange(r: Vars, t: nat, term: Term, mem: seq<byte>)
    requires Shape(r)
  {
    && t < MAX_TERMINALS
    && TermOk(term) && |mem| == S.PAGE
    && term.currPid == r.terms[t].currPid
    && term.tssEsp0 == r.terms[t].tssEsp0
  }

  lemma EntryShape(r: Vars, t: nat, term: Term, mem: seq<byte>)
    requires Shape(r) && EntryChange(r, t, term, mem)
    ensures Shape(SetTerm(r, t, term, mem))
  {
  }

  lemma EntryStructure(img: Image, r: Vars, t: nat, term: Term, mem: seq<byte>)
    requires Sized(img) && Shape(r) && Structure(img, r) && EntryChange(r, t, term, mem)
    ensures Shape(SetTerm(r, t, term, mem)) && Structure(img, SetTerm(r, t, term, mem))
  {
    EntryShape(r, t, term, mem);
    hide StacksOk, Used, LinkOk, TermOk;
  }

  /** What terminal `t` is with that entry and screen. */
  ghost function EntryTerminal(r: Vars, t: nat, term: Term, mem: seq<byte>): Terminal
    requires Shape(r) && PidsInRange(r) && t < MAX_TERMINALS && TermOk(term)
  {
    Terminal(S.Screen(mem, term.cursorX, term.cursorY), AbsLine(term), term.rtc, AbsTerminal(r, t).procs,
             term.haltFlag, term.save)
  }

  lemma EntryAbs(r: Vars, t: nat, term: Term, mem: seq<byte>)
    requires Shape(r) && PidsInRange(r) && EntryChange(r, t, term, mem)
    ensures Shape(SetTerm(r, t, term, mem)) && PidsInRange(SetTerm(r, t, term, mem))
    ensures Abs(SetTerm(r, t, term, mem)) == With(Abs(r), t, EntryTerminal(r, t, term, mem))
  {
    EntryShape(r, t, term, mem);
    var q := SetTerm(r, t, term, mem);
    forall u | 0 <= u < MAX_TERMINALS
      ensures AbsTerminal(q, u) == if u == t then EntryTerminal(r, t, term, mem) else AbsTerminal(r, u)
    {
    }
    hide AbsTerminal, EntryTerminal, VidFlags, TermOk;
  }

  lemma EntryRefines(img: Image, l: Layout, r: Vars, t: nat, term: Term, mem: seq<byte>)
    requires Inv(img, l, r) && EntryChange(r, t, term, mem)
    ensures PidsInRange(r) && Inv(img, l, SetTerm(r, t, term, mem)) && PidsInRange(SetTerm(r, t, term, mem))
    ensures Abs(SetTerm(r, t, term, mem)) == With(Abs(r), t, EntryTerminal(r, t, term, mem))
  {
    InRange(r);
    EntryStructure(img, r, t, term, mem);
    EntryAbs(r, t, term, mem);
    hide Structure, Abs, Maps, TermOk, With;
  }

  /** Another screen for terminal `t`: the invariant stays, and only that terminal changes. */
  lemma ScreenRefines(img: Image, l: Layout, r: Vars, t: nat, s: S.Screen)
    requires Inv(img, l, r) && t < MAX_TERMINALS && s.Valid()
    ensures PidsInRange(r) && Inv(img, l, SetScreen(r, t, s)) && PidsInRange(SetScreen(r, t, s))
    ensures Abs(SetScreen(r, t, s)) == With(Abs(r), t, Abs(r).terms[t].(screen := s))
  {
    assert TermOk(r.terms[t]);
    EntryRefines(img, l, r, t, r.terms[t].(cursorX := s.x, cursorY := s.y), s.mem);
    AbsAt(r, t);
    hide Inv, Abs;
  }

  lemma ScreenParts(r: Vars)
    requires Shape(r)
    ensures AbsScreen(r, r.active).Valid()
  {
    assert TermOk(r.terms[r.active]);
  }

  /** The variables once a message is on the running terminal's screen. */
  function Announced(r: Vars, msg: seq<byte>): Vars
    requires Shape(r) && AbsScreen(r, r.active).Valid()
  {
    SetScreen(r, r.active, S.PutAll(AbsScreen(r, r.active), msg))
  }

  lemma NothingPut(r: Vars)
    requires Shape(r) && AbsScreen(r, r.active).Valid()
    ensures NonZero([]) == [] && S.PutAll(AbsScreen(r, r.active), []) == AbsScreen(r, r.active)
    ensures SetScreen(r, r.active, AbsScreen(r, r.active)) == r
  {
  }

  lemma NothingSaid(r: Vars)
    requires Shape(r) && AbsScreen(r, r.active).Valid()
    ensures Announced(r, []) == r
  {
  }

  /** Two messages are one. */
  lemma AnnouncedTwice(r: Vars, msg: seq<byte>, more: seq<byte>)
    requires Shape(r) && AbsScreen(r, r.active).Valid()
    ensures Shape(Announced(r, msg)) && AbsScreen(Announced(r, msg), r.active).Valid()
    ensures Announced(Announced(r, msg), more) == Announced(r, msg + more)
  {
    assert TermOk(r.terms[r.active]);
    S.PutAllAppend(AbsScreen(r, r.active), msg, more);
  }

  /** An entry changed, its screen did not. */
  lemma SameScreen(r: Vars, t: nat, term: Term)
    requires Shape(r) && t < MAX_TERMINALS
    ensures |Logical(r, t)| == S.PAGE && SetEntry(r, t, term) == SetTerm(r, t, term, Logical(r, t))
  {
  }

  lemma AbsAt(r: Vars, t: nat)
    requires Shape(r) && PidsInRange(r) && t < MAX_TERMINALS
    ensures Abs(r).terms[t] == AbsTerminal(r, t)
  {
  }

  lemma LineRefines(img: Image, l: Layout, r: Vars, t: nat, line: LB.Line)
    requires Inv(img, l, r) && t < MAX_TERMINALS && line.Valid()
    ensures var q := SetEntry(r, t, WithLine(r.terms[t], line));
            && PidsInRange(r) && Inv(img, l, q) && PidsInRange(q)
            && Abs(q) == With(Abs(r), t, Abs(r).terms[t].(line := line))
  {
    assert TermOk(r.terms[t]);
    var term := WithLine(r.terms[t], line);
    WithLineIsLine(r.terms[t], line);
    SameScreen(r, t, term);
    EntryRefines(img, l, r, t, term, Logical(r, t));
    AbsAt(r, t);
    hide Inv, Abs;
  }

  lemma RtcRefines(img: Image, l: Layout, r: Vars, t: nat, rtc: VR.Rtc)
    requires Inv(img, l, r) && t < MAX_TERMINALS
    ensures var q := SetEntry(r, t, r.terms[t].(rtc := rtc));
            && PidsInRange(r) && Inv(img, l, q) && PidsInRange(q)
            && Abs(q) == With(Abs(r), t, Abs(r).terms[t].(rtc := rtc))
  {
    assert TermOk(r.terms[t]);
    var term := r.terms[t].(rtc := rtc);
    SameScreen(r, t, term);
    EntryRefines(img, l, r, t, term, Logical(r, t));
    AbsAt(r, t);
    hide Inv, Abs;
  }

  lemma HaltRefines(img: Image, l: Layout, r: Vars, t: nat, flag: bool)
    requires Inv(img, l, r) && t < MAX_TERMINALS
    ensures var q := SetEntry(r, t, r.terms[t].(haltFlag := flag));
            && PidsInRange(r) && Inv(img, l, q) && PidsInRange(q)
            && Abs(q) == With(Abs(r), t, Abs(r).terms[t].(halt := flag))
  {
    assert TermOk(r.terms[t]);
    var term := r.terms[t].(haltFlag := flag);
    SameScreen(r, t, term);
    EntryRefines(img, l, r, t, term, Logical(r, t));
    AbsAt(r, t);
    hide Inv, Abs;
  }

  // ---------- the running terminal and its leaf ----------

  /** What the running terminal and its leaf are made of. */
  lemma RunningParts(img: Image, l: Layout, r: Vars)
    requires Inv(img, l, r)
    ensures 0 <= r.currPid < MAX_PROCESSES && PidsInRange(r) && FdsOk(img, r.pcbs[r.currPid].fds)
    ensures var v := Abs(r).terms[r.active];
            && v.procs != [] && v.Leaf() == AbsProc(r.pcbs[r.currPid], r.currPid) && TerminalOk(img, v)
            && v.screen == AbsScreen(r, r.active) && v.screen.Valid()
            && v.line == AbsLine(r.terms[r.active]) && v.line.Valid()
            && v.rtc == r.terms[r.active].rtc
  {
    InRange(r);
    AbsAt(r, r.active);
    var st := r.stacks[r.active];
    assert LinkOk(img, r.pcbs, st, |st| - 1);
    assert TermOk(r.terms[r.active]);
    AbsTerminalOk(img, r, r.active);
    hide Abs, FdsOk, StacksOk, Used, TableOk;
  }

  /** The kernel's variables went from `r` to `q` as the running terminal serves the call. */
  ghost predicate ServedBy(img: Image, l: Layout, r: Vars, q: Vars, c: Sys, value: int, data: seq<byte>) {
    && Inv(img, l, r) && PidsInRange(r)
    && Inv(img, l, q) && PidsInRange(q)
    && var v := Abs(r).terms[r.active];
       && v.procs != [] && TerminalOk(img, v)
       && Abs(q) == With(Abs(r), r.active, Serve(img, v, c).0)
       && Serve(img, v, c).1 == Reply(value, data)
  }

  /** A system call is served: the step and its reply. */
  lemma Served(img: Image, l: Layout, r: Vars, q: Vars, c: Sys, value: int, data: seq<byte>)
    requires WellFormed(img) && ServedBy(img, l, r, q, c, value, data)
    requires StateOk(img, Abs(r)) && Enabled(img, Abs(r), Syscall(c))
    ensures Abs(q) == Step(img, Abs(r), Syscall(c))
    ensures OutcomeOf(img, Abs(r), Syscall(c)) == Returned(Reply(value, data))
  {
    hide Step, Serve;
    StepSyscall(img, Abs(r), c);
  }

  /** A refused call changes nothing. */
  lemma Unchanged(r: Vars)
    requires Shape(r) && PidsInRange(r)
    ensures Abs(r) == With(Abs(r), r.active, Abs(r).terms[r.active])
  {
  }

  // ---------- the running process's descriptors ----------

  /** Other descriptors for the process in slot `p`. */
  function SetFds(r: Vars, p: int, fds: seq<Fd>): Vars
    requires 0 <= p < |r.pcbs|
  {
    r.(pcbs := r.pcbs[p := r.pcbs[p].(fds := fds)])
  }

  /** The slot of a leaf is nowhere else in the stacks. */
  lemma LeafSlot(st: seq<Stack>, t: nat, u: nat, i: nat)
    requires StacksOk(st) && t < MAX_TERMINALS && u < MAX_TERMINALS && st[t] != [] && i < |st[u]|
    ensures st[u][i] == Top(st[t]) <==> u == t && i == |st[t]| - 1
  {
  }

  lemma FdsStructure(img: Image, r: Vars, fds: seq<Fd>)
    requires Sized(img) && Shape(r) && Structure(img, r) && r.stacks[r.active] != [] && FdsOk(img, fds)
    ensures 0 <= r.currPid < MAX_PROCESSES
    ensures Shape(SetFds(r, r.currPid, fds)) && Structure(img, SetFds(r, r.currPid, fds))
  {
    InRange(r);
    hide StacksOk, Used, FdOk, TermOk;
    var q := SetFds(r, r.currPid, fds);
    forall t, i | 0 <= t < MAX_TERMINALS && 0 <= i < |q.stacks[t]|
      ensures LinkOk(img, q.pcbs, q.stacks[t], i)
    {
      assert LinkOk(img, r.pcbs, r.stacks[t], i);
    }
  }

  /** A change in one slot shows only where its pid is. */
  lemma OtherProcs(pcbs: seq<Pcb>, p: int, pcb: Pcb, st: Stack)
    requires 0 <= p < |pcbs| && forall i :: 0 <= i < |st| ==> 0 <= st[i] < |pcbs| && st[i] != p
    ensures AbsProcs(pcbs[p := pcb], st) == AbsProcs(pcbs, st)
  {
  }

  lemma TopProc(pcbs: seq<Pcb>, pcb: Pcb, st: Stack)
    requires st != [] && forall i :: 0 <= i < |st| ==> 0 <= st[i] < |pcbs|
    requires forall i :: 0 <= i < |st| - 1 ==> st[i] != Top(st)
    ensures AbsProcs(pcbs[Top(st) := pcb], st)
            == AbsProcs(pcbs, st)[|st| - 1 := AbsProc(pcb, Top(st))]
  {
  }

  lemma FdsTerminal(r: Vars, fds: seq<Fd>, u: nat)
    requires Shape(r) && StacksOk(r.stacks) && r.stacks[r.active] != [] && r.currPid == Top(r.stacks[r.active])
    requires |fds| == MAX_FDS && u < MAX_TERMINALS && PidsInRange(r) && 0 <= r.currPid < MAX_PROCESSES
    requires Shape(SetFds(r, r.currPid, fds)) && PidsInRange(SetFds(r, r.currPid, fds))
    ensures u == r.active ==> AbsTerminal(r, u).procs != []
    ensures AbsTerminal(SetFds(r, r.currPid, fds), u)
            == if u == r.active then AbsTerminal(r, u).WithFds(AbsFds(fds)) else AbsTerminal(r, u)
  {
    var pcb := r.pcbs[r.currPid].(fds := fds);
    forall i | 0 <= i < |r.stacks[u]|
      ensures r.stacks[u][i] == r.currPid <==> u == r.active && i == |r.stacks[u]| - 1
    {
      LeafSlot(r.stacks, r.active, u, i);
    }
    hide StacksOk, TermOk, AbsFds;
    if u == r.active {
      TopProc(r.pcbs, pcb, r.stacks[u]);
    } else {
      OtherProcs(r.pcbs, r.currPid, pcb, r.stacks[u]);
    }
  }

  lemma FdsFlags(r: Vars, fds: seq<Fd>)
    requires 0 <= r.currPid < |r.pcbs|
    ensures VidFlags(SetFds(r, r.currPid, fds).pcbs) == VidFlags(r.pcbs)
  {
  }

  lemma FdsAbs(r: Vars, fds: seq<Fd>)
    requires Shape(r) && StacksOk(r.stacks) && r.stacks[r.active] != [] && r.currPid == Top(r.stacks[r.active])
    requires |fds| == MAX_FDS
    ensures 0 <= r.currPid < MAX_PROCESSES && PidsInRange(r)
    ensures Shape(SetFds(r, r.currPid, fds)) && PidsInRange(SetFds(r, r.currPid, fds))
    ensures Abs(r).terms[r.active].procs != []
    ensures Abs(SetFds(r, r.currPid, fds)) == With(Abs(r), r.active, Abs(r).terms[r.active].WithFds(AbsFds(fds)))
  {
    InRange(r);
    assert r.stacks[r.active][|r.stacks[r.active]| - 1] == r.currPid;
    FdsFlags(r, fds);
    forall u | 0 <= u < MAX_TERMINALS
      ensures u == r.active ==> AbsTerminal(r, u).procs != []
      ensures AbsTerminal(SetFds(r, r.currPid, fds), u)
              == if u == r.active then AbsTerminal(r, u).WithFds(AbsFds(fds)) else AbsTerminal(r, u)
    {
      FdsTerminal(r, fds, u);
    }
    hide StacksOk, AbsFds, TermOk, AbsTerminal, VidFlags, Abs;
    OneTerminal(r, SetFds(r, r.currPid, fds), r.active);
    AbsPresent(r);
  }

  lemma AbsPresent(r: Vars)
    requires Shape(r) && PidsInRange(r)
    ensures Abs(r).mapped == r.tables.dir[VIDMAP_PAGE].present
  {
  }

  lemma FdsRefines(img: Image, l: Layout, r: Vars, fds: seq<Fd>)
    requires Inv(img, l, r) && FdsOk(img, fds)
    ensures 0 <= r.currPid < MAX_PROCESSES && PidsInRange(r)
    ensures Inv(img, l, SetFds(r, r.currPid, fds)) && PidsInRange(SetFds(r, r.currPid, fds))
    ensures Abs(r).terms[r.active].procs != []
    ensures Abs(SetFds(r, r.currPid, fds)) == With(Abs(r), r.active, Abs(r).terms[r.active].WithFds(AbsFds(fds)))
  {
    FdsStructure(img, r, fds);
    FdsAbs(r, fds);
    hide Structure, Abs, Maps, TermOk, With, FdsOk;
  }

  // ---------- a process starts ----------

  /** The pcb that `pcb_init` and `execute` leave in a slot. */
  function NewPcb(was: Pcb, pid: int, parent: Option<int>, save: Ctx, esp0: int, args: seq<byte>): Pcb
    requires |was.fds| == MAX_FDS
  {
    Pcb(InitFds(was.fds), parent, pid, save, esp0, args, was.vidmapActive)
  }

  /** The loop of `pcb_init`: everything closed, then 0 and 1 open on the terminal. */
  function InitFds(fds: seq<Fd>): (r: seq<Fd>)
    requires |fds| == MAX_FDS
    ensures |r| == MAX_FDS
  {
    [Fd(StdInOut, 0, 0, true), Fd(StdInOut, 1, 0, true)]
    + seq(MAX_FDS - 2, k requires 0 <= k < MAX_FDS - 2 => fds[k + 2].(open := false))
  }

  lemma InitFdsOk(img: Image, fds: seq<Fd>)
    requires Sized(img) && |fds| == MAX_FDS
    ensures FdsOk(img, InitFds(fds)) && AbsFds(InitFds(fds)) == INITIAL_TABLE
  {
  }

  /** The variables once process `p` runs on top of terminal `active`'s stack. */
  ghost function Started(r: Vars, p: int, save: Ctx, args: seq<byte>, tables: Tables): Vars
    requires Shape(r) && 0 <= p < MAX_PROCESSES && |r.stacks| == MAX_TERMINALS
  {
    r.(pidarray := r.pidarray[p := true],
       pcbs := r.pcbs[p :=
         NewPcb(r.pcbs[p], p, if r.currPid < 0 then None else Some(r.currPid), save, r.tssEsp0, args)],
       stacks := Pushed(r.stacks, r.active, p),
       currPid := p,
       tssEsp0 := StackTop(p),
       tables := tables)
  }

  /** The kernel stack of the running process is the current one: what `execute` saves in the
      child of a process. */
  predicate OnOwnStack(r: Vars) {
    r.currPid >= 0 ==> r.tssEsp0 == StackTop(r.currPid)
  }

  lemma StartedShape(r: Vars, p: int, save: Ctx, args: seq<byte>, tables: Tables)
    requires Shape(r) && StacksOk(r.stacks) && 0 <= p < MAX_PROCESSES
    requires |tables.dir| == ENTRIES && |tables.table0| == ENTRIES
    ensures Shape(Started(r, p, save, args, tables))
  {
  }

  lemma StartedLinks(img: Image, r: Vars, p: int, save: Ctx, args: seq<byte>, tables: Tables)
    requires Sized(img) && Shape(r) && Structure(img, r) && OnOwnStack(r)
    requires 0 <= p < MAX_PROCESSES && p !in Used(r.stacks) && NUL !in args
    ensures var q := Started(r, p, save, args, tables);
            forall t, i :: 0 <= t < MAX_TERMINALS && 0 <= i < |q.stacks[t]| ==> LinkOk(img, q.pcbs, q.stacks[t], i)
  {
    InitFdsOk(img, r.pcbs[p].fds);
    InRange(r);
    hide StacksOk, Used, FdsOk, TermOk, InitFds;
    var q := Started(r, p, save, args, tables);
    forall t, i | 0 <= t < MAX_TERMINALS && 0 <= i < |q.stacks[t]|
      ensures LinkOk(img, q.pcbs, q.stacks[t], i)
    {
      if i < |r.stacks[t]| {
        assert LinkOk(img, r.pcbs, r.stacks[t], i);
        InUse(r.stacks, t, i);
        assert q.stacks[t][i] == r.stacks[t][i];
        assert i > 0 ==> q.stacks[t][i - 1] == r.stacks[t][i - 1];
      }
    }
  }

  lemma StartedStructure(img: Image, r: Vars, p: int, save: Ctx, args: seq<byte>, tables: Tables)
    requires Sized(img) && Shape(r) && Structure(img, r) && OnOwnStack(r)
    requires 0 <= p < MAX_PROCESSES && p !in Used(r.stacks) && NUL !in args
    requires |tables.dir| == ENTRIES && |tables.table0| == ENTRIES
    ensures var q := Started(r, p, save, args, tables);
            && Shape(q) && Structure(img, q) && q.stacks[q.active] != []
            && q.tssEsp0 == 0x80_0000 - (0x2000 * p + 4)
  {
    StartedShape(r, p, save, args, tables);
    StartedLinks(img, r, p, save, args, tables);
    PushKeeps(r.stacks, r.active, p);
    hide StacksOk, LinkOk, TermOk, Used, NewPcb;
  }

  lemma StartedTerminal(r: Vars, p: int, save: Ctx, args: seq<byte>, tables: Tables, u: nat)
    requires Shape(r) && StacksOk(r.stacks) && 0 <= p < MAX_PROCESSES && p !in Used(r.stacks)
    requires PidsInRange(r) && u < MAX_TERMINALS
    requires var q := Started(r, p, save, args, tables); Shape(q) && PidsInRange(q)
    ensures AbsTerminal(Started(r, p, save, args, tables), u)
            == if u == r.active
               then AbsTerminal(r, u).(procs := AbsTerminal(r, u).procs + [Proc(p, save, INITIAL_TABLE, args)])
               else AbsTerminal(r, u)
  {
    forall i | 0 <= i < |r.stacks[u]|
      ensures r.stacks[u][i] != p
    {
      InUse(r.stacks, u, i);
    }
    InitTable(r.pcbs[p].fds);
    hide StacksOk, Used, TermOk, InitFds;
    var q := Started(r, p, save, args, tables);
    OtherProcs(r.pcbs, p, q.pcbs[p], r.stacks[u]);
    if u == r.active {
      assert AbsProcs(q.pcbs, r.stacks[u] + [p]) == AbsProcs(q.pcbs, r.stacks[u]) + [AbsProc(q.pcbs[p], p)];
    }
  }

  /** The started process as the machine sees it. */
  lemma StartedAbs(r: Vars, p: int, save: Ctx, args: seq<byte>, tables: Tables)
    requires Shape(r) && StacksOk(r.stacks) && 0 <= p < MAX_PROCESSES && p !in Used(r.stacks)
    requires |tables.dir| == ENTRIES && |tables.table0| == ENTRIES
    ensures PidsInRange(r)
    ensures var q := Started(r, p, save, args, tables);
            && Shape(q) && PidsInRange(q)
            && var v := Abs(r).terms[r.active];
               Abs(q) == With(Abs(r), r.active, v.(procs := v.procs + [Proc(p, save, INITIAL_TABLE, args)])).(
                           mapped := tables.dir[VIDMAP_PAGE].present)
  {
    InRange(r);
    StartedShape(r, p, save, args, tables);
    PushKeeps(r.stacks, r.active, p);
    var q := Started(r, p, save, args, tables);
    InRange(q);
    StartedTerminal(r, p, save, args, tables, 0);
    StartedTerminal(r, p, save, args, tables, 1);
    StartedTerminal(r, p, save, args, tables, 2);
    assert VidFlags(q.pcbs) == VidFlags(r.pcbs);
    hide AbsTerminal, VidFlags, StacksOk, Used, TermOk;
  }

  lemma InitTable(fds: seq<Fd>)
    requires |fds| == MAX_FDS
    ensures AbsFds(InitFds(fds)) == INITIAL_TABLE
  {
  }

  // ---------- a process ends ----------

  /** The loop that closes everything in `kill_current_proc`. */
  function ClosedFds(fds: seq<Fd>): (r: seq<Fd>)
    ensures |r| == |fds|
    ensures forall k :: 0 <= k < |fds| ==> r[k] == fds[k].(open := false)
  {
    seq(|fds|, k requires 0 <= k < |fds| => fds[k].(open := false))
  }

  function IsClock(f: Fd): bool {
    f.open && f.ftable == RtcTable
  }

  /** The variables once the leaf of the running terminal is gone: its parent is current, or
      no process is. */
  ghost function Freed(r: Vars): Vars
    requires Shape(r) && |r.stacks| == MAX_TERMINALS && r.stacks[r.active] != [] && 0 <= r.currPid < MAX_PROCESSES
  {
    var p := r.currPid;
    var t := r.terms[r.active];
    r.(pidarray := r.pidarray[p := false],
       pcbs := r.pcbs[p := r.pcbs[p].(fds := ClosedFds(r.pcbs[p].fds))],
       terms := r.terms[r.active :=
         t.(rtc := if exists f :: f in r.pcbs[p].fds && IsClock(f) then VR.Reset(t.rtc) else t.rtc)],
       stacks := Popped(r.stacks, r.active),
       currPid := TopOr(Popped(r.stacks, r.active)[r.active]))
  }

  lemma FreedShape(r: Vars)
    requires Shape(r) && StacksOk(r.stacks) && r.stacks[r.active] != [] && r.currPid == Top(r.stacks[r.active])
    ensures 0 <= r.currPid < MAX_PROCESSES && Shape(Freed(r))
  {
  }

  lemma FreedLinks(img: Image, r: Vars)
    requires Sized(img) && Shape(r) && Structure(img, r) && r.stacks[r.active] != []
    requires 0 <= r.currPid < MAX_PROCESSES
    ensures var q := Freed(r);
            forall t, i :: 0 <= t < MAX_TERMINALS && 0 <= i < |q.stacks[t]| ==> LinkOk(img, q.pcbs, q.stacks[t], i)
  {
    InRange(r);
    var q := Freed(r);
    forall t, i | 0 <= t < MAX_TERMINALS && 0 <= i < |q.stacks[t]|
      ensures LinkOk(img, q.pcbs, q.stacks[t], i)
    {
      assert LinkOk(img, r.pcbs, r.stacks[t], i);
      LeafSlot(r.stacks, r.active, t, i);
      assert q.stacks[t][i] == r.stacks[t][i];
      assert i > 0 ==> q.stacks[t][i - 1] == r.stacks[t][i - 1];
      hide StacksOk, Used, FdsOk, TermOk;
    }
  }

  lemma FreedStructure(img: Image, r: Vars)
    requires Sized(img) && Shape(r) && Structure(img, r) && r.stacks[r.active] != []
    ensures 0 <= r.currPid < MAX_PROCESSES && Shape(Freed(r)) && Structure(img, Freed(r))
  {
    FreedShape(r);
    FreedLinks(img, r);
    PopKeeps(r.stacks, r.active);
    hide StacksOk, LinkOk, TermOk, Used;
  }

  lemma ClockIsOpen(fds: seq<Fd>)
    ensures (exists f :: f in fds && IsClock(f)) <==> Some(Clock) in AbsFds(fds)
  {
    if f :| f in fds && IsClock(f) {
      var k :| 0 <= k < |fds| && fds[k] == f;
      assert AbsFds(fds)[k] == Some(Clock);
    }
    if Some(Clock) in AbsFds(fds) {
      var k :| 0 <= k < |fds| && AbsFds(fds)[k] == Some(Clock);
      assert fds[k] in fds && IsClock(fds[k]);
    }
  }

  lemma FreedTerminal(r: Vars, u: nat)
    requires Shape(r) && StacksOk(r.stacks) && r.stacks[r.active] != [] && r.currPid == Top(r.stacks[r.active])
    requires PidsInRange(r) && 0 <= r.currPid < MAX_PROCESSES && u < MAX_TERMINALS
    requires Shape(Freed(r)) && PidsInRange(Freed(r))
    ensures u == r.active ==> AbsTerminal(r, u).procs != []
    ensures AbsTerminal(Freed(r), u) == if u == r.active then Pop(AbsTerminal(r, u)) else AbsTerminal(r, u)
  {
    var q := Freed(r);
    forall i | 0 <= i < |r.stacks[u]|
      ensures r.stacks[u][i] == r.currPid <==> u == r.active && i == |r.stacks[u]| - 1
    {
      LeafSlot(r.stacks, r.active, u, i);
    }
    ClockIsOpen(r.pcbs[r.currPid].fds);
    hide StacksOk, TermOk, AbsFds, IsClock, ClosedFds;
    OtherProcs(r.pcbs, r.currPid, q.pcbs[r.currPid], q.stacks[u]);
    if u == r.active {
      assert AbsProcs(r.pcbs, q.stacks[u]) == AbsProcs(r.pcbs, r.stacks[u])[..|r.stacks[u]| - 1];
    }
  }

  lemma FreedFlags(r: Vars)
    requires Shape(r) && |r.stacks| == MAX_TERMINALS && r.stacks[r.active] != [] && 0 <= r.currPid < MAX_PROCESSES
    ensures VidFlags(Freed(r).pcbs) == VidFlags(r.pcbs)
  {
  }

  lemma FreedAbs(r: Vars)
    requires Shape(r) && StacksOk(r.stacks) && r.stacks[r.active] != [] && r.currPid == Top(r.stacks[r.active])
    ensures 0 <= r.currPid < MAX_PROCESSES && PidsInRange(r)
    ensures Shape(Freed(r)) && PidsInRange(Freed(r)) && Abs(r).terms[r.active].procs != []
    ensures Abs(Freed(r)) == With(Abs(r), r.active, Pop(Abs(r).terms[r.active]))
  {
    InRange(r);
    FreedShape(r);
    PopKeeps(r.stacks, r.active);
    InRange(Freed(r));
    FreedFlags(r);
    forall u | 0 <= u < MAX_TERMINALS
      ensures u == r.active ==> AbsTerminal(r, u).procs != []
      ensures AbsTerminal(Freed(r), u) == if u == r.active then Pop(AbsTerminal(r, u)) else AbsTerminal(r, u)
    {
      FreedTerminal(r, u);
    }
    hide StacksOk, Used, TermOk, AbsTerminal, VidFlags, Abs, Pop;
    OneTerminal(r, Freed(r), r.active);
    AbsPresent(r);
  }

  // ---------- the processor switches terminals ----------

  /** The two copies of a visible switch: the shown page goes to its back buffer and the
      target's back buffer to the screen. */
  function Shown(r: Vars, num: nat): Vars
    requires |r.back| == MAX_TERMINALS && 0 <= r.visible < MAX_TERMINALS && num < MAX_TERMINALS
  {
    var back := r.back[r.visible := r.video];
    r.(back := back, video := back[num], visible := num)
  }

  /** A visible switch changes no terminal's own screen. */
  lemma ShownKeepsScreens(r: Vars, num: nat, t: nat)
    requires Shape(r) && num < MAX_TERMINALS && t < MAX_TERMINALS && num != r.visible
    ensures Shape(Shown(r, num)) && Logical(Shown(r, num), t) == Logical(r, t)
  {
  }

  lemma ShownAbs(r: Vars, num: nat)
    requires Shape(r) && PidsInRange(r) && num < MAX_TERMINALS && num != r.visible
    ensures Shape(Shown(r, num)) && PidsInRange(Shown(r, num))
    ensures Abs(Shown(r, num)) == Abs(r).(visible := num)
  {
    ShownKeepsScreens(r, num, 0);
    ShownKeepsScreens(r, num, 1);
    ShownKeepsScreens(r, num, 2);
    hide Logical, TermOk;
  }

  /** The running terminal's context goes into its entry and `num`'s leaf becomes current. */
  function SwitchedTo(r: Vars, num: nat, ctx: Ctx): Vars
    requires Shape(r) && num < MAX_TERMINALS
  {
    var t := r.terms[r.active].(currPid := r.currPid, tssEsp0 := r.tssEsp0, save := ctx);
    r.(terms := r.terms[r.active := t], currPid := r.terms[num].currPid, active := num)
  }

  lemma SwitchStructure(img: Image, r: Vars, num: nat, ctx: Ctx)
    requires Sized(img) && Shape(r) && Structure(img, r) && num < MAX_TERMINALS && num != r.active
    requires r.currPid >= 0 && r.tssEsp0 == StackTop(r.currPid)
    ensures Shape(SwitchedTo(r, num, ctx)) && Structure(img, SwitchedTo(r, num, ctx))
  {
    hide StacksOk, LinkOk, Used;
  }

  lemma SwitchShape(r: Vars, num: nat, ctx: Ctx)
    requires Shape(r) && num < MAX_TERMINALS
    ensures Shape(SwitchedTo(r, num, ctx))
  {
  }

  lemma SwitchAbs(r: Vars, num: nat, ctx: Ctx)
    requires Shape(r) && PidsInRange(r) && num < MAX_TERMINALS && num != r.active
    ensures Shape(SwitchedTo(r, num, ctx)) && PidsInRange(SwitchedTo(r, num, ctx))
    ensures Abs(SwitchedTo(r, num, ctx))
            == With(Abs(r), r.active, Abs(r).terms[r.active].(ctx := ctx)).(active := num)
  {
    SwitchShape(r, num, ctx);
    var q := SwitchedTo(r, num, ctx);
    forall u | 0 <= u < MAX_TERMINALS
      ensures AbsTerminal(q, u) == if u == r.active then AbsTerminal(r, u).(ctx := ctx) else AbsTerminal(r, u)
    {
      hide TermOk, AbsProcs;
    }
    hide AbsTerminal, VidFlags, TermOk;
  }

  // ---------- system calls ----------

  lemma NonZeroNext(s: S.Screen, buf: seq<byte>, i: nat)
    requires s.Valid() && i < |buf|
    ensures S.PutAll(s, NonZero(buf[..i + 1]))
            == if buf[i] == NUL then S.PutAll(s, NonZero(buf[..i])) else S.Put(S.PutAll(s, NonZero(buf[..i])), buf[i])
  {
    NonZeroSnoc(buf[..i], buf[i]);
    assert buf[..i + 1] == buf[..i] + [buf[i]];
    PutAllSnoc(s, NonZero(buf[..i]), buf[i]);
    hide S.PutAll, S.Put, NonZero;
    assert NonZero(buf[..i]) + [] == NonZero(buf[..i]);
  }

  lemma PutAllSnoc(s: S.Screen, cs: seq<byte>, c: byte)
    requires s.Valid()
    ensures S.PutAll(s, cs + [c]) == S.Put(S.PutAll(s, cs), c)
  {
    var z := cs + [c];
    S.PutAllNext(s, z, |cs|);
    assert z[..|cs|] == cs && z[..|cs| + 1] == z;
  }

  lemma {:induction false} NonZeroSnoc(buf: seq<byte>, c: byte)
    ensures NonZero(buf + [c]) == NonZero(buf) + if c == NUL then [] else [c]
    decreases |buf|
  {
    if buf == [] {
      assert buf + [c] == [c];
      assert NonZero([c]) == (if c == NUL then [] else [c]) + NonZero([]);
    } else {
      assert (buf + [c])[0] == buf[0] && (buf + [c])[1..] == buf[1..] + [c];
      NonZeroSnoc(buf[1..], c);
    }
  }

  /** The descriptor a system call is about, closed if the number is out of range. */
  function Desc(r: Vars, fd: int): Fd
    requires 0 <= r.currPid < |r.pcbs| && |r.pcbs[r.currPid].fds| == MAX_FDS
  {
    if 0 <= fd < MAX_FDS then r.pcbs[r.currPid].fds[fd] else Fd(StdInOut, 0, 0, false)
  }

  lemma DescIs(img: Image, l: Layout, r: Vars, fd: int)
    requires Inv(img, l, r)
    ensures 0 <= r.currPid < MAX_PROCESSES && PidsInRange(r) && Abs(r).terms[r.active].procs != []
    ensures |Abs(r).terms[r.active].Fds()| == MAX_FDS
    ensures FdOf(Abs(r).terms[r.active].Fds(), fd) == AbsFd(Desc(r, fd))
  {
    RunningParts(img, l, r);
  }

  /** What `write` does to the kernel's variables. */
  ghost predicate WriteEffect(r: Vars, q: Vars, fd: int, buf: seq<byte>, value: int)
    requires Shape(r) && 0 <= r.currPid < MAX_PROCESSES
  {
    var f := Desc(r, fd);
    var rtc := r.terms[r.active].rtc;
    if f.open && f.ftable == StdInOut && f.inode != 0 then
      assert TermOk(r.terms[r.active]);
      value == |buf| && q == SetScreen(r, r.active, S.PutAll(AbsScreen(r, r.active), NonZero(buf)))
    else if f.open && f.ftable == RtcTable && |buf| == 4 && VR.SetRate(rtc, U32(buf, 0)).Some? then
      value == 4 && q == SetEntry(r, r.active, r.terms[r.active].(rtc := VR.SetRate(rtc, U32(buf, 0)).value))
    else value == -1 && q == r
  }

  lemma WriteRefines(img: Image, l: Layout, r: Vars, q: Vars, fd: int, buf: seq<byte>, value: int)
    requires Inv(img, l, r) && 0 <= r.currPid < MAX_PROCESSES && WriteEffect(r, q, fd, buf, value)
    ensures ServedBy(img, l, r, q, Write(fd, buf), value, [])
  {
    hide Structure, Maps, FdsOk, TermOk, U32, VR.SetRate, NonZero, S.PutAll, With, StacksOk, DisplayAddr, TableOk;
    DescIs(img, l, r, fd);
    RunningParts(img, l, r);
    DescOk(img, l, r, fd);
    hide Abs, PidsInRange;
    var f := Desc(r, fd);
    if f.open && f.ftable == StdInOut && f.inode != 0 {
      ScreenRefines(img, l, r, r.active, S.PutAll(AbsScreen(r, r.active), NonZero(buf)));
    } else if f.open && f.ftable == RtcTable && |buf| == 4 && VR.SetRate(r.terms[r.active].rtc, U32(buf, 0)).Some? {
      RtcRefines(img, l, r, r.active, VR.SetRate(r.terms[r.active].rtc, U32(buf, 0)).value);
    } else {
      Unchanged(r);
    }
  }

  /** Reads that leave the descriptors alone: refused, from the keyboard, from the clock. */
  ghost predicate PlainReadEffect(r: Vars, q: Vars, f: Fd, n: nat, value: int, data: seq<byte>)
    requires Shape(r)
  {
    assert TermOk(r.terms[r.active]);
    if !f.open || (f.ftable == StdInOut && f.inode == 1) then value == -1 && data == [] && q == r
    else if f.ftable == StdInOut then
      var (line, bytes) := LB.ReadLine(AbsLine(r.terms[r.active]), n);
      value == |bytes| && data == bytes && q == SetEntry(r, r.active, WithLine(r.terms[r.active], line))
    else
      && value == 0 && data == []
      && q == SetEntry(r, r.active, r.terms[r.active].(rtc := r.terms[r.active].rtc.(fired := false)))
  }

  /** Reads that move a cursor. */
  ghost predicate CursorReadEffect(img: Image, r: Vars, q: Vars, fd: nat, f: Fd, n: nat, value: int, data: seq<byte>)
    requires Sized(img) && Shape(r) && 0 <= r.currPid < MAX_PROCESSES && fd < MAX_FDS
    requires f.ftable == RegularTable ==> FileOk(img, File(f.inode, f.pos))
  {
    if f.ftable == RegularTable then
      var hi := ReadEnd(FileSize(img, f.inode), f.pos, n);
      && value == hi - f.pos && data == Content(img, f.inode)[f.pos..hi]
      && q == r.(pcbs := SetOneFd(r.pcbs, r.currPid, fd, f.(pos := hi)))
    else if f.pos >= NDentries(img) then value == 0 && data == [] && q == r
    else
      && value == (if n > NAME_LEN then NAME_LEN else n)
      && data == DirBytes(DentryAt(img, f.pos).name, n)
      && q == r.(pcbs := SetOneFd(r.pcbs, r.currPid, fd, f.(pos := f.pos + 1)))
  }

  predicate HasCursor(f: Fd) {
    f.open && (f.ftable == RegularTable || f.ftable == DirectoryTable)
  }

  /** What `read` does to the kernel's variables: the reader gets `data`. */
  ghost predicate ReadEffect(img: Image, r: Vars, q: Vars, fd: int, n: nat, value: int, data: seq<byte>)
    requires Sized(img) && Shape(r) && 0 <= r.currPid < MAX_PROCESSES
  {
    var f := Desc(r, fd);
    if HasCursor(f) then
      && (f.ftable == RegularTable ==> FileOk(img, File(f.inode, f.pos)))
      && CursorReadEffect(img, r, q, fd, f, n, value, data)
    else PlainReadEffect(r, q, f, n, value, data)
  }

  /** An open descriptor past the first two is a readable file. */
  lemma DescOk(img: Image, l: Layout, r: Vars, fd: int)
    requires Inv(img, l, r) && 0 <= r.currPid < MAX_PROCESSES
    ensures Desc(r, fd).open && Desc(r, fd).ftable == StdInOut ==>
              (fd == 0 && Desc(r, fd).inode == 0) || (fd == 1 && Desc(r, fd).inode == 1)
    ensures Desc(r, fd).open && Desc(r, fd).ftable != StdInOut ==> 2 <= fd < MAX_FDS && FdOk(img, Desc(r, fd))
  {
    RunningParts(img, l, r);
    assert 2 <= fd < MAX_FDS ==> FdOk(img, r.pcbs[r.currPid].fds[fd]);
  }

  lemma OneFdOk(img: Image, fds: seq<Fd>, fd: nat, f: Fd)
    requires Sized(img) && FdsOk(img, fds) && 2 <= fd < MAX_FDS && FdOk(img, f)
    ensures FdsOk(img, fds[fd := f])
    ensures AbsFds(fds[fd := f]) == AbsFds(fds)[fd := AbsFd(f)]
  {
  }

  /** Another state of one descriptor of the running process. */
  lemma OneFdRefines(img: Image, l: Layout, r: Vars, fd: nat, f: Fd)
    requires Inv(img, l, r) && 0 <= r.currPid < MAX_PROCESSES && 2 <= fd < MAX_FDS && FdOk(img, f)
    ensures var q := r.(pcbs := SetOneFd(r.pcbs, r.currPid, fd, f));
            && PidsInRange(r) && Inv(img, l, q) && PidsInRange(q) && Abs(r).terms[r.active].procs != []
            && |Abs(r).terms[r.active].Fds()| == MAX_FDS
            && Abs(q) == With(Abs(r), r.active,
                              Abs(r).terms[r.active].WithFds(Abs(r).terms[r.active].Fds()[fd := AbsFd(f)]))
  {
    RunningParts(img, l, r);
    OneFdOk(img, r.pcbs[r.currPid].fds, fd, f);
    FdsRefines(img, l, r, r.pcbs[r.currPid].fds[fd := f]);
    hide Inv, Abs, FdsOk;
  }

  lemma PlainReadRefines(img: Image, l: Layout, r: Vars, q: Vars, fd: int, n: nat, value: int, data: seq<byte>)
    requires Inv(img, l, r) && 0 <= r.currPid < MAX_PROCESSES && !HasCursor(Desc(r, fd))
    requires PlainReadEffect(r, q, Desc(r, fd), n, value, data)
    ensures ServedBy(img, l, r, q, Read(fd, n), value, data)
  {
    hide Structure, Maps, FdsOk, LB.ReadLine, With, StacksOk, DisplayAddr, TableOk;
    DescIs(img, l, r, fd);
    DescOk(img, l, r, fd);
    RunningParts(img, l, r);
    hide Abs, PidsInRange;
    var f := Desc(r, fd);
    if !f.open || (f.ftable == StdInOut && f.inode == 1) {
      Unchanged(r);
    } else if f.ftable == StdInOut {
      LineRefines(img, l, r, r.active, LB.ReadLine(AbsLine(r.terms[r.active]), n).0);
    } else {
      RtcRefines(img, l, r, r.active, r.terms[r.active].rtc.(fired := false));
    }
  }

  lemma FileReadRefines(img: Image, l: Layout, r: Vars, q: Vars, fd: int, n: nat, value: int, data: seq<byte>)
    requires Inv(img, l, r) && 0 <= r.currPid < MAX_PROCESSES && HasCursor(Desc(r, fd)) && 0 <= fd < MAX_FDS
    requires Desc(r, fd).ftable == RegularTable && FileOk(img, File(Desc(r, fd).inode, Desc(r, fd).pos))
    requires CursorReadEffect(img, r, q, fd, Desc(r, fd), n, value, data)
    ensures ServedBy(img, l, r, q, Read(fd, n), value, data)
  {
    hide Structure, Maps, FdsOk, With, StacksOk, DisplayAddr, TableOk, AllStored, DirBytes, DentryAt, TermOk;
    DescIs(img, l, r, fd);
    DescOk(img, l, r, fd);
    RunningParts(img, l, r);
    hide Abs, PidsInRange;
    var f := Desc(r, fd);
    OneFdRefines(img, l, r, fd, f.(pos := ReadEnd(FileSize(img, f.inode), f.pos, n)));
  }

  lemma DirectoryEndRefines(img: Image, l: Layout, r: Vars, fd: int, n: nat)
    requires Inv(img, l, r) && 0 <= r.currPid < MAX_PROCESSES && HasCursor(Desc(r, fd)) && 0 <= fd < MAX_FDS
    requires Desc(r, fd).ftable == DirectoryTable && Desc(r, fd).pos >= NDentries(img)
    ensures ServedBy(img, l, r, r, Read(fd, n), 0, [])
  {
    hide Structure, Maps, FdsOk, With, StacksOk, DisplayAddr, TableOk, AllStored, DirBytes, DentryAt, TermOk;
    DescIs(img, l, r, fd);
    DescOk(img, l, r, fd);
    RunningParts(img, l, r);
    hide Abs, PidsInRange, U32, FileOk, Blocked;
    Unchanged(r);
  }

  lemma DirectoryNextRefines(img: Image, l: Layout, r: Vars, fd: int, n: nat)
    requires Inv(img, l, r) && 0 <= r.currPid < MAX_PROCESSES && HasCursor(Desc(r, fd)) && 0 <= fd < MAX_FDS
    requires Desc(r, fd).ftable == DirectoryTable && Desc(r, fd).pos < NDentries(img)
    ensures var f := Desc(r, fd);
            ServedBy(img, l, r, r.(pcbs := SetOneFd(r.pcbs, r.currPid, fd, f.(pos := f.pos + 1))), Read(fd, n),
                     if n > NAME_LEN then NAME_LEN else n, DirBytes(DentryAt(img, f.pos).name, n))
  {
    hide Structure, Maps, FdsOk, With, StacksOk, DisplayAddr, TableOk, AllStored, DirBytes, DentryAt, TermOk;
    DescIs(img, l, r, fd);
    DescOk(img, l, r, fd);
    RunningParts(img, l, r);
    hide Abs, PidsInRange, U32, FileOk, Blocked;
    var f := Desc(r, fd);
    OneFdRefines(img, l, r, fd, f.(pos := f.pos + 1));
  }

  lemma DirectoryReadRefines(img: Image, l: Layout, r: Vars, q: Vars, fd: int, n: nat, value: int, data: seq<byte>)
    requires Inv(img, l, r) && 0 <= r.currPid < MAX_PROCESSES && HasCursor(Desc(r, fd)) && 0 <= fd < MAX_FDS
    requires Desc(r, fd).ftable == DirectoryTable
    requires CursorReadEffect(img, r, q, fd, Desc(r, fd), n, value, data)
    ensures ServedBy(img, l, r, q, Read(fd, n), value, data)
  {
    hide Structure, Ready, ServedBy, DirBytes, DentryAt, TermOk, U32;
    if Desc(r, fd).pos >= NDentries(img) {
      DirectoryEndRefines(img, l, r, fd, n);
    } else {
      DirectoryNextRefines(img, l, r, fd, n);
    }
  }

  lemma ReadRefines(img: Image, l: Layout, r: Vars, q: Vars, fd: int, n: nat, value: int, data: seq<byte>)
    requires Inv(img, l, r) && 0 <= r.currPid < MAX_PROCESSES && ReadEffect(img, r, q, fd, n, value, data)
    ensures ServedBy(img, l, r, q, Read(fd, n), value, data)
  {
    hide Structure, Ready, PlainReadEffect, CursorReadEffect, ServedBy;
    if HasCursor(Desc(r, fd)) && Desc(r, fd).ftable == RegularTable {
      FileReadRefines(img, l, r, q, fd, n, value, data);
    } else if HasCursor(Desc(r, fd)) {
      DirectoryReadRefines(img, l, r, q, fd, n, value, data);
    } else {
      PlainReadRefines(img, l, r, q, fd, n, value, data);
    }
  }

  /** An open regular file of the running process can be read. */
  lemma RegularIsReadable(img: Image, l: Layout, r: Vars, fd: int)
    requires Inv(img, l, r) && 0 <= r.currPid < MAX_PROCESSES
    ensures Desc(r, fd).open && Desc(r, fd).ftable == RegularTable ==>
              FileOk(img, File(Desc(r, fd).inode, Desc(r, fd).pos))
  {
    DescOk(img, l, r, fd);
  }

  /** The check of `file_open`: an inode, and data blocks for every full block of the file. */
  ghost predicate Openable(img: Image, ino: nat)
    requires Sized(img)
  {
    && ino < NInodes(img)
    && forall i: nat :: i < FileSize(img, ino) / BLOCK ==> BlockNo(img, ino, i) < NBlocks(img)
  }

  /** What `file_open` accepts is exactly a file whose full blocks can all be read; it does not look
      at a last block that is not full. */
  lemma OpenableIsReadable(img: Image, ino: nat)
    requires Sized(img)
    ensures Openable(img, ino)
            <==> ino < NInodes(img) && ReadResult(img, ino, 0, FileSize(img, ino) / 4096 * 4096).Some?
  {
    if ino < NInodes(img) {
      var full := FileSize(img, ino) / BLOCK * BLOCK;
      if Openable(img, ino) {
        forall i: nat | i < full
          ensures Stored(img, ino, i)
        {
          BlockBelow(i, FileSize(img, ino) / BLOCK);
        }
      }
      if AllStored(img, ino, 0, full) {
        forall k: nat | k < FileSize(img, ino) / BLOCK
          ensures BlockNo(img, ino, k) < NBlocks(img)
        {
          assert Stored(img, ino, BLOCK * k) && (BLOCK * k) / BLOCK == k;
        }
      }
    }
  }

  lemma BlockBelow(i: nat, n: nat)
    requires i < n * BLOCK
    ensures i / BLOCK < n
  {
  }

  /** The lowest closed descriptor at or above `i`. */
  function FirstFree(fds: seq<Fd>, i: nat): (k: nat)
    requires i <= |fds|
    ensures i <= k <= |fds|
    ensures forall j :: i <= j < k ==> fds[j].open
    ensures k < |fds| ==> !fds[k].open
    decreases |fds| - i
  {
    if i < |fds| && fds[i].open then FirstFree(fds, i + 1) else i
  }

  lemma {:induction false} FirstFreeIs(fds: seq<Fd>, i: nat)
    requires i <= |fds|
    ensures FirstFree(fds, i) == FirstClosed(AbsFds(fds), i)
    decreases |fds| - i
  {
    if i < |fds| && fds[i].open {
      FirstFreeIs(fds, i + 1);
    }
  }

  /** The state of the chosen descriptor once its driver's `open` is done. */
  ghost function Opened(img: Image, f: Fd, d: Dentry): Fd
    requires Sized(img)
  {
    match d.kind
    case RegularType =>
      if Openable(img, d.inode) then Fd(RegularTable, d.inode, 0, true) else f.(ftable := RegularTable, open := true)
    case DirectoryType => Fd(DirectoryTable, d.inode, 0, true)
    case RtcType => f.(ftable := RtcTable, open := true)
    case OtherType => f
  }

  /** Whether an `open` that finds a name and a descriptor fails in the driver. */
  ghost predicate DriverFails(img: Image, d: Dentry)
    requires Sized(img)
  {
    d.kind == RegularType && !Openable(img, d.inode)
  }

  /** What `file_open` prints when it refuses: the second message has two conversions and one
      argument, so it shows the inode as the block and then a word of the stack. */
  function Refusal(img: Image, inode: nat, word: nat): seq<byte>
    requires Sized(img) && inode < PF.UINT && word < PF.UINT
  {
    if inode >= NInodes(img) then Ascii("Bad inode ") + PF.SignedNumeral(PF.Signed(inode)) + [NEWLINE]
    else Ascii("Bad block ") + PF.SignedNumeral(PF.Signed(inode)) + Ascii(" in inode ")
         + PF.SignedNumeral(PF.Signed(word)) + [NEWLINE]
  }

  /** The variables once the driver has opened descriptor `fd`, or refused to. */
  ghost function OpenedVars(img: Image, r: Vars, fd: nat, d: Dentry, word: nat): Vars
    requires Sized(img) && Shape(r) && 0 <= r.currPid < MAX_PROCESSES && fd < MAX_FDS
    requires d.inode < PF.UINT && word < PF.UINT
  {
    var t := r.terms[r.active];
    var q := r.(pcbs := SetOneFd(r.pcbs, r.currPid, fd, Opened(img, r.pcbs[r.currPid].fds[fd], d)),
                terms := if d.kind == RtcType then r.terms[r.active := t.(rtc := VR.Reset(t.rtc))] else r.terms);
    assert TermOk(t);
    if DriverFails(img, d) then Announced(q, Refusal(img, d.inode, word)) else q
  }

  /** What `open` does to the kernel's variables, on any image. */
  ghost predicate OpenEffect(img: Image, r: Vars, q: Vars, name: seq<byte>, word: nat, value: int)
    requires Sized(img) && Shape(r) && 0 <= r.currPid < MAX_PROCESSES && word < PF.UINT
  {
    var fds := r.pcbs[r.currPid].fds;
    var fd := FirstFree(fds, 0);
    if Lookup(img, name).None? || fd == MAX_FDS || Lookup(img, name).value.kind == OtherType then
      value == -1 && q == r
    else
      var d := Lookup(img, name).value;
      && value == (if DriverFails(img, d) then -1 else fd)
      && q == OpenedVars(img, r, fd, d, word)
  }

  /** A failed `open` is not clean: it leaves a descriptor open on a stale cursor exactly when
      the driver refuses the file, which only a regular file with a bad inode or a missing
      full block can cause. */
  lemma FailedOpenLeaks(img: Image, r: Vars, q: Vars, name: seq<byte>, word: nat, value: int)
    requires Sized(img) && Shape(r) && 0 <= r.currPid < MAX_PROCESSES && word < PF.UINT
    requires OpenEffect(img, r, q, name, word, value)
    ensures value == -1 ==>
              (q != r <==>
                 && Lookup(img, name).Some? && Lookup(img, name).value.kind == RegularType
                 && !Openable(img, Lookup(img, name).value.inode)
                 && exists k :: 0 <= k < MAX_FDS && !r.pcbs[r.currPid].fds[k].open)
  {
    var fds := r.pcbs[r.currPid].fds;
    var fd := FirstFree(fds, 0);
    if fd < MAX_FDS {
      assert !fds[fd].open;
      if value == -1 && q != r {
        assert q.pcbs[r.currPid].fds[fd].open;
      }
    }
  }

  /** In a well-formed image the driver never refuses. */
  lemma WellFormedOpens(img: Image, name: seq<byte>)
    requires WellFormed(img) && Lookup(img, name).Some?
    ensures !DriverFails(img, Lookup(img, name).value)
  {
    FileOfWellFormed(img, name);
    var d := Lookup(img, name).value;
    if d.kind == RegularType {
      forall i: nat | i < FileSize(img, d.inode) / BLOCK
        ensures BlockNo(img, d.inode, i) < NBlocks(img)
      {
        assert (BLOCK * i) / BLOCK == i;
        assert Stored(img, d.inode, BLOCK * i);
      }
    }
  }

  /** The descriptor that `open` hands out in a well-formed image. */
  lemma OpenedIs(img: Image, f: Fd, name: seq<byte>)
    requires WellFormed(img) && Lookup(img, name).Some? && Lookup(img, name).value.kind != OtherType
    ensures var d := Lookup(img, name).value;
            && !DriverFails(img, d)
            && FdOk(img, Opened(img, f, d))
            && AbsFd(Opened(img, f, d))
               == Some(match d.kind case RegularType => File(d.inode, 0) case DirectoryType => Dir(0) case _ => Clock)
  {
    WellFormedOpens(img, name);
    FileOfWellFormed(img, name);
  }

  lemma OpenRefines(img: Image, l: Layout, r: Vars, q: Vars, name: seq<byte>, word: nat, value: int)
    requires WellFormed(img) && Inv(img, l, r) && 0 <= r.currPid < MAX_PROCESSES && word < PF.UINT
    requires OpenEffect(img, r, q, name, word, value)
    ensures ServedBy(img, l, r, q, Open(name), value, [])
  {
    hide AllStored, Structure, Maps, FdsOk, With, StacksOk, DisplayAddr, TableOk, Lookup, Openable, TermOk, DentryAt;
    RunningParts(img, l, r);
    FirstFreeIs(r.pcbs[r.currPid].fds, 0);
    var fd := FirstFree(r.pcbs[r.currPid].fds, 0);
    FreeIsPast(img, r.pcbs[r.currPid].fds);
    hide Abs, PidsInRange, FirstFree, FirstClosed;
    if Lookup(img, name).None? || fd == MAX_FDS || Lookup(img, name).value.kind == OtherType {
      Unchanged(r);
    } else {
      var f := Opened(img, r.pcbs[r.currPid].fds[fd], Lookup(img, name).value);
      OpenedIs(img, r.pcbs[r.currPid].fds[fd], name);
      hide Opened, FdOk, DriverFails, AbsFd;
      OneFdRefines(img, l, r, fd, f);
      if Lookup(img, name).value.kind == RtcType {
        var v := Abs(r).terms[r.active];
        ResetAfter(img, l, r, r.(pcbs := SetOneFd(r.pcbs, r.currPid, fd, f)), v.WithFds(v.Fds()[fd := Some(Clock)]));
      }
    }
  }

  lemma FreeIsPast(img: Image, fds: seq<Fd>)
    requires Sized(img) && FdsOk(img, fds)
    ensures FirstFree(fds, 0) >= 2
  {
  }

  lemma WithTwice(a: State, t: nat, v: Terminal, w: Terminal)
    requires |a.terms| == MAX_TERMINALS && t < MAX_TERMINALS
    ensures With(With(a, t, v), t, w) == With(a, t, w) && With(a, t, v).terms[t] == v
  {
  }

  /** Resetting the running terminal's clock after a change of descriptors. */
  lemma ResetAfter(img: Image, l: Layout, r: Vars, q: Vars, v: Terminal)
    requires Inv(img, l, r) && Inv(img, l, q) && PidsInRange(r) && PidsInRange(q)
    requires q.active == r.active && q.terms == r.terms && Abs(q) == With(Abs(r), r.active, v)
    ensures var t := r.terms[r.active];
            var x := q.(terms := r.terms[r.active := t.(rtc := VR.Reset(t.rtc))]);
            && Inv(img, l, x) && PidsInRange(x)
            && Abs(x) == With(Abs(r), r.active, v.(rtc := VR.Reset(t.rtc)))
  {
    var rtc := VR.Reset(q.terms[q.active].rtc);
    RtcRefines(img, l, q, q.active, rtc);
    hide Structure, Ready, Abs, With, TermOk;
    WithTwice(Abs(r), r.active, v, v.(rtc := rtc));
  }

  /** What `close` does to the kernel's variables: a terminal's descriptors refuse. */
  ghost predicate CloseEffect(r: Vars, q: Vars, fd: int, value: int)
    requires Shape(r) && 0 <= r.currPid < MAX_PROCESSES
  {
    var f := Desc(r, fd);
    var t := r.terms[r.active];
    if !f.open || f.ftable == StdInOut then value == -1 && q == r
    else
      && value == 0
      && q == r.(
           pcbs := SetOneFd(r.pcbs, r.currPid, fd, f.(open := false)),
           terms := if f.ftable == RtcTable then r.terms[r.active := t.(rtc := VR.Reset(t.rtc))] else r.terms)
  }

  lemma CloseRefines(img: Image, l: Layout, r: Vars, q: Vars, fd: int, value: int)
    requires Inv(img, l, r) && 0 <= r.currPid < MAX_PROCESSES && CloseEffect(r, q, fd, value)
    ensures ServedBy(img, l, r, q, Close(fd), value, [])
  {
    hide Structure, Maps, FdsOk, With, StacksOk, DisplayAddr, TableOk, AllStored, TermOk;
    DescIs(img, l, r, fd);
    DescOk(img, l, r, fd);
    RunningParts(img, l, r);
    hide Abs, PidsInRange;
    var f := Desc(r, fd);
    if !f.open || f.ftable == StdInOut {
      Unchanged(r);
    } else {
      OneFdRefines(img, l, r, fd, f.(open := false));
      if f.ftable == RtcTable {
        var v := Abs(r).terms[r.active];
        ResetAfter(img, l, r, r.(pcbs := SetOneFd(r.pcbs, r.currPid, fd, f.(open := false))),
                   v.WithFds(v.Fds()[fd := None]));
      }
    }
  }

  lemma GetArgsRefines(img: Image, l: Layout, r: Vars, addr: nat, room: int, value: int, data: seq<byte>)
    requires Inv(img, l, r) && 0 <= r.currPid < MAX_PROCESSES
    requires var args := r.pcbs[r.currPid].args;
             if room <= 0 || !InProgram(addr) then value == -1 && data == []
             else if |args| < room then value == 0 && data == args + [NUL]
             else value == -1 && data == args[..room]
    ensures ServedBy(img, l, r, r, GetArgs(addr, room), value, data)
  {
    hide Structure, Ready, With, TableOk, TermOk;
    RunningParts(img, l, r);
    Unchanged(r);
  }

  /** The slots with another state of one descriptor. */
  function SetOneFd(pcbs: seq<Pcb>, p: int, fd: nat, f: Fd): (r: seq<Pcb>)
    requires 0 <= p < |pcbs| && fd < |pcbs[p].fds|
    ensures |r| == |pcbs| && |r[p].fds| == |pcbs[p].fds| && r[p].fds[fd] == f
  {
    pcbs[p := pcbs[p].(fds := pcbs[p].fds[fd := f])]
  }

  lemma SetTwice(pcbs: seq<Pcb>, p: int, fd: nat, f: Fd, g: Fd)
    requires 0 <= p < |pcbs| && fd < |pcbs[p].fds|
    ensures SetOneFd(SetOneFd(pcbs, p, fd, f), p, fd, g) == SetOneFd(pcbs, p, fd, g)
  {
    assert pcbs[p].fds[fd := f][fd := g] == pcbs[p].fds[fd := g];
  }
}
