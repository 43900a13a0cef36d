/** The whole kernel over three private terminals. A step is the local events it delivers to
    each terminal plus what it does to the few shared words: which terminal runs, which one is
    on the screen, the modifier keys and the per-slot `vidmap` flags. */
module Machine {
  import opened CInt
  import opened FileSystem
  import opened Programs
  import opened Terminals
  import opened Keyboard
  import opened Stacks
  import Paging
  import S = Screen
  import LB = LineBuffer
  import VR = VirtualRtc

  datatype State = State(
    terms: seq<Terminal>,
    active: nat,
    visible: nat,
    target: nat,
    mods: Mods,
    vid: seq<bool>,
    mapped: bool)

  /** The pids of a process stack. */
  function Pids(procs: seq<Proc>): (st: Stack)
    ensures |st| == |procs| && forall i :: 0 <= i < |procs| ==> st[i] == procs[i].pid
  {
    seq(|procs|, i requires 0 <= i < |procs| => procs[i].pid)
  }

  function AllPids(a: State): (st: seq<Stack>)
    requires |a.terms| == MAX_TERMINALS
    ensures |st| == MAX_TERMINALS
  {
    [Pids(a.terms[0].procs), Pids(a.terms[1].procs), Pids(a.terms[2].procs)]
  }

  ghost predicate StateOk(img: Image, a: State)
    requires Sized(img)
  {
    && |a.terms| == MAX_TERMINALS
    && a.active < MAX_TERMINALS && a.visible < MAX_TERMINALS && a.target < MAX_TERMINALS
    && |a.vid| == MAX_PROCESSES
    && (forall t :: 0 <= t < MAX_TERMINALS ==> TerminalOk(img, a.terms[t]))
  }

  /** No pid is in two places. */
  ghost predicate PidsOk(a: State)
    requires |a.terms| == MAX_TERMINALS
  {
    StacksOk(AllPids(a))
  }

  /** Some process has the processor. */
  predicate Running(a: State)
    requires |a.terms| == MAX_TERMINALS && a.active < MAX_TERMINALS
  {
    a.terms[a.active].procs != []
  }

  // ---------- events ----------

  datatype Event =
    | Syscall(c: Sys)
    | Execute(cmd: seq<byte>, junk: seq<byte>, ctx: Ctx)
    | Halt(status: nat, ctx: Ctx)
    | Exception(msg: seq<byte>, ctx: Ctx)
    | Vidmap(addr: nat)
    | Store(off: nat, b: byte)
    | Key(scan: nat)
    | ClockInterrupt
    | Tick(ctx: Ctx)

  /** What the processor does after the step. When the first `execute` of a terminal fails, the
      scheduler falls through and returns into the process it interrupted, at the context it
      has just saved, with no current process and the next terminal active. */
  datatype Outcome =
    | Returned(reply: Reply)
    | Entered(pid: int, program: Program)
    | ExecReturned(ctx: Ctx, code: nat)
    | Switched(ctx: Ctx)
    | FellThrough(ctx: Ctx)

  /** Arguments that the calls and interrupts can come with. */
  predicate EventOk(e: Event) {
    match e
    case Syscall(c) => SysOk(c)
    case Execute(cmd, junk, _) => InDomain(cmd) && |junk| == ELF_BYTES
    case Exception(msg, _) => NUL !in msg
    case Store(off, _) => off < S.PAGE
    case Key(scan) => scan < 0x100
    case _ => true
  }

  predicate Shaped(a: State) {
    |a.terms| == MAX_TERMINALS && a.active < MAX_TERMINALS && Running(a)
  }

  /** The event can happen: the running program makes calls the kernel accepts, a blocked read
      waits, and a store through the screen page finds it mapped. */
  ghost predicate Enabled(img: Image, a: State, e: Event)
    requires Sized(img) && StateOk(img, a)
  {
    && Running(a)
    && EventOk(e)
    && (e.Syscall? ==> !Blocked(a.terms[a.active], e.c))
    && (e.Store? ==> a.mapped)
  }

  const KILLED := 256

  /** What `vidmap` stores through its pointer: the address of the screen page. */
  const SCREEN_START: seq<byte> := LittleEndian(Paging.MB4 * Paging.VIDMAP_PAGE)

  // ---------- the keyboard ----------

  /** What one scan code means: new modifiers, an event for the visible terminal, a terminal
      to show. */
  datatype KeyEffect = KeyEffect(mods: Mods, local: seq<LEvent>, show: Option<nat>)

  function KeyMeans(m: Mods, scan: nat): (k: KeyEffect)
    requires scan < 0x100
    ensures k.show.Some? ==> k.show.value < MAX_TERMINALS
    ensures |k.local| <= 1
    ensures k.mods.shift == (scan == 0x2A || scan == 0x36 || (m.shift && scan != 0xAA && scan != 0xB6))
    ensures k.mods.ctrl == (scan == 0x1D || (m.ctrl && scan != 0x9D))
    ensures k.mods.alt == (scan == 0x38 || (m.alt && scan != 0xB8))
    ensures k.mods.caps == (m.caps != (scan == 0x3A))
    ensures forall l :: l in k.local ==> l.LType? || l == LHalt(true) || l == LWipe
    ensures forall l :: l in k.local && l.LType? ==> l.k.Valid()
  {
    if scan == 0x38 then KeyEffect(m.(alt := true), [], None)
    else if scan == 0xB8 then KeyEffect(m.(alt := false), [], None)
    else if scan == 0x2A || scan == 0x36 then KeyEffect(m.(shift := true), [], None)
    else if scan == 0xAA || scan == 0xB6 then KeyEffect(m.(shift := false), [], None)
    else if scan == 0x3A then KeyEffect(m.(caps := !m.caps), [], None)
    else if scan == 0x1D then KeyEffect(m.(ctrl := true), [], None)
    else if scan == 0x9D then KeyEffect(m.(ctrl := false), [], None)
    else if scan == 0x2E && m.ctrl then KeyEffect(m, [LHalt(true)], None)
    else if scan == 0x26 && m.ctrl then KeyEffect(m, [LWipe], None)
    else if scan == 0x1C then KeyEffect(m, [LType(LB.Enter)], None)
    else if scan == 0x0E then KeyEffect(m, [LType(LB.Erase)], None)
    else if scan == 0x0F then KeyEffect(m, [LType(LB.Char(SPACE))], if m.alt then Some(0) else None)
    else if 0x3B <= scan <= 0x3D then KeyEffect(m, [], if m.alt then Some(scan - 0x3B) else None)
    else if scan < KEYS && !m.ctrl && KeyChar(m, scan) != NUL then
      KeyEffect(m, [LType(LB.Char(KeyChar(m, scan)))], None)
    else KeyEffect(m, [], None)
  }

  // ---------- processes ----------

  function ShellProc(pid: int, ctx: Ctx): Proc {
    Proc(pid, ctx, INITIAL_TABLE, [])
  }

  /** The pid a fresh shell gets when the last process of terminal `t` ends. */
  function RespawnPid(a: State, t: nat): int
    requires |a.terms| == MAX_TERMINALS && t < MAX_TERMINALS && a.terms[t].procs != []
  {
    LowestFree(Used(AllPids(a)) - {a.terms[t].Leaf().pid}, 0)
  }

  /** The end of the leaf process of terminal `t`: its parent goes on, or a new shell does. */
  function KillEvents(a: State, t: nat, ctx: Ctx): seq<LEvent>
    requires |a.terms| == MAX_TERMINALS && t < MAX_TERMINALS && a.terms[t].procs != []
  {
    if |a.terms[t].procs| > 1 then [LPop] else [LPop, LPush(ShellProc(RespawnPid(a, t), ctx))]
  }

  /** The process that runs after that. */
  function AfterKill(a: State, t: nat): int
    requires |a.terms| == MAX_TERMINALS && t < MAX_TERMINALS && a.terms[t].procs != []
  {
    var n := |a.terms[t].procs|;
    if n > 1 then a.terms[t].procs[n - 2].pid else RespawnPid(a, t)
  }

  function ShellProgram(img: Image): Program
    requires Sized(img)
  {
    match Resolve(img, SHELL, Repeat(0, ELF_BYTES))
    case Runnable(program) => program
    case _ => Program(0, [])
  }

  function KillOutcome(img: Image, a: State, t: nat, code: nat): Outcome
    requires Sized(img) && |a.terms| == MAX_TERMINALS && t < MAX_TERMINALS && a.terms[t].procs != []
  {
    if |a.terms[t].procs| > 1 then ExecReturned(a.terms[t].Leaf().caller, code)
    else Entered(RespawnPid(a, t), ShellProgram(img))
  }

  /** The pid `execute` gives to a command, or -1 if it fails. */
  function ExecPid(img: Image, a: State, cmd: seq<byte>, junk: seq<byte>): int
    requires Sized(img) && |a.terms| == MAX_TERMINALS && |junk| == ELF_BYTES
  {
    if Resolve(img, CommandName(cmd), junk).Runnable? then LowestFree(Used(AllPids(a)), 0) else -1
  }

  /** The terminal a tick switches to. */
  function Next(a: State): nat {
    (a.active + 1) % MAX_TERMINALS
  }

  function TickEvents(a: State, t: nat, ctx: Ctx): seq<LEvent>
    requires |a.terms| == MAX_TERMINALS && t < MAX_TERMINALS
  {
    if t == a.active then [LSave(ctx)]
    else if t != Next(a) then []
    else if a.terms[t].procs == [] then
      var p := LowestFree(Used(AllPids(a)), 0);
      if p == -1 then [LWipe] else [LWipe, LPush(ShellProc(p, ctx))]
    else if a.terms[t].halt then [LHalt(false)] + KillEvents(a, t, ctx)
    else []
  }

  // ---------- one step ----------

  /** The events that a step delivers to terminal `t`. */
  function Local(img: Image, a: State, e: Event, t: nat): seq<LEvent>
    requires Sized(img) && Shaped(a) && EventOk(e) && t < MAX_TERMINALS
  {
    match e
    case Syscall(c) => if t == a.active then [LSys(c)] else []
    case Execute(cmd, junk, ctx) =>
      var p := ExecPid(img, a, cmd, junk);
      if t == a.active && p != -1 then [LPush(Proc(p, ctx, INITIAL_TABLE, CommandArgs(cmd)))] else []
    case Halt(_, ctx) => if t == a.active then KillEvents(a, t, ctx) else []
    case Exception(msg, ctx) => if t == a.active then [LPrint(msg)] + KillEvents(a, t, ctx) else []
    case Vidmap(_) => []
    case Store(off, b) => if t == a.active then [LStore(off, b)] else []
    case Key(scan) => if t == a.visible then KeyMeans(a.mods, scan).local else []
    case ClockInterrupt => [LClock]
    case Tick(ctx) => TickEvents(a, t, ctx)
  }

  /** The process whose pages the step maps, if it maps any. */
  function Mapped(img: Image, a: State, e: Event): int
    requires Sized(img) && Shaped(a) && EventOk(e)
  {
    match e
    case Execute(cmd, junk, _) => ExecPid(img, a, cmd, junk)
    case Halt(_, _) => AfterKill(a, a.active)
    case Exception(_, _) => AfterKill(a, a.active)
    case Tick(_) =>
      var v := a.terms[Next(a)];
      if v.procs == [] then LowestFree(Used(AllPids(a)), 0)
      else if v.halt then AfterKill(a, Next(a))
      else v.Leaf().pid
    case _ => -1
  }

  function NextVid(a: State, e: Event): (vid: seq<bool>)
    requires Shaped(a)
    ensures |vid| == |a.vid|
  {
    if e.Vidmap? && 0 <= a.terms[a.active].Leaf().pid < |a.vid|
    then a.vid[a.terms[a.active].Leaf().pid := e.addr != 0] else a.vid
  }

  function NextMapped(img: Image, a: State, e: Event): bool
    requires Sized(img) && Shaped(a) && EventOk(e)
  {
    var p := Mapped(img, a, e);
    if 0 <= p < |a.vid| then a.vid[p]
    else if e.Vidmap? && Paging.InProgram(e.addr) then true
    else a.mapped
  }

  function VisibleAfterTick(a: State): nat {
    if a.target != a.visible && a.target == Next(a) then a.target else a.visible
  }

  function OutcomeOf(img: Image, a: State, e: Event): Outcome
    requires Sized(img) && StateOk(img, a) && Enabled(img, a, e)
  {
    var v := a.terms[a.active];
    match e
    case Syscall(c) => Returned(Serve(img, v, c).1)
    case Execute(cmd, junk, _) =>
      var p := ExecPid(img, a, cmd, junk);
      if p == -1 then Returned(FAILED) else Entered(p, Resolve(img, CommandName(cmd), junk).program)
    case Halt(status, _) => KillOutcome(img, a, a.active, status % 0x100)
    case Exception(_, _) => KillOutcome(img, a, a.active, KILLED)
    case Vidmap(addr) => Returned(if Paging.InProgram(addr) then Reply(0, SCREEN_START) else FAILED)
    case Tick(ctx) =>
      var w := a.terms[Next(a)];
      if w.procs == [] then
        (var p := LowestFree(Used(AllPids(a)), 0);
         if p == -1 then FellThrough(ctx) else Entered(p, ShellProgram(img)))
      else if w.halt then KillOutcome(img, a, Next(a), KILLED)
      else Switched(w.ctx)
    case _ => Returned(Reply(0, []))
  }

  lemma KillEventsOk(img: Image, a: State, t: nat, ctx: Ctx)
    requires Sized(img) && |a.terms| == MAX_TERMINALS && t < MAX_TERMINALS && a.terms[t].procs != []
    ensures AllOk(img, KillEvents(a, t, ctx))
  {
  }

  lemma TickEventsOk(img: Image, a: State, t: nat, ctx: Ctx)
    requires Sized(img) && |a.terms| == MAX_TERMINALS && t < MAX_TERMINALS
    ensures AllOk(img, TickEvents(a, t, ctx))
  {
    if a.terms[t].procs != [] {
      KillEventsOk(img, a, t, ctx);
    }
  }

  lemma KeyEventsOk(img: Image, m: Mods, scan: nat)
    requires Sized(img) && scan < 0x100
    ensures AllOk(img, KeyMeans(m, scan).local)
  {
    var ls := KeyMeans(m, scan).local;
    forall i | 0 <= i < |ls|
      ensures LEventOk(img, ls[i])
    {
      assert ls[i] in ls;
    }
  }

  lemma LocalOk(img: Image, a: State, e: Event, t: nat)
    requires Sized(img) && Shaped(a) && EventOk(e) && t < MAX_TERMINALS
    ensures AllOk(img, Local(img, a, e, t))
  {
    if e.Tick? {
      TickEventsOk(img, a, t, e.ctx);
    } else if e.Key? {
      KeyEventsOk(img, a.mods, e.scan);
    } else if t == a.active {
      KillEventsOk(img, a, t, if e.Halt? || e.Exception? then e.ctx else Ctx(0, 0));
    }
  }

  ghost function TerminalAfter(img: Image, a: State, e: Event, t: nat): (v: Terminal)
    requires WellFormed(img) && StateOk(img, a) && Enabled(img, a, e) && t < MAX_TERMINALS
    ensures TerminalOk(img, v)
  {
    LocalOk(img, a, e, t);
    LRun(img, a.terms[t], Local(img, a, e, t))
  }

  ghost function Step(img: Image, a: State, e: Event): State
    requires WellFormed(img) && StateOk(img, a) && Enabled(img, a, e)
  {
    State(
      [TerminalAfter(img, a, e, 0), TerminalAfter(img, a, e, 1), TerminalAfter(img, a, e, 2)],
      if e.Tick? then Next(a) else a.active,
      if e.Tick? then VisibleAfterTick(a) else a.visible,
      if e.Key? && KeyMeans(a.mods, e.scan).show.Some? then KeyMeans(a.mods, e.scan).show.value else a.target,
      if e.Key? then KeyMeans(a.mods, e.scan).mods else a.mods,
      NextVid(a, e),
      NextMapped(img, a, e))
  }
}
