/** The kernel's own variables (student-distrib/syscalls.h, terminal_driver.h), their invariant,
    and the three terminals they stand for. */
module KernelState {
  import opened CInt
  import opened FileSystem
  import opened Programs
  import opened Paging
  import opened Terminals
  import opened Keyboard
  import opened Machine
  import opened Stacks
  import S = Screen
  import LB = LineBuffer
  import VR = VirtualRtc

  const EIGHT_KB := 0x2000

  /** Which driver a descriptor is for. */
  datatype Ftable = StdInOut | RegularTable | DirectoryTable | RtcTable

  /** A descriptor: closing it leaves the other fields as they are. */
  datatype Fd = Fd(ftable: Ftable, inode: nat, pos: nat, open: bool)

  /** A process control block: a fixed slot of memory per pid, reused as it is. */
  datatype Pcb = Pcb(
    fds: seq<Fd>,
    parent: Option<int>,
    pid: int,
    save: Ctx,
    tssEsp0: int,
    args: seq<byte>,
    vidmapActive: bool)

  /** An entry of `terminal_data`. */
  datatype Term = Term(
    cursorX: int,
    cursorY: int,
    currPid: int,
    buffer: seq<byte>,
    enterFlag: bool,
    charIdx: int,
    tssEsp0: int,
    save: Ctx,
    rtc: VR.Rtc,
    haltFlag: bool)

  /** All of the kernel's variables, with the stacks that the parent links spell out. */
  datatype Vars = Vars(
    pidarray: seq<bool>,
    currPid: int,
    pcbs: seq<Pcb>,
    terms: seq<Term>,
    active: int,
    visible: int,
    target: int,
    tssEsp0: int,
    mods: Mods,
    video: seq<byte>,
    back: seq<seq<byte>>,
    tables: Tables,
    stacks: seq<Stack>)

  /** The kernel stack of a process: just below its slot's 8KB. */
  function StackTop(pid: int): int {
    MB8 - (EIGHT_KB * pid + 4)
  }

  // ---------- shape ----------

  ghost predicate TermOk(t: Term) {
    && S.CursorOk(t.cursorX, t.cursorY)
    && |t.buffer| == LB.SIZE
    && 0 <= t.charIdx < LB.SIZE
    && NEWLINE !in t.buffer[..t.charIdx]
  }

  ghost predicate Shape(r: Vars) {
    && |r.pidarray| == |r.pcbs| == MAX_PROCESSES
    && |r.terms| == |r.back| == MAX_TERMINALS
    && 0 <= r.active < MAX_TERMINALS && 0 <= r.visible < MAX_TERMINALS && 0 <= r.target < MAX_TERMINALS
    && |r.video| == S.PAGE
    && (forall t :: 0 <= t < MAX_TERMINALS ==> |r.back[t]| == S.PAGE)
    && (forall t :: 0 <= t < MAX_TERMINALS ==> TermOk(r.terms[t]))
    && (forall p :: 0 <= p < MAX_PROCESSES ==> |r.pcbs[p].fds| == MAX_FDS)
    && |r.tables.dir| == ENTRIES && |r.tables.table0| == ENTRIES
  }

  // ---------- process structure ----------

  ghost predicate FdOk(img: Image, f: Fd)
    requires Sized(img)
  {
    f.open ==>
      match f.ftable
      case StdInOut => false
      case RegularTable => FileOk(img, File(f.inode, f.pos))
      case DirectoryTable => FileOk(img, Dir(f.pos))
      case RtcTable => true
  }

  ghost predicate FdsOk(img: Image, fds: seq<Fd>)
    requires Sized(img)
  {
    && |fds| == MAX_FDS
    && fds[0].open && fds[0].ftable == StdInOut && fds[0].inode == 0
    && fds[1].open && fds[1].ftable == StdInOut && fds[1].inode == 1
    && forall k :: 2 <= k < MAX_FDS ==> FdOk(img, fds[k])
  }

  function TopOr(st: Stack): int {
    if st == [] then -1 else Top(st)
  }

  /** The pcb of process `i` of a stack: its parent is the process below it, whose kernel stack
      it remembers; its arguments are one string. */
  ghost predicate LinkOk(img: Image, pcbs: seq<Pcb>, st: Stack, i: nat)
    requires Sized(img) && i < |st|
  {
    && 0 <= st[i] < |pcbs|
    && var pcb := pcbs[st[i]];
       && pcb.pid == st[i]
       && pcb.parent == (if i == 0 then None else Some(st[i - 1]))
       && (i > 0 ==> pcb.tssEsp0 == StackTop(st[i - 1]))
       && FdsOk(img, pcb.fds)
       && NUL !in pcb.args
  }

  /** `pidarray` and the parent links spell out the stacks; every other terminal remembers its
      leaf and that leaf's kernel stack. */
  ghost predicate Structure(img: Image, r: Vars)
    requires Sized(img) && Shape(r)
  {
    && StacksOk(r.stacks)
    && (forall p :: 0 <= p < MAX_PROCESSES ==> (r.pidarray[p] <==> p in Used(r.stacks)))
    && (forall t, i :: 0 <= t < MAX_TERMINALS && 0 <= i < |r.stacks[t]| ==> LinkOk(img, r.pcbs, r.stacks[t], i))
    && r.currPid == TopOr(r.stacks[r.active])
    && (forall t :: 0 <= t < MAX_TERMINALS && t != r.active ==>
          && r.terms[t].currPid == TopOr(r.stacks[t])
          && (r.stacks[t] != [] ==> r.terms[t].tssEsp0 == StackTop(Top(r.stacks[t]))))
  }

  // ---------- processor and page tables ----------

  /** Where terminal `t`'s screen is in memory now. */
  function DisplayAddr(l: Layout, r: Vars, t: int): int {
    if r.visible == t then VIDEO else l.backBuffers + KB4 * t
  }

  /** The screen page, if it is open, is the running terminal's. */
  function OpenScreen(l: Layout, r: Vars): Option<nat>
    requires |r.tables.dir| == ENTRIES && 0 <= r.active
  {
    if r.tables.dir[VIDMAP_PAGE].present then Some(DisplayAddr(l, r, r.active)) else None
  }

  /** Some tables for some process: what holds while a switch is under way. */
  ghost predicate Switchable(l: Layout, t: Tables) {
    exists p: int, s: Option<nat> :: Maps(l, t, p, s)
  }

  /** The processor is set up for the leaf of the running terminal: its kernel stack, its
      memory, and its terminal's screen. */
  ghost predicate Ready(l: Layout, r: Vars)
    requires Shape(r)
  {
    && r.currPid >= 0
    && r.tssEsp0 == StackTop(r.currPid)
    && Maps(l, r.tables, r.currPid, OpenScreen(l, r))
  }

  ghost predicate Inv(img: Image, l: Layout, r: Vars) {
    && Sized(img)
    && l.Valid()
    && Shape(r)
    && Structure(img, r)
    && r.stacks[r.active] != []
    && Ready(l, r)
  }

  // ---------- the terminals ----------

  function AbsFd(f: Fd): Option<OpenFile> {
    if !f.open then None else
    match f.ftable
    case StdInOut => Some(if f.inode == 1 then Stdout else Stdin)
    case RegularTable => Some(File(f.inode, f.pos))
    case DirectoryTable => Some(Dir(f.pos))
    case RtcTable => Some(Clock)
  }

  function AbsFds(fds: seq<Fd>): (t: Table)
    ensures |t| == |fds| && forall k :: 0 <= k < |fds| ==> t[k] == AbsFd(fds[k])
  {
    seq(|fds|, k requires 0 <= k < |fds| => AbsFd(fds[k]))
  }

  function AbsProc(pcb: Pcb, pid: int): Proc {
    Proc(pid, pcb.save, AbsFds(pcb.fds), pcb.args)
  }

  /** The processes of a stack, from their slots. */
  function AbsProcs(pcbs: seq<Pcb>, st: Stack): (ps: seq<Proc>)
    requires forall i :: 0 <= i < |st| ==> 0 <= st[i] < |pcbs|
    ensures |ps| == |st|
    ensures forall i :: 0 <= i < |st| ==> ps[i] == AbsProc(pcbs[st[i]], st[i])
  {
    seq(|st|, i requires 0 <= i < |st| => AbsProc(pcbs[st[i]], st[i]))
  }

  /** `get_video_mem`: the bytes that terminal `t` shows or would show. */
  function Logical(r: Vars, t: nat): seq<byte>
    requires |r.back| == MAX_TERMINALS && t < MAX_TERMINALS
  {
    if r.visible == t then r.video else r.back[t]
  }

  function AbsScreen(r: Vars, t: nat): S.Screen
    requires |r.back| == |r.terms| == MAX_TERMINALS && t < MAX_TERMINALS
  {
    S.Screen(Logical(r, t), r.terms[t].cursorX, r.terms[t].cursorY)
  }

  function AbsLine(t: Term): LB.Line
    requires 0 <= t.charIdx <= |t.buffer|
  {
    LB.Line(t.buffer[..t.charIdx], t.buffer[t.charIdx..], t.enterFlag)
  }

  ghost predicate PidsInRange(r: Vars) {
    && |r.stacks| == MAX_TERMINALS
    && forall t, i :: 0 <= t < MAX_TERMINALS && 0 <= i < |r.stacks[t]| ==> 0 <= r.stacks[t][i] < MAX_PROCESSES
  }

  ghost function AbsTerminal(r: Vars, t: nat): Terminal
    requires Shape(r) && PidsInRange(r) && t < MAX_TERMINALS
  {
    Terminal(AbsScreen(r, t), AbsLine(r.terms[t]), r.terms[t].rtc, AbsProcs(r.pcbs, r.stacks[t]),
             r.terms[t].haltFlag, r.terms[t].save)
  }

  function VidFlags(pcbs: seq<Pcb>): (v: seq<bool>)
    ensures |v| == |pcbs| && forall p :: 0 <= p < |pcbs| ==> v[p] == pcbs[p].vidmapActive
  {
    seq(|pcbs|, p requires 0 <= p < |pcbs| => pcbs[p].vidmapActive)
  }

  /** The machine that the kernel's variables stand for. */
  ghost function Abs(r: Vars): State
    requires Shape(r) && PidsInRange(r)
  {
    State([AbsTerminal(r, 0), AbsTerminal(r, 1), AbsTerminal(r, 2)], r.active, r.visible, r.target, r.mods,
          VidFlags(r.pcbs), r.tables.dir[VIDMAP_PAGE].present)
  }

  lemma AbsPids(r: Vars)
    requires Shape(r) && PidsInRange(r)
    ensures AllPids(Abs(r)) == r.stacks
  {
    assert Pids(AbsTerminal(r, 0).procs) == r.stacks[0];
    assert Pids(AbsTerminal(r, 1).procs) == r.stacks[1];
    assert Pids(AbsTerminal(r, 2).procs) == r.stacks[2];
  }

  lemma AbsFdsOk(img: Image, fds: seq<Fd>)
    requires Sized(img) && FdsOk(img, fds)
    ensures TableOk(img, AbsFds(fds))
  {
    assert forall k :: 2 <= k < MAX_FDS ==> FdOk(img, fds[k]);
  }

  lemma AbsTerminalOk(img: Image, r: Vars, t: nat)
    requires Sized(img) && Shape(r) && PidsInRange(r) && t < MAX_TERMINALS
    requires forall i :: 0 <= i < |r.stacks[t]| ==> LinkOk(img, r.pcbs, r.stacks[t], i)
    ensures TerminalOk(img, AbsTerminal(r, t))
  {
    var v := AbsTerminal(r, t);
    assert TermOk(r.terms[t]);
    forall i | 0 <= i < |v.procs|
      ensures TableOk(img, v.procs[i].fds)
    {
      assert LinkOk(img, r.pcbs, r.stacks[t], i);
      AbsFdsOk(img, r.pcbs[r.stacks[t][i]].fds);
    }
  }

  lemma AbsStateOk(img: Image, r: Vars)
    requires Sized(img) && Shape(r) && Structure(img, r)
    ensures PidsInRange(r) && StateOk(img, Abs(r))
  {
    InRange(r);
    hide FdsOk, TableOk, StacksOk, Used, AbsTerminal, TerminalOk, TermOk, LinkOk;
    AbsTerminalOk(img, r, 0);
    AbsTerminalOk(img, r, 1);
    AbsTerminalOk(img, r, 2);
  }

  lemma InRange(r: Vars)
    requires StacksOk(r.stacks)
    ensures PidsInRange(r)
  {
  }

  /** The invariant makes a well-formed machine in which a process runs. */
  lemma AbsOk(img: Image, l: Layout, r: Vars)
    requires Inv(img, l, r)
    ensures PidsInRange(r) && StateOk(img, Abs(r)) && PidsOk(Abs(r)) && Running(Abs(r))
  {
    AbsStateOk(img, r);
    AbsPids(r);
    hide StateOk, StacksOk;
    assert Pids(Abs(r).terms[r.active].procs) == r.stacks[r.active];
  }

  // ---------- changes ----------

  /** Another entry and another screen page for terminal `t`. */
  function SetTerm(r: Vars, t: nat, term: Term, mem: seq<byte>): Vars
    requires |r.terms| == |r.back| == MAX_TERMINALS && t < MAX_TERMINALS
  {
    r.(terms := r.terms[t := term],
       video := if r.visible == t then mem else r.video,
       back := if r.visible == t then r.back else r.back[t := mem])
  }

  /** Another screen for terminal `t`. */
  function SetScreen(r: Vars, t: nat, s: S.Screen): Vars
    requires |r.terms| == |r.back| == MAX_TERMINALS && t < MAX_TERMINALS
  {
    SetTerm(r, t, r.terms[t].(cursorX := s.x, cursorY := s.y), s.mem)
  }

  /** Another entry for terminal `t`. */
  function SetEntry(r: Vars, t: nat, term: Term): Vars
    requires |r.terms| == MAX_TERMINALS && t < MAX_TERMINALS
  {
    r.(terms := r.terms[t := term])
  }

  /** A terminal entry with another keyboard line. */
  function WithLine(t: Term, line: LB.Line): Term {
    t.(buffer := line.text + line.rest, charIdx := |line.text|, enterFlag := line.enter)
  }

  lemma WithLineIsLine(t: Term, line: LB.Line)
    requires line.Valid()
    ensures AbsLine(WithLine(t, line)) == line
    ensures S.CursorOk(t.cursorX, t.cursorY) ==> TermOk(WithLine(t, line))
  {
    assert (line.text + line.rest)[..|line.text|] == line.text;
  }

  /** The key that a character in the buffer stands for. */
  function PressOf(c: byte): (k: LB.Press)
    ensures k.Valid()
  {
    if c == NEWLINE then LB.Enter else if c == S.BACKSPACE then LB.Erase else LB.Char(c)
  }

  /** The buffer after a key, in one piece. */
  lemma TypedBuffer(t: Term, c: byte)
    requires TermOk(t)
    ensures var (line, echo) := LB.Type(AbsLine(t), PressOf(c));
            WithLine(t, line)
            == if c == NEWLINE then t.(enterFlag := true, buffer := t.buffer[t.charIdx := NEWLINE])
               else if c == S.BACKSPACE then
                 if t.charIdx > 0 then t.(buffer := t.buffer[t.charIdx - 1 := SPACE], charIdx := t.charIdx - 1) else t
               else if t.charIdx < LB.SIZE - 1 then t.(buffer := t.buffer[t.charIdx := c], charIdx := t.charIdx + 1)
               else t
  {
    var l := AbsLine(t);
    assert l.text + l.rest == t.buffer;
    assert [NEWLINE] + l.rest[1..] == l.rest[0 := NEWLINE];
    if t.charIdx > 0 {
      assert l.text[..t.charIdx - 1] + ([SPACE] + l.rest) == t.buffer[t.charIdx - 1 := SPACE];
    }
    assert (l.text + [c]) + l.rest[1..] == t.buffer[t.charIdx := c];
    assert l.text + ([NEWLINE] + l.rest[1..]) == t.buffer[t.charIdx := NEWLINE];
  }

  /** Before the first process: nothing is in use, wherever the cursors are. */
  ghost predicate Booting(r: Vars) {
    && Shape(r)
    && (forall p :: 0 <= p < MAX_PROCESSES ==> !r.pidarray[p])
    && r.currPid == -1
    && r.active == 0
    && r.stacks == [[], [], []]
    && (forall t :: 0 <= t < MAX_TERMINALS ==> r.terms[t].currPid == -1)
  }

  /** The variables after `terminal_init`. */
  function BootVars(memory: seq<Pcb>, video: seq<byte>, back: seq<seq<byte>>, tables: Tables): Vars {
    var blank := Term(0, 0, -1, Repeat(0, LB.SIZE), false, 0, 0, Ctx(0, 0), VR.Rtc(VR.RATE / 2, 0, false), false);
    Vars([false, false, false, false, false, false], -1, memory, [blank, blank, blank], 0, 0, 0, MB8,
         Mods(false, false, false, false), video, back, tables, [[], [], []])
  }

  /** At boot every terminal has an empty line that waits for Enter, a home cursor, a clock that
      fires twice a second and no Ctrl-C pending; no modifier is down and the first terminal is
      shown. */
  lemma BootTerminals(memory: seq<Pcb>, video: seq<byte>, back: seq<seq<byte>>, tables: Tables, t: nat)
    requires t < MAX_TERMINALS
    ensures var r := BootVars(memory, video, back, tables);
            var e := r.terms[t];
            && |r.terms| == 3 && r.mods == Mods(false, false, false, false)
            && r.active == r.visible == r.target == 0
            && 0 <= e.charIdx <= |e.buffer| && AbsLine(e).text == [] && !AbsLine(e).enter && AbsLine(e).Valid()
            && e.cursorX == e.cursorY == 0 && !e.haltFlag
            && e.rtc.Valid() && !e.rtc.fired && VR.Fires(e.rtc, 1024) == 2
  {
    VR.TicksClosedForm(BootVars(memory, video, back, tables).terms[t].rtc, 1024);
  }
}
