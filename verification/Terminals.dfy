/** The kernel as its users see it: three terminals, each with a process stack, a screen, a
    keyboard line and a clock of its own, and a few words of state that they share. Every
    step is described by the local events it delivers to each terminal. */
module Terminals {
  import opened CInt
  import opened FileSystem
  import opened Programs
  import Paging
  import S = Screen
  import LB = LineBuffer
  import VR = VirtualRtc

  const MAX_FDS := 8

  // ---------- one terminal ----------

  /** A saved kernel stack and frame pointer: an opaque place to resume from. */
  datatype Ctx = Ctx(esp: int, ebp: int)

  datatype OpenFile = Stdin | Stdout | File(inode: nat, pos: nat) | Dir(pos: nat) | Clock

  type Table = seq<Option<OpenFile>>

  const INITIAL_TABLE: Table := [Some(Stdin), Some(Stdout), None, None, None, None, None, None]

  /** A process and the point in its parent's `execute` that its end returns to. */
  datatype Proc = Proc(pid: int, caller: Ctx, fds: Table, args: seq<byte>)

  datatype Terminal = Terminal(screen: S.Screen, line: LB.Line, rtc: VR.Rtc, procs: seq<Proc>, halt: bool, ctx: Ctx) {
    function Leaf(): Proc
      requires procs != []
    {
      procs[|procs| - 1]
    }

    function Fds(): Table
      requires procs != []
    {
      Leaf().fds
    }

    function WithFds(fds: Table): Terminal
      requires procs != []
    {
      this.(procs := procs[|procs| - 1 := Leaf().(fds := fds)])
    }
  }

  ghost predicate FileOk(img: Image, f: OpenFile)
    requires Sized(img)
  {
    match f
    case Stdin => false
    case Stdout => false
    case File(inode, pos) =>
      && inode < NInodes(img)
      && AllStored(img, inode, 0, FileSize(img, inode))
      && pos <= FileSize(img, inode)
    case Dir(pos) => pos <= NDentries(img)
    case Clock => true
  }

  /** Descriptors 0 and 1 are the terminal's, the others are closed or readable. */
  ghost predicate TableOk(img: Image, fds: Table)
    requires Sized(img)
  {
    && |fds| == MAX_FDS
    && fds[0] == Some(Stdin) && fds[1] == Some(Stdout)
    && forall k :: 2 <= k < MAX_FDS && fds[k].Some? ==> FileOk(img, fds[k].value)
  }

  ghost predicate TerminalOk(img: Image, v: Terminal)
    requires Sized(img)
  {
    && v.screen.Valid()
    && v.line.Valid()
    && forall i :: 0 <= i < |v.procs| ==> TableOk(img, v.procs[i].fds)
  }

  // ---------- system calls on descriptors ----------

  datatype Sys =
    | Write(fd: int, buf: seq<byte>)
    | Read(fd: int, n: nat)
    | Open(name: seq<byte>)
    | Close(fd: int)
    | GetArgs(addr: nat, room: int)

  predicate SysOk(c: Sys) {
    c.Open? ==> NUL !in c.name
  }

  datatype Reply = Reply(value: int, data: seq<byte>)

  const FAILED := Reply(-1, [])

  function FdOf(fds: Table, fd: int): Option<OpenFile>
    requires |fds| == MAX_FDS
  {
    if 0 <= fd < MAX_FDS then fds[fd] else None
  }

  /** A read of the keyboard waits for Enter, a read of the clock for its interrupt. */
  predicate Blocked(v: Terminal, c: Sys)
    requires v.procs != [] && |v.Fds()| == MAX_FDS
  {
    && c.Read?
    && ((FdOf(v.Fds(), c.fd) == Some(Stdin) && !v.line.enter) || (FdOf(v.Fds(), c.fd) == Some(Clock) && !v.rtc.fired))
  }

  function NonZero(buf: seq<byte>): (r: seq<byte>)
    ensures NUL !in r
  {
    if buf == [] then [] else (if buf[0] == NUL then [] else [buf[0]]) + NonZero(buf[1..])
  }

  /** NULs are skipped wherever they are, and nothing else. */
  lemma {:induction false} NonZeroParts(a: seq<byte>, b: seq<byte>)
    ensures NonZero(a + [NUL] + b) == NonZero(a) + NonZero(b)
    decreases |a|
  {
    if a == [] {
      assert (a + [NUL] + b)[1..] == b;
    } else {
      assert (a + [NUL] + b)[1..] == a[1..] + [NUL] + b;
      NonZeroParts(a[1..], b);
    }
  }

  lemma {:induction false} NonZeroText(s: seq<byte>)
    requires NUL !in s
    ensures NonZero(s) == s
    decreases |s|
  {
    if s != [] {
      NonZeroText(s[1..]);
    }
  }

  function FirstClosed(fds: Table, i: nat): (k: nat)
    requires i <= |fds|
    ensures i <= k <= |fds|
    ensures forall j :: i <= j < k ==> fds[j].Some?
    ensures k < |fds| ==> fds[k].None?
    decreases |fds| - i
  {
    if i < |fds| && fds[i].Some? then FirstClosed(fds, i + 1) else i
  }

  function ServeWrite(v: Terminal, fd: int, buf: seq<byte>): (Terminal, Reply)
    requires v.procs != [] && |v.Fds()| == MAX_FDS && v.screen.Valid()
  {
    match FdOf(v.Fds(), fd)
    case Some(Stdout) => (v.(screen := S.PutAll(v.screen, NonZero(buf))), Reply(|buf|, []))
    case Some(Clock) =>
      if |buf| != 4 then (v, FAILED) else
      (match VR.SetRate(v.rtc, U32(buf, 0))
       case Some(rtc) => (v.(rtc := rtc), Reply(4, []))
       case None => (v, FAILED))
    case _ => (v, FAILED)
  }

  function ServeRead(img: Image, v: Terminal, fd: int, n: nat): (Terminal, Reply)
    requires Sized(img) && v.procs != [] && |v.Fds()| == MAX_FDS && v.line.Valid()
    requires FdOf(v.Fds(), fd).Some? && FdOf(v.Fds(), fd).value.File? ==> FileOk(img, FdOf(v.Fds(), fd).value)
  {
    match FdOf(v.Fds(), fd)
    case Some(Stdin) =>
      var (line, data) := LB.ReadLine(v.line, n);
      (v.(line := line), Reply(|data|, data))
    case Some(File(inode, pos)) =>
      var hi := ReadEnd(FileSize(img, inode), pos, n);
      (v.WithFds(v.Fds()[fd := Some(File(inode, hi))]), Reply(hi - pos, Content(img, inode)[pos..hi]))
    case Some(Dir(pos)) =>
      if pos >= NDentries(img) then (v, Reply(0, [])) else
      (v.WithFds(v.Fds()[fd := Some(Dir(pos + 1))]),
       Reply(if n > NAME_LEN then NAME_LEN else n, DirBytes(DentryAt(img, pos).name, n)))
    case Some(Clock) => (v.(rtc := v.rtc.(fired := false)), Reply(0, []))
    case _ => (v, FAILED)
  }

  function ServeOpen(img: Image, v: Terminal, name: seq<byte>): (Terminal, Reply)
    requires Sized(img) && v.procs != [] && |v.Fds()| == MAX_FDS
  {
    var d := Lookup(img, name);
    var fd := FirstClosed(v.Fds(), 0);
    if d.None? || fd == MAX_FDS then (v, FAILED) else
    match d.value.kind
    case RegularType => (v.WithFds(v.Fds()[fd := Some(File(d.value.inode, 0))]), Reply(fd, []))
    case DirectoryType => (v.WithFds(v.Fds()[fd := Some(Dir(0))]), Reply(fd, []))
    case RtcType => (v.WithFds(v.Fds()[fd := Some(Clock)]).(rtc := VR.Reset(v.rtc)), Reply(fd, []))
    case OtherType => (v, FAILED)
  }

  function ServeClose(v: Terminal, fd: int): (Terminal, Reply)
    requires v.procs != [] && |v.Fds()| == MAX_FDS
  {
    match FdOf(v.Fds(), fd)
    case None => (v, FAILED)
    case Some(Stdin) => (v, FAILED)
    case Some(Stdout) => (v, FAILED)
    case Some(Clock) => (v.WithFds(v.Fds()[fd := None]).(rtc := VR.Reset(v.rtc)), Reply(0, []))
    case Some(_) => (v.WithFds(v.Fds()[fd := None]), Reply(0, []))
  }

  /** The argument string with its NUL, or as much of it as there is room for and a failure.
      The buffer must be in the program's own memory. */
  function ServeGetArgs(v: Terminal, addr: nat, room: int): Reply
    requires v.procs != []
  {
    var args := v.Leaf().args;
    if room <= 0 || !Paging.InProgram(addr) then FAILED
    else if |args| < room then Reply(0, args + [NUL])
    else Reply(-1, args[..room])
  }

  function Serve(img: Image, v: Terminal, c: Sys): (Terminal, Reply)
    requires Sized(img) && TerminalOk(img, v) && v.procs != []
  {
    match c
    case Write(fd, buf) => ServeWrite(v, fd, buf)
    case Read(fd, n) => ServeRead(img, v, fd, n)
    case Open(name) => ServeOpen(img, v, name)
    case Close(fd) => ServeClose(v, fd)
    case GetArgs(addr, room) => (v, ServeGetArgs(v, addr, room))
  }

  lemma WithFdsOk(img: Image, v: Terminal, fds: Table)
    requires Sized(img) && TerminalOk(img, v) && v.procs != [] && TableOk(img, fds)
    ensures TerminalOk(img, v.WithFds(fds))
  {
  }

  lemma ServeReadOk(img: Image, v: Terminal, fd: int, n: nat)
    requires Sized(img) && TerminalOk(img, v) && v.procs != []
    ensures TerminalOk(img, ServeRead(img, v, fd, n).0)
    ensures |ServeRead(img, v, fd, n).0.procs| == |v.procs|
  {
    match FdOf(v.Fds(), fd) {
      case Some(File(inode, pos)) =>
        WithFdsOk(img, v, v.Fds()[fd := Some(File(inode, ReadEnd(FileSize(img, inode), pos, n)))]);
      case Some(Dir(pos)) =>
        if pos < NDentries(img) {
          WithFdsOk(img, v, v.Fds()[fd := Some(Dir(pos + 1))]);
        }
      case _ =>
    }
  }

  lemma ServeOpenOk(img: Image, v: Terminal, name: seq<byte>)
    requires WellFormed(img) && TerminalOk(img, v) && v.procs != []
    ensures TerminalOk(img, ServeOpen(img, v, name).0)
    ensures |ServeOpen(img, v, name).0.procs| == |v.procs|
  {
    var fd := FirstClosed(v.Fds(), 0);
    if Lookup(img, name).Some? && fd < MAX_FDS {
      var d := Lookup(img, name).value;
      FileOfWellFormed(img, name);
      match d.kind {
        case RegularType => WithFdsOk(img, v, v.Fds()[fd := Some(File(d.inode, 0))]);
        case DirectoryType => WithFdsOk(img, v, v.Fds()[fd := Some(Dir(0))]);
        case RtcType => WithFdsOk(img, v, v.Fds()[fd := Some(Clock)]);
        case OtherType =>
      }
    }
  }

  /** System calls keep a terminal well formed: in particular 0 and 1 stay open on it. */
  lemma ServeOk(img: Image, v: Terminal, c: Sys)
    requires WellFormed(img) && TerminalOk(img, v) && v.procs != []
    ensures TerminalOk(img, Serve(img, v, c).0)
    ensures |Serve(img, v, c).0.procs| == |v.procs|
  {
    match c
    case Write(fd, buf) =>
    case Read(fd, n) => ServeReadOk(img, v, fd, n);
    case Open(name) => ServeOpenOk(img, v, name);
    case Close(fd) =>
      if FdOf(v.Fds(), fd).Some? && fd > 1 {
        WithFdsOk(img, v, v.Fds()[fd := None]);
      }
    case GetArgs(_, _) =>
  }

  /** Whatever the call, only the leaf's descriptors change among the processes. */
  lemma ServeProcs(img: Image, v: Terminal, c: Sys)
    requires WellFormed(img) && TerminalOk(img, v) && v.procs != []
    ensures |Serve(img, v, c).0.procs| == |v.procs|
    ensures Serve(img, v, c).0.procs == v.WithFds(Serve(img, v, c).0.Fds()).procs
  {
    hide S.PutAll, NonZero, VR.SetRate, LB.ReadLine, ReadEnd, Content, DirBytes, Lookup, FirstClosed;
  }

  // ---------- local events ----------

  datatype LEvent =
    | LSys(c: Sys)
    | LPush(p: Proc)
    | LPop
    | LPrint(text: seq<byte>)
    | LType(k: LB.Press)
    | LWipe
    | LHalt(flag: bool)
    | LSave(ctx: Ctx)
    | LClock
    | LStore(off: nat, b: byte)

  ghost predicate LEventOk(img: Image, l: LEvent)
    requires Sized(img)
  {
    match l
    case LSys(c) => SysOk(c)
    case LPush(p) => TableOk(img, p.fds)
    case LType(k) => k.Valid()
    case LStore(off, b) => off < S.PAGE
    case _ => true
  }

  function EchoOf(k: LB.Press): byte {
    match k
    case Char(c) => c
    case Enter => NEWLINE
    case Erase => S.BACKSPACE
  }

  /** A key press: the line changes and, if it took the key, the screen echoes it. */
  function TypeKey(v: Terminal, k: LB.Press): Terminal
    requires v.line.Valid() && k.Valid() && v.screen.Valid()
  {
    var (line, echo) := LB.Type(v.line, k);
    v.(line := line, screen := if echo then S.Put(v.screen, EchoOf(k)) else v.screen)
  }

  /** The end of the running process: closing its clock resets the terminal's. */
  function Pop(v: Terminal): Terminal
    requires v.procs != []
  {
    v.(procs := v.procs[..|v.procs| - 1],
       rtc := if Some(Clock) in v.Fds() then VR.Reset(v.rtc) else v.rtc)
  }

  function LStep(img: Image, v: Terminal, l: LEvent): Terminal
    requires Sized(img) && TerminalOk(img, v) && LEventOk(img, l)
  {
    match l
    case LSys(c) => if v.procs == [] then v else Serve(img, v, c).0
    case LPush(p) => v.(procs := v.procs + [p])
    case LPop => if v.procs == [] then v else Pop(v)
    case LPrint(text) => v.(screen := S.PutAll(v.screen, text))
    case LType(k) => TypeKey(v, k)
    case LWipe => v.(screen := S.Clear(v.screen))
    case LHalt(flag) => v.(halt := flag)
    case LSave(ctx) => v.(ctx := ctx)
    case LClock => v.(rtc := VR.Tick(v.rtc))
    case LStore(off, b) => v.(screen := v.screen.(mem := v.screen.mem[off := b]))
  }

  lemma LStepOk(img: Image, v: Terminal, l: LEvent)
    requires WellFormed(img) && TerminalOk(img, v) && LEventOk(img, l)
    ensures TerminalOk(img, LStep(img, v, l))
  {
    if l.LSys? && v.procs != [] {
      ServeOk(img, v, l.c);
    }
  }

  ghost predicate AllOk(img: Image, ls: seq<LEvent>)
    requires Sized(img)
  {
    forall i :: 0 <= i < |ls| ==> LEventOk(img, ls[i])
  }

  /** A private terminal that sees only its own events. */
  ghost function LRun(img: Image, v: Terminal, ls: seq<LEvent>): (r: Terminal)
    requires WellFormed(img) && TerminalOk(img, v) && AllOk(img, ls)
    ensures TerminalOk(img, r)
    decreases |ls|
  {
    if ls == [] then v else
    LStepOk(img, v, ls[0]);
    LRun(img, LStep(img, v, ls[0]), ls[1..])
  }

  lemma {:induction false} LRunAppend(img: Image, v: Terminal, ks: seq<LEvent>, ls: seq<LEvent>)
    requires WellFormed(img) && TerminalOk(img, v) && AllOk(img, ks) && AllOk(img, ls)
    ensures AllOk(img, ks + ls)
    ensures LRun(img, v, ks + ls) == LRun(img, LRun(img, v, ks), ls)
    decreases |ks|
  {
    if ks == [] {
      assert ks + ls == ls;
    } else {
      assert (ks + ls)[1..] == ks[1..] + ls;
      LStepOk(img, v, ks[0]);
      LRunAppend(img, LStep(img, v, ks[0]), ks[1..], ls);
    }
  }
}
