/** The kernel (student-distrib): its global variables, its system calls and its interrupt
    handlers. Kernel stacks are opaque contexts; what the processor does next is a result. */
module Kernel {
  import opened CInt
  import opened FileSystem
  import opened Programs
  import opened Paging
  import opened Terminals
  import opened Keyboard
  import opened Machine
  import opened MachineFacts
  import opened Runs
  import opened Stacks
  import opened KernelState
  import opened KernelRefinement
  import opened KernelInterrupts
  import opened KernelProcesses
  import opened KernelTicks
  import D = Display
  import S = Screen
  import LB = LineBuffer
  import LR = LineReader
  import FS = FileSystem
  import VR = VirtualRtc
  import PF = Printf

  class Kernel {
    const image: Image
    const mmu: Mmu
    const video: array<byte>
    const back0: array<byte>
    const back1: array<byte>
    const back2: array<byte>

    var pidarray: seq<bool>
    var currPid: int
    var pcbs: seq<Pcb>
    var terms: seq<Term>
    var active: int
    var visible: int
    var target: int
    var tssEsp0: int
    var mods: Mods
    ghost var stacks: seq<Stack>

    /** The objects the kernel is made of have their sizes and never share memory. */
    ghost predicate Fixed()
      reads this, mmu, mmu.dir, mmu.table0
    {
      && video.Length == back0.Length == back1.Length == back2.Length == S.PAGE
      && video != back0 && video != back1 && video != back2
      && back0 != back1 && back0 != back2 && back1 != back2
      && mmu.Valid()
    }

    ghost function View(): Vars
      reads this, video, back0, back1, back2, mmu, mmu.dir, mmu.table0
    {
      Vars(pidarray, currPid, pcbs, terms, active, visible, target, tssEsp0, mods,
           video[..], [back0[..], back1[..], back2[..]], mmu.View(), stacks)
    }

    /** `init_paging`, `terminal_init`, and a cleared screen: nothing runs yet. The pcbs are
        whatever is in memory, and so are the back buffers. */
    constructor (image: Image, layout: Layout, memory: seq<Pcb>)
      requires layout.Valid()
      requires |memory| == MAX_PROCESSES && forall p :: 0 <= p < MAX_PROCESSES ==> |memory[p].fds| == MAX_FDS
      ensures this.image == image && mmu.layout == layout && Fixed()
      ensures fresh(mmu) && fresh(mmu.dir) && fresh(mmu.table0)
      ensures fresh(video) && fresh(back0) && fresh(back1) && fresh(back2)
      ensures View() == BootVars(memory, View().video, View().back, View().tables)
      ensures Booting(View()) && Maps(layout, View().tables, -1, None)
    {
      this.image := image;
      var m := new Mmu(layout);
      this.mmu := m;
      this.video := new byte[S.PAGE];
      this.back0 := new byte[S.PAGE];
      this.back1 := new byte[S.PAGE];
      this.back2 := new byte[S.PAGE];
      pidarray := [false, false, false, false, false, false];
      currPid := -1;
      pcbs := memory;
      var blank := Term(0, 0, -1, Repeat(0, LB.SIZE), false, 0, 0, Ctx(0, 0), VR.Rtc(VR.RATE / 2, 0, false), false);
      terms := [blank, blank, blank];
      active, visible, target := 0, 0, 0;
      tssEsp0 := MB8;
      mods := Mods(false, false, false, false);
      stacks := [[], [], []];
    }

    // ---------- the display ----------

    /** `get_video_mem`. */
    function GetVideoMem(t: int): array<byte>
      reads this`visible
    {
      if visible == t then video
      else if t == 0 then back0
      else if t == 1 then back1
      else back2
    }

    /** `putc` on the running terminal. */
    method Putc(c: byte)
      requires Fixed() && Shape(View())
      modifies this`terms, GetVideoMem(active)
      ensures Fixed() && Shape(View())
      ensures View() == SetScreen(old(View()), active, S.Put(AbsScreen(old(View()), active), c))
    {
      assert TermOk(terms[active]);
      var buffer_mem := GetVideoMem(active);
      var x, y := D.PutIn(buffer_mem, c, terms[active].cursorX, terms[active].cursorY);
      SetCursorPos(x, y);
    }

    /** `set_cursor_pos`. */
    method SetCursorPos(x: int, y: int)
      requires 0 <= active < |terms|
      modifies this`terms
      ensures terms == old(terms)[active := old(terms)[active].(cursorX := x, cursorY := y)]
    {
      terms := terms[active := terms[active].(cursorX := x, cursorY := y)];
    }

    /** `clear` or `clear_terminal` on the running terminal, and the cursor reset. */
    method ClearResetCursor()
      requires Fixed() && Shape(View())
      modifies this`terms, GetVideoMem(active)
      ensures Fixed() && Shape(View())
      ensures View() == SetScreen(old(View()), active, S.Clear(AbsScreen(old(View()), active)))
    {
      assert TermOk(terms[active]);
      D.ClearBuffer(GetVideoMem(active));
      SetCursorPos(0, 0);
    }

    /** `puts`. */
    method Puts(s: seq<byte>)
      requires Fixed() && Shape(View())
      modifies this`terms, GetVideoMem(active)
      ensures Fixed() && Shape(View())
      ensures View() == SetScreen(old(View()), active, S.PutAll(AbsScreen(old(View()), active), s))
    {
      hide S.PutAll, S.Put, TermOk;
      ghost var start := AbsScreen(View(), active);
      ScreenParts(View());
      NothingPut(View());
      assert s[..0] == [];
      var index := 0;
      while index < |s|
        invariant 0 <= index <= |s|
        invariant Fixed() && Shape(View())
        invariant View() == SetScreen(old(View()), active, S.PutAll(start, s[..index]))
      {
        S.PutAllNext(start, s, index);
        Putc(s[index]);
        index := index + 1;
      }
      assert s[..index] == s;
    }

    // ---------- the keyboard line ----------

    /** `add_char_to_tbuff`: newline and backspace are keys of their own. */
    method AddCharToTbuff(c: byte) returns (status: bool)
      requires 0 <= visible < |terms| && |terms[visible].buffer| == LB.SIZE && terms[visible].charIdx >= 0
      modifies this`terms
      ensures TermOk(old(terms)[visible]) ==>
                && terms == old(terms)[visible :=
                     WithLine(old(terms)[visible], LB.Type(AbsLine(old(terms)[visible]), PressOf(c)).0)]
                && status == LB.Type(AbsLine(old(terms)[visible]), PressOf(c)).1
      ensures c == NEWLINE && old(terms)[visible].charIdx >= LB.SIZE ==>
                var t := old(terms)[visible];
                terms == old(terms)[visible := t.(enterFlag := true, buffer := t.buffer[LB.SIZE - 1 := NEWLINE])]
    {
      var t := terms[visible];
      if c == NEWLINE {
        var at := if t.charIdx >= LB.SIZE then LB.SIZE - 1 else t.charIdx;
        terms := terms[visible := t.(enterFlag := true, buffer := t.buffer[at := NEWLINE])];
        status := true;
      } else if c == S.BACKSPACE {
        if t.charIdx > 0 {
          var b := if t.charIdx <= LB.SIZE then t.buffer[t.charIdx - 1 := SPACE] else t.buffer;
          terms := terms[visible := t.(buffer := b, charIdx := t.charIdx - 1)];
          status := true;
        } else {
          status := false;
        }
      } else if t.charIdx < LB.SIZE - 1 {
        terms := terms[visible := t.(buffer := t.buffer[t.charIdx := c], charIdx := t.charIdx + 1)];
        status := true;
      } else {
        status := false;
      }
      if TermOk(t) {
        TypedBuffer(t, c);
      }
    }

    // ---------- system calls on descriptors ----------

    /** The invariant, over a well-formed image with a shell. */
    ghost predicate Invariant()
      reads this, video, back0, back1, back2, mmu, mmu.dir, mmu.table0
    {
      && Fixed()
      && WellFormed(image)
      && HasShell(image)
      && Inv(image, mmu.layout, View())
    }

    /** The machine of three terminals that the kernel is. */
    ghost function Now(): State
      reads this, video, back0, back1, back2, mmu, mmu.dir, mmu.table0
      requires Invariant()
      ensures StateOk(image, Now()) && PidsOk(Now()) && Running(Now())
    {
      AbsOk(image, mmu.layout, View());
      Abs(View())
    }

    /** The loop of `terminal_write`: everything but NULs, on the running terminal's screen. */
    method PutNonZero(buf: seq<byte>)
      requires Fixed() && Shape(View())
      modifies this`terms, GetVideoMem(active)
      ensures Fixed() && Shape(View())
      ensures View() == SetScreen(old(View()), active, S.PutAll(AbsScreen(old(View()), active), NonZero(buf)))
    {
      hide S.PutAll, S.Put, TermOk, NonZero;
      ghost var start := AbsScreen(View(), active);
      ScreenParts(View());
      NothingPut(View());
      assert buf[..0] == [];
      var i := 0;
      while i < |buf|
        invariant 0 <= i <= |buf|
        invariant Fixed() && Shape(View())
        invariant View() == SetScreen(old(View()), active, S.PutAll(start, NonZero(buf[..i])))
      {
        NonZeroNext(start, buf, i);
        if buf[i] != NUL {
          Putc(buf[i]);
        }
        i := i + 1;
      }
      assert buf[..i] == buf;
    }

    /** `terminal_write`. */
    method TerminalWrite(inode: nat, buf: seq<byte>) returns (r: int)
      requires Fixed() && Shape(View())
      modifies this`terms, GetVideoMem(active)
      ensures Fixed() && Shape(View())
      ensures inode == 0 ==> r == -1 && View() == old(View())
      ensures inode != 0 ==>
                && r == |buf|
                && View() == SetScreen(old(View()), active, S.PutAll(AbsScreen(old(View()), active), NonZero(buf)))
    {
      if inode == 0 {
        return -1;
      }
      PutNonZero(buf);
      return |buf|;
    }

    /** `rtc_write`: only four bytes, only a power of two up to 1024 by the bit test; as a
        signed number the most negative word passes too. */
    method RtcWrite(buf: seq<byte>) returns (r: int)
      requires 0 <= active < |terms|
      modifies this`terms
      ensures r == if |buf| == 4 && VR.SetRate(old(terms)[active].rtc, U32(buf, 0)).Some? then 4 else -1
      ensures terms == old(terms)[active := old(terms)[active].(rtc :=
                         if r == 4 then VR.SetRate(old(terms)[active].rtc, U32(buf, 0)).value
                         else old(terms)[active].rtc)]
    {
      if |buf| != 4 {
        return -1;
      }
      var buffer := U32(buf, 0);
      var rtc := terms[active].rtc;
      if buffer != 0 {
        VR.BitTest(buffer);
        VR.PowersBelow32(buffer);
      }
      if buffer != 0 && VR.BitAnd(buffer, buffer - 1) == 0 {
        if buffer >= VR.MIN_INT || buffer <= VR.RATE {
          var divider := if buffer >= VR.MIN_INT then -(VR.RATE / (0x1_0000_0000 - buffer)) else VR.RATE / buffer;
          terms := terms[active := terms[active].(rtc := VR.Rtc(divider, 0, rtc.fired))];
        } else {
          return -1;
        }
      } else {
        return -1;
      }
      return 4;
    }

    /** `write`, to the driver of the descriptor. */
    method DriverWrite(fd: int, buf: seq<byte>) returns (r: int)
      requires Fixed() && Shape(View()) && 0 <= currPid < MAX_PROCESSES
      modifies this`terms, GetVideoMem(active)
      ensures Fixed() && WriteEffect(old(View()), View(), fd, buf, r)
    {
      if fd < 0 || fd >= MAX_FDS {
        return -1;
      }
      var desc := pcbs[currPid].fds[fd];
      r := -1;
      if desc.open {
        match desc.ftable {
          case StdInOut => r := TerminalWrite(desc.inode, buf);
          case RtcTable => r := RtcWrite(buf);
          case _ =>
        }
      }
    }

    method Write(fd: int, buf: seq<byte>) returns (r: int)
      requires Invariant() && Enabled(image, Now(), Syscall(Terminals.Write(fd, buf)))
      modifies this`terms, GetVideoMem(active)
      ensures Invariant()
      ensures Now() == Step(image, old(Now()), Syscall(Terminals.Write(fd, buf)))
      ensures OutcomeOf(image, old(Now()), Syscall(Terminals.Write(fd, buf))) == Returned(Reply(r, []))
    {
      ghost var was := View();
      RunningParts(image, mmu.layout, was);
      r := DriverWrite(fd, buf);
      WriteRefines(image, mmu.layout, was, View(), fd, buf, r);
      Served(image, mmu.layout, was, View(), Terminals.Write(fd, buf), r, []);
    }

    /** `terminal_read`, once Enter has been pressed. */
    method TerminalRead(inode: nat, buf: array<byte>, nbytes: nat) returns (r: int, ghost data: seq<byte>)
      requires 0 <= active < |terms| && TermOk(terms[active]) && nbytes <= buf.Length
      modifies this`terms, buf
      ensures inode == 1 ==> r == -1 && data == [] && terms == old(terms)
      ensures inode != 1 ==>
                var (line, bytes) := LB.ReadLine(AbsLine(old(terms)[active]), nbytes);
                && r == |bytes| && data == bytes
                && terms == old(terms)[active := WithLine(old(terms)[active], line)]
      ensures |data| <= buf.Length && buf[..|data|] == data
    {
      if inode == 1 {
        return -1, [];
      }
      var t := terms[active];
      ghost var l := AbsLine(t);
      assert l.text + l.rest == t.buffer;
      var left, read_bytes := LR.CopyLine(t.buffer, buf, nbytes, l);
      terms := terms[active := t.(buffer := left, charIdx := 0, enterFlag := false)];
      return read_bytes, LB.ReadLine(l, nbytes).1;
    }

    /** `file_read` on an open file of a well-formed image. */
    method FileRead(fd: nat, buf: array<byte>, nbytes: nat) returns (r: int, ghost data: seq<byte>)
      requires Sized(image) && 0 <= currPid < |pcbs| && fd < |pcbs[currPid].fds| && nbytes <= buf.Length
      requires FileOk(image, File(pcbs[currPid].fds[fd].inode, pcbs[currPid].fds[fd].pos))
      modifies this`pcbs, buf
      ensures var f := old(pcbs)[currPid].fds[fd];
              var hi := ReadEnd(FileSize(image, f.inode), f.pos, nbytes);
              && r == hi - f.pos && data == Content(image, f.inode)[f.pos..hi]
              && pcbs == SetOneFd(old(pcbs), currPid, fd, f.(pos := hi))
      ensures |data| <= buf.Length && buf[..|data|] == data
    {
      var f := pcbs[currPid].fds[fd];
      ReadIsSliceOfContent(image, f.inode, f.pos, nbytes);
      data := ReadResult(image, f.inode, f.pos, nbytes).value;
      r := FS.ReadData(image, f.inode, f.pos, buf, nbytes);
      if r > 0 {
        SetFd(fd, f.(pos := f.pos + r));
      } else {
        assert pcbs[currPid].fds[fd := f] == pcbs[currPid].fds;
      }
    }

    /** `dir_read` on an open directory. */
    method DirectoryRead(fd: nat, buf: array<byte>, nbytes: nat) returns (r: int, ghost data: seq<byte>)
      requires Sized(image) && 0 <= currPid < |pcbs| && fd < |pcbs[currPid].fds| && nbytes <= buf.Length
      modifies this`pcbs, buf
      ensures var f := old(pcbs)[currPid].fds[fd];
              if f.pos >= NDentries(image) then r == 0 && data == [] && pcbs == old(pcbs)
              else
                && r == (if nbytes > NAME_LEN then NAME_LEN else nbytes)
                && data == DirBytes(DentryAt(image, f.pos).name, nbytes)
                && pcbs == SetOneFd(old(pcbs), currPid, fd, f.(pos := f.pos + 1))
      ensures |data| <= buf.Length && buf[..|data|] == data
    {
      var f := pcbs[currPid].fds[fd];
      hide U32, DirBytes;
      data := if f.pos >= NDentries(image) then [] else DirBytes(DentryAt(image, f.pos).name, nbytes);
      var pos: nat;
      r, pos := FS.DirRead(image, f.pos, buf, nbytes);
      if pos != f.pos {
        SetFd(fd, f.(pos := pos));
      }
    }

    /** `read`, from the driver of the descriptor. */
    method DriverRead(fd: int, buf: array<byte>, nbytes: nat) returns (r: int, ghost data: seq<byte>)
      requires Fixed() && Sized(image) && Shape(View()) && 0 <= currPid < MAX_PROCESSES
      requires Desc(View(), fd).open && Desc(View(), fd).ftable == RegularTable ==>
                 FileOk(image, File(Desc(View(), fd).inode, Desc(View(), fd).pos))
      requires nbytes <= buf.Length && buf !in {video, back0, back1, back2}
      modifies this`terms, this`pcbs, buf
      ensures Fixed() && ReadEffect(image, old(View()), View(), fd, nbytes, r, data)
      ensures |data| <= buf.Length && buf[..|data|] == data
    {
      if fd < 0 || fd >= MAX_FDS {
        return -1, [];
      }
      assert TermOk(terms[active]);
      var desc := pcbs[currPid].fds[fd];
      if !desc.open {
        return -1, [];
      }
      match desc.ftable {
        case StdInOut => r, data := TerminalRead(desc.inode, buf, nbytes);
        case RegularTable => r, data := FileRead(fd, buf, nbytes);
        case DirectoryTable => r, data := DirectoryRead(fd, buf, nbytes);
        case RtcTable =>
          terms := terms[active := terms[active].(rtc := terms[active].rtc.(fired := false))];
          r, data := 0, [];
      }
    }

    method Read(fd: int, buf: array<byte>, nbytes: nat) returns (r: int, ghost data: seq<byte>)
      requires Invariant() && Enabled(image, Now(), Syscall(Terminals.Read(fd, nbytes)))
      requires nbytes <= buf.Length && buf !in {video, back0, back1, back2}
      modifies this`terms, this`pcbs, buf
      ensures Invariant()
      ensures Now() == Step(image, old(Now()), Syscall(Terminals.Read(fd, nbytes)))
      ensures OutcomeOf(image, old(Now()), Syscall(Terminals.Read(fd, nbytes))) == Returned(Reply(r, data))
      ensures |data| <= buf.Length && buf[..|data|] == data
    {
      ghost var was := View();
      RunningParts(image, mmu.layout, was);
      RegularIsReadable(image, mmu.layout, was, fd);
      r, data := DriverRead(fd, buf, nbytes);
      ReadRefines(image, mmu.layout, was, View(), fd, nbytes, r, data);
      Served(image, mmu.layout, was, View(), Terminals.Read(fd, nbytes), r, data);
    }

    /** `alloc_fd`. */
    method AllocFd() returns (fd: nat)
      requires 0 <= currPid < |pcbs|
      ensures fd == FirstFree(pcbs[currPid].fds, 0)
    {
      var fds := pcbs[currPid].fds;
      fd := 0;
      while fd < |fds|
        invariant fd <= |fds| && FirstFree(fds, 0) == FirstFree(fds, fd)
      {
        if !fds[fd].open {
          return;
        }
        fd := fd + 1;
      }
    }

    /** The text of a format string, after what has been printed. */
    method Say(text: seq<byte>, ghost was: Vars, ghost said: seq<byte>)
      requires Fixed() && Shape(was) && AbsScreen(was, was.active).Valid() && View() == Announced(was, said)
      modifies this`terms, GetVideoMem(active)
      ensures Fixed() && View() == Announced(was, said + text)
    {
      AnnouncedTwice(was, said, text);
      hide S.PutAll, TermOk;
      Puts(text);
    }

    /** A number and more text, after what has been printed. */
    method SayNumber(word: nat, rest: seq<byte>, ghost was: Vars, ghost said: seq<byte>)
      requires Fixed() && Shape(was) && AbsScreen(was, was.active).Valid() && View() == Announced(was, said)
      requires word < PF.UINT
      modifies this`terms, GetVideoMem(active)
      ensures Fixed() && View() == Announced(was, said + PF.SignedNumeral(PF.Signed(word)) + rest)
    {
      hide PF.SignedNumeral, PF.Signed, Announced;
      var conv_buf := new byte[36];
      var text := PF.PrintSigned(PF.Signed(word), conv_buf);
      Say(text, was, said);
      Say(rest, was, said + text);
    }

    /** The message with which `file_open` refuses an inode, or a block of one. */
    method Refuse(inode: nat, word: nat)
      requires Sized(image) && Fixed() && Shape(View()) && AbsScreen(View(), active).Valid()
      requires inode < PF.UINT && word < PF.UINT
      modifies this`terms, GetVideoMem(active)
      ensures Fixed()
      ensures View() == Announced(old(View()), Refusal(image, inode, word))
    {
      hide Announced, PF.SignedNumeral, PF.Signed, TermOk;
      ghost var was := View();
      NothingSaid(was);
      assert [] + Ascii("Bad inode ") == Ascii("Bad inode ") && [] + Ascii("Bad block ") == Ascii("Bad block ");
      hide Ascii;
      if inode >= NInodes(image) {
        Say(Ascii("Bad inode "), was, []);
        SayNumber(inode, [NEWLINE], was, [] + Ascii("Bad inode "));
      } else {
        Say(Ascii("Bad block "), was, []);
        SayNumber(inode, Ascii(" in inode "), was, [] + Ascii("Bad block "));
        SayNumber(word, [NEWLINE], was,
                  [] + Ascii("Bad block ") + PF.SignedNumeral(PF.Signed(inode)) + Ascii(" in inode "));
      }
    }

    /** `file_open` on descriptor `fd`, whose driver has been set. */
    method FileOpen(fd: nat, name: seq<byte>, word: nat) returns (err: int)
      requires Sized(image) && NUL !in name && 0 <= currPid < MAX_PROCESSES && fd < MAX_FDS && word < PF.UINT
      requires Fixed() && Shape(View()) && AbsScreen(View(), active).Valid()
      requires Lookup(image, name).Some? && Lookup(image, name).value.kind == RegularType
      modifies this`pcbs, this`terms, GetVideoMem(active)
      ensures Fixed()
      ensures var r := old(View());
              var d := Lookup(image, name).value;
              var f := r.pcbs[r.currPid].fds[fd];
              && d.inode < PF.UINT
              && err == (if Openable(image, d.inode) then 0 else -1)
              && View() == if Openable(image, d.inode)
                           then r.(pcbs := SetOneFd(r.pcbs, r.currPid, fd, Fd(f.ftable, d.inode, 0, true)))
                           else Announced(r, Refusal(image, d.inode, word))
    {
      hide Announced, Refusal, TermOk;
      var de := FS.ReadDentryByName(image, name);
      var inode := de.value.inode;
      if inode >= NInodes(image) {
        Refuse(inode, word);
        return -1;
      }
      var i := 0;
      while i < FileSize(image, inode) / BLOCK
        invariant 0 <= i <= FileSize(image, inode) / BLOCK <= MAX_FILE_BLOCKS
        invariant forall k: nat :: k < i ==> BlockNo(image, inode, k) < NBlocks(image)
      {
        if BlockNo(image, inode, i) >= NBlocks(image) {
          Refuse(inode, word);
          return -1;
        }
        i := i + 1;
      }
      SetFd(fd, pcbs[currPid].fds[fd].(inode := inode, pos := 0, open := true));
      return 0;
    }

    /** Another state of one of the running process's descriptors. */
    method SetFd(fd: nat, f: Fd)
      requires 0 <= currPid < |pcbs| && fd < |pcbs[currPid].fds|
      modifies this`pcbs
      ensures pcbs == SetOneFd(old(pcbs), currPid, fd, f)
    {
      pcbs := pcbs[currPid := pcbs[currPid].(fds := pcbs[currPid].fds[fd := f])];
    }

    /** `rtc_open` and `rtc_close` on the running terminal's clock. */
    method ResetClock()
      requires 0 <= active < |terms|
      modifies this`terms
      ensures terms == old(terms)[active := old(terms)[active].(rtc := VR.Reset(old(terms)[active].rtc))]
    {
      var rtc := terms[active].rtc;
      terms := terms[active := terms[active].(rtc := rtc.(divider := VR.RATE / 2, counter := 0))];
    }

    /** The driver's part of `open` for a regular file. */
    method OpenRegular(fd: nat, name: seq<byte>, de: Dentry, word: nat) returns (err: int)
      requires Sized(image) && NUL !in name && 0 <= currPid < MAX_PROCESSES && fd < MAX_FDS && word < PF.UINT
      requires Fixed() && Shape(View()) && AbsScreen(View(), active).Valid()
      requires Lookup(image, name) == Some(de) && de.kind == RegularType && de.inode < PF.UINT
      modifies this`terms, this`pcbs, GetVideoMem(active)
      ensures Fixed()
      ensures err == if Openable(image, de.inode) then 0 else -1
      ensures var r := old(View());
              var f := r.pcbs[r.currPid].fds[fd].(ftable := RegularTable);
              View() == if Openable(image, de.inode)
                        then r.(pcbs := SetOneFd(r.pcbs, r.currPid, fd, Fd(RegularTable, de.inode, 0, true)))
                        else Announced(r, Refusal(image, de.inode, word)).(
                               pcbs := SetOneFd(r.pcbs, r.currPid, fd, f))
    {
      hide Sized, U32, FileSize, Openable, TermOk, Refusal, S.PutAll;
      ghost var was := View();
      var f := pcbs[currPid].fds[fd];
      SetFd(fd, f.(ftable := RegularTable));
      err := FileOpen(fd, name, word);
      SetTwice(was.pcbs, currPid, fd, f.(ftable := RegularTable), Fd(RegularTable, de.inode, 0, true));
    }

    /** The driver's part of `open`, and the flag set whatever it says. */
    method OpenDescriptor(fd: nat, name: seq<byte>, de: Dentry, word: nat) returns (err: int)
      requires Sized(image) && NUL !in name && 0 <= currPid < MAX_PROCESSES && fd < MAX_FDS && word < PF.UINT
      requires Fixed() && Shape(View())
      requires Lookup(image, name) == Some(de) && de.kind != OtherType && de.inode < PF.UINT
      modifies this`terms, this`pcbs, GetVideoMem(active)
      ensures Fixed()
      ensures err == if DriverFails(image, de) then -1 else 0
      ensures View() == OpenedVars(image, old(View()), fd, de, word)
    {
      hide Sized, U32, FileSize, Openable, TermOk, Refusal, S.PutAll;
      ghost var was := View();
      ScreenParts(was);
      var f := pcbs[currPid].fds[fd];
      err := 0;
      if de.kind == RegularType {
        err := OpenRegular(fd, name, de, word);
      } else if de.kind == DirectoryType {
        SetFd(fd, Fd(DirectoryTable, de.inode, 0, true));
      } else {
        SetFd(fd, f.(ftable := RtcTable));
        ResetClock();
      }
      SetTwice(was.pcbs, currPid, fd, pcbs[currPid].fds[fd], pcbs[currPid].fds[fd].(open := true));
      SetFd(fd, pcbs[currPid].fds[fd].(open := true));
    }

    /** `open`, with the driver's part. */
    method DriverOpen(name: seq<byte>, word: nat) returns (r: int)
      requires Fixed() && Sized(image) && Shape(View()) && 0 <= currPid < MAX_PROCESSES && NUL !in name
      requires word < PF.UINT
      modifies this`terms, this`pcbs, GetVideoMem(active)
      ensures Fixed() && OpenEffect(image, old(View()), View(), name, word, r)
    {
      hide OpenedVars, TermOk;
      var de := FS.ReadDentryByName(image, name);
      if de.None? {
        return -1;
      }
      var fd := AllocFd();
      if fd >= MAX_FDS || de.value.kind == OtherType {
        return -1;
      }
      var err := OpenDescriptor(fd, name, de.value, word);
      r := if err != 0 then err else fd;
    }

    method Open(name: seq<byte>, word: nat) returns (r: int)
      requires Invariant() && Enabled(image, Now(), Syscall(Terminals.Open(name))) && word < PF.UINT
      modifies this`terms, this`pcbs, GetVideoMem(active)
      ensures Invariant()
      ensures Now() == Step(image, old(Now()), Syscall(Terminals.Open(name)))
      ensures OutcomeOf(image, old(Now()), Syscall(Terminals.Open(name))) == Returned(Reply(r, []))
    {
      ghost var was := View();
      RunningParts(image, mmu.layout, was);
      r := DriverOpen(name, word);
      OpenRefines(image, mmu.layout, was, View(), name, word, r);
      Served(image, mmu.layout, was, View(), Terminals.Open(name), r, []);
    }

    /** `close`, with the driver's part: `terminal_close` refuses and changes nothing. */
    method DriverClose(fd: int) returns (r: int)
      requires Fixed() && Shape(View()) && 0 <= currPid < MAX_PROCESSES
      modifies this`terms, this`pcbs
      ensures Fixed() && CloseEffect(old(View()), View(), fd, r)
    {
      if fd < 0 || fd >= MAX_FDS {
        return -1;
      }
      var desc := pcbs[currPid].fds[fd];
      if !desc.open {
        return -1;
      }
      if desc.ftable == StdInOut {
        r := -1;
      } else {
        if desc.ftable == RtcTable {
          ResetClock();
        }
        SetFd(fd, desc.(open := false));
        r := 0;
      }
    }

    method Close(fd: int) returns (r: int)
      requires Invariant() && Enabled(image, Now(), Syscall(Terminals.Close(fd)))
      modifies this`terms, this`pcbs
      ensures Invariant()
      ensures Now() == Step(image, old(Now()), Syscall(Terminals.Close(fd)))
      ensures OutcomeOf(image, old(Now()), Syscall(Terminals.Close(fd))) == Returned(Reply(r, []))
    {
      ghost var was := View();
      RunningParts(image, mmu.layout, was);
      r := DriverClose(fd);
      CloseRefines(image, mmu.layout, was, View(), fd, r);
      Served(image, mmu.layout, was, View(), Terminals.Close(fd), r, []);
    }

    /** `getargs`, into the buffer at `addr`: the bytes copied before a failure stay there. */
    method GetArgs(addr: nat, buf: array<byte>, nbytes: int) returns (r: int, ghost data: seq<byte>)
      requires Invariant() && Enabled(image, Now(), Syscall(Terminals.GetArgs(addr, nbytes)))
      requires nbytes <= buf.Length && buf !in {video, back0, back1, back2}
      modifies buf
      ensures Invariant()
      ensures Now() == Step(image, old(Now()), Syscall(Terminals.GetArgs(addr, nbytes)))
      ensures OutcomeOf(image, old(Now()), Syscall(Terminals.GetArgs(addr, nbytes))) == Returned(Reply(r, data))
      ensures |data| <= buf.Length && buf[..|data|] == data
    {
      hide Structure, TermOk, FdsOk, Step, OutcomeOf, PidsOk, TerminalOk, Ready;
      ghost var was := View();
      RunningParts(image, mmu.layout, was);
      LeafArgs(image, mmu.layout, was);
      r, data := -1, [];
      if nbytes > 0 && MB4 * USER_PAGING <= addr < MB4 * (USER_PAGING + 1) {
        var eos := CopyArgs(pcbs[currPid].args, buf, nbytes);
        data := if eos then pcbs[currPid].args + [NUL] else pcbs[currPid].args[..nbytes];
        if eos {
          r := 0;
        }
      }
      assert View() == was;
      GetArgsRefines(image, mmu.layout, was, addr, nbytes, r, data);
      Served(image, mmu.layout, was, View(), Terminals.GetArgs(addr, nbytes), r, data);
    }

    // ---------- the screen page ----------

    /** The address of `get_video_mem`. */
    function VideoMemAddress(t: int): (addr: nat)
      requires 0 <= t < MAX_TERMINALS
      reads this`visible
    {
      if visible == t then VIDEO else mmu.layout.backBuffers + KB4 * t
    }

    /** The flag is set before the pointer is checked; what is stored through the pointer is the
        address of the screen page. */
    method MapScreen(addr: nat) returns (r: int, stored: seq<byte>)
      requires Fixed() && Shape(View()) && 0 <= currPid < MAX_PROCESSES
      requires Maps(mmu.layout, View().tables, currPid, OpenScreen(mmu.layout, View()))
      modifies this`pcbs, mmu`vidmap, mmu.dir
      ensures Fixed() && VidmapEffect(mmu.layout, old(View()), View(), addr)
      ensures if InProgram(addr) then r == 0 && stored == SCREEN_START else r == -1 && stored == []
      ensures |SCREEN_START| == 4 && U32(SCREEN_START, 0) == MB4 * VIDMAP_PAGE
    {
      ghost var was := View();
      pcbs := pcbs[currPid := pcbs[currPid].(vidmapActive := addr != 0)];
      if addr < MB128 || addr >= MB128 + MB4 {
        return -1, [];
      }
      var frame := VideoMemAddress(active);
      mmu.VidmapPaging(true, frame);
      VidmapMaps(mmu.layout, was.tables, currPid, OpenScreen(mmu.layout, was), frame);
      return 0, LittleEndian(MB4 * VIDMAP_PAGE);
    }

    method Vidmap(addr: nat) returns (r: int, stored: seq<byte>)
      requires Invariant() && Enabled(image, Now(), Machine.Vidmap(addr))
      modifies this`pcbs, mmu`vidmap, mmu.dir
      ensures Invariant()
      ensures Now() == Step(image, old(Now()), Machine.Vidmap(addr))
      ensures OutcomeOf(image, old(Now()), Machine.Vidmap(addr)) == Returned(Reply(r, stored))
    {
      hide Structure, TermOk, FdsOk, Step, OutcomeOf, StateOk, PidsOk, TerminalOk, Abs, WellFormed, HasShell;
      ghost var was := View();
      RunningParts(image, mmu.layout, was);
      r, stored := MapScreen(addr);
      VidmapRefines(image, mmu.layout, was, View(), addr);
    }

    /** A user program's store at `off` in the screen page: the page table entry says where it
        lands. */
    method UserStore(off: nat, b: byte)
      requires Invariant() && Enabled(image, Now(), Store(off, b))
      modifies video, back0, back1, back2
      ensures Invariant()
      ensures Now() == Step(image, old(Now()), Store(off, b))
    {
      hide Structure, TermOk, FdsOk, Step, StateOk, PidsOk, TerminalOk, WellFormed, HasShell;
      ghost var was := View();
      AbsOk(image, mmu.layout, was);
      AbsPresent(was);
      hide Abs;
      StoreRefines(image, mmu.layout, was, off, b);
      var frame := mmu.vidmap.addr * KB4;
      FrameIsDisplay(mmu.layout, was);
      if frame == VIDEO {
        video[off] := b;
      } else if frame == mmu.layout.backBuffers {
        back0[off] := b;
      } else if frame == mmu.layout.backBuffers + KB4 {
        back1[off] := b;
      } else {
        back2[off] := b;
      }
      assert View() == SetScreen(was, active, AbsScreen(was, active).(mem := AbsScreen(was, active).mem[off := b]));
    }

    // ---------- the clock interrupt ----------

    /** The loop of `rtc_handler`. */
    method TickClocks()
      requires |terms| == MAX_TERMINALS
      modifies this`terms
      ensures terms == Ticked(old(terms), MAX_TERMINALS)
    {
      var i := 0;
      while i < MAX_TERMINALS
        invariant 0 <= i <= MAX_TERMINALS && terms == Ticked(old(terms), i)
      {
        var rtc := terms[i].rtc;
        rtc := rtc.(counter := rtc.counter + 1);
        if rtc.counter >= rtc.divider {
          rtc := rtc.(counter := 0, fired := true);
        }
        terms := terms[i := terms[i].(rtc := rtc)];
        i := i + 1;
      }
    }

    method RtcHandler()
      requires Invariant() && Enabled(image, Now(), ClockInterrupt)
      modifies this`terms
      ensures Invariant()
      ensures Now() == Step(image, old(Now()), ClockInterrupt)
    {
      ghost var was := View();
      ClockRefines(image, mmu.layout, was);
      TickClocks();
      assert View() == Rounds(was, MAX_TERMINALS);
    }

    // ---------- the keyboard ----------

    /** A key that prints: into the line and, if it is taken, onto the screen. */
    method TypeAndEcho(c: byte)
      requires Fixed() && Shape(View()) && active == visible && c != NUL
      modifies this`terms, GetVideoMem(active)
      ensures Fixed() && Shape(View())
      ensures View() == TypedVars(old(View()), visible, PressOf(c))
    {
      TermParts(View(), visible);
      assert TermOk(terms[visible]);
      ghost var was := View();
      ghost var line := LB.Type(AbsLine(terms[visible]), PressOf(c)).0;
      WithLineIsLine(terms[visible], line);
      var status := AddCharToTbuff(c);
      assert View() == SetEntry(was, visible, WithLine(was.terms[visible], line));
      assert AbsScreen(View(), visible) == AbsScreen(was, visible);
      if status {
        Putc(c);
      }
    }

    /** The keys that set the modifier flags. */
    method ModifierKey(scan: nat) returns (done: bool)
      modifies this`mods
      ensures done <==> scan in {0x38, 0xB8, 0x2A, 0xAA, 0x36, 0xB6, 0x3A, 0x1D, 0x9D}
      ensures mods == if done && scan < 0x100 then KeyMeans(old(mods), scan).mods else old(mods)
    {
      done := true;
      if scan == 0x38 {
        mods := mods.(alt := true);
      } else if scan == 0xB8 {
        mods := mods.(alt := false);
      } else if scan == 0x2A || scan == 0x36 {
        mods := mods.(shift := true);
      } else if scan == 0xAA || scan == 0xB6 {
        mods := mods.(shift := false);
      } else if scan == 0x3A {
        mods := mods.(caps := !mods.caps);
      } else if scan == 0x1D {
        mods := mods.(ctrl := true);
      } else if scan == 0x9D {
        mods := mods.(ctrl := false);
      } else {
        done := false;
      }
    }

    /** `switch_visible_terminal`: the change itself is left to the scheduler. */
    method SwitchVisibleTerminal(num: int)
      modifies this`target
      ensures target == num
    {
      target := num;
    }

    /** The Alt-Fn keys. */
    method FunctionKey(num: int)
      modifies this`target
      ensures target == if mods.alt then num else old(target)
    {
      if mods.alt {
        SwitchVisibleTerminal(num);
      }
    }

    /** Ctrl-C asks for the end of the visible terminal's program, Ctrl-L clears its screen. */
    method CtrlKey(scan: nat) returns (done: bool)
      requires Fixed() && Shape(View()) && active == visible
      modifies this`terms, GetVideoMem(active)
      ensures Fixed() && AbsScreen(old(View()), visible).Valid()
      ensures done <==> (scan == 0x2E || scan == 0x26) && mods.ctrl
      ensures done && scan == 0x2E ==>
                View() == SetEntry(old(View()), visible, old(terms)[visible].(haltFlag := true))
      ensures done && scan == 0x26 ==>
                View() == SetScreen(old(View()), visible, S.Clear(AbsScreen(old(View()), visible)))
      ensures !done ==> View() == old(View())
    {
      TermParts(View(), visible);
      hide TermOk, S.Clear;
      done := false;
      if scan == 0x2E && mods.ctrl {
        terms := terms[visible := terms[visible].(haltFlag := true)];
        done := true;
      } else if scan == 0x26 && mods.ctrl {
        ClearResetCursor();
        done := true;
      }
    }

    /** `special_chars`. Tab types a space and then runs into the case of F1. */
    method SpecialChars(scan: nat) returns (special: bool)
      requires Fixed() && Shape(View()) && active == visible && scan < 0x100
      modifies this`terms, this`mods, this`target, GetVideoMem(active)
      ensures Fixed()
      ensures special <==> Special(old(mods), scan)
      ensures View() == if special then KeyedVars(old(View()), scan) else old(View())
    {
      hide TypedVars, KeyedVars, KeyMeans, S.Clear, SetScreen, SetEntry, TermOk;
      if Special(mods, scan) {
        SpecialKeys(View(), scan);
      }
      special := ModifierKey(scan);
      if !special {
        special := CtrlKey(scan);
      }
      if !special {
        special := true;
        if scan == 0x1C {
          TypeAndEcho(NEWLINE);
        } else if scan == 0x0E {
          TypeAndEcho(S.BACKSPACE);
        } else if scan == 0x0F {
          TypeAndEcho(SPACE);
          FunctionKey(0);
        } else if scan == 0x3B {
          FunctionKey(0);
        } else if scan == 0x3C {
          FunctionKey(1);
        } else if scan == 0x3D {
          FunctionKey(2);
        } else {
          special := false;
        }
      }
    }

    /** A key at the running terminal, when that is the visible one. */
    method KeyHere(scan: nat)
      requires Fixed() && Shape(View()) && active == visible && scan < 0x100
      modifies this`terms, this`mods, this`target, GetVideoMem(active)
      ensures Fixed() && View() == KeyedVars(old(View()), scan)
    {
      hide KeyedVars, TypedVars, TermOk, Keymap;
      if !Special(mods, scan) {
        PlainKeys(View(), scan);
      }
      var special := SpecialChars(scan);
      if !special {
        if scan < KEYS && !mods.ctrl && KeyChar(mods, scan) != NUL {
          TypeAndEcho(KeyChar(mods, scan));
        }
      }
    }

    /** `keyboard_handler`: the visible terminal is made the running one while it works. */
    method HandleKey(scan: nat)
      requires Fixed() && Shape(View()) && scan < 0x100
      modifies this`terms, this`mods, this`target, this`active, GetVideoMem(visible)
      ensures Fixed() && Shape(View())
      ensures View() == KeyedVars(old(View()), scan)
    {
      hide KeyedVars, TermOk;
      ghost var was := View();
      KeyedElsewhere(was, scan, visible);
      KeyedShape(was, scan);
      var prev := active;
      active := visible;
      KeyHere(scan);
      active := prev;
    }

    method KeyboardHandler(scan: nat)
      requires Invariant() && Enabled(image, Now(), Key(scan))
      modifies this`terms, this`mods, this`target, this`active, GetVideoMem(visible)
      ensures Invariant()
      ensures Now() == Step(image, old(Now()), Key(scan))
    {
      hide Structure, TermOk, FdsOk, Step, StateOk, PidsOk, TerminalOk, Abs, KeyedVars;
      ghost var was := View();
      KeyRefines(image, mmu.layout, was, scan);
      HandleKey(scan);
    }

    // ---------- processes ----------

    /** What holds between system calls and inside them: everything but the processor's setup. */
    ghost predicate Consistent()
      reads this, video, back0, back1, back2, mmu, mmu.dir, mmu.table0
    {
      && Fixed()
      && Sized(image)
      && Shape(View())
      && Structure(image, View())
      && Switchable(mmu.layout, View().tables)
    }

    /** `get_pid`. */
    method GetPid() returns (pid: int)
      requires |pidarray| == MAX_PROCESSES && |stacks| == MAX_TERMINALS
      requires forall p :: 0 <= p < MAX_PROCESSES ==> (pidarray[p] <==> p in Used(stacks))
      modifies this`pidarray
      ensures pid == LowestFree(Used(stacks), 0)
      ensures pidarray == if pid == -1 then old(pidarray) else old(pidarray)[pid := true]
    {
      var i := 0;
      while i < MAX_PROCESSES
        invariant 0 <= i <= MAX_PROCESSES && pidarray == old(pidarray)
        invariant LowestFree(Used(stacks), 0) == LowestFree(Used(stacks), i)
      {
        if !pidarray[i] {
          pidarray := pidarray[i := true];
          return i;
        }
        i := i + 1;
      }
      return -1;
    }

    /** `get_pcb`: the slot of a pid in use. */
    function GetPcb(pid: int): Option<int>
      requires |pidarray| == MAX_PROCESSES
      reads this`pidarray
    {
      if pid < 0 || pid >= MAX_PROCESSES then None
      else if !pidarray[pid] then None
      else Some(pid)
    }

    /** `pcb_init`; the flag of `vidmap` is not touched. */
    method PcbInit(pid: int, args: seq<byte>)
      requires |pcbs| == MAX_PROCESSES && 0 <= pid < MAX_PROCESSES && |pcbs[pid].fds| == MAX_FDS
      requires |pidarray| == MAX_PROCESSES && (currPid >= 0 ==> currPid < MAX_PROCESSES && pidarray[currPid])
      modifies this`pcbs
      ensures var was := old(pcbs)[pid];
              pcbs == old(pcbs)[pid :=
                NewPcb(was, pid, if currPid < 0 then None else Some(currPid), was.save, was.tssEsp0, args)]
    {
      var was := pcbs[pid];
      var fds := was.fds;
      var i := 0;
      while i < MAX_FDS
        invariant 0 <= i <= MAX_FDS && |fds| == MAX_FDS
        invariant forall k :: 0 <= k < i ==> fds[k] == InitFds(was.fds)[k]
        invariant forall k :: i <= k < MAX_FDS ==> fds[k] == was.fds[k]
      {
        fds := fds[i := fds[i].(open := false)];
        if i == 0 || i == 1 {
          fds := fds[i := Fd(StdInOut, i, 0, true)];
        }
        i := i + 1;
      }
      assert fds == InitFds(was.fds);
      pcbs := pcbs[pid := was.(fds := fds, pid := pid, parent := GetPcb(currPid), args := args)];
    }

    /** `set_process_paging` for the current process. */
    method SetProcessPaging(pid: nat)
      requires Fixed() && Shape(View()) && pid == currPid < MAX_PROCESSES
      requires Switchable(mmu.layout, View().tables)
      modifies mmu`vidmap, mmu.dir
      ensures Fixed() && View() == old(View()).(tables := View().tables)
      ensures Shape(View()) && Maps(mmu.layout, View().tables, pid, OpenScreen(mmu.layout, View()))
      ensures View().tables.dir[VIDMAP_PAGE].present == pcbs[pid].vidmapActive
    {
      hide TermOk;
      ghost var before := View().tables;
      ghost var old_pid, screen :| Maps(mmu.layout, before, old_pid, screen);
      mmu.MapProcess(pid);
      MapProcessMaps(mmu.layout, before, old_pid, pid, screen);
      ghost var between := View().tables;
      var frame := VideoMemAddress(active);
      mmu.VidmapPaging(pcbs[pid].vidmapActive, frame);
      VidmapMaps(mmu.layout, between, pid, screen, frame);
    }

    /** The process in slot `pid` becomes the current one, with its pages. */
    method EnterSlot(pid: int, args: seq<byte>, ghost was: Vars)
      requires Fixed() && Shape(was) && 0 <= pid < MAX_PROCESSES
      requires View() == was.(pidarray := was.pidarray[pid := true])
      requires was.currPid < MAX_PROCESSES && (was.currPid >= 0 ==> was.pidarray[was.currPid])
      requires Switchable(mmu.layout, was.tables)
      modifies this`pcbs, this`currPid, mmu`vidmap, mmu.dir
      ensures Fixed() && Shape(View())
      ensures View() == RolledBack(was, pid, args, View().tables).(pidarray := was.pidarray[pid := true])
      ensures Maps(mmu.layout, View().tables, pid, OpenScreen(mmu.layout, View()))
      ensures View().tables.dir[VIDMAP_PAGE].present == was.pcbs[pid].vidmapActive
    {
      hide TermOk;
      PcbInit(pid, args);
      currPid := pid;
      hide InitFds;
      SetProcessPaging(pid);
    }

    /** The kernel stack and the way back, and off to the program. */
    method Depart(pid: int, args: seq<byte>, ctx: Ctx, ghost was: Vars)
      requires Fixed() && Shape(View()) && Shape(was) && 0 <= pid < MAX_PROCESSES && |stacks| == MAX_TERMINALS
      requires View() == RolledBack(was, pid, args, View().tables).(pidarray := was.pidarray[pid := true])
      modifies this`pcbs, this`tssEsp0, this`stacks
      ensures Fixed() && View() == Started(was, pid, ctx, args, View().tables)
    {
      hide TermOk, InitFds;
      pcbs := pcbs[pid := pcbs[pid].(tssEsp0 := tssEsp0)];
      tssEsp0 := MB8 - (EIGHT_KB * pid + 4);
      pcbs := pcbs[pid := pcbs[pid].(save := ctx)];
      stacks := Pushed(stacks, active, pid);
    }

    /** The part of `execute` that has a pid: the slot, the pages, the load, and the processor's
        setup for the new process. */
    method StartProgram(pid: int, inode: nat, args: seq<byte>, ctx: Ctx, ghost was: Vars)
      returns (ok: bool, text: seq<byte>)
      requires Fixed() && Sized(image) && Shape(was) && 0 <= pid < MAX_PROCESSES
      requires View() == was.(pidarray := was.pidarray[pid := true])
      requires was.currPid < MAX_PROCESSES && (was.currPid >= 0 ==> was.pidarray[was.currPid])
      requires Switchable(mmu.layout, was.tables) && |was.stacks| == MAX_TERMINALS && !was.pidarray[pid]
      modifies this`pidarray, this`pcbs, this`currPid, this`tssEsp0, this`stacks, mmu`vidmap, mmu.dir
      ensures Fixed() && |View().tables.dir| == ENTRIES
      ensures ok <==> ReadResult(image, inode, 0, MB4).Some?
      ensures ok ==> text == ReadResult(image, inode, 0, MB4).value
      ensures ok ==> StartEffect(mmu.layout, was, View(), pid, ctx, args)
      ensures !ok ==> View() == RolledBack(was, pid, args, View().tables)
      ensures !ok ==> Maps(mmu.layout, View().tables, pid, OpenScreen(mmu.layout, View()))
    {
      EnterSlot(pid, args, was);
      hide Sized, TermOk, NewPcb, Maps;
      ok, text := LoadProgram(image, inode);
      if !ok {
        pidarray := pidarray[currPid := false];
      } else {
        Depart(pid, args, ctx, was);
      }
    }

    /** `execute`, on any image. */
    method LoadAndStart(cmd: seq<byte>, junk: seq<byte>, ctx: Ctx) returns (o: Outcome)
      requires Consistent() && OnOwnStack(View()) && InDomain(cmd) && |junk| == ELF_BYTES
      modifies this`pidarray, this`pcbs, this`currPid, this`tssEsp0, this`stacks, mmu`vidmap, mmu.dir
      ensures Fixed() && ExecEffect(image, mmu.layout, old(View()), View(), cmd, junk, ctx, o)
      ensures o.Entered? ==> o.pid == currPid && tssEsp0 == 0x80_0000 - (0x2000 * o.pid + 4)
    {
      hide Structure, TermOk, Used, Sized, Switchable, LowestFree, Line, Pieces;
      ghost var was := View();
      CurrentInUse(image, was);
      o := Returned(FAILED);
      ghost var lead, gap, tail;
      var name, args: seq<byte>;
      name, args, lead, gap, tail := ParseCommand(cmd);
      var valid, inode, entry := CheckProgram(image, name, junk);
      if valid {
        var pid := GetPid();
        if pid != -1 {
          var ok, text := StartProgram(pid, inode, args, ctx, was);
          o := if ok then Entered(pid, Program(entry, text)) else Returned(FAILED);
        }
      }
    }

    method Execute(cmd: seq<byte>, junk: seq<byte>, ctx: Ctx) returns (o: Outcome)
      requires Invariant() && Enabled(image, Now(), Machine.Execute(cmd, junk, ctx))
      modifies this`pidarray, this`pcbs, this`currPid, this`tssEsp0, this`stacks, mmu`vidmap, mmu.dir
      ensures Invariant()
      ensures Now() == Step(image, old(Now()), Machine.Execute(cmd, junk, ctx))
      ensures o == OutcomeOf(image, old(Now()), Machine.Execute(cmd, junk, ctx))
    {
      hide Structure, TermOk, Step, OutcomeOf, StateOk, PidsOk, TerminalOk, Abs, ExecEffect;
      ghost var was := View();
      assert Switchable(mmu.layout, was.tables);
      o := LoadAndStart(cmd, junk, ctx);
      ExecRefines(image, mmu.layout, was, View(), cmd, junk, ctx, o);
    }

    /** The loop of `kill_current_proc`: each open descriptor's driver is told, then it is
        closed. */
    method CloseAll()
      requires 0 <= currPid < |pcbs| && 0 <= active < |terms| && |pcbs[currPid].fds| == MAX_FDS
      modifies this`terms, this`pcbs
      ensures var p := old(pcbs)[currPid];
              var t := old(terms)[active];
              && pcbs == old(pcbs)[currPid := p.(fds := ClosedFds(p.fds))]
              && terms == old(terms)[active := t.(rtc :=
                            if exists f :: f in p.fds && IsClock(f) then VR.Reset(t.rtc) else t.rtc)]
    {
      ghost var before, mine := terms, pcbs;
      ghost var was := pcbs[currPid].fds;
      ghost var fds := was;
      ghost var rtc := terms[active].rtc;
      var i := 0;
      while i < MAX_FDS
        invariant 0 <= i <= MAX_FDS && |fds| == MAX_FDS
        invariant forall k :: 0 <= k < i ==> fds[k] == was[k].(open := false)
        invariant forall k :: i <= k < MAX_FDS ==> fds[k] == was[k]
        invariant pcbs == mine[currPid := mine[currPid].(fds := fds)]
        invariant terms == before[active := before[active].(rtc := if AnyClock(was, i) then VR.Reset(rtc) else rtc)]
      {
        var desc := pcbs[currPid].fds[i];
        if desc.open {
          if desc.ftable == RtcTable {
            ResetClock();
          }
        }
        SetFd(i, desc.(open := false));
        fds := fds[i := desc.(open := false)];
        i := i + 1;
      }
      AnyClockIs(was);
      assert fds == ClosedFds(was);
    }

    /** The leaf is closed and its pid freed; its parent, or no process, is the current one. */
    method EndLeaf() returns (parentPid: int)
      requires Consistent() && stacks[active] != []
      modifies this`terms, this`pcbs, this`pidarray, this`currPid, this`stacks
      ensures old(View()).currPid == Top(old(View()).stacks[old(View()).active])
      ensures 0 <= old(View()).currPid < MAX_PROCESSES
      ensures Fixed() && View() == Freed(old(View())) && parentPid == currPid
    {
      ghost var was := View();
      FreedCurrent(image, was);
      ParentLink(image, was);
      hide Structure, TermOk, IsClock;
      var pcb := pcbs[currPid];
      parentPid := if pcb.parent.None? then -1 else pcbs[pcb.parent.value].pid;
      CloseAll();
      pidarray := pidarray[currPid := false];
      stacks := Popped(stacks, active);
      currPid := parentPid;
    }

    /** The end of `kill_current_proc` when there is a parent. */
    method ResumeParent(pcb: Pcb, parentPid: int, code: nat) returns (o: Outcome)
      requires Fixed() && Shape(View()) && 0 <= parentPid == currPid < MAX_PROCESSES
      requires Switchable(mmu.layout, View().tables)
      modifies this`tssEsp0, mmu`vidmap, mmu.dir
      ensures Fixed() && |View().tables.dir| == |View().tables.table0| == ENTRIES
      ensures View() == old(View()).(tssEsp0 := pcb.tssEsp0, tables := View().tables)
      ensures Maps(mmu.layout, View().tables, currPid, OpenScreen(mmu.layout, View()))
      ensures View().tables.dir[VIDMAP_PAGE].present == pcbs[currPid].vidmapActive
      ensures o == ExecReturned(pcb.save, code)
    {
      hide TermOk;
      SetProcessPaging(parentPid);
      tssEsp0 := pcb.tssEsp0;
      o := ExecReturned(pcb.save, code);
    }

    /** `kill_current_proc`: back to the parent's `execute`, or a new shell. */
    method KillCurrentProc(code: nat, junk: seq<byte>, ctx: Ctx) returns (o: Outcome)
      requires Consistent() && WellFormed(image) && HasShell(image) && stacks[active] != [] && |junk| == ELF_BYTES
      modifies this`terms, this`pidarray, this`pcbs, this`currPid, this`tssEsp0, this`stacks, mmu`vidmap, mmu.dir
      ensures Fixed() && StacksOk(old(View()).stacks) && old(View()).stacks[old(View()).active] != []
      ensures old(View()).currPid == Top(old(View()).stacks[old(View()).active])
      ensures KillEffect(image, mmu.layout, old(View()), View(), code, ctx, o)
    {
      ghost var was := View();
      FreedStructure(image, was);
      FreedCurrent(image, was);
      ShellStarts(image, was, junk);
      hide Structure, TermOk, WellFormed, HasShell, Sized, StacksOk, Used, LowestFree, Resolve, Maps;
      var pcb := pcbs[currPid];
      var parentPid := EndLeaf();
      if parentPid == -1 {
        o := LoadAndStart(SHELL, junk, ctx);
      } else {
        hide Freed;
        o := ResumeParent(pcb, parentPid, code);
      }
    }

    method Halt(status: nat, junk: seq<byte>, ctx: Ctx) returns (o: Outcome)
      requires Invariant() && Enabled(image, Now(), Machine.Halt(status, ctx)) && |junk| == ELF_BYTES
      modifies this`terms, this`pidarray, this`pcbs, this`currPid, this`tssEsp0, this`stacks, mmu`vidmap, mmu.dir
      ensures Invariant()
      ensures Now() == Step(image, old(Now()), Machine.Halt(status, ctx))
      ensures o == OutcomeOf(image, old(Now()), Machine.Halt(status, ctx))
    {
      hide Structure, TermOk, Step, OutcomeOf, StateOk, PidsOk, TerminalOk, Abs, KillEffect;
      ghost var was := View();
      assert Switchable(mmu.layout, was.tables);
      o := KillCurrentProc(status % 0x100, junk, ctx);
      HaltCallRefines(image, mmu.layout, was, View(), status, ctx, o);
    }

    /** An exception handler that prints its message and ends the process. */
    method Exception(msg: seq<byte>, junk: seq<byte>, ctx: Ctx) returns (o: Outcome)
      requires Invariant() && Enabled(image, Now(), Machine.Exception(msg, ctx)) && |junk| == ELF_BYTES
      modifies this`terms, this`pidarray, this`pcbs, this`currPid, this`tssEsp0, this`stacks, mmu`vidmap, mmu.dir,
               GetVideoMem(active)
      ensures Invariant()
      ensures Now() == Step(image, old(Now()), Machine.Exception(msg, ctx))
      ensures o == OutcomeOf(image, old(Now()), Machine.Exception(msg, ctx))
    {
      hide Structure, TermOk, Step, OutcomeOf, StateOk, PidsOk, TerminalOk, Abs, KillEffect, S.PutAll;
      ghost var was := View();
      ScreenParts(was);
      ScreenRefines(image, mmu.layout, was, active, S.PutAll(AbsScreen(was, active), msg));
      Puts(msg);
      assert View() == Announced(was, msg);
      assert Switchable(mmu.layout, View().tables);
      o := KillCurrentProc(KILLED, junk, ctx);
      ExceptionRefines(image, mmu.layout, was, View(), msg, ctx, o);
    }

    // ---------- the scheduler ----------

    /** `term_vidmem[t]`. */
    function BackBuffer(t: int): array<byte> {
      if t == 0 then back0 else if t == 1 then back1 else back2
    }

    /** The two copies of a visible switch. */
    method ShowTarget(num: int)
      requires Fixed() && Shape(View()) && num == Following(View())
      modifies this`visible, video, back0, back1, back2
      ensures Fixed() && View() == MaybeShown(old(View()))
    {
      hide TermOk;
      if target != visible && target == num {
        D.CopyPage(BackBuffer(visible), video);
        D.CopyPage(video, BackBuffer(num));
        visible := num;
      }
    }

    /** The running terminal's side of the switch, and the next one's pid. */
    method Suspend(num: int, ctx: Ctx)
      requires Fixed() && Shape(View()) && num == Following(View())
      modifies this`terms, this`currPid, this`active
      ensures Fixed() && View() == SwitchedTo(old(View()), num, ctx)
    {
      hide TermOk;
      terms := terms[active := terms[active].(currPid := currPid)];
      terms := terms[active := terms[active].(tssEsp0 := tssEsp0, save := ctx)];
      currPid := terms[num].currPid;
      active := num;
    }

    /** The first turn of a terminal. */
    method FirstTurn(junk: seq<byte>, ctx: Ctx) returns (o: Outcome)
      requires Consistent() && WellFormed(image) && HasShell(image) && stacks[active] == [] && |junk| == ELF_BYTES
      modifies this`terms, this`pidarray, this`pcbs, this`currPid, this`tssEsp0, this`stacks, mmu`vidmap, mmu.dir,
               GetVideoMem(active)
      ensures Fixed() && FirstEffect(image, mmu.layout, old(View()), View(), ctx, o)
    {
      ghost var was := View();
      ClearedAbs(image, was);
      ShellIsFound(image, junk);
      hide Structure, TermOk, WellFormed, HasShell, Sized, Used, LowestFree, Resolve, Maps, S.Clear, Abs;
      ClearResetCursor();
      o := LoadAndStart(SHELL, junk, ctx);
      if o == Returned(FAILED) {
        o := FellThrough(ctx);
      }
    }

    /** The turn of a terminal with a Ctrl-C pending. */
    method InterruptTurn(junk: seq<byte>, ctx: Ctx) returns (o: Outcome)
      requires Consistent() && WellFormed(image) && HasShell(image) && stacks[active] != [] && |junk| == ELF_BYTES
      modifies this`terms, this`pidarray, this`pcbs, this`currPid, this`tssEsp0, this`stacks, mmu`vidmap, mmu.dir
      ensures Fixed() && StacksOk(old(View()).stacks) && old(View()).stacks[old(View()).active] != []
      ensures old(View()).currPid == Top(old(View()).stacks[old(View()).active])
      ensures InterruptEffect(image, mmu.layout, old(View()), View(), ctx, o)
    {
      ghost var was := View();
      ClearedFlag(image, was);
      hide Structure, TermOk, WellFormed, HasShell, Sized, KillEffect;
      terms := terms[active := terms[active].(haltFlag := false)];
      assert View() == SetEntry(was, active, was.terms[active].(haltFlag := false));
      o := KillCurrentProc(KILLED, junk, ctx);
    }

    /** Any other turn. */
    method Resume() returns (o: Outcome)
      requires Consistent() && stacks[active] != []
      modifies this`tssEsp0, mmu`vidmap, mmu.dir
      ensures Fixed() && ResumeEffect(mmu.layout, old(View()), View(), o)
    {
      FreedCurrent(image, View());
      hide Structure, TermOk, Sized;
      tssEsp0 := terms[active].tssEsp0;
      SetProcessPaging(currPid);
      o := Switched(terms[active].save);
    }

    /** The next terminal becomes the running one. */
    method PassOn(ctx: Ctx)
      requires Fixed() && Shape(View()) && Shape(MaybeShown(View()))
      modifies this`terms, this`currPid, this`active, this`visible, video, back0, back1, back2
      ensures Fixed() && View() == Suspended(old(View()), ctx)
    {
      hide TermOk, MaybeShown, SwitchedTo;
      ghost var was := View();
      MaybeShownTurn(was);
      var num := (active + 1) % MAX_TERMINALS;
      ShowTarget(num);
      Suspend(num, ctx);
    }

    method TakeTurn(junk: seq<byte>, ctx: Ctx) returns (o: Outcome)
      requires Consistent() && WellFormed(image) && HasShell(image) && |junk| == ELF_BYTES
      modifies this`terms, this`pidarray, this`pcbs, this`currPid, this`tssEsp0, this`stacks, mmu`vidmap, mmu.dir,
               GetVideoMem(active)
      ensures StacksOk(old(View()).stacks) && old(View()).currPid == TopOr(old(View()).stacks[old(View()).active])
      ensures Fixed() && TurnEffect(image, mmu.layout, old(View()), View(), ctx, o)
    {
      TopIsPid(image, View());
      hide Structure, TermOk, WellFormed, HasShell, Sized, FirstEffect, InterruptEffect, ResumeEffect, Switchable,
        StacksOk;
      if currPid == -1 {
        o := FirstTurn(junk, ctx);
      } else if terms[active].haltFlag {
        o := InterruptTurn(junk, ctx);
      } else {
        o := Resume();
      }
    }

    /** `schedule_process`, up to what it does to the kernel's variables. */
    method SwitchTerminals(junk: seq<byte>, ctx: Ctx) returns (o: Outcome)
      requires Invariant() && |junk| == ELF_BYTES
      modifies this, video, back0, back1, back2, mmu`vidmap, mmu.dir
      ensures Fixed() && TickEffect(image, mmu.layout, old(View()), View(), ctx, o)
    {
      ghost var was := View();
      SuspendedKeeps(image, was, ctx);
      FollowingParts(image, was, ctx);
      assert Switchable(mmu.layout, was.tables);
      hide Structure, TermOk, WellFormed, HasShell, Sized, Abs, Switchable, TurnEffect, MaybeShown, PidsInRange,
        Suspended;
      PassOn(ctx);
      o := TakeTurn(junk, ctx);
    }

    /** A tick of the timer. It leaves a running process unless it starts a terminal for the
        first time with every pid taken; then the interrupted process goes on, unbeknown to the
        kernel's variables. */
    method ScheduleProcess(junk: seq<byte>, ctx: Ctx) returns (o: Outcome)
      requires Invariant() && Enabled(image, Now(), Machine.Tick(ctx)) && |junk| == ELF_BYTES
      modifies this, video, back0, back1, back2, mmu`vidmap, mmu.dir
      ensures o == OutcomeOf(image, old(Now()), Machine.Tick(ctx))
      ensures Invariant() <==> Safe(old(Now()), Machine.Tick(ctx))
      ensures Invariant() ==> Now() == Step(image, old(Now()), Machine.Tick(ctx))
      ensures !Invariant() ==> LeftBehind(old(View()), View()) && o == FellThrough(ctx)
    {
      hide Structure, TermOk, Step, OutcomeOf, StateOk, PidsOk, TerminalOk, Abs, TickEffect, Safe;
      ghost var was := View();
      o := SwitchTerminals(junk, ctx);
      TickRefines(image, mmu.layout, was, View(), ctx, o);
    }

    // ---------- boot and whole runs ----------

    /** The end of `entry`: a message, and then the first shell. */
    method Entry(junk: seq<byte>, ctx: Ctx) returns (o: Outcome)
      requires Fixed() && WellFormed(image) && HasShell(image) && |junk| == ELF_BYTES
      requires Booting(View()) && Maps(mmu.layout, View().tables, -1, None)
      modifies this`terms, this`pidarray, this`pcbs, this`currPid, this`tssEsp0, this`stacks, mmu`vidmap, mmu.dir,
               GetVideoMem(active)
      ensures Invariant() && AllPids(Now()) == [[0], [], []] && Now().active == 0
      ensures Now().terms[0].screen == Greeted(old(View()))
      ensures forall t :: 0 <= t < MAX_TERMINALS ==> Now().terms[t].rtc == old(View()).terms[t].rtc
      ensures o == Entered(0, ShellProgram(image))
    {
      hide WellFormed, HasShell, TermOk, Maps, S.PutAll, Inv, Abs, Ascii;
      ghost var was := View();
      GreetedBooting(was);
      Puts(BOOT_MESSAGE);
      o := Boot(junk, ctx);
    }

    /** The first `execute`: the shell, on the first terminal. */
    method Boot(junk: seq<byte>, ctx: Ctx) returns (o: Outcome)
      requires Fixed() && WellFormed(image) && HasShell(image) && |junk| == ELF_BYTES
      requires Booting(View()) && Maps(mmu.layout, View().tables, -1, None)
      modifies this`pidarray, this`pcbs, this`currPid, this`tssEsp0, this`stacks, mmu`vidmap, mmu.dir
      ensures Invariant() && AllPids(Now()) == [[0], [], []] && Now().active == 0
      ensures Now().terms[0].screen == AbsScreen(old(View()), 0)
      ensures forall t :: 0 <= t < MAX_TERMINALS ==> Now().terms[t].rtc == old(View()).terms[t].rtc
      ensures o == Entered(0, ShellProgram(image))
    {
      ghost var was := View();
      BootStructure(image, was);
      ShellIsFound(image, junk);
      hide WellFormed, HasShell, TermOk, Structure, Resolve, Abs;
      assert Switchable(mmu.layout, was.tables);
      o := LoadAndStart(SHELL, junk, ctx);
      StartInv(image, mmu.layout, was, View(), 0, ctx, []);
      BootedTerminals(mmu.layout, was, View(), ctx);
      AbsOk(image, mmu.layout, View());
      AbsPids(View());
    }

    /** A system call, as the running program makes it. */
    method Serve(c: Sys, junk: seq<byte>) returns (ghost o: Outcome)
      requires Invariant() && Enabled(image, Now(), Syscall(c)) && |junk| == ELF_BYTES
      modifies this`terms, this`pcbs, GetVideoMem(active)
      ensures Invariant()
      ensures Now() == Step(image, old(Now()), Syscall(c))
      ensures o == OutcomeOf(image, old(Now()), Syscall(c))
    {
      hide Inv, Step, OutcomeOf, StateOk, Abs, Enabled;
      var r: int;
      ghost var data := [];
      match c {
        case Write(fd, buf) => r := Write(fd, buf);
        case Read(fd, n) =>
          var buf := new byte[n];
          r, data := Read(fd, buf, n);
        case Open(name) => r := Open(name, U32(junk, 0));
        case Close(fd) => r := Close(fd);
        case GetArgs(addr, room) =>
          var buf := new byte[if room > 0 then room else 0];
          r, data := GetArgs(addr, buf, room);
      }
      o := Returned(Reply(r, data));
    }

    /** The start or the end of a process. */
    method ProcessCall(e: Event, junk: seq<byte>) returns (o: Outcome)
      requires Invariant() && Enabled(image, Now(), e) && |junk| == ELF_BYTES
      requires e.Execute? || e.Halt? || e.Exception?
      modifies this, video, back0, back1, back2, mmu`vidmap, mmu.dir
      ensures Invariant() && Now() == Step(image, old(Now()), e)
      ensures o == OutcomeOf(image, old(Now()), e)
    {
      hide Inv, Step, StateOk, Abs, Enabled, OutcomeOf;
      match e {
        case Execute(cmd, j, ctx) => o := Execute(cmd, j, ctx);
        case Halt(status, ctx) => o := Halt(status, junk, ctx);
        case Exception(msg, ctx) => o := Exception(msg, junk, ctx);
      }
    }

    /** A `vidmap` call, a store to the screen page, a key or the clock. */
    method OtherEvent(e: Event) returns (o: Outcome)
      requires Invariant() && Enabled(image, Now(), e)
      requires e.Vidmap? || e.Store? || e.Key? || e.ClockInterrupt?
      modifies this, video, back0, back1, back2, mmu`vidmap, mmu.dir
      ensures Invariant() && Now() == Step(image, old(Now()), e)
      ensures o == OutcomeOf(image, old(Now()), e)
    {
      hide Inv, Step, StateOk, Abs, Enabled;
      o := Returned(Reply(0, []));
      match e {
        case Vidmap(addr) =>
          var r, stored := Vidmap(addr);
          o := Returned(Reply(r, stored));
        case Store(off, b) => UserStore(off, b);
        case Key(scan) => KeyboardHandler(scan);
        case ClockInterrupt => RtcHandler();
      }
    }

    /** One event: a call of the running program, or an interrupt. */
    method Dispatch(e: Event, junk: seq<byte>) returns (ghost o: Outcome)
      requires Invariant() && Enabled(image, Now(), e) && |junk| == ELF_BYTES
      modifies this, video, back0, back1, back2, mmu`vidmap, mmu.dir
      ensures o == OutcomeOf(image, old(Now()), e)
      ensures Invariant() <==> Safe(old(Now()), e)
      ensures Invariant() ==> Now() == Step(image, old(Now()), e)
      ensures Invariant() <==> currPid != -1
      ensures !Invariant() ==> e.Tick? && LeftBehind(old(View()), View()) && o == FellThrough(e.ctx)
    {
      OnlyTicksFail(Now(), e);
      hide Inv, Step, StateOk, Abs, Safe, LeftBehind, Enabled, OutcomeOf;
      match e {
        case Syscall(c) => o := Serve(c, junk);
        case Tick(ctx) => o := ScheduleProcess(junk, ctx);
        case Execute(_, _, _) => o := ProcessCall(e, junk);
        case Halt(_, _) => o := ProcessCall(e, junk);
        case Exception(_, _) => o := ProcessCall(e, junk);
        case _ => o := OtherEvent(e);
      }
    }

    /** Any events the kernel can meet make a run of three separate terminals, up to the first
        start of a terminal that finds every pid taken; the result is the number of events. */
    method Run(es: seq<Event>, junk: seq<byte>) returns (n: nat)
      requires Invariant() && Foreseen(image, Now(), es) && |junk| == ELF_BYTES
      modifies this, video, back0, back1, back2, mmu`vidmap, mmu.dir
      ensures Invariant() <==> Possible(image, old(Now()), es)
      ensures Invariant() <==> currPid != -1
      ensures Invariant() ==> n == |es| && Now() == Runs.Run(image, old(Now()), es)
      ensures !Invariant() ==> StopsAt(image, old(Now()), es, n)
    {
      hide Step, StateOk, Abs, Safe, PidsOk, Inv, Reached, Possible, Foreseen, LeftBehind;
      ghost var start := Now();
      RunningParts(image, mmu.layout, View());
      n := 0;
      ReachedStart(image, start, es);
      while n < |es|
        invariant n <= |es|
        invariant Invariant() && currPid != -1 && Reached(image, start, es, n, Now())
      {
        ReachedNext(image, start, es, n, Now());
        ghost var o := Dispatch(es[n], junk);
        if currPid == -1 {
          return;
        }
        n := n + 1;
      }
      ReachedEnd(image, start, es, Now());
    }
  }
}
