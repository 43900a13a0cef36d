/** Descriptors as cursors: what a process reads, through every interleaving. */
module Descriptors {
  import opened CInt
  import opened FileSystem
  import opened Programs
  import opened Terminals
  import opened Runs
  import VR = VirtualRtc

  /** What a newly opened descriptor is for. */
  function Fresh(d: Dentry): OpenFile {
    match d.kind
    case RegularType => File(d.inode, 0)
    case DirectoryType => Dir(0)
    case _ => Clock
  }

  /** `open` succeeds exactly when the name exists, is a known kind of file and a descriptor
      is free; it gives the lowest free one, which is never 0 or 1, at position 0 of the file or
      the directory or as a clock, and touches no other. */
  lemma OpenGivesLowest(img: Image, v: Terminal, name: seq<byte>)
    requires WellFormed(img) && TerminalOk(img, v) && v.procs != []
    ensures var (w, r) := ServeOpen(img, v, name);
            && (r.value != -1 <==>
                  && Lookup(img, name).Some?
                  && !Lookup(img, name).value.kind.OtherType?
                  && exists k :: 2 <= k < MAX_FDS && v.Fds()[k].None?)
            && (r.value == -1 ==> w == v)
            && (r.value != -1 ==>
                  && 2 <= r.value < MAX_FDS
                  && v.Fds()[r.value].None? && w.Fds()[r.value] == Some(Fresh(Lookup(img, name).value))
                  && (forall k :: 0 <= k < r.value ==> v.Fds()[k].Some?)
                  && (forall k :: 0 <= k < MAX_FDS && k != r.value ==> w.Fds()[k] == v.Fds()[k]))
  {
    var fd := FirstClosed(v.Fds(), 0);
    assert TableOk(img, v.Fds());
    assert fd < MAX_FDS ==> v.Fds()[fd].None?;
  }

  /** Opening the clock sets it to two ticks a second; opening anything else leaves it alone, and
      no `open` touches the screen or the line. */
  lemma OpenedClock(img: Image, v: Terminal, name: seq<byte>)
    requires WellFormed(img) && TerminalOk(img, v) && v.procs != []
    ensures var (w, r) := ServeOpen(img, v, name);
            && w.screen == v.screen && w.line == v.line
            && (r.value != -1 && Lookup(img, name).value.kind.RtcType? ==>
                  w.rtc.Valid() && w.rtc.fired == v.rtc.fired && VR.Fires(w.rtc, 1024) == 2)
            && (r.value == -1 || !Lookup(img, name).value.kind.RtcType? ==> w.rtc == v.rtc)
  {
    VR.ResetIsTwoHertz(v.rtc);
    hide Lookup, VR.Fires, VR.Reset;
  }

  /** `close` succeeds exactly on an open descriptor from 2 to 7; that one is then closed, and free
      for the next `open`, and no other is touched. A clock goes back to two ticks a second. */
  lemma CloseFrees(img: Image, v: Terminal, fd: int)
    requires Sized(img) && TerminalOk(img, v) && v.procs != []
    ensures var (w, r) := ServeClose(v, fd);
            && (r.value == 0 || r.value == -1)
            && (r.value == 0 <==> 2 <= fd < 8 && v.Fds()[fd].Some?)
            && (r.value == -1 ==> w == v)
            && (r.value == 0 ==>
                  && w.procs != [] && |w.Fds()| == MAX_FDS
                  && w.Fds()[fd] == None
                  && (forall k :: 0 <= k < 8 && k != fd ==> w.Fds()[k] == v.Fds()[k])
                  && FirstClosed(w.Fds(), 0) <= fd
                  && w.screen == v.screen && w.line == v.line
                  && if v.Fds()[fd] == Some(Clock) then w.rtc.Valid() && VR.Fires(w.rtc, 1024) == 2
                     else w.rtc == v.rtc)
  {
    assert TableOk(img, v.Fds());
    VR.ResetIsTwoHertz(v.rtc);
    hide VR.Fires, VR.Reset;
  }

  /** After that no call can use the descriptor. */
  lemma ClosedRefuses(img: Image, v: Terminal, fd: int, n: nat, buf: seq<byte>)
    requires Sized(img) && TerminalOk(img, v) && v.procs != [] && !(0 <= fd < 8 && v.Fds()[fd].Some?)
    ensures Serve(img, v, Read(fd, n)) == (v, Reply(-1, []))
    ensures Serve(img, v, Write(fd, buf)) == (v, Reply(-1, []))
    ensures Serve(img, v, Close(fd)) == (v, Reply(-1, []))
  {
  }

  /** The end of a process closes what it had open: if that was a clock, the terminal's goes back to
      two ticks a second. */
  lemma EndFreesClock(v: Terminal)
    requires v.procs != []
    ensures var w := Pop(v);
            && w == v.(procs := v.procs[..|v.procs| - 1], rtc := w.rtc)
            && if Some(Clock) in v.Fds() then w.rtc.Valid() && VR.Fires(w.rtc, 1024) == 2 && w.rtc.fired == v.rtc.fired
               else w.rtc == v.rtc
  {
    VR.ResetIsTwoHertz(v.rtc);
    hide VR.Fires, VR.Reset;
  }

  /** A read gets as many bytes as there are, up to the number asked for, and moves on by as many. */
  lemma ReadGets(img: Image, v: Terminal, fd: int, n: nat)
    requires WellFormed(img) && TerminalOk(img, v) && v.procs != []
    requires FdOf(v.Fds(), fd).Some? && FdOf(v.Fds(), fd).value.File?
    ensures var f := FdOf(v.Fds(), fd).value;
            var (w, r) := Serve(img, v, Read(fd, n));
            var size := |Content(img, f.inode)|;
            && f.pos <= size
            && r.value == |r.data| == (if n < size - f.pos then n else size - f.pos)
            && w.procs != [] && |w.Fds()| == MAX_FDS && FdOf(w.Fds(), fd) == Some(File(f.inode, f.pos + r.value))
  {
    assert TableOk(img, v.Fds());
  }

  /** The event ends process number `d` or is its own `close` of the descriptor. */
  predicate Ends(v: Terminal, l: LEvent, d: nat, fd: nat) {
    |v.procs| == d + 1 && (l.LPop? || l == LSys(Close(fd)))
  }

  /** Process number `d` goes on with the descriptor open. */
  ghost predicate StaysOpen(img: Image, v: Terminal, ls: seq<LEvent>, d: nat, fd: nat)
    requires WellFormed(img) && TerminalOk(img, v) && AllOk(img, ls)
    decreases |ls|
  {
    ls == [] || (
      && !Ends(v, ls[0], d, fd)
      && (LStepOk(img, v, ls[0]); StaysOpen(img, LStep(img, v, ls[0]), ls[1..], d, fd)))
  }

  /** What one event makes process number `d` read from the descriptor. */
  ghost function ReadBy(img: Image, v: Terminal, l: LEvent, d: nat, fd: nat): seq<byte>
    requires WellFormed(img) && TerminalOk(img, v) && LEventOk(img, l)
  {
    if l.LSys? && l.c.Read? && l.c.fd == fd && |v.procs| == d + 1 then Serve(img, v, l.c).1.data else []
  }

  /** Everything process number `d` reads from the descriptor, in order. */
  ghost function AllRead(img: Image, v: Terminal, ls: seq<LEvent>, d: nat, fd: nat): seq<byte>
    requires WellFormed(img) && TerminalOk(img, v) && AllOk(img, ls)
    decreases |ls|
  {
    if ls == [] then [] else
    LStepOk(img, v, ls[0]);
    ReadBy(img, v, ls[0], d, fd) + AllRead(img, LStep(img, v, ls[0]), ls[1..], d, fd)
  }

  /** Process number `d` has the file open at `pos`. */
  ghost predicate HasOpen(img: Image, v: Terminal, d: nat, fd: nat, inode: nat, pos: nat)
    requires Sized(img)
  {
    && d < |v.procs| && fd < |v.procs[d].fds|
    && v.procs[d].fds[fd] == Some(File(inode, pos))
    && inode < NInodes(img)
    && AllStored(img, inode, 0, FileSize(img, inode))
    && pos <= FileSize(img, inode)
  }

  lemma OneEvent(img: Image, v: Terminal, l: LEvent, d: nat, fd: nat, inode: nat, pos: nat) returns (next: nat)
    requires WellFormed(img) && TerminalOk(img, v) && LEventOk(img, l)
    requires HasOpen(img, v, d, fd, inode, pos) && !Ends(v, l, d, fd)
    ensures pos <= next && HasOpen(img, LStep(img, v, l), d, fd, inode, next)
    ensures ReadBy(img, v, l, d, fd) == Content(img, inode)[pos..next]
  {
    hide Serve, TerminalOk;
    next := pos;
    assert Content(img, inode)[pos..pos] == [];
    if l.LSys? && |v.procs| == d + 1 {
      next := OneCall(img, v, l.c, fd, inode, pos);
    } else {
      OtherProcess(img, v, l, d);
      hide LStep;
    }
  }

  /** An event that is neither a call nor the end of a process leaves it alone. */
  lemma OtherProcess(img: Image, v: Terminal, l: LEvent, d: nat)
    requires WellFormed(img) && TerminalOk(img, v) && LEventOk(img, l)
    requires d < |v.procs| && (|v.procs| == d + 1 ==> !l.LSys? && !l.LPop?)
    ensures d < |LStep(img, v, l).procs| && LStep(img, v, l).procs[d] == v.procs[d]
  {
    if l.LSys? {
      ServeProcs(img, v, l.c);
    }
    hide Serve, TerminalOk, WellFormed;
  }

  lemma OneCall(img: Image, v: Terminal, c: Sys, fd: nat, inode: nat, pos: nat) returns (next: nat)
    requires WellFormed(img) && TerminalOk(img, v) && v.procs != []
    requires HasOpen(img, v, |v.procs| - 1, fd, inode, pos) && c != Close(fd)
    ensures pos <= next && HasOpen(img, Serve(img, v, c).0, |v.procs| - 1, fd, inode, next)
    ensures (if c.Read? && c.fd == fd then Serve(img, v, c).1.data else []) == Content(img, inode)[pos..next]
  {
    next := pos;
    assert TableOk(img, v.Fds());
    if c.Read? && c.fd == fd {
      next := ReadEnd(FileSize(img, inode), pos, c.n);
    }
    assert Content(img, inode)[pos..pos] == [];
  }

  /** A descriptor is a cursor on its file: through any other descriptor traffic, child
      processes, keys and clock interrupts, the bytes a process reads from it are, chunk after
      chunk, the file from the cursor on; and the cursor ends where the reads do. */
  lemma {:induction false} DescriptorIsCursor(img: Image, v: Terminal, ls: seq<LEvent>, d: nat, fd: nat,
                                              inode: nat, pos: nat)
    returns (end: nat)
    requires WellFormed(img) && TerminalOk(img, v) && AllOk(img, ls)
    requires HasOpen(img, v, d, fd, inode, pos) && StaysOpen(img, v, ls, d, fd)
    ensures pos <= end && HasOpen(img, LRun(img, v, ls), d, fd, inode, end)
    ensures AllRead(img, v, ls, d, fd) == Content(img, inode)[pos..end]
    decreases |ls|
  {
    end := pos;
    assert Content(img, inode)[pos..pos] == [];
    if ls != [] {
      var next := OneEvent(img, v, ls[0], d, fd, inode, pos);
      LStepOk(img, v, ls[0]);
      end := DescriptorIsCursor(img, LStep(img, v, ls[0]), ls[1..], d, fd, inode, next);
      Join(Content(img, inode), pos, next, end);
    }
  }

  lemma Join(s: seq<byte>, a: nat, b: nat, c: nat)
    requires a <= b <= c <= |s|
    ensures s[a..b] + s[b..c] == s[a..c]
  {
  }

  /** From its `open` on, whatever else happens, a process reads from a descriptor a prefix of
      the file, up to the descriptor's position. */
  lemma ReadsAfterOpen(img: Image, v: Terminal, name: seq<byte>, w: Terminal, fd: nat, ls: seq<LEvent>)
    returns (end: nat)
    requires WellFormed(img) && TerminalOk(img, v) && v.procs != [] && AllOk(img, ls)
    requires Lookup(img, name).Some? && Lookup(img, name).value.kind == RegularType
    requires ServeOpen(img, v, name) == (w, Reply(fd, [])) && TerminalOk(img, w)
    requires StaysOpen(img, w, ls, |v.procs| - 1, fd)
    ensures var inode := Lookup(img, name).value.inode;
            && HasOpen(img, LRun(img, w, ls), |v.procs| - 1, fd, inode, end)
            && AllRead(img, w, ls, |v.procs| - 1, fd) == Content(img, inode)[..end]
  {
    var inode := Lookup(img, name).value.inode;
    OpenedFile(img, v, name, w, fd);
    hide ServeOpen, TerminalOk, WellFormed, Lookup;
    end := DescriptorIsCursor(img, w, ls, |v.procs| - 1, fd, inode, 0);
    assert Content(img, inode)[0..end] == Content(img, inode)[..end];
  }

  lemma OpenedFile(img: Image, v: Terminal, name: seq<byte>, w: Terminal, fd: nat)
    requires WellFormed(img) && TerminalOk(img, v) && v.procs != []
    requires Lookup(img, name).Some? && Lookup(img, name).value.kind == RegularType
    requires ServeOpen(img, v, name) == (w, Reply(fd, []))
    ensures HasOpen(img, w, |v.procs| - 1, fd, Lookup(img, name).value.inode, 0)
  {
    OpenGivesLowest(img, v, name);
    FileOfWellFormed(img, name);
    hide WellFormed, Lookup, AllStored;
  }

  // ---------- directories ----------

  /** The terminal after `m` reads of 33 bytes from a descriptor. */
  ghost function AfterReads(img: Image, v: Terminal, fd: nat, m: nat): (w: Terminal)
    requires WellFormed(img) && TerminalOk(img, v) && v.procs != []
    ensures TerminalOk(img, w) && |w.procs| == |v.procs|
  {
    if m == 0 then v else
    var w := AfterReads(img, v, fd, m - 1);
    ServeOk(img, w, Read(fd, NAME_LEN + 1));
    Serve(img, w, Read(fd, NAME_LEN + 1)).0
  }

  /** Repeated reads of an open directory list the entries in order, each as a 32-byte field
      whose string is the name, and then give 0 forever. */
  lemma {:induction false} ScanListsDirectory(img: Image, v: Terminal, fd: nat, m: nat)
    requires WellFormed(img) && TerminalOk(img, v) && v.procs != []
    requires FdOf(v.Fds(), fd) == Some(Dir(0))
    ensures FdOf(AfterReads(img, v, fd, m).Fds(), fd) == Some(Dir(if m < NDentries(img) then m else NDentries(img)))
    ensures Serve(img, AfterReads(img, v, fd, m), Read(fd, NAME_LEN + 1)).1
            == if m < NDentries(img) then Reply(NAME_LEN, DirBytes(DentryAt(img, m).name, NAME_LEN + 1))
               else Reply(0, [])
  {
    hide DentryAt, DirBytes, Serve, TerminalOk, AllStored, FdOf;
    if m > 0 {
      ScanListsDirectory(img, v, fd, m - 1);
      ScanStep(img, AfterReads(img, v, fd, m - 1), fd);
    }
    ScanStep(img, AfterReads(img, v, fd, m), fd);
  }

  lemma ScanStep(img: Image, w: Terminal, fd: nat)
    requires Sized(img) && TerminalOk(img, w) && w.procs != []
    requires FdOf(w.Fds(), fd).Some? && FdOf(w.Fds(), fd).value.Dir?
    ensures var pos := FdOf(w.Fds(), fd).value.pos;
            var (x, r) := Serve(img, w, Read(fd, NAME_LEN + 1));
            && x.procs != [] && |x.Fds()| == MAX_FDS
            && FdOf(x.Fds(), fd) == Some(Dir(if pos < NDentries(img) then pos + 1 else pos))
            && r == if pos < NDentries(img) then Reply(NAME_LEN, DirBytes(DentryAt(img, pos).name, NAME_LEN + 1))
                    else Reply(0, [])
  {
  }
}
