/** Clocks and keyboard lines over whole runs: what a terminal's clock and line are after any
    interleaving, as a function of the interrupts and the keys alone. */
module Histories {
  import opened CInt
  import opened FileSystem
  import opened Programs
  import opened Terminals
  import opened Machine
  import opened Runs
  import opened Stacks
  import LB = LineBuffer
  import VR = VirtualRtc

  /** Calls that matter to a clock or to a line. */
  datatype Act = BadRate | Reconfigure | ReadClock | ReadLine

  /** The running process of the terminal uses descriptor `fd`, which is `f`. */
  predicate On(v: Terminal, fd: int, f: OpenFile)
    requires v.procs != [] && |v.Fds()| == MAX_FDS
  {
    FdOf(v.Fds(), fd) == Some(f)
  }

  /** The event is such a call: a write of the word 0x80000000 to an open clock; anything that
      sets a clock's divider; a read of the clock; a read of the keyboard. */
  ghost predicate Does(img: Image, v: Terminal, l: LEvent, act: Act)
    requires Sized(img) && TerminalOk(img, v)
  {
    && v.procs != []
    && match act
       case BadRate =>
         l.LSys? && l.c.Write? && On(v, l.c.fd, Clock) && |l.c.buf| == 4 && U32(l.c.buf, 0) == VR.MIN_INT
       case Reconfigure =>
         || (l.LPop? && Some(Clock) in v.Fds())
         || (l.LSys? && l.c.Open? && FirstClosed(v.Fds(), 0) < MAX_FDS
             && Lookup(img, l.c.name).Some? && Lookup(img, l.c.name).value.kind == RtcType)
         || (l.LSys? && l.c.Close? && On(v, l.c.fd, Clock))
         || (l.LSys? && l.c.Write? && On(v, l.c.fd, Clock)
             && |l.c.buf| == 4 && VR.SetRate(v.rtc, U32(l.c.buf, 0)).Some?)
       case ReadClock => l.LSys? && l.c.Read? && On(v, l.c.fd, Clock)
       case ReadLine => l.LSys? && l.c.Read? && On(v, l.c.fd, Stdin)
  }

  /** No event of the list does it. */
  ghost predicate Never(img: Image, v: Terminal, ls: seq<LEvent>, act: Act)
    requires WellFormed(img) && TerminalOk(img, v) && AllOk(img, ls)
    decreases |ls|
  {
    ls == [] || (
      && !Does(img, v, ls[0], act)
      && (LStepOk(img, v, ls[0]); Never(img, LStep(img, v, ls[0]), ls[1..], act)))
  }

  // ---------- the clock stays below its divider ----------

  lemma RateIsBad(r: VR.Rtc, w: nat)
    requires w <= 0xFFFF_FFFF && VR.SetRate(r, w).Some?
    ensures VR.SetRate(r, w).value.Valid() <==> w != VR.MIN_INT
  {
    VR.RateKeepsValid(r, w);
    if w >= VR.MIN_INT {
      VR.NegativeRate(r, w);
    }
  }

  /** One event keeps `0 <= counter < divider` exactly unless it writes that one word. */
  lemma StepKeepsClock(img: Image, v: Terminal, l: LEvent)
    requires WellFormed(img) && TerminalOk(img, v) && LEventOk(img, l) && v.rtc.Valid()
    ensures LStep(img, v, l).rtc.Valid() <==> !Does(img, v, l, BadRate)
  {
    if l.LSys? && v.procs != [] && l.c.Write? && On(v, l.c.fd, Clock) && |l.c.buf| == 4 {
      VR.NegativeRate(v.rtc, VR.MIN_INT);
      if VR.SetRate(v.rtc, U32(l.c.buf, 0)).Some? {
        RateIsBad(v.rtc, U32(l.c.buf, 0));
      }
    }
    hide VR.SetRate, Lookup, WellFormed, LB.ReadLine, Content, DirBytes;
  }

  lemma {:induction false} RunKeepsClock(img: Image, v: Terminal, ls: seq<LEvent>)
    requires WellFormed(img) && TerminalOk(img, v) && AllOk(img, ls) && v.rtc.Valid()
    requires Never(img, v, ls, BadRate)
    ensures LRun(img, v, ls).rtc.Valid()
    decreases |ls|
  {
    if ls != [] {
      LStepOk(img, v, ls[0]);
      StepKeepsClock(img, v, ls[0]);
      RunKeepsClock(img, LStep(img, v, ls[0]), ls[1..]);
    }
  }

  // ---------- the clock in closed form ----------

  function Clocks(ls: seq<LEvent>): nat {
    if ls == [] then 0 else (if ls[0].LClock? then 1 else 0) + Clocks(ls[1..])
  }

  /** The event is a clock interrupt that reaches the terminal. */
  predicate Fires(v: Terminal, l: LEvent) {
    l.LClock? && v.rtc.counter + 1 >= v.rtc.divider
  }

  ghost function FiresIn(img: Image, v: Terminal, ls: seq<LEvent>): nat
    requires WellFormed(img) && TerminalOk(img, v) && AllOk(img, ls)
    decreases |ls|
  {
    if ls == [] then 0 else
    LStepOk(img, v, ls[0]);
    (if Fires(v, ls[0]) then 1 else 0) + FiresIn(img, LStep(img, v, ls[0]), ls[1..])
  }

  /** An event that sets no divider is a tick or leaves the clock's count as it is; only a read
      of the clock takes its flag away. */
  lemma StepClock(img: Image, v: Terminal, l: LEvent)
    requires WellFormed(img) && TerminalOk(img, v) && LEventOk(img, l) && !Does(img, v, l, Reconfigure)
    ensures LStep(img, v, l).rtc
            == if l.LClock? then VR.Tick(v.rtc)
               else if Does(img, v, l, ReadClock) then v.rtc.(fired := false)
               else v.rtc
  {
    hide VR.SetRate, WellFormed, LB.ReadLine, Content, DirBytes;
  }

  /** `q` is the clock `r` after `n` interrupts, of which `fires` reached the terminal. */
  predicate Counted(r: VR.Rtc, q: VR.Rtc, n: nat, fires: nat)
    requires r.Valid()
  {
    && q.divider == r.divider
    && q.counter == (r.counter + n) % r.divider
    && fires == (r.counter + n) / r.divider
  }

  lemma AddDivisor(n: nat, d: nat)
    requires d > 0
    ensures (d + n) % d == n % d && (d + n) / d == n / d + 1
  {
    VR.Distribute(n / d, 1, d);
    VR.Unique(d + n, d, n / d + 1, n % d);
  }

  lemma CountedNone(r: VR.Rtc)
    requires r.Valid()
    ensures Counted(r, r, 0, 0)
  {
    VR.SmallDivision(r.counter, r.divider);
  }

  lemma TickValid(r: VR.Rtc)
    requires r.Valid()
    ensures VR.Tick(r).Valid()
    ensures VR.Tick(r).fired <==> r.fired || r.counter + 1 >= r.divider
  {
  }

  lemma CountedTick(r: VR.Rtc, q: VR.Rtc, n: nat, fires: nat)
    requires r.Valid() && VR.Tick(r).Valid() && Counted(VR.Tick(r), q, n, fires)
    ensures Counted(r, q, n + 1, fires + if r.counter + 1 >= r.divider then 1 else 0)
  {
    if r.counter + 1 >= r.divider {
      AddDivisor(n, r.divider);
    }
  }

  lemma CountedFlag(r: VR.Rtc, flag: bool, q: VR.Rtc, n: nat, fires: nat)
    requires r.Valid()
    ensures Counted(r.(fired := flag), q, n, fires) <==> Counted(r, q, n, fires)
  {
  }

  /** Whatever else happens on the terminal, its clock counts its interrupts modulo the divider
      and fires once for each time round. */
  lemma {:induction false} RunClock(img: Image, v: Terminal, ls: seq<LEvent>)
    requires WellFormed(img) && TerminalOk(img, v) && AllOk(img, ls) && v.rtc.Valid()
    requires Never(img, v, ls, Reconfigure)
    ensures var r := LRun(img, v, ls).rtc;
            && Counted(v.rtc, r, Clocks(ls), FiresIn(img, v, ls))
            && (Never(img, v, ls, ReadClock) ==> (r.fired <==> v.rtc.fired || FiresIn(img, v, ls) > 0))
    decreases |ls|
  {
    hide LStep, TerminalOk, Does, Counted;
    if ls == [] {
      CountedNone(v.rtc);
    } else {
      var w := LStep(img, v, ls[0]);
      LStepOk(img, v, ls[0]);
      StepClock(img, v, ls[0]);
      TickValid(v.rtc);
      RunClock(img, w, ls[1..]);
      var q := LRun(img, v, ls).rtc;
      if ls[0].LClock? {
        CountedTick(v.rtc, q, Clocks(ls[1..]), FiresIn(img, w, ls[1..]));
      } else {
        CountedFlag(v.rtc, w.rtc.fired, q, Clocks(ls[1..]), FiresIn(img, w, ls[1..]));
      }
    }
  }

  // ---------- the keyboard line ----------

  function Presses(ls: seq<LEvent>): seq<LB.Press> {
    if ls == [] then [] else (if ls[0].LType? then [ls[0].k] else []) + Presses(ls[1..])
  }

  lemma PressesOk(img: Image, ls: seq<LEvent>)
    requires Sized(img) && AllOk(img, ls)
    ensures forall k :: k in Presses(ls) ==> k.Valid()
  {
  }

  lemma StepLine(img: Image, v: Terminal, l: LEvent)
    requires WellFormed(img) && TerminalOk(img, v) && LEventOk(img, l) && !Does(img, v, l, ReadLine)
    ensures LStep(img, v, l).line == if l.LType? then LB.Type(v.line, l.k).0 else v.line
  {
    hide VR.SetRate, WellFormed, LB.ReadLine, Content, DirBytes;
  }

  /** Until it is read, the line is what the keys alone make of it. */
  lemma {:induction false} RunLine(img: Image, v: Terminal, ls: seq<LEvent>)
    requires WellFormed(img) && TerminalOk(img, v) && AllOk(img, ls)
    requires Never(img, v, ls, ReadLine)
    ensures forall k :: k in Presses(ls) ==> k.Valid()
    ensures LRun(img, v, ls).line == LB.TypeAll(v.line, Presses(ls))
    decreases |ls|
  {
    PressesOk(img, ls);
    if ls != [] {
      LStepOk(img, v, ls[0]);
      StepLine(img, v, ls[0]);
      hide LStep, WellFormed, Does, LB.Type;
      RunLine(img, LStep(img, v, ls[0]), ls[1..]);
      if ls[0].LType? {
        assert Presses(ls) == [ls[0].k] + Presses(ls[1..]);
        assert Presses(ls)[1..] == Presses(ls[1..]);
      } else {
        assert Presses(ls) == Presses(ls[1..]);
      }
    }
  }

  // ---------- whole runs of the machine ----------

  function Interrupts(es: seq<Event>): nat {
    if es == [] then 0 else (if es[0].ClockInterrupt? then 1 else 0) + Interrupts(es[1..])
  }

  lemma {:induction false} ClocksAppend(ks: seq<LEvent>, ls: seq<LEvent>)
    ensures Clocks(ks + ls) == Clocks(ks) + Clocks(ls)
  {
    if ks == [] {
      assert ks + ls == ls;
    } else {
      assert (ks + ls)[1..] == ks[1..] + ls;
      ClocksAppend(ks[1..], ls);
    }
  }

  lemma NoClocks(ls: seq<LEvent>)
    requires forall l :: l in ls ==> !l.LClock?
    ensures Clocks(ls) == 0
  {
  }

  lemma LocalClocks(img: Image, a: State, e: Event, t: nat)
    requires Sized(img) && Shaped(a) && EventOk(e) && t < MAX_TERMINALS
    ensures Clocks(Local(img, a, e, t)) == if e.ClockInterrupt? then 1 else 0
  {
    if !e.ClockInterrupt? {
      NoClocks(Local(img, a, e, t));
    }
  }

  /** Every terminal's clock sees every interrupt. */
  lemma {:induction false} TraceClocks(img: Image, a: State, es: seq<Event>, t: nat)
    requires WellFormed(img) && Possible(img, a, es) && t < MAX_TERMINALS
    ensures Clocks(Trace(img, a, es, t)) == Interrupts(es)
    decreases |es|
  {
    hide Step, PidsOk, Local;
    if es != [] {
      TraceClocks(img, Step(img, a, es[0]), es[1..], t);
      LocalClocks(img, a, es[0], t);
      ClocksAppend(Local(img, a, es[0], t), Trace(img, Step(img, a, es[0]), es[1..], t));
    }
  }

  /** In every run a terminal whose own processes leave the divider alone has the clock that its
      number of interrupts gives, whatever runs, is shown or is typed. */
  lemma ClockOverRuns(img: Image, a: State, es: seq<Event>, t: nat)
    requires WellFormed(img) && Possible(img, a, es) && t < MAX_TERMINALS && a.terms[t].rtc.Valid()
    requires Never(img, a.terms[t], Trace(img, a, es, t), Reconfigure)
    ensures var r := Run(img, a, es).terms[t].rtc;
            && Counted(a.terms[t].rtc, r, Interrupts(es), FiresIn(img, a.terms[t], Trace(img, a, es, t)))
            && (Never(img, a.terms[t], Trace(img, a, es, t), ReadClock) ==>
                  (r.fired <==> a.terms[t].rtc.fired || a.terms[t].rtc.counter + Interrupts(es) >= r.divider))
  {
    TerminalsAreIndependent(img, a, es, t);
    TraceClocks(img, a, es, t);
    RunClock(img, a.terms[t], Trace(img, a, es, t));
    CountedFires(a.terms[t].rtc, Run(img, a, es).terms[t].rtc, Interrupts(es),
                 FiresIn(img, a.terms[t], Trace(img, a, es, t)));
    hide Counted;
  }

  lemma CountedFires(r: VR.Rtc, q: VR.Rtc, n: nat, fires: nat)
    requires r.Valid() && Counted(r, q, n, fires)
    ensures q.divider == r.divider && (fires > 0 <==> r.counter + n >= r.divider)
  {
    FiresAtAll(r.counter + n, r.divider);
  }

  lemma FiresAtAll(c: nat, d: nat)
    requires d > 0
    ensures c / d > 0 <==> c >= d
  {
    if c < d {
      VR.SmallDivision(c, d);
    } else {
      AddDivisor(c - d, d);
    }
  }

  /** The event writes the one bad word to some descriptor. */
  predicate WritesMinInt(e: Event) {
    e.Syscall? && e.c.Write? && |e.c.buf| == 4 && U32(e.c.buf, 0) == VR.MIN_INT
  }

  predicate LocalWritesMinInt(l: LEvent) {
    l.LSys? && l.c.Write? && |l.c.buf| == 4 && U32(l.c.buf, 0) == VR.MIN_INT
  }

  lemma {:induction false} NeverBad(img: Image, v: Terminal, ls: seq<LEvent>)
    requires WellFormed(img) && TerminalOk(img, v) && AllOk(img, ls)
    requires forall i :: 0 <= i < |ls| ==> !LocalWritesMinInt(ls[i])
    ensures Never(img, v, ls, BadRate)
    decreases |ls|
  {
    if ls != [] {
      LStepOk(img, v, ls[0]);
      assert !LocalWritesMinInt(ls[0]);
      NeverBad(img, LStep(img, v, ls[0]), ls[1..]);
    }
  }

  lemma LocalWrites(img: Image, a: State, e: Event, t: nat)
    requires Sized(img) && Shaped(a) && EventOk(e) && t < MAX_TERMINALS && !WritesMinInt(e)
    ensures forall i :: 0 <= i < |Local(img, a, e, t)| ==> !LocalWritesMinInt(Local(img, a, e, t)[i])
  {
    if e.Key? {
      var ls := KeyMeans(a.mods, e.scan).local;
      forall i | 0 <= i < |ls|
        ensures !LocalWritesMinInt(ls[i])
      {
        assert ls[i] in ls;
      }
    }
  }

  lemma {:induction false} TraceWrites(img: Image, a: State, es: seq<Event>, t: nat)
    requires WellFormed(img) && Possible(img, a, es) && t < MAX_TERMINALS
    requires forall i :: 0 <= i < |es| ==> !WritesMinInt(es[i])
    ensures forall i :: 0 <= i < |Trace(img, a, es, t)| ==> !LocalWritesMinInt(Trace(img, a, es, t)[i])
    decreases |es|
  {
    hide Step, PidsOk, Local, WritesMinInt, LocalWritesMinInt;
    if es != [] {
      assert !WritesMinInt(es[0]);
      TraceWrites(img, Step(img, a, es[0]), es[1..], t);
      LocalWrites(img, a, es[0], t);
    }
  }

  /** In every run in which no program writes that word, every clock stays below its divider. */
  lemma ClocksStayValid(img: Image, a: State, es: seq<Event>, t: nat)
    requires WellFormed(img) && Possible(img, a, es) && t < MAX_TERMINALS && a.terms[t].rtc.Valid()
    requires forall i :: 0 <= i < |es| ==> !WritesMinInt(es[i])
    ensures Run(img, a, es).terms[t].rtc.Valid()
  {
    TraceWrites(img, a, es, t);
    TerminalsAreIndependent(img, a, es, t);
    NeverBad(img, a.terms[t], Trace(img, a, es, t));
    RunKeepsClock(img, a.terms[t], Trace(img, a, es, t));
  }

  /** In every run whose keys at terminal `t` end in Enter, whatever comes between them, a read
      of the keyboard by the process that then runs there can proceed; it replies with the
      edited line and its newline, cut to `n`, and a new line starts. */
  lemma ReadAfterEnterInRuns(img: Image, a: State, es: seq<Event>, t: nat, ks: seq<LB.Press>, fd: int, n: nat)
    requires WellFormed(img) && Possible(img, a, es) && t < MAX_TERMINALS
    requires Never(img, a.terms[t], Trace(img, a, es, t), ReadLine)
    requires Presses(Trace(img, a, es, t)) == ks + [LB.Enter]
    requires var b := Run(img, a, es); b.active == t && FdOf(b.terms[t].Fds(), fd) == Some(Stdin)
    ensures var b := Run(img, a, es);
            var e := Syscall(Read(fd, n));
            var data := LB.Cut(LB.Edited(a.terms[t].line.text, ks) + [NEWLINE], n);
            && Enabled(img, b, e)
            && OutcomeOf(img, b, e) == Returned(Reply(|data|, data))
            && Step(img, b, e).terms[t].line.text == []
  {
    var b := Run(img, a, es);
    var v := a.terms[t];
    TerminalsAreIndependent(img, a, es, t);
    RunLine(img, v, Trace(img, a, es, t));
    PressesSplit(ks);
    LB.ReadAfterEnter(v.line, ks, n);
    ReadNow(img, b, fd, n);
  }

  /** A read of the keyboard waits until Enter has been pressed since the last one. */
  lemma KeyboardReadWaits(img: Image, a: State, es: seq<Event>, t: nat, fd: int, n: nat)
    requires WellFormed(img) && Possible(img, a, es) && t < MAX_TERMINALS
    requires Never(img, a.terms[t], Trace(img, a, es, t), ReadLine)
    requires var b := Run(img, a, es); b.active == t && FdOf(b.terms[t].Fds(), fd) == Some(Stdin)
    ensures Enabled(img, Run(img, a, es), Syscall(Read(fd, n)))
            <==> a.terms[t].line.enter || LB.Enter in Presses(Trace(img, a, es, t))
  {
    TerminalsAreIndependent(img, a, es, t);
    RunLine(img, a.terms[t], Trace(img, a, es, t));
    EnterIsKept(a.terms[t].line, Presses(Trace(img, a, es, t)));
    hide LRun, Trace, Never, Possible, Run, WellFormed;
  }

  lemma {:induction false} EnterIsKept(l: LB.Line, ks: seq<LB.Press>)
    requires l.Valid() && forall k :: k in ks ==> k.Valid()
    ensures LB.TypeAll(l, ks).enter <==> l.enter || LB.Enter in ks
    decreases |ks|
  {
    if ks != [] {
      EnterIsKept(LB.Type(l, ks[0]).0, ks[1..]);
    }
  }

  /** A read of the clock waits until the clock has fired since the last one: `divider - counter`
      interrupts, if it has not been set in the meantime. */
  lemma ClockReadWaits(img: Image, a: State, es: seq<Event>, t: nat, fd: int, n: nat)
    requires WellFormed(img) && Possible(img, a, es) && t < MAX_TERMINALS && a.terms[t].rtc.Valid()
    requires Never(img, a.terms[t], Trace(img, a, es, t), Reconfigure)
    requires Never(img, a.terms[t], Trace(img, a, es, t), ReadClock)
    requires var b := Run(img, a, es); b.active == t && FdOf(b.terms[t].Fds(), fd) == Some(Clock)
    ensures var r := a.terms[t].rtc;
            Enabled(img, Run(img, a, es), Syscall(Read(fd, n)))
            <==> r.fired || Interrupts(es) >= r.divider - r.counter
  {
    ClockOverRuns(img, a, es, t);
    hide Trace, Never, Possible, WellFormed, Interrupts, FiresIn, Run;
  }

  lemma PressesSplit(ks: seq<LB.Press>)
    requires forall k :: k in ks + [LB.Enter] ==> k.Valid()
    ensures forall k :: k in ks ==> k.Valid()
  {
    forall k | k in ks
      ensures k.Valid()
    {
      assert k in ks + [LB.Enter];
    }
  }

  /** A read of the keyboard after Enter is the line's own. */
  lemma ReadNow(img: Image, b: State, fd: int, n: nat)
    requires WellFormed(img) && StateOk(img, b) && Running(b) && b.terms[b.active].line.Valid()
    requires b.terms[b.active].line.enter && FdOf(b.terms[b.active].Fds(), fd) == Some(Stdin)
    ensures var e := Syscall(Read(fd, n));
            var (line, data) := LB.ReadLine(b.terms[b.active].line, n);
            && Enabled(img, b, e)
            && OutcomeOf(img, b, e) == Returned(Reply(|data|, data))
            && Step(img, b, e).terms[b.active].line == line
  {
    var e := Syscall(Read(fd, n));
    StepTerminal(img, b, e, b.active);
    LRunOne(img, b.terms[b.active], LSys(Read(fd, n)));
    hide Step, WellFormed, LB.ReadLine;
  }
}
