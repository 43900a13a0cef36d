/** What the screen page, the clock interrupt and the keyboard do to the kernel's variables,
    and that each is one step of the three terminals. */
module KernelInterrupts {
  import opened CInt
  import opened FileSystem
  import opened Programs
  import opened Paging
  import opened Terminals
  import opened Machine
  import opened MachineSteps
  import opened Stacks
  import opened Keyboard
  import opened KernelState
  import opened KernelRefinement
  import S = Screen
  import LB = LineBuffer
  import VR = VirtualRtc

  /** The kernel's variables went from `r` to `q` as the three terminals take the step. */
  ghost predicate SteppedBy(img: Image, l: Layout, r: Vars, q: Vars, e: Event)
    requires WellFormed(img) && Shape(r) && PidsInRange(r)
  {
    && Inv(img, l, q) && PidsInRange(q)
    && StateOk(img, Abs(r)) && Enabled(img, Abs(r), e)
    && Abs(q) == Step(img, Abs(r), e)
  }

  // ---------- the screen page ----------

  /** The arguments of the running process are one string. */
  lemma LeafArgs(img: Image, l: Layout, r: Vars)
    requires Inv(img, l, r) && 0 <= r.currPid < MAX_PROCESSES
    ensures NUL !in r.pcbs[r.currPid].args
  {
    var st := r.stacks[r.active];
    assert LinkOk(img, r.pcbs, st, |st| - 1);
  }

  /** The flag that `vidmap` leaves in the pcb, whether or not it maps anything. */
  function Flagged(r: Vars, flag: bool): Vars
    requires 0 <= r.currPid < |r.pcbs|
  {
    r.(pcbs := r.pcbs[r.currPid := r.pcbs[r.currPid].(vidmapActive := flag)])
  }

  lemma FlaggedStructure(img: Image, r: Vars, flag: bool)
    requires Sized(img) && Shape(r) && Structure(img, r) && 0 <= r.currPid < MAX_PROCESSES
    ensures Shape(Flagged(r, flag)) && Structure(img, Flagged(r, flag))
  {
    InRange(r);
    hide StacksOk, Used, FdsOk, TermOk;
    var q := Flagged(r, flag);
    forall t, i | 0 <= t < MAX_TERMINALS && 0 <= i < |q.stacks[t]|
      ensures LinkOk(img, q.pcbs, q.stacks[t], i)
    {
      assert LinkOk(img, r.pcbs, r.stacks[t], i);
    }
  }

  lemma FlaggedAbs(r: Vars, flag: bool)
    requires Shape(r) && PidsInRange(r) && 0 <= r.currPid < MAX_PROCESSES
    ensures Shape(Flagged(r, flag)) && PidsInRange(Flagged(r, flag))
    ensures Abs(Flagged(r, flag)) == Abs(r).(vid := Abs(r).vid[r.currPid := flag])
  {
    var q := Flagged(r, flag);
    forall u | 0 <= u < MAX_TERMINALS
      ensures AbsTerminal(q, u) == AbsTerminal(r, u)
    {
      assert AbsProcs(q.pcbs, r.stacks[u]) == AbsProcs(r.pcbs, r.stacks[u]);
    }
    assert VidFlags(q.pcbs) == VidFlags(r.pcbs)[r.currPid := flag];
    hide AbsTerminal, VidFlags, TermOk;
  }

  /** Other page tables in a shape that fits. */
  lemma TablesAbs(r: Vars, tables: Tables)
    requires Shape(r) && PidsInRange(r) && |tables.dir| == ENTRIES && |tables.table0| == ENTRIES
    ensures Shape(r.(tables := tables)) && PidsInRange(r.(tables := tables))
    ensures Abs(r.(tables := tables)) == Abs(r).(mapped := tables.dir[VIDMAP_PAGE].present)
  {
    var q := r.(tables := tables);
    assert AbsTerminal(q, 0) == AbsTerminal(r, 0);
    assert AbsTerminal(q, 1) == AbsTerminal(r, 1);
    assert AbsTerminal(q, 2) == AbsTerminal(r, 2);
    hide AbsTerminal, TermOk;
  }

  lemma TablesStructure(img: Image, r: Vars, tables: Tables)
    requires Sized(img) && Shape(r) && Structure(img, r) && |tables.dir| == ENTRIES && |tables.table0| == ENTRIES
    ensures Shape(r.(tables := tables)) && Structure(img, r.(tables := tables))
  {
    hide StacksOk, Used, LinkOk, TermOk;
  }

  /** The variables after `vidmap`. */
  ghost predicate VidmapEffect(l: Layout, r: Vars, q: Vars, addr: nat)
    requires Shape(r) && 0 <= r.currPid < MAX_PROCESSES
  {
    && |q.tables.dir| == ENTRIES && |q.tables.table0| == ENTRIES
    && q == Flagged(r, addr != 0).(tables := q.tables)
    && Maps(l, q.tables, r.currPid, OpenScreen(l, q))
    && q.tables.dir[VIDMAP_PAGE].present == (InProgram(addr) || r.tables.dir[VIDMAP_PAGE].present)
  }

  lemma VidmapInv(img: Image, l: Layout, r: Vars, q: Vars, addr: nat)
    requires Inv(img, l, r) && 0 <= r.currPid < MAX_PROCESSES && VidmapEffect(l, r, q, addr)
    ensures Inv(img, l, q)
  {
    FlaggedStructure(img, r, addr != 0);
    TablesStructure(img, Flagged(r, addr != 0), q.tables);
    hide Structure, Maps, TermOk;
  }

  lemma VidmapAbs(r: Vars, q: Vars, addr: nat, l: Layout)
    requires Shape(r) && PidsInRange(r) && 0 <= r.currPid < MAX_PROCESSES && VidmapEffect(l, r, q, addr)
    ensures Shape(q) && PidsInRange(q)
    ensures Abs(q) == Abs(r).(vid := Abs(r).vid[r.currPid := addr != 0], mapped := InProgram(addr) || Abs(r).mapped)
  {
    FlaggedAbs(r, addr != 0);
    AbsPresent(r);
    TablesAbs(Flagged(r, addr != 0), q.tables);
    hide Abs, Maps, TermOk;
  }

  /** `vidmap` in the machine. */
  lemma VidmapStep(img: Image, a: State, pid: int, addr: nat)
    requires WellFormed(img) && StateOk(img, a) && Running(a)
    requires a.terms[a.active].Leaf().pid == pid && 0 <= pid < MAX_PROCESSES
    ensures Enabled(img, a, Vidmap(addr))
    ensures Step(img, a, Vidmap(addr))
            == a.(vid := a.vid[pid := addr != 0], mapped := InProgram(addr) || a.mapped)
    ensures OutcomeOf(img, a, Vidmap(addr)) == Returned(if InProgram(addr) then Reply(0, SCREEN_START) else FAILED)
  {
    StepVidmap(img, a, addr);
  }

  lemma VidmapRefines(img: Image, l: Layout, r: Vars, q: Vars, addr: nat)
    requires WellFormed(img) && Inv(img, l, r) && 0 <= r.currPid < MAX_PROCESSES && VidmapEffect(l, r, q, addr)
    ensures PidsInRange(r) && SteppedBy(img, l, r, q, Vidmap(addr))
    ensures OutcomeOf(img, Abs(r), Vidmap(addr)) == Returned(if InProgram(addr) then Reply(0, SCREEN_START) else FAILED)
  {
    AbsOk(img, l, r);
    RunningParts(img, l, r);
    VidmapInv(img, l, r, q, addr);
    VidmapAbs(r, q, addr, l);
    hide Abs, Inv, Step, OutcomeOf, Enabled, StateOk, TerminalOk, FdsOk, PidsOk, VidmapEffect, WellFormed, TermOk;
    VidmapStep(img, Abs(r), r.currPid, addr);
  }

  /** The entry behind the screen page names the page that the running terminal shows. */
  lemma FrameIsDisplay(l: Layout, r: Vars)
    requires l.Valid() && Shape(r) && Ready(l, r) && r.tables.dir[VIDMAP_PAGE].present
    ensures r.tables.vidmap.addr * KB4 == DisplayAddr(l, r, r.active)
  {
    assert OpenScreen(l, r) == Some(DisplayAddr(l, r, r.active));
    assert DisplayAddr(l, r, r.active) % KB4 == 0;
  }

  /** What the running program reaches: its own slot's 4MB at 128MB; if the screen page is
      open, the page its own terminal shows or would show; and nothing of the kernel. */
  lemma ProgramSees(img: Image, l: Layout, r: Vars, va: nat)
    requires Inv(img, l, r) && va < 0x1_0000_0000
    ensures 0 <= r.currPid
    ensures InProgram(va) ==> Translate(l, r.tables, va, true) == To(FrameOf(r.currPid) + (va - MB128))
    ensures InVidmap(va) ==>
              Translate(l, r.tables, va, true)
              == if r.tables.dir[VIDMAP_PAGE].present
                 then To(DisplayAddr(l, r, r.active) + (va - MB4 * VIDMAP_PAGE)) else Fault
    ensures !InProgram(va) && va / MB4 != VIDMAP_PAGE ==> Translate(l, r.tables, va, true) == Fault
  {
    hide Structure, Translate, Maps, TermOk;
    UserTranslation(l, r.tables, r.currPid, OpenScreen(l, r), va);
  }

  // ---------- a store through the screen page ----------

  lemma StoreStep(img: Image, a: State, off: nat, b: byte)
    requires WellFormed(img) && StateOk(img, a) && Running(a) && off < S.PAGE && a.mapped
    ensures Enabled(img, a, Store(off, b)) && a.terms[a.active].screen.Valid()
    ensures var v := a.terms[a.active];
            Step(img, a, Store(off, b)) == With(a, a.active, v.(screen := v.screen.(mem := v.screen.mem[off := b])))
  {
    StepStore(img, a, off, b);
  }

  lemma StoreRefines(img: Image, l: Layout, r: Vars, off: nat, b: byte)
    requires WellFormed(img) && Inv(img, l, r) && off < S.PAGE && r.tables.dir[VIDMAP_PAGE].present
    ensures PidsInRange(r) && AbsScreen(r, r.active).Valid()
    ensures var s := AbsScreen(r, r.active);
            SteppedBy(img, l, r, SetScreen(r, r.active, s.(mem := s.mem[off := b])), Store(off, b))
  {
    AbsOk(img, l, r);
    RunningParts(img, l, r);
    AbsPresent(r);
    var s := AbsScreen(r, r.active);
    hide Abs, Step, Enabled, StateOk, TerminalOk, FdsOk, PidsOk, WellFormed, TermOk, Structure, Ready;
    ScreenRefines(img, l, r, r.active, s.(mem := s.mem[off := b]));
    StoreStep(img, Abs(r), off, b);
  }

  // ---------- the clock interrupt ----------

  /** The terminals after `n` rounds of the handler's loop. */
  function Ticked(terms: seq<Term>, n: nat): (r: seq<Term>)
    requires |terms| == MAX_TERMINALS && n <= MAX_TERMINALS
    ensures |r| == MAX_TERMINALS
    ensures forall t :: 0 <= t < MAX_TERMINALS ==>
              r[t] == if t < n then terms[t].(rtc := VR.Tick(terms[t].rtc)) else terms[t]
  {
    if n == 0 then terms
    else
      var q := Ticked(terms, n - 1);
      q[n - 1 := q[n - 1].(rtc := VR.Tick(terms[n - 1].rtc))]
  }

  function ClockOf(a: State, t: nat): State
    requires |a.terms| == MAX_TERMINALS && t < MAX_TERMINALS
  {
    With(a, t, a.terms[t].(rtc := VR.Tick(a.terms[t].rtc)))
  }

  /** The variables after `n` rounds. */
  function Rounds(r: Vars, n: nat): Vars
    requires |r.terms| == MAX_TERMINALS && n <= MAX_TERMINALS
  {
    r.(terms := Ticked(r.terms, n))
  }

  function RoundsOf(a: State, n: nat): (b: State)
    requires |a.terms| == MAX_TERMINALS && n <= MAX_TERMINALS
    ensures |b.terms| == MAX_TERMINALS
  {
    if n == 0 then a else ClockOf(RoundsOf(a, n - 1), n - 1)
  }

  /** One round. */
  lemma ClockRound(img: Image, l: Layout, r: Vars, n: nat)
    requires |r.terms| == MAX_TERMINALS && n < MAX_TERMINALS
    requires Inv(img, l, Rounds(r, n))
    ensures PidsInRange(Rounds(r, n)) && Inv(img, l, Rounds(r, n + 1)) && PidsInRange(Rounds(r, n + 1))
    ensures Abs(Rounds(r, n + 1)) == ClockOf(Abs(Rounds(r, n)), n)
  {
    var q := Rounds(r, n);
    InRange(q);
    RtcOf(q, n);
    hide Structure, Ready, TermOk, Abs, VR.Tick, With, Ticked;
    assert Ticked(r.terms, n + 1) == Ticked(r.terms, n)[n := q.terms[n].(rtc := VR.Tick(q.terms[n].rtc))];
    RtcRefines(img, l, q, n, VR.Tick(q.terms[n].rtc));
  }

  lemma {:induction false} ClockRounds(img: Image, l: Layout, r: Vars, n: nat)
    requires Inv(img, l, r) && PidsInRange(r) && n <= MAX_TERMINALS
    ensures Inv(img, l, Rounds(r, n)) && PidsInRange(Rounds(r, n))
    ensures Abs(Rounds(r, n)) == RoundsOf(Abs(r), n)
  {
    hide Structure, Ready, TermOk, Abs, ClockOf, Rounds;
    if n == 0 {
      NoRounds(r);
    } else {
      ClockRounds(img, l, r, n - 1);
      ClockRound(img, l, r, n - 1);
    }
  }

  lemma NoRounds(r: Vars)
    requires |r.terms| == MAX_TERMINALS
    ensures Rounds(r, 0) == r
  {
  }

  lemma ThreeRounds(a: State)
    requires |a.terms| == MAX_TERMINALS
    ensures RoundsOf(a, MAX_TERMINALS) == ClockOf(ClockOf(ClockOf(a, 0), 1), 2)
  {
    hide ClockOf;
    assert RoundsOf(a, 1) == ClockOf(RoundsOf(a, 0), 0);
    assert RoundsOf(a, 2) == ClockOf(RoundsOf(a, 1), 1);
  }

  lemma ClockStep(img: Image, a: State)
    requires WellFormed(img) && StateOk(img, a) && Running(a)
    ensures Enabled(img, a, ClockInterrupt)
    ensures Step(img, a, ClockInterrupt) == RoundsOf(a, MAX_TERMINALS)
  {
    StepClock(img, a);
    hide VR.Tick, Step, TerminalOk;
    ThreeRounds(a);
    assert Step(img, a, ClockInterrupt).terms == RoundsOf(a, MAX_TERMINALS).terms;
  }

  lemma ClockRefines(img: Image, l: Layout, r: Vars)
    requires WellFormed(img) && Inv(img, l, r)
    ensures PidsInRange(r) && SteppedBy(img, l, r, Rounds(r, MAX_TERMINALS), ClockInterrupt)
  {
    AbsOk(img, l, r);
    hide Abs, Step, Enabled, StateOk, PidsOk, WellFormed, TermOk, Structure, Ready, ClockOf, Rounds;
    ClockRounds(img, l, r, MAX_TERMINALS);
    ClockStep(img, Abs(r));
  }

  lemma RtcOf(r: Vars, t: nat)
    requires Shape(r) && PidsInRange(r) && t < MAX_TERMINALS
    ensures Abs(r).terms[t].rtc == r.terms[t].rtc
  {
  }

  // ---------- the keyboard ----------

  /** A key typed at terminal `t`. */
  function TypedVars(r: Vars, t: nat, k: LB.Press): Vars
    requires |r.terms| == |r.back| == MAX_TERMINALS && t < MAX_TERMINALS && k.Valid()
    requires 0 <= r.terms[t].charIdx <= |r.terms[t].buffer| && AbsLine(r.terms[t]).Valid() && AbsScreen(r, t).Valid()
  {
    var (line, echo) := LB.Type(AbsLine(r.terms[t]), k);
    var q := SetEntry(r, t, WithLine(r.terms[t], line));
    if echo then SetScreen(q, t, S.Put(AbsScreen(r, t), EchoOf(k))) else q
  }

  lemma TermParts(r: Vars, t: nat)
    requires Shape(r) && t < MAX_TERMINALS
    ensures AbsLine(r.terms[t]).Valid() && AbsScreen(r, t).Valid()
  {
    assert TermOk(r.terms[t]);
  }

  lemma TypedRefines(img: Image, l: Layout, r: Vars, t: nat, k: LB.Press)
    requires Inv(img, l, r) && t < MAX_TERMINALS && k.Valid()
    ensures AbsLine(r.terms[t]).Valid() && AbsScreen(r, t).Valid() && PidsInRange(r)
    ensures var q := TypedVars(r, t, k);
            && Inv(img, l, q) && PidsInRange(q)
            && Abs(r).terms[t].line.Valid() && Abs(r).terms[t].screen.Valid()
            && Abs(q) == With(Abs(r), t, TypeKey(Abs(r).terms[t], k))
  {
    TermParts(r, t);
    var (line, echo) := LB.Type(AbsLine(r.terms[t]), k);
    LineRefines(img, l, r, t, line);
    AbsAt(r, t);
    hide Structure, Ready, TermOk, AbsProcs, LB.Type, S.Put;
    var q := SetEntry(r, t, WithLine(r.terms[t], line));
    if echo {
      ScreenRefines(img, l, q, t, S.Put(AbsScreen(r, t), EchoOf(k)));
      hide Abs;
      WithTwice(Abs(r), t, Abs(r).terms[t].(line := line), TypeKey(Abs(r).terms[t], k));
    }
  }

  /** What the visible terminal's event does to the kernel's variables. */
  ghost function LocalVars(r: Vars, e: LEvent): Vars
    requires Shape(r) && (e.LType? ==> e.k.Valid())
  {
    TermParts(r, r.visible);
    match e
    case LType(p) => TypedVars(r, r.visible, p)
    case LHalt(flag) => SetEntry(r, r.visible, r.terms[r.visible].(haltFlag := flag))
    case _ => SetScreen(r, r.visible, S.Clear(AbsScreen(r, r.visible)))
  }

  /** What one scan code does to the kernel's variables. */
  ghost function KeyedVars(r: Vars, scan: nat): Vars
    requires Shape(r) && scan < 0x100
  {
    var k := KeyMeans(r.mods, scan);
    var q := if k.local == [] then r else (assert k.local[0] in k.local; LocalVars(r, k.local[0]));
    q.(mods := k.mods, target := if k.show.Some? then k.show.value else r.target)
  }

  /** The scan codes that `special_chars` deals with. */
  predicate Special(m: Mods, scan: nat) {
    || scan == 0x38 || scan == 0xB8 || scan == 0x2A || scan == 0xAA || scan == 0x36 || scan == 0xB6
    || scan == 0x3A || scan == 0x1D || scan == 0x9D || scan == 0x1C || scan == 0x0E || scan == 0x0F
    || 0x3B <= scan <= 0x3D
    || ((scan == 0x2E || scan == 0x26) && m.ctrl)
  }

  /** Any other key prints its character, if it has one and Ctrl is up. */
  lemma PlainKeys(r: Vars, scan: nat)
    requires Shape(r) && scan < 0x100 && !Special(r.mods, scan)
    ensures KeyedVars(r, scan)
            == if scan < KEYS && !r.mods.ctrl && KeyChar(r.mods, scan) != NUL
               then TermParts(r, r.visible); TypedVars(r, r.visible, PressOf(KeyChar(r.mods, scan))) else r
  {
    hide TermOk, Keymap, LB.Type, S.Put, WithLine, AbsLine, AbsScreen;
    var k := KeyMeans(r.mods, scan);
    if k.local != [] {
      assert k.local == [LType(PressOf(KeyChar(r.mods, scan)))];
    }
  }

  /** The keys that edit the line. */
  function EditKey(scan: nat): Option<byte> {
    if scan == 0x1C then Some(NEWLINE)
    else if scan == 0x0E then Some(S.BACKSPACE)
    else if scan == 0x0F then Some(SPACE)
    else None
  }

  /** The number of an Alt-Fn key; Tab runs into the case of F1. */
  function ShowKey(scan: nat): Option<nat> {
    if scan == 0x0F then Some(0) else if 0x3B <= scan <= 0x3D then Some(scan - 0x3B) else None
  }

  lemma SpecialMeans(m: Mods, scan: nat)
    requires scan < 0x100 && Special(m, scan)
    ensures KeyMeans(m, scan)
            == if EditKey(scan).Some? then
                 KeyEffect(m, [LType(PressOf(EditKey(scan).value))], if m.alt then ShowKey(scan) else None)
               else if ShowKey(scan).Some? then KeyEffect(m, [], if m.alt then ShowKey(scan) else None)
               else if scan == 0x2E then KeyEffect(m, [LHalt(true)], None)
               else if scan == 0x26 then KeyEffect(m, [LWipe], None)
               else KeyEffect(KeyMeans(m, scan).mods, [], None)
  {
    hide Keymap, KeyChar;
  }

  lemma KeyedShape(r: Vars, scan: nat)
    requires Shape(r) && scan < 0x100
    ensures Shape(KeyedVars(r, scan)) && KeyedVars(r, scan).active == r.active
  {
    TermParts(r, r.visible);
    assert TermOk(r.terms[r.visible]);
    var k := KeyMeans(r.mods, scan);
    hide KeyMeans, S.Put, S.Clear, LB.Type;
    if k.local != [] {
      assert k.local[0] in k.local;
      if k.local[0].LType? {
        WithLineIsLine(r.terms[r.visible], LB.Type(AbsLine(r.terms[r.visible]), k.local[0].k).0);
      }
    }
  }

  /** The special keys, one kind at a time. */
  lemma SpecialKeys(r: Vars, scan: nat)
    requires Shape(r) && scan < 0x100 && Special(r.mods, scan)
    ensures AbsScreen(r, r.visible).Valid() && AbsLine(r.terms[r.visible]).Valid()
    ensures var show := if ShowKey(scan).Some? && r.mods.alt then ShowKey(scan).value else r.target;
            KeyedVars(r, scan)
            == if EditKey(scan).Some? then TypedVars(r, r.visible, PressOf(EditKey(scan).value)).(target := show)
               else if ShowKey(scan).Some? then r.(target := show)
               else if scan == 0x2E then SetEntry(r, r.visible, r.terms[r.visible].(haltFlag := true))
               else if scan == 0x26 then SetScreen(r, r.visible, S.Clear(AbsScreen(r, r.visible)))
               else r.(mods := KeyMeans(r.mods, scan).mods)
  {
    TermParts(r, r.visible);
    SpecialMeans(r.mods, scan);
    hide TermOk, KeyMeans, LB.Type, S.Put, WithLine, AbsLine, AbsScreen, S.Clear;
  }

  lemma LocalElsewhere(r: Vars, e: LEvent, active: int)
    requires Shape(r) && (e.LType? ==> e.k.Valid()) && 0 <= active < MAX_TERMINALS
    ensures Shape(r.(active := active))
    ensures LocalVars(r.(active := active), e) == LocalVars(r, e).(active := active)
  {
    hide LB.Type, S.Put, S.Clear, TermOk, WithLine, AbsLine;
  }

  /** The handler works on the visible terminal as if it were the running one. */
  lemma KeyedElsewhere(r: Vars, scan: nat, active: int)
    requires Shape(r) && scan < 0x100 && 0 <= active < MAX_TERMINALS
    ensures Shape(r.(active := active))
    ensures KeyedVars(r.(active := active), scan) == KeyedVars(r, scan).(active := active)
  {
    hide KeyMeans, LocalVars, TermOk;
    var k := KeyMeans(r.mods, scan);
    if k.local != [] {
      assert k.local[0] in k.local;
      LocalElsewhere(r, k.local[0], active);
    }
  }

  lemma ModsRefine(img: Image, l: Layout, r: Vars, mods: Mods, target: nat)
    requires Inv(img, l, r) && PidsInRange(r) && target < MAX_TERMINALS
    ensures var q := r.(mods := mods, target := target);
            Inv(img, l, q) && PidsInRange(q) && Abs(q) == Abs(r).(mods := mods, target := target)
  {
    hide TermOk, StacksOk, Used, LinkOk;
  }

  lemma ScreenOf(r: Vars, t: nat)
    requires Shape(r) && PidsInRange(r) && t < MAX_TERMINALS
    ensures Abs(r).terms[t].screen == AbsScreen(r, t)
  {
  }

  lemma KeyEventIs(img: Image, v: Terminal, e: LEvent)
    requires Sized(img) && TerminalOk(img, v) && (e.LType? || e == LHalt(true) || e == LWipe)
    requires e.LType? ==> e.k.Valid()
    ensures LEventOk(img, e)
    ensures LStep(img, v, e)
            == if e.LType? then TypeKey(v, e.k)
               else if e.LHalt? then v.(halt := true)
               else v.(screen := S.Clear(v.screen))
  {
  }

  lemma LocalRefines(img: Image, l: Layout, r: Vars, e: LEvent)
    requires WellFormed(img) && Inv(img, l, r) && PidsInRange(r) && StateOk(img, Abs(r))
    requires e.LType? || e == LHalt(true) || e == LWipe
    requires e.LType? ==> e.k.Valid()
    ensures var q := LocalVars(r, e);
            && Inv(img, l, q) && PidsInRange(q)
            && LEventOk(img, e) && TerminalOk(img, Abs(r).terms[r.visible])
            && Abs(q) == With(Abs(r), r.visible, LStep(img, Abs(r).terms[r.visible], e))
  {
    TermParts(r, r.visible);
    ScreenOf(r, r.visible);
    assert TerminalOk(img, Abs(r).terms[r.visible]);
    KeyEventIs(img, Abs(r).terms[r.visible], e);
    hide Structure, Ready, TermOk, Abs, TypedVars, TypeKey, S.Clear, TableOk, LStep, StateOk, With;
    if e.LType? {
      TypedRefines(img, l, r, r.visible, e.k);
    } else if e.LHalt? {
      HaltRefines(img, l, r, r.visible, e.flag);
    } else {
      ScreenRefines(img, l, r, r.visible, S.Clear(AbsScreen(r, r.visible)));
    }
  }

  lemma KeyStep(img: Image, a: State, scan: nat)
    requires WellFormed(img) && StateOk(img, a) && Running(a) && scan < 0x100
    ensures Enabled(img, a, Key(scan))
    ensures var k := KeyMeans(a.mods, scan);
            && |k.local| <= 1
            && (k.local != [] ==> LEventOk(img, k.local[0]) && TerminalOk(img, a.terms[a.visible]))
            && Step(img, a, Key(scan))
               == (if k.local == [] then a else With(a, a.visible, LStep(img, a.terms[a.visible], k.local[0]))).(
                    mods := k.mods, target := if k.show.Some? then k.show.value else a.target)
  {
    KeyHasOneEffect(a.mods, scan);
    KeyEventsOk(img, a.mods, scan);
    hide KeyMeans, TerminalOk, LStep;
    StepKey(img, a, scan);
    hide Step;
    assert KeyMeans(a.mods, scan).local == [] ==> With(a, a.visible, a.terms[a.visible]) == a;
  }

  lemma KeyRefines(img: Image, l: Layout, r: Vars, scan: nat)
    requires WellFormed(img) && Inv(img, l, r) && scan < 0x100
    ensures PidsInRange(r) && SteppedBy(img, l, r, KeyedVars(r, scan), Key(scan))
  {
    AbsOk(img, l, r);
    hide Step, Structure, Ready, TermOk, KeyMeans, LStep, LocalVars, StateOk, TerminalOk, Enabled;
    var k := KeyMeans(r.mods, scan);
    var q := r;
    KeyStep(img, Abs(r), scan);
    if k.local != [] {
      assert k.local[0] in k.local;
      LocalRefines(img, l, r, k.local[0]);
      q := LocalVars(r, k.local[0]);
    }
    ModsRefine(img, l, q, k.mods, if k.show.Some? then k.show.value else r.target);
    hide Abs;
  }
}
