/** What a scheduler tick does to the kernel's variables: the terminal switch, the two copies of
    a visible switch, the first start of a terminal and the deferred kill. */
module KernelTicks {
  import opened CInt
  import opened FileSystem
  import opened Programs
  import opened Paging
  import opened Terminals
  import opened Machine
  import opened MachineFacts
  import opened MachineSteps
  import opened Stacks
  import opened KernelState
  import opened KernelRefinement
  import opened KernelInterrupts
  import opened KernelProcesses
  import S = Screen

  function Following(r: Vars): int {
    (r.active + 1) % MAX_TERMINALS
  }

  /** The visible switch, if it is wanted and its terminal's turn has come. */
  function MaybeShown(r: Vars): Vars
    requires Shape(r)
  {
    if r.target != r.visible && r.target == Following(r) then Shown(r, r.target) else r
  }

  lemma MaybeShownTurn(r: Vars)
    requires Shape(r)
    ensures var m := MaybeShown(r);
            && Following(m) == Following(r) && m.active == r.active && m.currPid == r.currPid && m.tssEsp0 == r.tssEsp0
  {
  }

  lemma ShownStructure(img: Image, r: Vars, num: nat)
    requires Sized(img) && Shape(r) && Structure(img, r) && num < MAX_TERMINALS && Shape(Shown(r, num))
    ensures Structure(img, Shown(r, num))
  {
    hide StacksOk, Used, LinkOk, TermOk;
  }

  lemma MaybeShownKeeps(img: Image, r: Vars)
    requires Sized(img) && Shape(r) && Structure(img, r)
    ensures Shape(MaybeShown(r)) && Structure(img, MaybeShown(r)) && PidsInRange(r) && PidsInRange(MaybeShown(r))
    ensures Abs(MaybeShown(r)) == Abs(r).(visible := VisibleAfterTick(Abs(r)))
  {
    InRange(r);
    hide StacksOk, Used, LinkOk, TermOk;
    if r.target != r.visible && r.target == Following(r) {
      ShownAbs(r, r.target);
      hide Abs;
      ShownStructure(img, r, r.target);
    }
  }

  /** The variables at the point where the next terminal has become the running one. */
  function Suspended(r: Vars, ctx: Ctx): Vars
    requires Shape(r) && Shape(MaybeShown(r))
  {
    SwitchedTo(MaybeShown(r), Following(r), ctx)
  }

  /** The machine at that point. */
  function SuspendedOf(a: State, ctx: Ctx): State
    requires |a.terms| == MAX_TERMINALS && a.active < MAX_TERMINALS
  {
    With(a, a.active, a.terms[a.active].(ctx := ctx)).(active := Next(a), visible := VisibleAfterTick(a))
  }

  lemma SuspendedIs(a: State, b: State, ctx: Ctx)
    requires |a.terms| == MAX_TERMINALS && a.active < MAX_TERMINALS && b == a.(visible := VisibleAfterTick(a))
    ensures With(b, a.active, b.terms[a.active].(ctx := ctx)).(active := Next(a)) == SuspendedOf(a, ctx)
  {
  }

  lemma SuspendedStructure(img: Image, r: Vars, ctx: Ctx)
    requires Sized(img) && Shape(r) && Structure(img, r) && Shape(MaybeShown(r)) && Structure(img, MaybeShown(r))
    requires r.currPid >= 0 && r.tssEsp0 == StackTop(r.currPid)
    ensures Shape(Suspended(r, ctx)) && Structure(img, Suspended(r, ctx))
  {
    MaybeShownTurn(r);
    hide Structure, TermOk, MaybeShown;
    SwitchStructure(img, MaybeShown(r), Following(r), ctx);
  }

  lemma SuspendedAbs(r: Vars, ctx: Ctx)
    requires Shape(r) && Shape(MaybeShown(r)) && PidsInRange(r) && PidsInRange(MaybeShown(r))
    requires Abs(MaybeShown(r)) == Abs(r).(visible := VisibleAfterTick(Abs(r)))
    ensures Shape(Suspended(r, ctx)) && PidsInRange(Suspended(r, ctx))
    ensures Abs(Suspended(r, ctx)) == SuspendedOf(Abs(r), ctx)
  {
    MaybeShownTurn(r);
    hide TermOk, MaybeShown, AbsTerminal, PidsInRange;
    SwitchAbs(MaybeShown(r), Following(r), ctx);
    SuspendedIs(Abs(r), Abs(MaybeShown(r)), ctx);
    hide With, SuspendedOf, VisibleAfterTick;
  }

  lemma SuspendedKeeps(img: Image, r: Vars, ctx: Ctx)
    requires Sized(img) && Shape(r) && Structure(img, r)
    requires r.currPid >= 0 && r.tssEsp0 == StackTop(r.currPid)
    ensures Shape(MaybeShown(r))
    ensures var m := Suspended(r, ctx);
            && Shape(m) && Structure(img, m) && PidsInRange(r) && PidsInRange(m)
            && Abs(m) == SuspendedOf(Abs(r), ctx)
  {
    hide Structure, Abs, TermOk, MaybeShown, Suspended;
    MaybeShownKeeps(img, r);
    SuspendedStructure(img, r, ctx);
    SuspendedAbs(r, ctx);
  }

  // ---------- the three ways on ----------

  lemma FollowingParts(img: Image, r: Vars, ctx: Ctx)
    requires Sized(img) && Shape(r) && Structure(img, r)
    requires Shape(MaybeShown(r)) && Shape(Suspended(r, ctx))
    ensures var m := Suspended(r, ctx);
            && m.active == Following(r) && m.stacks == r.stacks && m.tables == r.tables && m.pcbs == r.pcbs
            && m.pidarray == r.pidarray && m.tssEsp0 == r.tssEsp0
            && m.currPid == TopOr(r.stacks[m.active]) && m.terms[m.active] == r.terms[m.active]
            && (r.stacks[m.active] != [] ==> m.terms[m.active].tssEsp0 == StackTop(Top(r.stacks[m.active])))
  {
    hide StacksOk, Used, LinkOk, TermOk;
  }

  lemma TopIsPid(img: Image, m: Vars)
    requires Sized(img) && Shape(m) && Structure(img, m)
    ensures StacksOk(m.stacks) && m.currPid == TopOr(m.stacks[m.active])
    ensures m.currPid == -1 <==> m.stacks[m.active] == []
  {
    InRange(m);
  }

  /** A terminal that has never run: its screen is cleared and its shell started. */
  ghost predicate FirstEffect(img: Image, l: Layout, m: Vars, q: Vars, ctx: Ctx, o: Outcome)
    requires Sized(img) && Shape(m) && |m.stacks| == MAX_TERMINALS
  {
    assert TermOk(m.terms[m.active]);
    var w := SetScreen(m, m.active, S.Clear(AbsScreen(m, m.active)));
    var p := LowestFree(Used(w.stacks), 0);
    if p == -1 then q == w && o == FellThrough(ctx)
    else Shape(w) && StartEffect(l, w, q, p, ctx, []) && o == Entered(p, ShellProgram(img))
  }

  /** A terminal with a Ctrl-C pending: its leaf ends. */
  ghost predicate InterruptEffect(img: Image, l: Layout, m: Vars, q: Vars, ctx: Ctx, o: Outcome)
    requires Sized(img) && Shape(m) && StacksOk(m.stacks) && m.stacks[m.active] != []
    requires m.currPid == Top(m.stacks[m.active])
  {
    var w := SetEntry(m, m.active, m.terms[m.active].(haltFlag := false));
    Shape(w) && KillEffect(img, l, w, q, KILLED, ctx, o)
  }

  /** Any other terminal goes on where its last turn ended. */
  ghost predicate ResumeEffect(l: Layout, m: Vars, q: Vars, o: Outcome)
    requires Shape(m)
  {
    && 0 <= m.currPid < MAX_PROCESSES
    && |q.tables.dir| == ENTRIES && |q.tables.table0| == ENTRIES
    && q == m.(tssEsp0 := m.terms[m.active].tssEsp0, tables := q.tables)
    && Maps(l, q.tables, m.currPid, OpenScreen(l, q))
    && q.tables.dir[VIDMAP_PAGE].present == m.pcbs[m.currPid].vidmapActive
    && o == Switched(m.terms[m.active].save)
  }

  /** The turn of the terminal that has become the running one. */
  ghost predicate TurnEffect(img: Image, l: Layout, m: Vars, q: Vars, ctx: Ctx, o: Outcome)
    requires Sized(img) && Shape(m) && StacksOk(m.stacks) && m.currPid == TopOr(m.stacks[m.active])
  {
    if m.stacks[m.active] == [] then FirstEffect(img, l, m, q, ctx, o)
    else if m.terms[m.active].haltFlag then InterruptEffect(img, l, m, q, ctx, o)
    else ResumeEffect(l, m, q, o)
  }

  ghost predicate TickEffect(img: Image, l: Layout, r: Vars, q: Vars, ctx: Ctx, o: Outcome)
    requires Sized(img) && Shape(r) && Structure(img, r)
  {
    && Shape(MaybeShown(r)) && Shape(Suspended(r, ctx))
    && (FollowingParts(img, r, ctx); TurnEffect(img, l, Suspended(r, ctx), q, ctx, o))
  }

  lemma ResumeRefines(img: Image, l: Layout, m: Vars, q: Vars, o: Outcome)
    requires Sized(img) && l.Valid() && Shape(m) && Structure(img, m) && m.stacks[m.active] != []
    requires m.terms[m.active].tssEsp0 == StackTop(Top(m.stacks[m.active])) && ResumeEffect(l, m, q, o)
    ensures Inv(img, l, q) && PidsInRange(q) && PidsInRange(m) && |Abs(m).vid| == MAX_PROCESSES
    ensures Abs(q) == Abs(m).(mapped := Abs(m).vid[m.currPid])
  {
    InRange(m);
    VidOf(m, m.currPid);
    var e := m.(tssEsp0 := m.terms[m.active].tssEsp0);
    EspAbs(m, m.terms[m.active].tssEsp0);
    hide StacksOk, Used, LinkOk, TermOk, Maps, Abs;
    assert Structure(img, e);
    TablesStructure(img, e, q.tables);
    TablesAbs(e, q.tables);
  }

  lemma InterruptRefines(img: Image, l: Layout, m: Vars, q: Vars, ctx: Ctx, o: Outcome)
    requires Sized(img) && l.Valid() && Shape(m) && Structure(img, m) && m.stacks[m.active] != []
    requires m.currPid == Top(m.stacks[m.active]) && InterruptEffect(img, l, m, q, ctx, o)
    ensures Inv(img, l, q) && PidsInRange(q) && PidsInRange(m)
    ensures var a := With(Abs(m), m.active, Abs(m).terms[m.active].(halt := false));
            && a.terms[m.active].procs != [] && |a.vid| == MAX_PROCESSES && 0 <= AfterKill(a, m.active) < MAX_PROCESSES
            && Abs(q) == With(a, m.active, AfterEnd(a, m.active, ctx, a.terms[m.active])).(
                           mapped := a.vid[AfterKill(a, m.active)])
            && o == KillOutcome(img, a, m.active, KILLED)
  {
    InRange(m);
    AbsAt(m, m.active);
    assert TermOk(m.terms[m.active]);
    var term := m.terms[m.active].(haltFlag := false);
    SameScreen(m, m.active, term);
    EntryStructure(img, m, m.active, term, Logical(m, m.active));
    EntryAbs(m, m.active, term, Logical(m, m.active));
    hide Structure, Abs, TermOk, KillEffect, AfterEnd, AfterKill, KillOutcome, AbsProcs;
    var w := SetEntry(m, m.active, term);
    KillRefines(img, l, w, q, KILLED, ctx, o);
    KillOutcomeIs(img, l, w, q, KILLED, ctx, o);
  }

  lemma ClearedAbs(img: Image, m: Vars)
    requires Sized(img) && Shape(m) && Structure(img, m)
    ensures PidsInRange(m) && AbsScreen(m, m.active).Valid() && Abs(m).terms[m.active].screen == AbsScreen(m, m.active)
    ensures var w := SetScreen(m, m.active, S.Clear(AbsScreen(m, m.active)));
            && Shape(w) && Structure(img, w) && PidsInRange(w)
            && w.stacks == m.stacks && w.active == m.active && w.currPid == m.currPid
            && Abs(w)
               == With(Abs(m), m.active, Abs(m).terms[m.active].(screen := S.Clear(Abs(m).terms[m.active].screen)))
  {
    InRange(m);
    AbsAt(m, m.active);
    assert TermOk(m.terms[m.active]);
    var s := S.Clear(AbsScreen(m, m.active));
    var term := m.terms[m.active].(cursorX := s.x, cursorY := s.y);
    EntryStructure(img, m, m.active, term, s.mem);
    EntryAbs(m, m.active, term, s.mem);
    hide Structure, Abs, TermOk, S.Clear, AbsProcs;
  }

  lemma FirstRefines(img: Image, l: Layout, m: Vars, q: Vars, ctx: Ctx, o: Outcome)
    requires Sized(img) && l.Valid() && Shape(m) && Structure(img, m) && m.stacks[m.active] == []
    requires FirstEffect(img, l, m, q, ctx, o)
    ensures PidsInRange(m) && Abs(m).terms[m.active].screen.Valid()
    ensures var p := LowestFree(Used(m.stacks), 0);
            var v := Abs(m).terms[m.active];
            && (p == -1 ==>
                  && q.active == m.active && q.currPid == m.currPid && q.pidarray == m.pidarray && q.pcbs == m.pcbs
                  && q.stacks == m.stacks && q.tssEsp0 == m.tssEsp0 && q.tables == m.tables && o == FellThrough(ctx))
            && (p != -1 ==>
                  && Inv(img, l, q) && PidsInRange(q) && |Abs(m).vid| == MAX_PROCESSES
                  && o == Entered(p, ShellProgram(img))
                  && Abs(q) == With(Abs(m), m.active, Grown(v.(screen := S.Clear(v.screen)), p, ctx, [])).(
                                 mapped := Abs(m).vid[p]))
  {
    ClearedAbs(img, m);
    var w := SetScreen(m, m.active, S.Clear(AbsScreen(m, m.active)));
    var v := Abs(m).terms[m.active];
    var p := LowestFree(Used(m.stacks), 0);
    if p != -1 {
      hide Abs, TermOk, S.Clear, StartEffect, LowestFree, Used, LinkOk, StacksOk, SetScreen;
      StartInv(img, l, w, q, p, ctx, []);
      StartAbs(l, w, q, p, ctx, []);
      hide Grown, Structure;
      WithTwice(Abs(m), m.active, v.(screen := S.Clear(v.screen)), Grown(v.(screen := S.Clear(v.screen)), p, ctx, []));
    }
  }

  lemma ClearedFlag(img: Image, m: Vars)
    requires Sized(img) && Shape(m) && Structure(img, m)
    ensures var w := SetEntry(m, m.active, m.terms[m.active].(haltFlag := false));
            Shape(w) && Structure(img, w)
  {
    assert TermOk(m.terms[m.active]);
    var term := m.terms[m.active].(haltFlag := false);
    SameScreen(m, m.active, term);
    EntryStructure(img, m, m.active, term, Logical(m, m.active));
  }

  // ---------- one step of the machine ----------

  /** A tick, from the point where the next terminal has become the running one. */
  lemma TickFrom(img: Image, a: State, ctx: Ctx)
    requires WellFormed(img) && StateOk(img, a) && Running(a)
    ensures Enabled(img, a, Tick(ctx)) && a.terms[Next(a)].screen.Valid()
    ensures var b := SuspendedOf(a, ctx);
            && Step(img, a, Tick(ctx)) == With(b, Next(a), Woken(a, ctx)).(mapped := NextMapped(img, a, Tick(ctx)))
            && b.active == Next(a) != a.active && b.terms[Next(a)] == a.terms[Next(a)] && b.vid == a.vid
            && forall u :: 0 <= u < MAX_TERMINALS ==> b.terms[u].procs == a.terms[u].procs
  {
    hide Woken, NextMapped, VisibleAfterTick;
    StepTick(img, a, ctx);
  }

  lemma ResumeStep(img: Image, a: State, ctx: Ctx, p: int)
    requires WellFormed(img) && StateOk(img, a) && Running(a)
    requires var v := a.terms[Next(a)]; v.procs != [] && !v.halt && v.Leaf().pid == p && 0 <= p < MAX_PROCESSES
    ensures Enabled(img, a, Tick(ctx)) && Safe(a, Tick(ctx))
    ensures Step(img, a, Tick(ctx)) == SuspendedOf(a, ctx).(mapped := a.vid[p])
    ensures OutcomeOf(img, a, Tick(ctx)) == Switched(a.terms[Next(a)].ctx)
  {
    TickFrom(img, a, ctx);
    hide Step, SuspendedOf, Used, LowestFree, AfterEnd;
    var b := SuspendedOf(a, ctx);
    assert With(b, Next(a), a.terms[Next(a)]) == b;
  }

  lemma InterruptStep(img: Image, a: State, ctx: Ctx, b: State)
    requires WellFormed(img) && StateOk(img, a) && Running(a)
    requires a.terms[Next(a)].procs != [] && a.terms[Next(a)].halt
    requires b == With(SuspendedOf(a, ctx), Next(a), a.terms[Next(a)].(halt := false))
    requires 0 <= AfterKill(b, Next(a)) < MAX_PROCESSES
    ensures Enabled(img, a, Tick(ctx)) && Safe(a, Tick(ctx)) && b.terms[Next(a)].procs != []
    ensures Step(img, a, Tick(ctx))
            == With(b, Next(a), AfterEnd(b, Next(a), ctx, b.terms[Next(a)])).(mapped := a.vid[AfterKill(b, Next(a))])
    ensures OutcomeOf(img, a, Tick(ctx)) == KillOutcome(img, b, Next(a), KILLED)
  {
    TickFrom(img, a, ctx);
    hide Step, SuspendedOf, Used, LowestFree;
    var n := Next(a);
    var v := a.terms[n].(halt := false);
    AfterEndSame(a, b, n, ctx, v);
    hide AfterEnd, AfterKill, KillOutcome;
    WithTwice(SuspendedOf(a, ctx), n, v, AfterEnd(a, n, ctx, v));
  }

  lemma FirstStep(img: Image, a: State, ctx: Ctx, st: seq<Stack>)
    requires WellFormed(img) && StateOk(img, a) && Running(a) && AllPids(a) == st
    requires a.terms[Next(a)].procs == []
    ensures Enabled(img, a, Tick(ctx)) && a.terms[Next(a)].screen.Valid()
    ensures var p := LowestFree(Used(st), 0);
            var v := a.terms[Next(a)];
            && (Safe(a, Tick(ctx)) <==> p != -1)
            && (p == -1 ==> OutcomeOf(img, a, Tick(ctx)) == FellThrough(ctx))
            && (p != -1 ==>
                  && OutcomeOf(img, a, Tick(ctx)) == Entered(p, ShellProgram(img))
                  && Step(img, a, Tick(ctx))
                     == With(SuspendedOf(a, ctx), Next(a), Grown(v.(screen := S.Clear(v.screen)), p, ctx, [])).(
                          mapped := a.vid[p]))
  {
    TickFrom(img, a, ctx);
    hide Step, SuspendedOf, Used, LowestFree, S.Clear, StateOk, Enabled;
    WokenFirst(a, ctx, st);
    hide Woken, Grown;
  }

  lemma WokenFirst(a: State, ctx: Ctx, st: seq<Stack>)
    requires |a.terms| == MAX_TERMINALS && a.terms[Next(a)].screen.Valid() && a.terms[Next(a)].procs == []
    requires AllPids(a) == st
    ensures var p := LowestFree(Used(st), 0);
            var v := a.terms[Next(a)];
            p != -1 ==> Woken(a, ctx) == Grown(v.(screen := S.Clear(v.screen)), p, ctx, [])
  {
    hide LowestFree, Used, S.Clear;
    var v := a.terms[Next(a)];
    var p := LowestFree(Used(st), 0);
    assert v.procs + [ShellProc(p, ctx)] == [ShellProc(p, ctx)];
  }

  /** The next terminal is the running one and no process is current, while the processor is
      still set up for the process that was interrupted. */
  predicate LeftBehind(r: Vars, q: Vars) {
    && q.active == Following(r) && q.currPid == -1
    && q.pidarray == r.pidarray && q.pcbs == r.pcbs && q.stacks == r.stacks
    && q.tssEsp0 == r.tssEsp0 && q.tables == r.tables
  }

  /** A tick is one step of the machine. It fails to leave a running process exactly when it
      starts a terminal for the first time with all six pids taken. */
  lemma TickRefines(img: Image, l: Layout, r: Vars, q: Vars, ctx: Ctx, o: Outcome)
    requires WellFormed(img) && Inv(img, l, r) && TickEffect(img, l, r, q, ctx, o)
    ensures PidsInRange(r) && StateOk(img, Abs(r)) && Running(Abs(r)) && Enabled(img, Abs(r), Tick(ctx))
    ensures o == OutcomeOf(img, Abs(r), Tick(ctx))
    ensures Safe(Abs(r), Tick(ctx)) ==> SteppedBy(img, l, r, q, Tick(ctx))
    ensures !Safe(Abs(r), Tick(ctx)) ==> !Inv(img, l, q) && LeftBehind(r, q) && o == FellThrough(ctx)
  {
    AbsOk(img, l, r);
    AbsPids(r);
    SuspendedKeeps(img, r, ctx);
    FollowingParts(img, r, ctx);
    var m := Suspended(r, ctx);
    var a := Abs(r);
    LeafOf(img, r, m, ctx);
    hide Abs, Step, StateOk, PidsOk, OutcomeOf, TermOk, Structure, Ready, Suspended, MaybeShown, SuspendedOf,
      Enabled, Safe, AllPids;
    TickFrom(img, a, ctx);
    if m.stacks[m.active] == [] {
      FirstRefines(img, l, m, q, ctx, o);
      FirstStep(img, a, ctx, r.stacks);
    } else if m.terms[m.active].haltFlag {
      InterruptRefines(img, l, m, q, ctx, o);
      InterruptStep(img, a, ctx, With(Abs(m), m.active, Abs(m).terms[m.active].(halt := false)));
    } else {
      ResumeRefines(img, l, m, q, o);
      ResumeStep(img, a, ctx, m.currPid);
    }
  }

  /** What the machine knows of the terminal whose turn it is. */
  lemma LeafOf(img: Image, r: Vars, m: Vars, ctx: Ctx)
    requires Shape(m) && StacksOk(m.stacks) && Shape(r) && PidsInRange(r)
    requires m.currPid == TopOr(m.stacks[m.active]) && m.active == Following(r) && m.stacks == r.stacks
    requires m.terms[m.active] == r.terms[m.active]
    ensures var v := Abs(r).terms[m.active];
            && Next(Abs(r)) == m.active
            && (v.procs == [] <==> m.stacks[m.active] == [])
            && (m.stacks[m.active] != [] ==> v.Leaf().pid == m.currPid && 0 <= m.currPid < MAX_PROCESSES)
            && v.halt == m.terms[m.active].haltFlag && v.ctx == m.terms[m.active].save
  {
    InRange(m);
    AbsAt(r, m.active);
    hide StacksOk, TermOk, AbsFds;
  }
}
