/** What typing does (student-distrib/keyboard.c): the modifier keys over whole runs, what each key
    prints, and the key combinations that reach the scheduler. */
module Typing {
  import opened CInt
  import opened FileSystem
  import opened Programs
  import opened Terminals
  import opened Keyboard
  import opened Machine
  import opened MachineFacts
  import opened Runs
  import opened Liveness
  import opened Histories
  import opened Stacks
  import LB = LineBuffer

  // ---------- the modifier keys ----------

  /** The scan codes of a run, in order. */
  function Codes(es: seq<Event>): seq<nat> {
    if es == [] then [] else (if es[0].Key? then [es[0].scan] else []) + Codes(es[1..])
  }

  /** A key with these codes for its presses and its releases is down after the codes: it has been
      pressed and not released since, or it was down and has not been released. */
  ghost predicate Down(codes: seq<nat>, presses: set<nat>, releases: set<nat>, before: bool) {
    || (exists i :: 0 <= i < |codes| && codes[i] in presses && NoneFrom(codes, i, releases))
    || (before && NoneFrom(codes, 0, releases))
  }

  ghost predicate NoneFrom(codes: seq<nat>, i: nat, which: set<nat>) {
    forall j :: i <= j < |codes| ==> codes[j] !in which
  }

  function Count(codes: seq<nat>, code: nat): nat {
    if codes == [] then 0 else (if codes[0] == code then 1 else 0) + Count(codes[1..], code)
  }

  const SHIFT_DOWN: set<nat> := {0x2A, 0x36}
  const SHIFT_UP: set<nat> := {0xAA, 0xB6}

  /** One scan code. */
  lemma OneCode(m: Mods, scan: nat)
    requires scan < 0x100
    ensures var n := KeyMeans(m, scan).mods;
            && n.shift == (if scan in SHIFT_DOWN then true else if scan in SHIFT_UP then false else m.shift)
            && n.ctrl == (if scan == 0x1D then true else if scan == 0x9D then false else m.ctrl)
            && n.alt == (if scan == 0x38 then true else if scan == 0xB8 then false else m.alt)
            && n.caps == (if scan == 0x3A then !m.caps else m.caps)
  {
    hide KeyChar;
  }

  lemma DownFirst(code: nat, codes: seq<nat>, presses: set<nat>, releases: set<nat>, before: bool)
    requires presses !! releases
    ensures Down([code] + codes, presses, releases, before)
            <==> Down(codes, presses, releases,
                      if code in presses then true else if code in releases then false else before)
  {
    var all := [code] + codes;
    assert forall i :: 0 < i < |all| ==> all[i] == codes[i - 1];
    assert forall i :: 0 <= i < |codes| ==> codes[i] == all[i + 1];
    forall i: nat | i < |codes|
      ensures NoneFrom(all, i + 1, releases) <==> NoneFrom(codes, i, releases)
    {
      if NoneFrom(all, i + 1, releases) {
        assert forall j :: i <= j < |codes| ==> codes[j] == all[j + 1];
      }
    }
    if NoneFrom(all, 0, releases) {
      assert forall j :: 0 <= j < |codes| ==> codes[j] == all[j + 1];
    }
    if Down(all, presses, releases, before) {
      if i: nat :| i < |all| && all[i] in presses && NoneFrom(all, i, releases) {
        if i > 0 {
          assert codes[i - 1] in presses && NoneFrom(codes, i - 1, releases);
        } else {
          assert all[0] !in releases && NoneFrom(codes, 0, releases);
        }
      }
    }
    var next := if code in presses then true else if code in releases then false else before;
    if Down(codes, presses, releases, next) {
      if i: nat :| i < |codes| && codes[i] in presses && NoneFrom(codes, i, releases) {
        assert all[i + 1] in presses && NoneFrom(all, i + 1, releases);
      } else {
        assert next && NoneFrom(all, 0, releases);
        assert code in presses ==> all[0] in presses;
      }
    }
  }

  lemma StepMods(img: Image, a: State, e: Event)
    requires WellFormed(img) && StateOk(img, a) && Enabled(img, a, e)
    ensures Step(img, a, e).mods == if e.Key? then KeyMeans(a.mods, e.scan).mods else a.mods
    ensures e.Key? ==> e.scan < 0x100
  {
  }

  /** `m` is what the codes make of the modifiers `before`. */
  ghost predicate Modified(m: Mods, codes: seq<nat>, before: Mods) {
    && (m.shift <==> Down(codes, {0x2A, 0x36}, {0xAA, 0xB6}, before.shift))
    && (m.ctrl <==> Down(codes, {0x1D}, {0x9D}, before.ctrl))
    && (m.alt <==> Down(codes, {0x38}, {0xB8}, before.alt))
    && (m.caps <==> if Count(codes, 0x3A) % 2 == 0 then before.caps else !before.caps)
  }

  /** After any run shift is down exactly if one of its keys was pressed and none released since,
      or it was down and has not been released; the same for Ctrl and Alt. Caps lock is on
      according to the number of its presses. No other event changes any of them. */
  lemma {:induction false} ModifiersAreHistory(img: Image, a: State, es: seq<Event>)
    requires WellFormed(img) && Possible(img, a, es)
    ensures Modified(Run(img, a, es).mods, Codes(es), a.mods)
    decreases |es|
  {
    hide Step, StateOk, PidsOk, KeyMeans, Modified;
    if es == [] {
      NoCodes(a.mods);
    } else {
      StepMods(img, a, es[0]);
      ModifiersAreHistory(img, Step(img, a, es[0]), es[1..]);
      if es[0].Key? {
        FirstCode(Run(img, a, es).mods, a.mods, es[0].scan, Codes(es[1..]));
      } else {
        assert Codes(es) == Codes(es[1..]);
      }
    }
  }

  lemma NoCodes(m: Mods)
    ensures Modified(m, [], m)
  {
  }

  lemma FirstCode(r: Mods, m: Mods, scan: nat, codes: seq<nat>)
    requires scan < 0x100 && Modified(r, codes, KeyMeans(m, scan).mods)
    ensures Modified(r, [scan] + codes, m)
  {
    hide KeyMeans, Down;
    OneCode(m, scan);
    DownFirst(scan, codes, {0x2A, 0x36}, {0xAA, 0xB6}, m.shift);
    DownFirst(scan, codes, {0x1D}, {0x9D}, m.ctrl);
    DownFirst(scan, codes, {0x38}, {0xB8}, m.alt);
    assert ([scan] + codes)[1..] == codes;
  }

  // ---------- what a key prints ----------

  /** The keys from scan code `from` on print a row of characters. */
  predicate Prints(m: Mods, from: nat, row: string) {
    from + |row| <= |Keymap(m)| && Keymap(m)[from..from + |row|] == row
  }

  lemma RowPrints(m: Mods, from: nat, row: string, i: nat)
    requires Prints(m, from, row) && i < |row|
    ensures from + i < KEYS && row[i] < 128 as char && KeyChar(m, from + i) == row[i] as byte
  {
    KeymapFacts(m);
    assert Keymap(m)[from + i] == Keymap(m)[from..from + |row|][i] == row[i];
    assert row[i] in Keymap(m);
    hide Keymap;
  }

  /** The digits and the other keys that follow shift alone. */
  predicate SymbolRows(m: Mods) {
    && Prints(m, 0x02, if m.shift then "!@#$%^&*()_+" else "1234567890-=")
    && Prints(m, 0x1A, if m.shift then "{}" else "[]")
    && Prints(m, 0x27, if m.shift then ":\"~" else ";'`")
    && Prints(m, 0x2B, if m.shift then "|" else "\\")
    && Prints(m, 0x33, if m.shift then "<>?" else ",./")
    && Prints(m, 0x37, "*") && Prints(m, 0x39, " ") && Prints(m, 0x00, "\0\0")
  }

  /** Letters are capitals exactly if one of shift and caps lock is on. */
  predicate LetterRows(m: Mods) {
    var capital := m.shift != m.caps;
    && Prints(m, 0x10, if capital then "QWERTYUIOP" else "qwertyuiop")
    && Prints(m, 0x1E, if capital then "ASDFGHJKL" else "asdfghjkl")
    && Prints(m, 0x2C, if capital then "ZXCVBNM" else "zxcvbnm")
  }

  /** The whole layout, for all modifiers. */
  lemma Layout(m: Mods)
    ensures LetterRows(m) && SymbolRows(m)
  {
    Places(Caps(m));
  }

  /** A key that prints types its character at the visible terminal, unless Ctrl is down. */
  lemma PrintingKey(m: Mods, scan: nat)
    requires scan < KEYS && KeyChar(m, scan) != NUL && !m.ctrl
    requires scan !in [0x0E, 0x0F, 0x1C, 0x1D, 0x2A, 0x36, 0x38, 0x3A, 0x3B]
    ensures KeyMeans(m, scan) == KeyEffect(m, [LType(LB.Char(KeyChar(m, scan)))], None)
  {
    hide KeyChar;
  }

  /** The keys with meanings of their own; any other code with Ctrl down, and any release but the
      modifiers', does nothing. */
  lemma OtherKeys(m: Mods, scan: nat)
    requires scan < 0x100
    ensures scan == 0x1C ==> KeyMeans(m, scan) == KeyEffect(m, [LType(LB.Enter)], None)
    ensures scan == 0x0E ==> KeyMeans(m, scan) == KeyEffect(m, [LType(LB.Erase)], None)
    ensures scan == 0x0F ==> KeyMeans(m, scan) == KeyEffect(m, [LType(LB.Char(32))], if m.alt then Some(0) else None)
    ensures 0x3B <= scan <= 0x3D ==> KeyMeans(m, scan) == KeyEffect(m, [], if m.alt then Some(scan - 0x3B) else None)
    ensures scan == 0x2E && m.ctrl ==> KeyMeans(m, scan) == KeyEffect(m, [LHalt(true)], None)
    ensures scan == 0x26 && m.ctrl ==> KeyMeans(m, scan) == KeyEffect(m, [LWipe], None)
    ensures m.ctrl && scan !in [0x1C, 0x0E, 0x0F, 0x3B, 0x3C, 0x3D, 0x2E, 0x26] ==>
              KeyMeans(m, scan).local == [] && KeyMeans(m, scan).show == None
    ensures scan >= 0x3E ==> KeyMeans(m, scan).local == [] && KeyMeans(m, scan).show == None
  {
    hide KeyChar;
  }

  // ---------- from the keys to the line ----------

  predicate Bytes(codes: seq<nat>) {
    forall i :: 0 <= i < |codes| ==> codes[i] < 0x100
  }

  /** The presses that scan codes make, with the modifiers they find. */
  function PressesOf(m: Mods, codes: seq<nat>): seq<LB.Press>
    requires Bytes(codes)
    decreases |codes|
  {
    if codes == [] then [] else
    Presses(KeyMeans(m, codes[0]).local) + PressesOf(KeyMeans(m, codes[0]).mods, codes[1..])
  }

  /** Terminal `t` is on the screen throughout, or never is. */
  ghost predicate Shown(img: Image, a: State, es: seq<Event>, t: nat, visible: bool)
    requires WellFormed(img) && Possible(img, a, es)
    decreases |es|
  {
    (a.visible == t <==> visible) && (es != [] ==> Shown(img, Step(img, a, es[0]), es[1..], t, visible))
  }

  lemma {:induction false} PressesAppend(ks: seq<LEvent>, ls: seq<LEvent>)
    ensures Presses(ks + ls) == Presses(ks) + Presses(ls)
  {
    if ks == [] {
      assert ks + ls == ls;
    } else {
      var first := if ks[0].LType? then [ks[0].k] else [];
      assert (ks + ls)[1..] == ks[1..] + ls;
      PressesAppend(ks[1..], ls);
      hide Presses;
      PressesFirst(ks);
      PressesFirst(ks + ls);
      assert (first + Presses(ks[1..])) + Presses(ls) == first + (Presses(ks[1..]) + Presses(ls));
    }
  }

  lemma PressesFirst(ls: seq<LEvent>)
    requires ls != []
    ensures Presses(ls) == (if ls[0].LType? then [ls[0].k] else []) + Presses(ls[1..])
  {
  }

  lemma NoPresses(ls: seq<LEvent>)
    requires forall l :: l in ls ==> !l.LType?
    ensures Presses(ls) == []
  {
  }

  lemma LocalPresses(img: Image, a: State, e: Event, t: nat)
    requires Sized(img) && Shaped(a) && EventOk(e) && t < MAX_TERMINALS
    ensures Presses(Local(img, a, e, t))
            == if e.Key? && t == a.visible then Presses(KeyMeans(a.mods, e.scan).local) else []
  {
    if !(e.Key? && t == a.visible) {
      NoPresses(Local(img, a, e, t));
    }
  }

  lemma {:induction false} CodesOk(img: Image, a: State, es: seq<Event>)
    requires WellFormed(img) && Possible(img, a, es)
    ensures Bytes(Codes(es))
    decreases |es|
  {
    hide Step, StateOk, PidsOk;
    if es != [] {
      CodesOk(img, Step(img, a, es[0]), es[1..]);
    }
  }

  /** All keys go to the terminal on the screen, and only there: in a run throughout which a
      terminal is shown its presses are those of all scan codes in order, and one that is not
      shown gets none. */
  lemma {:induction false} KeysGoToVisible(img: Image, a: State, es: seq<Event>, t: nat, visible: bool)
    requires WellFormed(img) && Possible(img, a, es) && t < MAX_TERMINALS && Shown(img, a, es, t, visible)
    ensures Bytes(Codes(es))
    ensures Presses(Trace(img, a, es, t)) == if visible then PressesOf(a.mods, Codes(es)) else []
    decreases |es|
  {
    CodesOk(img, a, es);
    if es != [] {
      StepMods(img, a, es[0]);
      LocalPresses(img, a, es[0], t);
      hide Step, StateOk, PidsOk, KeyMeans, Local, Presses;
      var b := Step(img, a, es[0]);
      KeysGoToVisible(img, b, es[1..], t, visible);
      PressesAppend(Local(img, a, es[0], t), Trace(img, b, es[1..], t));
      if es[0].Key? {
        assert Codes(es)[0] == es[0].scan && Codes(es)[1..] == Codes(es[1..]);
      } else {
        assert Codes(es) == Codes(es[1..]);
      }
    }
  }

  /** A key that only prints. */
  predicate Types(m: Mods, scan: nat) {
    scan < KEYS && scan !in [0x0E, 0x0F, 0x1C, 0x1D, 0x2A, 0x36, 0x38, 0x3A, 0x3B] && KeyChar(m, scan) != NUL
  }

  /** Printing keys type their characters. */
  lemma {:induction false} Word(m: Mods, codes: seq<nat>)
    requires !m.ctrl && forall i :: 0 <= i < |codes| ==> Types(m, codes[i])
    ensures Bytes(codes) && |PressesOf(m, codes)| == |codes|
    ensures forall i :: 0 <= i < |codes| ==> codes[i] < KEYS && PressesOf(m, codes)[i] == LB.Char(KeyChar(m, codes[i]))
    decreases |codes|
  {
    hide KeyChar, KeyMeans;
    if codes != [] {
      assert Types(m, codes[0]);
      PrintingKey(m, codes[0]);
      assert Presses([LType(LB.Char(KeyChar(m, codes[0])))]) == [LB.Char(KeyChar(m, codes[0]))];
      forall i | 0 <= i < |codes| - 1
        ensures Types(m, codes[1..][i])
      {
        assert codes[1..][i] == codes[i + 1];
      }
      Word(m, codes[1..]);
    }
  }

  // ---------- combinations ----------

  /** Two keys, one after the other. */
  ghost function Twice(img: Image, a: State, first: nat, second: nat): (b: State)
    requires WellFormed(img) && StateOk(img, a) && PidsOk(a) && Running(a) && first < 0x100 && second < 0x100
    ensures StateOk(img, b) && PidsOk(b) && Running(b)
  {
    StepKeepsState(img, a, Key(first));
    StepKeepsPids(img, a, Key(first));
    var b := Step(img, a, Key(first));
    StepKeepsState(img, b, Key(second));
    StepKeepsPids(img, b, Key(second));
    Step(img, b, Key(second))
  }

  lemma KeyStepIs(img: Image, a: State, scan: nat)
    requires WellFormed(img) && StateOk(img, a) && Enabled(img, a, Key(scan))
    ensures var b := Step(img, a, Key(scan));
            var k := KeyMeans(a.mods, scan);
            && b.active == a.active && b.visible == a.visible && b.mods == k.mods
            && b.target == (if k.show.Some? then k.show.value else a.target)
            && (k.local == [] ==> b.terms[a.visible] == a.terms[a.visible])
            && (k.local == [LHalt(true)] ==> b.terms[a.visible] == a.terms[a.visible].(halt := true))
  {
    StepTerminal(img, a, Key(scan), a.visible);
    hide KeyMeans;
    LRunOne(img, a.terms[a.visible], LHalt(true));
  }

  lemma HeldCtrl(img: Image, a: State)
    requires WellFormed(img) && StateOk(img, a) && PidsOk(a) && Running(a)
    ensures var b := Twice(img, a, 0x1D, 0x2E);
            && b.active == a.active && b.visible == a.visible
            && b.terms[a.visible] == a.terms[a.visible].(halt := true)
  {
    hide Step, StateOk, PidsOk;
    OneCode(a.mods, 0x1D);
    OtherKeys(a.mods.(ctrl := true), 0x2E);
    CtrlAlone(a.mods);
    hide KeyMeans;
    StepKeepsState(img, a, Key(0x1D));
    StepKeepsPids(img, a, Key(0x1D));
    KeyStepIs(img, a, 0x1D);
    KeyStepIs(img, Step(img, a, Key(0x1D)), 0x2E);
  }

  lemma CtrlAlone(m: Mods)
    ensures KeyMeans(m, 0x1D) == KeyEffect(m.(ctrl := true), [], None)
    ensures KeyMeans(m, 0x38) == KeyEffect(m.(alt := true), [], None)
  {
  }

  /** Ctrl and C at a started terminal end the program that runs there at its next turn, at the
      third tick at the latest, whatever else happens. */
  lemma CtrlCEndsProgram(img: Image, a: State, es: seq<Event>)
    requires WellFormed(img) && StateOk(img, a) && PidsOk(a) && Running(a) && a.terms[a.visible].procs != []
    requires Possible(img, Twice(img, a, 0x1D, 0x2E), es)
    requires Ticks(es) >= Distance(a.active, a.visible)
    ensures Interrupted(img, Twice(img, a, 0x1D, 0x2E), es, a.visible)
  {
    HeldCtrl(img, a);
    hide Step, StateOk, PidsOk, Twice;
    InterruptIsServed(img, Twice(img, a, 0x1D, 0x2E), es, a.visible);
  }

  /** Alt and a function key show the terminal of that number by the third tick, if no other is
      asked for. */
  lemma AltFnShows(img: Image, a: State, t: nat, es: seq<Event>)
    requires WellFormed(img) && StateOk(img, a) && PidsOk(a) && Running(a) && t < MAX_TERMINALS
    requires Possible(img, Twice(img, a, 0x38, 0x3B + t), es)
    requires Requested(img, Twice(img, a, 0x38, 0x3B + t), es, Twice(img, a, 0x38, 0x3B + t).target)
    requires Ticks(es) >= 3
    ensures Run(img, Twice(img, a, 0x38, 0x3B + t), es).visible == t
  {
    HeldAlt(img, a, t);
    hide Step, StateOk, PidsOk, Twice;
    WithinThreeTicks(img, Twice(img, a, 0x38, 0x3B + t), es, t);
  }

  lemma HeldAlt(img: Image, a: State, t: nat)
    requires WellFormed(img) && StateOk(img, a) && PidsOk(a) && Running(a) && t < MAX_TERMINALS
    ensures Twice(img, a, 0x38, 0x3B + t).target == t
  {
    hide Step, StateOk, PidsOk;
    OtherKeys(a.mods.(alt := true), 0x3B + t);
    CtrlAlone(a.mods);
    hide KeyMeans;
    StepKeepsState(img, a, Key(0x38));
    StepKeepsPids(img, a, Key(0x38));
    KeyStepIs(img, a, 0x38);
    KeyStepIs(img, Step(img, a, Key(0x38)), 0x3B + t);
  }
}
