/** The page directory and its two page tables (student-distrib/paging.c), and the walk the
    processor makes through them (section 4.3 of the Intel SDM, volume 3A). */
module Paging {
  import opened CInt

  const ENTRIES := 1024
  const KB4 := 0x1000
  const MB4 := 0x40_0000
  const MB8 := 0x80_0000
  const MB128 := 0x800_0000
  const VIDEO := 0xB_8000
  const USER_PAGING := 32
  const VIDMAP_PAGE := 34

  /** A directory entry; `addr` is the 20-bit page number and `size` selects a 4MB page. */
  datatype Pde = Pde(present: bool, readWrite: bool, user: bool, size: bool, addr: nat)

  datatype Pte = Pte(present: bool, readWrite: bool, user: bool, addr: nat)

  const NO_PDE := Pde(false, false, false, false, 0)
  const NO_PTE := Pte(false, false, false, 0)

  /** Where the linker puts the page tables and the three back buffers: page-aligned, in the
      kernel's own 4MB page, without overlap. */
  datatype Layout = Layout(table0: nat, vidmapPte: nat, backBuffers: nat) {
    predicate Valid() {
      && table0 % KB4 == vidmapPte % KB4 == backBuffers % KB4 == 0
      && MB4 <= table0 < MB8 && MB4 <= vidmapPte < MB8
      && MB4 <= backBuffers && backBuffers + 3 * KB4 <= MB8
      && table0 != vidmapPte
    }
  }

  datatype Tables = Tables(dir: seq<Pde>, table0: seq<Pte>, vidmap: Pte)

  /** What the processor finds. Past its first entry, the page table behind directory entry
      34 is whatever the linker placed there. */
  datatype Walk = Fault | To(physical: nat) | Unspecified

  function Translate(l: Layout, t: Tables, va: nat, userMode: bool): Walk
    requires |t.dir| == ENTRIES && |t.table0| == ENTRIES && va < 0x1_0000_0000
  {
    var d := t.dir[va / MB4];
    if !d.present || (userMode && !d.user) then Fault
    else if d.size then To(d.addr / ENTRIES * MB4 + va % MB4)
    else
      var i := va / KB4 % ENTRIES;
      if d.addr * KB4 == l.table0 then ThroughEntry(t.table0[i], va, userMode)
      else if d.addr * KB4 == l.vidmapPte && i == 0 then ThroughEntry(t.vidmap, va, userMode)
      else Unspecified
  }

  function ThroughEntry(e: Pte, va: nat, userMode: bool): Walk {
    if !e.present || (userMode && !e.user) then Fault else To(e.addr * KB4 + va % KB4)
  }

  function FrameOf(pid: nat): nat {
    MB8 + MB4 * pid
  }

  function UserPde(pid: nat): Pde {
    Pde(true, true, true, true, FrameOf(pid) / KB4)
  }

  function VidmapPde(l: Layout): Pde {
    Pde(true, true, true, false, l.vidmapPte / KB4)
  }

  function KernelPde(l: Layout, i: nat): Pde {
    if i == 0 then Pde(true, true, false, false, l.table0 / KB4)
    else if i == 1 then Pde(true, true, false, true, MB4 / KB4)
    else NO_PDE
  }

  function KernelPte(i: nat): Pte {
    if i == VIDEO / KB4 then Pte(true, true, false, i) else NO_PTE
  }

  /** The tables set up for a running process, or for none (-1), with the screen page open to
      user programs at the given physical address or not at all. */
  ghost predicate Maps(l: Layout, t: Tables, pid: int, screen: Option<nat>) {
    && |t.dir| == ENTRIES && |t.table0| == ENTRIES
    && (forall i :: 0 <= i < ENTRIES && i != USER_PAGING && i != VIDMAP_PAGE ==> t.dir[i] == KernelPde(l, i))
    && (forall i :: 0 <= i < ENTRIES ==> t.table0[i] == KernelPte(i))
    && t.dir[USER_PAGING] == (if pid < 0 then NO_PDE else UserPde(pid))
    && t.dir[VIDMAP_PAGE] == (if screen.None? then NO_PDE else VidmapPde(l))
    && (screen.Some? ==> t.vidmap == Pte(true, true, true, screen.value / KB4))
  }

  class Mmu {
    const layout: Layout
    const dir: array<Pde>
    const table0: array<Pte>
    var vidmap: Pte

    ghost predicate Valid()
      reads this, dir, table0
    {
      layout.Valid() && dir.Length == ENTRIES && table0.Length == ENTRIES
    }

    ghost function View(): Tables
      reads this, dir, table0
    {
      Tables(dir[..], table0[..], vidmap)
    }

    /** `init_paging`: only video memory and the kernel are mapped, each onto itself. */
    constructor (layout: Layout)
      requires layout.Valid()
      ensures Valid() && fresh(dir) && fresh(table0)
      ensures this.layout == layout
      ensures Maps(layout, View(), -1, None)
    {
      this.layout := layout;
      this.dir := new Pde[ENTRIES];
      this.table0 := new Pte[ENTRIES];
      this.vidmap := NO_PTE;
      new;
      var i := 0;
      while i < ENTRIES
        invariant 0 <= i <= ENTRIES
        invariant fresh(table0) && table0.Length == ENTRIES
        invariant forall k :: 0 <= k < i ==> table0[k] == KernelPte(k)
      {
        var addr := KB4 * i;
        if addr == VIDEO {
          table0[i] := Pte(true, true, false, addr / KB4);
        } else {
          table0[i] := NO_PTE;
        }
        i := i + 1;
      }
      dir[0] := Pde(true, true, false, false, layout.table0 / KB4);
      dir[1] := Pde(true, true, false, true, MB4 / KB4);
      i := 2;
      while i < ENTRIES
        invariant 2 <= i <= ENTRIES
        invariant fresh(dir) && dir.Length == ENTRIES
        invariant forall k :: 0 <= k < i ==> dir[k] == KernelPde(layout, k)
        invariant forall k :: 0 <= k < ENTRIES ==> table0[k] == KernelPte(k)
      {
        dir[i] := NO_PDE;
        i := i + 1;
      }
    }

    /** The user page of `set_process_paging`. */
    method MapProcess(pid: nat)
      requires Valid()
      modifies dir
      ensures Valid()
      ensures View() == old(View()).(dir := old(View()).dir[USER_PAGING := UserPde(pid)])
    {
      var physical := MB8 + MB4 * pid;
      dir[USER_PAGING] := Pde(true, true, true, true, physical / KB4);
    }

    /** `vidmap_paging`: close the screen page, or open it onto the given frame. */
    method VidmapPaging(open: bool, frame: nat)
      requires Valid()
      modifies this`vidmap, dir
      ensures Valid()
      ensures !open ==> View() == old(View()).(dir := old(View()).dir[VIDMAP_PAGE := NO_PDE])
      ensures open ==>
                View() == old(View()).(dir := old(View()).dir[VIDMAP_PAGE := VidmapPde(layout)],
                                       vidmap := Pte(true, true, true, frame / KB4))
    {
      if !open {
        dir[VIDMAP_PAGE] := NO_PDE;
        return;
      }
      vidmap := Pte(true, true, true, frame / KB4);
      dir[VIDMAP_PAGE] := Pde(true, true, true, false, layout.vidmapPte / KB4);
    }
  }

  /** Mapping a process replaces the process before it and leaves the screen page alone. */
  lemma MapProcessMaps(l: Layout, t: Tables, old_pid: int, pid: nat, screen: Option<nat>)
    requires Maps(l, t, old_pid, screen)
    ensures Maps(l, t.(dir := t.dir[USER_PAGING := UserPde(pid)]), pid, screen)
  {
  }

  lemma VidmapMaps(l: Layout, t: Tables, pid: int, was: Option<nat>, frame: nat)
    requires Maps(l, t, pid, was)
    ensures Maps(l, t.(dir := t.dir[VIDMAP_PAGE := NO_PDE]), pid, None)
    ensures Maps(l, t.(dir := t.dir[VIDMAP_PAGE := VidmapPde(l)], vidmap := Pte(true, true, true, frame / KB4)),
                 pid, Some(frame))
  {
  }

  // ---------- what the tables mean ----------

  predicate InVideo(va: nat) {
    VIDEO <= va < VIDEO + KB4
  }

  predicate InKernel(va: nat) {
    MB4 <= va < MB8
  }

  predicate InProgram(va: nat) {
    MB128 <= va < MB128 + MB4
  }

  predicate InVidmap(va: nat) {
    MB4 * VIDMAP_PAGE <= va < MB4 * VIDMAP_PAGE + KB4
  }

  lemma Split(va: nat)
    requires va < 0x1_0000_0000
    ensures va / MB4 < ENTRIES
    ensures va / MB4 == 0 ==> (va / KB4 % ENTRIES == VIDEO / KB4 <==> InVideo(va))
    ensures va / MB4 == 1 <==> InKernel(va)
    ensures va / MB4 == USER_PAGING <==> InProgram(va)
    ensures va / MB4 == VIDMAP_PAGE && va / KB4 % ENTRIES == 0 <==> InVidmap(va)
    ensures InVideo(va) ==> va / MB4 == 0
    ensures va == va / MB4 * MB4 + va % MB4
  {
    assert va / KB4 / ENTRIES == va / MB4;
  }

  /** After `init_paging` translation is the identity on the video page and on the kernel's
      4MB, and is defined nowhere else. */
  lemma InitialTranslation(l: Layout, t: Tables, va: nat)
    requires l.Valid() && Maps(l, t, -1, None) && va < 0x1_0000_0000
    ensures Translate(l, t, va, false) == if InVideo(va) || InKernel(va) then To(va) else Fault
    ensures Translate(l, t, va, true) == Fault
  {
    Split(va);
    assert t.dir[va / MB4] == KernelPde(l, va / MB4);
    if va / MB4 == 0 {
      assert t.table0[va / KB4 % ENTRIES] == KernelPte(va / KB4 % ENTRIES);
      if InVideo(va) {
        VideoIdentity(va);
      }
    }
  }

  lemma VideoIdentity(va: nat)
    requires InVideo(va)
    ensures VIDEO / KB4 * KB4 + va % KB4 == va
  {
  }

  /** What a user program can reach: its own 4MB at 128MB, in the frame of its pid; the screen
      page when it is open; and nothing of the kernel. */
  lemma UserTranslation(l: Layout, t: Tables, pid: nat, screen: Option<nat>, va: nat)
    requires l.Valid() && Maps(l, t, pid, screen) && va < 0x1_0000_0000
    requires screen.Some? ==> screen.value % KB4 == 0
    ensures InProgram(va) ==> Translate(l, t, va, true) == To(FrameOf(pid) + (va - MB128))
    ensures InVidmap(va) ==>
              Translate(l, t, va, true)
              == if screen.Some? then To(screen.value + (va - MB4 * VIDMAP_PAGE)) else Fault
    ensures !InProgram(va) && va / MB4 != VIDMAP_PAGE ==> Translate(l, t, va, true) == Fault
  {
    if InProgram(va) {
      ProgramPage(l, t, pid, screen, va);
    }
    if InVidmap(va) {
      ScreenPage(l, t, pid, screen, va);
    }
    if !InProgram(va) && va / MB4 != VIDMAP_PAGE {
      Split(va);
      assert t.dir[va / MB4] == KernelPde(l, va / MB4);
    }
  }

  lemma ProgramPage(l: Layout, t: Tables, pid: nat, screen: Option<nat>, va: nat)
    requires l.Valid() && Maps(l, t, pid, screen) && InProgram(va)
    ensures Translate(l, t, va, true) == To(FrameOf(pid) + (va - MB128))
  {
    assert va / MB4 == USER_PAGING && va % MB4 == va - MB128;
    assert FrameOf(pid) / KB4 / ENTRIES * MB4 == FrameOf(pid);
  }

  lemma ScreenPage(l: Layout, t: Tables, pid: nat, screen: Option<nat>, va: nat)
    requires l.Valid() && Maps(l, t, pid, screen) && InVidmap(va)
    requires screen.Some? ==> screen.value % KB4 == 0
    ensures Translate(l, t, va, true)
            == if screen.Some? then To(screen.value + (va - MB4 * VIDMAP_PAGE)) else Fault
  {
    assert va / MB4 == VIDMAP_PAGE && va / KB4 % ENTRIES == 0 && va % KB4 == va - MB4 * VIDMAP_PAGE;
    assert l.vidmapPte / KB4 * KB4 == l.vidmapPte;
  }

  /** The same in plain numbers: the program page of slot `pid` is at 8MB and 4MB a slot, the screen
      page at 136MB. */
  lemma UserAddresses(l: Layout, t: Tables, pid: nat, screen: Option<nat>, off: nat)
    requires l.Valid() && Maps(l, t, pid, screen) && pid < 6
    requires screen.Some? ==> screen.value % KB4 == 0
    ensures off < 0x40_0000 ==>
              Translate(l, t, 0x800_0000 + off, true) == To(0x80_0000 + 0x40_0000 * pid + off)
    ensures off < 0x1000 && screen.Some? ==> Translate(l, t, 0x880_0000 + off, true) == To(screen.value + off)
  {
    hide Translate, Maps;
    if off < 0x40_0000 {
      UserTranslation(l, t, pid, screen, 0x800_0000 + off);
    }
    if off < 0x1000 {
      UserTranslation(l, t, pid, screen, 0x880_0000 + off);
    }
  }

  /** A user program may write to a page if both entries on the way say so (section 4.6 of the
      Intel SDM, volume 3A). */
  predicate UserWrites(l: Layout, t: Tables, va: nat)
    requires |t.dir| == ENTRIES && |t.table0| == ENTRIES && va < 0x1_0000_0000
  {
    var d := t.dir[va / MB4];
    && d.present && d.user && d.readWrite
    && (d.size
        || (d.addr * KB4 == l.table0 && t.table0[va / KB4 % ENTRIES].readWrite)
        || (d.addr * KB4 == l.vidmapPte && va / KB4 % ENTRIES == 0 && t.vidmap.readWrite))
  }

  /** It can write to all that it reaches: its own memory and its screen. */
  lemma ProgramWrites(l: Layout, t: Tables, pid: nat, screen: Option<nat>, va: nat)
    requires l.Valid() && Maps(l, t, pid, screen) && va < 0x1_0000_0000
    requires InProgram(va) || (InVidmap(va) && screen.Some?)
    ensures UserWrites(l, t, va)
  {
    Split(va);
    if InVidmap(va) {
      assert l.vidmapPte / KB4 * KB4 == l.vidmapPte;
    }
  }

  /** The kernel keeps seeing itself and the video page, whichever process is mapped. */
  lemma KernelTranslation(l: Layout, t: Tables, pid: int, screen: Option<nat>, va: nat)
    requires l.Valid() && Maps(l, t, pid, screen) && va < 0x1_0000_0000
    requires InVideo(va) || InKernel(va)
    ensures Translate(l, t, va, false) == To(va)
  {
    Split(va);
    assert t.dir[va / MB4] == KernelPde(l, va / MB4);
    if va / MB4 == 0 {
      assert t.table0[va / KB4 % ENTRIES] == KernelPte(va / KB4 % ENTRIES);
      VideoIdentity(va);
    }
  }

  /** Two processes never share memory, and neither can reach kernel or video memory through
      its own page. */
  lemma ProcessesAreApart(l: Layout, t: Tables, u: Tables, p: nat, q: nat,
                          s1: Option<nat>, s2: Option<nat>, va: nat, vb: nat)
    requires l.Valid() && Maps(l, t, p, s1) && Maps(l, u, q, s2)
    requires s1.Some? ==> s1.value % KB4 == 0
    requires s2.Some? ==> s2.value % KB4 == 0
    requires InProgram(va) && InProgram(vb)
    ensures Translate(l, t, va, true) == Translate(l, u, vb, true) ==> p == q && va == vb
    ensures var w := Translate(l, t, va, true); w.To? && !InVideo(w.physical) && !InKernel(w.physical)
  {
    UserTranslation(l, t, p, s1, va);
    UserTranslation(l, u, q, s2, vb);
  }
}
