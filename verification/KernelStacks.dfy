/** Where the kernel stacks are: every slot has 8KB of its own below 8MB, with the process control
    block at its bottom and the kernel stack growing down from its top. */
module KernelStacks {
  import opened CInt
  import opened FileSystem
  import opened Programs
  import opened Paging
  import opened Terminals
  import opened Machine
  import opened Stacks
  import opened KernelState
  import opened KernelRefinement

  /** The address is in the 8KB of slot `pid`. */
  predicate InSlot(address: int, pid: int) {
    0x80_0000 - 0x2000 * (pid + 1) <= address < 0x80_0000 - 0x2000 * pid
  }

  /** A word for the TSS: the last one of the slot of `pid`. */
  predicate IsTop(esp0: int, pid: int) {
    esp0 == 0x80_0000 - (0x2000 * pid + 4)
  }

  lemma TopInSlot(esp0: int, pid: int)
    requires IsTop(esp0, pid)
    ensures InSlot(esp0, pid) && InSlot(esp0 + 3, pid) && InSlot(esp0 - 0x1FFC, pid)
    ensures !InSlot(esp0 + 4, pid) && !InSlot(esp0 - 0x1FFD, pid)
  {
  }

  /** No address is in two slots, and all of them are in the kernel's own 4MB. */
  lemma SlotsAreApart(address: int, p: int, q: int)
    requires 0 <= p < MAX_PROCESSES && 0 <= q < MAX_PROCESSES && InSlot(address, p)
    ensures InSlot(address, q) ==> p == q
    ensures 0x40_0000 <= address < 0x80_0000
  {
  }

  /** Under the invariant the processor's kernel stack is that of the current process; every other
      terminal has saved that of the process it goes on with; and a process that was started by
      another has saved that of its parent. */
  lemma OwnStacks(img: Image, l: Layout, r: Vars)
    requires Inv(img, l, r)
    ensures 0 <= r.currPid < MAX_PROCESSES && IsTop(r.tssEsp0, r.currPid)
    ensures forall t :: 0 <= t < MAX_TERMINALS && t != r.active && r.terms[t].currPid != -1 ==>
              0 <= r.terms[t].currPid < MAX_PROCESSES && IsTop(r.terms[t].tssEsp0, r.terms[t].currPid)
    ensures forall p :: 0 <= p < MAX_PROCESSES && r.pidarray[p] && r.pcbs[p].parent.Some? ==>
              && 0 <= r.pcbs[p].parent.value < MAX_PROCESSES && r.pidarray[r.pcbs[p].parent.value]
              && IsTop(r.pcbs[p].tssEsp0, r.pcbs[p].parent.value)
  {
    hide TermOk, FdsOk, Maps;
    forall p | 0 <= p < MAX_PROCESSES && r.pidarray[p] && r.pcbs[p].parent.Some?
      ensures 0 <= r.pcbs[p].parent.value < MAX_PROCESSES && r.pidarray[r.pcbs[p].parent.value]
      ensures IsTop(r.pcbs[p].tssEsp0, r.pcbs[p].parent.value)
    {
      assert p in Used(r.stacks);
      var t, i :| 0 <= t < |r.stacks| && 0 <= i < |r.stacks[t]| && r.stacks[t][i] == p;
      assert LinkOk(img, r.pcbs, r.stacks[t], i);
      InUse(r.stacks, t, i - 1);
    }
  }

  /** What the processor pushes on entry to the kernel goes to memory that only the running
      process's kernel stack occupies, and the kernel sees it at its own address. */
  lemma OwnStackIsMapped(img: Image, l: Layout, r: Vars, address: nat, q: int)
    requires Inv(img, l, r) && InSlot(address, r.currPid)
    requires 0 <= q < MAX_PROCESSES && q != r.currPid
    ensures InSlot(r.tssEsp0, r.currPid) && !InSlot(address, q)
    ensures Translate(l, r.tables, address, false) == To(address) && Translate(l, r.tables, address, true) == Fault
  {
    OwnStacks(img, l, r);
    SlotsAreApart(address, r.currPid, q);
    hide Structure, Translate, Maps, TermOk;
    KernelTranslation(l, r.tables, r.currPid, OpenScreen(l, r), address);
    UserTranslation(l, r.tables, r.currPid, OpenScreen(l, r), address);
  }
}
