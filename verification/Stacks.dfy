/** Pids distributed over the terminals' process stacks: no pid is in two places. */
module Stacks {
  import opened Sets

  const MAX_TERMINALS := 3
  const MAX_PROCESSES := 6

  type Stack = seq<int>

  /** Three stacks of pids, root first. */
  ghost predicate StacksOk(st: seq<Stack>) {
    && |st| == MAX_TERMINALS
    && (forall t, i :: 0 <= t < |st| && 0 <= i < |st[t]| ==> 0 <= st[t][i] < MAX_PROCESSES)
    && (forall t, i, u, j :: 0 <= t < |st| && 0 <= i < |st[t]| && 0 <= u < |st| && 0 <= j < |st[u]| ==>
          st[t][i] == st[u][j] ==> t == u && i == j)
  }

  /** The pids in use. */
  function Used(st: seq<Stack>): set<int> {
    set t, i | 0 <= t < |st| && 0 <= i < |st[t]| :: st[t][i]
  }

  /** The lowest free pid at or above `p`, or -1. */
  function LowestFree(used: set<int>, p: nat): (r: int)
    requires p <= MAX_PROCESSES
    ensures r == -1 || (p <= r < MAX_PROCESSES && r !in used)
    ensures forall q :: p <= q < (if r == -1 then MAX_PROCESSES else r) ==> q in used
    decreases MAX_PROCESSES - p
  {
    if p == MAX_PROCESSES then -1 else if p !in used then p else LowestFree(used, p + 1)
  }

  function Pushed(st: seq<Stack>, t: nat, p: int): seq<Stack>
    requires t < |st|
  {
    st[t := st[t] + [p]]
  }

  function Popped(st: seq<Stack>, t: nat): seq<Stack>
    requires t < |st| && st[t] != []
  {
    st[t := st[t][..|st[t]| - 1]]
  }

  function Top(s: Stack): int
    requires s != []
  {
    s[|s| - 1]
  }

  lemma InUse(st: seq<Stack>, t: nat, i: nat)
    requires t < |st| && i < |st[t]|
    ensures st[t][i] in Used(st)
  {
  }

  /** The new pid is at the end of its stack and nowhere else. */
  lemma PushedAt(st: seq<Stack>, t: nat, p: int, u: nat, i: nat)
    requires StacksOk(st) && t < MAX_TERMINALS && p !in Used(st) && u < MAX_TERMINALS && i < |Pushed(st, t, p)[u]|
    ensures Pushed(st, t, p)[u][i] == p <==> u == t && i == |st[t]|
    ensures !(u == t && i == |st[t]|) ==> i < |st[u]| && Pushed(st, t, p)[u][i] == st[u][i]
  {
    if !(u == t && i == |st[t]|) {
      InUse(st, u, i);
    }
  }

  lemma PushedOk(st: seq<Stack>, t: nat, p: int)
    requires StacksOk(st) && t < MAX_TERMINALS && 0 <= p < MAX_PROCESSES && p !in Used(st)
    ensures StacksOk(Pushed(st, t, p))
  {
    var r := Pushed(st, t, p);
    forall u, i | 0 <= u < |r| && 0 <= i < |r[u]|
      ensures r[u][i] == p <==> u == t && i == |st[t]|
      ensures !(u == t && i == |st[t]|) ==> i < |st[u]| && r[u][i] == st[u][i]
    {
      PushedAt(st, t, p, u, i);
    }
    hide Used, Pushed;
  }

  lemma PushedUses(st: seq<Stack>, t: nat, p: int, q: int)
    requires t < |st|
    ensures q in Used(Pushed(st, t, p)) <==> q in Used(st) || q == p
  {
    var r := Pushed(st, t, p);
    if q in Used(r) {
      var u, i :| 0 <= u < |r| && 0 <= i < |r[u]| && r[u][i] == q;
      if u == t && i == |st[t]| {
        assert q == p;
      } else {
        InUse(st, u, i);
      }
    }
    if q in Used(st) {
      var u, i :| 0 <= u < |st| && 0 <= i < |st[u]| && st[u][i] == q;
      assert r[u][i] == q;
    }
    assert r[t][|st[t]|] == p;
  }

  lemma PushKeeps(st: seq<Stack>, t: nat, p: int)
    requires StacksOk(st) && t < MAX_TERMINALS
    requires 0 <= p < MAX_PROCESSES && p !in Used(st)
    ensures StacksOk(Pushed(st, t, p))
    ensures Used(Pushed(st, t, p)) == Used(st) + {p}
  {
    PushedOk(st, t, p);
    hide StacksOk, Used, Pushed;
    forall q: int
      ensures q in Used(Pushed(st, t, p)) <==> q in Used(st) || q == p
    {
      PushedUses(st, t, p, q);
    }
  }

  lemma PoppedAt(st: seq<Stack>, t: nat, u: nat, i: nat)
    requires StacksOk(st) && t < MAX_TERMINALS && st[t] != [] && u < MAX_TERMINALS && i < |Popped(st, t)[u]|
    ensures i < |st[u]| && Popped(st, t)[u][i] == st[u][i] && st[u][i] != Top(st[t])
  {
    assert st[t][|st[t]| - 1] == Top(st[t]);
  }

  lemma PoppedOk(st: seq<Stack>, t: nat)
    requires StacksOk(st) && t < MAX_TERMINALS && st[t] != []
    ensures StacksOk(Popped(st, t))
  {
  }

  lemma PoppedUses(st: seq<Stack>, t: nat, q: int)
    requires StacksOk(st) && t < MAX_TERMINALS && st[t] != [] && q in Used(Popped(st, t))
    ensures q in Used(st) && q != Top(st[t])
  {
    var r := Popped(st, t);
    var u, i :| 0 <= u < |r| && 0 <= i < |r[u]| && r[u][i] == q;
    PoppedAt(st, t, u, i);
    InUse(st, u, i);
  }

  lemma StillUsed(st: seq<Stack>, t: nat, q: int)
    requires t < |st| && st[t] != [] && q in Used(st) && q != Top(st[t])
    ensures q in Used(Popped(st, t))
  {
    var u, i :| 0 <= u < |st| && 0 <= i < |st[u]| && st[u][i] == q;
    assert Popped(st, t)[u][i] == q;
  }

  lemma PopKeeps(st: seq<Stack>, t: nat)
    requires StacksOk(st) && t < MAX_TERMINALS && st[t] != []
    ensures StacksOk(Popped(st, t))
    ensures Used(Popped(st, t)) == Used(st) - {Top(st[t])}
  {
    PoppedOk(st, t);
    hide StacksOk, Used, Popped;
    forall q | q in Used(Popped(st, t))
      ensures q in Used(st) && q != Top(st[t])
    {
      PoppedUses(st, t, q);
    }
    forall q | q in Used(st) && q != Top(st[t])
      ensures q in Used(Popped(st, t))
    {
      StillUsed(st, t, q);
    }
  }

  /** At most six processes. */
  lemma AtMostSix(st: seq<Stack>)
    requires StacksOk(st)
    ensures |Used(st)| <= MAX_PROCESSES
  {
    var all := {0, 1, 2, 3, 4, 5};
    assert Used(st) <= all;
    SubsetSize(Used(st), all);
  }

  /** When the last process of a terminal ends there is a pid for its new shell. */
  lemma RespawnCannotFail(st: seq<Stack>, t: nat)
    requires StacksOk(st) && t < MAX_TERMINALS && |st[t]| == 1
    ensures LowestFree(Used(st) - {Top(st[t])}, 0) != -1
    ensures StacksOk(Pushed(Popped(st, t), t, LowestFree(Used(st) - {Top(st[t])}, 0)))
  {
    PopKeeps(st, t);
    PushKeeps(Popped(st, t), t, LowestFree(Used(st) - {Top(st[t])}, 0));
  }
}
