/** The list of blinking characters in its pool of slots (fish/blink.S, fish/fish.c): a slot is
    free when its location is 0. */
module BlinkPool {
  import opened CInt
  import opened Blink
  import opened Sets

  const NIL := -1

  datatype Node = Node(item: Item, next: int)

  const ZERO_ITEM := Item(0, 0, 0, 0, 0, 0, 0)

  /** The slot at place `i` of the list, or none. */
  function At(list: seq<int>, i: nat): int {
    if i < |list| then list[i] else NIL
  }

  ghost predicate InPool(list: seq<int>) {
    forall i :: 0 <= i < |list| ==> 0 <= list[i] < SLOTS
  }

  ghost predicate Distinct(list: seq<int>) {
    forall i, j :: 0 <= i < j < |list| ==> list[i] != list[j]
  }

  ghost predicate Chained(pool: seq<Node>, list: seq<int>) {
    && |pool| == SLOTS && InPool(list)
    && forall i :: 0 <= i < |list| ==> pool[list[i]].next == At(list, i + 1)
  }

  /** On the list is what has a location. */
  ghost predicate Marked(pool: seq<Node>, list: seq<int>) {
    forall p :: 0 <= p < |pool| ==> (p in list <==> pool[p].item.location != 0)
  }

  ghost predicate OnScreen(pool: seq<Node>) {
    forall p :: 0 <= p < |pool| ==> pool[p].item.location < SLOTS
  }

  /** The list is finite, visits no slot twice, and holds exactly the slots in use. */
  ghost predicate Linked(pool: seq<Node>, head: int, list: seq<int>) {
    && Chained(pool, list)
    && head == At(list, 0)
    && Distinct(list)
    && Marked(pool, list)
    && OnScreen(pool)
  }

  function Items(pool: seq<Node>, list: seq<int>): (items: seq<Item>)
    requires forall i :: 0 <= i < |list| ==> 0 <= list[i] < |pool|
    ensures |items| == |list| && forall i :: 0 <= i < |list| ==> items[i] == pool[list[i]].item
  {
    seq(|list|, i requires 0 <= i < |list| => pool[list[i]].item)
  }

  /** The first free slot at or after `from`. */
  function FirstFree(pool: seq<Node>, from: nat): (p: int)
    requires from <= |pool|
    ensures p == NIL || (from <= p < |pool| && pool[p].item.location == 0)
    ensures forall q :: from <= q < (if p == NIL then |pool| else p) ==> pool[q].item.location != 0
    decreases |pool| - from
  {
    if from == |pool| then NIL else if pool[from].item.location == 0 then from else FirstFree(pool, from + 1)
  }

  // ---------- room in the pool ----------

  function Upto(n: nat): (s: set<int>)
    ensures |s| == n && forall p :: p in s <==> 0 <= p < n
  {
    if n == 0 then {} else Upto(n - 1) + {n - 1}
  }

  function Slots(list: seq<int>): (s: set<int>)
    ensures forall p :: p in s <==> p in list
  {
    if list == [] then {} else {list[0]} + Slots(list[1..])
  }

  lemma {:induction false} SlotsSize(list: seq<int>)
    requires Distinct(list)
    ensures |Slots(list)| == |list|
  {
    if list != [] {
      SlotsSize(list[1..]);
      assert list[0] !in list[1..];
    }
  }

  /** The pool is full exactly when the list has as many characters as the screen cells. */
  lemma FullPool(pool: seq<Node>, head: int, list: seq<int>)
    requires Linked(pool, head, list)
    ensures |list| <= SLOTS && (FirstFree(pool, 0) == NIL <==> |list| >= SLOTS)
  {
    SlotsSize(list);
    SubsetSize(Slots(list), Upto(SLOTS));
    if FirstFree(pool, 0) == NIL {
      assert Slots(list) == Upto(SLOTS);
    } else {
      assert FirstFree(pool, 0) !in Slots(list) && FirstFree(pool, 0) in Upto(SLOTS);
    }
  }

  // ---------- insertion ----------

  function Inserted(pool: seq<Node>, head: int, slot: int, x: Item): seq<Node>
    requires 0 <= slot < |pool|
  {
    pool[slot := Node(Fresh(x), head)]
  }

  lemma InsertedList(list: seq<int>, slot: int, i: nat)
    requires slot !in list && i <= |list|
    ensures ([slot] + list)[i] == (if i == 0 then slot else list[i - 1])
    ensures i > 0 ==> ([slot] + list)[i] != slot && ([slot] + list)[i] in list
    ensures At([slot] + list, i + 1) == At(list, i)
  {
  }

  lemma InsertedNode(pool: seq<Node>, head: int, list: seq<int>, slot: int, x: Item, i: nat)
    requires Chained(pool, list) && head == At(list, 0) && 0 <= slot < SLOTS && slot !in list && i <= |list|
    ensures var q, l := Inserted(pool, head, slot, x), [slot] + list;
            && 0 <= l[i] < SLOTS && q[l[i]].next == At(l, i + 1)
            && q[l[i]].item == ([Fresh(x)] + Items(pool, list))[i]
  {
    hide At;
    InsertedList(list, slot, i);
    var node := Inserted(pool, head, slot, x)[([slot] + list)[i]];
    if i == 0 {
      assert node == Node(Fresh(x), head);
    } else {
      assert node == pool[list[i - 1]];
      assert ([Fresh(x)] + Items(pool, list))[i] == Items(pool, list)[i - 1];
    }
  }

  lemma InsertedChained(pool: seq<Node>, head: int, list: seq<int>, slot: int, x: Item)
    requires Chained(pool, list) && head == At(list, 0) && 0 <= slot < SLOTS && slot !in list
    ensures Chained(Inserted(pool, head, slot, x), [slot] + list)
    ensures Items(Inserted(pool, head, slot, x), [slot] + list) == [Fresh(x)] + Items(pool, list)
  {
    var q, l := Inserted(pool, head, slot, x), [slot] + list;
    assert |q| == SLOTS;
    hide Inserted, At;
    forall i | 0 <= i < |l|
      ensures 0 <= l[i] < SLOTS && q[l[i]].next == At(l, i + 1)
      ensures q[l[i]].item == ([Fresh(x)] + Items(pool, list))[i]
    {
      InsertedNode(pool, head, list, slot, x, i);
    }
  }

  lemma InsertedDistinct(list: seq<int>, slot: int)
    requires Distinct(list) && slot !in list
    ensures Distinct([slot] + list)
  {
  }

  lemma InsertedMarked(pool: seq<Node>, head: int, list: seq<int>, slot: int, x: Item)
    requires Marked(pool, list) && 0 <= slot < |pool| && x.location != 0
    ensures Marked(Inserted(pool, head, slot, x), [slot] + list)
  {
  }

  lemma InsertedLinked(pool: seq<Node>, head: int, list: seq<int>, slot: int, x: Item)
    requires Linked(pool, head, list) && 0 <= slot < SLOTS && pool[slot].item.location == 0
    requires 0 < x.location < SLOTS
    ensures Linked(Inserted(pool, head, slot, x), slot, [slot] + list)
    ensures Items(Inserted(pool, head, slot, x), [slot] + list) == [Fresh(x)] + Items(pool, list)
  {
    assert slot !in list;
    InsertedChained(pool, head, list, slot, x);
    InsertedDistinct(list, slot);
    InsertedMarked(pool, head, list, slot, x);
    hide Chained, Distinct, Marked;
  }

  /** A character at location 0 breaks the list: its slot is on the list and yet free. */
  lemma ZeroBreaks(pool: seq<Node>, head: int, slot: int, x: Item, l: seq<int>)
    requires |pool| == SLOTS && 0 <= slot < SLOTS && x.location == 0
    ensures !Linked(Inserted(pool, head, slot, x), slot, l)
  {
    assert l != [] ==> l[0] in l;
  }

  /** The next character to be added is put in the same slot, which then links to itself: the
      list has become a cycle. */
  lemma ZeroThenCycle(pool: seq<Node>, head: int, x: Item, y: Item)
    requires FirstFree(pool, 0) != NIL && x.location == 0
    ensures var slot := FirstFree(pool, 0);
            var once := Inserted(pool, head, slot, x);
            && FirstFree(once, 0) == slot
            && Inserted(once, slot, FirstFree(once, 0), y)[slot].next == slot
  {
    var slot := FirstFree(pool, 0);
    FirstFreeIs(Inserted(pool, head, slot, x), 0, slot);
  }

  lemma {:induction false} FirstFreeIs(pool: seq<Node>, from: nat, p: nat)
    requires from <= p < |pool| && pool[p].item.location == 0
    requires forall q :: from <= q < p ==> pool[q].item.location != 0
    ensures FirstFree(pool, from) == p
    decreases p - from
  {
    if from < p {
      FirstFreeIs(pool, from + 1, p);
    }
  }

  // ---------- lookup and removal ----------

  /** The place of the first character at a location, or the length of the list. */
  function Place(items: seq<Item>, location: nat): (i: nat)
    ensures i <= |items|
    ensures forall k :: 0 <= k < i ==> items[k].location != location
    ensures i < |items| ==> items[i].location == location
  {
    if items == [] || items[0].location == location then 0 else Place(items[1..], location) + 1
  }

  lemma {:induction false} PlaceIs(items: seq<Item>, location: nat, i: nat)
    requires i <= |items| && forall k :: 0 <= k < i ==> items[k].location != location
    requires i < |items| ==> items[i].location == location
    ensures Place(items, location) == i
    ensures Find(items, location) == if i < |items| then Some(items[i]) else None
    ensures Without(items, location) == if i < |items| then items[..i] + items[i + 1..] else items
  {
    if i > 0 {
      PlaceIs(items[1..], location, i - 1);
      assert items == [items[0]] + items[1..];
      if i < |items| {
        assert items[..i] == [items[0]] + items[1..][..i - 1] && items[i + 1..] == items[1..][i..];
      }
    }
  }

  lemma {:induction false} RetimedIs(items: seq<Item>, location: nat, x: Item, i: nat)
    requires i < |items| && forall k :: 0 <= k < i ==> items[k].location != location
    requires items[i].location == location
    ensures Retimed(items, location, x)
            == items[i := items[i].(onLength := x.onLength, offLength := x.offLength,
                                    countdown := x.countdown, status := x.status)]
  {
    if i > 0 {
      RetimedIs(items[1..], location, x, i - 1);
    }
  }

  /** Slot `list[i]` is unlinked from the one before it and cleared. */
  function Unlinked(pool: seq<Node>, list: seq<int>, i: nat): seq<Node>
    requires i < |list| && forall k :: 0 <= k < |list| ==> 0 <= list[k] < |pool|
  {
    var q := if i == 0 then pool else pool[list[i - 1] := pool[list[i - 1]].(next := pool[list[i]].next)];
    q[list[i] := Node(ZERO_ITEM, NIL)]
  }

  function Cut(list: seq<int>, i: nat): seq<int>
    requires i < |list|
  {
    list[..i] + list[i + 1..]
  }

  lemma CutAt(list: seq<int>, i: nat, k: nat)
    requires i < |list| && k < |list|
    ensures At(Cut(list, i), k) == At(list, if k < i then k else k + 1)
    ensures k < |list| - 1 ==> Cut(list, i)[k] == list[if k < i then k else k + 1]
  {
  }

  lemma CutHas(list: seq<int>, i: nat, p: int)
    requires i < |list| && Distinct(list)
    ensures p in Cut(list, i) <==> p in list && p != list[i]
  {
    if p in list && p != list[i] {
      var k :| 0 <= k < |list| && list[k] == p;
      assert Cut(list, i)[if k < i then k else k - 1] == p;
    }
    if p in Cut(list, i) {
      var k :| 0 <= k < |list| - 1 && Cut(list, i)[k] == p;
      CutAt(list, i, k);
    }
  }

  /** What unlinking leaves in the other slots of the list. */
  lemma UnlinkedNode(pool: seq<Node>, head: int, list: seq<int>, i: nat, k: nat)
    requires Linked(pool, head, list) && i < |list| && k < |list| && k != i
    ensures Unlinked(pool, list, i)[list[k]].item == pool[list[k]].item
    ensures Unlinked(pool, list, i)[list[k]].next == At(list, if k + 1 == i then i + 1 else k + 1)
  {
  }

  lemma UnlinkedOther(pool: seq<Node>, list: seq<int>, i: nat, p: nat)
    requires i < |list| && (forall k :: 0 <= k < |list| ==> 0 <= list[k] < |pool|) && p < |pool|
    ensures Unlinked(pool, list, i)[p].item == if p == list[i] then ZERO_ITEM else pool[p].item
  {
  }

  lemma UnlinkedLinks(pool: seq<Node>, head: int, list: seq<int>, i: nat, k: nat)
    requires Linked(pool, head, list) && i < |list| && k < |list| - 1
    ensures var l := Cut(list, i);
            var q := Unlinked(pool, list, i);
            && 0 <= l[k] < SLOTS && q[l[k]].next == At(l, k + 1)
            && q[l[k]].item == Items(pool, list)[if k < i then k else k + 1]
  {
    hide Unlinked, Cut, At, Marked, Distinct, OnScreen;
    CutAt(list, i, k);
    CutAt(list, i, k + 1);
    UnlinkedNode(pool, head, list, i, if k < i then k else k + 1);
  }

  lemma UnlinkedChained(pool: seq<Node>, head: int, list: seq<int>, i: nat)
    requires Linked(pool, head, list) && i < |list|
    ensures Chained(Unlinked(pool, list, i), Cut(list, i))
    ensures Items(Unlinked(pool, list, i), Cut(list, i)) == Items(pool, list)[..i] + Items(pool, list)[i + 1..]
  {
    var l, q := Cut(list, i), Unlinked(pool, list, i);
    assert |l| == |list| - 1 && |q| == SLOTS;
    hide Unlinked, Cut, At, Marked, Distinct, OnScreen;
    forall k | 0 <= k < |l|
      ensures 0 <= l[k] < SLOTS && q[l[k]].next == At(l, k + 1)
      ensures q[l[k]].item == Items(pool, list)[if k < i then k else k + 1]
    {
      UnlinkedLinks(pool, head, list, i, k);
    }
  }

  lemma UnlinkedMarked(pool: seq<Node>, head: int, list: seq<int>, i: nat)
    requires Linked(pool, head, list) && i < |list|
    ensures Marked(Unlinked(pool, list, i), Cut(list, i)) && OnScreen(Unlinked(pool, list, i))
  {
    var l, q := Cut(list, i), Unlinked(pool, list, i);
    forall p: nat | p < |q|
      ensures p in l <==> q[p].item.location != 0
      ensures q[p].item.location < SLOTS
    {
      CutHas(list, i, p);
      UnlinkedOther(pool, list, i, p);
    }
  }

  lemma CutDistinct(list: seq<int>, i: nat)
    requires Distinct(list) && i < |list|
    ensures Distinct(Cut(list, i))
  {
  }

  lemma UnlinkedLinked(pool: seq<Node>, head: int, list: seq<int>, i: nat)
    requires Linked(pool, head, list) && i < |list|
    ensures var l := Cut(list, i);
            && Linked(Unlinked(pool, list, i), At(l, 0), l)
            && Items(Unlinked(pool, list, i), l) == Items(pool, list)[..i] + Items(pool, list)[i + 1..]
  {
    UnlinkedChained(pool, head, list, i);
    UnlinkedMarked(pool, head, list, i);
    CutDistinct(list, i);
    hide Cut, Distinct, Marked, OnScreen, At;
  }

  // ---------- a change of one character ----------

  /** Another state of a character in its place leaves the list as it is. */
  function Changed(pool: seq<Node>, slot: int, item: Item): seq<Node>
    requires 0 <= slot < |pool|
  {
    pool[slot := pool[slot].(item := item)]
  }

  lemma ChangedIs(pool: seq<Node>, slot: int, item: Item)
    requires 0 <= slot < |pool|
    ensures Changed(pool, slot, item) == pool[slot := pool[slot].(item := item)]
  {
  }

  lemma ChangedMarked(pool: seq<Node>, list: seq<int>, slot: int, item: Item)
    requires 0 <= slot < |pool| && item.location == pool[slot].item.location
    requires Marked(pool, list) && OnScreen(pool)
    ensures Marked(Changed(pool, slot, item), list) && OnScreen(Changed(pool, slot, item))
  {
  }

  lemma ChangedChained(pool: seq<Node>, list: seq<int>, i: nat, item: Item)
    requires Chained(pool, list) && Distinct(list) && i < |list|
    ensures Chained(Changed(pool, list[i], item), list)
    ensures Items(Changed(pool, list[i], item), list) == Items(pool, list)[i := item]
  {
    hide At;
  }

  lemma ChangedLinked(pool: seq<Node>, head: int, list: seq<int>, i: nat, item: Item)
    requires Linked(pool, head, list) && i < |list| && item.location == pool[list[i]].item.location
    ensures Linked(Changed(pool, list[i], item), head, list)
    ensures Items(Changed(pool, list[i], item), list) == Items(pool, list)[i := item]
  {
    ChangedChained(pool, list, i, item);
    assert 0 <= list[i] < SLOTS == |pool|;
    hide Changed, Marked, OnScreen, Distinct, At;
    ChangedMarked(pool, list, list[i], item);
  }

  /** The characters from place `i` on take their tick. */
  function Rest(items: seq<Item>, i: nat, video: seq<byte>): (s: Show)
    requires i <= |items| && |video| == PAGE && forall k :: 0 <= k < |items| ==> items[k].location < SLOTS
    ensures s.Valid()
  {
    Show(items[i..], video)
  }

  /** The characters when the first `i` of them have taken their tick. */
  function TickedTo(items: seq<Item>, i: nat): (r: seq<Item>)
    ensures |r| == |items|
    ensures forall k :: 0 <= k < |items| ==> r[k] == if k < i then TickItem(items[k]).0 else items[k]
  {
    seq(|items|, k requires 0 <= k < |items| => if k < i then TickItem(items[k]).0 else items[k])
  }

  lemma TickedNext(items: seq<Item>, i: nat)
    requires i < |items|
    ensures TickedTo(items, i)[i] == items[i]
    ensures TickedTo(items, i)[i := TickItem(items[i]).0] == TickedTo(items, i + 1)
  {
  }

  lemma TickedEnds(s: Show)
    requires s.Valid()
    ensures TickedTo(s.items, 0) == s.items && TickedTo(s.items, |s.items|) == Tick(s).items
  {
  }

  lemma TickNext(items: seq<Item>, i: nat, video: seq<byte>)
    requires i < |items| && |video| == PAGE && forall k :: 0 <= k < |items| ==> items[k].location < SLOTS
    ensures var (x, poke) := TickItem(items[i]);
            Tick(Rest(items, i, video)).video
            == Tick(Rest(items, i + 1, if poke.Some? then Poke(video, x.location, poke.value) else video)).video
  {
    assert items[i..][0] == items[i] && items[i..][1..] == items[i + 1..];
    hide TickItem;
  }

  lemma NextOnList(pool: seq<Node>, list: seq<int>, i: nat)
    requires Chained(pool, list) && i < |list|
    ensures 0 <= list[i] < |pool| && pool[list[i]].next == At(list, i + 1)
  {
  }

  lemma RetimedAt(items: seq<Item>, location: nat, x: Item)
    requires Place(items, location) < |items|
    ensures var i := Place(items, location);
            Retimed(items, location, x)
            == items[i := items[i].(onLength := x.onLength, offLength := x.offLength,
                                    countdown := x.countdown, status := x.status)]
  {
    RetimedIs(items, location, x, Place(items, location));
  }

  // ---------- the program ----------

  class Blinker {
    const pool: array<Node>
    const video: array<byte>
    var head: int
    ghost var list: seq<int>

    ghost predicate Valid()
      reads this, pool
    {
      && pool.Length == SLOTS
      && video.Length == PAGE
      && Linked(pool[..], head, list)
    }

    /** The characters on the list, and the screen. */
    ghost function View(): (s: Show)
      requires Valid()
      reads this, pool, video
      ensures s.Valid()
    {
      Show(Items(pool[..], list), video[..])
    }

    /** The pool cleared by `main`, and the screen that `vidmap` gives. */
    constructor (video: array<byte>)
      requires video.Length == PAGE
      ensures Valid() && fresh(pool) && this.video == video && View().items == []
    {
      pool := new Node[SLOTS](_ => Node(ZERO_ITEM, NIL));
      this.video := video;
      head := NIL;
      list := [];
    }

    /** `mp1_poke` at a cell. */
    method PokeCell(location: nat, c: byte)
      requires video.Length == PAGE && location < SLOTS
      modifies video
      ensures video[..] == Poke(old(video[..]), location, c)
    {
      video[2 * location] := c;
    }

    /** `mp1_malloc`. */
    method Malloc() returns (slot: int)
      ensures slot == FirstFree(pool[..], 0)
    {
      var i := 0;
      while i < pool.Length
        invariant 0 <= i <= pool.Length && FirstFree(pool[..], 0) == FirstFree(pool[..], i)
      {
        if pool[i].item.location == 0 {
          return i;
        }
        i := i + 1;
      }
      return NIL;
    }

    /** `mp1_ioctl_add`. The list stays a list exactly if the location is not 0. */
    method Add(x: Item) returns (r: int)
      requires Valid()
      modifies this, pool, video
      ensures r == (if x.location < SLOTS && |old(View()).items| < SLOTS then 0 else -1)
      ensures r == -1 ==> Valid() && View() == old(View())
      ensures r == 0 ==> ((exists l :: Linked(pool[..], head, l)) <==> x.location != 0)
      ensures r == 0 && x.location != 0 ==> Valid() && View() == Blink.Add(old(View()), x)
    {
      hide Chained, Marked, Distinct, OnScreen, At, FirstFree;
      FullPool(pool[..], head, list);
      if x.location >= SLOTS {
        return -1;
      }
      var slot := Malloc();
      if slot == NIL {
        return -1;
      }
      ghost var was := View();
      Insert(slot, x);
      ghost var now := pool[..];
      PokeCell(x.location, x.onChar);
      assert pool[..] == now;
      return 0;
    }

    /** The slot is filled and put in front of the list. */
    method Insert(slot: int, x: Item)
      requires Valid() && 0 <= slot < SLOTS && pool[slot].item.location == 0 && x.location < SLOTS
      modifies this, pool
      ensures (exists l :: Linked(pool[..], head, l)) <==> x.location != 0
      ensures x.location != 0 ==> Valid() && View().items == [Fresh(x)] + old(View()).items
    {
      ghost var was, before := pool[..], head;
      pool[slot] := Node(Fresh(x), head);
      head := slot;
      assert pool[..] == Inserted(was, before, slot, x);
      hide Inserted, Chained, Marked, Distinct, OnScreen, At;
      if x.location != 0 {
        InsertedLinked(was, before, list, slot, x);
        list := [slot] + list;
        assert pool[..] == Inserted(was, before, slot, x);
        assert Linked(pool[..], head, list);
      } else {
        forall l
          ensures !Linked(pool[..], head, l)
        {
          ZeroBreaks(was, before, slot, x, l);
        }
      }
    }

    /** `mp1_find_helper`: the slot of the first character at a location. */
    method FindHelper(location: Word) returns (p: int, ghost i: nat)
      requires Valid()
      ensures i == Place(View().items, location) && p == At(list, i)
      ensures Blink.Find(View().items, location) == if i < |list| then Some(View().items[i]) else None
      ensures p == NIL <==> Blink.Find(View().items, location).None?
      ensures p != NIL ==> 0 <= p < pool.Length && Blink.Find(View().items, location) == Some(pool[p].item)
    {
      p, i := head, 0;
      while p != NIL && pool[p].item.location != location
        invariant i <= |list| && p == At(list, i)
        invariant forall k :: 0 <= k < i ==> View().items[k].location != location
        decreases |list| - i
      {
        p := pool[p].next;
        i := i + 1;
      }
      PlaceIs(View().items, location, i);
    }

    /** `mp1_ioctl_find`. */
    method Find(location: Word) returns (r: Option<Item>)
      requires Valid()
      ensures r == Blink.Find(View().items, location)
    {
      var p: int;
      ghost var i: nat;
      p, i := FindHelper(location);
      r := if p == NIL then None else Some(pool[p].item);
    }

    /** `mp1_ioctl_remove`: the first character there is unlinked and its slot cleared. */
    method Remove(location: Word) returns (r: int)
      requires Valid()
      modifies this, pool
      ensures Valid() && View() == Blink.Remove(old(View()), location)
      ensures r == if Blink.Find(old(View()).items, location).Some? then 0 else -1
    {
      hide Unlinked, Cut, Chained, Distinct, Marked, OnScreen, Place, Without;
      var p: int;
      ghost var i: nat;
      p, i := FindHelper(location);
      PlaceIs(View().items, location, i);
      r := -1;
      if p != NIL {
        ghost var was := pool[..];
        UnlinkedLinked(was, head, list, i);
        Unlink(p, i);
        list := Cut(list, i);
        r := 0;
      }
    }

    /** The search for the link to slot `p`, which is then bent around it, and `mp1_free`. */
    method Unlink(p: int, ghost i: nat)
      requires Valid() && i < |list| && p == list[i]
      modifies this`head, pool
      ensures pool[..] == Unlinked(old(pool[..]), list, i) && head == At(Cut(list, i), 0)
    {
      var prev := NIL;
      var next := head;
      ghost var k := 0;
      while next != p
        invariant k <= i && next == list[k] && prev == (if k == 0 then NIL else list[k - 1])
        decreases i - k
      {
        prev := next;
        next := pool[next].next;
        k := k + 1;
      }
      assert k == i;
      CutAt(list, i, 0);
      if prev == NIL {
        head := pool[p].next;
      } else {
        pool[prev] := pool[prev].(next := pool[p].next);
      }
      pool[p] := Node(ZERO_ITEM, NIL);
    }

    /** The copy loop of `mp1_ioctl_sync`, from slot `p` to slot `q`. */
    method Retime(p: int, q: int, ghost i: nat, ghost j: nat)
      requires Valid() && i < |list| && j < |list| && p == list[i] && q == list[j]
      modifies pool
      ensures Valid()
      ensures var items := old(View()).items;
              View().items == items[j := items[j].(onLength := items[i].onLength, offLength := items[i].offLength,
                                                   countdown := items[i].countdown, status := items[i].status)]
    {
      ghost var was := pool[..];
      var from, to := pool[p].item, pool[q].item;
      to := to.(onLength := from.onLength);
      to := to.(offLength := from.offLength);
      to := to.(countdown := from.countdown);
      to := to.(status := from.status);
      ChangedLinked(was, head, list, j, to);
      pool[q] := pool[q].(item := to);
      assert pool[..] == Changed(was, list[j], to);
    }

    /** `mp1_ioctl_sync`. */
    method Sync(source: Word, target: Word) returns (r: int)
      requires Valid()
      modifies pool, video
      ensures Valid() && View() == Blink.Sync(old(View()), source, target)
      ensures var items := old(View()).items;
              r == if Blink.Find(items, source).Some? && Blink.Find(items, target).Some? then 0 else -1
    {
      hide Chained, Marked, Distinct, OnScreen, Place, Retimed;
      var p, q: int;
      ghost var i, j: nat;
      ghost var items := View().items;
      p, i := FindHelper(source);
      q, j := FindHelper(target);
      r := -1;
      if p != NIL && q != NIL {
        RetimedAt(items, target, items[i]);
        NextOnList(pool[..], list, j);
        Retime(p, q, i, j);
        ghost var now := pool[..];
        PokeCell(pool[q].item.location, pool[q].item.offChar);
        assert pool[..] == now;
        r := 0;
      }
    }

    /** The step of `mp1_rtc_tasklet` for one character. */
    method TickCharacter(x: Item) returns (y: Item)
      requires video.Length == PAGE && x.location < SLOTS
      modifies video
      ensures y == TickItem(x).0
      ensures video[..]
              == if TickItem(x).1.Some? then Poke(old(video[..]), x.location, TickItem(x).1.value) else old(video[..])
    {
      var countdown: Word := if x.countdown == 0 then WORD - 1 else x.countdown - 1;
      y := x.(countdown := countdown);
      if 0 < countdown < 0x8000 {
        return;
      }
      if x.status % 2 == 1 {
        PokeCell(x.location, x.offChar);
        y := y.(countdown := x.offLength, status := x.status - 1);
      } else {
        PokeCell(x.location, x.onChar);
        y := y.(countdown := x.onLength, status := x.status + 1);
      }
    }

    /** The same for the character in slot `p`. */
    method TickSlot(p: int, ghost i: nat)
      requires Valid() && i < |list| && p == list[i]
      modifies pool, video
      ensures Valid()
      ensures var (x, poke) := TickItem(old(View()).items[i]);
              && View().items == old(View()).items[i := x]
              && View().video
                 == if poke.Some? then Poke(old(View()).video, x.location, poke.value) else old(View()).video
    {
      ghost var was := pool[..];
      NextOnList(was, list, i);
      hide Chained, Marked, Distinct, TickItem, Changed, At;
      var x := TickCharacter(pool[p].item);
      assert pool[..] == was;
      ChangedLinked(was, head, list, i, x);
      ChangedIs(was, p, x);
      pool[p] := pool[p].(item := x);
    }

    /** `mp1_rtc_tasklet`. */
    method Tick()
      requires Valid()
      modifies pool, video
      ensures Valid() && View() == Blink.Tick(old(View()))
    {
      ghost var items := View().items;
      ghost var start := View();
      assert Rest(items, 0, start.video) == start;
      TickedEnds(start);
      hide Chained, Marked, Distinct, OnScreen, TickItem, TickedTo, Rest;
      var p := head;
      ghost var i := 0;
      while p != NIL
        invariant Valid() && 0 <= i <= |list| && p == At(list, i)
        invariant View().items == TickedTo(items, i)
        invariant Blink.Tick(start).video == Blink.Tick(Rest(items, i, View().video)).video
        decreases |list| - i
      {
        TickNext(items, i, View().video);
        TickedNext(items, i);
        TickSlot(p, i);
        NextOnList(pool[..], list, i);
        p := pool[p].next;
        i := i + 1;
      }
    }

    /** One command of `mp1_ioctl`, or a tick. */
    method Apply(op: Op)
      requires Valid() && (op.Adding? ==> op.x.location != 0)
      modifies this, pool, video
      ensures Valid() && View() == Blink.Apply(old(View()), op)
    {
      hide Linked, Items, Blink.Sync, Blink.Remove, Blink.Tick;
      var r: int;
      match op {
        case Adding(x) => r := Add(x);
        case Removing(location) => r := Remove(location);
        case Finding(location) => var item := Find(location);
        case Syncing(source, target) => r := Sync(source, target);
        case Ticking => Tick();
      }
    }

    /** Every run without a character at location 0 keeps the list and shows what the abstract
        list shows. */
    method Run(ops: seq<Op>)
      requires Valid() && forall i :: 0 <= i < |ops| && ops[i].Adding? ==> ops[i].x.location != 0
      modifies this, pool, video
      ensures Valid() && View() == Blink.Run(old(View()), ops)
    {
      hide Linked, Items, Blink.Apply;
      var i := 0;
      assert ops[0..] == ops;
      while i < |ops|
        invariant 0 <= i <= |ops| && Valid()
        invariant Blink.Run(View(), ops[i..]) == Blink.Run(old(View()), ops)
      {
        assert ops[i..][0] == ops[i] && ops[i..][1..] == ops[i + 1..];
        Apply(ops[i]);
        i := i + 1;
      }
    }
  }
}
