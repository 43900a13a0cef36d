/** The blinking characters of the fish program (fish/blink.S, fish/fish.c): what its list
    means, and how a character blinks. */
module Blink {
  import opened CInt
  import VR = VirtualRtc

  const SLOTS := 2000
  const WORD := 0x1_0000
  const PAGE := 0x1000

  type Word = n: nat | n < WORD

  /** A blinking character. */
  datatype Item = Item(
    location: Word,
    onChar: byte,
    offChar: byte,
    onLength: Word,
    offLength: Word,
    countdown: Word,
    status: Word)

  /** The characters, first on the list first, and the screen. */
  datatype Show = Show(items: seq<Item>, video: seq<byte>) {
    predicate Valid() {
      |video| == PAGE && forall i :: 0 <= i < |items| ==> items[i].location < SLOTS
    }
  }

  function Poke(video: seq<byte>, location: nat, c: byte): seq<byte>
    requires |video| == PAGE && location < SLOTS
  {
    video[2 * location := c]
  }

  // ---------- operations ----------

  /** A new character starts shown. */
  function Fresh(x: Item): Item {
    x.(status := 1, countdown := x.onLength)
  }

  function Add(s: Show, x: Item): (r: Show)
    requires s.Valid()
    ensures r.Valid()
  {
    if x.location >= SLOTS || |s.items| >= SLOTS then s
    else Show([Fresh(x)] + s.items, Poke(s.video, x.location, x.onChar))
  }

  /** The first character at a location. */
  function Find(items: seq<Item>, location: nat): Option<Item> {
    if items == [] then None
    else if items[0].location == location then Some(items[0]) else Find(items[1..], location)
  }

  function Without(items: seq<Item>, location: nat): (r: seq<Item>)
    ensures forall x :: x in r ==> x in items
  {
    if items == [] then []
    else if items[0].location == location then items[1..] else [items[0]] + Without(items[1..], location)
  }

  function Remove(s: Show, location: nat): (r: Show)
    requires s.Valid()
    ensures r.Valid()
  {
    var items := Without(s.items, location);
    assert forall i :: 0 <= i < |items| ==> items[i] in s.items;
    s.(items := items)
  }

  /** The first character at `location` takes its timing from `x`. */
  function Retimed(items: seq<Item>, location: nat, x: Item): (r: seq<Item>)
    ensures |r| == |items| && forall i :: 0 <= i < |r| ==> r[i].location == items[i].location
  {
    if items == [] then []
    else if items[0].location == location then
      [items[0].(onLength := x.onLength, offLength := x.offLength, countdown := x.countdown, status := x.status)]
      + items[1..]
    else [items[0]] + Retimed(items[1..], location, x)
  }

  /** The character written is the off character whatever the status: the conditional move
      after the test never moves. */
  function Sync(s: Show, source: nat, target: nat): (r: Show)
    requires s.Valid()
    ensures r.Valid()
  {
    var x, y := Find(s.items, source), Find(s.items, target);
    if x.None? || y.None? then s
    else
      FindIsAt(s.items, target);
      Show(Retimed(s.items, target, x.value), Poke(s.video, y.value.location, y.value.offChar))
  }

  predicate On(x: Item) {
    x.status % 2 == 1
  }

  /** One tick: the countdown, as a signed word, runs out at 0 or below. */
  function TickItem(x: Item): (r: (Item, Option<byte>))
    ensures r.0.location == x.location && r.0.onChar == x.onChar && r.0.offChar == x.offChar
  {
    var c: Word := if x.countdown == 0 then WORD - 1 else x.countdown - 1;
    if 0 < c < 0x8000 then (x.(countdown := c), None)
    else if On(x) then (x.(countdown := x.offLength, status := x.status - 1), Some(x.offChar))
    else (x.(countdown := x.onLength, status := x.status + 1), Some(x.onChar))
  }

  /** A tick goes through the list in order, so of two characters in one place the later one
      stays. */
  function Tick(s: Show): (r: Show)
    requires s.Valid()
    ensures r.Valid() && |r.items| == |s.items|
    ensures forall i :: 0 <= i < |s.items| ==> r.items[i] == TickItem(s.items[i]).0
    decreases |s.items|
  {
    if s.items == [] then s
    else
      var (x, poke) := TickItem(s.items[0]);
      var video := if poke.Some? then Poke(s.video, x.location, poke.value) else s.video;
      var rest := Tick(Show(s.items[1..], video));
      Show([x] + rest.items, rest.video)
  }

  lemma FindIsAt(items: seq<Item>, location: nat)
    ensures Find(items, location).Some? ==>
              Find(items, location).value in items && Find(items, location).value.location == location
  {
  }

  // ---------- timing ----------

  /** How many ticks a countdown lasts: a word outside 1 to 32768 runs out at once. */
  function Duration(length: Word): (d: nat)
    ensures 1 <= d <= 0x8000
  {
    if 1 <= length <= 0x8000 then length else 1
  }

  function After(x: Item, n: nat): (r: Item)
    ensures r.location == x.location && r.onChar == x.onChar && r.offChar == x.offChar
  {
    if n == 0 then x else TickItem(After(x, n - 1)).0
  }

  /** A tick counts down, or flips the character and starts the other count. */
  lemma TickCounts(x: Item)
    requires x.status <= 1
    ensures var r := TickItem(x).0;
            && r.onLength == x.onLength && r.offLength == x.offLength
            && if Duration(x.countdown) > 1
               then r.status == x.status && Duration(r.countdown) == Duration(x.countdown) - 1
               else r.status == 1 - x.status && r.countdown == if On(x) then x.offLength else x.onLength
  {
  }

  /** The closed form: after `n` ticks a fresh character is on exactly during the first part of
      each period, for every pair of lengths. */
  lemma {:induction false} BlinkTiming(x: Item, n: nat)
    ensures var on, off := Duration(x.onLength), Duration(x.offLength);
            var m := n % (on + off);
            var r := After(Fresh(x), n);
            && r.onLength == x.onLength && r.offLength == x.offLength && r.status <= 1
            && (On(r) <==> m < on)
            && Duration(r.countdown) == if m < on then on - m else on + off - m
  {
    if n > 0 {
      BlinkTiming(x, n - 1);
      TickCounts(After(Fresh(x), n - 1));
      VR.StepDivision(n - 1, Duration(x.onLength) + Duration(x.offLength));
    } else {
      VR.SmallDivision(0, Duration(x.onLength) + Duration(x.offLength));
    }
  }

  // ---------- whole runs ----------

  datatype Op =
    | Adding(x: Item)
    | Removing(location: Word)
    | Finding(location: Word)
    | Syncing(source: Word, target: Word)
    | Ticking

  function Apply(s: Show, op: Op): (r: Show)
    requires s.Valid()
    ensures r.Valid()
  {
    match op
    case Adding(x) => Add(s, x)
    case Removing(location) => Remove(s, location)
    case Finding(_) => s
    case Syncing(source, target) => Sync(s, source, target)
    case Ticking => Tick(s)
  }

  function Run(s: Show, ops: seq<Op>): (r: Show)
    requires s.Valid()
    ensures r.Valid()
    decreases |ops|
  {
    if ops == [] then s else Run(Apply(s, ops[0]), ops[1..])
  }

  function Count(items: seq<Item>, location: nat): nat {
    if items == [] then 0 else (if items[0].location == location then 1 else 0) + Count(items[1..], location)
  }

  /** The operation leaves a character at `location` alone, but for ticks. */
  predicate Elsewhere(op: Op, location: nat) {
    match op
    case Adding(x) => x.location != location
    case Removing(l) => l != location
    case Syncing(_, target) => target != location
    case _ => true
  }

  function TicksIn(ops: seq<Op>): nat {
    if ops == [] then 0 else (if ops[0].Ticking? then 1 else 0) + TicksIn(ops[1..])
  }

  /** The one character at its location, and its cell shows it. */
  predicate Shows(s: Show, x: Item) {
    && x.location < SLOTS && |s.video| == PAGE
    && Count(s.items, x.location) == 1
    && Find(s.items, x.location) == Some(x)
    && s.video[2 * x.location] == if On(x) then x.onChar else x.offChar
  }

  lemma {:induction false} WithoutKeeps(items: seq<Item>, l: nat, location: nat)
    requires l != location
    ensures Count(Without(items, l), location) == Count(items, location)
    ensures Find(Without(items, l), location) == Find(items, location)
  {
    if items != [] && items[0].location != l {
      WithoutKeeps(items[1..], l, location);
      assert ([items[0]] + Without(items[1..], l))[1..] == Without(items[1..], l);
    }
  }

  lemma {:induction false} RetimedKeeps(items: seq<Item>, l: nat, x: Item, location: nat)
    requires l != location
    ensures Count(Retimed(items, l, x), location) == Count(items, location)
    ensures Find(Retimed(items, l, x), location) == Find(items, location)
  {
    if items != [] {
      var r := Retimed(items, l, x);
      if items[0].location == l {
        assert r[1..] == items[1..];
      } else {
        RetimedKeeps(items[1..], l, x, location);
        assert r[1..] == Retimed(items[1..], l, x);
      }
    }
  }

  lemma AddKeeps(items: seq<Item>, x: Item, location: nat)
    requires x.location != location
    ensures Count([x] + items, location) == Count(items, location)
    ensures Find([x] + items, location) == Find(items, location)
  {
    assert ([x] + items)[1..] == items;
  }

  /** No character there: a tick leaves the cell alone. */
  lemma {:induction false} TickMisses(s: Show, location: nat)
    requires s.Valid() && location < SLOTS && Count(s.items, location) == 0
    ensures Count(Tick(s).items, location) == 0
    ensures Tick(s).video[2 * location] == s.video[2 * location]
    decreases |s.items|
  {
    hide TickItem;
    if s.items != [] {
      var (x, poke) := TickItem(s.items[0]);
      var video := if poke.Some? then Poke(s.video, x.location, poke.value) else s.video;
      TickMisses(Show(s.items[1..], video), location);
      assert Tick(s).items[1..] == Tick(Show(s.items[1..], video)).items;
    }
  }

  /** One character there: a tick moves it on and its cell follows. */
  lemma {:induction false} TickShows(s: Show, x: Item)
    requires s.Valid() && Shows(s, x)
    ensures Shows(Tick(s), TickItem(x).0)
    decreases |s.items|
  {
    var (y, poke) := TickItem(s.items[0]);
    var video := if poke.Some? then Poke(s.video, y.location, poke.value) else s.video;
    var rest := Show(s.items[1..], video);
    assert Tick(s).items[1..] == Tick(rest).items;
    if s.items[0].location == x.location {
      TickMisses(rest, x.location);
    } else {
      TickShows(rest, x);
    }
  }

  lemma StepShows(s: Show, op: Op, x: Item)
    requires s.Valid() && Shows(s, x) && Elsewhere(op, x.location)
    ensures Shows(Apply(s, op), if op.Ticking? then TickItem(x).0 else x)
  {
    match op {
      case Adding(y) => AddKeeps(s.items, Fresh(y), x.location);
      case Removing(l) => WithoutKeeps(s.items, l, x.location);
      case Finding(_) =>
      case Syncing(source, target) =>
        FindIsAt(s.items, target);
        if Find(s.items, source).Some? {
          RetimedKeeps(s.items, target, Find(s.items, source).value, x.location);
        }
      case Ticking => TickShows(s, x);
    }
  }

  lemma {:induction false} RunShows(s: Show, ops: seq<Op>, x: Item, n: nat)
    requires s.Valid() && Shows(s, After(x, n))
    requires forall i :: 0 <= i < |ops| ==> Elsewhere(ops[i], x.location)
    ensures Shows(Run(s, ops), After(x, n + TicksIn(ops)))
    decreases |ops|
  {
    if ops != [] {
      StepShows(s, ops[0], After(x, n));
      RunShows(Apply(s, ops[0]), ops[1..], x, if ops[0].Ticking? then n + 1 else n);
    }
  }

  lemma FreshShows(s: Show, x: Item)
    requires s.Valid() && x.location < SLOTS && |s.items| < SLOTS && Count(s.items, x.location) == 0
    ensures Shows(Add(s, x), Fresh(x))
  {
    assert ([Fresh(x)] + s.items)[1..] == s.items;
  }

  /** What a fresh character shows after `n` ticks. */
  function Shown(x: Item, n: nat): byte {
    if n % (Duration(x.onLength) + Duration(x.offLength)) < Duration(x.onLength) then x.onChar else x.offChar
  }

  lemma ShownIs(x: Item, n: nat)
    ensures Shown(x, n) == if On(After(Fresh(x), n)) then x.onChar else x.offChar
  {
    BlinkTiming(x, n);
  }

  lemma RunShown(s: Show, x: Item, ops: seq<Op>)
    requires s.Valid() && x.location < SLOTS && |s.items| < SLOTS && Count(s.items, x.location) == 0
    requires forall i :: 0 <= i < |ops| ==> Elsewhere(ops[i], x.location)
    ensures Run(Add(s, x), ops).video[2 * x.location] == Shown(x, TicksIn(ops))
  {
    hide Add, Run, Count, Find, TickItem, Duration, On, TicksIn, Shown, Elsewhere;
    FreshShows(s, x);
    assert After(Fresh(x), 0) == Fresh(x);
    RunShows(Add(s, x), ops, Fresh(x), 0);
    ShownIs(x, TicksIn(ops));
  }

  /** In every run that leaves a newly added character alone in its place and does not sync it,
      its cell shows the on character during the first part of each of its periods and the off
      character during the rest. */
  lemma CharacterBlinks(s: Show, x: Item, ops: seq<Op>)
    requires s.Valid() && x.location < SLOTS && |s.items| < SLOTS && Count(s.items, x.location) == 0
    requires forall i :: 0 <= i < |ops| ==> Elsewhere(ops[i], x.location)
    ensures var on, off := Duration(x.onLength), Duration(x.offLength);
            Run(Add(s, x), ops).video[2 * x.location]
            == if TicksIn(ops) % (on + off) < on then x.onChar else x.offChar
  {
    hide Add, Run, TicksIn, Duration, Elsewhere, Count;
    RunShown(s, x, ops);
  }

  /** With lengths the countdown can hold, the parts of the period are the lengths asked for. */
  lemma BlinksAsAsked(s: Show, x: Item, ops: seq<Op>)
    requires s.Valid() && x.location < SLOTS && |s.items| < SLOTS && Count(s.items, x.location) == 0
    requires forall i :: 0 <= i < |ops| ==> Elsewhere(ops[i], x.location)
    requires 1 <= x.onLength <= 0x8000 && 1 <= x.offLength <= 0x8000
    ensures Run(Add(s, x), ops).video[2 * x.location]
            == if TicksIn(ops) % (x.onLength + x.offLength) < x.onLength then x.onChar else x.offChar
  {
    hide Add, Run, TicksIn, Elsewhere, Count;
    CharacterBlinks(s, x, ops);
  }

  // ---------- adding, removing, syncing ----------

  /** A character that has been added is the one found at its place, and removing it restores the
      list. */
  lemma AddThenRemove(s: Show, x: Item)
    requires s.Valid() && x.location < SLOTS && |s.items| < SLOTS
    ensures Find(Add(s, x).items, x.location) == Some(Fresh(x))
    ensures Remove(Add(s, x), x.location).items == s.items
    ensures Add(s, x).video == s.video[2 * x.location := x.onChar]
  {
    assert ([Fresh(x)] + s.items)[1..] == s.items;
  }

  /** Removing takes exactly one character away from its place, if there is one, and shows nothing
      new. */
  lemma {:induction false} RemoveTakesOne(items: seq<Item>, location: nat)
    ensures Count(Without(items, location), location)
            == if Count(items, location) == 0 then 0 else Count(items, location) - 1
    ensures |Without(items, location)| == if Count(items, location) == 0 then |items| else |items| - 1
    decreases |items|
  {
    if items != [] && items[0].location != location {
      RemoveTakesOne(items[1..], location);
      assert ([items[0]] + Without(items[1..], location))[1..] == Without(items[1..], location);
    }
  }

  predicate SameTiming(x: Item, y: Item) {
    x.onLength == y.onLength && x.offLength == y.offLength && x.countdown == y.countdown && x.status == y.status
  }

  lemma {:induction false} InStep(x: Item, y: Item, n: nat)
    requires SameTiming(x, y)
    ensures SameTiming(After(x, n), After(y, n))
  {
    if n > 0 {
      InStep(x, y, n - 1);
    }
  }

  lemma {:induction false} FindRetimed(items: seq<Item>, location: nat, x: Item)
    requires Find(items, location).Some?
    ensures var y := Find(items, location).value;
            var r := Find(Retimed(items, location, x), location);
            && r.Some? && SameTiming(r.value, x)
            && r.value.location == y.location && r.value.onChar == y.onChar && r.value.offChar == y.offChar
  {
    if items[0].location != location {
      FindRetimed(items[1..], location, x);
      assert Retimed(items, location, x)[1..] == Retimed(items[1..], location, x);
    }
  }

  /** After a sync the target is on exactly when the source is, at every later tick; it keeps its
      place and its characters, and at once shows its off character. */
  lemma SyncedInStep(s: Show, source: nat, target: nat, n: nat)
    requires s.Valid() && Find(s.items, source).Some? && Find(s.items, target).Some?
    ensures var x, y := Find(s.items, source).value, Find(s.items, target).value;
            var r := Sync(s, source, target);
            var z := Find(r.items, target);
            && z.Some? && z.value.location == y.location == target
            && z.value.onChar == y.onChar && z.value.offChar == y.offChar
            && (On(After(z.value, n)) <==> On(After(x, n)))
            && target < SLOTS && r.video == s.video[2 * target := y.offChar]
  {
    var x := Find(s.items, source).value;
    FindIsAt(s.items, target);
    FindRetimed(s.items, target, x);
    InStep(Find(Sync(s, source, target).items, target).value, x, n);
  }
}
