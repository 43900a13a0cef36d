/** The virtual real-time clock of one terminal (student-distrib/rtc.c): the 1024 Hz
    interrupt is divided per terminal. */
module VirtualRtc {
  import opened CInt

  const RATE := 1024
  const MIN_INT := 0x8000_0000

  datatype Rtc = Rtc(divider: int, counter: int, fired: bool) {
    predicate Valid() {
      0 <= counter < divider
    }
  }

  /** The 2 Hz default, as set by open and close. */
  function Reset(r: Rtc): Rtc {
    Rtc(RATE / 2, 0, r.fired)
  }

  /** One hardware interrupt. */
  function Tick(r: Rtc): Rtc {
    if r.counter + 1 >= r.divider then Rtc(r.divider, 0, true) else r.(counter := r.counter + 1)
  }

  function Ticks(r: Rtc, n: nat): Rtc {
    if n == 0 then r else Tick(Ticks(r, n - 1))
  }

  /** How many of the next `n` interrupts reach the terminal. */
  function Fires(r: Rtc, n: nat): nat {
    if n == 0 then 0 else Fires(r, n - 1) + if Ticks(r, n - 1).counter + 1 >= r.divider then 1 else 0
  }

  /** Closed form of `n` interrupts without reconfiguration. */
  lemma {:induction false} TicksClosedForm(r: Rtc, n: nat)
    requires r.Valid()
    ensures Ticks(r, n).counter == (r.counter + n) % r.divider
    ensures Ticks(r, n).divider == r.divider
    ensures Fires(r, n) == (r.counter + n) / r.divider
    ensures Ticks(r, n).fired <==> r.fired || Fires(r, n) > 0
  {
    if n > 0 {
      TicksClosedForm(r, n - 1);
      StepDivision(r.counter + n - 1, r.divider);
    } else {
      SmallDivision(r.counter, r.divider);
    }
  }

  lemma SmallDivision(a: nat, d: nat)
    requires a < d
    ensures a % d == a && a / d == 0
  {
  }

  lemma StepDivision(a: nat, d: nat)
    requires d > 0
    ensures if a % d + 1 == d then (a + 1) % d == 0 && (a + 1) / d == a / d + 1
            else (a + 1) % d == a % d + 1 && (a + 1) / d == a / d
  {
    var q, m := a / d, a % d;
    if m + 1 == d {
      Distribute(q, 1, d);
      Unique(a + 1, d, q + 1, 0);
    } else {
      Unique(a + 1, d, q, m + 1);
    }
  }

  lemma Distribute(p: int, q: int, d: int)
    ensures (p + q) * d == p * d + q * d
  {
  }

  lemma AtLeast(k: int, d: nat)
    requires k >= 1
    ensures k * d >= d
  {
    Distribute(k - 1, 1, d);
    assert (k - 1) * d >= 0;
  }

  lemma Unique(a: nat, d: nat, q: nat, m: nat)
    requires d > 0 && m < d && a == q * d + m
    ensures a / d == q && a % d == m
  {
    var k := a / d - q;
    Distribute(q, k, d);
    Distribute(k, -k, d);
    if k > 0 {
      AtLeast(k, d);
    } else if k < 0 {
      AtLeast(-k, d);
    }
  }

  /** A clock that has just been opened or closed fires twice in one second of 1024 interrupts. */
  lemma ResetIsTwoHertz(r: Rtc)
    ensures var q := Reset(r);
            q.Valid() && q.counter == 0 && q.fired == r.fired && Fires(q, 1024) == 2 && Fires(q, 511) == 0
  {
    TicksClosedForm(Reset(r), 1024);
    TicksClosedForm(Reset(r), 511);
  }

  // ---------- setting the frequency ----------

  /** C's `a & b` on unsigned words. */
  function BitAnd(a: nat, b: nat): nat
    decreases a
  {
    if a == 0 || b == 0 then 0 else (a % 2) * (b % 2) + 2 * BitAnd(a / 2, b / 2)
  }

  function Pow2(k: nat): (r: nat)
    ensures r > 0
  {
    if k == 0 then 1 else 2 * Pow2(k - 1)
  }

  predicate IsPow2(n: nat) {
    n == 1 || (n > 0 && n % 2 == 0 && IsPow2(n / 2))
  }

  lemma {:induction false} BitAndSelf(n: nat)
    ensures BitAnd(n, n) == n
  {
    if n > 0 {
      BitAndSelf(n / 2);
      assert n % 2 == 0 || n % 2 == 1;
      assert BitAnd(n, n) == n % 2 + 2 * BitAnd(n / 2, n / 2);
    }
  }

  /** The bit test `n & (n - 1) == 0` finds exactly the powers of two. */
  lemma {:induction false} BitTest(n: nat)
    requires n > 0
    ensures BitAnd(n, n - 1) == 0 <==> IsPow2(n)
  {
    if n % 2 == 1 {
      assert (n - 1) / 2 == n / 2;
      BitAndSelf(n / 2);
    } else {
      assert (n - 1) / 2 == n / 2 - 1 && (n - 1) % 2 == 1;
      BitTest(n / 2);
      assert BitAnd(n, n - 1) == 2 * BitAnd(n / 2, n / 2 - 1);
    }
  }

  predicate IsPower(n: nat, k: nat) {
    n == Pow2(k)
  }

  lemma {:induction false} IsPow2Means(n: nat)
    ensures IsPow2(n) <==> exists k: nat :: IsPower(n, k)
  {
    if n == 1 {
      assert IsPower(n, 0);
    } else if n > 0 && n % 2 == 0 {
      IsPow2Means(n / 2);
      if IsPow2(n / 2) {
        var k: nat :| IsPower(n / 2, k);
        assert IsPower(n, k + 1);
      }
      forall k: nat | IsPower(n, k)
        ensures IsPow2(n / 2)
      {
        assert k > 0;
        assert IsPower(n / 2, k - 1);
      }
    } else {
      forall k: nat
        ensures !IsPower(n, k)
      {
        assert k == 0 || Pow2(k) == 2 * Pow2(k - 1);
      }
    }
  }

  /** A write of the 32-bit word `w`. Read as a signed number, the most negative word passes
      both the bit test and the upper bound, and the quotient truncates to 0. */
  function SetRate(r: Rtc, w: nat): Option<Rtc>
    requires w <= 0xFFFF_FFFF
  {
    if IsPow2(w) && w <= RATE then Some(Rtc(RATE / w, 0, r.fired))
    else if w == MIN_INT then Some(Rtc(0, 0, r.fired))
    else None
  }

  /** A word that is positive as a signed number is accepted exactly if it is a power of two up
      to 1024, and then the frequency accepted is the frequency at which the terminal is woken:
      in one second of 1024 interrupts it fires exactly `w` times. */
  lemma RateIsFrequency(r: Rtc, w: nat)
    requires w < MIN_INT
    ensures SetRate(r, w).Some? <==> w <= RATE && exists k: nat :: IsPower(w, k)
    ensures SetRate(r, w).Some? ==>
              && SetRate(r, w).value.Valid()
              && SetRate(r, w).value.divider * w == RATE
              && Fires(SetRate(r, w).value, RATE) == w
  {
    IsPow2Means(w);
    if SetRate(r, w).Some? {
      PowersUpTo1024(w);
      Quotients(w);
      TicksClosedForm(SetRate(r, w).value, RATE);
    }
  }

  lemma Quotients(w: nat)
    requires w in {1, 2, 4, 8, 16, 32, 64, 128, 256, 512, 1024}
    ensures RATE / w > 0 && RATE / w * w == RATE && RATE / (RATE / w) == w
  {
  }

  lemma PowersUpTo1024(w: nat)
    requires IsPow2(w) && w <= RATE
    ensures w in {1, 2, 4, 8, 16, 32, 64, 128, 256, 512, 1024}
  {
    IsPow2Means(w);
    var k: nat :| IsPower(w, k);
    if k > 10 {
      Pow2Grows(11, k);
    }
    Pow2Values();
  }

  lemma {:induction false} Pow2Grows(j: nat, k: nat)
    requires j <= k
    ensures Pow2(j) <= Pow2(k)
    decreases k
  {
    if j < k {
      Pow2Grows(j, k - 1);
    }
  }

  lemma Pow2Values()
    ensures Pow2(0) == 1 && Pow2(1) == 2 && Pow2(2) == 4 && Pow2(3) == 8 && Pow2(4) == 16 && Pow2(5) == 32
    ensures Pow2(6) == 64 && Pow2(7) == 128 && Pow2(8) == 256 && Pow2(9) == 512 && Pow2(10) == 1024 && Pow2(11) == 2048
  {
    assert Pow2(4) == 16;
    assert Pow2(8) == 256;
  }

  /** `0 <= counter < divider` survives an accepted write exactly if the word is not negative
      as a signed number: the guard against large words lets every negative one through, and
      one of those is a power of two. */
  lemma RateKeepsValid(r: Rtc, w: nat)
    requires w <= 0xFFFF_FFFF && SetRate(r, w).Some?
    ensures SetRate(r, w).value.Valid() <==> w < MIN_INT
  {
    if w < MIN_INT {
      PowersUpTo1024(w);
      Quotients(w);
    }
  }

  /** Of the words that are negative as signed numbers exactly one is accepted, and its divider
      is 0, which no counter is below. */
  lemma NegativeRate(r: Rtc, w: nat)
    requires MIN_INT <= w <= 0xFFFF_FFFF
    ensures SetRate(r, w).Some? <==> w == MIN_INT
    ensures SetRate(r, MIN_INT) == Some(Rtc(0, 0, r.fired)) && !SetRate(r, MIN_INT).value.Valid()
  {
    PowersBelow32(w);
    PowersBelow32(MIN_INT);
  }

  /** The only power of two with the top bit of a 32-bit word set is that bit. */
  lemma PowersBelow32(w: nat)
    requires w <= 0xFFFF_FFFF
    ensures IsPow2(w) && w >= MIN_INT <==> w == MIN_INT
  {
    Pow2At31();
    IsPow2Means(w);
    if IsPow2(w) && w >= MIN_INT {
      var k: nat :| IsPower(w, k);
      if k >= 32 {
        Pow2Grows(32, k);
      } else if k <= 30 {
        Pow2Grows(k, 30);
      }
    } else {
      IsPow2Means(MIN_INT);
      assert IsPower(MIN_INT, 31);
    }
  }

  lemma Pow2At31()
    ensures Pow2(30) == 0x4000_0000 && Pow2(31) == MIN_INT && Pow2(32) == 0x1_0000_0000
  {
    Pow2Values();
    assert Pow2(15) == 32 * Pow2(10);
    assert Pow2(20) == 32 * Pow2(15);
    assert Pow2(25) == 32 * Pow2(20);
    assert Pow2(30) == 32 * Pow2(25);
  }
}
