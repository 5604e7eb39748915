/** Reconnect pacing: saturating exponential windows with full jitter. Times are nanoseconds. */
module Backoff {
  const MILLI: nat := 1_000_000
  const U32_MAX: nat := 0xFFFF_FFFF
  const U64_MAX: nat := 0xFFFF_FFFF_FFFF_FFFF
  /** The longest representable duration. */
  const DURATION_MAX: nat := U64_MAX * 1_000_000_000 + 999_999_999

  function Min(a: nat, b: nat): nat {
    if a <= b then a else b
  }

  function Pow2(n: nat): nat {
    if n == 0 then 1 else 2 * Pow2(n - 1)
  }

  /** A left shift of a 32-bit one, or the largest 32-bit value when the shift is too wide. */
  function Factor(shift: nat): nat {
    if shift < 32 then Pow2(shift) else U32_MAX
  }

  /** The retry window after `attempt` failures in a row. */
  function Window(base: nat, cap: nat, attempt: nat): nat {
    if attempt == 0 then 0 else Min(Min(base * Factor(attempt - 1), DURATION_MAX), cap)
  }

  /** The delay drawn from a window: whole milliseconds, at most the window. */
  function Drawn(window: nat, roll: nat): nat {
    var millis := Min(window / MILLI, U64_MAX);
    if millis == 0 then 0 else (roll % (millis + 1)) * MILLI
  }

  function Bump(attempt: nat): nat {
    Min(attempt + 1, U32_MAX)
  }

  lemma {:induction false} Pow2Grows(n: nat)
    ensures Pow2(n) < Pow2(n + 1)
  {
    if n > 0 {
      Pow2Grows(n - 1);
    }
  }

  lemma FactorGrows(shift: nat)
    ensures 0 < Factor(shift) <= Factor(shift + 1)
  {
    Pow2Positive(shift);
    if shift < 31 {
      Pow2Grows(shift);
    } else if shift == 31 {
      assert Pow2(31) == 0x8000_0000 by {
        assert Pow2(10) == 1024;
        Pow2Adds(10, 10);
        Pow2Adds(20, 11);
        assert Pow2(11) == 2048;
      }
    }
  }

  lemma {:induction false} Pow2Positive(n: nat)
    ensures Pow2(n) > 0
  {
    if n > 0 {
      Pow2Positive(n - 1);
    }
  }

  lemma {:induction false} Pow2Adds(a: nat, b: nat)
    ensures Pow2(a + b) == Pow2(a) * Pow2(b)
  {
    if b > 0 {
      Pow2Adds(a, b - 1);
      assert Pow2(a + b) == 2 * Pow2(a + (b - 1));
    }
  }

  lemma ProductGrows(base: nat, x: nat, y: nat)
    requires x <= y
    ensures base * x <= base * y
  {
  }

  lemma WindowGrows(base: nat, cap: nat, attempt: nat)
    ensures Window(base, cap, attempt) <= Window(base, cap, attempt + 1) <= cap
  {
    if attempt > 0 {
      FactorGrows(attempt - 1);
      ProductGrows(base, Factor(attempt - 1), Factor(attempt));
    }
    hide Factor;
  }

  lemma WindowDoubles(base: nat, cap: nat, attempt: nat)
    requires cap <= DURATION_MAX && 1 <= attempt <= 32
    ensures Window(base, cap, attempt) == Min(cap, base * Pow2(attempt - 1))
  {
    assert Factor(attempt - 1) == Pow2(attempt - 1);
    hide Factor, Pow2;
  }

  lemma WindowLevelsOff(base: nat, cap: nat, attempt: nat)
    requires cap <= DURATION_MAX && attempt > 32
    ensures Window(base, cap, attempt) == Min(cap, base * U32_MAX)
  {
    assert Factor(attempt - 1) == U32_MAX;
    hide Factor;
  }

  /**
   * The schedule over a run of failures: nothing, then the doubling window for as long as the
   * shift fits, then a level one, never above the cap however long the outage lasts.
   */
  lemma Schedule(base: nat, cap: nat, attempt: nat)
    requires cap <= DURATION_MAX
    ensures 1 <= attempt <= 32 ==> Window(base, cap, attempt) == Min(cap, base * Pow2(attempt - 1))
    ensures attempt > 32 ==> Window(base, cap, attempt) == Min(cap, base * U32_MAX)
    ensures attempt == 0 ==> Window(base, cap, attempt) == 0
    ensures Window(base, cap, attempt) <= Window(base, cap, attempt + 1) <= cap
  {
    hide Window, Factor, Pow2, Min;
    WindowGrows(base, cap, attempt);
    if 1 <= attempt <= 32 {
      WindowDoubles(base, cap, attempt);
    } else if attempt > 32 {
      WindowLevelsOff(base, cap, attempt);
    } else {
      NoWindowAtFirst(base, cap);
    }
  }

  lemma NoWindowAtFirst(base: nat, cap: nat)
    ensures Window(base, cap, 0) == 0
  {
  }

  lemma DrawnFits(window: nat, roll: nat)
    ensures Drawn(window, roll) <= window
  {
    var millis := Min(window / MILLI, U64_MAX);
    if millis > 0 {
      assert roll % (millis + 1) <= millis;
    }
  }

  lemma WholeMillis(window: nat, millis: nat)
    ensures millis * MILLI <= window <==> millis <= window / MILLI
  {
  }

  /** Rolls no larger than the window's milliseconds are the delay in milliseconds. */
  lemma RollIsTheDelay(window: nat, roll: nat)
    requires roll * MILLI <= window && roll <= U64_MAX
    ensures Drawn(window, roll) == roll * MILLI
  {
    WholeMillis(window, roll);
    var millis := Min(window / MILLI, U64_MAX);
    SmallRolls(roll, millis + 1);
  }

  lemma SmallRolls(roll: nat, bound: nat)
    requires roll < bound
    ensures roll % bound == roll
  {
  }

  lemma DrawnIsWhole(window: nat, roll: nat)
    ensures Drawn(window, roll) % MILLI == 0 && Drawn(window, roll) <= U64_MAX * MILLI
  {
    var millis := Min(window / MILLI, U64_MAX);
    if millis > 0 {
      assert roll % (millis + 1) <= millis;
    }
  }

  /** Every whole number of milliseconds in the window can be drawn, up to the 64-bit limit, and nothing else. */
  lemma DrawnExactly(window: nat, delay: nat)
    ensures (exists roll: nat :: Drawn(window, roll) == delay) <==>
            delay % MILLI == 0 && delay <= window && delay <= U64_MAX * MILLI
  {
    hide Drawn;
    if roll: nat :| Drawn(window, roll) == delay {
      DrawnFits(window, roll);
      DrawnIsWhole(window, roll);
    }
    if delay % MILLI == 0 && delay <= window && delay <= U64_MAX * MILLI {
      assert delay == (delay / MILLI) * MILLI;
      RollIsTheDelay(window, delay / MILLI);
    }
  }

  /** With a base and a cap of a millisecond or more, only the first attempt of an outage is sure to be immediate. */
  lemma OnlyTheFirstRetryIsFree(base: nat, cap: nat, attempt: nat)
    requires base >= MILLI && MILLI <= cap <= DURATION_MAX
    ensures (forall roll: nat :: Drawn(Window(base, cap, attempt), roll) == 0) <==> attempt == 0
  {
    if attempt == 0 {
      assert Window(base, cap, 0) == 0;
      hide Window;
      forall roll: nat ensures Drawn(Window(base, cap, 0), roll) == 0 { }
    } else {
      RetriesHaveAWindow(base, cap, attempt);
      hide Window, Drawn;
      AMillisecondCanBeDrawn(Window(base, cap, attempt));
    }
  }

  lemma RetriesHaveAWindow(base: nat, cap: nat, attempt: nat)
    requires base >= MILLI && MILLI <= cap <= DURATION_MAX && attempt > 0
    ensures Window(base, cap, attempt) >= MILLI
  {
    FactorGrows(attempt - 1);
    ProductGrows(base, 1, Factor(attempt - 1));
    hide Factor;
  }

  lemma AMillisecondCanBeDrawn(window: nat)
    requires window >= MILLI
    ensures Drawn(window, 1) == MILLI
  {
    var millis := Min(window / MILLI, U64_MAX);
    assert millis >= 1;
    assert 1 % (millis + 1) == 1;
  }

  class Backoff {
    const base: nat
    const cap: nat
    var attempt: nat

    constructor WithLimits(base: nat, cap: nat)
      ensures this.base == base && this.cap == cap && attempt == 0
    {
      this.base := base;
      this.cap := cap;
      attempt := 0;
    }

    /** `roll` is what the random generator yields. */
    method NextDelay(roll: nat) returns (delay: nat)
      modifies this
      ensures attempt == Bump(old(attempt))
      ensures delay == Drawn(Window(base, cap, old(attempt)), roll)
    {
      var failures := attempt;
      attempt := Min(attempt + 1, U32_MAX);
      if failures == 0 {
        return 0;
      }
      var window := Min(Min(base * Factor(failures - 1), DURATION_MAX), cap);
      var millis := Min(window / MILLI, U64_MAX);
      if millis == 0 {
        return 0;
      }
      return (roll % (millis + 1)) * MILLI;
    }

    method Reset()
      modifies this
      ensures attempt == 0
    {
      attempt := 0;
    }
  }
}
