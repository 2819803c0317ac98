/** The SysTick timer of systick.hpp: section B3.3 of the ARMv6-M Architecture
    Reference Manual (ARM DDI 0419). */
module SysTicks {
  import opened Division

  const MAX_RELOAD := 0xFF_FFFF

  type Count = n: nat | n <= MAX_RELOAD

  class SysTick {
    var enabled: bool
    var countFlag: bool
    var current: Count
    var reload: Count
    ghost var raised: nat      // how often the exception has been raised

    constructor (reload: Count)
      ensures enabled && current == 0 && this.reload == reload && raised == 0
    {
      enabled, countFlag, current, this.reload, raised := true, false, 0, reload, 0;
    }

    /** step; the result says whether the exception is raised. */
    method Step() returns (raise: bool)
      modifies `enabled, `countFlag, `current, `raised
      ensures (enabled, current, raise) == After(old(enabled), old(current), reload)
      ensures countFlag == (old(countFlag) || raise) && raised == old(raised) + if raise then 1 else 0
      ensures !old(enabled) ==> !enabled && current == old(current) && !raise
      ensures old(enabled) && old(current) > 0 ==> enabled && current == old(current) - 1 && (raise <==> current == 0)
      ensures old(enabled) && old(current) == 0 ==> current == reload && (enabled <==> reload > 0) && !raise
    {
      raise := false;
      if !enabled {
        return;
      }
      if 0 == current {
        current := reload;
        if 0 == reload {
          enabled := false;
          return;
        }
      } else {
        current := current - 1;
        if 0 == current {
          countFlag := true;
          raise := true;
          raised := raised + 1;
        }
      }
    }

    /** n steps without a register write: with a reload value R > 0, from a current
        value of 0, the exception is raised once in every R + 1 of them. */
    method Steps(n: nat)
      requires enabled && current == 0 && reload > 0 && raised == 0
      modifies `enabled, `countFlag, `current, `raised
      ensures enabled && raised == n / (reload + 1)
      ensures current == CurrentAfter(reload, n)
    {
      PeriodStarts(reload);
      for i := 0 to n
        invariant enabled && reload > 0 && current == CurrentAfter(reload, i) && raised == i / (reload + 1)
      {
        OneStep(reload, i);
        var raise := Step();
      }
    }
  }

  function After(enabled: bool, current: Count, reload: Count): (bool, Count, bool) {
    if !enabled then (false, current, false)
    else if current == 0 then (reload != 0, reload, false)
    else (true, current - 1, current == 1)
  }

  /** The current value after n steps from 0: it counts down from the reload
      value and stays at 0 for one step of each period. */
  function CurrentAfter(reload: Count, n: nat): Count {
    var phase := n % (reload + 1);
    if phase == 0 then 0 else reload + 1 - phase
  }

  lemma PeriodStarts(reload: Count)
    ensures CurrentAfter(reload, 0) == 0 && 0 / (reload + 1) == 0
  {
  }

  lemma NextInPeriod(n: nat, period: nat)
    requires period > 0
    ensures (n + 1) % period == if n % period == period - 1 then 0 else n % period + 1
    ensures (n + 1) / period == n / period + if n % period == period - 1 then 1 else 0
  {
    var q, r := n / period, n % period;
    if r == period - 1 {
      assert n + 1 == (q + 1) * period;
      QuotientIs(n + 1, period, q + 1, 0);
    } else {
      assert n + 1 == q * period + (r + 1);
      QuotientIs(n + 1, period, q, r + 1);
    }
  }

  /** The exception is raised at exactly those steps whose number is a multiple of
      R + 1. */
  lemma OneStep(reload: Count, n: nat)
    requires reload > 0
    ensures After(true, CurrentAfter(reload, n), reload) ==
            (true, CurrentAfter(reload, n + 1), (n + 1) % (reload + 1) == 0)
    ensures (n + 1) / (reload + 1) == n / (reload + 1) + if (n + 1) % (reload + 1) == 0 then 1 else 0
  {
    NextInPeriod(n, reload + 1);
  }
}
