/** Timespec arithmetic and the periodic timer (include/netchan_utils.h,
    src/netchan_utils.c), and the two sleep targets built on it. */
module Timespec {
  import opened MachineInts

  const NS_IN_SEC: nat := 1_000_000_000
  const NS_IN_US: nat := 1_000

  /** The value of a `struct timespec`. */
  datatype Stamp = Stamp(sec: int, nsec: int) {
    function Total(): int {
      sec * NS_IN_SEC + nsec
    }

    predicate Normalised() {
      0 <= nsec < NS_IN_SEC
    }
  }

  /** The one normalised stamp that denotes `ns` nanoseconds. */
  function OfNs(ns: int): (s: Stamp)
    ensures s.Normalised() && s.Total() == ns
  {
    Stamp(ns / NS_IN_SEC, ns % NS_IN_SEC)
  }

  lemma NormalisedUnique(a: Stamp, b: Stamp)
    requires a.Normalised() && b.Normalised() && a.Total() == b.Total()
    ensures a == b
  {
  }

  /** A `struct timespec` that is updated in place. */
  class TimeBuf {
    var sec: int
    var nsec: int

    function View(): Stamp
      reads this
    {
      Stamp(sec, nsec)
    }

    constructor (sec: int, nsec: int)
      ensures View() == Stamp(sec, nsec)
    {
      this.sec := sec;
      this.nsec := nsec;
    }

    /** `ts_normalize`: carries whole seconds out of a non-negative nanosecond
        field, and leaves a negative one alone. */
    method Normalize()
      modifies this
      ensures old(nsec) >= 0 ==> View() == OfNs(old(View().Total()))
      ensures old(nsec) < 0 ==> View() == old(View())
    {
      while nsec >= NS_IN_SEC
        invariant View().Total() == old(View().Total())
        invariant old(nsec) >= 0 ==> nsec >= 0
        invariant old(nsec) < 0 ==> View() == old(View())
      {
        nsec := nsec - NS_IN_SEC;
        sec := sec + 1;
      }
      if nsec >= 0 {
        NormalisedUnique(View(), OfNs(old(View().Total())));
      }
    }

    /** `ts_subtract_ns`: exact on the denoted time; one second at most is
        borrowed, so the result is normalised exactly when that suffices. */
    method SubtractNs(sub: nat)
      requires View().Normalised()
      modifies this
      ensures View().Total() == old(View().Total()) - sub
      ensures View().Normalised() <==> sub <= old(nsec) + NS_IN_SEC
    {
      if sub > nsec {
        sec := sec - 1;
        nsec := nsec + NS_IN_SEC;
      }
      nsec := nsec - sub;
    }

    /** `ts_add_ns`. */
    method AddNs(add: nat)
      requires nsec >= 0
      modifies this
      ensures View() == OfNs(old(View().Total()) + add)
    {
      nsec := nsec + add;
      Normalize();
    }
  }

  // ---------------------------------------------------------------------
  // Sleep targets

  const WAKEUP_MARGIN_NS: nat := 100 * NS_IN_US

  /** The target `wait_for_tx_slot` sleeps to: divide, then subtract. */
  method SlotTarget(nextTxNs: nat) returns (target: Stamp)
    ensures target.Normalised() && target.Total() == nextTxNs - 100_000
  {
    var ts := new TimeBuf(nextTxNs / NS_IN_SEC, nextTxNs % NS_IN_SEC);
    ts.Normalize();
    NormalisedUnique(ts.View(), OfNs(nextTxNs));
    ts.SubtractNs(WAKEUP_MARGIN_NS);
    target := ts.View();
    NormalisedUnique(target, OfNs(nextTxNs - WAKEUP_MARGIN_NS));
  }

  /** From here on the nanosecond field, a signed 64-bit number, is negative. */
  const CBS_LIMIT_NS: nat := TWO63 + WAKEUP_MARGIN_NS

  /** The target `_cbs_send_at` sleeps to: subtract in 64 bits, then normalise. */
  method CbsTarget(txNs: nat) returns (target: Stamp)
    requires txNs < TWO64
    ensures target.Total() == txNs - WAKEUP_MARGIN_NS - (if txNs < CBS_LIMIT_NS then 0 else TWO64)
    ensures if WAKEUP_MARGIN_NS <= txNs < CBS_LIMIT_NS then target.Normalised() else target.nsec < 0
  {
    var ts := new TimeBuf(0, I64(U64(txNs - WAKEUP_MARGIN_NS)));
    ts.Normalize();
    target := ts.View();
  }

  /** The two targets denote the same instant exactly below 2^63 ns plus 100us,
      and are the same `struct timespec` exactly from 100us to there; outside the
      CBS one has a negative nanosecond field, which the kernel rejects. */
  method TargetsCompared(x: nat) returns (slot: Stamp, cbs: Stamp)
    requires x < TWO64
    ensures slot.Total() == x - WAKEUP_MARGIN_NS
    ensures slot.Total() == cbs.Total() <==> x < CBS_LIMIT_NS
    ensures slot == cbs <==> WAKEUP_MARGIN_NS <= x < CBS_LIMIT_NS
    ensures slot != cbs ==> cbs.nsec < 0
  {
    slot := SlotTarget(x);
    cbs := CbsTarget(x);
    if WAKEUP_MARGIN_NS <= x < CBS_LIMIT_NS {
      NormalisedUnique(slot, cbs);
    }
  }

  // ---------------------------------------------------------------------
  // Periodic timer

  datatype ClockId = Realtime | Monotonic | Tai | OtherClock

  const MIN_PHASE_NS: nat := 100 * NS_IN_US

  /** When `pt_init` hands out a timer.  The age limit is computed in
      `uint64_t`, so a phase longer than the clock's age wraps. */
  predicate TimerAccepted(baseNs: nat, phaseNs: nat, clock: ClockId, nowNs: int) {
    && phaseNs >= MIN_PHASE_NS
    && clock != OtherClock
    && (baseNs == 0 || baseNs >= U64(U64(nowNs) - phaseNs))
  }

  class PeriodicTimer {
    const ts: TimeBuf
    const phaseNs: nat
    const clock: ClockId

    /** Time of the base and number of cycles waited for since. */
    ghost const baseNs: int
    ghost var cycles: nat

    ghost predicate Valid()
      reads this, ts
    {
      ts.View() == OfNs(baseNs + cycles * phaseNs)
    }

    constructor (base: int, phaseNs: nat, clock: ClockId)
      ensures Valid() && fresh(ts) && cycles == 0
      ensures this.baseNs == base && this.phaseNs == phaseNs && this.clock == clock
    {
      this.ts := new TimeBuf(base / NS_IN_SEC, base % NS_IN_SEC);
      this.phaseNs := phaseNs;
      this.clock := clock;
      this.baseNs := base;
      this.cycles := 0;
    }

    /** `pt_next_cycle`: the deadline handed to `clock_nanosleep` is exactly
        the base plus a whole number of phases, without drift, whatever the
        number of earlier calls. */
    method NextCycle() returns (deadline: Stamp)
      requires Valid()
      modifies this, ts
      ensures Valid() && cycles == old(cycles) + 1
      ensures deadline.Normalised()
      ensures deadline.Total() == baseNs + (old(cycles) + 1) * phaseNs
    {
      ts.AddNs(phaseNs);
      cycles := cycles + 1;
      assert (cycles - 1) * phaseNs + phaseNs == cycles * phaseNs;
      deadline := ts.View();
    }
  }

  /** `pt_init`; `now` is the clock reading, always normalised. */
  method InitTimer(baseNs: nat, phaseNs: nat, clock: ClockId, now: Stamp) returns (pt: PeriodicTimer?)
    requires now.Normalised()
    requires baseNs < TWO64 && phaseNs < TWO64
    ensures pt != null <==> TimerAccepted(baseNs, phaseNs, clock, now.Total())
    ensures phaseNs < 100_000 || clock !in {Realtime, Monotonic, Tai} ==> pt == null
    ensures baseNs == 0 && phaseNs >= 100_000 && clock in {Realtime, Monotonic, Tai} ==> pt != null
    ensures baseNs != 0 && phaseNs >= 100_000 && clock in {Realtime, Monotonic, Tai} ==>
              (phaseNs <= now.Total() < TWO64 ==> (pt != null <==> now.Total() - baseNs <= phaseNs))
    ensures pt != null ==> fresh(pt) && fresh(pt.ts) && pt.Valid() && pt.cycles == 0
    ensures pt != null ==> pt.phaseNs == phaseNs && pt.clock == clock
    ensures pt != null ==> pt.baseNs == if baseNs == 0 then now.Total() else baseNs
  {
    if phaseNs < 100 * NS_IN_US {
      return null;
    }
    if !(clock == Realtime || clock == Monotonic || clock == Tai) {
      return null;
    }
    var base := now.Total();
    var timeNowNs := U64(now.Total());
    if baseNs != 0 {
      if baseNs < U64(timeNowNs - phaseNs) {
        return null;
      }
      base := baseNs;
    }
    pt := new PeriodicTimer(base, phaseNs, clock);
  }

  /** With the default base a timer comes back exactly for a phase of at least
      100us on one of the three clocks, whatever the clock reads; without these
      none does, whatever the base. */
  lemma DefaultBase(baseNs: nat, phaseNs: nat, clock: ClockId, nowNs: int)
    ensures TimerAccepted(0, phaseNs, clock, nowNs) <==> phaseNs >= 100_000 && clock in {Realtime, Monotonic, Tai}
    ensures TimerAccepted(baseNs, phaseNs, clock, nowNs) ==> TimerAccepted(0, phaseNs, clock, nowNs)
  {
  }

  /** The age limit: with a clock older than one phase, a base is refused
      exactly when it lies more than one phase in the past. */
  lemma AgeLimit(baseNs: nat, phaseNs: nat, clock: ClockId, nowNs: nat)
    requires 100_000 <= phaseNs <= nowNs < TWO64 && clock != OtherClock
    requires 0 < baseNs < TWO64
    ensures TimerAccepted(baseNs, phaseNs, clock, nowNs) <==> nowNs - baseNs <= phaseNs
  {
  }

  /** A phase longer than the clock's age makes the limit wrap: every base but
      the default is then refused unless it is centuries ahead. */
  lemma YoungClock(baseNs: nat, phaseNs: nat, clock: ClockId, nowNs: nat)
    requires nowNs < phaseNs < TWO64 && MIN_PHASE_NS <= phaseNs && clock != OtherClock
    requires 0 < baseNs < TWO64
    ensures TimerAccepted(baseNs, phaseNs, clock, nowNs) <==> baseNs >= TWO64 - (phaseNs - nowNs)
  {
  }

  /** So a base of now is refused, half a second after boot with a phase of one
      second. */
  lemma YoungClockExample()
    ensures !TimerAccepted(NS_IN_SEC / 2, NS_IN_SEC, Monotonic, NS_IN_SEC / 2)
  {
    YoungClock(NS_IN_SEC / 2, NS_IN_SEC, Monotonic, NS_IN_SEC / 2);
  }
}
