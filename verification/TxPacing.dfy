/** Launch times of a TAS channel (src/netchan_socket.c, `_tas_send_at` and
    `_tas_send_now`): a rate limiter whose state is the next free slot. */
module TxPacing {
  import opened MachineInts
  import Admission
  import opened Counting

  /** A launch time must lie this far ahead for the ETF queue to take it. */
  const LEAD_NS: nat := 50_000

  /** One call: the clock reading, and the caller's wish when there is one
      (`_tas_send_now` passes none). */
  datatype Call = Call(now: nat, wish: Option<nat>)

  predicate Accepted(c: Call, next: nat) {
    c.wish.Some? && c.wish.value > c.now + LEAD_NS && c.wish.value < c.now + LEAD_NS + next
  }

  /** The launch time one call picks when the next free slot is `next`. */
  function Launch(c: Call, next: nat): nat {
    if Accepted(c, next) then c.wish.value else Max(c.now + LEAD_NS, next)
  }

  /** A history of calls on a channel with a given first slot and interval. */
  datatype Run = Run(first: nat, interval: nat, calls: seq<Call>) {
    /** `next_tx_ns` before call `k`. */
    function Next(k: nat): nat
      requires k <= |calls|
      decreases k, 0
    {
      if k == 0 then first else At(k - 1) + interval
    }

    /** Launch time of call `k`. */
    function At(k: nat): nat
      requires k < |calls|
      decreases k, 1
    {
      Launch(calls[k], Next(k))
    }

    /** Only `_tas_send_now`. */
    predicate NowOnly() {
      forall k :: 0 <= k < |calls| ==> calls[k].wish == None
    }

    /** Consecutive launches keep the channel's distance. */
    ghost predicate Spaced() {
      forall k :: 0 <= k < |calls| - 1 ==> At(k) + interval <= At(k + 1)
    }

    /** Call `k` has a wish that is granted ahead of the free slot. */
    predicate Undercuts(k: nat)
      requires k < |calls|
    {
      Accepted(calls[k], Next(k)) && calls[k].wish.value < Next(k)
    }
  }

  /** The sums of a call stay below 2^64. */
  predicate NoWrap(c: Call, next: nat, interval: nat) {
    && c.now + LEAD_NS < TWO64
    && (c.wish.Some? ==> c.now + LEAD_NS + next < TWO64)
    && Launch(c, next) + interval < TWO64
  }

  // ---------------------------------------------------------------------
  // The channel

  class TasChannel {
    const intervalNs: nat
    var nextTxNs: nat

    // The calls since the channel was made or a sum last wrapped, and the slot
    // they started from.
    ghost var first: nat
    ghost var calls: seq<Call>

    ghost function History(): Run
      reads this
    {
      Run(first, intervalNs, calls)
    }

    ghost predicate Valid()
      reads this
    {
      nextTxNs == History().Next(|calls|) && nextTxNs < TWO64 && intervalNs < TWO64
    }

    constructor (intervalNs: nat, nowNs: nat)
      requires nowNs < TWO64 && intervalNs < TWO64
      ensures Valid() && this.intervalNs == intervalNs && first == nowNs && calls == []
    {
      this.intervalNs := intervalNs;
      this.nextTxNs := nowNs;
      this.first := nowNs;
      this.calls := [];
    }

    /** The choice of the launch time, in 64-bit sums. */
    method Choose(now: nat, wish: Option<nat>) returns (taiNow: nat, txNs: nat)
      requires nextTxNs < TWO64
      requires now < TWO64 && (wish.Some? ==> wish.value < TWO64)
      ensures taiNow == U64(now + 50_000) && taiNow <= txNs < TWO64
      ensures txNs == if wish.Some? && taiNow < wish.value < U64(taiNow + nextTxNs) then wish.value
                      else if taiNow > nextTxNs then taiNow else nextTxNs
      ensures NoWrap(Call(now, wish), nextTxNs, intervalNs) ==>
                taiNow == now + LEAD_NS && txNs == Launch(Call(now, wish), nextTxNs)
    {
      taiNow := U64(now + LEAD_NS);
      txNs := if taiNow > nextTxNs then taiNow else nextTxNs;
      if wish.Some? && wish.value > taiNow && wish.value < U64(taiNow + nextTxNs) {
        txNs := wish.value;
      }
    }

    /** The do/while loop.  Its body ends every pass in the same state, so it is
        left after one pass or never: `hangs` is set when a pass starts where it
        ends. */
    method Advance(taiNow: nat, txNs: nat) returns (hangs: bool, ghost passes: nat)
      requires taiNow <= txNs < TWO64 && intervalNs < TWO64
      modifies this`nextTxNs
      ensures nextTxNs == U64(txNs + intervalNs)
      ensures hangs <==> TWO64 <= txNs + intervalNs < TWO64 + taiNow
      ensures !hangs ==> passes == 1
    {
      passes := 0;
      hangs := false;
      var again := true;
      while again && !hangs
        modifies this`nextTxNs
        invariant passes <= 2 && (hangs ==> again) && (passes == 2 ==> hangs)
        invariant if passes == 0 then again && !hangs
                  else nextTxNs == U64(txNs + intervalNs) && again == (nextTxNs < taiNow)
        decreases 2 - passes
      {
        var before := nextTxNs;
        nextTxNs := U64(txNs + intervalNs);
        again := nextTxNs < taiNow;
        hangs := again && nextTxNs == before;
        passes := passes + 1;
      }
    }

    /** `_tas_send_at` up to the hand-over to the socket.  As long as the sums
        stay below 2^64 the launch time is the one the history prescribes and
        the loop body runs once; a slot that wraps to before the reading hangs
        the call. */
    method SendAt(now: nat, wish: Option<nat>) returns (txNs: nat, hangs: bool)
      requires Valid()
      requires now < TWO64 && (wish.Some? ==> wish.value < TWO64)
      modifies this
      ensures Valid() && nextTxNs == U64(txNs + intervalNs) && U64(now + LEAD_NS) <= txNs < TWO64
      ensures var taiNow, slot := U64(now + 50_000), old(nextTxNs);
              txNs == if wish.Some? && taiNow < wish.value < U64(taiNow + slot) then wish.value
                      else if taiNow > slot then taiNow else slot
      ensures hangs <==> TWO64 <= txNs + intervalNs < TWO64 + U64(now + LEAD_NS)
      ensures NoWrap(Call(now, wish), old(nextTxNs), intervalNs) ==>
                && !hangs && first == old(first) && calls == old(calls) + [Call(now, wish)]
                && txNs == History().At(|old(calls)|) && txNs >= now + LEAD_NS
                && nextTxNs == txNs + intervalNs
    {
      ghost var fits := NoWrap(Call(now, wish), nextTxNs, intervalNs);
      ghost var before := History();
      var taiNow;
      taiNow, txNs := Choose(now, wish);
      ghost var passes;
      hangs, passes := Advance(taiNow, txNs);
      if fits {
        calls := calls + [Call(now, wish)];
        NextOfPrefix(before, History(), |before.calls|);
      } else {
        first := nextTxNs;
        calls := [];
      }
    }

    /** The pacing part of `_tas_send_now`. */
    method SendNow(now: nat) returns (txNs: nat, hangs: bool)
      requires Valid() && now < TWO64
      modifies this
      ensures Valid() && nextTxNs == U64(txNs + intervalNs) && U64(now + LEAD_NS) <= txNs < TWO64
      ensures var taiNow, slot := U64(now + 50_000), old(nextTxNs);
              txNs == if taiNow > slot then taiNow else slot
      ensures hangs <==> TWO64 <= txNs + intervalNs < TWO64 + U64(now + LEAD_NS)
      ensures Max(now + LEAD_NS, old(nextTxNs)) + intervalNs < TWO64 ==>
                && !hangs && first == old(first) && calls == old(calls) + [Call(now, None)]
                && txNs == History().At(|old(calls)|)
    {
      txNs, hangs := SendAt(now, None);
    }
  }

  lemma {:induction false} NextOfPrefix(a: Run, b: Run, k: nat)
    requires a.first == b.first && a.interval == b.interval && a.calls <= b.calls
    requires k <= |a.calls|
    ensures a.Next(k) == b.Next(k)
  {
    if k > 0 {
      NextOfPrefix(a, b, k - 1);
    }
  }

  // ---------------------------------------------------------------------
  // Runs of send-now

  /** Launches `i` and `j` of a spaced run are at least `j - i` intervals apart. */
  lemma {:induction false} SpacedGap(r: Run, i: nat, j: nat)
    requires r.Spaced() && i <= j < |r.calls|
    ensures r.At(i) + (j - i) * r.interval <= r.At(j)
    decreases j
  {
    if i < j {
      SpacedGap(r, i, j - 1);
      assert r.At(j - 1) + r.interval <= r.At(j - 1 + 1);
      assert (j - 1 - i) * r.interval + r.interval == (j - i) * r.interval;
    }
  }

  lemma {:induction false} SpacedStep(r: Run, i: nat, j: nat)
    requires r.Spaced() && i < j < |r.calls|
    ensures r.At(i) + r.interval <= r.At(j)
  {
    assert r.At(j - 1) + r.interval <= r.At(j - 1 + 1);
    if i < j - 1 {
      SpacedStep(r, i, j - 1);
    }
  }

  /** Closed form: launch `k` is the largest of the first slot shifted by `k`
      intervals and each reading `j <= k`, plus lead, shifted by `k - j`. */
  lemma {:induction false} ClosedForm(r: Run, k: nat)
    requires r.NowOnly() && k < |r.calls|
    ensures r.At(k) >= r.first + k * r.interval
    ensures forall j :: 0 <= j <= k ==> r.At(k) >= r.calls[j].now + LEAD_NS + (k - j) * r.interval
    ensures r.At(k) == r.first + k * r.interval ||
            exists j :: 0 <= j <= k && r.At(k) == r.calls[j].now + LEAD_NS + (k - j) * r.interval
  {
    if k > 0 {
      ClosedForm(r, k - 1);
      var p := r.At(k - 1);
      assert (k - 1) * r.interval + r.interval == k * r.interval;
      forall j | 0 <= j <= k
        ensures r.At(k) >= r.calls[j].now + LEAD_NS + (k - j) * r.interval
      {
        if j < k {
          assert (k - 1 - j) * r.interval + r.interval == (k - j) * r.interval;
        }
      }
      if r.At(k) == p + r.interval && p != r.first + (k - 1) * r.interval {
        var j :| 0 <= j <= k - 1 && p == r.calls[j].now + LEAD_NS + (k - 1 - j) * r.interval;
        assert (k - 1 - j) * r.interval + r.interval == (k - j) * r.interval;
      } else if r.At(k) != p + r.interval {
        assert r.At(k) == r.calls[k].now + LEAD_NS + (k - k) * r.interval;
      }
    }
  }

  /** What any schedule for these readings has to respect. */
  ghost predicate Respects(s: seq<nat>, r: Run) {
    && |s| == |r.calls|
    && (forall k :: 0 <= k < |s| ==> s[k] >= r.calls[k].now + LEAD_NS)
    && (|s| > 0 ==> s[0] >= r.first)
    && (forall k :: 0 <= k < |s| - 1 ==> s[k] + r.interval <= s[k + 1])
  }

  function Launches(r: Run): (s: seq<nat>)
    ensures |s| == |r.calls| && forall k :: 0 <= k < |s| ==> s[k] == r.At(k)
  {
    seq(|r.calls|, k requires 0 <= k < |r.calls| => r.At(k))
  }

  /** The channel's launches respect lead, first slot and spacing... */
  lemma NowOnlyRespects(r: Run)
    requires r.NowOnly()
    ensures Respects(Launches(r), r) && r.Spaced()
  {
    forall k | 0 <= k < |r.calls| - 1
      ensures r.At(k) + r.interval <= r.At(k + 1)
    {
      assert r.Next(k + 1) == r.At(k) + r.interval;
    }
    if |r.calls| > 0 {
      assert r.Next(0) == r.first;
    }
  }

  /** ... and no schedule that does so launches any frame earlier. */
  lemma {:induction false} NowOnlyLeast(r: Run, s: seq<nat>, k: nat)
    requires r.NowOnly() && Respects(s, r) && k < |s|
    ensures r.At(k) <= s[k]
  {
    if k > 0 {
      NowOnlyLeast(r, s, k - 1);
      assert s[k - 1] + r.interval <= s[k - 1 + 1];
    }
  }

  // ---------------------------------------------------------------------
  // Rate and wire occupancy

  /** The calls whose frame is launched in the closed window. */
  ghost function InWindow(r: Run, from: nat, width: nat): set<int> {
    set k | 0 <= k < |r.calls| && from <= r.At(k) <= from + width
  }

  /** Rate: a spaced run puts at most floor(W/I) + 1 frames in any window. */
  lemma WindowRate(r: Run, from: nat, width: nat)
    requires r.Spaced() && r.interval > 0
    ensures |InWindow(r, from, width)| <= width / r.interval + 1
  {
    var s := InWindow(r, from, width);
    forall i, j | i in s && j in s && i <= j
      ensures j - i <= width / r.interval
    {
      SpacedGap(r, i, j);
      Admission.QuotientBound(j - i, width, r.interval);
    }
    NarrowSet(s, width / r.interval, |r.calls|);
  }

  lemma ScaledGap(a: nat, b: nat, interval: nat, linkSpeed: nat, cost: nat)
    requires a + interval <= b && cost <= interval * linkSpeed
    ensures a * linkSpeed + cost <= b * linkSpeed
  {
  }

  /** An admitted channel driven by send-now keeps its rate in every window... */
  lemma AdmittedChannelRate(r: Run, linkSpeed: nat, sz: nat, from: nat, width: nat)
    requires linkSpeed > 0 && Admission.Admitted(linkSpeed, r.interval, sz)
    requires r.NowOnly()
    ensures |InWindow(r, from, width)| <= width / r.interval + 1
  {
    Admission.AdmittedIff(linkSpeed, r.interval, sz);
    NowOnlyRespects(r);
    WindowRate(r, from, width);
  }

  /** ... and never starts a frame while an earlier one is on the wire (times
      scaled by the link speed, so that wire time is exact). */
  lemma AdmittedFramesDisjoint(r: Run, linkSpeed: nat, sz: nat, i: nat, j: nat)
    requires linkSpeed > 0 && Admission.Admitted(linkSpeed, r.interval, sz)
    requires r.NowOnly() && i < j < |r.calls|
    ensures r.At(i) * linkSpeed + Admission.WireCost(sz) <= r.At(j) * linkSpeed
  {
    Admission.AdmittedIff(linkSpeed, r.interval, sz);
    NowOnlyRespects(r);
    SpacedStep(r, i, j);
    ScaledGap(r.At(i), r.At(j), r.interval, linkSpeed, Admission.WireCost(sz));
  }

  lemma ScaledLoad(n: nat, width: nat, interval: nat, linkSpeed: nat, cost: nat)
    requires n > 0 && (n - 1) * interval <= width && cost <= interval * linkSpeed
    ensures n * cost <= (width + interval) * linkSpeed
  {
  }

  /** Utilisation: in any window the wire is busy with the channel's frames for
      at most the window plus one interval. */
  lemma AdmittedChannelLoad(r: Run, linkSpeed: nat, sz: nat, from: nat, width: nat)
    requires linkSpeed > 0 && Admission.Admitted(linkSpeed, r.interval, sz)
    requires r.NowOnly()
    ensures |InWindow(r, from, width)| * Admission.WireCost(sz) <= (width + r.interval) * linkSpeed
  {
    Admission.AdmittedIff(linkSpeed, r.interval, sz);
    AdmittedChannelRate(r, linkSpeed, sz, from, width);
    var n := |InWindow(r, from, width)|;
    if n > 0 {
      Admission.QuotientBound(n - 1, width, r.interval);
      ScaledLoad(n, width, r.interval, linkSpeed, Admission.WireCost(sz));
    }
  }

  // ---------------------------------------------------------------------
  // Runs with caller-supplied launch times

  /** Which wishes are granted: those more than 50us ahead by less than the slot.
      Any other call launches at the slot, or 50us ahead when that is later. */
  lemma WishGranted(r: Run, k: nat)
    requires k < |r.calls|
    ensures var now, wish, slot := r.calls[k].now, r.calls[k].wish, r.Next(k);
            r.At(k) == if wish.Some? && now + 50_000 < wish.value < now + 50_000 + slot then wish.value
                       else if now + 50_000 > slot then now + 50_000 else slot
    ensures r.Next(0) == r.first && r.Next(k + 1) == r.At(k) + r.interval
  {
  }

  /** Every call of the run has a wish that is granted when the one before it
      was. */
  predicate Wishful(r: Run) {
    forall k :: 0 <= k < |r.calls| ==>
      var c := r.calls[k];
      c.wish.Some? && c.now + 50_000 < c.wish.value < c.now + 50_000 + SlotAfter(r, k)
  }

  /** The slot call `k` finds if the calls before it got their wishes. */
  function SlotAfter(r: Run, k: nat): nat
    requires k < |r.calls|
  {
    if k == 0 || r.calls[k - 1].wish.None? then r.first else r.calls[k - 1].wish.value + r.interval
  }

  /** Such a run launches exactly at its wishes. */
  lemma {:induction false} WishesGranted(r: Run, k: nat)
    requires Wishful(r) && k < |r.calls|
    ensures r.calls[k].wish == Some(r.At(k)) && r.Next(k) == SlotAfter(r, k)
  {
    if k > 0 {
      WishesGranted(r, k - 1);
    }
    WishGranted(r, k);
  }

  /** A first frame wished half a second ahead on a channel just made goes out
      when wished. */
  lemma WishExample(now: nat)
    requires now > 500_000_000
    ensures Run(now, 1_000_000, [Call(now, Some(now + 500_000_000))]).At(0) == now + 500_000_000
  {
    WishGranted(Run(now, 1_000_000, [Call(now, Some(now + 500_000_000))]), 0);
  }

  /** Every launch has its lead, and the slot always follows the last launch. */
  lemma EveryLaunchLeads(r: Run, k: nat)
    requires k < |r.calls|
    ensures r.At(k) >= r.calls[k].now + LEAD_NS
    ensures r.Next(k + 1) == r.At(k) + r.interval
    ensures r.At(k) < r.Next(k) <==> r.Undercuts(k)
  {
  }

  /** A run keeps the channel's distance exactly when no call after the first
      undercuts its slot. */
  lemma SpacedIff(r: Run)
    ensures r.Spaced() <==> forall k :: 1 <= k < |r.calls| ==> !r.Undercuts(k)
  {
    if r.Spaced() {
      forall k | 1 <= k < |r.calls|
        ensures !r.Undercuts(k)
      {
        assert r.At(k - 1) + r.interval <= r.At(k - 1 + 1);
      }
    } else {
      var k :| 0 <= k < |r.calls| - 1 && r.At(k) + r.interval > r.At(k + 1);
      EveryLaunchLeads(r, k + 1);
      assert r.Undercuts(k + 1);
    }
  }

  /** The distance is really lost: two frames one nanosecond apart on a channel
      with a one-millisecond interval. */
  lemma UndercutExample()
    ensures var r := Run(0, 1_000_000, [Call(1_000_000, None), Call(1_000_000, Some(1_050_001))]);
            r.At(0) == 1_050_000 && r.At(1) == 1_050_001 && !r.Spaced()
  {
  }
}
