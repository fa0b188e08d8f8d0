/** Rebuilding a 64-bit capture time from the 32-bit AVTP timestamp
    (src/netchan.c, `_chan_read`; src/ptp_getclock.c, `tai_to_avtp_ns`). */
module CaptureTime {
  import opened MachineInts

  /** `tai_to_avtp_ns`: the low word of a TAI time. */
  function AvtpStamp(taiNs: nat): nat {
    taiNs % TWO32
  }

  /** The correction added when the local low word is below the stamp.  The
      source adds 2^32 - 1. */
  const WRAP_CORRECTION: nat := TWO32 - 1

  function RebuildWith(correction: nat, recvNs: nat, stamp: nat): nat {
    var lavtp := AvtpStamp(recvNs);
    var unwrapped := if lavtp < stamp then U64(lavtp + correction) else lavtp;
    var avtpDiff := I64(unwrapped - stamp);
    U64(recvNs - avtpDiff)
  }

  /** `ptp_capture` as `_chan_read` computes it. */
  function Rebuild(recvNs: nat, stamp: nat): nat {
    RebuildWith(WRAP_CORRECTION, recvNs, stamp)
  }

  /** The low word of the receive time is below that of the capture time. */
  predicate Wrapped(capture: nat, recvNs: nat) {
    AvtpStamp(recvNs) < AvtpStamp(capture)
  }

  /** The conversions around the difference do nothing. */
  lemma SmallDiff(unwrapped: nat, stamp: nat)
    requires stamp <= unwrapped < 2 * TWO32
    ensures U64(unwrapped) == unwrapped
    ensures I64(unwrapped - stamp) == unwrapped - stamp
  {
  }

  /** Exact outcome for every pair of times, early, late or in the window:
      whole turns of the low word are lost, and a wrap costs one nanosecond. */
  lemma RebuildExact(capture: nat, recvNs: nat)
    requires capture < TWO64 && recvNs < TWO64
    ensures Rebuild(recvNs, AvtpStamp(capture)) ==
            U64(capture + TWO32 * ((recvNs - capture) / TWO32) + (if Wrapped(capture, recvNs) then 1 else 0))
  {
    var c1, c0 := capture / TWO32, capture % TWO32;
    var r1, r0 := recvNs / TWO32, recvNs % TWO32;
    assert capture == TWO32 * c1 + c0 && recvNs == TWO32 * r1 + r0;
    if r0 < c0 {
      assert (recvNs - capture) / TWO32 == r1 - c1 - 1;
      SmallDiff(r0 + WRAP_CORRECTION, c0);
    } else {
      assert (recvNs - capture) / TWO32 == r1 - c1;
      SmallDiff(r0, c0);
    }
  }

  /** With the full 2^32 as correction the wrap costs nothing. */
  lemma FullCorrectionExact(capture: nat, recvNs: nat)
    requires capture <= recvNs < capture + TWO32 && recvNs < TWO64
    ensures RebuildWith(TWO32, recvNs, AvtpStamp(capture)) == capture
  {
    var c1, c0 := capture / TWO32, capture % TWO32;
    var r1, r0 := recvNs / TWO32, recvNs % TWO32;
    assert capture == TWO32 * c1 + c0 && recvNs == TWO32 * r1 + r0;
    if r0 < c0 {
      assert r1 == c1 + 1;
      SmallDiff(r0 + TWO32, c0);
    } else {
      assert r1 == c1;
      SmallDiff(r0, c0);
    }
  }

  /** A frame read within one turn of the low word gets its capture time back,
      one nanosecond late when the low word wrapped on the way. */
  lemma RebuildInWindow(capture: nat, recvNs: nat)
    requires capture <= recvNs < capture + TWO32 && recvNs < TWO64
    ensures Rebuild(recvNs, AvtpStamp(capture)) == if Wrapped(capture, recvNs) then capture + 1 else capture
  {
    RebuildExact(capture, recvNs);
  }

  /** The capture time is recovered exactly when the frame was read within one
      turn of the low word, counted on the 64-bit clock, and that word did not
      wrap. */
  lemma RecoveredIff(capture: nat, recvNs: nat)
    requires capture < TWO64 && recvNs < TWO64
    ensures Rebuild(recvNs, AvtpStamp(capture)) == capture <==>
            U64(recvNs - capture) < TWO32 && !Wrapped(capture, recvNs)
  {
    RebuildExact(capture, recvNs);
    Turns(recvNs - capture);
    hide Rebuild;
  }

  /** Whole turns of the low word in a difference of two 64-bit times. */
  lemma Turns(diff: int)
    requires 0 - TWO64 < diff < TWO64
    ensures 0 - TWO32 <= diff / TWO32 < TWO32
    ensures U64(diff) < TWO32 <==> diff / TWO32 == 0 || diff / TWO32 == 0 - TWO32
  {
    assert U64(diff) == if diff < 0 then diff + TWO64 else diff;
  }

  /** The wrap really costs a nanosecond: a capture just below a turn. */
  lemma WrapCounterexample()
    ensures Rebuild(TWO32, AvtpStamp(TWO32 - 1)) == TWO32
  {
  }

  /** `enum stream_class`: the class delay in nanoseconds is the enum value. */
  datatype StreamClass = Tas | ClassA | ClassB

  function ClassDelayNs(sc: StreamClass): nat {
    match sc
    case Tas => 100_000
    case ClassA => 2_000_000
    case ClassB => 50_000_000
  }

  /** The wake-up time `chan_read_wait` hands to `chan_delay`. */
  function WaitTarget(sc: StreamClass, recvNs: nat, stamp: nat): nat {
    U64(Rebuild(recvNs, stamp) + ClassDelayNs(sc))
  }

  /** Inside the window the wake-up time is capture plus class delay, one
      nanosecond later after a wrap. */
  lemma TargetInWindow(sc: StreamClass, capture: nat, recvNs: nat)
    requires capture <= recvNs < capture + TWO32
    requires capture + TWO32 + ClassDelayNs(ClassB) < TWO64
    ensures WaitTarget(sc, recvNs, AvtpStamp(capture)) ==
            capture + (match sc case Tas => 100_000 case ClassA => 2_000_000 case ClassB => 50_000_000)
            + (if Wrapped(capture, recvNs) then 1 else 0)
  {
    RebuildInWindow(capture, recvNs);
    var t := Rebuild(recvNs, AvtpStamp(capture)) + ClassDelayNs(sc);
    assert 0 <= t < TWO64;
  }

  /** Two synchronised receivers of one frame wake within one nanosecond of
      each other, and at the same instant unless exactly one of them saw the
      low word wrap. */
  lemma ReceiversAgree(sc: StreamClass, capture: nat, recv1: nat, recv2: nat, t1: nat, t2: nat)
    requires capture <= recv1 < capture + TWO32 && capture <= recv2 < capture + TWO32
    requires capture + TWO32 + ClassDelayNs(ClassB) < TWO64
    requires t1 == WaitTarget(sc, recv1, AvtpStamp(capture))
    requires t2 == WaitTarget(sc, recv2, AvtpStamp(capture))
    ensures -1 <= t1 - t2 <= 1
    ensures t1 == t2 <==> Wrapped(capture, recv1) == Wrapped(capture, recv2)
  {
    TargetInWindow(sc, capture, recv1);
    TargetInWindow(sc, capture, recv2);
  }
}
