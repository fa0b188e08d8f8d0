/** Which channels may exist (src/netchan.c, `_valid_size`, `_valid_interval`
    and the frame size `_chan_create` stores).  The floating-point comparisons
    of the source are written as exact integer ones. */
module Admission {

  const NS_IN_HOUR: nat := 3600 * 1_000_000_000

  const AVTP_HEADER_SZ: nat := 24
  const ETH_HEADER_SZ: nat := 14
  const VLAN_TAG_SZ: nat := 4

  // Layer 1 cost of a frame, as `_chan_create` adds it up.
  const PREAMBLE_SZ: nat := 7
  const SFD_SZ: nat := 1
  const CRC_SZ: nat := 4
  const IPG_SZ: nat := 12
  const L1_SZ: nat := PREAMBLE_SZ + SFD_SZ + CRC_SZ + IPG_SZ

  const MTU: nat := 1522

  /** `_valid_size`. */
  predicate ValidSize(sz: nat) {
    sz != 0 && !(sz + 24 + 22 > MTU)
  }

  /** `_valid_interval`, for a link speed in bit/s. */
  predicate ValidInterval(linkSpeed: nat, intervalNs: nat, sz: nat)
    requires linkSpeed > 0
  {
    var minSz := 8 * (AVTP_HEADER_SZ + 22 + 12 + 7 + 1);
    var txSz := minSz + sz * 8;
    var nsToTx := minSz * 1_000_000_000 / linkSpeed;
    if intervalNs <= nsToTx then false
    else if intervalNs >= NS_IN_HOUR then false
    else if txSz * 1_000_000_000 > intervalNs * linkSpeed then false
    else true
  }

  /** The attribute test of `_chan_create`. */
  predicate Admitted(linkSpeed: nat, intervalNs: nat, sz: nat)
    requires linkSpeed > 0
  {
    ValidSize(sz) && ValidInterval(linkSpeed, intervalNs, sz)
  }

  /** `full_size`, a `uint16_t`. */
  function FullSize(sz: nat): nat {
    (L1_SZ + ETH_HEADER_SZ + VLAN_TAG_SZ + AVTP_HEADER_SZ + sz) % 0x1_0000
  }

  /** Time on the wire, in units of 1/linkSpeed nanoseconds, of the frame whose
      size `full_size` records. */
  function WireCost(sz: nat): nat {
    FullSize(sz) * 8 * 1_000_000_000
  }

  lemma QuotientBound(a: nat, x: nat, d: nat)
    requires d > 0
    ensures a <= x / d <==> a * d <= x
  {
    var q := x / d;
    assert q * d <= x < (q + 1) * d;
    if a <= q {
      assert a * d <= q * d;
    } else {
      assert (q + 1) * d <= a * d;
    }
  }

  /** Admission says exactly this: the payload fits a frame, the frame recorded
      in `full_size` (not cut off by its 16 bits) goes out within one interval,
      and the interval is below an hour.  The separate lower limit on the
      interval never decides. */
  lemma AdmittedIff(linkSpeed: nat, intervalNs: nat, sz: nat)
    requires linkSpeed > 0
    ensures Admitted(linkSpeed, intervalNs, sz) <==>
            1 <= sz <= 1476 && intervalNs < 3_600_000_000_000 && WireCost(sz) <= intervalNs * linkSpeed
    ensures sz <= 1476 ==> WireCost(sz) == (66 + sz) * 8_000_000_000
    ensures Admitted(linkSpeed, intervalNs, sz) ==> FullSize(sz) == 66 + sz && intervalNs > 0
  {
    QuotientBound(intervalNs, 528 * 1_000_000_000, linkSpeed);
    if sz <= 1476 {
      assert FullSize(sz) == 66 + sz;
      assert WireCost(sz) == (528 + 8 * sz) * 1_000_000_000;
    }
  }
}
