/** The frame a talker builds (src/netchan.c, `_chan_avtpdu_init` and
    `chan_update`; include/netchan.h, `struct avtpdu_cshdr`) and what a receiver
    reads out of it. */
module AvtpFrame {
  import opened MachineInts

  const HEADER_SZ: nat := 24
  const AVTP_SUBTYPE_NETCHAN: byte := 0x7F

  // Second header byte: stream-ID-valid is the top bit, timestamp-valid the lowest.
  const SV_BIT: byte := 0x80
  const TV_BIT: byte := 0x01

  function Header(sid: nat, size: nat, seqnr: byte, tv: bool, stamp: nat): (h: seq<byte>)
    ensures |h| == HEADER_SZ
  {
    [AVTP_SUBTYPE_NETCHAN, if tv then SV_BIT + TV_BIT else SV_BIT, seqnr, 0]
    + ToBE(sid, 8) + ToBE(stamp, 4) + [0, 0, 0, 0] + ToBE(size, 2) + [0, 0]
  }

  function Slice(s: seq<byte>, from: nat, len: nat): seq<byte> {
    if from + len <= |s| then s[from..from + len] else []
  }

  function StreamIdOf(frame: seq<byte>): nat {
    FromBE(Slice(frame, 4, 8))
  }

  function StampOf(frame: seq<byte>): nat {
    FromBE(Slice(frame, 12, 4))
  }

  function DataLengthOf(frame: seq<byte>): nat {
    FromBE(Slice(frame, 20, 2))
  }

  function SeqnrOf(frame: seq<byte>): byte {
    if |frame| > 2 then frame[2] else 0
  }

  /** `size` bytes behind the header, whatever the frame says its length is. */
  function BodyOf(frame: seq<byte>, size: nat): seq<byte> {
    Slice(frame, HEADER_SZ, size)
  }

  lemma HeaderParts(sid: nat, size: nat, seqnr: byte, tv: bool, stamp: nat)
    ensures var h := Header(sid, size, seqnr, tv, stamp);
            h[0] == AVTP_SUBTYPE_NETCHAN && h[1] == (if tv then SV_BIT + TV_BIT else SV_BIT) &&
            h[2] == seqnr && h[4..12] == ToBE(sid, 8) && h[12..16] == ToBE(stamp, 4) && h[20..22] == ToBE(size, 2) &&
            h[3] == 0 && h[16..20] == [0, 0, 0, 0] && h[22..24] == [0, 0]
  {
  }

  /** A receiver with matching attributes gets every field back, also from a
      buffer with more bytes behind the frame. */
  lemma FrameRoundTrip(sid: nat, size: nat, seqnr: byte, tv: bool, stamp: nat, payload: seq<byte>, f: seq<byte>)
    requires sid < TWO64 && stamp < TWO32 && size < 0x1_0000 && |payload| == size
    requires Header(sid, size, seqnr, tv, stamp) + payload <= f
    ensures StreamIdOf(f) == sid && StampOf(f) == stamp && SeqnrOf(f) == seqnr
    ensures DataLengthOf(f) == size && BodyOf(f, size) == payload
    ensures f[0] == 0x7F && f[1] / 128 == 1 && (f[1] % 2 == 1 <==> tv)
  {
    var h := Header(sid, size, seqnr, tv, stamp);
    assert f[..HEADER_SZ] == h;
    HeaderParts(sid, size, seqnr, tv, stamp);
    assert Slice(f, 4, 8) == h[4..12];
    assert Slice(f, 12, 4) == h[12..16];
    assert Slice(f, 20, 2) == h[20..22];
    Pow256Values();
    BERoundTrip(sid, 8);
    BERoundTrip(stamp, 4);
    BERoundTrip(size, 2);
  }

  datatype Update = Update(ts: nat, data: seq<byte>)

  /** The frame a talker sends after its update `k`. */
  function TalkerFrame(sid: nat, size: nat, updates: seq<Update>, k: nat): seq<byte>
    requires k < |updates|
  {
    Header(sid, size, k % 256, true, updates[k].ts % TWO32) + updates[k].data
  }

  /** The PDU part of a Tx channel. */
  class TxPdu {
    const sid: nat
    const size: nat
    var seqnr: byte
    var tv: bool
    var stamp: nat
    var payload: seq<byte>

    ghost var updates: seq<Update>

    ghost predicate Valid()
      reads this
    {
      && sid < TWO64 && size < 0x1_0000 && |payload| == size && stamp < TWO32
      && seqnr == (255 + |updates|) % 256
      && (updates != [] ==>
           var last := updates[|updates| - 1];
           tv && stamp == last.ts % TWO32 && payload == last.data)
    }

    constructor (sid: nat, size: nat)
      requires sid < TWO64 && size < 0x1_0000
      ensures Valid() && this.sid == sid && this.size == size && updates == []
    {
      this.sid := sid;
      this.size := size;
      seqnr := 0xff;
      tv := false;
      stamp := 0;
      payload := seq(size, _ => 0);
      updates := [];
    }

    function Frame(): seq<byte>
      reads this
    {
      Header(sid, size, seqnr, tv, stamp) + payload
    }

    /** A receiver finds in the frame what the last update put there. */
    lemma FrameCarries()
      requires Valid()
      ensures StreamIdOf(Frame()) == sid && StampOf(Frame()) == stamp && SeqnrOf(Frame()) == seqnr
      ensures DataLengthOf(Frame()) == size && BodyOf(Frame(), size) == payload
    {
      FrameRoundTrip(sid, size, seqnr, tv, stamp, payload, Frame());
    }

    /** After any updates the frame is that of the last one. */
    lemma FrameOfLast()
      requires Valid() && updates != []
      ensures Frame() == TalkerFrame(sid, size, updates, |updates| - 1)
    {
    }

    /** `chan_update`.  The k-th success carries sequence number (k - 1) mod 256
        (section 4.4.4.6 of IEEE 1722-2016), the low word of the capture time
        and the data; a failure leaves the frame alone. */
    method UpdatePayload(valid: bool, ts: nat, data: Option<seq<byte>>) returns (rc: int)
      requires Valid()
      requires data.Some? ==> |data.value| == size
      modifies this
      ensures Valid()
      ensures rc == 0 <==> valid && data.Some?
      ensures rc == 0 ==> updates == old(updates) + [Update(ts, data.value)]
      ensures rc == 0 ==> seqnr == |old(updates)| % 256 && stamp == ts % TWO32 && payload == data.value
      ensures rc != 0 ==> rc == -ENOMEM && Frame() == old(Frame()) && updates == old(updates)
    {
      hide Header;
      if !valid {
        return -ENOMEM;
      }
      if data.None? {
        return -ENOMEM;
      }
      seqnr := (seqnr + 1) % 256;
      stamp := ts % TWO32;
      tv := true;
      payload := data.value;
      updates := updates + [Update(ts, data.value)];
      return 0;
    }
  }
}
