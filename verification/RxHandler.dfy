/** The receive side in place: the callback table, the channels it points to
    and the dispatch between them, each method proved against the step it
    performs in `RxPath`. */
module RxHandler {
  import opened MachineInts
  import opened AvtpFrame
  import opened StreamTable
  import opened RxPath

  class RxChannel {
    const sid: nat
    const size: nat
    var pipe: seq<byte>
    var meta: seq<byte>
    var attached: bool
    var ready: bool
    var stopping: bool
    var waiting: bool
    ghost var got: seq<Sample>

    ghost function View(): Rx
      reads this
    {
      Rx(sid, size, pipe, meta, attached, ready, stopping, waiting, got)
    }

    ghost predicate Valid()
      reads this
    {
      View().WellFormed() && 1 <= size <= 1476
    }

    constructor (sid: nat, size: nat, memory: seq<byte>, ready: bool)
      requires 1 <= size <= 1476 && |memory| == META_SZ + size
      ensures Valid() && View() == NewRx(sid, size, memory, ready)
    {
      this.sid, this.size := sid, size;
      pipe, meta := [], memory;
      attached, this.ready, stopping, waiting := true, ready, false, false;
      got := [];
    }

    /** `nh_std_cb`, once the time stamps are in the callback area. */
    method StdCallback(frame: seq<byte>, hwNs: nat, ptpNs: nat) returns (rc: int)
      requires Valid() && |frame| >= HEADER_SZ + size
      modifies this
      ensures Valid() && View() == old(View()).Publish(frame, hwNs, ptpNs) && rc == 0
    {
      meta := ToLE(hwNs, 8) + ToLE(ptpNs, 8) + ToLE(StampOf(frame), 4) + meta[META_SZ..];
      meta := meta[..META_SZ] + frame[HEADER_SZ..HEADER_SZ + size];
      pipe := pipe + meta;
      rc := 0;
    }

    /** `_chan_read` up to the blocking `read`. */
    method EnterRead() returns (rc: int)
      requires Valid()
      modifies this
      ensures Valid() && View() == old(View()).Enter()
      ensures rc == -EINVAL <==> !attached || !ready || sid == 0 || stopping
      ensures rc != -EINVAL ==> rc == 0 && waiting
    {
      if !(attached && ready && sid != 0 && size > 0) || stopping {
        return -EINVAL;
      }
      waiting := true;
      rc := 0;
    }

    /** `_chan_read` from the blocking `read` on, when there are bytes; `data`
        is the caller's buffer and the stamps are those of the same record. */
    method FinishRead() returns (rc: int, data: seq<byte>, ptpNs: nat, stamp: nat)
      requires Valid() && waiting && pipe != []
      modifies this
      ensures Valid() && View() == old(View()).Finish()
      ensures rc == -EINVAL ==> got == old(got)
      ensures rc != -EINVAL ==> |got| == |old(got)| + 1
      ensures rc != -EINVAL ==> rc == (if |old(pipe)| < 20 + size then |old(pipe)| else 20 + size) > 0
      ensures rc != -EINVAL ==> data == got[|old(got)|].payload
      ensures rc != -EINVAL ==> ptpNs == got[|old(got)|].ptpNs && stamp == got[|old(got)|].stamp
    {
      var rpsz := META_SZ + size;
      var n := if |pipe| < rpsz then |pipe| else rpsz;
      meta := pipe[..n] + meta[n..];
      pipe := pipe[n..];
      waiting := false;
      data, ptpNs, stamp := [], 0, 0;
      if !(attached && ready && sid != 0 && size > 0) {
        return -EINVAL, data, ptpNs, stamp;
      }
      got := got + [Decode(meta)];
      return n, meta[META_SZ..], FromLE(meta[8..16]), FromLE(meta[16..20]);
    }

    /** The field updates of `nh_remove_rx` on a listed channel. */
    method Remove()
      requires Valid()
      modifies this`attached
      ensures Valid() && View() == old(View()).Remove() && !View().Usable()
    {
      attached := false;
    }

    /** `chan_stop` on an Rx channel, without the SRP message. */
    method Stop() returns (stopped: bool)
      requires Valid()
      modifies this
      ensures Valid() && View() == old(View()).Stop()
      ensures stopped <==> attached && !old(stopping)
    {
      if !attached {
        return false;
      }
      ready := false;
      if stopping {
        return false;
      }
      stopping := true;
      pipe := pipe + seq(size, _ => 0);
      return true;
    }
  }

  class Receiver {
    const table: CallbackTable
    var chans: seq<RxChannel>

    ghost function Views(): seq<Rx>
      reads this, chans
    {
      seq(|chans|, c requires 0 <= c < |chans| reads this, chans => chans[c].View())
    }

    ghost predicate Valid()
      reads this, chans, table, table.slots
    {
      && table.Valid()
      && (forall c :: 0 <= c < |chans| ==> chans[c].Valid())
      && (forall c, d :: 0 <= c < d < |chans| ==> chans[c] != chans[d])
      && (forall i :: 0 <= i < table.slots.Length && table.slots[i].Used? ==> table.slots[i].owner < |chans|)
    }

    ghost function View(): Handler
      reads this, chans, table, table.slots
    {
      Handler(table.slots[..], Views())
    }

    constructor (size: nat)
      requires size > 0
      ensures Valid() && fresh(table) && fresh(table.slots) && chans == []
    {
      table := new CallbackTable(size);
      chans := [];
    }

    /** `chan_create_rx`: a new channel, its callback registered under its
        stream whether or not the table has room. */
    method OpenChannel(sid: nat, size: nat, memory: seq<byte>, srp: bool)
      requires Valid() && Legal(Open(sid, size, memory, srp))
      modifies this, table, table.slots
      ensures Valid() && |chans| == |old(chans)| + 1 && fresh(chans[|old(chans)|])
      ensures chans[..|old(chans)|] == old(chans)
      ensures old(View()).WellFormed() && View() == Step(old(View()), Open(sid, size, memory, srp))
    {
      hide Lookup;
      ViewWellFormed();
      ghost var before := Views();
      ghost var reqs := table.reqs;
      var ch := new RxChannel(sid, size, memory, !srp);
      var _ := table.RegisterCallback(sid, |chans|, true);
      BuildAppend(table.slots.Length, reqs, Request(sid, |chans|));
      chans := chans + [ch];
      assert Views() == before + [NewRx(sid, size, memory, !srp)];
    }

    lemma ViewWellFormed()
      requires Valid()
      ensures View().WellFormed()
    {
    }

    /** `nh_feed_pdu_ts`: the frame goes into the pipe of the channel whose
        registration for the stream came first, and into no other; -EBADFD
        exactly when there was none. */
    method FeedPdu(frame: seq<byte>, hwNs: nat, ptpNs: nat) returns (rc: int)
      requires Valid() && Legal(Feed(frame, hwNs, ptpNs))
      modifies chans
      ensures Valid() && View().table == old(View().table) && chans == old(chans)
      ensures View() == Step(old(View()), Feed(frame, hwNs, ptpNs))
      ensures rc == if Lookup(old(View().table), StreamIdOf(frame)) >= 0 then 0 else -EBADFD
    {
      hide Encode, FromBE, Lookup;
      ViewWellFormed();
      var idx := table.FindIndex(FromBE(Slice(frame, 4, 8)));
      if idx < 0 {
        return -EBADFD;
      }
      var owner := table.slots[idx].owner;
      ghost var before := Views();
      rc := chans[owner].StdCallback(frame, hwNs, ptpNs);
      assert Views() == before[owner := before[owner].Publish(frame, hwNs, ptpNs)];
    }
  }
}
