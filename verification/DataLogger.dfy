/** The logger's arrays in place (src/logger.c): parallel columns filled row by
    row and written out by rotation. */
module DataLogger {
  import opened MachineInts
  import opened AvtpFrame
  import opened LogBuffers
  import LogNames

  const BSZ: nat := 50 * 3600 * 6

  datatype Entry = Entry(sid: nat, sz: nat, seqnr: nat, avtpNs: nat, capNs: nat,
                         sendNs: nat, txNs: nat, rxNs: nat, recvNs: nat)

  datatype Delay = Delay(ptpTarget: nat, cpuTarget: nat, cpuActual: nat)

  /** `log_tx` leaves the receive columns zero... */
  function TxEntry(frame: seq<byte>, capNs: nat, sendNs: nat, txNs: nat): Entry {
    Entry(StreamIdOf(frame), DataLengthOf(frame), SeqnrOf(frame), StampOf(frame), capNs, sendNs, txNs, 0, 0)
  }

  /** ... and `log_rx` the send ones. */
  function RxEntry(frame: seq<byte>, rxNs: nat, recvNs: nat): Entry {
    Entry(StreamIdOf(frame), DataLengthOf(frame), SeqnrOf(frame), StampOf(frame), 0, 0, 0, rxNs, recvNs)
  }

  /** The columns that come from the frame are those the talker wrote. */
  lemma EntriesOfFrame(sid: nat, size: nat, seqnr: byte, stamp: nat, payload: seq<byte>, frame: seq<byte>,
                       a: nat, b: nat, c: nat)
    requires sid < TWO64 && stamp < TWO32 && size < 0x1_0000 && |payload| == size
    requires Header(sid, size, seqnr, true, stamp) + payload <= frame
    ensures TxEntry(frame, a, b, c) == Entry(sid, size, seqnr, stamp, a, b, c, 0, 0)
    ensures RxEntry(frame, a, b) == Entry(sid, size, seqnr, stamp, 0, 0, 0, a, b)
  {
    FrameRoundTrip(sid, size, seqnr, true, stamp, payload, frame);
  }

  /** `struct log_buffer`. */
  class EntryBuffer {
    var idx: nat
    const sid: array<nat>
    const sz: array<nat>
    const seqnr: array<nat>
    const avtpNs: array<nat>
    const capNs: array<nat>
    const sendNs: array<nat>
    const txNs: array<nat>
    const rxNs: array<nat>
    const recvNs: array<nat>

    ghost const Columns: set<object> := {sid, sz, seqnr, avtpNs, capNs, sendNs, txNs, rxNs, recvNs}

    ghost predicate Valid()
      reads this
    {
      && idx <= BSZ
      && sid.Length == sz.Length == seqnr.Length == avtpNs.Length == capNs.Length == BSZ
      && sendNs.Length == txNs.Length == rxNs.Length == recvNs.Length == BSZ
      && sid !in {sz, seqnr, avtpNs, capNs, sendNs, txNs, rxNs, recvNs}
      && sz !in {seqnr, avtpNs, capNs, sendNs, txNs, rxNs, recvNs}
      && seqnr !in {avtpNs, capNs, sendNs, txNs, rxNs, recvNs}
      && avtpNs !in {capNs, sendNs, txNs, rxNs, recvNs}
      && capNs !in {sendNs, txNs, rxNs, recvNs}
      && sendNs !in {txNs, rxNs, recvNs}
      && txNs !in {rxNs, recvNs}
      && rxNs != recvNs
    }

    constructor ()
      ensures Valid() && idx == 0 && fresh(Columns)
    {
      idx := 0;
      sid := new nat[BSZ];
      sz := new nat[BSZ];
      seqnr := new nat[BSZ];
      avtpNs := new nat[BSZ];
      capNs := new nat[BSZ];
      sendNs := new nat[BSZ];
      txNs := new nat[BSZ];
      rxNs := new nat[BSZ];
      recvNs := new nat[BSZ];
    }

    /** One row across all columns. */
    function Row(i: nat): Entry
      requires Valid() && i < BSZ
      reads this, Columns
    {
      Entry(sid[i], sz[i], seqnr[i], avtpNs[i], capNs[i], sendNs[i], txNs[i], rxNs[i], recvNs[i])
    }

    ghost function Live(): (rows: seq<Entry>)
      requires Valid()
      reads this, Columns
      ensures |rows| == idx && forall i :: 0 <= i < idx ==> rows[i] == Row(i)
    {
      seq(idx, i requires 0 <= i < idx && Valid() reads this, Columns => Row(i))
    }

    /** The row update of `_log`, below capacity. */
    method Append(e: Entry)
      requires Valid() && idx < BSZ
      modifies this, Columns
      ensures Valid() && Live() == old(Live()) + [e]
    {
      sid[idx] := e.sid;
      sz[idx] := e.sz;
      seqnr[idx] := e.seqnr;
      avtpNs[idx] := e.avtpNs;
      capNs[idx] := e.capNs;
      sendNs[idx] := e.sendNs;
      txNs[idx] := e.txNs;
      rxNs[idx] := e.rxNs;
      recvNs[idx] := e.recvNs;
      idx := idx + 1;
      assert forall i :: 0 <= i < idx - 1 ==> Row(i) == old(Row(i));
    }

    /** The print loop of `_flush_ts`. */
    method Lines() returns (rows: seq<Entry>)
      requires Valid()
      ensures rows == Live()
    {
      rows := [];
      for i := 0 to idx
        invariant rows == Live()[..i]
      {
        rows := rows + [Row(i)];
      }
    }
  }

  /** `struct wakeup_delay_buffer`. */
  class DelayBuffer {
    var idx: nat
    const ptpTarget: array<nat>
    const cpuTarget: array<nat>
    const cpuActual: array<nat>

    ghost const Columns: set<object> := {ptpTarget, cpuTarget, cpuActual}

    ghost predicate Valid()
      reads this
    {
      && idx <= BSZ
      && ptpTarget.Length == cpuTarget.Length == cpuActual.Length == BSZ
      && ptpTarget != cpuTarget && ptpTarget != cpuActual && cpuTarget != cpuActual
    }

    constructor ()
      ensures Valid() && idx == 0 && fresh(Columns)
    {
      idx := 0;
      ptpTarget := new nat[BSZ];
      cpuTarget := new nat[BSZ];
      cpuActual := new nat[BSZ];
    }

    function Row(i: nat): Delay
      requires Valid() && i < BSZ
      reads this, Columns
    {
      Delay(ptpTarget[i], cpuTarget[i], cpuActual[i])
    }

    ghost function Live(): (rows: seq<Delay>)
      requires Valid()
      reads this, Columns
      ensures |rows| == idx && forall i :: 0 <= i < idx ==> rows[i] == Row(i)
    {
      seq(idx, i requires 0 <= i < idx && Valid() reads this, Columns => Row(i))
    }

    /** The row update of `log_wakeup_delay`, below capacity. */
    method Append(d: Delay)
      requires Valid() && idx < BSZ
      modifies this, Columns
      ensures Valid() && Live() == old(Live()) + [d]
    {
      ptpTarget[idx] := d.ptpTarget;
      cpuTarget[idx] := d.cpuTarget;
      cpuActual[idx] := d.cpuActual;
      idx := idx + 1;
      assert forall i :: 0 <= i < idx - 1 ==> Row(i) == old(Row(i));
    }

    /** The print loop of `_flush_wakeup_delay`. */
    method Lines() returns (rows: seq<Delay>)
      requires Valid()
      ensures rows == Live()
    {
      rows := [];
      for i := 0 to idx
        invariant rows == Live()[..i]
      {
        rows := rows + [Row(i)];
      }
    }
  }

  /** `struct logc`.  Its two buffers share the mutex and the file counter. */
  class Logger {
    const lb: EntryBuffer
    const wdb: DelayBuffer
    var flushCtr: nat
    var tsFiles: map<nat, seq<Entry>>
    var delayFiles: map<nat, seq<Delay>>

    // The calls so far, as each of the two buffers sees them.
    ghost var tsOps: seq<Op<Entry>>
    ghost var delayOps: seq<Op<Delay>>

    ghost predicate Shape()
      reads this, lb, wdb
    {
      && lb.Valid() && wdb.Valid()
      && {this as object, lb, wdb} !! lb.Columns + wdb.Columns
      && lb.Columns !! wdb.Columns
    }

    ghost function TsView(): Buf<Entry>
      requires Shape()
      reads this, lb, wdb, lb.Columns
    {
      Buf(lb.Live(), tsFiles, flushCtr)
    }

    ghost function DelayView(): Buf<Delay>
      requires Shape()
      reads this, lb, wdb, wdb.Columns
    {
      Buf(wdb.Live(), delayFiles, flushCtr)
    }

    /** The columns and files are what the calls so far prescribe. */
    ghost predicate Valid()
      reads this, lb, wdb, lb.Columns, wdb.Columns
    {
      Shape() && TsView() == Exec(tsOps) && DelayView() == Exec(delayOps)
    }

    constructor ()
      ensures Valid() && tsOps == [] && delayOps == []
      ensures fresh(lb) && fresh(wdb) && fresh(lb.Columns) && fresh(wdb.Columns)
    {
      lb := new EntryBuffer();
      wdb := new DelayBuffer();
      flushCtr, tsFiles, delayFiles := 0, map[], map[];
      tsOps, delayOps := [], [];
    }

    /** Conservation on the object: at any time the files, in order of their
        numbers, and the live rows are what was logged, exactly when nothing was
        live at a reset or at a rotation whose file could not be opened. */
    lemma Conserved()
      requires Valid()
      ensures Written(tsFiles, flushCtr) + lb.Live() == Logged(tsOps) <==> Lost(tsOps) == 0
      ensures Written(delayFiles, flushCtr) + wdb.Live() == Logged(delayOps) <==> Lost(delayOps) == 0
    {
      ConservedIff(tsOps);
      ConservedIff(delayOps);
    }

    /** On disk is what the rotations wrote, exactly when no file name was used
        for two contents. */
    lemma FilesOnDisk(path: string)
      requires Valid()
      ensures LogNames.AllKept(LogNames.Writes(path, tsFiles, delayFiles, flushCtr)) <==>
              LogNames.NamesAgree(path, tsFiles) && LogNames.NamesAgree(LogNames.DelayPath(path), delayFiles) &&
              (tsFiles == map[] || delayFiles == map[] || |path| < LogNames.NAME_SZ - 1)
    {
      hide Exec, LogNames.Writes, LogNames.AllKept, LogNames.NamesAgree, LogNames.DelayPath;
      hide EntryBuffer.Valid, EntryBuffer.Live, DelayBuffer.Valid, DelayBuffer.Live;
      assert Exec(tsOps).files == tsFiles && Exec(delayOps).files == delayFiles;
      LogNames.OnDiskIff(path, tsOps, delayOps);
    }

    ghost method Record(x: Op<Entry>, y: Op<Delay>)
      requires Shape() && TsView() == Apply(Exec(tsOps), x) && DelayView() == Apply(Exec(delayOps), y)
      modifies this`tsOps, this`delayOps
      ensures Valid() && tsOps == old(tsOps) + [x] && delayOps == old(delayOps) + [y]
    {
      hide Exec, Apply, EntryBuffer.Valid, EntryBuffer.Live, DelayBuffer.Valid, DelayBuffer.Live;
      ExecAppend(tsOps, x);
      ExecAppend(delayOps, y);
      tsOps := tsOps + [x];
      delayOps := delayOps + [y];
    }

    /** `_log`.  A full buffer is where the source locks a mutex it already
        holds; nothing is stored then. */
    method Log(e: Entry) returns (deadlock: bool)
      requires Valid()
      modifies lb, lb.Columns, this`tsOps, this`delayOps
      ensures Valid() && (deadlock <==> |Exec(old(tsOps)).live| == 1_080_000)
      ensures tsOps == old(tsOps) + [if deadlock then Other else Put(e)] && delayOps == old(delayOps) + [Other]
    {
      hide Exec;
      deadlock := lb.idx >= BSZ;
      if !deadlock {
        lb.Append(e);
      }
      Record(if deadlock then Other else Put(e), Other);
    }

    /** `log_wakeup_delay`. */
    method LogDelay(d: Delay) returns (deadlock: bool)
      requires Valid()
      modifies wdb, wdb.Columns, this`tsOps, this`delayOps
      ensures Valid() && (deadlock <==> |Exec(old(delayOps)).live| == 1_080_000)
      ensures tsOps == old(tsOps) + [Other] && delayOps == old(delayOps) + [if deadlock then Other else Put(d)]
    {
      hide Exec;
      deadlock := wdb.idx >= BSZ;
      if !deadlock {
        wdb.Append(d);
      }
      Record(Other, if deadlock then Other else Put(d));
    }

    /** `_flush_ts`. */
    method FlushTs(fileOk: bool)
      requires lb.Valid()
      modifies this`tsFiles
      ensures tsFiles == if lb.Live() != [] && fileOk then old(tsFiles)[flushCtr := lb.Live()] else old(tsFiles)
    {
      if lb.idx == 0 {
        return;
      }
      if fileOk {
        var rows := lb.Lines();
        tsFiles := tsFiles[flushCtr := rows];
      }
    }

    /** `_flush_wakeup_delay`. */
    method FlushWakeupDelay(fileOk: bool)
      requires wdb.Valid()
      modifies this`delayFiles
      ensures delayFiles ==
              if wdb.Live() != [] && fileOk then old(delayFiles)[flushCtr := wdb.Live()] else old(delayFiles)
    {
      if wdb.idx == 0 {
        return;
      }
      if fileOk {
        var rows := wdb.Lines();
        delayFiles := delayFiles[flushCtr := rows];
      }
    }

    /** `_log_reset`. */
    method ClearRows()
      requires Shape()
      modifies lb`idx, wdb`idx
      ensures Shape() && TsView() == Apply(old(TsView()), Reset) && DelayView() == Apply(old(DelayView()), Reset)
    {
      lb.idx := 0;
      wdb.idx := 0;
    }

    /** `log_reset`. */
    method ResetLog()
      requires Valid()
      modifies lb`idx, wdb`idx, this`tsOps, this`delayOps
      ensures Valid() && tsOps == old(tsOps) + [Reset] && delayOps == old(delayOps) + [Reset]
    {
      hide Exec;
      ClearRows();
      Record(Reset, Reset);
    }

    method Rotated(tsOk: bool, delayOk: bool)
      requires Shape()
      modifies this`tsFiles, this`delayFiles, this`flushCtr, lb`idx, wdb`idx
      ensures Shape()
      ensures TsView() == Apply(old(TsView()), Rotate(tsOk))
      ensures DelayView() == Apply(old(DelayView()), Rotate(delayOk))
    {
      hide EntryBuffer.Row, DelayBuffer.Row, EntryBuffer.Live, DelayBuffer.Live;
      FlushTs(tsOk);
      FlushWakeupDelay(delayOk);
      assert lb.Live() == old(lb.Live()) && wdb.Live() == old(wdb.Live());
      flushCtr := flushCtr + 1;
      ClearRows();
    }

    /** `log_flush_and_rotate`; the parameters say whether the files open. */
    method FlushAndRotate(tsOk: bool, delayOk: bool)
      requires Valid()
      modifies this, lb`idx, wdb`idx
      ensures Valid() && tsOps == old(tsOps) + [Rotate(tsOk)] && delayOps == old(delayOps) + [Rotate(delayOk)]
    {
      hide Exec, Apply;
      Rotated(tsOk, delayOk);
      Record(Rotate(tsOk), Rotate(delayOk));
    }
  }
}
