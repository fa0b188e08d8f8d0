/** The names of the log files (src/logger.c, `log_flush_and_rotate`) and what is
    left on disk under them. */
module LogNames {
  import opened MrpText
  import opened MrpStream
  import opened LogBuffers

  const NAME_SZ: nat := 255

  /** The delay log's path. */
  function DelayPath(path: string): string {
    path + "_d"
  }

  /** The file of rotation `k` of a log. */
  function FileName(path: string, k: nat): string {
    Snprintf(NAME_SZ, path + "-" + Dec(k))
  }

  predicate NamesDiffer(path: string, i: nat, j: nat) {
    FileName(path, i) != FileName(path, j)
  }

  /** The whole name of rotation `k` fits. */
  predicate Fits(path: string, k: nat) {
    |path| + 1 + |Dec(k)| < NAME_SZ
  }

  lemma {:induction false} LongerNumber(i: nat, k: nat)
    requires i <= k
    ensures |Dec(i)| <= |Dec(k)|
  {
    if i >= 10 {
      LongerNumber(i / 10, k / 10);
    }
  }

  /** A cut name is that of the number without its last digit. */
  lemma CutName(path: string, k: nat)
    requires k > 0 && !Fits(path, k)
    ensures !NamesDiffer(path, k / 10, k)
  {
    var room := NAME_SZ - 1;
    if k >= 10 {
      assert Dec(k)[..|Dec(k)| - 1] == Dec(k / 10);
      assert (path + "-" + Dec(k))[..room] == (path + "-" + Dec(k / 10))[..room];
    } else {
      assert |Dec(0)| == 1;
      assert (path + "-" + Dec(k))[..room] == (path + "-" + Dec(0))[..room];
    }
  }

  lemma FullNamesDiffer(path: string, i: nat, j: nat)
    requires i != j && Fits(path, i) && Fits(path, j)
    ensures NamesDiffer(path, i, j)
  {
    var a, b := path + "-" + Dec(i), path + "-" + Dec(j);
    if a == b {
      assert a[|path| + 1..] == Dec(i) && b[|path| + 1..] == Dec(j);
      NumberValue(i, 10, false);
      NumberValue(j, 10, false);
    }
  }

  /** Rotations 0 to `k` all write different files exactly when the name of
      rotation `k` fits; else two of them write the same file. */
  lemma NamesDifferIff(path: string, k: nat)
    requires k > 0
    ensures (forall i, j :: 0 <= i < j <= k ==> NamesDiffer(path, i, j)) <==> Fits(path, k)
  {
    if Fits(path, k) {
      forall i, j | 0 <= i < j <= k
        ensures NamesDiffer(path, i, j)
      {
        LongerNumber(i, k);
        LongerNumber(j, k);
        FullNamesDiffer(path, i, j);
      }
    } else {
      CutName(path, k);
    }
  }

  /** The two logs never write the same file, at whatever rotations, exactly for
      paths below 254 characters; from there on they always do. */
  lemma LogsDifferIff(path: string, i: nat, j: nat)
    ensures FileName(path, i) != FileName(DelayPath(path), j) <==> |path| < NAME_SZ - 1
  {
    var a, b := path + "-" + Dec(i), DelayPath(path) + "-" + Dec(j);
    if |path| < NAME_SZ - 1 {
      assert a[|path|] == '-' && b[|path|] == '_';
      assert FileName(path, i)[|path|] == '-' && FileName(DelayPath(path), j)[|path|] == '_';
    } else {
      assert a[..NAME_SZ - 1] == path[..NAME_SZ - 1] == b[..NAME_SZ - 1];
    }
  }

  /** All files of both logs up to rotation `k` are different. */
  ghost predicate AllDiffer(path: string, k: nat) {
    && (forall i, j :: 0 <= i < j <= k ==> NamesDiffer(path, i, j))
    && (forall i, j :: 0 <= i < j <= k ==> NamesDiffer(DelayPath(path), i, j))
    && (forall i, j :: 0 <= i <= k && 0 <= j <= k ==> FileName(path, i) != FileName(DelayPath(path), j))
  }

  /** They are exactly when the longest name, the delay log's last, fits. */
  lemma AllDifferIff(path: string, k: nat)
    requires k > 0
    ensures AllDiffer(path, k) <==> Fits(DelayPath(path), k)
  {
    NamesDifferIff(path, k);
    NamesDifferIff(DelayPath(path), k);
    forall i: nat, j: nat
      ensures FileName(path, i) != FileName(DelayPath(path), j) <==> |path| < NAME_SZ - 1
    {
      LogsDifferIff(path, i, j);
    }
  }

  /** With a path of 253 characters the second rotation overwrites the first; with
      254 the delay log overwrites the entries at the very first rotation. */
  lemma OverwrittenExample(path: string)
    ensures |path| == 253 ==> FileName(path, 0) == FileName(path, 1)
    ensures |path| == 254 ==> FileName(path, 0) == FileName(DelayPath(path), 0)
  {
    if |path| == 253 {
      CutName(path, 1);
    }
    LogsDifferIff(path, 0, 0);
  }

  // ---------------------------------------------------------------------
  // On disk

  datatype File<A, B> = Rows(rows: seq<A>) | Delays(delays: seq<B>)

  datatype Write<A, B> = Write(name: string, file: File<A, B>)

  /** What the rotations before `k` write: at each the entries, if there is a file
      of that number, then the delays. */
  function Writes<A, B>(path: string, ts: map<nat, seq<A>>, ds: map<nat, seq<B>>, k: nat): seq<Write<A, B>> {
    if k == 0 then []
    else
      var m := k - 1;
      Writes(path, ts, ds, m)
      + (if m in ts then [Write(FileName(path, m), Rows(ts[m]))] else [])
      + (if m in ds then [Write(FileName(DelayPath(path), m), Delays(ds[m]))] else [])
  }

  /** What is on disk after some writes. */
  function Disk<A, B>(ws: seq<Write<A, B>>): map<string, File<A, B>> {
    if ws == [] then map[]
    else
      var last := ws[|ws| - 1];
      Disk(ws[..|ws| - 1])[last.name := last.file]
  }

  /** No two writes put different files under one name. */
  ghost predicate Agreeing<A(!new), B(!new)>(ws: seq<Write<A, B>>) {
    forall v, w :: v in ws && w in ws && v.name == w.name ==> v.file == w.file
  }

  predicate Kept<A(==), B(==)>(ws: seq<Write<A, B>>, w: Write<A, B>) {
    w.name in Disk(ws) && Disk(ws)[w.name] == w.file
  }

  /** All that was written is still there. */
  ghost predicate AllKept<A(!new), B(!new)>(ws: seq<Write<A, B>>) {
    forall w :: w in ws ==> Kept(ws, w)
  }

  /** A name holds the last file written under it. */
  lemma {:induction false} LastIsKept<A, B>(ws: seq<Write<A, B>>, i: nat) returns (l: nat)
    requires i < |ws|
    ensures i <= l < |ws| && ws[l].name == ws[i].name && Kept(ws, ws[l])
  {
    var last := |ws| - 1;
    if ws[last].name == ws[i].name {
      l := last;
    } else {
      l := LastIsKept(ws[..last], i);
    }
  }

  /** All that was written is still there exactly when no two writes put
      different files under one name. */
  lemma AllKeptIff<A(!new), B(!new)>(ws: seq<Write<A, B>>)
    ensures AllKept(ws) <==> Agreeing(ws)
  {
    if Agreeing(ws) {
      forall w | w in ws
        ensures Kept(ws, w)
      {
        var i :| 0 <= i < |ws| && ws[i] == w;
        var l := LastIsKept(ws, i);
        assert ws[l] in ws && ws[l].file == w.file;
      }
    } else {
      var v, w :| v in ws && w in ws && v.name == w.name && v.file != w.file;
      assert !(Kept(ws, v) && Kept(ws, w));
    }
  }

  lemma {:induction false} WritesAre<A, B>(path: string, ts: map<nat, seq<A>>, ds: map<nat, seq<B>>, k: nat,
                                           w: Write<A, B>)
    ensures w in Writes(path, ts, ds, k) <==>
            (exists m :: 0 <= m < k && m in ts && w == Write(FileName(path, m), Rows(ts[m]))) ||
            (exists m :: 0 <= m < k && m in ds && w == Write(FileName(DelayPath(path), m), Delays(ds[m])))
  {
    hide FileName;
    if k > 0 {
      WritesAre(path, ts, ds, k - 1, w);
    }
  }

  /** Files of one name have one content. */
  ghost predicate NamesAgree<T(!new)>(path: string, files: map<nat, seq<T>>) {
    forall i, j :: i in files && j in files && !NamesDiffer(path, i, j) ==> files[i] == files[j]
  }

  lemma IsWritten<A, B>(path: string, ts: map<nat, seq<A>>, ds: map<nat, seq<B>>, k: nat, m: nat)
    requires m < k
    ensures m in ts ==> Write(FileName(path, m), Rows(ts[m])) in Writes(path, ts, ds, k)
    ensures m in ds ==> Write(FileName(DelayPath(path), m), Delays(ds[m])) in Writes(path, ts, ds, k)
  {
    hide FileName;
    if m in ts {
      WritesAre(path, ts, ds, k, Write(FileName(path, m), Rows(ts[m])));
    }
    if m in ds {
      WritesAre(path, ts, ds, k, Write(FileName(DelayPath(path), m), Delays(ds[m])));
    }
  }

  /** The writes agree exactly when each log's do and the logs share no name. */
  lemma WritesAgreeIff<A(!new), B(!new)>(path: string, ts: map<nat, seq<A>>, ds: map<nat, seq<B>>, k: nat)
    requires (forall m :: m in ts ==> m < k) && (forall m :: m in ds ==> m < k)
    ensures Agreeing(Writes(path, ts, ds, k)) <==>
            NamesAgree(path, ts) && NamesAgree(DelayPath(path), ds) &&
            (ts == map[] || ds == map[] || |path| < NAME_SZ - 1)
  {
    hide FileName, Writes;
    forall i: nat, j: nat
      ensures FileName(path, i) != FileName(DelayPath(path), j) <==> |path| < NAME_SZ - 1
    {
      LogsDifferIff(path, i, j);
    }
    if Agreeing(Writes(path, ts, ds, k)) {
      AgreeingNames(path, ts, ds, k);
    } else {
      var ws := Writes(path, ts, ds, k);
      var v, w :| v in ws && w in ws && v.name == w.name && v.file != w.file;
      WritesAre(path, ts, ds, k, v);
      WritesAre(path, ts, ds, k, w);
    }
  }

  lemma AgreeingNames<A(!new), B(!new)>(path: string, ts: map<nat, seq<A>>, ds: map<nat, seq<B>>, k: nat)
    requires (forall m :: m in ts ==> m < k) && (forall m :: m in ds ==> m < k)
    requires Agreeing(Writes(path, ts, ds, k))
    ensures NamesAgree(path, ts) && NamesAgree(DelayPath(path), ds)
    ensures forall i, j :: i in ts && j in ds ==> FileName(path, i) != FileName(DelayPath(path), j)
  {
    hide FileName, Writes;
    forall m: nat | m < k
      ensures m in ts ==> Write(FileName(path, m), Rows(ts[m])) in Writes(path, ts, ds, k)
      ensures m in ds ==> Write(FileName(DelayPath(path), m), Delays(ds[m])) in Writes(path, ts, ds, k)
    {
      IsWritten(path, ts, ds, k, m);
    }
  }

  /** The writes of both logs after their calls so far. */
  function LogWrites<A, B>(path: string, tsOps: seq<Op<A>>, delayOps: seq<Op<B>>): seq<Write<A, B>> {
    Writes(path, Exec(tsOps).files, Exec(delayOps).files, Exec(tsOps).rotations)
  }

  /** After any run of a logger every file, of either log, is on disk as it was
      written exactly when, in each log, files of one name have one content, and
      not both logs have files under a path of 254 characters or more... */
  lemma OnDiskIff<A(!new), B(!new)>(path: string, tsOps: seq<Op<A>>, delayOps: seq<Op<B>>)
    requires Exec(tsOps).rotations == Exec(delayOps).rotations
    ensures var ts, ds := Exec(tsOps).files, Exec(delayOps).files;
            AllKept(LogWrites(path, tsOps, delayOps)) <==>
            NamesAgree(path, ts) && NamesAgree(DelayPath(path), ds) &&
            (ts == map[] || ds == map[] || |path| < NAME_SZ - 1)
  {
    hide Writes, AllKept, Agreeing;
    FilesBelowCounter(tsOps);
    FilesBelowCounter(delayOps);
    AllKeptIff(LogWrites(path, tsOps, delayOps));
    WritesAgreeIff(path, Exec(tsOps).files, Exec(delayOps).files, Exec(tsOps).rotations);
  }

  /** ... and so whenever the delay log's last name fits. */
  lemma OnDiskIfFits<A(!new), B(!new)>(path: string, tsOps: seq<Op<A>>, delayOps: seq<Op<B>>)
    requires Exec(tsOps).rotations == Exec(delayOps).rotations > 1
    requires Fits(DelayPath(path), Exec(tsOps).rotations - 1)
    ensures AllKept(LogWrites(path, tsOps, delayOps))
  {
    hide LogWrites, AllKept;
    FilesBelowCounter(tsOps);
    FilesBelowCounter(delayOps);
    var k := Exec(tsOps).rotations;
    AllDifferIff(path, k - 1);
    DifferentAgree(path, Exec(tsOps).files, k);
    DifferentAgree(DelayPath(path), Exec(delayOps).files, k);
    OnDiskIff(path, tsOps, delayOps);
  }

  lemma DifferentAgree<T(!new)>(path: string, files: map<nat, seq<T>>, k: nat)
    requires forall m :: m in files ==> m < k
    requires forall i, j :: 0 <= i < j < k ==> NamesDiffer(path, i, j)
    ensures NamesAgree(path, files)
  {
    forall i, j | 0 <= i < k && 0 <= j < k && i != j
      ensures NamesDiffer(path, i, j)
    {
      assert if i < j then NamesDiffer(path, i, j) else NamesDiffer(path, j, i);
    }
  }
}
