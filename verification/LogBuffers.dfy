/** The data logger (src/logger.c): column buffers that are rotated into
    numbered files. */
module LogBuffers {

  // ---------------------------------------------------------------------
  // One buffer and its files, as values

  /** `files` are the files written so far by number; `rotations` is
      `flush_ctr`. */
  datatype Buf<T> = Buf(live: seq<T>, files: map<nat, seq<T>>, rotations: nat)

  /** What the logger's calls do to one of its two buffers. */
  datatype Op<T> = Put(x: T) | Rotate(fileOk: bool) | Reset | Other

  function EmptyBuf<T>(): Buf<T> {
    Buf([], map[], 0)
  }

  /** A rotation writes a file unless there is nothing to write or the file
      cannot be opened, and empties the buffer in any case. */
  function Apply<T>(b: Buf<T>, op: Op<T>): Buf<T> {
    match op
    case Put(x) => b.(live := b.live + [x])
    case Rotate(fileOk) =>
      Buf([], if b.live != [] && fileOk then b.files[b.rotations := b.live] else b.files, b.rotations + 1)
    case Reset => b.(live := [])
    case Other => b
  }

  function Exec<T>(ops: seq<Op<T>>): Buf<T> {
    if ops == [] then EmptyBuf() else Apply(Exec(ops[..|ops| - 1]), ops[|ops| - 1])
  }

  lemma ExecAppend<T>(ops: seq<Op<T>>, op: Op<T>)
    ensures Exec(ops + [op]) == Apply(Exec(ops), op)
  {
    assert (ops + [op])[..|ops|] == ops;
  }

  /** Every entry logged, in order. */
  function Logged<T>(ops: seq<Op<T>>): seq<T> {
    if ops == [] then []
    else
      var last := ops[|ops| - 1];
      Logged(ops[..|ops| - 1]) + (if last.Put? then [last.x] else [])
  }

  /** Contents of the files numbered below `k`, one after the other. */
  function Written<T>(files: map<nat, seq<T>>, k: nat): seq<T> {
    if k == 0 then []
    else Written(files, k - 1) + (if k - 1 in files then files[k - 1] else [])
  }

  /** Entries thrown away: live at a reset, or at a rotation whose file could
      not be opened. */
  function Lost<T>(ops: seq<Op<T>>): nat {
    if ops == [] then 0
    else
      var past := ops[..|ops| - 1];
      var last := ops[|ops| - 1];
      Lost(past) + (if last.Reset? || (last.Rotate? && !last.fileOk) then |Exec(past).live| else 0)
  }

  lemma {:induction false} WrittenKept<T>(files: map<nat, seq<T>>, k: nat, m: nat, x: seq<T>)
    requires k <= m
    ensures Written(files[m := x], k) == Written(files, k)
  {
    if k > 0 {
      WrittenKept(files, k - 1, m, x);
    }
  }

  /** Files are numbered below the counter: none is ever written twice. */
  lemma {:induction false} FilesBelowCounter<T>(ops: seq<Op<T>>)
    ensures forall m :: m in Exec(ops).files ==> m < Exec(ops).rotations
  {
    if ops != [] {
      FilesBelowCounter(ops[..|ops| - 1]);
    }
  }

  /** What one call does to files, live entries and losses together. */
  lemma {:induction false} Accounted<T>(ops: seq<Op<T>>)
    ensures var b := Exec(ops);
            && |Written(b.files, b.rotations)| + |b.live| + Lost(ops) == |Logged(ops)|
            && (Lost(ops) == 0 ==> Written(b.files, b.rotations) + b.live == Logged(ops))
  {
    if ops != [] {
      var past := ops[..|ops| - 1];
      var a, b := Exec(past), Exec(ops);
      Accounted(past);
      FilesBelowCounter(past);
      match ops[|ops| - 1]
      case Put(x) =>
        assert Written(a.files, a.rotations) + (a.live + [x]) == (Written(a.files, a.rotations) + a.live) + [x];
      case Rotate(fileOk) =>
        WrittenKept(a.files, a.rotations, a.rotations, a.live);
        assert Written(b.files, b.rotations) ==
               Written(a.files, a.rotations) + (if fileOk then a.live else []);
      case Reset =>
      case Other =>
    }
  }

  /** Conservation: at any point of any run the files, in order of their
      numbers, followed by the live entries are exactly what was logged, if and
      only if nothing was live at a reset or at a rotation whose file could not
      be opened. */
  lemma ConservedIff<T>(ops: seq<Op<T>>)
    ensures var b := Exec(ops);
            Written(b.files, b.rotations) + b.live == Logged(ops) <==> Lost(ops) == 0
  {
    Accounted(ops);
    var b := Exec(ops);
    assert |Written(b.files, b.rotations) + b.live| == |Written(b.files, b.rotations)| + |b.live|;
  }
}
